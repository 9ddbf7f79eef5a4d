/** How far a level's cached total is from the quantities queued there, and why. */
module Drift {
  import opened ExchangeTypes
  import opened PriceTime
  import opened BookInvariant
  import opened LevelFacts
  import opened Matching

  /** The last fills of orders that were filled away at price p. */
  function FinalFills(evs: seq<Event>, p: Price): nat {
    if evs == [] then 0
    else (if evs[0].Fill? && evs[0].qty == evs[0].passive.qty && evs[0].passive.price == p then evs[0].qty else 0)
         + FinalFills(evs[1..], p)
  }

  /** What one request adds to the drift of level p on side s: final fills, or the live
      quantity given up by a modify in place. */
  function Leak(b: Book, req: OrderRequest, s: Side, p: Price): int {
    match req.requestType
    case New => if s == req.side then 0 else FinalFills(Matched(b, req).events, p)
    case Cancel => 0
    case Modify =>
      if Accepted(b, req.orderId, req.traderId) && s == SideOf(b, req.orderId).value then
        var r := Found(b, req.orderId);
        if KeepsPlace(r, req.price, req.quantity) && r.price == p then r.qty - req.quantity else 0
      else 0
  }

  /** A level outlives a request iff its front order was queued before it. */
  predicate Outlives(sb: SideBook, p: Price, now: nat) {
    At(sb.queue, p) != [] && At(sb.queue, p)[0].entry < now
  }

  ghost predicate DriftMoves(sb: SideBook, sb': SideBook, p: Price, leak: int, now: nat) {
    At(sb'.queue, p) != [] ==>
      sb'.DriftAt(p) == if Outlives(sb', p, now) then sb.DriftAt(p) + leak else 0
  }

  lemma OldLevelOutlives(sb: SideBook, p: Price, now: nat)
    requires Sound(sb.queue, now) && At(sb.queue, p) != []
    ensures Outlives(sb, p, now)
  {
    AtMember(sb.queue, p, At(sb.queue, p)[0]);
  }

  lemma SettleDrift(q: seq<Resting>, drift: map<Price, int>, at: Price, leak: int, p: Price)
    requires At(q, p) != []
    ensures Settle(q, drift, at, leak).queue == q
    ensures Settle(q, drift, at, leak).DriftAt(p) == SideBook(q, drift).DriftAt(p) + (if p == at then leak else 0)
  {
  }

  lemma FinalCons(e: Event, evs: seq<Event>, p: Price)
    ensures FinalFills([e] + evs, p)
         == (if e.Fill? && e.qty == e.passive.qty && e.passive.price == p then e.qty else 0) + FinalFills(evs, p)
  {
    assert ([e] + evs)[1..] == evs;
  }

  lemma {:induction false} WalkDrift(s: Side, inc: OrderRequest, rem: Quantity, sb: SideBook, p: Price)
    ensures var w := Walk(s, inc, rem, sb);
            At(w.side.queue, p) != [] ==>
              At(sb.queue, p) != [] && w.side.DriftAt(p) == sb.DriftAt(p) + FinalFills(w.events, p)
    decreases |sb.queue|
  {
    hide Settle, Tradable;
    if !Stops(s, inc, rem, sb.queue) {
      var h := sb.queue[0];
      if h.trader == inc.traderId || h.qty <= rem {
        var leak := if h.trader == inc.traderId then 0 else h.qty;
        var rem' := if h.trader == inc.traderId then rem else rem - h.qty;
        HeadDropped(sb, leak);
        WalkDrift(s, inc, rem', DropHead(sb, leak), p);
        if At(sb.queue[1..], p) != [] {
          SettleDrift(sb.queue[1..], sb.drift, h.price, leak, p);
        }
        FinalCons(Consumed(inc, h), Walk(s, inc, rem', DropHead(sb, leak)).events, p);
      } else {
        FinalCons(Fill(h, rem), [], p);
        var h' := h.(qty := h.qty - rem);
        assert ([h'] + sb.queue[1..])[1..] == sb.queue[1..];
      }
    }
  }

  lemma EnqueueDrift(s: Side, sb: SideBook, r: Resting, p: Price, now: nat)
    requires SideInv(s, sb, now) && r.entry == now
    ensures DriftMoves(sb, Enqueue(s, sb, r), p, 0, now)
  {
    hide At, Sorted;
    AtEnqueue(s, sb, r, p);
    if At(sb.queue, p) != [] {
      OldLevelOutlives(sb, p, now);
    }
  }

  lemma GoneDrift(s: Side, sb: SideBook, k: nat, p: Price, now: nat)
    requires k < |sb.queue| && SideInv(s, sb, now)
    ensures DriftMoves(sb, Gone(sb, k, 0), p, 0, now)
    ensures At(Gone(sb, k, 0).queue, p) != [] ==> Gone(sb, k, 0).DriftAt(p) == sb.DriftAt(p)
  {
    hide At, Sorted, Unique;
    GoneKeeps(s, sb, k, 0, now);
    if At(Gone(sb, k, 0).queue, p) != [] {
      OldLevelOutlives(Gone(sb, k, 0), p, now);
      GoneQueue(sb, k, 0);
      SettleDrift(sb.queue[..k] + sb.queue[k + 1..], sb.drift, sb.queue[k].price, 0, p);
    }
  }

  lemma ModifyDrift(s: Side, sb: SideBook, k: nat, price: Price, qty: Quantity, now: nat, p: Price)
    requires k < |sb.queue| && SideInv(s, sb, now)
    ensures var r := sb.queue[k];
            DriftMoves(sb, ModifySide(s, sb, k, price, qty, now), p,
                       if KeepsPlace(r, price, qty) && r.price == p then r.qty - qty else 0, now)
  {
    hide At, SideInv;
    var r := sb.queue[k];
    if KeepsPlace(r, price, qty) {
      var sb' := Resize(sb, k, qty, qty);
      ResizeShape(sb, k, qty, qty);
      ResizeKeeps(s, sb, k, r.(qty := qty, recorded := qty), sb'.drift, now);
      if At(sb'.queue, p) != [] {
        SideSound(s, SideBook(sb'.queue, sb'.drift), now);
        OldLevelOutlives(sb', p, now);
      }
    } else {
      var r' := r.(price := price, qty := qty, recorded := qty, entry := now);
      GoneKeeps(s, sb, k, 0, now);
      GoneDrift(s, sb, k, p, now);
      EnqueueDrift(s, Gone(sb, k, 0), r', p, now);
      SideSound(s, Gone(sb, k, 0), now);
      AtEnqueue(s, Gone(sb, k, 0), r', p);
    }
  }

  lemma SideSound(s: Side, sb: SideBook, now: nat)
    requires SideInv(s, sb, now)
    ensures Sound(sb.queue, now) && Sorted(s, sb.queue) && Anchored(sb)
  {
  }

  lemma Unmoved(s: Side, sb: SideBook, p: Price, now: nat)
    requires SideInv(s, sb, now)
    ensures DriftMoves(sb, sb, p, 0, now)
  {
    if At(sb.queue, p) != [] {
      OldLevelOutlives(sb, p, now);
    }
  }

  lemma AddDrift(b: Book, sym: SymbolId, req: OrderRequest, s: Side, p: Price)
    requires BookInv(b) && req.requestType.New?
    ensures DriftMoves(b.On(s), Add(b, sym, req).book.On(s), p, Leak(b, req, s, p), b.clock)
  {
    hide Walk, At, SideInv, Enqueue, DriftMoves;
    var w := Matched(b, req);
    if s == req.side {
      if w.rem == 0 {
        Unmoved(s, b.On(s), p, b.clock);
      } else {
        EnqueueDrift(s, b.On(s), Resting(req.orderId, req.traderId, req.price, w.rem, w.rem, b.clock), p, b.clock);
      }
    } else {
      WalkKeeps(s, req, req.quantity, b.On(s), b.clock);
      WalkDrift(s, req, req.quantity, b.On(s), p);
      PassiveMoves(s, b.On(s), w, p, b.clock);
    }
  }

  lemma PassiveMoves(s: Side, sb: SideBook, w: Walked, p: Price, now: nat)
    requires SideInv(s, w.side, now)
    requires At(w.side.queue, p) != [] ==> w.side.DriftAt(p) == sb.DriftAt(p) + FinalFills(w.events, p)
    ensures DriftMoves(sb, w.side, p, FinalFills(w.events, p), now)
  {
    if At(w.side.queue, p) != [] {
      OldLevelOutlives(w.side, p, now);
    }
  }

  /** Drift law, one request: a level that outlives the request drifts by exactly its leak, a new
      level starts without drift. */
  lemma DriftLaw(b: Book, sym: SymbolId, req: OrderRequest, s: Side, p: Price)
    requires BookInv(b)
    ensures DriftMoves(b.On(s), Apply(b, sym, req).book.On(s), p, Leak(b, req, s, p), b.clock)
  {
    hide At, SideInv, Add, DriftMoves, ModifySide, Gone, Index;
    Unmoved(s, b.On(s), p, b.clock);
    FoundFacts(b, req.orderId);
    match req.requestType
    case New => AddDrift(b, sym, req, s, p);
    case Cancel =>
      if Accepted(b, req.orderId, req.traderId) && s == SideOf(b, req.orderId).value {
        var k := Index(b.On(s).queue, req.orderId);
        GoneDrift(s, b.On(s), k, p, b.clock);
      }
    case Modify =>
      if Accepted(b, req.orderId, req.traderId) && s == SideOf(b, req.orderId).value {
        var k := Index(b.On(s).queue, req.orderId);
        ModifyDrift(s, b.On(s), k, req.price, req.quantity, b.clock, p);
      }
  }

  /** The cached total is right exactly when the drift is a multiple of 2^32. */
  lemma ExactIff(sb: SideBook, p: Price)
    ensures LevelTotal(sb, p) == Wrap32(SumQty(At(sb.queue, p))) <==> sb.DriftAt(p) % TWO32 == 0
  {
    ShiftedMod(SumQty(At(sb.queue, p)), sb.DriftAt(p));
  }

  lemma ShiftedMod(a: int, d: int)
    ensures (a + d) % TWO32 == a % TWO32 <==> d % TWO32 == 0
  {
  }
}
