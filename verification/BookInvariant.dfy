/** What every request keeps: price-time order, unique ids, live <= recorded, no drift without a level. */
module BookInvariant {
  import opened ExchangeTypes
  import opened PriceTime

  ghost predicate Sorted(s: Side, q: seq<Resting>) {
    forall i, j :: 0 <= i < j < |q| ==> Before(s, q[i], q[j])
  }

  ghost predicate Unique(q: seq<Resting>) {
    forall i, j :: 0 <= i < j < |q| ==> q[i].id != q[j].id
  }

  ghost function Ids(q: seq<Resting>): set<OrderId> {
    set r | r in q :: r.id
  }

  ghost predicate Sound(q: seq<Resting>, now: nat) {
    forall r | r in q :: r.qty <= r.recorded && r.entry < now
  }

  ghost predicate Anchored(sb: SideBook) {
    forall p | p in sb.drift :: At(sb.queue, p) != []
  }

  ghost predicate SideInv(s: Side, sb: SideBook, now: nat) {
    Sorted(s, sb.queue) && Unique(sb.queue) && Sound(sb.queue, now) && Anchored(sb)
  }

  ghost predicate BookInv(b: Book) {
    && SideInv(Buy, b.bids, b.clock)
    && SideInv(Sell, b.asks, b.clock)
    && Ids(b.bids.queue) !! Ids(b.asks.queue)
  }

  ghost function BookIds(b: Book): set<OrderId> {
    Ids(b.bids.queue) + Ids(b.asks.queue)
  }

  // ---- Levels as slices of the queue ----

  lemma {:induction false} AtConcat(a: seq<Resting>, b: seq<Resting>, p: Price)
    ensures At(a + b, p) == At(a, p) + At(b, p)
  {
    if a == [] {
      assert a + b == b;
    } else {
      assert (a + b)[1..] == a[1..] + b;
      AtConcat(a[1..], b, p);
    }
  }

  lemma {:induction false} AtMember(q: seq<Resting>, p: Price, r: Resting)
    ensures r in At(q, p) <==> r in q && r.price == p
  {
    if q != [] {
      assert q == [q[0]] + q[1..];
      AtMember(q[1..], p, r);
    }
  }

  lemma {:induction false} AtUnique(q: seq<Resting>, p: Price)
    requires Unique(q)
    ensures Unique(At(q, p))
  {
    if q != [] {
      AtUnique(q[1..], p);
      var t := At(q[1..], p);
      forall j | 0 <= j < |t|
        ensures t[j].id != q[0].id
      {
        AtMember(q[1..], p, t[j]);
      }
    }
  }

  lemma AtSingle(r: Resting, p: Price)
    ensures At([r], p) == if r.price == p then [r] else []
  {
  }

  /** Replacing one order by `mid` replaces it in its level and nowhere else. */
  lemma AtSplice(q: seq<Resting>, k: nat, mid: seq<Resting>, p: Price)
    requires k < |q|
    ensures At(q, p) == At(q[..k], p) + At([q[k]], p) + At(q[k + 1..], p)
    ensures At(q[..k] + mid + q[k + 1..], p) == At(q[..k], p) + At(mid, p) + At(q[k + 1..], p)
  {
    assert q == q[..k] + [q[k]] + q[k + 1..];
    AtConcat(q[..k] + [q[k]], q[k + 1..], p);
    AtConcat(q[..k], [q[k]], p);
    AtConcat(q[..k] + mid, q[k + 1..], p);
    AtConcat(q[..k], mid, p);
  }

  lemma {:induction false} NoneAt(q: seq<Resting>, p: Price)
    requires forall i :: 0 <= i < |q| ==> q[i].price != p
    ensures At(q, p) == []
  {
    if q != [] {
      NoneAt(q[1..], p);
    }
  }

  /** Everything from the slot on is strictly worse. */
  lemma SlotTail(s: Side, q: seq<Resting>, price: Price)
    requires Sorted(s, q)
    ensures forall i :: Slot(s, q, price) <= i < |q| ==> Better(s, price, q[i].price)
  {
    var k := Slot(s, q, price);
    assert forall i :: k < i < |q| ==> Before(s, q[k], q[i]);
  }

  /** A new order joins the back of its level. */
  lemma AtEnqueue(s: Side, sb: SideBook, r: Resting, p: Price)
    requires Sorted(s, sb.queue)
    ensures At(Enqueue(s, sb, r).queue, p) == At(sb.queue, p) + (if p == r.price then [r] else [])
  {
    var k := Slot(s, sb.queue, r.price);
    SlotTail(s, sb.queue, r.price);
    AtInsert(sb.queue, k, r, p);
  }

  lemma AtInsert(q: seq<Resting>, k: nat, r: Resting, p: Price)
    requires k <= |q|
    requires forall i :: k <= i < |q| ==> q[i].price != r.price
    ensures At(q[..k] + [r] + q[k..], p) == At(q, p) + (if p == r.price then [r] else [])
  {
    var a, b := q[..k], q[k..];
    assert q == a + b;
    AtConcat(a, b, p);
    AtConcat(a + [r], b, p);
    AtConcat(a, [r], p);
    AtSingle(r, p);
    if p == r.price {
      NoneAt(b, p);
    }
  }

  lemma {:induction false} SumConcat(a: seq<Resting>, b: seq<Resting>)
    ensures SumQty(a + b) == SumQty(a) + SumQty(b)
  {
    if a == [] {
      assert a + b == b;
    } else {
      assert (a + b)[1..] == a[1..] + b;
      SumConcat(a[1..], b);
    }
  }

  // ---- Each queue operation keeps the side invariant ----

  lemma InsertMembers(q: seq<Resting>, k: nat, r: Resting)
    requires k <= |q|
    ensures forall x :: x in q[..k] + [r] + q[k..] <==> x in q || x == r
    ensures Ids(q[..k] + [r] + q[k..]) == Ids(q) + {r.id}
  {
    assert q == q[..k] + q[k..];
  }

  lemma InsertSorted(s: Side, q: seq<Resting>, k: nat, r: Resting, now: nat)
    requires Sorted(s, q) && Sound(q, now) && r.entry == now && k <= |q|
    requires forall i :: 0 <= i < k ==> !Better(s, r.price, q[i].price)
    requires forall i :: k <= i < |q| ==> Better(s, r.price, q[i].price)
    ensures Sorted(s, q[..k] + [r] + q[k..])
  {
    assert forall i :: 0 <= i < |q| ==> q[i] in q;
  }

  lemma InsertUnique(q: seq<Resting>, k: nat, r: Resting)
    requires Unique(q) && r.id !in Ids(q) && k <= |q|
    ensures Unique(q[..k] + [r] + q[k..])
  {
    assert forall i :: 0 <= i < |q| ==> q[i] in q;
    assert forall i :: 0 <= i < |q| ==> q[i].id != r.id;
  }

  lemma EnqueueKeeps(s: Side, sb: SideBook, r: Resting, now: nat)
    requires SideInv(s, sb, now)
    requires r.id !in Ids(sb.queue) && r.qty <= r.recorded && r.entry == now
    ensures SideInv(s, Enqueue(s, sb, r), now + 1)
    ensures Ids(Enqueue(s, sb, r).queue) == Ids(sb.queue) + {r.id}
  {
    var k := Slot(s, sb.queue, r.price);
    SlotTail(s, sb.queue, r.price);
    InsertMembers(sb.queue, k, r);
    InsertSorted(s, sb.queue, k, r, now);
    InsertUnique(sb.queue, k, r);
    forall p | p in sb.drift
      ensures At(Enqueue(s, sb, r).queue, p) != []
    {
      AtEnqueue(s, sb, r, p);
    }
  }

  lemma DropMembers(q: seq<Resting>, k: nat)
    requires Unique(q) && k < |q|
    ensures forall x :: x in q[..k] + q[k + 1..] <==> x in q && x.id != q[k].id
    ensures Ids(q[..k] + q[k + 1..]) == Ids(q) - {q[k].id}
  {
    var q' := q[..k] + q[k + 1..];
    assert forall i :: 0 <= i < |q'| ==> q'[i] == if i < k then q[i] else q[i + 1];
    assert forall x :: x in q' ==> x in q && x.id != q[k].id;
    assert q == q[..k] + [q[k]] + q[k + 1..];
  }

  lemma DropSorted(s: Side, q: seq<Resting>, k: nat)
    requires Sorted(s, q) && Unique(q) && k < |q|
    ensures Sorted(s, q[..k] + q[k + 1..]) && Unique(q[..k] + q[k + 1..])
  {
    var q' := q[..k] + q[k + 1..];
    assert forall i :: 0 <= i < |q'| ==> q'[i] == if i < k then q[i] else q[i + 1];
  }

  lemma DropAnchored(sb: SideBook, k: nat, leak: int)
    requires Anchored(sb) && k < |sb.queue|
    ensures Anchored(Settle(sb.queue[..k] + sb.queue[k + 1..], sb.drift, sb.queue[k].price, leak))
  {
    var q := sb.queue;
    var q' := q[..k] + q[k + 1..];
    forall p | p in sb.drift && p != q[k].price
      ensures At(q', p) != []
    {
      AtSplice(q, k, [], p);
      AtSingle(q[k], p);
      assert q[..k] + [] + q[k + 1..] == q';
    }
  }

  lemma DropKeeps(s: Side, sb: SideBook, k: nat, leak: int, now: nat)
    requires k < |sb.queue| && SideInv(s, sb, now)
    ensures var q := sb.queue[..k] + sb.queue[k + 1..];
            && SideInv(s, Settle(q, sb.drift, sb.queue[k].price, leak), now)
            && Ids(q) == Ids(sb.queue) - {sb.queue[k].id}
  {
    DropMembers(sb.queue, k);
    DropSorted(s, sb.queue, k);
    DropAnchored(sb, k, leak);
  }

  lemma DropHeadKeeps(s: Side, sb: SideBook, leak: int, now: nat)
    requires sb.queue != [] && SideInv(s, sb, now)
    ensures SideInv(s, DropHead(sb, leak), now)
    ensures Ids(DropHead(sb, leak).queue) == Ids(sb.queue) - {sb.queue[0].id}
  {
    var q := sb.queue[..0] + sb.queue[0 + 1..];
    assert q == sb.queue[1..];
    assert DropHead(sb, leak) == Settle(q, sb.drift, sb.queue[0].price, leak);
    DropKeeps(s, sb, 0, leak, now);
  }

  lemma ResizeMembers(q: seq<Resting>, k: nat, r': Resting)
    requires k < |q| && r'.id == q[k].id
    ensures var q' := q[..k] + [r'] + q[k + 1..];
            (forall x :: x in q' ==> x in q || x == r') && Ids(q') == Ids(q)
  {
    var q' := q[..k] + [r'] + q[k + 1..];
    assert q == q[..k] + [q[k]] + q[k + 1..];
    assert q[k] in q && r' in q';
  }

  /** Changing the size of an order in place, with any drift adjustment at its own price. */
  lemma ResizeKeeps(s: Side, sb: SideBook, k: nat, r': Resting, drift: map<Price, int>, now: nat)
    requires k < |sb.queue| && SideInv(s, sb, now)
    requires r'.id == sb.queue[k].id && r'.price == sb.queue[k].price && r'.entry == sb.queue[k].entry
    requires r'.qty <= r'.recorded
    requires drift.Keys <= sb.drift.Keys + {r'.price}
    ensures var q := sb.queue[..k] + [r'] + sb.queue[k + 1..];
            && SideInv(s, SideBook(q, drift), now)
            && Ids(q) == Ids(sb.queue)
  {
    var q' := sb.queue[..k] + [r'] + sb.queue[k + 1..];
    ResizeMembers(sb.queue, k, r');
    assert Sorted(s, q') && Unique(q') by {
      assert forall i :: 0 <= i < |q'| ==> q'[i] == if i == k then r' else sb.queue[i];
    }
    assert sb.queue[k] in sb.queue;
    forall p | p in drift
      ensures At(q', p) != []
    {
      hide Sorted, Unique, Sound, Ids;
      AtSplice(sb.queue, k, [r'], p);
      AtSingle(r', p);
      AtSingle(sb.queue[k], p);
    }
  }

  lemma ShrinkHeadKeeps(s: Side, sb: SideBook, t: Quantity, now: nat)
    requires sb.queue != [] && SideInv(s, sb, now) && t <= sb.queue[0].qty
    ensures SideInv(s, Shrink(sb, t), now) && Ids(Shrink(sb, t).queue) == Ids(sb.queue)
  {
    var h := sb.queue[0];
    var h' := h.(qty := h.qty - t);
    assert h in sb.queue;
    ResizeKeeps(s, sb, 0, h', sb.drift, now);
    assert sb.queue[..0] + [h'] + sb.queue[0 + 1..] == [h'] + sb.queue[1..];
  }

  lemma LaterStillSound(s: Side, sb: SideBook, now: nat)
    requires SideInv(s, sb, now)
    ensures SideInv(s, sb, now + 1)
  {
  }

  lemma {:induction false} WalkKeeps(s: Side, inc: OrderRequest, rem: Quantity, sb: SideBook, now: nat)
    requires SideInv(s, sb, now)
    ensures var w := Walk(s, inc, rem, sb);
            SideInv(s, w.side, now) && Ids(w.side.queue) <= Ids(sb.queue)
    decreases |sb.queue|
  {
    hide SideInv, Ids;
    if !(rem == 0 || sb.queue == [] || !Tradable(s, inc.price, sb.queue[0].price)) {
      var h := sb.queue[0];
      if h.trader == inc.traderId {
        DropHeadKeeps(s, sb, 0, now);
        WalkKeeps(s, inc, rem, DropHead(sb, 0), now);
      } else if h.qty <= rem {
        DropHeadKeeps(s, sb, h.qty, now);
        WalkKeeps(s, inc, rem - h.qty, DropHead(sb, h.qty), now);
      } else {
        ShrinkHeadKeeps(s, sb, rem, now);
      }
    }
  }

  // ---- Each request keeps the book invariant ----

  lemma AddKeeps(b: Book, sym: SymbolId, req: OrderRequest)
    requires BookInv(b) && req.orderId !in BookIds(b)
    ensures BookInv(Add(b, sym, req).book)
    ensures BookIds(Add(b, sym, req).book) <= BookIds(b) + {req.orderId}
  {
    hide SideInv, Ids;
    var s := req.side.Opposite();
    WalkKeeps(s, req, req.quantity, b.On(s), b.clock);
    var w := Matched(b, req);
    LaterStillSound(s, w.side, b.clock);
    LaterStillSound(req.side, b.On(req.side), b.clock);
    if w.rem != 0 {
      EnqueueKeeps(req.side, b.On(req.side),
                   Resting(req.orderId, req.traderId, req.price, w.rem, w.rem, b.clock), b.clock);
    }
  }

  /** What of the order rests, if anything, rests under an id that is not resting after the match. */
  ghost predicate Admissible(b: Book, req: OrderRequest) {
    var w := Matched(b, req);
    w.rem == 0 || req.orderId !in BookIds(b.With(req.side.Opposite(), w.side))
  }

  lemma FreshIsAdmissible(b: Book, req: OrderRequest)
    requires BookInv(b) && req.orderId !in BookIds(b)
    ensures Admissible(b, req)
  {
    hide SideInv, Ids, Walk;
    WalkKeeps(req.side.Opposite(), req, req.quantity, b.On(req.side.Opposite()), b.clock);
  }

  lemma TwiceIsNotUnique(s: Side, sb: SideBook, r: Resting)
    requires r.id in Ids(sb.queue)
    ensures !Unique(Enqueue(s, sb, r).queue)
  {
    var k := Slot(s, sb.queue, r.price);
    var q' := Enqueue(s, sb, r).queue;
    var x :| x in sb.queue && x.id == r.id;
    var i :| 0 <= i < |sb.queue| && sb.queue[i] == x;
    assert q'[k] == r && q'[if i < k then i else i + 1] == x;
  }

  /** A new order keeps the invariant if and only if it is admissible; a fresh id always is. */
  lemma AddKeepsIff(b: Book, sym: SymbolId, req: OrderRequest)
    requires BookInv(b)
    ensures BookInv(Add(b, sym, req).book) <==> Admissible(b, req)
  {
    hide Sorted, Sound, Anchored, Unique, Ids, Walk, Enqueue;
    var s := req.side.Opposite();
    WalkKeeps(s, req, req.quantity, b.On(s), b.clock);
    var w := Matched(b, req);
    LaterStillSound(s, w.side, b.clock);
    LaterStillSound(req.side, b.On(req.side), b.clock);
    if w.rem != 0 {
      var r := Resting(req.orderId, req.traderId, req.price, w.rem, w.rem, b.clock);
      if req.orderId in Ids(b.On(req.side).queue) {
        TwiceIsNotUnique(req.side, b.On(req.side), r);
      } else {
        EnqueueKeeps(req.side, b.On(req.side), r, b.clock);
      }
    }
  }

  lemma FoundFacts(b: Book, id: OrderId)
    requires BookInv(b)
    ensures SideOf(b, id).Some? <==> id in BookIds(b)
    ensures SideOf(b, id).Some? ==>
              var s := SideOf(b, id).value; var q := b.On(s).queue; var k := Index(q, id);
              && k < |q| && q[k] == Found(b, id) && q[k].id == id && q[k] in q
              && id in Ids(q) && id !in Ids(b.On(s.Opposite()).queue)
  {
    assert forall q: seq<Resting> :: Index(q, id) < |q| ==> q[Index(q, id)] in q;
  }

  lemma CancelKeeps(b: Book, sym: SymbolId, id: OrderId, trader: TraderId)
    requires BookInv(b)
    ensures BookInv(CancelOrder(b, sym, id, trader).book)
    ensures BookIds(CancelOrder(b, sym, id, trader).book)
         == if Accepted(b, id, trader) then BookIds(b) - {id} else BookIds(b)
  {
    hide SideInv, Ids;
    FoundFacts(b, id);
    if Accepted(b, id, trader) {
      var s := SideOf(b, id).value;
      DropKeeps(s, b.On(s), Index(b.On(s).queue, id), 0, b.clock);
    }
  }

  lemma ModifySideKeeps(s: Side, sb: SideBook, k: nat, price: Price, qty: Quantity, now: nat)
    requires k < |sb.queue| && SideInv(s, sb, now)
    ensures SideInv(s, ModifySide(s, sb, k, price, qty, now), now + 1)
    ensures Ids(ModifySide(s, sb, k, price, qty, now).queue) == Ids(sb.queue)
  {
    var r := sb.queue[k];
    if KeepsPlace(r, price, qty) {
      ResizeKeeps(s, sb, k, r.(qty := qty, recorded := qty), Resize(sb, k, qty, qty).drift, now);
      LaterStillSound(s, Resize(sb, k, qty, qty), now);
    } else {
      DropKeeps(s, sb, k, 0, now);
      assert r in sb.queue;
      EnqueueKeeps(s, Gone(sb, k, 0), r.(price := price, qty := qty, recorded := qty, entry := now), now);
    }
  }

  lemma ModifyKeeps(b: Book, sym: SymbolId, id: OrderId, trader: TraderId, price: Price, qty: Quantity)
    requires BookInv(b)
    ensures BookInv(ModifyOrder(b, sym, id, trader, price, qty).book)
    ensures BookIds(ModifyOrder(b, sym, id, trader, price, qty).book) == BookIds(b)
  {
    hide SideInv, Ids;
    FoundFacts(b, id);
    if Accepted(b, id, trader) {
      var s := SideOf(b, id).value;
      ModifySideKeeps(s, b.On(s), Index(b.On(s).queue, id), price, qty, b.clock);
      LaterStillSound(s.Opposite(), b.On(s.Opposite()), b.clock);
    }
  }

  /** Every request keeps the invariant; a new order needs an id that is not resting. */
  lemma ApplyKeeps(b: Book, sym: SymbolId, req: OrderRequest)
    requires BookInv(b)
    requires req.requestType.New? ==> req.orderId !in BookIds(b)
    ensures BookInv(Apply(b, sym, req).book)
    ensures BookIds(Apply(b, sym, req).book) <= BookIds(b) + (if req.requestType.New? then {req.orderId} else {})
  {
    match req.requestType
    case New => AddKeeps(b, sym, req);
    case Cancel => CancelKeeps(b, sym, req.orderId, req.traderId);
    case Modify => ModifyKeeps(b, sym, req.orderId, req.traderId, req.price, req.quantity);
  }
}
