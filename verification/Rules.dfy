/** What each request does to a book and what it answers, told from the resting orders alone. */
module Rules {
  import opened ExchangeTypes
  import opened PriceTime
  import opened BookInvariant
  import opened LevelFacts
  import opened Matching

  // ---- Who may cancel and modify ----

  /** An order of this id and trader rests in the book. */
  ghost predicate Owns(b: Book, trader: TraderId, id: OrderId) {
    exists s: Side, r :: r in b.On(s).queue && r.id == id && r.trader == trader
  }

  lemma OwnsResting(b: Book, s: Side, r: Resting)
    requires r in b.On(s).queue
    ensures Owns(b, r.trader, r.id)
  {
  }

  /** In a book in order an id is found where it rests. */
  lemma FoundIs(b: Book, s: Side, r: Resting)
    requires BookInv(b) && r in b.On(s).queue
    ensures SideOf(b, r.id) == Some(s) && Found(b, r.id) == r
  {
    var q := b.On(s).queue;
    var k :| 0 <= k < |q| && q[k] == r;
    DisjointIds(b, s, k);
    assert Index(q, r.id) == k;
  }

  /** A cancel or modify is accepted if and only if an order of that id and trader rests. */
  lemma AcceptedIff(b: Book, id: OrderId, trader: TraderId)
    requires BookInv(b)
    ensures Accepted(b, id, trader) <==> Owns(b, trader, id)
  {
    hide BookInv, SideOf, Found;
    FoundFacts(b, id);
    if Accepted(b, id, trader) {
      OwnsResting(b, SideOf(b, id).value, Found(b, id));
    }
    if Owns(b, trader, id) {
      var s: Side, r :| r in b.On(s).queue && r.id == id && r.trader == trader;
      FoundIs(b, s, r);
    }
  }

  /** The answer to a cancel or modify of an order that is not there or not the trader's. */
  function Refusal(b: Book, sym: SymbolId, id: OrderId, trader: TraderId): Outcome {
    Outcome(b, [OrderConfirm(Reject, id, 0, trader, sym, 0, 0, UnknownOrder)], [])
  }

  /** Exactly the orders with this id have left, `more` has joined side s. */
  ghost predicate Changed(b: Book, b': Book, id: OrderId, s: Side, more: set<Resting>) {
    forall z: Side, x :: x in b'.On(z).queue <==> (x in b.On(z).queue && x.id != id) || (z == s && x in more)
  }

  /** A trader's resting order is cancelled: acknowledged, reported with what was left of it, gone, and
      everything else stays. Any other cancel is rejected without effect. */
  lemma CancelRule(b: Book, sym: SymbolId, id: OrderId, trader: TraderId)
    requires BookInv(b)
    ensures !Owns(b, trader, id) ==> CancelOrder(b, sym, id, trader) == Refusal(b, sym, id, trader)
    ensures forall s: Side, r | r in b.On(s).queue && r.id == id && r.trader == trader ::
              var o := CancelOrder(b, sym, id, trader);
              && o.confirms == [OrderConfirm(CancelAck, id, 0, trader, sym, 0, 0, UnknownOrder)]
              && o.mds == [MdUpdate(sym, id, s, r.price, r.qty, MdCancel)]
              && Changed(b, o.book, id, s, {})
  {
    hide SideOf, Found, Owns, Gone, SideInv, Ids, Index;
    AcceptedIff(b, id, trader);
    forall s: Side, r | r in b.On(s).queue && r.id == id && r.trader == trader
      ensures var o := CancelOrder(b, sym, id, trader);
              && o.confirms == [OrderConfirm(CancelAck, id, 0, trader, sym, 0, 0, UnknownOrder)]
              && o.mds == [MdUpdate(sym, id, s, r.price, r.qty, MdCancel)]
              && Changed(b, o.book, id, s, {})
    {
      OwnsResting(b, s, r);
      FoundIs(b, s, r);
      FoundFacts(b, id);
      var k := Index(b.On(s).queue, id);
      DisjointIds(b, s, k);
      GoneKeeps(s, b.On(s), k, 0, b.clock);
    }
  }

  /** A trader's resting order is modified: it has the new price and quantity, and it has kept its place in
      time if and only if the price is unchanged and the quantity below the one last recorded; else it
      is newer than all others. Everything else stays. Any other modify is rejected without effect. */
  lemma ModifyRule(b: Book, sym: SymbolId, id: OrderId, trader: TraderId, price: Price, qty: Quantity)
    requires BookInv(b)
    ensures !Owns(b, trader, id) ==> ModifyOrder(b, sym, id, trader, price, qty) == Refusal(b, sym, id, trader)
    ensures forall s: Side, r | r in b.On(s).queue && r.id == id && r.trader == trader ::
              var o := ModifyOrder(b, sym, id, trader, price, qty);
              var entry := if price == r.price && qty < r.recorded then r.entry else b.clock;
              && o.confirms == [OrderConfirm(ModifyAck, id, 0, trader, sym, 0, 0, UnknownOrder)]
              && o.mds == [MdUpdate(sym, id, s, price, qty, MdModify)]
              && Changed(b, o.book, id, s, {Resting(id, trader, price, qty, qty, entry)})
              && o.book.clock == b.clock + 1
  {
    hide SideOf, Found, Owns, ModifySide, BookInv, Index, Changed;
    AcceptedIff(b, id, trader);
    forall s: Side, r | r in b.On(s).queue && r.id == id && r.trader == trader
      ensures var o := ModifyOrder(b, sym, id, trader, price, qty);
              var entry := if price == r.price && qty < r.recorded then r.entry else b.clock;
              && o.confirms == [OrderConfirm(ModifyAck, id, 0, trader, sym, 0, 0, UnknownOrder)]
              && o.mds == [MdUpdate(sym, id, s, price, qty, MdModify)]
              && Changed(b, o.book, id, s, {Resting(id, trader, price, qty, qty, entry)})
              && o.book.clock == b.clock + 1
    {
      OwnsResting(b, s, r);
      FoundIs(b, s, r);
      FoundFacts(b, id);
      ModifiedSide(b, s, Index(b.On(s).queue, id), price, qty);
    }
  }

  lemma ModifiedSide(b: Book, s: Side, k: nat, price: Price, qty: Quantity)
    requires BookInv(b) && k < |b.On(s).queue|
    ensures var r := b.On(s).queue[k];
            var entry := if price == r.price && qty < r.recorded then r.entry else b.clock;
            Changed(b, b.With(s, ModifySide(s, b.On(s), k, price, qty, b.clock)).Tick(), r.id, s,
                    {Resting(r.id, r.trader, price, qty, qty, entry)})
  {
    hide Gone, Enqueue, Ids, Sorted, Sound, Anchored, Resize;
    var sb := b.On(s);
    var r := sb.queue[k];
    DisjointIds(b, s, k);
    if price == r.price && qty < r.recorded {
      var r' := r.(qty := qty, recorded := qty);
      ResizeShape(sb, k, qty, qty);
      ReplacedMembers(sb.queue, k, r');
    } else {
      var r' := r.(price := price, qty := qty, recorded := qty, entry := b.clock);
      GoneKeeps(s, sb, k, 0, b.clock);
      EnqueueMembers(s, Gone(sb, k, 0), r');
    }
  }

  lemma ReplacedMembers(q: seq<Resting>, k: nat, r: Resting)
    requires Unique(q) && k < |q| && r.id == q[k].id
    ensures forall x :: x in q[..k] + [r] + q[k + 1..] <==> (x in q && x.id != r.id) || x == r
  {
    DropMembers(q, k);
    var with, without := q[..k] + [r] + q[k + 1..], q[..k] + q[k + 1..];
    assert forall x :: x in with <==> x in without || x == r;
  }

  // ---- New orders ----

  /** The limit of a new order admits this price. */
  predicate Within(req: OrderRequest, price: Price) {
    if req.side.Buy? then price <= req.price else price >= req.price
  }

  function Taken(fills: seq<nat>): nat {
    if fills == [] then 0 else fills[0] + Taken(fills[1..])
  }

  /** How much of each of the first orders an incoming order takes: it meets them in queue order while it
      has something left and its limit admits them, takes all it can of each, and nothing of the
      trader's own. */
  ghost predicate Takes(req: OrderRequest, qty: nat, q: seq<Resting>, fills: seq<Quantity>) {
    && |fills| <= |q| && Taken(fills) <= qty
    && (forall i | 0 <= i < |fills| ::
          && Taken(fills[..i]) < qty && Within(req, q[i].price)
          && fills[i] == if q[i].trader == req.traderId then 0
                         else if q[i].qty <= qty - Taken(fills[..i]) then q[i].qty else qty - Taken(fills[..i]))
    && (Taken(fills) == qty || |fills| == |q| || !Within(req, q[|fills|].price))
  }

  /** What is told of it: the trader's own orders are cancelled; for any other, both sides are told of an
      execution at the resting order's price. */
  function Receipts(sym: SymbolId, req: OrderRequest, q: seq<Resting>, fills: seq<Quantity>): seq<OrderConfirm>
    requires |q| == |fills|
  {
    if q == [] then []
    else
      (if q[0].trader == req.traderId then
         [OrderConfirm(CancelAck, q[0].id, 0, q[0].trader, sym, 0, q[0].qty, SelfTrade)]
       else
         [OrderConfirm(Trade, q[0].id, 0, q[0].trader, sym, q[0].price, fills[0], UnknownOrder),
          OrderConfirm(Trade, req.orderId, req.clientOrderId, req.traderId, sym, q[0].price, fills[0], UnknownOrder)])
      + Receipts(sym, req, q[1..], fills[1..])
  }

  function Prints(sym: SymbolId, req: OrderRequest, q: seq<Resting>, fills: seq<Quantity>): seq<MdUpdate>
    requires |q| == |fills|
  {
    if q == [] then []
    else
      var s := if req.side.Buy? then Sell else Buy;
      (if q[0].trader == req.traderId then
         [MdUpdate(sym, q[0].id, s, q[0].price, q[0].qty, MdCancel)]
       else
         [MdUpdate(sym, q[0].id, s, q[0].price, fills[0], MdTrade),
          MdUpdate(sym, req.orderId, req.side, req.price, fills[0], MdTrade)])
      + Prints(sym, req, q[1..], fills[1..])
  }

  /** The orders behind those met, the last one met in front if something is left of it. */
  function Survivors(req: OrderRequest, q: seq<Resting>, fills: seq<Quantity>): seq<Resting>
    requires |fills| <= |q|
  {
    var n := |fills|;
    if n > 0 && q[n - 1].trader != req.traderId && fills[n - 1] < q[n - 1].qty then
      [q[n - 1].(qty := q[n - 1].qty - fills[n - 1])] + q[n..]
    else q[n..]
  }

  ghost predicate Pass(sym: SymbolId, req: OrderRequest, rem: nat, q: seq<Resting>, w: Walked, fills: seq<Quantity>) {
    && Takes(req, rem, q, fills)
    && w.rem == rem - Taken(fills)
    && Confirms(sym, req, w.events) == Receipts(sym, req, q[..|fills|], fills)
    && Mds(sym, req.side.Opposite(), req, w.events) == Prints(sym, req, q[..|fills|], fills)
    && w.side.queue == Survivors(req, q, fills)
  }

  lemma NothingTaken(sym: SymbolId, req: OrderRequest, rem: Quantity, sb: SideBook)
    requires rem == 0 || sb.queue == [] || !Within(req, sb.queue[0].price)
    ensures Pass(sym, req, rem, sb.queue, Walked([], rem, sb), [])
  {
    assert sb.queue[..0] == [] && sb.queue[0..] == sb.queue;
  }

  lemma TakenCons(fill: Quantity, fills: seq<Quantity>, i: nat)
    requires 0 < i <= |fills| + 1
    ensures Taken(([fill] + fills)[..i]) == fill + Taken(fills[..i - 1])
  {
    assert ([fill] + fills)[..i][1..] == fills[..i - 1];
  }

  /** An order that is taken whole or cancelled comes first. */
  lemma TakesCons(req: OrderRequest, rem: nat, q: seq<Resting>, fill: Quantity, fills: seq<Quantity>)
    requires q != [] && fill <= rem && rem > 0 && Within(req, q[0].price)
    requires fill == if q[0].trader == req.traderId then 0 else q[0].qty
    requires Takes(req, rem - fill, q[1..], fills)
    ensures Takes(req, rem, q, [fill] + fills) && Taken([fill] + fills) == fill + Taken(fills)
  {
    hide Taken, Within;
    var all := [fill] + fills;
    TakenCons(fill, fills, |all|);
    assert all[..|all|] == all && fills[..|fills|] == fills;
    forall i | 0 <= i < |all|
      ensures Taken(all[..i]) < rem && Within(req, q[i].price)
      ensures all[i] == if q[i].trader == req.traderId then 0
                      else if q[i].qty <= rem - Taken(all[..i]) then q[i].qty else rem - Taken(all[..i])
    {
      if i > 0 {
        TakenCons(fill, fills, i);
        assert q[i] == q[1..][i - 1] && all[i] == fills[i - 1];
      } else {
        NoneTaken(all);
      }
    }
    if |all| < |q| {
      assert q[|all|] == q[1..][|fills|];
    }
  }

  lemma FitsBehind(req: OrderRequest, qty: nat, q: seq<Resting>, fills: seq<Quantity>)
    requires q != [] && Takes(req, qty, q[1..], fills)
    ensures |fills| < |q|
  {
  }

  lemma NoneTaken(fills: seq<Quantity>)
    ensures Taken(fills[..0]) == 0
  {
  }

  lemma OneMore(sym: SymbolId, req: OrderRequest, rem: Quantity, sb: SideBook, e: Event, w': Walked,
                fill: Quantity, fills: seq<Quantity>)
    requires sb.queue != [] && rem > 0 && Within(req, sb.queue[0].price) && e.passive == sb.queue[0]
    requires if sb.queue[0].trader == req.traderId then e.SelfCancel? && fill == 0
             else e.Fill? && e.qty == fill == sb.queue[0].qty && fill <= rem
    requires Pass(sym, req, rem - fill, sb.queue[1..], w', fills)
    ensures Pass(sym, req, rem, sb.queue, w'.(events := [e] + w'.events), [fill] + fills)
  {
    hide Takes, Taken, Within;
    var q, all := sb.queue, [fill] + fills;
    TakesCons(req, rem, q, fill, fills);
    FitsBehind(req, rem - fill, q, fills);
    assert all[1..] == fills && q[..|all|][1..] == q[1..][..|fills|] && q[|all|..] == q[1..][|fills|..];
    assert ([e] + w'.events)[1..] == w'.events;
    if fills != [] {
      assert q[|all| - 1] == q[1..][|fills| - 1] && all[|all| - 1] == fills[|fills| - 1];
    }
  }

  lemma {:induction false} WalkRule(sym: SymbolId, req: OrderRequest, rem: Quantity, sb: SideBook)
    returns (fills: seq<Quantity>)
    ensures Pass(sym, req, rem, sb.queue, Walk(req.side.Opposite(), req, rem, sb), fills)
    decreases |sb.queue|
  {
    hide Settle, At, Pass;
    var q := sb.queue;
    if rem == 0 || q == [] || !Within(req, q[0].price) {
      NothingTaken(sym, req, rem, sb);
      return [];
    }
    var h := q[0];
    if h.trader != req.traderId && rem < h.qty {
      LastTaken(sym, req, rem, sb);
      return [rem];
    }
    var own := h.trader == req.traderId;
    var fill := if own then 0 else h.qty;
    HeadDropped(sb, fill);
    var more := WalkRule(sym, req, rem - fill, DropHead(sb, fill));
    OneMore(sym, req, rem, sb, if own then SelfCancel(h) else Fill(h, fill),
            Walk(req.side.Opposite(), req, rem - fill, DropHead(sb, fill)), fill, more);
    fills := [fill] + more;
  }

  lemma LastTaken(sym: SymbolId, req: OrderRequest, rem: Quantity, sb: SideBook)
    requires rem > 0 && sb.queue != [] && Within(req, sb.queue[0].price)
    requires sb.queue[0].trader != req.traderId && rem < sb.queue[0].qty
    ensures Pass(sym, req, rem, sb.queue, Walked([Fill(sb.queue[0], rem)], 0, Shrink(sb, rem)), [rem])
  {
    var q, e := sb.queue, Fill(sb.queue[0], rem);
    assert [e][1..] == [] && q[..1] == [q[0]] && [q[0]][1..] == [];
    var fills: seq<Quantity> := [rem];
    assert fills[1..] == [] && fills[..0] == [];
    assert Taken(fills) == rem;
    assert Confirms(sym, req, []) == [];
  }

  /** New-order rule: the order is acknowledged and takes what it meets at the resting orders' prices;
      everyone is told of exactly that, the book keeps what is left, and only what is left of the new
      order joins its side. */
  lemma NewOrderRule(b: Book, sym: SymbolId, req: OrderRequest) returns (fills: seq<Quantity>)
    ensures var s := if req.side.Buy? then Sell else Buy; var q := b.On(s).queue; var o := Add(b, sym, req);
            && Takes(req, req.quantity, q, fills)
            && o.confirms
               == [OrderConfirm(NewAck, req.orderId, req.clientOrderId, req.traderId, sym, 0, 0, UnknownOrder)]
                  + Receipts(sym, req, q[..|fills|], fills)
            && o.mds == [MdUpdate(sym, req.orderId, req.side, req.price, req.quantity, MdNew)]
                        + Prints(sym, req, q[..|fills|], fills)
            && o.book.On(s).queue == Survivors(req, q, fills)
            && o.book.clock == b.clock + 1
            && var left := req.quantity - Taken(fills);
               forall x :: x in o.book.On(req.side).queue <==>
                 x in b.On(req.side).queue
                 || (left > 0 && x == Resting(req.orderId, req.traderId, req.price, left, left, b.clock))
  {
    hide Walk, Enqueue, Confirms, Mds;
    var s := req.side.Opposite();
    fills := WalkRule(sym, req, req.quantity, b.On(s));
    var w := Matched(b, req);
    EnqueueMembers(req.side, b.On(req.side), Resting(req.orderId, req.traderId, req.price, w.rem, w.rem, b.clock));
  }
}
