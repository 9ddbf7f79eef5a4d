/** Who keeps its place in the queue, and who goes to the back. */
module Priority {
  import opened ExchangeTypes
  import opened PriceTime
  import opened BookInvariant
  import opened LevelFacts
  import opened Matching

  predicate SamePlace(r: Resting, r': Resting) {
    r'.price == r.price && r'.entry == r.entry && r'.trader == r.trader
  }

  /** An accepted modify of this order that sends it to the back of the queue. */
  predicate Requeues(b: Book, req: OrderRequest, id: OrderId) {
    && req.requestType.Modify? && req.orderId == id
    && Accepted(b, id, req.traderId)
    && !KeepsPlace(Found(b, id), req.price, req.quantity)
  }

  lemma WalkStays(s: Side, inc: OrderRequest, rem: Quantity, sb: SideBook, r: Resting, r': Resting)
    requires Unique(sb.queue) && r in sb.queue && r' in Walk(s, inc, rem, sb).side.queue && r.id == r'.id
    ensures SamePlace(r, r') && r'.qty <= r.qty
  {
    hide Walk;
    var q, w := sb.queue, Walk(s, inc, rem, sb);
    var k := WalkShape(s, inc, rem, sb);
    var i :| 0 <= i < |q| && q[i] == r;
    var j :| 0 <= j < |w.side.queue| && w.side.queue[j] == r';
    assert q[k + j].id == r'.id;
  }

  lemma ModifyStays(s: Side, sb: SideBook, k: nat, price: Price, qty: Quantity, now: nat, r: Resting, r': Resting)
    requires k < |sb.queue| && SideInv(s, sb, now)
    requires r in sb.queue && r' in ModifySide(s, sb, k, price, qty, now).queue && r.id == r'.id
    ensures r.id != sb.queue[k].id ==> r' == r
    ensures r.id == sb.queue[k].id ==> r'.qty == r'.recorded == qty
    ensures r.id == sb.queue[k].id && KeepsPlace(sb.queue[k], price, qty) ==> SamePlace(r, r')
    ensures r.id == sb.queue[k].id && !KeepsPlace(sb.queue[k], price, qty) ==>
              r'.price == price && r'.entry == now
  {
    hide Enqueue, Gone;
    var q := sb.queue;
    var i :| 0 <= i < |q| && q[i] == r;
    if KeepsPlace(q[k], price, qty) {
      var q' := Resize(sb, k, qty, qty).queue;
      var j :| 0 <= j < |q'| && q'[j] == r';
      assert q'[j] == if j == k then q[k].(qty := qty, recorded := qty) else q[j];
    } else {
      var n := q[k].(price := price, qty := qty, recorded := qty, entry := now);
      GoneKeeps(s, sb, k, 0, now);
      EnqueueMembers(s, Gone(sb, k, 0), n);
      if r' != n {
        assert r' in q;
        var j :| 0 <= j < |q| && q[j] == r';
      }
    }
  }

  /** Every order that is not re-queued keeps price, entry time and owner, and unless it is modified
      it never grows. */
  lemma StaysPut(b: Book, sym: SymbolId, req: OrderRequest, s: Side, r: Resting, r': Resting)
    requires BookInv(b) && (req.requestType.New? ==> req.orderId !in BookIds(b))
    requires r in b.On(s).queue && r' in Apply(b, sym, req).book.On(s).queue && r.id == r'.id
    requires !Requeues(b, req, r.id)
    ensures SamePlace(r, r')
    ensures !(req.requestType.Modify? && req.orderId == r.id) ==> r'.qty <= r.qty
  {
    hide Walk, Enqueue, Gone, ModifySide, Index;
    FoundFacts(b, req.orderId);
    Distinct(b.On(s).queue, r, r');
    var q := b.On(s).queue;
    match req.requestType
    case New =>
      var w := Matched(b, req);
      if s == req.side {
        EnqueueMembers(s, b.On(s), Resting(req.orderId, req.traderId, req.price, w.rem, w.rem, b.clock));
        assert r.id in BookIds(b);
      } else {
        WalkStays(s, req, req.quantity, b.On(s), r, r');
      }
    case Cancel =>
      if Accepted(b, req.orderId, req.traderId) && s == SideOf(b, req.orderId).value {
        GoneKeeps(s, b.On(s), Index(q, req.orderId), 0, b.clock);
      }
    case Modify =>
      if Accepted(b, req.orderId, req.traderId) && s == SideOf(b, req.orderId).value {
        ModifyStays(s, b.On(s), Index(q, req.orderId), req.price, req.quantity, b.clock, r, r');
      }
  }

  lemma Distinct(q: seq<Resting>, r: Resting, r': Resting)
    requires Unique(q) && r in q && r.id == r'.id
    ensures r' in q ==> r' == r
  {
  }

  /** x is served before y on side s. */
  predicate Ahead(b: Book, s: Side, x: OrderId, y: OrderId) {
    Index(b.On(s).queue, x) < Index(b.On(s).queue, y) < |b.On(s).queue|
  }

  lemma AheadIsBefore(b: Book, s: Side, x: Resting, y: Resting)
    requires BookInv(b) && x in b.On(s).queue && y in b.On(s).queue && x != y
    ensures Ahead(b, s, x.id, y.id) <==> Before(s, x, y)
  {
    var q := b.On(s).queue;
    var i :| 0 <= i < |q| && q[i] == x;
    var j :| 0 <= j < |q| && q[j] == y;
    assert Index(q, x.id) == i && Index(q, y.id) == j;
  }

  /** Two orders that both stay in the queue are never reordered. */
  lemma OrderKept(b: Book, sym: SymbolId, req: OrderRequest, s: Side, x: Resting, y: Resting, x': Resting, y': Resting)
    requires BookInv(b) && (req.requestType.New? ==> req.orderId !in BookIds(b))
    requires x in b.On(s).queue && y in b.On(s).queue && x.id != y.id
    requires x' in Apply(b, sym, req).book.On(s).queue && y' in Apply(b, sym, req).book.On(s).queue
    requires x'.id == x.id && y'.id == y.id
    requires !Requeues(b, req, x.id) && !Requeues(b, req, y.id)
    ensures Ahead(b, s, x.id, y.id) <==> Ahead(Apply(b, sym, req).book, s, x.id, y.id)
  {
    hide Apply, BookInv, Requeues, Ahead, BookIds;
    ApplyKeeps(b, sym, req);
    StaysPut(b, sym, req, s, x, x');
    StaysPut(b, sym, req, s, y, y');
    AheadIsBefore(b, s, x, y);
    AheadIsBefore(Apply(b, sym, req).book, s, x', y');
  }

  /** A modify keeps the order's place exactly when the price is unchanged and the new quantity is
      below the recorded one; otherwise every other order at the new price, and at any better one, is
      ahead of it, so that it is the last of its level. */
  lemma ModifyPlace(b: Book, sym: SymbolId, id: OrderId, trader: TraderId, price: Price, qty: Quantity)
    requires BookInv(b) && Accepted(b, id, trader)
    ensures var r := Found(b, id); var keeps := price == r.price && qty < r.recorded;
            var b' := ModifyOrder(b, sym, id, trader, price, qty).book; var s := SideOf(b, id).value;
            && SideOf(b', id) == Some(s)
            && Found(b', id).qty == Found(b', id).recorded == qty && Found(b', id).price == price
            && (Found(b', id).entry == r.entry <==> keeps)
            && (!keeps ==>
                  && (forall x | x in b'.On(s).queue && x.id != id && (x.price == price || Better(s, x.price, price)) ::
                        Before(s, x, Found(b', id)))
                  && var level := At(b'.On(s).queue, price);
                     level != [] && level[|level| - 1] == Found(b', id))
  {
    hide ModifySide, Index, Sorted, Anchored, Ids;
    var s := SideOf(b, id).value;
    var sb := b.On(s);
    var k := Index(sb.queue, id);
    var b' := ModifyOrder(b, sym, id, trader, price, qty).book;
    FoundFacts(b, id);
    ModifyKeeps(b, sym, id, trader, price, qty);
    FoundFacts(b', id);
    ModifySideKeeps(s, sb, k, price, qty, b.clock);
    ModifyStays(s, sb, k, price, qty, b.clock, Found(b, id), Found(b', id));
    if !KeepsPlace(Found(b, id), price, qty) {
      RequeuedLast(s, sb, k, price, qty, b.clock, Found(b', id));
    }
  }

  lemma RequeuedLast(s: Side, sb: SideBook, k: nat, price: Price, qty: Quantity, now: nat, r': Resting)
    requires k < |sb.queue| && SideInv(s, sb, now) && !KeepsPlace(sb.queue[k], price, qty)
    requires r' in ModifySide(s, sb, k, price, qty, now).queue && r'.id == sb.queue[k].id
    ensures var level := At(ModifySide(s, sb, k, price, qty, now).queue, price);
            level != [] && level[|level| - 1] == r'
    ensures r' == sb.queue[k].(price := price, qty := qty, recorded := qty, entry := now)
    ensures forall x | x in ModifySide(s, sb, k, price, qty, now).queue && x.id != r'.id :: x.entry < now
  {
    hide At, Enqueue, Gone;
    var n := sb.queue[k].(price := price, qty := qty, recorded := qty, entry := now);
    GoneKeeps(s, sb, k, 0, now);
    EnqueueMembers(s, Gone(sb, k, 0), n);
    AtEnqueue(s, Gone(sb, k, 0), n, price);
    assert r' == n;
  }
}
