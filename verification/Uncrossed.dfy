/** When the best bid stays below the best ask. */
module Uncrossed {
  import opened ExchangeTypes
  import opened PriceTime
  import opened BookInvariant
  import opened LevelFacts
  import opened Matching

  predicate Apart(b: Book) {
    b.bids.queue != [] && b.asks.queue != [] ==> b.bids.queue[0].price < b.asks.queue[0].price
  }

  /** Would an order at this price on side s trade at once? */
  predicate Crosses(b: Book, s: Side, price: Price) {
    var q := b.On(s.Opposite()).queue;
    q != [] && Tradable(s.Opposite(), price, q[0].price)
  }

  lemma ApartBySide(b: Book, s: Side)
    ensures Apart(b) <==> (b.On(s).queue == [] || !Crosses(b, s, b.On(s).queue[0].price))
  {
  }

  /** The head after an enqueue: the newcomer if strictly better, else the old head. */
  lemma EnqueueHead(s: Side, sb: SideBook, r: Resting)
    ensures var q' := Enqueue(s, sb, r).queue;
            && q' != []
            && q'[0].price
               == if sb.queue == [] || Better(s, r.price, sb.queue[0].price) then r.price else sb.queue[0].price
  {
  }

  /** The passive head only gets worse. */
  lemma WalkHead(s: Side, inc: OrderRequest, rem: Quantity, sb: SideBook)
    requires Sorted(s, sb.queue)
    ensures var q' := Walk(s, inc, rem, sb).side.queue;
            q' != [] ==> sb.queue != [] && !Better(s, q'[0].price, sb.queue[0].price)
  {
    hide Walk;
    var k := WalkShape(s, inc, rem, sb);
    if k > 0 && k < |sb.queue| {
      assert Before(s, sb.queue[0], sb.queue[k]);
    }
  }

  /** A new order never crosses the book: it trades until it cannot. */
  lemma AddApart(b: Book, sym: SymbolId, req: OrderRequest)
    requires BookInv(b) && Apart(b)
    ensures Apart(Add(b, sym, req).book)
  {
    hide Walk, Enqueue, Confirms, Mds, Unique, Sound, Anchored, Ids;
    var o := req.side.Opposite();
    var w := Matched(b, req);
    var k := WalkShape(o, req, req.quantity, b.On(o));
    WalkHead(o, req, req.quantity, b.On(o));
    if w.rem != 0 {
      var r := Resting(req.orderId, req.traderId, req.price, w.rem, w.rem, b.clock);
      EnqueueHead(req.side, b.On(req.side), r);
    }
  }

  lemma RemoveHead(s: Side, sb: SideBook, k: nat)
    requires k < |sb.queue| && Sorted(s, sb.queue)
    ensures Gone(sb, k, 0).queue != [] ==> !Better(s, Gone(sb, k, 0).queue[0].price, sb.queue[0].price)
  {
    GoneQueue(sb, k, 0);
    assert forall i :: 0 < i < |sb.queue| ==> Before(s, sb.queue[0], sb.queue[i]);
  }

  lemma CancelApart(b: Book, sym: SymbolId, id: OrderId, trader: TraderId)
    requires BookInv(b) && Apart(b)
    ensures Apart(CancelOrder(b, sym, id, trader).book)
  {
    hide Index, Gone;
    if Accepted(b, id, trader) {
      var s := SideOf(b, id).value;
      RemoveHead(s, b.On(s), Index(b.On(s).queue, id));
    }
  }

  lemma ModifySideHead(s: Side, sb: SideBook, k: nat, price: Price, qty: Quantity, now: nat)
    requires k < |sb.queue| && Sorted(s, sb.queue)
    ensures var q' := ModifySide(s, sb, k, price, qty, now).queue;
            && q' != []
            && !Better(s, price, q'[0].price)
            && (q'[0].price == price || !Better(s, q'[0].price, sb.queue[0].price))
  {
    hide Gone, Enqueue;
    var r := sb.queue[k];
    if KeepsPlace(r, price, qty) {
      ResizeShape(sb, k, qty, qty);
      if k > 0 {
        assert Before(s, sb.queue[0], r);
      }
    } else {
      RemoveHead(s, sb, k);
      EnqueueHead(s, Gone(sb, k, 0), r.(price := price, qty := qty, recorded := qty, entry := now));
    }
  }

  /** An accepted modify is the only request that can cross an uncrossed book, and it does so exactly
      when the new price would trade against the opposite best: the order is re-queued without matching. */
  lemma ModifyApartIff(b: Book, sym: SymbolId, id: OrderId, trader: TraderId, price: Price, qty: Quantity)
    requires BookInv(b) && Apart(b) && Accepted(b, id, trader)
    ensures Apart(ModifyOrder(b, sym, id, trader, price, qty).book) <==> !Crosses(b, SideOf(b, id).value, price)
  {
    hide ModifySide, Index;
    FoundFacts(b, id);
    var s := SideOf(b, id).value;
    var k := Index(b.On(s).queue, id);
    ModifySideHead(s, b.On(s), k, price, qty, b.clock);
    ApartBySide(b, s);
    ApartBySide(ModifyOrder(b, sym, id, trader, price, qty).book, s);
  }

  /** The one kind of request that crosses a book. */
  predicate CrossingModify(b: Book, req: OrderRequest) {
    && req.requestType.Modify?
    && Accepted(b, req.orderId, req.traderId)
    && Crosses(b, SideOf(b, req.orderId).value, req.price)
  }

  lemma ApplyApartIff(b: Book, sym: SymbolId, req: OrderRequest)
    requires BookInv(b) && Apart(b)
    ensures Apart(Apply(b, sym, req).book) <==> !CrossingModify(b, req)
  {
    hide Add, PriceTime.CancelOrder, PriceTime.ModifyOrder, Crosses, BookInv, Apart;
    match req.requestType
    case New => AddApart(b, sym, req);
    case Cancel => CancelApart(b, sym, req.orderId, req.traderId);
    case Modify =>
      if Accepted(b, req.orderId, req.traderId) {
        ModifyApartIff(b, sym, req.orderId, req.traderId, req.price, req.quantity);
      } else {
        assert ModifyOrder(b, sym, req.orderId, req.traderId, req.price, req.quantity).book == b by {
          RejectedModify(b, sym, req.orderId, req.traderId, req.price, req.quantity);
        }
      }
  }

  lemma RejectedModify(b: Book, sym: SymbolId, id: OrderId, trader: TraderId, price: Price, qty: Quantity)
    requires !Accepted(b, id, trader)
    ensures ModifyOrder(b, sym, id, trader, price, qty).book == b
  {
  }
}
