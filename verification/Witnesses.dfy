/** Concrete runs on which a plausible property fails; the conditions that restore each are proved elsewhere. */
module Witnesses {
  import opened ExchangeTypes
  import opened PriceTime
  import opened Uncrossed

  function NewOrder(id: OrderId, trader: TraderId, side: Side, price: Price, qty: Quantity): OrderRequest {
    OrderRequest(id, 0, price, trader, 0, qty, side, New)
  }

  /** An order joining an empty side with nothing to trade against. */
  lemma FirstOrder(req: OrderRequest)
    requires req.quantity > 0
    ensures Add(EMPTY_BOOK, 0, req).book
         == Book(EMPTY_SIDE, EMPTY_SIDE, 1).With(req.side,
              SideBook([Resting(req.orderId, req.traderId, req.price, req.quantity, req.quantity, 0)], map[]))
  {
    hide Enqueue, Confirms, Mds, Rested;
    SecondSide(EMPTY_BOOK, req, Walked([], req.quantity, EMPTY_SIDE));
  }

  const A := Resting(1, 1, 100, 10, 10, 0)
  const B := Resting(2, 1, 100, 5, 5, 1)
  const TWO_SELLS := Book(EMPTY_SIDE, SideBook([A, B], map[]), 2)

  /** Trader 1 offers 10 and then 5 at 100. */
  function TwoSellsPlaced(): Book {
    Add(Add(EMPTY_BOOK, 0, NewOrder(1, 1, Sell, 100, 10)).book, 0, NewOrder(2, 1, Sell, 100, 5)).book
  }

  lemma TwoSells()
    ensures TwoSellsPlaced() == TWO_SELLS
  {
    FirstOrder(NewOrder(1, 1, Sell, 100, 10));
    var b := Book(EMPTY_SIDE, SideBook([A], map[]), 1);
    assert Slot(Sell, [A][1..], 100) == 0;
    assert Slot(Sell, [A], 100) == 1;
    assert [A][..1] + [B] + [A][1..] == [A, B];
  }

  lemma LevelOfTwo()
    ensures At([A, B], 100) == [A, B] && At([B], 100) == [B]
  {
    assert [B][1..] == [] && At([], 100) == [];
    assert At([B], 100) == [B] + [];
    assert [A, B][1..] == [B];
    assert At([A, B], 100) == [A] + At([B], 100);
  }

  /** A buy of 10 fills the first sell away: 5 remain on offer, yet the level still reports 15. */
  lemma ReportedQuantityDrifts()
    ensures var b := Add(TwoSellsPlaced(), 0, NewOrder(3, 2, Buy, 100, 10)).book;
            && b.asks.queue == [B] && BestPrice(b.asks) == 100
            && SumQty(At(b.asks.queue, 100)) == 5 && BestQty(b.asks) == 15
  {
    hide TwoSellsPlaced;
    TwoSells();
    var req := NewOrder(3, 2, Buy, 100, 10);
    LevelOfTwo();
    assert [A, B][1..] == [B] && [B][1..] == [];
    var sb := DropHead(TWO_SELLS.asks, 10);
    assert sb == SideBook([B], map[100 := 10]);
    assert Walk(Sell, req, 0, sb) == Walked([], 0, sb);
    assert SumQty([B]) == 5;
  }

  /** A buy of 7 leaves the first sell with 3 live of 10 recorded. Raising it to 9 keeps its place
      ahead of the second sell although its live size triples. */
  lemma GrowingModifyKeepsPlace()
    ensures var b := Add(TwoSellsPlaced(), 0, NewOrder(3, 2, Buy, 100, 7)).book;
            var b' := ModifyOrder(b, 0, 1, 1, 100, 9).book;
            && b.asks.queue == [A.(qty := 3), B]
            && b'.asks.queue == [A.(qty := 9, recorded := 9), B]
  {
    hide TwoSellsPlaced;
    TwoSells();
    var req := NewOrder(3, 2, Buy, 100, 7);
    assert [A, B][1..] == [B];
    assert Matched(TWO_SELLS, req).side.queue == [A.(qty := 3)] + [B];
    var q := [A.(qty := 3), B];
    assert Index(q, 1) == 0;
    assert Index([], 1) == 0;
    assert q[..0] + [A.(qty := 9, recorded := 9)] + q[1..] == [A.(qty := 9, recorded := 9), B];
  }

  const BID := Resting(1, 1, 90, 10, 10, 0)
  const ASK := Resting(2, 2, 100, 10, 10, 1)
  const QUIET := Book(SideBook([BID], map[]), SideBook([ASK], map[]), 2)

  /** An order joining an empty side of a book it cannot trade with. */
  lemma SecondSide(b: Book, req: OrderRequest, w: Walked)
    requires w == Matched(b, req) && w.rem > 0 && b.On(req.side) == EMPTY_SIDE
    ensures Rested(b, req, w)
         == b.With(req.side.Opposite(), w.side).With(req.side,
              SideBook([Resting(req.orderId, req.traderId, req.price, w.rem, w.rem, b.clock)], map[])).Tick()
  {
    hide Walk;
    var r := Resting(req.orderId, req.traderId, req.price, w.rem, w.rem, b.clock);
    assert EMPTY_SIDE.queue[..0] + [r] + EMPTY_SIDE.queue[0..] == [r];
  }

  /** Trader 1 bids 10 at 90, trader 2 offers 10 at 100. */
  function QuietPlaced(): Book {
    Add(Add(EMPTY_BOOK, 0, NewOrder(1, 1, Buy, 90, 10)).book, 0, NewOrder(2, 2, Sell, 100, 10)).book
  }

  lemma QuietBook()
    ensures QuietPlaced() == QUIET
  {
    hide Enqueue, Confirms, Mds, Rested;
    FirstOrder(NewOrder(1, 1, Buy, 90, 10));
    var b := Book(SideBook([BID], map[]), EMPTY_SIDE, 1);
    var req := NewOrder(2, 2, Sell, 100, 10);
    assert Matched(b, req) == Walked([], 10, b.bids);
    SecondSide(b, req, Walked([], 10, b.bids));
  }

  /** A bid at 90 and an ask at 100; the bid is modified to 110 and rests there, crossing the ask. */
  lemma ModifyCrosses()
    ensures Apart(QuietPlaced()) && !Apart(ModifyOrder(QuietPlaced(), 0, 1, 1, 110, 10).book)
  {
    hide QuietPlaced;
    QuietBook();
    var q := [BID];
    assert Index(q, 1) == 0;
    var sb := Gone(QUIET.bids, 0, 0);
    assert q[..0] + q[1..] == [];
    assert sb == EMPTY_SIDE;
    var r := BID.(price := 110, entry := 2);
    assert Enqueue(Buy, sb, r).queue == [r];
  }
}
