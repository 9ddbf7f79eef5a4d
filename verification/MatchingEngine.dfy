/** The engine object: a table of books and the id counter. */
module MatchingEngines {
  import opened ExchangeTypes
  import opened PriceTime
  import opened BookInvariant
  import opened EngineSpec
  import opened OrderBooks

  /** A consistent book for symbol s, all of whose objects it owns. */
  ghost predicate BookOk(book: OrderBook, s: SymbolId)
    reads book, book.Repr
  {
    book.symbol == s && book.Owns() && book.Valid()
  }

  lemma BookOkFacts(book: OrderBook, s: SymbolId)
    requires BookOk(book, s)
    ensures book in book.Repr && book.symbol == s && book.Valid()
  {
  }

  lemma BookOkInv(book: OrderBook, s: SymbolId)
    requires BookOk(book, s)
    ensures BookInv(book.state)
  {
  }

  lemma BookOkIntro(book: OrderBook)
    requires book.Valid()
    ensures BookOk(book, book.symbol) && book in book.Repr
  {
  }

  type BookTable = map<SymbolId, OrderBook>

  ghost function BookStates(books: BookTable): map<SymbolId, Book>
    reads books.Values
  {
    map s | s in books :: books[s].state
  }

  /** Each book is consistent, belongs to the owner, and shares no object with another book. */
  ghost predicate TableOk(books: BookTable, owner: object, repr: set<object>)
    reads repr - {owner}
  {
    && (forall s | s in books :: books[s] in repr && books[s] != owner)
    && (forall s | s in books ::
          books[s] in books[s].Repr && books[s].Repr <= repr && owner !in books[s].Repr && BookOk(books[s], s))
    && (forall s, t | s in books && t in books && s != t :: books[s].Repr !! books[t].Repr)
  }

  /** A book of new objects joins the table. */
  lemma TableGrows(books: BookTable, owner: object, repr: set<object>, sym: SymbolId, book: OrderBook)
    requires book.Repr !! repr && owner in repr && book in book.Repr && BookOk(book, sym)
    requires TableOk(books, owner, repr)
    ensures TableOk(books[sym := book], owner, repr + book.Repr)
  {
    hide BookOk;
  }

  lemma TableStates(books: BookTable, owner: object, repr: set<object>)
    requires TableOk(books, owner, repr)
    ensures forall s | s in books :: books[s] in repr
  {
  }

  class MatchingEngine {
    var books: BookTable
    var nextOrderId: OrderId
    ghost var Repr: set<object>

    ghost function View(): Engine
      reads this, books.Values
    {
      Engine(BookStates(books), nextOrderId)
    }

    ghost predicate Wired()
      reads `books, `Repr, Repr - {this}
    {
      this in Repr && TableOk(books, this, Repr)
    }

    ghost predicate Valid()
      reads this, Repr
    {
      Wired() && EngineInv(View())
    }

    constructor ()
      ensures View() == Engine(map[], 1)
      ensures Valid() && fresh(Repr)
    {
      books, nextOrderId := map[], 1;
      Repr := {this};
    }

    /** Puts a new, empty book in the table, replacing an earlier one for the symbol. */
    method Install(sym: SymbolId)
      requires Wired()
      modifies this
      ensures old(Repr) <= Repr && fresh(Repr - old(Repr)) && nextOrderId == old(nextOrderId)
      ensures BookStates(books) == old(BookStates(books))[sym := EMPTY_BOOK]
      ensures Wired()
    {
      hide BookOk, OrderBook.Valid, TableOk;
      TableStates(books, this, Repr);
      var book := new OrderBook(sym);
      BookOkIntro(book);
      TableGrows(books, this, Repr, sym, book);
      books := books[sym := book];
      Repr := Repr + book.Repr;
    }

    /** Gives every listed symbol a new, empty book. */
    method Initialize(symbols: seq<SymbolId>)
      requires Valid()
      modifies this
      ensures old(Repr) <= Repr && fresh(Repr - old(Repr))
      ensures View() == old(View()).(books := old(View()).books + map s | s in symbols :: EMPTY_BOOK)
      ensures Valid()
    {
      hide EngineInv, Wired, BookStates;
      ghost var e := View();
      assert e.books + NewBooks([]) == e.books;
      for i := 0 to |symbols|
        invariant Wired() && nextOrderId == e.nextId
        invariant old(Repr) <= Repr && fresh(Repr - old(Repr))
        invariant BookStates(books) == e.books + NewBooks(symbols[..i])
      {
        OneMoreBook(e.books, symbols, i);
        Install(symbols[i]);
      }
      assert symbols[..|symbols|] == symbols;
      InitInv(e, symbols);
    }

    /** Hands a numbered new order to its book. */
    method RouteNew(sym: SymbolId, order: OrderRequest, confirmsIn: seq<OrderConfirm>, mdsIn: seq<MdUpdate>)
      returns (confirms: seq<OrderConfirm>, mds: seq<MdUpdate>)
      requires sym in books && order.orderId !in BookIds(books[sym].state)
      requires Wired()
      modifies `Repr, books[sym].Repr
      ensures old(Repr) <= Repr && fresh(Repr - old(Repr))
      ensures var o := Add(old(books[sym].state), sym, order);
              && BookStates(books) == old(BookStates(books))[sym := o.book]
              && confirms == confirmsIn + o.confirms && mds == mdsIn + o.mds
      ensures Wired()
    {
      hide BookOk, Add, OrderBook.Valid, BookIds, Admissible;
      var book := books[sym];
      BookOkFacts(book, sym);
      BookOkInv(book, sym);
      FreshIsAdmissible(book.state, order);
      confirms, mds := book.AddOrder(order, confirmsIn, mdsIn);
      BookOkIntro(book);
      Repr := Repr + book.Repr;
      forall s | s in books && s != sym
        ensures BookOk(books[s], s) && books[s].Repr == old(books[s].Repr) && books[s].state == old(books[s].state)
      {
      }
    }

    /** Hands a cancel to its book. */
    method RouteCancel(sym: SymbolId, id: OrderId, traderId: TraderId,
                       confirmsIn: seq<OrderConfirm>, mdsIn: seq<MdUpdate>)
      returns (confirms: seq<OrderConfirm>, mds: seq<MdUpdate>)
      requires sym in books
      requires Wired()
      modifies `Repr, books[sym].Repr
      ensures old(Repr) <= Repr && fresh(Repr - old(Repr))
      ensures var o := PriceTime.CancelOrder(old(books[sym].state), sym, id, traderId);
              && BookStates(books) == old(BookStates(books))[sym := o.book]
              && confirms == confirmsIn + o.confirms && mds == mdsIn + o.mds
      ensures Wired()
    {
      hide BookOk, PriceTime.CancelOrder, PriceTime.ModifyOrder, OrderBook.Valid;
      var book := books[sym];
      BookOkFacts(book, sym);
      confirms, mds := book.CancelOrder(id, traderId, confirmsIn, mdsIn);
      BookOkIntro(book);
      Repr := Repr + book.Repr;
      forall s | s in books && s != sym
        ensures BookOk(books[s], s) && books[s].Repr == old(books[s].Repr) && books[s].state == old(books[s].state)
      {
      }
    }

    /** Hands a modify to its book. */
    method RouteModify(sym: SymbolId, id: OrderId, traderId: TraderId, newPrice: Price, newQty: Quantity,
                       confirmsIn: seq<OrderConfirm>, mdsIn: seq<MdUpdate>)
      returns (confirms: seq<OrderConfirm>, mds: seq<MdUpdate>)
      requires sym in books
      requires Wired()
      modifies `Repr, books[sym].Repr
      ensures old(Repr) <= Repr && fresh(Repr - old(Repr))
      ensures var o := PriceTime.ModifyOrder(old(books[sym].state), sym, id, traderId, newPrice, newQty);
              && BookStates(books) == old(BookStates(books))[sym := o.book]
              && confirms == confirmsIn + o.confirms && mds == mdsIn + o.mds
      ensures Wired()
    {
      hide BookOk, PriceTime.CancelOrder, PriceTime.ModifyOrder, OrderBook.Valid;
      var book := books[sym];
      BookOkFacts(book, sym);
      confirms, mds := book.ModifyOrder(id, traderId, newPrice, newQty, confirmsIn, mdsIn);
      BookOkIntro(book);
      Repr := Repr + book.Repr;
      forall s | s in books && s != sym
        ensures BookOk(books[s], s) && books[s].Repr == old(books[s].Repr) && books[s].state == old(books[s].state)
      {
      }
    }

    /** Routes a new order under the next id. */
    method OnOrder(order: OrderRequest, confirmsIn: seq<OrderConfirm>, mdsIn: seq<MdUpdate>)
      returns (confirms: seq<OrderConfirm>, mds: seq<MdUpdate>)
      requires order.requestType.New? && Room(View(), order)
      requires Valid()
      modifies Repr
      ensures old(Repr) <= Repr && fresh(Repr - old(Repr)) && books == old(books)
      ensures var r := Handle(old(View()), order);
              View() == r.engine && confirms == confirmsIn + r.confirms && mds == mdsIn + r.mds
      ensures Valid()
    {
      hide EngineInv, Wired, BookIds, Add;
      ghost var e := View();
      HandleKeeps(e, order);
      WiredFacts(order.symbolId);
      confirms, mds := confirmsIn, mdsIn + [];
      var numbered := order.(orderId := nextOrderId);
      nextOrderId := (nextOrderId + 1) % TWO64;
      if order.symbolId in books {
        confirms, mds := RouteNew(order.symbolId, numbered, confirms, mds);
      }
    }

    /** Routes a cancel; an unknown symbol is ignored. */
    method OnCancel(orderId: OrderId, symbolId: SymbolId, traderId: TraderId, ghost req: OrderRequest,
                    confirmsIn: seq<OrderConfirm>, mdsIn: seq<MdUpdate>)
      returns (confirms: seq<OrderConfirm>, mds: seq<MdUpdate>)
      requires req.requestType.Cancel? && req.orderId == orderId && req.symbolId == symbolId && req.traderId == traderId
      requires Valid()
      modifies Repr
      ensures old(Repr) <= Repr && fresh(Repr - old(Repr)) && books == old(books)
      ensures var r := Handle(old(View()), req);
              View() == r.engine && confirms == confirmsIn + r.confirms && mds == mdsIn + r.mds
      ensures Valid()
    {
      hide EngineInv, Wired, PriceTime.CancelOrder;
      HandleKeeps(View(), req);
      WiredFacts(symbolId);
      confirms, mds := confirmsIn, mdsIn + [];
      if symbolId in books {
        confirms, mds := RouteCancel(symbolId, orderId, traderId, confirms, mds);
      }
    }

    /** Routes a modify; an unknown symbol is ignored. */
    method OnModify(orderId: OrderId, symbolId: SymbolId, traderId: TraderId, newPrice: Price, newQty: Quantity,
                    ghost req: OrderRequest, confirmsIn: seq<OrderConfirm>, mdsIn: seq<MdUpdate>)
      returns (confirms: seq<OrderConfirm>, mds: seq<MdUpdate>)
      requires req.requestType.Modify? && req.orderId == orderId && req.symbolId == symbolId && req.traderId == traderId
      requires req.price == newPrice && req.quantity == newQty
      requires Valid()
      modifies Repr
      ensures old(Repr) <= Repr && fresh(Repr - old(Repr)) && books == old(books)
      ensures var r := Handle(old(View()), req);
              View() == r.engine && confirms == confirmsIn + r.confirms && mds == mdsIn + r.mds
      ensures Valid()
    {
      hide EngineInv, Wired, PriceTime.ModifyOrder;
      HandleKeeps(View(), req);
      WiredFacts(symbolId);
      confirms, mds := confirmsIn, mdsIn + [];
      if symbolId in books {
        confirms, mds := RouteModify(symbolId, orderId, traderId, newPrice, newQty, confirms, mds);
      }
    }

    lemma WiredFacts(sym: SymbolId)
      requires Wired()
      ensures this in Repr
      ensures sym in books ==> books[sym].Repr <= Repr && this !in books[sym].Repr && books[sym] in books[sym].Repr
      ensures sym in books ==> books[sym].Valid()
    {
      if sym in books {
        BookOkFacts(books[sym], sym);
      }
    }

    /** Best price and cached quantity of a symbol's side; zero for an unknown symbol. */
    method GetBest(sym: SymbolId, s: Side) returns (p: Price, q: Quantity)
      requires Valid()
      ensures p == EngineBestPrice(View(), sym, s) && q == EngineBestQty(View(), sym, s)
      ensures if sym in View().books then Top(View().books[sym], s, p, q) else p == q == 0
    {
      hide EngineInv, Wired, BestQty, BestPrice, Top;
      WiredFacts(sym);
      EngineTop(View(), sym, s);
      if sym !in books {
        return 0, 0;
      }
      p := books[sym].GetBestPrice(s);
      q := books[sym].GetBestQty(s);
    }
  }

  function NewBooks(symbols: seq<SymbolId>): map<SymbolId, Book> {
    map s | s in symbols :: EMPTY_BOOK
  }

  lemma OneMoreBook(books: map<SymbolId, Book>, symbols: seq<SymbolId>, i: nat)
    requires i < |symbols|
    ensures (books + NewBooks(symbols[..i]))[symbols[i] := EMPTY_BOOK] == books + NewBooks(symbols[..i + 1])
  {
    assert symbols[..i + 1] == symbols[..i] + [symbols[i]];
  }

  /** What the engine's getters report. */
  function EngineBestPrice(e: Engine, sym: SymbolId, s: Side): Price {
    if sym in e.books then BestPrice(e.books[sym].On(s)) else 0
  }

  function EngineBestQty(e: Engine, sym: SymbolId, s: Side): Quantity {
    if sym in e.books then BestQty(e.books[sym].On(s)) else 0
  }

  /** The best price of a side, and the cached total of its level: the highest bid or the lowest ask, or
      zero if nothing rests there. */
  ghost predicate Top(b: Book, s: Side, p: Price, qty: Quantity) {
    var sb := if s.Buy? then b.bids else b.asks;
    if sb.queue == [] then p == qty == 0
    else
      && (exists r :: r in sb.queue && r.price == p)
      && (forall r | r in sb.queue :: if s.Buy? then r.price <= p else r.price >= p)
      && qty == LevelTotal(sb, p)
  }

  /** The engine's getters report the top of the book, or zero for an unknown symbol. */
  lemma EngineTop(e: Engine, sym: SymbolId, s: Side)
    requires EngineInv(e)
    ensures var p, qty := EngineBestPrice(e, sym, s), EngineBestQty(e, sym, s);
            if sym in e.books then Top(e.books[sym], s, p, qty) else p == qty == 0
  {
    hide LevelTotal, Anchored, Sound, Unique;
    if sym in e.books {
      var q := e.books[sym].On(s).queue;
      assert BookInv(e.books[sym]);
      if q != [] {
        assert q[0] in q;
        forall r | r in q
          ensures if s.Buy? then r.price <= q[0].price else r.price >= q[0].price
        {
          var i :| 0 <= i < |q| && q[i] == r;
          assert i > 0 ==> Before(s, q[0], q[i]);
        }
      }
    }
  }

  lemma InitInv(e: Engine, symbols: seq<SymbolId>)
    requires EngineInv(e)
    ensures EngineInv(e.(books := e.books + map s | s in symbols :: EMPTY_BOOK))
  {
  }
}
