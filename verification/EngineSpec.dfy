/** The engine as a state machine: id allocation, routing, and what every run keeps. */
module EngineSpec {
  import opened ExchangeTypes
  import opened PriceTime
  import opened BookInvariant
  import opened Matching

  datatype Engine = Engine(books: map<SymbolId, Book>, nextId: OrderId)

  datatype Reply = Reply(engine: Engine, confirms: seq<OrderConfirm>, mds: seq<MdUpdate>)

  function Boot(symbols: seq<SymbolId>): Engine {
    Engine(map s | s in symbols :: EMPTY_BOOK, 1)
  }

  /** A new order gets the next id; cancels and modifies name theirs. */
  function Numbered(e: Engine, req: OrderRequest): OrderRequest {
    if req.requestType.New? then req.(orderId := e.nextId) else req
  }

  function Counted(e: Engine, req: OrderRequest): Engine {
    if req.requestType.New? then e.(nextId := (e.nextId + 1) % TWO64) else e
  }

  function Handle(e: Engine, req: OrderRequest): Reply {
    var e1 := Counted(e, req);
    if req.symbolId !in e.books then Reply(e1, [], [])
    else
      var o := Apply(e.books[req.symbolId], req.symbolId, Numbered(e, req));
      Reply(e1.(books := e.books[req.symbolId := o.book]), o.confirms, o.mds)
  }

  /** Every book is in order, and no id rests in two books. */
  ghost predicate EngineInv(e: Engine) {
    && (forall s | s in e.books :: BookInv(e.books[s]))
    && (forall s, t | s in e.books && t in e.books && s != t :: BookIds(e.books[s]) !! BookIds(e.books[t]))
  }

  /** The id a new order would get rests in no book. */
  ghost predicate Room(e: Engine, req: OrderRequest) {
    req.requestType.New? ==> forall s | s in e.books :: e.nextId !in BookIds(e.books[s])
  }

  /** Every resting id is below n. */
  ghost predicate Issued(e: Engine, n: nat) {
    forall s, id | s in e.books && id in BookIds(e.books[s]) :: id < n
  }

  lemma BootInv(symbols: seq<SymbolId>)
    ensures EngineInv(Boot(symbols)) && Issued(Boot(symbols), 1)
  {
  }

  /** As long as the counter has not wrapped around, the next id is fresh. */
  lemma FreshId(e: Engine, req: OrderRequest)
    requires Issued(e, e.nextId)
    ensures Room(e, req)
  {
  }

  /** A request keeps the invariant, moves the counter by one for a new order, and touches no
      book but the one it names. */
  lemma HandleKeeps(e: Engine, req: OrderRequest)
    requires EngineInv(e) && Room(e, req)
    ensures var e' := Handle(e, req).engine;
            && EngineInv(e')
            && e'.books.Keys == e.books.Keys
            && e'.nextId == (e.nextId + (if req.requestType.New? then 1 else 0)) % TWO64
            && forall s | s in e.books && s != req.symbolId :: e'.books[s] == e.books[s]
  {
    hide BookIds, BookInv, Apply;
    if req.symbolId in e.books {
      ApplyKeeps(e.books[req.symbolId], req.symbolId, Numbered(e, req));
    }
  }

  lemma HandleIssues(e: Engine, req: OrderRequest, n: nat)
    requires EngineInv(e) && Room(e, req) && Issued(e, n) && (req.requestType.New? ==> e.nextId == n)
    ensures Issued(Handle(e, req).engine, n + (if req.requestType.New? then 1 else 0))
  {
    hide BookIds, BookInv, Apply;
    if req.symbolId in e.books {
      ApplyKeeps(e.books[req.symbolId], req.symbolId, Numbered(e, req));
    }
  }

  // ---- Runs ----

  function Run(e: Engine, reqs: seq<OrderRequest>): Engine {
    if reqs == [] then e
    else Handle(Run(e, reqs[..|reqs| - 1]), reqs[|reqs| - 1]).engine
  }

  function RunConfirms(e: Engine, reqs: seq<OrderRequest>): seq<OrderConfirm> {
    if reqs == [] then []
    else
      var prefix := reqs[..|reqs| - 1];
      RunConfirms(e, prefix) + Handle(Run(e, prefix), reqs[|reqs| - 1]).confirms
  }

  function RunMds(e: Engine, reqs: seq<OrderRequest>): seq<MdUpdate> {
    if reqs == [] then []
    else
      var prefix := reqs[..|reqs| - 1];
      RunMds(e, prefix) + Handle(Run(e, prefix), reqs[|reqs| - 1]).mds
  }

  function News(reqs: seq<OrderRequest>): nat {
    if reqs == [] then 0
    else News(reqs[..|reqs| - 1]) + (if reqs[|reqs| - 1].requestType.New? then 1 else 0)
  }

  /** Every new order of the run gets an id that rests nowhere at that moment. */
  ghost predicate FreshRun(e: Engine, reqs: seq<OrderRequest>) {
    forall n | 0 <= n < |reqs| :: Room(Run(e, reqs[..n]), reqs[n])
  }

  lemma FreshPrefix(e: Engine, reqs: seq<OrderRequest>, n: nat)
    requires FreshRun(e, reqs) && n <= |reqs|
    ensures FreshRun(e, reqs[..n])
  {
    hide Room, Run;
    forall i | 0 <= i < n
      ensures Room(Run(e, reqs[..n][..i]), reqs[..n][i])
    {
      assert reqs[..n][..i] == reqs[..i];
    }
  }

  /** A book no request of a run names is as it was. */
  lemma {:induction false} RunIsolates(e: Engine, reqs: seq<OrderRequest>, s: SymbolId)
    requires s in e.books && forall i | 0 <= i < |reqs| :: reqs[i].symbolId != s
    ensures s in Run(e, reqs).books && Run(e, reqs).books[s] == e.books[s]
  {
    hide Apply;
    if reqs != [] {
      var n := |reqs| - 1;
      assert forall i | 0 <= i < n :: reqs[..n][i] == reqs[i];
      RunIsolates(e, reqs[..n], s);
    }
  }

  /** On every run: the invariant holds, ids are handed out consecutively, the set of books is fixed,
      and a book no request names is as it was. */
  lemma {:induction false} RunKeeps(e: Engine, reqs: seq<OrderRequest>)
    requires EngineInv(e) && FreshRun(e, reqs)
    ensures EngineInv(Run(e, reqs)) && Run(e, reqs).books.Keys == e.books.Keys
    ensures Run(e, reqs).nextId == (e.nextId + News(reqs)) % TWO64
    ensures forall s | s in e.books && (forall i | 0 <= i < |reqs| :: reqs[i].symbolId != s) ::
              Run(e, reqs).books[s] == e.books[s]
  {
    hide EngineInv, Handle, Room, FreshRun;
    if reqs != [] {
      var n := |reqs| - 1;
      FreshPrefix(e, reqs, n);
      RunKeeps(e, reqs[..n]);
      FreshAt(e, reqs, n);
      HandleKeeps(Run(e, reqs[..n]), reqs[n]);
    }
    forall s | s in e.books && (forall i | 0 <= i < |reqs| :: reqs[i].symbolId != s)
      ensures Run(e, reqs).books[s] == e.books[s]
    {
      RunIsolates(e, reqs, s);
    }
  }

  lemma FreshAt(e: Engine, reqs: seq<OrderRequest>, n: nat)
    requires FreshRun(e, reqs) && n < |reqs|
    ensures Room(Run(e, reqs[..n]), reqs[n])
  {
  }

  /** Every prefix of a fresh run is one, and its next request has a fresh id. */
  lemma PrefixKeeps(e: Engine, reqs: seq<OrderRequest>, n: nat)
    requires FreshRun(e, reqs) && n <= |reqs| && EngineInv(e)
    ensures FreshRun(e, reqs[..n]) && EngineInv(Run(e, reqs[..n]))
    ensures Run(e, reqs[..n]).books.Keys == e.books.Keys
    ensures n < |reqs| ==> Room(Run(e, reqs[..n]), reqs[n])
  {
    hide EngineInv, Run, Room;
    FreshPrefix(e, reqs, n);
    RunKeeps(e, reqs[..n]);
  }

  lemma {:induction false} NewsPrefix(reqs: seq<OrderRequest>, n: nat)
    requires n <= |reqs|
    ensures News(reqs[..n]) <= News(reqs)
  {
    if n == |reqs| {
      assert reqs[..n] == reqs;
    } else {
      NewsPrefix(reqs[..|reqs| - 1], n);
      assert reqs[..|reqs| - 1][..n] == reqs[..n];
    }
  }

  /** A run that does not exhaust the 64-bit counter hands out fresh ids only. */
  lemma {:induction false} BoundedIsFresh(e: Engine, reqs: seq<OrderRequest>)
    requires EngineInv(e) && Issued(e, e.nextId) && e.nextId + News(reqs) <= TWO64
    ensures FreshRun(e, reqs) && Issued(Run(e, reqs), e.nextId + News(reqs))
  {
    hide EngineInv, Handle, Room, Issued, FreshRun;
    if reqs == [] {
      NothingFresh(e);
    } else {
      var n := |reqs| - 1;
      var prefix, req := reqs[..n], reqs[n];
      BoundedIsFresh(e, prefix);
      RunKeeps(e, prefix);
      if req.requestType.New? {
        FreshId(Run(e, prefix), req);
      } else {
        NoIdNeeded(Run(e, prefix), req);
      }
      FreshSnoc(e, reqs);
      HandleIssues(Run(e, prefix), req, e.nextId + News(prefix));
    }
  }

  /** What a run hands out: the k-th new order of a run from an empty engine, whatever its symbol, is
      numbered k modulo 2^64, and for a listed symbol acknowledged first of all under that number and
      the client's own. Requests for other symbols are not answered. */
  lemma RunNumbers(symbols: seq<SymbolId>, reqs: seq<OrderRequest>, req: OrderRequest)
    requires FreshRun(Boot(symbols), reqs)
    ensures var e := Run(Boot(symbols), reqs); var r := Handle(e, req);
            && (req.symbolId !in symbols ==> r.confirms == [] && r.mds == [] && r.engine.books == e.books)
            && (req.symbolId in symbols && req.requestType.New? ==>
                  r.confirms != []
                  && r.confirms[0] == OrderConfirm(NewAck, (1 + News(reqs)) % TWO64, req.clientOrderId, req.traderId,
                                                   req.symbolId, 0, 0, UnknownOrder))
  {
    hide Run, EngineInv, FreshRun, Walk, Index, ModifySide;
    BootInv(symbols);
    RunKeeps(Boot(symbols), reqs);
  }

  lemma NothingFresh(e: Engine)
    ensures FreshRun(e, [])
  {
  }

  lemma FreshSnoc(e: Engine, reqs: seq<OrderRequest>)
    requires reqs != [] && FreshRun(e, reqs[..|reqs| - 1])
    requires Room(Run(e, reqs[..|reqs| - 1]), reqs[|reqs| - 1])
    ensures FreshRun(e, reqs)
  {
    hide Room, Run;
    var n := |reqs| - 1;
    forall i | 0 <= i < |reqs|
      ensures Room(Run(e, reqs[..i]), reqs[i])
    {
      if i < n {
        assert reqs[..n][..i] == reqs[..i] && reqs[..n][i] == reqs[i];
      }
    }
  }

  lemma NoIdNeeded(e: Engine, req: OrderRequest)
    requires !req.requestType.New?
    ensures Room(e, req)
  {
  }

  // ---- Buyers buy what sellers sell ----

  function SideFills(mds: seq<MdUpdate>, s: Side): nat {
    if mds == [] then 0
    else (if mds[0].updateType.MdTrade? && mds[0].side == s then mds[0].qty else 0) + SideFills(mds[1..], s)
  }

  function Volume(cs: seq<OrderConfirm>): nat {
    if cs == [] then 0 else (if cs[0].kind.Trade? then cs[0].qty else 0) + Volume(cs[1..])
  }

  lemma {:induction false} SideFillsConcat(a: seq<MdUpdate>, b: seq<MdUpdate>, s: Side)
    ensures SideFills(a + b, s) == SideFills(a, s) + SideFills(b, s)
  {
    if a == [] {
      assert a + b == b;
    } else {
      assert (a + b)[0] == a[0] && (a + b)[1..] == a[1..] + b;
      SideFillsConcat(a[1..], b, s);
    }
  }

  lemma {:induction false} VolumeConcat(a: seq<OrderConfirm>, b: seq<OrderConfirm>)
    ensures Volume(a + b) == Volume(a) + Volume(b)
  {
    if a == [] {
      assert a + b == b;
    } else {
      assert (a + b)[0] == a[0] && (a + b)[1..] == a[1..] + b;
      VolumeConcat(a[1..], b);
    }
  }

  lemma EventFills(sym: SymbolId, s: Side, inc: OrderRequest, e: Event, z: Side)
    requires s == inc.side.Opposite()
    ensures SideFills(EventMds(sym, s, inc, e), z) == if e.Fill? then e.qty else 0
    ensures Volume(EventConfirms(sym, inc, e)) == if e.Fill? then 2 * e.qty else 0
  {
    var m, c := EventMds(sym, s, inc, e), EventConfirms(sym, inc, e);
    if e.Fill? {
      assert m == [m[0]] + [m[1]] && c == [c[0]] + [c[1]];
      SideFillsConcat([m[0]], [m[1]], z);
      VolumeConcat([c[0]], [c[1]]);
    }
  }

  lemma {:induction false} EventsFills(sym: SymbolId, s: Side, inc: OrderRequest, evs: seq<Event>, z: Side)
    requires s == inc.side.Opposite()
    ensures SideFills(Mds(sym, s, inc, evs), z) == Filled(evs)
    ensures Volume(Confirms(sym, inc, evs)) == 2 * Filled(evs)
  {
    hide EventMds, EventConfirms;
    if evs != [] {
      EventsFills(sym, s, inc, evs[1..], z);
      EventFills(sym, s, inc, evs[0], z);
      SideFillsConcat(EventMds(sym, s, inc, evs[0]), Mds(sym, s, inc, evs[1..]), z);
      VolumeConcat(EventConfirms(sym, inc, evs[0]), Confirms(sym, inc, evs[1..]));
    }
  }

  lemma ApplyFills(b: Book, sym: SymbolId, req: OrderRequest)
    ensures var o := Apply(b, sym, req);
            SideFills(o.mds, Buy) == SideFills(o.mds, Sell) && Volume(o.confirms) == 2 * SideFills(o.mds, Buy)
  {
    hide Walk;
    if req.requestType.New? {
      var w := Matched(b, req);
      var s := req.side.Opposite();
      var ack := OrderConfirm(NewAck, req.orderId, req.clientOrderId, req.traderId, sym, 0, 0, UnknownOrder);
      var md := MdUpdate(sym, req.orderId, req.side, req.price, req.quantity, MdNew);
      EventsFills(sym, s, req, w.events, Buy);
      EventsFills(sym, s, req, w.events, Sell);
      SideFillsConcat([md], Mds(sym, s, req, w.events), Buy);
      SideFillsConcat([md], Mds(sym, s, req, w.events), Sell);
      VolumeConcat([ack], Confirms(sym, req, w.events));
    }
  }

  /** On every run, buyers' fills equal sellers' fills, and the trade confirmations add up to
      twice the matched quantity. */
  lemma {:induction false} RunFills(e: Engine, reqs: seq<OrderRequest>)
    ensures SideFills(RunMds(e, reqs), Buy) == SideFills(RunMds(e, reqs), Sell)
    ensures Volume(RunConfirms(e, reqs)) == 2 * SideFills(RunMds(e, reqs), Buy)
  {
    hide Apply;
    if reqs != [] {
      var prefix, req := reqs[..|reqs| - 1], reqs[|reqs| - 1];
      var e0 := Run(e, prefix);
      RunFills(e, prefix);
      if req.symbolId in e0.books {
        ApplyFills(e0.books[req.symbolId], req.symbolId, Numbered(e0, req));
      }
      SideFillsConcat(RunMds(e, prefix), Handle(e0, req).mds, Buy);
      SideFillsConcat(RunMds(e, prefix), Handle(e0, req).mds, Sell);
      VolumeConcat(RunConfirms(e, prefix), Handle(e0, req).confirms);
    }
  }
}
