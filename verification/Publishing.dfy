/** The matching thread: decode, dispatch, and publish the state of the touched instrument. */
module Publishing {
  import opened ExchangeTypes
  import opened PriceTime
  import opened EngineSpec
  import opened MatchingEngines
  import opened Wire
  import opened Framing

  datatype InstrumentState = InstrumentState(
    bestBid: Price,
    bestAsk: Price,
    bidVolume: Quantity,
    askVolume: Quantity,
    lastTradePrice: Price,
    lastTradeQty: Quantity,
    totalTradedVolume: Quantity)

  const BLANK := InstrumentState(0, 0, 0, 0, 0, 0, 0)

  type Market = m: seq<InstrumentState> | |m| == MAX_INSTRUMENTS witness seq(MAX_INSTRUMENTS, _ => BLANK)

  function StateOf(m: Market, sym: SymbolId): InstrumentState {
    if sym < MAX_INSTRUMENTS then m[sym] else BLANK
  }

  function Stored(m: Market, sym: SymbolId, st: InstrumentState): Market {
    if sym < MAX_INSTRUMENTS then m[sym := st] else m
  }

  /** The trades of one request, applied one by one. */
  function Tallied(st: InstrumentState, cs: seq<OrderConfirm>): InstrumentState
    decreases |cs|
  {
    if cs == [] then st
    else if cs[0].kind.Trade? then
      Tallied(st.(lastTradePrice := cs[0].price, lastTradeQty := cs[0].qty,
                  totalTradedVolume := Wrap32(st.totalTradedVolume + cs[0].qty)), cs[1..])
    else Tallied(st, cs[1..])
  }

  function Quoted(st: InstrumentState, e: Engine, sym: SymbolId): InstrumentState {
    st.(bestBid := EngineBestPrice(e, sym, Buy), bidVolume := EngineBestQty(e, sym, Buy),
        bestAsk := EngineBestPrice(e, sym, Sell), askVolume := EngineBestQty(e, sym, Sell))
  }

  datatype Server = Server(engine: Engine, market: Market)

  function Served(sv: Server, req: OrderRequest): Server {
    var r := Handle(sv.engine, req);
    var st := Tallied(StateOf(sv.market, req.symbolId), r.confirms);
    Server(r.engine, Stored(sv.market, req.symbolId, Quoted(st, r.engine, req.symbolId)))
  }

  // ---- The published state agrees with every book ----

  ghost predicate QuotesAgree(m: Market, e: Engine) {
    forall s: SymbolId | s < MAX_INSTRUMENTS ::
      && m[s].bestBid == EngineBestPrice(e, s, Buy) && m[s].bidVolume == EngineBestQty(e, s, Buy)
      && m[s].bestAsk == EngineBestPrice(e, s, Sell) && m[s].askVolume == EngineBestQty(e, s, Sell)
  }

  function SymVolume(cs: seq<OrderConfirm>, sym: SymbolId): nat {
    if cs == [] then 0
    else (if cs[0].kind.Trade? && cs[0].symbolId == sym then cs[0].qty else 0) + SymVolume(cs[1..], sym)
  }

  ghost predicate VolumesAgree(m: Market, cs: seq<OrderConfirm>) {
    forall s: SymbolId | s < MAX_INSTRUMENTS :: m[s].totalTradedVolume == Wrap32(SymVolume(cs, s))
  }

  lemma {:induction false} SymVolumeConcat(a: seq<OrderConfirm>, b: seq<OrderConfirm>, sym: SymbolId)
    ensures SymVolume(a + b, sym) == SymVolume(a, sym) + SymVolume(b, sym)
  {
    if a == [] {
      assert a + b == b;
    } else {
      assert (a + b)[0] == a[0] && (a + b)[1..] == a[1..] + b;
      SymVolumeConcat(a[1..], b, sym);
    }
  }

  ghost predicate AllFor(cs: seq<OrderConfirm>, sym: SymbolId) {
    forall c | c in cs :: c.symbolId == sym
  }

  lemma {:induction false} EventsFor(sym: SymbolId, inc: OrderRequest, evs: seq<Event>)
    ensures AllFor(Confirms(sym, inc, evs), sym)
  {
    if evs != [] {
      EventsFor(sym, inc, evs[1..]);
    }
  }

  /** Every confirmation of a request names the request's symbol. */
  lemma HandleFor(e: Engine, req: OrderRequest)
    ensures AllFor(Handle(e, req).confirms, req.symbolId)
  {
    hide Walk, Index, ModifySide;
    if req.symbolId in e.books && req.requestType.New? {
      EventsFor(req.symbolId, Numbered(e, req), Matched(e.books[req.symbolId], Numbered(e, req)).events);
    }
  }

  lemma {:induction false} VolumeFor(cs: seq<OrderConfirm>, sym: SymbolId, t: SymbolId)
    requires AllFor(cs, sym)
    ensures SymVolume(cs, t) == if t == sym then Volume(cs) else 0
  {
    if cs != [] {
      assert cs[0] in cs && forall c | c in cs[1..] :: c in cs;
      VolumeFor(cs[1..], sym, t);
    }
  }

  lemma {:induction false} TalliedVolume(st: InstrumentState, cs: seq<OrderConfirm>)
    ensures Tallied(st, cs).totalTradedVolume == Wrap32(st.totalTradedVolume + Volume(cs))
    decreases |cs|
  {
    if cs != [] {
      if cs[0].kind.Trade? {
        var st' := st.(lastTradePrice := cs[0].price, lastTradeQty := cs[0].qty,
                       totalTradedVolume := Wrap32(st.totalTradedVolume + cs[0].qty));
        TalliedVolume(st', cs[1..]);
        Wrap32Add(st.totalTradedVolume + cs[0].qty, Volume(cs[1..]));
      } else {
        TalliedVolume(st, cs[1..]);
      }
    }
  }

  /** Price and quantity of a symbol's last trade in a stream of confirmations, else what went before. */
  function LastTrade(before: (Price, Quantity), cs: seq<OrderConfirm>, sym: SymbolId): (Price, Quantity) {
    if cs == [] then before
    else
      var c := cs[|cs| - 1];
      if c.kind.Trade? && c.symbolId == sym then (c.price, c.qty) else LastTrade(before, cs[..|cs| - 1], sym)
  }

  lemma {:induction false} LastTradeConcat(before: (Price, Quantity), a: seq<OrderConfirm>, b: seq<OrderConfirm>,
                                           sym: SymbolId)
    ensures LastTrade(before, a + b, sym) == LastTrade(LastTrade(before, a, sym), b, sym)
    decreases |b|
  {
    if b == [] {
      assert a + b == a;
    } else {
      var n := |b| - 1;
      assert (a + b)[|a + b| - 1] == b[n] && (a + b)[..|a + b| - 1] == a + b[..n];
      LastTradeConcat(before, a, b[..n], sym);
    }
  }

  lemma {:induction false} NoTradeFor(before: (Price, Quantity), cs: seq<OrderConfirm>, sym: SymbolId, t: SymbolId)
    requires AllFor(cs, sym) && t != sym
    ensures LastTrade(before, cs, t) == before
  {
    if cs != [] {
      assert cs[|cs| - 1] in cs;
      NoTradeFor(before, cs[..|cs| - 1], sym, t);
    }
  }

  lemma {:induction false} TalliedLast(st: InstrumentState, cs: seq<OrderConfirm>, sym: SymbolId)
    requires AllFor(cs, sym)
    ensures (Tallied(st, cs).lastTradePrice, Tallied(st, cs).lastTradeQty)
         == LastTrade((st.lastTradePrice, st.lastTradeQty), cs, sym)
    decreases |cs|
  {
    if cs != [] {
      assert cs[0] in cs && forall c | c in cs[1..] :: c in cs;
      assert cs == [cs[0]] + cs[1..];
      LastTradeConcat((st.lastTradePrice, st.lastTradeQty), [cs[0]], cs[1..], sym);
      assert LastTrade((st.lastTradePrice, st.lastTradeQty), [], sym) == (st.lastTradePrice, st.lastTradeQty);
      assert [cs[0]][..0] == [];
      TalliedLast(if cs[0].kind.Trade? then
                    st.(lastTradePrice := cs[0].price, lastTradeQty := cs[0].qty,
                        totalTradedVolume := Wrap32(st.totalTradedVolume + cs[0].qty))
                  else st, cs[1..], sym);
    }
  }

  ghost predicate LastTradesAgree(m: Market, cs: seq<OrderConfirm>) {
    forall s: SymbolId | s < MAX_INSTRUMENTS :: (m[s].lastTradePrice, m[s].lastTradeQty) == LastTrade((0, 0), cs, s)
  }

  lemma ServedLastTrades(sv: Server, req: OrderRequest, cs: seq<OrderConfirm>)
    requires LastTradesAgree(sv.market, cs)
    ensures LastTradesAgree(Served(sv, req).market, cs + Handle(sv.engine, req).confirms)
  {
    hide Handle, Tallied, LastTrade;
    var sv' := Served(sv, req);
    var newConfirms := Handle(sv.engine, req).confirms;
    HandleFor(sv.engine, req);
    forall s: SymbolId | s < MAX_INSTRUMENTS
      ensures (sv'.market[s].lastTradePrice, sv'.market[s].lastTradeQty) == LastTrade((0, 0), cs + newConfirms, s)
    {
      LastTradeConcat((0, 0), cs, newConfirms, s);
      if s == req.symbolId {
        TalliedLast(sv.market[s], newConfirms, s);
      } else {
        NoTradeFor(LastTrade((0, 0), cs, s), newConfirms, req.symbolId, s);
      }
    }
  }

  lemma ServedQuotes(sv: Server, req: OrderRequest)
    requires QuotesAgree(sv.market, sv.engine)
    ensures QuotesAgree(Served(sv, req).market, Served(sv, req).engine)
  {
    hide Apply, Tallied;
    var sv' := Served(sv, req);
    forall s: SymbolId | s < MAX_INSTRUMENTS && s != req.symbolId
      ensures sv'.market[s] == sv.market[s]
      ensures s in sv.engine.books <==> s in sv'.engine.books
      ensures s in sv.engine.books ==> sv'.engine.books[s] == sv.engine.books[s]
    {
    }
  }

  lemma ServedVolumes(sv: Server, req: OrderRequest, cs: seq<OrderConfirm>)
    requires VolumesAgree(sv.market, cs)
    ensures VolumesAgree(Served(sv, req).market, cs + Handle(sv.engine, req).confirms)
  {
    hide Handle, Tallied;
    var sv' := Served(sv, req);
    var newConfirms := Handle(sv.engine, req).confirms;
    HandleFor(sv.engine, req);
    forall s: SymbolId | s < MAX_INSTRUMENTS
      ensures sv'.market[s].totalTradedVolume == Wrap32(SymVolume(cs + newConfirms, s))
    {
      SymVolumeConcat(cs, newConfirms, s);
      VolumeFor(newConfirms, req.symbolId, s);
      if s == req.symbolId {
        TalliedVolume(sv.market[s], newConfirms);
        Wrap32Add(SymVolume(cs, s), Volume(newConfirms));
      }
    }
  }

  // ---- Runs of raw messages ----

  function Processed(sv: Server, raw: RawMessage): Server
    requires WellSized(raw)
  {
    match Decode(raw)
    case None => sv
    case Some(req) => Served(sv, req)
  }

  function ProcessedAll(sv: Server, raws: seq<RawMessage>): Server
    requires forall raw | raw in raws :: WellSized(raw)
  {
    if raws == [] then sv
    else
      assert raws[|raws| - 1] in raws;
      Processed(ProcessedAll(sv, raws[..|raws| - 1]), raws[|raws| - 1])
  }

  function Serve(sv: Server, reqs: seq<OrderRequest>): Server {
    if reqs == [] then sv else Served(Serve(sv, reqs[..|reqs| - 1]), reqs[|reqs| - 1])
  }

  /** Serving a run of requests runs the engine on it. */
  lemma {:induction false} ServeRuns(sv: Server, reqs: seq<OrderRequest>)
    ensures Serve(sv, reqs).engine == Run(sv.engine, reqs)
  {
    if reqs != [] {
      ServeRuns(sv, reqs[..|reqs| - 1]);
    }
  }

  /** After every request of any run, for every listed symbol, the cached best prices and quantities
      are those of the engine, the traded volume is the sum of the symbol's trade confirmations in
      32 bits, and the last trade is the symbol's last one. */
  lemma {:induction false} ServeAgrees(sv: Server, reqs: seq<OrderRequest>, cs: seq<OrderConfirm>)
    requires QuotesAgree(sv.market, sv.engine) && VolumesAgree(sv.market, cs) && LastTradesAgree(sv.market, cs)
    ensures QuotesAgree(Serve(sv, reqs).market, Run(sv.engine, reqs))
    ensures LastTradesAgree(Serve(sv, reqs).market, cs + RunConfirms(sv.engine, reqs))
    ensures VolumesAgree(Serve(sv, reqs).market, cs + RunConfirms(sv.engine, reqs))
  {
    hide QuotesAgree, VolumesAgree, LastTradesAgree, Served, Handle;
    if reqs == [] {
      assert cs + [] == cs;
    } else {
      var prefix, req := reqs[..|reqs| - 1], reqs[|reqs| - 1];
      ServeAgrees(sv, prefix, cs);
      ServeRuns(sv, prefix);
      ServeRuns(sv, reqs);
      ServedQuotes(Serve(sv, prefix), req);
      ServedVolumes(Serve(sv, prefix), req, cs + RunConfirms(sv.engine, prefix));
      ServedLastTrades(Serve(sv, prefix), req, cs + RunConfirms(sv.engine, prefix));
      assert cs + RunConfirms(sv.engine, reqs)
          == cs + RunConfirms(sv.engine, prefix) + Handle(Run(sv.engine, prefix), req).confirms;
    }
  }

  lemma BlankAgrees(symbols: seq<SymbolId>)
    ensures QuotesAgree(seq(MAX_INSTRUMENTS, _ => BLANK), Boot(symbols))
    ensures VolumesAgree(seq(MAX_INSTRUMENTS, _ => BLANK), []) && LastTradesAgree(seq(MAX_INSTRUMENTS, _ => BLANK), [])
  {
  }

  /** The volume counter of a symbol counts every match twice, once per side. */
  lemma {:induction false} VolumeIsTwiceMatched(e: Engine, reqs: seq<OrderRequest>, sym: SymbolId)
    ensures SymVolume(RunConfirms(e, reqs), sym) == 2 * MatchedIn(e, reqs, sym)
  {
    hide Handle;
    if reqs != [] {
      var prefix, req := reqs[..|reqs| - 1], reqs[|reqs| - 1];
      VolumeIsTwiceMatched(e, prefix, sym);
      SymVolumeConcat(RunConfirms(e, prefix), Handle(Run(e, prefix), req).confirms, sym);
      HandleFor(Run(e, prefix), req);
      VolumeFor(Handle(Run(e, prefix), req).confirms, req.symbolId, sym);
      HandleVolume(Run(e, prefix), req);
    }
  }

  /** Quantity bought in a symbol over a run, read off the market data. */
  function MatchedIn(e: Engine, reqs: seq<OrderRequest>, sym: SymbolId): nat {
    if reqs == [] then 0
    else
      var prefix, req := reqs[..|reqs| - 1], reqs[|reqs| - 1];
      MatchedIn(e, prefix, sym) + (if req.symbolId == sym then SideFills(Handle(Run(e, prefix), req).mds, Buy) else 0)
  }

  lemma HandleVolume(e: Engine, req: OrderRequest)
    ensures Volume(Handle(e, req).confirms) == 2 * SideFills(Handle(e, req).mds, Buy)
  {
    hide Apply;
    if req.symbolId in e.books {
      ApplyFills(e.books[req.symbolId], req.symbolId, Numbered(e, req));
    }
  }

  lemma BootFromNothing(e: Engine, symbols: seq<SymbolId>)
    requires e == Engine(map[], 1)
    ensures e.(books := e.books + map s | s in symbols :: EMPTY_BOOK) == Boot(symbols)
  {
  }

  // ---- The shared table and the thread ----

  class MarketState {
    const instruments: array<InstrumentState>

    ghost predicate Valid()
      reads this
    {
      instruments.Length == MAX_INSTRUMENTS
    }

    ghost function Snapshot(): Market
      requires Valid()
      reads this, instruments
    {
      instruments[..]
    }

    constructor ()
      ensures Valid() && fresh(instruments) && Snapshot() == seq(MAX_INSTRUMENTS, _ => BLANK)
    {
      instruments := new InstrumentState[MAX_INSTRUMENTS](_ => BLANK);
    }

    /** Overwrites one entry; a symbol out of range is ignored. */
    method Update(symbol: SymbolId, st: InstrumentState)
      requires Valid()
      modifies instruments
      ensures Snapshot() == Stored(old(Snapshot()), symbol, st)
    {
      if symbol < MAX_INSTRUMENTS {
        instruments[symbol] := st;
      }
    }

    /** One entry; blank for a symbol out of range. */
    method Get(symbol: SymbolId) returns (st: InstrumentState)
      requires Valid()
      ensures st == StateOf(Snapshot(), symbol)
    {
      if symbol < MAX_INSTRUMENTS {
        return instruments[symbol];
      }
      return BLANK;
    }
  }

  class MatchingThread {
    const engine: MatchingEngine
    const market: MarketState

    ghost predicate Valid()
      reads this, engine, engine.Repr, market
    {
      && market.Valid() && engine.Valid()
      && market !in engine.Repr && market.instruments !in engine.Repr && this !in engine.Repr
    }

    ghost function View(): Server
      requires market.Valid()
      reads this, engine, engine.books.Values, market, market.instruments
    {
      Server(engine.View(), market.Snapshot())
    }

    constructor ()
      ensures Valid() && fresh(engine) && fresh(engine.Repr) && fresh(market) && fresh(market.instruments)
      ensures View() == Server(Boot([0, 1, 2, 3, 4]), seq(MAX_INSTRUMENTS, _ => BLANK))
    {
      hide MatchingEngine.Valid, MatchingEngine.View;
      var e := new MatchingEngine();
      ghost var before := e.View();
      e.Initialize([0, 1, 2, 3, 4]);
      BootFromNothing(before, [0, 1, 2, 3, 4]);
      var m := new MarketState();
      engine, market := e, m;
    }

    /** Applies the trades of one request to a local copy of the instrument's state. */
    method Tally(st0: InstrumentState, confirms: seq<OrderConfirm>) returns (st: InstrumentState)
      ensures st == Tallied(st0, confirms)
    {
      st := st0;
      var i := 0;
      while i < |confirms|
        invariant i <= |confirms|
        invariant Tallied(st, confirms[i..]) == Tallied(st0, confirms)
      {
        assert confirms[i..][1..] == confirms[i + 1..];
        if confirms[i].kind.Trade? {
          st := st.(lastTradePrice := confirms[i].price, lastTradeQty := confirms[i].qty,
                    totalTradedVolume := Wrap32(st.totalTradedVolume + confirms[i].qty));
        }
        i := i + 1;
      }
    }

    method Dispatch(req: OrderRequest) returns (confirms: seq<OrderConfirm>, mds: seq<MdUpdate>)
      requires Room(engine.View(), req)
      requires engine.Valid()
      modifies engine.Repr
      ensures old(engine.Repr) <= engine.Repr && fresh(engine.Repr - old(engine.Repr))
      ensures var r := Handle(old(engine.View()), req);
              engine.View() == r.engine && confirms == r.confirms && mds == r.mds
      ensures engine.Valid()
    {
      hide Handle, MatchingEngine.Valid, MatchingEngine.View;
      match req.requestType
      case New => confirms, mds := engine.OnOrder(req, [], []);
      case Cancel => confirms, mds := engine.OnCancel(req.orderId, req.symbolId, req.traderId, req, [], []);
      case Modify =>
        confirms, mds := engine.OnModify(req.orderId, req.symbolId, req.traderId, req.price, req.quantity, req, [], []);
    }

    /** One message off the queue: skipped if it does not parse, else matched and published. */
    method Process(raw: RawMessage) returns (confirms: seq<OrderConfirm>, mds: seq<MdUpdate>)
      requires WellSized(raw) && (Decode(raw).Some? ==> Room(engine.View(), Decode(raw).value))
      requires Valid()
      modifies engine.Repr, market.instruments
      ensures View() == Processed(old(View()), raw)
      ensures Decode(raw).Some? ==>
                confirms == Handle(old(engine.View()), Decode(raw).value).confirms
                && mds == Handle(old(engine.View()), Decode(raw).value).mds
      ensures Decode(raw).None? ==> confirms == [] && mds == []
      ensures Valid() && old(engine.Repr) <= engine.Repr && fresh(engine.Repr - old(engine.Repr))
    {
      hide Handle, MatchingEngine.Valid, Decode, EngineBestPrice, EngineBestQty, Tallied;
      confirms, mds := [], [];
      match Decode(raw) {
        case None =>
        case Some(req) =>
          confirms, mds := Dispatch(req);
          var st := market.Get(req.symbolId);
          st := Tally(st, confirms);
          var bid, bidQty := engine.GetBest(req.symbolId, Buy);
          var ask, askQty := engine.GetBest(req.symbolId, Sell);
          st := st.(bestBid := bid, bidVolume := bidQty, bestAsk := ask, askVolume := askQty);
          ghost var e := engine.View();
          market.Update(req.symbolId, st);
          assert engine.View() == e;
      }
    }

    /** The event loop over what it pops. */
    method Loop(raws: seq<RawMessage>)
      requires (forall raw | raw in raws :: WellSized(raw)) && FreshRun(engine.View(), DecodeAll(raws))
      requires Valid()
      modifies engine.Repr, market.instruments
      ensures View() == ProcessedAll(old(View()), raws)
      ensures Valid()
    {
      hide MatchingEngine.Valid, Decode, Handle, Room, FreshRun, Run;
      ghost var sv := View();
      for i := 0 to |raws|
        invariant Valid() && old(engine.Repr) <= engine.Repr && fresh(engine.Repr - old(engine.Repr))
        invariant View() == ProcessedAll(sv, raws[..i])
      {
        assert raws[i] in raws && raws[..i + 1][..i] == raws[..i];
        NextHasRoom(sv, raws, i);
        var _, _ := Process(raws[i]);
      }
      assert raws[..|raws|] == raws;
    }
  }

  /** Skipping what does not parse, the thread serves exactly the decoded requests. */
  lemma {:induction false} ProcessedIsServed(sv: Server, raws: seq<RawMessage>)
    requires forall raw | raw in raws :: WellSized(raw)
    ensures ProcessedAll(sv, raws) == Serve(sv, DecodeAll(raws))
  {
    hide Decode, Served;
    if raws != [] {
      var n := |raws| - 1;
      var last := raws[n];
      assert raws == raws[..n] + [last] && last in raws;
      ProcessedIsServed(sv, raws[..n]);
      DecodeConcat(raws[..n], [last]);
      DecodeSingle(last);
      if Decode(last).Some? {
        var reqs := DecodeAll(raws);
        assert reqs == DecodeAll(raws[..n]) + [Decode(last).value];
        assert reqs[..|reqs| - 1] == DecodeAll(raws[..n]);
      } else {
        assert DecodeAll(raws[..n]) + [] == DecodeAll(raws[..n]);
      }
    }
  }

  lemma NextHasRoom(sv: Server, raws: seq<RawMessage>, i: nat)
    requires (forall raw | raw in raws :: WellSized(raw)) && FreshRun(sv.engine, DecodeAll(raws)) && i < |raws|
    ensures raws[i] in raws && forall raw | raw in raws[..i] :: raw in raws
    ensures Decode(raws[i]).Some? ==> Room(ProcessedAll(sv, raws[..i]).engine, Decode(raws[i]).value)
  {
    hide Decode, Run, Room;
    var done, next, rest := raws[..i], raws[i], raws[i + 1..];
    assert raws == done + ([next] + rest);
    DecodeConcat(done, [next] + rest);
    assert forall raw | raw in [next] + rest :: raw in raws;
    DecodeConcat([next], rest);
    DecodeSingle(next);
    ProcessedIsServed(sv, done);
    ServeRuns(sv, DecodeAll(done));
    if Decode(next).Some? {
      var reqs, n := DecodeAll(raws), |DecodeAll(done)|;
      assert reqs == DecodeAll(done) + ([Decode(next).value] + DecodeAll(rest));
      assert reqs[..n] == DecodeAll(done) && reqs[n] == Decode(next).value;
    }
  }
}
