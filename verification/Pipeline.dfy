/** From bytes on many sockets to the published market: the parts composed. */
module Pipeline {
  import opened ExchangeTypes
  import opened EngineSpec
  import opened Wire
  import opened Framing
  import opened Publishing
  import opened PriceTime
  import opened MatchingEngines
  import R = EngineRuns
  import S = Spsc

  // ---- The epoll thread over all sessions ----

  /** Data arriving on a connection. */
  datatype Callback = Callback(fd: int, chunk: Bytes)

  /** The buffers of all sessions and everything framed so far; hung once a zero-length header of some
      trader is met, after which only empty envelopes of that trader are pushed. */
  datatype Epoll =
    | Up(buffers: map<int, Bytes>, framed: seq<RawMessage>)
    | Hung(framed: seq<RawMessage>, spinner: TraderId)

  /** Live sessions: connection to trader. */
  type Sockets = map<int, TraderId>

  function BufferOf(buffers: map<int, Bytes>, fd: int): Bytes {
    if fd in buffers then buffers[fd] else []
  }

  /** One readiness callback; data on an unknown connection is ignored. */
  function OnReady(net: Sockets, ep: Epoll, cb: Callback): Epoll {
    if ep.Hung? || cb.fd !in net then ep
    else
      match Frame(net[cb.fd], BufferOf(ep.buffers, cb.fd) + cb.chunk)
      case Done(msgs, rest) => Up(ep.buffers[cb.fd := rest], ep.framed + msgs)
      case Spins(msgs) => Hung(ep.framed + msgs, net[cb.fd])
  }

  function Polled(net: Sockets, cbs: seq<Callback>): Epoll {
    if cbs == [] then Up(map[], [])
    else OnReady(net, Polled(net, cbs[..|cbs| - 1]), cbs[|cbs| - 1])
  }

  /** All the thread can have pushed, with k rounds of the flood if it hangs. */
  function Output(ep: Epoll, k: nat): seq<RawMessage> {
    ep.framed + (if ep.Hung? then Flood(ep.spinner, k) else [])
  }

  /** Any number of rounds into the callback after cbs, what the thread has pushed is within its output. */
  lemma OutputCovers(net: Sockets, cbs: seq<Callback>, cb: Callback, n: nat)
    requires Polled(net, cbs).Up? && cb.fd in net
    ensures var ep := Polled(net, cbs);
            ep.framed + Pushed(net[cb.fd], BufferOf(ep.buffers, cb.fd) + cb.chunk, n)
            <= Output(Polled(net, cbs + [cb]), n)
  {
    hide Frame, Pushed;
    var ep := Polled(net, cbs);
    assert (cbs + [cb])[..|cbs|] == cbs;
    PushedFits(net[cb.fd], BufferOf(ep.buffers, cb.fd) + cb.chunk, n);
  }

  /** The byte stream of one connection. */
  function StreamOf(cbs: seq<Callback>, fd: int): Bytes {
    if cbs == [] then []
    else StreamOf(cbs[..|cbs| - 1], fd) + (if cbs[|cbs| - 1].fd == fd then cbs[|cbs| - 1].chunk else [])
  }

  /** One trader's envelopes among all that share the queue. */
  function OfTrader(raws: seq<RawMessage>, trader: TraderId): seq<RawMessage> {
    if raws == [] then []
    else
      var n := |raws| - 1;
      OfTrader(raws[..n], trader) + (if raws[n].traderId == trader then [raws[n]] else [])
  }

  lemma {:induction false} OfTraderConcat(a: seq<RawMessage>, b: seq<RawMessage>, trader: TraderId)
    ensures OfTrader(a + b, trader) == OfTrader(a, trader) + OfTrader(b, trader)
    decreases |b|
  {
    if b == [] {
      assert a + b == a;
    } else {
      var n := |b| - 1;
      assert (a + b)[|a + b| - 1] == b[n] && (a + b)[..|a + b| - 1] == a + b[..n];
      OfTraderConcat(a, b[..n], trader);
    }
  }

  lemma {:induction false} OfTraderAll(raws: seq<RawMessage>, owner: TraderId, trader: TraderId)
    requires forall raw | raw in raws :: raw.traderId == owner
    ensures OfTrader(raws, trader) == if owner == trader then raws else []
  {
    if raws != [] {
      var n := |raws| - 1;
      assert raws[n] in raws && raws == raws[..n] + [raws[n]];
      OfTraderAll(raws[..n], owner, trader);
    }
  }

  /** fd is its trader's only connection. */
  ghost predicate OnlySession(net: Sockets, fd: int) {
    fd in net && forall g | g in net && g != fd :: net[g] != net[fd]
  }

  lemma {:induction false} PolledWellSized(net: Sockets, cbs: seq<Callback>)
    ensures forall raw | raw in Polled(net, cbs).framed :: WellSized(raw)
  {
    hide Frame, WellSized;
    if cbs != [] {
      var n := |cbs| - 1;
      var ep, cb := Polled(net, cbs[..n]), cbs[n];
      PolledWellSized(net, cbs[..n]);
      if ep.Up? && cb.fd in net {
        FrameWellSized(net[cb.fd], BufferOf(ep.buffers, cb.fd) + cb.chunk);
      }
    }
  }

  /** While the thread is up, whatever the other sessions send and however callbacks interleave, a
      trader's envelopes and buffer are those of framing its own stream. */
  lemma {:induction false} SessionsApart(net: Sockets, cbs: seq<Callback>, fd: int)
    requires OnlySession(net, fd) && Polled(net, cbs).Up?
    ensures Frame(net[fd], StreamOf(cbs, fd))
         == Done(OfTrader(Polled(net, cbs).framed, net[fd]), BufferOf(Polled(net, cbs).buffers, fd))
  {
    hide Frame;
    if cbs == [] {
      FrameWaiting(net[fd], []);
    } else {
      var n := |cbs| - 1;
      var ep, cb := Polled(net, cbs[..n]), cbs[n];
      SessionsApart(net, cbs[..n], fd);
      var stream := StreamOf(cbs[..n], fd);
      if cb.fd in net {
        var f := Frame(net[cb.fd], BufferOf(ep.buffers, cb.fd) + cb.chunk);
        FrameWellSized(net[cb.fd], BufferOf(ep.buffers, cb.fd) + cb.chunk);
        OfTraderConcat(ep.framed, f.msgs, net[fd]);
        OfTraderAll(f.msgs, net[cb.fd], net[fd]);
        if cb.fd == fd {
          FrameConcat(net[fd], stream, cb.chunk);
        } else {
          assert stream + [] == stream;
          assert OfTrader(ep.framed, net[fd]) + [] == OfTrader(ep.framed, net[fd]);
        }
      } else {
        assert stream + [] == stream;
      }
    }
  }

  /** A hung thread had framed, for each trader, only what belongs to the trader's own stream. */
  lemma {:induction false} FramedIsOwn(net: Sockets, cbs: seq<Callback>, fd: int)
    requires OnlySession(net, fd)
    ensures OfTrader(Polled(net, cbs).framed, net[fd]) <= Frame(net[fd], StreamOf(cbs, fd)).msgs
  {
    hide Frame;
    if Polled(net, cbs).Up? {
      SessionsApart(net, cbs, fd);
    } else {
      var n := |cbs| - 1;
      var ep, cb := Polled(net, cbs[..n]), cbs[n];
      var stream := StreamOf(cbs[..n], fd);
      FramedIsOwn(net, cbs[..n], fd);
      FrameConcat(net[fd], stream, if cb.fd == fd then cb.chunk else []);
      if ep.Up? {
        SessionsApart(net, cbs[..n], fd);
        var f := Frame(net[cb.fd], BufferOf(ep.buffers, cb.fd) + cb.chunk);
        FrameWellSized(net[cb.fd], BufferOf(ep.buffers, cb.fd) + cb.chunk);
        OfTraderConcat(ep.framed, f.msgs, net[fd]);
        OfTraderAll(f.msgs, net[cb.fd], net[fd]);
        if cb.fd != fd {
          assert OfTrader(ep.framed, net[fd]) + [] == OfTrader(ep.framed, net[fd]);
        }
      }
    }
  }

  // ---- Into the engine ----

  function ByTrader(reqs: seq<OrderRequest>, trader: TraderId): seq<OrderRequest> {
    if reqs == [] then []
    else
      var n := |reqs| - 1;
      ByTrader(reqs[..n], trader) + (if reqs[n].traderId == trader then [reqs[n]] else [])
  }

  lemma ByTraderAppend(reqs: seq<OrderRequest>, r: OrderRequest, trader: TraderId)
    ensures ByTrader(reqs + [r], trader) == ByTrader(reqs, trader) + (if r.traderId == trader then [r] else [])
  {
    assert (reqs + [r])[..|reqs + [r]| - 1] == reqs;
  }

  lemma DecodeKeepsTrader(raw: RawMessage)
    requires WellSized(raw)
    ensures Decode(raw).Some? ==> Decode(raw).value.traderId == raw.traderId
  {
    hide U16, U32, U64;
  }

  lemma {:induction false} OfTraderMembers(raws: seq<RawMessage>, trader: TraderId)
    ensures forall raw | raw in OfTrader(raws, trader) :: raw in raws
  {
    if raws != [] {
      var n := |raws| - 1;
      OfTraderMembers(raws[..n], trader);
      assert raws == raws[..n] + [raws[n]];
    }
  }

  /** Decoding keeps the sender, so selecting a trader commutes with it. */
  lemma {:induction false} DecodeOfTrader(raws: seq<RawMessage>, trader: TraderId)
    requires forall raw | raw in raws :: WellSized(raw)
    ensures forall raw | raw in OfTrader(raws, trader) :: WellSized(raw)
    ensures ByTrader(DecodeAll(raws), trader) == DecodeAll(OfTrader(raws, trader))
  {
    hide Decode, WellSized;
    OfTraderMembers(raws, trader);
    if raws != [] {
      var n := |raws| - 1;
      var init, last := raws[..n], raws[n];
      assert raws == init + [last] && last in raws;
      DecodeOfTrader(init, trader);
      DecodeConcat(init, [last]);
      DecodeSingle(last);
      DecodeKeepsTrader(last);
      var own := if last.traderId == trader then [last] else [];
      assert forall raw | raw in OfTrader(init, trader) + own :: WellSized(raw);
      DecodeConcat(OfTrader(init, trader), own);
      if Decode(last).Some? {
        ByTraderAppend(DecodeAll(init), Decode(last).value, trader);
      } else {
        assert DecodeAll(init) + [] == DecodeAll(init);
      }
      if own == [] {
        assert DecodeAll(own) == [];
      }
    }
  }

  /** What one trader's well-formed stream, as far as it has arrived, decodes to. */
  lemma ArrivedDecodes(trader: TraderId, ms: seq<Message>, stream: Bytes)
    requires stream <= EncodeAll(ms)
    ensures var f := Frame(trader, stream);
            && f.Done? && (forall raw | raw in f.msgs :: WellSized(raw))
            && DecodeAll(f.msgs) <= Requests(trader, ms)
            && (stream == EncodeAll(ms) ==> DecodeAll(f.msgs) == Requests(trader, ms))
  {
    hide Frame, Waits, Decode, Encode;
    var k, more := PrefixSplits(ms, stream);
    FrameAll(trader, ms[..k], more);
    EnvelopesDecode(trader, ms[..k]);
    RequestsPrefix(trader, ms, k);
    if stream == EncodeAll(ms) {
      assert stream == EncodeAll(ms) + [];
      EmptyWaits();
      FrameAll(trader, ms, []);
      EnvelopesDecode(trader, ms);
    }
  }

  /** After every message of any run, processed or skipped, the published quotes are those of all
      books and the volumes and last trades those of all trades. */
  lemma PublishedAfterEveryMessage(symbols: seq<SymbolId>, raws: seq<RawMessage>)
    requires forall raw | raw in raws :: WellSized(raw)
    ensures var sv := ProcessedAll(Server(Boot(symbols), seq(MAX_INSTRUMENTS, _ => BLANK)), raws);
            && sv.engine == Run(Boot(symbols), DecodeAll(raws))
            && QuotesAgree(sv.market, sv.engine)
            && VolumesAgree(sv.market, RunConfirms(Boot(symbols), DecodeAll(raws)))
            && LastTradesAgree(sv.market, RunConfirms(Boot(symbols), DecodeAll(raws)))
  {
    hide Decode, QuotesAgree, VolumesAgree, LastTradesAgree, Run, RunConfirms;
    var sv0 := Server(Boot(symbols), seq(MAX_INSTRUMENTS, _ => BLANK));
    BlankAgrees(symbols);
    ProcessedIsServed(sv0, raws);
    ServeRuns(sv0, DecodeAll(raws));
    ServeAgrees(sv0, DecodeAll(raws), []);
    assert [] + RunConfirms(Boot(symbols), DecodeAll(raws)) == RunConfirms(Boot(symbols), DecodeAll(raws));
  }

  /** A quote told by the resting orders of one side: the highest bid or the lowest ask, and the live
      quantity at it with what the level's total has drifted, in 32 bits; zero where nothing rests. */
  ghost predicate Quotes(s: Side, q: seq<Resting>, p: Price, qty: Quantity, drift: int) {
    if q == [] then p == qty == 0
    else
      && (exists r :: r in q && r.price == p)
      && (forall r | r in q :: if s.Buy? then r.price <= p else r.price >= p)
      && qty == Wrap32(SumQty(At(q, p)) + drift)
  }

  lemma RunQuotes(symbols: seq<SymbolId>, reqs: seq<OrderRequest>, sym: SymbolId, s: Side)
    requires sym in symbols && News(reqs) < TWO64
    ensures var e := Run(Boot(symbols), reqs); var p := EngineBestPrice(e, sym, s);
            && sym in e.books
            && Quotes(s, e.books[sym].On(s).queue, p, EngineBestQty(e, sym, s),
                      R.DriftHistory(Boot(symbols), reqs, sym, s, p))
  {
    hide Run, EngineInv, At, SumQty, R.DriftHistory, LevelTotal, FreshRun, News;
    var e0 := Boot(symbols);
    BootInv(symbols);
    BoundedIsFresh(e0, reqs);
    RunKeeps(e0, reqs);
    EngineTop(Run(e0, reqs), sym, s);
    R.TotalLaw(e0, reqs, sym, s, EngineBestPrice(Run(e0, reqs), sym, s));
  }

  /** After every message of any run of fewer than 2^64 new orders, the published quotes of every listed
      instrument are those its resting orders tell. */
  lemma PublishedTop(symbols: seq<SymbolId>, raws: seq<RawMessage>, sym: SymbolId)
    requires (forall raw | raw in raws :: WellSized(raw)) && sym < 256 && sym in symbols
    requires News(DecodeAll(raws)) < TWO64
    ensures var reqs := DecodeAll(raws); var e := Run(Boot(symbols), reqs);
            var st := ProcessedAll(Server(Boot(symbols), seq(MAX_INSTRUMENTS, _ => BLANK)), raws).market[sym];
            && sym in e.books
            && Quotes(Buy, e.books[sym].bids.queue, st.bestBid, st.bidVolume,
                      R.DriftHistory(Boot(symbols), reqs, sym, Buy, st.bestBid))
            && Quotes(Sell, e.books[sym].asks.queue, st.bestAsk, st.askVolume,
                      R.DriftHistory(Boot(symbols), reqs, sym, Sell, st.bestAsk))
  {
    hide Decode, Run, RunConfirms, Quotes, R.DriftHistory, VolumesAgree, LastTradesAgree, News;
    hide EngineBestPrice, EngineBestQty;
    PublishedAfterEveryMessage(symbols, raws);
    RunQuotes(symbols, DecodeAll(raws), sym, Buy);
    RunQuotes(symbols, DecodeAll(raws), sym, Sell);
  }

  /** The quotes of an instrument that is not traded stay zero. */
  lemma UnlistedTop(symbols: seq<SymbolId>, raws: seq<RawMessage>, sym: SymbolId)
    requires (forall raw | raw in raws :: WellSized(raw)) && sym < 256 && sym !in symbols
    requires News(DecodeAll(raws)) < TWO64
    ensures var st := ProcessedAll(Server(Boot(symbols), seq(MAX_INSTRUMENTS, _ => BLANK)), raws).market[sym];
            st.bestBid == 0 && st.bestAsk == 0 && st.bidVolume == 0 && st.askVolume == 0
  {
    hide Decode, Run, RunConfirms, EngineInv, VolumesAgree, LastTradesAgree, FreshRun, News;
    var reqs, e0 := DecodeAll(raws), Boot(symbols);
    PublishedAfterEveryMessage(symbols, raws);
    BootInv(symbols);
    BoundedIsFresh(e0, reqs);
    RunKeeps(e0, reqs);
  }

  lemma OutputDecodes(net: Sockets, cbs: seq<Callback>, k: nat)
    ensures forall raw | raw in Output(Polled(net, cbs), k) :: WellSized(raw)
    ensures forall raw | raw in Polled(net, cbs).framed :: WellSized(raw)
    ensures DecodeAll(Output(Polled(net, cbs), k)) == DecodeAll(Polled(net, cbs).framed)
  {
    hide Decode, Polled;
    var ep := Polled(net, cbs);
    PolledWellSized(net, cbs);
    var flood := if ep.Hung? then Flood(ep.spinner, k) else [];
    if ep.Hung? {
      FloodDecodes(ep.spinner, k);
    }
    DecodeConcat(ep.framed, flood);
  }

  lemma {:induction false} ByTraderPrefix(a: seq<OrderRequest>, b: seq<OrderRequest>, trader: TraderId)
    requires a <= b
    ensures ByTrader(a, trader) <= ByTrader(b, trader)
  {
    if |a| < |b| {
      var n := |b| - 1;
      assert a <= b[..n];
      ByTraderPrefix(a, b[..n], trader);
    } else {
      assert a == b;
    }
  }

  /** Once a trader's stream has arrived whole, all its requests are among those framed. */
  lemma ArrivedWhole(net: Sockets, cbs: seq<Callback>, fd: int, ms: seq<Message>)
    requires OnlySession(net, fd) && Polled(net, cbs).Up? && StreamOf(cbs, fd) == EncodeAll(ms)
    ensures forall raw | raw in Polled(net, cbs).framed :: WellSized(raw)
    ensures ByTrader(DecodeAll(Polled(net, cbs).framed), net[fd]) == Requests(net[fd], ms)
  {
    hide Frame, Decode, Polled, StreamOf, WellSized, EncodeAll, Requests;
    PolledWellSized(net, cbs);
    SessionsApart(net, cbs, fd);
    ArrivedDecodes(net[fd], ms, StreamOf(cbs, fd));
    DecodeOfTrader(Polled(net, cbs).framed, net[fd]);
  }

  /** Wire to engine: for any interleaving of callbacks on any sessions, any interleaving of the two
      threads on the ring and any moment of it, the engine has run on some requests of which each
      trader's are, in order, a prefix of what the trader's stream encodes: all of them once, after
      some m callbacks, the stream has arrived whole and what was framed by then has been popped.
      Another session's zero-length header, and any number of the empty envelopes that follow it, do
      not change that. */
  lemma WireToEngine(net: Sockets, cbs: seq<Callback>, k: nat, states: seq<S.Queue<RawMessage>>,
                     steps: seq<S.Step<RawMessage>>, n: nat, symbols: seq<SymbolId>, fd: int, ms: seq<Message>, m: nat)
    requires S.Execution(states, steps) && n < |states| && m <= |cbs|
    requires states[n].pushed <= Output(Polled(net, cbs), k)
    requires OnlySession(net, fd) && StreamOf(cbs, fd) <= EncodeAll(ms)
    ensures var popped, early := states[n].popped, Polled(net, cbs[..m]);
            && (forall raw | raw in popped :: WellSized(raw))
            && var reqs := DecodeAll(popped);
            && ProcessedAll(Server(Boot(symbols), seq(MAX_INSTRUMENTS, _ => BLANK)), popped).engine
               == Run(Boot(symbols), reqs)
            && ByTrader(reqs, net[fd]) <= Requests(net[fd], ms)
            && (early.Up? && early.framed <= popped && StreamOf(cbs[..m], fd) == EncodeAll(ms)
                ==> ByTrader(reqs, net[fd]) == Requests(net[fd], ms))
  {
    hide S.Execution, Frame, Decode, Polled, StreamOf, WellSized, Run, EncodeAll, Requests, Output;
    hide QuotesAgree, VolumesAgree, LastTradesAgree, RunConfirms;
    var trader, framed, popped := net[fd], Polled(net, cbs).framed, states[n].popped;
    S.LinearFifo(states, steps, n);
    OutputDecodes(net, cbs, k);
    assert popped <= Output(Polled(net, cbs), k);
    DecodePrefix(popped, Output(Polled(net, cbs), k));
    ByTraderPrefix(DecodeAll(popped), DecodeAll(framed), trader);
    PublishedAfterEveryMessage(symbols, popped);
    DecodeOfTrader(framed, trader);
    FramedIsOwn(net, cbs, fd);
    ArrivedDecodes(trader, ms, StreamOf(cbs, fd));
    DecodePrefix(OfTrader(framed, trader), Frame(trader, StreamOf(cbs, fd)).msgs);
    var early := Polled(net, cbs[..m]);
    if early.Up? && early.framed <= popped && StreamOf(cbs[..m], fd) == EncodeAll(ms) {
      ArrivedWhole(net, cbs[..m], fd, ms);
      DecodePrefix(early.framed, popped);
      ByTraderPrefix(DecodeAll(early.framed), DecodeAll(popped), trader);
    }
  }
}
