/** Confirmations: whom they name, and whom they reach while sessions come and go. */
module Delivery {
  import opened ExchangeTypes
  import opened PriceTime
  import opened LevelFacts
  import opened Matching
  import opened Rules
  import opened EngineSpec
  import opened Sessions

  // ---- One request ----

  /** The order is the trader's: resting, or just entered by this request. */
  ghost predicate Holds(b: Book, req: OrderRequest, trader: TraderId, id: OrderId) {
    || Owns(b, trader, id)
    || (req.requestType.New? && req.orderId == id && req.traderId == trader)
  }

  /** A reject answers the cancel or modify that was not accepted; any other confirmation goes to the
      holder of the order it names. */
  ghost predicate Addressed(b: Book, req: OrderRequest, c: OrderConfirm) {
    if c.kind.Reject? then
      && !req.requestType.New? && !Accepted(b, req.orderId, req.traderId)
      && c.orderId == req.orderId && c.traderId == req.traderId
    else Holds(b, req, c.traderId, c.orderId)
  }

  lemma {:induction false} NoRejects(sym: SymbolId, inc: OrderRequest, evs: seq<Event>)
    ensures forall c | c in Confirms(sym, inc, evs) :: !c.kind.Reject?
  {
    if evs != [] {
      NoRejects(sym, inc, evs[1..]);
    }
  }

  /** Every confirmation of any request is rightly addressed. */
  lemma ApplyTells(b: Book, sym: SymbolId, req: OrderRequest)
    ensures forall c | c in Apply(b, sym, req).confirms :: Addressed(b, req, c)
  {
    hide Walk, Confirms, Index, ModifySide, Gone, Owns;
    if req.requestType.New? {
      var passive := req.side.Opposite();
      AddTellsOwners(b, sym, req);
      NoRejects(sym, req, Matched(b, req).events);
      forall r | r in b.On(passive).queue
        ensures Owns(b, r.trader, r.id)
      {
        OwnsResting(b, passive, r);
      }
    } else if Accepted(b, req.orderId, req.traderId) {
      OwnsFound(b, req.orderId);
    }
  }

  lemma OwnsFound(b: Book, id: OrderId)
    requires SideOf(b, id).Some?
    ensures Owns(b, Found(b, id).trader, id)
  {
    var s := SideOf(b, id).value;
    var k := Index(b.On(s).queue, id);
    assert Found(b, id) == b.On(s).queue[k];
    OwnsResting(b, s, Found(b, id));
  }

  lemma WalkOwners(s: Side, inc: OrderRequest, rem: Quantity, sb: SideBook, r': Resting) returns (r: Resting)
    requires r' in Walk(s, inc, rem, sb).side.queue
    ensures r in sb.queue && r.id == r'.id && r.trader == r'.trader
  {
    hide Walk;
    var w := Walk(s, inc, rem, sb);
    var k := WalkShape(s, inc, rem, sb);
    var j :| 0 <= j < |w.side.queue| && w.side.queue[j] == r';
    r := sb.queue[k + j];
  }

  lemma ModifyOwners(s: Side, sb: SideBook, k: nat, price: Price, qty: Quantity, now: nat, r': Resting)
    returns (r: Resting)
    requires k < |sb.queue| && r' in ModifySide(s, sb, k, price, qty, now).queue
    ensures r in sb.queue && r.id == r'.id && r.trader == r'.trader
  {
    var q := sb.queue;
    if KeepsPlace(q[k], price, qty) {
      var q' := Resize(sb, k, qty, qty).queue;
      var j :| 0 <= j < |q'| && q'[j] == r';
      r := q[j];
    } else {
      var moved := q[k].(price := price, qty := qty, recorded := qty, entry := now);
      GoneQueue(sb, k, 0);
      EnqueueMembers(s, Gone(sb, k, 0), moved);
      r := if r' == moved then q[k] else r';
    }
  }

  /** Orders never change hands: who rests afterwards held that order before. */
  lemma ApplyOwners(b: Book, sym: SymbolId, req: OrderRequest, s: Side, r': Resting)
    requires r' in Apply(b, sym, req).book.On(s).queue
    ensures Holds(b, req, r'.trader, r'.id)
  {
    hide Walk, Enqueue, Gone, ModifySide, Index, Owns;
    var q := b.On(s).queue;
    if r' in q {
      OwnsResting(b, s, r');
      return;
    }
    match req.requestType
    case New =>
      var w := Matched(b, req);
      if s == req.side {
        EnqueueMembers(s, b.On(s), Resting(req.orderId, req.traderId, req.price, w.rem, w.rem, b.clock));
      } else {
        var r := WalkOwners(s, req, req.quantity, b.On(s), r');
        OwnsResting(b, s, r);
      }
    case Cancel =>
      GoneQueue(b.On(s), Index(q, req.orderId), 0);
    case Modify =>
      var r := ModifyOwners(s, b.On(s), Index(q, req.orderId), req.price, req.quantity, b.clock, r');
      OwnsResting(b, s, r);
  }

  // ---- Runs of the engine ----

  /** The trader whose new order was given this id. */
  function Entrant(e: Engine, reqs: seq<OrderRequest>, id: OrderId): Option<TraderId> {
    if reqs == [] then None
    else
      var prefix, req := reqs[..|reqs| - 1], reqs[|reqs| - 1];
      if req.requestType.New? && Run(e, prefix).nextId == id then Some(req.traderId) else Entrant(e, prefix, id)
  }

  /** Every resting order belongs to the trader who entered it. */
  ghost predicate Faithful(e0: Engine, reqs: seq<OrderRequest>) {
    forall sym, s: Side, r | sym in Run(e0, reqs).books && r in Run(e0, reqs).books[sym].On(s).queue ::
      Entrant(e0, reqs, r.id) == Some(r.trader)
  }

  lemma {:induction false} EntrantIssued(e: Engine, reqs: seq<OrderRequest>, id: OrderId)
    requires EngineInv(e) && Issued(e, e.nextId) && e.nextId + News(reqs) <= TWO64
    ensures Entrant(e, reqs, id).Some? ==> id < e.nextId + News(reqs)
  {
    hide EngineInv, Issued, Run;
    if reqs != [] {
      var n := |reqs| - 1;
      EntrantIssued(e, reqs[..n], id);
      BoundedIsFresh(e, reqs[..n]);
      RunKeeps(e, reqs[..n]);
    }
  }

  /** A later request does not change who entered an order. */
  lemma EntrantKept(e: Engine, reqs: seq<OrderRequest>, id: OrderId)
    requires reqs != [] && EngineInv(e) && Issued(e, e.nextId) && e.nextId + News(reqs) <= TWO64
    requires Entrant(e, reqs[..|reqs| - 1], id).Some?
    ensures Entrant(e, reqs, id) == Entrant(e, reqs[..|reqs| - 1], id)
  {
    hide EngineInv, Issued, Run;
    var prefix := reqs[..|reqs| - 1];
    EntrantIssued(e, prefix, id);
    BoundedIsFresh(e, prefix);
    RunKeeps(e, prefix);
  }

  /** Who holds an order during the last request of a run is who entered it. */
  lemma HolderIsEntrant(e: Engine, reqs: seq<OrderRequest>, trader: TraderId, id: OrderId)
    requires reqs != [] && EngineInv(e) && Issued(e, e.nextId) && e.nextId + News(reqs) <= TWO64
    requires Faithful(e, reqs[..|reqs| - 1])
    requires var e1, req := Run(e, reqs[..|reqs| - 1]), reqs[|reqs| - 1];
             req.symbolId in e1.books && Holds(e1.books[req.symbolId], Numbered(e1, req), trader, id)
    ensures Entrant(e, reqs, id) == Some(trader)
  {
    hide EngineInv, Issued, Run;
    var prefix, req := reqs[..|reqs| - 1], reqs[|reqs| - 1];
    var e1 := Run(e, prefix);
    if Owns(e1.books[req.symbolId], trader, id) {
      EntrantKept(e, reqs, id);
    }
  }

  lemma {:induction false} RunFaithful(e: Engine, reqs: seq<OrderRequest>)
    requires EngineInv(e) && Issued(e, e.nextId) && e.nextId + News(reqs) <= TWO64
    requires Faithful(e, [])
    ensures Faithful(e, reqs)
  {
    hide EngineInv, Issued, Apply, Holds, Entrant;
    if reqs != [] {
      var prefix, req := reqs[..|reqs| - 1], reqs[|reqs| - 1];
      RunFaithful(e, prefix);
      var e1 := Run(e, prefix);
      forall sym, s: Side, r | sym in Run(e, reqs).books && r in Run(e, reqs).books[sym].On(s).queue
        ensures Entrant(e, reqs, r.id) == Some(r.trader)
      {
        if sym == req.symbolId {
          ApplyOwners(e1.books[sym], sym, Numbered(e1, req), s, r);
          HolderIsEntrant(e, reqs, r.trader, r.id);
        } else {
          EntrantKept(e, reqs, r.id);
        }
      }
    }
  }

  /** The confirmation names the order's entrant or, a reject, a trader who asked about that order. */
  ghost predicate RightlyNamed(e: Engine, reqs: seq<OrderRequest>, c: OrderConfirm) {
    if c.kind.Reject? then
      exists n :: 0 <= n < |reqs| && !reqs[n].requestType.New?
               && reqs[n].orderId == c.orderId && reqs[n].traderId == c.traderId
    else Entrant(e, reqs, c.orderId) == Some(c.traderId)
  }

  lemma NamedLater(e: Engine, reqs: seq<OrderRequest>, c: OrderConfirm)
    requires reqs != [] && EngineInv(e) && Issued(e, e.nextId) && e.nextId + News(reqs) <= TWO64
    requires RightlyNamed(e, reqs[..|reqs| - 1], c)
    ensures RightlyNamed(e, reqs, c)
  {
    hide EngineInv, Issued, Entrant;
    var prefix := reqs[..|reqs| - 1];
    if c.kind.Reject? {
      var n :| 0 <= n < |prefix| && !prefix[n].requestType.New?
            && prefix[n].orderId == c.orderId && prefix[n].traderId == c.traderId;
      assert reqs[n] == prefix[n];
    } else {
      EntrantKept(e, reqs, c.orderId);
    }
  }

  lemma NamedNow(e: Engine, reqs: seq<OrderRequest>, c: OrderConfirm)
    requires reqs != [] && EngineInv(e) && Issued(e, e.nextId) && e.nextId + News(reqs) <= TWO64
    requires Faithful(e, reqs[..|reqs| - 1])
    requires c in Handle(Run(e, reqs[..|reqs| - 1]), reqs[|reqs| - 1]).confirms
    ensures RightlyNamed(e, reqs, c)
  {
    hide EngineInv, Issued, Apply, Holds, Faithful, Run, Entrant;
    var n := |reqs| - 1;
    var e1, req := Run(e, reqs[..n]), reqs[n];
    ApplyTells(e1.books[req.symbolId], req.symbolId, Numbered(e1, req));
    if !c.kind.Reject? {
      HolderIsEntrant(e, reqs, c.traderId, c.orderId);
    }
  }

  /** On every run of fewer than 2^64 new orders, every confirmation names the trader who entered the
      order it is about; only a reject may name another, and then the one who asked. */
  lemma {:induction false} RunTells(symbols: seq<SymbolId>, reqs: seq<OrderRequest>)
    requires News(reqs) < TWO64
    ensures forall c | c in RunConfirms(Boot(symbols), reqs) :: RightlyNamed(Boot(symbols), reqs, c)
  {
    hide EngineInv, Issued, Handle, RightlyNamed, Faithful, Run;
    var e := Boot(symbols);
    BootInv(symbols);
    if reqs != [] {
      var n := |reqs| - 1;
      RunTells(symbols, reqs[..n]);
      NothingRests(symbols);
      RunFaithful(e, reqs[..n]);
      forall c | c in RunConfirms(e, reqs)
        ensures RightlyNamed(e, reqs, c)
      {
        if c in RunConfirms(e, reqs[..n]) {
          NamedLater(e, reqs, c);
        } else {
          NamedNow(e, reqs, c);
        }
      }
    }
  }

  lemma NothingRests(symbols: seq<SymbolId>)
    ensures Faithful(Boot(symbols), [])
  {
  }

  // ---- Sessions come and go meanwhile ----

  /** A confirmation and the connection looked up for it, negative for none, with the number of logins
      and logouts before the lookup and before the send. */
  datatype Sent = Sent(confirm: OrderConfirm, fd: int, looked: nat, at: nat)

  /** The registry and the matching thread. The thread serves a request, then takes its confirmations
      one by one: looks up the connection, and sends unless there is none. */
  datatype World = World(
    registry: Registry,
    engine: Engine,
    outbox: seq<OrderConfirm>,
    pending: Option<Sent>,
    log: seq<Sent>,
    ops: seq<Op>,              // history: what the network threads did
    reqs: seq<OrderRequest>)   // history: what was served

  datatype Move = Net(op: Op) | Match(req: OrderRequest) | Look | Send

  /** A move of the matching thread that is not its next one leaves the world as it is. */
  function Moved(w: World, move: Move): World {
    match move
    case Net(op) => w.(registry := Did(w.registry, op), ops := w.ops + [op])
    case Match(req) =>
      if w.outbox != [] || w.pending.Some? then w
      else
        var r := Handle(w.engine, req);
        w.(engine := r.engine, outbox := r.confirms, reqs := w.reqs + [req])
    case Look =>
      if w.outbox == [] || w.pending.Some? then w
      else
        var c, now := w.outbox[0], |w.ops|;
        var sent := Sent(c, w.registry.FdOf(c.traderId), now, now);
        if sent.fd < 0 then w.(outbox := w.outbox[1..], log := w.log + [sent])
        else w.(outbox := w.outbox[1..], pending := Some(sent))
    case Send =>
      if w.pending.None? then w
      else w.(pending := None, log := w.log + [w.pending.value.(at := |w.ops|)])
  }

  function Play(symbols: seq<SymbolId>, moves: seq<Move>): World {
    if moves == [] then World(History([]), Boot(symbols), [], None, [], [], [])
    else Moved(Play(symbols, moves[..|moves| - 1]), moves[|moves| - 1])
  }

  function Confirmed(log: seq<Sent>): seq<OrderConfirm> {
    if log == [] then [] else Confirmed(log[..|log| - 1]) + [log[|log| - 1].confirm]
  }

  function Open(pending: Option<Sent>): seq<OrderConfirm> {
    if pending.Some? then [pending.value.confirm] else []
  }

  /** A lookup found the route of its moment. */
  ghost predicate Timely(ops: seq<Op>, d: Sent) {
    && d.looked <= d.at <= |ops|
    && d.fd == History(ops[..d.looked]).FdOf(d.confirm.traderId)
    && (d.fd < 0 ==> d.at == d.looked)
  }

  lemma TimelyLater(ops: seq<Op>, op: Op, d: Sent)
    requires Timely(ops, d)
    ensures Timely(ops + [op], d)
  {
    assert (ops + [op])[..d.looked] == ops[..d.looked];
  }

  /** Registry and engine are those of the histories; the confirmations logged, the one in hand and those
      waiting are, in order, all the engine has issued; every lookup found the route of its moment. */
  ghost predicate Consistent(symbols: seq<SymbolId>, w: World) {
    && w.registry == History(w.ops) && w.engine == Run(Boot(symbols), w.reqs)
    && Confirmed(w.log) + Open(w.pending) + w.outbox == RunConfirms(Boot(symbols), w.reqs)
    && (forall d | d in w.log :: Timely(w.ops, d))
    && (w.pending.Some? ==> w.pending.value.fd >= 0 && Timely(w.ops, w.pending.value))
  }

  lemma NetKeeps(symbols: seq<SymbolId>, w: World, op: Op)
    requires Consistent(symbols, w)
    ensures Consistent(symbols, Moved(w, Net(op)))
  {
    hide Did, Timely, Run, RunConfirms;
    assert (w.ops + [op])[..|w.ops|] == w.ops;
    forall d | d in w.log || w.pending == Some(d)
      ensures Timely(w.ops + [op], d)
    {
      TimelyLater(w.ops, op, d);
    }
  }

  lemma MatchKeeps(symbols: seq<SymbolId>, w: World, req: OrderRequest)
    requires Consistent(symbols, w)
    ensures Consistent(symbols, Moved(w, Match(req)))
  {
    hide Handle, Timely, History;
    assert (w.reqs + [req])[..|w.reqs|] == w.reqs;
    if w.outbox == [] && w.pending.None? {
      var cs := Handle(w.engine, req).confirms;
      assert Confirmed(w.log) + [] + cs == Confirmed(w.log) + [] + [] + cs;
    }
  }

  lemma ConfirmedSnoc(log: seq<Sent>, d: Sent)
    ensures Confirmed(log + [d]) == Confirmed(log) + [d.confirm]
  {
    assert (log + [d])[..|log|] == log;
  }

  lemma LookKeeps(symbols: seq<SymbolId>, w: World)
    requires Consistent(symbols, w)
    ensures Consistent(symbols, Moved(w, Look))
  {
    hide Run, RunConfirms, History, Confirmed;
    if w.outbox != [] && w.pending.None? {
      var c, now := w.outbox[0], |w.ops|;
      var sent := Sent(c, w.registry.FdOf(c.traderId), now, now);
      assert w.ops[..now] == w.ops;
      assert w.outbox == [c] + w.outbox[1..];
      ConfirmedSnoc(w.log, sent);
      assert Confirmed(w.log) + [] + w.outbox == Confirmed(w.log) + [c] + w.outbox[1..];
      assert Confirmed(w.log) + [c] + [] + w.outbox[1..] == Confirmed(w.log) + [c] + w.outbox[1..];
    }
  }

  lemma SendKeeps(symbols: seq<SymbolId>, w: World)
    requires Consistent(symbols, w)
    ensures Consistent(symbols, Moved(w, Send))
  {
    hide Run, RunConfirms, History, Confirmed;
    if w.pending.Some? {
      var d := w.pending.value.(at := |w.ops|);
      ConfirmedSnoc(w.log, d);
      assert Confirmed(w.log) + [d.confirm] + [] == Confirmed(w.log) + [d.confirm];
    }
  }

  /** Whatever the threads do: no confirmation is lost, repeated or reordered before its lookup, and
      every lookup finds the route of its moment. */
  lemma {:induction false} PlayKeeps(symbols: seq<SymbolId>, moves: seq<Move>)
    ensures Consistent(symbols, Play(symbols, moves))
  {
    hide Consistent, Moved;
    if moves == [] {
      StartsConsistent(symbols);
    } else {
      var n := |moves| - 1;
      var w := Play(symbols, moves[..n]);
      PlayKeeps(symbols, moves[..n]);
      match moves[n]
      case Net(op) => NetKeeps(symbols, w, op);
      case Match(req) => MatchKeeps(symbols, w, req);
      case Look => LookKeeps(symbols, w);
      case Send => SendKeeps(symbols, w);
    }
  }

  lemma StartsConsistent(symbols: seq<SymbolId>)
    ensures Consistent(symbols, Play(symbols, []))
  {
  }

  // ---- Who gets it ----

  ghost predicate Live(r: Registry, trader: TraderId) {
    exists fd :: OnLine(r, fd, trader)
  }

  /** At the moment of the send, the connection is a session of the trader named. */
  ghost predicate Reaches(ops: seq<Op>, d: Sent)
    requires d.at <= |ops|
  {
    d.fd >= 0 && OnLine(History(ops[..d.at]), d.fd, d.confirm.traderId)
  }

  /** The last login or logout on a connection. */
  function LastOn(ops: seq<Op>, fd: int): Option<Op> {
    if ops == [] then None
    else if ops[|ops| - 1].fd == fd then Some(ops[|ops| - 1])
    else LastOn(ops[..|ops| - 1], fd)
  }

  /** These logins and logouts leave the connection with the trader: none is on it, or the last one is
      the trader's login. */
  predicate StaysWith(ops: seq<Op>, fd: int, trader: TraderId) {
    match LastOn(ops, fd)
    case None => true
    case Some(op) => op == Login(fd, trader)
  }

  lemma {:induction false} StaysIff(ops: seq<Op>, i: nat, j: nat, fd: int, trader: TraderId)
    requires i <= j <= |ops| && OnLine(History(ops[..i]), fd, trader)
    ensures OnLine(History(ops[..j]), fd, trader) <==> StaysWith(ops[i..j], fd, trader)
    decreases j
  {
    hide History;
    if i < j {
      var last := ops[j - 1];
      HistoryStep(ops, j - 1);
      assert ops[i..j][..j - 1 - i] == ops[i..j - 1] && ops[i..j][j - 1 - i] == last;
      StaysIff(ops, i, j - 1, fd, trader);
    }
  }

  /** Connections are file descriptors. */
  ghost predicate Descriptors(ops: seq<Op>) {
    forall i | 0 <= i < |ops| :: ops[i].fd >= 0
  }

  ghost predicate NoHijack(ops: seq<Op>) {
    forall n | 0 <= n < |ops| :: !Hijacks(History(ops[..n]), ops[n])
  }

  ghost predicate NoStranding(ops: seq<Op>) {
    forall n | 0 <= n < |ops| :: !Strands(History(ops[..n]), ops[n])
  }

  lemma {:induction false} RoutesAreDescriptors(ops: seq<Op>, n: nat)
    requires Descriptors(ops) && n <= |ops|
    ensures forall t | t in History(ops[..n]).traderToFd :: History(ops[..n]).traderToFd[t] >= 0
  {
    if n > 0 {
      RoutesAreDescriptors(ops, n - 1);
      HistoryStep(ops, n - 1);
    }
  }

  /** Delivery: for any interleaving of logins, logouts, requests, lookups and sends, a confirmation
      reaches a session of the trader it names if and only if that trader had a route at the lookup and
      nobody else got the connection, nor was it closed, by the time of the send. */
  lemma DeliveredIff(symbols: seq<SymbolId>, moves: seq<Move>, d: Sent)
    requires d in Play(symbols, moves).log
    requires Descriptors(Play(symbols, moves).ops) && NoHijack(Play(symbols, moves).ops)
    ensures var ops := Play(symbols, moves).ops;
            && d.looked <= d.at <= |ops|
            && (Reaches(ops, d)
                <==> && d.confirm.traderId in History(ops[..d.looked]).traderToFd
                     && StaysWith(ops[d.looked..d.at], d.fd, d.confirm.traderId))
  {
    hide Play, History, StaysWith;
    PlayKeeps(symbols, moves);
    var ops, trader := Play(symbols, moves).ops, d.confirm.traderId;
    assert Timely(ops, d);
    RoutesAreDescriptors(ops, d.looked);
    if trader in History(ops[..d.looked]).traderToFd {
      StaysRouted(ops, d.looked);
      StaysIff(ops, d.looked, d.at, d.fd, trader);
    }
  }

  /** If moreover no session ends while its trader has another, having a route is having a session. */
  lemma RouteIffLive(ops: seq<Op>, n: nat, trader: TraderId)
    requires n <= |ops| && NoHijack(ops) && NoStranding(ops)
    ensures trader in History(ops[..n]).traderToFd <==> Live(History(ops[..n]), trader)
  {
    hide History;
    StaysRouted(ops, n);
    StaysReachable(ops, n);
    var r := History(ops[..n]);
    if trader in r.traderToFd {
      assert OnLine(r, r.traderToFd[trader], trader);
    }
  }

  /** End to end: on every run of fewer than 2^64 new orders whose logins take over no routed connection
      and whose logouts strand nobody, what is logged of an order, rejects aside, reaches the trader who
      entered it if and only if that trader was live at the lookup and kept the connection to the send. */
  lemma ToldIff(symbols: seq<SymbolId>, moves: seq<Move>, d: Sent)
    requires var w := Play(symbols, moves);
             && d in w.log && !d.confirm.kind.Reject? && News(w.reqs) < TWO64
             && Descriptors(w.ops) && NoHijack(w.ops) && NoStranding(w.ops)
    ensures var w := Play(symbols, moves);
            && d.looked <= d.at <= |w.ops|
            && Entrant(Boot(symbols), w.reqs, d.confirm.orderId).Some?
            && var trader := Entrant(Boot(symbols), w.reqs, d.confirm.orderId).value;
            && (d.fd >= 0 && OnLine(History(w.ops[..d.at]), d.fd, trader)
                <==> Live(History(w.ops[..d.looked]), trader) && StaysWith(w.ops[d.looked..d.at], d.fd, trader))
  {
    hide Play, History, Run, RunConfirms, Entrant, StaysWith, Live, Descriptors, NoHijack, NoStranding, News;
    var w := Play(symbols, moves);
    PlayKeeps(symbols, moves);
    DeliveredIff(symbols, moves, d);
    RouteIffLive(w.ops, d.looked, d.confirm.traderId);
    LoggedIsIssued(w.log, d);
    RunTells(symbols, w.reqs);
    assert d.confirm in RunConfirms(Boot(symbols), w.reqs);
  }

  lemma {:induction false} LoggedIsIssued(log: seq<Sent>, d: Sent)
    requires d in log
    ensures d.confirm in Confirmed(log)
  {
    var n := |log| - 1;
    if d != log[n] {
      assert log == log[..n] + [log[n]];
      LoggedIsIssued(log[..n], d);
    }
  }

  lemma PlayNext(symbols: seq<SymbolId>, moves: seq<Move>, move: Move)
    ensures Play(symbols, moves + [move]) == Moved(Play(symbols, moves), move)
  {
    assert (moves + [move])[..|moves|] == moves;
  }

  /** Lookup and send are two steps: when the connection is closed and given to another trader between
      them, that trader gets the confirmation. */
  lemma ReusedConnection(sym: SymbolId, req: OrderRequest, other: TraderId, fd: int)
    requires req.requestType.New? && req.symbolId == sym && req.traderId != other && fd >= 0
    ensures var w := Play([sym], [Net(Login(fd, req.traderId)), Match(req), Look,
                                  Net(Logout(fd)), Net(Login(fd, other)), Send]);
            && NoHijack(w.ops) && NoStranding(w.ops) && |w.log| == 1
            && w.log[0].confirm.traderId == req.traderId
            && OnLine(w.registry, w.log[0].fd, other) && !OnLine(w.registry, w.log[0].fd, req.traderId)
  {
    hide Play, Walk, NoHijack, NoStranding, History;
    var mine, ends, yours := Login(fd, req.traderId), Logout(fd), Login(fd, other);
    StartOfPlay([sym]);
    var moves := [];
    PlayNext([sym], moves, Net(mine));
    PlayNext([sym], moves + [Net(mine)], Match(req));
    PlayNext([sym], moves + [Net(mine)] + [Match(req)], Look);
    moves := moves + [Net(mine)] + [Match(req)] + [Look];
    LookedAt([sym], mine, req);
    PlayNext([sym], moves, Net(ends));
    PlayNext([sym], moves + [Net(ends)], Net(yours));
    PlayNext([sym], moves + [Net(ends)] + [Net(yours)], Send);
    moves := moves + [Net(ends)] + [Net(yours)] + [Send];
    assert moves == [Net(mine), Match(req), Look, Net(ends), Net(yours), Send];
    ReuseIsClean(fd, req.traderId, other);
    assert Play([sym], moves).ops == [mine, ends, yours];
  }

  lemma StartOfPlay(symbols: seq<SymbolId>)
    ensures Play(symbols, []) == World(History([]), Boot(symbols), [], None, [], [], [])
  {
  }

  /** A trader logs in and enters an order, and its acknowledgement is looked up. */
  function Looked(symbols: seq<SymbolId>, login: Op, req: OrderRequest): World {
    Moved(Moved(Moved(World(History([]), Boot(symbols), [], None, [], [], []), Net(login)), Match(req)), Look)
  }

  lemma LookedAt(symbols: seq<SymbolId>, login: Op, req: OrderRequest)
    requires req.requestType.New? && req.symbolId in symbols && login.Login? && login.trader == req.traderId
    requires login.fd >= 0
    ensures var w := Looked(symbols, login, req);
            && w.pending.Some? && w.pending.value.fd == login.fd && w.pending.value.confirm.traderId == req.traderId
            && w.log == [] && w.ops == [login] && w.registry == Registry(map[login.fd := login.trader],
                                                                        map[login.trader := login.fd])
  {
    hide Walk;
  }

  /** A connection closed and then opened by another trader takes nobody's route and strands nobody. */
  lemma ReuseIsClean(fd: int, trader: TraderId, other: TraderId)
    ensures var ops := [Login(fd, trader), Logout(fd), Login(fd, other)];
            NoHijack(ops) && NoStranding(ops)
  {
    var ops := [Login(fd, trader), Logout(fd), Login(fd, other)];
    assert ops[..0] == [];
    HistoryStep(ops, 0);
    HistoryStep(ops, 1);
  }
}
