/** The session registry: connection to trader, and trader back to connection. */
module Sessions {
  import opened ExchangeTypes

  datatype Registry = Registry(sessions: map<int, TraderId>, traderToFd: map<TraderId, int>) {
    function Add(fd: int, trader: TraderId): Registry {
      Registry(sessions[fd := trader], traderToFd[trader := fd])
    }

    /** Forgets the trader's route too, whichever connection it points to. */
    function Remove(fd: int): Registry {
      if fd in sessions then Registry(sessions - {fd}, traderToFd - {sessions[fd]}) else this
    }

    function FdOf(trader: TraderId): int {
      if trader in traderToFd then traderToFd[trader] else -1
    }
  }

  /** A routed trader has a live session on the connection it is routed to. */
  ghost predicate Routed(r: Registry) {
    forall t | t in r.traderToFd :: r.traderToFd[t] in r.sessions && r.sessions[r.traderToFd[t]] == t
  }

  /** The two maps are mutual inverses. */
  ghost predicate Inverse(r: Registry) {
    && Routed(r)
    && forall fd | fd in r.sessions :: r.sessions[fd] in r.traderToFd && r.traderToFd[r.sessions[fd]] == fd
  }

  /** Re-adding a connection that another trader is routed to is what breaks routing, and nothing else. */
  lemma AddRoutedIff(r: Registry, fd: int, trader: TraderId)
    requires Routed(r)
    ensures Routed(r.Add(fd, trader)) <==>
            !(&& fd in r.sessions && r.sessions[fd] != trader
              && r.sessions[fd] in r.traderToFd && r.traderToFd[r.sessions[fd]] == fd)
  {
    var r' := r.Add(fd, trader);
    if && fd in r.sessions && r.sessions[fd] != trader
       && r.sessions[fd] in r.traderToFd && r.traderToFd[r.sessions[fd]] == fd {
      assert r'.traderToFd[r.sessions[fd]] == fd && r'.sessions[fd] == trader;
    }
  }

  lemma RemoveRouted(r: Registry, fd: int)
    requires Routed(r)
    ensures Routed(r.Remove(fd))
  {
  }

  /** The maps stay inverses if and only if a live connection is re-added by its own trader, or an
      absent one by a trader without a route. */
  lemma AddInverseIff(r: Registry, fd: int, trader: TraderId)
    requires Inverse(r)
    ensures Inverse(r.Add(fd, trader)) <==>
            if fd in r.sessions then r.sessions[fd] == trader else trader !in r.traderToFd
  {
    var r' := r.Add(fd, trader);
    if fd in r.sessions && r.sessions[fd] != trader {
      assert r'.traderToFd[r.sessions[fd]] == fd && r'.sessions[fd] == trader;
    } else if fd !in r.sessions && trader in r.traderToFd {
      var fd0 := r.traderToFd[trader];
      assert fd0 in r'.sessions && r'.sessions[fd0] == trader && r'.traderToFd[trader] == fd;
    }
  }

  lemma RemoveInverse(r: Registry, fd: int)
    requires Inverse(r)
    ensures Inverse(r.Remove(fd))
  {
  }

  /** Every live trader has a route, so its confirmations are not dropped. */
  ghost predicate Reachable(r: Registry) {
    forall fd | fd in r.sessions :: r.sessions[fd] in r.traderToFd
  }

  lemma AddReachable(r: Registry, fd: int, trader: TraderId)
    requires Reachable(r)
    ensures Reachable(r.Add(fd, trader))
  {
  }

  /** The session on fd is not its trader's only one. */
  predicate SharesTrader(r: Registry, fd: int) {
    fd in r.sessions && exists g :: g in r.sessions && g != fd && r.sessions[g] == r.sessions[fd]
  }

  /** Ending a session costs a live trader its route if and only if the trader has another session. */
  lemma RemoveReachableIff(r: Registry, fd: int)
    requires Reachable(r)
    ensures Reachable(r.Remove(fd)) <==> !SharesTrader(r, fd)
  {
    var r' := r.Remove(fd);
    if SharesTrader(r, fd) {
      var g :| g in r.sessions && g != fd && r.sessions[g] == r.sessions[fd];
      assert g in r'.sessions && r'.sessions[g] !in r'.traderToFd;
    }
  }

  // ---- Runs ----

  datatype Op = Login(fd: int, trader: TraderId) | Logout(fd: int)

  function Did(r: Registry, op: Op): Registry {
    match op
    case Login(fd, trader) => r.Add(fd, trader)
    case Logout(fd) => r.Remove(fd)
  }

  function History(ops: seq<Op>): Registry {
    if ops == [] then Registry(map[], map[]) else Did(History(ops[..|ops| - 1]), ops[|ops| - 1])
  }

  /** A login that breaks a route: on a connection another trader is routed to. */
  predicate Hijacks(r: Registry, op: Op) {
    && op.Login? && op.fd in r.sessions && r.sessions[op.fd] != op.trader
    && r.sessions[op.fd] in r.traderToFd && r.traderToFd[r.sessions[op.fd]] == op.fd
  }

  lemma DidRoutedIff(r: Registry, op: Op)
    requires Routed(r)
    ensures Routed(Did(r, op)) <==> !Hijacks(r, op)
  {
    match op
    case Login(fd, trader) => AddRoutedIff(r, fd, trader);
    case Logout(fd) => RemoveRouted(r, fd);
  }

  lemma {:induction false} StaysRouted(ops: seq<Op>, n: nat)
    requires n <= |ops| && forall i | 0 <= i < |ops| :: !Hijacks(History(ops[..i]), ops[i])
    ensures Routed(History(ops[..n]))
  {
    hide Routed, Hijacks, Did;
    if n == 0 {
      StartsInverse();
      InverseRoutes(History([]));
    } else {
      StaysRouted(ops, n - 1);
      HistoryStep(ops, n - 1);
      DidRoutedIff(History(ops[..n - 1]), ops[n - 1]);
    }
  }

  lemma InverseRoutes(r: Registry)
    requires Inverse(r)
    ensures Routed(r)
  {
  }

  /** Every route leads to a live session of its trader throughout a run if and only if no login takes
      over a connection another trader is routed to; adding only absent connections is one way. */
  lemma RunRoutedIff(ops: seq<Op>)
    ensures (forall n | 0 <= n <= |ops| :: Routed(History(ops[..n])))
       <==> (forall n | 0 <= n < |ops| :: !Hijacks(History(ops[..n]), ops[n]))
  {
    hide Routed, Hijacks, Did;
    if forall n | 0 <= n < |ops| :: !Hijacks(History(ops[..n]), ops[n]) {
      forall n | 0 <= n <= |ops|
        ensures Routed(History(ops[..n]))
      {
        StaysRouted(ops, n);
      }
    } else {
      var n :| 0 <= n < |ops| && Hijacks(History(ops[..n]), ops[n]);
      HistoryStep(ops, n);
      if Routed(History(ops[..n])) {
        DidRoutedIff(History(ops[..n]), ops[n]);
        assert !Routed(History(ops[..n + 1]));
      }
    }
  }

  /** A login that breaks the inverse: of a live connection by a stranger, or by a trader with a route. */
  predicate Doubles(r: Registry, op: Op) {
    op.Login? && if op.fd in r.sessions then r.sessions[op.fd] != op.trader else op.trader in r.traderToFd
  }

  /** A logout that costs a live trader its route. */
  predicate Strands(r: Registry, op: Op) {
    op.Logout? && SharesTrader(r, op.fd)
  }

  lemma DidInverseIff(r: Registry, op: Op)
    requires Inverse(r)
    ensures Inverse(Did(r, op)) <==> !Doubles(r, op)
  {
    match op
    case Login(fd, trader) => AddInverseIff(r, fd, trader);
    case Logout(fd) => RemoveInverse(r, fd);
  }

  lemma DidReachableIff(r: Registry, op: Op)
    requires Reachable(r)
    ensures Reachable(Did(r, op)) <==> !Strands(r, op)
  {
    match op
    case Login(fd, trader) => AddReachable(r, fd, trader);
    case Logout(fd) => RemoveReachableIff(r, fd);
  }

  lemma HistoryStep(ops: seq<Op>, n: nat)
    requires n < |ops|
    ensures History(ops[..n + 1]) == Did(History(ops[..n]), ops[n])
  {
    assert ops[..n + 1][..n] == ops[..n];
  }

  lemma {:induction false} StaysInverse(ops: seq<Op>, n: nat)
    requires n <= |ops| && forall i | 0 <= i < |ops| :: !Doubles(History(ops[..i]), ops[i])
    ensures Inverse(History(ops[..n]))
  {
    hide Inverse, Doubles, Did;
    if n == 0 {
      StartsInverse();
    } else {
      StaysInverse(ops, n - 1);
      HistoryStep(ops, n - 1);
      DidInverseIff(History(ops[..n - 1]), ops[n - 1]);
    }
  }

  lemma StartsInverse()
    ensures Inverse(History([])) && Reachable(History([]))
  {
  }

  lemma {:induction false} StaysReachable(ops: seq<Op>, n: nat)
    requires n <= |ops| && forall i | 0 <= i < |ops| :: !Strands(History(ops[..i]), ops[i])
    ensures Reachable(History(ops[..n]))
  {
    hide Reachable, Strands, Did;
    if n == 0 {
      StartsInverse();
    } else {
      StaysReachable(ops, n - 1);
      HistoryStep(ops, n - 1);
      DidReachableIff(History(ops[..n - 1]), ops[n - 1]);
    }
  }

  /** The two maps are mutual inverses throughout a run if and only if no login of it doubles. */
  lemma RunInverseIff(ops: seq<Op>)
    ensures (forall n | 0 <= n <= |ops| :: Inverse(History(ops[..n])))
       <==> (forall n | 0 <= n < |ops| :: !Doubles(History(ops[..n]), ops[n]))
  {
    hide Inverse, Doubles, Did;
    if forall n | 0 <= n < |ops| :: !Doubles(History(ops[..n]), ops[n]) {
      forall n | 0 <= n <= |ops|
        ensures Inverse(History(ops[..n]))
      {
        StaysInverse(ops, n);
      }
    } else {
      var n :| 0 <= n < |ops| && Doubles(History(ops[..n]), ops[n]);
      HistoryStep(ops, n);
      if Inverse(History(ops[..n])) {
        DidInverseIff(History(ops[..n]), ops[n]);
        assert !Inverse(History(ops[..n + 1]));
      }
    }
  }

  /** Every live trader has a route throughout a run if and only if no session ends while its trader
      has another one. */
  lemma RunReachableIff(ops: seq<Op>)
    ensures (forall n | 0 <= n <= |ops| :: Reachable(History(ops[..n])))
       <==> (forall n | 0 <= n < |ops| :: !Strands(History(ops[..n]), ops[n]))
  {
    hide Reachable, Strands, Did;
    if forall n | 0 <= n < |ops| :: !Strands(History(ops[..n]), ops[n]) {
      forall n | 0 <= n <= |ops|
        ensures Reachable(History(ops[..n]))
      {
        StaysReachable(ops, n);
      }
    } else {
      var n :| 0 <= n < |ops| && Strands(History(ops[..n]), ops[n]);
      HistoryStep(ops, n);
      if Reachable(History(ops[..n])) {
        DidReachableIff(History(ops[..n]), ops[n]);
        assert !Reachable(History(ops[..n + 1]));
      }
    }
  }

  // ---- What the registry holds, told from the run ----

  /** A session of the trader is live on the connection. */
  predicate OnLine(r: Registry, fd: int, trader: TraderId) {
    fd in r.sessions && r.sessions[fd] == trader
  }

  /** Step n was this login, and nothing has happened on the connection since. */
  ghost predicate LoggedInAt(ops: seq<Op>, n: int, fd: int, trader: TraderId) {
    0 <= n < |ops| && ops[n] == Login(fd, trader) && forall m | n < m < |ops| :: ops[m].fd != fd
  }

  /** A connection is a trader's exactly if its last login or logout was the trader's login. */
  lemma {:induction false} SessionIff(ops: seq<Op>, fd: int, trader: TraderId)
    ensures OnLine(History(ops), fd, trader) <==> exists n :: LoggedInAt(ops, n, fd, trader)
  {
    if ops != [] {
      var last := |ops| - 1;
      SessionIff(ops[..last], fd, trader);
      if ops[last] == Login(fd, trader) {
        assert LoggedInAt(ops, last, fd, trader);
      } else if ops[last].fd != fd {
        if n :| LoggedInAt(ops[..last], n, fd, trader) {
          assert LoggedInAt(ops, n, fd, trader);
        }
        if n :| LoggedInAt(ops, n, fd, trader) {
          assert LoggedInAt(ops[..last], n, fd, trader);
        }
      }
    }
  }

  /** This step gives the trader another route or takes it away: a login, or the end of a session. */
  predicate Reroutes(r: Registry, op: Op, trader: TraderId) {
    match op
    case Login(_, t) => t == trader
    case Logout(fd) => OnLine(r, fd, trader)
  }

  /** Step n was this login, and the trader has neither logged in nor lost a session since. */
  ghost predicate RoutedAt(ops: seq<Op>, n: int, fd: int, trader: TraderId) {
    && 0 <= n < |ops| && ops[n] == Login(fd, trader)
    && forall m | n < m < |ops| :: !Reroutes(History(ops[..m]), ops[m], trader)
  }

  ghost predicate HasRoute(ops: seq<Op>, fd: int, trader: TraderId) {
    exists n :: RoutedAt(ops, n, fd, trader)
  }

  /** A trader's route is the connection of its last login, unless one of its sessions has ended since;
      then it has none. */
  lemma {:induction false} RouteIff(ops: seq<Op>, fd: int, trader: TraderId)
    ensures trader in History(ops).traderToFd && History(ops).traderToFd[trader] == fd
       <==> HasRoute(ops, fd, trader)
    ensures trader !in History(ops).traderToFd ==> History(ops).FdOf(trader) == -1
  {
    if ops != [] {
      var last := |ops| - 1;
      RouteIff(ops[..last], fd, trader);
      if ops[last] == Login(fd, trader) {
        assert RoutedAt(ops, last, fd, trader);
      } else if !Reroutes(History(ops[..last]), ops[last], trader) {
        RoutedOneMore(ops, fd, trader);
      } else {
        assert forall n | RoutedAt(ops, n, fd, trader) :: n == last;
      }
    }
  }

  lemma RoutedOneMore(ops: seq<Op>, fd: int, trader: TraderId)
    requires ops != [] && !Reroutes(History(ops[..|ops| - 1]), ops[|ops| - 1], trader)
    requires ops[|ops| - 1] != Login(fd, trader)
    ensures HasRoute(ops, fd, trader) <==> HasRoute(ops[..|ops| - 1], fd, trader)
  {
    hide History, Reroutes;
    var last := |ops| - 1;
    assert forall m | 0 <= m < last :: ops[..last][..m] == ops[..m];
    if n :| RoutedAt(ops[..last], n, fd, trader) {
      forall m | n < m < |ops|
        ensures !Reroutes(History(ops[..m]), ops[m], trader)
      {
        if m < last {
          assert !Reroutes(History(ops[..last][..m]), ops[..last][m], trader);
        }
      }
      assert RoutedAt(ops, n, fd, trader);
    }
    if n :| RoutedAt(ops, n, fd, trader) {
      forall m | n < m < last
        ensures !Reroutes(History(ops[..last][..m]), ops[..last][m], trader)
      {
        assert !Reroutes(History(ops[..m]), ops[m], trader);
      }
      assert RoutedAt(ops[..last], n, fd, trader);
    }
  }

  /** After a second login and the end of the first session, a live trader has no route. */
  lemma DoubleLoginLosesRoute(r: Registry, fd1: int, fd2: int, trader: TraderId)
    requires fd1 != fd2 && fd1 !in r.sessions && fd2 !in r.sessions
    ensures var r' := r.Add(fd1, trader).Add(fd2, trader).Remove(fd1);
            fd2 in r'.sessions && r'.sessions[fd2] == trader && r'.FdOf(trader) == -1
  {
  }

  // ---- The registry object ----

  class SessionManager {
    var sessions: map<int, TraderId>
    var traderToFd: map<TraderId, int>

    ghost function View(): Registry
      reads this
    {
      Registry(sessions, traderToFd)
    }

    constructor ()
      ensures View() == History([])
    {
      sessions, traderToFd := map[], map[];
    }

    method Add(fd: int, traderId: TraderId)
      modifies this
      ensures View() == Did(old(View()), Login(fd, traderId))
    {
      sessions := sessions[fd := traderId];
      traderToFd := traderToFd[traderId := fd];
    }

    method Remove(fd: int)
      modifies this
      ensures View() == Did(old(View()), Logout(fd))
    {
      if fd in sessions {
        traderToFd := traderToFd - {sessions[fd]};
        sessions := sessions - {fd};
      }
    }

    /** The connection of a trader, or -1. */
    method GetFd(id: TraderId) returns (fd: int)
      ensures fd == View().FdOf(id)
      ensures Routed(View()) && fd >= 0 ==> fd in sessions && sessions[fd] == id
    {
      if id in traderToFd {
        return traderToFd[id];
      }
      return -1;
    }
  }
}
