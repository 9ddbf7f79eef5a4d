/** Laws of whole runs: replay, uncrossed books, drift, published quantities. */
module EngineRuns {
  import opened ExchangeTypes
  import opened PriceTime
  import opened BookInvariant
  import opened Matching
  import opened EngineSpec
  import opened Replay
  import opened Uncrossed
  import opened Drift
  import opened Priority

  // ---- Market-data replay over runs ----

  function Slice(m: Picture, sym: SymbolId): Picture {
    map id | id in m && m[id].symbolId == sym :: m[id]
  }

  /** The picture shows exactly the resting orders of all books. */
  ghost predicate Mirrors(m: Picture, e: Engine) {
    && (forall id | id in m :: m[id].symbolId in e.books)
    && (forall s | s in e.books :: Slice(m, s) == BookPicture(s, e.books[s]))
  }

  /** Updates about one symbol's own orders. */
  ghost predicate About(mds: seq<MdUpdate>, sym: SymbolId, ids: set<OrderId>) {
    forall md | md in mds :: md.symbolId == sym && md.orderId in ids
  }

  ghost predicate Own(m: Picture, sym: SymbolId, ids: set<OrderId>) {
    forall id | id in m && id in ids :: m[id].symbolId == sym
  }

  lemma HeardSlice(m: Picture, md: MdUpdate, ids: set<OrderId>)
    requires md.orderId in ids && Own(m, md.symbolId, ids)
    ensures Own(Heard(m, md), md.symbolId, ids)
    ensures Expected(Slice(m, md.symbolId), md) ==> Expected(m, md)
    ensures Slice(Heard(m, md), md.symbolId) == Heard(Slice(m, md.symbolId), md)
    ensures forall t | t != md.symbolId :: Slice(Heard(m, md), t) == Slice(m, t)
    ensures forall id | id in Heard(m, md) ::
              Heard(m, md)[id].symbolId == md.symbolId || (id in m && Heard(m, md)[id] == m[id])
  {
  }

  lemma {:induction false} FoldSlice(m: Picture, mds: seq<MdUpdate>, sym: SymbolId, ids: set<OrderId>)
    requires About(mds, sym, ids) && Own(m, sym, ids)
    ensures Slice(Fold(m, mds), sym) == Fold(Slice(m, sym), mds)
    ensures AllExpected(Slice(m, sym), mds) ==> AllExpected(m, mds)
    ensures forall t | t != sym :: Slice(Fold(m, mds), t) == Slice(m, t)
    ensures forall id | id in Fold(m, mds) :: Fold(m, mds)[id].symbolId == sym || (id in m && Fold(m, mds)[id] == m[id])
    decreases |mds|
  {
    hide Heard, Slice, Own, Expected;
    if mds != [] {
      assert mds[0] in mds && forall md | md in mds[1..] :: md in mds;
      HeardSlice(m, mds[0], ids);
      FoldSlice(Heard(m, mds[0]), mds[1..], sym, ids);
    }
  }

  lemma {:induction false} EventsAbout(sym: SymbolId, s: Side, inc: OrderRequest, evs: seq<Event>, ids: set<OrderId>)
    requires inc.orderId in ids && forall i :: 0 <= i < |evs| ==> evs[i].passive.id in ids
    ensures About(Mds(sym, s, inc, evs), sym, ids)
  {
    if evs != [] {
      assert evs[0].passive.id in ids;
      EventsAbout(sym, s, inc, evs[1..], ids);
    }
  }

  lemma ApplyAbout(b: Book, sym: SymbolId, req: OrderRequest)
    requires BookInv(b)
    ensures About(Apply(b, sym, req).mds, sym, BookIds(b) + {req.orderId})
  {
    hide Walk, Index;
    if req.requestType.New? {
      var s := req.side.Opposite();
      var q := b.On(s).queue;
      var k := WalkShape(s, req, req.quantity, b.On(s));
      var evs := Matched(b, req).events;
      forall i | 0 <= i < |evs|
        ensures evs[i].passive.id in BookIds(b) + {req.orderId}
      {
        assert evs[i].passive == q[i] && q[i] in q;
      }
      EventsAbout(sym, s, req, evs, BookIds(b) + {req.orderId});
    }
  }

  lemma PictureKeys(sym: SymbolId, b: Book)
    requires BookInv(b)
    ensures BookPicture(sym, b).Keys == BookIds(b)
  {
    BookPictureBySide(sym, b, Buy);
  }

  /** Whatever the picture shows under an id of this book belongs to this symbol. */
  lemma OwnIds(m: Picture, e: Engine, req: OrderRequest)
    requires EngineInv(e) && Mirrors(m, e) && req.symbolId in e.books && req.requestType.New? && Room(e, req)
    ensures Own(m, req.symbolId, BookIds(e.books[req.symbolId]) + {e.nextId})
  {
    hide BookInv, BookIds, BookPicture;
    forall id | id in m
      ensures id in BookIds(e.books[m[id].symbolId])
    {
      PictureKeys(m[id].symbolId, e.books[m[id].symbolId]);
      assert id in Slice(m, m[id].symbolId);
    }
  }

  lemma OwnIdsNamed(m: Picture, e: Engine, req: OrderRequest)
    requires EngineInv(e) && Mirrors(m, e) && req.symbolId in e.books && !req.requestType.New?
    ensures Own(m, req.symbolId, BookIds(e.books[req.symbolId]))
  {
    hide BookInv, BookIds, BookPicture;
    forall id | id in m
      ensures id in BookIds(e.books[m[id].symbolId])
    {
      PictureKeys(m[id].symbolId, e.books[m[id].symbolId]);
      assert id in Slice(m, m[id].symbolId);
    }
  }

  /** Cancels and modifies only speak of an order that rests. */
  lemma ApplyAboutNamed(b: Book, sym: SymbolId, req: OrderRequest)
    requires BookInv(b) && !req.requestType.New?
    ensures About(Apply(b, sym, req).mds, sym, BookIds(b))
  {
    hide Index, Walk, ModifySide;
    FoundFacts(b, req.orderId);
  }

  lemma HandleReplay(m: Picture, e: Engine, req: OrderRequest)
    requires EngineInv(e) && Room(e, req) && Mirrors(m, e)
    ensures Mirrors(Fold(m, Handle(e, req).mds), Handle(e, req).engine)
    ensures AllExpected(m, Handle(e, req).mds)
  {
    hide BookInv, BookIds, BookPicture, Apply, Slice, Own, About, Fold;
    if req.symbolId in e.books {
      var b, r := e.books[req.symbolId], Numbered(e, req);
      if req.requestType.New? {
        ApplyAbout(b, req.symbolId, r);
        OwnIds(m, e, req);
        FoldSlice(m, Handle(e, req).mds, req.symbolId, BookIds(b) + {e.nextId});
      } else {
        ApplyAboutNamed(b, req.symbolId, r);
        OwnIdsNamed(m, e, req);
        FoldSlice(m, Handle(e, req).mds, req.symbolId, BookIds(b));
      }
      ApplyReplay(b, req.symbolId, r);
    } else {
      FoldNothing(m);
    }
  }

  lemma FoldNothing(m: Picture)
    ensures Fold(m, []) == m
  {
  }

  /** Market-data replay: on every run, folding all emitted updates rebuilds all books exactly, and no
      update ever contradicts what the listener has pieced together so far. */
  lemma {:induction false} RunReplay(e: Engine, reqs: seq<OrderRequest>, m: Picture)
    requires EngineInv(e) && FreshRun(e, reqs) && Mirrors(m, e)
    ensures Mirrors(Fold(m, RunMds(e, reqs)), Run(e, reqs))
    ensures AllExpected(m, RunMds(e, reqs))
  {
    hide EngineInv, Mirrors, Handle, Fold, Expected, Heard;
    if reqs == [] {
      FoldNothing(m);
    } else {
      var n := |reqs| - 1;
      PrefixKeeps(e, reqs, n);
      RunReplay(e, reqs[..n], m);
      HandleReplay(Fold(m, RunMds(e, reqs[..n])), Run(e, reqs[..n]), reqs[n]);
      FoldConcat(m, RunMds(e, reqs[..n]), Handle(Run(e, reqs[..n]), reqs[n]).mds);
      ExpectedConcat(m, RunMds(e, reqs[..n]), Handle(Run(e, reqs[..n]), reqs[n]).mds);
    }
  }

  /** ... in particular on every run of fewer than 2^64 new orders from an empty engine. */
  lemma BootReplay(symbols: seq<SymbolId>, reqs: seq<OrderRequest>)
    requires News(reqs) < TWO64
    ensures Mirrors(Fold(map[], RunMds(Boot(symbols), reqs)), Run(Boot(symbols), reqs))
    ensures AllExpected(map[], RunMds(Boot(symbols), reqs))
  {
    BootInv(symbols);
    BoundedIsFresh(Boot(symbols), reqs);
    assert Mirrors(map[], Boot(symbols)) by {
      hide EngineInv;
      forall s | s in Boot(symbols).books
        ensures Slice(map[], s) == BookPicture(s, Boot(symbols).books[s])
      {
      }
    }
    RunReplay(Boot(symbols), reqs, map[]);
  }

  /** A picture that mirrors the engine knows the live quantity of every order. */
  lemma LiveKnown(m: Picture, e: Engine, id: OrderId)
    requires EngineInv(e) && Mirrors(m, e)
    ensures forall sym, s: Side, r | sym in e.books && r in e.books[sym].On(s).queue && r.id == id ::
              QtyIn(m, id) == r.qty
    ensures (forall sym | sym in e.books :: id !in BookIds(e.books[sym])) ==> QtyIn(m, id) == 0
  {
    hide BookInv, BookIds, BookPicture;
    forall sym, s: Side, r | sym in e.books && r in e.books[sym].On(s).queue && r.id == id
      ensures QtyIn(m, id) == r.qty
    {
      var q := e.books[sym].On(s).queue;
      var k :| 0 <= k < |q| && q[k] == r;
      ShownAs(sym, e.books[sym], s, k);
      assert id in Slice(m, sym);
    }
    if id in m {
      PictureKeys(m[id].symbolId, e.books[m[id].symbolId]);
      assert id in Slice(m, m[id].symbolId);
    }
  }

  /** Lifetime law: on every run of fewer than 2^64 new orders, for every order, the quantity it
      entered with, as changed by its modifies, is what it traded, what was cancelled of it, and
      what rests. */
  lemma RunLifetime(symbols: seq<SymbolId>, reqs: seq<OrderRequest>, id: OrderId)
    requires News(reqs) < TWO64
    ensures var e := Run(Boot(symbols), reqs); var l := LedgerOf(map[], RunMds(Boot(symbols), reqs), id);
            && (forall sym, s: Side, r | sym in e.books && r in e.books[sym].On(s).queue && r.id == id ::
                  l.entered + l.modified == l.traded + l.cancelled + r.qty)
            && ((forall sym | sym in e.books :: id !in BookIds(e.books[sym])) ==>
                  l.entered + l.modified == l.traded + l.cancelled)
  {
    hide Run, RunMds, EngineInv, Mirrors, AllExpected, Fold, BookIds, LedgerOf;
    var e0 := Boot(symbols);
    BootInv(symbols);
    BoundedIsFresh(e0, reqs);
    RunKeeps(e0, reqs);
    BootReplay(symbols, reqs);
    LedgerBalances(map[], RunMds(e0, reqs), id);
    LiveKnown(Fold(map[], RunMds(e0, reqs)), Run(e0, reqs), id);
  }

  // ---- Priority over runs ----

  ghost predicate Rests(e: Engine, sym: SymbolId, s: Side, id: OrderId) {
    sym in e.books && id in Ids(e.books[sym].On(s).queue)
  }

  /** This request sends the order to the back of the queue. */
  predicate SentBack(e: Engine, sym: SymbolId, req: OrderRequest, id: OrderId) {
    sym in e.books && req.symbolId == sym && Requeues(e.books[sym], req, id)
  }

  lemma HandleOrderKept(e: Engine, req: OrderRequest, sym: SymbolId, s: Side, x: OrderId, y: OrderId)
    requires EngineInv(e) && Room(e, req) && x != y
    requires Rests(e, sym, s, x) && Rests(e, sym, s, y)
    requires Rests(Handle(e, req).engine, sym, s, x) && Rests(Handle(e, req).engine, sym, s, y)
    requires !SentBack(e, sym, req, x) && !SentBack(e, sym, req, y)
    ensures Ahead(e.books[sym], s, x, y) <==> Ahead(Handle(e, req).engine.books[sym], s, x, y)
  {
    hide BookInv, BookIds, Apply, Requeues, Ahead;
    if req.symbolId == sym {
      var b, r := e.books[sym], Numbered(e, req);
      var b' := Apply(b, sym, r).book;
      assert Handle(e, req).engine.books[sym] == b';
      var rx :| rx in b.On(s).queue && rx.id == x;
      var ry :| ry in b.On(s).queue && ry.id == y;
      var rx' :| rx' in b'.On(s).queue && rx'.id == x;
      var ry' :| ry' in b'.On(s).queue && ry'.id == y;
      NeverForNew(b, r, x);
      NeverForNew(b, r, y);
      OrderKept(b, sym, r, s, rx, ry, rx', ry');
    }
  }

  lemma NeverForNew(b: Book, req: OrderRequest, id: OrderId)
    ensures req.requestType.New? ==> !Requeues(b, req, id)
  {
  }

  /** Two orders that rest throughout a run and are never re-queued keep their relative order. */
  lemma {:induction false} RunOrderKept(e: Engine, reqs: seq<OrderRequest>, sym: SymbolId, s: Side,
                                        x: OrderId, y: OrderId)
    requires EngineInv(e) && FreshRun(e, reqs) && x != y
    requires forall n | 0 <= n <= |reqs| :: Rests(Run(e, reqs[..n]), sym, s, x) && Rests(Run(e, reqs[..n]), sym, s, y)
    requires forall n | 0 <= n < |reqs| ::
               !SentBack(Run(e, reqs[..n]), sym, reqs[n], x) && !SentBack(Run(e, reqs[..n]), sym, reqs[n], y)
    ensures sym in e.books && sym in Run(e, reqs).books
    ensures Ahead(e.books[sym], s, x, y) <==> Ahead(Run(e, reqs).books[sym], s, x, y)
  {
    hide EngineInv, Room, Handle, SentBack, Ahead;
    assert reqs[..0] == [] && reqs[..|reqs|] == reqs;
    assert Rests(Run(e, reqs[..0]), sym, s, x) && Rests(Run(e, reqs[..|reqs|]), sym, s, x);
    if reqs != [] {
      var n := |reqs| - 1;
      PrefixKeeps(e, reqs, n);
      forall i | 0 <= i <= n
        ensures reqs[..n][..i] == reqs[..i]
      {
      }
      RunOrderKept(e, reqs[..n], sym, s, x, y);
      HandleOrderKept(Run(e, reqs[..n]), reqs[n], sym, s, x, y);
    }
  }

  // ---- Uncrossed books over runs ----

  ghost predicate AllApart(e: Engine) {
    forall s | s in e.books :: Apart(e.books[s])
  }

  /** This request is an accepted modify to a price that crosses the opposite best. */
  predicate CrossesNow(e: Engine, req: OrderRequest) {
    req.symbolId in e.books && CrossingModify(e.books[req.symbolId], req)
  }

  lemma HandleApartIff(e: Engine, req: OrderRequest)
    requires EngineInv(e) && AllApart(e)
    ensures AllApart(Handle(e, req).engine) <==> !CrossesNow(e, req)
  {
    hide BookInv, BookIds, Apply, Apart, CrossingModify;
    if req.symbolId in e.books {
      ApplyApartIff(e.books[req.symbolId], req.symbolId, Numbered(e, req));
      var e' := Handle(e, req).engine;
      assert e'.books[req.symbolId] == Apply(e.books[req.symbolId], req.symbolId, Numbered(e, req)).book;
      assert CrossingModify(e.books[req.symbolId], Numbered(e, req)) == CrossingModify(e.books[req.symbolId], req) by {
        SameModify(e, e.books[req.symbolId], req);
      }
    }
  }

  lemma SameModify(e: Engine, b: Book, req: OrderRequest)
    ensures CrossingModify(b, Numbered(e, req)) == CrossingModify(b, req)
  {
  }

  /** All books stay uncrossed throughout a run exactly when no modify of the run is accepted at a
      price that crosses the opposite best at that moment. */
  lemma RunApartIff(e: Engine, reqs: seq<OrderRequest>)
    requires EngineInv(e) && FreshRun(e, reqs) && AllApart(e)
    ensures (forall n | 0 <= n <= |reqs| :: AllApart(Run(e, reqs[..n])))
       <==> (forall n | 0 <= n < |reqs| :: !CrossesNow(Run(e, reqs[..n]), reqs[n]))
  {
    hide EngineInv, AllApart, CrossesNow, Handle;
    if forall n | 0 <= n < |reqs| :: !CrossesNow(Run(e, reqs[..n]), reqs[n]) {
      forall n | 0 <= n <= |reqs|
        ensures AllApart(Run(e, reqs[..n]))
      {
        StaysApart(e, reqs, n);
      }
    } else {
      var n :| 0 <= n < |reqs| && CrossesNow(Run(e, reqs[..n]), reqs[n]);
      if AllApart(Run(e, reqs[..n])) {
        PrefixKeeps(e, reqs, n);
        HandleApartIff(Run(e, reqs[..n]), reqs[n]);
        assert reqs[..n + 1][..n] == reqs[..n];
        assert !AllApart(Run(e, reqs[..n + 1]));
      }
    }
  }

  lemma {:induction false} StaysApart(e: Engine, reqs: seq<OrderRequest>, n: nat)
    requires EngineInv(e) && FreshRun(e, reqs) && AllApart(e) && n <= |reqs|
    requires forall i | 0 <= i < |reqs| :: !CrossesNow(Run(e, reqs[..i]), reqs[i])
    ensures AllApart(Run(e, reqs[..n]))
  {
    hide EngineInv, AllApart, CrossesNow, Handle;
    if n > 0 {
      StaysApart(e, reqs, n - 1);
      PrefixKeeps(e, reqs, n - 1);
      HandleApartIff(Run(e, reqs[..n - 1]), reqs[n - 1]);
      assert reqs[..n][..n - 1] == reqs[..n - 1];
    }
  }

  // ---- Cached totals over runs ----

  /** The drift of a level, told from the run alone: leaks accumulate while the level lives. */
  function DriftHistory(e: Engine, reqs: seq<OrderRequest>, sym: SymbolId, s: Side, p: Price): int {
    if reqs == [] then 0
    else
      var prefix, req := reqs[..|reqs| - 1], reqs[|reqs| - 1];
      var e0, e1 := Run(e, prefix), Run(e, reqs);
      if sym !in e0.books || sym !in e1.books || At(e1.books[sym].On(s).queue, p) == [] then 0
      else if req.symbolId != sym then DriftHistory(e, prefix, sym, s, p)
      else if Outlives(e1.books[sym].On(s), p, e0.books[sym].clock) then
        DriftHistory(e, prefix, sym, s, p) + Leak(e0.books[sym], Numbered(e0, req), s, p)
      else 0
  }

  predicate NoDriftYet(e: Engine, sym: SymbolId) {
    sym in e.books && e.books[sym].bids.drift == map[] && e.books[sym].asks.drift == map[]
  }

  lemma EmptyLevelNoDrift(b: Book, s: Side, p: Price)
    requires BookInv(b) && At(b.On(s).queue, p) == []
    ensures b.On(s).DriftAt(p) == 0
  {
  }

  lemma {:induction false} RunDrift(e: Engine, reqs: seq<OrderRequest>, sym: SymbolId, s: Side, p: Price)
    requires EngineInv(e) && FreshRun(e, reqs) && NoDriftYet(e, sym)
    ensures sym in Run(e, reqs).books && Run(e, reqs).books[sym].On(s).DriftAt(p) == DriftHistory(e, reqs, sym, s, p)
  {
    hide BookInv, BookIds, At, Apply, Leak, Outlives;
    if reqs != [] {
      var n := |reqs| - 1;
      var prefix, req := reqs[..n], reqs[n];
      PrefixKeeps(e, reqs, n);
      RunDrift(e, prefix, sym, s, p);
      RunKeeps(e, reqs);
      var e0, e1 := Run(e, prefix), Run(e, reqs);
      if At(e1.books[sym].On(s).queue, p) == [] {
        EmptyLevelNoDrift(e1.books[sym], s, p);
      } else if req.symbolId == sym {
        DriftLaw(e0.books[sym], sym, Numbered(e0, req), s, p);
      }
    }
  }

  /** Level-total drift law: in every reachable state, a cached total is the live sum plus the
      leaks since the level came into being, in 32 bits. */
  lemma TotalLaw(e: Engine, reqs: seq<OrderRequest>, sym: SymbolId, s: Side, p: Price)
    requires EngineInv(e) && FreshRun(e, reqs) && NoDriftYet(e, sym)
    ensures sym in Run(e, reqs).books
    ensures var sb := Run(e, reqs).books[sym].On(s); var d := DriftHistory(e, reqs, sym, s, p);
            && LevelTotal(sb, p) == Wrap32(SumQty(At(sb.queue, p)) + d)
            && (LevelTotal(sb, p) == Wrap32(SumQty(At(sb.queue, p))) <==> d % TWO32 == 0)
  {
    hide EngineInv, Run, DriftHistory, At;
    RunDrift(e, reqs, sym, s, p);
    ExactIff(Run(e, reqs).books[sym].On(s), p);
  }
}
