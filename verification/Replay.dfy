/** A market-data listener: folding the update stream rebuilds the book. */
module Replay {
  import opened ExchangeTypes
  import opened PriceTime
  import opened BookInvariant
  import opened LevelFacts
  import opened Matching

  datatype Quote = Quote(symbolId: SymbolId, side: Side, price: Price, qty: Quantity)

  type Picture = map<OrderId, Quote>

  /** New inserts a live order, Trade subtracts and drops at zero, Cancel drops, Modify overwrites. */
  function Heard(m: Picture, md: MdUpdate): Picture {
    match md.updateType
    case MdNew =>
      if md.qty > 0 then m[md.orderId := Quote(md.symbolId, md.side, md.price, md.qty)] else m
    case MdTrade =>
      if md.orderId !in m then m
      else if m[md.orderId].qty <= md.qty then m - {md.orderId}
      else m[md.orderId := m[md.orderId].(qty := m[md.orderId].qty - md.qty)]
    case MdCancel => m - {md.orderId}
    case MdModify => m[md.orderId := Quote(md.symbolId, md.side, md.price, md.qty)]
  }

  function Fold(m: Picture, mds: seq<MdUpdate>): Picture
    decreases |mds|
  {
    if mds == [] then m else Fold(Heard(m, mds[0]), mds[1..])
  }

  /** An update that fits what the listener already believes: a new id is unknown, a trade, cancel or
      modify speaks of a known order on its side, a trade and a cancel at its price, a trade of no more
      than is left and a cancel of exactly that. */
  predicate Expected(m: Picture, md: MdUpdate) {
    match md.updateType
    case MdNew => md.orderId !in m
    case MdTrade =>
      && md.orderId in m && m[md.orderId].symbolId == md.symbolId && m[md.orderId].side == md.side
      && m[md.orderId].price == md.price && md.qty <= m[md.orderId].qty
    case MdCancel => md.orderId in m && m[md.orderId] == Quote(md.symbolId, md.side, md.price, md.qty)
    case MdModify => md.orderId in m && m[md.orderId].symbolId == md.symbolId && m[md.orderId].side == md.side
  }

  predicate AllExpected(m: Picture, mds: seq<MdUpdate>)
    decreases |mds|
  {
    mds == [] || (Expected(m, mds[0]) && AllExpected(Heard(m, mds[0]), mds[1..]))
  }

  lemma {:induction false} ExpectedConcat(m: Picture, a: seq<MdUpdate>, b: seq<MdUpdate>)
    ensures AllExpected(m, a + b) <==> AllExpected(m, a) && AllExpected(Fold(m, a), b)
    decreases |a|
  {
    hide Expected, Heard;
    if a == [] {
      assert a + b == b;
    } else {
      assert (a + b)[0] == a[0] && (a + b)[1..] == a[1..] + b;
      ExpectedConcat(Heard(m, a[0]), a[1..], b);
    }
  }

  lemma {:induction false} FoldConcat(m: Picture, a: seq<MdUpdate>, b: seq<MdUpdate>)
    ensures Fold(m, a + b) == Fold(Fold(m, a), b)
    decreases |a|
  {
    if a == [] {
      assert a + b == b;
    } else {
      assert (a + b)[0] == a[0] && (a + b)[1..] == a[1..] + b;
      FoldConcat(Heard(m, a[0]), a[1..], b);
    }
  }

  // ---- The true picture of a book ----

  function QuoteOf(sym: SymbolId, s: Side, r: Resting): Quote {
    Quote(sym, s, r.price, r.qty)
  }

  function SidePicture(sym: SymbolId, s: Side, q: seq<Resting>): Picture {
    if q == [] then map[] else SidePicture(sym, s, q[1..])[q[0].id := QuoteOf(sym, s, q[0])]
  }

  /** id -> (symbol, side, price, live quantity) of every resting order. */
  function BookPicture(sym: SymbolId, b: Book): Picture {
    SidePicture(sym, Buy, b.bids.queue) + SidePicture(sym, Sell, b.asks.queue)
  }

  lemma IdsCons(q: seq<Resting>)
    requires q != []
    ensures Ids(q) == {q[0].id} + Ids(q[1..])
  {
    assert q == [q[0]] + q[1..];
  }

  lemma {:induction false} PictureFacts(sym: SymbolId, s: Side, q: seq<Resting>)
    requires Unique(q)
    ensures SidePicture(sym, s, q).Keys == Ids(q)
    ensures forall r | r in q :: r.id in SidePicture(sym, s, q) && SidePicture(sym, s, q)[r.id] == QuoteOf(sym, s, r)
  {
    if q != [] {
      PictureFacts(sym, s, q[1..]);
      IdsCons(q);
      forall r | r in q && r != q[0]
        ensures r in q[1..] && r.id != q[0].id
      {
        TailMember(q, r);
      }
    }
  }

  lemma TailMember(q: seq<Resting>, r: Resting)
    requires Unique(q) && r in q && r != q[0]
    ensures r in q[1..] && r.id != q[0].id
  {
    var i :| 0 <= i < |q| && q[i] == r;
    assert q[1..][i - 1] == r;
  }

  /** The picture is determined by the orders it shows. */
  lemma PictureIs(sym: SymbolId, s: Side, q: seq<Resting>, m: Picture)
    requires Unique(q) && m.Keys == Ids(q)
    requires forall r | r in q :: r.id in m && m[r.id] == QuoteOf(sym, s, r)
    ensures m == SidePicture(sym, s, q)
  {
    PictureFacts(sym, s, q);
    forall id | id in m
      ensures m[id] == SidePicture(sym, s, q)[id]
    {
      var r :| r in q && r.id == id;
    }
  }

  lemma EnqueuePicture(sym: SymbolId, s: Side, sb: SideBook, r: Resting, now: nat)
    requires SideInv(s, sb, now) && r.id !in Ids(sb.queue) && r.qty <= r.recorded && r.entry == now
    ensures SidePicture(sym, s, Enqueue(s, sb, r).queue) == SidePicture(sym, s, sb.queue)[r.id := QuoteOf(sym, s, r)]
  {
    hide Enqueue, Sorted, Sound, Anchored;
    EnqueueKeeps(s, sb, r, now);
    EnqueueMembers(s, sb, r);
    PictureFacts(sym, s, sb.queue);
    PictureIs(sym, s, Enqueue(s, sb, r).queue, SidePicture(sym, s, sb.queue)[r.id := QuoteOf(sym, s, r)]);
  }

  lemma GonePicture(sym: SymbolId, s: Side, sb: SideBook, k: nat, now: nat)
    requires k < |sb.queue| && SideInv(s, sb, now)
    ensures SidePicture(sym, s, Gone(sb, k, 0).queue) == SidePicture(sym, s, sb.queue) - {sb.queue[k].id}
  {
    hide Gone, Sorted, Sound, Anchored;
    GoneKeeps(s, sb, k, 0, now);
    PictureFacts(sym, s, sb.queue);
    PictureIs(sym, s, Gone(sb, k, 0).queue, SidePicture(sym, s, sb.queue) - {sb.queue[k].id});
  }

  lemma ResizePicture(sym: SymbolId, s: Side, sb: SideBook, k: nat, qty: Quantity, now: nat)
    requires k < |sb.queue| && SideInv(s, sb, now)
    ensures SidePicture(sym, s, Resize(sb, k, qty, qty).queue)
         == SidePicture(sym, s, sb.queue)[sb.queue[k].id := QuoteOf(sym, s, sb.queue[k]).(qty := qty)]
  {
    hide Sorted, Sound, Anchored, Resize;
    var r := sb.queue[k];
    var r' := r.(qty := qty, recorded := qty);
    var q' := Resize(sb, k, qty, qty).queue;
    ResizeShape(sb, k, qty, qty);
    ResizeKeeps(s, sb, k, r', Resize(sb, k, qty, qty).drift, now);
    PictureFacts(sym, s, sb.queue);
    var m := SidePicture(sym, s, sb.queue)[r.id := QuoteOf(sym, s, r).(qty := qty)];
    assert r in sb.queue && r.id in Ids(sb.queue);
    forall x | x in q'
      ensures x.id in m && m[x.id] == QuoteOf(sym, s, x)
    {
      OtherThanResized(sb.queue, k, r', x);
    }
    PictureIs(sym, s, q', m);
  }

  lemma OtherThanResized(q: seq<Resting>, k: nat, r': Resting, x: Resting)
    requires k < |q| && Unique(q) && r'.id == q[k].id && x in q[..k] + [r'] + q[k + 1..]
    ensures x == r' || (x in q && x.id != r'.id)
  {
    var q' := q[..k] + [r'] + q[k + 1..];
    var i :| 0 <= i < |q'| && q'[i] == x;
    assert q'[i] == if i == k then r' else q[i];
  }

  // ---- Replaying one matching pass ----

  function Live(sym: SymbolId, inc: OrderRequest, rem: Quantity): Picture {
    if rem > 0 then map[inc.orderId := Quote(sym, inc.side, inc.price, rem)] else map[]
  }

  lemma FoldTwo(m: Picture, a: MdUpdate, b: MdUpdate, rest: seq<MdUpdate>)
    ensures Fold(m, [a, b] + rest) == Fold(Heard(Heard(m, a), b), rest)
    ensures AllExpected(m, [a, b] + rest)
       <==> Expected(m, a) && Expected(Heard(m, a), b) && AllExpected(Heard(Heard(m, a), b), rest)
  {
    hide Expected, Heard;
    assert ([a, b] + rest)[1..] == [b] + rest;
    assert ([b] + rest)[1..] == rest;
  }

  lemma FoldOne(m: Picture, a: MdUpdate, rest: seq<MdUpdate>)
    ensures Fold(m, [a] + rest) == Fold(Heard(m, a), rest)
    ensures AllExpected(m, [a] + rest) <==> Expected(m, a) && AllExpected(Heard(m, a), rest)
  {
    hide Expected, Heard;
    assert ([a] + rest)[1..] == rest;
  }

  lemma MdsCons(sym: SymbolId, s: Side, inc: OrderRequest, e: Event, evs: seq<Event>)
    ensures Mds(sym, s, inc, [e] + evs) == EventMds(sym, s, inc, e) + Mds(sym, s, inc, evs)
  {
    assert ([e] + evs)[1..] == evs;
  }

  /** The picture while a pass runs: the untouched side, the passive queue, the incoming order. */
  function Stage(sym: SymbolId, s: Side, own: Picture, q: seq<Resting>, inc: OrderRequest, rem: Quantity): Picture {
    own + SidePicture(sym, s, q) + Live(sym, inc, rem)
  }

  ghost predicate Separate(own: Picture, q: seq<Resting>, inc: OrderRequest) {
    Unique(q) && own.Keys !! Ids(q) && inc.orderId !in own && inc.orderId !in Ids(q)
  }

  lemma SeparateTail(own: Picture, q: seq<Resting>, inc: OrderRequest)
    requires Separate(own, q, inc) && q != []
    ensures Separate(own, q[1..], inc)
    ensures q[0].id !in own && q[0].id != inc.orderId && q[0].id !in Ids(q[1..])
  {
    IdsCons(q);
  }

  lemma MiddleEntry(a: Picture, t: Picture, c: Picture, id: OrderId, x: Quote, y: Quote)
    requires id !in a && id !in t && id !in c
    ensures var m := a + t[id := x] + c;
            && id in m && m[id] == x
            && m - {id} == a + t + c
            && m[id := y] == a + t[id := y] + c
  {
  }

  lemma HearSelfCancel(sym: SymbolId, s: Side, own: Picture, q: seq<Resting>, inc: OrderRequest, rem: Quantity)
    requires Separate(own, q, inc) && q != []
    ensures Expected(Stage(sym, s, own, q, inc, rem), EventMds(sym, s, inc, SelfCancel(q[0]))[0])
    ensures Heard(Stage(sym, s, own, q, inc, rem), EventMds(sym, s, inc, SelfCancel(q[0]))[0])
         == Stage(sym, s, own, q[1..], inc, rem)
  {
    hide Separate, Ids;
    SeparateTail(own, q, inc);
    SeparateUnique(own, q[1..], inc);
    PictureFacts(sym, s, q[1..]);
    var x := QuoteOf(sym, s, q[0]);
    MiddleEntry(own, SidePicture(sym, s, q[1..]), Live(sym, inc, rem), q[0].id, x, x);
  }

  lemma SeparateUnique(own: Picture, q: seq<Resting>, inc: OrderRequest)
    requires Separate(own, q, inc)
    ensures Unique(q)
  {
  }

  lemma HearPassive(sym: SymbolId, s: Side, own: Picture, q: seq<Resting>, inc: OrderRequest,
                    rem: Quantity, t: Quantity)
    requires Separate(own, q, inc) && q != [] && t <= q[0].qty
    ensures Expected(Stage(sym, s, own, q, inc, rem), EventMds(sym, s, inc, Fill(q[0], t))[0])
    ensures Heard(Stage(sym, s, own, q, inc, rem), EventMds(sym, s, inc, Fill(q[0], t))[0])
         == Stage(sym, s, own, if t == q[0].qty then q[1..] else [q[0].(qty := q[0].qty - t)] + q[1..], inc, rem)
  {
    hide Separate, Ids;
    SeparateTail(own, q, inc);
    SeparateUnique(own, q[1..], inc);
    PictureFacts(sym, s, q[1..]);
    var q' := [q[0].(qty := q[0].qty - t)] + q[1..];
    assert q'[1..] == q[1..];
    var x := QuoteOf(sym, s, q[0]);
    MiddleEntry(own, SidePicture(sym, s, q[1..]), Live(sym, inc, rem), q[0].id, x, x.(qty := q[0].qty - t));
    assert SidePicture(sym, s, q') == SidePicture(sym, s, q[1..])[q[0].id := x.(qty := q[0].qty - t)];
  }

  lemma HearAggressor(sym: SymbolId, s: Side, own: Picture, q: seq<Resting>, inc: OrderRequest, rem: Quantity, e: Event)
    requires inc.orderId !in own && inc.orderId !in SidePicture(sym, s, q)
    requires e.Fill? && e.qty <= rem && rem > 0
    ensures Expected(Stage(sym, s, own, q, inc, rem), EventMds(sym, s, inc, e)[1])
    ensures Heard(Stage(sym, s, own, q, inc, rem), EventMds(sym, s, inc, e)[1])
         == Stage(sym, s, own, q, inc, rem - e.qty)
  {
  }

  lemma HearFill(sym: SymbolId, s: Side, own: Picture, q: seq<Resting>, inc: OrderRequest,
                 rem: Quantity, t: Quantity, rest: seq<Event>)
    requires Separate(own, q, inc) && q != [] && t <= q[0].qty && t <= rem && rem > 0
    ensures var q' := if t == q[0].qty then q[1..] else [q[0].(qty := q[0].qty - t)] + q[1..];
            && Fold(Stage(sym, s, own, q, inc, rem), Mds(sym, s, inc, [Fill(q[0], t)] + rest))
               == Fold(Stage(sym, s, own, q', inc, rem - t), Mds(sym, s, inc, rest))
            && (AllExpected(Stage(sym, s, own, q, inc, rem), Mds(sym, s, inc, [Fill(q[0], t)] + rest))
                <==> AllExpected(Stage(sym, s, own, q', inc, rem - t), Mds(sym, s, inc, rest)))
  {
    hide Separate, Stage, Heard, Expected, AllExpected, SidePicture, Fold, Mds;
    var e := Fill(q[0], t);
    HearPassive(sym, s, own, q, inc, rem, t);
    NotShown(sym, s, own, q, inc, t);
    HearAggressor(sym, s, own, if t == q[0].qty then q[1..] else [q[0].(qty := q[0].qty - t)] + q[1..], inc, rem, e);
    MdsCons(sym, s, inc, e, rest);
    FoldTwo(Stage(sym, s, own, q, inc, rem), EventMds(sym, s, inc, e)[0], EventMds(sym, s, inc, e)[1],
            Mds(sym, s, inc, rest));
  }

  lemma {:induction false} WalkReplay(sym: SymbolId, s: Side, own: Picture, inc: OrderRequest,
                                      rem: Quantity, sb: SideBook)
    requires Separate(own, sb.queue, inc)
    ensures var w := Walk(s, inc, rem, sb);
            && Fold(Stage(sym, s, own, sb.queue, inc, rem), Mds(sym, s, inc, w.events))
               == Stage(sym, s, own, w.side.queue, inc, w.rem)
            && AllExpected(Stage(sym, s, own, sb.queue, inc, rem), Mds(sym, s, inc, w.events))
    decreases |sb.queue|
  {
    hide Settle, Stage, Heard, Expected, Separate, Tradable;
    var q := sb.queue;
    if !Stops(s, inc, rem, q) {
      var h := q[0];
      SeparateTail(own, q, inc);
      var m := Stage(sym, s, own, q, inc, rem);
      if h.trader == inc.traderId {
        HeadDropped(sb, 0);
        WalkReplay(sym, s, own, inc, rem, DropHead(sb, 0));
        var rest := Walk(s, inc, rem, DropHead(sb, 0)).events;
        HearSelfCancel(sym, s, own, q, inc, rem);
        MdsCons(sym, s, inc, SelfCancel(h), rest);
        FoldOne(m, EventMds(sym, s, inc, SelfCancel(h))[0], Mds(sym, s, inc, rest));
      } else {
        var full := h.qty <= rem;
        var t := if full then h.qty else rem;
        var sb' := if full then DropHead(sb, h.qty) else Shrink(sb, rem);
        var e := Fill(h, t);
        var rest := Walk(s, inc, rem - t, sb').events;
        if full {
          HeadDropped(sb, h.qty);
          WalkReplay(sym, s, own, inc, rem - t, sb');
        }
        HearFill(sym, s, own, q, inc, rem, t, rest);
      }
    }
  }

  lemma NotShown(sym: SymbolId, s: Side, own: Picture, q: seq<Resting>, inc: OrderRequest, t: Quantity)
    requires Separate(own, q, inc) && q != [] && t <= q[0].qty
    ensures inc.orderId !in own && inc.orderId !in SidePicture(sym, s, q[1..])
    ensures inc.orderId !in SidePicture(sym, s, [q[0].(qty := q[0].qty - t)] + q[1..])
  {
    SeparateTail(own, q, inc);
    PictureFacts(sym, s, q[1..]);
    assert ([q[0].(qty := q[0].qty - t)] + q[1..])[1..] == q[1..];
  }

  // ---- Replaying one request ----

  lemma BookPictureBySide(sym: SymbolId, b: Book, s: Side)
    requires BookInv(b)
    ensures BookPicture(sym, b)
         == SidePicture(sym, s.Opposite(), b.On(s.Opposite()).queue) + SidePicture(sym, s, b.On(s).queue)
    ensures BookPicture(sym, b).Keys == BookIds(b)
    ensures SidePicture(sym, s, b.On(s).queue).Keys == Ids(b.On(s).queue)
    ensures SidePicture(sym, s.Opposite(), b.On(s.Opposite()).queue).Keys == Ids(b.On(s.Opposite()).queue)
    ensures Unique(b.On(s).queue)
  {
    hide Unique, Ids, Sorted, Sound, Anchored, SidePicture;
    PictureFacts(sym, Buy, b.bids.queue);
    PictureFacts(sym, Sell, b.asks.queue);
  }

  /** The picture shows every resting order as it is. */
  lemma ShownAs(sym: SymbolId, b: Book, s: Side, k: nat)
    requires BookInv(b) && k < |b.On(s).queue|
    ensures var r := b.On(s).queue[k];
            r.id in BookPicture(sym, b) && BookPicture(sym, b)[r.id] == QuoteOf(sym, s, r)
  {
    hide BookPicture, SidePicture, Sorted, Sound, Anchored, Unique, Ids;
    var r := b.On(s).queue[k];
    assert r in b.On(s).queue;
    BookPictureBySide(sym, b, s);
    PictureFacts(sym, s, b.On(s).queue);
  }

  lemma NewHeard(b: Book, sym: SymbolId, req: OrderRequest)
    requires BookInv(b) && req.orderId !in BookIds(b)
    ensures var s := req.side.Opposite(); var own := SidePicture(sym, req.side, b.On(req.side).queue);
            && Separate(own, b.On(s).queue, req)
            && Expected(BookPicture(sym, b), Add(b, sym, req).mds[0])
            && Heard(BookPicture(sym, b), Add(b, sym, req).mds[0])
               == Stage(sym, s, own, b.On(s).queue, req, req.quantity)
  {
    hide Walk, SideInv, Ids, SidePicture, BookPicture;
    BookPictureBySide(sym, b, req.side.Opposite());
  }

  lemma RestedSides(b: Book, req: OrderRequest, w: Walked)
    ensures Rested(b, req, w).On(req.side.Opposite()) == w.side
    ensures Rested(b, req, w).On(req.side)
         == if w.rem == 0 then b.On(req.side)
            else Enqueue(req.side, b.On(req.side), Resting(req.orderId, req.traderId, req.price, w.rem, w.rem, b.clock))
  {
  }

  lemma LiveJoins(sym: SymbolId, own: Picture, passive: Picture, inc: OrderRequest, rem: Quantity)
    requires rem > 0 ==> inc.orderId !in passive
    ensures own + passive + Live(sym, inc, rem)
         == (if rem == 0 then own else own[inc.orderId := Quote(sym, inc.side, inc.price, rem)]) + passive
  {
  }

  lemma OwnPicture(b: Book, sym: SymbolId, req: OrderRequest, w: Walked)
    requires BookInv(b) && req.orderId !in BookIds(b) && w.rem != 0
    ensures SidePicture(sym, req.side, Rested(b, req, w).On(req.side).queue)
         == SidePicture(sym, req.side, b.On(req.side).queue)[req.orderId := Quote(sym, req.side, req.price, w.rem)]
  {
    hide SidePicture, SideInv, Enqueue, Ids;
    RestedSides(b, req, w);
    EnqueuePicture(sym, req.side, b.On(req.side),
                   Resting(req.orderId, req.traderId, req.price, w.rem, w.rem, b.clock), b.clock);
  }

  lemma AddedBook(b: Book, sym: SymbolId, req: OrderRequest)
    ensures Add(b, sym, req).book == Rested(b, req, Matched(b, req))
  {
  }

  lemma StageIsBook(b: Book, sym: SymbolId, req: OrderRequest)
    requires BookInv(b) && req.orderId !in BookIds(b)
    ensures var s := req.side.Opposite(); var w := Matched(b, req);
            Stage(sym, s, SidePicture(sym, req.side, b.On(req.side).queue), w.side.queue, req, w.rem)
            == BookPicture(sym, Add(b, sym, req).book)
  {
    hide Matched, BookInv, BookIds, SidePicture, BookPicture, Rested, Add, Live, Enqueue, Unique, Ids;
    var s := req.side.Opposite();
    var w := Matched(b, req);
    AddKeeps(b, sym, req);
    AddedBook(b, sym, req);
    BookPictureBySide(sym, Add(b, sym, req).book, s);
    RestedSides(b, req, w);
    StillFreshPassive(b, req);
    PassiveKeys(b, sym, req);
    if w.rem != 0 {
      OwnPicture(b, sym, req, w);
    }
    LiveJoins(sym, SidePicture(sym, req.side, b.On(req.side).queue), SidePicture(sym, s, w.side.queue), req, w.rem);
  }

  lemma StillFreshPassive(b: Book, req: OrderRequest)
    requires BookInv(b) && req.orderId !in BookIds(b)
    ensures Unique(Matched(b, req).side.queue) && req.orderId !in Ids(Matched(b, req).side.queue)
  {
    hide Walk, Ids;
    WalkKeeps(req.side.Opposite(), req, req.quantity, b.On(req.side.Opposite()), b.clock);
  }

  lemma PassiveKeys(b: Book, sym: SymbolId, req: OrderRequest)
    requires Unique(Matched(b, req).side.queue)
    ensures SidePicture(sym, req.side.Opposite(), Matched(b, req).side.queue).Keys == Ids(Matched(b, req).side.queue)
  {
    hide Walk;
    PictureFacts(sym, req.side.Opposite(), Matched(b, req).side.queue);
  }

  lemma AddReplay(b: Book, sym: SymbolId, req: OrderRequest)
    requires BookInv(b) && req.orderId !in BookIds(b)
    ensures Fold(BookPicture(sym, b), Add(b, sym, req).mds) == BookPicture(sym, Add(b, sym, req).book)
    ensures AllExpected(BookPicture(sym, b), Add(b, sym, req).mds)
  {
    hide Walk, Fold, BookInv, BookPicture, SidePicture, Stage, Heard, Expected, AllExpected;
    hide BookIds, Rested, Confirms, Mds, Separate;
    var s := req.side.Opposite();
    var w := Matched(b, req);
    NewHeard(b, sym, req);
    FoldOne(BookPicture(sym, b), Add(b, sym, req).mds[0], Mds(sym, s, req, w.events));
    WalkReplay(sym, s, SidePicture(sym, req.side, b.On(req.side).queue), req, req.quantity, b.On(s));
    StageIsBook(b, sym, req);
  }

  lemma CancelReplay(b: Book, sym: SymbolId, id: OrderId, trader: TraderId)
    requires BookInv(b)
    ensures var o := CancelOrder(b, sym, id, trader);
            Fold(BookPicture(sym, b), o.mds) == BookPicture(sym, o.book) && AllExpected(BookPicture(sym, b), o.mds)
  {
    hide SideInv, Ids, BookPicture, SidePicture, Gone, Index;
    var o := CancelOrder(b, sym, id, trader);
    if Accepted(b, id, trader) {
      FoundFacts(b, id);
      var s := SideOf(b, id).value;
      var k := Index(b.On(s).queue, id);
      GonePicture(sym, s, b.On(s), k, b.clock);
      ShownAs(sym, b, s, k);
      CancelKeeps(b, sym, id, trader);
      BookPictureBySide(sym, b, s);
      BookPictureBySide(sym, o.book, s);
      FoldSingle(BookPicture(sym, b), o.mds[0]);
      assert o.mds == [o.mds[0]];
    }
  }

  lemma FoldSingle(m: Picture, md: MdUpdate)
    ensures Fold(m, [md]) == Heard(m, md)
    ensures AllExpected(m, [md]) <==> Expected(m, md)
  {
    assert [md][1..] == [];
  }

  lemma ModifySidePicture(sym: SymbolId, s: Side, sb: SideBook, k: nat, price: Price, qty: Quantity, now: nat)
    requires k < |sb.queue| && SideInv(s, sb, now)
    ensures SidePicture(sym, s, ModifySide(s, sb, k, price, qty, now).queue)
         == SidePicture(sym, s, sb.queue)[sb.queue[k].id := Quote(sym, s, price, qty)]
  {
    hide SidePicture, Sorted, Sound, Anchored, Gone, Enqueue, Resize;
    var r := sb.queue[k];
    if KeepsPlace(r, price, qty) {
      ResizePicture(sym, s, sb, k, qty, now);
    } else {
      GoneKeeps(s, sb, k, 0, now);
      GonePicture(sym, s, sb, k, now);
      EnqueuePicture(sym, s, Gone(sb, k, 0), r.(price := price, qty := qty, recorded := qty, entry := now), now);
    }
  }

  lemma ModifyReplay(b: Book, sym: SymbolId, id: OrderId, trader: TraderId, price: Price, qty: Quantity)
    requires BookInv(b)
    ensures var o := ModifyOrder(b, sym, id, trader, price, qty);
            Fold(BookPicture(sym, b), o.mds) == BookPicture(sym, o.book) && AllExpected(BookPicture(sym, b), o.mds)
  {
    hide SideInv, Ids, BookPicture, SidePicture, ModifySide, Index;
    var o := ModifyOrder(b, sym, id, trader, price, qty);
    if Accepted(b, id, trader) {
      FoundFacts(b, id);
      var s := SideOf(b, id).value;
      var k := Index(b.On(s).queue, id);
      ModifySidePicture(sym, s, b.On(s), k, price, qty, b.clock);
      ShownAs(sym, b, s, k);
      ModifyKeeps(b, sym, id, trader, price, qty);
      BookPictureBySide(sym, b, s);
      BookPictureBySide(sym, o.book, s);
      FoldSingle(BookPicture(sym, b), o.mds[0]);
      assert o.mds == [o.mds[0]];
    }
  }

  /** A listener that knew the book before a request knows it after hearing the request's updates, each
      of which fits what the listener knew by then. */
  lemma ApplyReplay(b: Book, sym: SymbolId, req: OrderRequest)
    requires BookInv(b) && (req.requestType.New? ==> req.orderId !in BookIds(b))
    ensures Fold(BookPicture(sym, b), Apply(b, sym, req).mds) == BookPicture(sym, Apply(b, sym, req).book)
    ensures AllExpected(BookPicture(sym, b), Apply(b, sym, req).mds)
  {
    match req.requestType
    case New => AddReplay(b, sym, req);
    case Cancel => CancelReplay(b, sym, req.orderId, req.traderId);
    case Modify => ModifyReplay(b, sym, req.orderId, req.traderId, req.price, req.quantity);
  }

  // ---- The life of one order, told from the stream ----

  /** What the stream says happened to one order; `modified` is the change its modifies made to the
      quantity the listener knew. */
  datatype Ledger = Ledger(entered: nat, traded: nat, cancelled: nat, modified: int)

  function QtyIn(m: Picture, id: OrderId): nat {
    if id in m then m[id].qty else 0
  }

  function LedgerOf(m: Picture, mds: seq<MdUpdate>, id: OrderId): Ledger
    decreases |mds|
  {
    if mds == [] then Ledger(0, 0, 0, 0)
    else
      var md, l := mds[0], LedgerOf(Heard(m, mds[0]), mds[1..], id);
      if md.orderId != id then l
      else
        match md.updateType
        case MdNew => l.(entered := l.entered + md.qty)
        case MdTrade => l.(traded := l.traded + md.qty)
        case MdCancel => l.(cancelled := l.cancelled + md.qty)
        case MdModify => l.(modified := l.modified + md.qty - QtyIn(m, id))
  }

  /** A consistent stream accounts for every order: what entered, as modified, is what traded, what
      was cancelled and what is left. */
  lemma {:induction false} LedgerBalances(m: Picture, mds: seq<MdUpdate>, id: OrderId)
    requires AllExpected(m, mds)
    ensures var l := LedgerOf(m, mds, id);
            QtyIn(m, id) + l.entered + l.modified == l.traded + l.cancelled + QtyIn(Fold(m, mds), id)
    decreases |mds|
  {
    if mds != [] {
      LedgerBalances(Heard(m, mds[0]), mds[1..], id);
    }
  }
}
