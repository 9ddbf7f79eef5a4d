/** What one matching pass does to the passive queue, the incoming order and the outputs. */
module Matching {
  import opened ExchangeTypes
  import opened PriceTime
  import opened BookInvariant

  // ---- The shape of a pass ----

  /** What happens to a passive order that is removed. */
  function Consumed(inc: OrderRequest, r: Resting): Event {
    if r.trader == inc.traderId then SelfCancel(r) else Fill(r, r.qty)
  }

  predicate Stops(s: Side, inc: OrderRequest, rem: Quantity, q: seq<Resting>) {
    rem == 0 || q == [] || !Tradable(s, inc.price, q[0].price)
  }

  /** The pass removed exactly the first k orders, and at most nibbled the next one. */
  ghost predicate Shape(inc: OrderRequest, q: seq<Resting>, w: Walked, k: nat) {
    && k <= |q|
    && (|w.events| == k || |w.events| == k + 1)
    && (forall i :: 0 <= i < k ==> w.events[i] == Consumed(inc, q[i]))
    && (|w.events| == k ==> w.side.queue == q[k..])
    && (|w.events| == k + 1 ==>
          && k < |q| && q[k].trader != inc.traderId && w.rem == 0
          && w.events[k].Fill? && w.events[k].passive == q[k] && 0 < w.events[k].qty < q[k].qty
          && w.side.queue == [q[k].(qty := q[k].qty - w.events[k].qty)] + q[k + 1..])
  }

  /** The surviving passive side is a suffix of the old queue with at most its head reduced; matching
      stops only when the order is filled, the side is empty, or the best price is out of reach. */
  lemma {:induction false} WalkShape(s: Side, inc: OrderRequest, rem: Quantity, sb: SideBook) returns (k: nat)
    ensures Shape(inc, sb.queue, Walk(s, inc, rem, sb), k)
    ensures Stops(s, inc, Walk(s, inc, rem, sb).rem, Walk(s, inc, rem, sb).side.queue)
    ensures |Walk(s, inc, rem, sb).events| <= |sb.queue|
    ensures forall i :: 0 <= i < |Walk(s, inc, rem, sb).events| ==> Tradable(s, inc.price, sb.queue[i].price)
    decreases |sb.queue|
  {
    hide Settle, At, Shape;
    var q := sb.queue;
    var w := Walk(s, inc, rem, sb);
    if Stops(s, inc, rem, q) {
      ShapeNone(inc, q, w);
      return 0;
    }
    var h := q[0];
    if h.trader != inc.traderId && rem < h.qty {
      ShapeNibble(inc, q, w);
      return 0;
    }
    var leak := if h.trader == inc.traderId then 0 else h.qty;
    var rem' := if h.trader == inc.traderId then rem else rem - h.qty;
    HeadDropped(sb, leak);
    var k' := WalkShape(s, inc, rem', DropHead(sb, leak));
    var w' := Walk(s, inc, rem', DropHead(sb, leak));
    k := k' + 1;
    ShapeCons(inc, q, w', k');
    forall i | 0 < i < |w.events|
      ensures Tradable(s, inc.price, q[i].price)
    {
      assert q[i] == q[1..][i - 1];
    }
  }

  lemma ShapeNone(inc: OrderRequest, q: seq<Resting>, w: Walked)
    requires w.events == [] && w.side.queue == q
    ensures Shape(inc, q, w, 0)
  {
    assert q[0..] == q;
  }

  lemma ShapeNibble(inc: OrderRequest, q: seq<Resting>, w: Walked)
    requires q != [] && |w.events| == 1 && w.rem == 0 && q[0].trader != inc.traderId
    requires w.events[0].Fill? && w.events[0].passive == q[0] && 0 < w.events[0].qty < q[0].qty
    requires w.side.queue == [q[0].(qty := q[0].qty - w.events[0].qty)] + q[1..]
    ensures Shape(inc, q, w, 0)
  {
  }

  lemma ShapeCons(inc: OrderRequest, q: seq<Resting>, w: Walked, k: nat)
    requires q != [] && Shape(inc, q[1..], w, k)
    ensures Shape(inc, q, w.(events := [Consumed(inc, q[0])] + w.events), k + 1)
  {
    hide Consumed;
    var evs := [Consumed(inc, q[0])] + w.events;
    forall i | 0 <= i < k + 1
      ensures evs[i] == Consumed(inc, q[i])
    {
      if i > 0 {
        assert evs[i] == w.events[i - 1] && q[i] == q[1..][i - 1];
      }
    }
    assert q[1..][k..] == q[k + 1..];
    if |w.events| == k + 1 {
      assert q[1..][k + 1..] == q[k + 2..];
      assert evs[k + 1] == w.events[k];
    }
  }

  lemma HeadDropped(sb: SideBook, leak: int)
    requires sb.queue != []
    ensures DropHead(sb, leak).queue == sb.queue[1..]
  {
  }

  /** Every confirmation beyond the acknowledgement is paid for: at most two per removed order, plus two. */
  lemma ConfirmBound(s: Side, inc: OrderRequest, rem: Quantity, sb: SideBook, sym: SymbolId)
    ensures var w := Walk(s, inc, rem, sb);
            |Confirms(sym, inc, w.events)| <= 2 * (|sb.queue| - |w.side.queue|) + 2
  {
    hide Walk;
    var w := Walk(s, inc, rem, sb);
    var k := WalkShape(s, inc, rem, sb);
    AtMostTwoEach(sym, inc, w.events);
  }

  lemma {:induction false} AtMostTwoEach(sym: SymbolId, inc: OrderRequest, evs: seq<Event>)
    ensures |Confirms(sym, inc, evs)| <= 2 * |evs|
  {
    if evs != [] {
      AtMostTwoEach(sym, inc, evs[1..]);
    }
  }

  // ---- Quantities ----

  function Filled(evs: seq<Event>): nat {
    if evs == [] then 0
    else (if evs[0].Fill? then evs[0].qty else 0) + Filled(evs[1..])
  }

  function SelfCancelled(evs: seq<Event>): nat {
    if evs == [] then 0
    else (if evs[0].SelfCancel? then evs[0].passive.qty else 0) + SelfCancelled(evs[1..])
  }

  /** All the quantity an incoming order may trade with. */
  function Available(s: Side, inc: OrderRequest, q: seq<Resting>): nat {
    if q == [] then 0
    else
      var within := if s.Sell? then q[0].price <= inc.price else q[0].price >= inc.price;
      (if within && q[0].trader != inc.traderId then q[0].qty else 0) + Available(s, inc, q[1..])
  }

  lemma FilledCons(e: Event, evs: seq<Event>)
    ensures Filled([e] + evs) == (if e.Fill? then e.qty else 0) + Filled(evs)
    ensures SelfCancelled([e] + evs) == (if e.SelfCancel? then e.passive.qty else 0) + SelfCancelled(evs)
  {
    assert ([e] + evs)[1..] == evs;
  }

  /** Nothing is lost: the incoming quantity splits into fills and remainder, and the passive
      quantity into what is left, what traded and what was self-trade-cancelled. */
  lemma {:induction false} WalkConserves(s: Side, inc: OrderRequest, rem: Quantity, sb: SideBook)
    ensures var w := Walk(s, inc, rem, sb);
            && rem == Filled(w.events) + w.rem
            && SumQty(sb.queue) == SumQty(w.side.queue) + Filled(w.events) + SelfCancelled(w.events)
    decreases |sb.queue|
  {
    hide Settle, At;
    if !Stops(s, inc, rem, sb.queue) {
      var h := sb.queue[0];
      if h.trader == inc.traderId {
        HeadDropped(sb, 0);
        WalkConserves(s, inc, rem, DropHead(sb, 0));
        FilledCons(SelfCancel(h), Walk(s, inc, rem, DropHead(sb, 0)).events);
      } else if h.qty <= rem {
        HeadDropped(sb, h.qty);
        WalkConserves(s, inc, rem - h.qty, DropHead(sb, h.qty));
        FilledCons(Fill(h, h.qty), Walk(s, inc, rem - h.qty, DropHead(sb, h.qty)).events);
      } else {
        var h' := h.(qty := h.qty - rem);
        assert ([h'] + sb.queue[1..])[1..] == sb.queue[1..];
        FilledCons(Fill(h, rem), []);
      }
    }
  }

  lemma {:induction false} NothingAvailable(s: Side, inc: OrderRequest, q: seq<Resting>)
    requires forall i :: 0 <= i < |q| ==> !Tradable(s, inc.price, q[i].price)
    ensures Available(s, inc, q) == 0
  {
    if q != [] {
      NothingAvailable(s, inc, q[1..]);
    }
  }

  lemma BeyondReach(s: Side, inc: OrderRequest, q: seq<Resting>)
    requires Sorted(s, q) && q != [] && !Tradable(s, inc.price, q[0].price)
    ensures Available(s, inc, q) == 0
  {
    assert forall i :: 0 < i < |q| ==> Before(s, q[0], q[i]);
    NothingAvailable(s, inc, q);
  }

  /** Matching trades as much as price and self-trade prevention allow, never less: the executed
      quantity is the smaller of the order and everything it could reach. */
  lemma {:induction false} ExecutesAllAvailable(s: Side, inc: OrderRequest, rem: Quantity, sb: SideBook)
    requires Sorted(s, sb.queue)
    ensures Filled(Walk(s, inc, rem, sb).events)
         == if rem <= Available(s, inc, sb.queue) then rem else Available(s, inc, sb.queue)
    decreases |sb.queue|
  {
    hide Settle, At;
    var q := sb.queue;
    if Stops(s, inc, rem, q) {
      if q != [] && !Tradable(s, inc.price, q[0].price) {
        BeyondReach(s, inc, q);
      }
    } else {
      var h := q[0];
      if h.trader == inc.traderId {
        HeadDropped(sb, 0);
        ExecutesAllAvailable(s, inc, rem, DropHead(sb, 0));
        FilledCons(SelfCancel(h), Walk(s, inc, rem, DropHead(sb, 0)).events);
      } else if h.qty <= rem {
        HeadDropped(sb, h.qty);
        ExecutesAllAvailable(s, inc, rem - h.qty, DropHead(sb, h.qty));
        FilledCons(Fill(h, h.qty), Walk(s, inc, rem - h.qty, DropHead(sb, h.qty)).events);
      } else {
        FilledCons(Fill(h, rem), []);
      }
    }
  }

  // ---- The trade stream ----

  function Trades(cs: seq<OrderConfirm>): seq<OrderConfirm> {
    if cs == [] then []
    else (if cs[0].kind.Trade? then [cs[0]] else []) + Trades(cs[1..])
  }

  lemma {:induction false} TradesConcat(a: seq<OrderConfirm>, b: seq<OrderConfirm>)
    ensures Trades(a + b) == Trades(a) + Trades(b)
  {
    if a == [] {
      assert a + b == b;
    } else {
      assert (a + b)[0] == a[0] && (a + b)[1..] == a[1..] + b;
      TradesConcat(a[1..], b);
      var h := if a[0].kind.Trade? then [a[0]] else [];
      assert h + (Trades(a[1..]) + Trades(b)) == (h + Trades(a[1..])) + Trades(b);
    }
  }

  /** Two confirmations for one execution, at the price of an order that rested in q and is within the
      limit: that order's, then the aggressor's. */
  ghost predicate Paired(s: Side, inc: OrderRequest, q: seq<Resting>, passive: OrderConfirm, aggressor: OrderConfirm) {
    && (exists r :: r in q && r.id == passive.orderId && r.trader == passive.traderId && r.price == passive.price
                    && passive.qty <= r.qty)
    && passive.price == aggressor.price && passive.qty == aggressor.qty
    && passive.traderId != inc.traderId && aggressor.traderId == inc.traderId
    && aggressor.orderId == inc.orderId && aggressor.clientOrderId == inc.clientOrderId
    && if s.Sell? then passive.price <= inc.price else passive.price >= inc.price
  }

  ghost predicate SoundTrades(s: Side, inc: OrderRequest, q: seq<Resting>, t: seq<OrderConfirm>) {
    && |t| % 2 == 0
    && (forall i :: 0 <= i < |t| / 2 ==> Paired(s, inc, q, t[2 * i], t[2 * i + 1]))
    && (forall i, j :: 0 <= i < j < |t| / 2 ==> !Better(s, t[2 * j].price, t[2 * i].price))
  }

  lemma ConfirmsCons(sym: SymbolId, inc: OrderRequest, e: Event, evs: seq<Event>)
    ensures Confirms(sym, inc, [e] + evs) == EventConfirms(sym, inc, e) + Confirms(sym, inc, evs)
  {
    assert ([e] + evs)[1..] == evs;
  }

  lemma EventTrades(sym: SymbolId, inc: OrderRequest, e: Event)
    ensures Trades(EventConfirms(sym, inc, e)) == if e.Fill? then EventConfirms(sym, inc, e) else []
  {
    if e.Fill? {
      var c := EventConfirms(sym, inc, e);
      assert c == [c[0]] + [c[1]];
      TradesConcat([c[0]], [c[1]]);
    }
  }

  /** Behind a longer queue the trades are still sound. */
  lemma SoundBehind(s: Side, inc: OrderRequest, q: seq<Resting>, q': seq<Resting>, t: seq<OrderConfirm>)
    requires SoundTrades(s, inc, q, t) && forall r :: r in q ==> r in q'
    ensures SoundTrades(s, inc, q', t)
  {
    forall i | 0 <= i < |t| / 2
      ensures Paired(s, inc, q', t[2 * i], t[2 * i + 1])
    {
      assert Paired(s, inc, q, t[2 * i], t[2 * i + 1]);
    }
  }

  lemma SoundCons(s: Side, inc: OrderRequest, q: seq<Resting>, a: OrderConfirm, b: OrderConfirm, t: seq<OrderConfirm>)
    requires SoundTrades(s, inc, q, t) && Paired(s, inc, q, a, b)
    requires forall i :: 0 <= i < |t| / 2 ==> !Better(s, t[2 * i].price, a.price)
    ensures SoundTrades(s, inc, q, [a, b] + t)
  {
    hide Paired;
    var t' := [a, b] + t;
    assert t'[0] == a && t'[1] == b;
    forall i | 0 <= i < |t'| / 2
      ensures Paired(s, inc, q, t'[2 * i], t'[2 * i + 1])
    {
      if i > 0 {
        assert t'[2 * i] == t[2 * (i - 1)] && t'[2 * i + 1] == t[2 * (i - 1) + 1];
      }
    }
    forall i, j | 0 <= i < j < |t'| / 2
      ensures !Better(s, t'[2 * j].price, t'[2 * i].price)
    {
      assert t'[2 * j] == t[2 * (j - 1)];
      if i > 0 {
        assert t'[2 * i] == t[2 * (i - 1)];
      }
    }
  }

  /** Trades come in passive/aggressor pairs of different traders, equal quantity, both at the resting
      order's price, within the limit, at prices that never improve. */
  lemma {:induction false} WalkTrades(s: Side, inc: OrderRequest, rem: Quantity, sb: SideBook, sym: SymbolId)
    requires Sorted(s, sb.queue)
    ensures var t := Trades(Confirms(sym, inc, Walk(s, inc, rem, sb).events));
            && SoundTrades(s, inc, sb.queue, t)
            && (t != [] ==> sb.queue != [])
            && forall i :: 0 <= i < |t| / 2 ==> !Better(s, t[2 * i].price, sb.queue[0].price)
    decreases |sb.queue|
  {
    hide Settle, At, SoundTrades, EventConfirms, Paired;
    NoTrades(s, inc, sb.queue, sym);
    if !Stops(s, inc, rem, sb.queue) {
      var h := sb.queue[0];
      var full := h.trader == inc.traderId || h.qty <= rem;
      var e := if h.trader == inc.traderId then SelfCancel(h) else Fill(h, if full then h.qty else rem);
      var leak := if h.trader == inc.traderId then 0 else h.qty;
      var rem' := if !full then 0 else if h.trader == inc.traderId then rem else rem - h.qty;
      var sb' := if full then DropHead(sb, leak) else Shrink(sb, rem);
      var w' := Walk(s, inc, rem', sb');
      assert Walk(s, inc, rem, sb).events == [e] + w'.events;
      var t' := Trades(Confirms(sym, inc, w'.events));
      if full {
        HeadDropped(sb, leak);
        WalkTrades(s, inc, rem', sb', sym);
        SoundBehind(s, inc, sb'.queue, sb.queue, t');
      }
      WorseBehindHead(s, sb.queue, t', full);
      TradesStep(s, inc, sb.queue, sym, e, w'.events);
    }
  }

  lemma NoTrades(s: Side, inc: OrderRequest, q: seq<Resting>, sym: SymbolId)
    ensures Trades(Confirms(sym, inc, [])) == [] && SoundTrades(s, inc, q, [])
  {
  }

  /** The head's event in front of the trades behind it. */
  lemma TradesStep(s: Side, inc: OrderRequest, q: seq<Resting>, sym: SymbolId, e: Event, evs: seq<Event>)
    requires q != [] && e.passive == q[0]
    requires e.Fill? ==> e.qty <= q[0].qty && q[0].trader != inc.traderId && Tradable(s, inc.price, q[0].price)
    requires var t := Trades(Confirms(sym, inc, evs));
             SoundTrades(s, inc, q, t) && forall i :: 0 <= i < |t| / 2 ==> !Better(s, t[2 * i].price, q[0].price)
    ensures var t := Trades(Confirms(sym, inc, [e] + evs));
            SoundTrades(s, inc, q, t) && forall i :: 0 <= i < |t| / 2 ==> !Better(s, t[2 * i].price, q[0].price)
  {
    hide SoundTrades, Trades, Confirms;
    var t := Trades(Confirms(sym, inc, evs));
    ConfirmsCons(sym, inc, e, evs);
    TradesConcat(EventConfirms(sym, inc, e), Confirms(sym, inc, evs));
    EventTrades(sym, inc, e);
    if e.Fill? {
      var c := EventConfirms(sym, inc, e);
      assert q[0] in q && Paired(s, inc, q, c[0], c[1]);
      SoundCons(s, inc, q, c[0], c[1], t);
      HeadPrices(s, q[0].price, c[0], c[1], t);
      assert c == [c[0], c[1]];
    } else {
      assert [] + t == t;
    }
  }

  lemma WorseBehindHead(s: Side, q: seq<Resting>, t: seq<OrderConfirm>, full: bool)
    requires Sorted(s, q) && q != []
    requires full ==>
               && (t != [] ==> q[1..] != [])
               && forall i :: 0 <= i < |t| / 2 ==> !Better(s, t[2 * i].price, q[1..][0].price)
    requires !full ==> t == []
    ensures forall i :: 0 <= i < |t| / 2 ==> !Better(s, t[2 * i].price, q[0].price)
  {
    if |q| > 1 {
      assert q[1..][0] == q[1] && Before(s, q[0], q[1]);
    }
  }

  lemma HeadPrices(s: Side, p: Price, a: OrderConfirm, b: OrderConfirm, t: seq<OrderConfirm>)
    requires a.price == p
    requires forall i :: 0 <= i < |t| / 2 ==> !Better(s, t[2 * i].price, p)
    ensures var t' := [a, b] + t; forall i :: 0 <= i < |t'| / 2 ==> !Better(s, t'[2 * i].price, p)
  {
    var t' := [a, b] + t;
    forall i | 0 < i < |t'| / 2
      ensures t'[2 * i] == t[2 * (i - 1)]
    {
    }
  }

  // ---- New orders ----

  /** The trade stream of a new order is sound. */
  lemma AddTrades(b: Book, sym: SymbolId, req: OrderRequest)
    requires BookInv(b)
    ensures SoundTrades(req.side.Opposite(), req, b.On(req.side.Opposite()).queue, Trades(Add(b, sym, req).confirms))
  {
    hide Walk;
    WalkTrades(req.side.Opposite(), req, req.quantity, b.On(req.side.Opposite()), sym);
    var ack := OrderConfirm(NewAck, req.orderId, req.clientOrderId, req.traderId, sym, 0, 0, UnknownOrder);
    var rest := Confirms(sym, req, Matched(b, req).events);
    TradesConcat([ack], rest);
    assert Trades([ack]) == [];
    assert [] + Trades(rest) == Trades(rest);
  }

  function TradedBy(id: OrderId, t: seq<OrderConfirm>): nat {
    if t == [] then 0
    else (if t[0].kind.Trade? && t[0].orderId == id then t[0].qty else 0) + TradedBy(id, t[1..])
  }

  lemma {:induction false} TradedByConcat(id: OrderId, a: seq<OrderConfirm>, b: seq<OrderConfirm>)
    ensures TradedBy(id, a + b) == TradedBy(id, a) + TradedBy(id, b)
  {
    if a == [] {
      assert a + b == b;
    } else {
      assert (a + b)[1..] == a[1..] + b;
      TradedByConcat(id, a[1..], b);
    }
  }

  lemma {:induction false} AggressorTrades(sym: SymbolId, inc: OrderRequest, evs: seq<Event>)
    requires forall i :: 0 <= i < |evs| ==> evs[i].passive.id != inc.orderId
    ensures TradedBy(inc.orderId, Confirms(sym, inc, evs)) == Filled(evs)
  {
    if evs != [] {
      AggressorTrades(sym, inc, evs[1..]);
      var c := EventConfirms(sym, inc, evs[0]);
      TradedByConcat(inc.orderId, c, Confirms(sym, inc, evs[1..]));
      assert evs[0].passive.id != inc.orderId;
      if evs[0].Fill? {
        assert c == [c[0]] + [c[1]];
        TradedByConcat(inc.orderId, [c[0]], [c[1]]);
      }
    }
  }

  /** Quantity reported as cancelled by self-trade prevention. */
  function NoticedCancels(cs: seq<OrderConfirm>): nat {
    if cs == [] then 0
    else (if cs[0].kind.CancelAck? && cs[0].reason.SelfTrade? then cs[0].qty else 0) + NoticedCancels(cs[1..])
  }

  lemma {:induction false} NoticedConcat(a: seq<OrderConfirm>, b: seq<OrderConfirm>)
    ensures NoticedCancels(a + b) == NoticedCancels(a) + NoticedCancels(b)
  {
    if a == [] {
      assert a + b == b;
    } else {
      assert (a + b)[0] == a[0] && (a + b)[1..] == a[1..] + b;
      NoticedConcat(a[1..], b);
    }
  }

  lemma {:induction false} NoticedEvents(sym: SymbolId, inc: OrderRequest, evs: seq<Event>)
    ensures NoticedCancels(Confirms(sym, inc, evs)) == SelfCancelled(evs)
  {
    if evs != [] {
      NoticedEvents(sym, inc, evs[1..]);
      var c := EventConfirms(sym, inc, evs[0]);
      NoticedConcat(c, Confirms(sym, inc, evs[1..]));
      if evs[0].Fill? {
        assert c == [c[0]] + [c[1]];
        NoticedConcat([c[0]], [c[1]]);
      }
    }
  }

  /** Told from the confirmations alone: a new order's quantity is what it traded plus what rests, and
      the passive side lost exactly what the order traded plus what self-trade prevention cancelled. */
  lemma AddConserves(b: Book, sym: SymbolId, req: OrderRequest)
    requires BookInv(b) && req.orderId !in BookIds(b)
    ensures var o := Add(b, sym, req); var s := req.side.Opposite();
            && SumQty(o.book.On(req.side).queue) + TradedBy(req.orderId, o.confirms)
               == SumQty(b.On(req.side).queue) + req.quantity
            && SumQty(b.On(s).queue)
               == SumQty(o.book.On(s).queue) + TradedBy(req.orderId, o.confirms) + NoticedCancels(o.confirms)
  {
    hide Walk;
    var s := req.side.Opposite();
    var sb := b.On(s);
    var w := Matched(b, req);
    WalkConserves(s, req, req.quantity, sb);
    NotOwnEvents(b, req);
    AggressorTrades(sym, req, w.events);
    NoticedEvents(sym, req, w.events);
    var ack := OrderConfirm(NewAck, req.orderId, req.clientOrderId, req.traderId, sym, 0, 0, UnknownOrder);
    TradedByConcat(req.orderId, [ack], Confirms(sym, req, w.events));
    NoticedConcat([ack], Confirms(sym, req, w.events));
    if w.rem != 0 {
      var r := Resting(req.orderId, req.traderId, req.price, w.rem, w.rem, b.clock);
      EnqueueSum(req.side, b.On(req.side), r);
    }
  }

  lemma NotOwnEvents(b: Book, req: OrderRequest)
    requires req.orderId !in BookIds(b)
    ensures var evs := Matched(b, req).events; forall i :: 0 <= i < |evs| ==> evs[i].passive.id != req.orderId
  {
    hide Walk;
    var sb := b.On(req.side.Opposite());
    var k := WalkShape(req.side.Opposite(), req, req.quantity, sb);
    forall i | 0 <= i < |Matched(b, req).events|
      ensures Matched(b, req).events[i].passive.id != req.orderId
    {
      assert Matched(b, req).events[i].passive == sb.queue[i] && sb.queue[i] in sb.queue;
    }
  }

  lemma EnqueueSum(s: Side, sb: SideBook, r: Resting)
    ensures SumQty(Enqueue(s, sb, r).queue) == SumQty(sb.queue) + r.qty
  {
    var k := Slot(s, sb.queue, r.price);
    assert sb.queue == sb.queue[..k] + sb.queue[k..];
    SumConcat(sb.queue[..k], sb.queue[k..]);
    SumConcat(sb.queue[..k] + [r], sb.queue[k..]);
    SumConcat(sb.queue[..k], [r]);
    assert SumQty([r]) == r.qty;
  }

  // ---- Order by order ----

  /** Quantity of one order reported as cancelled by self-trade prevention. */
  function NoticedBy(id: OrderId, cs: seq<OrderConfirm>): nat {
    if cs == [] then 0
    else (if cs[0].kind.CancelAck? && cs[0].reason.SelfTrade? && cs[0].orderId == id then cs[0].qty else 0)
         + NoticedBy(id, cs[1..])
  }

  lemma {:induction false} NoticedByConcat(id: OrderId, a: seq<OrderConfirm>, b: seq<OrderConfirm>)
    ensures NoticedBy(id, a + b) == NoticedBy(id, a) + NoticedBy(id, b)
  {
    if a == [] {
      assert a + b == b;
    } else {
      assert (a + b)[0] == a[0] && (a + b)[1..] == a[1..] + b;
      NoticedByConcat(id, a[1..], b);
    }
  }

  lemma EventAccount(sym: SymbolId, inc: OrderRequest, e: Event, id: OrderId)
    requires id != inc.orderId
    ensures TradedBy(id, EventConfirms(sym, inc, e)) == if e.Fill? && e.passive.id == id then e.qty else 0
    ensures NoticedBy(id, EventConfirms(sym, inc, e))
         == if e.SelfCancel? && e.passive.id == id then e.passive.qty else 0
  {
    var c := EventConfirms(sym, inc, e);
    if e.Fill? {
      assert c == [c[0]] + [c[1]];
      TradedByConcat(id, [c[0]], [c[1]]);
      NoticedByConcat(id, [c[0]], [c[1]]);
    }
  }

  lemma {:induction false} NotInvolved(sym: SymbolId, inc: OrderRequest, evs: seq<Event>, id: OrderId)
    requires id != inc.orderId && forall i :: 0 <= i < |evs| ==> evs[i].passive.id != id
    ensures TradedBy(id, Confirms(sym, inc, evs)) == 0 && NoticedBy(id, Confirms(sym, inc, evs)) == 0
  {
    hide EventConfirms;
    if evs != [] {
      NotInvolved(sym, inc, evs[1..], id);
      EventAccount(sym, inc, evs[0], id);
      TradedByConcat(id, EventConfirms(sym, inc, evs[0]), Confirms(sym, inc, evs[1..]));
      NoticedByConcat(id, EventConfirms(sym, inc, evs[0]), Confirms(sym, inc, evs[1..]));
    }
  }

  /** The confirmations naming the order of event i report exactly that event. */
  lemma {:induction false} AccountOf(sym: SymbolId, inc: OrderRequest, evs: seq<Event>, i: nat)
    requires i < |evs| && evs[i].passive.id != inc.orderId
    requires forall j :: 0 <= j < |evs| && j != i ==> evs[j].passive.id != evs[i].passive.id
    ensures var id := evs[i].passive.id;
            && TradedBy(id, Confirms(sym, inc, evs)) == (if evs[i].Fill? then evs[i].qty else 0)
            && NoticedBy(id, Confirms(sym, inc, evs)) == (if evs[i].SelfCancel? then evs[i].passive.qty else 0)
  {
    hide EventConfirms;
    var id := evs[i].passive.id;
    EventAccount(sym, inc, evs[0], id);
    TradedByConcat(id, EventConfirms(sym, inc, evs[0]), Confirms(sym, inc, evs[1..]));
    NoticedByConcat(id, EventConfirms(sym, inc, evs[0]), Confirms(sym, inc, evs[1..]));
    if i == 0 {
      NotInvolved(sym, inc, evs[1..], id);
    } else {
      AccountOf(sym, inc, evs[1..], i - 1);
    }
  }

  /** What is left of an order on a side. */
  function LiveQty(q: seq<Resting>, id: OrderId): nat {
    if Index(q, id) < |q| then q[Index(q, id)].qty else 0
  }

  lemma LiveAt(q: seq<Resting>, i: nat)
    requires Unique(q) && i < |q|
    ensures LiveQty(q, q[i].id) == q[i].qty
  {
    assert Index(q, q[i].id) == i;
  }

  lemma LiveGone(q: seq<Resting>, id: OrderId)
    requires forall i :: 0 <= i < |q| ==> q[i].id != id
    ensures LiveQty(q, id) == 0
  {
  }

  /** What survives is found at its old position, shifted. */
  lemma ShapeIds(inc: OrderRequest, q: seq<Resting>, w: Walked, k: nat)
    requires Shape(inc, q, w, k) && Unique(q)
    ensures |w.side.queue| == |q| - k && Unique(w.side.queue) && k <= |w.events| <= k + 1
    ensures forall j | 0 <= j < |q| - k :: w.side.queue[j].id == q[k + j].id
    ensures forall j | 0 <= j < |q| - k :: k + j >= |w.events| ==> w.side.queue[j] == q[k + j]
  {
  }

  lemma LiveAfterWalk(s: Side, inc: OrderRequest, rem: Quantity, sb: SideBook, i: nat)
    requires Unique(sb.queue) && i < |sb.queue|
    ensures var w := Walk(s, inc, rem, sb);
            LiveQty(w.side.queue, sb.queue[i].id)
            == if i < |w.events| then
                 (if w.events[i].Fill? && w.events[i].passive == sb.queue[i] then
                    (if w.events[i].qty <= sb.queue[i].qty then sb.queue[i].qty - w.events[i].qty else 0)
                  else 0)
               else sb.queue[i].qty
  {
    hide Walk, LiveQty, Shape;
    var w, q := Walk(s, inc, rem, sb), sb.queue;
    var k := WalkShape(s, inc, rem, sb);
    ShapeIds(inc, q, w, k);
    if i < k {
      LiveGone(w.side.queue, q[i].id);
      EventAt(inc, q, w, k, i);
    } else {
      assert w.side.queue[i - k].id == q[i].id;
      LiveAt(w.side.queue, i - k);
      if i < |w.events| {
        EventAt(inc, q, w, k, i);
      }
    }
  }

  lemma EventAt(inc: OrderRequest, q: seq<Resting>, w: Walked, k: nat, i: nat)
    requires Shape(inc, q, w, k) && i < |w.events|
    ensures i < |q| && |w.events| <= k + 1
    ensures i < k ==> w.events[i] == Consumed(inc, q[i])
    ensures i == k ==>
              && w.events[i].Fill? && w.events[i].passive == q[i] && w.events[i].qty < q[i].qty
              && |w.side.queue| > 0 && w.side.queue[0].qty == q[i].qty - w.events[i].qty
  {
  }

  /** Every passive order is fully accounted for by the confirmations that name it: what it traded, what
      self-trade prevention cancelled, and what still rests make up what it had. The incoming trader's own orders
      never trade, and nobody else's are cancelled. */
  lemma EveryOrderAccounted(b: Book, sym: SymbolId, req: OrderRequest, i: nat)
    requires BookInv(b) && req.orderId !in BookIds(b) && i < |b.On(req.side.Opposite()).queue|
    ensures var o := Add(b, sym, req); var s := req.side.Opposite(); var r := b.On(s).queue[i];
            && TradedBy(r.id, o.confirms) + NoticedBy(r.id, o.confirms) + LiveQty(o.book.On(s).queue, r.id) == r.qty
            && (r.trader == req.traderId ==> TradedBy(r.id, o.confirms) == 0)
            && (r.trader != req.traderId ==> NoticedBy(r.id, o.confirms) == 0)
  {
    hide Walk, LiveQty, Sorted, Sound, Anchored, Confirms;
    var s := req.side.Opposite();
    var sb := b.On(s);
    var r, w := sb.queue[i], Matched(b, req);
    var evs := w.events;
    var k := WalkShape(s, req, req.quantity, sb);
    assert r in sb.queue && r.id in BookIds(b);
    LiveAfterWalk(s, req, req.quantity, sb, i);
    assert forall j :: 0 <= j < |evs| ==> evs[j].passive == sb.queue[j];
    if i < |evs| {
      AccountOf(sym, req, evs, i);
    } else {
      NotInvolved(sym, req, evs, r.id);
    }
    var ack := OrderConfirm(NewAck, req.orderId, req.clientOrderId, req.traderId, sym, 0, 0, UnknownOrder);
    TradedByConcat(r.id, [ack], Confirms(sym, req, evs));
    NoticedByConcat(r.id, [ack], Confirms(sym, req, evs));
  }

  // ---- Who is told ----

  /** The confirmation goes to the owner of the order it names. */
  ghost predicate ToOwner(c: OrderConfirm, req: OrderRequest, q: seq<Resting>) {
    || (c.orderId == req.orderId && c.traderId == req.traderId && c.clientOrderId == req.clientOrderId)
    || (exists r :: r in q && c.orderId == r.id && c.traderId == r.trader)
  }

  lemma {:induction false} EventsToOwners(sym: SymbolId, req: OrderRequest, evs: seq<Event>, q: seq<Resting>)
    requires forall i :: 0 <= i < |evs| ==> evs[i].passive in q
    ensures forall c | c in Confirms(sym, req, evs) :: ToOwner(c, req, q)
  {
    hide ToOwner;
    if evs != [] {
      EventsToOwners(sym, req, evs[1..], q);
      forall c | c in EventConfirms(sym, req, evs[0])
        ensures ToOwner(c, req, q)
      {
        OneToOwner(sym, req, evs[0], q, c);
      }
    }
  }

  lemma OneToOwner(sym: SymbolId, req: OrderRequest, e: Event, q: seq<Resting>, c: OrderConfirm)
    requires e.passive in q && c in EventConfirms(sym, req, e)
    ensures ToOwner(c, req, q)
  {
    assert c == EventConfirms(sym, req, e)[0] || c == EventConfirms(sym, req, e)[|EventConfirms(sym, req, e)| - 1];
  }

  /** Every confirmation of a new order goes to the owner of the order it names. */
  lemma AddTellsOwners(b: Book, sym: SymbolId, req: OrderRequest)
    ensures forall c | c in Add(b, sym, req).confirms :: ToOwner(c, req, b.On(req.side.Opposite()).queue)
  {
    hide Walk, Confirms;
    var sb := b.On(req.side.Opposite());
    var k := WalkShape(req.side.Opposite(), req, req.quantity, sb);
    var evs := Matched(b, req).events;
    assert forall j :: 0 <= j < |evs| ==> evs[j].passive == sb.queue[j];
    EventsToOwners(sym, req, evs, sb.queue);
  }
}
