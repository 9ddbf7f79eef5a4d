/** The order book on the heap: price levels, their FIFO lists, and the two id indexes. */
module OrderBooks {
  import opened ExchangeTypes
  import opened PriceTime
  import opened BookInvariant
  import opened LevelFacts

  class BookElement {
    const id: OrderId
    const traderId: TraderId
    var quantity: Quantity

    constructor (id: OrderId, traderId: TraderId, quantity: Quantity)
      ensures this.id == id && this.traderId == traderId && this.quantity == quantity
    {
      this.id, this.traderId, this.quantity := id, traderId, quantity;
    }
  }

  /** Where std::find stops: the first occurrence, or the end. */
  function Position(s: seq<BookElement>, e: BookElement): (k: nat)
    ensures k <= |s|
    ensures forall i :: 0 <= i < k ==> s[i] != e
    ensures k < |s| ==> s[k] == e
  {
    if s == [] || s[0] == e then 0 else 1 + Position(s[1..], e)
  }

  class PriceLevel {
    const price: Price
    var totalQty: Quantity
    var orders: seq<BookElement>

    constructor (price: Price)
      ensures this.price == price && totalQty == 0 && orders == []
    {
      this.price, totalQty, orders := price, 0, [];
    }

    /** Joins the back of the queue. */
    method AddOrder(order: BookElement)
      modifies this
      ensures orders == old(orders) + [order]
      ensures totalQty == Wrap32(old(totalQty) + order.quantity)
    {
      orders := orders + [order];
      totalQty := Wrap32(totalQty + order.quantity);
    }

    /** Leaves the queue; the total drops by the order's current quantity. */
    method RemoveOrder(order: BookElement)
      modifies this
      ensures var k := Position(old(orders), order);
              if k < |old(orders)| then
                && orders == old(orders)[..k] + old(orders)[k + 1..]
                && totalQty == Wrap32(old(totalQty) - order.quantity)
              else orders == old(orders) && totalQty == old(totalQty)
    {
      var k := 0;
      while k < |orders| && orders[k] != order
        invariant k <= |orders|
        invariant forall i :: 0 <= i < k ==> orders[i] != order
      {
        k := k + 1;
      }
      assert k == Position(orders, order);
      if k < |orders| {
        totalQty := Wrap32(totalQty - orders[k].quantity);
        orders := orders[..k] + orders[k + 1..];
      }
    }

    method ReduceQty(amt: Quantity)
      modifies this
      ensures orders == old(orders) && totalQty == Wrap32(old(totalQty) - amt)
    {
      totalQty := Wrap32(totalQty - amt);
    }
  }

  datatype OrderDetails = OrderDetails(side: Side, price: Price, quantity: Quantity)

  type Ladder = map<Price, PriceLevel>
  type ElementIndex = map<OrderId, BookElement>

  // ---- Representation ----

  /** A list of elements stands for a list of resting orders, through the id index. */
  ghost predicate Linked(orders: seq<BookElement>, rs: seq<Resting>, om: ElementIndex) {
    && |orders| == |rs|
    && forall j :: 0 <= j < |rs| ==> rs[j].id in om && orders[j] == om[rs[j].id]
  }

  /** A level's list and cached total are those of its price in the flat view. */
  ghost predicate Fits(p: Price, orders: seq<BookElement>, total: Quantity, sb: SideBook, om: ElementIndex) {
    && Linked(orders, At(sb.queue, p), om)
    && (orders != [] ==> total == LevelTotal(sb, p))
  }

  ghost predicate LadderOk(levels: Ladder, sb: SideBook, om: ElementIndex)
    reads levels.Values
  {
    && (forall r | r in sb.queue :: r.price in levels)
    && (forall p | p in levels :: levels[p].price == p && Fits(p, levels[p].orders, levels[p].totalQty, sb, om))
  }

  /** No empty level, except possibly the one being consumed. */
  ghost predicate NoEmpty(levels: Ladder, sb: SideBook, hole: Option<Price>) {
    forall p | p in levels :: At(sb.queue, p) != [] || hole == Some(p)
  }

  ghost predicate IndexedAt(s: Side, r: Resting, om: ElementIndex, od: map<OrderId, OrderDetails>)
    reads om.Values
  {
    && r.id in om && om[r.id].traderId == r.trader && om[r.id].quantity == r.qty
    && r.id in od && od[r.id] == OrderDetails(s, r.price, r.recorded)
  }

  /** Both indexes describe every queued order, except those in flux. */
  ghost predicate Indexed(s: Side, sb: SideBook, om: ElementIndex, od: map<OrderId, OrderDetails>, flux: set<OrderId>)
    reads om.Values
  {
    forall r | r in sb.queue && r.id !in flux :: IndexedAt(s, r, om, od)
  }

  ghost predicate Keyed(om: ElementIndex) {
    forall id | id in om :: om[id].id == id
  }

  // ---- Facts about the representation ----

  lemma LadderReindex(levels: Ladder, sb: SideBook, om: ElementIndex, om': ElementIndex)
    requires LadderOk(levels, sb, om)
    requires forall r | r in sb.queue :: r.id in om && r.id in om' && om[r.id] == om'[r.id]
    ensures LadderOk(levels, sb, om')
  {
    forall p | p in levels
      ensures Linked(levels[p].orders, At(sb.queue, p), om')
    {
      var rs := At(sb.queue, p);
      forall j | 0 <= j < |rs|
        ensures rs[j].id in om' && levels[p].orders[j] == om'[rs[j].id]
      {
        AtMember(sb.queue, p, rs[j]);
      }
    }
  }

  lemma SideExtended(s: Side, levels: Ladder, sb: SideBook, om: ElementIndex, od: map<OrderId, OrderDetails>,
                     om': ElementIndex, od': map<OrderId, OrderDetails>, id: OrderId)
    requires LadderOk(levels, sb, om) && Indexed(s, sb, om, od, {})
    requires id !in om && id !in od && id in om' && om' == om[id := om'[id]] && id in od' && od' == od[id := od'[id]]
    ensures LadderOk(levels, sb, om') && Indexed(s, sb, om', od', {})
  {
    hide LadderOk;
    assert forall r | r in sb.queue :: IndexedAt(s, r, om, od);
    LadderReindex(levels, sb, om, om');
  }

  lemma LinkedSameIds(orders: seq<BookElement>, a: seq<Resting>, b: seq<Resting>, om: ElementIndex)
    requires Linked(orders, a, om) && SameIds(a, b)
    ensures Linked(orders, b, om)
  {
  }

  lemma LinkedLength(orders: seq<BookElement>, rs: seq<Resting>, om: ElementIndex)
    requires Linked(orders, rs, om)
    ensures |orders| == |rs|
  {
  }

  lemma LinkedPosition(orders: seq<BookElement>, rs: seq<Resting>, k: nat, om: ElementIndex)
    requires Keyed(om) && Linked(orders, rs, om) && k < |rs|
    requires forall i :: 0 <= i < k ==> rs[i].id != rs[k].id
    ensures rs[k].id in om && Position(orders, om[rs[k].id]) == k
  {
    assert forall i :: 0 <= i < k ==> orders[i].id == rs[i].id;
  }

  lemma LinkedDrop(orders: seq<BookElement>, rs: seq<Resting>, k: nat, om: ElementIndex)
    requires Linked(orders, rs, om) && k < |rs|
    ensures Linked(orders[..k] + orders[k + 1..], rs[..k] + rs[k + 1..], om)
  {
  }

  /** std::find lands on the order's own place in its level. */
  lemma LinkedRemoval(orders: seq<BookElement>, sb: SideBook, k: nat, leak: int, om: ElementIndex)
    requires k < |sb.queue| && Unique(sb.queue) && Keyed(om)
    requires Linked(orders, At(sb.queue, sb.queue[k].price), om)
    ensures sb.queue[k].id in om
    ensures var i := Position(orders, om[sb.queue[k].id]);
            i < |orders| && Linked(orders[..i] + orders[i + 1..], At(Gone(sb, k, leak).queue, sb.queue[k].price), om)
  {
    hide At, Gone, Linked, Position;
    var q, r := sb.queue, sb.queue[k];
    var a, b := At(q[..k], r.price), At(q[k + 1..], r.price);
    GoneOrders(sb, k, leak, r.price);
    var rs := a + [r] + b;
    forall i | 0 <= i < |a|
      ensures rs[i].id != r.id
    {
      assert rs[i] == a[i];
      AtMember(q[..k], r.price, a[i]);
    }
    assert rs[..|a|] + rs[|a| + 1..] == a + b;
    LinkedPosition(orders, rs, |a|, om);
    LinkedDrop(orders, rs, |a|, om);
    LinkedLength(orders, rs, om);
  }

  /** The best key of a ladder is the head of the queue. */
  lemma HeadIsBest(s: Side, levels: Ladder, sb: SideBook, om: ElementIndex, p: Price)
    requires Sorted(s, sb.queue) && LadderOk(levels, sb, om)
    requires p in levels && (forall k | k in levels :: !Better(s, k, p))
    requires At(sb.queue, p) != []
    ensures sb.queue != [] && sb.queue[0].price == p
    ensures At(sb.queue, p) == [sb.queue[0]] + At(sb.queue[1..], p)
  {
    var r := At(sb.queue, p)[0];
    AtMember(sb.queue, p, r);
    assert sb.queue[0] in sb.queue;
  }

  lemma SomeBest(s: Side, levels: Ladder, sb: SideBook, om: ElementIndex)
    requires Sorted(s, sb.queue) && LadderOk(levels, sb, om) && NoEmpty(levels, sb, None)
    ensures |levels| == 0 <==> sb.queue == []
    ensures sb.queue != [] ==>
              sb.queue[0].price in levels && forall k | k in levels :: !Better(s, k, sb.queue[0].price)
  {
    forall k | k in levels
      ensures sb.queue != [] && !Better(s, k, sb.queue[0].price)
    {
      var r := At(sb.queue, k)[0];
      AtMember(sb.queue, k, r);
    }
    if sb.queue != [] {
      assert sb.queue[0] in sb.queue;
      assert sb.queue[0].price in levels;
    }
    if |levels| != 0 {
      var k :| k in levels.Keys;
      assert k in levels;
    }
  }

  // ---- One level changes, the rest of the ladder does not ----

  lemma FitsAfterGone(orders: seq<BookElement>, total: Quantity, sb: SideBook, k: nat, leak: int, om: ElementIndex)
    requires k < |sb.queue| && Unique(sb.queue) && Keyed(om)
    requires Fits(sb.queue[k].price, orders, total, sb, om)
    ensures sb.queue[k].id in om
    ensures var i := Position(orders, om[sb.queue[k].id]);
            && i < |orders|
            && Fits(sb.queue[k].price, orders[..i] + orders[i + 1..], Wrap32(total - (sb.queue[k].qty - leak)),
                    Gone(sb, k, leak), om)
  {
    hide At, Gone, LevelTotal, Position;
    LinkedRemoval(orders, sb, k, leak, om);
    GoneTotal(sb, k, leak, sb.queue[k].price);
  }

  lemma FitsOtherGone(p: Price, orders: seq<BookElement>, total: Quantity,
                      sb: SideBook, k: nat, leak: int, om: ElementIndex)
    requires k < |sb.queue| && p != sb.queue[k].price && Fits(p, orders, total, sb, om)
    ensures Fits(p, orders, total, Gone(sb, k, leak), om)
  {
    hide At, Gone, LevelTotal, Linked;
    GoneOrders(sb, k, leak, p);
    GoneTotal(sb, k, leak, p);
    assert At(sb.queue[..k], p) + [] == At(sb.queue[..k], p);
  }

  lemma FitsAfterEnqueue(orders: seq<BookElement>, total: Quantity, s: Side, sb: SideBook, r: Resting, om: ElementIndex)
    requires Sorted(s, sb.queue) && Anchored(sb) && r.id in om
    requires Fits(r.price, orders, total, sb, om) && (orders == [] ==> total == 0)
    ensures Fits(r.price, orders + [om[r.id]], Wrap32(total + r.qty), Enqueue(s, sb, r), om)
  {
    hide At, Enqueue, LevelTotal, Anchored;
    AtEnqueue(s, sb, r, r.price);
    EnqueuedTotal(s, sb, r, r.price);
    if orders == [] {
      NoLevel(sb, r.price);
    }
  }

  lemma FitsOtherEnqueue(p: Price, orders: seq<BookElement>, total: Quantity,
                         s: Side, sb: SideBook, r: Resting, om: ElementIndex)
    requires Sorted(s, sb.queue) && p != r.price && Fits(p, orders, total, sb, om)
    ensures Fits(p, orders, total, Enqueue(s, sb, r), om)
  {
    hide At, Enqueue, LevelTotal, Linked;
    AtEnqueue(s, sb, r, p);
    EnqueuedTotal(s, sb, r, p);
    assert At(sb.queue, p) + [] == At(sb.queue, p);
  }

  /** Resizing an element where it stands touches no list and no total. */
  lemma LadderResized(levels: Ladder, sb: SideBook, k: nat, qty: Quantity, recorded: Quantity, om: ElementIndex)
    requires LadderOk(levels, sb, om) && k < |sb.queue|
    ensures LadderOk(levels, Resize(sb, k, qty, recorded), om)
  {
    hide At, LevelTotal, Linked, SameIds;
    var sb' := Resize(sb, k, qty, recorded);
    assert sb.queue[k] in sb.queue;
    forall p | p in levels
      ensures Fits(p, levels[p].orders, levels[p].totalQty, sb', om)
    {
      ResizedTotal(sb, k, qty, recorded, p);
      LinkedSameIds(levels[p].orders, At(sb.queue, p), At(sb'.queue, p), om);
    }
  }

  lemma NoEmptyResized(levels: Ladder, sb: SideBook, k: nat, qty: Quantity, recorded: Quantity, hole: Option<Price>)
    requires k < |sb.queue| && NoEmpty(levels, sb, hole)
    ensures NoEmpty(levels, Resize(sb, k, qty, recorded), hole)
  {
    hide At;
    forall p | p in levels && hole != Some(p)
      ensures At(Resize(sb, k, qty, recorded).queue, p) != []
    {
      ResizedTotal(sb, k, qty, recorded, p);
    }
  }

  lemma IndexedResized(s: Side, sb: SideBook, k: nat, qty: Quantity, recorded: Quantity,
                       om: ElementIndex, od: map<OrderId, OrderDetails>)
    requires k < |sb.queue| && Unique(sb.queue)
    requires Indexed(s, sb, om, od, {sb.queue[k].id})
    requires IndexedAt(s, sb.queue[k].(qty := qty, recorded := recorded), om, od)
    ensures Indexed(s, Resize(sb, k, qty, recorded), om, od, {})
  {
    var q' := Resize(sb, k, qty, recorded).queue;
    forall i | 0 <= i < |q'| && i != k
      ensures q'[i] == sb.queue[i] && sb.queue[i].id != sb.queue[k].id && sb.queue[i] in sb.queue
    {
    }
  }

  lemma IndexedHere(s: Side, r: Resting, om: ElementIndex, od: map<OrderId, OrderDetails>)
    requires r.id in om && om[r.id].traderId == r.trader && om[r.id].quantity == r.qty
    requires r.id in od && od[r.id] == OrderDetails(s, r.price, r.recorded)
    ensures IndexedAt(s, r, om, od)
  {
  }

  /** Takes an element out of its level: order k of the view, or nothing if it is not there. */
  method TakeOut(level: PriceLevel, elem: BookElement, ghost levels: Ladder,
                 ghost sb: SideBook, ghost k: Option<nat>, ghost leak: int, ghost om: ElementIndex)
    requires LadderOk(levels, sb, om) && Keyed(om) && Unique(sb.queue)
    requires level.price in levels && levels[level.price] == level
    requires k.Some? ==>
               && k.value < |sb.queue| && sb.queue[k.value].price == level.price
               && sb.queue[k.value].id in om && om[sb.queue[k.value].id] == elem
               && elem.quantity == sb.queue[k.value].qty - leak
    requires k.None? ==> elem !in level.orders
    modifies level
    ensures k.Some? ==> LadderOk(levels, Gone(sb, k.value, leak), om)
    ensures k.None? ==> LadderOk(levels, sb, om) && level.orders == old(level.orders)
  {
    hide Fits, Settle, Position;
    if k.Some? {
      FitsAfterGone(level.orders, level.totalQty, sb, k.value, leak, om);
      DropMembers(sb.queue, k.value);
      GoneQueue(sb, k.value, leak);
    }
    level.RemoveOrder(elem);
    if k.Some? {
      forall p | p in levels && p != level.price
        ensures Fits(p, levels[p].orders, levels[p].totalQty, Gone(sb, k.value, leak), om)
      {
        FitsOtherGone(p, levels[p].orders, levels[p].totalQty, sb, k.value, leak, om);
      }
    }
  }

  method PutIn(level: PriceLevel, elem: BookElement, ghost levels: Ladder,
               ghost s: Side, ghost sb: SideBook, ghost r: Resting, ghost om: ElementIndex)
    requires LadderOk(levels, sb, om) && Sorted(s, sb.queue) && Anchored(sb)
    requires r.price in levels && levels[r.price] == level
    requires r.id in om && om[r.id] == elem && elem.quantity == r.qty
    requires level.orders == [] ==> level.totalQty == 0
    modifies level
    ensures LadderOk(levels, Enqueue(s, sb, r), om)
  {
    hide Fits, Sorted, Anchored;
    FitsAfterEnqueue(level.orders, level.totalQty, s, sb, r, om);
    InsertMembers(sb.queue, Slot(s, sb.queue, r.price), r);
    level.AddOrder(elem);
    forall p | p in levels && p != r.price
      ensures Fits(p, levels[p].orders, levels[p].totalQty, Enqueue(s, sb, r), om)
    {
      FitsOtherEnqueue(p, levels[p].orders, levels[p].totalQty, s, sb, r, om);
    }
  }

  lemma FitsShrunk(p: Price, orders: seq<BookElement>, total: Quantity, sb: SideBook, t: Quantity, om: ElementIndex)
    requires sb.queue != [] && t <= sb.queue[0].qty
    requires Fits(p, orders, total, Partial(sb, 0, t), om)
    ensures Fits(p, orders, if p == sb.queue[0].price then Wrap32(total - t) else total, Shrink(sb, t), om)
  {
    hide At, LevelTotal, Linked, Partial, Shrink;
    ShrunkTotal(sb, t, p);
  }

  method TellLevel(level: PriceLevel, t: Quantity, ghost levels: Ladder, ghost sb: SideBook, ghost om: ElementIndex)
    requires sb.queue != [] && t <= sb.queue[0].qty && level.price == sb.queue[0].price
    requires level.price in levels && levels[level.price] == level
    requires LadderOk(levels, Partial(sb, 0, t), om)
    modifies level
    ensures LadderOk(levels, Shrink(sb, t), om)
  {
    hide Fits, Partial, Shrink;
    PartialHead(sb, t);
    FitsShrunk(level.price, level.orders, level.totalQty, sb, t, om);
    level.ReduceQty(t);
    forall p | p in levels && p != level.price
      ensures Fits(p, levels[p].orders, levels[p].totalQty, Shrink(sb, t), om)
    {
      FitsShrunk(p, levels[p].orders, levels[p].totalQty, sb, t, om);
    }
  }

  // ---- Walk progress, as the matching loops see it ----

  datatype Goal = Goal(rem: Quantity, side: SideBook, confirms: seq<OrderConfirm>, mds: seq<MdUpdate>)

  /** What remains to be done leads to the goal. */
  ghost predicate OnTrack(sym: SymbolId, s: Side, inc: OrderRequest, rem: Quantity, sb: SideBook,
                          confirms: seq<OrderConfirm>, mds: seq<MdUpdate>, goal: Goal)
  {
    var w := Walk(s, inc, rem, sb);
    && w.rem == goal.rem && w.side == goal.side
    && confirms + Confirms(sym, inc, w.events) == goal.confirms
    && mds + Mds(sym, s, inc, w.events) == goal.mds
  }

  /** One event off the front of the walk. */
  lemma OneEvent(sym: SymbolId, s: Side, inc: OrderRequest, rem: Quantity, sb: SideBook,
                 confirms: seq<OrderConfirm>, mds: seq<MdUpdate>, goal: Goal,
                 e: Event, rem': Quantity, sb': SideBook)
    requires OnTrack(sym, s, inc, rem, sb, confirms, mds, goal)
    requires var w := Walk(s, inc, rem, sb); var w' := Walk(s, inc, rem', sb');
             w.events == [e] + w'.events && w.rem == w'.rem && w.side == w'.side
    ensures OnTrack(sym, s, inc, rem', sb', confirms + EventConfirms(sym, inc, e), mds + EventMds(sym, s, inc, e), goal)
  {
    hide Walk;
    var rest := Walk(s, inc, rem', sb').events;
    assert ([e] + rest)[1..] == rest;
    assert Confirms(sym, inc, [e] + rest) == EventConfirms(sym, inc, e) + Confirms(sym, inc, rest);
    assert Mds(sym, s, inc, [e] + rest) == EventMds(sym, s, inc, e) + Mds(sym, s, inc, rest);
  }

  lemma TrackSelf(sym: SymbolId, s: Side, inc: OrderRequest, rem: Quantity, sb: SideBook,
                  confirms: seq<OrderConfirm>, mds: seq<MdUpdate>, goal: Goal)
    requires OnTrack(sym, s, inc, rem, sb, confirms, mds, goal)
    requires rem > 0 && sb.queue != [] && Tradable(s, inc.price, sb.queue[0].price)
    requires sb.queue[0].trader == inc.traderId
    ensures var e := SelfCancel(sb.queue[0]);
            OnTrack(sym, s, inc, rem, DropHead(sb, 0),
                    confirms + EventConfirms(sym, inc, e), mds + EventMds(sym, s, inc, e), goal)
  {
    hide OnTrack, DropHead;
    OneEvent(sym, s, inc, rem, sb, confirms, mds, goal, SelfCancel(sb.queue[0]), rem, DropHead(sb, 0));
  }

  lemma TrackFill(sym: SymbolId, s: Side, inc: OrderRequest, rem: Quantity, sb: SideBook,
                  confirms: seq<OrderConfirm>, mds: seq<MdUpdate>, goal: Goal)
    requires OnTrack(sym, s, inc, rem, sb, confirms, mds, goal)
    requires rem > 0 && sb.queue != [] && Tradable(s, inc.price, sb.queue[0].price)
    requires sb.queue[0].trader != inc.traderId
    ensures var h := sb.queue[0]; var t := Min(rem, h.qty); var e := Fill(h, t);
            OnTrack(sym, s, inc, rem - t, if t == h.qty then DropHead(sb, h.qty) else Shrink(sb, t),
                    confirms + EventConfirms(sym, inc, e), mds + EventMds(sym, s, inc, e), goal)
  {
    hide OnTrack, DropHead;
    var h := sb.queue[0];
    var t := Min(rem, h.qty);
    OneEvent(sym, s, inc, rem, sb, confirms, mds, goal, Fill(h, t), rem - t,
             if t == h.qty then DropHead(sb, h.qty) else Shrink(sb, t));
  }

  class OrderBook {
    const symbol: SymbolId
    var bids: Ladder
    var asks: Ladder
    var orderMap: ElementIndex
    var orderDetails: map<OrderId, OrderDetails>

    ghost var state: Book          // the flat price-time view
    ghost var Repr: set<object>

    function Levels(s: Side): Ladder
      reads `bids, `asks
    {
      if s.Buy? then bids else asks
    }

    ghost predicate Owns()
      reads `bids, `asks, `orderMap, `Repr
    {
      && this in Repr
      && (forall p | p in bids :: bids[p] in Repr)
      && (forall p | p in asks :: asks[p] in Repr)
      && (forall id | id in orderMap :: orderMap[id] in Repr)
      && bids.Values !! asks.Values
    }

    /** Levels and both indexes agree with a flat view. `hole` marks a level that is being
        consumed, `flux` the orders whose index entries are being rewritten. */
    ghost predicate Agrees(b: Book, hole: Option<(Side, Price)>, flux: set<OrderId>)
      reads `bids, `asks, `orderMap, `orderDetails, `Repr, bids.Values, asks.Values, orderMap.Values
    {
      AgreesWith(b, hole, flux, orderDetails)
    }

    ghost predicate AgreesWith(b: Book, hole: Option<(Side, Price)>, flux: set<OrderId>,
                               details: map<OrderId, OrderDetails>)
      reads `bids, `asks, `orderMap, `Repr, bids.Values, asks.Values, orderMap.Values
    {
      && Owns()
      && BookInv(b)
      && LadderOk(bids, b.bids, orderMap)
      && LadderOk(asks, b.asks, orderMap)
      && NoEmpty(bids, b.bids, HoleOn(hole, Buy))
      && NoEmpty(asks, b.asks, HoleOn(hole, Sell))
      && Indexed(Buy, b.bids, orderMap, details, flux)
      && Indexed(Sell, b.asks, orderMap, details, flux)
      && orderMap.Keys == BookIds(b)
      && details.Keys == BookIds(b)
      && Keyed(orderMap)
    }

    ghost predicate Valid()
      reads this, bids.Values, asks.Values, orderMap.Values
    {
      Agrees(state, None, {})
    }

    constructor (symbol: SymbolId)
      ensures this.symbol == symbol && state == EMPTY_BOOK
      ensures Valid() && fresh(Repr)
    {
      this.symbol := symbol;
      bids, asks, orderMap, orderDetails := map[], map[], map[], map[];
      state := EMPTY_BOOK;
      Repr := {this};
    }

    /** Index agreement at one resting order. */
    lemma ElementFacts(hole: Option<(Side, Price)>, s: Side, k: nat)
      requires Agrees(state, hole, {}) && k < |state.On(s).queue|
      ensures var r := state.On(s).queue[k];
              && r in state.On(s).queue && r.qty <= r.recorded
              && r.id in orderMap && r.id in orderDetails
              && orderMap[r.id].id == r.id && orderMap[r.id].traderId == r.trader && orderMap[r.id].quantity == r.qty
              && orderDetails[r.id] == OrderDetails(s, r.price, r.recorded)
              && r.price in Levels(s) && Levels(s)[r.price].price == r.price
              && orderMap[r.id] in Repr && Levels(s)[r.price] in Repr
    {
    }

    lemma LadderFacts(b: Book, hole: Option<(Side, Price)>, flux: set<OrderId>, s: Side)
      requires Agrees(b, hole, flux)
      ensures LadderOk(Levels(s), b.On(s), orderMap) && NoEmpty(Levels(s), b.On(s), HoleOn(hole, s))
      ensures Sorted(s, b.On(s).queue) && Unique(b.On(s).queue) && Anchored(b.On(s)) && Keyed(orderMap)
      ensures Levels(s).Values !! Levels(s.Opposite()).Values
      ensures forall p | p in Levels(s) :: Levels(s)[p] in Repr && Levels(s)[p].price == p
    {
    }

    /** The element and details of order k were rewritten in place: the view follows. */
    lemma Mended(b: Book, hole: Option<(Side, Price)>, s: Side, k: nat, qty: Quantity, recorded: Quantity)
      requires k < |b.On(s).queue| && qty <= recorded
      requires IndexedAt(s, b.On(s).queue[k].(qty := qty, recorded := recorded), orderMap, orderDetails)
      requires Agrees(b, hole, {b.On(s).queue[k].id})
      ensures Agrees(b.With(s, Resize(b.On(s), k, qty, recorded)), hole, {})
    {
      hide At, Sorted, Unique, Sound, Anchored, Fits, NoEmpty, LadderOk, IndexedAt, Ids, Resize, Owns;
      var sb := b.On(s);
      ResizeShape(sb, k, qty, recorded);
      ResizeKeeps(s, sb, k, sb.queue[k].(qty := qty, recorded := recorded),
                  Resize(sb, k, qty, recorded).drift, b.clock);
      LadderResized(Levels(s), sb, k, qty, recorded, orderMap);
      NoEmptyResized(Levels(s), sb, k, qty, recorded, HoleOn(hole, s));
      DisjointIds(b, s, k);
      IndexedResized(s, sb, k, qty, recorded, orderMap, orderDetails);
    }

    /** Order k is out of its level but still in both indexes. */
    ghost predicate Unlinked(b: Book, hole: Option<(Side, Price)>, s: Side, k: nat)
      requires k < |b.On(s).queue|
      reads `bids, `asks, `orderMap, `orderDetails, `Repr, bids.Values, asks.Values, orderMap.Values
    {
      && Owns()
      && BookInv(b)
      && LadderOk(Levels(s), Gone(b.On(s), k, 0), orderMap)
      && NoEmpty(Levels(s), Gone(b.On(s), k, 0), HoleOn(hole, s))
      && LadderOk(Levels(s.Opposite()), b.On(s.Opposite()), orderMap)
      && NoEmpty(Levels(s.Opposite()), b.On(s.Opposite()), HoleOn(hole, s.Opposite()))
      && Indexed(Buy, b.bids, orderMap, orderDetails, {})
      && Indexed(Sell, b.asks, orderMap, orderDetails, {})
      && orderMap.Keys == BookIds(b)
      && orderDetails.Keys == BookIds(b)
      && Keyed(orderMap)
    }

    /** Takes an element out of its level, which may stay behind empty; nothing happens if it is not there. */
    method Unlink(s: Side, level: PriceLevel, elem: BookElement,
                  ghost k: Option<nat>, ghost hole: Option<(Side, Price)>)
      requires level.price in Levels(s) && Levels(s)[level.price] == level
      requires k.Some? ==>
                 && k.value < |state.On(s).queue| && level.price == state.On(s).queue[k.value].price
                 && state.On(s).queue[k.value].id in orderMap && orderMap[state.On(s).queue[k.value].id] == elem
      requires k.None? ==> elem !in level.orders
      requires hole == None || hole == Some((s, level.price))
      requires Agrees(state, hole, {})
      modifies level
      ensures k.Some? ==> Unlinked(state, Some((s, level.price)), s, k.value)
      ensures k.None? ==> Agrees(state, hole, {}) && level.orders == old(level.orders)
    {
      hide LadderOk, NoEmpty, Keyed, Unique, Gone, Indexed, BookInv, BookIds;
      LadderFacts(state, hole, {}, s);
      LadderFacts(state, hole, {}, s.Opposite());
      if k.Some? {
        ElementFacts(hole, s, k.value);
        NoEmptyGone(Levels(s), state.On(s), k.value, 0, HoleOn(hole, s));
      }
      TakeOut(level, elem, Levels(s), state.On(s), k, 0, orderMap);
    }

    /** Order k is out of its level and out of both indexes: the view follows. */
    lemma Erased(b: Book, hole: Option<(Side, Price)>, s: Side, k: nat,
                 om: ElementIndex, od: map<OrderId, OrderDetails>)
      requires BookInv(b) && Owns() && Keyed(om) && k < |b.On(s).queue|
      requires om.Keys == BookIds(b) && od.Keys == BookIds(b)
      requires orderMap == om - {b.On(s).queue[k].id} && orderDetails == od - {b.On(s).queue[k].id}
      requires Indexed(Buy, b.bids, om, od, {}) && Indexed(Sell, b.asks, om, od, {})
      requires LadderOk(Levels(s), Gone(b.On(s), k, 0), om)
      requires NoEmpty(Levels(s), Gone(b.On(s), k, 0), HoleOn(hole, s))
      requires LadderOk(Levels(s.Opposite()), b.On(s.Opposite()), om)
      requires NoEmpty(Levels(s.Opposite()), b.On(s.Opposite()), HoleOn(hole, s.Opposite()))
      ensures Agrees(b.With(s, Gone(b.On(s), k, 0)), hole, {})
    {
      hide At, Sorted, Unique, Sound, Anchored, Fits, NoEmpty, LadderOk, Gone, Ids, Owns;
      var sb, o := b.On(s), s.Opposite();
      GoneKeeps(s, sb, k, 0, b.clock);
      DisjointIds(b, s, k);
      assert forall r | r in sb.queue :: IndexedAt(s, r, om, od);
      assert forall r | r in b.On(o).queue :: IndexedAt(o, r, om, od);
      LadderReindex(Levels(s), Gone(sb, k, 0), om, orderMap);
      LadderReindex(Levels(o), b.On(o), om, orderMap);
    }

    /** Takes order k, already out of its level, out of both indexes. */
    method EraseIndexes(s: Side, id: OrderId, ghost k: nat, ghost hole: Option<(Side, Price)>)
      requires k < |state.On(s).queue| && id == state.On(s).queue[k].id
      requires Unlinked(state, hole, s, k)
      modifies `orderMap, `orderDetails, `state
      ensures state == old(state.With(s, Gone(state.On(s), k, 0)))
      ensures Agrees(state, hole, {})
    {
      hide NoEmpty, LadderOk, Gone, BookIds, Indexed, Keyed, BookInv, Agrees, AgreesWith;
      ghost var om, od := orderMap, orderDetails;
      orderMap := orderMap - {id};
      orderDetails := orderDetails - {id};
      Erased(state, hole, s, k, om, od);
      state := state.With(s, Gone(state.On(s), k, 0));
    }

    /** Order id is in both indexes but in no level; everything else agrees with b. */
    ghost predicate Detached(b: Book, id: OrderId)
      reads `bids, `asks, `orderMap, `orderDetails, `Repr, bids.Values, asks.Values, orderMap.Values
    {
      && id !in BookIds(b) && BookInv(b) && Owns() && Keyed(orderMap)
      && orderMap.Keys == BookIds(b) + {id} && orderDetails.Keys == BookIds(b) + {id}
      && Indexed(Buy, b.bids, orderMap, orderDetails, {}) && Indexed(Sell, b.asks, orderMap, orderDetails, {})
      && LadderOk(bids, b.bids, orderMap) && NoEmpty(bids, b.bids, None)
      && LadderOk(asks, b.asks, orderMap) && NoEmpty(asks, b.asks, None)
    }

    /** A new or re-queued order is in its level and in both indexes: the view follows. */
    lemma Joined(b: Book, s: Side, r: Resting)
      requires r.id !in BookIds(b) && r.entry == b.clock && r.qty <= r.recorded
      requires BookInv(b) && Owns() && Keyed(orderMap)
      requires orderMap.Keys == BookIds(b) + {r.id} && orderDetails.Keys == BookIds(b) + {r.id}
      requires Indexed(Buy, b.bids, orderMap, orderDetails, {}) && Indexed(Sell, b.asks, orderMap, orderDetails, {})
      requires IndexedAt(s, r, orderMap, orderDetails)
      requires LadderOk(Levels(s), Enqueue(s, b.On(s), r), orderMap)
      requires NoEmpty(Levels(s), Enqueue(s, b.On(s), r), None)
      requires LadderOk(Levels(s.Opposite()), b.On(s.Opposite()), orderMap)
      requires NoEmpty(Levels(s.Opposite()), b.On(s.Opposite()), None)
      ensures Agrees(b.With(s, Enqueue(s, b.On(s), r)).Tick(), None, {})
    {
      hide At, Sorted, Unique, Sound, Anchored, Fits, NoEmpty, LadderOk, IndexedAt, Enqueue, Ids, Owns;
      EnqueueKeeps(s, b.On(s), r, b.clock);
      LaterStillSound(s.Opposite(), b.On(s.Opposite()), b.clock);
      EnqueueMembers(s, b.On(s), r);
    }

    /** Writing one element leaves every other order's index entry right. */
    method SetQuantity(elem: BookElement, qty: Quantity, ghost hole: Option<(Side, Price)>)
      requires elem.id in orderMap && orderMap[elem.id] == elem
      requires Agrees(state, hole, {})
      modifies elem
      ensures elem.quantity == qty && Agrees(state, hole, {elem.id})
    {
      hide BookInv, NoEmpty, LadderOk, BookIds;
      elem.quantity := qty;
      forall z: Side, x | x in state.On(z).queue && x.id != elem.id
        ensures IndexedAt(z, x, orderMap, orderDetails)
      {
        assert old(IndexedAt(z, x, orderMap, orderDetails));
        assert orderMap[x.id] != elem;
      }
    }

    /** A fill reaches the element before it reaches the level. */
    method ReduceElement(s: Side, elem: BookElement, t: Quantity, ghost k: nat, ghost hole: Option<(Side, Price)>)
      requires k < |state.On(s).queue| && t <= state.On(s).queue[k].qty
      requires state.On(s).queue[k].id in orderMap && orderMap[state.On(s).queue[k].id] == elem
      requires Agrees(state, hole, {})
      modifies elem, `state
      ensures state == old(state.With(s, Partial(state.On(s), k, t)))
      ensures elem.quantity == old(state.On(s).queue[k].qty) - t
      ensures Agrees(state, hole, {})
    {
      hide Agrees, AgreesWith, Resize;
      ElementFacts(hole, s, k);
      ghost var r := state.On(s).queue[k];
      SetQuantity(elem, elem.quantity - t, hole);
      IndexedHere(s, r.(qty := r.qty - t), orderMap, orderDetails);
      Mended(state, hole, s, k, r.qty - t, r.recorded);
      state := state.With(s, Partial(state.On(s), k, t));
      assert Agrees(state, hole, {});
    }

    /** Takes order k out of its level, and an emptied level out of the ladder. Where the price has no
        level or the level does not hold the element, nothing changes. */
    method RemoveFromLevel(s: Side, elem: BookElement, price: Price, ghost k: Option<nat>)
      requires k.Some? ==>
                 && k.value < |state.On(s).queue| && price == state.On(s).queue[k.value].price
                 && state.On(s).queue[k.value].id in orderMap && orderMap[state.On(s).queue[k.value].id] == elem
      requires k.None? && price in Levels(s) ==> elem !in Levels(s)[price].orders
      requires Valid()
      modifies `bids, `asks, Levels(s).Values
      ensures k.Some? ==> Unlinked(state, None, s, k.value)
      ensures k.None? ==> Valid() && bids == old(bids) && asks == old(asks)
    {
      hide Agrees, AgreesWith, Unlinked;
      if k.Some? {
        ElementFacts(None, s, k.value);
      }
      SomeLevel(s);
      if price !in Levels(s) {
        return;
      }
      var level := Levels(s)[price];
      Unlink(s, level, elem, k, None);
      if level.orders == [] {
        EraseLevel(s, price, k.value);
      } else if k.Some? {
        NotEmptied(s, price, k.value);
      }
    }

    /** The level order k left is empty and goes. */
    method EraseLevel(s: Side, p: Price, ghost k: nat)
      requires k < |state.On(s).queue| && p in Levels(s) && Levels(s)[p].orders == []
      requires Unlinked(state, Some((s, p)), s, k)
      modifies `bids, `asks
      ensures Unlinked(state, None, s, k)
    {
      hide LadderOk, NoEmpty, Keyed, Gone, Indexed, BookInv, BookIds;
      var levels := Levels(s);
      EmptyLevelGoes(levels, Gone(state.On(s), k, 0), orderMap, p);
      if s.Buy? {
        bids := levels - {p};
      } else {
        asks := levels - {p};
      }
    }

    /** The level order k left still holds others and stays. */
    lemma NotEmptied(s: Side, p: Price, k: nat)
      requires k < |state.On(s).queue| && p in Levels(s) && Levels(s)[p].orders != []
      requires Unlinked(state, Some((s, p)), s, k)
      ensures Unlinked(state, None, s, k)
    {
      hide LadderOk, NoEmpty, Keyed, Gone, Indexed, BookInv, BookIds, Owns;
      EmptyLevelGoes(Levels(s), Gone(state.On(s), k, 0), orderMap, p);
    }

    /** The consumed front order leaves its level and both indexes. */
    method EraseFront(s: Side, level: PriceLevel, elem: BookElement)
      requires state.On(s).queue != [] && level.price == state.On(s).queue[0].price
      requires level.price in Levels(s) && Levels(s)[level.price] == level
      requires state.On(s).queue[0].id in orderMap && orderMap[state.On(s).queue[0].id] == elem
      requires Agrees(state, Some((s, level.price)), {})
      modifies level, `orderMap, `orderDetails, `state
      ensures state == old(state.With(s, DropHead(state.On(s), 0)))
      ensures Agrees(state, Some((s, level.price)), {})
    {
      hide Agrees, AgreesWith, Unlinked, Gone, DropHead;
      ElementFacts(Some((s, level.price)), s, 0);
      GoneHead(state.On(s), 0);
      Unlink(s, level, elem, Some(0), Some((s, level.price)));
      EraseIndexes(s, elem.id, 0, Some((s, level.price)));
    }

    /** The level learns of a fill that left its front order resting. */
    method ReduceLevel(s: Side, level: PriceLevel, t: Quantity, ghost sb: SideBook)
      requires sb.queue != [] && t <= sb.queue[0].qty && level.price == sb.queue[0].price
      requires level.price in Levels(s) && Levels(s)[level.price] == level
      requires state.On(s) == Partial(sb, 0, t)
      requires Agrees(state, Some((s, level.price)), {})
      modifies level, `state
      ensures state == old(state.With(s, Shrink(sb, t)))
      ensures Agrees(state, Some((s, level.price)), {})
    {
      hide LadderOk, NoEmpty, Keyed, Sorted, Unique, Anchored, Sound, Ids, Partial, Shrink;
      ghost var hole := Some((s, level.price));
      PartialHead(sb, t);
      ShrunkInv(s, sb, t, state.clock);
      NoEmptySame(Levels(s), Partial(sb, 0, t), Shrink(sb, t), HoleOn(hole, s));
      TellLevel(level, t, Levels(s), sb, orderMap);
      state := state.With(s, Shrink(sb, t));
    }

    /** The front of the best level is the head of the flat queue. */
    lemma FrontFacts(s: Side, p: Price)
      requires Agrees(state, Some((s, p)), {})
      requires p in Levels(s) && Levels(s)[p].orders != [] && forall k | k in Levels(s) :: !Better(s, k, p)
      ensures state.On(s).queue != []
      ensures var h := state.On(s).queue[0];
              && h.price == p && h.id in orderMap && orderMap[h.id] == Levels(s)[p].orders[0]
              && orderMap[h.id].id == h.id && orderMap[h.id].traderId == h.trader && orderMap[h.id].quantity == h.qty
    {
      hide At, BookInv, LevelTotal, Sorted, Keyed, Indexed;
      LadderFacts(state, Some((s, p)), {}, s);
      LinkedLength(Levels(s)[p].orders, At(state.On(s).queue, p), orderMap);
      HeadIsBest(s, Levels(s), state.On(s), orderMap, p);
      ElementFacts(Some((s, p)), s, 0);
    }

    /** One passive order is cancelled for self-trade prevention, filled away, or reduced. */
    method HitFront(s: Side, incoming: OrderRequest, level: PriceLevel, rem: Quantity,
                    confirmsIn: seq<OrderConfirm>, mdsIn: seq<MdUpdate>, ghost goal: Goal)
      returns (rem': Quantity, confirms: seq<OrderConfirm>, mds: seq<MdUpdate>)
      requires level.price in Levels(s) && Levels(s)[level.price] == level && level.orders != []
      requires forall k | k in Levels(s) :: !Better(s, k, level.price)
      requires rem > 0 && Tradable(s, incoming.price, level.price)
      requires OnTrack(symbol, s, incoming, rem, state.On(s), confirmsIn, mdsIn, goal)
      requires Agrees(state, Some((s, level.price)), {})
      modifies level, orderMap.Values, `orderMap, `orderDetails, `state
      ensures state.On(s.Opposite()) == old(state.On(s.Opposite())) && state.clock == old(state.clock)
      ensures OnTrack(symbol, s, incoming, rem', state.On(s), confirms, mds, goal)
      ensures |state.On(s).queue| < |old(state.On(s).queue)|
           || (|state.On(s).queue| == |old(state.On(s).queue)| && rem' < rem)
      ensures Agrees(state, Some((s, level.price)), {})
    {
      hide Agrees, AgreesWith, OnTrack, Partial, Shrink, DropHead, Better, Tradable;
      FrontFacts(s, level.price);
      var passive := level.orders[0];
      ghost var sb := state.On(s);
      if passive.traderId == incoming.traderId {
        confirms := confirmsIn + [OrderConfirm(CancelAck, passive.id, 0, passive.traderId, symbol,
                                               0, passive.quantity, SelfTrade)];
        mds := mdsIn + [MdUpdate(symbol, passive.id, s, level.price, passive.quantity, MdCancel)];
        TrackSelf(symbol, s, incoming, rem, sb, confirmsIn, mdsIn, goal);
        EraseFront(s, level, passive);
        DropHeadShorter(sb, 0);
        return rem, confirms, mds;
      }
      var tradeQty := Min(rem, passive.quantity);
      TrackFill(symbol, s, incoming, rem, sb, confirmsIn, mdsIn, goal);
      ReduceElement(s, passive, tradeQty, 0, Some((s, level.price)));
      rem' := rem - tradeQty;
      confirms := confirmsIn + [TradeConfirm(symbol, passive.id, 0, passive.traderId, level.price, tradeQty),
                                TradeConfirm(symbol, incoming.orderId, incoming.clientOrderId, incoming.traderId,
                                             level.price, tradeQty)];
      mds := mdsIn + [MdUpdate(symbol, passive.id, s, level.price, tradeQty, MdTrade),
                      MdUpdate(symbol, incoming.orderId, incoming.side, incoming.price, tradeQty, MdTrade)];
      PartialHead(sb, tradeQty);
      ShrinkShape(sb, tradeQty);
      if passive.quantity == 0 {
        PartialGone(sb);
        EraseFront(s, level, passive);
        DropHeadShorter(sb, tradeQty);
      } else {
        ReduceLevel(s, level, tradeQty, sb);
      }
    }

    lemma OwnsFacts(b: Book, hole: Option<(Side, Price)>, flux: set<OrderId>)
      requires Agrees(b, hole, flux)
      ensures this in Repr
      ensures (forall p | p in bids :: bids[p] in Repr) && (forall p | p in asks :: asks[p] in Repr)
      ensures forall id | id in orderMap :: orderMap[id] in Repr
    {
    }

    lemma SomeLevel(s: Side)
      requires Valid()
      ensures var sb, levels := state.On(s), Levels(s);
              && (|levels| == 0 <==> sb.queue == [])
              && (sb.queue != [] ==>
                    sb.queue[0].price in levels && forall k | k in levels :: !Better(s, k, sb.queue[0].price))
      ensures forall p | p in Levels(s) :: Levels(s)[p].price == p && Levels(s)[p].orders != []
    {
      hide At, BookInv, Indexed, LevelTotal, Sorted, Keyed;
      LadderFacts(state, None, {}, s);
      SomeBest(s, Levels(s), state.On(s), orderMap);
    }

    /** A level may only be missing orders while it is the one being consumed. */
    lemma WithHole(s: Side, p: Price)
      requires Valid()
      ensures Agrees(state, Some((s, p)), {})
    {
      hide BookInv, LadderOk, Indexed, Keyed, Owns;
    }

    /** Erases the consumed level if it is empty. */
    method CloseLevel(s: Side, p: Price)
      requires p in Levels(s)
      requires Agrees(state, Some((s, p)), {})
      modifies `bids, `asks
      ensures Valid()
    {
      hide BookInv, BookIds, Keyed, Indexed, LadderOk, NoEmpty;
      var levels := Levels(s);
      EmptyLevelGoes(levels, state.On(s), orderMap, p);
      if levels[p].orders == [] {
        if s.Buy? {
          bids := levels - {p};
        } else {
          asks := levels - {p};
        }
      }
    }

    method BestLevel(s: Side) returns (p: Price)
      requires |Levels(s)| != 0
      requires Valid()
      ensures p in Levels(s) && forall k | k in Levels(s) :: !Better(s, k, p)
      ensures state.On(s).queue != [] && p == state.On(s).queue[0].price
    {
      hide Agrees, AgreesWith, Better;
      SomeLevel(s);
      var levels := Levels(s);
      assert IsFirst(s, levels, state.On(s).queue[0].price);
      p :| p in levels && IsFirst(s, levels, p);
      OneFirst(s, levels, p, state.On(s).queue[0].price);
    }

    /** Matches an incoming order against the passive side s, level by level, order by order. */
    method MatchAgainst(s: Side, incoming: OrderRequest, remainingQty: Quantity,
                        confirmsIn: seq<OrderConfirm>, mdsIn: seq<MdUpdate>)
      returns (rem: Quantity, confirms: seq<OrderConfirm>, mds: seq<MdUpdate>)
      requires Valid()
      modifies Repr
      ensures Repr == old(Repr)
      ensures var w := Walk(s, incoming, remainingQty, old(state.On(s)));
              && rem == w.rem
              && state == old(state).With(s, w.side)
              && confirms == confirmsIn + Confirms(symbol, incoming, w.events)
              && mds == mdsIn + Mds(symbol, s, incoming, w.events)
      ensures Valid()
    {
      hide Agrees, AgreesWith, OnTrack, Better;
      ghost var w := Walk(s, incoming, remainingQty, state.On(s));
      ghost var goal := Goal(w.rem, w.side, confirmsIn + Confirms(symbol, incoming, w.events),
                             mdsIn + Mds(symbol, s, incoming, w.events));
      OnTrackStart(symbol, s, incoming, remainingQty, state.On(s), confirmsIn, mdsIn);
      rem, confirms, mds := remainingQty, confirmsIn, mdsIn;
      while rem > 0 && |Levels(s)| != 0
        invariant Valid() && Repr == old(Repr)
        invariant state.On(s.Opposite()) == old(state.On(s.Opposite())) && state.clock == old(state.clock)
        invariant OnTrack(symbol, s, incoming, rem, state.On(s), confirms, mds, goal)
        decreases |state.On(s).queue|, rem
      {
        ghost var before, remBefore := |state.On(s).queue|, rem;
        SomeLevel(s);
        var levelPrice := BestLevel(s);
        if !Tradable(s, incoming.price, levelPrice) {
          break;
        }
        var level := Levels(s)[levelPrice];
        WithHole(s, levelPrice);
        while rem > 0 && level.orders != []
          invariant Agrees(state, Some((s, levelPrice)), {}) && Repr == old(Repr)
          invariant levelPrice in Levels(s) && Levels(s)[levelPrice] == level && level.price == levelPrice
          invariant forall k | k in Levels(s) :: !Better(s, k, levelPrice)
          invariant state.On(s.Opposite()) == old(state.On(s.Opposite())) && state.clock == old(state.clock)
          invariant OnTrack(symbol, s, incoming, rem, state.On(s), confirms, mds, goal)
          invariant |state.On(s).queue| < before || (|state.On(s).queue| == before && rem <= remBefore)
          invariant |state.On(s).queue| < before || rem < remBefore || level.orders != []
          decreases |state.On(s).queue|, rem
        {
          OwnsFacts(state, Some((s, levelPrice)), {});
          rem, confirms, mds := HitFront(s, incoming, level, rem, confirms, mds, goal);
        }
        OwnsFacts(state, Some((s, levelPrice)), {});
        CloseLevel(s, levelPrice);
      }
      SomeLevel(s);
      OnTrackEnd(symbol, s, incoming, rem, state.On(s), confirms, mds, goal);
    }

    method GetOrCreateLevel(s: Side, price: Price, ghost sb: SideBook) returns (level: PriceLevel)
      requires Owns() && LadderOk(Levels(s), sb, orderMap) && NoEmpty(Levels(s), sb, None)
      modifies `bids, `asks, `Repr
      ensures Owns() && old(Repr) <= Repr && fresh(Repr - old(Repr))
      ensures Levels(s.Opposite()) == old(Levels(s.Opposite()))
      ensures price in Levels(s) && Levels(s)[price] == level && level in Repr
      ensures level !in old(Repr) || level in old(Levels(s)).Values
      ensures level.orders == [] ==> level.totalQty == 0
      ensures LadderOk(Levels(s), sb, orderMap) && NoEmpty(Levels(s), sb, Some(price))
    {
      hide At, Linked, LevelTotal, LadderOk;
      var levels := Levels(s);
      if price !in levels {
        level := new PriceLevel(price);
        EmptyLevelFits(levels, price, level, sb, orderMap);
        if s.Buy? {
          bids := levels[price := level];
        } else {
          asks := levels[price := level];
        }
        Repr := Repr + {level};
      } else {
        level := levels[price];
        LevelOccupied(levels, price, sb, orderMap);
      }
    }

    method InsertIntoLevel(s: Side, elem: BookElement, price: Price, ghost sb: SideBook, ghost r: Resting)
      requires Sorted(s, sb.queue) && Anchored(sb) && r.price == price
      requires r.id in orderMap && orderMap[r.id] == elem && elem.quantity == r.qty
      requires Owns() && LadderOk(Levels(s), sb, orderMap) && NoEmpty(Levels(s), sb, None)
      modifies `bids, `asks, `Repr, Levels(s).Values
      ensures Owns() && old(Repr) <= Repr && fresh(Repr - old(Repr))
      ensures Levels(s.Opposite()) == old(Levels(s.Opposite()))
      ensures LadderOk(Levels(s), Enqueue(s, sb, r), orderMap) && NoEmpty(Levels(s), Enqueue(s, sb, r), None)
    {
      hide Sorted, Anchored, LadderOk, NoEmpty, Enqueue;
      var level := GetOrCreateLevel(s, price, sb);
      PutIn(level, elem, Levels(s), s, sb, r, orderMap);
      NoEmptyEnqueued(Levels(s), s, sb, r);
    }

    /** Registers a fresh order in both indexes, ahead of its insertion into a level. */
    method Register(id: OrderId, traderId: TraderId, details: OrderDetails, qty: Quantity) returns (elem: BookElement)
      requires id !in BookIds(state)
      requires Valid()
      modifies `orderMap, `orderDetails, `Repr
      ensures fresh(elem) && elem.id == id && elem.traderId == traderId && elem.quantity == qty
      ensures Owns() && Repr == old(Repr) + {elem}
      ensures orderMap == old(orderMap)[id := elem] && orderDetails == old(orderDetails)[id := details]
      ensures Detached(state, id)
    {
      hide BookInv, LadderOk, NoEmpty, Indexed, Keyed, BookIds, Detached;
      ghost var om, od := orderMap, orderDetails;
      elem := new BookElement(id, traderId, qty);
      orderMap := orderMap[id := elem];
      orderDetails := orderDetails[id := details];
      Repr := Repr + {elem};
      Extended(state, om, od, id);
    }

    /** A fresh index entry disturbs nothing else. */
    lemma Extended(b: Book, om: ElementIndex, od: map<OrderId, OrderDetails>, id: OrderId)
      requires BookInv(b) && Owns() && Keyed(om) && id !in BookIds(b)
      requires om.Keys == BookIds(b) && od.Keys == BookIds(b)
      requires id in orderMap && orderMap == om[id := orderMap[id]] && orderMap[id].id == id
      requires id in orderDetails && orderDetails == od[id := orderDetails[id]]
      requires Indexed(Buy, b.bids, om, od, {}) && Indexed(Sell, b.asks, om, od, {})
      requires LadderOk(bids, b.bids, om) && NoEmpty(bids, b.bids, None)
      requires LadderOk(asks, b.asks, om) && NoEmpty(asks, b.asks, None)
      ensures Detached(b, id)
    {
      hide BookInv, LadderOk, NoEmpty, Indexed, BookIds;
      SideExtended(Buy, bids, b.bids, om, od, orderMap, orderDetails, id);
      SideExtended(Sell, asks, b.asks, om, od, orderMap, orderDetails, id);
    }

    /** A registered element joins the back of its level. */
    method JoinBack(s: Side, elem: BookElement, price: Price, ghost b: Book, ghost r: Resting)
      requires r.id in orderMap && orderMap[r.id] == elem && elem.traderId == r.trader && elem.quantity == r.qty
      requires r.id in orderDetails && orderDetails[r.id] == OrderDetails(s, r.price, r.recorded)
      requires r.price == price && r.entry == b.clock && r.qty <= r.recorded
      requires Detached(b, r.id)
      modifies `bids, `asks, `Repr, `state, Levels(s).Values
      ensures old(Repr) <= Repr && fresh(Repr - old(Repr))
      ensures state == b.With(s, Enqueue(s, b.On(s), r)).Tick()
      ensures Valid()
    {
      hide Agrees, LadderOk, NoEmpty, Keyed, Enqueue, Sorted, Anchored, Unique, Sound, Indexed;
      InsertIntoLevel(s, elem, price, b.On(s), r);
      IndexedHere(s, r, orderMap, orderDetails);
      Joined(b, s, r);
      state := b.With(s, Enqueue(s, b.On(s), r)).Tick();
    }

    /** What an incoming order could not trade rests at the back of its level. */
    method Rest(s: Side, incoming: OrderRequest, rem: Quantity)
      requires incoming.orderId !in BookIds(state)
      requires Valid()
      modifies Repr
      ensures old(Repr) <= Repr && fresh(Repr - old(Repr))
      ensures state == old(state.With(s,
                Enqueue(s, state.On(s),
                        Resting(incoming.orderId, incoming.traderId, incoming.price, rem, rem, state.clock))).Tick())
      ensures Valid()
    {
      hide Agrees, AgreesWith, Detached, Enqueue;
      ghost var b := state;
      OwnsFacts(b, None, {});
      var elem := Register(incoming.orderId, incoming.traderId, OrderDetails(s, incoming.price, rem), rem);
      JoinBack(s, elem, incoming.price, b,
               Resting(incoming.orderId, incoming.traderId, incoming.price, rem, rem, b.clock));
    }

    method AddOrder(incoming: OrderRequest, confirmsIn: seq<OrderConfirm>, mdsIn: seq<MdUpdate>)
      returns (confirms: seq<OrderConfirm>, mds: seq<MdUpdate>)
      requires Admissible(state, incoming)
      requires Valid()
      modifies Repr
      ensures old(Repr) <= Repr && fresh(Repr - old(Repr))
      ensures var o := Add(old(state), symbol, incoming);
              state == o.book && confirms == confirmsIn + o.confirms && mds == mdsIn + o.mds
      ensures Valid()
    {
      hide Agrees, AgreesWith, Walk, BookInv, Enqueue;
      confirms := confirmsIn + [OrderConfirm(NewAck, incoming.orderId, incoming.clientOrderId, incoming.traderId,
                                             symbol, 0, 0, UnknownOrder)];
      mds := mdsIn + [MdUpdate(symbol, incoming.orderId, incoming.side, incoming.price, incoming.quantity, MdNew)];
      OwnsFacts(state, None, {});
      var rem;
      rem, confirms, mds := MatchAgainst(incoming.side.Opposite(), incoming, incoming.quantity, confirms, mds);
      if rem == 0 {
        Ticked(state);
        state := state.Tick();
        return;
      }
      Rest(incoming.side, incoming, rem);
    }

    lemma Ticked(b: Book)
      requires Agrees(b, None, {})
      ensures Agrees(b.Tick(), None, {})
    {
      hide LadderOk, Indexed, NoEmpty, Keyed, Owns, Sorted, Unique, Anchored;
    }

    /** Both indexes know exactly the resting orders. */
    lemma LookupFacts(id: OrderId)
      requires Valid()
      ensures id in orderMap <==> SideOf(state, id).Some?
      ensures id in orderMap ==>
                var s := SideOf(state, id).value; var k := Index(state.On(s).queue, id); var r := Found(state, id);
                && k < |state.On(s).queue| && state.On(s).queue[k] == r && r.id == id
                && orderMap[id].id == id && orderMap[id].traderId == r.trader && orderMap[id].quantity == r.qty
                && id in orderDetails && orderDetails[id] == OrderDetails(s, r.price, r.recorded)
    {
      hide BookInv, LadderOk, NoEmpty, Owns, Index;
      FoundFacts(state, id);
      if SideOf(state, id).Some? {
        ElementFacts(None, SideOf(state, id).value, Index(state.On(SideOf(state, id).value).queue, id));
      }
    }

    method CancelOrder(id: OrderId, traderId: TraderId, confirmsIn: seq<OrderConfirm>, mdsIn: seq<MdUpdate>)
      returns (confirms: seq<OrderConfirm>, mds: seq<MdUpdate>)
      requires Valid()
      modifies Repr
      ensures Repr == old(Repr)
      ensures var o := PriceTime.CancelOrder(old(state), symbol, id, traderId);
              state == o.book && confirms == confirmsIn + o.confirms && mds == mdsIn + o.mds
      ensures Valid()
    {
      hide Agrees, AgreesWith, Unlinked, Index;
      LookupFacts(id);
      OwnsFacts(state, None, {});
      if id !in orderMap {
        return confirmsIn + [OrderConfirm(Reject, id, 0, traderId, symbol, 0, 0, UnknownOrder)], mdsIn + [];
      }
      var elem := orderMap[id];
      if elem.traderId != traderId {
        return confirmsIn + [OrderConfirm(Reject, id, 0, traderId, symbol, 0, 0, UnknownOrder)], mdsIn + [];
      }
      var s, price, qty := orderDetails[id].side, orderDetails[id].price, elem.quantity;
      ghost var k := Index(state.On(s).queue, id);
      RemoveFromLevel(s, elem, price, Some(k));
      EraseIndexes(s, id, k, None);
      mds := mdsIn + [MdUpdate(symbol, id, s, price, qty, MdCancel)];
      confirms := confirmsIn + [OrderConfirm(CancelAck, id, 0, traderId, symbol, 0, 0, UnknownOrder)];
    }

    /** A modify that keeps its place rewrites the element and its recorded quantity only. */
    method ModifyInPlace(s: Side, elem: BookElement, newQty: Quantity, ghost k: nat)
      requires k < |state.On(s).queue| && state.On(s).queue[k].id == elem.id
      requires elem.id in orderMap && orderMap[elem.id] == elem
      requires Valid()
      modifies elem, `orderDetails, `state
      ensures state == old(state.With(s, Resize(state.On(s), k, newQty, newQty)).Tick())
      ensures Valid()
    {
      hide AgreesWith, Resize;
      ElementFacts(None, s, k);
      ghost var r := state.On(s).queue[k];
      SetQuantity(elem, newQty, None);
      var details := orderDetails[elem.id].(quantity := newQty);
      ghost var od := orderDetails;
      orderDetails := orderDetails[elem.id := details];
      FluxDetails(state, elem.id, od);
      IndexedHere(s, r.(qty := newQty, recorded := newQty), orderMap, orderDetails);
      Mended(state, None, s, k, newQty, newQty);
      Ticked(state.With(s, Resize(state.On(s), k, newQty, newQty)));
      state := state.With(s, Resize(state.On(s), k, newQty, newQty)).Tick();
    }

    /** The details of an order in flux may be rewritten. */
    lemma FluxDetails(b: Book, id: OrderId, od: map<OrderId, OrderDetails>)
      requires id in od && id in orderDetails && orderDetails == od[id := orderDetails[id]]
      requires AgreesWith(b, None, {id}, od)
      ensures Agrees(b, None, {id})
    {
      hide LadderOk, NoEmpty, Owns, BookInv, BookIds, Keyed;
    }

    /** The element and details of an order that is between two levels are rewritten. */
    method RewriteUnlinked(s: Side, elem: BookElement, details: OrderDetails, ghost k: nat)
      requires k < |state.On(s).queue| && state.On(s).queue[k].id == elem.id
      requires elem.id in orderMap && orderMap[elem.id] == elem
      requires Unlinked(state, None, s, k)
      modifies elem, `orderDetails
      ensures elem.quantity == details.quantity && orderDetails == old(orderDetails)[elem.id := details]
      ensures var b := state.With(s, Gone(state.On(s), k, 0));
              Detached(b, elem.id)
    {
      hide LadderOk, NoEmpty, Gone, SideInv, Ids;
      ghost var sb, o := state.On(s), s.Opposite();
      elem.quantity := details.quantity;
      orderDetails := orderDetails[elem.id := details];
      GoneKeeps(s, sb, k, 0, state.clock);
      DisjointIds(state, s, k);
      forall z: Side, x | x in state.On(z).queue && x.id != elem.id
        ensures IndexedAt(z, x, orderMap, orderDetails)
      {
        assert old(IndexedAt(z, x, orderMap, orderDetails));
        assert orderMap[x.id] != elem;
      }
    }

    /** A modify that loses its place re-queues the element at the back of its new level, without matching. */
    method Requeue(s: Side, elem: BookElement, oldPrice: Price, newPrice: Price, newQty: Quantity, ghost k: nat)
      requires k < |state.On(s).queue| && state.On(s).queue[k].id == elem.id && state.On(s).queue[k].price == oldPrice
      requires elem.id in orderMap && orderMap[elem.id] == elem
      requires Valid()
      modifies Repr
      ensures old(Repr) <= Repr && fresh(Repr - old(Repr))
      ensures var sb := old(state.On(s)); var r := sb.queue[k];
              state == old(state).With(s, Enqueue(s, Gone(sb, k, 0),
                         r.(price := newPrice, qty := newQty, recorded := newQty, entry := old(state.clock)))).Tick()
      ensures Valid()
    {
      hide Agrees, AgreesWith, Unlinked, Gone, Enqueue, LadderOk, NoEmpty, Indexed, Keyed, BookInv, BookIds;
      OwnsFacts(state, None, {});
      ElementFacts(None, s, k);
      ghost var r := state.On(s).queue[k].(price := newPrice, qty := newQty, recorded := newQty, entry := state.clock);
      ghost var b := state.With(s, Gone(state.On(s), k, 0));
      RemoveFromLevel(s, elem, oldPrice, Some(k));
      RewriteUnlinked(s, elem, OrderDetails(s, newPrice, newQty), k);
      JoinBack(s, elem, newPrice, b, r);
    }

    method ModifyOrder(id: OrderId, traderId: TraderId, newPrice: Price, newQty: Quantity,
                       confirmsIn: seq<OrderConfirm>, mdsIn: seq<MdUpdate>)
      returns (confirms: seq<OrderConfirm>, mds: seq<MdUpdate>)
      requires Valid()
      modifies Repr
      ensures old(Repr) <= Repr && fresh(Repr - old(Repr))
      ensures var o := PriceTime.ModifyOrder(old(state), symbol, id, traderId, newPrice, newQty);
              state == o.book && confirms == confirmsIn + o.confirms && mds == mdsIn + o.mds
      ensures Valid()
    {
      hide Agrees, AgreesWith, Index, Gone, Resize, Enqueue;
      LookupFacts(id);
      OwnsFacts(state, None, {});
      if id !in orderMap {
        return confirmsIn + [OrderConfirm(Reject, id, 0, traderId, symbol, 0, 0, UnknownOrder)], mdsIn + [];
      }
      var elem := orderMap[id];
      if elem.traderId != traderId {
        return confirmsIn + [OrderConfirm(Reject, id, 0, traderId, symbol, 0, 0, UnknownOrder)], mdsIn + [];
      }
      var s, oldPrice, oldQty := orderDetails[id].side, orderDetails[id].price, orderDetails[id].quantity;
      ghost var k := Index(state.On(s).queue, id);
      if oldPrice == newPrice && newQty < oldQty {
        ModifyInPlace(s, elem, newQty, k);
      } else {
        Requeue(s, elem, oldPrice, newPrice, newQty, k);
      }
      mds := mdsIn + [MdUpdate(symbol, id, s, newPrice, newQty, MdModify)];
      confirms := confirmsIn + [OrderConfirm(ModifyAck, id, 0, traderId, symbol, 0, 0, UnknownOrder)];
    }

    // ---- Best of book ----

    lemma BestFacts(s: Side)
      requires Valid()
      ensures state.On(s).queue != [] ==>
                var p := state.On(s).queue[0].price;
                && p in Levels(s) && Levels(s)[p].totalQty == LevelTotal(state.On(s), p)
    {
      hide BookInv, LevelTotal, Keyed, Indexed, At, Linked;
      LadderFacts(state, None, {}, s);
      if state.On(s).queue != [] {
        var p := state.On(s).queue[0].price;
        assert state.On(s).queue[0] in state.On(s).queue;
        LinkedLength(Levels(s)[p].orders, At(state.On(s).queue, p), orderMap);
      }
    }

    /** Index agreement, spelled out: both indexes know the same ids; every element in a level is the
        indexed one for its id, on its recorded side and price; every indexed element is in such a level,
        once; and no level is empty. */
    lemma IndexAgreement(s: Side, p: Price)
      requires Valid()
      ensures orderMap.Keys == orderDetails.Keys
      ensures p in Levels(s) ==>
                var l := Levels(s)[p].orders;
                && l != []
                && (forall j :: 0 <= j < |l| ==>
                      l[j].id in orderMap && orderMap[l[j].id] == l[j]
                      && orderDetails[l[j].id].side == s && orderDetails[l[j].id].price == p)
                && (forall i, j :: 0 <= i < j < |l| ==> l[i] != l[j])
      ensures forall id | id in orderMap ::
                var d := orderDetails[id]; d.price in Levels(d.side) && orderMap[id] in Levels(d.side)[d.price].orders
    {
      hide BookInv, LevelTotal, Sorted, Sound, Anchored, At;
      if p in Levels(s) {
        LadderFacts(state, None, {}, s);
        SomeLevel(s);
        LevelAgrees(s, p);
      }
      forall id | id in orderMap
        ensures var d := orderDetails[id]; d.price in Levels(d.side) && orderMap[id] in Levels(d.side)[d.price].orders
      {
        LookupFacts(id);
        var z := SideOf(state, id).value;
        LadderFacts(state, None, {}, z);
        var r := Found(state, id);
        ElementFacts(None, z, Index(state.On(z).queue, id));
        InItsLevel(Levels(z), state.On(z), orderMap, r);
      }
    }

    lemma LevelAgrees(s: Side, p: Price)
      requires Valid() && p in Levels(s) && Unique(state.On(s).queue)
      ensures var l := Levels(s)[p].orders;
              && (forall j :: 0 <= j < |l| ==>
                    l[j].id in orderMap && orderMap[l[j].id] == l[j]
                    && l[j].id in orderDetails && orderDetails[l[j].id].side == s && orderDetails[l[j].id].price == p)
              && (forall i, j :: 0 <= i < j < |l| ==> l[i] != l[j])
    {
      hide BookInv, LevelTotal, Sorted, Sound, Anchored, At, Unique;
      var l, q := Levels(s)[p].orders, state.On(s).queue;
      var rs := At(q, p);
      LadderFacts(state, None, {}, s);
      assert Linked(l, rs, orderMap);
      forall j | 0 <= j < |l|
        ensures rs[j].price == p && IndexedAt(s, rs[j], orderMap, orderDetails) && l[j] == orderMap[rs[j].id]
      {
        AtMember(q, p, rs[j]);
      }
      AtUnique(q, p);
      assert forall i, j :: 0 <= i < j < |l| ==> rs[i].id != rs[j].id by {
        UniqueMeans(rs);
      }
    }

    /** The price of the first level, or 0: no resting order of the side has a better price. */
    method GetBestPrice(s: Side) returns (p: Price)
      requires Valid()
      ensures p == BestPrice(state.On(s))
      ensures forall k | k in Levels(s) :: p in Levels(s) && !Better(s, k, p)
    {
      hide Agrees, AgreesWith;
      SomeLevel(s);
      if |Levels(s)| == 0 {
        return 0;
      }
      p := BestLevel(s);
    }

    /** The cached total of the first level, or 0. */
    method GetBestQty(s: Side) returns (q: Quantity)
      requires Valid()
      ensures q == BestQty(state.On(s))
    {
      hide Agrees, AgreesWith, LevelTotal;
      SomeLevel(s);
      if |Levels(s)| == 0 {
        return 0;
      }
      BestFacts(s);
      var p := BestLevel(s);
      q := Levels(s)[p].totalQty;
    }
  }

  lemma InItsLevel(levels: Ladder, sb: SideBook, om: ElementIndex, r: Resting)
    requires LadderOk(levels, sb, om) && r in sb.queue
    ensures r.price in levels && r.id in om && om[r.id] in levels[r.price].orders
  {
    hide At, LevelTotal;
    AtMember(sb.queue, r.price, r);
    var rs := At(sb.queue, r.price);
    var j :| 0 <= j < |rs| && rs[j] == r;
    assert levels[r.price].orders[j] == om[r.id];
  }

  lemma UniqueMeans(rs: seq<Resting>)
    requires Unique(rs)
    ensures forall i, j :: 0 <= i < j < |rs| ==> rs[i].id != rs[j].id
  {
  }

  /** Where iteration over the ladder begins. */
  predicate IsFirst(s: Side, levels: Ladder, p: Price) {
    p in levels && forall k | k in levels :: !Better(s, k, p)
  }

  lemma OneFirst(s: Side, levels: Ladder, a: Price, b: Price)
    requires IsFirst(s, levels, a) && IsFirst(s, levels, b)
    ensures a == b
  {
  }

  lemma EmptyLevelFits(levels: Ladder, price: Price, level: PriceLevel, sb: SideBook, om: ElementIndex)
    requires LadderOk(levels, sb, om) && NoEmpty(levels, sb, None) && price !in levels
    requires level.price == price && level.orders == [] && level.totalQty == 0
    ensures LadderOk(levels[price := level], sb, om) && NoEmpty(levels[price := level], sb, Some(price))
  {
    hide LevelTotal;
    NoneAt(sb.queue, price);
  }

  lemma LevelOccupied(levels: Ladder, price: Price, sb: SideBook, om: ElementIndex)
    requires LadderOk(levels, sb, om) && NoEmpty(levels, sb, None) && price in levels
    ensures levels[price].orders != [] && NoEmpty(levels, sb, Some(price))
  {
    hide At, LevelTotal;
    LinkedLength(levels[price].orders, At(sb.queue, price), om);
  }

  lemma OnTrackStart(sym: SymbolId, s: Side, inc: OrderRequest, rem: Quantity, sb: SideBook,
                     confirms: seq<OrderConfirm>, mds: seq<MdUpdate>)
    ensures var w := Walk(s, inc, rem, sb);
            OnTrack(sym, s, inc, rem, sb, confirms, mds,
                    Goal(w.rem, w.side, confirms + Confirms(sym, inc, w.events), mds + Mds(sym, s, inc, w.events)))
  {
    hide Walk, Confirms, Mds;
  }

  /** Nothing is left to do. */
  lemma OnTrackEnd(sym: SymbolId, s: Side, inc: OrderRequest, rem: Quantity, sb: SideBook,
                   confirms: seq<OrderConfirm>, mds: seq<MdUpdate>, goal: Goal)
    requires OnTrack(sym, s, inc, rem, sb, confirms, mds, goal)
    requires rem == 0 || sb.queue == [] || !Tradable(s, inc.price, sb.queue[0].price)
    ensures rem == goal.rem && sb == goal.side && confirms == goal.confirms && mds == goal.mds
  {
    assert Confirms(sym, inc, []) == [] && Mds(sym, s, inc, []) == [];
  }

  lemma NoEmptySame(levels: Ladder, a: SideBook, b: SideBook, hole: Option<Price>)
    requires NoEmpty(levels, a, hole) && a.queue == b.queue
    ensures NoEmpty(levels, b, hole)
  {
  }

  /** Erasing an empty level. */
  lemma EmptyLevelGoes(levels: Ladder, sb: SideBook, om: ElementIndex, p: Price)
    requires LadderOk(levels, sb, om) && NoEmpty(levels, sb, Some(p))
    requires p in levels
    ensures levels[p].orders == [] ==> LadderOk(levels - {p}, sb, om) && NoEmpty(levels - {p}, sb, None)
    ensures levels[p].orders != [] ==> NoEmpty(levels, sb, None)
  {
    hide At, LevelTotal;
    LinkedLength(levels[p].orders, At(sb.queue, p), om);
    forall r | r in sb.queue && r.price == p
      ensures At(sb.queue, p) != []
    {
      AtMember(sb.queue, p, r);
    }
  }

  lemma NoEmptyEnqueued(levels: Ladder, s: Side, sb: SideBook, r: Resting)
    requires NoEmpty(levels, sb, Some(r.price)) && Sorted(s, sb.queue)
    ensures NoEmpty(levels, Enqueue(s, sb, r), None)
  {
    hide At, Enqueue, Sorted;
    forall p | p in levels
      ensures At(Enqueue(s, sb, r).queue, p) != []
    {
      AtEnqueue(s, sb, r, p);
    }
  }

  lemma NoEmptyGone(levels: Ladder, sb: SideBook, k: nat, leak: int, hole: Option<Price>)
    requires k < |sb.queue| && NoEmpty(levels, sb, hole)
    requires hole == None || hole == Some(sb.queue[k].price)
    ensures NoEmpty(levels, Gone(sb, k, leak), Some(sb.queue[k].price))
  {
    hide At, Gone;
    forall p | p in levels && p != sb.queue[k].price
      ensures At(Gone(sb, k, leak).queue, p) != []
    {
      GoneOrders(sb, k, leak, p);
    }
  }

  ghost function HoleOn(hole: Option<(Side, Price)>, s: Side): Option<Price> {
    if hole.Some? && hole.value.0 == s then Some(hole.value.1) else None
  }
}
