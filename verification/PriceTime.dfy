/**
 The order book as one flat price-time queue per side.

 A queue holds every resting order of a side in execution order. `entry` is a history
 variable: the book's clock when the order last joined the back of a level. `drift` is the
 amount by which a level's cached total has moved away from the quantities queued there.
 */
module PriceTime {
  import opened ExchangeTypes

  datatype Resting = Resting(
    id: OrderId,
    trader: TraderId,
    price: Price,
    qty: Quantity,       // live quantity (BookElement::m_quantity)
    recorded: Quantity,  // OrderDetails::quantity, not reduced by fills
    entry: nat)

  datatype SideBook = SideBook(queue: seq<Resting>, drift: map<Price, int>) {
    function DriftAt(p: Price): int {
      if p in drift then drift[p] else 0
    }
  }

  datatype Book = Book(bids: SideBook, asks: SideBook, clock: nat) {
    function On(s: Side): SideBook {
      if s.Buy? then bids else asks
    }

    function With(s: Side, sb: SideBook): Book {
      if s.Buy? then this.(bids := sb) else this.(asks := sb)
    }

    function Tick(): Book {
      this.(clock := clock + 1)
    }
  }

  const EMPTY_SIDE := SideBook([], map[])
  const EMPTY_BOOK := Book(EMPTY_SIDE, EMPTY_SIDE, 0)

  // ---- Queues ----

  /** A price that is served first on side s. */
  predicate Better(s: Side, a: Price, b: Price) {
    if s.Buy? then a > b else a < b
  }

  /** Can an incoming order with this limit trade against a passive price on side s? */
  predicate Tradable(s: Side, limit: Price, price: Price) {
    if s.Sell? then price <= limit else price >= limit
  }

  /** Price-time priority. */
  predicate Before(s: Side, a: Resting, b: Resting) {
    Better(s, a.price, b.price) || (a.price == b.price && a.entry < b.entry)
  }

  /** The orders queued at one price, in order: the contents of that price level. */
  function At(q: seq<Resting>, p: Price): seq<Resting> {
    if q == [] then []
    else if q[0].price == p then [q[0]] + At(q[1..], p)
    else At(q[1..], p)
  }

  function SumQty(q: seq<Resting>): nat {
    if q == [] then 0 else q[0].qty + SumQty(q[1..])
  }

  /** What the level's cached total holds: the live sum plus the accumulated drift, in 32 bits. */
  function LevelTotal(sb: SideBook, p: Price): Quantity {
    Wrap32(SumQty(At(sb.queue, p)) + sb.DriftAt(p))
  }

  function BestPrice(sb: SideBook): Price {
    if sb.queue == [] then 0 else sb.queue[0].price
  }

  function BestQty(sb: SideBook): Quantity {
    if sb.queue == [] then 0 else LevelTotal(sb, sb.queue[0].price)
  }

  function Index(q: seq<Resting>, id: OrderId): (k: nat)
    ensures k <= |q|
    ensures forall i :: 0 <= i < k ==> q[i].id != id
    ensures k < |q| ==> q[k].id == id
  {
    if q == [] || q[0].id == id then 0 else 1 + Index(q[1..], id)
  }

  /** The position behind every order whose price is at least as good. */
  function Slot(s: Side, q: seq<Resting>, price: Price): (k: nat)
    ensures k <= |q|
    ensures forall i :: 0 <= i < k ==> !Better(s, price, q[i].price)
    ensures k < |q| ==> Better(s, price, q[k].price)
  {
    if q == [] || Better(s, price, q[0].price) then 0 else 1 + Slot(s, q[1..], price)
  }

  function Enqueue(s: Side, sb: SideBook, r: Resting): SideBook {
    var k := Slot(s, sb.queue, r.price);
    sb.(queue := sb.queue[..k] + [r] + sb.queue[k..])
  }

  /** The side after an order left price p: the drift of p grows by `leak`, or is forgotten with the level. */
  function Settle(q: seq<Resting>, drift: map<Price, int>, p: Price, leak: int): SideBook {
    if At(q, p) == [] then SideBook(q, drift - {p})
    else SideBook(q, drift[p := SideBook(q, drift).DriftAt(p) + leak])
  }

  /** Order k leaves, its last `leak` units unseen by the cached total. */
  function Gone(sb: SideBook, k: nat, leak: int): SideBook
    requires k < |sb.queue|
  {
    Settle(sb.queue[..k] + sb.queue[k + 1..], sb.drift, sb.queue[k].price, leak)
  }

  /** The head leaves after a final fill of `leak`, which the cached total never sees. */
  function DropHead(sb: SideBook, leak: int): SideBook
    requires sb.queue != []
  {
    Settle(sb.queue[1..], sb.drift, sb.queue[0].price, leak)
  }

  /** The head is partly filled and stays. */
  function Shrink(sb: SideBook, t: Quantity): SideBook
    requires sb.queue != [] && t <= sb.queue[0].qty
  {
    sb.(queue := [sb.queue[0].(qty := sb.queue[0].qty - t)] + sb.queue[1..])
  }

  // ---- Matching ----

  datatype Event = Fill(passive: Resting, qty: Quantity) | SelfCancel(passive: Resting)

  datatype Walked = Walked(events: seq<Event>, rem: Quantity, side: SideBook)

  /** One greedy pass over the flat passive queue. */
  function Walk(s: Side, inc: OrderRequest, rem: Quantity, sb: SideBook): Walked
    decreases |sb.queue|
  {
    if rem == 0 || sb.queue == [] || !Tradable(s, inc.price, sb.queue[0].price) then
      Walked([], rem, sb)
    else
      var h := sb.queue[0];
      if h.trader == inc.traderId then
        var w := Walk(s, inc, rem, DropHead(sb, 0));
        w.(events := [SelfCancel(h)] + w.events)
      else if h.qty <= rem then
        var w := Walk(s, inc, rem - h.qty, DropHead(sb, h.qty));
        w.(events := [Fill(h, h.qty)] + w.events)
      else
        Walked([Fill(h, rem)], 0, Shrink(sb, rem))
  }

  function TradeConfirm(sym: SymbolId, id: OrderId, client: OrderId, trader: TraderId,
                        price: Price, qty: Quantity): OrderConfirm
  {
    OrderConfirm(Trade, id, client, trader, sym, price, qty, UnknownOrder)
  }

  function EventConfirms(sym: SymbolId, inc: OrderRequest, e: Event): seq<OrderConfirm> {
    match e
    case SelfCancel(r) =>
      [OrderConfirm(CancelAck, r.id, 0, r.trader, sym, 0, r.qty, SelfTrade)]
    case Fill(r, t) =>
      [TradeConfirm(sym, r.id, 0, r.trader, r.price, t),
       TradeConfirm(sym, inc.orderId, inc.clientOrderId, inc.traderId, r.price, t)]
  }

  function EventMds(sym: SymbolId, s: Side, inc: OrderRequest, e: Event): seq<MdUpdate> {
    match e
    case SelfCancel(r) =>
      [MdUpdate(sym, r.id, s, r.price, r.qty, MdCancel)]
    case Fill(r, t) =>
      [MdUpdate(sym, r.id, s, r.price, t, MdTrade),
       MdUpdate(sym, inc.orderId, inc.side, inc.price, t, MdTrade)]
  }

  function Confirms(sym: SymbolId, inc: OrderRequest, evs: seq<Event>): seq<OrderConfirm> {
    if evs == [] then [] else EventConfirms(sym, inc, evs[0]) + Confirms(sym, inc, evs[1..])
  }

  function Mds(sym: SymbolId, s: Side, inc: OrderRequest, evs: seq<Event>): seq<MdUpdate> {
    if evs == [] then [] else EventMds(sym, s, inc, evs[0]) + Mds(sym, s, inc, evs[1..])
  }

  // ---- Requests against one book ----

  datatype Outcome = Outcome(book: Book, confirms: seq<OrderConfirm>, mds: seq<MdUpdate>)

  function Matched(b: Book, req: OrderRequest): Walked {
    Walk(req.side.Opposite(), req, req.quantity, b.On(req.side.Opposite()))
  }

  function Rested(b: Book, req: OrderRequest, w: Walked): Book {
    var b1 := b.With(req.side.Opposite(), w.side).Tick();
    if w.rem == 0 then b1
    else
      b1.With(req.side, Enqueue(req.side, b1.On(req.side),
                                Resting(req.orderId, req.traderId, req.price, w.rem, w.rem, b.clock)))
  }

  function Add(b: Book, sym: SymbolId, req: OrderRequest): Outcome {
    var w := Matched(b, req);
    Outcome(
      Rested(b, req, w),
      [OrderConfirm(NewAck, req.orderId, req.clientOrderId, req.traderId, sym, 0, 0, UnknownOrder)]
      + Confirms(sym, req, w.events),
      [MdUpdate(sym, req.orderId, req.side, req.price, req.quantity, MdNew)]
      + Mds(sym, req.side.Opposite(), req, w.events))
  }

  /** The side an order rests on, if it rests at all. */
  function SideOf(b: Book, id: OrderId): Option<Side> {
    if Index(b.bids.queue, id) < |b.bids.queue| then Some(Buy)
    else if Index(b.asks.queue, id) < |b.asks.queue| then Some(Sell)
    else None
  }

  function Found(b: Book, id: OrderId): Resting
    requires SideOf(b, id).Some?
  {
    var q := b.On(SideOf(b, id).value).queue;
    q[Index(q, id)]
  }

  /** Cancels and modifies act only on an order the requesting trader owns. */
  predicate Accepted(b: Book, id: OrderId, trader: TraderId) {
    SideOf(b, id).Some? && Found(b, id).trader == trader
  }

  function Ack(kind: ConfirmType, id: OrderId, trader: TraderId, sym: SymbolId): OrderConfirm {
    OrderConfirm(kind, id, 0, trader, sym, 0, 0, UnknownOrder)
  }

  function CancelOrder(b: Book, sym: SymbolId, id: OrderId, trader: TraderId): Outcome {
    if !Accepted(b, id, trader) then Outcome(b, [Ack(Reject, id, trader, sym)], [])
    else
      var s := SideOf(b, id).value;
      var r := Found(b, id);
      Outcome(
        b.With(s, Gone(b.On(s), Index(b.On(s).queue, id), 0)),
        [Ack(CancelAck, id, trader, sym)],
        [MdUpdate(sym, id, s, r.price, r.qty, MdCancel)])
  }

  /** A modify keeps its place only if the price stays and the size drops below the recorded one. */
  predicate KeepsPlace(r: Resting, price: Price, qty: Quantity) {
    r.price == price && qty < r.recorded
  }

  function Replaced(q: seq<Resting>, k: nat, r: Resting): seq<Resting>
    requires k < |q|
  {
    q[..k] + [r] + q[k + 1..]
  }

  /** Order k changes size without moving; its level's cached total is not told. */
  function Resize(sb: SideBook, k: nat, qty: Quantity, recorded: Quantity): SideBook
    requires k < |sb.queue|
  {
    var r := sb.queue[k];
    SideBook(Replaced(sb.queue, k, r.(qty := qty, recorded := recorded)),
             sb.drift[r.price := sb.DriftAt(r.price) + r.qty - qty])
  }

  function ModifySide(s: Side, sb: SideBook, k: nat, price: Price, qty: Quantity, now: nat): SideBook
    requires k < |sb.queue|
  {
    var r := sb.queue[k];
    if KeepsPlace(r, price, qty) then Resize(sb, k, qty, qty)
    else Enqueue(s, Gone(sb, k, 0), r.(price := price, qty := qty, recorded := qty, entry := now))
  }

  function ModifyOrder(b: Book, sym: SymbolId, id: OrderId, trader: TraderId, price: Price, qty: Quantity): Outcome {
    if !Accepted(b, id, trader) then Outcome(b, [Ack(Reject, id, trader, sym)], [])
    else
      var s := SideOf(b, id).value;
      Outcome(
        b.With(s, ModifySide(s, b.On(s), Index(b.On(s).queue, id), price, qty, b.clock)).Tick(),
        [Ack(ModifyAck, id, trader, sym)],
        [MdUpdate(sym, id, s, price, qty, MdModify)])
  }

  function Apply(b: Book, sym: SymbolId, req: OrderRequest): Outcome {
    match req.requestType
    case New => Add(b, sym, req)
    case Cancel => CancelOrder(b, sym, req.orderId, req.traderId)
    case Modify => ModifyOrder(b, sym, req.orderId, req.traderId, req.price, req.quantity)
  }
}
