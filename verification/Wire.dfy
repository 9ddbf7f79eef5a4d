/** The packed little-endian request messages. */
module Wire {
  import opened ExchangeTypes

  type Bytes = seq<u8>

  // ---- Little-endian integers ----

  function Le(n: nat, width: nat): Bytes {
    if width == 0 then [] else [n % 256] + Le(n / 256, width - 1)
  }

  function UnLe(b: Bytes): nat {
    if b == [] then 0 else b[0] + 256 * UnLe(b[1..])
  }

  function Pow256(width: nat): nat {
    if width == 0 then 1 else 256 * Pow256(width - 1)
  }

  lemma Pow256Values()
    ensures Pow256(1) == 0x100 && Pow256(2) == TWO16 && Pow256(4) == TWO32 && Pow256(8) == TWO64
  {
    assert Pow256(3) == 256 * Pow256(2);
    assert Pow256(5) == 256 * Pow256(4);
    assert Pow256(6) == 256 * Pow256(5);
    assert Pow256(7) == 256 * Pow256(6);
  }

  lemma {:induction false} LeRoundTrip(n: nat, width: nat)
    requires n < Pow256(width)
    ensures |Le(n, width)| == width && UnLe(Le(n, width)) == n
  {
    if width > 0 {
      LeRoundTrip(n / 256, width - 1);
      assert Le(n, width)[1..] == Le(n / 256, width - 1);
    }
  }

  lemma {:induction false} UnLeRoundTrip(b: Bytes)
    ensures UnLe(b) < Pow256(|b|) && Le(UnLe(b), |b|) == b
  {
    if b != [] {
      UnLeRoundTrip(b[1..]);
      assert UnLe(b) % 256 == b[0] && UnLe(b) / 256 == UnLe(b[1..]);
      assert b == [b[0]] + b[1..];
    }
  }

  function U16(b: Bytes, at: nat): u16
    requires at + 2 <= |b|
  {
    UnLeRoundTrip(b[at..at + 2]);
    Pow256Values();
    UnLe(b[at..at + 2])
  }

  function U32(b: Bytes, at: nat): u32
    requires at + 4 <= |b|
  {
    UnLeRoundTrip(b[at..at + 4]);
    Pow256Values();
    UnLe(b[at..at + 4])
  }

  function U64(b: Bytes, at: nat): u64
    requires at + 8 <= |b|
  {
    UnLeRoundTrip(b[at..at + 8]);
    Pow256Values();
    UnLe(b[at..at + 8])
  }

  // ---- Messages ----

  const HEADER_SIZE := 3
  const NEW_SIZE := 24
  const MODIFY_SIZE := 23
  const CANCEL_SIZE := 15
  const MAX_RAW_MSG_SIZE := 128

  const NEW_TYPE: u8 := 1
  const MODIFY_TYPE: u8 := 2
  const CANCEL_TYPE: u8 := 3

  datatype Message =
    | NewMsg(clientOrderId: OrderId, symbolId: SymbolId, side: Side, price: Price, qty: Quantity)
    | ModifyMsg(orderId: OrderId, symbolId: SymbolId, price: Price, qty: Quantity)
    | CancelMsg(orderId: OrderId, symbolId: SymbolId)

  function SizeOf(m: Message): nat {
    match m
    case NewMsg(_, _, _, _, _) => NEW_SIZE
    case ModifyMsg(_, _, _, _) => MODIFY_SIZE
    case CancelMsg(_, _) => CANCEL_SIZE
  }

  function SideByte(s: Side): u8 {
    if s.Buy? then 0 else 1
  }

  function Encode(m: Message): Bytes {
    match m
    case NewMsg(client, sym, side, price, qty) =>
      Le(NEW_SIZE, 2) + [NEW_TYPE] + Le(client, 8) + Le(sym, 4) + [SideByte(side)] + Le(price, 4) + Le(qty, 4)
    case ModifyMsg(id, sym, price, qty) =>
      Le(MODIFY_SIZE, 2) + [MODIFY_TYPE] + Le(id, 8) + Le(sym, 4) + Le(price, 4) + Le(qty, 4)
    case CancelMsg(id, sym) =>
      Le(CANCEL_SIZE, 2) + [CANCEL_TYPE] + Le(id, 8) + Le(sym, 4)
  }

  /** The internal request a wire message stands for. */
  function ToRequest(m: Message, trader: TraderId): OrderRequest {
    match m
    case NewMsg(client, sym, side, price, qty) => OrderRequest(0, client, price, trader, sym, qty, side, New)
    case ModifyMsg(id, sym, price, qty) => OrderRequest(id, 0, price, trader, sym, qty, Buy, Modify)
    case CancelMsg(id, sym) => OrderRequest(id, 0, 0, trader, sym, 0, Buy, Cancel)
  }

  /** The message a request came from, told from the request alone. */
  function Origin(req: OrderRequest): Message {
    match req.requestType
    case New => NewMsg(req.clientOrderId, req.symbolId, req.side, req.price, req.quantity)
    case Modify => ModifyMsg(req.orderId, req.symbolId, req.price, req.quantity)
    case Cancel => CancelMsg(req.orderId, req.symbolId)
  }

  /** Conversion to a request loses nothing of the message and records who sent it. */
  lemma OriginOf(m: Message, trader: TraderId)
    ensures Origin(ToRequest(m, trader)) == m && ToRequest(m, trader).traderId == trader
  {
  }

  /** The fixed-size envelope on the queue between the network and the matching thread. */
  datatype RawMessage = RawMessage(traderId: TraderId, length: u16, data: Bytes)

  predicate WellSized(raw: RawMessage) {
    |raw.data| == MAX_RAW_MSG_SIZE
  }

  /** Parses an envelope: too short or of unknown type means it is skipped. */
  function Decode(raw: RawMessage): Option<OrderRequest>
    requires WellSized(raw)
  {
    var d := raw.data;
    if raw.length < HEADER_SIZE then None
    else if d[2] == NEW_TYPE then
      if raw.length < NEW_SIZE then None
      else
        var side := if d[15] == 0 then Buy else Sell;
        Some(ToRequest(NewMsg(U64(d, 3), U32(d, 11), side, U32(d, 16), U32(d, 20)), raw.traderId))
    else if d[2] == CANCEL_TYPE then
      if raw.length < CANCEL_SIZE then None
      else Some(ToRequest(CancelMsg(U64(d, 3), U32(d, 11)), raw.traderId))
    else if d[2] == MODIFY_TYPE then
      if raw.length < MODIFY_SIZE then None
      else Some(ToRequest(ModifyMsg(U64(d, 3), U32(d, 11), U32(d, 15), U32(d, 19)), raw.traderId))
    else None
  }

  // ---- The bytes themselves ----

  /** Two, four and eight bytes as a number, least significant byte first. */
  function Two(d: Bytes, at: nat): int
    requires at + 2 <= |d|
  {
    var a: int, b: int := d[at], d[at + 1];
    a + 0x100 * b
  }

  function Four(d: Bytes, at: nat): int
    requires at + 4 <= |d|
  {
    Two(d, at) + 0x1_0000 * Two(d, at + 2)
  }

  function Eight(d: Bytes, at: nat): int
    requires at + 8 <= |d|
  {
    Four(d, at) + 0x1_0000_0000 * Four(d, at + 4)
  }

  lemma UnLeTwo(b: Bytes)
    requires |b| >= 2
    ensures UnLe(b) == Two(b, 0) + 0x1_0000 * UnLe(b[2..])
  {
    assert b[1..][1..] == b[2..];
  }

  lemma UnLeFour(b: Bytes)
    requires |b| >= 4
    ensures UnLe(b) == Four(b, 0) + 0x1_0000_0000 * UnLe(b[4..])
  {
    UnLeTwo(b);
    UnLeTwo(b[2..]);
    assert b[2..][2..] == b[4..];
  }

  lemma U16Bytes(d: Bytes, at: nat)
    requires at + 2 <= |d|
    ensures U16(d, at) == Two(d, at)
  {
    UnLeTwo(d[at..at + 2]);
  }

  lemma U32Bytes(d: Bytes, at: nat)
    requires at + 4 <= |d|
    ensures U32(d, at) == Four(d, at)
  {
    UnLeFour(d[at..at + 4]);
  }

  lemma U64Bytes(d: Bytes, at: nat)
    requires at + 8 <= |d|
    ensures U64(d, at) == Eight(d, at)
  {
    var b := d[at..at + 8];
    UnLeFour(b);
    UnLeFour(b[4..]);
    assert b[4..][4..] == [];
  }

  /** What the matching thread reads in an envelope, byte by byte: type 1 is a new order of at least 24
      bytes, 2 a modify of at least 23, 3 a cancel of at least 15, and everything else is skipped. */
  lemma DecodeBytes(raw: RawMessage)
    requires WellSized(raw)
    ensures var d, n := raw.data, raw.length;
            && (Decode(raw).Some? <==> (d[2] == 1 && n >= 24) || (d[2] == 2 && n >= 23) || (d[2] == 3 && n >= 15))
            && (Decode(raw).Some? ==>
                  var r := Decode(raw).value;
                  && r.traderId == raw.traderId && r.symbolId == Four(d, 11)
                  && (d[2] == 1 ==>
                        && r.requestType == New && r.orderId == 0 && r.clientOrderId == Eight(d, 3)
                        && (r.side == Buy <==> d[15] == 0) && r.price == Four(d, 16) && r.quantity == Four(d, 20))
                  && (d[2] == 2 ==>
                        && r.requestType == Modify && r.orderId == Eight(d, 3) && r.clientOrderId == 0
                        && r.price == Four(d, 15) && r.quantity == Four(d, 19))
                  && (d[2] == 3 ==>
                        && r.requestType == Cancel && r.orderId == Eight(d, 3) && r.clientOrderId == 0
                        && r.price == 0 && r.quantity == 0))
  {
    hide U32, U64, Four, Eight;
    var d := raw.data;
    U64Bytes(d, 3);
    U32Bytes(d, 11);
    U32Bytes(d, 15);
    U32Bytes(d, 16);
    U32Bytes(d, 19);
    U32Bytes(d, 20);
  }

  /** The header and the side byte a client sends. */
  lemma EncodeBytes(m: Message)
    ensures var b := Encode(m);
            && |b| == (if m.NewMsg? then 24 else if m.ModifyMsg? then 23 else 15)
            && b[0] == |b| && b[1] == 0
            && b[2] == (if m.NewMsg? then 1 else if m.ModifyMsg? then 2 else 3)
            && (m.NewMsg? ==> b[15] == if m.side.Buy? then 0 else 1)
  {
    hide Le, Encode;
    Layout(m);
    U16Bytes(Encode(m), 0);
    match m
    case NewMsg(_, _, _, _, _) => NewLayout(m);
    case ModifyMsg(_, _, _, _) => ModifyLayout(m);
    case CancelMsg(_, _) => CancelLayout(m);
  }

  lemma FieldAt(b: Bytes, at: nat, n: nat, width: nat)
    requires at + width <= |b| && n < Pow256(width) && b[at..at + width] == Le(n, width)
    ensures UnLe(b[at..at + width]) == n
  {
    LeRoundTrip(n, width);
  }

  lemma LeSizes(n: nat, width: nat)
    requires n < Pow256(width)
    ensures |Le(n, width)| == width
  {
    LeRoundTrip(n, width);
  }

  /** Where each field of a new-order message sits. */
  lemma NewLayout(m: Message)
    requires m.NewMsg?
    ensures var b := Encode(m);
            && |b| == NEW_SIZE && b[2] == NEW_TYPE && b[15] == SideByte(m.side)
            && b[0..2] == Le(NEW_SIZE, 2) && b[3..11] == Le(m.clientOrderId, 8) && b[11..15] == Le(m.symbolId, 4)
            && b[16..20] == Le(m.price, 4) && b[20..24] == Le(m.qty, 4)
  {
    hide Le;
    Pow256Values();
    LeSizes(NEW_SIZE, 2);
    LeSizes(m.clientOrderId, 8);
    LeSizes(m.symbolId, 4);
    LeSizes(m.price, 4);
    LeSizes(m.qty, 4);
  }

  lemma ModifyLayout(m: Message)
    requires m.ModifyMsg?
    ensures var b := Encode(m);
            && |b| == MODIFY_SIZE && b[2] == MODIFY_TYPE
            && b[0..2] == Le(MODIFY_SIZE, 2) && b[3..11] == Le(m.orderId, 8) && b[11..15] == Le(m.symbolId, 4)
            && b[15..19] == Le(m.price, 4) && b[19..23] == Le(m.qty, 4)
  {
    hide Le;
    Pow256Values();
    LeSizes(MODIFY_SIZE, 2);
    LeSizes(m.orderId, 8);
    LeSizes(m.symbolId, 4);
    LeSizes(m.price, 4);
    LeSizes(m.qty, 4);
  }

  lemma CancelLayout(m: Message)
    requires m.CancelMsg?
    ensures var b := Encode(m);
            && |b| == CANCEL_SIZE && b[2] == CANCEL_TYPE
            && b[0..2] == Le(CANCEL_SIZE, 2) && b[3..11] == Le(m.orderId, 8) && b[11..15] == Le(m.symbolId, 4)
  {
    hide Le;
    Pow256Values();
    LeSizes(CANCEL_SIZE, 2);
    LeSizes(m.orderId, 8);
    LeSizes(m.symbolId, 4);
  }

  /** Every message fills exactly its size, and announces it in its header. */
  lemma Layout(m: Message)
    ensures |Encode(m)| == SizeOf(m) <= MAX_RAW_MSG_SIZE
    ensures U16(Encode(m), 0) == SizeOf(m)
  {
    hide Le, UnLe, Encode;
    Pow256Values();
    match m
    case NewMsg(_, _, _, _, _) => NewLayout(m); FieldAt(Encode(m), 0, NEW_SIZE, 2);
    case ModifyMsg(_, _, _, _) => ModifyLayout(m); FieldAt(Encode(m), 0, MODIFY_SIZE, 2);
    case CancelMsg(_, _) => CancelLayout(m); FieldAt(Encode(m), 0, CANCEL_SIZE, 2);
  }

  lemma SameSlice(a: Bytes, b: Bytes, i: nat, j: nat)
    requires i <= j <= |a| <= |b| && b[..|a|] == a
    ensures b[i..j] == a[i..j]
  {
    assert b[..|a|][i..j] == b[i..j];
  }

  /** Decoding inverts encoding, whatever follows the message in the envelope. */
  lemma DecodeEncode(m: Message, raw: RawMessage)
    requires WellSized(raw) && raw.length >= SizeOf(m)
    requires |Encode(m)| <= |raw.data| && raw.data[..|Encode(m)|] == Encode(m)
    ensures Decode(raw) == Some(ToRequest(m, raw.traderId))
  {
    hide Le, UnLe, Encode;
    var b, d := Encode(m), raw.data;
    Pow256Values();
    Layout(m);
    assert forall i :: 0 <= i < |b| ==> d[i] == d[..|b|][i] == b[i];
    SameSlice(b, d, 3, 11);
    SameSlice(b, d, 11, 15);
    match m
    case NewMsg(client, sym, side, price, qty) =>
      NewLayout(m);
      SameSlice(b, d, 16, 20);
      SameSlice(b, d, 20, 24);
      FieldAt(d, 3, client, 8);
      FieldAt(d, 11, sym, 4);
      FieldAt(d, 16, price, 4);
      FieldAt(d, 20, qty, 4);
    case ModifyMsg(id, sym, price, qty) =>
      ModifyLayout(m);
      SameSlice(b, d, 15, 19);
      SameSlice(b, d, 19, 23);
      FieldAt(d, 3, id, 8);
      FieldAt(d, 11, sym, 4);
      FieldAt(d, 15, price, 4);
      FieldAt(d, 19, qty, 4);
    case CancelMsg(id, sym) =>
      CancelLayout(m);
      FieldAt(d, 3, id, 8);
      FieldAt(d, 11, sym, 4);
  }
}
