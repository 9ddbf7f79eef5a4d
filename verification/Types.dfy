/** Fixed-width scalars, requests and outputs of the exchange (core/include). */
module ExchangeTypes {

  const TWO16 := 0x1_0000
  const TWO32 := 0x1_0000_0000
  const TWO64 := 0x1_0000_0000_0000_0000

  type u8 = x: int | 0 <= x < 0x100
  type u16 = x: int | 0 <= x < 0x1_0000
  type u32 = x: int | 0 <= x < 0x1_0000_0000
  type u64 = x: int | 0 <= x < 0x1_0000_0000_0000_0000

  type Price = u32
  type Quantity = u32
  type TraderId = u32
  type SymbolId = u32
  type OrderId = u64

  const MAX_INSTRUMENTS := 256

  datatype Option<+T> = None | Some(value: T)

  datatype Side = Buy | Sell {
    function Opposite(): Side {
      if Buy? then Sell else Buy
    }
  }

  datatype RequestType = New | Cancel | Modify

  /** An order request as the matching thread sees it. The timestamp is not part of the model. */
  datatype OrderRequest = OrderRequest(
    orderId: OrderId,
    clientOrderId: OrderId,
    price: Price,
    traderId: TraderId,
    symbolId: SymbolId,
    quantity: Quantity,
    side: Side,
    requestType: RequestType)

  datatype ConfirmType = NewAck | ModifyAck | CancelAck | Trade | Reject

  datatype RejectReason = UnknownOrder | InvalidPrice | InvalidQty | Unauthorized | UnknownSymbol | SelfTrade

  /** Private confirmation to one trader. */
  datatype OrderConfirm = OrderConfirm(
    kind: ConfirmType,
    orderId: OrderId,
    clientOrderId: OrderId,
    traderId: TraderId,
    symbolId: SymbolId,
    price: Price,
    qty: Quantity,
    reason: RejectReason)

  datatype MdUpdateType = MdNew | MdModify | MdCancel | MdTrade

  /** Market-data update to all participants. */
  datatype MdUpdate = MdUpdate(
    symbolId: SymbolId,
    orderId: OrderId,
    side: Side,
    price: Price,
    qty: Quantity,
    updateType: MdUpdateType)

  /** Unsigned 32-bit wrap-around. */
  function Wrap32(n: int): u32 {
    n % TWO32
  }

  lemma Wrap32Add(a: int, b: int)
    ensures Wrap32(Wrap32(a) + b) == Wrap32(a + b)
  {
  }

  function Min(a: Quantity, b: Quantity): Quantity {
    if a <= b then a else b
  }
}
