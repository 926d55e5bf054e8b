/** Orders, resting orders and market events (includes/order-book/order.hpp). */
module Orders {
  import opened Machine

  type OrderId = x: int | 0 <= x < TWO_TO_THE_64
  type Price = x: int | -TWO_TO_THE_31 <= x < TWO_TO_THE_31
  type Quantity = x: int | 0 <= x < TWO_TO_THE_32
  type Index = x: int | 0 <= x < TWO_TO_THE_32

  const INVALID_ORDER_ID: OrderId := 0
  const NULL_INDEX: Index := 0xFFFF_FFFF

  // The sentinels of an empty side: the extreme 32-bit prices.
  const NO_BID: Price := -0x8000_0000
  const NO_OFFER: Price := 0x7FFF_FFFF

  datatype Side = Buy | Sell

  function Opposite(side: Side): Side {
    if side == Buy then Sell else Buy
  }

  datatype Order = Order(id: OrderId, price: Price, quantity: Quantity, side: Side)

  datatype RestingOrder = RestingOrder(order: Order, previous: Index, next: Index)

  datatype EventKind = Add | Cancel | Trade | Update

  datatype MarketEvent = MarketEvent(order: Order, kind: EventKind)
}
