/** The passive market maker's decisions as functions (src/strategy-oms/market-maker.cpp) and the
    risk check (includes/strategy-oms/trader.hpp). */
module MarketMaking {
  import opened Machine
  import opened Orders
  import opened ExchangeModel

  const MIN_TICK_DIFF: int := 1
  const ONE_SIDED_MIN_SPREAD: int := 3
  const ONE_SIDED_MAX_SPREAD: int := 10
  const MAX_ALLOWED_DRIFT: int := 2
  const MARKET_MAKER_ORDER_QUANTITY: Quantity := 75
  const MIN_MARKET_MAKER_ORDER_QUANTITY: Quantity := 25
  const EXPOSURE_REBALANCE_THRESHOLD: int := 25
  const MAX_ADDITIONAL_EXIT_QUANTITY: Quantity := 150
  const MIN_BID_PRICE: Price := 1
  const STRATEGY_ORDER_BUFFER_SIZE: nat := 32

  datatype QuantityChange = NotAnUpdate | Reducing | Increasing

  datatype OutboundOrderRequest = Outbound(request: OrderRequest, change: QuantityChange, previous: Quantity, side: Side)

  datatype OrderStatus = Good | Stopped | Halted | TooManyOrders | TooMuchExposure | TooMuchLoss

  type Queue = seq<OutboundOrderRequest>

  /** The strategy's view of its order on one side; the fields keep their values after the order has
      gone. */
  datatype PlacedOrder = PlacedOrder(placed: bool, id: OrderId, price: Price, quantity: Quantity)

  datatype Maker = Maker(buy: PlacedOrder, sell: PlacedOrder, net: int) {
    function On(side: Side): PlacedOrder {
      if side == Buy then buy else sell
    }

    function With(side: Side, order: PlacedOrder): Maker {
      if side == Buy then this.(buy := order) else this.(sell := order)
    }
  }

  /** The market maker, its outgoing queue and the next client order id. */
  datatype Desk = Desk(maker: Maker, queue: Queue, nextId: OrderId)

  function Count(m: Maker): nat {
    (if m.buy.placed then 1 else 0) + (if m.sell.placed then 1 else 0)
  }

  function Available(q: Queue): int {
    STRATEGY_ORDER_BUFFER_SIZE - |q|
  }

  // ---- Prices ----

  /** C++ division: toward zero. */
  function Half(x: int): (r: int)
    ensures if x >= 0 then 2 * r <= x < 2 * r + 2 else 2 * r - 2 < x <= 2 * r
  {
    if x >= 0 then x / 2 else -((-x) / 2)
  }

  function Abs(x: int): nat {
    if x < 0 then -x else x
  }

  datatype PricePair = PricePair(bid: int, offer: int)

  function PriceNewPair(bid: Price, offer: Price): Option<PricePair> {
    if bid == NO_BID || offer == NO_OFFER || offer <= bid then None
    else
      var potentialOffer, potentialBid := offer - MIN_TICK_DIFF, bid + MIN_TICK_DIFF;
      if potentialOffer - potentialBid < ONE_SIDED_MIN_SPREAD * 2 then None
      else
        var midpoint := Half(offer + bid);
        Some(PricePair(
          if midpoint - ONE_SIDED_MAX_SPREAD > potentialBid then midpoint - ONE_SIDED_MAX_SPREAD else potentialBid,
          if midpoint + ONE_SIDED_MAX_SPREAD < potentialOffer then midpoint + ONE_SIDED_MAX_SPREAD else potentialOffer))
  }

  /** The pair lies strictly inside the market, at least the minimum spread apart and no further from
      the midpoint than the maximum: it never crosses the best prices it was made from. */
  lemma PairIsPassive(bid: Price, offer: Price)
    requires PriceNewPair(bid, offer).Some?
    ensures
      var pair, midpoint := PriceNewPair(bid, offer).value, Half(offer + bid);
      && bid < pair.bid && pair.offer < offer
      && pair.bid + 2 * ONE_SIDED_MIN_SPREAD <= pair.offer
      && midpoint - ONE_SIDED_MAX_SPREAD <= pair.bid <= midpoint <= pair.offer <= midpoint + ONE_SIDED_MAX_SPREAD
  {
  }

  function ShouldPlace(m: Maker, bid: Price, offer: Price): bool {
    !m.buy.placed || !m.sell.placed
    || Abs(Half(offer + bid) - Half(m.buy.price + m.sell.price)) > MAX_ALLOWED_DRIFT
  }

  // ---- Requests ----

  function NewOrder(side: Side, id: OrderId, price: Price, quantity: Quantity): OutboundOrderRequest {
    Outbound(OrderRequest(id, price, quantity, if side == Buy then BuyRequest else SellRequest), NotAnUpdate, 0, side)
  }

  function Cancellation(side: Side, id: OrderId): OutboundOrderRequest {
    Outbound(OrderRequest(id, 0, 0, CancelRequest), NotAnUpdate, 0, side)
  }

  function QuantityUpdate(side: Side, id: OrderId, quantity: Quantity, previous: Quantity): OutboundOrderRequest {
    Outbound(OrderRequest(id, 0, quantity, UpdateRequest), if quantity > previous then Increasing else Reducing, previous, side)
  }

  // ---- What the market maker does ----

  /** The cancellation of one side, if an order is placed there. */
  function CancelSide(d: Desk, side: Side): Desk {
    var order := d.maker.On(side);
    if !order.placed then d
    else d.(maker := d.maker.With(side, order.(placed := false)), queue := d.queue + [Cancellation(side, order.id)])
  }

  function QueueCancels(d: Desk): Desk {
    if Available(d.queue) < Count(d.maker) then d else CancelSide(CancelSide(d, Buy), Sell)
  }

  function QueueNewPair(d: Desk, bid: Price, offer: Price): Desk {
    var prices := PriceNewPair(bid, offer);
    if prices == None || prices.value.bid < MIN_BID_PRICE || Available(d.queue) < 2 then d
    else
      PairIsPassive(bid, offer);
      var q := MARKET_MAKER_ORDER_QUANTITY;
      var buy := PlacedOrder(true, d.nextId, prices.value.bid, q);
      var sell := PlacedOrder(true, (d.nextId + 1) % TWO_TO_THE_64, prices.value.offer, q);
      Desk(d.maker.(buy := buy, sell := sell),
        d.queue + [NewOrder(Buy, buy.id, buy.price, q), NewOrder(Sell, sell.id, sell.price, q)], (d.nextId + 2) % TWO_TO_THE_64)
  }

  function GetOrders(d: Desk, bid: Price, offer: Price): Desk {
    if !ShouldPlace(d.maker, bid, offer) || Available(d.queue) < Count(d.maker) + 2 then d
    else QueueNewPair(QueueCancels(d), bid, offer)
  }

  function QueueQuantity(d: Desk, side: Side, quantity: Quantity): Desk {
    var order := d.maker.On(side);
    if !order.placed || order.quantity == quantity || Available(d.queue) <= 0 then d
    else d.(maker := d.maker.With(side, order.(quantity := quantity)),
            queue := d.queue + [QuantityUpdate(side, order.id, quantity, order.quantity)])
  }

  function Shrunk(imbalance: Quantity): Quantity {
    var left := if MARKET_MAKER_ORDER_QUANTITY > imbalance then MARKET_MAKER_ORDER_QUANTITY - imbalance else 0;
    if left < MIN_MARKET_MAKER_ORDER_QUANTITY then MIN_MARKET_MAKER_ORDER_QUANTITY else left
  }

  function Rebalance(d: Desk): Desk {
    var net := d.maker.net;
    if Abs(net) < EXPOSURE_REBALANCE_THRESHOLD then d
    else
      var imbalance := Min(Abs(net), MAX_ADDITIONAL_EXIT_QUANTITY);
      var less, more := Shrunk(imbalance), MARKET_MAKER_ORDER_QUANTITY + imbalance;
      if net > 0 then QueueQuantity(QueueQuantity(d, Buy, less), Sell, more)
      else QueueQuantity(QueueQuantity(d, Buy, more), Sell, less)
  }

  /** The side on which order `id` is placed. */
  function PlacedSide(m: Maker, id: OrderId): Option<Side> {
    if m.buy.placed && m.buy.id == id then Some(Buy)
    else if m.sell.placed && m.sell.id == id then Some(Sell)
    else None
  }

  /** The fill itself, before exposure is rebalanced. */
  function Filled(m: Maker, side: Side, quantity: Quantity): Maker {
    var order := m.On(side);
    var filled: Quantity := if quantity < order.quantity then quantity else order.quantity;
    var left := order.quantity - filled;
    m.With(side, order.(quantity := left, placed := left != 0 && order.placed)).(
      net := if side == Buy then m.net + filled else m.net - filled)
  }

  function OnFill(d: Desk, id: OrderId, quantity: Quantity): Desk {
    match PlacedSide(d.maker, id)
    case None => d
    case Some(side) => Rebalance(d.(maker := Filled(d.maker, side, quantity)))
  }

  function CancelForRisk(d: Desk, side: Side): Desk {
    if Available(d.queue) <= 0 then d else CancelSide(d, side)
  }

  /** What a rejection undoes. */
  function Undone(m: Maker, rejected: OutboundOrderRequest): Maker {
    var r := rejected.request;
    match r.kind
    case UpdateRequest =>
      if r.id == m.buy.id then m.(buy := m.buy.(quantity := rejected.previous))
      else if r.id == m.sell.id then m.(sell := m.sell.(quantity := rejected.previous))
      else m
    case BuyRequest => if m.buy.id == r.id then m.(buy := m.buy.(placed := false)) else m
    case SellRequest => if m.sell.id == r.id then m.(sell := m.sell.(placed := false)) else m
    case CancelRequest => m
  }

  function NotifyInvalid(d: Desk, rejected: OutboundOrderRequest, reason: OrderStatus): Desk {
    var d' := d.(maker := Undone(d.maker, rejected));
    match reason
    case Halted => QueueCancels(d')
    case TooMuchLoss => QueueCancels(d')
    case TooMuchExposure => CancelForRisk(d', rejected.side)
    case _ => d'
  }

  // ---- Risk ----

  datatype RiskData = RiskData(
    netPosition: int, realizedPnl: int, unrealizedPnl: int, ordersSentInWindow: nat,
    maxPosition: int, maxLossAllowed: int, maxOrdersPerWindow: nat, isHalted: bool)

  predicate ReducesExposure(o: OutboundOrderRequest) {
    o.request.kind == CancelRequest || (o.request.kind == UpdateRequest && o.change == Reducing)
  }

  function SignedDelta(o: OutboundOrderRequest): int {
    var quantity: int := o.request.quantity;
    match o.request.kind
    case BuyRequest => quantity
    case SellRequest => -quantity
    case UpdateRequest =>
      if o.change != Increasing then 0
      else
        var delta := (o.request.quantity - o.previous) % TWO_TO_THE_32;
        if o.side == Buy then delta else -delta
    case CancelRequest => 0
  }

  /** `evaluate_risk`; no risk data means that a stop was requested. */
  function EvaluateRisk(o: OutboundOrderRequest, risk: Option<RiskData>): OrderStatus {
    if risk == None then Stopped
    else
      var r := risk.value;
      if r.isHalted && !ReducesExposure(o) then Halted
      else if !ReducesExposure(o) && r.ordersSentInWindow >= r.maxOrdersPerWindow then TooManyOrders
      else if ReducesExposure(o) then Good
      else if Abs(r.netPosition + SignedDelta(o)) > r.maxPosition then TooMuchExposure
      else if r.realizedPnl + r.unrealizedPnl <= r.maxLossAllowed then TooMuchLoss
      else Good
  }

  /** A risk-reducing request passes every check; any other passes exactly within all the limits. */
  lemma PassesExactly(o: OutboundOrderRequest, r: RiskData)
    ensures EvaluateRisk(o, Some(r)) == Good <==>
      || ReducesExposure(o)
      || (!r.isHalted && r.ordersSentInWindow < r.maxOrdersPerWindow &&
          Abs(r.netPosition + SignedDelta(o)) <= r.maxPosition && r.realizedPnl + r.unrealizedPnl > r.maxLossAllowed)
  {
  }

  // ---- What the position limit is for ----

  function Signed(side: Side, n: int): int {
    if side == Buy then n else -n
  }

  /** However much of an order of `quantity` is filled, the position stays within the limit. */
  ghost predicate StaysWithin(net: int, side: Side, quantity: int, maxPosition: int) {
    forall n {:trigger Signed(side, n)} :: 0 <= n <= quantity ==> Abs(net + Signed(side, n)) <= maxPosition
  }

  /** The limits other than the position's. */
  predicate GatesOpen(r: RiskData) {
    !r.isHalted && r.ordersSentInWindow < r.maxOrdersPerWindow && r.realizedPnl + r.unrealizedPnl > r.maxLossAllowed
  }

  /** A position that is within the limit stays there however much is filled exactly when it does if
      all is filled. */
  lemma WorstIsWhole(net: int, side: Side, quantity: nat, maxPosition: int)
    requires Abs(net) <= maxPosition
    ensures StaysWithin(net, side, quantity, maxPosition) <==> Abs(net + Signed(side, quantity)) <= maxPosition
  {
    if StaysWithin(net, side, quantity, maxPosition) {
      assert Abs(net + Signed(side, quantity)) <= maxPosition;
    } else {
      var n :| 0 <= n <= quantity && Abs(net + Signed(side, n)) > maxPosition;
    }
  }

  /** From a position within the limit, a new order passes the check exactly when no fill of it, partial
      or whole, can take the position out of the limit, and the other limits are kept. */
  lemma NewOrderPasses(side: Side, id: OrderId, price: Price, quantity: Quantity, r: RiskData)
    requires Abs(r.netPosition) <= r.maxPosition
    ensures EvaluateRisk(NewOrder(side, id, price, quantity), Some(r)) == Good
      <==> GatesOpen(r) && StaysWithin(r.netPosition, side, quantity, r.maxPosition)
  {
    PassesExactly(NewOrder(side, id, price, quantity), r);
    WorstIsWhole(r.netPosition, side, quantity, r.maxPosition);
  }

  /** An increase passes exactly when no fill of what it adds can; the rest of the order is not looked
      at. */
  lemma IncreasePasses(side: Side, id: OrderId, quantity: Quantity, previous: Quantity, r: RiskData)
    requires Abs(r.netPosition) <= r.maxPosition && previous < quantity
    ensures EvaluateRisk(QuantityUpdate(side, id, quantity, previous), Some(r)) == Good
      <==> GatesOpen(r) && StaysWithin(r.netPosition, side, quantity - previous, r.maxPosition)
  {
    PassesExactly(QuantityUpdate(side, id, quantity, previous), r);
    WorstIsWhole(r.netPosition, side, quantity - previous, r.maxPosition);
  }

  /** So the order as increased can take the position out of the limit although the increase passed:
      exactly when its whole quantity reaches beyond the limit and what was added does not. */
  lemma IncreaseOvershoots(side: Side, id: OrderId, quantity: Quantity, previous: Quantity, r: RiskData)
    requires Abs(r.netPosition) <= r.maxPosition && previous < quantity && GatesOpen(r)
    ensures
      var passes := EvaluateRisk(QuantityUpdate(side, id, quantity, previous), Some(r)) == Good;
      passes && !StaysWithin(r.netPosition, side, quantity, r.maxPosition)
      <==> Abs(r.netPosition + Signed(side, quantity - previous)) <= r.maxPosition < Abs(r.netPosition + Signed(side, quantity))
  {
    IncreasePasses(side, id, quantity, previous, r);
    WorstIsWhole(r.netPosition, side, quantity, r.maxPosition);
    WorstIsWhole(r.netPosition, side, quantity - previous, r.maxPosition);
  }

  /** Flat, with a limit of 100, an order may be raised from 75 to 150. */
  lemma OvershootExample(id: OrderId, r: RiskData)
    requires GatesOpen(r) && r.netPosition == 0 && r.maxPosition == 100
    ensures EvaluateRisk(QuantityUpdate(Buy, id, 150, 75), Some(r)) == Good
    ensures !StaysWithin(0, Buy, 150, 100)
  {
    IncreaseOvershoots(Buy, id, 150, 75, r);
  }

  // ---- What rebalancing is for ----

  /** The side whose fills bring the strategy's position back. */
  function ExitSide(net: int): Side {
    if net > 0 then Sell else Buy
  }

  /** Rebalancing leans against the position: the order that would bring it back grows and the other
      shrinks. Up to the largest extra quantity, the exit order filled whole leaves just one base
      quantity on the other side of flat; the entry order filled whole adds no more than the least
      quantity to the position, or leaves one base quantity. */
  lemma RebalanceLeans(d: Desk)
    requires d.maker.buy.placed && d.maker.sell.placed && Available(d.queue) >= 2
    requires Abs(d.maker.net) >= EXPOSURE_REBALANCE_THRESHOLD
    ensures
      var net, d' := d.maker.net, Rebalance(d);
      var exit := d'.maker.On(ExitSide(net)).quantity;
      var entry := d'.maker.On(Opposite(ExitSide(net))).quantity;
      && MIN_MARKET_MAKER_ORDER_QUANTITY <= entry < MARKET_MAKER_ORDER_QUANTITY < exit
      && (Abs(net) <= MAX_ADDITIONAL_EXIT_QUANTITY ==>
          Abs(net + Signed(ExitSide(net), exit)) == MARKET_MAKER_ORDER_QUANTITY && (net > 0 <==> net + Signed(ExitSide(net), exit) < 0))
      && (Abs(net + Signed(Opposite(ExitSide(net)), entry)) == MARKET_MAKER_ORDER_QUANTITY
          || Abs(net + Signed(Opposite(ExitSide(net)), entry)) == Abs(net) + MIN_MARKET_MAKER_ORDER_QUANTITY)
  {
    var net := d.maker.net;
    var imbalance := Min(Abs(net), MAX_ADDITIONAL_EXIT_QUANTITY);
    var less, more := Shrunk(imbalance), MARKET_MAKER_ORDER_QUANTITY + imbalance;
    var first := QueueQuantity(d, Buy, if net > 0 then less else more);
    assert first.maker.sell == d.maker.sell && |first.queue| <= |d.queue| + 1;
    assert first.maker.buy.quantity == if net > 0 then less else more;
    var second := QueueQuantity(first, Sell, if net > 0 then more else less);
    assert second.maker.sell.quantity == if net > 0 then more else less;
    assert Rebalance(d) == second;
  }
}
