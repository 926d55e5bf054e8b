/** What the market maker (src/strategy-oms/market-maker.cpp) and the risk check
    (includes/strategy-oms/trader.hpp) decide, said in prices, quantities and requests alone: the
    functions of MarketMaking meet these rules, and leave nothing open. */
module StrategyRules {
  import opened Machine
  import opened Orders
  import opened ExchangeModel
  import opened MarketMaking

  // ---- Requests ----

  /** The cancellation of order `id` on `side`. */
  ghost predicate IsCancel(o: OutboundOrderRequest, side: Side, id: OrderId) {
    && o.request.kind == CancelRequest && o.request.id == id && o.request.price == 0 && o.request.quantity == 0
    && o.side == side && o.change == NotAnUpdate && o.previous == 0
  }

  /** A new order on `side`. */
  ghost predicate IsNewOrder(o: OutboundOrderRequest, side: Side, id: OrderId, price: int, quantity: int) {
    && (match side case Buy => o.request.kind == BuyRequest case Sell => o.request.kind == SellRequest)
    && o.request.id == id && o.request.price == price && o.request.quantity == quantity
    && o.side == side && o.change == NotAnUpdate && o.previous == 0
  }

  /** An update of order `id` on `side`, noted as what it does to the quantity. */
  ghost predicate IsUpdate(o: OutboundOrderRequest, side: Side, id: OrderId, quantity: int, previous: int) {
    && o.request.kind == UpdateRequest && o.request.id == id && o.request.price == 0 && o.request.quantity == quantity
    && o.side == side && o.previous == previous
    && (o.change == Increasing <==> quantity > previous) && (o.change == Reducing <==> quantity <= previous)
  }

  // ---- Quotes ----

  /** Both sides are left without an order, and the cancellations of those that were placed join the
      queue, the buy order's first. */
  ghost predicate CancelsBoth(d: Desk, d': Desk) {
    var n := |d.queue|;
    && d'.maker.buy == d.maker.buy.(placed := false) && d'.maker.sell == d.maker.sell.(placed := false)
    && d'.maker.net == d.maker.net && d'.nextId == d.nextId
    && |d'.queue| == n + (if d.maker.buy.placed then 1 else 0) + (if d.maker.sell.placed then 1 else 0)
    && d'.queue[..n] == d.queue
    && (d.maker.buy.placed ==> IsCancel(d'.queue[n], Buy, d.maker.buy.id))
    && (d.maker.sell.placed ==> IsCancel(d'.queue[|d'.queue| - 1], Sell, d.maker.sell.id))
  }

  /** The pair for a market: 10 ticks to either side of the midpoint, but inside the market. */
  ghost function PairBid(bid: Price, offer: Price): int {
    Max(Half(bid + offer) - 10, bid + 1)
  }

  ghost function PairOffer(bid: Price, offer: Price): int {
    Min2(Half(bid + offer) + 10, offer - 1)
  }

  ghost function Max(a: int, b: int): int {
    if a < b then b else a
  }

  ghost function Min2(a: int, b: int): int {
    if a < b then a else b
  }

  /** A market with room for a pair: both sides quote, 6 ticks or more remain between the ticks next to
      the best prices, and the bid would be at least 1. */
  ghost predicate Quotable(bid: Price, offer: Price) {
    && bid != -0x8000_0000 && offer != 0x7FFF_FFFF && (offer - 1) - (bid + 1) >= 6
    && PairBid(bid, offer) >= 1
  }

  /** A side has no order, or the midpoint of the market is more than 2 ticks from the quoted one. */
  ghost predicate WantsQuotes(m: Maker, bid: Price, offer: Price) {
    || !m.buy.placed || !m.sell.placed
    || Half(bid + offer) > Half(m.buy.price + m.sell.price) + 2
    || Half(bid + offer) < Half(m.buy.price + m.sell.price) - 2
  }

  ghost predicate HasRoom(d: Desk) {
    |d.queue| + (if d.maker.buy.placed then 1 else 0) + (if d.maker.sell.placed then 1 else 0) + 2 <= 32
  }

  /** Neither side has an order. */
  ghost function Unplaced(m: Maker): Maker {
    Maker(m.buy.(placed := false), m.sell.(placed := false), m.net)
  }

  /** After the cancellations a buy and a sell order of 75 join the queue, under the next two ids, inside
      the market, and are noted as placed. */
  ghost predicate QuotesPair(d: Desk, d': Desk, bid: Price, offer: Price) {
    var n := |d'.queue| - 2;
    var buy, sell := d'.maker.buy, d'.maker.sell;
    && n >= 0
    && CancelsBoth(d, Desk(Unplaced(d.maker), d'.queue[..n], d.nextId))
    && bid < buy.price == PairBid(bid, offer) && sell.price == PairOffer(bid, offer) < offer && buy.price < sell.price
    && buy.placed && sell.placed && buy.quantity == 75 && sell.quantity == 75
    && buy.id == d.nextId && sell.id == (d.nextId + 1) % TWO_TO_THE_64
    && IsNewOrder(d'.queue[n], Buy, buy.id, buy.price, 75) && IsNewOrder(d'.queue[n + 1], Sell, sell.id, sell.price, 75)
    && d'.maker.net == d.maker.net && d'.nextId == (d.nextId + 2) % TWO_TO_THE_64
  }

  /** What new prices lead to. */
  ghost predicate Requotes(d: Desk, d': Desk, bid: Price, offer: Price) {
    if !WantsQuotes(d.maker, bid, offer) || !HasRoom(d) then d' == d
    else if Quotable(bid, offer) then QuotesPair(d, d', bid, offer)
    else CancelsBoth(d, d')
  }

  lemma CancelsExactly(d: Desk)
    requires Available(d.queue) >= Count(d.maker)
    ensures CancelsBoth(d, QueueCancels(d))
  {
  }

  lemma PairExactly(bid: Price, offer: Price)
    ensures
      PriceNewPair(bid, offer).Some? && PriceNewPair(bid, offer).value.bid >= MIN_BID_PRICE <==>
        Quotable(bid, offer)
    ensures Quotable(bid, offer) ==>
      PriceNewPair(bid, offer) == Some(PricePair(PairBid(bid, offer), PairOffer(bid, offer)))
  {
  }

  /** New prices lead to a new pair, to cancellations only, or to nothing, in exactly these cases. */
  lemma GetOrdersExactly(d: Desk, bid: Price, offer: Price)
    ensures Requotes(d, GetOrders(d, bid, offer), bid, offer)
  {
    PairExactly(bid, offer);
    if WantsQuotes(d.maker, bid, offer) && HasRoom(d) {
      CancelsExactly(d);
      var d1, d' := QueueCancels(d), GetOrders(d, bid, offer);
      hide QueueCancels, PriceNewPair, CancelsBoth;
      if Quotable(bid, offer) {
        PairIsPassive(bid, offer);
        assert d'.queue[..|d'.queue| - 2] == d1.queue;
        assert d1 == Desk(Unplaced(d.maker), d1.queue, d.nextId) by {
          CancelledDesk(d, d1);
        }
      }
    }
  }

  lemma CancelledDesk(d: Desk, d': Desk)
    requires CancelsBoth(d, d')
    ensures d' == Desk(Unplaced(d.maker), d'.queue, d.nextId)
  {
  }

  // ---- Fills ----

  /** A fill takes no more than the order has left; the order stays placed while something is left. */
  ghost predicate TakesFill(m: Maker, m': Maker, side: Side, quantity: Quantity) {
    var order, left := m.On(side), m'.On(side);
    var taken := Min2(quantity, order.quantity);
    && left.quantity == order.quantity - taken && (left.placed <==> order.placed && left.quantity > 0)
    && left.id == order.id && left.price == order.price && m'.On(Opposite(side)) == m.On(Opposite(side))
    && m'.net == (match side case Buy => m.net + taken case Sell => m.net - taken)
  }

  /** A placed order is given a new quantity and its update queued, if there is room. */
  ghost predicate Resizes(d: Desk, d': Desk, side: Side, quantity: int) {
    var order := d.maker.On(side);
    if !order.placed || order.quantity == quantity || |d.queue| >= 32 then d' == d
    else
      && |d'.queue| == |d.queue| + 1 && d'.queue[..|d.queue|] == d.queue
      && IsUpdate(d'.queue[|d.queue|], side, order.id, quantity, order.quantity)
      && d'.maker.On(side).quantity == quantity && d'.maker.On(side) == order.(quantity := d'.maker.On(side).quantity)
      && d'.maker.On(Opposite(side)) == d.maker.On(Opposite(side))
      && d'.maker.net == d.maker.net && d'.nextId == d.nextId
  }

  /** From a net position of 25 on, the order that would bring it back is raised by the position, by 150
      at most, and the other lowered by it, to 25 at least; first the buy and then the sell order. */
  ghost predicate LeansBack(d: Desk, d': Desk) {
    var net := d.maker.net;
    if -25 < net < 25 then d' == d
    else
      var extra := Min2(Abs(net), 150);
      var less, more := Max(75 - extra, 25), 75 + extra;
      var buy := if net > 0 then less else more;
      var sell := if net > 0 then more else less;
      exists d1 :: ResizesBoth(d, d1, d', buy, sell)
  }

  ghost predicate ResizesBoth(d: Desk, d1: Desk, d': Desk, buy: int, sell: int) {
    Resizes(d, d1, Buy, buy) && Resizes(d1, d', Sell, sell)
  }

  /** What a fill of order `id` leads to. */
  ghost predicate Fills(d: Desk, d': Desk, id: OrderId, quantity: Quantity) {
    if d.maker.buy.placed && d.maker.buy.id == id then
      exists m :: TakesFill(d.maker, m, Buy, quantity) && LeansBack(d.(maker := m), d')
    else if d.maker.sell.placed && d.maker.sell.id == id then
      exists m :: TakesFill(d.maker, m, Sell, quantity) && LeansBack(d.(maker := m), d')
    else d' == d
  }

  lemma ResizesExactly(d: Desk, side: Side, quantity: Quantity)
    ensures Resizes(d, QueueQuantity(d, side, quantity), side, quantity)
  {
  }

  lemma RebalanceExactly(d: Desk)
    ensures LeansBack(d, Rebalance(d))
  {
    var net := d.maker.net;
    if Abs(net) >= EXPOSURE_REBALANCE_THRESHOLD {
      var imbalance := Min(Abs(net), MAX_ADDITIONAL_EXIT_QUANTITY);
      var less, more := Shrunk(imbalance), MARKET_MAKER_ORDER_QUANTITY + imbalance;
      var first := if net > 0 then less else more;
      var second := if net > 0 then more else less;
      var d1 := QueueQuantity(d, Buy, first);
      ResizesExactly(d, Buy, first);
      ResizesExactly(d1, Sell, second);
      hide Resizes, QueueQuantity;
      assert ResizesBoth(d, d1, Rebalance(d), first, second);
    }
  }

  lemma FilledExactly(m: Maker, side: Side, quantity: Quantity)
    ensures TakesFill(m, Filled(m, side, quantity), side, quantity)
  {
  }

  /** A fill is taken, and the position rebalanced, in exactly this way. */
  lemma OnFillExactly(d: Desk, id: OrderId, quantity: Quantity)
    ensures Fills(d, OnFill(d, id, quantity), id, quantity)
  {
    hide TakesFill, LeansBack, Rebalance, Filled;
    match PlacedSide(d.maker, id)
    case None =>
    case Some(side) =>
      var m := Filled(d.maker, side, quantity);
      FilledExactly(d.maker, side, quantity);
      RebalanceExactly(d.(maker := m));
      assert TakesFill(d.maker, m, side, quantity) && LeansBack(d.(maker := m), OnFill(d, id, quantity));
  }

  // ---- Rejections ----

  /** A rejected update leaves the quantity as it was before, and a rejected new order is not placed. */
  ghost predicate Undoes(m: Maker, m': Maker, rejected: OutboundOrderRequest) {
    var id := rejected.request.id;
    match rejected.request.kind
    case UpdateRequest =>
      if id == m.buy.id then m' == Maker(m.buy.(quantity := rejected.previous), m.sell, m.net)
      else if id == m.sell.id then m' == Maker(m.buy, m.sell.(quantity := rejected.previous), m.net)
      else m' == m
    case BuyRequest => m' == if id == m.buy.id then Maker(m.buy.(placed := false), m.sell, m.net) else m
    case SellRequest => m' == if id == m.sell.id then Maker(m.buy, m.sell.(placed := false), m.net) else m
    case CancelRequest => m' == m
  }

  /** A placed order of one side is cancelled, if there is room. */
  ghost predicate CancelsOne(d: Desk, d': Desk, side: Side) {
    var order := d.maker.On(side);
    if !order.placed || |d.queue| >= 32 then d' == d
    else
      && |d'.queue| == |d.queue| + 1 && d'.queue[..|d.queue|] == d.queue
      && IsCancel(d'.queue[|d.queue|], side, order.id)
      && d'.maker.On(side) == order.(placed := false) && d'.maker.On(Opposite(side)) == d.maker.On(Opposite(side))
      && d'.maker.net == d.maker.net && d'.nextId == d.nextId
  }

  /** A halt or too great a loss cancels both sides, if there is room; too much exposure the side of the
      rejected request; and nothing else does. */
  ghost predicate Reacts(d: Desk, d': Desk, side: Side, reason: OrderStatus) {
    match reason
    case Halted => BothIfRoom(d, d')
    case TooMuchLoss => BothIfRoom(d, d')
    case TooMuchExposure => CancelsOne(d, d', side)
    case _ => d' == d
  }

  ghost predicate BothIfRoom(d: Desk, d': Desk) {
    if |d.queue| + (if d.maker.buy.placed then 1 else 0) + (if d.maker.sell.placed then 1 else 0) <= 32
    then CancelsBoth(d, d')
    else d' == d
  }

  /** What the rejection of a request leads to. */
  ghost predicate Rejects(d: Desk, d': Desk, rejected: OutboundOrderRequest, reason: OrderStatus) {
    exists m :: Undoes(d.maker, m, rejected) && Reacts(d.(maker := m), d', rejected.side, reason)
  }

  /** A rejection is undone and reacted to in exactly this way. */
  lemma NotifyInvalidExactly(d: Desk, rejected: OutboundOrderRequest, reason: OrderStatus)
    ensures Rejects(d, NotifyInvalid(d, rejected, reason), rejected, reason)
  {
    var m := Undone(d.maker, rejected);
    var d1 := d.(maker := m);
    assert Undoes(d.maker, m, rejected);
    if Available(d1.queue) >= Count(m) {
      CancelsExactly(d1);
    }
    assert Reacts(d1, NotifyInvalid(d, rejected, reason), rejected.side, reason);
  }

  // ---- The risk check ----

  /** A cancellation, or an update noted as reducing. */
  ghost predicate Reduces(o: OutboundOrderRequest) {
    o.request.kind == CancelRequest || (o.request.kind == UpdateRequest && o.change == Reducing)
  }

  /** The position if all the request adds were filled. */
  ghost function Reach(o: OutboundOrderRequest, net: int): int {
    match o.request.kind
    case BuyRequest => net + o.request.quantity
    case SellRequest => net - o.request.quantity
    case UpdateRequest =>
      if o.change != Increasing then net
      else if o.side == Buy then net + (o.request.quantity - o.previous) % TWO_TO_THE_32
      else net - (o.request.quantity - o.previous) % TWO_TO_THE_32
    case CancelRequest => net
  }

  /** The verdict on a request, each with its exact condition, in the order of the checks. */
  ghost predicate IsVerdict(o: OutboundOrderRequest, risk: Option<RiskData>, status: OrderStatus) {
    match risk
    case None => status == Stopped
    case Some(r) =>
      var free := !r.isHalted && r.ordersSentInWindow < r.maxOrdersPerWindow;
      var within := -r.maxPosition <= Reach(o, r.netPosition) <= r.maxPosition;
      var lost := r.realizedPnl + r.unrealizedPnl <= r.maxLossAllowed;
      && status != Stopped
      && (status == Halted <==> !Reduces(o) && r.isHalted)
      && (status == TooManyOrders <==> !Reduces(o) && !r.isHalted && r.ordersSentInWindow >= r.maxOrdersPerWindow)
      && (status == TooMuchExposure <==> !Reduces(o) && free && !within)
      && (status == TooMuchLoss <==> !Reduces(o) && free && within && lost)
      && (status == Good <==> Reduces(o) || (free && within && !lost))
  }

  lemma VerdictExactly(o: OutboundOrderRequest, risk: Option<RiskData>, status: OrderStatus)
    ensures IsVerdict(o, risk, status) <==> status == EvaluateRisk(o, risk)
  {
  }
}
