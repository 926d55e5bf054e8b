/** PassiveMarketMaker (src/strategy-oms/market-maker.cpp): each method does to the strategy and its
    queue what the function of the same purpose in MarketMaking says. */
module MarketMakers {
  import opened Machine
  import opened Orders
  import opened ExchangeModel
  import opened SingleThreadRings
  import opened MarketMaking
  import opened StrategyRules

  type OrderBuffer = SingleThreadRingBuffer<OutboundOrderRequest>

  class PassiveMarketMaker {
    var buy: PlacedOrder
    var sell: PlacedOrder
    var net: int
    // ClientOrderIDGenerator's counter
    var nextClientId: OrderId

    constructor ()
      ensures Maker(buy, sell, net) == Maker(PlacedOrder(false, 0, 0, 0), PlacedOrder(false, 0, 0, 0), 0)
      ensures nextClientId == 1
    {
      buy, sell := PlacedOrder(false, 0, 0, 0), PlacedOrder(false, 0, 0, 0);
      net, nextClientId := 0, 1;
    }

    ghost predicate Valid(buffer: OrderBuffer)
      reads buffer
    {
      buffer.Valid() && buffer.capacity == STRATEGY_ORDER_BUFFER_SIZE && (this as object) != buffer
    }

    ghost function State(buffer: OrderBuffer): Desk
      requires Valid(buffer)
      reads this, buffer, buffer.buffer
    {
      Desk(Maker(buy, sell, net), buffer.Items(), nextClientId)
    }

    function Order(side: Side): PlacedOrder
      reads this
    {
      if side == Buy then buy else sell
    }

    method SetOrder(side: Side, order: PlacedOrder)
      modifies this
      ensures Maker(buy, sell, net) == old(Maker(buy, sell, net)).With(side, order) && nextClientId == old(nextClientId)
    {
      if side == Buy {
        buy := order;
      } else {
        sell := order;
      }
    }

    /** `ClientOrderIDGenerator::generate`. */
    method GenerateId() returns (id: OrderId)
      modifies this`nextClientId
      ensures id == old(nextClientId) && nextClientId == (id + 1) % TWO_TO_THE_64
    {
      id := nextClientId;
      nextClientId := (nextClientId + 1) % TWO_TO_THE_64;
    }

    /** The cancellation of one side, when the queue has room for it. */
    method CancelOne(side: Side, buffer: OrderBuffer)
      requires Valid(buffer) && |buffer.Items()| < buffer.capacity
      modifies this, buffer, buffer.buffer
      ensures Valid(buffer) && State(buffer) == CancelSide(old(State(buffer)), side)
    {
      var order := Order(side);
      if !order.placed {
        return;
      }
      var _ := buffer.TryPush(Cancellation(side, order.id));
      SetOrder(side, order.(placed := false));
    }

    method QueueCancelOrders(buffer: OrderBuffer) returns (queued: bool)
      requires Valid(buffer)
      modifies this, buffer, buffer.buffer
      ensures Valid(buffer) && State(buffer) == QueueCancels(old(State(buffer)))
      ensures queued == (Available(old(buffer.Items())) >= Count(old(State(buffer)).maker))
    {
      var available := buffer.Available();
      if available < (if buy.placed then 1 else 0) + (if sell.placed then 1 else 0) {
        return false;
      }
      if buy.placed {
        CancelOne(Buy, buffer);
      }
      if sell.placed {
        CancelOne(Sell, buffer);
      }
      return true;
    }

    method QueueNewOrderPair(bid: Price, offer: Price, buffer: OrderBuffer) returns (queued: bool)
      requires Valid(buffer) && !buy.placed && !sell.placed
      modifies this, buffer, buffer.buffer
      ensures Valid(buffer) && State(buffer) == QueueNewPair(old(State(buffer)), bid, offer)
    {
      var prices := PriceNewPair(bid, offer);
      if prices == None || prices.value.bid < MIN_BID_PRICE {
        return true;
      }
      var available := buffer.Available();
      if available < 2 {
        return false;
      }
      PairIsPassive(bid, offer);
      var id := GenerateId();
      var first := PlacedOrder(true, id, prices.value.bid, MARKET_MAKER_ORDER_QUANTITY);
      id := GenerateId();
      var second := PlacedOrder(true, id, prices.value.offer, MARKET_MAKER_ORDER_QUANTITY);
      buy, sell := first, second;
      PushPair(NewOrder(Buy, first.id, first.price, first.quantity),
        NewOrder(Sell, second.id, second.price, second.quantity), buffer);
      return true;
    }

    /** Two requests join the queue, which has room for them. */
    method PushPair(first: OutboundOrderRequest, second: OutboundOrderRequest, buffer: OrderBuffer)
      requires Valid(buffer) && |buffer.Items()| + 2 <= buffer.capacity
      modifies buffer, buffer.buffer
      ensures Valid(buffer) && buffer.Items() == old(buffer.Items()) + [first, second]
    {
      ghost var items := buffer.Items();
      var firstQueued := buffer.TryPush(first);
      var secondQueued := buffer.TryPush(second);
      assert buffer.Items() == items + [first, second];
    }

    method QueueQuantityUpdate(side: Side, quantity: Quantity, buffer: OrderBuffer) returns (queued: bool)
      requires Valid(buffer)
      modifies this, buffer, buffer.buffer
      ensures Valid(buffer) && State(buffer) == QueueQuantity(old(State(buffer)), side, quantity)
    {
      var order := Order(side);
      if !order.placed || order.quantity == quantity {
        return true;
      }
      queued := buffer.TryPush(QuantityUpdate(side, order.id, quantity, order.quantity));
      if queued {
        SetOrder(side, order.(quantity := quantity));
      }
    }

    method RebalanceExposure(buffer: OrderBuffer)
      requires Valid(buffer)
      modifies this, buffer, buffer.buffer
      ensures Valid(buffer) && State(buffer) == Rebalance(old(State(buffer)))
    {
      if Abs(net) < EXPOSURE_REBALANCE_THRESHOLD {
        return;
      }
      var imbalance := Min(Abs(net), MAX_ADDITIONAL_EXIT_QUANTITY);
      var less, more := Shrunk(imbalance), MARKET_MAKER_ORDER_QUANTITY + imbalance;
      if net > 0 {
        var _ := QueueQuantityUpdate(Buy, less, buffer);
        var _ := QueueQuantityUpdate(Sell, more, buffer);
      } else {
        var _ := QueueQuantityUpdate(Buy, more, buffer);
        var _ := QueueQuantityUpdate(Sell, less, buffer);
      }
    }

    /** `get_orders`. */
    method GetOrders(bid: Price, offer: Price, buffer: OrderBuffer)
      requires Valid(buffer)
      modifies this, buffer, buffer.buffer
      ensures Valid(buffer) && State(buffer) == MarketMaking.GetOrders(old(State(buffer)), bid, offer)
      ensures Requotes(old(State(buffer)), State(buffer), bid, offer)
    {
      hide Requotes;
      GetOrdersExactly(State(buffer), bid, offer);
      if !ShouldPlace(Maker(buy, sell, net), bid, offer) {
        return;
      }
      var cancels := (if buy.placed then 1 else 0) + (if sell.placed then 1 else 0);
      var available := buffer.Available();
      if available < cancels + 2 {
        return;
      }
      var queued := QueueCancelOrders(buffer);
      if !queued {
        return;
      }
      var _ := QueueNewOrderPair(bid, offer, buffer);
    }

    /** `update`. */
    method Update(id: OrderId, quantity: Quantity, buffer: OrderBuffer)
      requires Valid(buffer)
      modifies this, buffer, buffer.buffer
      ensures Valid(buffer) && State(buffer) == OnFill(old(State(buffer)), id, quantity)
      ensures Fills(old(State(buffer)), State(buffer), id, quantity)
    {
      hide Fills;
      OnFillExactly(State(buffer), id, quantity);
      var side := PlacedSide(Maker(buy, sell, net), id);
      match side
      case None =>
      case Some(s) =>
        var order := Order(s);
        var filled: Quantity := if quantity < order.quantity then quantity else order.quantity;
        net := if s == Buy then net + filled else net - filled;
        SetOrder(s, order.(quantity := order.quantity - filled, placed := order.quantity != filled && order.placed));
        RebalanceExposure(buffer);
    }

    /** `cancel_for_risk`. */
    method CancelForRisk(side: Side, buffer: OrderBuffer)
      requires Valid(buffer)
      modifies this, buffer, buffer.buffer
      ensures Valid(buffer) && State(buffer) == MarketMaking.CancelForRisk(old(State(buffer)), side)
    {
      var available := buffer.Available();
      if available > 0 {
        CancelOne(side, buffer);
      }
    }

    /** `notify_invalid`. */
    method NotifyInvalid(rejected: OutboundOrderRequest, reason: OrderStatus, buffer: OrderBuffer)
      requires Valid(buffer)
      modifies this, buffer, buffer.buffer
      ensures Valid(buffer) && State(buffer) == MarketMaking.NotifyInvalid(old(State(buffer)), rejected, reason)
      ensures Rejects(old(State(buffer)), State(buffer), rejected, reason)
    {
      hide Rejects;
      NotifyInvalidExactly(State(buffer), rejected, reason);
      var r := rejected.request;
      match r.kind {
        case UpdateRequest =>
          if r.id == buy.id {
            buy := buy.(quantity := rejected.previous);
          } else if r.id == sell.id {
            sell := sell.(quantity := rejected.previous);
          }
        case BuyRequest =>
          if buy.id == r.id {
            buy := buy.(placed := false);
          }
        case SellRequest =>
          if sell.id == r.id {
            sell := sell.(placed := false);
          }
        case CancelRequest =>
      }
      match reason {
        case Halted => var _ := QueueCancelOrders(buffer);
        case TooMuchLoss => var _ := QueueCancelOrders(buffer);
        case TooMuchExposure => CancelForRisk(rejected.side, buffer);
        case _ =>
      }
    }
  }
}
