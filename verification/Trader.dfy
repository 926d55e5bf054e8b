/** Trader (includes/strategy-oms/trader.hpp): the loop that feeds the strategy with fills and
    prices, checks what it queues against the risk data, and sends it. Each method does what the
    function of the same purpose in TradingRuns says. */
module Traders {
  import opened Machine
  import opened Orders
  import opened ExchangeModel
  import opened SingleThreadRings
  import opened MarketMaking
  import opened MarketMakers
  import opened StrategyRules
  import opened QuoteStream
  import opened TradingRuns
  import opened TradingRules

  class Trader {
    const strategy: PassiveMarketMaker
    const buffer: OrderBuffer
    // Every request sent to the exchange, in order.
    var sent: seq<OrderRequest>
    // The stop token: once on, it stays on.
    var stopRequested: bool
    // How many risk checks were made.
    var turn: nat
    // The error with which `start` returns when a request could not be handed over.
    var bufferFull: bool
    ghost var log: Log
    ghost var checked: seq<nat>
    ghost var uses: seq<Use>

    ghost predicate Apart()
      reads this, buffer
    {
      && strategy.Valid(buffer)
      && (this as object) != strategy && (this as object) != buffer
    }

    ghost function State(): Desk
      requires Apart()
      reads this, strategy, buffer, buffer.buffer
    {
      strategy.State(buffer)
    }

    ghost function Now(): Trading
      requires Apart()
      reads this, strategy, buffer, buffer.buffer
    {
      Trading(State(), log, checked, uses, turn, stopRequested, bufferFull)
    }

    /** What was sent is what the stream says. */
    ghost predicate Valid()
      reads this, buffer
    {
      Apart() && sent == Requests(Outbounds(log))
    }

    constructor ()
      ensures Valid() && sent == [] && Now() == OPENING_TRADING
    {
      strategy := new PassiveMarketMaker();
      assert Pow2(5) == 32;
      buffer := new SingleThreadRingBuffer(STRATEGY_ORDER_BUFFER_SIZE, NewOrder(Buy, 0, 0, 0));
      sent, stopRequested, turn := [], false, 0;
      log, checked, uses, bufferFull := [], [], [], false;
      new;
    }

    /** `evaluate_risk` against what is then found; no risk data can be had once a stop was requested. */
    method CheckRisk(o: OutboundOrderRequest, readings: Readings) returns (status: OrderStatus)
      requires Valid()
      modifies this`stopRequested, this`turn
      ensures Valid() && State() == old(State()) && turn == old(turn) + 1
      ensures stopRequested == (old(stopRequested) || readings(old(turn)).risk == None)
      ensures status == EvaluateRisk(o, if stopRequested then None else readings(old(turn)).risk)
      ensures IsVerdict(o, if stopRequested then None else readings(old(turn)).risk, status)
    {
      VerdictExactly(o, None, Stopped);
      VerdictExactly(o, readings(turn).risk, EvaluateRisk(o, readings(turn).risk));
      hide IsVerdict;
      var risk := readings(turn).risk;
      turn := turn + 1;
      if stopRequested || risk == None {
        stopRequested := true;
        return Stopped;
      }
      return EvaluateRisk(o, risk);
    }

    /** `send_to_exchange`. */
    method SendToExchange(o: OutboundOrderRequest, ghost check: nat)
      requires Valid()
      modifies this`sent, this`log, this`checked
      ensures Valid() && State() == old(State())
      ensures log == old(log) + [Sent(o)] && checked == old(checked) + [check]
      ensures sent == old(sent) + [o.request]
    {
      Appended(log, Sent(o));
      RequestsAppend(Outbounds(log), o);
      sent, log, checked := sent + [o.request], log + [Sent(o)], checked + [check];
    }

    /** The front request leaves the queue. */
    method PopFront()
      requires Valid() && State().queue != []
      modifies buffer
      ensures Valid() && State() == old(State()).(queue := old(State()).queue[1..])
    {
      buffer.Pop();
    }

    /** The front request leaves the queue, and the strategy is told that it was rejected. */
    method Reject(o: OutboundOrderRequest, status: OrderStatus)
      requires Valid() && State().queue != [] && o == State().queue[0]
      modifies strategy, buffer, buffer.buffer
      ensures Valid() && State() == NotifyInvalid(old(State()).(queue := old(State()).queue[1..]), o, status)
    {
      PopFront();
      strategy.NotifyInvalid(o, status, buffer);
    }

    /** The front request passed its check: it is sent, and handed over and popped unless the trade
        buffer is full. */
    method SendFront(o: OutboundOrderRequest, full: bool, ghost check: nat)
      requires Valid() && State().queue != [] && o == State().queue[0]
      modifies this`sent, this`log, this`checked, this`bufferFull, buffer
      ensures Valid() && old(sent) <= sent
      ensures log == old(log) + [Sent(o)] && checked == old(checked) + [check]
      ensures bufferFull == (old(bufferFull) || full)
      ensures State() == if full then old(State()) else old(State()).(queue := old(State()).queue[1..])
    {
      SendToExchange(o, check);
      if full {
        bufferFull := true;
      } else {
        PopFront();
      }
    }

    /** One round of `place_new_orders`. */
    method PlaceFront(o: OutboundOrderRequest, readings: Readings) returns (goOn: bool)
      requires Valid() && State().queue != [] && o == State().queue[0] && !bufferFull
      modifies this, strategy, buffer, buffer.buffer
      ensures Valid() && Now() == Checked(old(Now()), readings) && goOn == !Over(Now())
      ensures old(sent) <= sent && ChecksFront(old(Now()), Now(), readings)
    {
      hide EvaluateRisk, NotifyInvalid, IsVerdict, ChecksFront;
      CheckedExactly(Now(), readings);
      var now := turn;
      var status := CheckRisk(o, readings);
      if stopRequested {
        return false;
      }
      if status != Good {
        Reject(o, status);
        return true;
      }
      SendFront(o, readings(now).full, now);
      return !readings(now).full;
    }

    /** `place_new_orders`. */
    method PlaceNewOrders(readings: Readings)
      requires Valid() && InOrder(Now()) && !bufferFull
      modifies this, strategy, buffer, buffer.buffer
      ensures Valid() && Now() == PlaceAll(old(Now()), readings) && old(sent) <= sent
      ensures
        !old(stopRequested) && (FrontIs(old(Now()), readings, TooMuchLoss) || FrontIs(old(Now()), readings, Halted))
        ==> !strategy.buy.placed && !strategy.sell.placed
      ensures !old(stopRequested) && FrontIs(old(Now()), readings, TooMuchExposure) && Sided(old(State()).queue[0]) ==>
        !strategy.Order(old(State()).queue[0].side).placed
    {
      hide Steady, Checked, FrontIs, Sided, ChecksFront;
      BreachesCancel(Now(), readings);
      var goOn := true;
      while goOn
        invariant Valid() && InOrder(Now()) && old(sent) <= sent
        invariant if goOn then !bufferFull && PlaceAll(Now(), readings) == PlaceAll(old(Now()), readings)
          else Now() == PlaceAll(old(Now()), readings)
        decreases goOn, if stopRequested then 0 else Measure(State())
      {
        var front := buffer.TryFront();
        if front == None {
          return;
        }
        if stopRequested {
          CheckedStays(Now(), readings);
        } else {
          CheckedKeeps(Now(), readings);
        }
        goOn := PlaceFront(front.value, readings);
      }
    }

    /** `strategy_.update(*update, order_buffer_)`. */
    method TakeFill(fill: OrderFillUpdate)
      requires Valid()
      modifies this`log, this`uses, strategy, buffer, buffer.buffer
      ensures Valid() && Now() == AfterUpdate(old(Now()), fill)
    {
      FillAppended(log, State().maker, fill);
      uses := uses + [Use(State().maker, fill, |log|)];
      log := AfterFill(log, State().maker, fill.id, fill.quantity);
      strategy.Update(fill.id, fill.quantity, buffer);
    }

    /** One round of `forward_oms_updates`. */
    method ForwardUpdate(fill: OrderFillUpdate, ghost left: nat, readings: Readings)
      requires Valid() && Idle(Now(), left) && !bufferFull
      modifies this, strategy, buffer, buffer.buffer
      ensures Valid() && Now() == AfterOneFill(old(Now()), fill, left, readings) && old(sent) <= sent
    {
      hide Steady, AfterUpdate, PlaceAll;
      UpdateKeeps(Now(), fill, left);
      TakeFill(fill);
      PlaceNewOrders(readings);
    }

    /** `forward_oms_updates`. */
    method ForwardUpdates(fills: seq<OrderFillUpdate>, ghost left: nat, readings: Readings)
      requires Valid() && Idle(Now(), left) && !bufferFull
      modifies this, strategy, buffer, buffer.buffer
      ensures Valid() && Now() == AfterFills(old(Now()), fills, left, readings) && old(sent) <= sent
    {
      hide Idle, AfterOneFill;
      var i := 0;
      while i < |fills| && !bufferFull
        invariant i <= |fills| && Valid() && old(sent) <= sent
        invariant Idle(Now(), left) && AfterFills(Now(), fills[i..], left, readings) == AfterFills(old(Now()), fills, left, readings)
      {
        assert fills[i..][0] == fills[i] && fills[i..][1..] == fills[i + 1..];
        ForwardUpdate(fills[i], left, readings);
        i := i + 1;
      }
    }

    /** `strategy_.get_orders(*snapshot, order_buffer_)`. */
    method Quote(prices: (Price, Price))
      requires Valid()
      modifies strategy, buffer, buffer.buffer
      ensures Valid() && Now() == Quoted(old(Now()), prices)
    {
      strategy.GetOrders(prices.0, prices.1, buffer);
    }

    /** One round of `start`. */
    method DoRound(r: Round, ghost left: nat, readings: Readings)
      requires Valid() && Idle(Now(), left) && left > 0 && !Over(Now())
      modifies this, strategy, buffer, buffer.buffer
      ensures Valid() && Now() == AfterRound(old(Now()), r, left, readings) && old(sent) <= sent
    {
      hide Steady, AfterFills, PlaceAll;
      ForwardUpdates(r.fills, left, readings);
      if bufferFull || stopRequested {
        return;
      }
      if r.prices == None {
        stopRequested := true;
        return;
      }
      QuotedKeeps(Now(), r.prices.value, left);
      Quote(r.prices.value);
      PlaceNewOrders(readings);
    }

    /** `start`: the trader ends up, with all its histories, as AfterRun says of the same fills, prices
        and readings. */
    method Start(rounds: seq<Round>, readings: Readings)
      requires Valid() && Idle(Now(), |rounds|)
      modifies this, strategy, buffer, buffer.buffer
      ensures Valid() && Now() == AfterRun(old(Now()), rounds, readings) && old(sent) <= sent
    {
      hide Idle, AfterRound;
      var i := 0;
      while i < |rounds| && !stopRequested && !bufferFull
        invariant i <= |rounds| && Valid() && old(sent) <= sent && Idle(Now(), |rounds| - i)
        invariant AfterRun(Now(), rounds[i..], readings) == AfterRun(old(Now()), rounds, readings)
      {
        assert rounds[i..][0] == rounds[i] && rounds[i..][1..] == rounds[i + 1..];
        DoRound(rounds[i], |rounds| - i, readings);
        i := i + 1;
      }
    }
  }

  // ---- The stream ----

  function Requests(outs: seq<OutboundOrderRequest>): seq<OrderRequest> {
    seq(|outs|, k requires 0 <= k < |outs| => outs[k].request)
  }

  lemma RequestsAppend(outs: seq<OutboundOrderRequest>, o: OutboundOrderRequest)
    ensures Requests(outs + [o]) == Requests(outs) + [o.request]
  {
  }
}
