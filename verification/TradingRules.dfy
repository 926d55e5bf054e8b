/** What the trading loop of includes/strategy-oms/trader.hpp does with the verdicts of the risk check:
    what passes is sent, and a breach takes orders out of the market. */
module TradingRules {
  import opened Machine
  import opened Orders
  import opened ExchangeModel
  import opened MarketMaking
  import opened StrategyRules
  import opened QuoteStream
  import opened TradingRuns

  /** The front request is sent and, unless the trade buffer is full, popped, if it passes; it is popped
      and the strategy told, if it is rejected; and nothing happens to it after a stop. */
  ghost predicate ChecksFront(t: Trading, t': Trading, readings: Readings)
    requires t.desk.queue != []
  {
    var o, rest, r := t.desk.queue[0], t.desk.(queue := t.desk.queue[1..]), readings(t.turn);
    exists status {:trigger IsVerdict(o, if t.stopped then None else r.risk, status)} ::
      && IsVerdict(o, if t.stopped then None else r.risk, status)
      && t'.turn == t.turn + 1 && t'.uses == t.uses
      && match status
         case Stopped => t' == t.(turn := t.turn + 1, stopped := true)
         case Good =>
           && t'.log == t.log + [Sent(o)] && t'.checked == t.checked + [t.turn] && t'.stopped == t.stopped
           && (t'.full <==> t.full || r.full) && t'.desk == if r.full then t.desk else rest
         case _ =>
           && t'.log == t.log && t'.checked == t.checked && t'.stopped == t.stopped && t'.full == t.full
           && Rejects(rest, t'.desk, o, status)
  }

  /** Each request is dealt with in exactly this way. */
  lemma CheckedExactly(t: Trading, readings: Readings)
    requires t.desk.queue != []
    ensures ChecksFront(t, Checked(t, readings), readings)
  {
    var o, rest, r := t.desk.queue[0], t.desk.(queue := t.desk.queue[1..]), readings(t.turn);
    var risk := if t.stopped then None else r.risk;
    var status := EvaluateRisk(o, risk);
    VerdictExactly(o, risk, status);
    NotifyInvalidExactly(rest, o, status);
    hide IsVerdict, Rejects, NotifyInvalid;
    assert IsVerdict(o, if t.stopped then None else r.risk, status);
  }

  // ---- Breaches ----

  /** `m'` has no order that `m` has not. */
  ghost predicate OnlyFewer(m: Maker, m': Maker) {
    forall side: Side :: m'.On(side).placed ==> m.On(side).placed && m'.On(side).id == m.On(side).id
  }

  lemma CheckedOnlyFewer(t: Trading, readings: Readings)
    requires t.desk.queue != []
    ensures OnlyFewer(t.desk.maker, Checked(t, readings).desk.maker)
  {
    hide EvaluateRisk;
  }

  lemma {:induction false} PlaceAllOnlyFewer(t: Trading, readings: Readings)
    requires InOrder(t)
    ensures OnlyFewer(t.desk.maker, PlaceAll(t, readings).desk.maker)
    decreases if Over(t) then 0 else Measure(t.desk)
  {
    if !t.full && t.desk.queue != [] {
      CheckedOnlyFewer(t, readings);
      if !t.stopped {
        CheckedKeeps(t, readings);
        hide Steady, Checked;
        if !Over(Checked(t, readings)) {
          PlaceAllOnlyFewer(Checked(t, readings), readings);
        }
      }
    }
  }

  /** The verdict on the front request, at its turn. */
  ghost predicate FrontIs(t: Trading, readings: Readings, status: OrderStatus) {
    t.desk.queue != [] && IsVerdict(t.desk.queue[0], readings(t.turn).risk, status)
  }

  /** Too great a loss, or a halt, found at a check leaves both sides without an order, whatever the
      checks after it find. */
  lemma LossFlattens(t: Trading, readings: Readings, status: OrderStatus)
    requires InOrder(t) && !Over(t) && FrontIs(t, readings, status) && (status == TooMuchLoss || status == Halted)
    ensures
      var t' := PlaceAll(t, readings);
      !t'.desk.maker.buy.placed && !t'.desk.maker.sell.placed
  {
    var t1 := Checked(t, readings);
    VerdictExactly(t.desk.queue[0], readings(t.turn).risk, status);
    RejectSteady(t.log, t.desk, status);
    CheckedKeeps(t, readings);
    assert Count(t1.desk.maker) == 0;
    hide Steady, EvaluateRisk, NotifyInvalid, IsVerdict, Checked;
    if !Over(t1) {
      PlaceAllOnlyFewer(t1, readings);
      var m' := PlaceAll(t1, readings).desk.maker;
      assert m'.On(Buy).placed ==> t1.desk.maker.On(Buy).placed;
      assert m'.On(Sell).placed ==> t1.desk.maker.On(Sell).placed;
    }
  }

  /** A new order is noted with the side it is on. */
  ghost predicate Sided(o: OutboundOrderRequest) {
    (o.request.kind == BuyRequest ==> o.side == Buy) && (o.request.kind == SellRequest ==> o.side == Sell)
  }

  /** The order of `side` left the market, with one cancellation at most behind what was queued. */
  ghost predicate TakesOut(t: Trading, t1: Trading, side: Side)
    requires t.desk.queue != []
  {
    var m, n := t.desk.maker, |t.desk.queue| - 1;
    && t1.log == t.log && !t1.desk.maker.On(side).placed
    && t1.desk.maker.On(Opposite(side)).placed == m.On(Opposite(side)).placed
    && n <= |t1.desk.queue| <= n + 1 && t1.desk.queue[..n] == t.desk.queue[1..]
    && (|t1.desk.queue| == n + 1 ==> IsCancel(t1.desk.queue[n], side, m.On(side).id))
  }

  lemma ExposureChecked(t: Trading, readings: Readings)
    requires InOrder(t) && !Over(t) && FrontIs(t, readings, TooMuchExposure) && Sided(t.desk.queue[0])
    ensures TakesOut(t, Checked(t, readings), t.desk.queue[0].side)
  {
    var o, rest := t.desk.queue[0], t.desk.(queue := t.desk.queue[1..]);
    VerdictExactly(o, readings(t.turn).risk, TooMuchExposure);
    assert |t.desk.queue| <= 6;
    hide Steady, EvaluateRisk, IsVerdict;
    NotifyInvalidExactly(rest, o, TooMuchExposure);
  }

  /** Too much exposure takes the order of the rejected request's side out of the market and leaves the
      other side placed as it was; the side has no order either when all is placed. */
  lemma ExposureCancels(t: Trading, readings: Readings)
    requires InOrder(t) && !Over(t) && FrontIs(t, readings, TooMuchExposure) && Sided(t.desk.queue[0])
    ensures TakesOut(t, Checked(t, readings), t.desk.queue[0].side)
    ensures !PlaceAll(t, readings).desk.maker.On(t.desk.queue[0].side).placed
  {
    ExposureChecked(t, readings);
    CheckedKeeps(t, readings);
    var t1 := Checked(t, readings);
    hide Steady, FrontIs, Checked;
    if !Over(t1) {
      PlaceAllOnlyFewer(t1, readings);
    }
  }

  /** What a breach at the front leaves when all is placed. */
  lemma BreachesCancel(t: Trading, readings: Readings)
    requires InOrder(t)
    ensures !Over(t) && (FrontIs(t, readings, TooMuchLoss) || FrontIs(t, readings, Halted)) ==>
      !PlaceAll(t, readings).desk.maker.buy.placed && !PlaceAll(t, readings).desk.maker.sell.placed
    ensures !Over(t) && FrontIs(t, readings, TooMuchExposure) && Sided(t.desk.queue[0]) ==>
      !PlaceAll(t, readings).desk.maker.On(t.desk.queue[0].side).placed
  {
    hide IsVerdict, PlaceAll, Checked;
    if !Over(t) {
      if FrontIs(t, readings, TooMuchLoss) {
        LossFlattens(t, readings, TooMuchLoss);
      }
      if FrontIs(t, readings, Halted) {
        LossFlattens(t, readings, Halted);
      }
      if FrontIs(t, readings, TooMuchExposure) && Sided(t.desk.queue[0]) {
        ExposureCancels(t, readings);
      }
    }
  }
}
