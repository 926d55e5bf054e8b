/** What the trading loop of includes/strategy-oms/trader.hpp does, as a function of what it is given:
    the fills and prices of its rounds, and what it finds at each risk check. */
module TradingRuns {
  import opened Machine
  import opened Orders
  import opened MarketMaking
  import opened QuoteStream

  /** What one risk check finds: the risk data, or none once a stop was requested; and whether the
      trade buffer is full when the request is to be handed over. */
  datatype Reading = Reading(risk: Option<RiskData>, full: bool)

  type Readings = nat -> Reading

  datatype OrderFillUpdate = OrderFillUpdate(id: OrderId, quantity: Quantity)

  /** A fill, the strategy's orders as it found them, and where in the stream it came. */
  datatype Use = Use(maker: Maker, fill: OrderFillUpdate, at: nat)

  /** The fills of one round of `start`, and the prices it waits for; none once a stop was requested. */
  datatype Round = Round(fills: seq<OrderFillUpdate>, prices: Option<(Price, Price)>)

  /** The trader with its histories: the stream, at which check each request of it passed, and the
      fills taken; how many checks were made, and whether it was stopped or found the trade buffer
      full. */
  datatype Trading = Trading(
    desk: Desk, log: Log, checked: seq<nat>, uses: seq<Use>, turn: nat, stopped: bool, full: bool)

  const OPENING_DESK := Desk(Maker(PlacedOrder(false, 0, 0, 0), PlacedOrder(false, 0, 0, 0), 0), [], 1)
  const OPENING_TRADING := Trading(OPENING_DESK, [], [], [], 0, false, false)

  predicate Over(t: Trading) {
    t.stopped || t.full
  }

  ghost predicate InOrder(t: Trading) {
    !Over(t) ==> Steady(t.log, t.desk)
  }

  /** Nothing waits to be sent, and `left` more rounds find client ids. */
  ghost predicate Idle(t: Trading, left: nat) {
    !Over(t) ==> Steady(t.log, t.desk) && t.desk.queue == [] && t.desk.nextId + 2 * left < TWO_TO_THE_64
  }

  // ---- Placing orders ----

  /** One round of `place_new_orders`: the front request is checked, and sent or rejected. */
  function Checked(t: Trading, readings: Readings): Trading
    requires t.desk.queue != []
  {
    var o, rest, r := t.desk.queue[0], t.desk.(queue := t.desk.queue[1..]), readings(t.turn);
    var t1 := t.(turn := t.turn + 1);
    if t.stopped || r.risk == None then t1.(stopped := true)
    else
      var status := EvaluateRisk(o, r.risk);
      if status != Good then t1.(desk := NotifyInvalid(rest, o, status))
      else
        var t2 := t1.(log := t.log + [Sent(o)], checked := t.checked + [t.turn]);
        if r.full then t2.(full := true) else t2.(desk := rest)
  }

  lemma CheckedStays(t: Trading, readings: Readings)
    requires t.stopped && t.desk.queue != []
    ensures Checked(t, readings) == t.(turn := t.turn + 1)
  {
  }

  lemma CheckedKeeps(t: Trading, readings: Readings)
    requires InOrder(t) && !Over(t) && t.desk.queue != []
    ensures InOrder(Checked(t, readings))
    ensures !Over(Checked(t, readings)) ==>
      Measure(Checked(t, readings).desk) < Measure(t.desk) && Checked(t, readings).desk.nextId == t.desk.nextId
  {
    hide Steady;
    var o, r := t.desk.queue[0], readings(t.turn);
    if r.risk != None {
      var status := EvaluateRisk(o, r.risk);
      if status != Good {
        RejectSteady(t.log, t.desk, status);
      } else {
        SendSteady(t.log, t.desk);
      }
    }
  }

  /** `place_new_orders`: the queue is worked off, until a stop or a full trade buffer. */
  ghost function PlaceAll(t: Trading, readings: Readings): (t': Trading)
    requires InOrder(t)
    ensures InOrder(t') && (!Over(t') ==> t'.desk.queue == [] && t'.desk.nextId == t.desk.nextId)
    decreases if Over(t) then 0 else Measure(t.desk)
  {
    if t.full || t.desk.queue == [] then t
    else if t.stopped then Checked(t, readings)
    else
      CheckedKeeps(t, readings);
      var t1 := Checked(t, readings);
      if Over(t1) then t1 else PlaceAll(t1, readings)
  }

  // ---- Fills ----

  /** `strategy_.update(*update, order_buffer_)`. */
  function AfterUpdate(t: Trading, fill: OrderFillUpdate): Trading {
    t.(desk := OnFill(t.desk, fill.id, fill.quantity),
       log := AfterFill(t.log, t.desk.maker, fill.id, fill.quantity),
       uses := t.uses + [Use(t.desk.maker, fill, |t.log|)])
  }

  lemma UpdateKeeps(t: Trading, fill: OrderFillUpdate, left: nat)
    requires Idle(t, left)
    ensures InOrder(AfterUpdate(t, fill)) && AfterUpdate(t, fill).desk.nextId == t.desk.nextId
  {
    hide Steady;
    if !Over(t) {
      UpdateSteady(t.log, t.desk, fill.id, fill.quantity);
    }
  }

  /** One round of `forward_oms_updates`. */
  ghost function AfterOneFill(t: Trading, fill: OrderFillUpdate, left: nat, readings: Readings): (t': Trading)
    requires Idle(t, left)
    ensures Idle(t', left)
  {
    UpdateKeeps(t, fill, left);
    PlaceAll(AfterUpdate(t, fill), readings)
  }

  /** `forward_oms_updates`. */
  ghost function AfterFills(t: Trading, fills: seq<OrderFillUpdate>, left: nat, readings: Readings): (t': Trading)
    requires Idle(t, left)
    ensures Idle(t', left)
    decreases |fills|
  {
    if fills == [] || t.full then t else AfterFills(AfterOneFill(t, fills[0], left, readings), fills[1..], left, readings)
  }

  // ---- Runs ----

  /** `strategy_.get_orders(*snapshot, order_buffer_)`. */
  function Quoted(t: Trading, prices: (Price, Price)): Trading {
    t.(desk := GetOrders(t.desk, prices.0, prices.1))
  }

  lemma QuotedKeeps(t: Trading, prices: (Price, Price), left: nat)
    requires Idle(t, left) && left > 0 && !Over(t)
    ensures InOrder(Quoted(t, prices)) && Quoted(t, prices).desk.nextId <= t.desk.nextId + 2
  {
    GetOrdersSteady(t.log, t.desk, prices.0, prices.1);
    hide Steady;
  }

  /** One round of `start`. */
  ghost function AfterRound(t: Trading, r: Round, left: nat, readings: Readings): (t': Trading)
    requires Idle(t, left) && left > 0
    ensures Idle(t', left - 1)
  {
    var t1 := AfterFills(t, r.fills, left, readings);
    if Over(t1) then t1
    else if r.prices == None then t1.(stopped := true)
    else
      QuotedKeeps(t1, r.prices.value, left);
      PlaceAll(Quoted(t1, r.prices.value), readings)
  }

  /** `start`. */
  ghost function AfterRun(t: Trading, rounds: seq<Round>, readings: Readings): (t': Trading)
    requires Idle(t, |rounds|)
    decreases |rounds|
  {
    if rounds == [] || Over(t) then t else AfterRun(AfterRound(t, rounds[0], |rounds|, readings), rounds[1..], readings)
  }

  // ---- What every run keeps ----

  /** The requests sent, with what the strategy noted beside them. */
  function Outbounds(log: Log): seq<OutboundOrderRequest> {
    if log == [] then []
    else
      Outbounds(log[..|log| - 1]) + (if log[|log| - 1].Sent? then [log[|log| - 1].out] else [])
  }

  /** Every request sent passed the risk check against what was found at its own turn, one after the
      other. */
  ghost predicate PassedInTurn(t: Trading, readings: Readings) {
    && |t.checked| == |Outbounds(t.log)|
    && (forall k :: 0 <= k < |t.checked| ==> t.checked[k] < t.turn)
    && (forall j, k :: 0 <= j < k < |t.checked| ==> t.checked[j] < t.checked[k])
    && forall k :: 0 <= k < |t.checked| ==> EvaluateRisk(Outbounds(t.log)[k], readings(t.checked[k]).risk) == Good
  }

  /** The ends of orders by fills, in order. */
  function FilledUps(log: Log): seq<StreamEvent> {
    if log == [] then []
    else
      FilledUps(log[..|log| - 1]) + (if log[|log| - 1].FilledUp? then [log[|log| - 1]] else [])
  }

  /** What a fill ends: an order placed under its id of which it leaves nothing. */
  function EndedBy(u: Use): seq<StreamEvent> {
    match PlacedSide(u.maker, u.fill.id)
    case None => []
    case Some(side) => if u.fill.quantity >= u.maker.On(side).quantity then [FilledUp(side, u.fill.id)] else []
  }

  function AllEnded(uses: seq<Use>): seq<StreamEvent> {
    if uses == [] then [] else AllEnded(uses[..|uses| - 1]) + EndedBy(uses[|uses| - 1])
  }

  /** What a fill adds to the position: never more than the order had left. */
  function Gained(u: Use): int {
    match PlacedSide(u.maker, u.fill.id)
    case None => 0
    case Some(side) =>
      var taken: int := Min(u.fill.quantity, u.maker.On(side).quantity);
      if side == Buy then taken else -taken
  }

  function AllGained(uses: seq<Use>): int {
    if uses == [] then 0 else AllGained(uses[..|uses| - 1]) + Gained(uses[|uses| - 1])
  }

  function FillsOf(uses: seq<Use>): (fills: seq<OrderFillUpdate>)
    ensures |fills| == |uses|
  {
    seq(|uses|, k requires 0 <= k < |uses| => uses[k].fill)
  }

  /** Use `u` ended order `id` on `side`: a fill of that order, of no less than it had left. */
  ghost predicate UsedUp(u: Use, side: Side, id: OrderId) {
    u.fill.id == id && PlacedSide(u.maker, id) == Some(side) && u.fill.quantity >= u.maker.On(side).quantity
  }

  /** The `k`-th event of the stream, the end of an order, is what a fill taken there did to it. */
  ghost predicate EndedAt(uses: seq<Use>, k: nat, e: StreamEvent) {
    e.FilledUp? ==> exists u :: 0 <= u < |uses| && uses[u].at == k && UsedUp(uses[u], e.side, e.id)
  }

  ghost predicate EndsPlaced(log: Log, uses: seq<Use>) {
    forall k :: 0 <= k < |log| ==> EndedAt(uses, k, log[k])
  }

  /** The stream is clean, each request in it passed its check, exactly the fills ended orders, where
      they came, and the strategy's position is what they came to. */
  ghost predicate Faithful(t: Trading, readings: Readings) {
    && Clean(t.log) && PassedInTurn(t, readings)
    && FilledUps(t.log) == AllEnded(t.uses) && EndsPlaced(t.log, t.uses) && t.desk.maker.net == AllGained(t.uses)
  }

  lemma EndedAtLonger(uses: seq<Use>, u: Use, k: nat, e: StreamEvent)
    requires EndedAt(uses, k, e)
    ensures EndedAt(uses + [u], k, e)
  {
    hide UsedUp;
    if e.FilledUp? {
      var v :| 0 <= v < |uses| && uses[v].at == k && UsedUp(uses[v], e.side, e.id);
      assert (uses + [u])[v] == uses[v];
    }
  }

  lemma EndsAfterSend(log: Log, uses: seq<Use>, o: OutboundOrderRequest)
    requires EndsPlaced(log, uses)
    ensures EndsPlaced(log + [Sent(o)], uses)
  {
  }

  /** An end of an order that a fill adds to the stream stands where the fill came. */
  lemma EndsAfterFill(log: Log, uses: seq<Use>, m: Maker, fill: OrderFillUpdate)
    requires EndsPlaced(log, uses)
    ensures EndsPlaced(AfterFill(log, m, fill.id, fill.quantity), uses + [Use(m, fill, |log|)])
  {
    var log', uses' := AfterFill(log, m, fill.id, fill.quantity), uses + [Use(m, fill, |log|)];
    forall k | 0 <= k < |log'| ensures EndedAt(uses', k, log'[k]) {
      if k < |log| {
        EndedAtLonger(uses, Use(m, fill, |log|), k, log[k]);
      } else {
        assert UsedUp(uses'[|uses|], log'[k].side, log'[k].id);
      }
    }
  }

  lemma Appended(log: Log, e: StreamEvent)
    ensures Outbounds(log + [e]) == Outbounds(log) + (if e.Sent? then [e.out] else [])
    ensures FilledUps(log + [e]) == FilledUps(log) + (if e.FilledUp? then [e] else [])
  {
    assert (log + [e])[..|log|] == log;
  }

  lemma UsesAppended(uses: seq<Use>, u: Use)
    ensures AllEnded(uses + [u]) == AllEnded(uses) + EndedBy(u) && AllGained(uses + [u]) == AllGained(uses) + Gained(u)
    ensures FillsOf(uses + [u]) == FillsOf(uses) + [u.fill]
  {
    assert (uses + [u])[..|uses|] == uses;
  }

  lemma PassedNext(t: Trading, o: OutboundOrderRequest, t': Trading, readings: Readings)
    requires PassedInTurn(t, readings) && EvaluateRisk(o, readings(t.turn).risk) == Good
    requires t'.log == t.log + [Sent(o)] && t'.checked == t.checked + [t.turn] && t'.turn == t.turn + 1
    ensures PassedInTurn(t', readings)
  {
    Appended(t.log, Sent(o));
    hide EvaluateRisk, Outbounds;
    var n := |t.checked|;
    forall k | 0 <= k < |t'.checked|
      ensures t'.checked[k] < t'.turn && EvaluateRisk(Outbounds(t'.log)[k], readings(t'.checked[k]).risk) == Good
    {
      if k < n {
        assert t'.checked[k] == t.checked[k] && Outbounds(t'.log)[k] == Outbounds(t.log)[k];
      } else {
        assert t'.checked[k] == t.turn && Outbounds(t'.log)[k] == o;
      }
    }
  }

  lemma SendFaithful(t: Trading, readings: Readings)
    requires Faithful(t, readings) && InOrder(t) && !Over(t) && t.desk.queue != []
    requires readings(t.turn).risk.Some? && EvaluateRisk(t.desk.queue[0], readings(t.turn).risk) == Good
    ensures Faithful(Checked(t, readings), readings)
  {
    var o, t' := t.desk.queue[0], Checked(t, readings);
    SendSteady(t.log, t.desk);
    SteadyIsClean(t'.log, t.desk.(queue := t.desk.queue[1..]));
    Appended(t.log, Sent(o));
    PassedNext(t, o, t', readings);
    EndsAfterSend(t.log, t.uses, o);
    hide Steady, Clean, PassedInTurn, EvaluateRisk, Outbounds, EndsPlaced;
  }

  lemma RejectionKeepsNet(d: Desk, o: OutboundOrderRequest, status: OrderStatus)
    ensures NotifyInvalid(d, o, status).maker.net == d.maker.net
  {
  }

  /** What a check that sends nothing changes. */
  lemma NothingSent(t: Trading, readings: Readings)
    requires t.desk.queue != []
    requires t.stopped || readings(t.turn).risk == None || EvaluateRisk(t.desk.queue[0], readings(t.turn).risk) != Good
    ensures
      var t' := Checked(t, readings);
      && t'.log == t.log && t'.checked == t.checked && t'.uses == t.uses && t'.turn == t.turn + 1
      && t'.desk.maker.net == t.desk.maker.net
  {
    hide EvaluateRisk, NotifyInvalid;
    if !t.stopped && readings(t.turn).risk != None {
      RejectionKeepsNet(t.desk.(queue := t.desk.queue[1..]), t.desk.queue[0],
        EvaluateRisk(t.desk.queue[0], readings(t.turn).risk));
    }
  }

  lemma CheckedFaithful(t: Trading, readings: Readings)
    requires Faithful(t, readings) && InOrder(t) && !Over(t) && t.desk.queue != []
    ensures Faithful(Checked(t, readings), readings)
  {
    hide Steady, Clean, EvaluateRisk, Checked, Outbounds, FilledUps;
    var r := readings(t.turn);
    if r.risk.Some? && EvaluateRisk(t.desk.queue[0], r.risk) == Good {
      SendFaithful(t, readings);
    } else {
      NothingSent(t, readings);
    }
  }

  lemma {:induction false} PlaceAllFaithful(t: Trading, readings: Readings)
    requires Faithful(t, readings) && InOrder(t)
    ensures Faithful(PlaceAll(t, readings), readings)
    decreases if Over(t) then 0 else Measure(t.desk)
  {
    if !Over(t) && t.desk.queue != [] {
      CheckedFaithful(t, readings);
      CheckedKeeps(t, readings);
      if !Over(Checked(t, readings)) {
        PlaceAllFaithful(Checked(t, readings), readings);
      }
    }
  }

  /** What a fill adds to the stream is no request, and the end of an order exactly when it used up
      what was left of it. */
  lemma FillAppended(log: Log, m: Maker, fill: OrderFillUpdate)
    ensures
      var log' := AfterFill(log, m, fill.id, fill.quantity);
      && Outbounds(log') == Outbounds(log) && FilledUps(log') == FilledUps(log) + EndedBy(Use(m, fill, |log|))
      && (Clean(log) ==> Clean(log'))
  {
    hide Disciplined, SentIds, Outbounds, FilledUps, OpenAfter;
    match PlacedSide(m, fill.id)
    case None =>
    case Some(side) =>
      LogAppend(log, FilledUp(side, fill.id));
      Appended(log, FilledUp(side, fill.id));
  }

  /** The strategy's position moves by the fill alone. */
  lemma FillGained(d: Desk, fill: OrderFillUpdate, at: nat)
    ensures OnFill(d, fill.id, fill.quantity).maker.net == d.maker.net + Gained(Use(d.maker, fill, at))
  {
  }

  lemma UpdateFaithful(t: Trading, fill: OrderFillUpdate, readings: Readings)
    requires Faithful(t, readings)
    ensures Faithful(AfterUpdate(t, fill), readings)
  {
    hide Clean, OnFill, AfterFill, EndedBy, Gained, EndsPlaced, FilledUps, AllEnded, AllGained, Outbounds, EvaluateRisk, FillsOf;
    UsesAppended(t.uses, Use(t.desk.maker, fill, |t.log|));
    FillAppended(t.log, t.desk.maker, fill);
    FillGained(t.desk, fill, |t.log|);
    EndsAfterFill(t.log, t.uses, t.desk.maker, fill);
  }

  lemma {:induction false} FillsFaithful(t: Trading, fills: seq<OrderFillUpdate>, left: nat, readings: Readings)
    requires Faithful(t, readings) && Idle(t, left)
    ensures Faithful(AfterFills(t, fills, left, readings), readings)
    decreases |fills|
  {
    hide Faithful, Steady, AfterUpdate;
    if fills != [] && !t.full {
      UpdateFaithful(t, fills[0], readings);
      UpdateKeeps(t, fills[0], left);
      PlaceAllFaithful(AfterUpdate(t, fills[0]), readings);
      FillsFaithful(AfterOneFill(t, fills[0], left, readings), fills[1..], left, readings);
    }
  }

  lemma QuotedFaithful(t: Trading, prices: (Price, Price), readings: Readings)
    requires Faithful(t, readings)
    ensures Faithful(Quoted(t, prices), readings)
  {
    hide Clean, EvaluateRisk, Outbounds, FilledUps;
  }

  lemma RoundFaithful(t: Trading, r: Round, left: nat, readings: Readings)
    requires Faithful(t, readings) && Idle(t, left) && left > 0
    ensures Faithful(AfterRound(t, r, left, readings), readings)
  {
    FillsFaithful(t, r.fills, left, readings);
    var t1 := AfterFills(t, r.fills, left, readings);
    if !Over(t1) && r.prices != None {
      QuotedFaithful(t1, r.prices.value, readings);
      QuotedKeeps(t1, r.prices.value, left);
      PlaceAllFaithful(Quoted(t1, r.prices.value), readings);
    }
    hide Clean, EvaluateRisk, Outbounds, FilledUps, AfterFills;
  }

  lemma {:induction false} RunFaithful(t: Trading, rounds: seq<Round>, readings: Readings)
    requires Faithful(t, readings) && Idle(t, |rounds|)
    ensures Faithful(AfterRun(t, rounds, readings), readings)
    decreases |rounds|
  {
    hide Faithful, Steady, AfterRound;
    if rounds != [] && !Over(t) {
      RoundFaithful(t, rounds[0], |rounds|, readings);
      RunFaithful(AfterRound(t, rounds[0], |rounds|, readings), rounds[1..], readings);
    }
  }

  // ---- The fills taken are those that came ----

  function AllFills(rounds: seq<Round>): seq<OrderFillUpdate> {
    if rounds == [] then [] else rounds[0].fills + AllFills(rounds[1..])
  }

  lemma CheckedTakesNone(t: Trading, readings: Readings)
    requires t.desk.queue != []
    ensures Checked(t, readings).uses == t.uses && Checked(t, readings).turn == t.turn + 1
  {
  }

  /** Placing orders takes no fills, and makes a check for each request queued and at most one more
      for each order placed. */
  lemma {:induction false} PlaceAllWork(t: Trading, readings: Readings)
    requires InOrder(t)
    ensures PlaceAll(t, readings).uses == t.uses
    ensures t.turn <= PlaceAll(t, readings).turn <= t.turn + (if Over(t) then 1 else Measure(t.desk))
    decreases if Over(t) then 0 else Measure(t.desk)
  {
    if !t.full && t.desk.queue != [] {
      CheckedTakesNone(t, readings);
      if !t.stopped {
        CheckedKeeps(t, readings);
        hide Steady, Checked;
        if !Over(Checked(t, readings)) {
          PlaceAllWork(Checked(t, readings), readings);
        }
      }
    }
  }

  lemma MeasureBound(t: Trading)
    requires InOrder(t) && !Over(t)
    ensures Measure(t.desk) <= MOST_WORK
  {
  }

  lemma OneFillWork(t: Trading, fill: OrderFillUpdate, left: nat, readings: Readings)
    requires Idle(t, left)
    ensures FillsOf(AfterOneFill(t, fill, left, readings).uses) == FillsOf(t.uses) + [fill]
    ensures AfterOneFill(t, fill, left, readings).turn <= t.turn + MOST_WORK
  {
    UpdateKeeps(t, fill, left);
    var t1 := AfterUpdate(t, fill);
    PlaceAllWork(t1, readings);
    if !Over(t1) {
      MeasureBound(t1);
    }
    UsesAppended(t.uses, Use(t.desk.maker, fill, |t.log|));
    hide Steady, OnFill, AfterFill;
  }

  lemma {:induction false} FillsWork(t: Trading, fills: seq<OrderFillUpdate>, left: nat, readings: Readings)
    requires Idle(t, left)
    ensures FillsOf(AfterFills(t, fills, left, readings).uses) <= FillsOf(t.uses) + fills
    ensures !Over(AfterFills(t, fills, left, readings)) ==> FillsOf(AfterFills(t, fills, left, readings).uses) == FillsOf(t.uses) + fills
    ensures AfterFills(t, fills, left, readings).turn <= t.turn + MOST_WORK * |fills|
    decreases |fills|
  {
    hide Steady, FillsOf, AfterOneFill;
    if fills != [] && !t.full {
      var t1 := AfterOneFill(t, fills[0], left, readings);
      OneFillWork(t, fills[0], left, readings);
      FillsWork(t1, fills[1..], left, readings);
      assert FillsOf(t.uses) + [fills[0]] + fills[1..] == FillsOf(t.uses) + fills;
    }
  }

  lemma RoundWork(t: Trading, r: Round, left: nat, readings: Readings)
    requires Idle(t, left) && left > 0
    ensures FillsOf(AfterRound(t, r, left, readings).uses) <= FillsOf(t.uses) + r.fills
    ensures !Over(AfterRound(t, r, left, readings)) ==> FillsOf(AfterRound(t, r, left, readings).uses) == FillsOf(t.uses) + r.fills
    ensures AfterRound(t, r, left, readings).turn <= t.turn + MOST_WORK * (|r.fills| + 1)
  {
    var t1 := AfterFills(t, r.fills, left, readings);
    FillsWork(t, r.fills, left, readings);
    if !Over(t1) && r.prices != None {
      QuotedKeeps(t1, r.prices.value, left);
      PlaceAllWork(Quoted(t1, r.prices.value), readings);
      MeasureBound(Quoted(t1, r.prices.value));
    }
    hide Steady, FillsOf, AfterFills;
  }

  lemma {:induction false} RunWork(t: Trading, rounds: seq<Round>, readings: Readings)
    requires Idle(t, |rounds|)
    ensures FillsOf(AfterRun(t, rounds, readings).uses) <= FillsOf(t.uses) + AllFills(rounds)
    ensures AfterRun(t, rounds, readings).turn <= t.turn + MOST_WORK * (|AllFills(rounds)| + |rounds|)
    decreases |rounds|
  {
    hide Steady, FillsOf, AfterRound;
    if rounds != [] && !Over(t) {
      var t1 := AfterRound(t, rounds[0], |rounds|, readings);
      RoundWork(t, rounds[0], |rounds|, readings);
      RunWork(t1, rounds[1..], readings);
      var before, fills, later := FillsOf(t.uses), rounds[0].fills, AllFills(rounds[1..]);
      assert before + fills + later == before + (fills + later);
      if Over(t1) {
        assert AfterRun(t1, rounds[1..], readings) == t1;
      }
    }
  }

  lemma OpeningFaithful(left: nat, readings: Readings)
    requires 1 + 2 * left < TWO_TO_THE_64
    ensures Idle(OPENING_TRADING, left) && Faithful(OPENING_TRADING, readings)
  {
    OpeningSteady();
  }

  /** Whatever fills and prices come in, and whatever the risk checks find: the stream is clean, every
      request of it passed its own check, orders ended by fills were ended by fills that came, the
      position is what these fills came to, and the checks made are bounded by the fills and rounds. */
  lemma EveryRunFaithful(rounds: seq<Round>, readings: Readings)
    requires 1 + 2 * |rounds| < TWO_TO_THE_64
    ensures Idle(OPENING_TRADING, |rounds|)
    ensures
      var t := AfterRun(OPENING_TRADING, rounds, readings);
      && Faithful(t, readings) && FillsOf(t.uses) <= AllFills(rounds)
      && t.turn <= MOST_WORK * (|AllFills(rounds)| + |rounds|)
  {
    hide Faithful, Steady, AfterRun;
    OpeningFaithful(|rounds|, readings);
    RunFaithful(OPENING_TRADING, rounds, readings);
    RunWork(OPENING_TRADING, rounds, readings);
    assert FillsOf([]) + AllFills(rounds) == AllFills(rounds);
  }

  // ---- What a client of the stream sees ----

  /** Of the fills that came, the `u`-th was of order `id`, and of no less than was left of it. */
  ghost predicate FilledBy(t: Trading, fills: seq<OrderFillUpdate>, u: nat, side: Side, id: OrderId) {
    u < |t.uses| <= |fills| && t.uses[u].fill == fills[u] && UsedUp(t.uses[u], side, id)
  }

  /** In every run, between two new orders sent on one side, the first was cancelled or it was filled:
      by one of the fills that came, taken after the first was sent and before the second, of no less
      than what was left of it. */
  lemma {:induction false} SecondOrderExplained(rounds: seq<Round>, readings: Readings, i: nat, j: nat)
    requires 1 + 2 * |rounds| < TWO_TO_THE_64 && Idle(OPENING_TRADING, |rounds|)
    requires var log := AfterRun(OPENING_TRADING, rounds, readings).log;
      && i < j < |log| && log[i].Sent? && IsNew(log[i].out) && log[j].Sent? && IsNew(log[j].out)
      && SideOf(log[i].out) == SideOf(log[j].out)
    ensures
      var t := AfterRun(OPENING_TRADING, rounds, readings);
      var first := t.log[i].out;
      || (exists k :: i < k < j && t.log[k].Sent? && Ends(t.log[k], SideOf(first), first.request.id))
      || (exists u: nat :: FilledBy(t, AllFills(rounds), u, SideOf(first), first.request.id) && i < t.uses[u].at < j)
  {
    var t := AfterRun(OPENING_TRADING, rounds, readings);
    EveryRunFaithful(rounds, readings);
    NoSecondOrder(t.log, i, j);
    hide AfterRun, Clean, PassedInTurn;
    var side, id := SideOf(t.log[i].out), t.log[i].out.request.id;
    var k :| i < k < j && Ends(t.log[k], side, id);
    if t.log[k].FilledUp? {
      assert EndedAt(t.uses, k, t.log[k]);
      var u :| 0 <= u < |t.uses| && t.uses[u].at == k && UsedUp(t.uses[u], side, id);
      assert FillsOf(t.uses)[u] == AllFills(rounds)[u];
      assert FilledBy(t, AllFills(rounds), u, side, id);
    }
  }

  // ---- A halt ----

  ghost predicate HaltedFrom(readings: Readings, turn: nat) {
    forall k :: turn <= k ==> readings(k).risk.Some? && readings(k).risk.value.isHalted
  }

  ghost predicate OnlyReductions(before: seq<OutboundOrderRequest>, after: seq<OutboundOrderRequest>) {
    before <= after && forall k :: |before| <= k < |after| ==> ReducesExposure(after[k])
  }

  /** Some request of the queue does not reduce exposure. */
  predicate Adds(q: Queue) {
    exists k :: 0 <= k < |q| && !ReducesExposure(q[k])
  }

  lemma AddsLater(q: Queue)
    requires Adds(q) && ReducesExposure(q[0])
    ensures Adds(q[1..])
  {
    var k :| 0 <= k < |q| && !ReducesExposure(q[k]);
    assert q[1..][k - 1] == q[k];
  }

  lemma ReductionSent(t: Trading, readings: Readings)
    requires !Over(t) && t.desk.queue != [] && HaltedFrom(readings, t.turn) && ReducesExposure(t.desk.queue[0])
    ensures
      var t' := Checked(t, readings);
      && t'.log == t.log + [Sent(t.desk.queue[0])] && t'.desk.maker == t.desk.maker
      && (!Over(t') ==> t'.desk.queue == t.desk.queue[1..])
  {
    assert readings(t.turn).risk.Some?;
    PassesExactly(t.desk.queue[0], readings(t.turn).risk.value);
    hide EvaluateRisk, NotifyInvalid;
  }

  lemma AdditionRejected(t: Trading, readings: Readings)
    requires InOrder(t) && !Over(t) && t.desk.queue != [] && HaltedFrom(readings, t.turn)
    requires !ReducesExposure(t.desk.queue[0])
    ensures Checked(t, readings).log == t.log && Count(Checked(t, readings).desk.maker) == 0
  {
    var q, r := t.desk.queue, readings(t.turn);
    assert r.risk.value.isHalted;
    assert EvaluateRisk(q[0], r.risk) == Halted;
    RejectSteady(t.log, t.desk, Halted);
    hide EvaluateRisk, NotifyInvalid, Steady;
  }

  /** From `t` on only reductions were sent, and what was flat or had to become flat is or still has
      to. */
  ghost predicate Flattening(t: Trading, t': Trading) {
    && OnlyReductions(Outbounds(t.log), Outbounds(t'.log))
    && (!Over(t') && (Count(t.desk.maker) == 0 || Adds(t.desk.queue)) ==>
        Count(t'.desk.maker) == 0 || Adds(t'.desk.queue))
  }

  lemma HaltedStep(t: Trading, readings: Readings)
    requires InOrder(t) && !Over(t) && t.desk.queue != [] && HaltedFrom(readings, t.turn)
    ensures HaltedFrom(readings, Checked(t, readings).turn) && Flattening(t, Checked(t, readings))
  {
    hide Steady, Outbounds, Checked, EvaluateRisk;
    CheckedTakesNone(t, readings);
    var o := t.desk.queue[0];
    if ReducesExposure(o) {
      ReductionSent(t, readings);
      Appended(t.log, Sent(o));
      if Adds(t.desk.queue) {
        AddsLater(t.desk.queue);
      }
      hide Adds, Count;
    } else {
      AdditionRejected(t, readings);
    }
  }

  lemma ReductionsThen(a: seq<OutboundOrderRequest>, b: seq<OutboundOrderRequest>, c: seq<OutboundOrderRequest>)
    requires OnlyReductions(a, b) && OnlyReductions(b, c)
    ensures OnlyReductions(a, c)
  {
    hide ReducesExposure;
    forall k | |a| <= k < |c| ensures ReducesExposure(c[k]) {
      assert k < |b| ==> c[k] == b[k];
    }
  }

  lemma {:induction false} StaysHalted(t: Trading, readings: Readings)
    requires InOrder(t) && !Over(t) && HaltedFrom(readings, t.turn)
    ensures Flattening(t, PlaceAll(t, readings))
    decreases Measure(t.desk)
  {
    hide Steady, Outbounds, Checked, OnlyReductions, Adds, Count, HaltedFrom;
    if t.desk.queue == [] {
      NoneSent(Outbounds(t.log));
    } else {
      HaltedStep(t, readings);
      CheckedKeeps(t, readings);
      var t1 := Checked(t, readings);
      if !Over(t1) {
        StaysHalted(t1, readings);
        ReductionsThen(Outbounds(t.log), Outbounds(t1.log), Outbounds(PlaceAll(t1, readings).log));
      }
    }
  }

  lemma NoneSent(outs: seq<OutboundOrderRequest>)
    ensures OnlyReductions(outs, outs)
  {
  }

  /** While trading is halted nothing is sent but what reduces exposure; and once a request that does
      not has come up, both sides of the strategy are left without an order. */
  lemma HaltFlattens(t: Trading, readings: Readings)
    requires InOrder(t) && !Over(t) && HaltedFrom(readings, t.turn)
    ensures
      var t' := PlaceAll(t, readings);
      && OnlyReductions(Outbounds(t.log), Outbounds(t'.log))
      && (!Over(t') && (Count(t.desk.maker) == 0 || Adds(t.desk.queue)) ==> Count(t'.desk.maker) == 0)
  {
    StaysHalted(t, readings);
    hide Steady, Outbounds, Checked, OnlyReductions, Count, HaltedFrom, ReducesExposure;
  }
}
