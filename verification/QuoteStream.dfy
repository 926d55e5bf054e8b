/** The stream of requests a market maker sends: no second new order on a side before the first was
    cancelled or filled, no client id twice, and a queue that never fills up. */
module QuoteStream {
  import opened Machine
  import opened Orders
  import opened ExchangeModel
  import opened MarketMaking

  /** What happened outside the strategy: a request was sent, or an order was, by the strategy's own
      account, filled. */
  datatype StreamEvent = Sent(out: OutboundOrderRequest) | FilledUp(side: Side, id: OrderId)

  type Log = seq<StreamEvent>

  predicate IsNew(o: OutboundOrderRequest) {
    o.request.kind == BuyRequest || o.request.kind == SellRequest
  }

  function SideOf(o: OutboundOrderRequest): Side {
    if o.request.kind == BuyRequest then Buy else if o.request.kind == SellRequest then Sell else o.side
  }

  /** The order the exchange is still to have on `side` after one more event. */
  function OpenNext(open: Option<OrderId>, e: StreamEvent, side: Side): Option<OrderId> {
    match e
    case Sent(o) =>
      if SideOf(o) != side then open
      else if IsNew(o) then Some(o.request.id)
      else if o.request.kind == CancelRequest && open == Some(o.request.id) then None
      else open
    case FilledUp(s, id) => if s == side && open == Some(id) then None else open
  }

  function OpenAfter(log: Log, side: Side): Option<OrderId> {
    if log == [] then None else OpenNext(OpenAfter(log[..|log| - 1], side), log[|log| - 1], side)
  }

  /** Every new order found its side without an open order. */
  ghost predicate Disciplined(log: Log) {
    forall i {:trigger log[i]} :: 0 <= i < |log| && log[i].Sent? && IsNew(log[i].out) ==>
      OpenAfter(log[..i], SideOf(log[i].out)) == None
  }

  /** An event that ends order `id` on `side`. */
  predicate Ends(e: StreamEvent, side: Side, id: OrderId) {
    match e
    case Sent(o) => o.request.kind == CancelRequest && o.request.id == id && o.side == side
    case FilledUp(s, i) => s == side && i == id
  }

  /** An open order stays open as long as nothing ends it. */
  lemma {:induction false} StaysOpen(log: Log, i: nat, j: nat, side: Side)
    requires i < j <= |log| && log[i].Sent? && IsNew(log[i].out) && SideOf(log[i].out) == side
    requires forall k :: i < k < j ==> !Ends(log[k], side, log[i].out.request.id)
    requires forall k :: i < k < j ==> !(log[k].Sent? && IsNew(log[k].out) && SideOf(log[k].out) == side)
    ensures OpenAfter(log[..j], side) == Some(log[i].out.request.id)
    decreases j
  {
    assert log[..j][..j - 1] == log[..j - 1];
    if j > i + 1 {
      StaysOpen(log, i, j - 1, side);
    }
  }

  /** In a disciplined stream two new orders on one side have the end of the first between them. */
  lemma {:induction false} NoSecondOrder(log: Log, i: nat, j: nat)
    requires Disciplined(log) && i < j < |log|
    requires log[i].Sent? && IsNew(log[i].out) && log[j].Sent? && IsNew(log[j].out)
    requires SideOf(log[i].out) == SideOf(log[j].out)
    ensures exists k :: i < k < j && Ends(log[k], SideOf(log[i].out), log[i].out.request.id)
    decreases j
  {
    var side := SideOf(log[i].out);
    if m: nat :| i < m < j && log[m].Sent? && IsNew(log[m].out) && SideOf(log[m].out) == side {
      NoSecondOrder(log, i, m);
    } else if !exists k :: i < k < j && Ends(log[k], side, log[i].out.request.id) {
      StaysOpen(log, i, j, side);
    }
  }

  // ---- The queue ----

  /** Sending the whole queue from where the stream is now would be disciplined, and would leave
      `placed` open. */
  ghost predicate Fine(open: Option<OrderId>, q: Queue, side: Side, placed: Option<OrderId>)
    decreases |q|
  {
    if q == [] then open == placed
    else
      && (IsNew(q[0]) && SideOf(q[0]) == side ==> open == None)
      && Fine(OpenNext(open, Sent(q[0]), side), q[1..], side, placed)
  }

  function PlacedId(m: Maker, side: Side): Option<OrderId> {
    if m.On(side).placed then Some(m.On(side).id) else None
  }

  /** The ids of the new orders of a queue. */
  function NewIds(q: Queue): seq<OrderId> {
    if q == [] then [] else (if IsNew(q[0]) then [q[0].request.id] else []) + NewIds(q[1..])
  }

  ghost predicate Increasing(ids: seq<OrderId>) {
    forall i, j :: 0 <= i < j < |ids| ==> ids[i] < ids[j]
  }

  /** The ids of the new orders sent. */
  function SentIds(log: Log): seq<OrderId> {
    if log == [] then []
    else
      var e := log[|log| - 1];
      SentIds(log[..|log| - 1]) + (if e.Sent? && IsNew(e.out) then [e.out.request.id] else [])
  }

  /** No id was used twice, and none beyond the counter. */
  ghost predicate IdsOk(log: Log, d: Desk) {
    && Increasing(SentIds(log) + NewIds(d.queue))
    && (forall i :: 0 <= i < |SentIds(log) + NewIds(d.queue)| ==> (SentIds(log) + NewIds(d.queue))[i] < d.nextId)
    && d.maker.buy.id < d.nextId && d.maker.sell.id < d.nextId
  }

  /** Queued requests and placed orders: what `place_new_orders` works off. */
  function Measure(d: Desk): nat {
    |d.queue| + Count(d.maker)
  }

  const MOST_WORK: nat := 6

  ghost predicate Steady(log: Log, d: Desk) {
    && Disciplined(log) && IdsOk(log, d) && Measure(d) <= MOST_WORK
    && forall side :: Fine(OpenAfter(log, side), d.queue, side, PlacedId(d.maker, side))
  }

  // ---- Queueing ----

  lemma {:induction false} FineAppend(open: Option<OrderId>, q: Queue, o: OutboundOrderRequest, side: Side,
      placed: Option<OrderId>)
    requires Fine(open, q, side, placed) && (IsNew(o) && SideOf(o) == side ==> placed == None)
    ensures Fine(open, q + [o], side, OpenNext(placed, Sent(o), side))
    decreases |q|
  {
    if q == [] {
      assert [o][1..] == [] && [] + [o] == [o];
    } else {
      FineAppend(OpenNext(open, Sent(q[0]), side), q[1..], o, side, placed);
      assert (q + [o])[0] == q[0] && (q + [o])[1..] == q[1..] + [o];
    }
  }

  ghost predicate DeskFine(log: Log, d: Desk) {
    forall side :: Fine(OpenAfter(log, side), d.queue, side, PlacedId(d.maker, side))
  }

  /** One request joins the queue, and the strategy's own account follows it. */
  lemma Queued(log: Log, d: Desk, o: OutboundOrderRequest, m: Maker)
    requires DeskFine(log, d)
    requires IsNew(o) ==> PlacedId(d.maker, SideOf(o)) == None
    requires forall side :: PlacedId(m, side) == OpenNext(PlacedId(d.maker, side), Sent(o), side)
    ensures DeskFine(log, d.(maker := m, queue := d.queue + [o]))
  {
    forall side ensures Fine(OpenAfter(log, side), d.queue + [o], side, PlacedId(m, side)) {
      FineAppend(OpenAfter(log, side), d.queue, o, side, PlacedId(d.maker, side));
    }
  }

  lemma CancelSideFine(log: Log, d: Desk, side: Side)
    requires DeskFine(log, d)
    ensures DeskFine(log, CancelSide(d, side)) && !CancelSide(d, side).maker.On(side).placed
    ensures Measure(CancelSide(d, side)) == Measure(d)
  {
    if d.maker.On(side).placed {
      Queued(log, d, Cancellation(side, d.maker.On(side).id), CancelSide(d, side).maker);
    }
  }

  lemma {:induction false} NewIdsAppend(q: Queue, o: OutboundOrderRequest)
    ensures NewIds(q + [o]) == NewIds(q) + (if IsNew(o) then [o.request.id] else [])
  {
    if q == [] {
      assert [o][1..] == [] && [] + [o] == [o];
    } else {
      NewIdsAppend(q[1..], o);
      assert (q + [o])[1..] == q[1..] + [o];
    }
  }

  lemma CancelSideIds(d: Desk, side: Side)
    ensures NewIds(CancelSide(d, side).queue) == NewIds(d.queue)
    ensures CancelSide(d, side).maker.buy.id == d.maker.buy.id && CancelSide(d, side).maker.sell.id == d.maker.sell.id
    ensures CancelSide(d, side).nextId == d.nextId
  {
    NewIdsAppend(d.queue, Cancellation(side, d.maker.On(side).id));
  }

  /** With room for them, the cancellations leave no order placed. */
  lemma QueueCancelsSteady(log: Log, d: Desk)
    requires Steady(log, d)
    ensures Steady(log, QueueCancels(d)) && Measure(QueueCancels(d)) == Measure(d)
    ensures Count(QueueCancels(d).maker) == 0 && QueueCancels(d).nextId == d.nextId
  {
    var d1 := CancelSide(d, Buy);
    CancelSideFine(log, d, Buy);
    CancelSideIds(d, Buy);
    CancelSideFine(log, d1, Sell);
    CancelSideIds(d1, Sell);
  }

  lemma QueueNewPairSteady(log: Log, d: Desk, bid: Price, offer: Price)
    requires Steady(log, d) && Count(d.maker) == 0 && |d.queue| <= 2 && d.nextId + 2 < TWO_TO_THE_64
    ensures Steady(log, QueueNewPair(d, bid, offer))
  {
    var d' := QueueNewPair(d, bid, offer);
    if d' != d {
      var buy, sell := d'.maker.buy, d'.maker.sell;
      var first, second := NewOrder(Buy, buy.id, buy.price, buy.quantity), NewOrder(Sell, sell.id, sell.price, sell.quantity);
      var d1 := d.(maker := d.maker.(buy := buy), queue := d.queue + [first]);
      assert d'.queue == d1.queue + [second];
      Queued(log, d, first, d1.maker);
      Queued(log, d1, second, d'.maker);
      NewIdsAppend(d.queue, first);
      NewIdsAppend(d1.queue, second);
      assert SentIds(log) + NewIds(d'.queue) == SentIds(log) + NewIds(d.queue) + [d.nextId, d.nextId + 1];
    }
  }

  /** New quotes from an empty queue. */
  lemma GetOrdersSteady(log: Log, d: Desk, bid: Price, offer: Price)
    requires Steady(log, d) && d.queue == [] && d.nextId + 2 < TWO_TO_THE_64
    ensures Steady(log, GetOrders(d, bid, offer))
  {
    if ShouldPlace(d.maker, bid, offer) {
      QueueCancelsSteady(log, d);
      QueueNewPairSteady(log, QueueCancels(d), bid, offer);
    }
  }

  lemma QueueQuantitySteady(log: Log, d: Desk, side: Side, quantity: Quantity)
    requires Steady(log, d) && Measure(d) < MOST_WORK
    ensures Steady(log, QueueQuantity(d, side, quantity)) && Measure(QueueQuantity(d, side, quantity)) <= Measure(d) + 1
  {
    var d' := QueueQuantity(d, side, quantity);
    if d' != d {
      var order := d.maker.On(side);
      var o := QuantityUpdate(side, order.id, quantity, order.quantity);
      assert d' == d.(maker := d'.maker, queue := d.queue + [o]);
      Queued(log, d, o, d'.maker);
      NewIdsAppend(d.queue, o);
      assert NewIds(d'.queue) == NewIds(d.queue);
    }
  }

  lemma RebalanceSteady(log: Log, d: Desk)
    requires Steady(log, d) && Measure(d) <= 2
    ensures Steady(log, Rebalance(d))
  {
    var net := d.maker.net;
    if Abs(net) >= EXPOSURE_REBALANCE_THRESHOLD {
      var imbalance := Min(Abs(net), MAX_ADDITIONAL_EXIT_QUANTITY);
      var less, more := Shrunk(imbalance), MARKET_MAKER_ORDER_QUANTITY + imbalance;
      var buy := if net > 0 then less else more;
      QueueQuantitySteady(log, d, Buy, buy);
      QueueQuantitySteady(log, QueueQuantity(d, Buy, buy), Sell, if net > 0 then more else less);
    }
  }

  /** What a fill adds to the stream: the end of the order, when nothing is left of it. */
  function AfterFill(log: Log, m: Maker, id: OrderId, quantity: Quantity): Log {
    match PlacedSide(m, id)
    case None => log
    case Some(side) => if Filled(m, side, quantity).On(side).placed then log else log + [FilledUp(side, id)]
  }

  lemma LogAppend(log: Log, e: StreamEvent)
    ensures forall side :: OpenAfter(log + [e], side) == OpenNext(OpenAfter(log, side), e, side)
    ensures SentIds(log + [e]) == SentIds(log) + (if e.Sent? && IsNew(e.out) then [e.out.request.id] else [])
    ensures Disciplined(log) && (e.Sent? && IsNew(e.out) ==> OpenAfter(log, SideOf(e.out)) == None) ==> Disciplined(log + [e])
  {
    assert (log + [e])[..|log|] == log;
    assert forall i :: 0 <= i < |log| ==> (log + [e])[..i] == log[..i] && (log + [e])[i] == log[i];
  }

  /** A fill reported while the queue is empty. */
  lemma UpdateSteady(log: Log, d: Desk, id: OrderId, quantity: Quantity)
    requires Steady(log, d) && d.queue == []
    ensures Steady(AfterFill(log, d.maker, id, quantity), OnFill(d, id, quantity))
  {
    match PlacedSide(d.maker, id)
    case None =>
    case Some(side) =>
      var log', d' := AfterFill(log, d.maker, id, quantity), d.(maker := Filled(d.maker, side, quantity));
      LogAppend(log, FilledUp(side, id));
      assert forall s :: Fine(OpenAfter(log, s), [], s, PlacedId(d.maker, s));
      assert DeskFine(log', d');
      RebalanceSteady(log', d');
  }

  // ---- Sending and rejecting ----

  lemma SendSteady(log: Log, d: Desk)
    requires Steady(log, d) && d.queue != []
    ensures Steady(log + [Sent(d.queue[0])], d.(queue := d.queue[1..]))
    ensures Measure(d.(queue := d.queue[1..])) < Measure(d)
  {
    hide Disciplined, Fine, OpenAfter, IdsOk;
    SendFine(log, d);
    SendIds(log, d);
  }

  lemma SendFine(log: Log, d: Desk)
    requires Disciplined(log) && DeskFine(log, d) && d.queue != []
    ensures Disciplined(log + [Sent(d.queue[0])]) && DeskFine(log + [Sent(d.queue[0])], d.(queue := d.queue[1..]))
  {
    var o := d.queue[0];
    LogAppend(log, Sent(o));
    hide Disciplined, OpenAfter, SentIds;
    assert Fine(OpenAfter(log, SideOf(o)), d.queue, SideOf(o), PlacedId(d.maker, SideOf(o)));
    forall side ensures Fine(OpenAfter(log + [Sent(o)], side), d.queue[1..], side, PlacedId(d.maker, side)) {
      assert Fine(OpenAfter(log, side), d.queue, side, PlacedId(d.maker, side));
    }
  }

  lemma SendIds(log: Log, d: Desk)
    requires IdsOk(log, d) && d.queue != []
    ensures IdsOk(log + [Sent(d.queue[0])], d.(queue := d.queue[1..]))
  {
    var o, rest := d.queue[0], d.queue[1..];
    var ids: seq<OrderId> := if IsNew(o) then [o.request.id] else [];
    LogAppend(log, Sent(o));
    assert NewIds(d.queue) == ids + NewIds(rest);
    hide Disciplined, OpenAfter, SentIds, NewIds, Increasing;
    Regrouped(SentIds(log), ids, NewIds(rest));
    assert SentIds(log + [Sent(o)]) + NewIds(rest) == SentIds(log) + NewIds(d.queue);
  }

  lemma Regrouped<T>(a: seq<T>, b: seq<T>, c: seq<T>)
    ensures (a + b) + c == a + (b + c)
  {
  }

  /** An id that ends up placed was open from the start or is put in by the queue. */
  lemma {:induction false} PlacedComesFrom(open: Option<OrderId>, q: Queue, side: Side, id: OrderId)
    requires Fine(open, q, side, Some(id)) && open != Some(id)
    ensures id in NewIds(q)
    decreases |q|
  {
    var open' := OpenNext(open, Sent(q[0]), side);
    if open' != Some(id) {
      PlacedComesFrom(open', q[1..], side, id);
    }
  }

  /** If order `id` was not sent after all, the rest of the queue is still fine, and leaves it
      neither open nor placed. */
  lemma {:induction false} Unsent(id: OrderId, q: Queue, side: Side, placed: Option<OrderId>)
    requires Fine(Some(id), q, side, placed) && id !in NewIds(q)
    ensures Fine(None, q, side, if placed == Some(id) then None else placed)
    decreases |q|
  {
    if q != [] {
      var open := OpenNext(Some(id), Sent(q[0]), side);
      if open == Some(id) {
        Unsent(id, q[1..], side, placed);
      } else if placed == Some(id) {
        PlacedComesFrom(None, q[1..], side, id);
      }
    }
  }

  /** The front request taken out unsent, and the strategy told. */
  lemma UndoneSteady(log: Log, d: Desk, m: Maker)
    requires Steady(log, d) && d.queue != [] && m == Undone(d.maker, d.queue[0]) && !ReducesExposure(d.queue[0])
    ensures Steady(log, d.(maker := m, queue := d.queue[1..])) && Count(m) <= Count(d.maker)
  {
    var o, rest := d.queue[0], d.queue[1..];
    var ids: seq<OrderId> := if IsNew(o) then [o.request.id] else [];
    forall side ensures Fine(OpenAfter(log, side), rest, side, PlacedId(m, side)) {
      assert Fine(OpenAfter(log, side), d.queue, side, PlacedId(d.maker, side));
      if IsNew(o) && SideOf(o) == side {
        assert NewIds(d.queue) == [o.request.id] + NewIds(rest);
        NotAgain(SentIds(log), o.request.id, NewIds(rest));
        Unsent(o.request.id, rest, side, PlacedId(d.maker, side));
      }
    }
    RestIncreasing(SentIds(log), ids, NewIds(rest), d.nextId);
  }

  lemma NotAgain(a: seq<OrderId>, id: OrderId, b: seq<OrderId>)
    requires Increasing(a + ([id] + b))
    ensures id !in b
  {
    var all := a + ([id] + b);
    forall k | 0 <= k < |b| ensures b[k] != id {
      assert all[|a|] == id && all[|a| + 1 + k] == b[k];
    }
  }

  lemma RestIncreasing(a: seq<OrderId>, ids: seq<OrderId>, b: seq<OrderId>, bound: OrderId)
    requires Increasing(a + (ids + b)) && forall i :: 0 <= i < |a + (ids + b)| ==> (a + (ids + b))[i] < bound
    ensures Increasing(a + b) && forall i :: 0 <= i < |a + b| ==> (a + b)[i] < bound
  {
    var all := a + (ids + b);
    assert forall i :: 0 <= i < |a + b| ==> (a + b)[i] == all[if i < |a| then i else i + |ids|];
  }

  /** A rejection keeps everything in order, and is progress; a halt or too great a loss leaves no
      order placed. */
  lemma RejectSteady(log: Log, d: Desk, reason: OrderStatus)
    requires Steady(log, d) && d.queue != [] && !ReducesExposure(d.queue[0])
    ensures
      var d' := NotifyInvalid(d.(queue := d.queue[1..]), d.queue[0], reason);
      && Steady(log, d') && Measure(d') < Measure(d) && d'.nextId == d.nextId
      && (reason == Halted || reason == TooMuchLoss ==> Count(d'.maker) == 0)
  {
    var m := Undone(d.maker, d.queue[0]);
    var d1 := d.(maker := m, queue := d.queue[1..]);
    UndoneSteady(log, d, m);
    match reason
    case Halted => QueueCancelsSteady(log, d1);
    case TooMuchLoss => QueueCancelsSteady(log, d1);
    case TooMuchExposure =>
      CancelSideFine(log, d1, d.queue[0].side);
      CancelSideIds(d1, d.queue[0].side);
    case _ =>
  }

  lemma OpeningSteady()
    ensures Steady([], Desk(Maker(PlacedOrder(false, 0, 0, 0), PlacedOrder(false, 0, 0, 0), 0), [], 1))
  {
  }

  // ---- Client ids ----

  /** A stream that never doubles up on a side and never uses a client id twice. */
  ghost predicate Clean(log: Log) {
    Disciplined(log) && Increasing(SentIds(log))
  }

  lemma SteadyIsClean(log: Log, d: Desk)
    requires Steady(log, d)
    ensures Clean(log)
  {
    var a, b := SentIds(log), NewIds(d.queue);
    assert forall i :: 0 <= i < |a| ==> (a + b)[i] == a[i];
  }

  /** The place of a sent new order among the ids sent. */
  lemma {:induction false} SentIdAt(log: Log, i: nat)
    requires i < |log| && log[i].Sent? && IsNew(log[i].out)
    ensures |SentIds(log[..i])| < |SentIds(log)| && SentIds(log)[|SentIds(log[..i])|] == log[i].out.request.id
    decreases |log|
  {
    var shorter := log[..|log| - 1];
    if i < |log| - 1 {
      SentIdAt(shorter, i);
      assert shorter[..i] == log[..i];
    }
  }

  lemma {:induction false} SentIdsGrow(log: Log, i: nat, j: nat)
    requires i <= j <= |log|
    ensures |SentIds(log[..i])| <= |SentIds(log[..j])|
    decreases j
  {
    if i < j {
      SentIdsGrow(log, i, j - 1);
      assert log[..j][..j - 1] == log[..j - 1];
    }
  }

  /** No two new orders of a clean stream have the same client id. */
  lemma NoIdTwice(log: Log, i: nat, j: nat)
    requires Clean(log) && i < j < |log|
    requires log[i].Sent? && IsNew(log[i].out) && log[j].Sent? && IsNew(log[j].out)
    ensures log[i].out.request.id != log[j].out.request.id
  {
    SentIdAt(log, i);
    SentIdAt(log, j);
    assert log[..i + 1][..i] == log[..i];
    SentIdsGrow(log, i + 1, j);
  }
}
