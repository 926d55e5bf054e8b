/** The matching engine of src/exchange/clob.cpp over the order book it mutates. */
module Clob {
  import opened Machine
  import opened Orders
  import opened PriceTimePriority
  import opened BookEffects
  import opened Matching
  import opened ExchangeModel
  import opened ExchangeRuns
  import opened BookStore
  import opened BestPrices
  import opened BookStates

  /** From look `from` up to look `looks` there was a look for each of `n` things done, and each was done
      before a look saw a stop: if one is asked for at look `k`, no more were done than looks came before
      it. */
  ghost predicate HeededUpTo(asks: nat -> bool, looks: nat, from: nat, n: nat) {
    n <= looks - from && forall k: nat :: from <= k && asks(k) ==> n <= k - from
  }

  /** After `n` things up to look `mid`, `m` more. */
  lemma HeedsMore(asks: nat -> bool, from: nat, n: nat, mid: nat, m: nat, till: nat, looks: nat)
    requires HeededUpTo(asks, mid, from, n) && HeededUpTo(asks, till, mid, m) && till <= looks
    requires (exists k: nat :: k < mid && asks(k)) ==> m == 0
    ensures HeededUpTo(asks, looks, from, n + m)
  {
  }

  /** std::stop_token. Whoever else holds the stop source may ask for a stop between any two looks:
      `asks(k)` says whether they did before look `k`. Only looking tells, and a stop stays. */
  class StopToken {
    const asks: nat -> bool
    var looks: nat

    constructor (asks: nat -> bool)
      ensures this.asks == asks && looks == 0
    {
      this.asks := asks;
      looks := 0;
    }

    /** A stop was seen. */
    predicate Requested()
      reads this
    {
      exists k :: 0 <= k < looks && asks(k)
    }

    /** Nobody ever asks for a stop. */
    ghost predicate Never() {
      forall k :: !asks(k)
    }

    /** Each of `n` things done since look `from` was done after a look, and before one saw a stop. */
    ghost predicate Heeded(from: nat, n: nat)
      reads this
    {
      HeededUpTo(asks, looks, from, n)
    }

    lemma HeedsNone(from: nat)
      requires from <= looks
      ensures Heeded(from, 0)
    {
    }

    lemma HeedsOne(from: nat, n: nat)
      requires !Requested() && n <= looks - from
      ensures Heeded(from, n)
    {
    }

    method StopRequested() returns (stop: bool)
      modifies this
      ensures stop == Requested() && looks == old(looks) + 1
      ensures Requested() == (old(Requested()) || asks(old(looks)))
    {
      looks := looks + 1;
      stop := Requested();
    }
  }

  datatype SubmitResult = Accepted(id: OrderId) | OrderDoesNotExist

  class CentralLimitOrderBook {
    var nextOrderId: OrderId
    const state: BookState
    // Everything published to the market event buffer, in order.
    var published: seq<MarketEvent>
    // Every request taken before a stop was seen, in order.
    ghost var submitted: seq<OrderRequest>

    ghost function Repr(): set<object> {
      {this, state, state.lists} + state.lists.repr
    }

    ghost predicate Apart()
      reads state, state.lists, state.lists.repr
    {
      this !in {state, state.lists} + state.lists.repr && state.Valid()
    }

    ghost predicate Valid()
      reads this, state, state.lists, state.lists.repr
    {
      Apart() && Sound(state.Book(), nextOrderId)
    }

    constructor (hashPrice: Price -> nat, hashId: OrderId -> nat)
      ensures Valid() && state.Book() == EMPTY_BOOK && published == [] && nextOrderId == 1 && submitted == []
      ensures fresh(state) && fresh(state.lists.repr)
    {
      nextOrderId := 1;
      state := new BookState(hashPrice, hashId);
      published, submitted := [], [];
      new;
      OpeningOk();
    }

    lemma BookIsSound()
      requires Valid()
      ensures Sound(state.Book(), nextOrderId)
    {
    }

    lemma BookIsOk()
      requires Valid()
      ensures BookOk(state.Book())
    {
    }

    lemma IdsAreValid()
      requires Valid()
      ensures nextOrderId > INVALID_ORDER_ID
    {
    }

    /** `stop_token.stop_requested()`. */
    method PollStop(stop: StopToken) returns (stopped: bool)
      requires Valid() && stop !in Repr()
      modifies stop
      ensures Valid() && state.Book() == old(state.Book())
      ensures stopped == stop.Requested() && stop.looks == old(stop.looks) + 1 && (old(stop.Requested()) ==> stopped)
    {
      stopped := stop.StopRequested();
    }

    /** `wait_get_head_ref`: a slot, or nothing once a stop was requested. */
    method ClaimSlot(stop: StopToken) returns (claimed: bool)
      requires Valid() && stop !in Repr()
      modifies stop
      ensures Valid() && state.Book() == old(state.Book())
      ensures claimed == !stop.Requested() && old(stop.looks) < stop.looks && (old(stop.Requested()) ==> !claimed)
    {
      var stopped := PollStop(stop);
      var rounds: nat := *; // for which the buffer is found full
      while !stopped && rounds > 0
        invariant Valid() && state.Book() == old(state.Book()) && stopped == stop.Requested()
        invariant old(stop.looks) < stop.looks && (old(stop.Requested()) ==> stopped)
      {
        stopped := PollStop(stop);
        rounds := rounds - 1;
      }
      return !stopped;
    }

    /** `buffer_.publish()` for an event written to the claimed slot. */
    method Publish(event: MarketEvent)
      requires Valid()
      modifies this`published
      ensures Valid() && state.Book() == old(state.Book())
      ensures published == old(published) + [event]
    {
      published := published + [event];
    }

    // ---- Trading ----

    /** `state_.trade(*trade)`. */
    method ApplyTrade(event: MarketEvent)
      requires Valid() && event.kind == EventKind.Trade && Executable(state.Book(), event)
      modifies state, state.lists.repr
      ensures Valid() && state.Book() == Apply(old(state.Book()), event)
      ensures published == old(published) && nextOrderId == old(nextOrderId)
    {
      hide Consistent, Spelled, CacheOk, Sound, Tradable, TradeOrder;
      TradeStaysSound(state.Book(), event, nextOrderId);
      var _ := state.Trade(event.order.id, event.order.quantity);
    }

    /** The best order a new order of `side` could trade with. */
    method BestQuote(side: Side) returns (best: Order)
      requires Valid()
      ensures IsTop(state.Book(), side, best)
    {
      best := state.BestOpposingOrder(side);
      BestIsTop(state.Book(), side, best, nextOrderId);
    }

    /** Publish a trade with the best opposing order and apply it to the book. */
    method RecordTrade(order: Order, best: Order) returns (left: Order)
      requires Valid() && order.quantity > 0
      requires IsTop(state.Book(), order.side, best) && best.id != INVALID_ORDER_ID
      requires Acceptable(order.side, order.price, best.price)
      modifies this`published, state, state.lists.repr
      ensures Valid() && TradeOutcome(old(state.Book()), state.Book(), order, left, true)
      ensures published == old(published) + TradeRecord(old(state.Book()), order, true)
    {
      hide Consistent, Spelled, CacheOk, Sound, Ladder, Tradable;
      var quantity := Min(order.quantity, best.quantity);
      var event := TradeEvent(Opposite(order.side), Quote(best.price, best.id, quantity));
      TopIsTradable(state.Book(), order.side, nextOrderId, quantity);
      Publish(event);
      ApplyTrade(event);
      left := order.(quantity := order.quantity - quantity);
    }

    /** `execute_trade`: one trade with the best opposing order, unless there is none, it is
        worse than the limit, or a stop was requested. */
    method ExecuteTrade(order: Order, stop: StopToken) returns (traded: bool, left: Order)
      requires Valid() && order.quantity > 0 && stop !in Repr()
      modifies this`published, state, state.lists.repr, stop
      ensures Valid() && old(stop.looks) < stop.looks && (traded ==> !stop.Requested())
      ensures TradeOutcome(old(state.Book()), state.Book(), order, left, traded)
      ensures published == old(published) + TradeRecord(old(state.Book()), order, traded)
      ensures !traded ==> stop.Requested() || NoMatch(state.Book(), order)
      ensures old(stop.Requested()) ==> !traded
    {
      hide Consistent, Spelled, CacheOk, IsTop, NoMatch, TradeOutcome, TradeRecord, Sound;
      NoOutcome(state.Book(), order);
      var stopped := PollStop(stop);
      if stopped {
        return false, order;
      }
      var best := BestQuote(order.side);
      TopDecides(state.Book(), order, best);
      if best.id == INVALID_ORDER_ID || !Acceptable(order.side, order.price, best.price) {
        return false, order;
      }
      var claimed := ClaimSlot(stop);
      if !claimed {
        return false, order;
      }
      left := RecordTrade(order, best);
      return true, left;
    }

    // ---- Requests ----

    /** One round of the trading loop for `order0`. */
    method TradeOnce(ghost b0: Book, order0: Order, order: Order, ghost done: seq<Quote>, stop: StopToken)
        returns (traded: bool, left: Order, ghost done': seq<Quote>)
      requires Valid() && stop !in Repr() && order.quantity > 0
      requires Progress(b0, state.Book(), order0, order, done)
      modifies this`published, state, state.lists.repr, stop
      ensures Valid() && old(stop.looks) < stop.looks && (traded ==> !stop.Requested())
      ensures |done'| == |done| + (if traded then 1 else 0)
      ensures Progress(b0, state.Book(), order0, left, done') && done <= done'
      ensures published == old(published) + TradeEvents(Opposite(order0.side), done'[|done|..])
      ensures if traded then left.quantity < order.quantity
        else left == order && done' == done && (stop.Requested() || NoMatch(state.Book(), left))
      ensures old(stop.Requested()) ==> !traded
    {
      ghost var b := state.Book();
      traded, left := ExecuteTrade(order, stop);
      done' := done;
      if traded {
        done' := ProgressStep(b0, b, state.Book(), order0, order, left, done);
      }
    }

    /** Trade a new order until it is filled or nothing more can be traded. */
    method TradeAll(order: Order, stop: StopToken) returns (left: Order, ghost done: seq<Quote>)
      requires Valid() && stop !in Repr()
      modifies this`published, state, state.lists.repr, stop
      ensures Valid() && stop.Heeded(old(stop.looks), |done|) && (order.quantity > 0 ==> old(stop.looks) < stop.looks)
      ensures Progress(old(state.Book()), state.Book(), order, left, done)
      ensures published == old(published) + TradeEvents(Opposite(order.side), done)
      ensures left.quantity == 0 || stop.Requested() || NoMatch(state.Book(), left)
      ensures old(stop.Requested()) ==> left == order && done == []
    {
      left, done := order, [];
      var more := true;
      ghost var b0 := state.Book();
      ProgressStart(b0, order);
      while left.quantity != 0 && more
        invariant Valid() && stop.Heeded(old(stop.looks), |done|)
        invariant (left == order && more) || old(stop.looks) < stop.looks
        invariant Progress(b0, state.Book(), order, left, done)
        invariant published == old(published) + TradeEvents(Opposite(order.side), done)
        invariant more || stop.Requested() || NoMatch(state.Book(), left)
        invariant old(stop.Requested()) ==> left == order && done == []
        decreases left.quantity, more
      {
        ghost var was, log := done, published;
        more, left, done := TradeOnce(b0, order, left, done, stop);
        LogGrows(old(published), log, published, Opposite(order.side), was, done);
        if more {
          stop.HeedsOne(old(stop.looks), |done|);
        }
      }
    }

    /** The id counter, post-incremented. */
    method TakeId() returns (id: OrderId)
      requires Valid() && nextOrderId + 1 < TWO_TO_THE_64
      modifies this`nextOrderId
      ensures Valid() && state.Book() == old(state.Book())
      ensures id == old(nextOrderId) && nextOrderId == id + 1 && id != INVALID_ORDER_ID
    {
      id := nextOrderId;
      nextOrderId := nextOrderId + 1;
    }

    /** `state_.add(*add)`. */
    method ApplyAdd(order: Order)
      requires Valid() && CanRest(state.Book(), order) && order.id < nextOrderId
      modifies state, state.lists.repr
      ensures Valid() && state.Book() == AddOrder(old(state.Book()), order)
    {
      hide Consistent, Spelled, CacheOk, Uncrossed, Resting, AddOrder, Replay, RestingIds, Ladder;
      AddFits(state.Book(), order, nextOrderId);
      var _ := state.Add(order);
    }

    /** `add_order`: the order rests and is published, or a stop was requested. */
    method PutOrder(order: Order, stop: StopToken) returns (ghost added: bool)
      requires Valid() && stop !in Repr() && CanRest(state.Book(), order) && order.id < nextOrderId
      modifies this`published, state, state.lists.repr, stop
      ensures Valid() && old(stop.looks) <= stop.looks
      ensures !added ==> state.Book() == old(state.Book()) && published == old(published) && stop.Requested()
      ensures old(stop.looks) < stop.looks && (added ==> !stop.Requested())
      ensures added ==>
        && state.Book() == AddOrder(old(state.Book()), order)
        && published == old(published) + [MarketEvent(order, EventKind.Add)]
    {
      hide Consistent, Spelled, CacheOk, Sound, CanRest, AddOrder;
      var claimed := ClaimSlot(stop);
      added := claimed;
      if claimed {
        Publish(MarketEvent(order, EventKind.Add));
        ApplyAdd(order);
      }
    }

    /** The second half of `buy_order` and `sell_order`: the leftover rests under a new id. */
    method RestLeftover(ghost b0: Book, left: Order, ghost trades: seq<MarketEvent>, ghost log0: seq<MarketEvent>,
        stop: StopToken) returns (id: OrderId, ghost n: nat)
      requires Valid() && stop !in Repr() && nextOrderId + 1 < TWO_TO_THE_64
      requires CanRest(state.Book(), left.(id := nextOrderId))
      requires Processed(b0, state.Book(), log0, published, trades, |trades|)
      modifies this`published, this`nextOrderId, state, state.lists.repr, stop
      ensures Valid() && old(stop.looks) <= stop.looks
      ensures id == old(nextOrderId) && nextOrderId == id + 1 && id != INVALID_ORDER_ID
      ensures Processed(b0, state.Book(), log0, published, trades + [MarketEvent(left.(id := id), EventKind.Add)], n)
      ensures n == |trades| + (if stop.Requested() then 0 else 1) && old(stop.looks) < stop.looks
    {
      hide Consistent, Spelled, CacheOk, Sound, CanRest, AddOrder, Processed, Replay;
      ghost var b, log := state.Book(), published;
      id := TakeId();
      ghost var added := PutOrder(left.(id := id), stop);
      n := |trades| + (if added then 1 else 0);
      AddProcessed(b0, b, trades, left.(id := id), log0, log, added);
    }

    /** `buy_order` and `sell_order`: the first `n` of the events the matcher answers with are
        published and applied, and all of them unless a stop was requested. */
    method NewOrder(side: Side, price: Price, quantity: Quantity, stop: StopToken)
        returns (id: OrderId, ghost n: nat)
      requires Valid() && stop !in Repr() && nextOrderId + 1 < TWO_TO_THE_64
      requires LeftoverOk(state.Book(), side, price, quantity)
      modifies this`published, this`nextOrderId, state, state.lists.repr, stop
      ensures Valid() && old(stop.looks) + (if quantity > 0 then 1 else 0) <= stop.looks
      ensures stop.Heeded(old(stop.looks), n)
      ensures Processed(old(state.Book()), state.Book(), old(published), published,
        NewOrderEvents(old(state.Book()), side, price, quantity, old(nextOrderId)), n)
      ensures id != INVALID_ORDER_ID ==> id == old(nextOrderId)
      ensures nextOrderId == if id == INVALID_ORDER_ID then old(nextOrderId) else id + 1
      ensures !stop.Requested() ==>
        && n == |NewOrderEvents(old(state.Book()), side, price, quantity, old(nextOrderId))|
        && (id != INVALID_ORDER_ID <==> Answer(old(state.Book()), side, price, quantity).residual > 0)
      ensures old(stop.Requested()) ==> n == 0 && id == INVALID_ORDER_ID
    {
      hide Consistent, Spelled, CacheOk, Progress, Processed, Sound, Answer, NewOrderEvents, Match, Ladder, Replay, Quotes, TradeEvents;
      hide BookOk, Uncrossed, CanRest, LeftoverOk, NoMatch, RestingIds, Resting, Addable, AddOrder;
      ghost var b0, log0, nextId := state.Book(), published, nextOrderId;
      if quantity == 0 {
        NothingAsked(b0, side, price, nextOrderId, log0);
        return INVALID_ORDER_ID, 0;
      }
      var order := Order(INVALID_ORDER_ID, price, quantity, side);
      var left, done := TradeAll(order, stop);
      TradesProcessed(b0, state.Book(), order, left, done, nextOrderId, log0, published);
      var stopped := true;
      if left.quantity != 0 {
        stopped := PollStop(stop);
      } else {
        AllTraded(b0, state.Book(), order, left, done, nextOrderId);
      }
      if stopped {
        return INVALID_ORDER_ID, |done|;
      }
      LeftoverAddable(b0, state.Book(), order, left, done, nextOrderId, log0, published);
      id, n := RestLeftover(b0, left, TradeEvents(Opposite(side), done), log0, stop);
      if !stop.Requested() {
        stop.HeedsOne(old(stop.looks), n);
      }
    }

    /** `state_.order_exists`. */
    method OrderExists(id: OrderId) returns (found: bool)
      requires Valid()
      ensures found == Resting(state.Book(), id)
    {
      found := state.OrderExists(id);
    }

    /** `state_.cancel(*canceled_order)`. */
    method ApplyCancel(id: OrderId)
      requires Valid() && Resting(state.Book(), id)
      modifies state, state.lists.repr
      ensures Valid() && state.Book() == CancelOrder(old(state.Book()), id)
    {
      hide Consistent, Spelled, CacheOk, BookOk, Uncrossed, Resting, Ladder;
      CancelStaysSound(state.Book(), id, nextOrderId);
      var _ := state.Cancel(id);
    }

    /** `cancel_order`: the order leaves the book, and then its cancellation is published. */
    method CancelRequest(id: OrderId, stop: StopToken) returns (found: bool, ghost done: bool)
      requires Valid() && stop !in Repr()
      modifies this`published, state, state.lists.repr, stop
      ensures Valid() && old(stop.looks) <= stop.looks
      ensures found == Resting(old(state.Book()), id)
      ensures done ==>
        && found
        && state.Book() == CancelOrder(old(state.Book()), id) && published == old(published) + [CancelEvent(id)]
      ensures !done ==> state.Book() == old(state.Book()) && published == old(published) && (found ==> stop.Requested())
      ensures old(stop.Requested()) ==> !done
      ensures (found ==> old(stop.looks) < stop.looks) && (done ==> !stop.Requested())
    {
      hide Consistent, Spelled, CacheOk, Sound, Resting, CancelOrder;
      done := false;
      found := OrderExists(id);
      if !found {
        return;
      }
      var claimed := ClaimSlot(stop);
      if claimed {
        ApplyCancel(id);
        Publish(CancelEvent(id));
        done := true;
      }
    }

    /** An update may leave the cached best prices wrong: only the lists are then right. */
    ghost predicate ListsValid()
      reads this, state, state.lists, state.lists.repr
    {
      this !in {state, state.lists} + state.lists.repr && state.ListsValid()
    }

    /** `publish` after an update. */
    method PublishUpdate(event: MarketEvent)
      requires ListsValid()
      modifies this`published
      ensures ListsValid() && state.Book() == old(state.Book()) && published == old(published) + [event]
      ensures old(state.Valid()) <==> state.Valid()
    {
      published := published + [event];
    }

    /** `state_.update(*updated_order)`. */
    method ApplyUpdate(id: OrderId, quantity: Quantity)
      requires Valid() && Resting(state.Book(), id)
      modifies state, state.lists.repr
      ensures ListsValid() && state.Book() == AmendOrder(old(state.Book()), id, quantity)
      ensures state.Valid() <==> CanUpdate(old(state.Book()), old(state.bestBid), old(state.bestOffer), id, quantity)
    {
      hide Consistent, Spelled, CacheOk, Sound, Resting, AmendOrder, BookOk, CanUpdate;
      var _ := state.UpdateQuantity(id, quantity);
    }

    /** `update_order`: the order's quantity changes in place, and then the change is published. The
        engine is as good as before exactly when the cached best prices allow the update. */
    method UpdateRequest(id: OrderId, quantity: Quantity, stop: StopToken) returns (found: bool, ghost done: bool)
      requires Valid() && stop !in Repr()
      modifies this`published, state, state.lists.repr, stop
      ensures ListsValid() && old(stop.looks) <= stop.looks
      ensures Sound(state.Book(), nextOrderId)
      ensures Valid() <==>
        (done ==> CanUpdate(old(state.Book()), old(state.bestBid), old(state.bestOffer), id, quantity))
      ensures found == Resting(old(state.Book()), id)
      ensures done ==>
        && found
        && state.Book() == AmendOrder(old(state.Book()), id, quantity)
        && published == old(published) + [UpdateEvent(id, quantity)]
      ensures !done ==> state.Book() == old(state.Book()) && published == old(published) && (found ==> stop.Requested())
      ensures old(stop.Requested()) ==> !done
      ensures (found ==> old(stop.looks) < stop.looks) && (done ==> !stop.Requested())
    {
      hide Sound, Resting, AmendOrder, CanUpdate, Consistent, Spelled, CacheOk;
      done := false;
      found := OrderExists(id);
      if !found {
        return;
      }
      var claimed := ClaimSlot(stop);
      if claimed {
        AmendStaysSound(state.Book(), id, quantity, nextOrderId);
        ApplyUpdate(id, quantity);
        PublishUpdate(UpdateEvent(id, quantity));
        done := true;
      }
    }

    ghost method Record(r: OrderRequest)
      requires Valid()
      modifies this`submitted
      ensures Valid() && state.Book() == old(state.Book()) && submitted == old(submitted) + [r]
    {
      submitted := submitted + [r];
    }

    /** The cases of `submit`. */
    method Dispatch(r: OrderRequest, stop: StopToken) returns (result: SubmitResult, ghost n: nat)
      requires Valid() && stop !in Repr() && nextOrderId + 1 < TWO_TO_THE_64
      requires Submittable(state.Book(), r)
      modifies this`published, this`nextOrderId, state, state.lists.repr, stop
      ensures ListsValid() && Sound(state.Book(), nextOrderId)
      ensures Valid() <==> (r.kind == RequestKind.UpdateRequest && n == 1 ==>
        CanUpdate(old(state.Book()), old(state.bestBid), old(state.bestOffer), r.id, r.quantity))
      ensures old(stop.looks) + (if Wants(old(state.Book()), r) then 1 else 0) <= stop.looks
      ensures stop.Heeded(old(stop.looks), n)
      ensures Processed(old(state.Book()), state.Book(), old(published), published,
        SubmitEvents(old(state.Book()), r, old(nextOrderId)), n)
      ensures !stop.Requested() ==>
        && n == |SubmitEvents(old(state.Book()), r, old(nextOrderId))|
        && nextOrderId == NextId(old(state.Book()), r, old(nextOrderId))
      ensures result == Answered(r, old(state.Book()), old(nextOrderId), nextOrderId)
      ensures old(nextOrderId) <= nextOrderId <= old(nextOrderId) + 1
      ensures old(stop.Requested()) ==> n == 0 && nextOrderId == old(nextOrderId)
    {
      hide Consistent, Spelled, CacheOk, Processed, Sound, Answer, NewOrderEvents, Replay, Resting, LeftoverOk, CanUpdate;
      ghost var b0, log0 := state.Book(), published;
      match r.kind {
        case BuyRequest =>
          var id;
          id, n := NewOrder(Buy, r.price, r.quantity, stop);
          result := Accepted(id);
        case SellRequest =>
          var id;
          id, n := NewOrder(Sell, r.price, r.quantity, stop);
          result := Accepted(id);
        case CancelRequest =>
          var found;
          ghost var done;
          found, done := CancelRequest(r.id, stop);
          result := if found then Accepted(INVALID_ORDER_ID) else OrderDoesNotExist;
          n := if done then 1 else 0;
          OneProcessed(b0, log0, CancelEvent(r.id), done, found);
          if done {
            stop.HeedsOne(old(stop.looks), n);
          }
        case UpdateRequest =>
          var found;
          ghost var done;
          found, done := UpdateRequest(r.id, r.quantity, stop);
          result := if found then Accepted(r.id) else OrderDoesNotExist;
          n := if done then 1 else 0;
          OneProcessed(b0, log0, UpdateEvent(r.id, r.quantity), done, found);
          if done {
            stop.HeedsOne(old(stop.looks), n);
          }
      }
    }

    /** `submit`: the first `n` of the request's events are published and applied, in order, and
        all of them unless a stop was seen, and so whenever nobody asks for one. */
    method Submit(r: OrderRequest, stop: StopToken) returns (result: SubmitResult, ghost n: nat)
      requires Valid() && stop !in Repr() && nextOrderId + 1 < TWO_TO_THE_64
      requires Submittable(state.Book(), r)
      modifies this`published, this`nextOrderId, this`submitted, state, state.lists.repr, stop
      ensures ListsValid() && Sound(state.Book(), nextOrderId)
      ensures submitted == old(submitted) + (if old(stop.Requested()) then [] else [r])
      ensures Valid() <==> (r.kind == RequestKind.UpdateRequest && n == 1 ==>
        CanUpdate(old(state.Book()), old(state.bestBid), old(state.bestOffer), r.id, r.quantity))
      ensures old(stop.looks) + (if Wants(old(state.Book()), r) then 1 else 0) <= stop.looks
      ensures stop.Heeded(old(stop.looks), n)
      ensures Processed(old(state.Book()), state.Book(), old(published), published,
        SubmitEvents(old(state.Book()), r, old(nextOrderId)), n)
      ensures !stop.Requested() ==>
        && n == |SubmitEvents(old(state.Book()), r, old(nextOrderId))|
        && nextOrderId == NextId(old(state.Book()), r, old(nextOrderId))
      ensures stop.Never() ==>
        && state.Book() == Replay(old(state.Book()), SubmitEvents(old(state.Book()), r, old(nextOrderId)))
        && published == old(published) + SubmitEvents(old(state.Book()), r, old(nextOrderId))
        && nextOrderId == NextId(old(state.Book()), r, old(nextOrderId))
      ensures result == Answered(r, old(state.Book()), old(nextOrderId), nextOrderId)
      ensures old(nextOrderId) <= nextOrderId <= old(nextOrderId) + 1
      ensures old(stop.Requested()) ==> n == 0 && nextOrderId == old(nextOrderId)
      ensures old(published) <= published && forall k :: |old(published)| <= k < |published| ==> Serves(r, published[k])
    {
      hide Consistent, Spelled, CacheOk, Processed, Sound, SubmitEvents, NextId, Replay, Answered, Submittable, CanUpdate;
      hide Serves, BookOk;
      BookIsOk();
      ghost var b0, log0, nextId := state.Book(), published, nextOrderId;
      if !stop.Requested() {
        Record(r);
      }
      result, n := Dispatch(r, stop);
      SubmitServes(b0, r, nextId);
      ProcessedServes(b0, state.Book(), log0, published, r, nextId, n);
      if stop.Never() {
        AllProcessed(b0, state.Book(), log0, published, SubmitEvents(b0, r, nextId));
      }
    }
  }

  // ---- One trade, on values ----

  ghost predicate NoMatch(b: Book, order: Order) {
    var ladder := Ladder(Opposite(order.side), b.On(Opposite(order.side)));
    ladder == [] || !WithinLimit(order.side, order.price, ladder[0].price)
  }

  ghost predicate TradeOutcome(b: Book, b': Book, order: Order, left: Order, traded: bool) {
    if !traded then b' == b && left == order
    else
      var ladder := Ladder(Opposite(order.side), b.On(Opposite(order.side)));
      && ladder != [] && WithinLimit(order.side, order.price, ladder[0].price)
      && b' == TradeOrder(b, ladder[0].id, Min(order.quantity, ladder[0].quantity))
      && left == order.(quantity := order.quantity - Min(order.quantity, ladder[0].quantity))
  }

  ghost function TradeRecord(b: Book, order: Order, traded: bool): seq<MarketEvent> {
    var ladder := Ladder(Opposite(order.side), b.On(Opposite(order.side)));
    if !traded || ladder == [] then []
    else [TradeEvent(Opposite(order.side), ladder[0].(quantity := Min(order.quantity, ladder[0].quantity)))]
  }

  /** `best` is the top of the ladder opposing `side`, or the invalid order when it is empty. */
  ghost predicate IsTop(b: Book, side: Side, best: Order) {
    var ladder := Ladder(Opposite(side), b.On(Opposite(side)));
    && (ladder == [] <==> best.id == INVALID_ORDER_ID)
    && (ladder != [] ==> ladder[0] == Quote(best.price, best.id, best.quantity) && best.quantity > 0)
  }

  /** What `best_opposing_order` returns is the top of the opposing ladder. */
  lemma BestIsTop(b: Book, side: Side, best: Order, nextId: OrderId)
    requires Sound(b, nextId)
    requires
      var m := b.On(Opposite(side));
      if m.Keys <= {NoPrice(Opposite(side))} then best.id == INVALID_ORDER_ID
      else
        && best.price == Best(Opposite(side), m.Keys)
        && m[best.price] != [] && m[best.price][0] == Entry(best.id, best.quantity)
    ensures
      IsTop(b, side, best)
  {
    var opp := Opposite(side);
    var m: Queues := b.On(opp);
    if m != map[] {
      LadderHead(opp, m);
      LadderPositive(b, opp);
      assert Holds(b, opp, best.price, best.id, best.quantity);
      RestingIsMember(b, best.id);
    }
  }

  lemma TopDecides(b: Book, order: Order, best: Order)
    requires IsTop(b, order.side, best)
    ensures NoMatch(b, order) <==> best.id == INVALID_ORDER_ID || !Acceptable(order.side, order.price, best.price)
  {
    hide Ladder;
  }

  lemma NoOutcome(b: Book, order: Order)
    ensures TradeOutcome(b, b, order, order, false) && TradeRecord(b, order, false) == []
  {
  }

  lemma TopIsTradable(b: Book, side: Side, nextId: OrderId, quantity: Quantity)
    requires Sound(b, nextId)
    requires
      var ladder := Ladder(Opposite(side), b.On(Opposite(side)));
      ladder != [] && 0 < quantity <= ladder[0].quantity
    ensures Tradable(b, Ladder(Opposite(side), b.On(Opposite(side)))[0].id, quantity)
  {
    TradeStep(b, Opposite(side), Ladder(Opposite(side), b.On(Opposite(side))), quantity);
  }

  // ---- The trading loop, on values ----

  /** After trades `done`, order `order0` submitted against `b0` has become `order` against `b`:
      what is still to be matched completes the answer to the whole order. */
  ghost predicate Progress(b0: Book, b: Book, order0: Order, order: Order, done: seq<Quote>) {
    var opp := Opposite(order0.side);
    var m := Match(order0.side, order0.price, order.quantity, Ladder(opp, b.On(opp)));
    && order == order0.(quantity := order.quantity)
    && Traded(b0, b, opp, Ladder(opp, b.On(opp)))
    && b == Replay(b0, TradeEvents(opp, done))
    && Completes(Answer(b0, order0.side, order0.price, order0.quantity), done, m)
  }

  /** Answer `f` is the trades done and then answer `m`. */
  ghost predicate Completes(f: Fill, done: seq<Quote>, m: Fill) {
    f == Fill(done + m.trades, m.residual, m.rest)
  }

  lemma ProgressStart(b: Book, order: Order)
    requires BookOk(b)
    ensures Progress(b, b, order, order, [])
  {
    assert TradeEvents(Opposite(order.side), []) == [];
    var f := Answer(b, order.side, order.price, order.quantity);
    assert [] + f.trades == f.trades;
  }

  /** The answer after one more trade. */
  lemma AnswerStep(f: Fill, side: Side, limit: Price, quantity: Quantity, ladder: seq<Quote>, t: Quantity, done: seq<Quote>)
    requires quantity > 0 && ladder != [] && Acceptable(side, limit, ladder[0].price)
    requires t == Min(quantity, ladder[0].quantity)
    requires Completes(f, done, Match(side, limit, quantity, ladder))
    ensures Completes(f, done + [ladder[0].(quantity := t)], Match(side, limit, quantity - t, AfterTrade(ladder, t)))
  {
    var more := Match(side, limit, quantity - t, AfterTrade(ladder, t));
    MatchStep(side, limit, quantity, ladder, t, more);
    CompletesThen(f, done, ladder[0].(quantity := t), more);
  }

  lemma CompletesThen(f: Fill, done: seq<Quote>, t: Quote, more: Fill)
    requires Completes(f, done, Fill([t] + more.trades, more.residual, more.rest))
    ensures Completes(f, done + [t], more)
  {
    assert done + ([t] + more.trades) == done + [t] + more.trades;
  }

  /** The book after one more trade. */
  lemma LogStep(b0: Book, b: Book, opp: Side, done: seq<Quote>, last: Quote)
    requires b == Replay(b0, TradeEvents(opp, done))
    ensures TradeOrder(b, last.id, last.quantity) == Replay(b0, TradeEvents(opp, done + [last]))
  {
    assert TradeEvents(opp, done + [last]) == TradeEvents(opp, done) + [TradeEvent(opp, last)];
    ReplayAppend(b0, TradeEvents(opp, done), [TradeEvent(opp, last)]);
    ReplayOne(b, TradeEvent(opp, last));
  }

  /** What rests after one more trade. */
  lemma TradedStep(b0: Book, b: Book, opp: Side, ladder: seq<Quote>, t: Quantity)
    requires BookOk(b) && ladder == Ladder(opp, b.On(opp)) && ladder != [] && 0 < t <= ladder[0].quantity
    requires Traded(b0, b, opp, ladder)
    ensures
      var b' := TradeOrder(b, ladder[0].id, t);
      Traded(b0, b', opp, Ladder(opp, b'.On(opp))) && Ladder(opp, b'.On(opp)) == AfterTrade(ladder, t)
  {
    TradeStep(b, opp, ladder, t);
  }

  lemma TopPositive(b: Book, opp: Side)
    requires BookOk(b) && Ladder(opp, b.On(opp)) != []
    ensures Ladder(opp, b.On(opp))[0].quantity > 0
  {
    LadderPositive(b, opp);
  }

  lemma ProgressStep(b0: Book, b: Book, b': Book, order0: Order, order: Order, left: Order, done: seq<Quote>)
      returns (done': seq<Quote>)
    requires Progress(b0, b, order0, order, done) && order.quantity > 0
    requires TradeOutcome(b, b', order, left, true)
    ensures Progress(b0, b', order0, left, done') && done <= done' && |done'| == |done| + 1
    ensures TradeEvents(Opposite(order0.side), done'[|done|..]) == TradeRecord(b, order, true)
    ensures left.quantity < order.quantity
  {
    hide Match, Ladder, Replay, Answer;
    var opp := Opposite(order0.side);
    var ladder := Ladder(opp, b.On(opp));
    TopPositive(b, opp);
    var t := Min(order.quantity, ladder[0].quantity);
    var last := ladder[0].(quantity := t);
    done' := done + [last];
    TradedStep(b0, b, opp, ladder, t);
    var f := Answer(b0, order0.side, order0.price, order0.quantity);
    AnswerStep(f, order0.side, order0.price, order.quantity, ladder, t, done);
    LogStep(b0, b, opp, done, last);
    assert done'[|done|..] == [last];
  }

  lemma LogGrows(log0: seq<MarketEvent>, log: seq<MarketEvent>, log': seq<MarketEvent>, opp: Side,
      done: seq<Quote>, done': seq<Quote>)
    requires done <= done' && log == log0 + TradeEvents(opp, done)
    requires log' == log + TradeEvents(opp, done'[|done|..])
    ensures log' == log0 + TradeEvents(opp, done')
  {
    TradeEventsSplit(opp, done', |done|);
    hide TradeEvents;
    assert done'[..|done|] == done;
    Regrouped(log0, TradeEvents(opp, done), TradeEvents(opp, done'[|done|..]));
  }

  lemma TradeEventsSplit(opp: Side, trades: seq<Quote>, n: nat)
    requires n <= |trades|
    ensures TradeEvents(opp, trades) == TradeEvents(opp, trades[..n]) + TradeEvents(opp, trades[n..])
  {
  }

  lemma Regrouped<T>(a: seq<T>, b: seq<T>, c: seq<T>)
    ensures (a + b) + c == a + (b + c)
  {
  }

  lemma ReplayOne(b: Book, e: MarketEvent)
    ensures Replay(b, [e]) == Apply(b, e)
  {
    assert [e][1..] == [];
  }

  /** When the loop ends unstopped, everything the answer trades has been traded. */
  lemma ProgressEnd(b0: Book, b: Book, order0: Order, order: Order, done: seq<Quote>)
    requires Progress(b0, b, order0, order, done) && (order.quantity == 0 || NoMatch(b, order))
    ensures
      var f := Answer(b0, order0.side, order0.price, order0.quantity);
      f.trades == done && f.residual == order.quantity && Traded(b0, b, Opposite(order0.side), f.rest)
  {
    var m := Match(order0.side, order0.price, order.quantity, Ladder(Opposite(order0.side), b.On(Opposite(order0.side))));
    assert m.trades == [];
    assert done + [] == done;
  }

  /** What was traded so far is a prefix of what the request publishes. */
  lemma ProgressPrefix(b0: Book, b: Book, order0: Order, order: Order, done: seq<Quote>, nextId: OrderId)
    requires Progress(b0, b, order0, order, done)
    ensures TradeEvents(Opposite(order0.side), done)
      <= NewOrderEvents(b0, order0.side, order0.price, order0.quantity, nextId)
  {
  }

  // ---- One request, on values ----

  /** What an order needs if the matcher leaves some of it: a price other than its side's sentinel,
      and room on the book as the trades leave it. */
  ghost predicate LeftoverOk(b: Book, side: Side, price: Price, quantity: Quantity) {
    var f := Answer(b, side, price, quantity);
    f.residual > 0 ==> PriceOk(side, price) && RoomIn(Replay(b, TradeEvents(Opposite(side), f.trades)))
  }

  /** Cancellations and updates need nothing. */
  ghost predicate Submittable(b: Book, r: OrderRequest) {
    match r.kind
    case BuyRequest => LeftoverOk(b, Buy, r.price, r.quantity)
    case SellRequest => LeftoverOk(b, Sell, r.price, r.quantity)
    case _ => true
  }

  /** A request that may change the book: a new order for some quantity, or the id of a resting order. */
  ghost predicate Wants(b: Book, r: OrderRequest) {
    if r.kind == BuyRequest || r.kind == SellRequest then r.quantity > 0 else Resting(b, r.id)
  }

  /** Trades only make room. */
  lemma RoomIsEnough(b: Book, side: Side, price: Price, quantity: Quantity)
    requires BookOk(b) && RoomIn(b) && PriceOk(side, price)
    ensures LeftoverOk(b, side, price, quantity)
  {
    var opp, f := Opposite(side), Answer(b, side, price, quantity);
    MatchOnBook(b, side, opp, price, quantity, Ladder(opp, b.On(opp)), f);
    var b' := Replay(b, TradeEvents(opp, f.trades));
    assert b.bids == b.On(Buy) && b.offers == b.On(Sell) && b'.bids == b'.On(Buy) && b'.offers == b'.On(Sell);
    RoomShrinks(b, b');
  }

  /** The first `n` of `events` have been published and applied. */
  ghost predicate Processed(b0: Book, b: Book, log0: seq<MarketEvent>, log: seq<MarketEvent>,
      events: seq<MarketEvent>, n: nat)
  {
    n <= |events| && log == log0 + events[..n] && b == Replay(b0, events[..n])
  }

  lemma ProcessedServes(b0: Book, b: Book, log0: seq<MarketEvent>, log: seq<MarketEvent>,
      r: OrderRequest, nextId: OrderId, n: nat)
    requires Processed(b0, b, log0, log, SubmitEvents(b0, r, nextId), n)
    requires forall k :: 0 <= k < |SubmitEvents(b0, r, nextId)| ==> Serves(r, SubmitEvents(b0, r, nextId)[k])
    ensures log0 <= log && forall k :: |log0| <= k < |log| ==> Serves(r, log[k])
  {
    hide Serves, SubmitEvents, Replay;
    var events := SubmitEvents(b0, r, nextId);
    forall k | |log0| <= k < |log| ensures Serves(r, log[k]) {
      assert log[k] == events[k - |log0|];
    }
  }

  lemma AllProcessed(b0: Book, b: Book, log0: seq<MarketEvent>, log: seq<MarketEvent>, events: seq<MarketEvent>)
    requires Processed(b0, b, log0, log, events, |events|)
    ensures b == Replay(b0, events) && log == log0 + events
  {
    assert events[..|events|] == events;
  }

  /** Nothing keeps order `o` from resting on book `b`. */
  ghost predicate CanRest(b: Book, o: Order) {
    && Addable(b, o) && PriceOk(o.side, o.price) && Uncrossed(AddOrder(b, o))
    && RoomIn(b) && INVALID_ORDER_ID < o.id
  }

  lemma AddFits(b: Book, o: Order, nextId: OrderId)
    requires Sound(b, nextId) && CanRest(b, o) && o.id < nextId
    ensures Sound(AddOrder(b, o), nextId)
  {
    AddKeepsOk(b, o);
    AddGrows(b, o);
  }

  lemma NothingAsked(b: Book, side: Side, price: Price, nextId: OrderId, log: seq<MarketEvent>)
    ensures NewOrderEvents(b, side, price, 0, nextId) == []
    ensures Answer(b, side, price, 0).residual == 0
    ensures Processed(b, b, log, log, NewOrderEvents(b, side, price, 0, nextId), 0)
  {
    assert log + [] == log;
  }

  lemma TradesProcessed(b0: Book, b: Book, order0: Order, left: Order, done: seq<Quote>, nextId: OrderId,
      log0: seq<MarketEvent>, log: seq<MarketEvent>)
    requires Progress(b0, b, order0, left, done)
    requires log == log0 + TradeEvents(Opposite(order0.side), done)
    ensures Processed(b0, b, log0, log, NewOrderEvents(b0, order0.side, order0.price, order0.quantity, nextId), |done|)
  {
    ProgressPrefix(b0, b, order0, left, done, nextId);
    var events := NewOrderEvents(b0, order0.side, order0.price, order0.quantity, nextId);
    assert events[..|done|] == TradeEvents(Opposite(order0.side), done);
  }

  lemma AllTraded(b0: Book, b: Book, order0: Order, left: Order, done: seq<Quote>, nextId: OrderId)
    requires Progress(b0, b, order0, left, done) && left.quantity == 0
    ensures |NewOrderEvents(b0, order0.side, order0.price, order0.quantity, nextId)| == |done|
    ensures Answer(b0, order0.side, order0.price, order0.quantity).residual == 0
  {
    ProgressEnd(b0, b, order0, left, done);
  }

  lemma LeftoverAddable(b0: Book, b: Book, order0: Order, left: Order, done: seq<Quote>, nextId: OrderId,
      log0: seq<MarketEvent>, log: seq<MarketEvent>)
    requires Sound(b0, nextId) && Progress(b0, b, order0, left, done) && left.quantity > 0 && NoMatch(b, left)
    requires LeftoverOk(b0, order0.side, order0.price, order0.quantity)
    requires log == log0 + TradeEvents(Opposite(order0.side), done)
    ensures CanRest(b, left.(id := nextId))
    ensures Answer(b0, order0.side, order0.price, order0.quantity).residual > 0
    ensures
      var trades := TradeEvents(Opposite(order0.side), done);
      && Processed(b0, b, log0, log, trades, |trades|)
      && NewOrderEvents(b0, order0.side, order0.price, order0.quantity, nextId)
        == trades + [MarketEvent(left.(id := nextId), EventKind.Add)]
  {
    hide Match, Ladder, Replay;
    ProgressEnd(b0, b, order0, left, done);
    LeftoverFits(b0, b, order0.side, order0.price, order0.quantity, nextId);
    var trades := TradeEvents(Opposite(order0.side), done);
    assert trades[..|trades|] == trades;
  }

  lemma AddProcessed(b0: Book, b: Book, trades: seq<MarketEvent>, o: Order,
      log0: seq<MarketEvent>, log: seq<MarketEvent>, added: bool)
    requires Processed(b0, b, log0, log, trades, |trades|)
    ensures
      var e := MarketEvent(o, EventKind.Add);
      if added
        then Processed(b0, AddOrder(b, o), log0, log + [e], trades + [e], |trades| + 1)
        else Processed(b0, b, log0, log, trades + [e], |trades|)
  {
    var e := MarketEvent(o, EventKind.Add);
    ReplayAppend(b0, trades, [e]);
    ReplayOne(b, e);
    assert trades[..|trades|] == trades;
    var events := trades + [e];
    assert events[..|events|] == events && events[..|trades|] == trades;
    assert log0 + (trades + [e]) == log0 + trades + [e];
  }

  lemma CancelStaysSound(b: Book, id: OrderId, nextId: OrderId)
    requires Sound(b, nextId) && Resting(b, id)
    ensures Sound(CancelOrder(b, id), nextId)
  {
    AmendStaysSound(b, id, 0, nextId);
  }

  /** An event published or not, of a request that found its order or not. */
  lemma OneProcessed(b0: Book, log0: seq<MarketEvent>, e: MarketEvent, done: bool, found: bool)
    requires done ==> found
    ensures
      var events := if found then [e] else [];
      if done then Processed(b0, Apply(b0, e), log0, log0 + [e], events, 1) else Processed(b0, b0, log0, log0, events, 0)
  {
    ReplayOne(b0, e);
    assert [e][..1] == [e] && log0 + [] == log0;
  }

  /** What `submit` returns: a new order that rests answers with the id it took, one that does not
      with the invalid id. */
  ghost function Answered(r: OrderRequest, b: Book, nextId: OrderId, nextId': OrderId): SubmitResult {
    match r.kind
    case BuyRequest => Accepted(if nextId' == nextId then INVALID_ORDER_ID else nextId)
    case SellRequest => Accepted(if nextId' == nextId then INVALID_ORDER_ID else nextId)
    case CancelRequest => if Resting(b, r.id) then Accepted(INVALID_ORDER_ID) else OrderDoesNotExist
    case UpdateRequest => if Resting(b, r.id) then Accepted(r.id) else OrderDoesNotExist
  }
}
