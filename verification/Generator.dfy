/** MarketRequestGenerator (src/exchange/order-generator.cpp): random requests to the matching
    engine, with every resting order tracked so that it can be cancelled. */
module OrderGenerator {
  import opened Machine
  import opened Orders
  import opened PriceTimePriority
  import opened BestPrices
  import opened BookStore
  import opened ExchangeModel
  import opened ExchangeRuns
  import opened BookStates
  import opened Clob
  import opened Serving
  import opened RandomContainers
  import opened Tracking

  /** A side's best price, or what stands in for it on an empty side. */
  ghost function BestOr(side: Side, m: Queues, price: Price): Price {
    if m == map[] then price else Best(side, m.Keys)
  }

  /** What the generator takes for a side's best price. */
  lemma PriceRead(side: Side, m: Queues, info: BestOrderInfo, price: Price)
    requires info == RightBest(side, m) && InRange(price) && (m != map[] ==> InRange(Best(side, m.Keys)))
    ensures InRange(BestOr(side, m, price))
    ensures BestOr(side, m, price) == if info.price == NoPrice(side) then price else info.price
  {
  }

  /** Request `r` asks to buy or to sell, as `side` says. */
  ghost predicate AsksFor(r: OrderRequest, side: Side) {
    match side
    case Buy => r.kind == BuyRequest
    case Sell => r.kind == SellRequest
  }

  /** A new order was submitted, unless a stop had been seen. */
  ghost predicate Asked(was: seq<OrderRequest>, now: seq<OrderRequest>, side: Side, price: Price, quantity: Quantity,
      stopped: bool)
  {
    if stopped then now == was
    else
      && |now| == |was| + 1 && now[..|was|] == was && AsksFor(now[|was|], side)
      && now[|was|].price == price && now[|was|].quantity == quantity
  }

  /** A cancellation of order `id` was submitted, unless a stop had been seen. */
  ghost predicate AskedToCancel(was: seq<OrderRequest>, now: seq<OrderRequest>, id: OrderId, stopped: bool) {
    if stopped then now == was
    else
      && |now| == |was| + 1 && now[..|was|] == was
      && now[|was|].kind == RequestKind.CancelRequest && now[|was|].id == id
  }

  ghost predicate Cancels(was: seq<OrderRequest>, now: seq<OrderRequest>, stopped: bool) {
    exists id :: AskedToCancel(was, now, id, stopped)
  }

  /** More requests were made, the last of them a cancellation. */
  ghost predicate EndsWithCancel(was: seq<OrderRequest>, now: seq<OrderRequest>) {
    was < now && now[|now| - 1].kind == RequestKind.CancelRequest
  }

  /** More requests were made, the last of them a new order of `side`, at a price and of a quantity in
      range. */
  ghost predicate EndsWithNew(was: seq<OrderRequest>, now: seq<OrderRequest>, side: Side) {
    was < now && AsksFor(now[|now| - 1], side) && InRange(now[|now| - 1].price) && 10 <= now[|now| - 1].quantity <= 600
  }

  lemma CancelsLast(was: seq<OrderRequest>, mid: seq<OrderRequest>, now: seq<OrderRequest>)
    requires was <= mid && Cancels(mid, now, false)
    ensures EndsWithCancel(was, now)
  {
  }

  lemma AskedLast(was: seq<OrderRequest>, now: seq<OrderRequest>, side: Side, price: Price, quantity: Quantity)
    requires Asked(was, now, side, price, quantity, false) && InRange(price) && 10 <= quantity <= 600
    ensures EndsWithNew(was, now, side)
  {
  }

  lemma MoreNew(was: seq<OrderRequest>, mid: seq<OrderRequest>, now: seq<OrderRequest>, side: Side)
    requires was <= mid && (now == mid || EndsWithNew(mid, now, side))
    ensures was <= now && (EndsWithNew(mid, now, side) ==> EndsWithNew(was, now, side))
  {
  }

  lemma MoreCancelled(was: seq<OrderRequest>, now: seq<OrderRequest>, stopped: bool)
    requires Cancels(was, now, stopped)
    ensures was <= now && |now| == |was| + (if stopped then 0 else 1)
  {
  }

  /** Before look `looks` no more than `n` requests were made: one look for each, and no request once a
      look had seen a stop. */
  ghost predicate Prompt(asks: nat -> bool, looks: nat, n: nat) {
    n <= looks && forall k: nat :: asks(k) ==> n <= k + 1
  }

  lemma PromptLater(asks: nat -> bool, mid: nat, looks: nat, n: nat)
    requires Prompt(asks, mid, n) && mid <= looks
    ensures Prompt(asks, looks, n)
  {
  }

  lemma PromptMore(asks: nat -> bool, mid: nat, looks: nat, n: nat)
    requires Prompt(asks, mid, n) && mid < looks && !exists k: nat :: k < mid && asks(k)
    ensures Prompt(asks, looks, n + 1)
  {
  }

  class MarketRequestGenerator {
    const clob: CentralLimitOrderBook
    const active: RandomContainer<OrderId>
    // The engine as it was handed over.
    ghost const origin: Exchange

    ghost function Mine(): set<object> {
      {active, active.buffer}
    }

    ghost predicate Separate(stop: StopToken) {
      && stop !in clob.Repr()
      && {this} + Mine() !! clob.Repr()
      && stop !in Mine() && this !in {active, active.buffer, stop}
    }

    /** The engine is where the requests it has taken lead, or, once a stop was seen, part of the way; and
        none was taken after that. */
    ghost predicate OnRecord(stop: StopToken)
      requires clob.Valid()
      reads stop, clob, clob.state, clob.state.lists, clob.state.lists.repr
    {
      Formed(origin, clob.submitted, Now(clob), stop.Requested()) && Prompt(stop.asks, stop.looks, |clob.submitted|)
    }

    /** What was made so far: four for every request taken, less one for every order tracked. */
    ghost function Done(): int
      reads clob, active
    {
      4 * |clob.submitted| - active.size
    }

    /** The engine is sound and on record, and every resting order tracked, at a price in range. */
    ghost predicate Valid(stop: StopToken)
      reads this, active, active.buffer, stop, clob, clob.state, clob.state.lists, clob.state.lists.repr
    {
      && Separate(stop)
      && active.Valid() && active.capacity == MAX_ACTIVE_ORDERS
      && clob.Valid() && OnRecord(stop) && Tracked(clob.state.Book(), active.Items(), stop.Requested())
    }

    /** `left` more requests can be given ids. */
    ghost predicate Ready(stop: StopToken, left: nat)
      reads this, active, active.buffer, stop, clob, clob.state, clob.state.lists, clob.state.lists.repr
    {
      && Valid(stop) && clob.nextOrderId + left < TWO_TO_THE_64
      && origin.nextId + |clob.submitted| + left < TWO_TO_THE_64
    }

    constructor (clob: CentralLimitOrderBook, stop: StopToken)
      requires clob.Valid() && clob.state.Book() == EMPTY_BOOK && clob.submitted == [] && stop !in clob.Repr()
      ensures Valid(stop) && this.clob == clob && origin == Now(clob)
      ensures fresh(active) && fresh(active.buffer) && Done() == 0
    {
      hide Tracked, Formed, Consistent, Spelled, CacheOk, Sound;
      this.clob := clob;
      origin := Now(clob);
      active := new RandomContainer(MAX_ACTIVE_ORDERS, INVALID_ORDER_ID);
      new;
      EmptyTracked(active.Items(), stop.Requested());
      FormedNone(origin, stop.Requested());
    }

    method Poll(stop: StopToken, ghost left: nat) returns (stopped: bool)
      requires Ready(stop, left)
      modifies stop
      ensures Ready(stop, left) && stopped == stop.Requested() && (old(stop.Requested()) ==> stopped)
      ensures active.Items() == old(active.Items()) && old(stop.looks) <= stop.looks
      ensures clob.submitted == old(clob.submitted)
    {
      hide Tracked, Formed, Prompt;
      stopped := stop.StopRequested();
      PromptLater(stop.asks, old(stop.looks), stop.looks, |clob.submitted|);
      FormedStops(origin, clob.submitted, Now(clob), old(stop.Requested()), stopped);
      LaterStillTracked(clob.state.Book(), active.Items(), old(stop.Requested()), stopped);
    }

    /** `generate_price`: any price of a range that is never empty. */
    method GeneratePrice(side: Side, aggressive: bool, stop: StopToken, ghost left: nat) returns (price: Price)
      requires Ready(stop, left)
      ensures InRange(price)
      ensures
        var bid := BestOr(Buy, clob.state.Book().bids, DEFAULT_BUY_PRICE);
        var ask := BestOr(Sell, clob.state.Book().offers, DEFAULT_SELL_PRICE);
        Drawable(side, aggressive, bid, ask, price)
    {
      hide Tracked, Drawable, PriceRange, InRange, RightBest, BestOr, Sound, Formed;
      var bid, offer := clob.state.Snapshot();
      ghost var b := clob.state.Book();
      assert b.bids == b.On(Buy) && b.offers == b.On(Sell);
      if b.bids != map[] {
        TrackedPrices(b, active.Items(), stop.Requested(), Buy);
      }
      if b.offers != map[] {
        TrackedPrices(b, active.Items(), stop.Requested(), Sell);
      }
      PriceRead(Buy, b.bids, bid, DEFAULT_BUY_PRICE);
      PriceRead(Sell, b.offers, offer, DEFAULT_SELL_PRICE);
      var bestBid := if bid.price == NO_BID then DEFAULT_BUY_PRICE else bid.price;
      var bestAsk := if offer.price == NO_OFFER then DEFAULT_SELL_PRICE else offer.price;
      var (lo, hi) := PriceRange(side, aggressive, bestBid, bestAsk);
      PriceRangeOk(side, aggressive, bestBid, bestAsk, MIN_PRICE);
      price :| lo <= price <= hi;
      PriceRangeOk(side, aggressive, bestBid, bestAsk, price);
    }

    // ---- One request ----

    /** The tracked ids are apart from everything the engine touches. */
    ghost predicate Holding(stop: StopToken)
      reads this, active, active.buffer, stop, clob, clob.state, clob.state.lists, clob.state.lists.repr
    {
      && Separate(stop) && active.Valid() && active.capacity == MAX_ACTIVE_ORDERS
      && clob.Valid() && OnRecord(stop)
    }

    /** One more request can be taken. */
    ghost predicate OneMore()
      reads clob
    {
      clob.nextOrderId + 1 < TWO_TO_THE_64 && origin.nextId + |clob.submitted| + 1 < TWO_TO_THE_64
    }

    /** `clob_.submit`. */
    method Take(r: OrderRequest, stop: StopToken) returns (result: SubmitResult, ghost n: nat)
      requires Holding(stop) && OneMore() && r.kind != RequestKind.UpdateRequest
      requires RequestOk(r) && Submittable(clob.state.Book(), r) && Wants(clob.state.Book(), r)
      modifies clob.Repr(), stop
      ensures Holding(stop) && active.Items() == old(active.Items()) && old(stop.looks) <= stop.looks
      ensures Processed(old(clob.state.Book()), clob.state.Book(), old(clob.published), clob.published,
        SubmitEvents(old(clob.state.Book()), r, old(clob.nextOrderId)), n)
      ensures !stop.Requested() ==> n == |SubmitEvents(old(clob.state.Book()), r, old(clob.nextOrderId))|
      ensures result == Answered(r, old(clob.state.Book()), old(clob.nextOrderId), clob.nextOrderId)
      ensures old(clob.nextOrderId) <= clob.nextOrderId <= old(clob.nextOrderId) + 1
      ensures old(stop.Requested()) ==> n == 0 && clob.nextOrderId == old(clob.nextOrderId)
      ensures clob.submitted == old(clob.submitted) + (if old(stop.Requested()) then [] else [r])
    {
      hide Submittable, SubmitEvents, Sound, Replay, PartWay, Answered, Consistent, Spelled, CacheOk, ToServe, Run;
      hide Wants, Prompt, HeededUpTo;
      ghost var x, was := Now(clob), stop.Requested();
      result, n := ServeOne(clob, r, stop);
      PromptLater(stop.asks, old(stop.looks), stop.looks, |old(clob.submitted)|);
      if was {
        NothingProcessed(x, clob.state.Book(), clob.published, SubmitEvents(x.book, r, x.nextId));
        assert clob.submitted == old(clob.submitted);
      } else {
        FormedMore(origin, old(clob.submitted), x, r, Now(clob), stop.Requested());
        PromptMore(stop.asks, old(stop.looks), stop.looks, |old(clob.submitted)|);
      }
    }

    /** `clob_.submit` of a new order. */
    method SubmitNew(side: Side, price: Price, quantity: Quantity, stop: StopToken) returns (id: OrderId)
      requires Holding(stop) && OneMore() && RoomIn(clob.state.Book()) && InRange(price) && quantity > 0
      modifies clob.Repr(), stop
      ensures Asked(old(clob.submitted), clob.submitted, side, price, quantity, old(stop.Requested()))
      ensures Holding(stop) && active.Items() == old(active.Items()) && old(stop.looks) <= stop.looks
      ensures GrownBy(old(clob.state.Book()), clob.state.Book(), old(clob.nextOrderId), price)
      ensures id == INVALID_ORDER_ID || id == old(clob.nextOrderId)
      ensures clob.nextOrderId == if id == INVALID_ORDER_ID then old(clob.nextOrderId) else id + 1
      ensures old(stop.Requested()) ==> id == INVALID_ORDER_ID && clob.state.Book() == old(clob.state.Book())
    {
      hide Sound, BookOk, RoomIn, LeftoverOk, Replay, NewOrderEvents, Answer, Formed, Consistent, Spelled, CacheOk;
      clob.IdsAreValid();
      clob.BookIsOk();
      ghost var b, nextId := clob.state.Book(), clob.nextOrderId;
      ghost var n;
      RoomIsEnough(b, side, price, quantity);
      var result;
      var kind := if side == Buy then BuyRequest else SellRequest;
      result, n := Take(OrderRequest(INVALID_ORDER_ID, price, quantity, kind), stop);
      NewOrderGrows(b, side, price, quantity, nextId, n);
      id := result.id;
    }

    method SubmitCancel(id: OrderId, stop: StopToken)
      requires Holding(stop) && OneMore() && Resting(clob.state.Book(), id)
      modifies clob.Repr(), stop
      ensures AskedToCancel(old(clob.submitted), clob.submitted, id, old(stop.Requested()))
      ensures Holding(stop) && active.Items() == old(active.Items()) && old(stop.looks) <= stop.looks
      ensures clob.state.Book() == CancelOrder(old(clob.state.Book()), id)
        || (clob.state.Book() == old(clob.state.Book()) && stop.Requested())
      ensures clob.nextOrderId <= old(clob.nextOrderId) + 1
    {
      hide Sound, Resting, CancelOrder, Formed, Consistent, Spelled, CacheOk;
      ghost var b := clob.state.Book();
      ghost var n;
      var result;
      result, n := Take(OrderRequest(id, 0, 0, RequestKind.CancelRequest), stop);
      CancelProcessed(b, id, n);
    }

    /** Everything a request may change. */
    ghost function Touched(stop: StopToken): set<object> {
      Mine() + clob.Repr() + {stop}
    }

    /** `active_order_ids.add(*result)`, unless the order did not rest. */
    method Track(id: OrderId, stop: StopToken)
      requires Holding(stop) && (id != INVALID_ORDER_ID ==> |active.Items()| < MAX_ACTIVE_ORDERS)
      modifies active, active.buffer
      ensures Holding(stop) && clob.state.Book() == old(clob.state.Book()) && clob.submitted == old(clob.submitted)
      ensures active.Items() == old(active.Items()) + (if id == INVALID_ORDER_ID then [] else [id])
    {
      if id != INVALID_ORDER_ID {
        var _ := active.Add(id);
      }
    }

    /** Submit a new order, and track it if it was given an id. */
    method SubmitTracked(side: Side, price: Price, quantity: Quantity, stop: StopToken) returns (id: OrderId)
      requires Holding(stop) && OneMore() && RoomIn(clob.state.Book()) && InRange(price) && quantity > 0
      requires |active.Items()| < MAX_ACTIVE_ORDERS || stop.Requested()
      modifies Touched(stop)
      ensures Asked(old(clob.submitted), clob.submitted, side, price, quantity, old(stop.Requested()))
      ensures Holding(stop) && old(stop.looks) <= stop.looks
      ensures GrownBy(old(clob.state.Book()), clob.state.Book(), old(clob.nextOrderId), price)
      ensures id == INVALID_ORDER_ID || (id == old(clob.nextOrderId) && |old(active.Items())| < MAX_ACTIVE_ORDERS)
      ensures clob.nextOrderId == if id == INVALID_ORDER_ID then old(clob.nextOrderId) else id + 1
      ensures old(stop.Requested()) ==> id == INVALID_ORDER_ID && clob.state.Book() == old(clob.state.Book())
      ensures active.Items() == old(active.Items()) + (if id == INVALID_ORDER_ID then [] else [id])
    {
      hide RoomIn, GrownBy, Formed, Sound, Consistent, Spelled, CacheOk, InRange;
      id := SubmitNew(side, price, quantity, stop);
      Track(id, stop);
    }

    /** Submit a new order and track it if it may rest. */
    method PostOrder(side: Side, price: Price, quantity: Quantity, stop: StopToken, ghost left: nat)
      requires Ready(stop, left) && left > 0 && InRange(price) && quantity > 0
      requires active.Valid() && (|active.Items()| < MAX_ACTIVE_ORDERS || stop.Requested())
      modifies Touched(stop)
      ensures Ready(stop, left - 1) && old(stop.looks) <= stop.looks
      ensures Asked(old(clob.submitted), clob.submitted, side, price, quantity, old(stop.Requested()))
      ensures active.size <= old(active.size) + (if old(stop.Requested()) then 0 else 1)
    {
      hide Tracked, RoomIn, GrownBy, Formed, Sound, Consistent, Spelled, CacheOk, InRange;
      ghost var b, ids, was, nextId := clob.state.Book(), active.Items(), stop.Requested(), clob.nextOrderId;
      TrackedHasRoom(b, ids, was);
      clob.IdsAreValid();
      var id := SubmitTracked(side, price, quantity, stop);
      clob.BookIsSound();
      NewOrderTracked(b, clob.state.Book(), ids, active.Items(), was, stop.Requested(), nextId, clob.nextOrderId, id, price);
    }

    method TakeRandom() returns (id: OrderId, ghost i: nat)
      requires active.Valid() && active.Items() != [] && Mine() !! clob.Repr() && clob.Valid()
      modifies active, active.buffer
      ensures active.Valid() && clob.Valid() && clob.state.Book() == old(clob.state.Book())
      ensures clob.submitted == old(clob.submitted)
      ensures i < |old(active.Items())| && id == old(active.Items())[i]
      ensures active.Items() == SwapRemoved(old(active.Items()), i)
    {
      ghost var ids := active.Items();
      var item := active.RemoveRandom();
      i :| 0 <= i < |ids| && item.value == ids[i] && active.Items() == SwapRemoved(ids, i);
      id := item.value;
    }

    /** Cancel an order just taken off the list, if it still rests. */
    method CancelTaken(id: OrderId, ghost ids: seq<OrderId>, ghost i: nat, stop: StopToken) returns (posted: bool)
      requires Holding(stop) && OneMore()
      requires Tracked(clob.state.Book(), ids, stop.Requested())
      requires i < |ids| && id == ids[i] && active.Items() == SwapRemoved(ids, i)
      modifies clob.Repr(), stop
      ensures posted == Resting(old(clob.state.Book()), id)
      ensures if posted then AskedToCancel(old(clob.submitted), clob.submitted, id, old(stop.Requested()))
        else clob.submitted == old(clob.submitted)
      ensures Valid(stop) && active.Items() == old(active.Items()) && old(stop.looks) <= stop.looks
      ensures clob.nextOrderId <= old(clob.nextOrderId) + 1
    {
      hide Tracked, Formed, Sound, Resting, CancelOrder, Consistent, Spelled, CacheOk;
      ghost var b, was := clob.state.Book(), stop.Requested();
      clob.BookIsOk();
      posted := clob.OrderExists(id);
      if posted {
        SubmitCancel(id, stop);
      }
      CancelTracked(b, clob.state.Book(), ids, i, was, stop.Requested());
    }

    /** Take a random tracked order off the list, and cancel it if it still rests. */
    method CancelOne(stop: StopToken, ghost left: nat) returns (posted: bool)
      requires Ready(stop, left) && left > 0 && active.Valid() && active.Items() != []
      modifies Touched(stop)
      ensures Ready(stop, left - 1) && active.size == old(active.size) - 1
      ensures old(stop.looks) <= stop.looks
      ensures if posted then Cancels(old(clob.submitted), clob.submitted, old(stop.Requested()))
        else clob.submitted == old(clob.submitted)
    {
      hide Tracked, Formed, Sound, Consistent, Spelled, CacheOk;
      ghost var ids := active.Items();
      var id;
      ghost var i;
      id, i := TakeRandom();
      posted := CancelTaken(id, ids, i, stop);
      SwapRemovedKeeps(ids, i);
    }

    // ---- The loops ----
    // `fuel` bounds how many rounds the loops may still take between them. A run cut short by it
    // returns 0 and goes no further, so what holds for every fuel holds of every run.

    lemma RecordLeads(stop: StopToken, left: nat)
      requires Ready(stop, left)
      ensures clob.Valid() && Prompt(stop.asks, stop.looks, |clob.submitted|) && ToServe(origin, clob.submitted)
      ensures PartWay(origin, clob.state.Book(), clob.published, Run(origin, clob.submitted))
    {
      hide Tracked, Sound, Prompt, Formed, PartWay, ToServe, Consistent, Spelled, CacheOk;
      FormedIsPart(origin, clob.submitted, Now(clob), stop.Requested());
    }

    lemma OneRoundLess(stop: StopToken, left: nat)
      requires Ready(stop, left) && left > 0
      ensures Ready(stop, left - 1)
    {
    }

    method ActiveSize(stop: StopToken, ghost left: nat) returns (n: nat)
      requires Ready(stop, left)
      ensures active.Valid() && n == |active.Items()| == active.size <= MAX_ACTIVE_ORDERS
    {
      n := active.Size();
    }

    /** An empty list is filled first. */
    method FillEmpty(stop: StopToken, fuel: nat) returns (left: nat, size: nat)
      requires Ready(stop, fuel) && fuel > 0
      modifies Touched(stop)
      ensures left <= fuel && Ready(stop, left) && old(stop.looks) <= stop.looks
      ensures old(clob.submitted) <= clob.submitted
      ensures active.Valid() && size == |active.Items()| && (size == 0 ==> left == 0 || stop.Requested())
      ensures fuel - left <= Done() - old(Done()) + (if left == 0 || stop.Requested() then 3 else 0)
      decreases fuel, 0
    {
      hide Ready;
      left := fuel;
      size := ActiveSize(stop, left);
      if size == 0 {
        OneRoundLess(stop, left);
        left := Populate(stop, left - 1);
        size := ActiveSize(stop, left);
      }
    }

    /** `generate_and_post_cancel_request`. */
    method PostCancel(stop: StopToken, fuel: nat) returns (left: nat)
      requires Ready(stop, fuel)
      modifies Touched(stop)
      ensures left <= fuel && Ready(stop, left) && old(stop.looks) <= stop.looks
      ensures left > 0 ==> stop.Requested() || EndsWithCancel(old(clob.submitted), clob.submitted)
      ensures old(clob.submitted) <= clob.submitted
      ensures fuel - left <= Done() - old(Done()) + (if left == 0 || stop.Requested() then 3 else -1)
      decreases fuel, 1
    {
      hide Ready, Cancels, EndsWithCancel;
      left := fuel;
      var stopped := Poll(stop, left);
      while !stopped && left > 0
        invariant left <= fuel && Ready(stop, left) && old(stop.looks) <= stop.looks
        invariant stopped == stop.Requested() && old(clob.submitted) <= clob.submitted
        invariant fuel - left <= Done() - old(Done()) + (if left == 0 || stopped then 3 else 0)
        decreases left
      {
        var size;
        left, size := FillEmpty(stop, left);
        if size == 0 || left == 0 {
          return;
        }
        ghost var mid, was := clob.submitted, stop.Requested();
        var posted := CancelOne(stop, left);
        left := left - 1;
        if posted {
          MoreCancelled(mid, clob.submitted, was);
          if !was {
            CancelsLast(old(clob.submitted), mid, clob.submitted);
          }
          return;
        }
        stopped := Poll(stop, left);
      }
    }

    /** `purge_active_orders`: on return the list has room, or a stop was requested. */
    method Purge(stop: StopToken, fuel: nat) returns (left: nat)
      requires Ready(stop, fuel)
      modifies Touched(stop)
      ensures left <= fuel && Ready(stop, left) && old(stop.looks) <= stop.looks
      ensures active.Valid()
      ensures left > 0 ==> |active.Items()| <= PURGE_UNTIL_WHEN_FULL || stop.Requested()
      ensures old(clob.submitted) <= clob.submitted
      ensures fuel - left <= Done() - old(Done()) + (if left == 0 || stop.Requested() then 4 else 0)
      decreases fuel, 2
    {
      hide Ready;
      left := fuel;
      var stopped := Poll(stop, left);
      var size := ActiveSize(stop, left);
      while !stopped && size > PURGE_UNTIL_WHEN_FULL && left > 0
        invariant left <= fuel && Ready(stop, left) && old(stop.looks) <= stop.looks
        invariant (stopped <==> stop.Requested()) && active.Valid() && size == |active.Items()|
        invariant old(clob.submitted) <= clob.submitted
        invariant fuel - left <= Done() - old(Done()) + (if left == 0 || stopped then 4 else 0)
        decreases left
      {
        OneRoundLess(stop, left);
        left := PostCancel(stop, left - 1);
        stopped := Poll(stop, left);
        size := ActiveSize(stop, left);
      }
    }

    /** `quantity_distribution` and `large_quantity_distribution`. */
    method DrawQuantity(aggressive: bool) returns (quantity: Quantity)
      ensures if aggressive then 100 <= quantity <= 600 else 10 <= quantity <= 100
    {
      var extra: nat :| extra <= if aggressive then 500 else 90;
      return if aggressive then 100 + extra else 10 + extra;
    }

    /** A new order at any price of the drawn range. */
    method PostDrawn(side: Side, stop: StopToken, ghost left: nat)
      requires Ready(stop, left) && left > 0
      requires active.Valid() && (|active.Items()| < MAX_ACTIVE_ORDERS || stop.Requested())
      modifies Touched(stop)
      ensures Ready(stop, left - 1) && old(stop.looks) <= stop.looks
      ensures if old(stop.Requested()) then clob.submitted == old(clob.submitted)
        else EndsWithNew(old(clob.submitted), clob.submitted, side)
      ensures Done() >= old(Done()) + (if old(stop.Requested()) then 0 else 3)
    {
      hide Ready, InRange, Drawable, EndsWithNew;
      var aggressive: bool := *;
      var price := GeneratePrice(side, aggressive, stop, left);
      var quantity := DrawQuantity(aggressive);
      ghost var was := clob.submitted;
      PostOrder(side, price, quantity, stop, left);
      if !old(stop.Requested()) {
        AskedLast(was, clob.submitted, side, price, quantity);
      }
    }

    /** `generate_and_post_new_order_request`: any price of the drawn range, any quantity of the
        passive or the aggressive range. */
    method PostNew(side: Side, stop: StopToken, fuel: nat) returns (left: nat)
      requires Ready(stop, fuel)
      modifies Touched(stop)
      ensures left <= fuel && Ready(stop, left) && old(stop.looks) <= stop.looks
      ensures left > 0 ==> stop.Requested() || EndsWithNew(old(clob.submitted), clob.submitted, side)
      ensures old(clob.submitted) <= clob.submitted
      ensures fuel - left <= Done() - old(Done()) +
        (if left > 0 && !stop.Requested() then -2 else if old(active.size) == MAX_ACTIVE_ORDERS then 5 else 1)
      decreases fuel, 3
    {
      hide Ready, EndsWithNew;
      left := fuel;
      var size := ActiveSize(stop, left);
      if size == MAX_ACTIVE_ORDERS {
        left := Purge(stop, left);
      }
      if left == 0 {
        return;
      }
      ghost var mid, was := clob.submitted, stop.Requested();
      PostDrawn(side, stop, left);
      assert was ==> stop.Requested();
      MoreNew(old(clob.submitted), mid, clob.submitted, side);
      left := left - 1;
    }

    /** A new order of either side, drawn. */
    method PostEither(stop: StopToken, fuel: nat) returns (left: nat)
      requires Ready(stop, fuel) && active.size < MAX_ACTIVE_ORDERS
      modifies Touched(stop)
      ensures left <= fuel && Ready(stop, left) && old(stop.looks) <= stop.looks
      ensures old(clob.submitted) <= clob.submitted
      ensures fuel - left <= Done() - old(Done()) + (if left > 0 && !stop.Requested() then -2 else 1)
      decreases fuel, 4
    {
      hide Ready, EndsWithNew;
      if * {
        left := PostNew(Buy, stop, fuel);
      } else {
        left := PostNew(Sell, stop, fuel);
      }
    }

    /** `populate_active_orders`. */
    method Populate(stop: StopToken, fuel: nat) returns (left: nat)
      requires Ready(stop, fuel)
      modifies Touched(stop)
      ensures left <= fuel && Ready(stop, left) && old(stop.looks) <= stop.looks
      ensures active.Valid()
      ensures left > 0 ==> |active.Items()| >= POPULATE_WHEN_EMPTY || stop.Requested()
      ensures old(clob.submitted) <= clob.submitted
      ensures fuel - left <= Done() - old(Done()) +
        (if left == 0 || stop.Requested() then 2 else if old(active.size) == 0 then -1 else 0)
      decreases fuel, 5
    {
      hide Ready;
      left := fuel;
      var stopped := Poll(stop, left);
      var size := ActiveSize(stop, left);
      while !stopped && size < POPULATE_WHEN_EMPTY && left > 0
        invariant left <= fuel && Ready(stop, left) && old(stop.looks) <= stop.looks
        invariant (stopped <==> stop.Requested()) && active.Valid() && size == |active.Items()|
        invariant old(clob.submitted) <= clob.submitted
        invariant fuel - left <= Done() - old(Done()) +
          (if left == 0 || stopped then 2 else if left == fuel && size == old(active.size) then 0 else -1)
        decreases left
      {
        OneRoundLess(stop, left);
        left := PostEither(stop, left - 1);
        stopped := Poll(stop, left);
        size := ActiveSize(stop, left);
      }
    }

    /** `start`: any run of the generator keeps the engine sound and, until a stop, every resting
        order tracked. */
    method Start(stop: StopToken, fuel: nat) returns (left: nat)
      requires Ready(stop, fuel)
      modifies Touched(stop)
      ensures left <= fuel && Ready(stop, left) && old(stop.looks) <= stop.looks
      ensures left > 0 ==> stop.Requested()
      ensures fuel - left <= Done() - old(Done()) + 6
      ensures clob.Valid() && Prompt(stop.asks, stop.looks, |clob.submitted|) && ToServe(origin, clob.submitted)
      ensures PartWay(origin, clob.state.Book(), clob.published, Run(origin, clob.submitted))
      ensures old(clob.submitted) <= clob.submitted
    {
      hide Ready, ToServe, PartWay, Run;
      left := Populate(stop, fuel);
      var stopped := Poll(stop, left);
      while !stopped && left > 0
        invariant left <= fuel && Ready(stop, left) && old(stop.looks) <= stop.looks
        invariant (stopped <==> stop.Requested()) && old(clob.submitted) <= clob.submitted
        invariant fuel - left <= Done() - old(Done()) + (if left == 0 || stopped then 6 else 0)
        decreases left
      {
        OneRoundLess(stop, left);
        if {
          case true => left := PostCancel(stop, left - 1);
          case true => left := PostNew(Buy, stop, left - 1);
          case true => left := PostNew(Sell, stop, left - 1);
        }
        stopped := Poll(stop, left);
      }
      RecordLeads(stop, left);
    }
  }

  /** The exchange's engine, driven by its order generator from an empty book (as the exchange simulator
      sets them up): the requests it has taken are a run it can take, what it has published is a first
      part of that run's events, and its book is their replay. */
  method GenerateRun(hashPrice: Price -> nat, hashId: OrderId -> nat, stop: StopToken, fuel: nat)
      returns (clob: CentralLimitOrderBook)
    requires 1 + fuel < TWO_TO_THE_64
    modifies stop
    ensures clob.Valid() && ToServe(OPENING, clob.submitted)
    ensures clob.published <= Run(OPENING, clob.submitted).log
    ensures clob.state.Book() == Replay(EMPTY_BOOK, clob.published)
    ensures !stop.Requested() ==> fuel <= 4 * |clob.submitted| + 6
    ensures Prompt(stop.asks, stop.looks, |clob.submitted|)
  {
    hide Prompt, ToServe, Run, Sound, Replay, Tracked, Formed, Consistent, Spelled, CacheOk;
    clob := new CentralLimitOrderBook(hashPrice, hashId);
    var generator := new MarketRequestGenerator(clob, stop);
    var _ := generator.Start(stop, fuel);
    assert clob.published[|OPENING.log|..] == clob.published;
  }
}
