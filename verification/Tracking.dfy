/** What the order generator (src/exchange/order-generator.cpp) keeps track of, on values: every
    resting order, at prices in a fixed range; which is why the book never runs out of room. */
module Tracking {
  import opened Machine
  import opened Orders
  import opened PriceTimePriority
  import opened BookReading
  import opened BookEffects
  import opened Matching
  import opened ExchangeModel
  import opened ExchangeRuns
  import opened BookStates
  import opened Clob
  import opened RandomContainers

  const MIN_PRICE: Price := 1
  const MAX_PRICE: Price := 1000
  const MAX_ACTIVE_ORDERS: nat := 0x2000
  const PURGE_UNTIL_WHEN_FULL: nat := 0x1000
  const POPULATE_WHEN_EMPTY: nat := 0x100
  const DEFAULT_BUY_PRICE: Price := 350
  const DEFAULT_SELL_PRICE: Price := 650
  const PRICE_VARIANCE: int := 10
  const LARGE_PRICE_VARIANCE: int := 20

  predicate InRange(price: Price) {
    MIN_PRICE <= price <= MAX_PRICE
  }

  ghost predicate PricesInRange(b: Book) {
    forall side, p :: p in b.On(side) ==> InRange(p)
  }

  /** Until a stop every resting order is tracked; after it the book no longer grows. */
  ghost predicate Tracked(b: Book, ids: seq<OrderId>, stopped: bool) {
    && PricesInRange(b) && |ids| <= MAX_ACTIVE_ORDERS && |RestingIds(b)| <= MAX_ACTIVE_ORDERS
    && (!stopped ==> AllTracked(b, ids))
  }

  ghost predicate AllTracked(b: Book, ids: seq<OrderId>) {
    forall id :: id in RestingIds(b) ==> id in ids
  }

  lemma EmptyTracked(ids: seq<OrderId>, stopped: bool)
    requires |ids| <= MAX_ACTIVE_ORDERS
    ensures Tracked(EMPTY_BOOK, ids, stopped)
  {
    assert RestingIds(EMPTY_BOOK) == {};
  }

  lemma LaterStillTracked(b: Book, ids: seq<OrderId>, was: bool, stopped: bool)
    requires Tracked(b, ids, was) && (was ==> stopped)
    ensures Tracked(b, ids, stopped)
  {
  }

  lemma TrackedPrices(b: Book, ids: seq<OrderId>, stopped: bool, side: Side)
    requires Tracked(b, ids, stopped) && b.On(side) != map[]
    ensures InRange(Best(side, b.On(side).Keys))
  {
  }

  // ---- Room ----

  lemma {:induction false} ItemsSize(ids: seq<OrderId>) returns (items: set<OrderId>)
    ensures |items| <= |ids| && forall id :: id in items <==> id in ids
  {
    if ids == [] {
      items := {};
    } else {
      var rest := ItemsSize(ids[1..]);
      items := rest + {ids[0]};
      forall id | id in ids ensures id in items {
        assert ids == [ids[0]] + ids[1..];
      }
    }
  }

  lemma {:induction false} RangeSize(prices: set<Price>, hi: Price)
    requires 0 <= hi && forall p :: p in prices ==> MIN_PRICE <= p <= hi
    ensures |prices| <= hi
    decreases hi
  {
    if hi == 0 {
      assert prices == {};
    } else {
      RangeSize(prices - {hi}, hi - 1);
      if hi in prices {
        assert prices == prices - {hi} + {hi};
      } else {
        assert prices == prices - {hi};
      }
    }
  }

  lemma TrackedOrders(b: Book, ids: seq<OrderId>)
    requires AllTracked(b, ids)
    ensures |RestingIds(b)| <= |ids|
  {
    var items := ItemsSize(ids);
    assert RestingIds(b) <= items by {
      forall id | id in RestingIds(b) ensures id in items {
        assert id in ids;
      }
    }
    SubsetSize(RestingIds(b), items);
  }

  lemma LevelsInRange(b: Book)
    requires PricesInRange(b)
    ensures |b.bids.Keys + b.offers.Keys| <= 1000
  {
    assert b.bids == b.On(Buy) && b.offers == b.On(Sell);
    forall p | p in b.bids.Keys + b.offers.Keys ensures InRange(p) {
      assert p in b.On(Buy) || p in b.On(Sell);
    }
    RangeSize(b.bids.Keys + b.offers.Keys, MAX_PRICE);
  }

  /** At most 2^13 resting orders and 1000 price levels: the pool and the maps never run out. */
  lemma TrackedHasRoom(b: Book, ids: seq<OrderId>, stopped: bool)
    requires Tracked(b, ids, stopped)
    ensures |RestingIds(b)| <= MAX_ACTIVE_ORDERS && |b.bids.Keys + b.offers.Keys| <= 1000
    ensures RoomIn(b)
  {
    LevelsInRange(b);
  }

  // ---- New orders ----

  /** Replaying trades and additions of one order adds at most that order. */
  lemma {:induction false} ReplayGrows(b: Book, events: seq<MarketEvent>, id: OrderId, price: Price)
    requires BookOk(b) && OrderlyLog(b, events)
    requires forall i :: 0 <= i < |events| ==>
      || events[i].kind == EventKind.Trade
      || (events[i].kind == EventKind.Add && events[i].order.id == id && events[i].order.price == price)
    ensures RestingIds(Replay(b, events)) <= RestingIds(b) + {id}
    ensures forall side :: Replay(b, events).On(side).Keys <= b.On(side).Keys + {price}
    decreases |events|
  {
    if events != [] {
      var b' := Apply(b, events[0]);
      ApplyKeepsOk(b, events[0]);
      EventGrows(b, events[0]);
      ReplayGrows(b', events[1..], id, price);
    }
  }

  lemma EventGrows(b: Book, e: MarketEvent)
    requires BookOk(b) && Executable(b, e) && (e.kind == EventKind.Trade || e.kind == EventKind.Add)
    ensures
      var adds := e.kind == EventKind.Add;
      var b' := Apply(b, e);
      && RestingIds(b') <= RestingIds(b) + (if adds then {e.order.id} else {})
      && forall side :: b'.On(side).Keys <= b.On(side).Keys + (if adds then {e.order.price} else {})
  {
    if e.kind == EventKind.Add {
      AddGrows(b, e.order);
    } else {
      var side, p, x: Quantity :| Holds(b, side, p, e.order.id, x) && e.order.quantity <= x;
      TradeIsAmend(b, side, p, e.order.id, x, e.order.quantity);
      AmendShrinks(b, e.order.id, x - e.order.quantity);
    }
  }

  /** Book `b'` holds nothing new but order `id` at `price`. */
  ghost predicate GrownBy(b: Book, b': Book, id: OrderId, price: Price) {
    RestingIds(b') <= RestingIds(b) + {id} && forall s :: b'.On(s).Keys <= b.On(s).Keys + {price}
  }

  /** What any prefix of a new order's events adds to the book. */
  lemma NewOrderGrows(b: Book, side: Side, price: Price, quantity: Quantity, nextId: OrderId, n: nat)
    requires Sound(b, nextId) && PriceOk(side, price) && nextId + 1 < TWO_TO_THE_64
    requires n <= |NewOrderEvents(b, side, price, quantity, nextId)|
    ensures GrownBy(b, Replay(b, NewOrderEvents(b, side, price, quantity, nextId)[..n]), nextId, price)
    ensures n == 0 ==> Replay(b, NewOrderEvents(b, side, price, quantity, nextId)[..n]) == b
  {
    var events := NewOrderEvents(b, side, price, quantity, nextId);
    NewOrderSound(b, side, price, quantity, nextId);
    SoundAtEveryEvent(b, events, IdAfterOrder(b, side, price, quantity, nextId), n);
    ReplayGrows(b, events[..n], nextId, price);
  }

  /** A new order in range keeps the book tracked, once its id is tracked if it was given one. */
  lemma NewOrderTracked(b: Book, b': Book, ids: seq<OrderId>, ids': seq<OrderId>, was: bool, stopped: bool,
      nextId: OrderId, nextId': OrderId, given: OrderId, price: Price)
    requires Tracked(b, ids, was) && (was ==> stopped && b' == b) && Sound(b', nextId') && InRange(price)
    requires GrownBy(b, b', nextId, price)
    requires if given == INVALID_ORDER_ID then nextId' == nextId else given == nextId && |ids| < MAX_ACTIVE_ORDERS
    requires ids' == ids + (if given == INVALID_ORDER_ID then [] else [given])
    ensures Tracked(b', ids', stopped)
  {
    forall side, p | p in b'.On(side) ensures InRange(p) {
      assert p in b.On(side).Keys + {price};
    }
    if !was {
      forall id | id in RestingIds(b') ensures id in ids' {
        assert id < nextId';
        assert id != nextId ==> id in ids;
      }
      TrackedOrders(b', ids');
    }
  }

  // ---- Cancellations ----

  lemma SwapRemovedKeeps(ids: seq<OrderId>, i: nat)
    requires i < |ids|
    ensures |SwapRemoved(ids, i)| == |ids| - 1
    ensures forall id :: id in ids && id != ids[i] ==> id in SwapRemoved(ids, i)
  {
    var s := SwapRemoved(ids, i);
    forall id | id in ids && id != ids[i] ensures id in s {
      var k :| 0 <= k < |ids| && ids[k] == id;
      if k == |ids| - 1 {
        assert s[i] == id;
      } else {
        assert s[k] == id;
      }
    }
  }

  /** An order no longer tracked has left the book, unless a stop came before it could. */
  lemma CancelTracked(b: Book, b': Book, ids: seq<OrderId>, i: nat, was: bool, stopped: bool)
    requires Tracked(b, ids, was) && (was ==> stopped) && i < |ids| && BookOk(b)
    requires b' == CancelOrder(b, ids[i]) || (b' == b && (stopped || !Resting(b, ids[i])))
    ensures Tracked(b', SwapRemoved(ids, i), stopped)
  {
    var ids', id := SwapRemoved(ids, i), ids[i];
    SwapRemovedKeeps(ids, i);
    AmendShrinks(b, id, 0);
    RestingIsMember(b, id);
    forall s, p | p in b'.On(s) ensures InRange(p) {
      assert p in b.On(s).Keys;
    }
    SubsetSize(RestingIds(b'), RestingIds(b));
  }

  lemma CancelProcessed(b: Book, id: OrderId, n: nat)
    requires Resting(b, id) && n <= 1
    ensures Replay(b, [CancelEvent(id)][..n]) == if n == 0 then b else CancelOrder(b, id)
  {
    var events := [CancelEvent(id)];
    assert events[..1] == events && events[..0] == [];
    ReplayOne(b, CancelEvent(id));
  }

  // ---- Prices ----

  function Clamped(lo: int, hi: int): (r: (int, int)) {
    (if lo < MIN_PRICE then MIN_PRICE else lo, if hi > MAX_PRICE then MAX_PRICE else hi)
  }

  /** The range `generate_price` draws from, given the best prices or their defaults. */
  function PriceRange(side: Side, aggressive: bool, bid: Price, ask: Price): (int, int) {
    if side == Buy && !aggressive then Clamped(bid - PRICE_VARIANCE, bid + PRICE_VARIANCE)
    else if !aggressive then Clamped(ask - PRICE_VARIANCE, ask + PRICE_VARIANCE)
    else if side == Buy then Clamped(ask, ask + LARGE_PRICE_VARIANCE)
    else Clamped(bid - LARGE_PRICE_VARIANCE, bid)
  }

  /** A passive price is within 10 ticks of the own side's best; an aggressive one reaches the opposing
      best and goes up to 20 ticks beyond it. */
  ghost predicate Drawable(side: Side, aggressive: bool, bid: Price, ask: Price, price: Price) {
    match side
    case Buy => if aggressive then ask <= price <= ask + 20 else bid - 10 <= price <= bid + 10
    case Sell => if aggressive then bid - 20 <= price <= bid else ask - 10 <= price <= ask + 10
  }

  /** The range is never empty, and holds the prices it should. */
  lemma PriceRangeOk(side: Side, aggressive: bool, bid: Price, ask: Price, p: Price)
    requires InRange(bid) && InRange(ask)
    ensures
      var (lo, hi) := PriceRange(side, aggressive, bid, ask);
      && MIN_PRICE <= lo <= hi <= MAX_PRICE
      && (lo <= p <= hi <==> InRange(p) && Drawable(side, aggressive, bid, ask, p))
  {
  }
}
