/** BookState (src/order-book/book-state.cpp): the order lists plus the cached best prices. */
module BookStates {
  import opened Machine
  import opened Orders
  import opened OrderListing
  import opened PriceTimePriority
  import opened BookStore
  import opened BookReading
  import opened BestPrices

  datatype BookUpdate = NoChange | NewBestBid | NewBestOffer

  /** The cached best prices of both sides. */
  datatype Cache = Cache(bid: BestOrderInfo, offer: BestOrderInfo) {
    function On(side: Side): BestOrderInfo {
      if side == Buy then bid else offer
    }
  }

  /** Pool and level map can take one more order. */
  ghost predicate RoomIn(b: Book) {
    |RestingIds(b)| < MAX_CONCURRENT_ORDERS && |b.bids.Keys + b.offers.Keys| < 2 * MAX_PRICE_LEVELS
  }

  /** A side's best price and, modulo 2^32, what its queue offers; or the sentinel. */
  ghost function RightBest(side: Side, m: Queues): BestOrderInfo {
    if m == map[] then BestOrderInfo(NoPrice(side), 0)
    else BestOrderInfo(Best(side, m.Keys), Total(m[Best(side, m.Keys)]) % TWO_TO_THE_32)
  }

  /** The cached best prices, right or wrong, once `quantity` was taken out of `price` and `b` is
      left. */
  ghost predicate TookOut(c: Cache, c': Cache, side: Side, price: Price, quantity: Quantity, b: Book) {
    && c'.On(side) == ReducedBest(c.On(side), price, quantity, RightBest(side, b.On(side)))
    && c'.On(Opposite(side)) == c.On(Opposite(side))
  }

  /** The cached best prices, right or wrong, once an order's quantity went from `was` to `n`. */
  ghost predicate Requoted(c: Cache, c': Cache, side: Side, price: Price, was: Quantity, n: Quantity, b: Book) {
    && c'.On(side) == UpdatedBest(side, c.On(side), price, was, n, RightBest(side, b.On(side)))
    && c'.On(Opposite(side)) == c.On(Opposite(side))
  }

  /** A resting order's quantity can be changed without spoiling the cached best prices. */
  ghost predicate CanUpdate(b: Book, bid: BestOrderInfo, offer: BestOrderInfo, id: OrderId, quantity: Quantity) {
    quantity == 0 || exists side, price, x ::
      Holds(b, side, price, id, x) && UpdateKeepsBest(if side == Buy then bid else offer, price, x, quantity)
  }

  /** What is reported of a change at a price: the best bid for a bid at the cached price, or one that
      `joins` above it; the best offer likewise; and nothing otherwise. */
  ghost predicate Reports(update: BookUpdate, c: Cache, side: Side, price: Price, joins: bool) {
    && (update == NewBestBid <==> side == Buy && (price == c.bid.price || (joins && price > c.bid.price)))
    && (update == NewBestOffer <==> side == Sell && (price == c.offer.price || (joins && price < c.offer.price)))
  }

  /** What is reported when order `id` leaves, trades or, for a positive `quantity`, is updated to it: a
      smaller one goes through the helper for additions. */
  ghost predicate ReportsOf(update: BookUpdate, c: Cache, b: Book, id: OrderId, quantity: Quantity) {
    forall side, price, x :: Holds(b, side, price, id, x) ==> Reports(update, c, side, price, 0 < quantity < x)
  }

  /** What is reported of an event. */
  ghost predicate ReportsEvent(update: BookUpdate, c: Cache, b: Book, e: MarketEvent) {
    match e.kind
    case Add => Reports(update, c, e.order.side, e.order.price, true)
    case Update => ReportsOf(update, c, b, e.order.id, e.order.quantity)
    case _ => ReportsOf(update, c, b, e.order.id, 0)
  }

  /** An event that leaves right cached best prices right. */
  ghost predicate HarmlessTo(b: Book, bid: BestOrderInfo, offer: BestOrderInfo, e: MarketEvent) {
    e.kind == EventKind.Update ==> CanUpdate(b, bid, offer, e.order.id, e.order.quantity)
  }

  lemma RoomShrinks(b: Book, b': Book)
    requires RoomIn(b) && RestingIds(b') <= RestingIds(b)
    requires b'.bids.Keys <= b.bids.Keys && b'.offers.Keys <= b.offers.Keys
    ensures RoomIn(b')
  {
    SubsetSize(RestingIds(b'), RestingIds(b));
    SubsetSize(b'.bids.Keys + b'.offers.Keys, b.bids.Keys + b.offers.Keys);
  }

  lemma TradableRests(b: Book, id: OrderId, quantity: Quantity)
    requires Tradable(b, id, quantity)
    ensures Resting(b, id)
  {
  }

  /** What a trade with a resting order amounts to. */
  lemma TradedOrder(b: Book, order: Order, quantity: Quantity)
    requires BookOk(b) && Holds(b, order.side, order.price, order.id, order.quantity) && Tradable(b, order.id, quantity)
    ensures quantity <= order.quantity
    ensures TradeOrder(b, order.id, quantity) == AmendOrder(b, order.id, order.quantity - quantity)
  {
    hide TradeOrder, AmendOrder;
    var side, p, x: Quantity :| Holds(b, side, p, order.id, x) && quantity <= x;
    hide BookOk;
    TradeIsAmend(b, order.side, order.price, order.id, order.quantity, quantity);
  }

  class BookState {
    const lists: OrderLists
    var bestBid: BestOrderInfo
    var bestOffer: BestOrderInfo

    /** The lists are in order; the cache may be wrong. */
    ghost predicate ListsValid()
      reads this, lists, lists.repr
    {
      this !in lists.repr && lists in lists.repr && lists.Valid()
    }

    ghost predicate Valid()
      reads this, lists, lists.repr
    {
      ListsValid() && CacheOk(bestBid, bestOffer, lists.State())
    }

    ghost function Book(): Book
      requires ListsValid()
      reads this, lists, lists.repr
    {
      lists.Book()
    }

    function Cached(): Cache
      reads this
    {
      Cache(bestBid, bestOffer)
    }

    constructor (hashPrice: Price -> nat, hashId: OrderId -> nat)
      ensures Valid() && Book() == EMPTY_BOOK && fresh(lists.repr)
      ensures bestBid == BestOrderInfo(NO_BID, 0) && bestOffer == BestOrderInfo(NO_OFFER, 0)
    {
      lists := new OrderLists(hashPrice, hashId);
      bestBid := BestOrderInfo(NO_BID, 0);
      bestOffer := BestOrderInfo(NO_OFFER, 0);
      new;
      lists.NoPricesNoOrders();
    }

    // ---- The cache ----

    /** `update_bbo_add`. */
    method UpdateBestAdd(order: Order) returns (update: BookUpdate)
      requires ListsValid()
      modifies this`bestBid, this`bestOffer
      ensures ListsValid() && lists.State() == old(lists.State()) && Book() == old(Book())
      ensures bestBid == BidAfterAdd(old(bestBid), order) && bestOffer == OfferAfterAdd(old(bestOffer), order)
      ensures Reports(update, old(Cached()), order.side, order.price, true)
      ensures update == NoChange ==> bestBid == old(bestBid) && bestOffer == old(bestOffer)
    {
      if order.side == Buy {
        if order.price > bestBid.price {
          bestBid := BestOrderInfo(order.price, order.quantity);
          return NewBestBid;
        } else if order.price == bestBid.price {
          bestBid := bestBid.(quantity := (bestBid.quantity + order.quantity) % TWO_TO_THE_32);
          return NewBestBid;
        }
      } else {
        if order.price < bestOffer.price {
          bestOffer := BestOrderInfo(order.price, order.quantity);
          return NewBestOffer;
        } else if order.price == bestOffer.price {
          bestOffer := bestOffer.(quantity := (bestOffer.quantity + order.quantity) % TWO_TO_THE_32);
          return NewBestOffer;
        }
      }
      return NoChange;
    }

    /** The front of a price set, with its level's total, is the side's best price. */
    lemma FrontIsRight(side: Side)
      requires ListsValid()
      ensures lists.State().On(side) <= lists.State().levels.Keys
      ensures Front(side, lists.State().On(side), lists.State().levels) == RightBest(side, Book().On(side))
    {
      var s := lists.State();
      lists.PricesHaveLevels();
      assert Book().On(side).Keys == s.On(side);
      if s.On(side) != {} {
        TotalOfLevel(s, lists.chains, side, Best(side, s.On(side)));
      }
    }

    /** What an emptied cache is refilled from: the front of the price set. */
    method Refill(side: Side) returns (info: BestOrderInfo)
      requires ListsValid()
      ensures info == RightBest(side, Book().On(side))
    {
      FrontIsRight(side);
      info := lists.FrontOf(side);
    }

    /** The cache after `order.quantity` was taken out of the level it was right for. */
    method FollowReduction(order: Order, ghost was: Store) returns (update: BookUpdate)
      requires ListsValid() && ReducedBy(was, lists.State(), order, order.quantity)
      requires was.bids + was.offers == was.levels.Keys && was.bids !! was.offers
      modifies this`bestBid, this`bestOffer
      ensures ListsValid() && lists.State() == old(lists.State()) && Book() == old(Book())
      ensures CacheOk(old(bestBid), old(bestOffer), was) ==> Valid()
      ensures TookOut(old(Cached()), Cached(), order.side, order.price, order.quantity, Book())
      ensures Reports(update, old(Cached()), order.side, order.price, false)
      ensures update == NoChange ==> bestBid == old(bestBid) && bestOffer == old(bestOffer)
    {
      FrontIsRight(order.side);
      if CacheOk(bestBid, bestOffer, was) {
        CacheAfterReduce(bestBid, bestOffer, was, lists.State(), order, order.quantity);
      }
      update := UpdateBestReduce(order);
    }

    /** `update_bbo_reduce` for an order whose quantity field holds what was taken out. */
    method UpdateBestReduce(order: Order) returns (update: BookUpdate)
      requires ListsValid()
      modifies this`bestBid, this`bestOffer
      ensures ListsValid() && lists.State() == old(lists.State()) && Book() == old(Book())
      ensures
        var front := RightBest(order.side, Book().On(order.side));
        && bestBid == BidAfterReduce(old(bestBid), order, order.quantity, front)
        && bestOffer == OfferAfterReduce(old(bestOffer), order, order.quantity, front)
      ensures Reports(update, old(Cached()), order.side, order.price, false)
      ensures update == NoChange ==> bestBid == old(bestBid) && bestOffer == old(bestOffer)
    {
      hide Consistent, Spelled, CacheOk, RightBest;
      var front := Refill(order.side);
      if order.side == Buy {
        if order.price == bestBid.price && order.quantity == bestBid.quantity {
          bestBid := front;
          return NewBestBid;
        } else if order.price == bestBid.price {
          bestBid := bestBid.(quantity := (bestBid.quantity - order.quantity) % TWO_TO_THE_32);
          return NewBestBid;
        }
      } else {
        if order.price == bestOffer.price && order.quantity == bestOffer.quantity {
          bestOffer := front;
          return NewBestOffer;
        } else if order.price == bestOffer.price {
          bestOffer := bestOffer.(quantity := (bestOffer.quantity - order.quantity) % TWO_TO_THE_32);
          return NewBestOffer;
        }
      }
      return NoChange;
    }

    /** The cache after the quantity of `order` became `n` in the level it was right for. */
    method FollowUpdate(order: Order, n: Quantity, ghost was: Store) returns (update: BookUpdate)
      requires ListsValid() && ResizedBy(was, lists.State(), order, n) && was.bids !! was.offers
      modifies this`bestBid, this`bestOffer
      ensures ListsValid() && lists.State() == old(lists.State()) && Book() == old(Book())
      ensures CacheOk(old(bestBid), old(bestOffer), was) ==> (CacheOk(bestBid, bestOffer, lists.State()) <==>
        UpdateKeepsBest(old(Cached()).On(order.side), order.price, order.quantity, n))
      ensures Requoted(old(Cached()), Cached(), order.side, order.price, order.quantity, n, Book())
      ensures Reports(update, old(Cached()), order.side, order.price, n < order.quantity)
      ensures update == NoChange ==> bestBid == old(bestBid) && bestOffer == old(bestOffer)
    {
      hide Consistent, Spelled, CacheOk, UpdateKeepsBest, ResizedBy, RightBest;
      FrontIsRight(order.side);
      if CacheOk(bestBid, bestOffer, was) {
        CacheAfterUpdate(bestBid, bestOffer, was, lists.State(), order, n);
      }
      var delta := order.(quantity := Gap(order.quantity, n));
      if n < order.quantity {
        update := UpdateBestAdd(delta);
      } else {
        update := UpdateBestReduce(delta);
      }
    }

    // ---- Events ----
    // Each needs only the lists in order, and keeps the cache right if it was.

    /** `add`: the order joins the back of its price's queue. */
    method Add(order: Order) returns (update: BookUpdate)
      requires ListsValid() && Addable(Book(), order) && RoomIn(Book())
      modifies this, lists.repr
      ensures ListsValid() && Book() == AddOrder(old(Book()), order) && (old(Valid()) ==> Valid())
      ensures bestBid == BidAfterAdd(old(bestBid), order) && bestOffer == OfferAfterAdd(old(bestOffer), order)
      ensures Reports(update, old(Cached()), order.side, order.price, true)
      ensures update == NoChange ==> bestBid == old(bestBid) && bestOffer == old(bestOffer)
    {
      ghost var s := lists.State();
      AddableIsPlaceable(s, lists.chains, order);
      lists.Room();
      lists.Add(order);
      if CacheOk(bestBid, bestOffer, s) {
        CacheAfterAdd(bestBid, bestOffer, s, lists.State(), order);
      }
      update := UpdateBestAdd(order);
    }

    /** `purge_order` and `cancel`: the order leaves the book. */
    method Cancel(id: OrderId) returns (update: BookUpdate)
      requires ListsValid() && Resting(Book(), id)
      modifies this, lists.repr
      ensures ListsValid() && Book() == CancelOrder(old(Book()), id) && (old(Valid()) ==> Valid())
      ensures forall side, price, x :: Holds(old(Book()), side, price, id, x) ==>
        TookOut(old(Cached()), Cached(), side, price, x, Book())
      ensures ReportsOf(update, old(Cached()), old(Book()), id, 0)
      ensures update == NoChange ==> bestBid == old(bestBid) && bestOffer == old(bestOffer)
    {
      ghost var s := lists.State();
      IdsAreResting(s, lists.chains, id);
      OneHolder(id);
      var order := lists.Purge(id);
      update := FollowReduction(order, s);
    }

    /** An id rests once, as the order its cell holds. */
    lemma OneHolder(id: OrderId)
      requires ListsValid() && id in lists.orderMap.contents
      ensures forall side, price, x :: Holds(Book(), side, price, id, x) ==> Order(id, price, x, side) == lists.OrderOf(id)
    {
      forall side, price, x | Holds(Book(), side, price, id, x) ensures Order(id, price, x, side) == lists.OrderOf(id) {
        HoldsCell(lists.State(), lists.chains, side, price, id, x);
      }
    }

    /** What the book knows of a resting order. */
    method Lookup(id: OrderId) returns (order: Order)
      requires ListsValid() && Resting(Book(), id)
      ensures order.id == id && Holds(Book(), order.side, order.price, id, order.quantity) && BookOk(Book())
      ensures forall side, price, x :: Holds(Book(), side, price, id, x) ==> Order(id, price, x, side) == order
    {
      AbsIsOk(lists.State(), lists.chains);
      IdsAreResting(lists.State(), lists.chains, id);
      OneHolder(id);
      order := lists.Read(id);
    }

    /** Partial order removal: the second half of `trade`. */
    method Reduce(order: Order, quantity: Quantity) returns (update: BookUpdate)
      requires ListsValid() && quantity < order.quantity
      requires Holds(Book(), order.side, order.price, order.id, order.quantity)
      modifies this, lists.repr
      ensures ListsValid() && Book() == AmendOrder(old(Book()), order.id, order.quantity - quantity)
      ensures old(Valid()) ==> Valid()
      ensures TookOut(old(Cached()), Cached(), order.side, order.price, quantity, Book())
      ensures Reports(update, old(Cached()), order.side, order.price, false)
      ensures update == NoChange ==> bestBid == old(bestBid) && bestOffer == old(bestOffer)
    {
      ghost var s := lists.State();
      HoldsCell(s, lists.chains, order.side, order.price, order.id, order.quantity);
      lists.Take(order, quantity);
      update := FollowReduction(order.(quantity := quantity), s);
    }

    /** `trade`: the order gives up quantity and keeps its place, or leaves when nothing remains. */
    method Trade(id: OrderId, quantity: Quantity) returns (update: BookUpdate)
      requires ListsValid() && Tradable(Book(), id, quantity)
      modifies this, lists.repr
      ensures ListsValid() && Book() == TradeOrder(old(Book()), id, quantity) && (old(Valid()) ==> Valid())
      ensures forall side, price, x :: Holds(old(Book()), side, price, id, x) ==>
        TookOut(old(Cached()), Cached(), side, price, quantity, Book())
      ensures ReportsOf(update, old(Cached()), old(Book()), id, 0)
      ensures update == NoChange ==> bestBid == old(bestBid) && bestOffer == old(bestOffer)
    {
      hide Consistent, Spelled, CacheOk, BookOk, Holds, Tradable, TradeOrder, AmendOrder, Resting, TookOut, Reports;
      TradableRests(Book(), id, quantity);
      var order := Lookup(id);
      TradedOrder(Book(), order, quantity);
      if order.quantity == quantity {
        update := Cancel(id);
      } else {
        update := Reduce(order, quantity);
      }
    }

    /** The second half of `update_quantity`: a new positive quantity. */
    method Requote(order: Order, quantity: Quantity) returns (update: BookUpdate)
      requires ListsValid() && Holds(Book(), order.side, order.price, order.id, order.quantity) && quantity > 0
      modifies this, lists.repr
      ensures ListsValid() && Book() == AmendOrder(old(Book()), order.id, quantity)
      ensures old(Valid()) ==> (CacheOk(bestBid, bestOffer, lists.State()) <==>
        UpdateKeepsBest(old(Cached()).On(order.side), order.price, order.quantity, quantity))
      ensures Requoted(old(Cached()), Cached(), order.side, order.price, order.quantity, quantity, Book())
      ensures Reports(update, old(Cached()), order.side, order.price, quantity < order.quantity)
      ensures update == NoChange ==> bestBid == old(bestBid) && bestOffer == old(bestOffer)
    {
      hide Consistent, Spelled, CacheOk, Holds, AmendOrder, UpdateKeepsBest, ResizedBy, Requoted, Reports;
      ghost var s := lists.State();
      HoldsCell(s, lists.chains, order.side, order.price, order.id, order.quantity);
      lists.SidesDisjoint();
      var was := lists.Resize(order.id, quantity);
      update := FollowUpdate(was, quantity, s);
    }

    /** `update_quantity`. The lists always follow; a right cache stays right exactly when
        UpdateKeepsBest says so. */
    method UpdateQuantity(id: OrderId, quantity: Quantity) returns (update: BookUpdate)
      requires ListsValid() && Resting(Book(), id)
      modifies this, lists.repr
      ensures ListsValid() && Book() == AmendOrder(old(Book()), id, quantity)
      ensures old(Valid()) ==> (Valid() <==> CanUpdate(old(Book()), old(bestBid), old(bestOffer), id, quantity))
      ensures forall side, price, x :: Holds(old(Book()), side, price, id, x) ==>
        if quantity == 0 then TookOut(old(Cached()), Cached(), side, price, x, Book())
        else Requoted(old(Cached()), Cached(), side, price, x, quantity, Book())
      ensures ReportsOf(update, old(Cached()), old(Book()), id, quantity)
      ensures update == NoChange ==> bestBid == old(bestBid) && bestOffer == old(bestOffer)
    {
      var order := Lookup(id);
      if quantity == 0 {
        update := Cancel(id);
      } else {
        update := Requote(order, quantity);
      }
    }

    /** `execute`. */
    method Execute(event: MarketEvent) returns (update: BookUpdate)
      requires ListsValid() && Executable(Book(), event) && (event.kind == EventKind.Add ==> RoomIn(Book()))
      modifies this, lists.repr
      ensures ListsValid() && Book() == Apply(old(Book()), event)
      ensures old(Valid()) && HarmlessTo(old(Book()), old(bestBid), old(bestOffer), event) ==> Valid()
      ensures ReportsEvent(update, old(Cached()), old(Book()), event)
      ensures update == NoChange ==> bestBid == old(bestBid) && bestOffer == old(bestOffer)
    {
      match event.kind
      case Add => update := Add(event.order);
      case Cancel => update := Cancel(event.order.id);
      case Trade => update := Trade(event.order.id, event.order.quantity);
      case Update => update := UpdateQuantity(event.order.id, event.order.quantity);
    }

    // ---- Lookups ----

    /** `best_opposing_order`: the head of the best queue a new order of `side` could trade with, or
        the invalid id exactly when no price but that side's sentinel rests there. */
    method BestOpposingOrder(side: Side) returns (order: Order)
      requires Valid()
      ensures order.side == Opposite(side)
      ensures
        var opposing := Book().On(Opposite(side));
        if opposing.Keys <= {NoPrice(Opposite(side))} then
          order.id == INVALID_ORDER_ID && order.quantity == 0 && order.price == NoPrice(Opposite(side))
        else
          && order.price == Best(Opposite(side), opposing.Keys)
          && opposing[order.price] != [] && opposing[order.price][0] == Entry(order.id, order.quantity)
    {
      ghost var opposing := Book().On(Opposite(side));
      assert opposing.Keys == lists.State().On(Opposite(side));
      EmptyReading(if side == Sell then bestBid else bestOffer, Opposite(side), opposing.Keys, lists.State().levels);
      if side == Sell && bestBid.price == NO_BID {
        return Order(INVALID_ORDER_ID, NO_BID, 0, Buy);
      }
      if side == Buy && bestOffer.price == NO_OFFER {
        return Order(INVALID_ORDER_ID, NO_OFFER, 0, Sell);
      }
      order := lists.Head(Opposite(side), if side == Sell then bestBid.price else bestOffer.price);
    }

    lemma CacheReads()
      requires Valid()
      ensures bestBid == RightBest(Buy, Book().bids) && bestOffer == RightBest(Sell, Book().offers)
    {
      hide Consistent, Spelled, RightBest;
      FrontIsRight(Buy);
      FrontIsRight(Sell);
    }

    /** `snapshot`. */
    method Snapshot() returns (bid: BestOrderInfo, offer: BestOrderInfo)
      requires Valid()
      ensures bid == RightBest(Buy, Book().bids) && offer == RightBest(Sell, Book().offers)
    {
      CacheReads();
      return bestBid, bestOffer;
    }

    /** `order_exists`. */
    method OrderExists(id: OrderId) returns (found: bool)
      requires ListsValid()
      ensures found == Resting(Book(), id)
    {
      found := lists.Exists(id);
    }
  }
}
