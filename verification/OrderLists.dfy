/** The lists of src/order-book/book-state.cpp: the order pool, the two hash maps and the two
    price sets of a BookState, updated in place and proved against the simple book. */
module OrderListing {
  import opened Machine
  import opened Orders
  import opened ClosedHashing
  import opened OrderPools
  import opened PriceTimePriority
  import opened BookStore
  import opened BookReading
  import opened BestPrices

  // includes/config.hpp: MAX_PRICE_LEVELS and MAX_CONCURRENT_ORDERS, and the doubled maps.
  const MAX_PRICE_LEVELS: nat := 0x2000
  const MAX_CONCURRENT_ORDERS: nat := 0x8000

  lemma CapacitiesArePowers()
    ensures IsPowerOfTwo(2 * MAX_PRICE_LEVELS) && IsPowerOfTwo(2 * MAX_CONCURRENT_ORDERS)
  {
    assert Pow2(4) == 16;
    assert Pow2(8) == 256 && Pow2(12) == 4096;
    assert Pow2(14) == 2 * MAX_PRICE_LEVELS;
    assert Pow2(16) == 2 * MAX_CONCURRENT_ORDERS;
  }

  lemma EmptyRefines(s: Store)
    requires s.live == {} && s.levels == map[] && s.ids == map[] && s.bids == {} && s.offers == {}
    ensures Consistent(s, map[]) && Spelled(s, map[]) && Abs(s, map[]) == EMPTY_BOOK
  {
  }

  /** The members of BookState other than the cached best prices. */
  class OrderLists {
    const orderPool: OrderPool
    const priceLevels: ClosedHashMap<Price, PriceLevel>
    const orderMap: ClosedHashMap<OrderId, Index>
    var bids: set<Price>
    var offers: set<Price>
    ghost var chains: Chains
    ghost const repr: set<object>

    /** The member objects and their arrays. */
    ghost function Owned(): set<object> {
      {orderPool, orderPool.orders, orderPool.freeStack,
       priceLevels, priceLevels.slots, priceLevels.occupied,
       orderMap, orderMap.slots, orderMap.occupied}
    }

    ghost predicate Whole() {
      repr == {this} + Owned()
    }

    /** The members are separate objects. */
    ghost predicate Separate() {
      && Whole()
      && orderPool as object != priceLevels && orderPool as object != orderMap && priceLevels as object != orderMap
      && orderPool.orders as object != orderPool.freeStack
      && priceLevels.slots as object != orderMap.slots
      && priceLevels.occupied != orderMap.occupied
    }

    ghost predicate Parts()
      reads Owned()
    {
      && Separate()
      && orderPool.Valid() && orderPool.capacity == MAX_CONCURRENT_ORDERS
      && priceLevels.Valid() && priceLevels.capacity == 2 * MAX_PRICE_LEVELS
      && orderMap.Valid() && orderMap.capacity == 2 * MAX_CONCURRENT_ORDERS
    }

    /** The structure as one value. */
    ghost function State(): Store
      requires Whole()
      reads this, repr
    {
      Store(orderPool.orders[..], orderPool.live, priceLevels.contents, orderMap.contents, bids, offers)
    }

    ghost predicate Valid()
      reads this, repr
    {
      Whole() && Parts() && Consistent(State(), chains) && Spelled(State(), chains)
    }

    /** The simple book. */
    ghost function Book(): Book
      requires Valid()
      reads this, repr
    {
      Abs(State(), chains)
    }

    static method NewMaps(hashPrice: Price -> nat, hashId: OrderId -> nat)
      returns (levels: ClosedHashMap<Price, PriceLevel>, ids: ClosedHashMap<OrderId, Index>)
      requires IsPowerOfTwo(2 * MAX_PRICE_LEVELS) && IsPowerOfTwo(2 * MAX_CONCURRENT_ORDERS)
      ensures fresh(levels) && fresh(levels.slots) && fresh(levels.occupied)
      ensures fresh(ids) && fresh(ids.slots) && fresh(ids.occupied)
      ensures levels.Valid() && levels.contents == map[] && levels.capacity == 2 * MAX_PRICE_LEVELS
      ensures ids.Valid() && ids.contents == map[] && ids.capacity == 2 * MAX_CONCURRENT_ORDERS
      ensures levels as object != ids && levels.slots as object != ids.slots && levels.occupied != ids.occupied
    {
      levels := new ClosedHashMap<Price, PriceLevel>(2 * MAX_PRICE_LEVELS, hashPrice, KeyValuePair(0, PriceLevel(0, 0, 0)));
      ids := new ClosedHashMap<OrderId, Index>(2 * MAX_CONCURRENT_ORDERS, hashId, KeyValuePair(0, 0));
    }

    constructor (hashPrice: Price -> nat, hashId: OrderId -> nat)
      ensures Valid() && bids == {} && offers == {} && fresh(repr)
    {
      CapacitiesArePowers();
      var pool := new OrderPool(MAX_CONCURRENT_ORDERS, RestingOrder(Order(0, 0, 0, Buy), NULL_INDEX, NULL_INDEX));
      var levels, ids := NewMaps(hashPrice, hashId);
      orderPool, priceLevels, orderMap := pool, levels, ids;
      bids, offers := {}, {};
      chains := map[];
      repr := {this, pool, pool.orders, pool.freeStack,
        levels, levels.slots, levels.occupied, ids, ids.slots, ids.occupied};
      new;
      assert orderPool.Valid();
      assert priceLevels.Valid();
      assert orderMap.Valid();
      assert Separate();
      EmptyRefines(State());
    }

    /** Room for one more order: a free cell and, for a new level, a slot. */
    ghost predicate HasRoom()
      requires Whole()
      reads this, repr
    {
      |orderMap.contents| < MAX_CONCURRENT_ORDERS && |priceLevels.contents| < 2 * MAX_PRICE_LEVELS
    }

    ghost predicate CanAdd(order: Order)
      reads this, repr
    {
      Valid() && HasRoom() && Placeable(State(), order)
    }

    /** A book with no prices on either side is the empty book. */
    lemma NoPricesNoOrders()
      requires Valid() && bids == {} && offers == {}
      ensures Book() == EMPTY_BOOK
    {
    }

    // ---- Steps of `add` ----

    /** Take a cell for the order and enter it in the id map. */
    method Register(order: Order) returns (x: Index)
      requires Parts() && orderPool.topIndex > 0
      requires order.id !in orderMap.contents && |orderMap.contents| < orderMap.capacity
      modifies orderPool, orderPool.orders, orderMap, orderMap.slots, orderMap.occupied
      ensures Parts()
      ensures x < MAX_CONCURRENT_ORDERS && x !in old(orderPool.live)
      ensures State() == Registered(old(State()), order, x)
    {
      x := orderPool.Allocate(RestingOrder(order, NULL_INDEX, NULL_INDEX));
      orderMap.Add(order.id, x);
    }

    /** Open the level of a registered order. */
    method OpenLevel(order: Order, x: Index)
      requires Parts() && order.price !in priceLevels.contents && |priceLevels.contents| < priceLevels.capacity
      modifies this`bids, this`offers, priceLevels, priceLevels.slots, priceLevels.occupied
      ensures Parts()
      ensures State() == NewLevel(old(State()), order, x)
    {
      priceLevels.Add(order.price, PriceLevel(x, x, order.quantity));
      AddBidOrOffer(order);
    }

    method AddBidOrOffer(order: Order)
      modifies this`bids, this`offers
      ensures bids == if order.side == Buy then old(bids) + {order.price} else old(bids)
      ensures offers == if order.side == Sell then old(offers) + {order.price} else old(offers)
    {
      if order.side == Buy {
        bids := bids + {order.price};
      } else {
        offers := offers + {order.price};
      }
    }

    /** Link a registered order behind the tail of its level, held in `slot`. */
    method QueueBehind(order: Order, x: Index, slot: nat)
      requires Parts() && order.price in priceLevels.contents && slot == priceLevels.slotOf[order.price]
      requires slot < priceLevels.capacity && priceLevels.occupied[slot] == Occupied
      requires priceLevels.slots[slot] == KeyValuePair(order.price, priceLevels.contents[order.price])
      requires x < MAX_CONCURRENT_ORDERS && priceLevels.contents[order.price].tail < MAX_CONCURRENT_ORDERS
      modifies orderPool.orders, priceLevels, priceLevels.slots
      ensures Parts()
      ensures State() == JoinedLevel(old(State()), order, x)
    {
      var level := priceLevels.ValueAt(slot);
      priceLevels.Assign(slot, level.(tail := x, total := level.total + order.quantity));
      orderPool.Join(level.tail, x);
    }

    /** The structural part of `add`: the state it leaves. */
    method Place(order: Order) returns (x: Index)
      requires Parts() && HasRoom() && order.id !in orderMap.contents && orderPool.topIndex > 0
      requires order.price in priceLevels.contents ==> priceLevels.contents[order.price].tail < MAX_CONCURRENT_ORDERS
      modifies this`bids, this`offers, Owned()
      ensures Parts() && x < MAX_CONCURRENT_ORDERS && x !in old(orderPool.live)
      ensures State() == Placed(old(State()), order, x)
    {
      x := Register(order);
      Enter(order, x);
    }

    /** Enter a registered order at its price. */
    method Enter(order: Order, x: Index)
      requires Parts() && |priceLevels.contents| < priceLevels.capacity && x < MAX_CONCURRENT_ORDERS
      requires order.price in priceLevels.contents ==> priceLevels.contents[order.price].tail < MAX_CONCURRENT_ORDERS
      modifies this`bids, this`offers, orderPool.orders, priceLevels, priceLevels.slots, priceLevels.occupied
      ensures Parts()
      ensures State() ==
        if order.price in old(priceLevels.contents) then JoinedLevel(old(State()), order, x)
        else NewLevel(old(State()), order, x)
    {
      var slot := priceLevels.Find(order.price);
      if slot.None? {
        OpenLevel(order, x);
      } else {
        QueueBehind(order, x, slot.value);
      }
    }

    /** Record the chains of the new state. */
    ghost method Relist(ch: Chains)
      requires Parts()
      modifies this`chains
      ensures Parts() && chains == ch && State() == old(State())
    {
      chains := ch;
    }

    /** `add` without the cached best prices. */
    method Add(order: Order)
      requires CanAdd(order)
      modifies repr
      ensures Valid() && Book() == AddOrder(old(Book()), order)
      ensures GrewBy(old(State()), State(), order)
    {
      ghost var s, ch := State(), chains;
      LiveFit(s, ch);
      TailInPool(s, ch, order.price);
      var x := Place(order);
      ghost var s' := State();
      Relist(PlacedChains(ch, order, x));
      PlaceRefines(s, s', ch, order, x);
    }

    // ---- Steps of `purge_order` ----

    method RemoveBidOrOffer(order: Order)
      modifies this`bids, this`offers
      ensures bids == if order.side == Buy then old(bids) - {order.price} else old(bids)
      ensures offers == if order.side == Sell then old(offers) - {order.price} else old(offers)
    {
      if order.side == Buy {
        bids := bids - {order.price};
      } else {
        offers := offers - {order.price};
      }
    }

    /** Erase the level of cell `x`. */
    method CloseLevel(x: Index)
      requires Parts() && x < MAX_CONCURRENT_ORDERS
      modifies this`bids, this`offers, priceLevels, priceLevels.occupied
      ensures Parts() && State() == WithoutLevel(old(State()), x)
    {
      var order := orderPool.orders[x].order;
      var _ := priceLevels.Remove(order.price);
      RemoveBidOrOffer(order);
    }

    /** `detach`: relink the neighbours of cell `x`, whose level is held in `slot`. */
    method Detach(x: Index, slot: nat)
      requires Parts() && x < MAX_CONCURRENT_ORDERS && Neighbourly(orderPool.orders[..], x)
      requires slot < priceLevels.capacity && priceLevels.occupied[slot] == Occupied
      requires var p := orderPool.orders[x].order.price;
        && p in priceLevels.contents && priceLevels.contents[p].total >= orderPool.orders[x].order.quantity
        && priceLevels.slots[slot] == KeyValuePair(p, priceLevels.contents[p])
      modifies orderPool.orders, priceLevels, priceLevels.slots
      ensures Parts() && State() == WithoutCell(old(State()), x)
    {
      var resting := orderPool.orders[x];
      var level := priceLevels.ValueAt(slot);
      var head := if resting.previous != NULL_INDEX then level.head else resting.next;
      var tail := if resting.next != NULL_INDEX then level.tail else resting.previous;
      priceLevels.Assign(slot, PriceLevel(head, tail, level.total - resting.order.quantity));
      orderPool.Bridge(resting.previous, resting.next);
    }

    /** Take cell `x` off its level, and the level off the book when its total falls to zero. */
    method LeaveLevel(x: Index)
      requires Parts() && x < MAX_CONCURRENT_ORDERS && Neighbourly(orderPool.orders[..], x)
      requires var p := orderPool.orders[x].order.price;
        p in priceLevels.contents && priceLevels.contents[p].total >= orderPool.orders[x].order.quantity
      modifies this`bids, this`offers, orderPool.orders, priceLevels, priceLevels.slots, priceLevels.occupied
      ensures Parts() && State() == Left(old(State()), x)
    {
      var order := orderPool.orders[x].order;
      var slot := priceLevels.Find(order.price);
      if priceLevels.ValueAt(slot.value).total - order.quantity == 0 {
        CloseLevel(x);
      } else {
        Detach(x, slot.value);
      }
    }

    /** Forget the id of cell `x` and give the cell back. */
    method Unregister(id: OrderId, x: Index)
      requires Parts() && x in orderPool.live
      modifies orderPool`live, orderPool`topIndex, orderPool.freeStack, orderMap, orderMap.occupied
      ensures Parts() && State() == Unregistered(old(State()), id, x)
    {
      var _ := orderMap.Remove(id);
      orderPool.Free(x);
    }

    /** The structural part of `purge_order`. */
    method Vacate(id: OrderId, x: Index)
      requires Parts() && x < MAX_CONCURRENT_ORDERS && x in orderPool.live && Neighbourly(orderPool.orders[..], x)
      requires var p := orderPool.orders[x].order.price;
        p in priceLevels.contents && priceLevels.contents[p].total >= orderPool.orders[x].order.quantity
      modifies this`bids, this`offers, Owned()
      ensures Parts() && State() == Unregistered(Left(old(State()), x), id, x)
    {
      LeaveLevel(x);
      Unregister(id, x);
    }

    /** The cell of a resting order. */
    method CellOf(id: OrderId) returns (x: Index)
      requires Valid() && id in orderMap.contents
      ensures x == orderMap.contents[id]
    {
      var slot := orderMap.Find(id);
      x := orderMap.ValueAt(slot.value);
    }

    /** `purge_order` without the cached best prices: the order leaves its queue. */
    method Purge(id: OrderId) returns (order: Order)
      requires Valid() && id in orderMap.contents
      modifies repr
      ensures Valid() && Book() == CancelOrder(old(Book()), id)
      ensures order == old(OrderOf(id)) && ReducedBy(old(State()), State(), order, order.quantity)
    {
      ghost var s, ch := State(), chains;
      ghost var ch' := PurgeRefines(s, ch, id);
      var x := CellOf(id);
      order := orderPool.orders[x].order;
      Vacate(id, x);
      ghost var s' := State();
      Relist(ch');
    }

    /** The order stored under a live id. */
    ghost function OrderOf(id: OrderId): Order
      requires Valid() && id in orderMap.contents
      reads this, repr
    {
      assert IdOk(State(), chains, id);
      orderPool.orders[orderMap.contents[id]].order
    }

    /** Counting on the simple book is counting on the structure. */
    lemma Room()
      requires Valid()
      ensures |RestingIds(Book())| == |orderMap.contents|
      ensures |Book().bids.Keys + Book().offers.Keys| == |priceLevels.contents|
    {
      IdsAreKeys(State(), chains);
      assert Book().bids.Keys + Book().offers.Keys == priceLevels.contents.Keys;
    }

    lemma SidesDisjoint()
      requires Valid()
      ensures State().bids !! State().offers
    {
    }

    lemma PricesHaveLevels()
      requires Valid()
      ensures State().bids <= State().levels.Keys && State().offers <= State().levels.Keys
    {
    }

    /** The front of one price set with its level's total, as the cached best price stores it. */
    method FrontOf(side: Side) returns (info: BestOrderInfo)
      requires Valid()
      ensures State().On(side) <= State().levels.Keys
      ensures info == Front(side, State().On(side), State().levels)
    {
      var prices := if side == Buy then bids else offers;
      assert prices == State().On(side);
      if prices == {} {
        return BestOrderInfo(NoPrice(side), 0);
      }
      var best := Best(side, prices);
      var slot := priceLevels.Find(best);
      return BestOrderInfo(best, priceLevels.ValueAt(slot.value).total % TWO_TO_THE_32);
    }

    /** The order in the cell of a live id. */
    method Read(id: OrderId) returns (order: Order)
      requires Valid() && id in orderMap.contents
      ensures order == OrderOf(id) && order.id == id
      ensures Holds(Book(), order.side, order.price, id, order.quantity)
    {
      var x := CellOf(id);
      CellHolds(State(), chains, id);
      order := orderPool.orders[x].order;
    }

    /** `order_exists`. */
    method Exists(id: OrderId) returns (found: bool)
      requires Valid()
      ensures found == Resting(Book(), id)
    {
      IdsAreResting(State(), chains, id);
      var slot := orderMap.Find(id);
      found := slot.Some?;
    }

    /** The order at the head of a live price's list. */
    method Head(side: Side, price: Price) returns (order: Order)
      requires Valid() && price in State().On(side)
      ensures order.price == price && order.side == side
      ensures price in Book().On(side) && Book().On(side)[price] != []
      ensures Book().On(side)[price][0] == Entry(order.id, order.quantity)
    {
      HeadOfLevel(State(), chains, side, price);
      var slot := priceLevels.Find(price);
      var head := priceLevels.ValueAt(slot.value).head;
      order := orderPool.orders[head].order;
    }

    // ---- Change of quantity ----

    /** Set the quantity of cell `x` and adjust its level's total. */
    method SetQuantity(x: Index, quantity: Quantity)
      requires Parts() && x < MAX_CONCURRENT_ORDERS
      requires var p := orderPool.orders[x].order.price;
        p in priceLevels.contents && priceLevels.contents[p].total >= orderPool.orders[x].order.quantity
      modifies orderPool.orders, priceLevels, priceLevels.slots
      ensures Parts() && State() == WithQuantity(old(State()), x, quantity)
    {
      var resting := orderPool.orders[x];
      var slot := priceLevels.Find(resting.order.price);
      var level := priceLevels.ValueAt(slot.value);
      priceLevels.Assign(slot.value, level.(total := level.total - resting.order.quantity + quantity));
      orderPool.orders[x] := resting.(order := resting.order.(quantity := quantity));
    }

    /** Give a resting order a new positive quantity; it keeps its place. */
    method Resize(id: OrderId, quantity: Quantity) returns (order: Order)
      requires Valid() && id in orderMap.contents && quantity > 0
      modifies repr
      ensures Valid() && Book() == AmendOrder(old(Book()), id, quantity)
      ensures order == old(OrderOf(id)) && ResizedBy(old(State()), State(), order, quantity)
    {
      ghost var s, ch := State(), chains;
      ResizeRefines(s, ch, id, quantity);
      var x := CellOf(id);
      order := orderPool.orders[x].order;
      SetQuantity(x, quantity);
      Relist(ch);
    }

    /** Take quantity out of a resting order that keeps some. */
    method Take(order: Order, quantity: Quantity)
      requires Valid() && order.id in orderMap.contents && order == OrderOf(order.id) && quantity < order.quantity
      modifies repr
      ensures Valid() && Book() == AmendOrder(old(Book()), order.id, order.quantity - quantity)
      ensures ReducedBy(old(State()), State(), order.(quantity := quantity), quantity)
    {
      hide Consistent, Spelled, AmendOrder, ResizedBy;
      ghost var s := State();
      var _ := Resize(order.id, order.quantity - quantity);
      ResizeReduces(s, State(), order, quantity);
    }
  }
}
