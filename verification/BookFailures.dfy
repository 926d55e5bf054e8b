/** Where src/order-book/book-state.cpp departs from the simple book: an order priced at its side's
    sentinel rests unseen, and an update can leave the cached best prices wrong for good. */
module BookFailures {
  import opened Machine
  import opened Orders
  import opened PriceTimePriority
  import opened Matching
  import opened ExchangeModel
  import opened BookStore
  import opened BestPrices
  import opened BookStates

  // ---- Sentinel prices ----

  lemma LoneOrder(o: Order)
    requires o.quantity > 0
    ensures
      var b := AddOrder(EMPTY_BOOK, o);
      && Addable(EMPTY_BOOK, o) && RoomIn(EMPTY_BOOK)
      && b.On(o.side) == map[o.price := [Entry(o.id, o.quantity)]] && b.On(Opposite(o.side)) == map[]
      && Ladder(o.side, b.On(o.side)) == [Quote(o.price, o.id, o.quantity)]
  {
    var b := AddOrder(EMPTY_BOOK, o);
    var m := b.On(o.side);
    assert RestingIds(EMPTY_BOOK) == {};
    assert [] + [Entry(o.id, o.quantity)] == [Entry(o.id, o.quantity)];
    assert m == map[o.price := [Entry(o.id, o.quantity)]];
    assert m.Keys == {o.price};
    assert m - {o.price} == map[];
    LadderUnfold(o.side, m, o.price);
  }

  lemma NothingRests(side: Side)
    ensures RightBest(side, map[]) == BestOrderInfo(NoPrice(side), 0)
  {
  }

  lemma LoneReading(o: Order)
    requires o.quantity > 0
    ensures RightBest(o.side, map[o.price := [Entry(o.id, o.quantity)]]) == BestOrderInfo(o.price, o.quantity)
  {
    var m: Queues := map[o.price := [Entry(o.id, o.quantity)]];
    var q := m[o.price];
    assert m.Keys == {o.price};
    assert Best(o.side, m.Keys) == o.price;
    assert q[1..] == [] && Total(q) == o.quantity;
  }

  /** A book of one order. */
  method BookOf(order: Order, hashPrice: Price -> nat, hashId: OrderId -> nat) returns (state: BookState)
    requires order.quantity > 0
    ensures state.Valid() && state.ListsValid() && state.Book() == AddOrder(EMPTY_BOOK, order)
    ensures state.Cached().On(order.side) == BestOrderInfo(order.price, order.quantity)
    ensures fresh(state) && fresh(state.lists.repr)
  {
    hide Consistent, Spelled, CacheOk, Addable, AddOrder, Ladder, RoomIn, SideQueues, RightBest;
    LoneOrder(order);
    LoneReading(order);
    state := new BookState(hashPrice, hashId);
    var _ := state.Add(order);
    state.CacheReads();
  }

  lemma LoneRests(o: Order)
    requires o.quantity > 0
    ensures
      var b := AddOrder(EMPTY_BOOK, o);
      Holds(b, o.side, o.price, o.id, o.quantity) && Resting(b, o.id) && Tradable(b, o.id, o.quantity)
  {
    LoneOrder(o);
    hide AddOrder, Ladder, RoomIn, Addable;
    assert Holds(AddOrder(EMPTY_BOOK, o), o.side, o.price, o.id, o.quantity);
  }

  lemma SentinelAnswered(o: Order)
    requires o.quantity > 0 && o.price == NoPrice(o.side)
    ensures
      var b := AddOrder(EMPTY_BOOK, o);
      && b.On(o.side).Keys <= {o.price}
      && Answer(b, Opposite(o.side), o.price, o.quantity).trades == [Quote(o.price, o.id, o.quantity)]
  {
    LoneOrder(o);
    var ladder := Ladder(o.side, AddOrder(EMPTY_BOOK, o).On(o.side));
    assert ladder[1..] == [];
    assert Match(Opposite(o.side), o.price, 0, []).trades == [];
  }

  /** An order alone at its side's sentinel price: the matcher trades a new order with it, and
      `best_opposing_order` finds nothing. */
  method SentinelUnseen(id: OrderId, side: Side, quantity: Quantity, hashPrice: Price -> nat, hashId: OrderId -> nat)
      returns (state: BookState, best: Order)
    requires id != INVALID_ORDER_ID && quantity > 0
    ensures state.Valid() && best.id == INVALID_ORDER_ID
    ensures Answer(state.Book(), Opposite(side), NoPrice(side), quantity).trades == [Quote(NoPrice(side), id, quantity)]
  {
    assert Opposite(Opposite(side)) == side;
    hide *;
    var order := Order(id, NoPrice(side), quantity, side);
    SentinelAnswered(order);
    state := BookOf(order, hashPrice, hashId);
    best := state.BestOpposingOrder(Opposite(side));
  }

  // ---- Updates ----

  lemma LoneAmended(o: Order, n: Quantity)
    requires o.quantity > 0 && n > 0
    ensures AmendOrder(AddOrder(EMPTY_BOOK, o), o.id, n) == AddOrder(EMPTY_BOOK, o.(quantity := n))
  {
    LoneOrder(o);
    LoneOrder(o.(quantity := n));
    var m := AddOrder(EMPTY_BOOK, o).On(o.side);
    var q := [Entry(o.id, o.quantity)];
    assert q[1..] == [];
    assert Amended(q, o.id, n) == [Entry(o.id, n)];
    assert AmendedAll(m, o.id, n).Keys == {o.price};
    hide Ladder, RoomIn, Addable;
  }

  lemma LoneTraded(o: Order)
    requires o.quantity > 0
    ensures TradeOrder(AddOrder(EMPTY_BOOK, o), o.id, o.quantity) == EMPTY_BOOK
  {
    LoneOrder(o);
    hide Ladder, RoomIn, Addable;
    var q := [Entry(o.id, o.quantity)];
    assert q[1..] == [];
    assert Reduced(q, o.id, o.quantity) == [];
  }

  lemma LoneKeepsBest(price: Price, was: Quantity, n: Quantity)
    ensures UpdateKeepsBest(BestOrderInfo(price, was), price, was, n)
      <==> (was - n) % TWO_TO_THE_31 == 0 || n == 2 * was
  {
    var gap := was - n;
    assert gap % TWO_TO_THE_31 == 0 <==> -gap % TWO_TO_THE_31 == 0;
  }

  lemma LoneUpdate(o: Order, n: Quantity, bid: BestOrderInfo, offer: BestOrderInfo)
    requires o.quantity > 0 && n > 0
    requires var b := AddOrder(EMPTY_BOOK, o); bid == RightBest(Buy, b.On(Buy)) && offer == RightBest(Sell, b.On(Sell))
    ensures Resting(AddOrder(EMPTY_BOOK, o), o.id)
    ensures CanUpdate(AddOrder(EMPTY_BOOK, o), bid, offer, o.id, n)
      <==> (o.quantity - n) % TWO_TO_THE_31 == 0 || n == 2 * o.quantity
  {
    hide AddOrder, RightBest, Ladder, UpdateKeepsBest, RoomIn, Addable;
    LoneOrder(o);
    var b := AddOrder(EMPTY_BOOK, o);
    var info := if o.side == Buy then bid else offer;
    LoneReading(o);
    assert Holds(b, o.side, o.price, o.id, o.quantity);
    LoneKeepsBest(o.price, o.quantity, n);
    forall side, price, x | Holds(b, side, price, o.id, x) ensures side == o.side && price == o.price && x == o.quantity {
    }
  }

  /** One order, and an update of its quantity: the cached best price survives exactly when the two
      quantities agree modulo 2^31 or the new one is twice the old one. */
  method SpoiledByUpdate(order: Order, quantity: Quantity, hashPrice: Price -> nat, hashId: OrderId -> nat)
      returns (state: BookState)
    requires order.quantity > 0 && quantity > 0
    ensures state.ListsValid() && state.Book().On(order.side) == map[order.price := [Entry(order.id, quantity)]]
    ensures state.Valid() <==> (order.quantity - quantity) % TWO_TO_THE_31 == 0 || quantity == 2 * order.quantity
  {
    hide AddOrder, AmendOrder, CanUpdate, Resting, CacheOk, Consistent, Spelled, RightBest, UpdatedBest;
    hide Ladder, RoomIn, Addable, SideQueues, AmendedAll;
    LoneAmended(order, quantity);
    LoneOrder(order.(quantity := quantity));
    state := BookOf(order, hashPrice, hashId);
    state.CacheReads();
    LoneUpdate(order, quantity, state.bestBid, state.bestOffer);
    var _ := state.UpdateQuantity(order.id, quantity);
  }

  /** The cached best price of an order's side after its update to `n` and a trade that takes all of
      it. */
  lemma PhantomReading(o: Order, n: Quantity, c: Cache, c1: Cache, c2: Cache)
    requires 0 < n < o.quantity && c.On(o.side) == BestOrderInfo(o.price, o.quantity)
    requires Requoted(c, c1, o.side, o.price, o.quantity, n, AddOrder(EMPTY_BOOK, o.(quantity := n)))
    requires TookOut(c1, c2, o.side, o.price, n, EMPTY_BOOK)
    ensures c2.On(o.side) ==
      if (o.quantity - n) % TWO_TO_THE_31 == 0 then BestOrderInfo(NoPrice(o.side), 0)
      else BestOrderInfo(o.price, 2 * (o.quantity - n) % TWO_TO_THE_32)
  {
    hide AddOrder, RightBest;
    NothingRests(o.side);
    var gap := o.quantity - n;
    assert (o.quantity + gap) % TWO_TO_THE_32 == n <==> gap % TWO_TO_THE_31 == 0;
    SubtractKeepsRemainder(o.quantity + gap, n);
  }

  /** One order, an update to a smaller quantity, and a trade that takes the rest: the book is empty,
      and the cached best price of its side still names the order's price, with a quantity that is not
      there, unless the two quantities agree modulo 2^31. */
  method PhantomBest(order: Order, n: Quantity, hashPrice: Price -> nat, hashId: OrderId -> nat)
      returns (state: BookState)
    requires 0 < n < order.quantity
    ensures state.ListsValid() && state.Book() == EMPTY_BOOK
    ensures state.Cached().On(order.side) ==
      if (order.quantity - n) % TWO_TO_THE_31 == 0 then BestOrderInfo(NoPrice(order.side), 0)
      else BestOrderInfo(order.price, 2 * (order.quantity - n) % TWO_TO_THE_32)
  {
    hide *;
    var left := order.(quantity := n);
    LoneRests(order);
    LoneRests(left);
    LoneAmended(order, n);
    LoneTraded(left);
    state := BookOf(order, hashPrice, hashId);
    ghost var c := state.Cached();
    var _ := state.UpdateQuantity(order.id, n);
    ghost var c1 := state.Cached();
    var _ := state.Trade(order.id, n);
    PhantomReading(order, n, c, c1, state.Cached());
  }
}
