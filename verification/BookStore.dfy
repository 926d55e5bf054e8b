/** The data structures of BookState as one value, the invariant that ties them together, and
    what each structural update of src/order-book/book-state.cpp does to the simple book. */
module BookStore {
  import opened Orders
  import opened OrderPools
  import opened PriceTimePriority
  import opened QueueLemmas

  datatype PriceLevel = PriceLevel(head: Index, tail: Index, total: nat)

  /** The order pool's cells, its live indices, the two hash maps and the two price sets. */
  datatype Store = Store(
    orders: seq<RestingOrder>,
    live: set<Index>,
    levels: map<Price, PriceLevel>,
    ids: map<OrderId, Index>,
    bids: set<Price>,
    offers: set<Price>)
  {
    function On(side: Side): set<Price> {
      if side == Buy then bids else offers
    }
  }

  type Chain = seq<Index>

  ghost predicate InPool(orders: seq<RestingOrder>, chain: Chain) {
    forall k :: 0 <= k < |chain| ==> chain[k] < |orders|
  }

  /** The FIFO queue a chain of pool indices spells out. */
  ghost function QueueOf(orders: seq<RestingOrder>, chain: Chain): (q: Queue)
    requires InPool(orders, chain)
    ensures |q| == |chain|
    ensures forall k :: 0 <= k < |q| ==> q[k] == Entry(orders[chain[k]].order.id, orders[chain[k]].order.quantity)
  {
    seq(|chain|, k requires 0 <= k < |chain| => Entry(orders[chain[k]].order.id, orders[chain[k]].order.quantity))
  }

  /** The k-th cell of the chain points at its neighbours. */
  ghost predicate LinksAt(orders: seq<RestingOrder>, chain: Chain, k: nat)
    requires InPool(orders, chain) && k < |chain|
  {
    && orders[chain[k]].previous == (if k == 0 then NULL_INDEX else chain[k - 1])
    && orders[chain[k]].next == (if k == |chain| - 1 then NULL_INDEX else chain[k + 1])
  }

  /** `level` heads a doubly linked list through `orders` that visits exactly `chain`. */
  ghost predicate Linked(orders: seq<RestingOrder>, chain: Chain, level: PriceLevel) {
    && |orders| <= NULL_INDEX
    && chain != [] && InPool(orders, chain)
    && (forall i, j :: 0 <= i < j < |chain| ==> chain[i] != chain[j])
    && level.head == chain[0] && level.tail == chain[|chain| - 1]
    && (forall k {:trigger LinksAt(orders, chain, k)} :: 0 <= k < |chain| ==> LinksAt(orders, chain, k))
  }

  // ---- One list ----

  /** Cell `x` has real cells, or none, on either side. */
  predicate Neighbourly(orders: seq<RestingOrder>, x: Index) {
    && x < |orders| <= NULL_INDEX
    && (orders[x].previous < |orders| || orders[x].previous == NULL_INDEX)
    && (orders[x].next < |orders| || orders[x].next == NULL_INDEX)
  }

  lemma LinkedIsNeighbourly(orders: seq<RestingOrder>, chain: Chain, level: PriceLevel, k: nat)
    requires Linked(orders, chain, level) && k < |chain|
    ensures Neighbourly(orders, chain[k])
  {
    assert LinksAt(orders, chain, k);
    assert k > 0 ==> chain[k - 1] < |orders|;
    assert k < |chain| - 1 ==> chain[k + 1] < |orders|;
  }

  /** The pool after `detach` relinks the neighbours of cell `x`. */
  function Unlinked(orders: seq<RestingOrder>, x: Index): seq<RestingOrder>
    requires Neighbourly(orders, x)
  {
    Bridged(orders, orders[x].previous, orders[x].next)
  }

  function DetachedLevel(orders: seq<RestingOrder>, x: Index, level: PriceLevel): PriceLevel
    requires x < |orders|
  {
    var head := if orders[x].previous != NULL_INDEX then level.head else orders[x].next;
    var tail := if orders[x].next != NULL_INDEX then level.tail else orders[x].previous;
    level.(head := head, tail := tail)
  }

  /** Cell by cell: `detach` changes one `next` and one `previous`, and no order. */
  lemma UnlinkedCells(orders: seq<RestingOrder>, x: Index)
    requires Neighbourly(orders, x)
    ensures
      var after, p, n := Unlinked(orders, x), orders[x].previous, orders[x].next;
      && |after| == |orders|
      && forall y: Index :: y < |orders| ==>
        && after[y].order == orders[y].order
        && after[y].next == (if y == p then n else orders[y].next)
        && after[y].previous == (if y == n then p else orders[y].previous)
  {
  }

  lemma DetachedLinks(orders: seq<RestingOrder>, chain: Chain, level: PriceLevel, k: nat, i: nat)
    requires Linked(orders, chain, level) && k < |chain| && i < |chain| - 1 && Neighbourly(orders, chain[k])
    requires |Unlinked(orders, chain[k])| == |orders|
    ensures InPool(Unlinked(orders, chain[k]), Removed(chain, k))
    ensures LinksAt(Unlinked(orders, chain[k]), Removed(chain, k), i)
  {
    UnlinkedCells(orders, chain[k]);
    var rest := Removed(chain, k);
    var j := if i < k then i else i + 1;
    assert LinksAt(orders, chain, k) && LinksAt(orders, chain, j);
    assert rest[i] == chain[j];
    assert i > 0 ==> rest[i - 1] == if i - 1 < k then chain[i - 1] else chain[i];
    assert i + 1 < |rest| ==> rest[i + 1] == if i + 1 < k then chain[i + 1] else chain[i + 2];
    assert k > 0 ==> (chain[j] == chain[k - 1] <==> j == k - 1);
    assert k < |chain| - 1 ==> (chain[j] == chain[k + 1] <==> j == k + 1);
  }

  lemma DetachedEnds(orders: seq<RestingOrder>, chain: Chain, level: PriceLevel, k: nat)
    requires Linked(orders, chain, level) && k < |chain| && |chain| > 1
    ensures
      var rest, level' := Removed(chain, k), DetachedLevel(orders, chain[k], level);
      && (forall i, j :: 0 <= i < j < |rest| ==> rest[i] != rest[j])
      && level'.head == rest[0] && level'.tail == rest[|rest| - 1]
  {
    assert LinksAt(orders, chain, k);
  }

  /** `detach` leaves the list of the remaining cells. */
  lemma DetachKeepsList(orders: seq<RestingOrder>, chain: Chain, level: PriceLevel, k: nat)
    requires Linked(orders, chain, level) && k < |chain| && |chain| > 1
    ensures Neighbourly(orders, chain[k])
    ensures Linked(Unlinked(orders, chain[k]), Removed(chain, k), DetachedLevel(orders, chain[k], level))
  {
    LinkedIsNeighbourly(orders, chain, level, k);
    UnlinkedCells(orders, chain[k]);
    DetachedEnds(orders, chain, level, k);
    forall i: nat | i < |chain| - 1
      ensures InPool(Unlinked(orders, chain[k]), Removed(chain, k))
      ensures LinksAt(Unlinked(orders, chain[k]), Removed(chain, k), i)
    {
      DetachedLinks(orders, chain, level, k, i);
    }
  }

  lemma QueueOfRemoved(orders: seq<RestingOrder>, chain: Chain, k: nat)
    requires InPool(orders, chain) && k < |chain|
    ensures InPool(orders, Removed(chain, k))
    ensures QueueOf(orders, Removed(chain, k)) == Removed(QueueOf(orders, chain), k)
  {
    var rest := Removed(chain, k);
    forall i | 0 <= i < |rest| ensures rest[i] == if i < k then chain[i] else chain[i + 1] {
    }
  }

  /** The cells after a fresh cell `x` was linked behind the tail of an existing list. */
  function LinkedBehind(orders: seq<RestingOrder>, o: Order, x: Index, tail: Index): seq<RestingOrder>
    requires x < |orders| && tail < |orders|
  {
    Joined(orders[x := RestingOrder(o, NULL_INDEX, NULL_INDEX)], tail, x)
  }

  /** Appending a fresh cell behind the tail. */
  lemma AppendKeepsList(orders: seq<RestingOrder>, chain: Chain, level: PriceLevel, x: Index, o: Order)
    requires Linked(orders, chain, level) && x < |orders| && x !in chain
    ensures
      var after := LinkedBehind(orders, o, x, level.tail);
      && Linked(after, chain + [x], level.(tail := x))
      && |after| == |orders|
      && after[x].order == o
      && (forall i :: 0 <= i < |orders| && i != x ==> after[i].order == orders[i].order)
      && (forall i :: 0 <= i < |orders| && i != x && i !in chain ==> after[i] == orders[i])
  {
    var after := LinkedBehind(orders, o, x, level.tail);
    var longer := chain + [x];
    forall k | 0 <= k < |longer| ensures LinksAt(after, longer, k) {
      if k < |chain| {
        assert longer[k] == chain[k] != x;
        assert LinksAt(orders, chain, k);
      }
    }
  }

  /** The concrete links leave no choice: one level has one chain. */
  lemma {:induction false} ChainUnique(orders: seq<RestingOrder>, a: Chain, b: Chain, level: PriceLevel, n: nat)
    requires Linked(orders, a, level) && Linked(orders, b, level)
    requires n <= |a|
    ensures n <= |b| && a[..n] == b[..n]
    ensures n == |a| ==> a == b
    decreases n
  {
    if n == 0 {
    } else {
      ChainUnique(orders, a, b, level, n - 1);
      if n > 1 {
        assert a[n - 2] == a[..n - 1][n - 2] == b[n - 2];
        assert LinksAt(orders, a, n - 2) && LinksAt(orders, b, n - 2);
        assert a[n - 1] < |orders|;
      }
      assert a[..n] == a[..n - 1] + [a[n - 1]];
      assert b[..n] == b[..n - 1] + [b[n - 1]];
      if n == |a| {
        assert LinksAt(orders, a, n - 1) && LinksAt(orders, b, n - 1);
        assert a == a[..n] && b == b[..n];
      }
    }
  }

  // ---- The whole structure ----

  type Chains = map<Price, Chain>

  /** Cell `x` rests on the level of price `p` and the id map knows it. */
  ghost predicate CellOk(s: Store, p: Price, x: Index) {
    && x < |s.orders|
    && var o := s.orders[x].order;
      o.price == p && p in s.On(o.side) && o.quantity > 0 && o.id in s.ids && s.ids[o.id] == x
  }

  ghost predicate LevelOk(s: Store, chain: Chain, level: PriceLevel, p: Price) {
    && Linked(s.orders, chain, level)
    && level.total == Total(QueueOf(s.orders, chain))
    && forall k {:trigger CellOk(s, p, chain[k])} :: 0 <= k < |chain| ==> CellOk(s, p, chain[k])
  }

  /** The id map sends `id` to a live cell that carries it and sits in its price's chain. */
  ghost predicate IdOk(s: Store, ch: Chains, id: OrderId)
    requires id in s.ids
  {
    var x := s.ids[id];
    && x in s.live && x < |s.orders|
    && s.orders[x].order.id == id
    && s.orders[x].order.price in ch && x in ch[s.orders[x].order.price]
  }

  ghost predicate LiveOk(s: Store, x: Index) {
    x < |s.orders| && s.orders[x].order.id in s.ids && s.ids[s.orders[x].order.id] == x
  }

  ghost predicate SidesOk(s: Store, ch: Chains) {
    && ch.Keys == s.levels.Keys == s.bids + s.offers
    && s.bids !! s.offers
  }

  ghost predicate LevelsOk(s: Store, ch: Chains)
    requires ch.Keys == s.levels.Keys
  {
    forall p {:trigger LevelOk(s, ch[p], s.levels[p], p)} :: p in ch ==> LevelOk(s, ch[p], s.levels[p], p)
  }

  ghost predicate IdsOk(s: Store, ch: Chains) {
    forall id {:trigger IdOk(s, ch, id)} :: id in s.ids ==> IdOk(s, ch, id)
  }

  ghost predicate LivesOk(s: Store) {
    forall x {:trigger LiveOk(s, x)} :: x in s.live ==> LiveOk(s, x)
  }

  ghost predicate Consistent(s: Store, ch: Chains) {
    SidesOk(s, ch) && LevelsOk(s, ch) && IdsOk(s, ch) && LivesOk(s)
  }

  ghost predicate AllInPool(orders: seq<RestingOrder>, prices: set<Price>, ch: Chains) {
    forall p :: p in prices ==> p in ch && InPool(orders, ch[p])
  }

  ghost function SideQueues(orders: seq<RestingOrder>, prices: set<Price>, ch: Chains): (m: Queues)
    requires AllInPool(orders, prices, ch)
    ensures m.Keys == prices
  {
    map p | p in prices :: if p in prices then QueueOf(orders, ch[p]) else []
  }

  /** Every price of either side has a chain of pool cells. */
  ghost predicate Spelled(s: Store, ch: Chains) {
    AllInPool(s.orders, s.bids, ch) && AllInPool(s.orders, s.offers, ch)
  }

  /** The simple book the structure stands for. */
  ghost function Abs(s: Store, ch: Chains): (b: Book)
    requires Spelled(s, ch)
    ensures forall side :: b.On(side) == SideQueues(s.orders, s.On(side), ch)
  {
    Book(SideQueues(s.orders, s.bids, ch), SideQueues(s.orders, s.offers, ch))
  }

  lemma ConsistentIsSpelled(s: Store, ch: Chains)
    requires SidesOk(s, ch) && LevelsOk(s, ch)
    ensures Spelled(s, ch)
  {
    forall p | p in ch ensures InPool(s.orders, ch[p]) {
      assert LevelOk(s, ch[p], s.levels[p], p);
    }
  }

  /** A level none of whose cells changed is still in order and spells the same queue. */
  lemma LevelFrame(s: Store, s': Store, chain: Chain, level: PriceLevel, p: Price)
    requires LevelOk(s, chain, level, p) && |s'.orders| == |s.orders|
    requires forall k :: 0 <= k < |chain| ==> s'.orders[chain[k]] == s.orders[chain[k]] && CellOk(s', p, chain[k])
    ensures LevelOk(s', chain, level, p)
    ensures QueueOf(s'.orders, chain) == QueueOf(s.orders, chain)
  {
    forall k | 0 <= k < |chain| ensures LinksAt(s'.orders, chain, k) {
      assert LinksAt(s.orders, chain, k);
    }
    assert QueueOf(s'.orders, chain) == QueueOf(s.orders, chain);
  }

  lemma LevelDistinct(s: Store, chain: Chain, level: PriceLevel, p: Price)
    requires LevelOk(s, chain, level, p)
    ensures QueueOk(QueueOf(s.orders, chain))
  {
    var q := QueueOf(s.orders, chain);
    forall i, j | 0 <= i < j < |q| ensures q[i].id != q[j].id {
      assert CellOk(s, p, chain[i]) && CellOk(s, p, chain[j]);
    }
    forall i | 0 <= i < |q| ensures q[i].quantity > 0 {
      assert CellOk(s, p, chain[i]);
    }
  }

  /** An order's id occurs in no other level's queue. */
  lemma Elsewhere(s: Store, ch: Chains, id: OrderId, p: Price)
    requires SidesOk(s, ch) && LevelsOk(s, ch) && p in ch && InPool(s.orders, ch[p])
    requires id in s.ids ==> s.ids[id] < |s.orders| && s.orders[s.ids[id]].order.price != p
    ensures forall i :: 0 <= i < |ch[p]| ==> QueueOf(s.orders, ch[p])[i].id != id
  {
    forall i | 0 <= i < |ch[p]| ensures QueueOf(s.orders, ch[p])[i].id != id {
      assert LevelOk(s, ch[p], s.levels[p], p);
      assert CellOk(s, p, ch[p][i]);
    }
  }

  /** Outside cell `x` the two pools hold the same orders (links may differ). */
  ghost predicate SameOrders(s: Store, s': Store, x: Index) {
    && |s'.orders| == |s.orders|
    && forall y :: 0 <= y < |s.orders| && y != x ==> s'.orders[y].order == s.orders[y].order
  }

  /** Different live cells carry different ids. */
  lemma {:induction false} CellsFit(s: Store, some: set<Index>) returns (ids: set<OrderId>)
    requires LivesOk(s) && some <= s.live
    ensures ids <= s.ids.Keys && |ids| == |some|
    ensures forall id :: id in ids ==> s.ids[id] in some
    ensures forall x :: x in some ==> x < |s.orders| && s.orders[x].order.id in ids
    decreases |some|
  {
    if some == {} {
      ids := {};
    } else {
      var x :| x in some;
      assert LiveOk(s, x);
      var id, others := s.orders[x].order.id, some - {x};
      var rest := CellsFit(s, others);
      assert id !in rest;
      ids := rest + {id};
      forall y | y in some ensures y < |s.orders| && s.orders[y].order.id in ids {
        assert y == x || y in others;
      }
    }
  }

  /** Live cells and ids are in one-to-one correspondence, so there are as many. */
  lemma LiveFit(s: Store, ch: Chains)
    requires IdsOk(s, ch) && LivesOk(s)
    ensures |s.live| == |s.ids|
  {
    var ids := CellsFit(s, s.live);
    forall id | id in s.ids ensures id in ids {
      assert IdOk(s, ch, id);
    }
    assert ids == s.ids.Keys;
  }

  // ---- Adding an order ----

  /** What a caller of `add` owes: a fresh id, a positive quantity and a price that holds no order
      of the other side. */
  ghost predicate Placeable(s: Store, o: Order) {
    && o.id !in s.ids && o.quantity > 0
    && o.price !in s.On(Opposite(o.side))
  }

  ghost predicate FreeCell(s: Store, x: Index) {
    x < |s.orders| <= NULL_INDEX && x !in s.live
  }

  /** `add`, first half: the order has a cell and an entry in the id map. */
  function Registered(s: Store, o: Order, x: Index): Store
    requires x < |s.orders|
  {
    s.(orders := s.orders[x := RestingOrder(o, NULL_INDEX, NULL_INDEX)], live := s.live + {x}, ids := s.ids[o.id := x])
  }

  /** `add`, second half at a price with no level. */
  function NewLevel(s: Store, o: Order, x: Index): Store {
    s.(levels := s.levels[o.price := PriceLevel(x, x, o.quantity)],
       bids := if o.side == Buy then s.bids + {o.price} else s.bids,
       offers := if o.side == Sell then s.offers + {o.price} else s.offers)
  }

  /** `add`, second half at a price with a level. */
  function JoinedLevel(s: Store, o: Order, x: Index): Store
    requires x < |s.orders| && o.price in s.levels && s.levels[o.price].tail < |s.orders|
  {
    var level := s.levels[o.price];
    s.(orders := Joined(s.orders, level.tail, x),
       levels := s.levels[o.price := level.(tail := x, total := level.total + o.quantity)])
  }

  function Opened(s: Store, o: Order, x: Index): Store
    requires x < |s.orders|
  {
    NewLevel(Registered(s, o, x), o, x)
  }

  function Queued(s: Store, o: Order, x: Index): Store
    requires x < |s.orders| && o.price in s.levels && s.levels[o.price].tail < |s.orders|
  {
    JoinedLevel(Registered(s, o, x), o, x)
  }

  ghost function PlacedChains(ch: Chains, o: Order, x: Index): Chains {
    ch[o.price := (if o.price in ch then ch[o.price] else []) + [x]]
  }

  /** A free cell is on no chain. */
  lemma FreeCellUnlinked(s: Store, ch: Chains, x: Index, p: Price)
    requires SidesOk(s, ch) && LevelsOk(s, ch) && IdsOk(s, ch) && x !in s.live && p in ch
    ensures x !in ch[p]
  {
    forall k | 0 <= k < |ch[p]| ensures ch[p][k] != x {
      assert LevelOk(s, ch[p], s.levels[p], p);
      assert CellOk(s, p, ch[p][k]);
      assert IdOk(s, ch, s.orders[ch[p][k]].order.id);
    }
  }

  /** The facts both ways of adding share. */
  ghost predicate Grown(s: Store, s': Store, o: Order, x: Index) {
    && SameOrders(s, s', x) && x < |s.orders| && s'.orders[x].order == o
    && s'.live == s.live + {x} && s'.ids == s.ids[o.id := x]
    && s'.levels.Keys == s.levels.Keys + {o.price}
    && s'.On(o.side) == s.On(o.side) + {o.price}
    && s'.On(Opposite(o.side)) == s.On(Opposite(o.side))
  }

  lemma GrownIds(s: Store, s': Store, ch: Chains, o: Order, x: Index)
    requires IdsOk(s, ch) && Grown(s, s', o, x) && o.id !in s.ids && x !in s.live
    ensures IdsOk(s', PlacedChains(ch, o, x))
  {
    var ch' := PlacedChains(ch, o, x);
    forall id | id in s'.ids ensures IdOk(s', ch', id) {
      if id == o.id {
        assert ch'[o.price][|ch'[o.price]| - 1] == x;
      } else {
        assert IdOk(s, ch, id);
        var y := s.ids[id];
        var p := s.orders[y].order.price;
        assert y != x && s'.orders[y].order == s.orders[y].order;
        assert y in ch[p] && y in ch'[p];
      }
    }
  }

  lemma GrownLives(s: Store, s': Store, o: Order, x: Index)
    requires LivesOk(s) && Grown(s, s', o, x) && o.id !in s.ids && x !in s.live
    ensures LivesOk(s')
  {
    forall y | y in s'.live ensures LiveOk(s', y) {
      if y != x {
        assert LiveOk(s, y);
        assert s'.orders[y].order == s.orders[y].order;
      }
    }
  }

  lemma GrownCell(s: Store, s': Store, o: Order, x: Index, p: Price, y: Index)
    requires CellOk(s, p, y) && Grown(s, s', o, x) && o.id !in s.ids && y != x
    ensures CellOk(s', p, y)
  {
    assert s'.orders[y].order == s.orders[y].order;
  }

  /** Every other level keeps its list and its queue. */
  lemma GrownLevel(s: Store, s': Store, o: Order, x: Index, chain: Chain, level: PriceLevel, p: Price)
    requires LevelOk(s, chain, level, p) && Grown(s, s', o, x) && o.id !in s.ids && x !in chain
    requires forall k :: 0 <= k < |chain| ==> s'.orders[chain[k]] == s.orders[chain[k]]
    ensures LevelOk(s', chain, level, p)
    ensures QueueOf(s'.orders, chain) == QueueOf(s.orders, chain)
  {
    forall k | 0 <= k < |chain|
      ensures s'.orders[chain[k]] == s.orders[chain[k]] && CellOk(s', p, chain[k])
    {
      GrownCell(s, s', o, x, p, chain[k]);
    }
    LevelFrame(s, s', chain, level, p);
  }

  /** The level an order was queued behind. */
  lemma QueuedLevel(s: Store, s': Store, o: Order, x: Index, chain: Chain, level: PriceLevel)
    requires LevelOk(s, chain, level, o.price) && Grown(s, s', o, x)
    requires o.id !in s.ids && o.quantity > 0 && x !in chain
    requires s'.orders == LinkedBehind(s.orders, o, x, level.tail)
    ensures LevelOk(s', chain + [x], level.(tail := x, total := level.total + o.quantity), o.price)
    ensures QueueOf(s'.orders, chain + [x]) == QueueOf(s.orders, chain) + [Entry(o.id, o.quantity)]
  {
    AppendKeepsList(s.orders, chain, level, x, o);
    var longer := chain + [x];
    var q, q' := QueueOf(s.orders, chain), QueueOf(s'.orders, longer);
    forall k | 0 <= k < |longer| ensures CellOk(s', o.price, longer[k]) {
      if k < |chain| {
        assert longer[k] == chain[k];
        GrownCell(s, s', o, x, o.price, chain[k]);
      }
    }
    assert q' == q + [Entry(o.id, o.quantity)];
    TotalAppend(q, [Entry(o.id, o.quantity)]);
  }

  lemma OpenedLevel(s: Store, o: Order, x: Index)
    requires x < |s.orders| <= NULL_INDEX && o.quantity > 0
    ensures LevelOk(Opened(s, o, x), [x], PriceLevel(x, x, o.quantity), o.price)
    ensures QueueOf(Opened(s, o, x).orders, [x]) == [Entry(o.id, o.quantity)]
  {
    var s' := Opened(s, o, x);
    assert LinksAt(s'.orders, [x], 0);
    assert QueueOf(s'.orders, [x]) == [Entry(o.id, o.quantity)];
  }

  /** A side whose queue at one price grew by one entry. */
  lemma SideGrew(orders: seq<RestingOrder>, orders': seq<RestingOrder>, prices: set<Price>, ch: Chains, ch': Chains,
      price: Price, e: Entry)
    requires AllInPool(orders, prices, ch) && AllInPool(orders', prices + {price}, ch')
    requires forall p :: p in prices && p != price ==> QueueOf(orders', ch'[p]) == QueueOf(orders, ch[p])
    requires QueueOf(orders', ch'[price]) == (if price in prices then QueueOf(orders, ch[price]) else []) + [e]
    ensures SideQueues(orders', prices + {price}, ch') == Enqueued(SideQueues(orders, prices, ch), price, e)
  {
  }

  lemma SideSame(orders: seq<RestingOrder>, orders': seq<RestingOrder>, prices: set<Price>, ch: Chains, ch': Chains)
    requires AllInPool(orders, prices, ch) && AllInPool(orders', prices, ch')
    requires forall p :: p in prices ==> QueueOf(orders', ch'[p]) == QueueOf(orders, ch[p])
    ensures SideQueues(orders', prices, ch') == SideQueues(orders, prices, ch)
  {
  }

  /** The queues of the other levels after an update at `price`. */
  ghost predicate OthersKept(s: Store, s': Store, ch: Chains, ch': Chains, price: Price)
    requires Spelled(s, ch) && Spelled(s', ch')
  {
    forall side, p :: p in s.On(side) && p != price ==>
      p in s'.On(side) && QueueOf(s'.orders, ch'[p]) == QueueOf(s.orders, ch[p])
  }

  lemma SameBook(b: Book, b': Book, side: Side)
    requires b.On(side) == b'.On(side) && b.On(Opposite(side)) == b'.On(Opposite(side))
    ensures b == b'
  {
  }

  /** Pieces of a grown structure put together. */
  lemma GrownRefines(s: Store, s': Store, ch: Chains, ch': Chains, o: Order)
    requires Spelled(s, ch) && Spelled(s', ch') && OthersKept(s, s', ch, ch', o.price)
    requires s'.On(o.side) == s.On(o.side) + {o.price}
    requires s'.On(Opposite(o.side)) == s.On(Opposite(o.side))
    requires o.price !in s.On(Opposite(o.side))
    requires QueueOf(s'.orders, ch'[o.price])
      == (if o.price in s.On(o.side) then QueueOf(s.orders, ch[o.price]) else []) + [Entry(o.id, o.quantity)]
    ensures Abs(s', ch') == AddOrder(Abs(s, ch), o)
  {
    SideGrew(s.orders, s'.orders, s.On(o.side), ch, ch', o.price, Entry(o.id, o.quantity));
    SideSame(s.orders, s'.orders, s.On(Opposite(o.side)), ch, ch');
    SameBook(Abs(s', ch'), AddOrder(Abs(s, ch), o), o.side);
  }

  lemma GrownSides(s: Store, s': Store, ch: Chains, o: Order, x: Index)
    requires SidesOk(s, ch) && Placeable(s, o) && Grown(s, s', o, x)
    ensures SidesOk(s', PlacedChains(ch, o, x))
  {
  }

  /** The levels an addition at a fresh price leaves. */
  lemma OpenLevels(s: Store, ch: Chains, o: Order, x: Index)
    requires Consistent(s, ch) && Placeable(s, o) && FreeCell(s, x) && o.price !in s.levels
    ensures PlacedChains(ch, o, x).Keys == Opened(s, o, x).levels.Keys
    ensures LevelsOk(Opened(s, o, x), PlacedChains(ch, o, x))
    ensures forall p :: p in ch ==>
      InPool(s.orders, ch[p]) && InPool(Opened(s, o, x).orders, ch[p])
      && QueueOf(Opened(s, o, x).orders, ch[p]) == QueueOf(s.orders, ch[p])
  {
    hide LevelOk, IdsOk, LivesOk, QueueOf, Linked;
    var s', ch' := Opened(s, o, x), PlacedChains(ch, o, x);
    forall p | p in ch'
      ensures LevelOk(s', ch'[p], s'.levels[p], p)
      ensures p in ch ==> InPool(s.orders, ch[p]) && QueueOf(s'.orders, ch[p]) == QueueOf(s.orders, ch[p])
    {
      if p == o.price {
        OpenedLevel(s, o, x);
        assert ch'[p] == [x];
      } else {
        OpenedOther(s, ch, o, x, p);
      }
    }
  }

  lemma OpenedOther(s: Store, ch: Chains, o: Order, x: Index, p: Price)
    requires Consistent(s, ch) && Placeable(s, o) && FreeCell(s, x) && o.price !in s.levels && p in ch
    ensures InPool(s.orders, ch[p]) && InPool(Opened(s, o, x).orders, ch[p])
    ensures p in Opened(s, o, x).levels && LevelOk(Opened(s, o, x), ch[p], Opened(s, o, x).levels[p], p)
    ensures QueueOf(Opened(s, o, x).orders, ch[p]) == QueueOf(s.orders, ch[p])
  {
    assert LevelOk(s, ch[p], s.levels[p], p);
    FreeCellUnlinked(s, ch, x, p);
    GrownLevel(s, Opened(s, o, x), o, x, ch[p], s.levels[p], p);
  }

  /** `add` at a price with no level: a queue of one. */
  lemma OpenRefines(s: Store, ch: Chains, o: Order, x: Index)
    requires Consistent(s, ch) && Placeable(s, o) && FreeCell(s, x) && o.price !in s.levels
    ensures Consistent(Opened(s, o, x), PlacedChains(ch, o, x))
    ensures Spelled(s, ch) && Spelled(Opened(s, o, x), PlacedChains(ch, o, x))
    ensures Abs(Opened(s, o, x), PlacedChains(ch, o, x)) == AddOrder(Abs(s, ch), o)
  {
    var s', ch' := Opened(s, o, x), PlacedChains(ch, o, x);
    OpenLevels(s, ch, o, x);
    GrownSides(s, s', ch, o, x);
    GrownIds(s, s', ch, o, x);
    GrownLives(s, s', o, x);
    OpenedLevel(s, o, x);
    ConsistentIsSpelled(s, ch);
    ConsistentIsSpelled(s', ch');
    GrownRefines(s, s', ch, ch', o);
  }

  /** Cells of different levels are different. */
  lemma LevelsDisjoint(s: Store, chain: Chain, level: PriceLevel, p: Price, chain': Chain, level': PriceLevel, p': Price)
    requires LevelOk(s, chain, level, p) && LevelOk(s, chain', level', p') && p != p'
    ensures forall k :: 0 <= k < |chain| ==> chain[k] !in chain'
  {
    forall k, j | 0 <= k < |chain| && 0 <= j < |chain'| ensures chain[k] != chain'[j] {
      assert CellOk(s, p, chain[k]) && CellOk(s, p', chain'[j]);
    }
  }

  /** A level other than the one an order was queued behind. */
  lemma QueuedElsewhere(s: Store, s': Store, o: Order, x: Index, home: Chain, homeLevel: PriceLevel,
      chain: Chain, level: PriceLevel, p: Price)
    requires LevelOk(s, home, homeLevel, o.price) && LevelOk(s, chain, level, p) && p != o.price
    requires Grown(s, s', o, x) && o.id !in s.ids && x !in home && x !in chain
    requires s'.orders == LinkedBehind(s.orders, o, x, homeLevel.tail)
    ensures LevelOk(s', chain, level, p)
    ensures QueueOf(s'.orders, chain) == QueueOf(s.orders, chain)
  {
    AppendKeepsList(s.orders, home, homeLevel, x, o);
    LevelsDisjoint(s, chain, level, p, home, homeLevel, o.price);
    GrownLevel(s, s', o, x, chain, level, p);
  }

  lemma QueueLevelHome(s: Store, ch: Chains, o: Order, x: Index)
    requires Consistent(s, ch) && Placeable(s, o) && FreeCell(s, x) && o.price in s.levels
    ensures s.levels[o.price].tail < |s.orders|
    ensures Grown(s, Queued(s, o, x), o, x)
    ensures LevelOk(s, ch[o.price], s.levels[o.price], o.price) && x !in ch[o.price]
    ensures
      var s', longer := Queued(s, o, x), ch[o.price] + [x];
      && LevelOk(s', longer, s'.levels[o.price], o.price)
      && QueueOf(s'.orders, longer) == QueueOf(s.orders, ch[o.price]) + [Entry(o.id, o.quantity)]
  {
    var home, level := ch[o.price], s.levels[o.price];
    assert LevelOk(s, home, level, o.price);
    FreeCellUnlinked(s, ch, x, o.price);
    AppendKeepsList(s.orders, home, level, x, o);
    QueuedLevel(s, Queued(s, o, x), o, x, home, level);
  }

  lemma QueueLevelOther(s: Store, ch: Chains, o: Order, x: Index, p: Price)
    requires Consistent(s, ch) && Placeable(s, o) && FreeCell(s, x) && o.price in s.levels && p in ch && p != o.price
    ensures s.levels[o.price].tail < |s.orders|
    ensures LevelOk(s, ch[p], s.levels[p], p)
    ensures
      var s' := Queued(s, o, x);
      && LevelOk(s', ch[p], s'.levels[p], p)
      && QueueOf(s'.orders, ch[p]) == QueueOf(s.orders, ch[p])
  {
    QueueLevelHome(s, ch, o, x);
    FreeCellUnlinked(s, ch, x, p);
    assert LevelOk(s, ch[p], s.levels[p], p);
    QueuedElsewhere(s, Queued(s, o, x), o, x, ch[o.price], s.levels[o.price], ch[p], s.levels[p], p);
  }

  /** The levels an addition behind an existing one leaves. */
  lemma QueueLevels(s: Store, s': Store, ch: Chains, ch': Chains, o: Order, x: Index)
    requires Consistent(s, ch) && Placeable(s, o) && FreeCell(s, x) && o.price in s.levels
    requires s.levels[o.price].tail < |s.orders| && s' == Queued(s, o, x) && ch' == PlacedChains(ch, o, x)
    ensures LevelsOk(s', ch')
  {
    forall p | p in ch' ensures LevelOk(s', ch'[p], s'.levels[p], p) {
      if p == o.price {
        QueueLevelHome(s, ch, o, x);
      } else {
        QueueLevelOther(s, ch, o, x, p);
      }
    }
  }

  lemma QueueOthersKept(s: Store, s': Store, ch: Chains, ch': Chains, o: Order, x: Index)
    requires Consistent(s, ch) && Placeable(s, o) && FreeCell(s, x) && o.price in s.levels
    requires s.levels[o.price].tail < |s.orders| && s' == Queued(s, o, x) && ch' == PlacedChains(ch, o, x)
    requires Spelled(s, ch) && Spelled(s', ch')
    ensures OthersKept(s, s', ch, ch', o.price)
  {
    forall side, p | p in s.On(side) && p != o.price
      ensures p in s'.On(side) && QueueOf(s'.orders, ch'[p]) == QueueOf(s.orders, ch[p])
    {
      QueueLevelOther(s, ch, o, x, p);
    }
  }

  /** `add` at a price with a level: the order joins the back of its queue. */
  lemma QueueRefines(s: Store, ch: Chains, o: Order, x: Index)
    requires Consistent(s, ch) && Placeable(s, o) && FreeCell(s, x) && o.price in s.levels
    ensures s.levels[o.price].tail < |s.orders|
    ensures Consistent(Queued(s, o, x), PlacedChains(ch, o, x))
    ensures Spelled(s, ch) && Spelled(Queued(s, o, x), PlacedChains(ch, o, x))
    ensures Abs(Queued(s, o, x), PlacedChains(ch, o, x)) == AddOrder(Abs(s, ch), o)
  {
    QueueLevelHome(s, ch, o, x);
    var s', ch' := Queued(s, o, x), PlacedChains(ch, o, x);
    QueueLevels(s, s', ch, ch', o, x);
    GrownSides(s, s', ch, o, x);
    GrownIds(s, s', ch, o, x);
    GrownLives(s, s', o, x);
    ConsistentIsSpelled(s, ch);
    ConsistentIsSpelled(s', ch');
    QueueOthersKept(s, s', ch, ch', o, x);
    GrownRefines(s, s', ch, ch', o);
  }

  /** The structure after `add` placed order `o` in cell `x`. */
  function Placed(s: Store, o: Order, x: Index): Store
    requires x < |s.orders| && (o.price in s.levels ==> s.levels[o.price].tail < |s.orders|)
  {
    if o.price in s.levels then Queued(s, o, x) else Opened(s, o, x)
  }

  /** Level totals after `quantity` was added at `price`. */
  ghost predicate TotalGrew(levels: map<Price, PriceLevel>, levels': map<Price, PriceLevel>, price: Price, quantity: Quantity) {
    && price in levels'
    && levels'[price].total == (if price in levels then levels[price].total else 0) + quantity
    && forall p :: p in levels && p != price ==> p in levels' && levels'[p].total == levels[p].total
  }

  /** What an addition does to prices, totals and ids. */
  ghost predicate GrewBy(s: Store, s': Store, o: Order) {
    && TotalGrew(s.levels, s'.levels, o.price, o.quantity)
    && s'.bids == (if o.side == Buy then s.bids + {o.price} else s.bids)
    && s'.offers == (if o.side == Sell then s.offers + {o.price} else s.offers)
    && s'.ids.Keys == s.ids.Keys + {o.id}
  }

  /** The tail of an existing level is a cell of the pool. */
  lemma TailInPool(s: Store, ch: Chains, p: Price)
    requires SidesOk(s, ch) && LevelsOk(s, ch)
    ensures p in s.levels ==> s.levels[p].tail < |s.orders|
  {
    if p in s.levels {
      assert LevelOk(s, ch[p], s.levels[p], p);
      assert ch[p][|ch[p]| - 1] < |s.orders|;
    }
  }

  lemma PlacedGrew(s: Store, ch: Chains, o: Order, x: Index)
    requires SidesOk(s, ch) && Placeable(s, o) && x < |s.orders| && (o.price in s.levels ==> s.levels[o.price].tail < |s.orders|)
    ensures GrewBy(s, Placed(s, o, x), o)
  {
  }

  /** `add` refines the addition to the simple book. */
  lemma PlaceRefines(s: Store, s': Store, ch: Chains, o: Order, x: Index)
    requires Consistent(s, ch) && Placeable(s, o) && FreeCell(s, x)
    requires o.price in s.levels ==> s.levels[o.price].tail < |s.orders|
    requires s' == Placed(s, o, x)
    ensures Consistent(s', PlacedChains(ch, o, x))
    ensures Spelled(s, ch) && Spelled(s', PlacedChains(ch, o, x))
    ensures Abs(s', PlacedChains(ch, o, x)) == AddOrder(Abs(s, ch), o)
    ensures GrewBy(s, s', o)
  {
    PlacedGrew(s, ch, o, x);
    hide Consistent, Spelled, AddOrder, PlacedChains, GrewBy;
    if o.price in s.levels {
      QueueRefines(s, ch, o, x);
    } else {
      OpenRefines(s, ch, o, x);
    }
  }

  // ---- Changing or removing one order ----

  /** Where order `id` sits. */
  lemma Locate(s: Store, ch: Chains, id: OrderId) returns (k: nat)
    requires Consistent(s, ch) && id in s.ids
    ensures s.ids[id] < |s.orders| && s.ids[id] in s.live
    ensures
      var x := s.ids[id];
      var o := s.orders[x].order;
      && o.id == id && o.price in ch
      && k < |ch[o.price]| && ch[o.price][k] == x
      && LevelOk(s, ch[o.price], s.levels[o.price], o.price)
      && CellOk(s, o.price, x)
  {
    assert IdOk(s, ch, id);
    var x := s.ids[id];
    var p := s.orders[x].order.price;
    k :| 0 <= k < |ch[p]| && ch[p][k] == x;
    assert LevelOk(s, ch[p], s.levels[p], p);
    assert CellOk(s, p, ch[p][k]);
  }

  /** The queue at price `p` after the amendment, or no queue when it is empty. */
  ghost predicate AmendedAt(s: Store, s': Store, ch: Chains, ch': Chains, id: OrderId, n: Quantity, side: Side, p: Price)
    requires Spelled(s, ch) && Spelled(s', ch') && p in s.On(side)
  {
    var q := Amended(QueueOf(s.orders, ch[p]), id, n);
    && (p in s'.On(side) <==> q != [])
    && (q != [] ==> QueueOf(s'.orders, ch'[p]) == q)
  }

  lemma SideAmended(s: Store, s': Store, ch: Chains, ch': Chains, id: OrderId, n: Quantity, side: Side)
    requires Spelled(s, ch) && Spelled(s', ch') && s'.On(side) <= s.On(side)
    requires forall p :: p in s.On(side) ==> AmendedAt(s, s', ch, ch', id, n, side, p)
    ensures SideQueues(s'.orders, s'.On(side), ch') == AmendedAll(SideQueues(s.orders, s.On(side), ch), id, n)
  {
    var m, m' := SideQueues(s.orders, s.On(side), ch), SideQueues(s'.orders, s'.On(side), ch');
    forall p | p in m
      ensures p in m' <==> Amended(m[p], id, n) != []
      ensures p in m' ==> m'[p] == Amended(m[p], id, n)
    {
      assert AmendedAt(s, s', ch, ch', id, n, side, p);
    }
  }

  lemma AmendRefines(s: Store, s': Store, ch: Chains, ch': Chains, id: OrderId, n: Quantity)
    requires Spelled(s, ch) && Spelled(s', ch') && s'.bids <= s.bids && s'.offers <= s.offers
    requires forall side, p :: p in s.On(side) ==> AmendedAt(s, s', ch, ch', id, n, side, p)
    ensures Abs(s', ch') == AmendOrder(Abs(s, ch), id, n)
  {
    SideAmended(s, s', ch, ch', id, n, Buy);
    SideAmended(s, s', ch, ch', id, n, Sell);
  }

  /** A level whose cells were left alone is amended to itself. */
  lemma UntouchedAmended(s: Store, s': Store, ch: Chains, ch': Chains, id: OrderId, n: Quantity, side: Side, p: Price)
    requires SidesOk(s, ch) && LevelsOk(s, ch) && Spelled(s, ch) && Spelled(s', ch')
    requires p in s.On(side) && p in s'.On(side) && ch'[p] == ch[p]
    requires QueueOf(s'.orders, ch[p]) == QueueOf(s.orders, ch[p])
    requires id in s.ids ==> s.ids[id] < |s.orders| && s.orders[s.ids[id]].order.price != p
    ensures AmendedAt(s, s', ch, ch', id, n, side, p)
  {
    assert LevelOk(s, ch[p], s.levels[p], p);
    Elsewhere(s, ch, id, p);
    AmendAbsent(QueueOf(s.orders, ch[p]), id, n);
  }

  // -- Removal --

  /** What every removal of order `id` from cell `x` does to ids, live cells and order data. */
  ghost predicate Shrunk(s: Store, s': Store, id: OrderId, x: Index) {
    && |s'.orders| == |s.orders|
    && (forall y :: 0 <= y < |s.orders| ==> s'.orders[y].order == s.orders[y].order)
    && id in s.ids && s.ids[id] == x && x < |s.orders| && s.orders[x].order.id == id
    && s'.live == s.live - {x} && s'.ids == s.ids - {id}
  }

  lemma ShrunkLives(s: Store, s': Store, id: OrderId, x: Index)
    requires LivesOk(s) && Shrunk(s, s', id, x)
    ensures LivesOk(s')
  {
    forall y | y in s'.live ensures LiveOk(s', y) {
      assert LiveOk(s, y);
      assert s'.orders[y].order == s.orders[y].order;
    }
  }

  lemma ShrunkIds(s: Store, s': Store, ch: Chains, ch': Chains, id: OrderId, x: Index)
    requires IdsOk(s, ch) && Shrunk(s, s', id, x)
    requires forall p, y :: p in ch && y in ch[p] && y != x ==> p in ch' && y in ch'[p]
    ensures IdsOk(s', ch')
  {
    forall i | i in s'.ids ensures IdOk(s', ch', i) {
      assert IdOk(s, ch, i);
      var y := s.ids[i];
      assert s'.orders[y].order == s.orders[y].order;
    }
  }

  lemma ShrunkCell(s: Store, s': Store, id: OrderId, x: Index, p: Price, y: Index)
    requires CellOk(s, p, y) && Shrunk(s, s', id, x) && y != x
    requires p in s'.On(s.orders[y].order.side)
    ensures CellOk(s', p, y)
  {
    assert s'.orders[y].order == s.orders[y].order;
  }

  lemma ShrunkLevel(s: Store, s': Store, id: OrderId, x: Index, chain: Chain, level: PriceLevel, p: Price)
    requires LevelOk(s, chain, level, p) && Shrunk(s, s', id, x) && x !in chain
    requires forall side :: p in s.On(side) ==> p in s'.On(side)
    requires forall k :: 0 <= k < |chain| ==> s'.orders[chain[k]] == s.orders[chain[k]]
    ensures LevelOk(s', chain, level, p)
    ensures QueueOf(s'.orders, chain) == QueueOf(s.orders, chain)
  {
    forall k | 0 <= k < |chain|
      ensures s'.orders[chain[k]] == s.orders[chain[k]] && CellOk(s', p, chain[k])
    {
      assert CellOk(s, p, chain[k]);
      ShrunkCell(s, s', id, x, p, chain[k]);
    }
    LevelFrame(s, s', chain, level, p);
  }

  /** `purge_order`, level half: the level of cell `x` is erased. */
  function WithoutLevel(s: Store, x: Index): Store
    requires x < |s.orders|
  {
    var o := s.orders[x].order;
    s.(levels := s.levels - {o.price},
       bids := if o.side == Buy then s.bids - {o.price} else s.bids,
       offers := if o.side == Sell then s.offers - {o.price} else s.offers)
  }

  /** `purge_order`, level half: cell `x` is unlinked from a level that stays. */
  function WithoutCell(s: Store, x: Index): Store
    requires Neighbourly(s.orders, x) && s.orders[x].order.price in s.levels
    requires s.levels[s.orders[x].order.price].total >= s.orders[x].order.quantity
  {
    var o := s.orders[x].order;
    var level := s.levels[o.price];
    s.(orders := Unlinked(s.orders, x),
       levels := s.levels[o.price := DetachedLevel(s.orders, x, level.(total := level.total - o.quantity))])
  }

  /** The level half: which of the two depends on what is left of the level's total. */
  function Left(s: Store, x: Index): Store
    requires Neighbourly(s.orders, x) && s.orders[x].order.price in s.levels
    requires s.levels[s.orders[x].order.price].total >= s.orders[x].order.quantity
  {
    if s.levels[s.orders[x].order.price].total == s.orders[x].order.quantity then WithoutLevel(s, x) else WithoutCell(s, x)
  }

  /** `purge_order`, index half: the id is forgotten and the cell given back. */
  function Unregistered(s: Store, id: OrderId, x: Index): Store {
    s.(live := s.live - {x}, ids := s.ids - {id})
  }

  /** The structure after the last order of a level left and the level with it. */
  function Closed(s: Store, id: OrderId): Store
    requires id in s.ids && s.ids[id] < |s.orders|
  {
    Unregistered(WithoutLevel(s, s.ids[id]), id, s.ids[id])
  }

  /** The structure after one of several orders of a level was unlinked. */
  function Detached(s: Store, id: OrderId): Store
    requires id in s.ids && s.ids[id] < |s.orders| && Neighbourly(s.orders, s.ids[id])
    requires s.orders[s.ids[id]].order.price in s.levels
    requires s.levels[s.orders[s.ids[id]].order.price].total >= s.orders[s.ids[id]].order.quantity
  {
    Unregistered(WithoutCell(s, s.ids[id]), id, s.ids[id])
  }

  lemma ClosedOther(s: Store, s': Store, ch: Chains, id: OrderId, p: Price)
    requires Consistent(s, ch) && id in s.ids && s.ids[id] < |s.orders| && s' == Closed(s, id)
    requires Shrunk(s, s', id, s.ids[id])
    requires p in ch && p != s.orders[s.ids[id]].order.price
    ensures LevelOk(s', ch[p], s'.levels[p], p) && LevelOk(s, ch[p], s.levels[p], p)
    ensures QueueOf(s'.orders, ch[p]) == QueueOf(s.orders, ch[p])
  {
    assert LevelOk(s, ch[p], s.levels[p], p);
    forall k | 0 <= k < |ch[p]| ensures ch[p][k] != s.ids[id] {
      assert CellOk(s, p, ch[p][k]);
    }
    ShrunkLevel(s, s', id, s.ids[id], ch[p], s.levels[p], p);
  }

  lemma ClosedLevels(s: Store, s': Store, ch: Chains, id: OrderId, p: Price)
    requires Consistent(s, ch) && id in s.ids && s.ids[id] < |s.orders| && s' == Closed(s, id)
    requires Shrunk(s, s', id, s.ids[id])
    requires s.orders[s.ids[id]].order.price == p && (ch - {p}).Keys == s'.levels.Keys
    ensures LevelsOk(s', ch - {p})
  {
    forall q | q in ch - {p} ensures LevelOk(s', (ch - {p})[q], s'.levels[q], q) {
      ClosedOther(s, s', ch, id, q);
    }
  }

  lemma ClosedAmended(s: Store, s': Store, ch: Chains, ch': Chains, id: OrderId, side: Side, p: Price)
    requires Consistent(s, ch) && id in s.ids && s.ids[id] < |s.orders| && s' == Closed(s, id)
    requires Shrunk(s, s', id, s.ids[id])
    requires
      var o := s.orders[s.ids[id]].order;
      o.price in ch && ch[o.price] == [s.ids[id]] && CellOk(s, o.price, s.ids[id]) && ch' == ch - {o.price}
    requires Spelled(s, ch) && Spelled(s', ch') && p in s.On(side)
    ensures AmendedAt(s, s', ch, ch', id, 0, side, p)
  {
    var o := s.orders[s.ids[id]].order;
    if p == o.price {
      var q := QueueOf(s.orders, ch[p]);
      AmendAt(q, 0, 0);
      assert Removed(q, 0) == [];
    } else {
      ClosedOther(s, s', ch, id, p);
      UntouchedAmended(s, s', ch, ch', id, 0, side, p);
    }
  }

  /** Removing the only order of a level: the level goes too. */
  lemma CloseRefines(s: Store, ch: Chains, id: OrderId)
    requires Consistent(s, ch) && id in s.ids && s.ids[id] < |s.orders|
    requires
      var o := s.orders[s.ids[id]].order;
      o.price in s.levels && s.levels[o.price].total == o.quantity
    ensures
      var s', ch' := Closed(s, id), ch - {s.orders[s.ids[id]].order.price};
      && Consistent(s', ch') && Spelled(s, ch) && Spelled(s', ch')
      && Abs(s', ch') == CancelOrder(Abs(s, ch), id)
  {
    var k := Locate(s, ch, id);
    var x := s.ids[id];
    var p := s.orders[x].order.price;
    var s', ch' := Closed(s, id), ch - {p};
    LevelDistinct(s, ch[p], s.levels[p], p);
    TotalOfOne(QueueOf(s.orders, ch[p]), k);
    assert ch[p] == [x];
    assert Shrunk(s, s', id, x);
    assert SidesOk(s', ch');
    ShrunkLives(s, s', id, x);
    ShrunkIds(s, s', ch, ch', id, x);
    ClosedLevels(s, s', ch, id, p);
    ConsistentIsSpelled(s, ch);
    ConsistentIsSpelled(s', ch');
    forall side, q | q in s.On(side) ensures AmendedAt(s, s', ch, ch', id, 0, side, q) {
      ClosedAmended(s, s', ch, ch', id, side, q);
    }
    AmendRefines(s, s', ch, ch', id, 0);
  }

  /** Cells the unlinking does not touch: those of every other level. */
  lemma UnlinkedElsewhere(s: Store, chain: Chain, level: PriceLevel, p: Price, k: nat,
      other: Chain, level': PriceLevel, p': Price)
    requires LevelOk(s, chain, level, p) && k < |chain| && |chain| > 1
    requires LevelOk(s, other, level', p') && p != p'
    ensures Neighbourly(s.orders, chain[k])
    ensures |Unlinked(s.orders, chain[k])| == |s.orders|
    ensures forall j :: 0 <= j < |other| ==> Unlinked(s.orders, chain[k])[other[j]] == s.orders[other[j]]
  {
    LinkedIsNeighbourly(s.orders, chain, level, k);
    UnlinkedCells(s.orders, chain[k]);
    assert LinksAt(s.orders, chain, k);
    LevelsDisjoint(s, other, level', p', chain, level, p);
  }

  /** What `purge_order` knows when it unlinks: order `id` is the k-th of several on its level. */
  ghost predicate OneOfSeveral(s: Store, ch: Chains, id: OrderId, k: nat) {
    && id in s.ids && s.ids[id] < |s.orders| && Neighbourly(s.orders, s.ids[id])
    && var o := s.orders[s.ids[id]].order;
      && o.id == id && o.price in ch && o.price in s.levels
      && k < |ch[o.price]| && |ch[o.price]| > 1 && ch[o.price][k] == s.ids[id]
      && LevelOk(s, ch[o.price], s.levels[o.price], o.price)
      && s.levels[o.price].total >= o.quantity
  }

  lemma DetachedCells(s: Store, s': Store, ch: Chains, id: OrderId, k: nat)
    requires OneOfSeveral(s, ch, id, k) && Shrunk(s, s', id, s.ids[id])
    requires s'.bids == s.bids && s'.offers == s.offers
    ensures
      var p := s.orders[s.ids[id]].order.price;
      forall i :: 0 <= i < |ch[p]| - 1 ==> CellOk(s', p, Removed(ch[p], k)[i])
  {
    var x := s.ids[id];
    var p := s.orders[x].order.price;
    var chain, rest := ch[p], Removed(ch[p], k);
    forall i | 0 <= i < |rest| ensures CellOk(s', p, rest[i]) {
      var j := if i < k then i else i + 1;
      assert rest[i] == chain[j] && chain[j] != chain[k];
      assert CellOk(s, p, chain[j]);
      ShrunkCell(s, s', id, x, p, chain[j]);
    }
  }

  lemma DetachedQueue(s: Store, s': Store, chain: Chain, id: OrderId, k: nat)
    requires id in s.ids && Shrunk(s, s', id, s.ids[id]) && InPool(s.orders, chain) && k < |chain|
    ensures InPool(s'.orders, Removed(chain, k))
    ensures QueueOf(s'.orders, Removed(chain, k)) == Removed(QueueOf(s.orders, chain), k)
  {
    var rest := Removed(chain, k);
    QueueOfRemoved(s.orders, chain, k);
    assert InPool(s'.orders, rest);
    assert QueueOf(s'.orders, rest) == QueueOf(s.orders, rest);
  }

  lemma DetachedHome(s: Store, s': Store, ch: Chains, id: OrderId, k: nat)
    requires OneOfSeveral(s, ch, id, k) && s' == Detached(s, id) && Shrunk(s, s', id, s.ids[id])
    ensures
      var p := s.orders[s.ids[id]].order.price;
      var rest := Removed(ch[p], k);
      && LevelOk(s', rest, s'.levels[p], p)
      && QueueOf(s'.orders, rest) == Removed(QueueOf(s.orders, ch[p]), k)
  {
    var p := s.orders[s.ids[id]].order.price;
    hide CellOk, Unlinked, LinksAt, QueueOf, Total;
    assert InPool(s.orders, ch[p]);
    hide Linked;
    DetachKeepsList(s.orders, ch[p], s.levels[p], k);
    DetachedQueue(s, s', ch[p], id, k);
    TotalRemoved(QueueOf(s.orders, ch[p]), k);
    DetachedCells(s, s', ch, id, k);
    DetachedLink(s, s', id, Removed(ch[p], k));
  }

  /** The list invariant does not depend on the stored total. */
  lemma DetachedLink(s: Store, s': Store, id: OrderId, rest: Chain)
    requires id in s.ids && s.ids[id] < |s.orders| && Neighbourly(s.orders, s.ids[id])
    requires s.orders[s.ids[id]].order.price in s.levels
    requires s.levels[s.orders[s.ids[id]].order.price].total >= s.orders[s.ids[id]].order.quantity
    requires s' == Detached(s, id)
    requires
      var x := s.ids[id];
      var p := s.orders[x].order.price;
      Linked(Unlinked(s.orders, x), rest, DetachedLevel(s.orders, x, s.levels[p]))
    ensures Linked(s'.orders, rest, s'.levels[s.orders[s.ids[id]].order.price])
  {
  }

  lemma DetachedOther(s: Store, s': Store, ch: Chains, id: OrderId, k: nat, p: Price)
    requires SidesOk(s, ch) && LevelsOk(s, ch)
    requires OneOfSeveral(s, ch, id, k) && s' == Detached(s, id) && Shrunk(s, s', id, s.ids[id])
    requires p in ch && p != s.orders[s.ids[id]].order.price
    ensures LevelOk(s, ch[p], s.levels[p], p) && LevelOk(s', ch[p], s'.levels[p], p)
    ensures QueueOf(s'.orders, ch[p]) == QueueOf(s.orders, ch[p])
  {
    var home := s.orders[s.ids[id]].order.price;
    assert LevelOk(s, ch[p], s.levels[p], p);
    UnlinkedElsewhere(s, ch[home], s.levels[home], home, k, ch[p], s.levels[p], p);
    LevelsDisjoint(s, ch[home], s.levels[home], home, ch[p], s.levels[p], p);
    ShrunkLevel(s, s', id, s.ids[id], ch[p], s.levels[p], p);
  }

  lemma DetachedLevels(s: Store, s': Store, ch: Chains, ch': Chains, id: OrderId, k: nat)
    requires SidesOk(s, ch) && LevelsOk(s, ch)
    requires OneOfSeveral(s, ch, id, k) && s' == Detached(s, id) && Shrunk(s, s', id, s.ids[id])
    requires
      var p := s.orders[s.ids[id]].order.price;
      ch' == ch[p := Removed(ch[p], k)]
    ensures SidesOk(s', ch') && LevelsOk(s', ch')
  {
    forall q | q in ch' ensures LevelOk(s', ch'[q], s'.levels[q], q) {
      if q == s.orders[s.ids[id]].order.price {
        DetachedHome(s, s', ch, id, k);
      } else {
        DetachedOther(s, s', ch, id, k, q);
      }
    }
  }

  lemma DetachedAmended(s: Store, s': Store, ch: Chains, ch': Chains, id: OrderId, k: nat, side: Side, p: Price)
    requires SidesOk(s, ch) && LevelsOk(s, ch)
    requires OneOfSeveral(s, ch, id, k) && s' == Detached(s, id) && Shrunk(s, s', id, s.ids[id])
    requires
      var p := s.orders[s.ids[id]].order.price;
      ch' == ch[p := Removed(ch[p], k)]
    requires Spelled(s, ch) && Spelled(s', ch') && p in s.On(side)
    ensures AmendedAt(s, s', ch, ch', id, 0, side, p)
  {
    if p == s.orders[s.ids[id]].order.price {
      DetachedHome(s, s', ch, id, k);
      LevelDistinct(s, ch[p], s.levels[p], p);
      AmendAt(QueueOf(s.orders, ch[p]), k, 0);
    } else {
      DetachedOther(s, s', ch, id, k, p);
      UntouchedAmended(s, s', ch, ch', id, 0, side, p);
    }
  }

  lemma DetachedIds(s: Store, s': Store, ch: Chains, ch': Chains, id: OrderId, k: nat)
    requires SidesOk(s, ch) && LevelsOk(s, ch) && IdsOk(s, ch)
    requires OneOfSeveral(s, ch, id, k) && Shrunk(s, s', id, s.ids[id])
    requires
      var p := s.orders[s.ids[id]].order.price;
      ch' == ch[p := Removed(ch[p], k)]
    ensures IdsOk(s', ch')
  {
    var x := s.ids[id];
    var home := s.orders[x].order.price;
    forall p, y | p in ch && y in ch[p] && y != x ensures p in ch' && y in ch'[p] {
      if p == home {
        var j :| 0 <= j < |ch[p]| && ch[p][j] == y;
        assert ch'[p][if j < k then j else j - 1] == y;
      }
    }
    ShrunkIds(s, s', ch, ch', id, x);
  }

  /** Removing one of several orders of a level: the others keep their places. */
  lemma DetachRefines(s: Store, ch: Chains, id: OrderId) returns (ch': Chains)
    requires Consistent(s, ch) && id in s.ids && s.ids[id] < |s.orders|
    requires
      var o := s.orders[s.ids[id]].order;
      o.price in s.levels && s.levels[o.price].total != o.quantity
    ensures Neighbourly(s.orders, s.ids[id])
    ensures
      var o := s.orders[s.ids[id]].order;
      o.price in s.levels && s.levels[o.price].total >= o.quantity
    ensures Consistent(Detached(s, id), ch') && Spelled(s, ch) && Spelled(Detached(s, id), ch')
    ensures Abs(Detached(s, id), ch') == CancelOrder(Abs(s, ch), id)
  {
    var k := Locate(s, ch, id);
    var x := s.ids[id];
    var p := s.orders[x].order.price;
    LevelDistinct(s, ch[p], s.levels[p], p);
    TotalOfOne(QueueOf(s.orders, ch[p]), k);
    LinkedIsNeighbourly(s.orders, ch[p], s.levels[p], k);
    UnlinkedCells(s.orders, x);
    var s' := Detached(s, id);
    ch' := ch[p := Removed(ch[p], k)];
    assert OneOfSeveral(s, ch, id, k) && Shrunk(s, s', id, x);
    DetachedLevels(s, s', ch, ch', id, k);
    ShrunkLives(s, s', id, x);
    DetachedIds(s, s', ch, ch', id, k);
    ConsistentIsSpelled(s, ch);
    ConsistentIsSpelled(s', ch');
    forall side, q | q in s.On(side) ensures AmendedAt(s, s', ch, ch', id, 0, side, q) {
      DetachedAmended(s, s', ch, ch', id, k, side, q);
    }
    AmendRefines(s, s', ch, ch', id, 0);
  }

  /** What taking `quantity` out of order `o`'s level does to prices and totals. */
  ghost predicate ReducedBy(s: Store, s': Store, o: Order, quantity: Quantity) {
    && o.price in s.On(o.side) && o.price in s.levels && quantity <= s.levels[o.price].total && 0 < s.levels[o.price].total
    && s'.On(Opposite(o.side)) == s.On(Opposite(o.side))
    && (s.levels[o.price].total == quantity ==> s'.On(o.side) == s.On(o.side) - {o.price})
    && (s.levels[o.price].total != quantity ==>
        && s'.On(o.side) == s.On(o.side) && o.price in s'.levels
        && s'.levels[o.price].total == s.levels[o.price].total - quantity)
    && (forall p :: p in s.levels && p != o.price ==> p in s'.levels && s'.levels[p].total == s.levels[p].total)
    && s'.levels.Keys == s'.bids + s'.offers
  }

  lemma LeftReduces(s: Store, s': Store, ch: Chains, x: Index)
    requires SidesOk(s, ch) && Neighbourly(s.orders, x) && CellOk(s, s.orders[x].order.price, x)
    requires
      var o := s.orders[x].order;
      && o.price in s.levels && s.levels[o.price].total >= o.quantity
      && s' == Unregistered(Left(s, x), o.id, x)
    ensures ReducedBy(s, s', s.orders[x].order, s.orders[x].order.quantity)
  {
    var o := s.orders[x].order;
    assert o.price !in s.On(Opposite(o.side));
    if s.levels[o.price].total == o.quantity {
      assert s'.levels.Keys == s.levels.Keys - {o.price};
    } else {
      assert s'.levels.Keys == s.levels.Keys;
    }
  }

  /** `purge_order` refines a cancellation on the simple book. */
  lemma PurgeRefines(s: Store, ch: Chains, id: OrderId) returns (ch': Chains)
    requires Consistent(s, ch) && id in s.ids
    ensures s.ids[id] in s.live && Neighbourly(s.orders, s.ids[id])
    ensures
      var o := s.orders[s.ids[id]].order;
      o.id == id && o.price in s.levels && s.levels[o.price].total >= o.quantity
    ensures
      var s' := Unregistered(Left(s, s.ids[id]), id, s.ids[id]);
      && Consistent(s', ch') && Spelled(s, ch) && Spelled(s', ch')
      && Abs(s', ch') == CancelOrder(Abs(s, ch), id)
      && ReducedBy(s, s', s.orders[s.ids[id]].order, s.orders[s.ids[id]].order.quantity)
  {
    var k := Locate(s, ch, id);
    var o := s.orders[s.ids[id]].order;
    LinkedIsNeighbourly(s.orders, ch[o.price], s.levels[o.price], k);
    LevelDistinct(s, ch[o.price], s.levels[o.price], o.price);
    TotalOfOne(QueueOf(s.orders, ch[o.price]), k);
    LeftReduces(s, Unregistered(Left(s, s.ids[id]), id, s.ids[id]), ch, s.ids[id]);
    if s.levels[o.price].total == o.quantity {
      CloseRefines(s, ch, id);
      ch' := ch - {o.price};
    } else {
      ch' := DetachRefines(s, ch, id);
    }
  }

  // -- Change of quantity --

  /** Cell `x` holds `n`, and its level's total says so. */
  function WithQuantity(s: Store, x: Index, n: Quantity): Store
    requires x < |s.orders| && s.orders[x].order.price in s.levels
    requires s.levels[s.orders[x].order.price].total >= s.orders[x].order.quantity
  {
    var o := s.orders[x].order;
    var level := s.levels[o.price];
    s.(orders := s.orders[x := s.orders[x].(order := o.(quantity := n))],
       levels := s.levels[o.price := level.(total := level.total - o.quantity + n)])
  }

  /** What a change of order `o`'s quantity to `n` does to prices and totals. */
  ghost predicate ResizedBy(s: Store, s': Store, o: Order, n: Quantity) {
    && o.price in s.On(o.side) && o.price in s.levels && s.levels[o.price].total >= o.quantity
    && s'.bids == s.bids && s'.offers == s.offers
    && s'.levels.Keys == s.levels.Keys == s.bids + s.offers
    && s'.levels[o.price].total == s.levels[o.price].total - o.quantity + n
    && (forall p :: p in s.levels && p != o.price ==> s'.levels[p].total == s.levels[p].total)
  }

  /** The structure after order `id` and its level's total were set to a new positive quantity. */
  function Resized(s: Store, id: OrderId, n: Quantity): Store
    requires id in s.ids && s.ids[id] < |s.orders|
    requires s.orders[s.ids[id]].order.price in s.levels
    requires s.levels[s.orders[s.ids[id]].order.price].total >= s.orders[s.ids[id]].order.quantity
  {
    WithQuantity(s, s.ids[id], n)
  }

  lemma ResizedCell(s: Store, s': Store, id: OrderId, n: Quantity, p: Price, y: Index)
    requires id in s.ids && s.ids[id] < |s.orders| && n > 0
    requires s.orders[s.ids[id]].order.price in s.levels
    requires s.levels[s.orders[s.ids[id]].order.price].total >= s.orders[s.ids[id]].order.quantity
    requires s' == Resized(s, id, n) && CellOk(s, p, y)
    ensures CellOk(s', p, y)
  {
  }

  lemma ResizedHome(s: Store, s': Store, chain: Chain, id: OrderId, n: Quantity, k: nat)
    requires id in s.ids && s.ids[id] < |s.orders| && n > 0
    requires s.orders[s.ids[id]].order.price in s.levels && s.orders[s.ids[id]].order.id == id
    requires s.levels[s.orders[s.ids[id]].order.price].total >= s.orders[s.ids[id]].order.quantity
    requires s' == Resized(s, id, n) && k < |chain| && chain[k] == s.ids[id]
    requires
      var p := s.orders[s.ids[id]].order.price;
      LevelOk(s, chain, s.levels[p], p)
    ensures
      var p := s.orders[s.ids[id]].order.price;
      && LevelOk(s', chain, s'.levels[p], p)
      && QueueOf(s'.orders, chain) == QueueOf(s.orders, chain)[k := Entry(id, n)]
  {
    var p := s.orders[s.ids[id]].order.price;
    forall i | 0 <= i < |chain| ensures LinksAt(s'.orders, chain, i) {
      assert LinksAt(s.orders, chain, i);
    }
    forall i | 0 <= i < |chain| ensures CellOk(s', p, chain[i]) {
      assert CellOk(s, p, chain[i]);
      ResizedCell(s, s', id, n, p, chain[i]);
    }
    var q, q' := QueueOf(s.orders, chain), QueueOf(s'.orders, chain);
    assert q' == q[k := Entry(id, n)];
    TotalReplaced(q, k, Entry(id, n));
  }

  lemma ResizedOther(s: Store, s': Store, ch: Chains, id: OrderId, n: Quantity, p: Price)
    requires SidesOk(s, ch) && LevelsOk(s, ch)
    requires id in s.ids && s.ids[id] < |s.orders| && n > 0
    requires s.orders[s.ids[id]].order.price in s.levels
    requires s.levels[s.orders[s.ids[id]].order.price].total >= s.orders[s.ids[id]].order.quantity
    requires s' == Resized(s, id, n) && p in ch && p != s.orders[s.ids[id]].order.price
    ensures LevelOk(s, ch[p], s.levels[p], p) && LevelOk(s', ch[p], s'.levels[p], p)
    ensures QueueOf(s'.orders, ch[p]) == QueueOf(s.orders, ch[p])
  {
    assert LevelOk(s, ch[p], s.levels[p], p);
    forall k | 0 <= k < |ch[p]|
      ensures s'.orders[ch[p][k]] == s.orders[ch[p][k]] && CellOk(s', p, ch[p][k])
    {
      assert CellOk(s, p, ch[p][k]);
      ResizedCell(s, s', id, n, p, ch[p][k]);
    }
    LevelFrame(s, s', ch[p], s.levels[p], p);
  }

  lemma ResizedIndex(s: Store, s': Store, ch: Chains, id: OrderId, n: Quantity)
    requires IdsOk(s, ch) && LivesOk(s) && id in s.ids && s.ids[id] < |s.orders|
    requires s.orders[s.ids[id]].order.price in s.levels
    requires s.levels[s.orders[s.ids[id]].order.price].total >= s.orders[s.ids[id]].order.quantity
    requires s' == Resized(s, id, n)
    ensures IdsOk(s', ch) && LivesOk(s')
  {
    forall i | i in s'.ids ensures IdOk(s', ch, i) {
      assert IdOk(s, ch, i);
    }
    forall y | y in s'.live ensures LiveOk(s', y) {
      assert LiveOk(s, y);
    }
  }

  lemma ResizedLevels(s: Store, s': Store, ch: Chains, id: OrderId, n: Quantity, k: nat)
    requires SidesOk(s, ch) && LevelsOk(s, ch)
    requires id in s.ids && s.ids[id] < |s.orders| && n > 0 && s.orders[s.ids[id]].order.id == id
    requires s.orders[s.ids[id]].order.price in s.levels
    requires s.levels[s.orders[s.ids[id]].order.price].total >= s.orders[s.ids[id]].order.quantity
    requires s' == Resized(s, id, n)
    requires
      var home := s.orders[s.ids[id]].order.price;
      home in ch && k < |ch[home]| && ch[home][k] == s.ids[id]
    ensures LevelsOk(s', ch)
  {
    var home := s.orders[s.ids[id]].order.price;
    forall p | p in ch ensures LevelOk(s', ch[p], s'.levels[p], p) {
      if p == home {
        assert LevelOk(s, ch[p], s.levels[p], p);
        ResizedHome(s, s', ch[home], id, n, k);
      } else {
        ResizedOther(s, s', ch, id, n, p);
      }
    }
  }

  lemma ResizedAmended(s: Store, s': Store, ch: Chains, id: OrderId, n: Quantity, k: nat, side: Side, p: Price)
    requires SidesOk(s, ch) && LevelsOk(s, ch)
    requires id in s.ids && s.ids[id] < |s.orders| && n > 0 && s.orders[s.ids[id]].order.id == id
    requires s.orders[s.ids[id]].order.price in s.levels
    requires s.levels[s.orders[s.ids[id]].order.price].total >= s.orders[s.ids[id]].order.quantity
    requires s' == Resized(s, id, n)
    requires
      var home := s.orders[s.ids[id]].order.price;
      home in ch && k < |ch[home]| && ch[home][k] == s.ids[id]
    requires Spelled(s, ch) && Spelled(s', ch) && p in s.On(side)
    ensures AmendedAt(s, s', ch, ch, id, n, side, p)
  {
    if p == s.orders[s.ids[id]].order.price {
      assert LevelOk(s, ch[p], s.levels[p], p);
      ResizedHome(s, s', ch[p], id, n, k);
      LevelDistinct(s, ch[p], s.levels[p], p);
      AmendAt(QueueOf(s.orders, ch[p]), k, n);
    } else {
      ResizedOther(s, s', ch, id, n, p);
      UntouchedAmended(s, s', ch, ch, id, n, side, p);
    }
  }

  /** Changing a quantity keeps the order's place in its queue. */
  lemma ResizeRefines(s: Store, ch: Chains, id: OrderId, n: Quantity)
    requires Consistent(s, ch) && id in s.ids && n > 0
    ensures s.ids[id] < |s.orders| && s.orders[s.ids[id]].order.price in s.levels
    ensures s.levels[s.orders[s.ids[id]].order.price].total >= s.orders[s.ids[id]].order.quantity
    ensures Consistent(Resized(s, id, n), ch) && Spelled(s, ch) && Spelled(Resized(s, id, n), ch)
    ensures Abs(Resized(s, id, n), ch) == AmendOrder(Abs(s, ch), id, n)
    ensures ResizedBy(s, Resized(s, id, n), s.orders[s.ids[id]].order, n)
  {
    var k := Locate(s, ch, id);
    var home := s.orders[s.ids[id]].order.price;
    LevelDistinct(s, ch[home], s.levels[home], home);
    TotalOfOne(QueueOf(s.orders, ch[home]), k);
    var s' := Resized(s, id, n);
    ResizedIndex(s, s', ch, id, n);
    ResizedLevels(s, s', ch, id, n, k);
    ConsistentIsSpelled(s, ch);
    ConsistentIsSpelled(s', ch);
    forall side, p | p in s.On(side) ensures AmendedAt(s, s', ch, ch, id, n, side, p) {
      ResizedAmended(s, s', ch, id, n, k, side, p);
    }
    AmendRefines(s, s', ch, ch, id, n);
  }
}
