/** Reading the simple book off the structure: which orders rest, and who heads a queue. */
module BookReading {
  import opened Machine
  import opened Orders
  import opened PriceTimePriority
  import opened OrderPools
  import opened QueueLemmas
  import opened BookStore

  /** An entry of the simple book is the order its id is mapped to. */
  lemma HoldsCell(s: Store, ch: Chains, side: Side, p: Price, id: OrderId, q: Quantity)
    requires Consistent(s, ch) && Spelled(s, ch) && Holds(Abs(s, ch), side, p, id, q)
    ensures id in s.ids && s.ids[id] < |s.orders| && s.orders[s.ids[id]].order == Order(id, p, q, side)
  {
    var chain := ch[p];
    var queue := QueueOf(s.orders, chain);
    assert Abs(s, ch).On(side)[p] == queue;
    var k :| 0 <= k < |queue| && queue[k] == Entry(id, q);
    assert LevelOk(s, chain, s.levels[p], p);
    assert CellOk(s, p, chain[k]);
    var o := s.orders[chain[k]].order;
    assert p in s.On(side) && p in s.On(o.side);
  }

  /** A live id rests in the simple book, as the order in its cell. */
  lemma CellHolds(s: Store, ch: Chains, id: OrderId)
    requires Consistent(s, ch) && Spelled(s, ch) && id in s.ids
    ensures s.ids[id] < |s.orders| && s.orders[s.ids[id]].order.id == id
    ensures
      var o := s.orders[s.ids[id]].order;
      Holds(Abs(s, ch), o.side, o.price, id, o.quantity)
  {
    var k := Locate(s, ch, id);
    var o := s.orders[s.ids[id]].order;
    assert Abs(s, ch).On(o.side)[o.price] == QueueOf(s.orders, ch[o.price]);
    assert QueueOf(s.orders, ch[o.price])[k] == Entry(id, o.quantity);
  }

  /** The id map's keys are exactly the resting orders. */
  lemma IdsAreResting(s: Store, ch: Chains, id: OrderId)
    requires Consistent(s, ch) && Spelled(s, ch)
    ensures id in s.ids <==> Resting(Abs(s, ch), id)
  {
    if id in s.ids {
      CellHolds(s, ch, id);
    }
    if Resting(Abs(s, ch), id) {
      var side, p, q :| Holds(Abs(s, ch), side, p, id, q);
      HoldsCell(s, ch, side, p, id, q);
    }
  }

  /** A consistent structure stands for a well-formed book. */
  lemma AbsIsOk(s: Store, ch: Chains)
    requires Consistent(s, ch) && Spelled(s, ch)
    ensures BookOk(Abs(s, ch))
  {
    var b := Abs(s, ch);
    forall side, p | p in b.On(side) ensures QueueOk(b.On(side)[p]) {
      assert LevelOk(s, ch[p], s.levels[p], p);
      LevelDistinct(s, ch[p], s.levels[p], p);
    }
    forall side, p, id, q, side', p', q' | Holds(b, side, p, id, q) && Holds(b, side', p', id, q')
      ensures side == side' && p == p' && q == q'
    {
      HoldsCell(s, ch, side, p, id, q);
      HoldsCell(s, ch, side', p', id, q');
    }
  }

  /** The head cell of a level is the first entry of its queue. */
  lemma HeadOfLevel(s: Store, ch: Chains, side: Side, p: Price)
    requires Consistent(s, ch) && Spelled(s, ch) && p in s.On(side)
    ensures p in s.levels && s.levels[p].head < |s.orders|
    ensures
      var o := s.orders[s.levels[p].head].order;
      && Abs(s, ch).On(side)[p] != []
      && Abs(s, ch).On(side)[p][0] == Entry(o.id, o.quantity)
      && o.price == p && o.side == side && o.id in s.ids
  {
    assert LevelOk(s, ch[p], s.levels[p], p);
    assert CellOk(s, p, ch[p][0]);
    assert Abs(s, ch).On(side)[p] == QueueOf(s.orders, ch[p]);
  }

  // ---- Trading is amending ----

  lemma QueueTrade(q: Queue, id: OrderId, x: Quantity, n: Quantity)
    requires DistinctIds(q) && n <= x
    requires forall i :: 0 <= i < |q| && q[i].id == id ==> q[i].quantity == x
    ensures Reduced(q, id, n) == Amended(q, id, x - n)
  {
    if k :| 0 <= k < |q| && q[k].id == id {
      ReduceIsAmend(q, k, n);
    } else {
      ReduceAbsent(q, id, n);
      AmendAbsent(q, id, x - n);
    }
  }

  lemma SideTrade(m: Queues, id: OrderId, x: Quantity, n: Quantity)
    requires n <= x && forall p :: p in m ==> DistinctIds(m[p])
    requires forall p, i :: p in m && 0 <= i < |m[p]| && m[p][i].id == id ==> m[p][i].quantity == x
    ensures ReducedAll(m, id, n) == AmendedAll(m, id, x - n)
  {
    forall p | p in m ensures Reduced(m[p], id, n) == Amended(m[p], id, x - n) {
      QueueTrade(m[p], id, x, n);
    }
  }

  /** Trading `n` out of a resting order of quantity `x` leaves it with `x - n`. */
  lemma TradeIsAmend(b: Book, side: Side, p: Price, id: OrderId, x: Quantity, n: Quantity)
    requires BookOk(b) && Holds(b, side, p, id, x) && n <= x
    ensures TradeOrder(b, id, n) == AmendOrder(b, id, x - n)
  {
    forall s, p', i | p' in b.On(s) && 0 <= i < |b.On(s)[p']| && b.On(s)[p'][i].id == id
      ensures b.On(s)[p'][i].quantity == x
    {
      assert Holds(b, s, p', id, b.On(s)[p'][i].quantity);
    }
    forall s, p' | p' in b.On(s) ensures DistinctIds(b.On(s)[p']) {
      assert QueueOk(b.On(s)[p']);
    }
    assert b.bids == b.On(Buy) && b.offers == b.On(Sell);
    SideTrade(b.bids, id, x, n);
    SideTrade(b.offers, id, x, n);
  }

  /** The ids of the simple book are the keys of the id map. */
  lemma IdsAreKeys(s: Store, ch: Chains)
    requires Consistent(s, ch) && Spelled(s, ch)
    ensures RestingIds(Abs(s, ch)) == s.ids.Keys
  {
    var b := Abs(s, ch);
    forall id | id in s.ids ensures id in RestingIds(b) {
      CellHolds(s, ch, id);
      var o := s.orders[s.ids[id]].order;
      assert Entry(id, o.quantity) in b.On(o.side)[o.price];
    }
    forall id | id in RestingIds(b) ensures id in s.ids {
      var side: Side :| id in SideIds(b.On(side));
      var p, e :| p in b.On(side) && e in b.On(side)[p] && e.id == id;
      assert Holds(b, side, p, id, e.quantity);
      HoldsCell(s, ch, side, p, id, e.quantity);
    }
  }

  /** What the simple book owes an addition is what the structure owes it. */
  lemma AddableIsPlaceable(s: Store, ch: Chains, o: Order)
    requires Consistent(s, ch) && Spelled(s, ch)
    ensures Addable(Abs(s, ch), o) <==> Placeable(s, o)
  {
    IdsAreResting(s, ch, o.id);
    assert Abs(s, ch).On(Opposite(o.side)).Keys == s.On(Opposite(o.side));
  }

  /** A chain visits each pool cell at most once, so it is no longer than the pool. */
  lemma {:induction false} ChainFits(chain: Chain, n: nat) returns (cells: set<Index>)
    requires (forall i :: 0 <= i < |chain| ==> chain[i] < n) && n <= NULL_INDEX
    requires forall i, j :: 0 <= i < j < |chain| ==> chain[i] != chain[j]
    ensures |cells| == |chain| <= n && forall x :: x in cells <==> x in chain
  {
    if chain == [] {
      cells := {};
    } else {
      var last := chain[|chain| - 1];
      var rest := ChainFits(chain[..|chain| - 1], n);
      assert chain == chain[..|chain| - 1] + [last];
      cells := rest + {last};
      var everyone := OrderPool.Below(n);
      SubsetSize(cells, everyone);
    }
  }

  /** A level's total fits the 64 bits it is stored in: a level has fewer than 2^32 orders of less
      than 2^32 each. */
  lemma TotalFits(s: Store, ch: Chains, p: Price)
    requires Consistent(s, ch) && p in s.levels
    ensures s.levels[p].total < TWO_TO_THE_64
  {
    var chain := ch[p];
    assert LevelOk(s, chain, s.levels[p], p);
    var _ := ChainFits(chain, |s.orders|);
    TotalBound(QueueOf(s.orders, chain));
  }

  /** On the simple book the best price's total is its queue's. */
  lemma TotalOfLevel(s: Store, ch: Chains, side: Side, p: Price)
    requires Consistent(s, ch) && Spelled(s, ch) && p in s.On(side)
    ensures p in s.levels && p in Abs(s, ch).On(side) && s.levels[p].total == Total(Abs(s, ch).On(side)[p])
  {
    assert LevelOk(s, ch[p], s.levels[p], p);
    assert Abs(s, ch).On(side)[p] == QueueOf(s.orders, ch[p]);
  }
}
