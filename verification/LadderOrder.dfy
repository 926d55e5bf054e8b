/** The ladder really is price-time priority: every resting order has one rung, better prices
    come first, and within a price earlier orders come first. */
module LadderOrder {
  import opened Orders
  import opened PriceTimePriority
  import opened Matching

  /** The rung of the k-th order queued at price `p`. */
  function Rank(side: Side, m: Queues, p: Price, k: nat): nat
    requires p in m
    decreases |m.Keys|
  {
    var best := Best(side, m.Keys);
    assert (m - {best}).Keys == m.Keys - {best};
    if p == best then k else |m[best]| + Rank(side, m - {best}, p, k)
  }

  lemma {:induction false} RankSpot(side: Side, m: Queues, p: Price, k: nat)
    requires p in m && k < |m[p]|
    ensures Rank(side, m, p, k) < |Ladder(side, m)|
    ensures Ladder(side, m)[Rank(side, m, p, k)] == Quote(p, m[p][k].id, m[p][k].quantity)
    decreases |m.Keys|
  {
    var best := Best(side, m.Keys);
    assert (m - {best}).Keys == m.Keys - {best};
    LadderUnfold(side, m, best);
    if p != best {
      RankSpot(side, m - {best}, p, k);
    }
  }

  /** Price before time: a better price ranks first, and at one price the earlier order. */
  lemma {:induction false} RankOrder(side: Side, m: Queues, p: Price, k: nat, p': Price, k': nat)
    requires p in m && p' in m && k < |m[p]| && k' < |m[p']|
    ensures Rank(side, m, p, k) < Rank(side, m, p', k') <==> Better(side, p, p') || (p == p' && k < k')
    decreases |m.Keys|
  {
    var best := Best(side, m.Keys);
    var rest := m - {best};
    assert rest.Keys == m.Keys - {best};
    if p != best && p' != best {
      RankOrder(side, rest, p, k, p', k');
    }
  }

  /** Every rung is the rung of some resting order. */
  lemma {:induction false} RungIsResting(side: Side, m: Queues, i: nat) returns (p: Price, k: nat)
    requires i < |Ladder(side, m)|
    ensures p in m && k < |m[p]| && Rank(side, m, p, k) == i
    decreases |m.Keys|
  {
    var best := Best(side, m.Keys);
    assert (m - {best}).Keys == m.Keys - {best};
    LadderUnfold(side, m, best);
    if i < |m[best]| {
      p, k := best, i;
    } else {
      p, k := RungIsResting(side, m - {best}, i - |m[best]|);
    }
  }

  /** No rung is better than one before it. */
  lemma {:induction false} LadderDescends(side: Side, m: Queues, i: nat, j: nat)
    requires i <= j < |Ladder(side, m)|
    ensures !Better(side, Ladder(side, m)[j].price, Ladder(side, m)[i].price)
  {
    var p, k := RungIsResting(side, m, i);
    var p', k' := RungIsResting(side, m, j);
    RankSpot(side, m, p, k);
    RankSpot(side, m, p', k');
    RankOrder(side, m, p', k', p, k);
  }

  /** The ladder leaves no choice: two sides with the same ladder are the same side. */
  lemma {:induction false} LadderDeterminesSide(side: Side, m: Queues, m': Queues)
    requires Ladder(side, m) == Ladder(side, m')
    requires (forall p :: p in m ==> m[p] != []) && (forall p :: p in m' ==> m'[p] != [])
    ensures m == m'
  {
    forall p | p in m ensures p in m' && m[p] == m'[p] {
      SameQueue(side, m, m', p);
    }
    forall p | p in m' ensures p in m {
      SameQueue(side, m', m, p);
    }
  }

  lemma SameQueue(side: Side, m: Queues, m': Queues, p: Price)
    requires Ladder(side, m) == Ladder(side, m') && p in m
    requires (forall q :: q in m ==> m[q] != []) && (forall q :: q in m' ==> m'[q] != [])
    ensures p in m' && m[p] == m'[p]
  {
    var i0 := Rank(side, m, p, 0);
    RankSpot(side, m, p, 0);
    var p0, k0 := RungIsResting(side, m', i0);
    RankSpot(side, m', p0, k0);
    SameLength(side, m, m', p);
    SameLength(side, m', m, p);
    forall k | 0 <= k < |m[p]| ensures m[p][k] == m'[p][k] {
      SameEntry(side, m, m', p, k);
    }
  }

  /** The k-th order at a price of one side is the k-th at that price of the other. */
  lemma {:induction false} SameEntry(side: Side, m: Queues, m': Queues, p: Price, k: nat)
    requires Ladder(side, m) == Ladder(side, m') && p in m && k < |m[p]|
    ensures p in m' && k < |m'[p]| && m[p][k] == m'[p][k] && Rank(side, m, p, k) == Rank(side, m', p, k)
    decreases Rank(side, m, p, k)
  {
    var i := Rank(side, m, p, k);
    RankSpot(side, m, p, k);
    var p', k' := RungIsResting(side, m', i);
    RankSpot(side, m', p', k');
    assert p' == p;
    if k' < k {
      RankOrder(side, m, p, k', p, k);
      SameEntry(side, m, m', p, k');
      assert false;
    } else if k < k' {
      RankOrder(side, m', p, k, p, k');
      SameEntry(side, m', m, p, k);
      assert false;
    }
  }

  lemma SameLength(side: Side, m: Queues, m': Queues, p: Price)
    requires Ladder(side, m) == Ladder(side, m') && p in m && m[p] != []
    ensures p in m' && |m[p]| <= |m'[p]|
  {
    SameEntry(side, m, m', p, |m[p]| - 1);
  }
}
