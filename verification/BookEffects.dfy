/** What each event does to the simple book, entry by entry, and that executable events keep it
    well formed. */
module BookEffects {
  import opened Orders
  import opened PriceTimePriority
  import opened QueueLemmas
  import opened BookReading

  // ---- Queues ----

  lemma RemovedEntries(q: Queue, k: nat)
    requires k < |q| && DistinctIds(q)
    ensures DistinctIds(Removed(q, k))
    ensures forall e :: e in Removed(q, k) <==> e in q && e.id != q[k].id
  {
    var r := Removed(q, k);
    assert forall i :: 0 <= i < |r| ==> r[i] == q[if i < k then i else i + 1];
    forall e | e in q && e.id != q[k].id ensures e in r {
      var i :| 0 <= i < |q| && q[i] == e;
      assert r[if i < k then i else i - 1] == e;
    }
  }

  lemma ReplacedEntries(q: Queue, k: nat, n: Quantity)
    requires k < |q| && DistinctIds(q)
    ensures
      var r := q[k := Entry(q[k].id, n)];
      && DistinctIds(r)
      && forall e :: e in r <==> (e in q && e.id != q[k].id) || e == Entry(q[k].id, n)
  {
    var r := q[k := Entry(q[k].id, n)];
    assert r[k] == Entry(q[k].id, n);
    forall e | e in q && e.id != q[k].id ensures e in r {
      var i :| 0 <= i < |q| && q[i] == e;
      assert r[i] == e;
    }
  }

  /** The entries of a queue after one order was amended. */
  lemma {:induction false} AmendedQueueOk(q: Queue, id: OrderId, n: Quantity)
    requires DistinctIds(q) && forall i :: 0 <= i < |q| ==> q[i].quantity > 0
    ensures DistinctIds(Amended(q, id, n))
    ensures forall e :: e in Amended(q, id, n) <==>
      (e in q && e.id != id) || (e.id == id && n > 0 && e.quantity == n && exists k :: 0 <= k < |q| && q[k].id == id)
    ensures forall i :: 0 <= i < |Amended(q, id, n)| ==> Amended(q, id, n)[i].quantity > 0
  {
    if k :| 0 <= k < |q| && q[k].id == id {
      AmendAt(q, k, n);
      RemovedEntries(q, k);
      ReplacedEntries(q, k, n);
    } else {
      AmendAbsent(q, id, n);
    }
    assert forall i :: 0 <= i < |Amended(q, id, n)| ==> Amended(q, id, n)[i] in Amended(q, id, n);
  }

  // ---- Books ----

  /** After an amendment the other entries are as before, and order `id` holds `n` where it was. */
  lemma AmendHolds(b: Book, id: OrderId, n: Quantity, side: Side, p: Price, i: OrderId, q: Quantity)
    requires BookOk(b)
    ensures Holds(AmendOrder(b, id, n), side, p, i, q) <==>
      (i != id && Holds(b, side, p, i, q)) || (i == id && n > 0 && q == n && exists x :: Holds(b, side, p, id, x))
  {
    hide Amended;
    var m := b.On(side);
    assert AmendOrder(b, id, n).On(side) == AmendedAll(m, id, n);
    if p in m {
      assert QueueOk(m[p]);
      AmendedQueueOk(m[p], id, n);
      if k :| 0 <= k < |m[p]| && m[p][k].id == id {
        assert Holds(b, side, p, id, m[p][k].quantity);
      } else {
        assert forall x :: !Holds(b, side, p, id, x);
      }
      assert p in AmendedAll(m, id, n) <==> Amended(m[p], id, n) != [];
      assert Holds(AmendOrder(b, id, n), side, p, i, q) <==> Entry(i, q) in Amended(m[p], id, n);
    } else {
      assert forall x :: !Holds(b, side, p, id, x);
    }
  }

  lemma AmendKeepsOk(b: Book, id: OrderId, n: Quantity)
    requires BookOk(b)
    ensures BookOk(AmendOrder(b, id, n))
  {
    var b' := AmendOrder(b, id, n);
    forall side, p | p in b'.On(side) ensures QueueOk(b'.On(side)[p]) {
      assert QueueOk(b.On(side)[p]);
      AmendedQueueOk(b.On(side)[p], id, n);
    }
    forall s, p, i, q, s', p', q' | Holds(b', s, p, i, q) && Holds(b', s', p', i, q')
      ensures s == s' && p == p' && q == q'
    {
      AmendHolds(b, id, n, s, p, i, q);
      AmendHolds(b, id, n, s', p', i, q');
    }
  }

  lemma AddHolds(b: Book, o: Order, side: Side, p: Price, i: OrderId, q: Quantity)
    ensures Holds(AddOrder(b, o), side, p, i, q) <==>
      Holds(b, side, p, i, q) || (side == o.side && p == o.price && i == o.id && q == o.quantity)
  {
  }

  lemma AddKeepsOk(b: Book, o: Order)
    requires BookOk(b) && Addable(b, o)
    ensures BookOk(AddOrder(b, o))
  {
    var b' := AddOrder(b, o);
    forall side, p | p in b'.On(side) ensures QueueOk(b'.On(side)[p]) {
      if p in b.On(side) {
        var q := b.On(side)[p];
        assert QueueOk(q);
        forall k | 0 <= k < |q| ensures q[k].id != o.id {
          assert Holds(b, side, p, q[k].id, q[k].quantity);
        }
      }
    }
    forall s, p, i, q, s', p', q' | Holds(b', s, p, i, q) && Holds(b', s', p', i, q')
      ensures s == s' && p == p' && q == q'
    {
      AddHolds(b, o, s, p, i, q);
      AddHolds(b, o, s', p', i, q');
    }
  }

  /** Every executable event keeps the book well formed. */
  lemma ApplyKeepsOk(b: Book, e: MarketEvent)
    requires BookOk(b) && Executable(b, e)
    ensures BookOk(Apply(b, e))
  {
    hide BookOk, AmendOrder, TradeOrder, AddOrder, Addable, Resting;
    match e.kind
    case Add => AddKeepsOk(b, e.order);
    case Cancel => AmendKeepsOk(b, e.order.id, 0);
    case Trade =>
      var side, p, x: Quantity :| Holds(b, side, p, e.order.id, x) && e.order.quantity <= x;
      TradeIsAmend(b, side, p, e.order.id, x, e.order.quantity);
      AmendKeepsOk(b, e.order.id, x - e.order.quantity);
    case Update => AmendKeepsOk(b, e.order.id, e.order.quantity);
  }

  /** An amendment only ever removes prices and ids. */
  lemma AmendShrinks(b: Book, id: OrderId, n: Quantity)
    requires BookOk(b)
    ensures forall side :: AmendOrder(b, id, n).On(side).Keys <= b.On(side).Keys
    ensures RestingIds(AmendOrder(b, id, n)) <= RestingIds(b)
    ensures n == 0 ==> id !in RestingIds(AmendOrder(b, id, n))
  {
    var b' := AmendOrder(b, id, n);
    forall i | i in RestingIds(b')
      ensures i in RestingIds(b) && (n == 0 ==> i != id)
    {
      var side: Side :| i in SideIds(b'.On(side));
      var p, e :| p in b'.On(side) && e in b'.On(side)[p] && e.id == i;
      assert Holds(b', side, p, i, e.quantity);
      AmendHolds(b, id, n, side, p, i, e.quantity);
      if i != id {
        assert Holds(b, side, p, i, e.quantity);
      } else {
        var x :| Holds(b, side, p, id, x);
        assert Entry(id, x) in b.On(side)[p];
      }
    }
  }

  lemma RestingIsMember(b: Book, id: OrderId)
    ensures Resting(b, id) <==> id in RestingIds(b)
  {
    if Resting(b, id) {
      var side, p, q :| Holds(b, side, p, id, q);
      assert Entry(id, q) in b.On(side)[p];
    }
    if id in RestingIds(b) {
      var side: Side :| id in SideIds(b.On(side));
      var p, e :| p in b.On(side) && e in b.On(side)[p] && e.id == id;
      assert Holds(b, side, p, id, e.quantity);
    }
  }

  lemma AddGrows(b: Book, o: Order)
    ensures RestingIds(AddOrder(b, o)) == RestingIds(b) + {o.id}
    ensures AddOrder(b, o).On(o.side).Keys == b.On(o.side).Keys + {o.price}
    ensures AddOrder(b, o).On(Opposite(o.side)) == b.On(Opposite(o.side))
  {
    var b' := AddOrder(b, o);
    forall i ensures i in RestingIds(b') <==> i in RestingIds(b) + {o.id} {
      RestingIsMember(b, i);
      RestingIsMember(b', i);
      if Resting(b, i) {
        var side, p, q :| Holds(b, side, p, i, q);
        AddHolds(b, o, side, p, i, q);
      }
      if Resting(b', i) {
        var side, p, q :| Holds(b', side, p, i, q);
        AddHolds(b, o, side, p, i, q);
      }
      AddHolds(b, o, o.side, o.price, o.id, o.quantity);
    }
  }
}
