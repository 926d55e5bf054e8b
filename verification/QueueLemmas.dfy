/** Facts about the reference queues: what amending one order does to a queue and its total. */
module QueueLemmas {
  import opened Machine
  import opened Orders
  import opened PriceTimePriority

  /** The queue without its k-th entry. */
  function Removed<T>(q: seq<T>, k: nat): seq<T>
    requires k < |q|
  {
    q[..k] + q[k + 1..]
  }

  lemma {:induction false} AmendAbsent(q: Queue, id: OrderId, n: Quantity)
    requires forall i :: 0 <= i < |q| ==> q[i].id != id
    ensures Amended(q, id, n) == q
  {
    if q == [] {
    } else {
      AmendAbsent(q[1..], id, n);
      assert q == [q[0]] + q[1..];
    }
  }

  /** Amending the one entry of an order replaces it in place or takes it out. */
  lemma {:induction false} AmendAt(q: Queue, k: nat, n: Quantity)
    requires k < |q| && DistinctIds(q)
    ensures Amended(q, q[k].id, n) == if n == 0 then Removed(q, k) else q[k := Entry(q[k].id, n)]
  {
    var id := q[k].id;
    if k == 0 {
      AmendAbsent(q[1..], id, n);
      assert n == 0 ==> Removed(q, 0) == q[1..];
      assert n != 0 ==> q[0 := Entry(id, n)] == [Entry(id, n)] + q[1..];
    } else {
      assert q[1..][k - 1] == q[k];
      AmendAt(q[1..], k - 1, n);
      assert q[0].id != id;
      assert n == 0 ==> Removed(q, k) == [q[0]] + Removed(q[1..], k - 1);
      assert n != 0 ==> q[k := Entry(id, n)] == [q[0]] + q[1..][k - 1 := Entry(id, n)];
    }
  }

  lemma {:induction false} ReduceAbsent(q: Queue, id: OrderId, n: Quantity)
    requires forall i :: 0 <= i < |q| ==> q[i].id != id
    ensures Reduced(q, id, n) == q
  {
    if q == [] {
    } else {
      ReduceAbsent(q[1..], id, n);
      assert q == [q[0]] + q[1..];
    }
  }

  /** Reducing an order is amending it to what remains. */
  lemma {:induction false} ReduceIsAmend(q: Queue, k: nat, n: Quantity)
    requires k < |q| && DistinctIds(q) && n <= q[k].quantity
    ensures Reduced(q, q[k].id, n) == Amended(q, q[k].id, q[k].quantity - n)
  {
    if k == 0 {
      AmendAbsent(q[1..], q[0].id, q[0].quantity - n);
      ReduceAbsent(q[1..], q[0].id, n);
    } else {
      assert q[1..][k - 1] == q[k];
      ReduceIsAmend(q[1..], k - 1, n);
      assert q[0].id != q[k].id;
    }
  }

  lemma {:induction false} TotalAppend(q: Queue, r: Queue)
    ensures Total(q + r) == Total(q) + Total(r)
  {
    if q == [] {
      assert q + r == r;
    } else {
      TotalAppend(q[1..], r);
      assert (q + r)[1..] == q[1..] + r;
    }
  }

  lemma TotalSplit(q: Queue, k: nat)
    requires k < |q|
    ensures Total(q) == Total(q[..k]) + q[k].quantity + Total(q[k + 1..])
  {
    TotalAppend(q[..k], q[k..]);
    assert q == q[..k] + q[k..];
    assert q[k..][1..] == q[k + 1..];
  }

  lemma TotalRemoved(q: Queue, k: nat)
    requires k < |q|
    ensures Total(Removed(q, k)) == Total(q) - q[k].quantity
  {
    TotalSplit(q, k);
    TotalAppend(q[..k], q[k + 1..]);
  }

  lemma TotalReplaced(q: Queue, k: nat, e: Entry)
    requires k < |q|
    ensures Total(q[k := e]) == Total(q) - q[k].quantity + e.quantity
  {
    TotalSplit(q, k);
    var q' := q[k := e];
    TotalSplit(q', k);
    assert q'[..k] == q[..k] && q'[k + 1..] == q[k + 1..];
  }

  /** With positive quantities a queue's total is one entry's quantity only when it is alone. */
  lemma TotalOfOne(q: Queue, k: nat)
    requires k < |q| && forall i :: 0 <= i < |q| ==> q[i].quantity > 0
    ensures Total(q) >= q[k].quantity
    ensures Total(q) == q[k].quantity <==> |q| == 1
  {
    TotalSplit(q, k);
    if |q| == 1 {
      assert q[..k] == [] && q[k + 1..] == [];
    } else if k > 0 {
      assert q[..k][0] == q[0];
    } else {
      assert q[k + 1..][0] == q[1];
    }
  }

  lemma {:induction false} TotalBound(q: Queue)
    ensures Total(q) <= |q| * (TWO_TO_THE_32 - 1)
  {
    if q == [] {
    } else {
      TotalBound(q[1..]);
    }
  }
}
