/** The free-stack allocator of includes/order-book/order-pool.hpp. */
module OrderPools {
  import opened Machine
  import opened Orders

  /** The cells after the neighbours `left` and `right` were pointed at each other. */
  function Joined(orders: seq<RestingOrder>, left: Index, right: Index): seq<RestingOrder>
    requires left < |orders| && right < |orders|
  {
    var before := orders[left := orders[left].(next := right)];
    before[right := before[right].(previous := left)]
  }

  /** The cells after the neighbours on either side of a leaving cell were pointed at each other. */
  function Bridged(orders: seq<RestingOrder>, p: Index, n: Index): seq<RestingOrder>
    requires p < |orders| || p == NULL_INDEX
    requires n < |orders| || n == NULL_INDEX
    requires |orders| <= NULL_INDEX
  {
    var left := if p != NULL_INDEX then orders[p := orders[p].(next := n)] else orders;
    if n != NULL_INDEX then left[n := left[n].(previous := p)] else left
  }

  /** `live` is the set of indices handed out and not yet given back; the free stack below
      `topIndex` lists exactly the others, each once. */
  class OrderPool {
    const capacity: nat
    const orders: array<RestingOrder>
    const freeStack: array<Index>
    var topIndex: nat
    ghost var live: set<Index>

    ghost predicate Valid()
      reads this, freeStack
    {
      && capacity <= NULL_INDEX
      && orders.Length == capacity && freeStack.Length == capacity
      && topIndex <= capacity
      && (forall i :: 0 <= i < topIndex ==> freeStack[i] < capacity && freeStack[i] !in live)
      && (forall i, j :: 0 <= i < j < topIndex ==> freeStack[i] != freeStack[j])
      && (forall x: Index :: x in live ==> x < capacity)
      && topIndex + |live| == capacity
    }

    constructor (capacity: nat, blank: RestingOrder)
      requires capacity <= NULL_INDEX
      ensures Valid() && live == {} && this.capacity == capacity && topIndex == capacity
      ensures fresh(orders) && fresh(freeStack)
    {
      this.capacity := capacity;
      orders := new RestingOrder[capacity](_ => blank);
      freeStack := new Index[capacity](i requires 0 <= i < capacity => i as Index);
      topIndex := capacity;
      live := {};
    }

    /** Hands out the index on top of the stack and stores the order there. */
    method Allocate(order: RestingOrder) returns (index: Index)
      requires Valid() && topIndex > 0
      modifies this`topIndex, this`live, orders
      ensures Valid()
      ensures index < capacity && index !in old(live) && live == old(live) + {index}
      ensures topIndex == old(topIndex) - 1
      ensures orders[..] == old(orders[..])[index := order]
    {
      topIndex := topIndex - 1;
      index := freeStack[topIndex];
      orders[index] := order;
      live := live + {index};
    }

    /** Gives a live index back. */
    method Free(index: Index)
      requires Valid() && index in live
      modifies this`topIndex, this`live, freeStack
      ensures Valid()
      ensures live == old(live) - {index} && topIndex == old(topIndex) + 1
    {
      live := live - {index};
      freeStack[topIndex] := index;
      topIndex := topIndex + 1;
    }

    /** Point two cells at each other, through references obtained from `get`. */
    method Join(left: Index, right: Index)
      requires orders.Length == capacity && left < capacity && right < capacity
      modifies orders
      ensures orders[..] == Joined(old(orders[..]), left, right)
    {
      orders[left] := orders[left].(next := right);
      orders[right] := orders[right].(previous := left);
    }

    /** Point the cells on either side of a leaving cell at each other; NULL_INDEX is no cell. */
    method Bridge(p: Index, n: Index)
      requires orders.Length == capacity <= NULL_INDEX
      requires (p < capacity || p == NULL_INDEX) && (n < capacity || n == NULL_INDEX)
      modifies orders
      ensures orders[..] == Bridged(old(orders[..]), p, n)
    {
      if p != NULL_INDEX {
        orders[p] := orders[p].(next := n);
      }
      if n != NULL_INDEX {
        orders[n] := orders[n].(previous := p);
      }
    }

    /** Every index below the capacity is either live or on the free stack. */
    lemma Partition(x: Index)
      requires Valid() && x < capacity
      ensures x in live <==> x !in freeStack[..topIndex]
    {
      if x !in live && x !in freeStack[..topIndex] {
        var listed := Listed(topIndex);
        var everyone := Below(capacity);
        assert listed + live <= everyone - {x};
        SubsetSize(listed + live, everyone - {x});
      }
    }

    lemma {:induction false} Listed(n: nat) returns (s: set<Index>)
      requires Valid() && n <= topIndex
      ensures |s| == n && s !! live
      ensures forall x :: x in s <==> x in freeStack[..n]
      decreases n
    {
      if n == 0 {
        s := {};
      } else {
        var rest := Listed(n - 1);
        assert freeStack[..n] == freeStack[..n - 1] + [freeStack[n - 1]];
        s := rest + {freeStack[n - 1]};
      }
    }

    static lemma {:induction false} Below(n: nat) returns (s: set<Index>)
      requires n <= NULL_INDEX
      ensures |s| == n && forall x: Index :: x in s <==> x < n
    {
      if n == 0 {
        s := {};
      } else {
        var rest := Below(n - 1);
        s := rest + {n - 1};
      }
    }
  }
}
