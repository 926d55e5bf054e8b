/** A bag with random removal (includes/utils/random-container.hpp). */
module RandomContainers {
  import opened Machine

  /** `s` with the last element moved into place `i`. */
  function SwapRemoved<T>(s: seq<T>, i: nat): seq<T>
    requires i < |s|
  {
    s[i := s[|s| - 1]][..|s| - 1]
  }

  /** Exactly one occurrence of the chosen element is gone. */
  lemma SwapRemovedItems<T>(s: seq<T>, i: nat)
    requires i < |s|
    ensures multiset(SwapRemoved(s, i)) == multiset(s) - multiset{s[i]}
  {
    var n := |s| - 1;
    if i == n {
      assert s == s[..n] + [s[n]] && SwapRemoved(s, i) == s[..n];
    } else {
      assert s == s[..i] + [s[i]] + s[i + 1..n] + [s[n]];
      assert SwapRemoved(s, i) == s[..i] + [s[n]] + s[i + 1..n];
      Rearranged(multiset(s[..i]), s[i], multiset(s[i + 1..n]), s[n]);
    }
  }

  lemma Rearranged<T>(a: multiset<T>, x: T, b: multiset<T>, y: T)
    ensures a + multiset{y} + b == a + multiset{x} + b + multiset{y} - multiset{x}
  {
  }

  class RandomContainer<T> {
    const capacity: nat
    const buffer: array<T>
    var size: nat

    ghost predicate Valid()
      reads this
    {
      size <= capacity == buffer.Length
    }

    ghost function Items(): seq<T>
      requires Valid()
      reads this, buffer
    {
      buffer[..size]
    }

    constructor (capacity: nat, filler: T)
      ensures Valid() && this.capacity == capacity && Items() == [] && fresh(buffer)
    {
      this.capacity := capacity;
      buffer := new T[capacity](_ => filler);
      size := 0;
    }

    method Add(item: T) returns (added: bool)
      requires Valid()
      modifies this`size, buffer
      ensures Valid() && added == (|old(Items())| < capacity)
      ensures Items() == if added then old(Items()) + [item] else old(Items())
    {
      if size < capacity {
        buffer[size] := item;
        size := size + 1;
        return true;
      }
      return false;
    }

    /** `remove_random`: any element, whose place the last one takes. */
    method RemoveRandom() returns (item: Option<T>)
      requires Valid()
      modifies this`size, buffer
      ensures Valid() && (item == None <==> old(Items()) == [])
      ensures item == None ==> Items() == old(Items())
      ensures item.Some? ==>
        exists i :: 0 <= i < |old(Items())| && item.value == old(Items())[i] && Items() == SwapRemoved(old(Items()), i)
    {
      if size == 0 {
        return None;
      }
      var index: nat :| index < size;
      ghost var was := Items();
      item := Some(buffer[index]);
      if index != size - 1 {
        buffer[index] := buffer[size - 1];
      }
      size := size - 1;
      assert Items() == SwapRemoved(was, index);
    }

    method Size() returns (n: nat)
      requires Valid()
      ensures n == |Items()|
    {
      n := size;
    }
  }
}
