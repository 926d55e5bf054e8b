/** SingleThreadRingBuffer (includes/utils/single-thread-ring-buffer.hpp): a bounded queue. */
module SingleThreadRings {
  import opened Machine

  class SingleThreadRingBuffer<T> {
    const capacity: nat
    const buffer: array<T>
    var head: nat
    var tail: nat

    ghost predicate Valid()
      reads this
    {
      IsPowerOfTwo(capacity) && capacity > 0 && buffer.Length == capacity && tail <= head <= tail + capacity
    }

    /** The queued items, oldest first. */
    ghost function Items(): (items: seq<T>)
      requires Valid()
      reads this, buffer
      ensures |items| == head - tail
    {
      seq(head - tail, k requires 0 <= k < head - tail && buffer.Length > 0 reads this, buffer =>
        buffer[(tail + k) % buffer.Length])
    }

    constructor (capacity: nat, filler: T)
      requires IsPowerOfTwo(capacity) && capacity > 0
      ensures Valid() && this.capacity == capacity && Items() == [] && fresh(buffer)
    {
      this.capacity := capacity;
      buffer := new T[capacity](_ => filler);
      head, tail := 0, 0;
    }

    method Available() returns (n: nat)
      requires Valid()
      ensures n == capacity - |Items()|
    {
      n := capacity - (head - tail);
    }

    /** `try_push`: the item joins the back unless the queue is full. */
    method TryPush(item: T) returns (pushed: bool)
      requires Valid()
      modifies this`head, buffer
      ensures Valid() && pushed == (|old(Items())| < capacity)
      ensures Items() == if pushed then old(Items()) + [item] else old(Items())
    {
      if head - tail == capacity {
        return false;
      }
      ghost var items := Items();
      buffer[Mask(head, capacity)] := item;
      head := head + 1;
      forall k | 0 <= k < |items| ensures Items()[k] == items[k] {
        SlotsApart(tail + k, head - 1, capacity);
      }
      assert Items() == items + [item];
      return true;
    }

    /** `try_front`. */
    method TryFront() returns (item: Option<T>)
      requires Valid()
      ensures item == if Items() == [] then None else Some(Items()[0])
    {
      if head == tail {
        return None;
      }
      return Some(buffer[Mask(tail, capacity)]);
    }

    method Pop()
      requires Valid()
      modifies this`tail
      ensures Valid() && Items() == if old(Items()) == [] then [] else old(Items())[1..]
    {
      if head != tail {
        tail := tail + 1;
      }
    }
  }
}
