/** LazyRingBuffer (includes/utils/lazy-ring-buffer.hpp): one producer and one consumer claim and
    release slots through 64-bit cursors that wrap around; every load and store a step of its own. */
module LazyRings {
  import opened Machine

  /** Where the producer is: it may hold the writable slot, and may have filled it. */
  datatype Producer<T> = NoSlot | HasSlot(slot: nat) | Filled(slot: nat, item: T)

  /** Where the consumer is: it may hold the readable slot, and may have read it. */
  datatype Consumer<T> = NothingHeld | Held(slot: nat) | Read(slot: nat, item: T)

  /** The ring, its two threads, and what was published and consumed over its whole life. */
  datatype Ring<T> = Ring(
    head: int, tail: int, slots: seq<T>, producer: Producer<T>, consumer: Consumer<T>,
    published: seq<T>, consumed: seq<T>)

  datatype Action<T> = TryGetHead | Fill(item: T) | Publish | TryGetTail | ReadSlot | Consume

  // ---- Steps ----

  predicate Empty(head: int, tail: int) {
    head == tail
  }

  /** The 64-bit difference of the cursors. */
  predicate Full(head: int, tail: int, capacity: nat) {
    (head - tail) % TWO_TO_THE_64 == capacity
  }

  predicate Possible<T>(r: Ring<T>, a: Action<T>) {
    match a
    case TryGetHead => !r.producer.Filled?
    case Fill(_) => !r.producer.NoSlot? && r.producer.slot < |r.slots|
    case Publish => r.producer.Filled? && r.producer.slot < |r.slots|
    case TryGetTail => r.consumer.NothingHeld?
    case ReadSlot => !r.consumer.NothingHeld? && r.consumer.slot < |r.slots|
    case Consume => r.consumer.Read?
  }


  function Next<T>(r: Ring<T>, a: Action<T>, capacity: nat): Ring<T>
    requires |r.slots| == capacity && capacity > 0 && Possible(r, a)
  {
    match a
    case TryGetHead =>
      r.(producer := if Full(r.head, r.tail, capacity) then NoSlot else HasSlot(r.head % capacity))
    case Fill(item) => r.(slots := r.slots[r.producer.slot := item], producer := Filled(r.producer.slot, item))
    case Publish =>
      r.(head := (r.head + 1) % TWO_TO_THE_64, producer := NoSlot, published := r.published + [r.producer.item])
    case TryGetTail =>
      r.(consumer := if Empty(r.head, r.tail) then NothingHeld else Held(r.tail % capacity))
    case ReadSlot => r.(consumer := Read(r.consumer.slot, r.slots[r.consumer.slot]))
    case Consume =>
      r.(tail := (r.tail + 1) % TWO_TO_THE_64, consumer := NothingHeld, consumed := r.consumed + [r.consumer.item])
  }

  // ---- Cursors ----

  /** A wrapped cursor points to the slot of the unwrapped count. */
  lemma WrappedSlot(n: nat, capacity: nat)
    requires IsPowerOfTwo(capacity) && capacity < TWO_TO_THE_64
    ensures capacity > 0 && (n % TWO_TO_THE_64) % capacity == n % capacity
  {
    WordSizes();
    WrappedRemainder(n, capacity, 64);
  }

  // ---- What every run keeps ----

  /** The ring holds exactly what was published and not yet consumed, in order. */
  ghost predicate Inv<T>(r: Ring<T>, capacity: nat) {
    var p, c := |r.published|, |r.consumed|;
    && |r.slots| == capacity && IsPowerOfTwo(capacity) && 0 < capacity < TWO_TO_THE_64
    && c <= p <= c + capacity && r.consumed == r.published[..c]
    && r.head == p % TWO_TO_THE_64 && r.tail == c % TWO_TO_THE_64
    && (forall k {:trigger r.published[k]} :: c <= k < p ==> r.slots[k % capacity] == r.published[k])
    && (!r.producer.NoSlot? ==> p < c + capacity && r.producer.slot == p % capacity)
    && (r.producer.Filled? ==> r.slots[p % capacity] == r.producer.item)
    && (!r.consumer.NothingHeld? ==> c < p && r.consumer.slot == c % capacity)
    && (r.consumer.Read? ==> r.consumer.item == r.published[c])
  }

  /** The wrapped cursors tell full and empty apart exactly. */
  lemma CursorsTell(p: nat, c: nat, capacity: nat)
    requires c <= p <= c + capacity && capacity < TWO_TO_THE_64
    ensures Full(p % TWO_TO_THE_64, c % TWO_TO_THE_64, capacity) <==> p == c + capacity
    ensures Empty(p % TWO_TO_THE_64, c % TWO_TO_THE_64) <==> p == c
  {
    var qp, qc := p / TWO_TO_THE_64, c / TWO_TO_THE_64;
    var rp, rc := p % TWO_TO_THE_64, c % TWO_TO_THE_64;
    assert p - c == TWO_TO_THE_64 * (qp - qc) + (rp - rc);
    if rp >= rc {
      RemainderUnique(rp - rc, TWO_TO_THE_64, 0, rp - rc);
    } else {
      RemainderUnique(rp - rc, TWO_TO_THE_64, -1, rp - rc + TWO_TO_THE_64);
    }
  }

  lemma Successor(n: nat)
    ensures (n % TWO_TO_THE_64 + 1) % TWO_TO_THE_64 == (n + 1) % TWO_TO_THE_64
  {
  }

  lemma StepKeeps<T>(r: Ring<T>, a: Action<T>, capacity: nat)
    requires Inv(r, capacity) && Possible(r, a)
    ensures Inv(Next(r, a, capacity), capacity)
  {
    var p, c := |r.published|, |r.consumed|;
    CursorsTell(p, c, capacity);
    WrappedSlot(p, capacity);
    WrappedSlot(c, capacity);
    match a
    case TryGetHead =>
    case Fill(item) => FillKeeps(r, item, capacity);
    case Publish => PublishKeeps(r, capacity);
    case TryGetTail =>
    case ReadSlot =>
    case Consume => ConsumeKeeps(r, capacity);
  }

  /** Writing the claimed slot touches no item in the ring, the consumer's least of all. */
  lemma FillKeeps<T>(r: Ring<T>, item: T, capacity: nat)
    requires Inv(r, capacity) && Possible(r, Fill(item))
    ensures Inv(Next(r, Fill(item), capacity), capacity)
    ensures r.consumer.Held? ==> r.consumer.slot != r.producer.slot
  {
    var r' := Next(r, Fill(item), capacity);
    var p, c := |r.published|, |r.consumed|;
    forall k | c <= k < p ensures r'.slots[k % capacity] == r'.published[k] && k % capacity != r.producer.slot {
      SlotsApart(k, p, capacity);
      assert r.slots[k % capacity] == r.published[k];
    }
  }

  lemma PublishKeeps<T>(r: Ring<T>, capacity: nat)
    requires Inv(r, capacity) && Possible(r, Publish)
    ensures Inv(Next(r, Publish, capacity), capacity)
  {
    var r' := Next(r, Publish, capacity);
    Successor(|r.published|);
    assert r'.published[..|r.consumed|] == r.published[..|r.consumed|];
    forall k | |r.consumed| <= k < |r'.published| ensures r'.slots[k % capacity] == r'.published[k] {
      if k < |r.published| {
        assert r.slots[k % capacity] == r.published[k];
      }
    }
  }

  lemma ConsumeKeeps<T>(r: Ring<T>, capacity: nat)
    requires Inv(r, capacity) && Possible(r, Consume)
    ensures Inv(Next(r, Consume, capacity), capacity)
  {
    var r' := Next(r, Consume, capacity);
    var c := |r.consumed|;
    Successor(c);
    assert r'.published[..c + 1] == r.published[..c] + [r.published[c]];
  }

  // ---- Runs ----

  function Opening<T>(capacity: nat, filler: T): (r: Ring<T>)
    ensures |r.slots| == capacity
  {
    Ring(0, 0, seq(capacity, _ => filler), NoSlot, NothingHeld, [], [])
  }

  predicate CanRun<T>(r: Ring<T>, steps: seq<Action<T>>, capacity: nat)
    requires |r.slots| == capacity && capacity > 0
    decreases |steps|
  {
    steps == [] || (Possible(r, steps[0]) && CanRun(Next(r, steps[0], capacity), steps[1..], capacity))
  }

  function After<T>(r: Ring<T>, steps: seq<Action<T>>, capacity: nat): (r': Ring<T>)
    requires |r.slots| == capacity && capacity > 0 && CanRun(r, steps, capacity)
    decreases |steps|
  {
    if steps == [] then r else After(Next(r, steps[0], capacity), steps[1..], capacity)
  }

  lemma {:induction false} RunKeeps<T>(r: Ring<T>, steps: seq<Action<T>>, capacity: nat)
    requires Inv(r, capacity) && CanRun(r, steps, capacity)
    ensures Inv(After(r, steps, capacity), capacity)
    decreases |steps|
  {
    if steps != [] {
      StepKeeps(r, steps[0], capacity);
      RunKeeps(Next(r, steps[0], capacity), steps[1..], capacity);
    }
  }

  // ---- What each thread can do ----

  lemma RunsOn<T>(r: Ring<T>, a: Action<T>, rest: seq<Action<T>>, capacity: nat)
    requires |r.slots| == capacity > 0 && Possible(r, a)
    requires |Next(r, a, capacity).slots| == capacity && CanRun(Next(r, a, capacity), rest, capacity)
    ensures CanRun(r, [a] + rest, capacity)
    ensures After(r, [a] + rest, capacity) == After(Next(r, a, capacity), rest, capacity)
  {
    assert ([a] + rest)[1..] == rest;
  }

  /** A producer with nothing written is refused a slot exactly when the ring is full, and otherwise
      publishes any item, wherever the consumer is. */
  lemma ProducerMoves<T>(r: Ring<T>, item: T, capacity: nat)
    requires Inv(r, capacity) && !r.producer.Filled?
    ensures Possible(r, TryGetHead)
    ensures Next(r, TryGetHead, capacity).producer.NoSlot? <==> |r.published| == |r.consumed| + capacity
    ensures |r.published| < |r.consumed| + capacity ==>
      var steps := [TryGetHead, Fill(item), Publish];
      CanRun(r, steps, capacity) && After(r, steps, capacity).published == r.published + [item]
  {
    CursorsTell(|r.published|, |r.consumed|, capacity);
    if |r.published| < |r.consumed| + capacity {
      var steps := [TryGetHead, Fill(item), Publish];
      var r1 := Next(r, TryGetHead, capacity);
      var r2 := Next(r1, Fill(item), capacity);
      RunsOn(r2, Publish, [], capacity);
      RunsOn(r1, Fill(item), [Publish] + [], capacity);
      RunsOn(r, TryGetHead, [Fill(item)] + ([Publish] + []), capacity);
      assert steps == [TryGetHead] + ([Fill(item)] + ([Publish] + []));
    }
  }

  /** A consumer that holds nothing is refused exactly when the ring is empty, and otherwise consumes the
      oldest item waiting, wherever the producer is. */
  lemma ConsumerMoves<T>(r: Ring<T>, capacity: nat)
    requires Inv(r, capacity) && r.consumer.NothingHeld?
    ensures Possible(r, TryGetTail)
    ensures Next(r, TryGetTail, capacity).consumer.NothingHeld? <==> |r.published| == |r.consumed|
    ensures |r.consumed| < |r.published| ==>
      var steps := [TryGetTail, ReadSlot, Consume];
      && CanRun(r, steps, capacity)
      && After(r, steps, capacity).consumed == r.consumed + [r.published[|r.consumed|]]
  {
    CursorsTell(|r.published|, |r.consumed|, capacity);
    WrappedSlot(|r.consumed|, capacity);
    if |r.consumed| < |r.published| {
      var steps: seq<Action<T>> := [TryGetTail, ReadSlot, Consume];
      var r1 := Next(r, TryGetTail, capacity);
      var r2 := Next(r1, ReadSlot, capacity);
      RunsOn(r2, Consume, [], capacity);
      RunsOn(r1, ReadSlot, [Consume] + [], capacity);
      RunsOn(r, TryGetTail, [ReadSlot] + ([Consume] + []), capacity);
      assert steps == [TryGetTail] + ([ReadSlot] + ([Consume] + []));
      assert r.slots[|r.consumed| % capacity] == r.published[|r.consumed|];
    }
  }

  /** In every interleaving, however often the cursors wrap: what was consumed is a prefix of what
      was published, at most `capacity` items wait in between, and the slot the consumer holds is
      never the one the producer writes. */
  lemma RunsAreQueues<T>(steps: seq<Action<T>>, capacity: nat, filler: T)
    requires IsPowerOfTwo(capacity) && 0 < capacity < TWO_TO_THE_64 && CanRun(Opening(capacity, filler), steps, capacity)
    ensures
      var r := After(Opening(capacity, filler), steps, capacity);
      && r.consumed <= r.published && |r.published| <= |r.consumed| + capacity
      && (!r.consumer.NothingHeld? && !r.producer.NoSlot? ==> r.consumer.slot != r.producer.slot)
  {
    var r := After(Opening(capacity, filler), steps, capacity);
    RunKeeps(Opening(capacity, filler), steps, capacity);
    if !r.consumer.NothingHeld? && !r.producer.NoSlot? {
      SlotsApart(|r.consumed|, |r.published|, capacity);
    }
  }
}
