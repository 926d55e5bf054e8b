/** CircularCache (includes/utils/circular-cache.hpp): one writer, one reader, every slot behind a
    sequence lock; every load and store a step of its own. */
module CircularCaching {
  import opened Machine

  // The 32-bit sequence value that marks a slot being written.
  const IS_LOCKED: int := TWO_TO_THE_32 - 1

  datatype Result<T> = Ok(item: T) | DataTooOld | DataDoesNotExist | ConcurrentWrite

  /** Where the writer is in `put_item`. */
  datatype Putter = Resting | Locking | Storing

  /** Where the reader is in `try_get_item`; `seen` is how many puts were complete at its first load. */
  datatype Getter<T> =
    | Waiting
    | Matched(index: nat, seen: nat)
    | Fetched(index: nat, seen: nat, item: T)
    | Answered(index: nat, seen: nat, result: Result<T>)

  /** The cache and its two threads; `history` is every item whose put has begun. */
  datatype Cache<T> = Cache(
    sequence: seq<int>, buffer: seq<T>, written: nat, putter: Putter, getter: Getter<T>, history: seq<T>)

  datatype Action<T> =
    | Lock(item: T)
    | Store
    | Unlock
    | FirstLoad(index: nat)
    | LoadData
    | SecondLoad

  // ---- Steps ----

  predicate Possible<T>(c: Cache<T>, a: Action<T>) {
    match a
    case Lock(_) => c.putter.Resting?
    case Store => c.putter.Locking?
    case Unlock => c.putter.Storing?
    case FirstLoad(index) => index < TWO_TO_THE_32 && (c.getter.Waiting? || c.getter.Answered?)
    case LoadData => c.getter.Matched?
    case SecondLoad => c.getter.Fetched?
  }

  predicate Sized<T>(c: Cache<T>, capacity: nat) {
    && capacity > 0 && |c.sequence| == capacity && |c.buffer| == capacity
    && |c.history| == c.written + (if c.putter.Resting? then 0 else 1)
  }

  function At(index: nat, capacity: nat): (slot: nat)
    requires capacity > 0
    ensures slot < capacity
  {
    index % capacity
  }

  /** What the reader makes of its first load. */
  function Checked<T>(index: nat, seen: nat, sequence: int): Getter<T> {
    if sequence == IS_LOCKED then Answered(index, seen, ConcurrentWrite)
    else if sequence < index then Answered(index, seen, DataDoesNotExist)
    else if sequence > index then Answered(index, seen, DataTooOld)
    else Matched(index, seen)
  }

  function Next<T>(c: Cache<T>, a: Action<T>, capacity: nat): (c': Cache<T>)
    requires Sized(c, capacity) && Possible(c, a)
    ensures Sized(c', capacity)
  {
    var slot := At(c.written, capacity);
    match a
    case Lock(item) => c.(sequence := c.sequence[slot := IS_LOCKED], putter := Locking, history := c.history + [item])
    case Store => c.(buffer := c.buffer[slot := c.history[|c.history| - 1]], putter := Storing)
    case Unlock =>
      c.(sequence := c.sequence[slot := c.written % TWO_TO_THE_32], putter := Resting, written := c.written + 1)
    case FirstLoad(index) => c.(getter := Checked(index, c.written, c.sequence[At(index, capacity)]))
    case LoadData => c.(getter := Fetched(c.getter.index, c.getter.seen, c.buffer[At(c.getter.index, capacity)]))
    case SecondLoad =>
      var g := c.getter;
      c.(getter := Answered(g.index, g.seen,
        if c.sequence[At(g.index, capacity)] == g.index then Ok(g.item) else ConcurrentWrite))
  }

  // ---- What every run keeps ----

  /** An item still in its slot. */
  ghost predicate Stored<T>(c: Cache<T>, k: nat, capacity: nat)
    requires Sized(c, capacity)
  {
    k < |c.history| && c.sequence[At(k, capacity)] == k % TWO_TO_THE_32 && c.buffer[At(k, capacity)] == c.history[k]
  }

  /** The writer has begun to overwrite item `k`. */
  predicate Overwritten<T>(c: Cache<T>, k: nat, capacity: nat) {
    c.written > k + capacity || (c.written == k + capacity && !c.putter.Resting?)
  }

  ghost predicate SlotsOk<T>(c: Cache<T>, capacity: nat, filler: T)
    requires Sized(c, capacity)
  {
    // what was put last in each slot is there
    && (forall k: nat {:trigger Stored(c, k, capacity)} ::
        k < c.written && !Overwritten(c, k, capacity) ==> Stored(c, k, capacity))
    // slots never written read as sequence 0
    && (forall s: nat :: c.written <= s < capacity && (s == c.written ==> c.putter.Resting?) ==>
        c.sequence[s] == 0 && c.buffer[s] == filler)
    // the slot being written
    && (!c.putter.Resting? ==> c.sequence[At(c.written, capacity)] == IS_LOCKED)
    && (c.putter.Storing? ==> c.buffer[At(c.written, capacity)] == c.history[|c.history| - 1])
    && (c.putter.Locking? && c.written == 0 ==> c.buffer[0] == filler)
  }

  /** A get that answers item `index` by what was put as item `index`; or, asked for item 0
      before any put was complete, by the initial contents of the cache. */
  ghost predicate Right<T>(c: Cache<T>, index: nat, seen: nat, item: T, filler: T) {
    (index < |c.history| && item == c.history[index]) || (index == 0 && seen == 0 && item == filler)
  }

  /** A put of an item that shares the slot of item `index` was under way at or after the first load. */
  ghost predicate Disturbed<T>(c: Cache<T>, index: nat, seen: nat, capacity: nat)
    requires capacity > 0
  {
    exists k: nat :: seen <= k < |c.history| && At(k, capacity) == At(index, capacity)
  }

  ghost predicate GetterOk<T>(c: Cache<T>, capacity: nat, filler: T)
    requires Sized(c, capacity)
  {
    match c.getter
    case Waiting => true
    case Matched(index, seen) =>
      seen <= c.written && seen <= index + capacity && (index < seen || (index == 0 && seen == 0))
    case Fetched(index, seen, item) =>
      && seen <= c.written && seen <= index + capacity && (index < seen || (index == 0 && seen == 0))
      && (Right(c, index, seen, item, filler) || Overwritten(c, index, capacity))
    case Answered(index, seen, result) =>
      match result
      case Ok(item) => Right(c, index, seen, item, filler)
      case DataTooOld => index + capacity < seen && seen <= c.written
      case DataDoesNotExist => seen <= index
      case ConcurrentWrite => Disturbed(c, index, seen, capacity)
  }

  ghost predicate Inv<T>(c: Cache<T>, capacity: nat, filler: T) {
    && Sized(c, capacity) && c.written < IS_LOCKED
    && SlotsOk(c, capacity, filler) && GetterOk(c, capacity, filler)
  }

  // ---- Slots ----

  /** The item last put in a slot that was ever written. */
  lemma LastIn(written: nat, slot: nat, capacity: nat) returns (k: nat)
    requires slot < capacity && slot < written
    ensures k < written <= k + capacity && At(k, capacity) == slot
  {
    var d := (written - 1 - slot) % capacity;
    var q := (written - 1 - slot) / capacity;
    k := written - 1 - d;
    assert k == capacity * q + slot;
    RemainderUnique(k, capacity, q, slot);
  }

  /** What the first load sees. */
  lemma FirstLoadSees<T>(c: Cache<T>, index: nat, capacity: nat, filler: T)
    requires Inv(c, capacity, filler)
    ensures
      var q := c.sequence[At(index, capacity)];
      || (q == IS_LOCKED && !c.putter.Resting? && At(index, capacity) == At(c.written, capacity))
      || (0 <= q < c.written <= q + capacity && At(q, capacity) == At(index, capacity) && !Overwritten(c, q, capacity))
      || (q == 0 && c.written <= At(index, capacity))
  {
    var slot := At(index, capacity);
    if !c.putter.Resting? && slot == At(c.written, capacity) {
    } else if slot < c.written {
      var k := LastIn(c.written, slot, capacity);
      if c.written == k + capacity {
        NextLap(k, capacity);
      }
      assert Stored(c, k, capacity);
      RemainderOfSmall(k, TWO_TO_THE_32);
    } else {
      RemainderOfSmall(slot, capacity);
      assert c.sequence[slot] == 0;
    }
  }

  lemma SlotOfIndex(index: nat, capacity: nat)
    requires capacity > 0
    ensures At(index, capacity) <= index
  {
  }

  lemma FirstLoadKeeps<T>(c: Cache<T>, index: nat, capacity: nat, filler: T)
    requires Inv(c, capacity, filler) && Possible(c, FirstLoad(index))
    ensures Inv(Next(c, FirstLoad(index), capacity), capacity, filler)
  {
    var c' := Next(c, FirstLoad(index), capacity);
    FirstLoadSees(c, index, capacity, filler);
    SlotOfIndex(index, capacity);
    var q, slot := c.sequence[At(index, capacity)], At(index, capacity);
    if 0 <= q && q != index && At(q, capacity) == slot {
      LapsApart(index, q, capacity);
    }
    SameStore(c, c', capacity, filler);
    hide At, SlotsOk;
    if q == IS_LOCKED {
      assert At(c.written, capacity) == slot && c.written < |c.history|;
    }
  }

  lemma LapsApart(i: nat, j: nat, capacity: nat)
    requires capacity > 0 && i != j && At(i, capacity) == At(j, capacity)
    ensures i + capacity <= j || j + capacity <= i
  {
    if i < j {
      SameSlotFarApart(i, j, capacity);
    } else {
      SameSlotFarApart(j, i, capacity);
    }
  }

  /** Only the reader moved. */
  lemma SameStore<T>(c: Cache<T>, c': Cache<T>, capacity: nat, filler: T)
    requires Sized(c, capacity) && SlotsOk(c, capacity, filler) && c' == c.(getter := c'.getter)
    ensures Sized(c', capacity) && SlotsOk(c', capacity, filler)
  {
    hide At;
    forall k: nat | k < c'.written && !Overwritten(c', k, capacity) ensures Stored(c', k, capacity) {
      assert Stored(c, k, capacity);
    }
  }

  lemma LoadDataKeeps<T>(c: Cache<T>, capacity: nat, filler: T)
    requires Inv(c, capacity, filler) && Possible(c, LoadData)
    ensures Inv(Next(c, LoadData, capacity), capacity, filler)
  {
    var index := c.getter.index;
    SlotOfIndex(0, capacity);
    if index < c.written && !Overwritten(c, index, capacity) {
      assert Stored(c, index, capacity);
    }
    SameStore(c, Next(c, LoadData, capacity), capacity, filler);
  }

  lemma SecondLoadKeeps<T>(c: Cache<T>, capacity: nat, filler: T)
    requires Inv(c, capacity, filler) && Possible(c, SecondLoad)
    ensures Inv(Next(c, SecondLoad, capacity), capacity, filler)
  {
    var c' := Next(c, SecondLoad, capacity);
    var g := c.getter;
    var q := c.sequence[At(g.index, capacity)];
    FirstLoadSees(c, g.index, capacity, filler);
    SlotOfIndex(g.index, capacity);
    SameStore(c, c', capacity, filler);
    if 0 <= q < c.written && q != g.index && At(q, capacity) == At(g.index, capacity) {
      LapsApart(g.index, q, capacity);
    }
    if c.written == g.index + capacity {
      NextLap(g.index, capacity);
    }
    hide At, SlotsOk;
    if q != g.index {
      var k: nat := if q == IS_LOCKED then c.written else q;
      assert g.seen <= k < |c'.history| && At(k, capacity) == At(g.index, capacity);
    }
  }

  /** Whatever the reader knows outlives a step of the writer. */
  lemma GetterOutlives<T>(c: Cache<T>, c': Cache<T>, capacity: nat, filler: T)
    requires Sized(c, capacity) && Sized(c', capacity) && GetterOk(c, capacity, filler)
    requires c'.getter == c.getter && c.history <= c'.history && c.written <= c'.written
    requires c.written == c'.written && !c.putter.Resting? ==> !c'.putter.Resting?
    ensures GetterOk(c', capacity, filler)
  {
    if c.getter.Answered? && c.getter.result.ConcurrentWrite? {
      var k: nat :| c.getter.seen <= k < |c.history| && At(k, capacity) == At(c.getter.index, capacity);
      assert k < |c'.history|;
    }
  }

  // The store stays in order under every step of the writer, however many puts there were.

  lemma LockKeepsStore<T>(c: Cache<T>, item: T, capacity: nat, filler: T)
    requires Sized(c, capacity) && SlotsOk(c, capacity, filler) && Possible(c, Lock(item))
    ensures SlotsOk(Next(c, Lock(item), capacity), capacity, filler)
  {
    var c' := Next(c, Lock(item), capacity);
    SlotOfIndex(c.written, capacity);
    SlotIsOwn(c, capacity);
    if c.written < capacity {
      RemainderOfSmall(c.written, capacity);
    }
    hide At;
    forall k: nat | k < c.written && !Overwritten(c', k, capacity) ensures Stored(c', k, capacity) {
      assert Stored(c, k, capacity);
    }
  }

  /** The slot of the next put is that of no item still stored but the oldest. */
  lemma SlotIsOwn<T>(c: Cache<T>, capacity: nat)
    requires capacity > 0
    ensures forall k: nat {:trigger At(k, capacity)} :: k < c.written < k + capacity ==> At(k, capacity) != At(c.written, capacity)
  {
    forall k: nat {:trigger At(k, capacity)} | k < c.written < k + capacity
      ensures At(k, capacity) != At(c.written, capacity)
    {
      SlotsApart(k, c.written, capacity);
    }
  }

  lemma StoreKeepsStore<T>(c: Cache<T>, capacity: nat, filler: T)
    requires Sized(c, capacity) && SlotsOk(c, capacity, filler) && Possible(c, Store)
    ensures SlotsOk(Next(c, Store, capacity), capacity, filler)
  {
    var c' := Next(c, Store, capacity);
    SlotIsOwn(c, capacity);
    if c.written < capacity {
      RemainderOfSmall(c.written, capacity);
    }
    hide At;
    forall k: nat | k < c.written && !Overwritten(c', k, capacity) ensures Stored(c', k, capacity) {
      assert Stored(c, k, capacity);
    }
  }

  lemma UnlockKeepsStore<T>(c: Cache<T>, capacity: nat, filler: T)
    requires Sized(c, capacity) && SlotsOk(c, capacity, filler) && Possible(c, Unlock)
    ensures SlotsOk(Next(c, Unlock, capacity), capacity, filler)
  {
    var c' := Next(c, Unlock, capacity);
    SlotIsOwn(c, capacity);
    if c.written < capacity {
      RemainderOfSmall(c.written, capacity);
    }
    hide At;
    forall k: nat | k < c'.written && !Overwritten(c', k, capacity) ensures Stored(c', k, capacity) {
      if k < c.written {
        assert Stored(c, k, capacity);
      }
    }
  }

  /** Every step of the writer and of the reader keeps the store in order. */
  lemma StepKeepsStore<T>(c: Cache<T>, a: Action<T>, capacity: nat, filler: T)
    requires Sized(c, capacity) && SlotsOk(c, capacity, filler) && Possible(c, a)
    ensures SlotsOk(Next(c, a, capacity), capacity, filler)
  {
    match a
    case Lock(item) => LockKeepsStore(c, item, capacity, filler);
    case Store => StoreKeepsStore(c, capacity, filler);
    case Unlock => UnlockKeepsStore(c, capacity, filler);
    case _ => SameStore(c, Next(c, a, capacity), capacity, filler);
  }

  /** Every step keeps the cache in order, as long as the 32-bit sequence has not run out. */
  lemma StepKeeps<T>(c: Cache<T>, a: Action<T>, capacity: nat, filler: T)
    requires Inv(c, capacity, filler) && Possible(c, a) && (a.Unlock? ==> c.written + 1 < IS_LOCKED)
    ensures Inv(Next(c, a, capacity), capacity, filler)
  {
    StepKeepsStore(c, a, capacity, filler);
    match a
    case Lock(_) => GetterOutlives(c, Next(c, a, capacity), capacity, filler);
    case Store => GetterOutlives(c, Next(c, a, capacity), capacity, filler);
    case Unlock => GetterOutlives(c, Next(c, a, capacity), capacity, filler);
    case FirstLoad(index) => FirstLoadKeeps(c, index, capacity, filler);
    case LoadData => LoadDataKeeps(c, capacity, filler);
    case SecondLoad => SecondLoadKeeps(c, capacity, filler);
  }

  // ---- Runs ----

  function Opening<T>(capacity: nat, filler: T): (c: Cache<T>)
    requires capacity > 0
    ensures Sized(c, capacity)
  {
    Cache(seq(capacity, _ => 0), seq(capacity, _ => filler), 0, Resting, Waiting, [])
  }

  predicate CanRun<T>(c: Cache<T>, steps: seq<Action<T>>, capacity: nat)
    requires Sized(c, capacity)
    decreases |steps|
  {
    steps == [] || (Possible(c, steps[0]) && CanRun(Next(c, steps[0], capacity), steps[1..], capacity))
  }

  function After<T>(c: Cache<T>, steps: seq<Action<T>>, capacity: nat): (c': Cache<T>)
    requires Sized(c, capacity) && CanRun(c, steps, capacity)
    ensures Sized(c', capacity)
    decreases |steps|
  {
    if steps == [] then c else After(Next(c, steps[0], capacity), steps[1..], capacity)
  }

  /** How many puts a run completes. */
  function Puts<T>(steps: seq<Action<T>>): nat {
    if steps == [] then 0 else (if steps[0].Unlock? then 1 else 0) + Puts(steps[1..])
  }

  lemma {:induction false} RunKeeps<T>(c: Cache<T>, steps: seq<Action<T>>, capacity: nat, filler: T)
    requires Inv(c, capacity, filler) && CanRun(c, steps, capacity)
    requires c.written + Puts(steps) < IS_LOCKED
    ensures Inv(After(c, steps, capacity), capacity, filler)
    decreases |steps|
  {
    if steps != [] {
      StepKeeps(c, steps[0], capacity, filler);
      RunKeeps(Next(c, steps[0], capacity), steps[1..], capacity, filler);
    }
  }

  /** Every answer of every interleaving is truthful: an item is the one put under that index (or,
      for item 0 asked for before any put was complete, the initial contents), too old means
      overwritten, does not exist means not yet published when asked, and a concurrent write is a
      put that shared the slot. */
  lemma AnswersTruthful<T>(steps: seq<Action<T>>, capacity: nat, filler: T)
    requires capacity > 0 && CanRun(Opening(capacity, filler), steps, capacity) && Puts(steps) < IS_LOCKED
    ensures GetterOk(After(Opening(capacity, filler), steps, capacity), capacity, filler)
  {
    var c := Opening(capacity, filler);
    assert Inv(c, capacity, filler);
    RunKeeps(c, steps, capacity, filler);
  }

  /** An item asked for once the first put was complete, or under any index but 0, is the item put
      under that index. */
  lemma AnsweredItem<T>(c: Cache<T>, capacity: nat, filler: T)
    requires Sized(c, capacity) && GetterOk(c, capacity, filler) && c.getter.Answered? && c.getter.result.Ok?
    requires c.getter.index > 0 || c.getter.seen > 0
    ensures c.getter.index < |c.history| && c.getter.result.item == c.history[c.getter.index]
  {
  }

  /** An empty cache answers a request for item 0 with its initial contents. */
  lemma EmptyCacheAnswers<T>(capacity: nat, filler: T)
    requires capacity > 0
    ensures
      var c, steps := Opening(capacity, filler), [FirstLoad(0), LoadData, SecondLoad];
      && CanRun(c, steps, capacity)
      && After(c, steps, capacity).getter == Answered(0, 0, Ok(filler)) && After(c, steps, capacity).history == []
  {
    var c0 := Opening(capacity, filler);
    var steps: seq<Action<T>> := [FirstLoad(0), LoadData, SecondLoad];
    SlotOfIndex(0, capacity);
    var c1 := Next(c0, FirstLoad(0), capacity);
    var c2 := Next(c1, LoadData, capacity);
    var c3 := Next(c2, SecondLoad, capacity);
    assert steps[1..] == [LoadData, SecondLoad] && steps[1..][1..] == [SecondLoad] && steps[1..][1..][1..] == [];
    assert After(c2, [SecondLoad], capacity) == c3 && After(c1, [LoadData, SecondLoad], capacity) == c3;
  }

  // ---- More puts than the 32-bit sequence can count ----

  /** A put whose item is still in its slot at rest, under the 32-bit index of item `item`. */
  predicate AnswersFor(written: nat, capacity: nat, item: nat, k: nat) {
    k < written <= k + capacity && k % TWO_TO_THE_32 == item % TWO_TO_THE_32 && k % TWO_TO_THE_32 != IS_LOCKED
  }

  /** A get with no put under way. */
  function QuietGet<T>(c: Cache<T>, index: nat, capacity: nat): (c': Cache<T>)
    requires Sized(c, capacity) && Possible(c, FirstLoad(index))
    ensures Sized(c', capacity) && c'.getter.Answered?
  {
    var c1 := Next(c, FirstLoad(index), capacity);
    if c1.getter.Answered? then c1 else Next(Next(c1, LoadData, capacity), SecondLoad, capacity)
  }

  /** What a slot holds while no put is under way. */
  lemma QuietSlot<T>(c: Cache<T>, slot: nat, capacity: nat, filler: T) returns (k: Option<nat>)
    requires Sized(c, capacity) && SlotsOk(c, capacity, filler) && c.putter.Resting? && slot < capacity
    ensures k == None ==> c.written <= slot && c.sequence[slot] == 0 && c.buffer[slot] == filler
    ensures k.Some? ==>
      && k.value < c.written <= k.value + capacity && At(k.value, capacity) == slot && Stored(c, k.value, capacity)
  {
    if c.written <= slot {
      return None;
    }
    var last := LastIn(c.written, slot, capacity);
    assert Stored(c, last, capacity);
    return Some(last);
  }

  lemma IndexSlot(k: nat, capacity: nat)
    requires IsPowerOfTwo(capacity) && capacity <= TWO_TO_THE_32
    ensures capacity > 0 && At(k % TWO_TO_THE_32, capacity) == At(k, capacity)
  {
    WordSizes();
    WrappedRemainder(k, capacity, 32);
  }

  /** Two puts of one lap with the same 32-bit index are the same put. */
  lemma SamePut(i: nat, j: nat, written: nat, capacity: nat)
    requires capacity <= TWO_TO_THE_32 && i % TWO_TO_THE_32 == j % TWO_TO_THE_32
    requires i < written <= i + capacity && j < written <= j + capacity
    ensures i == j
  {
    if i < j {
      SameSlotFarApart(i, j, TWO_TO_THE_32);
    } else if j < i {
      SameSlotFarApart(j, i, TWO_TO_THE_32);
    }
  }

  /** Asked for an item by its 32-bit index after any number of puts, a cache at rest answers exactly
      with the put that AnswersFor names, or, before the first put, item 0 with the initial contents. */
  lemma QuietAnswer<T>(c: Cache<T>, item: nat, capacity: nat, filler: T)
    requires IsPowerOfTwo(capacity) && capacity <= TWO_TO_THE_32
    requires Sized(c, capacity) && SlotsOk(c, capacity, filler) && c.putter.Resting?
    requires c.getter.Waiting? || c.getter.Answered?
    ensures
      var r := QuietGet(c, item % TWO_TO_THE_32, capacity).getter.result;
      && (r.Ok? <==> (exists k: nat :: AnswersFor(c.written, capacity, item, k)) || (c.written == 0 && item % TWO_TO_THE_32 == 0))
      && forall k: nat :: AnswersFor(c.written, capacity, item, k) ==> r == Ok(c.history[k])
  {
    var index := item % TWO_TO_THE_32;
    var slot := At(index, capacity);
    var last := QuietSlot(c, slot, capacity, filler);
    SlotOfIndex(index, capacity);
    IndexSlot(item, capacity);
    forall k: nat | AnswersFor(c.written, capacity, item, k) ensures last == Some(k) {
      IndexSlot(k, capacity);
      OneLastPut(k, last, c.written, slot, capacity);
    }
    if last.Some? && last.value % TWO_TO_THE_32 == index && index != IS_LOCKED {
      assert AnswersFor(c.written, capacity, item, last.value);
    }
  }

  lemma OneLastPut(k: nat, last: Option<nat>, written: nat, slot: nat, capacity: nat)
    requires capacity > 0 && k < written <= k + capacity && At(k, capacity) == slot
    requires last == None ==> written <= slot
    requires last.Some? ==> last.value < written <= last.value + capacity && At(last.value, capacity) == slot
    ensures last == Some(k)
  {
    SlotOfIndex(k, capacity);
    if last.Some? && last.value != k {
      LapsApart(k, last.value, capacity);
    }
  }

  /** The answer is another item's exactly when some other put of the current lap has the 32-bit index
      of the item asked for. */
  ghost predicate Misanswered(written: nat, capacity: nat, item: nat) {
    exists k: nat :: k != item && AnswersFor(written, capacity, item, k)
  }

  /** A get of item `item` is answered with the item put as another one if and only if Misanswered. */
  lemma MisansweredExactly<T>(c: Cache<T>, item: nat, capacity: nat, filler: T)
    requires IsPowerOfTwo(capacity) && capacity <= TWO_TO_THE_32 && c.written > 0
    requires Sized(c, capacity) && SlotsOk(c, capacity, filler) && c.putter.Resting?
    requires c.getter.Waiting? || c.getter.Answered?
    ensures
      var r := QuietGet(c, item % TWO_TO_THE_32, capacity).getter.result;
      Misanswered(c.written, capacity, item) <==> r.Ok? && !AnswersFor(c.written, capacity, item, item)
  {
    QuietAnswer(c, item, capacity, filler);
    if AnswersFor(c.written, capacity, item, item) {
      forall k: nat | AnswersFor(c.written, capacity, item, k) ensures k == item {
        SamePut(k, item, c.written, capacity);
      }
    }
  }

  /** Below 2^32 puts only an item number beyond 32 bits is answered wrongly, and exactly while its low
      32 bits name an item still cached. */
  lemma MisansweredEarly(written: nat, capacity: nat, item: nat)
    requires written <= IS_LOCKED && capacity > 0
    ensures
      var k := item % TWO_TO_THE_32;
      Misanswered(written, capacity, item) <==> item >= TWO_TO_THE_32 && k < written <= k + capacity
  {
    var k := item % TWO_TO_THE_32;
    RemainderOfSmall(k, TWO_TO_THE_32);
    if k < written <= k + capacity {
      assert AnswersFor(written, capacity, item, k);
    }
    if j: nat :| j != item && AnswersFor(written, capacity, item, j) {
      RemainderOfSmall(j, TWO_TO_THE_32);
    }
    if item < TWO_TO_THE_32 {
      RemainderOfSmall(item, TWO_TO_THE_32);
    }
  }

  /** After 2^32 + 1 puts item 2^32 is answered rightly under index 0, and item 0 with it. */
  lemma MisansweredLate(capacity: nat)
    requires capacity > 0
    ensures AnswersFor(TWO_TO_THE_32 + 1, capacity, TWO_TO_THE_32, TWO_TO_THE_32)
    ensures Misanswered(TWO_TO_THE_32 + 1, capacity, 0)
  {
    assert AnswersFor(TWO_TO_THE_32 + 1, capacity, 0, TWO_TO_THE_32);
  }
}
