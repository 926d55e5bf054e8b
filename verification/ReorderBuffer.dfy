/** ReorderBuffer (includes/utils/reorder-buffer.hpp) as a machine of atomic steps: any number of
    writers, one reader, every load, store and compare-exchange a step of its own. */
module ReorderBuffering {
  import opened Machine

  datatype Status = Empty | Locked | Ready

  datatype WriteStatus = LikelySlowReader | LikelySlowWriter | Success | AlreadyWritten

  datatype Slot<T> = Slot(data: T, status: Status)

  /** Where a writer is in `try_write_to`. */
  datatype Writer<T> =
    | Free
    // reader_index_ was loaded as `seen`, and `index` lies too far ahead of it
    | Ahead(index: nat, seen: nat)
    // reader_index_ was loaded as `seen`, and `index` passed both checks
    | Checked(index: nat, seen: nat, data: T)
    // the compare-exchange succeeded
    | Claimed(index: nat, data: T)
    // the data was stored
    | Stored(index: nat)
    | Returned(index: nat, result: WriteStatus)

  /** Where the reader is in `try_consume_next`. */
  datatype Reader<T> =
    | Polling
    | SawReady(slot: nat)
    | Holding(slot: nat, item: T)
    // reader_index_ was incremented, and the slot not yet marked empty
    | Clearing(slot: nat)

  /** The buffer and its threads, with two histories: what was consumed, and which indices a
      writer ever claimed. */
  datatype Buffer<T> = Buffer(
    slots: seq<Slot<T>>, reader: nat, writers: seq<Writer<T>>, phase: Reader<T>,
    consumed: seq<T>, claimed: set<nat>)

  datatype Action<T> =
    | Load(w: nat, index: nat, data: T)
    | LookAtReader(w: nat)
    | CompareExchange(w: nat)
    | Store(w: nat)
    | Publish(w: nat)
    | Poll
    | Read
    | Advance
    | Release

  // ---- Steps ----

  predicate Possible<T>(s: Buffer<T>, a: Action<T>) {
    match a
    case Load(w, _, _) => w < |s.writers| && (s.writers[w].Free? || s.writers[w].Returned?)
    case LookAtReader(w) => w < |s.writers| && s.writers[w].Ahead?
    case CompareExchange(w) => w < |s.writers| && s.writers[w].Checked?
    case Store(w) => w < |s.writers| && s.writers[w].Claimed?
    case Publish(w) => w < |s.writers| && s.writers[w].Stored?
    case Poll => s.phase.Polling?
    case Read => s.phase.SawReady? && s.phase.slot < |s.slots|
    case Advance => s.phase.Holding?
    case Release => s.phase.Clearing? && s.phase.slot < |s.slots|
  }

  function At<T>(s: Buffer<T>, index: nat): nat
    requires |s.slots| > 0
  {
    index % |s.slots|
  }

  function WithStatus<T>(s: Buffer<T>, index: nat, status: Status): Buffer<T>
    requires |s.slots| > 0
  {
    s.(slots := s.slots[At(s, index) := s.slots[At(s, index)].(status := status)])
  }

  function WithWriter<T>(s: Buffer<T>, w: nat, writer: Writer<T>): Buffer<T>
    requires w < |s.writers|
  {
    s.(writers := s.writers[w := writer])
  }

  /** The first half of `validate_and_claim_slot`. */
  function AfterLoad<T>(reader: nat, capacity: nat, index: nat, data: T): Writer<T> {
    if index + 1 >= reader + capacity then Ahead(index, reader)
    else if index < reader then Returned(index, AlreadyWritten)
    else Checked(index, reader, data)
  }

  function Next<T>(s: Buffer<T>, a: Action<T>): Buffer<T>
    requires |s.slots| > 0 && Possible(s, a)
  {
    match a
    case Load(w, index, data) => WithWriter(s, w, AfterLoad(s.reader, |s.slots|, index, data))
    case LookAtReader(w) =>
      var status := s.slots[At(s, s.writers[w].seen)].status;
      WithWriter(s, w, Returned(s.writers[w].index, if status == Ready then LikelySlowReader else LikelySlowWriter))
    case CompareExchange(w) =>
      var index := s.writers[w].index;
      if s.slots[At(s, index)].status == Empty then
        WithWriter(WithStatus(s, index, Locked), w, Claimed(index, s.writers[w].data)).(claimed := s.claimed + {index})
      else
        WithWriter(s, w, Returned(index, AlreadyWritten))
    case Store(w) =>
      var Claimed(index, data) := s.writers[w];
      WithWriter(s.(slots := s.slots[At(s, index) := s.slots[At(s, index)].(data := data)]), w, Stored(index))
    case Publish(w) =>
      var index := s.writers[w].index;
      WithWriter(WithStatus(s, index, Ready), w, Returned(index, Success))
    case Poll => if s.slots[At(s, s.reader)].status == Ready then s.(phase := SawReady(At(s, s.reader))) else s
    case Read => s.(phase := Holding(s.phase.slot, s.slots[s.phase.slot].data))
    case Advance => s.(reader := s.reader + 1, consumed := s.consumed + [s.phase.item], phase := Clearing(s.phase.slot))
    case Release =>
      s.(slots := s.slots[s.phase.slot := s.slots[s.phase.slot].(status := Empty)], phase := Polling)
  }

  // ---- What every run keeps ----

  /** Every writer brings the same data for an index. */
  ghost predicate Honest<T>(a: Action<T>, payload: nat -> T) {
    a.Load? ==> a.data == payload(a.index)
  }

  /** The slot of an index in the reader's window. */
  ghost predicate SlotOk<T>(s: Buffer<T>, index: nat, payload: nat -> T)
    requires |s.slots| > 0
  {
    var slot := s.slots[At(s, index)];
    if index !in s.claimed then slot.status == Empty
    else (slot.status == Ready && slot.data == payload(index)) || (slot.status == Locked && Owned(s, index))
  }

  ghost predicate Owned<T>(s: Buffer<T>, index: nat) {
    exists w :: Owns(s, w, index)
  }

  ghost predicate Owns<T>(s: Buffer<T>, w: nat, index: nat) {
    w < |s.writers| && (s.writers[w].Claimed? || s.writers[w].Stored?) && s.writers[w].index == index
  }

  /** The indices a writer may claim. */
  predicate InWindow<T>(s: Buffer<T>, index: nat) {
    s.reader <= index && index + 1 < s.reader + |s.slots|
  }

  ghost predicate WriterOk<T>(s: Buffer<T>, start: nat, writer: Writer<T>, payload: nat -> T)
    requires |s.slots| > 0
  {
    match writer
    case Free => true
    case Ahead(_, seen) => seen <= s.reader
    case Checked(index, seen, data) =>
      start <= seen <= s.reader && seen <= index && index + 1 < seen + |s.slots| && data == payload(index)
    case Claimed(index, data) =>
      && InWindow(s, index) && index in s.claimed && s.slots[At(s, index)].status == Locked
      && data == payload(index)
    case Stored(index) =>
      && InWindow(s, index) && index in s.claimed && s.slots[At(s, index)].status == Locked
      && s.slots[At(s, index)].data == payload(index)
    case Returned(index, Success) => index in s.claimed
    case Returned(index, AlreadyWritten) => index in s.claimed || index < start
    case Returned(_, _) => true
  }

  ghost predicate ReaderOk<T>(s: Buffer<T>, payload: nat -> T)
    requires |s.slots| > 0
  {
    // the one slot outside the window is in use only between the increment and the release
    && (s.slots[At(s, s.reader + |s.slots| - 1)].status == if s.phase.Clearing? then Ready else Empty)
    && match s.phase
       case Polling => true
       case SawReady(slot) => slot == At(s, s.reader) && InWindow(s, s.reader) && s.slots[slot].status == Ready
       case Holding(slot, item) =>
         && slot == At(s, s.reader) && InWindow(s, s.reader) && s.slots[slot].status == Ready
         && item == payload(s.reader)
       case Clearing(slot) => slot == At(s, s.reader + |s.slots| - 1)
  }

  /** Consumed so far: the payloads of start, start + 1, ... in order. */
  ghost predicate InOrder<T>(s: Buffer<T>, start: nat, payload: nat -> T) {
    && |s.consumed| == s.reader - start
    && forall k :: 0 <= k < |s.consumed| ==> s.consumed[k] == payload(start + k)
  }

  ghost predicate SlotsOk<T>(s: Buffer<T>, payload: nat -> T)
    requires |s.slots| > 0
  {
    forall i {:trigger SlotOk(s, i, payload)} :: InWindow(s, i) ==> SlotOk(s, i, payload)
  }

  ghost predicate WritersOk<T>(s: Buffer<T>, start: nat, payload: nat -> T)
    requires |s.slots| > 0
  {
    forall w {:trigger s.writers[w]} :: 0 <= w < |s.writers| ==> WriterOk(s, start, s.writers[w], payload)
  }

  ghost predicate OwnersDiffer<T>(s: Buffer<T>) {
    forall w, v, i :: Owns(s, w, i) && Owns(s, v, i) ==> w == v
  }

  /** Everything consumed was claimed, and nothing beyond the window was. */
  ghost predicate ClaimsOk<T>(s: Buffer<T>, start: nat) {
    && (forall i :: start <= i < s.reader ==> i in s.claimed)
    && (forall i :: i in s.claimed ==> start <= i && i + 1 < s.reader + |s.slots|)
  }

  ghost predicate Inv<T>(s: Buffer<T>, start: nat, payload: nat -> T) {
    && |s.slots| > 0 && start <= s.reader && InOrder(s, start, payload)
    && SlotsOk(s, payload) && WritersOk(s, start, payload) && OwnersDiffer(s) && ClaimsOk(s, start)
    && ReaderOk(s, payload)
  }

  // ---- One step ----

  /** Indices less than a lap apart have slots of their own. */
  lemma Apart<T>(s: Buffer<T>, i: nat, j: nat)
    requires |s.slots| > 0 && i != j && i < j + |s.slots| && j < i + |s.slots|
    ensures At(s, i) != At(s, j)
  {
    if At(s, i) == At(s, j) {
      if i < j {
        SameSlotFarApart(i, j, |s.slots|);
      } else {
        SameSlotFarApart(j, i, |s.slots|);
      }
    }
  }

  lemma WindowApart<T>(s: Buffer<T>, i: nat)
    requires |s.slots| > 0 && s.reader <= i < s.reader + |s.slots|
    ensures forall j: nat {:trigger At(s, j)} :: s.reader <= j < s.reader + |s.slots| && j != i ==> At(s, j) != At(s, i)
  {
    forall j: nat {:trigger At(s, j)} | s.reader <= j < s.reader + |s.slots| && j != i
      ensures At(s, j) != At(s, i)
    {
      Apart(s, i, j);
    }
  }

  /** A compare-exchange that finds its slot empty although the index was consumed meanwhile. */
  predicate StaleClaim<T>(s: Buffer<T>, a: Action<T>)
    requires |s.slots| > 0 && Possible(s, a)
  {
    a.CompareExchange? && s.writers[a.w].index < s.reader && s.slots[At(s, s.writers[a.w].index)].status == Empty
  }

  lemma LoadKeeps<T>(s: Buffer<T>, w: nat, index: nat, start: nat, payload: nat -> T)
    requires Inv(s, start, payload) && Possible(s, Load(w, index, payload(index)))
    ensures Inv(Next(s, Load(w, index, payload(index))), start, payload)
  {
    var s' := Next(s, Load(w, index, payload(index)));
    WriterMoved(s, s', w, start, payload);
  }

  /** A writer that owns nothing before and after moves without touching the slots. */
  lemma WriterMoved<T>(s: Buffer<T>, s': Buffer<T>, w: nat, start: nat, payload: nat -> T)
    requires Inv(s, start, payload) && w < |s.writers| && !s.writers[w].Claimed? && !s.writers[w].Stored?
    requires |s'.writers| == |s.writers| && s' == WithWriter(s, w, s'.writers[w])
    requires !s'.writers[w].Claimed? && !s'.writers[w].Stored? && WriterOk(s, start, s'.writers[w], payload)
    ensures Inv(s', start, payload)
  {
    forall i | InWindow(s', i) ensures SlotOk(s', i, payload) {
      assert SlotOk(s, i, payload);
      if v :| Owns(s, v, i) {
        assert Owns(s', v, i);
      }
    }
    forall v | 0 <= v < |s'.writers| ensures WriterOk(s', start, s'.writers[v], payload) {
      assert v != w ==> WriterOk(s, start, s.writers[v], payload);
    }
    forall v, u, i | Owns(s', v, i) && Owns(s', u, i) ensures v == u {
      assert Owns(s, v, i) && Owns(s, u, i);
    }
  }

  /** A failed compare-exchange: the slot is taken because the index was written before. */
  lemma ClaimFails<T>(s: Buffer<T>, w: nat, start: nat, payload: nat -> T)
    requires Inv(s, start, payload) && Possible(s, CompareExchange(w))
    requires s.slots[At(s, s.writers[w].index)].status != Empty
    ensures s.writers[w].index in s.claimed
    ensures Inv(Next(s, CompareExchange(w)), start, payload)
  {
    var index := s.writers[w].index;
    assert WriterOk(s, start, s.writers[w], payload);
    assert InWindow(s, index) ==> SlotOk(s, index, payload);
    WriterMoved(s, Next(s, CompareExchange(w)), w, start, payload);
  }

  /** A slot of the window changes, and only it. */
  ghost predicate OnlySlot<T>(s: Buffer<T>, s': Buffer<T>, w: nat, index: nat)
    requires |s.slots| > 0
  {
    && |s'.slots| == |s.slots| && |s'.writers| == |s.writers|
    && s'.reader == s.reader && s'.phase == s.phase && s'.consumed == s.consumed
    && InWindow(s, index)
    && (forall k :: 0 <= k < |s.slots| && k != At(s, index) ==> s'.slots[k] == s.slots[k])
    && w < |s.writers| && (forall v :: 0 <= v < |s.writers| && v != w ==> s'.writers[v] == s.writers[v])
    && s.claimed <= s'.claimed <= s.claimed + {index}
  }

  lemma AtKept<T>(s: Buffer<T>, s': Buffer<T>)
    requires |s'.slots| == |s.slots| > 0
    ensures forall i: nat {:trigger At(s', i)} {:trigger At(s, i)} :: At(s', i) == At(s, i) < |s.slots|
  {
  }

  lemma OtherSlots<T>(s: Buffer<T>, s': Buffer<T>, w: nat, index: nat, payload: nat -> T)
    requires |s.slots| > 0 && SlotsOk(s, payload) && OnlySlot(s, s', w, index)
    requires forall i :: i != index ==> !Owns(s, w, i)
    requires SlotOk(s', index, payload)
    ensures SlotsOk(s', payload)
  {
    WindowApart(s, index);
    AtKept(s, s');
    hide At;
    forall i | InWindow(s', i) ensures SlotOk(s', i, payload) {
      if i != index {
        assert SlotOk(s, i, payload) && At(s, i) != At(s, index);
        if v :| Owns(s, v, i) {
          assert Owns(s', v, i);
        }
      }
    }
  }

  lemma OtherWriters<T>(s: Buffer<T>, s': Buffer<T>, w: nat, index: nat, start: nat, payload: nat -> T)
    requires |s.slots| > 0 && WritersOk(s, start, payload) && OnlySlot(s, s', w, index)
    requires forall v :: v != w ==> !Owns(s, v, index)
    requires WriterOk(s', start, s'.writers[w], payload)
    ensures WritersOk(s', start, payload)
  {
    WindowApart(s, index);
    AtKept(s, s');
    hide At;
    forall v | 0 <= v < |s'.writers| ensures WriterOk(s', start, s'.writers[v], payload) {
      if v != w {
        assert WriterOk(s, start, s.writers[v], payload);
        assert !Owns(s, v, index);
      }
    }
  }

  /** One writer changed one slot of the window that no other writer owns. */
  lemma SlotMoved<T>(s: Buffer<T>, s': Buffer<T>, w: nat, index: nat, start: nat, payload: nat -> T)
    requires Inv(s, start, payload) && OnlySlot(s, s', w, index) && index in s'.claimed
    requires forall v :: v != w ==> !Owns(s, v, index)
    requires forall i :: i != index ==> !Owns(s, w, i) && !Owns(s', w, i)
    requires s.slots[At(s, index)].status != Ready
    requires SlotOk(s', index, payload) && WriterOk(s', start, s'.writers[w], payload)
    ensures Inv(s', start, payload)
  {
    OtherSlots(s, s', w, index, payload);
    OtherWriters(s, s', w, index, start, payload);
    hide SlotOk, WriterOk;
    WindowApart(s, index);
    AtKept(s, s');
    hide At;
    forall v, u, i | Owns(s', v, i) && Owns(s', u, i) ensures v == u {
      assert v != w ==> Owns(s, v, i);
      assert u != w ==> Owns(s, u, i);
    }
    assert At(s, s.reader + |s.slots| - 1) != At(s, index);
  }

  lemma OwnerKnown<T>(s: Buffer<T>, w: nat, index: nat, start: nat, payload: nat -> T)
    requires Inv(s, start, payload) && Owns(s, w, index)
    ensures InWindow(s, index) && index in s.claimed && s.slots[At(s, index)].status == Locked
    ensures forall v :: v != w ==> !Owns(s, v, index)
  {
    assert WriterOk(s, start, s.writers[w], payload);
  }

  /** A compare-exchange that succeeds on an index not yet consumed. */
  lemma ClaimSucceeds<T>(s: Buffer<T>, w: nat, start: nat, payload: nat -> T)
    requires Inv(s, start, payload) && Possible(s, CompareExchange(w))
    requires s.slots[At(s, s.writers[w].index)].status == Empty && s.writers[w].index >= s.reader
    ensures Inv(Next(s, CompareExchange(w)), start, payload)
  {
    var index, s' := s.writers[w].index, Next(s, CompareExchange(w));
    assert WriterOk(s, start, s.writers[w], payload);
    assert InWindow(s, index);
    forall v ensures !Owns(s, v, index) {
      if Owns(s, v, index) {
        OwnerKnown(s, v, index, start, payload);
      }
    }
    assert Owns(s', w, index);
    SlotMoved(s, s', w, index, start, payload);
  }

  lemma StoreKeeps<T>(s: Buffer<T>, w: nat, start: nat, payload: nat -> T)
    requires Inv(s, start, payload) && Possible(s, Store(w))
    ensures Inv(Next(s, Store(w)), start, payload)
  {
    var index, s' := s.writers[w].index, Next(s, Store(w));
    OwnerKnown(s, w, index, start, payload);
    assert Owns(s', w, index);
    SlotMoved(s, s', w, index, start, payload);
  }

  lemma PublishKeeps<T>(s: Buffer<T>, w: nat, start: nat, payload: nat -> T)
    requires Inv(s, start, payload) && Possible(s, Publish(w))
    ensures Inv(Next(s, Publish(w)), start, payload)
  {
    var index, s' := s.writers[w].index, Next(s, Publish(w));
    OwnerKnown(s, w, index, start, payload);
    assert WriterOk(s, start, s.writers[w], payload);
    SlotMoved(s, s', w, index, start, payload);
  }

  /** The increment: the slot just read becomes the one outside the window, and the one that was
      outside it, empty, becomes the slot of the newest index. */
  lemma AdvanceKeeps<T>(s: Buffer<T>, start: nat, payload: nat -> T)
    requires Inv(s, start, payload) && Possible(s, Advance)
    ensures Inv(Next(s, Advance), start, payload)
  {
    var s' := Next(s, Advance);
    var newest: nat := s.reader + |s.slots| - 1;
    AtKept(s, s');
    assert SlotOk(s, s.reader, payload);
    assert At(s, s.reader + |s.slots|) == At(s, s.reader) by {
      NextLap(s.reader, |s.slots|);
    }
    hide At;
    forall i | InWindow(s', i) ensures SlotOk(s', i, payload) {
      if i != newest {
        assert SlotOk(s, i, payload);
        if v :| Owns(s, v, i) {
          assert Owns(s', v, i);
        }
      }
    }
    forall v | 0 <= v < |s'.writers| ensures WriterOk(s', start, s'.writers[v], payload) {
      assert WriterOk(s, start, s.writers[v], payload);
    }
    assert forall v, i :: Owns(s', v, i) ==> Owns(s, v, i);
  }

  /** The release empties the slot outside the window, and no other. */
  lemma ReleaseKeeps<T>(s: Buffer<T>, start: nat, payload: nat -> T)
    requires Inv(s, start, payload) && Possible(s, Release)
    ensures Inv(Next(s, Release), start, payload)
  {
    var s' := Next(s, Release);
    var outside: nat := s.reader + |s.slots| - 1;
    WindowApart(s, outside);
    AtKept(s, s');
    hide At;
    forall i | InWindow(s', i) ensures SlotOk(s', i, payload) {
      assert SlotOk(s, i, payload) && At(s, i) != At(s, outside);
      if v :| Owns(s, v, i) {
        assert Owns(s', v, i);
      }
    }
    forall v | 0 <= v < |s'.writers| ensures WriterOk(s', start, s'.writers[v], payload) {
      assert WriterOk(s, start, s.writers[v], payload);
    }
    assert forall v, i :: Owns(s', v, i) ==> Owns(s, v, i);
  }

  /** Polling and reading change nothing but where the reader is. */
  lemma LookKeeps<T>(s: Buffer<T>, a: Action<T>, start: nat, payload: nat -> T)
    requires Inv(s, start, payload) && Possible(s, a) && (a.Poll? || a.Read?)
    ensures Inv(Next(s, a), start, payload)
  {
    var s' := Next(s, a);
    AtKept(s, s');
    assert InWindow(s, s.reader) ==> SlotOk(s, s.reader, payload);
    hide At;
    forall i | InWindow(s', i) ensures SlotOk(s', i, payload) {
      assert SlotOk(s, i, payload);
      if v :| Owns(s, v, i) {
        assert Owns(s', v, i);
      }
    }
    forall v | 0 <= v < |s'.writers| ensures WriterOk(s', start, s'.writers[v], payload) {
      assert WriterOk(s, start, s.writers[v], payload);
    }
    assert forall v, i :: Owns(s', v, i) ==> Owns(s, v, i);
  }

  /** A step keeps the buffer in order exactly when it is no stale claim. */
  lemma StepKeeps<T>(s: Buffer<T>, a: Action<T>, start: nat, payload: nat -> T)
    requires Inv(s, start, payload) && Possible(s, a) && Honest(a, payload)
    ensures Inv(Next(s, a), start, payload) <==> !StaleClaim(s, a)
  {
    match a
    case Load(w, index, _) => LoadKeeps(s, w, index, start, payload);
    case LookAtReader(w) => WriterMoved(s, Next(s, a), w, start, payload);
    case CompareExchange(w) =>
      if s.slots[At(s, s.writers[w].index)].status != Empty {
        ClaimFails(s, w, start, payload);
      } else if s.writers[w].index >= s.reader {
        ClaimSucceeds(s, w, start, payload);
      } else {
        StaleClaimBreaks(s, w, start, payload);
      }
    case Store(w) => StoreKeeps(s, w, start, payload);
    case Publish(w) => PublishKeeps(s, w, start, payload);
    case Poll => LookKeeps(s, a, start, payload);
    case Read => LookKeeps(s, a, start, payload);
    case Advance => AdvanceKeeps(s, start, payload);
    case Release => ReleaseKeeps(s, start, payload);
  }

  lemma StaleClaimBreaks<T>(s: Buffer<T>, w: nat, start: nat, payload: nat -> T)
    requires |s.slots| > 0 && Possible(s, CompareExchange(w)) && StaleClaim(s, CompareExchange(w))
    ensures !Inv(Next(s, CompareExchange(w)), start, payload)
  {
    var s' := Next(s, CompareExchange(w));
    assert !WriterOk(s', start, s'.writers[w], payload);
  }
}
