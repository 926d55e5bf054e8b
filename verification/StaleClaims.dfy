/** What a stale claim does to a reorder buffer: the exact step after which the reader or a writer
    can be misled, at any capacity, and a run that delivers a packet in the place of another. */
module StaleClaims {
  import opened Machine
  import opened ReorderBuffering
  import opened ReorderRuns

  /** Without any further stale claim, a run goes on from `t` to where it is no longer faithful. */
  ghost predicate Spoiled<T(!new)>(t: Buffer<T>, start: nat, payload: nat -> T)
    requires |t.slots| > 0
  {
    exists more :: Misleads(t, more, start, payload)
  }

  ghost predicate Misleads<T>(t: Buffer<T>, more: seq<Action<T>>, start: nat, payload: nat -> T)
    requires |t.slots| > 0
  {
    && CanRun(t, more) && HonestRun(more, payload) && NoStaleClaims(t, more)
    && !Faithful(After(t, more), start, payload)
  }

  lemma SpoiledStep<T(!new)>(t: Buffer<T>, a: Action<T>, start: nat, payload: nat -> T)
    requires |t.slots| > 0 && Possible(t, a) && Honest(a, payload) && !StaleClaim(t, a)
    requires Spoiled(Next(t, a), start, payload)
    ensures Spoiled(t, start, payload)
  {
    var more :| Misleads(Next(t, a), more, start, payload);
    var all := [a] + more;
    assert all[1..] == more && all[0] == a;
    assert HonestRun(all, payload) by {
      assert forall k :: 1 <= k < |all| ==> all[k] == more[k - 1];
    }
    assert Misleads(t, all, start, payload);
  }

  lemma SpoiledHere<T(!new)>(t: Buffer<T>, start: nat, payload: nat -> T)
    requires |t.slots| > 0 && !Faithful(t, start, payload)
    ensures Spoiled(t, start, payload)
  {
    assert Misleads(t, [], start, payload);
  }

  /** A packet of the window that nobody claimed, whose slot is taken: its writer is told that it was
      written already. */
  lemma SlotTaken<T(!new)>(t: Buffer<T>, w: nat, j: nat, start: nat, payload: nat -> T)
    requires |t.slots| > 0 && Possible(t, Load(w, j, payload(j))) && InWindow(t, j)
    requires t.slots[At(t, j)].status != Empty && j !in t.claimed && start <= j
    ensures Spoiled(t, start, payload)
  {
    var t1 := Next(t, Load(w, j, payload(j)));
    var t2 := Next(t1, CompareExchange(w));
    assert t2.writers[w] == Returned(j, AlreadyWritten);
    SpoiledHere(t2, start, payload);
    SpoiledStep(t1, CompareExchange(w), start, payload);
    SpoiledStep(t, Load(w, j, payload(j)), start, payload);
  }

  /** The index of the reader's lap that a slot belongs to. */
  lemma LapIndex<T>(s: Buffer<T>, slot: nat) returns (j: nat)
    requires slot < |s.slots|
    ensures s.reader <= j < s.reader + |s.slots| && At(s, j) == slot
  {
    var n := |s.slots|;
    var q, k := (slot - s.reader) / n, (slot - s.reader) % n;
    j := s.reader + k;
    assert j == n * (-q) + slot;
    RemainderUnique(j, n, -q, slot);
  }

  // ---- The claimed slot is the one outside the window ----

  /** The slot outside the window is jammed, and the reader is before its increment. */
  ghost predicate Jammed<T>(t: Buffer<T>, w: nat) {
    && |t.slots| >= 2 && w < |t.writers| && t.writers[w].Returned?
    && t.slots[At(t, t.reader + |t.slots| - 1)].status == Ready && t.reader + |t.slots| - 1 !in t.claimed
    && (t.phase.SawReady? || t.phase.Holding? ==>
        t.phase.slot == At(t, t.reader) && t.slots[At(t, t.reader)].status == Ready)
    && !t.phase.Clearing?
  }

  /** Once the reader moves on, the jammed slot is the newest packet's. */
  lemma JammedMovesOn<T(!new)>(t: Buffer<T>, w: nat, start: nat, payload: nat -> T)
    requires Jammed(t, w) && t.slots[At(t, t.reader)].status == Ready && start <= t.reader
    ensures Spoiled(t, start, payload)
    decreases if t.phase.Polling? then 2 else if t.phase.SawReady? then 1 else 0
  {
    match t.phase
    case Polling =>
      var t1 := Next(t, Poll);
      JammedMovesOn(t1, w, start, payload);
      SpoiledStep(t, Poll, start, payload);
    case SawReady(_) =>
      var t1 := Next(t, Read);
      JammedMovesOn(t1, w, start, payload);
      SpoiledStep(t, Read, start, payload);
    case Holding(_, _) =>
      var t1 := Next(t, Advance);
      SlotTaken(t1, w, t.reader + |t.slots| - 1, start, payload);
      SpoiledStep(t, Advance, start, payload);
  }

  /** Writer `v`, which owns the front packet, finishes. */
  lemma JammedFrontOwned<T(!new)>(t: Buffer<T>, w: nat, v: nat, start: nat, payload: nat -> T)
    requires Jammed(t, w) && Owns(t, v, t.reader) && v != w && start <= t.reader
    requires t.slots[At(t, t.reader)].status == Locked
    ensures Spoiled(t, start, payload)
    decreases if t.writers[v].Claimed? then 1 else 0
  {
    LapsDiffer(t, t.reader, t.reader + |t.slots| - 1);
    if t.writers[v].Claimed? {
      JammedFrontOwned(Next(t, Store(v)), w, v, start, payload);
      SpoiledStep(t, Store(v), start, payload);
    } else {
      JammedMovesOn(Next(t, Publish(v)), w, start, payload);
      SpoiledStep(t, Publish(v), start, payload);
    }
  }

  lemma LapsDiffer<T>(t: Buffer<T>, i: nat, j: nat)
    requires |t.slots| > 0 && i < j < i + |t.slots|
    ensures At(t, i) != At(t, j)
  {
    SlotsApart(i, j, |t.slots|);
  }

  /** Nobody has claimed the front packet: writer `w` delivers it. */
  lemma JammedFrontFree<T(!new)>(t: Buffer<T>, w: nat, start: nat, payload: nat -> T)
    requires Jammed(t, w) && t.slots[At(t, t.reader)].status == Empty && start <= t.reader
    ensures Spoiled(t, start, payload)
  {
    var i := t.reader;
    LapsDiffer(t, i, i + |t.slots| - 1);
    var load := Load(w, i, payload(i));
    var t1 := Next(t, load);
    var t2 := Next(t1, CompareExchange(w));
    var t3 := Next(t2, Store(w));
    var t4 := Next(t3, Publish(w));
    JammedMovesOn(t4, w, start, payload);
    SpoiledStep(t3, Publish(w), start, payload);
    SpoiledStep(t2, Store(w), start, payload);
    SpoiledStep(t1, CompareExchange(w), start, payload);
    SpoiledStep(t, load, start, payload);
  }

  lemma JammedSpoils<T(!new)>(t: Buffer<T>, w: nat, start: nat, payload: nat -> T)
    requires Jammed(t, w) && start <= t.reader
    requires t.slots[At(t, t.reader)].status == Locked ==> exists v :: v != w && Owns(t, v, t.reader)
    ensures Spoiled(t, start, payload)
  {
    match t.slots[At(t, t.reader)].status
    case Ready => JammedMovesOn(t, w, start, payload);
    case Empty => JammedFrontFree(t, w, start, payload);
    case Locked =>
      var v :| v != w && Owns(t, v, t.reader);
      JammedFrontOwned(t, w, v, start, payload);
  }

  // ---- The exact condition ----

  /** The stale writer stores and publishes. */
  function Overrun<T>(s: Buffer<T>, w: nat): Buffer<T>
    requires |s.slots| > 0 && Possible(s, CompareExchange(w)) && StaleClaim(s, CompareExchange(w))
  {
    Next(Next(Next(s, CompareExchange(w)), Store(w)), Publish(w))
  }

  lemma OverrunState<T>(s: Buffer<T>, w: nat, j: nat)
    requires |s.slots| > 0 && Possible(s, CompareExchange(w)) && StaleClaim(s, CompareExchange(w))
    requires At(s, j) == At(s, s.writers[w].index)
    ensures
      var i, t := s.writers[w].index, Overrun(s, w);
      t == s.(slots := s.slots[At(s, j) := Slot(s.writers[w].data, Ready)],
              writers := s.writers[w := Returned(i, Success)], claimed := s.claimed + {i})
  {
  }

  lemma OverrunSpoils<T(!new)>(s: Buffer<T>, w: nat, start: nat, payload: nat -> T)
    requires |s.slots| > 0 && Possible(s, CompareExchange(w)) && StaleClaim(s, CompareExchange(w))
    requires Spoiled(Overrun(s, w), start, payload)
    ensures Spoiled(Next(s, CompareExchange(w)), start, payload)
  {
    var t1 := Next(s, CompareExchange(w));
    var t2 := Next(t1, Store(w));
    SpoiledStep(t2, Publish(w), start, payload);
    SpoiledStep(t1, Store(w), start, payload);
  }

  lemma StaleClaimSpoils<T(!new)>(s: Buffer<T>, w: nat, start: nat, payload: nat -> T)
    requires Inv(s, start, payload) && Possible(s, CompareExchange(w)) && StaleClaim(s, CompareExchange(w))
    ensures Spoiled(Next(s, CompareExchange(w)), start, payload)
  {
    var i, n := s.writers[w].index, |s.slots|;
    assert WriterOk(s, start, s.writers[w], payload);
    var j := LapIndex(s, At(s, i));
    OverrunState(s, w, j);
    var t := Overrun(s, w);
    assert At(t, j) == At(s, j);
    if j + 1 < s.reader + n {
      assert SlotOk(s, j, payload);
      SlotTaken(t, w, j, start, payload);
    } else {
      assert InWindow(s, s.reader) && SlotOk(s, s.reader, payload);
      LapsDiffer(s, s.reader, j);
      assert At(t, t.reader) == At(s, s.reader);
      if t.slots[At(t, t.reader)].status == Locked {
        var v :| Owns(s, v, s.reader);
        assert v != w && Owns(t, v, t.reader);
      }
      JammedSpoils(t, w, start, payload);
    }
    OverrunSpoils(s, w, start, payload);
  }

  /** From a buffer in order, a step opens the way to a misled reader or writer if and only if it is
      a stale claim. */
  lemma SpoilsExactly<T(!new)>(s: Buffer<T>, a: Action<T>, start: nat, payload: nat -> T)
    requires Inv(s, start, payload) && Possible(s, a) && Honest(a, payload)
    ensures Spoiled(Next(s, a), start, payload) <==> StaleClaim(s, a)
  {
    StepKeeps(s, a, start, payload);
    if StaleClaim(s, a) {
      StaleClaimSpoils(s, a.w, start, payload);
    } else if more :| Misleads(Next(s, a), more, start, payload) {
      RunKeeps(Next(s, a), more, start, payload);
      InvIsFaithful(After(Next(s, a), more), start, payload);
      assert false;
    }
  }

  // ---- A packet in the place of another ----

  /** A run of writers with the same data for an index can make the reader consume `out`. */
  ghost predicate Delivers<T(!new)>(t: Buffer<T>, out: seq<T>, payload: nat -> T)
    requires |t.slots| > 0
  {
    exists more :: RunsTo(t, more, out, payload)
  }

  ghost predicate RunsTo<T>(t: Buffer<T>, more: seq<Action<T>>, out: seq<T>, payload: nat -> T)
    requires |t.slots| > 0
  {
    CanRun(t, more) && HonestRun(more, payload) && After(t, more).consumed == out
  }

  lemma DeliversStep<T(!new)>(t: Buffer<T>, a: Action<T>, out: seq<T>, payload: nat -> T)
    requires |t.slots| > 0 && Possible(t, a) && Honest(a, payload) && Delivers(Next(t, a), out, payload)
    ensures Delivers(t, out, payload)
  {
    var more :| RunsTo(Next(t, a), more, out, payload);
    var all := [a] + more;
    assert all[1..] == more && all[0] == a;
    assert HonestRun(all, payload) by {
      assert forall k :: 1 <= k < |all| ==> all[k] == more[k - 1];
    }
    assert RunsTo(t, all, out, payload);
  }

  lemma DeliversHere<T(!new)>(t: Buffer<T>, payload: nat -> T)
    requires |t.slots| > 0
    ensures Delivers(t, t.consumed, payload)
  {
    assert RunsTo(t, [], t.consumed, payload);
  }

  /** Writer `w`, past its checks, finds the slot empty and writes its packet. */
  lemma Written<T(!new)>(t: Buffer<T>, w: nat, t': Buffer<T>, out: seq<T>, payload: nat -> T)
    requires |t.slots| > 0 && Possible(t, CompareExchange(w)) && t.slots[At(t, t.writers[w].index)].status == Empty
    requires
      var Checked(n, _, data) := t.writers[w];
      t' == t.(slots := t.slots[At(t, n) := Slot(data, Ready)], writers := t.writers[w := Returned(n, Success)],
               claimed := t.claimed + {n})
    requires Delivers(t', out, payload)
    ensures Delivers(t, out, payload)
  {
    var t1 := Next(t, CompareExchange(w));
    var t2 := Next(t1, Store(w));
    assert t' == Next(t2, Publish(w));
    DeliversStep(t2, Publish(w), out, payload);
    DeliversStep(t1, Store(w), out, payload);
    DeliversStep(t, CompareExchange(w), out, payload);
  }

  /** The reader consumes whatever its slot holds. */
  lemma Consumed<T(!new)>(t: Buffer<T>, t': Buffer<T>, out: seq<T>, payload: nat -> T)
    requires |t.slots| > 0 && t.phase == Polling && t.slots[At(t, t.reader)].status == Ready
    requires
      var k := At(t, t.reader);
      t' == t.(slots := t.slots[k := t.slots[k].(status := Empty)], reader := t.reader + 1,
               consumed := t.consumed + [t.slots[k].data])
    requires Delivers(t', out, payload)
    ensures Delivers(t, out, payload)
  {
    var t1 := Next(t, Poll);
    var t2 := Next(t1, Read);
    var t3 := Next(t2, Advance);
    assert t' == Next(t3, Release);
    DeliversStep(t3, Release, out, payload);
    DeliversStep(t2, Advance, out, payload);
    DeliversStep(t1, Read, out, payload);
    DeliversStep(t, Poll, out, payload);
  }

  /** The payloads of packets 1, ..., n. */
  function Firsts<T>(payload: nat -> T, n: nat): (r: seq<T>)
    ensures |r| == n
  {
    seq(n, k requires 0 <= k < n => payload(k + 1))
  }

  /** Packets up to `n - 1` were consumed, and packet 1 waits in its slot a second time. */
  ghost predicate Doubled<T>(t: Buffer<T>, n: nat, payload: nat -> T) {
    && |t.slots| >= 2 && t.reader == n && 2 <= n <= |t.slots| + 1 && t.phase == Polling
    && |t.writers| == 2 && t.writers[1].Returned? && t.consumed == Firsts(payload, n - 1)
    && t.slots[1] == Slot(payload(1), Ready)
    && forall k :: 0 <= k < |t.slots| && k != 1 ==> t.slots[k].status == Empty
  }

  lemma SlotOfFront(n: nat, capacity: nat)
    requires capacity >= 2 && 2 <= n <= capacity + 1
    ensures n % capacity == if n == capacity then 0 else if n == capacity + 1 then 1 else n
  {
    if n == capacity + 1 {
      RemainderUnique(n, capacity, 1, 1);
    } else {
      RemainderOfSmall(n, capacity);
    }
  }

  /** The packets before the doubled one's next turn go through, and then it comes again. */
  lemma {:induction false} DoubledComesAgain<T(!new)>(t: Buffer<T>, n: nat, payload: nat -> T)
    requires Doubled(t, n, payload)
    ensures Delivers(t, Firsts(payload, |t.slots|) + [payload(1)], payload)
    decreases |t.slots| + 1 - n
  {
    var capacity := |t.slots|;
    var out, k := Firsts(payload, capacity) + [payload(1)], At(t, n);
    SlotOfFront(n, capacity);
    if n == capacity + 1 {
      var t' := t.(slots := t.slots[k := t.slots[k].(status := Empty)], reader := n + 1, consumed := out);
      DeliversHere(t', payload);
      Consumed(t, t', out, payload);
    } else {
      var load := Load(1, n, payload(n));
      var t1 := Next(t, load);
      var t2 := t1.(slots := t.slots[k := Slot(payload(n), Ready)], writers := t.writers[1 := Returned(n, Success)],
                    claimed := t.claimed + {n});
      var t3 := t2.(slots := t.slots[k := Slot(payload(n), Empty)], reader := n + 1, consumed := t.consumed + [payload(n)]);
      assert t3.consumed == Firsts(payload, n);
      DoubledComesAgain(t3, n + 1, payload);
      assert t2.slots[k := t2.slots[k].(status := Empty)] == t3.slots;
      Consumed(t2, t3, out, payload);
      assert t1.writers[1 := Returned(n, Success)] == t2.writers;
      Written(t1, 1, t2, out, payload);
      DeliversStep(t, load, out, payload);
    }
  }

  /** The code's two-step claim is not safe against duplicates, at any capacity. Writer 0 checks packet
      1 and is overtaken: writer 1 delivers it, writer 0 then claims the slot it has left, and after the
      packets up to `capacity` the reader takes packet 1 for packet `capacity` + 1. */
  lemma OvertakenRunMisdelivers<T(!new)>(capacity: nat, filler: T, payload: nat -> T)
    requires capacity >= 2
    ensures Delivers(Opening(capacity, 1, 2, filler), Firsts(payload, capacity) + [payload(1)], payload)
  {
    var out := Firsts(payload, capacity) + [payload(1)];
    var s0 := Opening(capacity, 1, 2, filler);
    RemainderOfSmall(1, capacity);
    var slow, quick := Load(0, 1, payload(1)), Load(1, 1, payload(1));
    var s1 := Next(s0, slow);
    var s2 := Next(s1, quick);
    var s3 := s2.(slots := s2.slots[1 := Slot(payload(1), Ready)], writers := s2.writers[1 := Returned(1, Success)],
                  claimed := s2.claimed + {1});
    var s4 := s3.(slots := s3.slots[1 := Slot(payload(1), Empty)], reader := 2, consumed := [payload(1)]);
    var s5 := s4.(slots := s4.slots[1 := Slot(payload(1), Ready)], writers := s4.writers[0 := Returned(1, Success)],
                  claimed := s4.claimed + {1});
    assert s5.consumed == Firsts(payload, 1);
    DoubledComesAgain(s5, 2, payload);
    Written(s4, 0, s5, out, payload);
    assert s3.slots[1 := s3.slots[1].(status := Empty)] == s4.slots;
    Consumed(s3, s4, out, payload);
    Written(s2, 1, s3, out, payload);
    DeliversStep(s1, quick, out, payload);
    DeliversStep(s0, slow, out, payload);
  }
}
