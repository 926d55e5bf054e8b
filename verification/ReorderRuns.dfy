/** Runs of the reorder buffer: when what the reader gets is the packets in order, and a run in
    which it is not. */
module ReorderRuns {
  import opened ReorderBuffering

  function IdleWriters<T>(n: nat): (r: seq<Writer<T>>)
    ensures |r| == n && forall w :: 0 <= w < n ==> r[w] == Free
  {
    seq(n, _ => Free)
  }

  function Opening<T>(capacity: nat, start: nat, writers: nat, filler: T): Buffer<T> {
    Buffer(seq(capacity, _ => Slot(filler, Empty)), start, IdleWriters(writers), Polling, [], {})
  }

  lemma OpeningOk<T>(capacity: nat, start: nat, writers: nat, filler: T, payload: nat -> T)
    requires capacity > 0
    ensures Inv(Opening(capacity, start, writers, filler), start, payload)
  {
  }

  predicate CanRun<T>(s: Buffer<T>, steps: seq<Action<T>>)
    requires |s.slots| > 0
    decreases |steps|
  {
    steps == [] || (Possible(s, steps[0]) && CanRun(Next(s, steps[0]), steps[1..]))
  }

  function After<T>(s: Buffer<T>, steps: seq<Action<T>>): Buffer<T>
    requires |s.slots| > 0 && CanRun(s, steps)
    decreases |steps|
  {
    if steps == [] then s else After(Next(s, steps[0]), steps[1..])
  }

  /** No compare-exchange of the run claims a slot for an index consumed meanwhile. */
  predicate NoStaleClaims<T>(s: Buffer<T>, steps: seq<Action<T>>)
    requires |s.slots| > 0 && CanRun(s, steps)
    decreases |steps|
  {
    steps == [] || (!StaleClaim(s, steps[0]) && NoStaleClaims(Next(s, steps[0]), steps[1..]))
  }

  /** Whoever writes an index brings the same data for it. */
  ghost predicate HonestRun<T>(steps: seq<Action<T>>, payload: nat -> T) {
    forall k :: 0 <= k < |steps| ==> Honest(steps[k], payload)
  }

  lemma {:induction false} RunKeeps<T>(s: Buffer<T>, steps: seq<Action<T>>, start: nat, payload: nat -> T)
    requires Inv(s, start, payload) && HonestRun(steps, payload) && CanRun(s, steps) && NoStaleClaims(s, steps)
    ensures Inv(After(s, steps), start, payload)
    decreases |steps|
  {
    if steps != [] {
      StepKeeps(s, steps[0], start, payload);
      RunKeeps(Next(s, steps[0]), steps[1..], start, payload);
    }
  }

  /** What the reader and the writers got out of a run: the k-th item consumed is the payload of
      index start + k, and a writer was told AlreadyWritten only of an index that was claimed (or
      lies before the first). */
  ghost predicate Faithful<T>(s: Buffer<T>, start: nat, payload: nat -> T) {
    && (forall k: nat :: k < |s.consumed| ==> s.consumed[k] == payload(start + k))
    && (forall w, index: nat :: 0 <= w < |s.writers| && s.writers[w] == Returned(index, AlreadyWritten) ==>
        index in s.claimed || index < start)
    && (forall w, index: nat :: 0 <= w < |s.writers| && s.writers[w] == Returned(index, Success) ==> index in s.claimed)
  }

  lemma InvIsFaithful<T>(s: Buffer<T>, start: nat, payload: nat -> T)
    requires Inv(s, start, payload)
    ensures Faithful(s, start, payload)
  {
    forall w | 0 <= w < |s.writers| ensures WriterOk(s, start, s.writers[w], payload) {
    }
  }

  // ---- Validate-and-claim as one step ----

  ghost predicate NoneChecked<T>(s: Buffer<T>) {
    forall w :: 0 <= w < |s.writers| ==> !s.writers[w].Checked?
  }

  /** Every load that passes the checks is followed at once by its compare-exchange, or ends the run. */
  predicate AtomicClaims<T>(s: Buffer<T>, steps: seq<Action<T>>)
    requires |s.slots| > 0 && CanRun(s, steps)
    decreases |steps|
  {
    if steps == [] then true
    else
      var a, s', rest := steps[0], Next(s, steps[0]), steps[1..];
      if rest != [] && a.Load? && s'.writers[a.w].Checked? then
        rest[0] == CompareExchange(a.w) && AtomicClaims(Next(s', rest[0]), rest[1..])
      else AtomicClaims(s', rest)
  }

  lemma {:induction false} AtomicNotStale<T>(s: Buffer<T>, steps: seq<Action<T>>)
    requires |s.slots| > 0 && CanRun(s, steps) && AtomicClaims(s, steps) && NoneChecked(s)
    ensures NoStaleClaims(s, steps)
    decreases |steps|
  {
    if steps != [] {
      var a, s', rest := steps[0], Next(s, steps[0]), steps[1..];
      if rest != [] && a.Load? && s'.writers[a.w].Checked? {
        AtomicNotStale(Next(s', rest[0]), rest[1..]);
      } else if rest != [] {
        AtomicNotStale(s', rest);
      }
    }
  }

  /** With validate-and-claim as one step every interleaving is faithful, however often an index
      is written. */
  lemma AtomicRunsFaithful<T>(capacity: nat, start: nat, writers: nat, filler: T, steps: seq<Action<T>>, payload: nat -> T)
    requires capacity > 0 && HonestRun(steps, payload)
    requires CanRun(Opening(capacity, start, writers, filler), steps)
    requires AtomicClaims(Opening(capacity, start, writers, filler), steps)
    ensures Faithful(After(Opening(capacity, start, writers, filler), steps), start, payload)
  {
    var s := Opening(capacity, start, writers, filler);
    OpeningOk(capacity, start, writers, filler, payload);
    AtomicNotStale(s, steps);
    RunKeeps(s, steps, start, payload);
    InvIsFaithful(After(s, steps), start, payload);
  }

  // ---- Load and compare-exchange as two steps ----

  /** No index is attempted twice. */
  ghost predicate AttemptedOnce<T>(steps: seq<Action<T>>) {
    forall i, j :: 0 <= i < j < |steps| && steps[i].Load? && steps[j].Load? ==> steps[i].index != steps[j].index
  }

  /** Indices still to be attempted are not claimed, and those being attempted are not either. */
  ghost predicate Unclaimed<T>(s: Buffer<T>, steps: seq<Action<T>>) {
    && (forall k :: 0 <= k < |steps| && steps[k].Load? ==> NotSeen(s, steps[k].index))
    && (forall w :: 0 <= w < |s.writers| && s.writers[w].Checked? ==> s.writers[w].index !in s.claimed)
    && (forall w, v :: 0 <= w < v < |s.writers| && s.writers[w].Checked? && s.writers[v].Checked? ==>
        s.writers[w].index != s.writers[v].index)
  }

  ghost predicate NotSeen<T>(s: Buffer<T>, index: nat) {
    index !in s.claimed && forall w :: 0 <= w < |s.writers| && s.writers[w].Checked? ==> s.writers[w].index != index
  }

  lemma UnclaimedStep<T>(s: Buffer<T>, steps: seq<Action<T>>)
    requires |s.slots| > 0 && steps != [] && Possible(s, steps[0])
    requires Unclaimed(s, steps) && AttemptedOnce(steps)
    ensures Unclaimed(Next(s, steps[0]), steps[1..]) && AttemptedOnce(steps[1..])
  {
    var s' := Next(s, steps[0]);
    if steps[0].Load? {
      assert NotSeen(s, steps[0].index);
    }
    forall k | 0 <= k < |steps[1..]| && steps[1..][k].Load? ensures NotSeen(s', steps[1..][k].index) {
      assert steps[k + 1].Load? && NotSeen(s, steps[k + 1].index);
    }
  }

  lemma {:induction false} OnceRunKeeps<T>(s: Buffer<T>, steps: seq<Action<T>>, start: nat, payload: nat -> T)
    requires Inv(s, start, payload) && HonestRun(steps, payload) && CanRun(s, steps)
    requires Unclaimed(s, steps) && AttemptedOnce(steps)
    ensures NoStaleClaims(s, steps)
    decreases |steps|
  {
    if steps != [] {
      var a := steps[0];
      if a.CompareExchange? {
        assert WriterOk(s, start, s.writers[a.w], payload);
      }
      StepKeeps(s, a, start, payload);
      UnclaimedStep(s, steps);
      OnceRunKeeps(Next(s, a), steps[1..], start, payload);
    }
  }

  /** With the load and the compare-exchange apart, as the code has them, every interleaving is
      faithful when no index is attempted twice. */
  lemma OnceRunsFaithful<T>(capacity: nat, start: nat, writers: nat, filler: T, steps: seq<Action<T>>, payload: nat -> T)
    requires capacity > 0 && HonestRun(steps, payload) && AttemptedOnce(steps)
    requires CanRun(Opening(capacity, start, writers, filler), steps)
    ensures Faithful(After(Opening(capacity, start, writers, filler), steps), start, payload)
  {
    var s := Opening(capacity, start, writers, filler);
    OpeningOk(capacity, start, writers, filler, payload);
    OnceRunKeeps(s, steps, start, payload);
    RunKeeps(s, steps, start, payload);
    InvIsFaithful(After(s, steps), start, payload);
  }

  // ---- What each thread can do ----

  lemma RunsOn<T>(s: Buffer<T>, a: Action<T>, rest: seq<Action<T>>)
    requires |s.slots| > 0 && Possible(s, a) && CanRun(Next(s, a), rest)
    ensures CanRun(s, [a] + rest) && After(s, [a] + rest) == After(Next(s, a), rest)
  {
    assert ([a] + rest)[1..] == rest;
  }

  lemma RunsOne<T>(s: Buffer<T>, a: Action<T>)
    requires |s.slots| > 0 && Possible(s, a)
    ensures CanRun(s, [a]) && After(s, [a]) == Next(s, a)
  {
    assert [a][1..] == [];
  }

  /** The packet the reader waits for has been written. */
  ghost predicate Waiting<T>(s: Buffer<T>) {
    s.reader in s.claimed && !Owned(s, s.reader)
  }

  /** Writing goes on exactly with an index of the window, stops at once with one already consumed, and
      tells of one too far ahead whether the reader has a packet to consume: whose fault it is. */
  lemma LoadTells<T>(s: Buffer<T>, w: nat, index: nat, data: T, start: nat, payload: nat -> T)
    requires Inv(s, start, payload) && |s.slots| > 1 && Possible(s, Load(w, index, data))
    ensures
      var s' := Next(s, Load(w, index, data));
      var writer := s'.writers[w];
      && (writer.Checked? <==> InWindow(s, index))
      && (writer == Returned(index, AlreadyWritten) <==> index < s.reader)
      && (writer.Ahead? <==> index > s.reader && !InWindow(s, index))
      && (writer.Ahead? ==>
          && Possible(s', LookAtReader(w))
          && Next(s', LookAtReader(w)).writers[w]
            == Returned(index, if Waiting(s) then LikelySlowReader else LikelySlowWriter))
  {
    assert InWindow(s, s.reader);
    assert SlotOk(s, s.reader, payload);
    if v: nat :| Owns(s, v, s.reader) {
      assert WriterOk(s, start, s.writers[v], payload);
    }
  }

  /** A writer that is free writes an index of the window nobody claimed yet. */
  lemma WriterDelivers<T>(s: Buffer<T>, w: nat, index: nat, start: nat, payload: nat -> T)
    requires Inv(s, start, payload) && InWindow(s, index) && index !in s.claimed
    requires Possible(s, Load(w, index, payload(index)))
    ensures
      var steps := [Load(w, index, payload(index)), CompareExchange(w), Store(w), Publish(w)];
      && CanRun(s, steps)
      && var s' := After(s, steps);
        && w < |s'.writers| && s'.writers[w] == Returned(index, Success) && index in s'.claimed
        && s'.slots == s.slots[At(s, index) := Slot(payload(index), Ready)]
        && s'.reader == s.reader && s'.consumed == s.consumed
  {
    var s1 := Next(s, Load(w, index, payload(index)));
    assert SlotOk(s, index, payload);
    var s2 := Next(s1, CompareExchange(w));
    var s3 := Next(s2, Store(w));
    RunsOne(s3, Publish(w));
    RunsOn(s2, Store(w), [Publish(w)]);
    RunsOn(s1, CompareExchange(w), [Store(w)] + [Publish(w)]);
    RunsOn(s, Load(w, index, payload(index)), [CompareExchange(w)] + ([Store(w)] + [Publish(w)]));
    assert [Load(w, index, payload(index))] + ([CompareExchange(w)] + ([Store(w)] + [Publish(w)]))
      == [Load(w, index, payload(index)), CompareExchange(w), Store(w), Publish(w)];
  }

  /** A reader that polls consumes the packet it waits for, once that has been written, and frees its
      slot. */
  lemma ReaderDelivers<T>(s: Buffer<T>, start: nat, payload: nat -> T)
    requires Inv(s, start, payload) && |s.slots| > 1 && s.phase == Polling
    ensures Possible(s, Poll) && (Next(s, Poll).phase.SawReady? <==> Waiting(s))
    ensures Waiting(s) ==>
      var steps := [Poll, Read, Advance, Release];
      && CanRun(s, steps)
      && var s' := After(s, steps);
        && s'.consumed == s.consumed + [payload(s.reader)] && s'.reader == s.reader + 1 && s'.phase == Polling
        && s'.slots[At(s, s.reader)].status == Empty && s'.claimed == s.claimed && s'.writers == s.writers
  {
    assert InWindow(s, s.reader);
    assert SlotOk(s, s.reader, payload);
    if w: nat :| Owns(s, w, s.reader) {
      assert WriterOk(s, start, s.writers[w], payload);
    }
    if Waiting(s) {
      var s1 := Next(s, Poll);
      var s2 := Next(s1, Read);
      var s3 := Next(s2, Advance);
      RunsOne(s3, Release);
      RunsOn(s2, Advance, [Release]);
      RunsOn(s1, Read, [Advance] + [Release]);
      RunsOn(s, Poll, [Read] + ([Advance] + [Release]));
      assert [Action<T>.Poll] + ([Read] + ([Advance] + [Release])) == [Poll, Read, Advance, Release];
    }
  }
}
