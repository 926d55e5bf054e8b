/** Nothing is forgotten: once the feed is at rest, every packet up to the newest seen is there for the
    publisher, whatever the network did. */
module FeedCompleteness {
  import opened Machine
  import opened Orders
  import opened GapDetection
  import opened Wire
  import opened RetransmitReceiving
  import opened MarketFeed
  import opened FeedRuns
  import C = CircularCaching
  import R = ReorderBuffering
  import ReorderRuns

  /** All the ranges ever asked for, in order. */
  function Requests(f: Feed): seq<RetransmitRequest> {
    f.finished + (match f.session case None => [] case Some(s) => [s.request]) + f.requests
  }

  /** No arrival bears the last 64-bit id. */
  ghost predicate BelowLast(arrivals: seq<SequenceId>) {
    forall k :: 0 <= k < |arrivals| ==> arrivals[k] != LAST_ID
  }

  /** The detector has watched exactly the arrivals, and asked for exactly these ranges. */
  ghost predicate WatchedRight(f: Feed) {
    var w := Watch(0, f.arrivals);
    && BelowLast(f.arrivals) && w.newest == f.newest < LAST_ID && w.requests == Requests(f)
    && forall k :: 0 <= k < |w.advanced| ==> w.advanced[k] in f.arrivals
  }

  /** What arrived, and what was fetched, was tried. */
  ghost predicate Tried(f: Feed) {
    && (forall k :: 0 <= k < |f.arrivals| ==> f.arrivals[k] in f.attempted)
    && (forall k, id: SequenceId :: 0 <= k < |f.finished| && Asks(f.finished[k], id) ==> id in f.attempted)
    && (f.session.Some? ==>
        forall id: SequenceId :: f.session.value.request.first <= id < NextTaken(f.session.value) ==> id in f.attempted)
  }

  /** What was tried is claimed, or a writer is at its start, or its writer was told of a slow thread. */
  ghost predicate Settled(f: Feed, i: nat) {
    i in f.buffer.claimed || i in f.slow || exists w :: AtStart(f, w, i)
  }

  ghost predicate AtStart(f: Feed, w: nat, i: nat) {
    w < |f.buffer.writers| && (f.buffer.writers[w].Checked? || f.buffer.writers[w].Ahead?) && f.buffer.writers[w].index == i
  }

  ghost predicate AllSettled(f: Feed) {
    forall i :: i in f.attempted ==> Settled(f, i)
  }

  ghost predicate Complete(f: Feed) {
    WatchedRight(f) && Tried(f) && AllSettled(f)
  }

  // ---- One step ----

  lemma SettledLoad(f: Feed, w: nat, id: SequenceId, data: Bytes, log: seq<MarketEvent>, f': Feed)
    requires |log| < MAX_EVENTS && R.Inv(f.buffer, 1, Payload(log)) && FreeWriter(f, w) && 1 <= id && AllSettled(f)
    requires f'.buffer == R.Next(f.buffer, R.Load(w, id, data)) && f'.attempted == f.attempted + {id} && f'.slow == f.slow
    ensures AllSettled(f')
  {
    forall i | i in f'.attempted ensures Settled(f', i) {
      if i == id {
        assert AtStart(f', w, id) || id in f'.buffer.claimed;
      } else if v :| AtStart(f, v, i) {
        assert AtStart(f', v, i);
      }
    }
  }

  lemma SettledInside(f: Feed, a: R.Action<Bytes>, log: seq<MarketEvent>, f': Feed)
    requires |log| < MAX_EVENTS && R.Inv(f.buffer, 1, Payload(log)) && R.Possible(f.buffer, a) && !a.Load? && AllSettled(f)
    requires f'.buffer == R.Next(f.buffer, a) && f'.attempted == f.attempted
    requires f'.slow == f.slow + (if a.LookAtReader? then {f.buffer.writers[a.w].index} else {})
    ensures AllSettled(f')
  {
    if a.CompareExchange? && f.buffer.slots[R.At(f.buffer, f.buffer.writers[a.w].index)].status != R.Empty {
      R.ClaimFails(f.buffer, a.w, 1, Payload(log));
    }
    forall i | i in f'.attempted ensures Settled(f', i) {
      assert Settled(f, i);
      if v :| AtStart(f, v, i) {
        assert AtStart(f', v, i) || i in f'.buffer.claimed || i in f'.slow;
      }
    }
  }

  lemma SettledStep(f: Feed, e: Event, log: seq<MarketEvent>, filler: Bytes)
    requires Inv(f, log, filler) && Possible(f, e, log) && AllSettled(f)
    ensures AllSettled(Next(f, e, log))
  {
    var f' := Next(f, e, log);
    match e
    case Arrive(packet) =>
      ArriveKeeps(f, packet, log, filler);
      hide C.Next, R.Next, Inv;
      SettledLoad(f, LISTENER, IdOf(packet), DataOf(packet), log, f');
    case Cut(p) =>
      CutKeeps(f, p, log, filler);
      hide C.Next, R.Next, Inv;
      SettledLoad(f, CLIENT, p.sequence, p.payload, log, f');
    case Inside(a) =>
      hide C.Next, R.Next;
      SettledInside(f, a, log, f');
    case _ =>
      hide C.Next;
      SettledFrame(f, f');
  }

  lemma SettledFrame(f: Feed, f': Feed)
    requires AllSettled(f) && f'.buffer == f.buffer && f'.attempted == f.attempted && f'.slow == f.slow
    ensures AllSettled(f')
  {
    forall i | i in f'.attempted ensures Settled(f', i) {
      assert Settled(f, i);
      if v :| AtStart(f, v, i) {
        assert AtStart(f', v, i);
      }
    }
  }

  lemma ArrivalAdds(f: Feed, packet: Bytes, log: seq<MarketEvent>)
    requires Possible(f, Arrive(packet), log)
    ensures
      var f', id := Next(f, Arrive(packet), log), IdOf(packet);
      && f'.arrivals == f.arrivals + [id] && f'.newest == Newest(f.newest, id)
      && Requests(f') == Requests(f) + Asked(f.newest, id)
  {
    hide R.Next, IdOf, DataOf, Asked, Newest, WasSent;
  }

  lemma WatchedArrival(f: Feed, packet: Bytes, log: seq<MarketEvent>, filler: Bytes)
    requires Inv(f, log, filler) && Possible(f, Arrive(packet), log) && WatchedRight(f)
    ensures WatchedRight(Next(f, Arrive(packet), log))
  {
    ArriveKeeps(f, packet, log, filler);
    CacheWithinLog(f, log, filler);
    var f', id := Next(f, Arrive(packet), log), IdOf(packet);
    assert id < LAST_ID;
    WatchAppend(0, f.arrivals, id);
    ArrivalAdds(f, packet, log);
    hide Inv, Possible, Next, IdOf, DataOf, Watch, Asked, Requests;
    NewestBelowLast(f.newest, id);
    var w, w' := Watch(0, f.arrivals), Watch(0, f'.arrivals);
    forall k | 0 <= k < |w'.advanced| ensures w'.advanced[k] in f'.arrivals {
      if k >= |w.advanced| {
        TakenIs(f.newest, id);
        assert w'.advanced[k] == id && f'.arrivals[|f.arrivals|] == id;
      } else {
        assert w'.advanced[k] == w.advanced[k];
      }
    }
  }

  lemma TakenIs(newest: SequenceId, id: SequenceId)
    ensures Taken(newest, id) == [] || Taken(newest, id) == [id]
  {
  }

  lemma NewestBelowLast(newest: SequenceId, id: SequenceId)
    requires newest < LAST_ID && id < LAST_ID
    ensures Newest(newest, id) < LAST_ID
  {
  }

  lemma WatchedStep(f: Feed, e: Event, log: seq<MarketEvent>, filler: Bytes)
    requires Inv(f, log, filler) && Possible(f, e, log) && WatchedRight(f)
    ensures WatchedRight(Next(f, e, log))
  {
    if e.Arrive? {
      WatchedArrival(f, e.packet, log, filler);
    } else {
      OthersWatch(f, e, log);
      hide Inv, Possible, Next, Watch, Requests;
    }
  }

  /** Only an arrival is watched, and nothing else changes what was asked for. */
  lemma OthersWatch(f: Feed, e: Event, log: seq<MarketEvent>)
    requires Possible(f, e, log) && !e.Arrive?
    ensures
      var f' := Next(f, e, log);
      Requests(f') == Requests(f) && f'.arrivals == f.arrivals && f'.newest == f.newest
  {
    hide R.Next, C.Next, R.Possible, C.Possible, Wired, RequestBytes, ParseRequest;
    match e
    case TakeUp => assert f.requests == [f.requests[0]] + f.requests[1..];
    case Finish => assert f.finished + [f.session.value.request] + f.requests == Requests(f);
    case _ =>
  }

  lemma TriedArrival(f: Feed, packet: Bytes, log: seq<MarketEvent>)
    requires Tried(f) && Possible(f, Arrive(packet), log)
    ensures Tried(Next(f, Arrive(packet), log))
  {
    hide R.Next, IdOf, DataOf, Asked, Newest, WasSent, ParseHeader;
  }

  lemma TriedCut(f: Feed, p: Packet, log: seq<MarketEvent>)
    requires Tried(f) && Possible(f, Cut(p), log)
    ensures Tried(Next(f, Cut(p), log))
  {
    hide R.Next, Wired;
  }

  lemma TriedFinish(f: Feed, log: seq<MarketEvent>)
    requires Tried(f) && Possible(f, Finish, log)
    ensures Tried(Next(f, Finish, log))
  {
    hide R.Next, C.Next;
  }

  lemma TriedOther(f: Feed, e: Event, log: seq<MarketEvent>)
    requires Tried(f) && Possible(f, e, log) && !e.Arrive? && !e.Cut? && !e.Finish?
    requires e.TakeUp? ==> NextTaken(Next(f, e, log).session.value) == Next(f, e, log).session.value.request.first
    ensures Tried(Next(f, e, log))
  {
    hide R.Next, C.Next, R.Possible, C.Possible, RequestBytes, ParseRequest, Wired;
  }

  lemma TriedStep(f: Feed, e: Event, log: seq<MarketEvent>)
    requires Possible(f, e, log) && Tried(f)
    ensures Tried(Next(f, e, log))
  {
    if e.Arrive? {
      TriedArrival(f, e.packet, log);
    } else if e.Cut? {
      TriedCut(f, e.p, log);
    } else if e.Finish? {
      TriedFinish(f, log);
    } else {
      hide Tried, R.Next, C.Next;
      TriedOther(f, e, log);
    }
  }

  lemma CompleteStep(f: Feed, e: Event, log: seq<MarketEvent>, filler: Bytes)
    requires Inv(f, log, filler) && Possible(f, e, log) && Complete(f)
    ensures Complete(Next(f, e, log))
  {
    SettledStep(f, e, log, filler);
    WatchedStep(f, e, log, filler);
    TriedStep(f, e, log);
  }

  lemma OpeningComplete(capacity: nat, filler: Bytes)
    ensures Complete(Opening(capacity, filler))
  {
  }

  // ---- At rest ----

  /** Nothing is asked for, no writer is at work, and none was told of a slow thread. */
  ghost predicate AtRest(f: Feed) {
    && f.session == None && f.requests == [] && f.slow == {}
    && forall w :: 0 <= w < |f.buffer.writers| ==> f.buffer.writers[w].Free? || f.buffer.writers[w].Returned?
  }

  /** Packet `id` was consumed, or its own data waits in its slot. */
  ghost predicate Present(f: Feed, id: nat, log: seq<MarketEvent>)
    requires |f.buffer.slots| > 0
  {
    || 1 <= id < f.buffer.reader
    || (R.InWindow(f.buffer, id) && f.buffer.slots[R.At(f.buffer, id)] == R.Slot(Payload(log)(id), R.Ready))
  }

  lemma {:induction false} TakenIsThere(advanced: seq<SequenceId>, id: SequenceId)
    requires TimesTaken(advanced, id) > 0
    ensures exists k :: 0 <= k < |advanced| && advanced[k] == id
  {
    if advanced[0] != id {
      TakenIsThere(advanced[1..], id);
      var k :| 0 <= k < |advanced[1..]| && advanced[1..][k] == id;
      assert advanced[k + 1] == id;
    }
  }

  lemma {:induction false} AskedIsThere(requests: seq<RetransmitRequest>, id: SequenceId)
    requires TimesAsked(requests, id) > 0
    ensures exists k :: 0 <= k < |requests| && Asks(requests[k], id)
  {
    if !Asks(requests[0], id) {
      AskedIsThere(requests[1..], id);
      var k :| 0 <= k < |requests[1..]| && Asks(requests[1..][k], id);
      assert Asks(requests[k + 1], id);
    }
  }

  /** Each packet up to the newest was tried: it arrived, or it was in a range that was fetched. */
  lemma EveryPacketTried(f: Feed, id: SequenceId)
    requires WatchedRight(f) && Tried(f) && AtRest(f) && 1 <= id <= f.newest
    ensures id in f.attempted
  {
    var w := Watch(0, f.arrivals);
    EveryPacketOnce(0, f.arrivals, id);
    assert w.requests == f.finished;
    if TimesTaken(w.advanced, id) > 0 {
      TakenIsThere(w.advanced, id);
      var k :| 0 <= k < |w.advanced| && w.advanced[k] == id;
      var j :| 0 <= j < |f.arrivals| && f.arrivals[j] == id;
    } else {
      AskedIsThere(w.requests, id);
      var k :| 0 <= k < |f.finished| && Asks(f.finished[k], id);
    }
  }

  /** A feed at rest has every packet up to the newest for the publisher. */
  lemma RestIsComplete(f: Feed, id: SequenceId, log: seq<MarketEvent>, filler: Bytes)
    requires Inv(f, log, filler) && Complete(f) && AtRest(f) && 1 <= id <= f.newest
    ensures Present(f, id, log)
  {
    EveryPacketTried(f, id);
    assert Settled(f, id);
    assert id in f.buffer.claimed;
    if id >= f.buffer.reader {
      assert R.SlotOk(f.buffer, id, Payload(log));
      assert !R.Owned(f.buffer, id);
    }
  }

  lemma {:induction false} AtomicRunComplete(f: Feed, events: seq<Event>, log: seq<MarketEvent>, filler: Bytes)
    requires Inv(f, log, filler) && Complete(f) && ReorderRuns.NoneChecked(f.buffer) && CanRunAtomic(f, events, log)
    ensures Inv(AfterAtomic(f, events, log), log, filler) && Complete(AfterAtomic(f, events, log))
    decreases |events|
  {
    hide Inv, Possible, Next, Complete, ReorderRuns.NoneChecked;
    if events != [] {
      var e := events[0];
      AtomicStepKeeps(f, e, log, filler);
      NothingToSpoil(f, e, log);
      StepKeeps(f, e, log, filler);
      CompleteStep(f, e, log, filler);
      if LeavesChecked(f, e, log) {
        ClaimAtOnce(f, e, log);
        CompleteStep(Next(f, e, log), Inside(R.CompareExchange(Writing(e))), log, filler);
      }
      AtomicRunComplete(AtomicNext(f, e, log), events[1..], log, filler);
    }
  }

  /** Under any loss, repetition and reordering: whenever a run has come to rest, no packet up to the
      newest seen is missing. */
  lemma FeedIsComplete(capacity: nat, filler: Bytes, events: seq<Event>, log: seq<MarketEvent>, id: SequenceId)
    requires capacity > 0 && |log| < MAX_EVENTS && CanRunAtomic(Opening(capacity, filler), events, log)
    requires AtRest(AfterAtomic(Opening(capacity, filler), events, log))
    requires 1 <= id <= AfterAtomic(Opening(capacity, filler), events, log).newest
    ensures |AfterAtomic(Opening(capacity, filler), events, log).buffer.slots| > 0
    ensures Present(AfterAtomic(Opening(capacity, filler), events, log), id, log)
  {
    var f := Opening(capacity, filler);
    OpeningOk(capacity, filler, log);
    OpeningComplete(capacity, filler);
    AtomicRunComplete(f, events, log, filler);
    RestIsComplete(AfterAtomic(f, events, log), id, log, filler);
  }

  lemma {:induction false} OrderedRunComplete(f: Feed, events: seq<Event>, log: seq<MarketEvent>, filler: Bytes)
    requires Inv(f, log, filler) && Complete(f) && Untried(f) && FirstTries(f.buffer) && CanRun(f, events, log)
    ensures Inv(After(f, events, log), log, filler) && Complete(After(f, events, log))
    decreases |events|
  {
    hide Inv, Possible, Next, Complete, Untried, FirstTries, KeepsOrder;
    if events != [] {
      var e := events[0];
      FirstTriesStep(f, e, log, filler);
      UntriedStep(f, e, log);
      StepKeeps(f, e, log, filler);
      CompleteStep(f, e, log, filler);
      OrderedRunComplete(Next(f, e, log), events[1..], log, filler);
    }
  }

  /** The same with the code's two-step claim, over a multicast that only loses packets. */
  lemma OrderedFeedIsComplete(capacity: nat, filler: Bytes, events: seq<Event>, log: seq<MarketEvent>, id: SequenceId)
    requires capacity > 0 && |log| < MAX_EVENTS && CanRun(Opening(capacity, filler), events, log)
    requires AtRest(After(Opening(capacity, filler), events, log))
    requires 1 <= id <= After(Opening(capacity, filler), events, log).newest
    ensures |After(Opening(capacity, filler), events, log).buffer.slots| > 0
    ensures Present(After(Opening(capacity, filler), events, log), id, log)
  {
    hide CanRun, Complete, AtRest, C.Inv, OnlySent, SessionRight;
    var f := Opening(capacity, filler);
    OpeningOk(capacity, filler, log);
    OpeningComplete(capacity, filler);
    OpeningUntried(capacity, filler);
    OrderedRunComplete(f, events, log, filler);
    RestIsComplete(After(f, events, log), id, log, filler);
  }

  lemma OpeningUntried(capacity: nat, filler: Bytes)
    ensures Untried(Opening(capacity, filler)) && FirstTries(Opening(capacity, filler).buffer)
  {
  }
}
