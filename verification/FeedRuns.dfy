/** Whole runs of the feed: what the publisher puts out is the exchange's event log, from its first
    event on, without a gap, a repetition or a change of order. */
module FeedRuns {
  import opened Machine
  import opened Orders
  import opened GapDetection
  import opened Wire
  import opened RetransmitReceiving
  import opened MessageCaching
  import opened MarketFeed
  import C = CircularCaching
  import R = ReorderBuffering
  import ReorderRuns

  function Opening(capacity: nat, filler: Bytes): Feed {
    Feed(C.Opening(RETRANSMIT_CACHE_SIZE, filler), 0, 0, [], None, ReorderRuns.Opening(capacity, 1, 2, []), [], [], {}, {})
  }

  lemma OpeningOk(capacity: nat, filler: Bytes, log: seq<MarketEvent>)
    requires capacity > 0 && |log| < MAX_EVENTS
    ensures Inv(Opening(capacity, filler), log, filler)
  {
    ReorderRuns.OpeningOk(capacity, 1, 2, [], Payload(log));
  }

  /** The publisher has put out the first events of the log, decoded, and none not yet sent. */
  ghost predicate Delivers(f: Feed, log: seq<MarketEvent>) {
    var out := f.buffer.consumed;
    && |out| <= f.sent <= |log|
    && forall k :: 0 <= k < |out| ==> |out[k]| == EVENT_SIZE && Decoded(out[k]) == Some(log[k])
  }

  lemma InvDelivers(f: Feed, log: seq<MarketEvent>, filler: Bytes)
    requires Inv(f, log, filler)
    ensures Delivers(f, log)
  {
    var out := f.buffer.consumed;
    CacheWithinLog(f, log, filler);
    assert |out| > 0 ==> |out| in f.buffer.claimed;
    forall k: nat | k < |out| ensures |out[k]| == EVENT_SIZE && Decoded(out[k]) == Some(log[k]) {
      assert out[k] == Payload(log)(1 + k);
      EventRoundTrip(log[k]);
    }
  }

  // ---- Validate-and-claim as one step ----

  function Writing(e: Event): nat {
    if e.Arrive? then LISTENER else CLIENT
  }

  ghost predicate LeavesChecked(f: Feed, e: Event, log: seq<MarketEvent>)
    requires Possible(f, e, log)
  {
    (e.Arrive? || e.Cut?) && Next(f, e, log).buffer.writers[Writing(e)].Checked?
  }

  /** A step, in which a write that passes its checks also tries to claim its slot. */
  ghost function AtomicNext(f: Feed, e: Event, log: seq<MarketEvent>): Feed
    requires Possible(f, e, log)
  {
    if LeavesChecked(f, e, log) then Next(Next(f, e, log), Inside(R.CompareExchange(Writing(e))), log) else Next(f, e, log)
  }

  ghost predicate CanRunAtomic(f: Feed, events: seq<Event>, log: seq<MarketEvent>)
    decreases |events|
  {
    events != [] ==> Possible(f, events[0], log) && CanRunAtomic(AtomicNext(f, events[0], log), events[1..], log)
  }

  ghost function AfterAtomic(f: Feed, events: seq<Event>, log: seq<MarketEvent>): Feed
    requires CanRunAtomic(f, events, log)
    decreases |events|
  {
    if events == [] then f else AfterAtomic(AtomicNext(f, events[0], log), events[1..], log)
  }

  /** A claim made at once finds its index not yet consumed. */
  lemma ClaimAtOnce(f: Feed, e: Event, log: seq<MarketEvent>)
    requires Possible(f, e, log) && LeavesChecked(f, e, log)
    ensures
      var f1, claim := Next(f, e, log), Inside(R.CompareExchange(Writing(e)));
      Possible(f1, claim, log) && !Spoils(f1, claim, log)
  {
    hide C.Next, C.Possible, WasSent, Asked, Newest, Wired, ParseHeader;
  }

  lemma StaysUnchecked(f: Feed, e: Event, log: seq<MarketEvent>)
    requires Possible(f, e, log) && ReorderRuns.NoneChecked(f.buffer)
    ensures ReorderRuns.NoneChecked(AtomicNext(f, e, log).buffer)
  {
    hide C.Next, C.Possible, WasSent;
  }

  lemma AtomicStepKeeps(f: Feed, e: Event, log: seq<MarketEvent>, filler: Bytes)
    requires Inv(f, log, filler) && ReorderRuns.NoneChecked(f.buffer) && Possible(f, e, log)
    ensures Inv(AtomicNext(f, e, log), log, filler) && ReorderRuns.NoneChecked(AtomicNext(f, e, log).buffer)
  {
    StaysUnchecked(f, e, log);
    NothingToSpoil(f, e, log);
    StepKeeps(f, e, log, filler);
    if LeavesChecked(f, e, log) {
      ClaimAtOnce(f, e, log);
      StepKeeps(Next(f, e, log), Inside(R.CompareExchange(Writing(e))), log, filler);
    }
  }

  lemma NothingToSpoil(f: Feed, e: Event, log: seq<MarketEvent>)
    requires Possible(f, e, log) && ReorderRuns.NoneChecked(f.buffer)
    ensures !Spoils(f, e, log)
  {
  }

  lemma {:induction false} AtomicRunKeeps(f: Feed, events: seq<Event>, log: seq<MarketEvent>, filler: Bytes)
    requires Inv(f, log, filler) && ReorderRuns.NoneChecked(f.buffer) && CanRunAtomic(f, events, log)
    ensures Inv(AfterAtomic(f, events, log), log, filler)
    decreases |events|
  {
    hide Inv, Possible, AtomicNext;
    if events != [] {
      AtomicStepKeeps(f, events[0], log, filler);
      AtomicRunKeeps(AtomicNext(f, events[0], log), events[1..], log, filler);
    }
  }

  /** Under any loss, repetition and reordering of packets, and any interleaving of the threads with
      validate-and-claim as one step, the output is a first part of the event log. */
  lemma AtomicFeedDelivers(capacity: nat, filler: Bytes, events: seq<Event>, log: seq<MarketEvent>)
    requires capacity > 0 && |log| < MAX_EVENTS && CanRunAtomic(Opening(capacity, filler), events, log)
    ensures Delivers(AfterAtomic(Opening(capacity, filler), events, log), log)
  {
    var f := Opening(capacity, filler);
    OpeningOk(capacity, filler, log);
    AtomicRunKeeps(f, events, log, filler);
    InvDelivers(AfterAtomic(f, events, log), log, filler);
  }

  // ---- The code's two-step claim, over a network that keeps the order ----

  /** What is still to be fetched: the rest of the current request and the requests behind it. */
  function Ranges(f: Feed): seq<RetransmitRequest> {
    (match f.session case None => [] case Some(s) => [Rest(s)]) + f.requests
  }

  function Rest(s: Session): RetransmitRequest {
    var next := NextTaken(s);
    if next < s.request.last then s.request.(first := next) else s.request.(first := s.request.last)
  }

  /** The ranges still to be fetched are disjoint, in order, and were not attempted. */
  ghost predicate UntriedIn(rs: seq<RetransmitRequest>, attempted: set<nat>, newest: SequenceId) {
    && (forall j, k :: 0 <= j < k < |rs| ==> rs[j].last <= rs[k].first)
    && (forall k, i :: 0 <= k < |rs| && i in attempted ==> !(rs[k].first <= i < rs[k].last))
    && (forall k :: 0 <= k < |rs| ==> rs[k].first <= rs[k].last <= newest)
    && (forall i :: i in attempted ==> i <= newest)
  }

  ghost predicate Untried(f: Feed) {
    UntriedIn(Ranges(f), f.attempted, f.newest)
  }

  /** Those at work on an index were the first to try it. */
  ghost predicate FirstTries(b: R.Buffer<Bytes>) {
    && (forall w :: 0 <= w < |b.writers| && b.writers[w].Checked? ==> b.writers[w].index !in b.claimed)
    && (forall w, v :: 0 <= w < v < |b.writers| && b.writers[w].Checked? && b.writers[v].Checked? ==>
        b.writers[w].index != b.writers[v].index)
  }

  ghost predicate KeepsOrder(f: Feed, e: Event) {
    e.Arrive? ==> |e.packet| >= HEADER_SIZE && f.newest < IdOf(e.packet) < LAST_ID
  }

  /** A first try stays one when an index nobody tried before is tried. */
  lemma FirstTriesLoad(f: Feed, w: nat, id: nat, data: Bytes)
    requires |f.buffer.slots| > 0 && FreeWriter(f, w) && FirstTries(f.buffer) && OnlySent(f) && id !in f.attempted
    ensures FirstTries(R.Next(f.buffer, R.Load(w, id, data)))
  {
  }

  lemma FirstTriesInside(b: R.Buffer<Bytes>, a: R.Action<Bytes>, payload: nat -> Bytes)
    requires R.Inv(b, 1, payload) && FirstTries(b) && R.Possible(b, a) && !a.Load?
    ensures !R.StaleClaim(b, a) && FirstTries(R.Next(b, a))
  {
    if a.CompareExchange? {
      assert R.WriterOk(b, 1, b.writers[a.w], payload);
    }
  }

  /** The packet being tried was not tried before. */
  lemma Untouched(f: Feed, e: Event, log: seq<MarketEvent>)
    requires Untried(f) && Possible(f, e, log) && KeepsOrder(f, e)
    ensures e.Arrive? ==> IdOf(e.packet) !in f.attempted
    ensures e.Cut? ==> e.p.sequence !in f.attempted
  {
    if e.Cut? {
      assert Ranges(f)[0] == Rest(f.session.value);
    }
  }

  lemma FirstTriesStep(f: Feed, e: Event, log: seq<MarketEvent>, filler: Bytes)
    requires Inv(f, log, filler) && Untried(f) && FirstTries(f.buffer) && Possible(f, e, log) && KeepsOrder(f, e)
    ensures !Spoils(f, e, log) && FirstTries(Next(f, e, log).buffer)
  {
    Untouched(f, e, log);
    match e
    case Arrive(packet) => FirstTriesLoad(f, LISTENER, IdOf(packet), DataOf(packet));
    case Cut(p) => FirstTriesLoad(f, CLIENT, p.sequence, p.payload);
    case Inside(a) => FirstTriesInside(f.buffer, a, Payload(log));
    case _ =>
  }

  /** A new packet leaves a new range behind it. */
  lemma UntriedArrival(rs: seq<RetransmitRequest>, attempted: set<nat>, newest: SequenceId, id: SequenceId)
    requires UntriedIn(rs, attempted, newest) && newest < id < LAST_ID
    ensures UntriedIn(rs + Asked(newest, id), attempted + {id}, Newest(newest, id))
  {
    ArrivalAsks(newest, id);
    var asked := Asked(newest, id);
    hide Asked, Newest;
    var all := rs + asked;
    forall j, k | 0 <= j < k < |all| ensures all[j].last <= all[k].first {
    }
  }

  lemma ArrivalAsks(newest: SequenceId, id: SequenceId)
    requires newest < id < LAST_ID
    ensures Newest(newest, id) == id
    ensures Asked(newest, id) == if id == newest + 1 then [] else [RetransmitRequest(newest + 1, id)]
  {
  }

  /** The first packet of the first range is tried. */
  lemma UntriedTry(rs: seq<RetransmitRequest>, attempted: set<nat>, newest: SequenceId)
    requires UntriedIn(rs, attempted, newest) && rs != [] && rs[0].first < rs[0].last
    ensures UntriedIn(rs[0 := rs[0].(first := rs[0].first + 1)], attempted + {rs[0].first}, newest)
  {
  }

  lemma RangesAfterArrival(f: Feed, packet: Bytes, log: seq<MarketEvent>)
    requires Possible(f, Arrive(packet), log)
    ensures Ranges(Next(f, Arrive(packet), log)) == Ranges(f) + Asked(f.newest, IdOf(packet))
  {
    hide R.Next, Asked, Newest, IdOf, DataOf, WasSent, Rest;
  }

  lemma RangesAfterCut(f: Feed, p: Packet, log: seq<MarketEvent>)
    requires Possible(f, Cut(p), log)
    ensures Ranges(f) != [] && Ranges(f)[0].first == p.sequence < Ranges(f)[0].last
    ensures Ranges(Next(f, Cut(p), log)) == Ranges(f)[0 := Ranges(f)[0].(first := p.sequence + 1)]
  {
    hide R.Next, Wired;
    assert Ranges(f)[0] == Rest(f.session.value);
  }

  lemma RangesAfterOther(f: Feed, e: Event, log: seq<MarketEvent>)
    requires Possible(f, e, log) && !e.Arrive? && !e.Cut?
    requires e.TakeUp? ==> f.requests[0].first <= f.requests[0].last
    ensures e.Finish? ==> Ranges(f) != [] && Ranges(Next(f, e, log)) == Ranges(f)[1..]
    ensures !e.Finish? ==> Ranges(Next(f, e, log)) == Ranges(f)
  {
    hide R.Next, C.Next, Wired, RequestBytes, ParseRequest;
    if e.TakeUp? {
      assert f.requests == [f.requests[0]] + f.requests[1..];
    }
  }

  lemma UntriedAfterArrival(f: Feed, packet: Bytes, log: seq<MarketEvent>)
    requires Untried(f) && Possible(f, Arrive(packet), log) && KeepsOrder(f, Arrive(packet))
    ensures Untried(Next(f, Arrive(packet), log))
  {
    RangesAfterArrival(f, packet, log);
    UntriedArrival(Ranges(f), f.attempted, f.newest, IdOf(packet));
    hide Ranges, R.Next, UntriedIn, IdOf, Asked, Newest;
    var f' := Next(f, Arrive(packet), log);
    assert UntriedIn(Ranges(f'), f'.attempted, f'.newest);
  }

  lemma UntriedAfterCut(f: Feed, p: Packet, log: seq<MarketEvent>)
    requires Untried(f) && Possible(f, Cut(p), log)
    ensures Untried(Next(f, Cut(p), log))
  {
    RangesAfterCut(f, p, log);
    UntriedTry(Ranges(f), f.attempted, f.newest);
    hide Ranges, R.Next, UntriedIn;
    var f' := Next(f, Cut(p), log);
    assert UntriedIn(Ranges(f'), f'.attempted, f'.newest);
  }

  lemma UntriedStep(f: Feed, e: Event, log: seq<MarketEvent>)
    requires Untried(f) && Possible(f, e, log) && KeepsOrder(f, e)
    ensures Untried(Next(f, e, log))
  {
    if e.Arrive? {
      UntriedAfterArrival(f, e.packet, log);
    } else if e.Cut? {
      UntriedAfterCut(f, e.p, log);
    } else {
      UntriedAfterOther(f, e, log);
    }
  }

  lemma UntriedAfterOther(f: Feed, e: Event, log: seq<MarketEvent>)
    requires Untried(f) && Possible(f, e, log) && !e.Arrive? && !e.Cut?
    ensures Untried(Next(f, e, log))
  {
    FirstRangeOk(f, e, log);
    RangesAfterOther(f, e, log);
    OthersTryNothing(f, e, log);
    hide Ranges, Possible, Next;
  }

  lemma FirstRangeOk(f: Feed, e: Event, log: seq<MarketEvent>)
    requires Untried(f) && Possible(f, e, log)
    ensures e.TakeUp? ==> f.requests[0].first <= f.requests[0].last
  {
    hide Rest, C.Possible, R.Possible, Wired;
    if e.TakeUp? {
      assert Ranges(f)[0] == f.requests[0];
    }
  }

  lemma OthersTryNothing(f: Feed, e: Event, log: seq<MarketEvent>)
    requires Possible(f, e, log) && !e.Arrive? && !e.Cut?
    ensures Next(f, e, log).attempted == f.attempted && Next(f, e, log).newest == f.newest
  {
    hide C.Next, R.Next, C.Possible, R.Possible, Wired, RequestBytes, ParseRequest;
  }

  ghost predicate CanRun(f: Feed, events: seq<Event>, log: seq<MarketEvent>)
    decreases |events|
  {
    events != [] ==>
      Possible(f, events[0], log) && KeepsOrder(f, events[0]) && CanRun(Next(f, events[0], log), events[1..], log)
  }

  ghost function After(f: Feed, events: seq<Event>, log: seq<MarketEvent>): Feed
    requires CanRun(f, events, log)
    decreases |events|
  {
    if events == [] then f else After(Next(f, events[0], log), events[1..], log)
  }

  lemma {:induction false} RunKeeps(f: Feed, events: seq<Event>, log: seq<MarketEvent>, filler: Bytes)
    requires Inv(f, log, filler) && Untried(f) && FirstTries(f.buffer) && CanRun(f, events, log)
    ensures Inv(After(f, events, log), log, filler)
    decreases |events|
  {
    hide Inv, Possible, Next, Untried, FirstTries, KeepsOrder;
    if events != [] {
      FirstTriesStep(f, events[0], log, filler);
      UntriedStep(f, events[0], log);
      StepKeeps(f, events[0], log, filler);
      RunKeeps(Next(f, events[0], log), events[1..], log, filler);
    }
  }

  /** With the load and the compare-exchange apart, as the code has them, the output is a first part
      of the event log whenever the multicast only loses packets: it is then the gap detector that
      sees to it that no packet is tried twice. */
  lemma OrderedFeedDelivers(capacity: nat, filler: Bytes, events: seq<Event>, log: seq<MarketEvent>)
    requires capacity > 0 && |log| < MAX_EVENTS && CanRun(Opening(capacity, filler), events, log)
    ensures Delivers(After(Opening(capacity, filler), events, log), log)
  {
    var f := Opening(capacity, filler);
    OpeningOk(capacity, filler, log);
    RunKeeps(f, events, log, filler);
    InvDelivers(After(f, events, log), log, filler);
  }
}
