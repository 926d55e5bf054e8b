/** What the two-step claim of includes/utils/reorder-buffer.hpp does to the whole feed once the
    multicast reorders packets: a run of exchange, server, client, listener and publisher in which an
    event is put out in the place of another. */
module OvertakenFeed {
  import opened Machine
  import opened Orders
  import opened GapDetection
  import opened Wire
  import opened RetransmitServing
  import opened RetransmitReceiving
  import opened MessageCaching
  import opened MarketFeed
  import opened StaleClaims
  import C = CircularCaching
  import R = ReorderBuffering
  import ReorderRuns
  import FeedRuns

  /** A run over a multicast that may also reorder packets. */
  ghost predicate CanRun(f: Feed, events: seq<Event>, log: seq<MarketEvent>)
    decreases |events|
  {
    events != [] ==> Possible(f, events[0], log) && CanRun(Next(f, events[0], log), events[1..], log)
  }

  ghost function After(f: Feed, events: seq<Event>, log: seq<MarketEvent>): Feed
    requires CanRun(f, events, log)
    decreases |events|
  {
    if events == [] then f else After(Next(f, events[0], log), events[1..], log)
  }

  /** After the first `n` events, and before any later one was sent, the first is put out again. */
  ghost predicate Repeated(f: Feed, n: nat, log: seq<MarketEvent>) {
    f.sent == n && f.buffer.consumed == Firsts(Payload(log), n) + [Payload(log)(1)]
  }

  ghost predicate RunsTo(f: Feed, events: seq<Event>, n: nat, log: seq<MarketEvent>) {
    CanRun(f, events, log) && Repeated(After(f, events, log), n, log)
  }

  ghost predicate GoesWrong(f: Feed, n: nat, log: seq<MarketEvent>) {
    exists events :: RunsTo(f, events, n, log)
  }

  lemma Onward(f: Feed, e: Event, n: nat, log: seq<MarketEvent>)
    requires Possible(f, e, log) && GoesWrong(Next(f, e, log), n, log)
    ensures GoesWrong(f, n, log)
  {
    hide Possible, Next, Repeated;
    var events :| RunsTo(Next(f, e, log), events, n, log);
    var all := [e] + events;
    assert all[0] == e && all[1..] == events;
    assert RunsTo(f, all, n, log);
  }

  lemma GoneWrong(f: Feed, n: nat, log: seq<MarketEvent>)
    requires Repeated(f, n, log)
    ensures GoesWrong(f, n, log)
  {
    assert RunsTo(f, [], n, log);
  }

  // ---- Writers and reader ----

  lemma InsideNext(f: Feed, a: R.Action<Bytes>, n: nat, log: seq<MarketEvent>)
    requires |f.buffer.slots| > 0 && |log| < MAX_EVENTS && C.Sized(f.cache, RETRANSMIT_CACHE_SIZE)
    requires R.Possible(f.buffer, a) && !a.Load? && !a.LookAtReader?
    requires GoesWrong(f.(buffer := R.Next(f.buffer, a)), n, log)
    ensures GoesWrong(f, n, log)
  {
    hide C.Sized, R.Possible, R.Next, GoesWrong;
    assert Next(f, Inside(a), log) == f.(buffer := R.Next(f.buffer, a));
    Onward(f, Inside(a), n, log);
  }

  /** Writer `w`, past its checks, finds the slot empty and writes its packet. */
  lemma WrittenNext(f: Feed, w: nat, t: R.Buffer<Bytes>, n: nat, log: seq<MarketEvent>)
    requires |f.buffer.slots| > 0 && |log| < MAX_EVENTS && C.Sized(f.cache, RETRANSMIT_CACHE_SIZE)
    requires R.Possible(f.buffer, R.CompareExchange(w))
    requires f.buffer.slots[R.At(f.buffer, f.buffer.writers[w].index)].status == R.Empty
    requires
      var b, i, data := f.buffer, f.buffer.writers[w].index, f.buffer.writers[w].data;
      t == b.(slots := b.slots[R.At(b, i) := R.Slot(data, R.Ready)], writers := b.writers[w := R.Returned(i, R.Success)],
              claimed := b.claimed + {i})
    requires GoesWrong(f.(buffer := t), n, log)
    ensures GoesWrong(f, n, log)
  {
    hide C.Sized, GoesWrong;
    var b1 := R.Next(f.buffer, R.CompareExchange(w));
    var b2 := R.Next(b1, R.Store(w));
    assert t == R.Next(b2, R.Publish(w));
    InsideNext(f.(buffer := b2), R.Publish(w), n, log);
    InsideNext(f.(buffer := b1), R.Store(w), n, log);
    InsideNext(f, R.CompareExchange(w), n, log);
  }

  /** The reader consumes whatever its slot holds. */
  lemma ConsumedNext(f: Feed, t: R.Buffer<Bytes>, n: nat, log: seq<MarketEvent>)
    requires |f.buffer.slots| > 0 && |log| < MAX_EVENTS && C.Sized(f.cache, RETRANSMIT_CACHE_SIZE)
    requires f.buffer.phase == R.Polling && f.buffer.slots[R.At(f.buffer, f.buffer.reader)].status == R.Ready
    requires
      var b, k := f.buffer, R.At(f.buffer, f.buffer.reader);
      t == b.(slots := b.slots[k := b.slots[k].(status := R.Empty)], reader := b.reader + 1,
              consumed := b.consumed + [b.slots[k].data])
    requires GoesWrong(f.(buffer := t), n, log)
    ensures GoesWrong(f, n, log)
  {
    hide C.Sized, GoesWrong;
    var b1 := R.Next(f.buffer, R.Poll);
    var b2 := R.Next(b1, R.Read);
    var b3 := R.Next(b2, R.Advance);
    assert t == R.Next(b3, R.Release);
    InsideNext(f.(buffer := b3), R.Release, n, log);
    InsideNext(f.(buffer := b2), R.Advance, n, log);
    InsideNext(f.(buffer := b1), R.Read, n, log);
    InsideNext(f, R.Poll, n, log);
  }

  // ---- The exchange ----

  /** The exchange has cached and broadcast the same packets, and is at rest. */
  ghost predicate Rests(c: C.Cache<Bytes>, sent: nat, log: seq<MarketEvent>, filler: Bytes)
    requires |log| < MAX_EVENTS
  {
    && C.Sized(c, RETRANSMIT_CACHE_SIZE) && C.SlotsOk(c, RETRANSMIT_CACHE_SIZE, filler) && c.putter.Resting?
    && c.written == sent <= |log| && c.history == AllMessages(log)[..sent]
  }

  /** The next packet is cached and broadcast. */
  lemma SentNext(f: Feed, n: nat, log: seq<MarketEvent>, filler: Bytes) returns (c: C.Cache<Bytes>)
    requires |f.buffer.slots| > 0 && |log| < MAX_EVENTS && f.sent < |log| && Rests(f.cache, f.sent, log, filler)
    ensures Rests(c, f.sent + 1, log, filler) && c.getter == f.cache.getter
    ensures GoesWrong(f.(cache := c, sent := f.sent + 1), n, log) ==> GoesWrong(f, n, log)
  {
    hide C.SlotsOk, GoesWrong, AllMessages;
    var message := AllMessages(log)[f.sent];
    var lock: C.Action<Bytes> := C.Lock(message);
    var c1 := C.Next(f.cache, lock, RETRANSMIT_CACHE_SIZE);
    var c2 := C.Next(c1, C.Store, RETRANSMIT_CACHE_SIZE);
    c := C.Next(c2, C.Unlock, RETRANSMIT_CACHE_SIZE);
    C.StepKeepsStore(f.cache, lock, RETRANSMIT_CACHE_SIZE, filler);
    C.StepKeepsStore(c1, C.Store, RETRANSMIT_CACHE_SIZE, filler);
    C.StepKeepsStore(c2, C.Unlock, RETRANSMIT_CACHE_SIZE, filler);
    assert AllMessages(log)[..f.sent] + [message] == AllMessages(log)[..f.sent + 1];
    if GoesWrong(f.(cache := c, sent := f.sent + 1), n, log) {
      Onward(f.(cache := c), Broadcast, n, log);
      Onward(f.(cache := c2), Put(C.Unlock), n, log);
      Onward(f.(cache := c1), Put(C.Store), n, log);
      Onward(f, Put(lock), n, log);
    }
  }

  // ---- Arrivals ----

  /** Packet `id` arrives, and the listener begins to write it. */
  function Arrived(f: Feed, id: SequenceId, log: seq<MarketEvent>): Feed
    requires |f.buffer.slots| > 0 && FreeWriter(f, LISTENER)
  {
    Loaded(f, LISTENER, id, Payload(log)(id)).(newest := Newest(f.newest, id), requests := f.requests + Asked(f.newest, id),
      arrivals := f.arrivals + [id])
  }

  lemma ArrivesNext(f: Feed, id: SequenceId, n: nat, log: seq<MarketEvent>)
    requires |f.buffer.slots| > 0 && |log| < MAX_EVENTS && C.Sized(f.cache, RETRANSMIT_CACHE_SIZE)
    requires 1 <= id <= f.sent && id <= |log| && FreeWriter(f, LISTENER)
    requires GoesWrong(Arrived(f, id, log), n, log)
    ensures GoesWrong(f, n, log)
  {
    hide C.Sized, GoesWrong, AllMessages, Payload, IdOf, DataOf, Newest, Asked, R.Next;
    var packet := AllMessages(log)[id - 1];
    PacketRead(log, id - 1);
    assert WasSent(f, packet, log);
    assert Next(f, Arrive(packet), log) == Arrived(f, id, log);
    Onward(f, Arrive(packet), n, log);
  }

  // ---- The packets after the second ----

  /** Packets up to `k - 1` were consumed, and packet 1 waits in its slot a second time. */
  ghost predicate Behind(f: Feed, k: nat, log: seq<MarketEvent>, filler: Bytes) {
    && |log| < MAX_EVENTS && 3 <= k && f.sent == k - 1 && Rests(f.cache, f.sent, log, filler)
    && Doubled(f.buffer, k, Payload(log)) && f.buffer.writers[LISTENER].Returned?
  }

  /** Packet `k` is sent, arrives, is written and consumed. */
  lemma {:induction false} FirstComesAgain(f: Feed, k: nat, log: seq<MarketEvent>, filler: Bytes)
    requires Behind(f, k, log, filler) && |f.buffer.slots| <= |log|
    ensures GoesWrong(f, |f.buffer.slots|, log)
    decreases |f.buffer.slots| + 1 - k
  {
    hide C.Sized, C.SlotsOk, GoesWrong, AllMessages, Payload, Newest, Asked;
    var b, n, payload := f.buffer, |f.buffer.slots|, Payload(log);
    var slot := R.At(b, k);
    SlotOfFront(k, n);
    if k == n + 1 {
      var t := b.(slots := b.slots[slot := b.slots[slot].(status := R.Empty)], reader := k + 1,
                  consumed := Firsts(payload, n) + [payload(1)]);
      GoneWrong(f.(buffer := t), n, log);
      ConsumedNext(f, t, n, log);
    } else {
      var c := SentNext(f, n, log, filler);
      var f1 := f.(cache := c, sent := k);
      var f2 := Arrived(f1, k, log);
      var t := b.(slots := b.slots[slot := R.Slot(payload(k), R.Ready)], writers := b.writers[LISTENER := R.Returned(k, R.Success)],
                  claimed := b.claimed + {k});
      var t' := t.(slots := b.slots[slot := R.Slot(payload(k), R.Empty)], reader := k + 1, consumed := b.consumed + [payload(k)]);
      assert t'.consumed == Firsts(payload, k);
      FirstComesAgain(f2.(buffer := t'), k + 1, log, filler);
      assert t.slots[slot := t.slots[slot].(status := R.Empty)] == t'.slots;
      ConsumedNext(f2.(buffer := t), t', n, log);
      assert f2.buffer.writers[LISTENER := R.Returned(k, R.Success)] == t.writers;
      WrittenNext(f2, LISTENER, t, n, log);
      ArrivesNext(f1, k, n, log);
    }
  }

  // ---- Packet 1, fetched and broadcast ----

  const FIRST_ASKED: RetransmitRequest := RetransmitRequest(1, 2)

  /** Packet 1 as the client cuts it. */
  function FirstPacket(log: seq<MarketEvent>): Packet {
    Packet(1, Payload(log)(1))
  }

  lemma FirstWired(log: seq<MarketEvent>)
    requires 0 < |log| < MAX_EVENTS
    ensures Wired([FirstPacket(log)]) == AllMessages(log)[0] && FirstPacket(log) == Packet(1, Payload(log)(1))
    ensures |Payload(log)(1)| == EVENT_SIZE
  {
    assert [FirstPacket(log)][1..] == [];
  }

  /** The server finds packet 1 in the cache. */
  lemma FirstLookedUp(f: Feed, n: nat, log: seq<MarketEvent>, filler: Bytes) returns (c: C.Cache<Bytes>)
    requires |f.buffer.slots| > 0 && |log| < MAX_EVENTS && Rests(f.cache, f.sent, log, filler) && f.cache.getter.Waiting?
    requires 0 < f.sent <= RETRANSMIT_CACHE_SIZE
    requires f.session.Some? && f.session.value.serving == 1 && f.session.value.request.last == 2
    ensures Rests(c, f.sent, log, filler)
    ensures c.getter.Answered? && c.getter.index == CacheIndex(1) && c.getter.result == C.Ok(AllMessages(log)[0])
    ensures GoesWrong(f.(cache := c), n, log) ==> GoesWrong(f, n, log)
  {
    hide C.SlotsOk, GoesWrong, AllMessages;
    var load: C.Action<Bytes> := C.FirstLoad(0);
    c := C.QuietGet(f.cache, 0, RETRANSMIT_CACHE_SIZE);
    CacheSizeFits();
    C.QuietAnswer(f.cache, 0, RETRANSMIT_CACHE_SIZE, filler);
    assert C.AnswersFor(f.sent, RETRANSMIT_CACHE_SIZE, 0, 0);
    var c1 := C.Next(f.cache, load, RETRANSMIT_CACHE_SIZE);
    var c2 := C.Next(c1, C.LoadData, RETRANSMIT_CACHE_SIZE);
    C.StepKeepsStore(f.cache, load, RETRANSMIT_CACHE_SIZE, filler);
    C.StepKeepsStore(c1, C.LoadData, RETRANSMIT_CACHE_SIZE, filler);
    C.StepKeepsStore(c2, C.SecondLoad, RETRANSMIT_CACHE_SIZE, filler);
    if GoesWrong(f.(cache := c), n, log) {
      Onward(f.(cache := c2), Look(C.SecondLoad), n, log);
      Onward(f.(cache := c1), Look(C.LoadData), n, log);
      Onward(f, Look(load), n, log);
    }
  }

  /** The feed once the client has begun to write packet 1. */
  function FirstFetched(f: Feed, c: C.Cache<Bytes>, log: seq<MarketEvent>): Feed
    requires 0 < |log| < MAX_EVENTS && |f.buffer.slots| > 0 && FreeWriter(f, CLIENT)
  {
    var message := AllMessages(log)[0];
    Loaded(f.(cache := c, requests := [], session := Some(Session(FIRST_ASKED, 2, message, message, [FirstPacket(log)]))),
      CLIENT, 1, Payload(log)(1))
  }

  /** The request for packet 1 is taken up and answered, and the client begins to write the packet. */
  lemma FirstFetchedNext(f: Feed, n: nat, log: seq<MarketEvent>, filler: Bytes) returns (c: C.Cache<Bytes>)
    requires |f.buffer.slots| > 0 && 0 < |log| < MAX_EVENTS && Rests(f.cache, f.sent, log, filler) && f.cache.getter.Waiting?
    requires 0 < f.sent <= RETRANSMIT_CACHE_SIZE
    requires f.session == None && f.requests == [FIRST_ASKED] && FreeWriter(f, CLIENT)
    ensures Rests(c, f.sent, log, filler)
    ensures GoesWrong(FirstFetched(f, c, log), n, log) ==> GoesWrong(f, n, log)
  {
    hide C.SlotsOk, GoesWrong, AllMessages, Payload, Wired, RequestBytes, ParseRequest, R.Next, FirstPacket;
    RequestRoundTrip(FIRST_ASKED);
    FirstWired(log);
    var message := AllMessages(log)[0];
    var f1 := f.(requests := [], session := Some(Session(FIRST_ASKED, 1, [], [], [])));
    assert Next(f, TakeUp, log) == f1;
    c := FirstLookedUp(f1, n, log, filler);
    var f2 := f1.(cache := c);
    var f3 := f2.(session := Some(Session(FIRST_ASKED, 2, message, [], [])));
    assert [] + message == message && message[..|message|] == message;
    var f4 := f2.(session := Some(Session(FIRST_ASKED, 2, message, message, [])));
    if GoesWrong(FirstFetched(f, c, log), n, log) {
      assert [] + [FirstPacket(log)] == [FirstPacket(log)];
      Onward(f4, Cut(FirstPacket(log)), n, log);
      Onward(f3, Through(|message|), n, log);
      Onward(f2, Transmit, n, log);
      Onward(f, TakeUp, n, log);
    }
  }

  // ---- The whole run ----

  /** Packet 2 waits in its slot, and the client has checked packet 1 and not yet claimed its slot. */
  ghost predicate AboutToBeOvertaken(f: Feed, log: seq<MarketEvent>, filler: Bytes) {
    var b, payload := f.buffer, Payload(log);
    && |log| < MAX_EVENTS && 3 <= |b.slots| <= |log| && f.sent == 2 && Rests(f.cache, 2, log, filler)
    && b.reader == 1 && b.phase == R.Polling && b.consumed == []
    && b.writers == [R.Returned(2, R.Success), R.Checked(1, 1, payload(1))]
    && b.slots[2] == R.Slot(payload(2), R.Ready)
    && forall k :: 0 <= k < |b.slots| && k != 2 ==> b.slots[k].status == R.Empty
  }

  /** The late packet 1 arrives, is written by the listener and consumed; the client then claims the
      slot it has left. */
  lemma Overtaken(f: Feed, log: seq<MarketEvent>, filler: Bytes)
    requires AboutToBeOvertaken(f, log, filler)
    ensures GoesWrong(f, |f.buffer.slots|, log)
  {
    hide GoesWrong, Rests, AllMessages, Payload, Newest, Asked;
    var b, n, payload := f.buffer, |f.buffer.slots|, Payload(log);
    RemainderOfSmall(1, n);
    RemainderOfSmall(2, n);
    var f1 := Arrived(f, 1, log);
    var b2 := b.(slots := b.slots[1 := R.Slot(payload(1), R.Ready)],
                 writers := b.writers[LISTENER := R.Returned(1, R.Success)], claimed := b.claimed + {1});
    var b3 := b2.(slots := b2.slots[1 := R.Slot(payload(1), R.Empty)], reader := 2, consumed := [payload(1)]);
    var b4 := b3.(slots := b3.slots[1 := R.Slot(payload(1), R.Ready)],
                  writers := b3.writers[CLIENT := R.Returned(1, R.Success)], claimed := b3.claimed + {1});
    var b5 := b4.(slots := b4.slots[2 := R.Slot(payload(2), R.Empty)], reader := 3, consumed := [payload(1), payload(2)]);
    assert b5.consumed == Firsts(payload, 2);
    FirstComesAgain(f1.(buffer := b5), 3, log, filler);
    SizedRests(f.cache, 2, log, filler);
    assert b4.slots[2 := b4.slots[2].(status := R.Empty)] == b5.slots && b4.consumed + [payload(2)] == b5.consumed;
    ConsumedNext(f1.(buffer := b4), b5, n, log);
    WrittenNext(f1.(buffer := b3), CLIENT, b4, n, log);
    assert b2.slots[1 := b2.slots[1].(status := R.Empty)] == b3.slots && b2.consumed + [payload(1)] == b3.consumed;
    ConsumedNext(f1.(buffer := b2), b3, n, log);
    assert f1.buffer.writers[LISTENER := R.Returned(1, R.Success)] == b2.writers;
    WrittenNext(f1, LISTENER, b2, n, log);
    ArrivesNext(f, 1, n, log);
  }

  lemma SizedRests(c: C.Cache<Bytes>, sent: nat, log: seq<MarketEvent>, filler: Bytes)
    requires |log| < MAX_EVENTS && Rests(c, sent, log, filler)
    ensures C.Sized(c, RETRANSMIT_CACHE_SIZE) && sent <= |log|
  {
  }

  lemma OpeningRests(capacity: nat, filler: Bytes, log: seq<MarketEvent>)
    requires capacity > 0 && |log| < MAX_EVENTS
    ensures Rests(FeedRuns.Opening(capacity, filler).cache, 0, log, filler)
  {
    FeedRuns.OpeningOk(capacity, filler, log);
  }

  /** Packet 2 overtakes packet 1 on the way, and is written while packet 1 is asked for. */
  lemma SecondFirst(f: Feed, log: seq<MarketEvent>, filler: Bytes) returns (f': Feed)
    requires 3 <= |f.buffer.slots| <= |log| < MAX_EVENTS && f.sent == 2 && Rests(f.cache, 2, log, filler)
    requires f.cache.getter.Waiting? && f.newest == 0 && f.requests == [] && f.session == None
    requires f.buffer == ReorderRuns.Opening(|f.buffer.slots|, 1, 2, [])
    ensures AboutToBeOvertaken(f', log, filler) && |f'.buffer.slots| == |f.buffer.slots|
    ensures GoesWrong(f', |f.buffer.slots|, log) ==> GoesWrong(f, |f.buffer.slots|, log)
  {
    hide GoesWrong, Rests, AllMessages, Payload;
    var b, n, payload := f.buffer, |f.buffer.slots|, Payload(log);
    RemainderOfSmall(2, n);
    SizedRests(f.cache, 2, log, filler);
    var f1 := Arrived(f, 2, log);
    var b2 := b.(slots := b.slots[2 := R.Slot(payload(2), R.Ready)],
                 writers := b.writers[LISTENER := R.Returned(2, R.Success)], claimed := b.claimed + {2});
    var f2 := f1.(buffer := b2);
    var c := FirstFetchedNext(f2, n, log, filler);
    f' := FirstFetched(f2, c, log);
    assert f'.buffer.writers == [R.Returned(2, R.Success), R.Checked(1, 1, payload(1))];
    if GoesWrong(f', n, log) {
      assert f1.buffer.writers[LISTENER := R.Returned(2, R.Success)] == b2.writers;
      WrittenNext(f1, LISTENER, b2, n, log);
      ArrivesNext(f, 2, n, log);
    }
  }

  /** Over a multicast that reorders packets the feed is not safe, at any capacity from 3 on and for any
      event log that fills the buffer: in some run packet 2 comes first, the client fetches packet 1 and is
      overtaken by packet 1 itself, and once the events up to `capacity` are put out the first comes
      again, decoded, before any later one was even sent. */
  lemma ReorderedFeedMisdelivers(capacity: nat, filler: Bytes, log: seq<MarketEvent>) returns (events: seq<Event>)
    requires 3 <= capacity <= |log| < MAX_EVENTS
    ensures CanRun(FeedRuns.Opening(capacity, filler), events, log)
    ensures
      var f := After(FeedRuns.Opening(capacity, filler), events, log);
      && Repeated(f, capacity, log) && !FeedRuns.Delivers(f, log)
      && |f.buffer.consumed[capacity]| == EVENT_SIZE && Decoded(f.buffer.consumed[capacity]) == Some(log[0])
  {
    hide Rests, AllMessages, C.Sized;
    var f := FeedRuns.Opening(capacity, filler);
    OpeningRests(capacity, filler, log);
    var c1 := SentNext(f, capacity, log, filler);
    var f1 := f.(cache := c1, sent := 1);
    var c2 := SentNext(f1, capacity, log, filler);
    var f2 := f1.(cache := c2, sent := 2);
    var f3 := SecondFirst(f2, log, filler);
    Overtaken(f3, log, filler);
    assert GoesWrong(f, capacity, log);
    events :| RunsTo(f, events, capacity, log);
    EventRoundTrip(log[0]);
  }
}
