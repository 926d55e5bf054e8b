/** The market data feed end to end: sequencer, cache and broadcast on one side
    (src/exchange/exchange-simulator.cpp), retransmission server and client, gap detector, reorder
    buffer and publisher on the other (src/market-data-handler/market-data-handler.cpp), over a
    multicast that may lose, repeat and reorder packets and a TCP stream that comes through in parts. */
module MarketFeed {
  import opened Machine
  import opened Orders
  import opened GapDetection
  import opened Wire
  import opened RetransmitServing
  import opened RetransmitReceiving
  import opened MessageCaching
  import C = CircularCaching
  import R = ReorderBuffering

  // As many events as the cache's 32-bit sequence can tell apart.
  const MAX_EVENTS: int := C.IS_LOCKED

  // The two writers of the reorder buffer.
  const LISTENER: nat := 0
  const CLIENT: nat := 1

  /** A retransmission under way: the server's next packet, the bytes it has sent, the bytes that have
      come through, and the packets the client has cut from them. */
  datatype Session = Session(request: RetransmitRequest, serving: SequenceId, stream: Bytes, got: Bytes, taken: seq<Packet>)

  /** The feed, with its histories: the packets that arrived, the requests that are done with, the
      indices a writer ever tried, and those of which it was told that reader or writer were slow. */
  datatype Feed = Feed(
    cache: C.Cache<Bytes>, sent: SequenceId, newest: SequenceId,
    requests: seq<RetransmitRequest>, session: Option<Session>, buffer: R.Buffer<Bytes>,
    arrivals: seq<SequenceId>, finished: seq<RetransmitRequest>, attempted: set<nat>, slow: set<nat>)

  datatype Event =
    // the exchange's thread caches its next message, step by step
    | Put(a: C.Action<Bytes>)
    // and broadcasts it
    | Broadcast
    // a broadcast packet arrives, for whichever time, and the handler begins to write it
    | Arrive(packet: Bytes)
    // the client sends the next request, and the server takes it up
    | TakeUp
    // the server looks for the next packet in the cache, step by step
    | Look(a: C.Action<Bytes>)
    // and sends it
    | Transmit
    // some more bytes come through to the client
    | Through(n: nat)
    // the client cuts the next packet from them and begins to write it
    | Cut(p: Packet)
    // the client has all packets of its request
    | Finish
    // a writer goes on, or the publisher reads
    | Inside(step: R.Action<Bytes>)

  /** Every message of the exchange, in order. */
  function AllMessages(log: seq<MarketEvent>): (messages: seq<Bytes>)
    requires |log| < MAX_EVENTS
    ensures |messages| == |log|
  {
    Messages(Sequenced(log))
  }

  /** What the packet of an index carries. */
  function Payload(log: seq<MarketEvent>): nat -> Bytes {
    id => if 1 <= id <= |log| then Encoded(log[id - 1]) else []
  }

  function IdOf(packet: Bytes): SequenceId
    requires |packet| >= HEADER_SIZE
  {
    ParseHeader(packet[..HEADER_SIZE]).sequence
  }

  function DataOf(packet: Bytes): Bytes
    requires |packet| >= HEADER_SIZE
  {
    packet[HEADER_SIZE..]
  }

  /** What the handler reads from a packet is its number and its event. */
  lemma PacketRead(log: seq<MarketEvent>, k: nat)
    requires k < |log| < MAX_EVENTS
    ensures
      var packet := AllMessages(log)[k];
      |packet| == HEADER_SIZE + EVENT_SIZE && IdOf(packet) == k + 1 && DataOf(packet) == Payload(log)(k + 1)
  {
    var packet := AllMessages(log)[k];
    var header := Header(k + 1, EVENT_SIZE);
    assert packet == HeaderBytes(header) + Encoded(log[k]);
    assert packet[..HEADER_SIZE] == HeaderBytes(header) && packet[HEADER_SIZE..] == Encoded(log[k]);
    HeaderRoundTrip(header);
  }

  ghost predicate WasSent(f: Feed, packet: Bytes, log: seq<MarketEvent>)
    requires |log| < MAX_EVENTS
  {
    exists k :: 0 <= k < f.sent && k < |log| && packet == AllMessages(log)[k]
  }

  predicate FreeWriter(f: Feed, w: nat) {
    w < |f.buffer.writers| && (f.buffer.writers[w].Free? || f.buffer.writers[w].Returned?)
  }

  /** The client's next packet. */
  function NextTaken(s: Session): int {
    s.request.first + |s.taken|
  }

  ghost predicate Possible(f: Feed, e: Event, log: seq<MarketEvent>) {
    |f.buffer.slots| > 0 && |log| < MAX_EVENTS && C.Sized(f.cache, RETRANSMIT_CACHE_SIZE) &&
    match e
    case Put(a) =>
      && (a.Lock? || a.Store? || a.Unlock?) && C.Possible(f.cache, a)
      && (a.Lock? ==> f.cache.written < |log| && a.item == AllMessages(log)[f.cache.written])
    case Broadcast => f.sent < f.cache.written && f.sent < |log|
    case Arrive(packet) => WasSent(f, packet, log) && |packet| >= HEADER_SIZE && FreeWriter(f, LISTENER)
    case TakeUp => f.session == None && f.requests != []
    case Look(a) =>
      && (a.FirstLoad? || a.LoadData? || a.SecondLoad?) && C.Possible(f.cache, a) && f.session.Some?
      && FIRST_SEQUENCE_ID <= f.session.value.serving < f.session.value.request.last
      && (a.FirstLoad? ==> a.index == CacheIndex(f.session.value.serving))
    case Transmit =>
      && f.session.Some? && f.cache.getter.Answered? && f.cache.getter.result.Ok?
      && FIRST_SEQUENCE_ID <= f.session.value.serving < f.session.value.request.last
      && f.cache.getter.index == CacheIndex(f.session.value.serving)
    case Through(n) => f.session.Some? && |f.session.value.got| <= n <= |f.session.value.stream|
    case Cut(p) =>
      && f.session.Some? && FreeWriter(f, CLIENT)
      && p.sequence == NextTaken(f.session.value) < f.session.value.request.last && |p.payload| == EVENT_SIZE
      && Wired(f.session.value.taken + [p]) <= f.session.value.got
    case Finish => f.session.Some? && NextTaken(f.session.value) >= f.session.value.request.last
    case Inside(a) => !a.Load? && R.Possible(f.buffer, a)
  }

  function WithSession(f: Feed, s: Session): Feed {
    f.(session := Some(s))
  }

  /** The load with which a writer begins to write. */
  function Loaded(f: Feed, w: nat, id: nat, data: Bytes): Feed
    requires |f.buffer.slots| > 0 && FreeWriter(f, w)
  {
    f.(buffer := R.Next(f.buffer, R.Load(w, id, data)), attempted := f.attempted + {id})
  }

  ghost function Next(f: Feed, e: Event, log: seq<MarketEvent>): (f': Feed)
    requires Possible(f, e, log)
  {
    match e
    case Put(a) => f.(cache := C.Next(f.cache, a, RETRANSMIT_CACHE_SIZE))
    case Broadcast => f.(sent := f.sent + 1)
    case Arrive(packet) =>
      var id := IdOf(packet);
      Loaded(f, LISTENER, id, DataOf(packet)).(newest := Newest(f.newest, id),
        requests := f.requests + Asked(f.newest, id), arrivals := f.arrivals + [id])
    case TakeUp =>
      var r := ParseRequest(RequestBytes(f.requests[0]));
      f.(requests := f.requests[1..], session := Some(Session(f.requests[0], r.first, [], [], [])))
    case Look(a) => f.(cache := C.Next(f.cache, a, RETRANSMIT_CACHE_SIZE))
    case Transmit =>
      var s := f.session.value;
      WithSession(f, s.(stream := s.stream + f.cache.getter.result.item, serving := s.serving + 1))
    case Through(n) =>
      var s := f.session.value;
      WithSession(f, s.(got := s.stream[..n]))
    case Cut(p) =>
      var s := f.session.value;
      WithSession(Loaded(f, CLIENT, p.sequence, p.payload), s.(taken := s.taken + [p]))
    case Finish => f.(session := None, finished := f.finished + [f.session.value.request])
    case Inside(a) =>
      f.(buffer := R.Next(f.buffer, a),
         slow := f.slow + (if a.LookAtReader? then {f.buffer.writers[a.w].index} else {}))
  }

  /** The one step that can spoil the buffer. */
  ghost predicate Spoils(f: Feed, e: Event, log: seq<MarketEvent>)
    requires Possible(f, e, log)
  {
    e.Inside? && R.StaleClaim(f.buffer, e.step)
  }

  // ---- What every run keeps ----

  /** The cache holds the exchange's messages; a packet is broadcast once it is cached, and looked for
      once some packet is. */
  ghost predicate CacheRight(f: Feed, log: seq<MarketEvent>, filler: Bytes)
    requires |log| < MAX_EVENTS
  {
    && C.Inv(f.cache, RETRANSMIT_CACHE_SIZE, filler) && f.cache.history <= AllMessages(log)
    && f.sent <= f.cache.written
    && (f.cache.getter.Waiting? || f.cache.getter.seen > 0)
  }

  /** Nothing is written that was not sent. */
  ghost predicate OnlySent(f: Feed) {
    && (forall i :: i in f.buffer.claimed ==> i in f.attempted)
    && (forall w :: 0 <= w < |f.buffer.writers| && f.buffer.writers[w].Checked? ==> f.buffer.writers[w].index in f.attempted)
    && (forall i :: i in f.attempted ==> 1 <= i <= f.sent)
  }

  /** Every packet asked for was sent, and so cached, before. */
  ghost predicate AsksSent(f: Feed) {
    && f.newest <= f.sent
    && (forall k :: 0 <= k < |f.requests| ==> 1 <= f.requests[k].first < f.requests[k].last <= f.newest)
  }

  /** The server's stream is the messages asked for up to its next packet, a first part of it has come
      through, and the client has cut that into packets. */
  ghost predicate SessionRight(f: Feed, s: Session, log: seq<MarketEvent>)
    requires |log| < MAX_EVENTS
  {
    && 1 <= s.request.first <= s.serving <= s.request.last <= f.newest
    && s.stream == Stream(AllMessages(log), s.request.first, s.serving)
    && s.got <= s.stream && RetransmitReceiving.Cut(s.got, s.taken, s.request.first)
  }

  ghost predicate Inv(f: Feed, log: seq<MarketEvent>, filler: Bytes) {
    && |log| < MAX_EVENTS && CacheRight(f, log, filler)
    && R.Inv(f.buffer, 1, Payload(log)) && OnlySent(f) && AsksSent(f)
    && (f.session.Some? ==> SessionRight(f, f.session.value, log))
  }

  // ---- The exchange's side ----

  lemma PutKeeps(f: Feed, a: C.Action<Bytes>, log: seq<MarketEvent>, filler: Bytes)
    requires |log| < MAX_EVENTS && CacheRight(f, log, filler) && Possible(f, Put(a), log)
    ensures CacheRight(Next(f, Put(a), log), log, filler)
  {
    C.StepKeeps(f.cache, a, RETRANSMIT_CACHE_SIZE, filler);
    hide C.Inv, AllMessages;
  }

  lemma LookKeeps(f: Feed, a: C.Action<Bytes>, log: seq<MarketEvent>, filler: Bytes)
    requires |log| < MAX_EVENTS && CacheRight(f, log, filler) && Possible(f, Look(a), log) && f.sent > 0
    ensures CacheRight(Next(f, Look(a), log), log, filler)
  {
    C.StepKeeps(f.cache, a, RETRANSMIT_CACHE_SIZE, filler);
    hide C.Inv, AllMessages;
  }

  /** What the server found is the message of its next packet: the cache answers truthfully, and some
      packet was cached before it looked. */
  lemma FoundIsMessage(f: Feed, s: Session, log: seq<MarketEvent>, filler: Bytes)
    requires |log| < MAX_EVENTS && CacheRight(f, log, filler) && f.sent <= |log|
    requires SessionRight(f, s, log) && s.serving < s.request.last
    requires f.newest <= f.sent && f.cache.getter.Answered? && f.cache.getter.result.Ok?
    requires f.cache.getter.index == CacheIndex(s.serving)
    ensures f.cache.getter.result.item == Cached(AllMessages(log), s.serving)
  {
    C.AnsweredItem(f.cache, RETRANSMIT_CACHE_SIZE, filler);
    IndexFitsExactly(s.serving);
    CachedWithinReach(AllMessages(log), s.serving);
  }

  lemma {:induction false} StreamSnoc(log: seq<Bytes>, first: SequenceId, last: SequenceId)
    requires first <= last < LAST_ID
    ensures Stream(log, first, last + 1) == Stream(log, first, last) + Cached(log, last)
    decreases last - first
  {
    hide Cached;
    if first < last {
      StreamSnoc(log, first + 1, last);
    } else {
      assert Stream(log, last + 1, last + 1) == [];
    }
  }

  lemma TransmitFound(f: Feed, s: Session, log: seq<MarketEvent>, filler: Bytes)
    requires |log| < MAX_EVENTS && CacheRight(f, log, filler) && SessionRight(f, s, log)
    requires s.serving < s.request.last && f.newest <= f.sent
    requires f.cache.getter.Answered? && f.cache.getter.result.Ok? && f.cache.getter.index == CacheIndex(s.serving)
    ensures SessionRight(f, s.(stream := s.stream + f.cache.getter.result.item, serving := s.serving + 1), log)
  {
    CacheWithinLog(f, log, filler);
    FoundIsMessage(f, s, log, filler);
    Transmitted(f, s, f.cache.getter.result.item, log);
    hide *;
  }

  lemma TransmitKeeps(f: Feed, log: seq<MarketEvent>, filler: Bytes)
    requires Inv(f, log, filler) && Possible(f, Transmit, log)
    ensures Inv(Next(f, Transmit, log), log, filler)
  {
    hide C.Inv, R.Inv, AllMessages, Cached, CacheRight, SessionRight, OnlySent, Next, Possible, CacheIndex;
    TransmitNext(f, log);
    TransmitFound(f, f.session.value, log, filler);
    OnlySession(f, Next(f, Transmit, log), log, filler);
  }

  /** A feed of which only the session moved on, rightly, is in order. */
  lemma OnlySession(f: Feed, f': Feed, log: seq<MarketEvent>, filler: Bytes)
    requires Inv(f, log, filler) && f'.session.Some? && SessionRight(f, f'.session.value, log)
    requires f'.buffer == f.buffer && f'.attempted == f.attempted && f'.newest == f.newest && f'.requests == f.requests
    requires f'.cache == f.cache && f'.sent == f.sent
    ensures Inv(f', log, filler)
  {
    hide C.Inv, R.Inv, CacheRight, SessionRight, OnlySent, Encoded;
    SessionFrame(f, f', f'.session.value, log);
    OnlySentFrame(f, f');
    CacheFrame(f, f', log, filler);
  }

  /** What sending the packet found changes. */
  lemma TransmitNext(f: Feed, log: seq<MarketEvent>)
    requires Possible(f, Transmit, log)
    ensures
      f.session.Some? &&
      var f', s := Next(f, Transmit, log), f.session.value;
      && f.cache.getter.Answered? && f.cache.getter.result.Ok? && f.cache.getter.index == CacheIndex(s.serving)
      && s.serving < s.request.last
      && f'.session == Some(s.(stream := s.stream + f.cache.getter.result.item, serving := s.serving + 1))
      && f'.buffer == f.buffer && f'.attempted == f.attempted && f'.newest == f.newest && f'.requests == f.requests
      && f'.cache == f.cache && f'.sent == f.sent
  {
  }

  /** The server's stream grows by its next message. */
  lemma Transmitted(f: Feed, s: Session, item: Bytes, log: seq<MarketEvent>)
    requires |log| < MAX_EVENTS && SessionRight(f, s, log) && s.serving < s.request.last
    requires item == Cached(AllMessages(log), s.serving)
    ensures SessionRight(f, s.(stream := s.stream + item, serving := s.serving + 1), log)
  {
    hide AllMessages, Stream, Cached, Wired, RetransmitReceiving.Cut;
    StreamSnoc(AllMessages(log), s.request.first, s.serving);
    PrefixStays(s.got, s.stream, item);
  }

  lemma PrefixStays<T>(a: seq<T>, b: seq<T>, c: seq<T>)
    requires a <= b
    ensures a <= b + c
  {
  }

  lemma SessionFrame(f: Feed, f': Feed, s: Session, log: seq<MarketEvent>)
    requires |log| < MAX_EVENTS && SessionRight(f, s, log) && f.newest <= f'.newest
    ensures SessionRight(f', s, log)
  {
  }

  lemma CacheWithinLog(f: Feed, log: seq<MarketEvent>, filler: Bytes)
    requires |log| < MAX_EVENTS && CacheRight(f, log, filler)
    ensures f.sent <= |log|
  {
  }

  // ---- The handler's side ----

  lemma LoadedKeeps(f: Feed, w: nat, id: SequenceId, log: seq<MarketEvent>)
    requires |log| < MAX_EVENTS && R.Inv(f.buffer, 1, Payload(log)) && OnlySent(f)
    requires FreeWriter(f, w) && 1 <= id <= f.sent
    ensures
      var f' := Loaded(f, w, id, Payload(log)(id));
      R.Inv(f'.buffer, 1, Payload(log)) && OnlySent(f')
  {
    R.StepKeeps(f.buffer, R.Load(w, id, Payload(log)(id)), 1, Payload(log));
  }

  lemma ArrivedIsPacket(f: Feed, packet: Bytes, log: seq<MarketEvent>)
    requires |log| < MAX_EVENTS && WasSent(f, packet, log) && |packet| >= HEADER_SIZE
    ensures DataOf(packet) == Payload(log)(IdOf(packet)) && 1 <= IdOf(packet) <= f.sent
  {
    var k :| 0 <= k < f.sent && k < |log| && packet == AllMessages(log)[k];
    PacketRead(log, k);
  }

  /** What an arrival changes. */
  lemma ArriveNext(f: Feed, packet: Bytes, log: seq<MarketEvent>)
    requires Possible(f, Arrive(packet), log)
    ensures
      var f', id := Next(f, Arrive(packet), log), IdOf(packet);
      && f'.buffer == Loaded(f, LISTENER, id, DataOf(packet)).buffer && f'.attempted == f.attempted + {id}
      && f'.newest == Newest(f.newest, id) && f'.requests == f.requests + Asked(f.newest, id)
      && f'.cache == f.cache && f'.sent == f.sent && f'.session == f.session
  {
    hide R.Next, IdOf, DataOf, Asked, Newest, WasSent;
  }

  lemma AsksMore(f: Feed, id: SequenceId, f': Feed)
    requires AsksSent(f) && 1 <= id <= f.sent && f.newest < LAST_ID
    requires f'.newest == Newest(f.newest, id) && f'.requests == f.requests + Asked(f.newest, id) && f'.sent == f.sent
    ensures AsksSent(f') && f.newest <= f'.newest
  {
    NewRangeOk(f.newest, id);
    hide Newest, Asked;
    var asked := Asked(f.newest, id);
    forall k | 0 <= k < |f'.requests|
      ensures 1 <= f'.requests[k].first < f'.requests[k].last <= f'.newest
    {
      if k >= |f.requests| {
        assert f'.requests[k] == asked[k - |f.requests|];
      }
    }
  }

  lemma CacheFrame(f: Feed, f': Feed, log: seq<MarketEvent>, filler: Bytes)
    requires |log| < MAX_EVENTS && CacheRight(f, log, filler) && f'.cache == f.cache && f'.sent == f.sent
    ensures CacheRight(f', log, filler)
  {
  }

  lemma ArriveKeeps(f: Feed, packet: Bytes, log: seq<MarketEvent>, filler: Bytes)
    requires Inv(f, log, filler) && Possible(f, Arrive(packet), log)
    ensures Inv(Next(f, Arrive(packet), log), log, filler)
    ensures DataOf(packet) == Payload(log)(IdOf(packet)) && 1 <= IdOf(packet) <= f.sent
  {
    ArrivedIsPacket(f, packet, log);
    ArriveNext(f, packet, log);
    CacheWithinLog(f, log, filler);
    hide C.Inv, R.Inv, OnlySent, SessionRight, CacheRight, IdOf, DataOf, Next, Newest, Asked, Loaded, WasSent;
    var f', id := Next(f, Arrive(packet), log), IdOf(packet);
    var f1 := Loaded(f, LISTENER, id, DataOf(packet));
    LoadedKeeps(f, LISTENER, id, log);
    LoadedTried(f, LISTENER, id, DataOf(packet));
    OnlySentFrame(f1, f');
    AsksMore(f, id, f');
    CacheFrame(f, f', log, filler);
    if f.session.Some? {
      SessionFrame(f, f', f.session.value, log);
    }
  }

  lemma LoadedTried(f: Feed, w: nat, id: nat, data: Bytes)
    requires |f.buffer.slots| > 0 && FreeWriter(f, w)
    ensures Loaded(f, w, id, data).attempted == f.attempted + {id} && Loaded(f, w, id, data).sent == f.sent
  {
    hide R.Next;
  }

  lemma OnlySentFrame(f: Feed, f': Feed)
    requires OnlySent(f) && f'.buffer == f.buffer && f'.attempted == f.attempted && f'.sent == f.sent
    ensures OnlySent(f')
  {
  }

  lemma NewRangeOk(newest: SequenceId, id: SequenceId)
    requires newest < LAST_ID
    ensures newest <= Newest(newest, id) && (Newest(newest, id) == newest || Newest(newest, id) == id)
    ensures forall k {:trigger Asked(newest, id)[k]} :: 0 <= k < |Asked(newest, id)| ==>
      1 <= Asked(newest, id)[k].first < Asked(newest, id)[k].last <= Newest(newest, id)
  {
  }

  lemma OneMoreInSequence(packets: seq<Packet>, p: Packet, first: SequenceId)
    requires InSequence(packets, first) && p.sequence == first + |packets| && |p.payload| == EVENT_SIZE
    ensures InSequence(packets + [p], first)
  {
    var more := packets + [p];
    forall k | 0 <= k < |more| ensures more[k].sequence == first + k && |more[k].payload| == EVENT_SIZE {
      assert k < |packets| ==> more[k] == packets[k];
    }
  }

  /** The packet the client cuts from what has come through is the next packet of the log: loss on the
      way, the cache, the TCP stream and the framing make no difference to it. */
  lemma CutIsPacket(f: Feed, s: Session, p: Packet, log: seq<MarketEvent>)
    requires |log| < MAX_EVENTS && SessionRight(f, s, log) && f.newest <= f.sent <= |log|
    requires p.sequence == NextTaken(s) < s.request.last && |p.payload| == EVENT_SIZE
    requires Wired(s.taken + [p]) <= s.got
    ensures RetransmitReceiving.Cut(s.got, s.taken + [p], s.request.first)
    ensures p.payload == Payload(log)(p.sequence) && 1 <= p.sequence <= f.sent
  {
    hide Stream, Wired, Encoded, InSequence, Sequenced, Messages;
    var packets := s.taken + [p];
    OneMoreInSequence(s.taken, p, s.request.first);
    ClientGetsLog(log, s.request.first, s.serving, s.got, packets);
    assert packets[|s.taken|] == p;
  }

  /** What a cut changes. */
  lemma CutNext(f: Feed, p: Packet, log: seq<MarketEvent>)
    requires Possible(f, Cut(p), log)
    ensures
      var f', s := Next(f, Cut(p), log), f.session.value;
      && f'.buffer == Loaded(f, CLIENT, p.sequence, p.payload).buffer && f'.attempted == f.attempted + {p.sequence}
      && f'.session == Some(s.(taken := s.taken + [p])) && f'.newest == f.newest && f'.requests == f.requests
      && f'.cache == f.cache && f'.sent == f.sent
  {
    hide R.Next, Wired;
  }

  lemma CutKeeps(f: Feed, p: Packet, log: seq<MarketEvent>, filler: Bytes)
    requires Inv(f, log, filler) && Possible(f, Cut(p), log)
    ensures Inv(Next(f, Cut(p), log), log, filler)
    ensures p.payload == Payload(log)(p.sequence) && 1 <= p.sequence <= f.sent
  {
    var s := f.session.value;
    CacheWithinLog(f, log, filler);
    CutIsPacket(f, s, p, log);
    CutNext(f, p, log);
    hide C.Inv, R.Inv, OnlySent, CacheRight, Next, Loaded, AllMessages, Stream, Wired, Encoded, RetransmitReceiving.Cut;
    var f', f1 := Next(f, Cut(p), log), Loaded(f, CLIENT, p.sequence, p.payload);
    LoadedKeeps(f, CLIENT, p.sequence, log);
    LoadedTried(f, CLIENT, p.sequence, p.payload);
    OnlySentFrame(f1, f');
    CacheFrame(f, f', log, filler);
  }

  lemma InsideKeeps(f: Feed, a: R.Action<Bytes>, log: seq<MarketEvent>, filler: Bytes)
    requires Inv(f, log, filler) && Possible(f, Inside(a), log) && !R.StaleClaim(f.buffer, a)
    ensures Inv(Next(f, Inside(a), log), log, filler)
  {
    InsideNext(f, a, log);
    hide C.Inv, OnlySent, CacheRight, SessionRight, Next, Encoded;
    var f' := Next(f, Inside(a), log);
    R.StepKeeps(f.buffer, a, 1, Payload(log));
    InsideWritesSent(f, a, f');
    CacheFrame(f, f', log, filler);
    if f.session.Some? {
      SessionFrame(f, f', f.session.value, log);
    }
  }

  /** What a step of a writer or of the publisher changes. */
  lemma InsideNext(f: Feed, a: R.Action<Bytes>, log: seq<MarketEvent>)
    requires Possible(f, Inside(a), log)
    ensures
      var f' := Next(f, Inside(a), log);
      && R.Possible(f.buffer, a) && !a.Load? && f'.buffer == R.Next(f.buffer, a) && f'.attempted == f.attempted
      && f'.newest == f.newest && f'.requests == f.requests
      && f'.cache == f.cache && f'.sent == f.sent && f'.session == f.session
  {
  }

  lemma InsideWritesSent(f: Feed, a: R.Action<Bytes>, f': Feed)
    requires |f.buffer.slots| > 0 && OnlySent(f) && R.Possible(f.buffer, a) && !a.Load?
    requires f'.buffer == R.Next(f.buffer, a) && f'.attempted == f.attempted && f'.sent == f.sent
    ensures OnlySent(f')
  {
  }

  lemma TakeUpKeeps(f: Feed, log: seq<MarketEvent>, filler: Bytes)
    requires Inv(f, log, filler) && Possible(f, TakeUp, log)
    ensures Inv(Next(f, TakeUp, log), log, filler)
    ensures Next(f, TakeUp, log).session == Some(Session(f.requests[0], f.requests[0].first, [], [], []))
  {
    RequestRoundTrip(f.requests[0]);
    hide C.Inv, R.Inv, AllMessages, Encoded, RequestBytes, ParseRequest;
    assert Wired([]) == [];
  }

  lemma OtherKeeps(f: Feed, e: Event, log: seq<MarketEvent>, filler: Bytes)
    requires Inv(f, log, filler) && Possible(f, e, log) && (e.Broadcast? || e.Through? || e.Finish?)
    ensures Inv(Next(f, e, log), log, filler)
  {
    hide C.Inv, R.Inv, AllMessages, Stream, Wired, Encoded;
    if e.Through? {
      var s := f.session.value;
      assert s.got <= s.stream[..e.n];
    }
  }

  /** Every step that is no stale claim keeps the feed in order. */
  lemma StepKeeps(f: Feed, e: Event, log: seq<MarketEvent>, filler: Bytes)
    requires Inv(f, log, filler) && Possible(f, e, log) && !Spoils(f, e, log)
    ensures Inv(Next(f, e, log), log, filler)
  {
    hide C.Inv, R.Inv, AllMessages, Stream, Wired, Encoded;
    match e
    case Put(a) => PutKeeps(f, a, log, filler);
    case Look(a) => LookKeeps(f, a, log, filler);
    case Transmit => TransmitKeeps(f, log, filler);
    case Arrive(packet) => ArriveKeeps(f, packet, log, filler);
    case TakeUp => TakeUpKeeps(f, log, filler);
    case Cut(p) => CutKeeps(f, p, log, filler);
    case Inside(a) => InsideKeeps(f, a, log, filler);
    case _ => OtherKeeps(f, e, log, filler);
  }
}
