/** The retransmission server's side of one client (src/exchange/tcp-retransmit.cpp): a request is
    answered by the cached messages in order, over any number of partial sends. */
module RetransmitServing {
  import opened Machine
  import opened GapDetection
  import opened Wire
  import opened Retransmission
  import CircularCaching
  import opened MessageCaching

  const FIRST_SEQUENCE_ID: SequenceId := 1
  const MAX_WIRE_SIZE: nat := HEADER_SIZE + MAX_MESSAGE_BYTES

  /** The cache takes a 32-bit index. */
  function CacheIndex(packet: SequenceId): nat
    requires packet >= FIRST_SEQUENCE_ID
  {
    (packet - FIRST_SEQUENCE_ID) % TWO_TO_THE_32
  }

  /** The message the cache holds for a packet, given everything the exchange ever sends, which the
      cache's 32-bit sequence must be able to count. */
  function Cached(log: seq<Bytes>, packet: SequenceId): Bytes {
    if packet >= FIRST_SEQUENCE_ID && CacheIndex(packet) < |log| then log[CacheIndex(packet)] else []
  }

  /** The messages of packets first, ..., last - 1, one after the other. */
  function Stream(log: seq<Bytes>, first: SequenceId, last: SequenceId): Bytes
    decreases if first < last then last - first else 0
  {
    if first >= last then [] else Cached(log, first) + Stream(log, first + 1, last)
  }

  /** After an event the client has all it was promised, or waits for the socket, or is closed. */
  datatype Outcome = Served | Waiting | Closing(error: StreamError)

  datatype StreamError = Connection(error: SendError) | PacketTooOld | InvalidPacket | PacketUnavailable

  /** What the client still has to get: the rest of the packet being sent, and the packets after it. */
  function Owed(log: seq<Bytes>, request: Option<RetransmitRequest>, sending: bool, pending: Bytes): Bytes {
    match request
    case None => []
    case Some(r) =>
      if !sending then Stream(log, r.first, r.last)
      else pending + (if r.first < r.last then Stream(log, r.first + 1, r.last) else [])
  }

  /** What was sent and what is owed are what was promised: nothing is repeated or skipped. */
  predicate Kept(sent: Bytes, owed: Bytes, promised: Bytes) {
    sent + owed == promised
  }

  class SavedConnection {
    const connection: Connection
    const cache: MessageCache
    var request: Option<RetransmitRequest>
    // All the client was ever promised: the streams of its requests so far.
    ghost var promised: Bytes
    // Item 0 was asked for before any message was cached, and answered with the initial contents.
    ghost var early: bool

    ghost function Log(): seq<Bytes> {
      cache.log
    }

    ghost predicate Valid()
      reads this, connection, connection.buffer, connection.socket, cache
    {
      && cache.Idle() && |cache.filler| <= MAX_WIRE_SIZE
      && connection.Valid() && (this as object) != connection && connection.buffer.Length == MAX_WIRE_SIZE
      && !connection.status.SavedMessage?
      && (forall k :: 0 <= k < |Log()| ==> |Log()[k]| <= MAX_WIRE_SIZE)
      && (connection.status.PartialSend? ==> request.Some? && request.value.first < request.value.last)
      && (!early ==>
          Kept(connection.socket.sent, Owed(Log(), request, connection.status.PartialSend?, connection.Pending()), promised))
    }

    constructor (socket: Socket, cache: MessageCache)
      requires cache.Idle() && |cache.filler| <= MAX_WIRE_SIZE
      requires forall k :: 0 <= k < |cache.log| ==> |cache.log[k]| <= MAX_WIRE_SIZE
      ensures Valid() && request == None && promised == socket.sent && !early
      ensures fresh(connection) && fresh(connection.buffer) && this.cache == cache && connection.socket == socket
      ensures connection.status == Status.Clear
    {
      connection := new Connection(MAX_WIRE_SIZE, socket);
      this.cache := cache;
      request := None;
      promised := socket.sent;
      early := false;
    }

    /** The cache still holds the message of a packet, once the exchange has put all its messages. */
    ghost predicate Held(packet: int) {
      var item := packet - FIRST_SEQUENCE_ID;
      0 <= item < |Log()| <= item + RETRANSMIT_CACHE_SIZE
    }

    ghost predicate AllHeld(first: int, last: int) {
      forall packet :: first <= packet < last ==> Held(packet)
    }

    /** Nothing stands in the way of serving: the exchange is at rest, and the socket takes all it is
        given. */
    ghost predicate Smooth()
      reads connection.socket`sends, cache
    {
      cache.AllPut() && cache.cache.written > 0 && connection.socket.Takes(MAX_WIRE_SIZE)
    }

    /** The cache was last asked for the next packet, and answered this. */
    ghost predicate Answers(result: CircularCaching.Result<Bytes>)
      reads this`request, cache
    {
      && request.Some? && FIRST_SEQUENCE_ID <= request.value.first < request.value.last
      && cache.cache.getter.Answered? && cache.cache.getter.index == CacheIndex(request.value.first)
      && cache.cache.getter.result == result
    }

    /** Each error has its cause. */
    ghost predicate Caused(error: StreamError)
      reads this`request, connection.socket`sends, cache
    {
      match error
      case Connection(e) => connection.socket.CouldNotSend(e)
      case PacketTooOld => Answers(CircularCaching.DataTooOld)
      case PacketUnavailable => Answers(CircularCaching.ConcurrentWrite)
      case InvalidPacket =>
        (request.Some? && request.value.first < FIRST_SEQUENCE_ID) || Answers(CircularCaching.DataDoesNotExist)
    }

    /** A packet still held is found. */
    lemma HeldIsFound(packet: SequenceId)
      requires cache.Idle() && cache.AllPut() && cache.cache.written > 0 && Held(packet)
      ensures CircularCaching.QuietGet(cache.cache, CacheIndex(packet), RETRANSMIT_CACHE_SIZE).getter.result.Ok?
    {
      hide CircularCaching.QuietGet;
      var item := packet - FIRST_SEQUENCE_ID;
      CacheSizeFits();
      CircularCaching.QuietAnswer(cache.cache, item, RETRANSMIT_CACHE_SIZE, cache.filler);
      RemainderOfSmall(item, TWO_TO_THE_32);
      assert CircularCaching.AnswersFor(cache.cache.written, RETRANSMIT_CACHE_SIZE, item, item);
    }

    /** The exchange has put all its messages, the cache has an answer for the next packet, and the
        socket takes all it is given. */
    ghost predicate Ready()
      requires cache.Idle() && request.Some? && FIRST_SEQUENCE_ID <= request.value.first
      reads this, connection, connection.socket, cache
    {
      && cache.AllPut() && connection.socket.Takes(MAX_WIRE_SIZE)
      && CircularCaching.QuietGet(cache.cache, CacheIndex(request.value.first), RETRANSMIT_CACHE_SIZE).getter.result.Ok?
    }

    /** One packet more: save it and send what the socket takes. */
    method SendNext() returns (error: Option<StreamError>)
      requires Valid() && connection.status == Status.Clear
      requires request.Some? && FIRST_SEQUENCE_ID <= request.value.first < request.value.last
      modifies this`request, this`early, connection, connection.buffer, connection.socket`sent, connection.socket`sends, cache
      ensures Valid() && promised == old(promised) && old(cache.cache.written) <= cache.cache.written
      ensures old(connection.socket.sent) <= connection.socket.sent
      ensures early == old(early) || (early && old(cache.cache.written) == 0)
      ensures request.Some? && request.value.last == old(request).value.last
      ensures old(Ready()) ==> error == None
      ensures old(Smooth()) ==> Smooth()
      ensures error == None ==>
        connection.status == Status.Clear && request.value.first == old(request).value.first + 1
      ensures error != None ==> Caused(error.value) && request == old(request)
      ensures cache.cache.getter.Answered? && cache.cache.getter.index == CacheIndex(old(request).value.first)
      ensures cache.cache.getter.result.Ok? <==> error == None || error.value.Connection?
      ensures error != None && error.value.Connection? ==> connection.status == Status.PartialSend
      ensures error != None && !error.value.Connection? ==> connection.status == Status.Clear
    {
      hide Kept, Owed, Stream, Cached, CircularCaching.QuietGet, CircularCaching.Inv;
      var r := request.value;
      var item := cache.TryGetItem(CacheIndex(r.first));
      match item
      case DataTooOld => return Some(PacketTooOld);
      case DataDoesNotExist => return Some(InvalidPacket);
      case ConcurrentWrite => return Some(PacketUnavailable);
      case Ok(message) =>
        assert |message| <= MAX_WIRE_SIZE by {
          if CacheIndex(r.first) < |Log()| {
            assert |Log()[CacheIndex(r.first)]| <= MAX_WIRE_SIZE;
          }
        }
        early := early || !(CacheIndex(r.first) < |Log()| && message == Log()[CacheIndex(r.first)]);
        ghost var sent := connection.socket.sent;
        if !early {
          PacketTaken(Log(), r, sent, message, promised);
        }
        var result := connection.SaveAndSend(message);
        if !early {
          SomeSent(Log(), r, sent, message, connection.socket.sent, connection.Pending(), promised);
        }
        if result != None {
          return Some(StreamError.Connection(result.value));
        }
        Count();
        return None;
    }

    /** `++client.request->first_packet`. */
    method Count()
      requires connection.Valid() && request.Some? && request.value.first < request.value.last
      modifies this`request
      ensures request == Some(old(request).value.(first := old(request).value.first + 1))
    {
      request := Some(request.value.(first := request.value.first + 1));
    }

    /** The rest of a packet partly sent before. */
    method ResumeSend() returns (error: Option<StreamError>)
      requires Valid() && connection.status.PartialSend?
      modifies this`request, connection, connection.socket`sent, connection.socket`sends
      ensures Valid() && promised == old(promised) && old(connection.socket.sent) <= connection.socket.sent
      ensures request.Some? && request.value.last == old(request).value.last
      ensures error == None ==>
        connection.status == Status.Clear && request.value.first == old(request).value.first + 1
      ensures error != None ==>
        error.value.Connection? && Caused(error.value) && connection.status == Status.PartialSend
      ensures old(Smooth()) ==> error == None && Smooth()
    {
      hide Kept, Owed, Stream;
      var r := request.value;
      ghost var sent, pending := connection.socket.sent, connection.Pending();
      var result := connection.Send();
      if !early {
        SomeSent(Log(), r, sent, pending, connection.socket.sent, connection.Pending(), promised);
      }
      if result != None {
        return Some(StreamError.Connection(result.value));
      }
      Count();
      return None;
    }

    /** What the client got so far is always a first part of what it was promised. */
    lemma SentIsPrefix()
      requires Valid() && !early
      ensures connection.socket.sent <= promised
    {
    }

    method Forget()
      requires connection.Valid()
      modifies this`request
      ensures request == None
    {
      request := None;
    }

    /** `stream_packets`: when it reports no error the client has got everything it was promised;
        after any error what it got is a first part of that, and the rest is still owed. */
    method StreamPackets() returns (error: Option<StreamError>)
      requires Valid() && request.Some? && (connection.status.Clear? || connection.status.PartialSend?)
      modifies this`request, this`early, connection, connection.buffer, connection.socket`sent, connection.socket`sends, cache
      ensures Valid() && promised == old(promised) && old(cache.cache.written) <= cache.cache.written
      ensures old(connection.socket.sent) <= connection.socket.sent
      ensures early == old(early) || (early && old(cache.cache.written) == 0)
      ensures error == None ==> request == None && connection.status == Status.Clear
      ensures error == None && !early ==> connection.socket.sent == promised
      ensures error == Some(StreamError.Connection(WouldBlock)) ==> connection.status == Status.PartialSend
      ensures error != None ==> Caused(error.value)
      ensures
        var r, resumes := old(request).value, old(connection.status.PartialSend?);
        && (r.first < FIRST_SEQUENCE_ID ==>
            error == Some(InvalidPacket) && connection.socket.sent == old(connection.socket.sent))
        && (old(Smooth()) && r.first >= FIRST_SEQUENCE_ID && AllHeld(r.first + (if resumes then 1 else 0), r.last) ==>
            error == None)
    {
      if request.value.first < FIRST_SEQUENCE_ID {
        return Some(InvalidPacket);
      }
      hide Stream, Owed, Kept, Caused, Held;
      if connection.status == Status.PartialSend {
        error := ResumeSend();
        if error != None {
          return;
        }
      }
      while request.value.first < request.value.last
        invariant Valid() && promised == old(promised) && old(cache.cache.written) <= cache.cache.written
        invariant old(connection.socket.sent) <= connection.socket.sent
        invariant early == old(early) || (early && old(cache.cache.written) == 0)
        invariant request.Some? && connection.status == Status.Clear && request.value.first >= FIRST_SEQUENCE_ID
        invariant request.value.last == old(request).value.last && (old(Smooth()) ==> Smooth())
        invariant
          old(request).value.first + (if old(connection.status.PartialSend?) then 1 else 0) <= request.value.first
        decreases request.value.last - request.value.first
      {
        if Smooth() && Held(request.value.first) {
          HeldIsFound(request.value.first);
        }
        error := SendNext();
        if error != None {
          return;
        }
      }
      if !early {
        NothingLeft(Log(), request.value, connection.socket.sent, promised);
      }
      Forget();
      return None;
    }

    /** Between events: nothing is requested unless a packet is partly sent, and a request partly
        received is still a request. */
    ghost predicate Idle()
      reads this, connection, connection.buffer, connection.socket, cache
    {
      && Valid() && (!connection.status.PartialSend? ==> request == None)
      && (connection.status.PartialReceive? ==> connection.head == REQUEST_SIZE)
    }

    /** Between requests everything promised was sent. */
    lemma NothingOwed()
      requires Idle() && !early && !connection.status.PartialSend?
      ensures connection.socket.sent == promised
    {
    }

    /** `receive_request`: a whole request promises the client its stream. */
    method ReceiveRequest() returns (error: Option<SendError>)
      requires Idle() && !connection.status.PartialSend?
      modifies this`request, this`promised, connection, connection.buffer
      modifies connection.socket`received, connection.socket`receives
      ensures Valid() && connection.socket.sent == old(connection.socket.sent)
      ensures old(connection.socket.received) <= connection.socket.received
      ensures error != None ==> Idle() && request == None && promised == old(promised)
      ensures error != None ==> connection.socket.CouldNotReceive(error.value)
      ensures old(connection.socket.Gives(MAX_WIRE_SIZE)) ==> error == None
      ensures connection.socket.FromPeer(|old(connection.socket.received)|)
      ensures error == None ==>
        && connection.status == Status.Clear && request.Some?
        && promised == old(promised) + Stream(Log(), request.value.first, request.value.last)
        && RequestBytes(request.value)
          == old(connection.Partial()) + connection.socket.received[|old(connection.socket.received)|..]
    {
      hide Kept, Stream;
      var message;
      message, error := connection.Receive(REQUEST_SIZE);
      if error != None {
        return;
      }
      RequestOnto(message);
      var r := ParseRequest(message);
      if !early {
        NewPromise(Log(), r, connection.socket.sent, promised);
      }
      Accept(r);
    }

    method Accept(r: RetransmitRequest)
      requires connection.Valid()
      modifies this`request, this`promised
      ensures request == Some(r) && promised == old(promised) + Stream(Log(), r.first, r.last)
    {
      request := Some(r);
      promised := promised + Stream(Log(), r.first, r.last);
    }

    /** `handle_request`, up to what closing a client does. What is promised grows by the stream of the
        request just received, if one was, and by nothing else. */
    method HandleRequest() returns (outcome: Outcome, ghost received: Option<RetransmitRequest>)
      requires Idle()
      modifies this`request, this`promised, this`early, connection, connection.buffer, connection.socket, cache
      ensures Valid() && (!outcome.Closing? ==> Idle())
      ensures early == old(early) || (early && old(cache.cache.written) == 0)
      ensures outcome.Served? ==>
        connection.status == Status.Clear && (!early ==> connection.socket.sent == promised)
      ensures old(connection.socket.received) <= connection.socket.received
      ensures old(connection.socket.sent) <= connection.socket.sent
      ensures received == None ==> promised == old(promised)
      ensures received.Some? ==>
        && promised == old(promised) + Stream(Log(), received.value.first, received.value.last)
        && RequestBytes(received.value)
          == old(connection.Partial()) + connection.socket.received[|old(connection.socket.received)|..]
      ensures connection.socket.FromPeer(|old(connection.socket.received)|)
      ensures old(connection.status != Status.PartialSend && connection.socket.Gives(MAX_WIRE_SIZE)) ==> received.Some?
      ensures outcome.Waiting? ==>
        connection.socket.CouldNotSend(WouldBlock) || connection.socket.CouldNotReceive(WouldBlock)
      ensures outcome.Closing? ==>
        || (Caused(outcome.error) && outcome.error != StreamError.Connection(WouldBlock))
        || (outcome.error.Connection? && outcome.error.error != WouldBlock
            && connection.socket.CouldNotReceive(outcome.error.error))
      ensures received.Some? && received.value.first < FIRST_SEQUENCE_ID ==>
        outcome == Closing(InvalidPacket) && connection.socket.sent == old(connection.socket.sent)
      ensures
        received.Some? && old(Smooth()) && received.value.first >= FIRST_SEQUENCE_ID
        && AllHeld(received.value.first, received.value.last) ==>
          && outcome == Served
          && (early || connection.socket.sent
              == old(connection.socket.sent) + Stream(Log(), received.value.first, received.value.last))
      ensures
        && old(connection.status == Status.PartialSend && Smooth() && request.value.first >= FIRST_SEQUENCE_ID)
        && AllHeld(old(request).value.first + 1, old(request).value.last)
        ==> outcome == Served && received == None
    {
      hide Kept, Stream, Owed, Held;
      if !early && connection.status != Status.PartialSend {
        NothingOwed();
      }
      received := None;
      if connection.status != Status.PartialSend {
        var error := ReceiveRequest();
        if error != None {
          outcome := if error.value.WouldBlock? then Waiting else Closing(StreamError.Connection(error.value));
          return;
        }
        received := request;
      }
      var error := StreamPackets();
      match error
      case None => outcome := Served;
      case Some(e) => outcome := if e == StreamError.Connection(WouldBlock) then Waiting else Closing(e);
    }
  }

  lemma NewPromise(log: seq<Bytes>, r: RetransmitRequest, sent: Bytes, promised: Bytes)
    requires Kept(sent, [], promised)
    ensures Kept(sent, Owed(log, Some(r), false, []), promised + Stream(log, r.first, r.last))
  {
  }

  /** The next packet's message is the first part of what is owed. */
  lemma PacketTaken(log: seq<Bytes>, r: RetransmitRequest, sent: Bytes, message: Bytes, promised: Bytes)
    requires FIRST_SEQUENCE_ID <= r.first < r.last && CacheIndex(r.first) < |log| && message == log[CacheIndex(r.first)]
    requires Kept(sent, Owed(log, Some(r), false, []), promised)
    ensures Kept(sent, Owed(log, Some(r), true, message), promised)
  {
  }

  /** Sending a part of what is pending, and then counting the packet when that was all of it. */
  lemma SomeSent(log: seq<Bytes>, r: RetransmitRequest, sent: Bytes, pending: Bytes, sent': Bytes, pending': Bytes,
      promised: Bytes)
    requires r.first < r.last && Kept(sent, Owed(log, Some(r), true, pending), promised)
    requires sent + pending == sent' + pending'
    ensures Kept(sent', Owed(log, Some(r), true, pending'), promised)
    ensures pending' == [] ==> Kept(sent', Owed(log, Some(r.(first := r.first + 1)), false, pending'), promised)
  {
    hide Stream;
    var rest := Stream(log, r.first + 1, r.last);
    Moved(sent, pending, sent', pending', rest, promised);
  }

  lemma NoneOwed(log: seq<Bytes>, first: SequenceId, last: SequenceId)
    requires first >= last
    ensures Stream(log, first, last) == []
  {
  }

  lemma Moved<T>(sent: seq<T>, pending: seq<T>, sent': seq<T>, pending': seq<T>, rest: seq<T>, promised: seq<T>)
    requires sent + pending == sent' + pending' && sent + (pending + rest) == promised
    ensures sent' + (pending' + rest) == promised
  {
    assert sent + (pending + rest) == (sent + pending) + rest;
    assert sent' + (pending' + rest) == (sent' + pending') + rest;
  }

  lemma NothingLeft(log: seq<Bytes>, r: RetransmitRequest, sent: Bytes, promised: Bytes)
    requires r.first >= r.last && Kept(sent, Owed(log, Some(r), false, []), promised)
    ensures sent == promised && Kept(sent, Owed(log, None, false, []), promised)
  {
  }

  // ---- What a request is answered with ----

  lemma IndexFitsExactly(packet: SequenceId)
    requires packet >= FIRST_SEQUENCE_ID
    ensures CacheIndex(packet) == packet - FIRST_SEQUENCE_ID <==> packet <= TWO_TO_THE_32
  {
  }

  /** After any number of puts, a request for a packet is answered from a cache at rest with the message
      of another packet if and only if another put of the current lap has its 32-bit index. */
  lemma WrongPacketExactly(c: CircularCaching.Cache<Bytes>, packet: SequenceId, filler: Bytes)
    requires packet >= FIRST_SEQUENCE_ID && c.written > 0 && c.putter.Resting? && (c.getter.Waiting? || c.getter.Answered?)
    requires CircularCaching.Sized(c, RETRANSMIT_CACHE_SIZE) && CircularCaching.SlotsOk(c, RETRANSMIT_CACHE_SIZE, filler)
    ensures
      var r := CircularCaching.QuietGet(c, CacheIndex(packet), RETRANSMIT_CACHE_SIZE).getter.result;
      var item := packet - FIRST_SEQUENCE_ID;
      CircularCaching.Misanswered(c.written, RETRANSMIT_CACHE_SIZE, item) <==>
        r.Ok? && !CircularCaching.AnswersFor(c.written, RETRANSMIT_CACHE_SIZE, item, item)
  {
    CacheSizeFits();
    CircularCaching.MisansweredExactly(c, packet - FIRST_SEQUENCE_ID, RETRANSMIT_CACHE_SIZE, filler);
  }

  lemma CacheSizeFits()
    ensures IsPowerOfTwo(RETRANSMIT_CACHE_SIZE)
  {
    SixteenBits();
    assert Pow2(16) == 2 * Pow2(15);
  }

  /** A client that asks for packet 2^32 + 1, which was never put, can be sent nothing but packet 1. */
  method SentForAnother(client: SavedConnection) returns (error: Option<StreamError>)
    requires client.Valid() && client.connection.status == Status.Clear && !client.early
    requires client.cache.cache.written > 0 && |client.Log()| > 0
    requires client.request == Some(RetransmitRequest(TWO_TO_THE_32 + 1, TWO_TO_THE_32 + 2))
    modifies client`request, client`early, client.connection, client.connection.buffer,
      client.connection.socket`sent, client.connection.socket`sends, client.cache
    ensures client.Valid() && client.request.Some? && client.request.value.last == old(client.request).value.last
    ensures old(client.Ready()) ==> error == None
    ensures error == None ==> client.connection.socket.sent == old(client.connection.socket.sent) + client.Log()[0]
  {
    ghost var sent, pending := client.connection.socket.sent, client.connection.Pending();
    error := client.SendNext();
    if error == None {
      OnePacketOn(client.Log(), client.request.value.first - 1, sent, pending,
        client.connection.socket.sent, client.connection.Pending(), client.promised);
    }
  }

  /** A whole cache at rest has an answer for item 2^32: the first message put. */
  lemma FirstAnswersFor(cache: MessageCache)
    requires cache.Idle() && cache.AllPut() && 0 < |cache.log| <= RETRANSMIT_CACHE_SIZE
    ensures CircularCaching.QuietGet(cache.cache, CacheIndex(TWO_TO_THE_32 + 1), RETRANSMIT_CACHE_SIZE).getter.result.Ok?
  {
    hide CircularCaching.QuietGet, CircularCaching.Misanswered;
    WrongPacketExactly(cache.cache, TWO_TO_THE_32 + 1, cache.filler);
    CircularCaching.MisansweredEarly(cache.cache.written, RETRANSMIT_CACHE_SIZE, TWO_TO_THE_32);
  }

  /** A client whose socket takes all it is given, and its first request. */
  method NewClient(cache: MessageCache, r: RetransmitRequest) returns (client: SavedConnection)
    requires cache.Idle() && |cache.filler| <= MAX_WIRE_SIZE && FIRST_SEQUENCE_ID <= r.first
    requires forall k :: 0 <= k < |cache.log| ==> |cache.log[k]| <= MAX_WIRE_SIZE
    ensures client.Valid() && client.cache == cache && client.request == Some(r) && !client.early
    ensures client.connection.status == Status.Clear && client.connection.socket.sent == []
    ensures client.connection.socket.Takes(MAX_WIRE_SIZE)
    ensures fresh(client) && fresh(client.connection) && fresh(client.connection.buffer) && fresh(client.connection.socket)
  {
    hide Kept, Stream, CircularCaching.Inv;
    var socket := new Socket(_ => Moves(MAX_WIRE_SIZE), _ => Moves(MAX_WIRE_SIZE), _ => 0);
    client := new SavedConnection(socket, cache);
    NewPromise(cache.log, r, [], []);
    client.Accept(r);
  }

  /** An exchange puts its messages, and a client is served that asks for packet 2^32 + 1, which was
      never put: it is sent packet 1. */
  method WrongPacketSent(log: seq<Bytes>, filler: Bytes) returns (client: SavedConnection, error: Option<StreamError>)
    requires 0 < |log| <= RETRANSMIT_CACHE_SIZE && |filler| <= MAX_WIRE_SIZE
    requires forall k :: 0 <= k < |log| ==> |log[k]| <= MAX_WIRE_SIZE
    ensures client.Valid() && client.Log() == log && client.request.Some? && client.request.value.last == TWO_TO_THE_32 + 2
    ensures error == None && client.connection.socket.sent == log[0]
  {
    hide Kept, Owed, Stream, CircularCaching.Inv, CircularCaching.QuietGet;
    var cache := new MessageCache(log, filler);
    cache.PutAll();
    FirstAnswersFor(cache);
    client := NewClient(cache, RetransmitRequest(TWO_TO_THE_32 + 1, TWO_TO_THE_32 + 2));
    assert client.Ready();
    error := SentForAnother(client);
    assert [] + log[0] == log[0];
  }

  lemma OnePacketOn(log: seq<Bytes>, p: SequenceId, sent: Bytes, pending: Bytes, sent': Bytes, pending': Bytes, promised: Bytes)
    requires p < LAST_ID
    requires Kept(sent, Owed(log, Some(RetransmitRequest(p, p + 1)), false, pending), promised)
    requires Kept(sent', Owed(log, Some(RetransmitRequest(p + 1, p + 1)), false, pending'), promised)
    ensures sent' == sent + Cached(log, p)
  {
    hide Cached;
    var one := Cached(log, p);
    NoneOwed(log, p + 1, p + 1);
    assert Stream(log, p, p + 1) == one + [];
    SentAll(sent, one, sent', promised);
  }

  lemma SentAll<T>(sent: seq<T>, one: seq<T>, sent': seq<T>, promised: seq<T>)
    requires sent + (one + []) == promised && sent' + [] == promised
    ensures sent' == sent + one
  {
    assert one + [] == one && sent' + [] == sent';
  }

  /** The messages of a slice of the log, one after the other. */
  function Joined(messages: seq<Bytes>): Bytes {
    if messages == [] then [] else messages[0] + Joined(messages[1..])
  }

  lemma StreamStep(log: seq<Bytes>, first: SequenceId, last: SequenceId)
    requires first < last
    ensures Stream(log, first, last) == Cached(log, first) + Stream(log, first + 1, last)
  {
    hide Cached;
  }

  lemma SliceParts<T>(s: seq<T>, a: nat, b: nat)
    requires a < b <= |s|
    ensures s[a..b] != [] && s[a..b][0] == s[a] && s[a..b][1..] == s[a + 1..b]
  {
  }

  /** Within the log, a request is answered with exactly its messages. */
  lemma {:induction false} StreamIsSlice(log: seq<Bytes>, first: SequenceId, last: SequenceId)
    requires |log| < CircularCaching.IS_LOCKED && FIRST_SEQUENCE_ID <= first <= last <= |log| + FIRST_SEQUENCE_ID
    ensures Stream(log, first, last) == Joined(log[first - FIRST_SEQUENCE_ID..last - FIRST_SEQUENCE_ID])
    decreases last - first
  {
    hide Stream, Cached, Joined;
    var a, b := first - FIRST_SEQUENCE_ID, last - FIRST_SEQUENCE_ID;
    if first < last {
      CachedWithinReach(log, first);
      StreamStep(log, first, last);
      SliceParts(log, a, b);
      JoinedStep(log[a..b]);
      StreamIsSlice(log, first + 1, last);
    } else {
      NoneOwed(log, first, last);
      assert log[a..b] == [];
      JoinedNone();
    }
  }

  lemma JoinedStep(messages: seq<Bytes>)
    requires messages != []
    ensures Joined(messages) == messages[0] + Joined(messages[1..])
  {
  }

  lemma JoinedNone()
    ensures Joined([]) == []
  {
  }

  lemma CachedWithinReach(log: seq<Bytes>, packet: SequenceId)
    requires FIRST_SEQUENCE_ID <= packet <= |log| < CircularCaching.IS_LOCKED
    ensures Cached(log, packet) == log[packet - FIRST_SEQUENCE_ID]
  {
    IndexFitsExactly(packet);
  }
}
