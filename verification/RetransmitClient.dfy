/** The retransmission client (src/market-data-handler/tcp-client.cpp): it cuts the byte stream back
    into packets, and gets the packets the server promised, in order. */
module RetransmitReceiving {
  import opened Machine
  import opened Orders
  import opened GapDetection
  import opened Wire
  import opened Retransmission
  import opened RetransmitServing
  import CircularCaching

  datatype Packet = Packet(sequence: SequenceId, payload: Bytes)

  datatype ClientError = ReceiveError | ServerClosed | ServerError(code: nat) | UnexpectedPacket

  function WiredPacket(p: Packet): Bytes {
    Message(p.sequence, p.payload)
  }

  function Wired(packets: seq<Packet>): Bytes {
    if packets == [] then [] else WiredPacket(packets[0]) + Wired(packets[1..])
  }

  lemma {:induction false} WiredAppend(packets: seq<Packet>, p: Packet)
    ensures Wired(packets + [p]) == Wired(packets) + WiredPacket(p)
  {
    if packets == [] {
      assert [p][1..] == [];
      assert [] + [p] == [p];
    } else {
      WiredAppend(packets[1..], p);
      assert (packets + [p])[1..] == packets[1..] + [p];
    }
  }

  /** A request on its way: the bytes got so far, first in whole packets, and then in part. */
  ghost predicate Cut(got: Bytes, packets: seq<Packet>, first: SequenceId) {
    Wired(packets) <= got && InSequence(packets, first)
  }

  ghost predicate InSequence(packets: seq<Packet>, first: SequenceId) {
    forall k :: 0 <= k < |packets| ==> packets[k].sequence == first + k && |packets[k].payload| == EVENT_SIZE
  }

  /** The last receive failed. */
  ghost predicate FailedReceive(socket: Socket, error: ClientError)
    reads socket`receives
  {
    match error
    case ServerClosed => socket.CouldNotReceive(ClientConnectionClosed)
    case ReceiveError => socket.CouldNotReceive(WouldBlock) || socket.CouldNotReceive(ReceiveFromClient)
    case _ => false
  }

  /** Why a packet was not received: the last receive failed, or what came is not the packet expected. */
  ghost predicate ClientCause(socket: Socket, head: Bytes, expected: SequenceId, error: ClientError)
    reads socket`receives
  {
    match error
    case ServerError(code) => |head| == HEADER_SIZE && ParseHeader(head) == Header(0, code)
    case UnexpectedPacket =>
      && |head| == HEADER_SIZE && ParseHeader(head).sequence != 0
      && ParseHeader(head) != Header(expected, EVENT_SIZE)
    case _ => FailedReceive(socket, error)
  }

  /** A receive that failed, as an error of the client. */
  function Broken(status: ReceiveStatus): ClientError {
    if status == PeerClosed then ServerClosed else ReceiveError
  }

  /** `receive_and_decode_header`. */
  method ReceiveHeader(socket: Socket, buffer: array<Byte>) returns (header: Header, error: Option<ClientError>)
    requires buffer.Length == MAX_WIRE_SIZE
    modifies socket`received, socket`receives, buffer
    ensures old(socket.received) <= socket.received && old(socket.receives) <= socket.receives
    ensures error == None ==>
      && header == ParseHeader(old(socket.Coming(HEADER_SIZE))) && header.sequence != 0
      && socket.received == old(socket.received) + old(socket.Coming(HEADER_SIZE))
    ensures error != None ==> match error.value
      case ServerError(code) => ParseHeader(old(socket.Coming(HEADER_SIZE))) == Header(0, code)
      case UnexpectedPacket => false
      case _ => FailedReceive(socket, error.value)
    ensures
      old(socket.Gives(HEADER_SIZE)) && ParseHeader(old(socket.Coming(HEADER_SIZE))).sequence != 0 ==>
        error == None
  {
    hide Piece;
    header, error := Header(0, 0), None;
    var status, next, errno := RecvRange(socket, buffer, 0, HEADER_SIZE);
    if status != Received {
      return header, Some(Broken(status));
    }
    assert buffer[..HEADER_SIZE] == old(socket.Coming(HEADER_SIZE));
    header := ParseHeader(buffer[..HEADER_SIZE]);
    if header.sequence == 0 {
      return header, Some(ServerError(header.length));
    }
  }

  /** `receive_payload`. */
  method ReceivePayload(socket: Socket, buffer: array<Byte>) returns (payload: Bytes, error: Option<ClientError>)
    requires buffer.Length == MAX_WIRE_SIZE
    modifies socket`received, socket`receives, buffer
    ensures old(socket.received) <= socket.received && old(socket.receives) <= socket.receives
    ensures error == None ==>
      && payload == old(socket.Coming(EVENT_SIZE))
      && socket.received == old(socket.received) + old(socket.Coming(EVENT_SIZE))
    ensures error != None ==> FailedReceive(socket, error.value)
    ensures old(socket.Gives(EVENT_SIZE)) ==> error == None
  {
    hide Piece;
    payload, error := [], None;
    var status, next, errno := RecvRange(socket, buffer, HEADER_SIZE, HEADER_SIZE + EVENT_SIZE);
    if status != Received {
      return payload, Some(Broken(status));
    }
    payload := buffer[HEADER_SIZE..HEADER_SIZE + EVENT_SIZE];
  }

  /** What came is the packet its header announces. */
  lemma PacketCame(socket: Socket, start: nat, packet: Packet)
    requires ParseHeader(Piece(socket.incoming, start, HEADER_SIZE)) == Header(packet.sequence, EVENT_SIZE)
    requires packet.payload == Piece(socket.incoming, start + HEADER_SIZE, EVENT_SIZE)
    ensures WiredPacket(packet) == Piece(socket.incoming, start, HEADER_SIZE + EVENT_SIZE)
    ensures WiredPacket(packet) == Piece(socket.incoming, start, HEADER_SIZE) + packet.payload
  {
    HeaderOnto(Piece(socket.incoming, start, HEADER_SIZE));
    PieceJoin(socket.incoming, start, HEADER_SIZE, EVENT_SIZE);
  }

  /** One packet: its header, and as many bytes as the header says. */
  method ReceivePacket(socket: Socket, expected: SequenceId) returns (packet: Packet, error: Option<ClientError>)
    modifies socket`received, socket`receives
    ensures old(socket.received) <= socket.received && old(socket.receives) <= socket.receives
    ensures error == None ==>
      && packet.sequence == expected && |packet.payload| == EVENT_SIZE
      && WiredPacket(packet) == old(socket.Coming(HEADER_SIZE + EVENT_SIZE))
      && socket.received == old(socket.received) + WiredPacket(packet)
    ensures error != None ==> ClientCause(socket, old(socket.Coming(HEADER_SIZE)), expected, error.value)
    ensures
      && old(socket.Gives(MAX_WIRE_SIZE)) && expected != 0
      && ParseHeader(old(socket.Coming(HEADER_SIZE))) == Header(expected, EVENT_SIZE)
      ==> error == None
  {
    hide Piece, ParseHeader, WiredPacket;
    packet := Packet(0, []);
    var buffer := new Byte[MAX_WIRE_SIZE];
    assert socket.Gives(MAX_WIRE_SIZE) ==> socket.Gives(HEADER_SIZE);
    ghost var start := |socket.received|;
    var header;
    header, error := ReceiveHeader(socket, buffer);
    if error != None {
      return;
    }
    if header.length != EVENT_SIZE || header.sequence != expected {
      return packet, Some(UnexpectedPacket); // the source asserts that this does not happen
    }
    assert old(socket.Gives(MAX_WIRE_SIZE)) ==> socket.Gives(EVENT_SIZE);
    var payload;
    payload, error := ReceivePayload(socket, buffer);
    if error != None {
      return;
    }
    packet := Packet(header.sequence, payload);
    PacketCame(socket, start, packet);
  }

  lemma {:induction false} WiredSplit(packets: seq<Packet>, n: nat)
    requires n < |packets|
    ensures Wired(packets) == Wired(packets[..n]) + WiredPacket(packets[n]) + Wired(packets[n + 1..])
    decreases n
  {
    if n == 0 {
      assert packets[..0] == [];
    } else {
      WiredSplit(packets[1..], n - 1);
      assert packets[1..][..n - 1] == packets[..n][1..];
    }
  }

  /** What comes is the packets of a request, in order, with nothing in the way. */
  ghost predicate Comes(incoming: nat -> Byte, start: nat, r: RetransmitRequest, whole: seq<Packet>) {
    && 1 <= r.first <= r.last && |whole| == r.last - r.first && InSequence(whole, r.first)
    && Piece(incoming, start, |Wired(whole)|) == Wired(whole)
  }

  lemma PieceOf(incoming: nat -> Byte, start: nat, a: Bytes, b: Bytes, c: Bytes)
    requires Piece(incoming, start, |a + b + c|) == a + b + c
    ensures Piece(incoming, start + |a|, |b|) == b
  {
    var n := |a + b + c|;
    forall k | 0 <= k < |b| ensures Piece(incoming, start + |a|, |b|)[k] == b[k] {
      assert Piece(incoming, start, n)[|a| + k] == (a + b + c)[|a| + k];
    }
  }

  /** The next of them, after `n` were received. */
  lemma NextComes(incoming: nat -> Byte, start: nat, r: RetransmitRequest, whole: seq<Packet>, n: nat)
    requires Comes(incoming, start, r, whole) && n < |whole|
    ensures
      var at := start + |Wired(whole[..n])|;
      && Piece(incoming, at, HEADER_SIZE + EVENT_SIZE) == WiredPacket(whole[n])
      && ParseHeader(Piece(incoming, at, HEADER_SIZE)) == Header(r.first + n, EVENT_SIZE)
  {
    var at := start + |Wired(whole[..n])|;
    WiredSplit(whole, n);
    PieceOf(incoming, start, Wired(whole[..n]), WiredPacket(whole[n]), Wired(whole[n + 1..]));
    hide Wired;
    assert |WiredPacket(whole[n])| == HEADER_SIZE + EVENT_SIZE;
    var head := Header(r.first + n, EVENT_SIZE);
    assert Piece(incoming, at, HEADER_SIZE) == WiredPacket(whole[n])[..HEADER_SIZE] == HeaderBytes(head);
    HeaderRoundTrip(head);
  }

  /** The packet received is the next one. */
  lemma NextIs(packet: Packet, whole: seq<Packet>, n: nat, first: SequenceId)
    requires n < |whole| && InSequence(whole, first) && WiredPacket(packet) == WiredPacket(whole[n])
    requires |packet.payload| == EVENT_SIZE
    ensures packet == whole[n] && whole[..n] + [packet] == whole[..n + 1]
  {
    SamePacket(packet, whole[n], [], []);
  }

  /** `handle_request`, after the request was sent: packets first, first + 1, ... until the last one,
      an error or a stop, as `stops` answers before each of them. When `whole` is what comes, and nothing
      is in the way, it is what is received, up to a stop. */
  method ReceivePackets(socket: Socket, r: RetransmitRequest, stops: nat -> bool, ghost whole: seq<Packet>)
      returns (packets: seq<Packet>, error: Option<ClientError>, stopped: bool)
    modifies socket`received, socket`receives
    ensures old(socket.received) <= socket.received
    ensures Cut(socket.received[|old(socket.received)|..], packets, r.first)
    ensures |packets| <= if r.first < r.last then r.last - r.first else 0
    ensures error == None ==> socket.received == old(socket.received) + Wired(packets)
    ensures error == None && !stopped && r.first < r.last ==> |packets| == r.last - r.first
    ensures (forall k :: 0 <= k < |packets| ==> !stops(k)) && (stopped ==> stops(|packets|))
    ensures old(socket.Gives(MAX_WIRE_SIZE)) && Comes(socket.incoming, |old(socket.received)|, r, whole) ==>
      error == None && packets <= whole && (stopped || packets == whole)
  {
    hide Wired, WiredPacket, Comes, Piece, ClientCause;
    ghost var smooth := socket.Gives(MAX_WIRE_SIZE) && Comes(socket.incoming, |socket.received|, r, whole);
    if smooth {
      ComesAll(socket.incoming, |socket.received|, r, whole);
    }
    packets, error, stopped := [], None, false;
    var first := r.first;
    NoneWired();
    while first < r.last && !stops(|packets|)
      invariant r.first < r.last ==> r.first <= first == r.first + |packets| <= r.last
      invariant r.first >= r.last ==> packets == []
      invariant socket.received == old(socket.received) + Wired(packets)
      invariant InSequence(packets, r.first) && old(socket.receives) <= socket.receives && error == None
      invariant smooth ==> |packets| <= |whole| && packets == whole[..|packets|]
      invariant forall k :: 0 <= k < |packets| ==> !stops(k)
      decreases r.last - first
    {
      if smooth {
        NextComes(socket.incoming, |old(socket.received)|, r, whole, |packets|);
      }
      assert smooth ==> socket.Gives(MAX_WIRE_SIZE);
      var packet;
      packet, error := ReceivePacket(socket, first);
      if error != None {
        FirstPartCut(old(socket.received), socket.received, packets, r.first);
        return;
      }
      if smooth {
        NextIs(packet, whole, |packets|, r.first);
      }
      WiredAppend(packets, packet);
      Regroup(old(socket.received), Wired(packets), WiredPacket(packet));
      packets := packets + [packet];
      first := first + 1;
    }
    stopped := first < r.last;
    assert whole[..|whole|] == whole;
    FirstPartCut(old(socket.received), socket.received, packets, r.first);
  }

  lemma ComesAll(incoming: nat -> Byte, start: nat, r: RetransmitRequest, whole: seq<Packet>)
    requires Comes(incoming, start, r, whole)
    ensures 1 <= r.first <= r.last && |whole| == r.last - r.first && InSequence(whole, r.first)
  {
  }

  lemma NoneWired()
    ensures Wired([]) == []
  {
  }

  lemma Regroup<T>(a: seq<T>, b: seq<T>, c: seq<T>)
    ensures (a + b) + c == a + (b + c)
  {
  }

  lemma FirstPartCut(before: Bytes, after: Bytes, packets: seq<Packet>, first: SequenceId)
    requires before + Wired(packets) <= after && InSequence(packets, first)
    ensures before <= after && Cut(after[|before|..], packets, first)
  {
    hide Wired;
    assert after[|before|..][..|Wired(packets)|] == Wired(packets);
  }

  // ---- Framing ----

  ghost predicate Lengths(packets: seq<Packet>) {
    forall k :: 0 <= k < |packets| ==> |packets[k].payload| < 0x1_0000
  }

  /** Two packets that begin the same string of bytes are the same packet. */
  lemma SamePacket(p: Packet, q: Packet, rest: Bytes, rest': Bytes)
    requires |p.payload| < 0x1_0000 && |q.payload| < 0x1_0000
    requires WiredPacket(p) + rest == WiredPacket(q) + rest'
    ensures p == q && rest == rest'
  {
    var s := WiredPacket(p) + rest;
    var hp, hq := Header(p.sequence, |p.payload|), Header(q.sequence, |q.payload|);
    assert s[..HEADER_SIZE] == HeaderBytes(hp) && s[..HEADER_SIZE] == HeaderBytes(hq);
    HeaderRoundTrip(hp);
    HeaderRoundTrip(hq);
    var end := HEADER_SIZE + |p.payload|;
    assert s[HEADER_SIZE..end] == p.payload && s[HEADER_SIZE..end] == q.payload;
    assert s[end..] == rest && s[end..] == rest';
  }

  /** A string of bytes can be cut into packets in one way only: the packets cut out of a first part
      of a stream are the first packets of the stream. */
  lemma {:induction false} FramingUnique(packets: seq<Packet>, stream: seq<Packet>, tail: Bytes)
    requires Lengths(packets) && Lengths(stream) && Wired(packets) + tail == Wired(stream)
    ensures packets <= stream
    decreases |packets|
  {
    if packets != [] {
      assert |Wired(packets)| > 0;
      var rest, rest' := Wired(packets[1..]) + tail, Wired(stream[1..]);
      assert WiredPacket(packets[0]) + rest == Wired(packets) + tail;
      SamePacket(packets[0], stream[0], rest, rest');
      FramingUnique(packets[1..], stream[1..], tail);
      assert packets == [packets[0]] + packets[1..] && stream == [stream[0]] + stream[1..];
    }
  }

  // ---- Server and client together ----

  /** The packets of an event log: numbered from 1, each carrying its encoded event. */
  function Sequenced(log: seq<MarketEvent>): (packets: seq<Packet>)
    requires |log| < LAST_ID
    ensures |packets| == |log|
  {
    seq(|log|, i requires 0 <= i < |log| => Packet(i + 1, Encoded(log[i])))
  }

  function Messages(packets: seq<Packet>): (messages: seq<Bytes>)
    ensures |messages| == |packets|
  {
    seq(|packets|, i requires 0 <= i < |packets| => WiredPacket(packets[i]))
  }

  lemma {:induction false} JoinedIsWired(packets: seq<Packet>)
    ensures Joined(Messages(packets)) == Wired(packets)
  {
    if packets != [] {
      JoinedIsWired(packets[1..]);
      assert Messages(packets)[1..] == Messages(packets[1..]);
    }
  }

  /** Whatever part of the answer to a request [first, last) has come through, the client has cut it
      into packets first, first + 1, ... of the log, each with its own event. */
  lemma ClientGetsLog(log: seq<MarketEvent>, first: SequenceId, last: SequenceId, got: Bytes, packets: seq<Packet>)
    requires |log| < CircularCaching.IS_LOCKED && FIRST_SEQUENCE_ID <= first <= last <= |log| + FIRST_SEQUENCE_ID
    requires got <= Stream(Messages(Sequenced(log)), first, last) && Cut(got, packets, first)
    ensures |packets| <= last - first
    ensures forall k :: 0 <= k < |packets| ==> packets[k] == Packet(first + k, Encoded(log[first + k - 1]))
  {
    var slice := Sequenced(log)[first - 1..last - 1];
    AnswerIsWired(log, first, last);
    hide Stream, Messages, Wired, Encoded;
    PacketsOfSlice(log, first, last, slice);
    FirstPart(packets, slice, got);
  }

  lemma PacketsOfSlice(log: seq<MarketEvent>, first: SequenceId, last: SequenceId, slice: seq<Packet>)
    requires |log| < CircularCaching.IS_LOCKED && FIRST_SEQUENCE_ID <= first <= last <= |log| + FIRST_SEQUENCE_ID
    requires slice == Sequenced(log)[first - 1..last - 1]
    ensures Lengths(slice) && |slice| == last - first
    ensures forall k {:trigger slice[k]} :: 0 <= k < |slice| ==> slice[k] == Packet(first + k, Encoded(log[first + k - 1]))
  {
  }

  lemma FirstPart(packets: seq<Packet>, stream: seq<Packet>, got: Bytes)
    requires Lengths(packets) && Lengths(stream) && got <= Wired(stream) && Wired(packets) <= got
    ensures packets <= stream
  {
    var tail := Wired(stream)[|Wired(packets)|..];
    assert Wired(packets) + tail == Wired(stream);
    FramingUnique(packets, stream, tail);
  }

  lemma AnswerIsWired(log: seq<MarketEvent>, first: SequenceId, last: SequenceId)
    requires |log| < CircularCaching.IS_LOCKED && FIRST_SEQUENCE_ID <= first <= last <= |log| + FIRST_SEQUENCE_ID
    ensures Stream(Messages(Sequenced(log)), first, last) == Wired(Sequenced(log)[first - 1..last - 1])
  {
    hide Stream, Joined, Wired, WiredPacket, Sequenced;
    var all := Sequenced(log);
    var slice := all[first - 1..last - 1];
    StreamIsSlice(Messages(all), first, last);
    assert Messages(all)[first - 1..last - 1] == Messages(slice);
    JoinedIsWired(slice);
  }
}
