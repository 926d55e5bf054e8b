/** The TCP retransmission path: a connection that sends and receives over a socket that moves any
    number of bytes at a time (includes/exchange/tcp-connection.hpp, src/utils/network-utils.cpp),
    and the server that streams cached packets over it (src/exchange/tcp-retransmit.cpp). */
module Retransmission {
  import opened Machine
  import opened Wire

  datatype Errno = Again | ConnectionReset | BrokenPipe | OtherErrno

  /** What a call is ready to do: move up to so many bytes, or fail. */
  datatype Turn = Moves(bytes: nat) | Fails(errno: Errno)

  /** The `n` bytes from position `start` on. */
  function Piece(stream: nat -> Byte, start: nat, n: nat): (s: Bytes)
    ensures |s| == n
  {
    seq(n, k requires 0 <= k < n => stream(start + k))
  }

  lemma PieceJoin(stream: nat -> Byte, start: nat, a: nat, b: nat)
    ensures Piece(stream, start, a + b) == Piece(stream, start, a) + Piece(stream, start + a, b)
  {
  }

  /** A nonblocking stream socket. */
  class Socket {
    // Every byte the peer gets, and every byte got from the peer, in order.
    var sent: Bytes
    var received: Bytes
    // What the peer sends, byte by byte.
    const incoming: nat -> Byte
    // What each call of `::send` and of `::recv` is ready to do, and the calls made.
    const takes: nat -> Turn
    const gives: nat -> Turn
    var sends: nat
    var receives: nat

    constructor (takes: nat -> Turn, gives: nat -> Turn, incoming: nat -> Byte)
      ensures sent == [] && received == [] && sends == 0 && receives == 0
      ensures this.takes == takes && this.gives == gives && this.incoming == incoming
    {
      sent, received, sends, receives := [], [], 0, 0;
      this.takes, this.gives, this.incoming := takes, gives, incoming;
    }

    /** From now on every send is ready to take `size` bytes. */
    ghost predicate Takes(size: nat)
      reads this`sends
    {
      forall k :: sends <= k ==> takes(k).Moves? && takes(k).bytes >= size
    }

    /** From now on every receive is ready to give `size` bytes. */
    ghost predicate Gives(size: nat)
      reads this`receives
    {
      forall k :: receives <= k ==> gives(k).Moves? && gives(k).bytes >= size
    }

    /** The next `n` bytes from the peer. */
    function Coming(n: nat): Bytes
      reads this`received
    {
      Piece(incoming, |received|, n)
    }

    /** Everything received from position `start` on is what the peer sent there. */
    ghost predicate FromPeer(start: nat)
      reads this`received
    {
      start <= |received| && received[start..] == Piece(incoming, start, |received| - start)
    }

    /** The last send moved nothing, and for this reason. */
    ghost predicate CouldNotSend(error: SendError)
      reads this`sends
    {
      sends > 0 &&
      match takes(sends - 1)
      case Moves(n) => n == 0 && error == SendToClient
      case Fails(Again) => error == WouldBlock
      case Fails(ConnectionReset) => error == ClientConnectionClosed
      case Fails(_) => error == SendToClient
    }

    /** The last receive moved nothing, and for this reason. */
    ghost predicate CouldNotReceive(error: SendError)
      reads this`receives
    {
      receives > 0 &&
      match gives(receives - 1)
      case Moves(n) => n == 0 && error == ClientConnectionClosed
      case Fails(Again) => error == WouldBlock
      case Fails(_) => error == ReceiveFromClient
    }

    /** `::send`: some of the bytes, none, or an error. */
    method Send(data: Bytes) returns (n: int, errno: Errno)
      modifies this`sent, this`sends
      ensures -1 <= n <= |data| && sends == old(sends) + 1
      ensures
        match takes(old(sends))
        case Moves(bytes) => n == if bytes < |data| then bytes else |data|
        case Fails(e) => n == -1 && errno == e
      ensures sent == old(sent) + (if n > 0 then data[..n] else [])
    {
      errno := OtherErrno;
      match takes(sends) {
        case Moves(bytes) => n := if bytes < |data| then bytes else |data|;
        case Fails(e) => n, errno := -1, e;
      }
      sends := sends + 1;
      if n > 0 {
        sent := sent + data[..n];
      }
    }

    /** `::recv`: up to `limit` bytes, zero when the peer has closed, or an error. */
    method Recv(limit: nat) returns (n: int, data: Bytes, errno: Errno)
      modifies this`received, this`receives
      ensures -1 <= n <= limit && receives == old(receives) + 1
      ensures
        match gives(old(receives))
        case Moves(bytes) => n == if bytes < limit then bytes else limit
        case Fails(e) => n == -1 && errno == e
      ensures data == old(Coming(if n > 0 then n else 0)) && received == old(received) + data
    {
      errno := OtherErrno;
      match gives(receives) {
        case Moves(bytes) => n := if bytes < limit then bytes else limit;
        case Fails(e) => n, errno := -1, e;
      }
      data := Coming(if n > 0 then n else 0);
      received, receives := received + data, receives + 1;
    }
  }

  /** `send_range`: `start'` is where the next call has to resume. */
  method SendRange(socket: Socket, buffer: array<Byte>, start: nat, end: nat)
      returns (ok: bool, start': nat, errno: Errno)
    requires start <= end <= buffer.Length
    modifies socket`sent, socket`sends
    ensures start <= start' <= end && (ok <==> start' == end)
    ensures old(socket.sends) <= socket.sends && (old(socket.Takes(end - start)) ==> ok)
    ensures !ok ==>
      && socket.sends > 0
      && match socket.takes(socket.sends - 1)
      case Moves(n) => n == 0 && errno == BrokenPipe
      case Fails(e) => errno == e
    ensures socket.sent == old(socket.sent) + buffer[start..start']
  {
    start', errno := start, OtherErrno;
    var n := 0;
    while start' < end
      invariant start <= start' <= end && old(socket.sends) <= socket.sends
      invariant old(socket.Takes(end - start)) ==> start' == start || start' == end
      invariant socket.sent == old(socket.sent) + buffer[start..start']
    {
      n, errno := socket.Send(buffer[start'..end]);
      if n == 0 {
        return false, start', BrokenPipe;
      }
      if n == -1 {
        return false, start', errno;
      }
      assert buffer[start..start' + n] == buffer[start..start'] + buffer[start'..end][..n];
      start' := start' + n;
    }
    ok := true;
  }

  datatype ReceiveStatus = Received | PeerClosed | ReceiveFailed

  /** One `::recv` into the buffer. */
  method RecvInto(socket: Socket, buffer: array<Byte>, start: nat, end: nat) returns (n: int, errno: Errno)
    requires start < end <= buffer.Length
    modifies socket`received, socket`receives, buffer
    ensures -1 <= n <= end - start && socket.receives == old(socket.receives) + 1
    ensures
      match socket.gives(old(socket.receives))
      case Moves(bytes) => n == if bytes < end - start then bytes else end - start
      case Fails(e) => n == -1 && errno == e
    ensures n > 0 ==> buffer[..start + n] == old(buffer[..start]) + old(socket.Coming(n))
    ensures n <= 0 ==> buffer[..start] == old(buffer[..start])
    ensures socket.received == old(socket.received) + old(socket.Coming(if n > 0 then n else 0))
  {
    var data;
    n, data, errno := socket.Recv(end - start);
    if n > 0 {
      var _ := CopyIn(buffer, start, data);
    }
  }

  /** `recv_range`. */
  method RecvRange(socket: Socket, buffer: array<Byte>, start: nat, end: nat)
      returns (status: ReceiveStatus, start': nat, errno: Errno)
    requires start <= end <= buffer.Length
    modifies socket`received, socket`receives, buffer
    ensures start <= start' <= end && (status == Received <==> start' == end)
    ensures buffer[..start'] == old(buffer[..start]) + old(socket.Coming(start' - start))
    ensures socket.received == old(socket.received) + old(socket.Coming(start' - start))
    ensures old(socket.receives) <= socket.receives && (old(socket.Gives(end - start)) ==> status == Received)
    ensures status != Received ==>
      && socket.receives > 0
      && match socket.gives(socket.receives - 1)
      case Moves(n) => n == 0 && status == PeerClosed
      case Fails(e) => status == ReceiveFailed && errno == e
  {
    start', errno := start, OtherErrno;
    while start' < end
      invariant start <= start' <= end && old(socket.receives) <= socket.receives
      invariant buffer[..start'] == old(buffer[..start]) + old(socket.Coming(start' - start))
      invariant socket.received == old(socket.received) + old(socket.Coming(start' - start))
      invariant old(socket.Gives(end - start)) ==> start' == start || start' == end
    {
      ghost var came := socket.Coming(end - start');
      var n;
      n, errno := RecvInto(socket, buffer, start', end);
      if n == 0 {
        return PeerClosed, start', errno;
      }
      if n == -1 {
        return ReceiveFailed, start', errno;
      }
      assert old(socket.Coming(start' - start)) + came[..n] == old(socket.Coming(start' + n - start));
      start' := start' + n;
    }
    status := Received;
  }

  lemma SplitAt(sent: Bytes, pending: Bytes, k: nat)
    requires k <= |pending|
    ensures sent + pending == sent + pending[..k] + pending[k..]
  {
  }

  datatype Status = Clear | SavedMessage | PartialSend | PartialReceive

  datatype SendError = WouldBlock | ClientConnectionClosed | SendToClient | ReceiveFromClient

  class Connection {
    const buffer: array<Byte>
    const socket: Socket
    var head: nat
    var tail: nat
    var status: Status

    ghost predicate Valid()
      reads this
    {
      && tail <= head <= buffer.Length
      && (status.Clear? ==> head == 0) && (status.SavedMessage? ==> tail == 0)
    }

    /** Saved bytes not yet sent. */
    ghost function Pending(): Bytes
      requires Valid()
      reads this, buffer
    {
      if status.PartialReceive? then [] else buffer[tail..head]
    }

    /** The part of a message received so far. */
    ghost function Partial(): Bytes
      requires Valid()
      reads this, buffer
    {
      if status.PartialReceive? then buffer[..tail] else []
    }

    constructor (size: nat, socket: Socket)
      ensures Valid() && status == Status.Clear && this.socket == socket && buffer.Length == size && fresh(buffer)
    {
      buffer := new Byte[size];
      this.socket := socket;
      head, tail, status := 0, 0, Status.Clear;
    }

    method Clear()
      modifies this
      ensures Valid() && status == Status.Clear && head == 0
    {
      head, tail, status := 0, 0, Status.Clear;
    }

    method Save(bytes: Bytes)
      requires Valid() && (status.Clear? || status.SavedMessage?) && head + |bytes| <= buffer.Length
      modifies this, buffer
      ensures Valid() && status == SavedMessage && Pending() == old(Pending()) + bytes
    {
      var next := CopyIn(buffer, head, bytes);
      head := next;
      status := SavedMessage;
    }

    /** What is pending goes out, all of it or a first part, and the rest stays pending. */
    method Send() returns (error: Option<SendError>)
      requires Valid() && (status.SavedMessage? || status.PartialSend?)
      modifies this, socket`sent, socket`sends
      ensures Valid() && old(socket.sent) + old(Pending()) == socket.sent + Pending()
      ensures old(socket.sent) <= socket.sent && (old(socket.Takes(buffer.Length)) ==> error == None)
      ensures
        if error == None then status == Status.Clear
        else status == PartialSend && socket.CouldNotSend(error.value)
      ensures old(socket.sends) <= socket.sends
    {
      status := PartialSend;
      ghost var was := socket.sent;
      assert old(socket.Takes(buffer.Length)) ==> socket.Takes(head - tail);
      var ok, next, errno := SendRange(socket, buffer, tail, head);
      SplitAt(was, buffer[tail..head], next - tail);
      assert buffer[tail..head][..next - tail] == buffer[tail..next];
      assert buffer[tail..head][next - tail..] == buffer[next..head];
      tail := next;
      if ok {
        Clear();
        return None;
      }
      if errno == Again {
        return Some(WouldBlock);
      }
      if errno == ConnectionReset {
        return Some(ClientConnectionClosed);
      }
      return Some(SendToClient);
    }

    /** `save` and then `send`. */
    method SaveAndSend(bytes: Bytes) returns (error: Option<SendError>)
      requires Valid() && status.Clear? && |bytes| <= buffer.Length
      modifies this, buffer, socket`sent, socket`sends
      ensures Valid() && old(socket.sent) + bytes == socket.sent + Pending()
      ensures old(socket.sent) <= socket.sent && (old(socket.Takes(buffer.Length)) ==> error == None)
      ensures
        if error == None then status == Status.Clear
        else status == PartialSend && socket.CouldNotSend(error.value)
      ensures old(socket.sends) <= socket.sends
    {
      Save(bytes);
      assert Pending() == bytes;
      error := Send();
    }

    /** A message of `bytes` bytes, or of however many were asked for when its first part came. */
    method Receive(bytes: nat) returns (message: Bytes, error: Option<SendError>)
      requires Valid() && bytes <= buffer.Length && (status.Clear? || status.PartialReceive?)
      modifies this, buffer, socket`received, socket`receives
      ensures Valid() && old(socket.received) <= socket.received
      ensures socket.FromPeer(|old(socket.received)|)
      ensures old(socket.Gives(buffer.Length)) ==> error == None
      ensures error != None ==> socket.CouldNotReceive(error.value)
      ensures
        var got := old(Partial()) + socket.received[|old(socket.received)|..];
        if error == None then
          status == Status.Clear && message == got && |message| == old(if status.Clear? then bytes else head)
        else status == PartialReceive && Partial() == got && head == old(if status.Clear? then bytes else head)
    {
      message := [];
      if status == Status.Clear {
        head := bytes;
        status := PartialReceive;
      }
      ghost var first := buffer[..tail];
      assert old(socket.Gives(buffer.Length)) ==> socket.Gives(head - tail);
      var result, next, errno := RecvRange(socket, buffer, tail, head);
      hide Piece;
      assert buffer[..next] == first + buffer[tail..next];
      tail := next;
      match result
      case Received =>
        message := buffer[..head];
        Clear();
        return message, None;
      case PeerClosed => return [], Some(ClientConnectionClosed);
      case ReceiveFailed => return [], Some(if errno == Again then WouldBlock else ReceiveFromClient);
    }
  }
}
