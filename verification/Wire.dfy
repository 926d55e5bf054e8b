/** The wire formats: market events (src/exchange/binary-protocol.cpp), sequenced messages
    (src/exchange/protocol.cpp, src/exchange/encoded-message.cpp) and retransmission requests
    (src/exchange/tcp-retransmit.cpp), all in network byte order. */
module Wire {
  import opened Machine
  import opened Orders
  import opened GapDetection

  type Byte = x: int | 0 <= x < 256
  type Bytes = seq<Byte>

  // ---- Network byte order ----

  function Pow256(n: nat): (p: nat)
    ensures p > 0
  {
    if n == 0 then 1 else 256 * Pow256(n - 1)
  }

  /** The `n` low bytes of `x`, most significant first. */
  function ToBytes(x: nat, n: nat): (s: Bytes)
    ensures |s| == n
  {
    if n == 0 then [] else ToBytes(x / 256, n - 1) + [x % 256]
  }

  function FromBytes(s: Bytes): nat {
    if s == [] then 0 else 256 * FromBytes(s[..|s| - 1]) + s[|s| - 1]
  }

  lemma {:induction false} BytesRoundTrip(x: nat, n: nat)
    requires x < Pow256(n)
    ensures FromBytes(ToBytes(x, n)) == x
  {
    if n > 0 {
      BytesRoundTrip(x / 256, n - 1);
      var s := ToBytes(x, n);
      assert s[..n - 1] == ToBytes(x / 256, n - 1);
    }
  }

  /** Every string of bytes is the encoding of the number it decodes to. */
  lemma {:induction false} BytesOnto(s: Bytes)
    ensures FromBytes(s) < Pow256(|s|) && ToBytes(FromBytes(s), |s|) == s
  {
    if s != [] {
      var n := |s| - 1;
      BytesOnto(s[..n]);
      var high := FromBytes(s[..n]);
      assert FromBytes(s) / 256 == high && FromBytes(s) % 256 == s[n];
      assert s == s[..n] + [s[n]];
    }
  }

  lemma DivideTwice(x: nat, p: nat)
    requires p > 0
    ensures x / 256 / p == x / (256 * p)
  {
    var q, r, s := x / 256, x % 256, (x / 256) % p;
    assert x == 256 * p * (q / p) + (256 * s + r) by {
      assert q == p * (q / p) + s;
    }
    assert 0 <= 256 * s + r < 256 * p;
    QuotientUnique(x, 256 * p, q / p, 256 * s + r);
  }

  lemma QuotientUnique(x: nat, n: nat, q: nat, r: nat)
    requires n > 0 && x == n * q + r && r < n
    ensures x / n == q
  {
    RemainderUnique(x, n, q, r);
    assert n * (x / n) == n * q;
  }

  /** Network byte order: byte `k` of `n` is the one worth 256^(n - 1 - k). */
  lemma {:induction false} ByteAt(x: nat, n: nat, k: nat)
    requires k < n
    ensures ToBytes(x, n)[k] == x / Pow256(n - 1 - k) % 256
    decreases n
  {
    if k < n - 1 {
      ByteAt(x / 256, n - 1, k);
      DivideTwice(x, Pow256(n - 2 - k));
    }
  }

  /** Digit `k` of the `n` digits of `x` to the base 256, the highest first. */
  function Digit(x: nat, n: nat, k: nat): Byte
    requires k < n
  {
    x / Pow256(n - 1 - k) % 256
  }

  /** The bytes from position `start` on are the `n` digits of `x`, most significant first. */
  ghost predicate NumberAt(s: Bytes, start: nat, n: nat, x: nat) {
    start + n <= |s| && forall k :: 0 <= k < n ==> s[start + k] == Digit(x, n, k)
  }

  lemma NumberIsAt(s: Bytes, start: nat, n: nat, x: nat)
    requires start + n <= |s| && s[start..start + n] == ToBytes(x, n)
    ensures NumberAt(s, start, n, x)
  {
    forall k | 0 <= k < n ensures s[start + k] == Digit(x, n, k) {
      ByteAt(x, n, k);
      assert s[start + k] == s[start..start + n][k];
    }
  }

  lemma Widths()
    ensures Pow256(2) == 0x1_0000 && Pow256(4) == TWO_TO_THE_32 && Pow256(8) == TWO_TO_THE_64
  {
    assert Pow256(2) == 0x1_0000;
    assert Pow256(4) == 256 * (256 * Pow256(2));
    assert Pow256(6) == 256 * (256 * Pow256(4));
    assert Pow256(8) == 256 * (256 * Pow256(6));
  }

  // ---- Market events ----

  const EVENT_SIZE: nat := 18

  function KindByte(kind: EventKind): Byte {
    match kind case Add => 0 case Cancel => 1 case Trade => 2 case Update => 3
  }

  function SideByte(side: Side): Byte {
    if side == Buy then 0 else 1
  }

  /** The 32-bit two's complement pattern of a price. */
  function Unsigned(price: Price): nat {
    if price < 0 then price + TWO_TO_THE_32 else price
  }

  function Signed(x: nat): Price
    requires x < TWO_TO_THE_32
  {
    if x >= TWO_TO_THE_31 then x - TWO_TO_THE_32 else x
  }

  function Encoded(e: MarketEvent): (s: Bytes)
    ensures |s| == EVENT_SIZE
  {
    [KindByte(e.kind)] + ToBytes(e.order.id, 8) + ToBytes(Unsigned(e.order.price), 4)
      + ToBytes(e.order.quantity, 4) + [SideByte(e.order.side)]
  }

  /** The event the bytes stand for, unless the kind or side byte names no enumerator. */
  function Decoded(s: Bytes): Option<MarketEvent>
    requires |s| == EVENT_SIZE
  {
    BytesOnto(s[1..9]);
    BytesOnto(s[9..13]);
    BytesOnto(s[13..17]);
    Widths();
    if s[0] > 3 || s[17] > 1 then None
    else
      var kind := if s[0] == 0 then EventKind.Add else if s[0] == 1 then EventKind.Cancel
                  else if s[0] == 2 then EventKind.Trade else EventKind.Update;
      var side := if s[17] == 0 then Buy else Sell;
      Some(MarketEvent(Order(FromBytes(s[1..9]), Signed(FromBytes(s[9..13])), FromBytes(s[13..17]), side), kind))
  }

  lemma EncodedParts(e: MarketEvent)
    ensures
      var s := Encoded(e);
      && s[0] == KindByte(e.kind) && s[17] == SideByte(e.order.side)
      && s[1..9] == ToBytes(e.order.id, 8) && s[9..13] == ToBytes(Unsigned(e.order.price), 4)
      && s[13..17] == ToBytes(e.order.quantity, 4)
  {
  }

  lemma TwosComplement(price: Price)
    ensures Unsigned(price) == price % TWO_TO_THE_32
  {
  }

  /** The 18 bytes of an event: its kind, the order's id, price in two's complement, quantity and side. */
  lemma EventLayout(e: MarketEvent)
    ensures
      var s := Encoded(e);
      && s[0] == (match e.kind case Add => 0 case Cancel => 1 case Trade => 2 case Update => 3)
      && NumberAt(s, 1, 8, e.order.id) && NumberAt(s, 9, 4, e.order.price % TWO_TO_THE_32)
      && NumberAt(s, 13, 4, e.order.quantity)
      && s[17] == (match e.order.side case Buy => 0 case Sell => 1)
  {
    hide NumberAt, Encoded, ToBytes, Unsigned;
    EncodedParts(e);
    TwosComplement(e.order.price);
    var s := Encoded(e);
    NumberIsAt(s, 1, 8, e.order.id);
    NumberIsAt(s, 9, 4, Unsigned(e.order.price));
    NumberIsAt(s, 13, 4, e.order.quantity);
  }

  lemma EventRoundTrip(e: MarketEvent)
    ensures Decoded(Encoded(e)) == Some(e)
  {
    EncodedParts(e);
    Widths();
    BytesRoundTrip(e.order.id, 8);
    BytesRoundTrip(Unsigned(e.order.price), 4);
    BytesRoundTrip(e.order.quantity, 4);
  }

  /** No two strings of bytes decode to the same event. */
  lemma DecodedRoundTrip(s: Bytes)
    requires |s| == EVENT_SIZE && Decoded(s).Some?
    ensures Encoded(Decoded(s).value) == s
  {
    BytesOnto(s[1..9]);
    BytesOnto(s[9..13]);
    BytesOnto(s[13..17]);
    Widths();
    assert s == [s[0]] + s[1..9] + s[9..13] + s[13..17] + [s[17]];
  }

  /** `std::memcpy` into a buffer at an offset that advances past what was written. */
  method CopyIn(buffer: array<Byte>, offset: nat, bytes: Bytes) returns (next: nat)
    requires offset + |bytes| <= buffer.Length
    modifies buffer
    ensures next == offset + |bytes|
    ensures buffer[..next] == old(buffer[..offset]) + bytes
  {
    var i := 0;
    while i < |bytes|
      invariant i <= |bytes|
      invariant buffer[..offset + i] == old(buffer[..offset]) + bytes[..i]
    {
      buffer[offset + i] := bytes[i];
      i := i + 1;
      assert bytes[..i] == bytes[..i - 1] + [bytes[i - 1]];
      assert buffer[..offset + i] == buffer[..offset + (i - 1)] + [bytes[i - 1]];
    }
    assert bytes[..|bytes|] == bytes;
    return offset + |bytes|;
  }

  /** `BinaryProtocol::encode`. */
  method Encode(e: MarketEvent) returns (buffer: array<Byte>)
    ensures fresh(buffer) && buffer[..] == Encoded(e)
  {
    buffer := new Byte[EVENT_SIZE];
    var offset := CopyIn(buffer, 0, [KindByte(e.kind)]);
    offset := CopyIn(buffer, offset, ToBytes(e.order.id, 8));
    offset := CopyIn(buffer, offset, ToBytes(Unsigned(e.order.price), 4));
    offset := CopyIn(buffer, offset, ToBytes(e.order.quantity, 4));
    offset := CopyIn(buffer, offset, [SideByte(e.order.side)]);
    assert buffer[..] == buffer[..offset];
  }

  // ---- Sequenced messages ----

  const HEADER_SIZE: nat := 10
  const MAX_MESSAGE_BYTES: nat := 32

  datatype Header = Header(sequence: SequenceId, length: nat)

  function HeaderBytes(h: Header): (s: Bytes)
    ensures |s| == HEADER_SIZE
  {
    ToBytes(h.sequence, 8) + ToBytes(h.length, 2)
  }

  function ParseHeader(s: Bytes): Header
    requires |s| == HEADER_SIZE
  {
    BytesOnto(s[..8]);
    Widths();
    Header(FromBytes(s[..8]), FromBytes(s[8..]))
  }

  lemma HeaderRoundTrip(h: Header)
    requires h.length < 0x1_0000
    ensures ParseHeader(HeaderBytes(h)) == h
  {
    Widths();
    BytesRoundTrip(h.sequence, 8);
    BytesRoundTrip(h.length, 2);
    assert HeaderBytes(h)[..8] == ToBytes(h.sequence, 8) && HeaderBytes(h)[8..] == ToBytes(h.length, 2);
  }

  /** The 10 bytes of a header: the sequence number, and the length of what follows. */
  lemma HeaderLayout(h: Header)
    ensures NumberAt(HeaderBytes(h), 0, 8, h.sequence) && NumberAt(HeaderBytes(h), 8, 2, h.length)
  {
    hide NumberAt;
    var s := HeaderBytes(h);
    assert s[0..8] == ToBytes(h.sequence, 8) && s[8..10] == ToBytes(h.length, 2);
    NumberIsAt(s, 0, 8, h.sequence);
    NumberIsAt(s, 8, 2, h.length);
  }

  /** A message on the wire. */
  function Message(sequence: SequenceId, payload: Bytes): Bytes {
    HeaderBytes(Header(sequence, |payload|)) + payload
  }

  /** Sequencer::generate_message: consecutive numbers from 1. */
  class Sequencer {
    var counter: SequenceId

    constructor ()
      ensures counter == 1
    {
      counter := 1;
    }

    method GenerateMessage(e: MarketEvent) returns (message: Bytes)
      modifies this
      ensures message == Message(old(counter), Encoded(e))
      ensures counter == Following(old(counter))
    {
      var payload := Encode(e);
      message := Message(counter, payload[..]);
      counter := Following(counter);
    }
  }

  // ---- Retransmission requests ----

  const REQUEST_SIZE: nat := 16

  function RequestBytes(r: RetransmitRequest): (s: Bytes)
    ensures |s| == REQUEST_SIZE
  {
    ToBytes(r.first, 8) + ToBytes(r.last, 8)
  }

  /** The 16 bytes of a request: its first packet, and the one after its last. */
  lemma RequestLayout(r: RetransmitRequest)
    ensures NumberAt(RequestBytes(r), 0, 8, r.first) && NumberAt(RequestBytes(r), 8, 8, r.last)
  {
    hide NumberAt;
    var s := RequestBytes(r);
    assert s[0..8] == ToBytes(r.first, 8) && s[8..16] == ToBytes(r.last, 8);
    NumberIsAt(s, 0, 8, r.first);
    NumberIsAt(s, 8, 8, r.last);
  }

  function ParseRequest(s: Bytes): RetransmitRequest
    requires |s| == REQUEST_SIZE
  {
    BytesOnto(s[..8]);
    BytesOnto(s[8..]);
    Widths();
    RetransmitRequest(FromBytes(s[..8]), FromBytes(s[8..]))
  }

  lemma RequestRoundTrip(r: RetransmitRequest)
    ensures ParseRequest(RequestBytes(r)) == r
  {
    Widths();
    BytesRoundTrip(r.first, 8);
    BytesRoundTrip(r.last, 8);
    assert RequestBytes(r)[..8] == ToBytes(r.first, 8) && RequestBytes(r)[8..] == ToBytes(r.last, 8);
  }

  lemma RequestOnto(s: Bytes)
    requires |s| == REQUEST_SIZE
    ensures RequestBytes(ParseRequest(s)) == s
  {
    BytesOnto(s[..8]);
    BytesOnto(s[8..]);
    assert s == s[..8] + s[8..];
  }

  lemma HeaderOnto(s: Bytes)
    requires |s| == HEADER_SIZE
    ensures HeaderBytes(ParseHeader(s)) == s
  {
    BytesOnto(s[..8]);
    BytesOnto(s[8..]);
    assert s == s[..8] + s[8..];
  }
}
