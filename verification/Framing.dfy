/** Frames over a byte stream (shared/src/shared/network/MessageChannel.hpp):
    what one message becomes on the wire, what a reader makes of a stream that may
    be cut anywhere, and why the two fit together.

    Protobuf is represented by a serialise/parse pair; the only thing assumed of it,
    where needed, is that parsing a serialisation gives the message back. */
module Framing {
  import opened Prelude
  import opened FrameCodec

  datatype Protobuf<!M> = Protobuf(serialize: M -> Option<seq<Byte>>, parse: seq<Byte> -> Option<M>)

  ghost predicate RoundTrips<M(!new)>(p: Protobuf<M>) {
    forall m: M :: p.serialize(m).Some? ==> p.parse(p.serialize(m).value) == Some(m)
  }

  /** The size checks of writeMessage and of the prefix encoder let this message through. */
  predicate Encodable<M>(p: Protobuf<M>, max: UInt32, m: M) {
    p.serialize(m).Some? && 1 <= |p.serialize(m).value| <= max
  }

  ghost predicate AllEncodable<M(!new)>(p: Protobuf<M>, max: UInt32, ms: seq<M>) {
    forall m | m in ms :: Encodable(p, max, m)
  }

  function Payload<M>(p: Protobuf<M>, max: UInt32, m: M): seq<Byte>
    requires Encodable(p, max, m)
  {
    p.serialize(m).value
  }

  /** The prefix every host writes for a size; see FrameCodec.PrefixRoundTrip. */
  function PrefixFor(size: UInt32): Prefix {
    BitCastToBytes(Big, size)
  }

  function Frame<M>(p: Protobuf<M>, max: UInt32, m: M): (frame: seq<Byte>)
    requires Encodable(p, max, m)
    ensures |frame| == PREFIX_SIZE + |Payload(p, max, m)|
  {
    PrefixFor(|Payload(p, max, m)|) + Payload(p, max, m)
  }

  /** What writing the messages in order puts on the wire: the first message that cannot
      be encoded ends the connection, so nothing follows it. */
  function Frames<M>(p: Protobuf<M>, max: UInt32, ms: seq<M>): seq<Byte> {
    if ms == [] || !Encodable(p, max, ms[0]) then []
    else Frame(p, max, ms[0]) + Frames(p, max, ms[1..])
  }

  /** One readMessage on the bytes available: a message and the number of bytes it
      took, or a read that cannot finish yet, or a violation of the wire format. */
  datatype FrameRead<M> = Message(message: M, length: nat) | Incomplete | Malformed

  function ReadFrame<M>(p: Protobuf<M>, max: UInt32, bytes: seq<Byte>): (r: FrameRead<M>)
    ensures r.Message? ==> PREFIX_SIZE < r.length <= |bytes|
  {
    if |bytes| < PREFIX_SIZE then Incomplete else
    match DecodeLengthPrefix(Big, max, bytes[..PREFIX_SIZE])
    case Err(_) => Malformed
    case Ok(size) =>
      if |bytes| < PREFIX_SIZE + size then Incomplete else
      match p.parse(bytes[PREFIX_SIZE..PREFIX_SIZE + size])
      case None => Malformed
      case Some(m) => Message(m, PREFIX_SIZE + size)
  }

  /** Every message a reader gets out of a stream before it has to wait or fails. */
  function Messages<M>(p: Protobuf<M>, max: UInt32, bytes: seq<Byte>): seq<M>
    decreases |bytes|
  {
    match ReadFrame(p, max, bytes)
    case Message(m, n) => [m] + Messages(p, max, bytes[n..])
    case Incomplete => []
    case Malformed => []
  }

  lemma {:induction false} FramesAppend<M(!new)>(p: Protobuf<M>, max: UInt32, a: seq<M>, b: seq<M>)
    requires AllEncodable(p, max, a)
    ensures Frames(p, max, a + b) == Frames(p, max, a) + Frames(p, max, b)
  {
    if a == [] {
      assert a + b == b;
    } else {
      assert (a + b)[0] == a[0] && (a + b)[1..] == a[1..] + b;
      assert a[0] in a;
      FramesAppend(p, max, a[1..], b);
      assert Frames(p, max, a + b) == Frame(p, max, a[0]) + (Frames(p, max, a[1..]) + Frames(p, max, b));
    }
  }

  lemma {:induction false} FramesOne<M(!new)>(p: Protobuf<M>, max: UInt32, m: M)
    requires Encodable(p, max, m)
    ensures Frames(p, max, [m]) == Frame(p, max, m)
  {
    assert Frames(p, max, [m][1..]) == [];
  }

  /** A longer list of messages only appends to what is on the wire. */
  lemma {:induction false} FramesMonotone<M(!new)>(p: Protobuf<M>, max: UInt32, a: seq<M>, b: seq<M>)
    requires a <= b
    ensures Frames(p, max, a) <= Frames(p, max, b)
  {
    if a != [] && Encodable(p, max, a[0]) {
      FramesMonotone(p, max, a[1..], b[1..]);
    }
  }

  lemma PrefixIsRead(size: UInt32, maxRead: UInt32, prefix: Prefix)
    requires size >= 1 && prefix == PrefixFor(size)
    ensures DecodeLengthPrefix(Big, maxRead, prefix) == if size <= maxRead then Ok(size) else Err(TooBig)
  {
    DigitsDetermine(size);
    assert BigEndianValue(prefix) == size;
  }

  /** One frame and what follows it, cut anywhere after the prefix. */
  lemma FrontIsRead<M(!new)>(p: Protobuf<M>, maxWrite: UInt32, maxRead: UInt32, m: M, bytes: seq<Byte>, rest: seq<Byte>)
    requires RoundTrips(p) && Encodable(p, maxWrite, m)
    requires PREFIX_SIZE <= |bytes| && bytes <= Frame(p, maxWrite, m) + rest
    ensures match ReadFrame(p, maxRead, bytes)
      case Message(x, n) => x == m && n == |Frame(p, maxWrite, m)| && bytes[n..] <= rest
      case Malformed => |Payload(p, maxWrite, m)| > maxRead
      case Incomplete => |bytes| < |Frame(p, maxWrite, m)|
  {
    var frame, payload := Frame(p, maxWrite, m), Payload(p, maxWrite, m);
    assert bytes[..PREFIX_SIZE] == (frame + rest)[..PREFIX_SIZE] == PrefixFor(|payload|);
    PrefixIsRead(|payload|, maxRead, bytes[..PREFIX_SIZE]);
    var n := |frame|;
    if n <= |bytes| {
      assert bytes[PREFIX_SIZE..n] == (frame + rest)[PREFIX_SIZE..n] == payload;
      assert bytes[n..] == (frame + rest)[n..|bytes|] == rest[..|bytes| - n];
    }
  }

  /** The heart of framing: on a stream that starts like the frames of `ms`, wherever it is
      cut, a completed read returns the first of them and takes exactly its frame; a read
      that cannot complete has not got that whole frame; and the only violation a reader can
      meet is a message above its own limit. */
  lemma ReadFrameIsFirst<M(!new)>(p: Protobuf<M>, maxWrite: UInt32, maxRead: UInt32, ms: seq<M>, bytes: seq<Byte>)
    requires RoundTrips(p)
    requires bytes <= Frames(p, maxWrite, ms)
    ensures ReadFrame(p, maxRead, bytes).Incomplete? ||
            (ms != [] && Encodable(p, maxWrite, ms[0]))
    ensures match ReadFrame(p, maxRead, bytes)
      case Message(m, n) =>
        && m == ms[0] && n == |Frame(p, maxWrite, ms[0])|
        && bytes[n..] <= Frames(p, maxWrite, ms[1..])
      case Malformed => |Payload(p, maxWrite, ms[0])| > maxRead
      case Incomplete => ms == [] || !Encodable(p, maxWrite, ms[0]) || |bytes| < |Frame(p, maxWrite, ms[0])|
  {
    if |bytes| >= PREFIX_SIZE {
      FrontIsRead(p, maxWrite, maxRead, ms[0], bytes, Frames(p, maxWrite, ms[1..]));
    }
  }

  /** Wire safety, reading side: a peer decodes a prefix of what was written, in order,
      whatever part of the stream has arrived and whatever limit the peer has. */
  lemma {:induction false} DecodedIsPrefix<M(!new)>(p: Protobuf<M>, maxWrite: UInt32, maxRead: UInt32, ms: seq<M>,
                                             bytes: seq<Byte>)
    requires RoundTrips(p)
    requires bytes <= Frames(p, maxWrite, ms)
    ensures Messages(p, maxRead, bytes) <= ms
    decreases |bytes|
  {
    ReadFrameIsFirst(p, maxWrite, maxRead, ms, bytes);
    var r := ReadFrame(p, maxRead, bytes);
    if r.Message? {
      DecodedIsPrefix(p, maxWrite, maxRead, ms[1..], bytes[r.length..]);
    }
  }

  /** A message can be written exactly when it serialises to a size the prefix encoder accepts. */
  lemma EncodableExactly<M>(p: Protobuf<M>, host: Endian, max: UInt32, m: M)
    requires p.serialize(m).Some? && |p.serialize(m).value| < UINT32_LIMIT
    ensures Encodable(p, max, m) <==> EncodeLengthPrefix(host, max, |p.serialize(m).value|).Ok?
  {
    EncodeIsBigEndian(host, max, |p.serialize(m).value|);
  }

  /** A read of any bytes, whoever wrote them: it waits for four bytes, refuses a size that is zero
      or above the limit, waits for that many bytes more, and refuses them if they do not parse. */
  lemma ReadFrameExactly<M>(p: Protobuf<M>, max: UInt32, bytes: seq<Byte>)
    ensures |bytes| < 4 ==> ReadFrame(p, max, bytes) == Incomplete
    ensures |bytes| >= 4 ==>
      var size, r := BigEndianValue(bytes[..4]), ReadFrame(p, max, bytes);
      && (!(1 <= size <= max) ==> r == Malformed)
      && (1 <= size <= max && |bytes| < 4 + size ==> r == Incomplete)
      && (1 <= size <= max && |bytes| >= 4 + size ==>
           match p.parse(bytes[4..4 + size]) case Some(m) => r == Message(m, 4 + size) case None => r == Malformed)
  {
    if |bytes| >= PREFIX_SIZE {
      DecodeIsBigEndian(Big, max, bytes[..PREFIX_SIZE]);
    }
  }

  /** A frame that arrived whole is read, whatever follows it, if the reader's limit admits it. */
  lemma WholeFrameReads<M(!new)>(p: Protobuf<M>, maxWrite: UInt32, maxRead: UInt32, m: M, bytes: seq<Byte>)
    requires RoundTrips(p) && maxWrite <= maxRead && Encodable(p, maxWrite, m)
    requires Frame(p, maxWrite, m) <= bytes
    ensures ReadFrame(p, maxRead, bytes) == Message(m, |Frame(p, maxWrite, m)|)
  {
    var frame, payload := Frame(p, maxWrite, m), Payload(p, maxWrite, m);
    assert bytes[..|frame|] == frame;
    assert bytes[..PREFIX_SIZE] == frame[..PREFIX_SIZE] == PrefixFor(|payload|);
    assert bytes[PREFIX_SIZE..|frame|] == frame[PREFIX_SIZE..] == payload;
    PrefixIsRead(|payload|, maxRead, bytes[..PREFIX_SIZE]);
  }

  /** And no message whose frame arrived whole is withheld, if the peer's limit admits it. */
  lemma {:induction false} WholeFramesDecode<M(!new)>(p: Protobuf<M>, maxWrite: UInt32, maxRead: UInt32, ms: seq<M>,
                                               bytes: seq<Byte>)
    requires RoundTrips(p) && maxWrite <= maxRead
    requires AllEncodable(p, maxWrite, ms)
    requires Frames(p, maxWrite, ms) <= bytes
    ensures ms <= Messages(p, maxRead, bytes)
  {
    if ms == [] {
    } else {
      var frame, all := Frame(p, maxWrite, ms[0]), Frames(p, maxWrite, ms);
      assert all[..|frame|] == frame && all[|frame|..] == Frames(p, maxWrite, ms[1..]);
      WholeFrameReads(p, maxWrite, maxRead, ms[0], bytes);
      assert Frames(p, maxWrite, ms[1..]) <= bytes[|frame|..];
      WholeFramesDecode(p, maxWrite, maxRead, ms[1..], bytes[|frame|..]);
    }
  }

  /** Two lists of messages with the same bytes on the wire are the same list. */
  lemma UniquelyDecodable<M(!new)>(p: Protobuf<M>, max: UInt32, a: seq<M>, b: seq<M>)
    requires RoundTrips(p)
    requires AllEncodable(p, max, a) && AllEncodable(p, max, b)
    requires Frames(p, max, a) == Frames(p, max, b)
    ensures a == b
  {
    var bytes := Frames(p, max, a);
    DecodedIsPrefix(p, max, max, a, bytes);
    DecodedIsPrefix(p, max, max, b, bytes);
    WholeFramesDecode(p, max, max, a, bytes);
    WholeFramesDecode(p, max, max, b, bytes);
  }

  /** A reader fed piecewise: bytes not yet part of a message, and whether the format was
      violated, after which nothing more is read. */
  datatype Feeder = Feeder(buffer: seq<Byte>, broken: bool)

  function Drain<M>(p: Protobuf<M>, max: UInt32, bytes: seq<Byte>): (Feeder, seq<M>)
    decreases |bytes|
  {
    match ReadFrame(p, max, bytes)
    case Message(m, n) =>
      var (rest, ms) := Drain(p, max, bytes[n..]);
      (rest, [m] + ms)
    case Incomplete => (Feeder(bytes, false), [])
    case Malformed => (Feeder([], true), [])
  }

  function Feed<M>(p: Protobuf<M>, max: UInt32, f: Feeder, chunk: seq<Byte>): (Feeder, seq<M>) {
    if f.broken then (f, []) else Drain(p, max, f.buffer + chunk)
  }

  function FeedAll<M>(p: Protobuf<M>, max: UInt32, f: Feeder, chunks: seq<seq<Byte>>): seq<M>
    decreases |chunks|
  {
    if chunks == [] then []
    else
      var (next, ms) := Feed(p, max, f, chunks[0]);
      ms + FeedAll(p, max, next, chunks[1..])
  }

  function Concat<T>(parts: seq<seq<T>>): seq<T> {
    if parts == [] then [] else parts[0] + Concat(parts[1..])
  }

  /** A read that was decided stays decided when more bytes arrive. */
  lemma DecidedReadsStay<M>(p: Protobuf<M>, max: UInt32, bytes: seq<Byte>, more: seq<Byte>)
    requires !ReadFrame(p, max, bytes).Incomplete?
    ensures ReadFrame(p, max, bytes + more) == ReadFrame(p, max, bytes)
  {
    var all := bytes + more;
    assert all[..PREFIX_SIZE] == bytes[..PREFIX_SIZE];
    var size := DecodeLengthPrefix(Big, max, bytes[..PREFIX_SIZE]);
    if size.Ok? {
      var n := PREFIX_SIZE + size.value;
      assert all[PREFIX_SIZE..n] == bytes[PREFIX_SIZE..n];
    }
  }

  /** A message at the front of a stream is the first one read, however the stream goes on. */
  lemma MessageComesFirst<M>(p: Protobuf<M>, max: UInt32, bytes: seq<Byte>, more: seq<Byte>)
    requires ReadFrame(p, max, bytes).Message?
    ensures var r := ReadFrame(p, max, bytes);
      Messages(p, max, bytes + more) == [r.message] + Messages(p, max, bytes[r.length..] + more)
  {
    var r := ReadFrame(p, max, bytes);
    DecidedReadsStay(p, max, bytes, more);
    assert (bytes + more)[r.length..] == bytes[r.length..] + more;
  }

  lemma {:induction false} DrainSplits<M>(p: Protobuf<M>, max: UInt32, bytes: seq<Byte>, more: seq<Byte>)
    ensures var (rest, ms) := Drain(p, max, bytes);
      Messages(p, max, bytes + more) == ms + (if rest.broken then [] else Messages(p, max, rest.buffer + more))
    decreases |bytes|
  {
    match ReadFrame(p, max, bytes)
    case Incomplete =>
    case Malformed => DecidedReadsStay(p, max, bytes, more);
    case Message(m, n) =>
      var (rest, ms) := Drain(p, max, bytes[n..]);
      MessageComesFirst(p, max, bytes, more);
      DrainSplits(p, max, bytes[n..], more);
      Regroup([m], ms, if rest.broken then [] else Messages(p, max, rest.buffer + more));
  }

  /** However the stream is chunked, the same messages come out. */
  lemma {:induction false} ChunkingIsInvisible<M>(p: Protobuf<M>, max: UInt32, f: Feeder, chunks: seq<seq<Byte>>)
    requires !f.broken ==> Drain(p, max, f.buffer) == (f, [])
    ensures FeedAll(p, max, f, chunks) ==
            if f.broken then [] else Messages(p, max, f.buffer + Concat(chunks))
    decreases |chunks|
  {
    if chunks == [] {
      assert f.buffer + [] == f.buffer;
      DrainSplits(p, max, f.buffer, []);
    } else {
      var (next, ms) := Feed(p, max, f, chunks[0]);
      if f.broken {
        ChunkingIsInvisible(p, max, f, chunks[1..]);
      } else {
        DrainSettles(p, max, f.buffer + chunks[0]);
        ChunkingIsInvisible(p, max, next, chunks[1..]);
        DrainSplits(p, max, f.buffer + chunks[0], Concat(chunks[1..]));
        Regroup(f.buffer, chunks[0], Concat(chunks[1..]));
      }
    }
  }

  lemma {:induction false} DrainSettles<M>(p: Protobuf<M>, max: UInt32, bytes: seq<Byte>)
    ensures var (rest, _) := Drain(p, max, bytes);
      !rest.broken ==> Drain(p, max, rest.buffer) == (rest, [])
    decreases |bytes|
  {
    var r := ReadFrame(p, max, bytes);
    if r.Message? {
      DrainSettles(p, max, bytes[r.length..]);
    }
  }
}
