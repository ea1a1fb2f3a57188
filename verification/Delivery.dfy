/** What the peer can still get from a connection that closed: exactly when it is everything that
    was accepted for sending (shared/src/shared/network/Connection.hpp). */
module Delivery {
  import opened Prelude
  import opened FrameCodec
  import opened Framing
  import opened ConnectionSpec

  /** Nothing is queued, and of the message being written, if any, the transport has every byte. */
  ghost predicate AllHandedOver<In, Out(!new)>(lim: Limits<Out>, c: Conn<In, Out>)
    requires Valid(lim, c)
  {
    && c.queue == []
    && (InFlight(c) == [] || Progress(c.writers[0]) == |Frame(lim.proto, lim.maxBytes, c.writers[0].message)|)
  }

  /** A step that closes an open connection, be it a stop, a full queue, a failed read or write, an
      unencodable message or a handler that threw, leaves nothing unwritten exactly when nothing
      was in flight or queued before it. */
  lemma ClosingDrops<In, Out(!new)>(lim: Limits<Out>, c: Conn<In, Out>, e: Event<In, Out>)
    requires Valid(lim, c) && Enabled(lim, c, e) && !c.closed && Step(lim, c, e).closed
    ensures var d := Step(lim, c, e); d.flushed == d.accepted <==> InFlight(c) == [] && c.queue == []
  {
    StepKeepsValid(lim, c, e);
    ClosingStep(lim, c, e);
  }

  /** A closing step writes nothing, and at most finishes the message whose frame is complete. */
  ghost predicate Closes<In, Out>(c: Conn<In, Out>, d: Conn<In, Out>) {
    && d.accepted == c.accepted && d.wire == c.wire
    && (d.flushed == c.flushed || (d.flushed == c.flushed + InFlight(c) && c.queue != []))
  }

  lemma ClosingStep<In, Out(!new)>(lim: Limits<Out>, c: Conn<In, Out>, e: Event<In, Out>)
    requires Valid(lim, c) && Enabled(lim, c, e) && !c.closed && Step(lim, c, e).closed
    ensures Closes(c, Step(lim, c, e))
  {
    match e
    case TaskRuns(alive) => ClosingTask(lim, c, alive);
    case PayloadWritten(i) =>
      assert c.writers == [c.writers[0]] && i == 0;
    case _ =>
  }

  lemma ClosingTask<In, Out(!new)>(lim: Limits<Out>, c: Conn<In, Out>, alive: bool)
    requires c.tasks != [] && !c.closed && RunTask(lim, c, alive).closed
    ensures Closes(c, RunTask(lim, c, alive))
  {
  }

  /** What a reader gets out of a stream took at least its frames. */
  lemma {:induction false} ReadsTakeTheirFrames<M(!new)>(p: Protobuf<M>, maxWrite: UInt32, maxRead: UInt32,
                                                  ms: seq<M>, bytes: seq<Byte>)
    requires RoundTrips(p) && bytes <= Frames(p, maxWrite, ms)
    ensures AllEncodable(p, maxWrite, Messages(p, maxRead, bytes))
    ensures |Frames(p, maxWrite, Messages(p, maxRead, bytes))| <= |bytes|
    decreases |bytes|
  {
    ReadFrameIsFirst(p, maxWrite, maxRead, ms, bytes);
    var r := ReadFrame(p, maxRead, bytes);
    if r.Message? {
      ReadsTakeTheirFrames(p, maxWrite, maxRead, ms[1..], bytes[r.length..]);
      var later := Messages(p, maxRead, bytes[r.length..]);
      assert ([r.message] + later)[1..] == later;
    }
  }

  /** All of an open connection's accepted messages can be read off its wire exactly when all was
      handed over. */
  lemma ReadableWhenHandedOver<In, Out(!new)>(lim: Limits<Out>, c: Conn<In, Out>, maxRead: UInt32)
    requires Valid(lim, c) && !c.closed && RoundTrips(lim.proto) && lim.maxBytes <= maxRead
    ensures Messages(lim.proto, maxRead, c.wire) == c.accepted <==> AllHandedOver(lim, c)
  {
    var p, max := lim.proto, lim.maxBytes;
    if AllHandedOver(lim, c) {
      HandedOverIsOnTheWire(lim, c);
      WholeFramesDecode(p, max, maxRead, c.accepted, c.wire);
      DecodedIsPrefix(p, max, maxRead, c.accepted, c.wire);
    }
    if Messages(p, maxRead, c.wire) == c.accepted {
      ReadsTakeTheirFrames(p, max, maxRead, c.accepted, c.wire);
      OnTheWireIsHandedOver(lim, c);
    }
  }

  lemma HandedOverIsOnTheWire<In, Out(!new)>(lim: Limits<Out>, c: Conn<In, Out>)
    requires Valid(lim, c) && !c.closed && AllHandedOver(lim, c)
    ensures AllEncodable(lim.proto, lim.maxBytes, c.accepted)
    ensures c.wire == Frames(lim.proto, lim.maxBytes, c.accepted)
  {
    var p, max := lim.proto, lim.maxBytes;
    assert c.accepted == c.flushed + InFlight(c);
    if InFlight(c) == [] {
      assert c.accepted == c.flushed;
    } else {
      var m := c.writers[0].message;
      var frame := Frame(p, max, m);
      assert InFlight(c) == [m] && m in InFlight(c);
      FrameWithinAccepted(lim, c, m, |frame|);
      assert frame[..|frame|] == frame;
    }
  }

  lemma OnTheWireIsHandedOver<In, Out(!new)>(lim: Limits<Out>, c: Conn<In, Out>)
    requires Valid(lim, c) && !c.closed && AllEncodable(lim.proto, lim.maxBytes, c.accepted)
    requires |Frames(lim.proto, lim.maxBytes, c.accepted)| <= |c.wire|
    ensures AllHandedOver(lim, c)
  {
    var p, max := lim.proto, lim.maxBytes;
    FramesAppend(p, max, c.flushed, InFlight(c));
    FramesAppend(p, max, c.flushed + InFlight(c), c.queue);
    if c.queue != [] {
      assert c.queue[0] in c.accepted;
    }
    if InFlight(c) != [] {
      var m := c.writers[0].message;
      assert InFlight(c) == [m] && m in InFlight(c);
      FramesOne(p, max, m);
    }
  }

  /** Over whole runs: whatever closed the connection and whatever still happened afterwards, the
      peer can read every accepted message off the wire exactly when, just before the close, all
      had been handed over; otherwise only a proper prefix. */
  lemma CloseLosesTheRest<In, Out(!new)>(lim: Limits<Out>, before: seq<Event<In, Out>>, c: Conn<In, Out>,
                                  e: Event<In, Out>,
                                         after: seq<Event<In, Out>>, last: Conn<In, Out>, maxRead: UInt32)
    requires lim.maxQueued >= 1 && RoundTrips(lim.proto) && lim.maxBytes <= maxRead
    requires IsRun(lim, Created(), before, c) && !c.closed
    requires Enabled(lim, c, e) && Step(lim, c, e).closed && IsRun(lim, Step(lim, c, e), after, last)
    ensures Valid(lim, c) && last.accepted == c.accepted && last.wire == c.wire
    ensures Messages(lim.proto, maxRead, last.wire) <= last.accepted
    ensures Messages(lim.proto, maxRead, last.wire) == last.accepted <==> AllHandedOver(lim, c)
  {
    CreatedIsValid<In, Out>(lim);
    RunKeepsValid(lim, Created(), before, c);
    ClosingStep(lim, c, e);
    ClosedStaysQuiet(lim, Step(lim, c, e), after, last);
    DecodedIsPrefix(lim.proto, lim.maxBytes, maxRead, c.accepted, c.wire);
    ReadableWhenHandedOver(lim, c, maxRead);
  }

  // ---- building runs ----

  lemma Extend<In, Out(!new)>(lim: Limits<Out>, start: Conn<In, Out>, es: seq<Event<In, Out>>, c: Conn<In, Out>,
                       e: Event<In, Out>)
      returns (es': seq<Event<In, Out>>, c': Conn<In, Out>)
    requires IsRun(lim, start, es, c) && Enabled(lim, c, e)
    ensures es' == es + [e] && c' == Step(lim, c, e) && IsRun(lim, start, es', c')
  {
    RunExtends(lim, start, es, c, e);
    es', c' := es + [e], Step(lim, c, e);
  }

  /** The transport takes a whole frame. */
  function FrameEvents<In, Out>(lim: Limits<Out>, m: Out): seq<Event<In, Out>>
    requires Encodable(lim.proto, lim.maxBytes, m)
  {
    [BytesTaken(0, PREFIX_SIZE), PrefixWritten(0), BytesTaken(0, |Payload(lim.proto, lim.maxBytes, m)|)]
  }

  lemma WritesFrame<In, Out(!new)>(lim: Limits<Out>, start: Conn<In, Out>, es: seq<Event<In, Out>>, c: Conn<In, Out>,
                            m: Out)
      returns (es': seq<Event<In, Out>>, c': Conn<In, Out>)
    requires IsRun(lim, start, es, c) && Encodable(lim.proto, lim.maxBytes, m)
    requires !c.closed && c.writers == [WritingPrefix(m, 0)] && c.wire == []
    ensures IsRun(lim, start, es', c') && es' == es + FrameEvents(lim, m)
    ensures c' == c.(writers := [WritingPayload(m, |Payload(lim.proto, lim.maxBytes, m)|)],
                     wire := Frame(lim.proto, lim.maxBytes, m))
  {
    var frame := Frame(lim.proto, lim.maxBytes, m);
    es', c' := Extend(lim, start, es, c, BytesTaken(0, PREFIX_SIZE));
    assert c' == c.(writers := [WritingPrefix(m, PREFIX_SIZE)], wire := frame[..PREFIX_SIZE]);
    es', c' := Extend(lim, start, es', c', PrefixWritten(0));
    assert c' == c.(writers := [WritingPayload(m, 0)], wire := frame[..PREFIX_SIZE]);
    assert frame[..PREFIX_SIZE] + frame[PREFIX_SIZE..] == frame;
    es', c' := Extend(lim, start, es', c', BytesTaken(0, |Payload(lim.proto, lim.maxBytes, m)|));
  }

  // ---- an input on which the rest is lost ----

  /** A connection that never started reading, with these messages accepted and still queued. */
  function Queueing<In, Out>(accepted: seq<Out>, queue: seq<Out>, writers: seq<Writer<Out>>): Conn<In, Out> {
    Created<In, Out>().(writing := true, queue := queue, writers := writers, accepted := accepted)
  }

  /** Three messages are sent and queued before the write loop begins. */
  lemma ThreeQueued<In, Out(!new)>(lim: Limits<Out>, a: Out, b: Out, d: Out)
      returns (es: seq<Event<In, Out>>, c: Conn<In, Out>)
    requires lim.maxQueued >= 3
    ensures IsRun(lim, Created(), es, c) && c == Queueing([a, b, d], [a, b, d], [WriterSpawned])
  {
    var start := Created<In, Out>();
    es, c := [], start;
    es, c := Extend(lim, start, es, c, Posted(SendTask(a)));
    es, c := Extend(lim, start, es, c, TaskRuns(true));
    es, c := Extend(lim, start, es, c, Posted(SendTask(b)));
    es, c := Extend(lim, start, es, c, TaskRuns(true));
    es, c := Extend(lim, start, es, c, Posted(SendTask(d)));
    es, c := Extend(lim, start, es, c, TaskRuns(true));
  }

  /** The first of them is written while the others wait. */
  lemma FirstWritten<In, Out(!new)>(lim: Limits<Out>, a: Out, b: Out, d: Out)
      returns (es: seq<Event<In, Out>>, c: Conn<In, Out>)
    requires lim.maxQueued >= 3 && Encodable(lim.proto, lim.maxBytes, a)
    ensures IsRun(lim, Created(), es, c)
    ensures c == Queueing<In, Out>([a, b, d], [b, d], [WritingPayload(a, |Payload(lim.proto, lim.maxBytes, a)|)]).(
      wire := Frame(lim.proto, lim.maxBytes, a))
  {
    es, c := ThreeQueued(lim, a, b, d);
    es, c := Extend(lim, Created(), es, c, WriterBegins(0));
    assert c == Queueing([a, b, d], [b, d], [WritingPrefix(a, 0)]);
    es, c := WritesFrame(lim, Created(), es, c, a);
  }

  /** An unencodable message between two others: the connection closes after the first, and the
      peer never gets the last. */
  lemma UnencodableDropsTheNext<In, Out(!new)>(lim: Limits<Out>, a: Out, bad: Out, b: Out)
      returns (es: seq<Event<In, Out>>, c: Conn<In, Out>)
    requires lim.maxQueued >= 3 && RoundTrips(lim.proto)
    requires Encodable(lim.proto, lim.maxBytes, a) && !Encodable(lim.proto, lim.maxBytes, bad)
    ensures IsRun(lim, Created(), es, c) && c.closed
    ensures c.accepted == [a, bad, b] && c.flushed == [a] && Messages(lim.proto, lim.maxBytes, c.wire) == [a]
  {
    var frame := Frame(lim.proto, lim.maxBytes, a);
    es, c := FirstWritten(lim, a, bad, b);
    es, c := Extend(lim, Created(), es, c, PayloadWritten(0));
    WholeFrameReads(lim.proto, lim.maxBytes, lim.maxBytes, a, frame);
    assert Messages(lim.proto, lim.maxBytes, frame[|frame|..]) == [];
  }
}
