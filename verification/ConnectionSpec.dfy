/** The state machine of one Connection (shared/src/shared/network/Connection.hpp) as a value:
    its fields, the tasks posted to its strand, where its read and write loops are suspended,
    and a record of what it did.

    Assumed of the runtime, here and in every other state machine of the project: one thread
    runs everything, so a stretch of code between two suspension points is one step; tasks
    posted to one strand run in the order posted; anything else may interleave freely.
    A task holds its connection weakly; `alive` says whether anything still owns it. */
module ConnectionSpec {
  import opened Prelude
  import opened FrameCodec
  import opened Framing

  datatype Task<Out> = StartTask | StopTask | SendTask(message: Out)

  /** Where a read loop is suspended. */
  datatype Reader<In> = ReaderSpawned | Reading | Handling(message: In)

  /** Where a write loop is suspended: not yet begun, or inside one of the two async_writes
      of a frame, with so many bytes of that buffer taken by the transport. */
  datatype Writer<Out> =
    | WriterSpawned
    | WritingPrefix(message: Out, sent: nat)
    | WritingPayload(message: Out, sent: nat)

  datatype Limits<!Out> = Limits(proto: Protobuf<Out>, maxBytes: UInt32, maxQueued: nat)

  datatype Conn<In, Out> = Conn(
    started: bool, closed: bool, writing: bool,
    queue: seq<Out>,
    tasks: seq<Task<Out>>,
    readers: seq<Reader<In>>,
    writers: seq<Writer<Out>>,
    accepted: seq<Out>,    // every message ever put in the write queue
    flushed: seq<Out>,     // every message whose frame was written to the end
    wire: seq<Byte>,       // every byte the transport took
    received: seq<In>,     // every message given to the handler
    notices: nat)          // how often the close handler was called

  function Created<In, Out>(): Conn<In, Out> {
    Conn(false, false, false, [], [], [], [], [], [], [], [], 0)
  }

  function Post<In, Out>(c: Conn<In, Out>, task: Task<Out>): Conn<In, Out> {
    c.(tasks := c.tasks + [task])
  }

  // ---- the body of each segment ----

  function StopImpl<In, Out>(c: Conn<In, Out>): Conn<In, Out> {
    if c.closed then c
    else c.(closed := true, queue := [], writing := false, notices := c.notices + 1)
  }

  function StartImpl<In, Out>(c: Conn<In, Out>): Conn<In, Out> {
    if c.started || c.closed then c
    else c.(started := true, readers := c.readers + [ReaderSpawned])
  }

  function SendImpl<In, Out>(lim: Limits<Out>, c: Conn<In, Out>, m: Out): Conn<In, Out> {
    if c.closed then c
    else if |c.queue| >= lim.maxQueued then StopImpl(c)
    else
      var pushed := c.(queue := c.queue + [m], accepted := c.accepted + [m]);
      if c.writing then pushed else pushed.(writing := true, writers := c.writers + [WriterSpawned])
  }

  function RunTask<In, Out>(lim: Limits<Out>, c: Conn<In, Out>, alive: bool): Conn<In, Out>
    requires c.tasks != []
  {
    var rest := c.(tasks := c.tasks[1..]);
    if !alive then rest else
    match c.tasks[0]
    case StartTask => StartImpl(rest)
    case StopTask => StopImpl(rest)
    case SendTask(m) => SendImpl(lim, rest, m)
  }

  /** The head of the write loop: take the next message, or finish. A message that cannot be
      encoded throws before anything is written. */
  function WriterLoop<In, Out>(lim: Limits<Out>, c: Conn<In, Out>, i: nat): Conn<In, Out>
    requires i < |c.writers|
  {
    if c.closed || c.queue == [] then
      c.(writing := false, writers := RemoveAt(c.writers, i))
    else
      var popped := c.(queue := c.queue[1..]);
      if Encodable(lim.proto, lim.maxBytes, c.queue[0])
      then popped.(writers := c.writers[i := WritingPrefix(c.queue[0], 0)])
      else WriteFails(popped, i)
  }

  function WriteFails<In, Out>(c: Conn<In, Out>, i: nat): Conn<In, Out>
    requires i < |c.writers|
  {
    StopImpl(c.(writing := false, writers := RemoveAt(c.writers, i)))
  }

  function ReaderLoop<In, Out>(c: Conn<In, Out>, i: nat): Conn<In, Out>
    requires i < |c.readers|
  {
    if c.closed then c.(readers := RemoveAt(c.readers, i)) else c.(readers := c.readers[i := Reading])
  }

  function ReadCompletes<In, Out>(c: Conn<In, Out>, i: nat, m: In): Conn<In, Out>
    requires i < |c.readers|
  {
    if c.closed then c.(readers := RemoveAt(c.readers, i))
    else c.(readers := c.readers[i := Handling(m)], received := c.received + [m])
  }

  function ReadEnds<In, Out>(c: Conn<In, Out>, i: nat): Conn<In, Out>
    requires i < |c.readers|
  {
    StopImpl(c.(readers := RemoveAt(c.readers, i)))
  }

  function HandlerReturns<In, Out>(c: Conn<In, Out>, i: nat, ok: bool): Conn<In, Out>
    requires i < |c.readers|
  {
    if ok then ReaderLoop(c, i) else ReadEnds(c, i)
  }

  // ---- the transition system ----

  datatype Event<In, Out> =
    | Posted(task: Task<Out>)                  // start(), stop() or send() called from outside
    | TaskRuns(alive: bool)
    | WriterBegins(writer: nat)
    | BytesTaken(writer: nat, count: nat)      // the open socket takes some more bytes
    | PrefixWritten(writer: nat)
    | PayloadWritten(writer: nat)
    | WriteFailed(writer: nat)
    | ReaderBegins(reader: nat)
    | MessageRead(reader: nat, message: In)
    | ReadFailed(reader: nat)
    | HandlerDone(reader: nat, ok: bool)

  /** Bytes of the message's frame already on the wire. */
  function Progress<Out>(w: Writer<Out>): nat {
    match w
    case WriterSpawned => 0
    case WritingPrefix(_, sent) => sent
    case WritingPayload(_, sent) => PREFIX_SIZE + sent
  }

  /** Where in the frame the buffer being written ends. */
  function Goal<Out>(lim: Limits<Out>, w: Writer<Out>): nat {
    match w
    case WriterSpawned => 0
    case WritingPrefix(m, _) => PREFIX_SIZE
    case WritingPayload(m, _) =>
      if Encodable(lim.proto, lim.maxBytes, m) then |Frame(lim.proto, lim.maxBytes, m)| else 0
  }

  predicate Enabled<In, Out>(lim: Limits<Out>, c: Conn<In, Out>, e: Event<In, Out>) {
    match e
    case Posted(_) => true
    case TaskRuns(_) => c.tasks != []
    case WriterBegins(i) => i < |c.writers| && c.writers[i].WriterSpawned?
    case BytesTaken(i, n) =>
      && i < |c.writers| && !c.closed && !c.writers[i].WriterSpawned?
      && Encodable(lim.proto, lim.maxBytes, c.writers[i].message)
      && Progress(c.writers[i]) + n <= Goal(lim, c.writers[i])
    case PrefixWritten(i) => i < |c.writers| && c.writers[i].WritingPrefix? && c.writers[i].sent == PREFIX_SIZE
    case PayloadWritten(i) =>
      i < |c.writers| && c.writers[i].WritingPayload? && Progress(c.writers[i]) == Goal(lim, c.writers[i])
    case WriteFailed(i) => i < |c.writers| && !c.writers[i].WriterSpawned?
    case ReaderBegins(i) => i < |c.readers| && c.readers[i].ReaderSpawned?
    case MessageRead(i, _) => i < |c.readers| && c.readers[i].Reading?
    case ReadFailed(i) => i < |c.readers| && c.readers[i].Reading?
    case HandlerDone(i, _) => i < |c.readers| && c.readers[i].Handling?
  }

  function Advance<Out>(w: Writer<Out>, n: nat): Writer<Out> {
    match w
    case WriterSpawned => w
    case WritingPrefix(m, sent) => WritingPrefix(m, sent + n)
    case WritingPayload(m, sent) => WritingPayload(m, sent + n)
  }

  function TakeBytes<In, Out>(lim: Limits<Out>, c: Conn<In, Out>, i: nat, n: nat): Conn<In, Out>
    requires Enabled(lim, c, BytesTaken(i, n))
  {
    var w := c.writers[i];
    var frame := Frame(lim.proto, lim.maxBytes, w.message);
    var k := Progress(w);
    c.(wire := c.wire + frame[k..k + n], writers := c.writers[i := Advance(w, n)])
  }

  function Step<In, Out>(lim: Limits<Out>, c: Conn<In, Out>, e: Event<In, Out>): Conn<In, Out>
    requires Enabled(lim, c, e)
  {
    match e
    case Posted(task) => Post(c, task)
    case TaskRuns(alive) => RunTask(lim, c, alive)
    case WriterBegins(i) => WriterLoop(lim, c, i)
    case BytesTaken(i, n) => TakeBytes(lim, c, i, n)
    case PrefixWritten(i) => c.(writers := c.writers[i := WritingPayload(c.writers[i].message, 0)])
    case PayloadWritten(i) => WriterLoop(lim, c.(flushed := c.flushed + [c.writers[i].message]), i)
    case WriteFailed(i) => WriteFails(c, i)
    case ReaderBegins(i) => ReaderLoop(c, i)
    case MessageRead(i, m) => ReadCompletes(c, i, m)
    case ReadFailed(i) => ReadEnds(c, i)
    case HandlerDone(i, ok) => HandlerReturns(c, i, ok)
  }

  // ---- what holds in every reachable state ----

  /** The message a write loop has taken from the queue and not finished. */
  function InFlight<In, Out>(c: Conn<In, Out>): seq<Out> {
    if c.writers == [] || c.writers[0].WriterSpawned? then [] else [c.writers[0].message]
  }

  /** At most one loop of each kind; close happens once; the flags mean what they say. */
  ghost predicate Disciplined<In, Out>(lim: Limits<Out>, c: Conn<In, Out>) {
    && |c.readers| <= 1 && |c.writers| <= 1
    && (c.readers != [] ==> c.started)
    && c.notices == (if c.closed then 1 else 0)
    && (c.closed ==> c.queue == [] && !c.writing)
    && (!c.closed ==>
      && (c.writing <==> c.writers != [])
      && (c.queue != [] ==> c.writing)
      && (c.started ==> c.readers != [])
      && |c.queue| <= lim.maxQueued)
  }

  /** Nothing accepted is lost, duplicated or reordered before the connection closes. */
  ghost predicate Conserved<In, Out>(c: Conn<In, Out>) {
    && c.flushed + InFlight(c) <= c.accepted
    && (!c.closed ==> c.accepted == c.flushed + InFlight(c) + c.queue)
  }

  ghost predicate WireExact<In, Out(!new)>(lim: Limits<Out>, c: Conn<In, Out>) {
    && AllEncodable(lim.proto, lim.maxBytes, c.flushed)
    && AllEncodable(lim.proto, lim.maxBytes, InFlight(c))
    && (c.writers != [] && !c.writers[0].WriterSpawned? ==>
      var frame := Frame(lim.proto, lim.maxBytes, c.writers[0].message);
      && Progress(c.writers[0]) <= Goal(lim, c.writers[0]) <= |frame|
      && c.wire == Frames(lim.proto, lim.maxBytes, c.flushed) + frame[..Progress(c.writers[0])])
    && (!c.closed && InFlight(c) == [] ==> c.wire == Frames(lim.proto, lim.maxBytes, c.flushed))
  }

  /** Wire safety, writing side: every byte written belongs, in order, to the frames of the
      messages accepted; a stop or a failure in mid-frame only cuts the tail off. */
  ghost predicate WireSafe<In, Out>(lim: Limits<Out>, c: Conn<In, Out>) {
    c.wire <= Frames(lim.proto, lim.maxBytes, c.accepted)
  }

  ghost predicate Valid<In, Out(!new)>(lim: Limits<Out>, c: Conn<In, Out>) {
    && lim.maxQueued >= 1
    && Disciplined(lim, c) && Conserved(c) && WireExact(lim, c) && WireSafe(lim, c)
  }

  lemma CreatedIsValid<In, Out(!new)>(lim: Limits<Out>)
    requires lim.maxQueued >= 1
    ensures Valid(lim, Created<In, Out>())
  {
  }

  // Each segment of the write side, on its own.

  lemma SendKeeps<In, Out(!new)>(lim: Limits<Out>, c: Conn<In, Out>, m: Out)
    requires Valid(lim, c)
    ensures Valid(lim, SendImpl(lim, c, m))
  {
    if !c.closed && |c.queue| < lim.maxQueued {
      var c' := SendImpl(lim, c, m);
      assert c'.accepted == c.flushed + InFlight(c) + (c.queue + [m]);
      FramesMonotone(lim.proto, lim.maxBytes, c.accepted, c'.accepted);
    }
  }

  /** The write loop has nothing in flight and is back at its head. */
  ghost predicate AtLoopHead<In, Out(!new)>(lim: Limits<Out>, c: Conn<In, Out>, i: nat) {
    && i < |c.writers| && Disciplined(lim, c)
    && AllEncodable(lim.proto, lim.maxBytes, c.flushed)
    && c.flushed <= c.accepted
    && WireSafe(lim, c)
    && (!c.closed ==> c.accepted == c.flushed + c.queue && c.wire == Frames(lim.proto, lim.maxBytes, c.flushed))
  }

  lemma WriterLoopKeeps<In, Out(!new)>(lim: Limits<Out>, c: Conn<In, Out>, i: nat)
    requires lim.maxQueued >= 1 && AtLoopHead(lim, c, i)
    ensures Valid(lim, WriterLoop(lim, c, i))
  {
    if !c.closed && c.queue != [] && Encodable(lim.proto, lim.maxBytes, c.queue[0]) {
      var m := c.queue[0];
      assert c.queue == [m] + c.queue[1..];
      assert c.accepted == c.flushed + [m] + c.queue[1..];
      var frame := Frame(lim.proto, lim.maxBytes, m);
      assert frame[..0] == [];
    }
  }

  lemma WriteFailsKeeps<In, Out(!new)>(lim: Limits<Out>, c: Conn<In, Out>, i: nat)
    requires Valid(lim, c) && i < |c.writers|
    ensures Valid(lim, WriteFails(c, i))
  {
  }

  lemma AdvanceKeepsMessage<Out>(lim: Limits<Out>, w: Writer<Out>, n: nat)
    requires !w.WriterSpawned?
    ensures var v := Advance(w, n);
      !v.WriterSpawned? && v.message == w.message && Progress(v) == Progress(w) + n && Goal(lim, v) == Goal(lim, w)
  {
  }

  /** However many bytes are taken, the wire holds the frames flushed and the part in progress. */
  lemma TakenBytes<In, Out(!new)>(lim: Limits<Out>, c: Conn<In, Out>, i: nat, n: nat)
    requires Valid(lim, c) && Enabled(lim, c, BytesTaken(i, n))
    ensures i == 0 && |c.writers| == 1
    ensures var w := c.writers[0];
      TakeBytes(lim, c, i, n) == c.(
        writers := [Advance(w, n)],
        wire := Frames(lim.proto, lim.maxBytes, c.flushed)
                + Frame(lim.proto, lim.maxBytes, w.message)[..Progress(w) + n])
  {
    var w := c.writers[0];
    SplitTake(Frames(lim.proto, lim.maxBytes, c.flushed), Frame(lim.proto, lim.maxBytes, w.message), Progress(w), n);
  }

  lemma TakeBytesKeeps<In, Out(!new)>(lim: Limits<Out>, c: Conn<In, Out>, i: nat, n: nat)
    requires Valid(lim, c) && Enabled(lim, c, BytesTaken(i, n))
    ensures Valid(lim, TakeBytes(lim, c, i, n))
  {
    TakenBytes(lim, c, i, n);
    var w := c.writers[0];
    assert InFlight(c) == [w.message] && w.message in InFlight(c);
    AdvanceKeepsMessage(lim, w, n);
    FrameWithinAccepted(lim, c, w.message, Progress(w) + n);
    WritingKeeps(lim, c, Advance(w, n));
  }

  /** The message in flight has got this far, and no further than its frame. */
  lemma WritingKeeps<In, Out(!new)>(lim: Limits<Out>, c: Conn<In, Out>, v: Writer<Out>)
    requires Valid(lim, c) && !c.closed && |c.writers| == 1 && !c.writers[0].WriterSpawned?
    requires !v.WriterSpawned? && v.message == c.writers[0].message && Encodable(lim.proto, lim.maxBytes, v.message)
    requires Progress(v) <= Goal(lim, v) <= |Frame(lim.proto, lim.maxBytes, v.message)|
    requires Frames(lim.proto, lim.maxBytes, c.flushed) + Frame(lim.proto, lim.maxBytes, v.message)[..Progress(v)]
             <= Frames(lim.proto, lim.maxBytes, c.accepted)
    ensures Valid(lim, c.(
      writers := [v],
      wire := Frames(lim.proto, lim.maxBytes, c.flushed) + Frame(lim.proto, lim.maxBytes, v.message)[..Progress(v)]))
  {
  }

  lemma SplitTake<T>(before: seq<T>, frame: seq<T>, k: nat, n: nat)
    requires k + n <= |frame|
    ensures before + frame[..k] + frame[k..k + n] == before + frame[..k + n]
  {
    assert frame[..k] + frame[k..k + n] == frame[..k + n];
  }

  /** Any part of the frame in flight, after the frames already flushed, is safe to have written. */
  lemma FrameWithinAccepted<In, Out(!new)>(lim: Limits<Out>, c: Conn<In, Out>, m: Out, k: nat)
    requires AllEncodable(lim.proto, lim.maxBytes, c.flushed) && Encodable(lim.proto, lim.maxBytes, m)
    requires c.flushed + [m] <= c.accepted
    requires k <= |Frame(lim.proto, lim.maxBytes, m)|
    ensures Frames(lim.proto, lim.maxBytes, c.flushed + [m]) ==
            Frames(lim.proto, lim.maxBytes, c.flushed) + Frame(lim.proto, lim.maxBytes, m)
    ensures Frames(lim.proto, lim.maxBytes, c.flushed) + Frame(lim.proto, lim.maxBytes, m)[..k]
            <= Frames(lim.proto, lim.maxBytes, c.accepted)
  {
    FramesAppend(lim.proto, lim.maxBytes, c.flushed, [m]);
    FramesOne(lim.proto, lim.maxBytes, m);
    FramesMonotone(lim.proto, lim.maxBytes, c.flushed + [m], c.accepted);
  }

  lemma PayloadWrittenKeeps<In, Out(!new)>(lim: Limits<Out>, c: Conn<In, Out>, i: nat)
    requires Valid(lim, c) && Enabled(lim, c, PayloadWritten(i))
    ensures Valid(lim, Step(lim, c, PayloadWritten(i)))
  {
    var m := c.writers[i].message;
    var frame := Frame(lim.proto, lim.maxBytes, m);
    assert InFlight(c) == [m];
    FrameWithinAccepted(lim, c, m, |frame|);
    assert frame[..|frame|] == frame;
    var head := c.(flushed := c.flushed + [m]);
    WriterLoopKeeps(lim, head, i);
  }

  lemma PrefixWrittenKeeps<In, Out(!new)>(lim: Limits<Out>, c: Conn<In, Out>, i: nat)
    requires Valid(lim, c) && Enabled(lim, c, PrefixWritten(i))
    ensures Valid(lim, Step(lim, c, PrefixWritten(i)))
  {
  }

  lemma TaskKeeps<In, Out(!new)>(lim: Limits<Out>, c: Conn<In, Out>, alive: bool)
    requires Valid(lim, c) && c.tasks != []
    ensures Valid(lim, RunTask(lim, c, alive))
  {
    var rest := c.(tasks := c.tasks[1..]);
    assert Valid(lim, rest);
    if alive && c.tasks[0].SendTask? {
      SendKeeps(lim, rest, c.tasks[0].message);
    }
  }

  /** Every step of the connection, from any source, keeps all of it. */
  lemma StepKeepsValid<In, Out(!new)>(lim: Limits<Out>, c: Conn<In, Out>, e: Event<In, Out>)
    requires Valid(lim, c) && Enabled(lim, c, e)
    ensures Valid(lim, Step(lim, c, e))
  {
    match e
    case Posted(_) =>
    case TaskRuns(alive) => TaskKeeps(lim, c, alive);
    case WriterBegins(i) => WriterLoopKeeps(lim, c, i);
    case BytesTaken(i, n) => TakeBytesKeeps(lim, c, i, n);
    case PrefixWritten(i) => PrefixWrittenKeeps(lim, c, i);
    case PayloadWritten(i) => PayloadWrittenKeeps(lim, c, i);
    case WriteFailed(i) => WriteFailsKeeps(lim, c, i);
    case _ => ReaderStepsKeep(lim, c, e);
  }

  lemma ReaderStepsKeep<In, Out(!new)>(lim: Limits<Out>, c: Conn<In, Out>, e: Event<In, Out>)
    requires Valid(lim, c) && Enabled(lim, c, e)
    requires e.ReaderBegins? || e.MessageRead? || e.ReadFailed? || e.HandlerDone?
    ensures Valid(lim, Step(lim, c, e))
  {
    match e
    case ReaderBegins(i) => ReaderLoopKeeps(lim, c, i);
    case MessageRead(i, m) =>
    case ReadFailed(i) => ReadEndsKeeps(lim, c, i);
    case HandlerDone(i, ok) => if ok { ReaderLoopKeeps(lim, c, i); } else { ReadEndsKeeps(lim, c, i); }
  }

  lemma ReaderLoopKeeps<In, Out(!new)>(lim: Limits<Out>, c: Conn<In, Out>, i: nat)
    requires Valid(lim, c) && i < |c.readers|
    ensures Valid(lim, ReaderLoop(c, i))
  {
  }

  lemma ReadEndsKeeps<In, Out(!new)>(lim: Limits<Out>, c: Conn<In, Out>, i: nat)
    requires Valid(lim, c) && i < |c.readers|
    ensures Valid(lim, ReadEnds(c, i))
  {
  }

  // ---- whole runs ----

  ghost predicate IsRun<In, Out>(lim: Limits<Out>, c: Conn<In, Out>, es: seq<Event<In, Out>>, last: Conn<In, Out>)
    decreases |es|
  {
    if es == [] then last == c
    else Enabled(lim, c, es[0]) && IsRun(lim, Step(lim, c, es[0]), es[1..], last)
  }

  lemma {:induction false} RunKeepsValid<In, Out(!new)>(lim: Limits<Out>, c: Conn<In, Out>, es: seq<Event<In, Out>>,
                                                 last: Conn<In, Out>)
    requires Valid(lim, c) && IsRun(lim, c, es, last)
    ensures Valid(lim, last)
    decreases |es|
  {
    if es == [] {
    } else {
      StepKeepsValid(lim, c, es[0]);
      RunKeepsValid(lim, Step(lim, c, es[0]), es[1..], last);
    }
  }

  lemma {:induction false} RunExtends<In, Out(!new)>(lim: Limits<Out>, c: Conn<In, Out>, es: seq<Event<In, Out>>,
                                              last: Conn<In, Out>, e: Event<In, Out>)
    requires IsRun(lim, c, es, last) && Enabled(lim, last, e)
    ensures IsRun(lim, c, es + [e], Step(lim, last, e))
    decreases |es|
  {
    if es == [] {
      assert [e][1..] == [];
    } else {
      assert (es + [e])[1..] == es[1..] + [e];
      RunExtends(lim, Step(lim, c, es[0]), es[1..], last, e);
    }
  }

  /** Write-queue conservation, over every run of one connection. */
  lemma WriteQueueConservation<In, Out(!new)>(lim: Limits<Out>, es: seq<Event<In, Out>>, c: Conn<In, Out>)
    requires lim.maxQueued >= 1 && IsRun(lim, Created(), es, c)
    ensures |c.writers| <= 1 && |c.readers| <= 1
    ensures |c.queue| <= lim.maxQueued && |InFlight(c)| + |c.queue| <= lim.maxQueued + 1
    ensures !c.closed ==> c.accepted == c.flushed + InFlight(c) + c.queue
    ensures !c.closed && c.queue != [] ==> c.writing
    ensures c.flushed + InFlight(c) <= c.accepted
    ensures c.notices == if c.closed then 1 else 0
  {
    CreatedIsValid<In, Out>(lim);
    RunKeepsValid(lim, Created(), es, c);
  }

  /** Wire safety, end to end over one direction of one connection: at every moment the bytes
      written are a prefix of the frames of the accepted messages, and whatever part of those
      bytes has arrived, cut anywhere, the peer decodes a prefix of the accepted messages. */
  lemma WireSafety<In, Out(!new)>(lim: Limits<Out>, es: seq<Event<In, Out>>, c: Conn<In, Out>, arrived: seq<Byte>,
                           maxRead: UInt32)
    requires lim.maxQueued >= 1 && IsRun(lim, Created(), es, c)
    requires RoundTrips(lim.proto) && arrived <= c.wire
    ensures c.wire <= Frames(lim.proto, lim.maxBytes, c.accepted)
    ensures Messages(lim.proto, maxRead, arrived) <= c.accepted
  {
    CreatedIsValid<In, Out>(lim);
    RunKeepsValid(lim, Created(), es, c);
    DecodedIsPrefix(lim.proto, lim.maxBytes, maxRead, c.accepted, arrived);
  }

  /** Closing is final: afterwards nothing is accepted, written or handed to the handler, and
      the owner is not notified again. */
  lemma ClosedIsFinal<In, Out(!new)>(lim: Limits<Out>, c: Conn<In, Out>, e: Event<In, Out>)
    requires c.closed && Enabled(lim, c, e)
    ensures var d := Step(lim, c, e);
      d.closed && d.accepted == c.accepted && d.wire == c.wire && d.received == c.received && d.notices == c.notices
  {
  }

  lemma {:induction false} ClosedStaysQuiet<In, Out(!new)>(lim: Limits<Out>, c: Conn<In, Out>,
                                                    es: seq<Event<In, Out>>, last: Conn<In, Out>)
    requires c.closed && IsRun(lim, c, es, last)
    ensures last.closed && last.accepted == c.accepted && last.wire == c.wire
    ensures last.received == c.received && last.notices == c.notices
    decreases |es|
  {
    if es == [] {
    } else {
      ClosedIsFinal(lim, c, es[0]);
      ClosedStaysQuiet(lim, Step(lim, c, es[0]), es[1..], last);
    }
  }
}
