/** What a connection does and when, exactly: which steps close it, what each of the others
    changes, and that what it accepted can always be written while it is open
    (shared/src/shared/network/Connection.hpp). */
module ConnectionLaws {
  import opened FrameCodec
  import opened Framing
  import opened ConnectionSpec

  /** The causes of a close: a stop, a message too many, a message that cannot be encoded when its
      turn comes, a failed write, a failed read, a handler that threw. */
  predicate Fatal<In, Out>(lim: Limits<Out>, c: Conn<In, Out>, e: Event<In, Out>)
    requires Enabled(lim, c, e)
  {
    match e
    case TaskRuns(alive) =>
      alive && (c.tasks[0].StopTask? || (c.tasks[0].SendTask? && |c.queue| == lim.maxQueued))
    case WriterBegins(_) => c.queue != [] && !Encodable(lim.proto, lim.maxBytes, c.queue[0])
    case PayloadWritten(_) => c.queue != [] && !Encodable(lim.proto, lim.maxBytes, c.queue[0])
    case WriteFailed(_) => true
    case ReadFailed(_) => true
    case HandlerDone(_, ok) => !ok
    case _ => false
  }

  /** In every run: a step closes an open connection exactly when it is one of the fatal ones. */
  lemma ClosesExactly<In, Out(!new)>(lim: Limits<Out>, es: seq<Event<In, Out>>, c: Conn<In, Out>, e: Event<In, Out>)
    requires lim.maxQueued >= 1 && IsRun(lim, Created(), es, c) && !c.closed && Enabled(lim, c, e)
    ensures Step(lim, c, e).closed <==> Fatal(lim, c, e)
  {
    CreatedIsValid<In, Out>(lim);
    RunKeepsValid(lim, Created(), es, c);
    FatalCloses(lim, c, e);
  }

  lemma FatalCloses<In, Out(!new)>(lim: Limits<Out>, c: Conn<In, Out>, e: Event<In, Out>)
    requires Disciplined(lim, c) && !c.closed && Enabled(lim, c, e)
    ensures Step(lim, c, e).closed <==> Fatal(lim, c, e)
  {
  }

  /** The message a task has the connection accept, if any. */
  function Sent<In, Out>(c: Conn<In, Out>, e: Event<In, Out>): seq<Out> {
    if e.TaskRuns? && e.alive && c.tasks != [] && c.tasks[0].SendTask? then [c.tasks[0].message] else []
  }

  /** What a step that leaves an open connection open changes: a message is accepted when its task
      runs and received when its read completes, and tasks run in the order posted. */
  ghost predicate TakesIn<In, Out>(c: Conn<In, Out>, e: Event<In, Out>, d: Conn<In, Out>) {
    && d.accepted == c.accepted + Sent(c, e)
    && d.received == c.received + (if e.MessageRead? then [e.message] else [])
    && (d.started <==> c.started || (e.TaskRuns? && e.alive && c.tasks != [] && c.tasks[0].StartTask?))
    && d.tasks == (match e
                   case TaskRuns(_) => if c.tasks == [] then [] else c.tasks[1..]
                   case Posted(task) => c.tasks + [task]
                   case _ => c.tasks)
  }

  /** A message leaves the queue when the write loop comes to it, in order, and counts as written
      when its last byte was taken. */
  ghost predicate WritesOn<In, Out>(c: Conn<In, Out>, e: Event<In, Out>, d: Conn<In, Out>) {
    && d.flushed == c.flushed + (if e.PayloadWritten? then InFlight(c) else [])
    && if e.WriterBegins? || e.PayloadWritten?
       then InFlight(d) + d.queue == c.queue && (c.queue != [] ==> InFlight(d) != [])
       else InFlight(d) == InFlight(c) && d.queue == c.queue + Sent(c, e)
  }

  /** In every run, a step that does not close an open connection does this and nothing else. */
  lemma OpenStepsProgress<In, Out(!new)>(lim: Limits<Out>, es: seq<Event<In, Out>>, c: Conn<In, Out>, e: Event<In, Out>)
    requires lim.maxQueued >= 1 && IsRun(lim, Created(), es, c) && !c.closed && Enabled(lim, c, e) && !Fatal(lim, c, e)
    ensures TakesIn(c, e, Step(lim, c, e)) && WritesOn(c, e, Step(lim, c, e))
  {
    CreatedIsValid<In, Out>(lim);
    RunKeepsValid(lim, Created(), es, c);
    OpenStepTakesIn(lim, c, e);
    OpenStepWrites(lim, c, e);
  }

  lemma OpenStepTakesIn<In, Out(!new)>(lim: Limits<Out>, c: Conn<In, Out>, e: Event<In, Out>)
    requires Disciplined(lim, c) && !c.closed && Enabled(lim, c, e) && !Fatal(lim, c, e)
    ensures TakesIn(c, e, Step(lim, c, e))
  {
  }

  lemma OpenStepWrites<In, Out(!new)>(lim: Limits<Out>, c: Conn<In, Out>, e: Event<In, Out>)
    requires Disciplined(lim, c) && !c.closed && Enabled(lim, c, e) && !Fatal(lim, c, e)
    ensures WritesOn(c, e, Step(lim, c, e))
  {
    if e.WriterBegins? {
      LoopHeadTakesNext(lim, c, 0);
    } else if e.PayloadWritten? {
      LoopHeadTakesNext(lim, c.(flushed := c.flushed + [c.writers[0].message]), 0);
    } else if e.TaskRuns? {
      OpenTaskWrites(lim, c, e.alive);
    } else {
      OtherStepWrites(lim, c, e);
    }
  }

  lemma OpenTaskWrites<In, Out(!new)>(lim: Limits<Out>, c: Conn<In, Out>, alive: bool)
    requires Disciplined(lim, c) && !c.closed && c.tasks != [] && !RunTask(lim, c, alive).closed
    ensures WritesOn(c, TaskRuns(alive), RunTask(lim, c, alive))
  {
    var d := RunTask(lim, c, alive);
    assert d.flushed == c.flushed == c.flushed + [];
    assert d.queue == c.queue + Sent(c, TaskRuns(alive));
    assert InFlight(d) == InFlight(c);
  }

  lemma OtherStepWrites<In, Out(!new)>(lim: Limits<Out>, c: Conn<In, Out>, e: Event<In, Out>)
    requires |c.writers| <= 1 && !c.closed && Enabled(lim, c, e) && !Fatal(lim, c, e)
    requires !e.WriterBegins? && !e.PayloadWritten? && !e.TaskRuns?
    ensures WritesOn(c, e, Step(lim, c, e))
  {
  }

  lemma LoopHeadTakesNext<In, Out(!new)>(lim: Limits<Out>, c: Conn<In, Out>, i: nat)
    requires !c.closed && |c.writers| == 1 && i == 0
    requires c.queue != [] ==> Encodable(lim.proto, lim.maxBytes, c.queue[0])
    ensures var d := WriterLoop(lim, c, i);
      InFlight(d) + d.queue == c.queue && (c.queue != [] ==> InFlight(d) != []) && d.flushed == c.flushed
  {
    if c.queue != [] {
      assert [c.queue[0]] + c.queue[1..] == c.queue;
    }
  }

  /** A message sent while the connection is open and its queue has room is accepted, whatever the
      queue already holds; with the queue full the connection closes instead. */
  lemma SendTaskExactly<In, Out(!new)>(lim: Limits<Out>, es: seq<Event<In, Out>>, c: Conn<In, Out>, m: Out)
    requires lim.maxQueued >= 1 && IsRun(lim, Created(), es, c) && !c.closed
    requires c.tasks != [] && c.tasks[0] == SendTask(m)
    ensures var d := Step(lim, c, TaskRuns(true));
      if |c.queue| == lim.maxQueued then d.closed && d.accepted == c.accepted
      else !d.closed && d.accepted == c.accepted + [m] && d.queue == c.queue + [m] && d.writers != []
  {
    CreatedIsValid<In, Out>(lim);
    RunKeepsValid(lim, Created(), es, c);
    StepKeepsValid(lim, c, TaskRuns(true));
  }

  /** Once closed, a loop that is resumed ends, and tasks still leave the strand. */
  lemma ClosedLoopsEnd<In, Out(!new)>(lim: Limits<Out>, c: Conn<In, Out>, e: Event<In, Out>)
    requires Disciplined(lim, c) && c.closed && Enabled(lim, c, e)
    ensures var d := Step(lim, c, e);
      && (e.ReaderBegins? || e.MessageRead? || e.ReadFailed? || e.HandlerDone? ==>
           d.readers == [] && d.writers == c.writers)
      && (e.WriterBegins? || e.PayloadWritten? || e.WriteFailed? ==>
           d.writers == [] && d.readers == c.readers)
      && (e.TaskRuns? ==> d == c.(tasks := c.tasks[1..]))
  {
  }

  /** Where the read loop is after a step that leaves the connection open: it handles what it read,
      reads again when it started or its handler returned, and is otherwise where it was. */
  ghost predicate ReadsOn<In, Out>(c: Conn<In, Out>, e: Event<In, Out>, d: Conn<In, Out>) {
    match e
    case MessageRead(_, m) => d.readers == [Handling(m)]
    case ReaderBegins(_) => d.readers == [Reading]
    case HandlerDone(_, _) => d.readers == [Reading]
    case TaskRuns(alive) =>
      d.readers == if alive && c.tasks != [] && c.tasks[0].StartTask? && !c.started then [ReaderSpawned] else c.readers
    case _ => d.readers == c.readers
  }

  lemma OpenConnectionsRead<In, Out(!new)>(lim: Limits<Out>, es: seq<Event<In, Out>>, c: Conn<In, Out>,
                                    e: Event<In, Out>)
    requires lim.maxQueued >= 1 && IsRun(lim, Created(), es, c) && !c.closed && Enabled(lim, c, e) && !Fatal(lim, c, e)
    ensures ReadsOn(c, e, Step(lim, c, e))
  {
    CreatedIsValid<In, Out>(lim);
    RunKeepsValid(lim, Created(), es, c);
    RunStartsOnce(lim, Created(), es, c);
    OpenStepReads(lim, c, e);
  }

  /** Before it is started a connection has no read loop. */
  lemma {:induction false} RunStartsOnce<In, Out(!new)>(lim: Limits<Out>, c: Conn<In, Out>, es: seq<Event<In, Out>>,
                                                        last: Conn<In, Out>)
    requires Disciplined(lim, c) && Valid(lim, c) && IsRun(lim, c, es, last)
    ensures !last.started ==> last.readers == []
    decreases |es|
  {
    if es == [] {
    } else {
      StepKeepsValid(lim, c, es[0]);
      RunStartsOnce(lim, Step(lim, c, es[0]), es[1..], last);
    }
  }

  lemma OpenStepReads<In, Out(!new)>(lim: Limits<Out>, c: Conn<In, Out>, e: Event<In, Out>)
    requires Disciplined(lim, c) && (!c.started ==> c.readers == [])
    requires !c.closed && Enabled(lim, c, e) && !Fatal(lim, c, e)
    ensures ReadsOn(c, e, Step(lim, c, e))
  {
  }

  // ---- everything accepted can be written ----

  lemma RunBegins<In, Out(!new)>(lim: Limits<Out>, c: Conn<In, Out>, e: Event<In, Out>, es: seq<Event<In, Out>>,
                                 last: Conn<In, Out>)
    requires Enabled(lim, c, e) && IsRun(lim, Step(lim, c, e), es, last)
    ensures IsRun(lim, c, [e] + es, last)
  {
    assert ([e] + es)[1..] == es;
  }

  /** How far the write loop is from its end. */
  ghost function StillToWrite<In, Out(!new)>(lim: Limits<Out>, c: Conn<In, Out>): nat {
    6 * |c.queue| +
    if c.writers == [] then 0
    else match c.writers[0]
      case WriterSpawned => 5
      case WritingPrefix(_, sent) => if sent < PREFIX_SIZE then 4 else 3
      case WritingPayload(_, _) => if Progress(c.writers[0]) < Goal(lim, c.writers[0]) then 2 else 1
  }

  ghost predicate Finished<In, Out(!new)>(lim: Limits<Out>, c: Conn<In, Out>, d: Conn<In, Out>) {
    && !d.closed && d.queue == [] && d.writers == [] && d.accepted == c.accepted && d.flushed == c.accepted
    && d.wire == Frames(lim.proto, lim.maxBytes, c.accepted)
  }

  /** The event a running write loop waits for: it begins, the transport takes what is left of the
      buffer, or the write of that buffer completes. */
  function Awaited<In, Out>(lim: Limits<Out>, c: Conn<In, Out>): Event<In, Out>
    requires c.writers != []
  {
    var w := c.writers[0];
    match w
    case WriterSpawned => WriterBegins(0)
    case WritingPrefix(_, sent) => if sent < PREFIX_SIZE then BytesTaken(0, PREFIX_SIZE - sent) else PrefixWritten(0)
    case WritingPayload(_, _) =>
      if Progress(w) < Goal(lim, w) then BytesTaken(0, Goal(lim, w) - Progress(w)) else PayloadWritten(0)
  }

  lemma WriterGoesOn<In, Out(!new)>(lim: Limits<Out>, c: Conn<In, Out>)
    requires Valid(lim, c) && !c.closed && AllEncodable(lim.proto, lim.maxBytes, c.queue) && c.writers != []
    ensures Enabled(lim, c, Awaited(lim, c))
    ensures var d := Step(lim, c, Awaited(lim, c));
      && Valid(lim, d) && !d.closed && AllEncodable(lim.proto, lim.maxBytes, d.queue) && d.accepted == c.accepted
      && StillToWrite(lim, d) < StillToWrite(lim, c)
  {
    assert InFlight(c) != [] ==> c.writers[0].message in InFlight(c);
    StepKeepsValid(lim, c, Awaited(lim, c));
  }

  /** From any open state whose queue can be encoded, the write loop can get everything accepted
      onto the wire: no step it needs is ever missing. */
  lemma {:induction false} EverythingCanBeWritten<In, Out(!new)>(lim: Limits<Out>, c: Conn<In, Out>)
      returns (es: seq<Event<In, Out>>, d: Conn<In, Out>)
    requires Valid(lim, c) && !c.closed && AllEncodable(lim.proto, lim.maxBytes, c.queue)
    ensures IsRun(lim, c, es, d) && Finished(lim, c, d)
    decreases StillToWrite(lim, c)
  {
    if c.writers == [] {
      es, d := [], c;
    } else {
      var e := Awaited(lim, c);
      WriterGoesOn(lim, c);
      es, d := EverythingCanBeWritten(lim, Step(lim, c, e));
      RunBegins(lim, c, e, es, d);
      es := [e] + es;
    }
  }
}
