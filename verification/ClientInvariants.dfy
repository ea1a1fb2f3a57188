/** What holds in every reachable state of the client, whatever the interleaving. */
module ClientInvariants {
  import opened Prelude
  import opened ConnectionSpec
  import opened Protocol
  import opened RequestTable
  import opened RequestCalls
  import opened DisconnectCalls
  import opened ClientSpec

  ghost predicate ConnsValid(cfg: Config, s: Client) {
    cfg.lim.maxQueued >= 1 && forall g | 0 <= g < |s.conns| :: Valid(cfg.lim, s.conns[g])
  }

  /** The two managers agree at every step boundary. Disconnected: neither a socket nor a
      connection; Connecting: only the socket; Connected: only the connection; Disconnecting:
      exactly one of the two. There is a connect() coroutine exactly when there is a socket. */
  ghost predicate Coupled(s: Client) {
    && s.connecting == (if s.socket then 1 else 0)
    && (match s.state
        case Disconnected => !s.socket && s.manager.connection == None
        case Connecting => s.socket && s.manager.connection == None
        case Connected => !s.socket && s.manager.connection.Some?
        case Disconnecting => s.socket <==> s.manager.connection == None)
    && (s.manager.onClosed <==> s.manager.connection.Some?)
  }

  /** Only the newest connection can be current, every other one is closed, and the only close
      notice ever outstanding is the current connection's, posted when it closed. */
  ghost predicate OneLive(s: Client) {
    && (s.manager.connection.Some? ==> s.manager.connection.value + 1 == |s.conns|)
    && (forall g | 0 <= g < |s.conns| :: s.manager.connection == Some(g) || s.conns[g].closed)
    && s.closes == (if s.manager.connection.Some? && s.conns[s.manager.connection.value].closed
                    then [s.manager.connection.value] else [])
  }

  /** A disconnecting client whose connection is still open has its stop on the strand. */
  ghost predicate StopPosted(s: Client)
    requires OneLive(s)
  {
    s.state == Disconnecting && s.manager.connection.Some? ==>
      s.conns[s.manager.connection.value].closed || StopTask in s.conns[s.manager.connection.value].tasks
  }

  ghost predicate LinkValid(cfg: Config, s: Client) {
    ConnsValid(cfg, s) && Coupled(s) && OneLive(s) && StopPosted(s)
  }

  lemma InitLink(cfg: Config)
    requires cfg.lim.maxQueued >= 1
    ensures LinkValid(cfg, Init())
  {
  }

  /** What a step of one connection can do to the facts the managers rely on. */
  lemma ConnStepFacts(lim: Limits<ClientMessage>, c: ClientConn, e: ClientEvent)
    requires Enabled(lim, c, e)
    ensures var d := ConnectionSpec.Step(lim, c, e);
      && (c.closed ==> d.closed)
      && (d.notices > c.notices <==> d.closed && !c.closed)
  {
  }

  lemma StopStaysPosted(lim: Limits<ClientMessage>, c: ClientConn, e: ClientEvent)
    requires Enabled(lim, c, e) && (e.TaskRuns? ==> e.alive)
    requires StopTask in c.tasks && !c.closed
    ensures var d := ConnectionSpec.Step(lim, c, e);
      d.closed || (StopTask in d.tasks && StopIndex(d.tasks) <= StopIndex(c.tasks))
    ensures e.TaskRuns? ==>
      var d := ConnectionSpec.Step(lim, c, e);
      d.closed || StopIndex(d.tasks) < StopIndex(c.tasks)
  {
    match e
    case TaskRuns(_) =>
      assert c.tasks == [c.tasks[0]] + c.tasks[1..];
    case Posted(task) => StopIndexAppend(c.tasks, task);
    case _ => assert ConnectionSpec.Step(lim, c, e).tasks == c.tasks;
  }

  /** How many tasks are ahead of the first stop. */
  function StopIndex(tasks: seq<Task<ClientMessage>>): nat {
    if tasks == [] || tasks[0].StopTask? then 0 else 1 + StopIndex(tasks[1..])
  }

  lemma {:induction false} StopIndexAppend(tasks: seq<Task<ClientMessage>>, task: Task<ClientMessage>)
    requires StopTask in tasks
    ensures StopIndex(tasks + [task]) == StopIndex(tasks)
  {
    if !tasks[0].StopTask? {
      assert (tasks + [task])[1..] == tasks[1..] + [task];
      StopIndexAppend(tasks[1..], task);
    }
  }

  lemma LinkAfterConnStep(cfg: Config, s: Client, g: nat, c: ClientConn)
    requires LinkValid(cfg, s) && g < |s.conns| && Valid(cfg.lim, c)
    requires s.conns[g].closed ==> c.closed
    requires c.notices > s.conns[g].notices <==> c.closed && !s.conns[g].closed
    requires StopTask in s.conns[g].tasks && s.manager.connection == Some(g) && !s.conns[g].closed ==>
      c.closed || StopTask in c.tasks
    ensures LinkValid(cfg, s.(conns := s.conns[g := c],
                              closes := if c.notices > s.conns[g].notices then s.closes + [g] else s.closes))
  {
  }

  lemma ConnStepKeepsLink(cfg: Config, s: Client, g: nat, e: ClientEvent)
    requires LinkValid(cfg, s) && g < |s.conns| && Enabled(cfg.lim, s.conns[g], e)
    requires e.TaskRuns? ==> e.alive == Alive(s, g)
    ensures LinkValid(cfg, ConnStep(cfg, s, g, e))
  {
    StepKeepsValid(cfg.lim, s.conns[g], e);
    ConnStepFacts(cfg.lim, s.conns[g], e);
    if s.manager.connection == Some(g) && StopTask in s.conns[g].tasks && !s.conns[g].closed {
      StopStaysPosted(cfg.lim, s.conns[g], e);
    }
    LinkAfterConnStep(cfg, s, g, ConnectionSpec.Step(cfg.lim, s.conns[g], e));
  }

  lemma PostKeepsLink(cfg: Config, s: Client, task: Task<ClientMessage>)
    requires ConnsValid(cfg, s) && Coupled(s) && OneLive(s)
    requires StopPosted(s) || task == StopTask
    ensures LinkValid(cfg, PostTo(s, s.manager.connection, task))
  {
    if s.manager.connection.Some? {
      var g := s.manager.connection.value;
      StepKeepsValid(cfg.lim, s.conns[g], Posted(task));
    }
  }

  lemma NewConnIsValid(lim: Limits<ClientMessage>)
    requires lim.maxQueued >= 1
    ensures Valid(lim, Post(Created<ServerMessage, ClientMessage>(), StartTask))
  {
    CreatedIsValid<ServerMessage, ClientMessage>(lim);
    StepKeepsValid(lim, Created<ServerMessage, ClientMessage>(), Posted(StartTask));
  }

  lemma ConnectFinishedKeepsLink(cfg: Config, s: Client, failed: bool)
    requires LinkValid(cfg, s) && s.connecting > 0
    ensures LinkValid(cfg, ConnectFinished(s, failed))
  {
    NewConnIsValid(cfg.lim);
    var t := ConnectFinished(s, failed);
    assert ConnsValid(cfg, t);
    assert Coupled(t);
  }

  lemma DisconnectKeepsLink(cfg: Config, s: Client)
    requires LinkValid(cfg, s)
    ensures LinkValid(cfg, Disconnect(s))
  {
    if s.state == Connected {
      var t := SetState(s.(waits := Begin(s.waits, false)), Disconnecting).(
        manager := Stop(s.manager, CLIENT_DISCONNECTED));
      PostKeepsLink(cfg, t, StopTask);
    }
  }

  lemma SendKeepsLink(cfg: Config, s: Client, r: Request)
    requires LinkValid(cfg, s)
    ensures LinkValid(cfg, SendRequest(cfg, s, r))
  {
    var (m, k) := Called(s.manager, s.calls, cfg.maxPending, r);
    PostKeepsLink(cfg, s.(manager := m, calls := k), SendTask(MessageFor(m.nextRequestId, r)));
  }

  lemma ConnectKeepsLink(cfg: Config, s: Client)
    requires LinkValid(cfg, s)
    ensures LinkValid(cfg, Connect(s))
  {
  }

  lemma CloseKeepsLink(cfg: Config, s: Client)
    requires LinkValid(cfg, s) && s.closes != []
    ensures LinkValid(cfg, CloseTask(s))
  {
  }

  lemma ReceiveKeepsLink(cfg: Config, s: Client, g: nat, i: nat)
    requires LinkValid(cfg, s) && CanStep(cfg, s, ReceiveRuns(g, i))
    ensures LinkValid(cfg, Next(cfg, s, ReceiveRuns(g, i)))
  {
    var t := s.(manager := Receive(s.manager, s.conns[g].readers[i].message));
    SameLinkKeeps(cfg, s, t);
    ConnStepKeepsLink(cfg, t, g, HandlerDone(i, true));
  }

  /** Nothing the link depends on has changed. */
  ghost predicate SameLink(s: Client, t: Client) {
    && t.state == s.state && t.socket == s.socket && t.connecting == s.connecting
    && t.conns == s.conns && t.closes == s.closes
    && t.manager.connection == s.manager.connection && t.manager.onClosed == s.manager.onClosed
  }

  lemma SameLinkKeeps(cfg: Config, s: Client, t: Client)
    requires LinkValid(cfg, s) && SameLink(s, t)
    ensures LinkValid(cfg, t)
  {
  }

  lemma QuietStepIsSame(cfg: Config, s: Client, step: Step)
    requires CanStep(cfg, s, step) && (step.DisconnectResumes? || step.TimerExpires? || step.SenderResumes?)
    ensures SameLink(s, Next(cfg, s, step))
  {
  }

  lemma NextKeepsLink(cfg: Config, s: Client, step: Step)
    requires LinkValid(cfg, s) && CanStep(cfg, s, step)
    ensures LinkValid(cfg, Next(cfg, s, step))
  {
    match step
    case ConnectCalled => ConnectKeepsLink(cfg, s);
    case ConnectResumes(failed) => ConnectFinishedKeepsLink(cfg, s, failed);
    case DisconnectCalled => DisconnectKeepsLink(cfg, s);
    case SendCalled(r) => SendKeepsLink(cfg, s, r);
    case CloseTaskRuns => CloseKeepsLink(cfg, s);
    case ConnRuns(g, e) => ConnStepKeepsLink(cfg, s, g, e);
    case ReceiveRuns(g, i) => ReceiveKeepsLink(cfg, s, g, i);
    case _ =>
      QuietStepIsSame(cfg, s, step);
      SameLinkKeeps(cfg, s, Next(cfg, s, step));
  }

  // ---- consequences for the link ----

  /** No stale close: a posted close notice is always the current connection's, so it never
      resets or fails the requests of a later one. */
  lemma NoStaleClose(cfg: Config, s: Client)
    requires LinkValid(cfg, s) && CanStep(cfg, s, CloseTaskRuns)
    ensures s.manager.connection == Some(s.closes[0]) && s.conns[s.closes[0]].closed
    ensures var t := Next(cfg, s, CloseTaskRuns);
      t.state == Disconnected && t.closes == [] && t.manager.connection == None
  {
  }

  /** The state changes only along the designed edges, and start() never finds a connection. */
  lemma DesignedTransitions(cfg: Config, s: Client, step: Step)
    requires LinkValid(cfg, s) && CanStep(cfg, s, step)
    ensures var t := Next(cfg, s, step);
      s.state == t.state || (s.state, t.state) in {
        (Disconnected, Connecting), (Connecting, Connected), (Connecting, Disconnected),
        (Connecting, Disconnecting), (Connected, Disconnecting), (Connected, Disconnected),
        (Disconnecting, Disconnected)}
    ensures step == ConnectResumes(false) && s.state == Connecting ==>
      RequestTable.Start(s.manager, |s.conns|).Ok? && Next(cfg, s, step).state == Connected
  {
  }

  // ---- disconnect never hangs ----

  /** Waiting for the timer means the client is disconnecting; being released, or having returned,
      means it has been disconnected since the call began. */
  ghost predicate WaitersValid(s: Client) {
    WaitsValid(s.waits, s.state == Disconnecting)
  }

  lemma NextKeepsWaiters(cfg: Config, s: Client, step: Step)
    requires LinkValid(cfg, s) && WaitersValid(s) && CanStep(cfg, s, step)
    ensures WaitersValid(Next(cfg, s, step))
  {
    NextMovesWaits(cfg, s, step);
    var disconnecting := s.state == Disconnecting;
    match step
    case DisconnectCalled => BeginKeeps(s.waits, s.state == Disconnected, disconnecting);
    case DisconnectResumes(w) => ReturnKeeps(s.waits, w, disconnecting);
    case _ =>
      if s.state != Disconnected {
        ReachedKeeps(s.waits, disconnecting);
      }
  }

  /** What a step does to the disconnect() calls: a call is counted when it is made, one returns
      when it is resumed, and the others only notice when the state becomes Disconnected. */
  lemma NextMovesWaits(cfg: Config, s: Client, step: Step)
    requires LinkValid(cfg, s) && CanStep(cfg, s, step)
    ensures var t := Next(cfg, s, step);
      match step
      case DisconnectCalled =>
        t.waits == Begin(s.waits, s.state == Disconnected) && (t.state == Disconnecting <==> s.state != Disconnected)
      case DisconnectResumes(w) => t.waits == Return(s.waits, w) && t.state == s.state
      case _ =>
        if s.state != Disconnected && t.state == Disconnected then t.waits == Reached(s.waits, s.state == Disconnecting)
        else t.waits == s.waits && (t.state == Disconnecting <==> s.state == Disconnecting)
  {
  }

  /** A step that brings a disconnecting client closer: the connect() that was interrupted
      resumes, the strand of its connection runs its next task, or its close notice runs. */
  ghost predicate Helpful(s: Client, step: Step)
    requires OneLive(s)
  {
    s.state == Disconnecting &&
    match s.manager.connection
    case None => step.ConnectResumes?
    case Some(g) => if s.conns[g].closed then step.CloseTaskRuns? else step == ConnRuns(g, TaskRuns(true))
  }

  /** How many helpful steps are left at most. */
  ghost function Remaining(s: Client): nat
    requires OneLive(s)
  {
    if s.state != Disconnecting then 0 else
    match s.manager.connection
    case None => 1
    case Some(g) => if s.conns[g].closed then 1 else 2 + StopIndex(s.conns[g].tasks)
  }

  lemma HelpIsAvailable(cfg: Config, s: Client) returns (step: Step)
    requires LinkValid(cfg, s) && s.state == Disconnecting
    ensures CanStep(cfg, s, step) && Helpful(s, step)
  {
    match s.manager.connection
    case None => step := ConnectResumes(true);
    case Some(g) => step := if s.conns[g].closed then CloseTaskRuns else ConnRuns(g, TaskRuns(true));
  }

  /** No step, of anyone, moves a disconnecting client away from Disconnected, and a helpful
      one gets it strictly closer or there. */
  lemma StepsConverge(cfg: Config, s: Client, step: Step)
    requires LinkValid(cfg, s) && CanStep(cfg, s, step) && s.state == Disconnecting
    ensures LinkValid(cfg, Next(cfg, s, step))
    ensures var t := Next(cfg, s, step);
      t.state == Disconnected ||
      (t.state == Disconnecting && Remaining(t) + (if Helpful(s, step) then 1 else 0) <= Remaining(s))
  {
    NextKeepsLink(cfg, s, step);
    match step
    case ConnRuns(g, e) => ConnConverges(cfg, s, g, e);
    case ReceiveRuns(g, i) =>
      var t := s.(manager := Receive(s.manager, s.conns[g].readers[i].message));
      ConnConverges(cfg, t, g, HandlerDone(i, true));
    case SendCalled(r) => SendConverges(cfg, s, r);
    case DisconnectResumes(_) => QuietStepIsSame(cfg, s, step);
    case TimerExpires(_) => QuietStepIsSame(cfg, s, step);
    case SenderResumes(_) => QuietStepIsSame(cfg, s, step);
    case _ =>
  }

  lemma SendConverges(cfg: Config, s: Client, r: Request)
    requires LinkValid(cfg, s) && s.state == Disconnecting
    ensures var t := SendRequest(cfg, s, r);
      t.state == Disconnecting && OneLive(t) && Remaining(t) <= Remaining(s)
  {
    SendKeepsLink(cfg, s, r);
    if s.manager.connection.Some? && !s.conns[s.manager.connection.value].closed {
      var g := s.manager.connection.value;
      var id := Called(s.manager, s.calls, cfg.maxPending, r).0.nextRequestId;
      StopIndexAppend(s.conns[g].tasks, SendTask(MessageFor(id, r)));
    }
  }

  lemma ConnConverges(cfg: Config, s: Client, g: nat, e: ClientEvent)
    requires LinkValid(cfg, s) && s.state == Disconnecting
    requires g < |s.conns| && Enabled(cfg.lim, s.conns[g], e)
    requires e.TaskRuns? ==> e.alive == Alive(s, g)
    ensures var t := ConnStep(cfg, s, g, e);
      LinkValid(cfg, t) && Remaining(t) + (if Helpful(s, ConnRuns(g, e)) then 1 else 0) <= Remaining(s)
  {
    ConnStepKeepsLink(cfg, s, g, e);
    ConnStepFacts(cfg.lim, s.conns[g], e);
    if s.manager.connection == Some(g) && !s.conns[g].closed {
      StopStaysPosted(cfg.lim, s.conns[g], e);
    }
  }

  ghost predicate Reaches(cfg: Config, s: Client, steps: seq<Step>, state: LinkState)
    decreases |steps|
  {
    s.state == state ||
    (steps != [] && CanStep(cfg, s, steps[0]) && Reaches(cfg, Next(cfg, s, steps[0]), steps[1..], state))
  }

  /** How many steps of a run were helpful when they were taken. */
  ghost function Helps(cfg: Config, s: Client, steps: seq<Step>): nat
    decreases |steps|
  {
    if steps == [] || !CanStep(cfg, s, steps[0]) then 0
    else (if OneLive(s) && Helpful(s, steps[0]) then 1 else 0) + Helps(cfg, Next(cfg, s, steps[0]), steps[1..])
  }

  /** Disconnect never hangs: any run that takes enough helpful steps passes through
      Disconnected, and until then one is always available (HelpIsAvailable). */
  lemma {:induction false} DisconnectNeverHangs(cfg: Config, s: Client, steps: seq<Step>, last: Client)
    requires LinkValid(cfg, s) && s.state == Disconnecting && ClientSpec.IsRun(cfg, s, steps, last)
    requires Helps(cfg, s, steps) >= Remaining(s)
    ensures Reaches(cfg, s, steps, Disconnected)
    decreases |steps|
  {
    assert Remaining(s) >= 1;
    assert steps != [];
    StepsConverge(cfg, s, steps[0]);
    var t := Next(cfg, s, steps[0]);
    if t.state == Disconnecting {
      DisconnectNeverHangs(cfg, t, steps[1..], last);
    }
  }
}
