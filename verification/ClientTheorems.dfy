/** The client's guarantees over whole runs. */
module ClientTheorems {
  import opened Prelude
  import opened Protocol
  import opened RequestTable
  import opened RequestCalls
  import opened DisconnectCalls
  import opened ClientSpec
  import opened ClientInvariants

  ghost predicate ClientValid(cfg: Config, s: Client) {
    LinkValid(cfg, s) && WaitersValid(s) && RequestsValid(s.manager, s.calls, cfg.maxPending)
  }

  lemma InitIsValid(cfg: Config)
    requires cfg.lim.maxQueued >= 1
    ensures ClientValid(cfg, Init())
  {
    InitLink(cfg);
    FreshIsValid(cfg.maxPending);
  }

  /** What any step may do to the manager and the calls. */
  lemma NextManager(cfg: Config, s: Client, step: Step)
    requires CanStep(cfg, s, step)
    ensures var t := Next(cfg, s, step);
      match step
      case SendCalled(r) => (t.manager, t.calls) == Called(s.manager, s.calls, cfg.maxPending, r)
      case SenderResumes(call) => (t.manager, t.calls) == Ended(s.manager, s.calls, call)
      case TimerExpires(id) => t.manager == Expire(s.manager, id) && t.calls == s.calls
      case CloseTaskRuns => t.manager == Closed(s.manager) && t.calls == s.calls
      case DisconnectCalled =>
        t.calls == s.calls && (t.manager == s.manager || t.manager == Stop(s.manager, CLIENT_DISCONNECTED))
      case ReceiveRuns(g, i) =>
        t.manager == Receive(s.manager, s.conns[g].readers[i].message) && t.calls == s.calls
      case ConnectResumes(_) =>
        t.calls == s.calls &&
        (t.manager == s.manager ||
         (s.manager.connection == None && t.manager == RequestTable.Start(s.manager, |s.conns|).value))
      case _ => t.manager == s.manager && t.calls == s.calls
  {
  }

  lemma NextKeepsRequests(cfg: Config, s: Client, step: Step)
    requires RequestsValid(s.manager, s.calls, cfg.maxPending) && CanStep(cfg, s, step)
    requires |Next(cfg, s, step).manager.issuedTo| < UINT64_LIMIT
    ensures RequestsValid(Next(cfg, s, step).manager, Next(cfg, s, step).calls, cfg.maxPending)
  {
    NextManager(cfg, s, step);
    var m, k, max := s.manager, s.calls, cfg.maxPending;
    var m' := Next(cfg, s, step).manager;
    match step
    case SendCalled(r) => CalledKeeps(m, k, max, r);
    case SenderResumes(call) => EndedKeeps(m, k, max, call);
    case TimerExpires(id) => ExpireKeeps(m, id, max); QuietKeeps(m, m', k, max);
    case CloseTaskRuns => ClosedKeeps(m, max); QuietKeeps(m, m', k, max);
    case DisconnectCalled => StopKeeps(m, CLIENT_DISCONNECTED, max); QuietKeeps(m, m', k, max);
    case ReceiveRuns(g, i) => ReceiveKeeps(m, s.conns[g].readers[i].message, max); QuietKeeps(m, m', k, max);
    case _ => QuietKeeps(m, m', k, max);
  }

  lemma NextKeepsValid(cfg: Config, s: Client, step: Step)
    requires ClientValid(cfg, s) && CanStep(cfg, s, step)
    requires |Next(cfg, s, step).manager.issuedTo| < UINT64_LIMIT
    ensures ClientValid(cfg, Next(cfg, s, step))
  {
    NextKeepsLink(cfg, s, step);
    NextKeepsWaiters(cfg, s, step);
    NextKeepsRequests(cfg, s, step);
  }

  lemma {:induction false} IssuedGrows(cfg: Config, s: Client, steps: seq<Step>, last: Client)
    requires ClientSpec.IsRun(cfg, s, steps, last)
    ensures |s.manager.issuedTo| <= |last.manager.issuedTo|
    decreases |steps|
  {
    if steps == [] {
    } else {
      NextManager(cfg, s, steps[0]);
      IssuedGrows(cfg, Next(cfg, s, steps[0]), steps[1..], last);
    }
  }

  lemma {:induction false} RunKeepsValid(cfg: Config, s: Client, steps: seq<Step>, last: Client)
    requires ClientValid(cfg, s) && ClientSpec.IsRun(cfg, s, steps, last)
    requires |last.manager.issuedTo| < UINT64_LIMIT
    ensures ClientValid(cfg, last)
    decreases |steps|
  {
    if steps == [] {
    } else {
      var t := Next(cfg, s, steps[0]);
      IssuedGrows(cfg, t, steps[1..], last);
      NextKeepsValid(cfg, s, steps[0]);
      RunKeepsValid(cfg, t, steps[1..], last);
    }
  }

  /** Without a connection nobody is left waiting for one. */
  ghost predicate NoneWaitsAlone(m: Crm) {
    m.connection == None ==> forall id | id in m.pending :: m.pending[id].state != Waiting
  }

  lemma NextKeepsNoneWaitsAlone(cfg: Config, s: Client, step: Step)
    requires NoneWaitsAlone(s.manager) && CanStep(cfg, s, step)
    ensures NoneWaitsAlone(Next(cfg, s, step).manager)
  {
    NextManager(cfg, s, step);
  }

  /** The link between the managers, the waiters and the absence of lone requests do not depend
      on ids, so they hold in every run, however long. */
  lemma {:induction false} RunKeepsLink(cfg: Config, s: Client, steps: seq<Step>, last: Client)
    requires LinkValid(cfg, s) && WaitersValid(s) && NoneWaitsAlone(s.manager)
    requires ClientSpec.IsRun(cfg, s, steps, last)
    ensures LinkValid(cfg, last) && WaitersValid(last) && NoneWaitsAlone(last.manager)
    decreases |steps|
  {
    if steps == [] {
    } else {
      NextKeepsLink(cfg, s, steps[0]);
      NextKeepsWaiters(cfg, s, steps[0]);
      NextKeepsNoneWaitsAlone(cfg, s, steps[0]);
      RunKeepsLink(cfg, Next(cfg, s, steps[0]), steps[1..], last);
    }
  }

  /** Coupling of the two managers in every reachable state: at most one of socket and connection,
      which one is decided by the state; at most one close notice outstanding, and it belongs
      to the current connection; and without a connection nobody is left waiting for one. */
  lemma ManagersAgree(cfg: Config, steps: seq<Step>, s: Client)
    requires cfg.lim.maxQueued >= 1 && ClientSpec.IsRun(cfg, Init(), steps, s)
    ensures s.state == Disconnected ==> !s.socket && s.manager.connection == None
    ensures s.state == Connecting ==> s.socket && s.manager.connection == None
    ensures s.state == Connected ==> !s.socket && s.manager.connection.Some?
    ensures s.state == Disconnecting ==> (s.socket <==> s.manager.connection == None)
    ensures s.closes == [] || (|s.closes| == 1 && s.manager.connection == Some(s.closes[0]))
    ensures forall g | g in s.closes :: g < |s.conns| && s.conns[g].closed
    ensures s.manager.connection == None ==>
      forall id | id in s.manager.pending :: s.manager.pending[id].state != Waiting
  {
    InitLink(cfg);
    RunKeepsLink(cfg, Init(), steps, s);
  }

  /** Exactly one outcome per call, in every reachable state of every run. */
  lemma OneOutcomePerCall(cfg: Config, steps: seq<Step>, s: Client)
    requires cfg.lim.maxQueued >= 1 && ClientSpec.IsRun(cfg, Init(), steps, s)
    requires |s.manager.issuedTo| < UINT64_LIMIT
    ensures |s.manager.pending| <= cfg.maxPending
    ensures OneToOne(s.calls.senders, s.manager.pending)
    ensures forall call: nat | call < |s.calls.made| ::
      (call in s.calls.senders) != (call in Finished(s.calls.completions))
    ensures forall i, j | 0 <= i < j < |s.calls.completions| ::
      s.calls.completions[i].call != s.calls.completions[j].call
    ensures forall c | c in s.calls.completions ::
      c.outcome != StateLost && c.outcome != NoResponse && ProperOutcome(s.manager.issuedTo, c)
  {
    InitIsValid(cfg);
    RunKeepsValid(cfg, Init(), steps, s);
    forall c | c in s.calls.completions
      ensures c.outcome != StateLost && c.outcome != NoResponse && ProperOutcome(s.manager.issuedTo, c)
    {
      assert ProperOutcome(s.manager.issuedTo, c);
    }
  }

  // ---- the races for one request ----

  ghost predicate Decided(s: Client, call: nat, id: nat, verdict: SendOutcome) {
    call in s.calls.senders && s.calls.senders[call] == id && Settled(s.manager, id, call, verdict)
  }

  /** The response a step hands to receive(), if any. */
  function MessageOf(s: Client, step: Step): ServerMessage {
    if (step.ReceiveRuns? && step.conn < |s.conns| && step.reader < |s.conns[step.conn].readers|
        && s.conns[step.conn].readers[step.reader].Handling?)
    then s.conns[step.conn].readers[step.reader].message else ServerMessage(0, StatusOk, NoReply)
  }

  /** Once the timer of a request is done, be it expired or cancelled, no step but the resumption
      of its own coroutine matters to how it ends, and that one ends it so. */
  lemma VerdictStands(cfg: Config, s: Client, step: Step, call: nat, id: nat, verdict: SendOutcome)
    requires ClientValid(cfg, s) && CanStep(cfg, s, step) && Decided(s, call, id, verdict)
    requires |Next(cfg, s, step).manager.issuedTo| < UINT64_LIMIT
    ensures var t := Next(cfg, s, step);
      if step == SenderResumes(call) then Completion(call, verdict) in t.calls.completions
      else Decided(t, call, id, verdict)
  {
    NextManager(cfg, s, step);
    var other := if step.TimerExpires? then step.id else 0;
    VerdictSurvives(s.manager, id, call, verdict, other, CLIENT_DISCONNECTED, MessageOf(s, step), cfg.maxPending);
    match step
    case SendCalled(r) => AdmitKeepsDecided(s.manager, s.calls, cfg.maxPending, r, call, id, verdict);
    case SenderResumes(ended) => EndKeepsDecided(s.manager, s.calls, cfg.maxPending, ended, call, id, verdict);
    case _ =>
  }

  lemma AdmitKeepsDecided(m: Crm, k: Calls, maxPending: nat, r: Request, call: nat, id: nat, verdict: SendOutcome)
    requires RequestsValid(m, k, maxPending)
    requires call in k.senders && k.senders[call] == id && Settled(m, id, call, verdict)
    ensures var (m', k') := Called(m, k, maxPending, r);
      call in k'.senders && k'.senders[call] == id && Settled(m', id, call, verdict)
  {
  }

  lemma EndKeepsDecided(m: Crm, k: Calls, maxPending: nat, ended: nat, call: nat, id: nat, verdict: SendOutcome)
    requires RequestsValid(m, k, maxPending) && ended in k.senders
    requires call in k.senders && k.senders[call] == id && Settled(m, id, call, verdict)
    ensures var (m', k') := Ended(m, k, ended);
      if ended == call then Completion(call, verdict) in k'.completions
      else call in k'.senders && k'.senders[call] == id && Settled(m', id, call, verdict)
  {
    assert EntryValid(id, m.pending[id]);
    if ended != call {
      assert k.senders[ended] != id;
    }
  }

  /** What a call was, and how it ended, is never changed afterwards. */
  lemma CallsOnlyGrow(cfg: Config, s: Client, step: Step)
    requires CanStep(cfg, s, step)
    ensures s.calls.made <= Next(cfg, s, step).calls.made
    ensures s.calls.completions <= Next(cfg, s, step).calls.completions
  {
    NextManager(cfg, s, step);
  }

  lemma {:induction false} CompletionsKept(cfg: Config, s: Client, steps: seq<Step>, last: Client, c: Completion)
    requires ClientSpec.IsRun(cfg, s, steps, last) && c in s.calls.completions
    ensures c in last.calls.completions
    decreases |steps|
  {
    if steps == [] {
    } else {
      CallsOnlyGrow(cfg, s, steps[0]);
      CompletionsKept(cfg, Next(cfg, s, steps[0]), steps[1..], last, c);
    }
  }

  /** A decided call, over any continuation of the run: it ends with exactly that, or is still to. */
  lemma {:induction false} VerdictIsFinal(cfg: Config, s: Client, steps: seq<Step>, last: Client,
                                          call: nat, id: nat, verdict: SendOutcome)
    requires ClientValid(cfg, s) && Decided(s, call, id, verdict)
    requires ClientSpec.IsRun(cfg, s, steps, last) && |last.manager.issuedTo| < UINT64_LIMIT
    ensures Completion(call, verdict) in last.calls.completions || Decided(last, call, id, verdict)
    decreases |steps|
  {
    if steps == [] {
    } else {
      var t := Next(cfg, s, steps[0]);
      IssuedGrows(cfg, t, steps[1..], last);
      VerdictStands(cfg, s, steps[0], call, id, verdict);
      NextKeepsValid(cfg, s, steps[0]);
      if steps[0] == SenderResumes(call) {
        CompletionsKept(cfg, t, steps[1..], last, Completion(call, verdict));
      } else {
        VerdictIsFinal(cfg, t, steps[1..], last, call, id, verdict);
      }
    }
  }

  /** The call waits under this id, and nobody has settled it yet. */
  ghost predicate Undecided(s: Client, call: nat, id: nat) {
    && call in s.calls.senders && s.calls.senders[call] == id
    && id in s.manager.pending && s.manager.pending[id].owner == call && s.manager.pending[id].timer == Armed
  }

  /** With what a step settles the request waiting under this id, if it does: its deadline passes,
      its response is received, the client disconnects, or the close of the connection arrives. */
  function Settler(s: Client, step: Step, id: nat): Option<SendOutcome> {
    match step
    case TimerExpires(expired) => if expired == id then Some(TimedOut) else None
    case ReceiveRuns(_, _) => if MessageOf(s, step).requestId == id then Some(Response(MessageOf(s, step))) else None
    case DisconnectCalled => if s.state == Connected then Some(RequestFailed("client disconnected")) else None
    case CloseTaskRuns => Some(RequestFailed("Connection closed before response was received"))
    case _ => None
  }

  lemma SettlerDecides(cfg: Config, s: Client, step: Step, call: nat, id: nat)
    requires RequestsValid(s.manager, s.calls, cfg.maxPending) && (s.state == Connected ==> s.manager.connection.Some?)
    requires CanStep(cfg, s, step) && Undecided(s, call, id)
    ensures match Settler(s, step, id)
      case Some(verdict) => Decided(Next(cfg, s, step), call, id, verdict)
      case None => Undecided(Next(cfg, s, step), call, id)
  {
    match step
    case SendCalled(r) =>
      NextManager(cfg, s, step);
      CallLeavesUndecided(s.manager, s.calls, cfg.maxPending, r, call, id);
    case SenderResumes(ended) =>
      NextManager(cfg, s, step);
      EndLeavesUndecided(s.manager, s.calls, cfg.maxPending, ended, call, id);
    case _ => SettlingStep(cfg, s, step, call, id);
  }

  /** The steps that neither make nor finish a call. */
  lemma SettlingStep(cfg: Config, s: Client, step: Step, call: nat, id: nat)
    requires TableValid(s.manager, cfg.maxPending) && (s.state == Connected ==> s.manager.connection.Some?)
    requires CanStep(cfg, s, step) && !step.SendCalled? && !step.SenderResumes? && Undecided(s, call, id)
    ensures match Settler(s, step, id)
      case Some(verdict) => Decided(Next(cfg, s, step), call, id, verdict)
      case None => Undecided(Next(cfg, s, step), call, id)
  {
    NextManager(cfg, s, step);
    var expired := if step.TimerExpires? then step.id else 0;
    SettlersOf(s.manager, cfg.maxPending, id, expired, CLIENT_DISCONNECTED, MessageOf(s, step));
  }

  lemma CallLeavesUndecided(m: Crm, k: Calls, maxPending: nat, r: Request, call: nat, id: nat)
    requires RequestsValid(m, k, maxPending) && call in k.senders && id in m.pending
    ensures var (m', k') := Called(m, k, maxPending, r);
      call in k'.senders && k'.senders[call] == k.senders[call] && id in m'.pending && m'.pending[id] == m.pending[id]
  {
  }

  lemma EndLeavesUndecided(m: Crm, k: Calls, maxPending: nat, ended: nat, call: nat, id: nat)
    requires RequestsValid(m, k, maxPending) && ended in k.senders && call in k.senders && ended != call
    requires k.senders[call] == id
    ensures var (m', k') := Ended(m, k, ended);
      call in k'.senders && k'.senders[call] == id && id in m'.pending && m'.pending[id] == m.pending[id]
  {
    assert k.senders[ended] != id;
  }

  /** The first of response, timeout, local stop and remote close to settle a request decides its
      outcome. Reachable, the request waits; a step settles it as Settler says, or leaves it
      waiting; and whatever happens afterwards, the call ends with exactly that, or is still to. */
  lemma FirstSettlerWins(cfg: Config, before: seq<Step>, s: Client, step: Step, after: seq<Step>, last: Client,
                         call: nat, id: nat)
    requires cfg.lim.maxQueued >= 1 && ClientSpec.IsRun(cfg, Init(), before, s)
    requires Undecided(s, call, id) && CanStep(cfg, s, step)
    requires ClientSpec.IsRun(cfg, Next(cfg, s, step), after, last) && |last.manager.issuedTo| < UINT64_LIMIT
    ensures match Settler(s, step, id)
      case Some(verdict) => Completion(call, verdict) in last.calls.completions || Decided(last, call, id, verdict)
      case None => Undecided(Next(cfg, s, step), call, id)
  {
    var t := Next(cfg, s, step);
    IssuedGrows(cfg, t, after, last);
    IssuedGrows(cfg, s, [step], t);
    InitIsValid(cfg);
    RunKeepsValid(cfg, Init(), before, s);
    SettlerDecides(cfg, s, step, call, id);
    NextKeepsValid(cfg, s, step);
    var settler := Settler(s, step, id);
    if settler.Some? {
      VerdictIsFinal(cfg, t, after, last, call, id, settler.value);
    }
  }

  // ---- joined disconnects ----

  /** In every reachable state each disconnect() ever called is suspended or has returned, not both
      and not twice. It has returned only if the client was Disconnected when it began or has been
      since, even when a new connect cycle is under way by then; and outside Disconnecting every
      suspended one can return. */
  lemma DisconnectReturnsAfterDisconnected(cfg: Config, steps: seq<Step>, s: Client)
    requires cfg.lim.maxQueued >= 1 && ClientSpec.IsRun(cfg, Init(), steps, s)
    ensures forall call: nat | call < |s.waits.begun| ::
      (call in Suspended(s.waits.waiters)) != (call in s.waits.returned)
    ensures forall call | call in s.waits.returned :: 0 <= call < |s.waits.begun| && Due(s.waits, call)
    ensures forall i, j | 0 <= i < j < |s.waits.returned| :: s.waits.returned[i] != s.waits.returned[j]
    ensures forall w: nat | w < |s.waits.waiters| && s.state != Disconnecting :: CanStep(cfg, s, DisconnectResumes(w))
  {
    InitLink(cfg);
    RunKeepsLink(cfg, Init(), steps, s);
    forall call: nat | call < |s.waits.begun|
      ensures (call in Suspended(s.waits.waiters)) != (call in s.waits.returned)
    {
      if call in Suspended(s.waits.waiters) {
        var w :| w in s.waits.waiters && w.call == call;
        var i :| 0 <= i < |s.waits.waiters| && s.waits.waiters[i] == w;
      }
    }
  }

  lemma BegunOnlyGrows(cfg: Config, s: Client, step: Step)
    requires LinkValid(cfg, s) && CanStep(cfg, s, step)
    ensures s.waits.begun <= Next(cfg, s, step).waits.begun
  {
    NextMovesWaits(cfg, s, step);
  }

  lemma {:induction false} BegunKept(cfg: Config, s: Client, steps: seq<Step>, last: Client)
    requires LinkValid(cfg, s) && ClientSpec.IsRun(cfg, s, steps, last)
    ensures s.waits.begun <= last.waits.begun
    decreases |steps|
  {
    if steps == [] {
    } else {
      BegunOnlyGrows(cfg, s, steps[0]);
      NextKeepsLink(cfg, s, steps[0]);
      BegunKept(cfg, Next(cfg, s, steps[0]), steps[1..], last);
    }
  }

  lemma {:induction false} RunsAppend(cfg: Config, s: Client, a: seq<Step>, m: Client, step: Step, b: seq<Step>,
                                      last: Client)
    requires ClientSpec.IsRun(cfg, s, a, m) && CanStep(cfg, m, step)
    requires ClientSpec.IsRun(cfg, Next(cfg, m, step), b, last)
    ensures ClientSpec.IsRun(cfg, s, a + [step] + b, last)
    decreases |a|
  {
    if a == [] {
      assert (a + [step] + b)[0] == step && (a + [step] + b)[1..] == b;
    } else {
      assert (a + [step] + b)[0] == a[0] && (a + [step] + b)[1..] == a[1..] + [step] + b;
      RunsAppend(cfg, Next(cfg, s, a[0]), a[1..], m, step, b, last);
    }
  }

  /** A disconnect() called in any other state than Disconnected leaves the client disconnecting,
      with the call suspended. At every later point of every run that call is still suspended, or it
      has returned and the state has become Disconnected since it was made. */
  lemma DisconnectWaits(cfg: Config, before: seq<Step>, s: Client, after: seq<Step>, last: Client)
    requires cfg.lim.maxQueued >= 1 && ClientSpec.IsRun(cfg, Init(), before, s) && s.state != Disconnected
    requires ClientSpec.IsRun(cfg, Next(cfg, s, DisconnectCalled), after, last)
    ensures var t := Next(cfg, s, DisconnectCalled);
      && t.state == Disconnecting && t.waits.returned == s.waits.returned
      && t.waits.waiters == s.waits.waiters + [Waiter(|s.waits.begun|, false)]
    ensures |s.waits.begun| < |last.waits.begun|
    ensures (|s.waits.begun| in Suspended(last.waits.waiters)) != (|s.waits.begun| in last.waits.returned)
    ensures |s.waits.begun| in last.waits.returned ==> last.waits.disconnections > s.waits.disconnections
  {
    var t := Next(cfg, s, DisconnectCalled);
    InitLink(cfg);
    RunKeepsLink(cfg, Init(), before, s);
    NextMovesWaits(cfg, s, DisconnectCalled);
    NextKeepsLink(cfg, s, DisconnectCalled);
    BegunKept(cfg, t, after, last);
    assert last.waits.begun[|s.waits.begun|] == t.waits.begun[|s.waits.begun|] == Begun(false, s.waits.disconnections);
    RunsAppend(cfg, Init(), before, s, DisconnectCalled, after, last);
    DisconnectReturnsAfterDisconnected(cfg, before + [DisconnectCalled] + after, last);
  }

  /** Never hanging, from the start: in every reachable disconnecting state, any continuation
      with enough helpful steps passes through Disconnected. */
  lemma ReachableDisconnectsFinish(cfg: Config, before: seq<Step>, s: Client, after: seq<Step>, last: Client)
    requires cfg.lim.maxQueued >= 1 && ClientSpec.IsRun(cfg, Init(), before, s)
    requires s.state == Disconnecting && ClientSpec.IsRun(cfg, s, after, last)
    ensures OneLive(s)
    ensures Helps(cfg, s, after) >= Remaining(s) ==> Reaches(cfg, s, after, Disconnected)
    ensures exists step :: CanStep(cfg, s, step) && Helpful(s, step)
  {
    InitLink(cfg);
    RunKeepsLink(cfg, Init(), before, s);
    var step := HelpIsAvailable(cfg, s);
    if Helps(cfg, s, after) >= Remaining(s) {
      DisconnectNeverHangs(cfg, s, after, last);
    }
  }
}
