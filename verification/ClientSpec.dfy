/** The whole client as one state machine: ConnectionManager, ClientRequestManager, every
    Connection they ever create, the tasks posted to the client's strand, and the suspended
    coroutines (client/src/network/ConnectionManager.cpp, ClientRequestManager.cpp).

    A step is one segment of the program or one act of its environment; a run is any sequence
    of enabled steps, so every interleaving and any number of reconnects is covered. */
module ClientSpec {
  import opened Prelude
  import opened ConnectionSpec
  import opened Protocol
  import opened RequestTable
  import opened RequestCalls
  import opened DisconnectCalls

  type ClientConn = Conn<ServerMessage, ClientMessage>
  type ClientEvent = Event<ServerMessage, ClientMessage>

  datatype Config = Config(lim: Limits<ClientMessage>, maxPending: nat)

  datatype LinkState = Disconnected | Connecting | Connected | Disconnecting

  datatype Client = Client(
    state: LinkState,
    socket: bool,                    // m_connectingSocket holds a socket
    connecting: nat,                 // connect() coroutines suspended in async_connect
    waits: Waits,                    // the disconnect() calls
    manager: Crm,
    conns: seq<ClientConn>,          // every connection created, oldest first
    closes: seq<nat>,                // posted connectionClosed tasks, and whose they are
    calls: Calls)                    // the sendRequest calls

  function Init(): Client {
    Client(Disconnected, false, 0, NoWaits(), FreshManager(), [], [], NoCalls())
  }

  // ---- ConnectionManager ----

  function SetState(s: Client, state: LinkState): Client {
    s.(state := state,
       waits := if s.state != Disconnected && state == Disconnected then Reached(s.waits, s.state == Disconnecting)
                else s.waits)
  }

  function Connect(s: Client): Client {
    if s.state != Disconnected then s   // throws
    else SetState(s, Connecting).(socket := true, connecting := s.connecting + 1)
  }

  /** connect(), once async_connect has finished. */
  function ConnectFinished(s: Client, failed: bool): Client
    requires s.connecting > 0
  {
    var resumed := s.(connecting := s.connecting - 1, socket := false);
    if s.state == Disconnecting || failed then SetState(resumed, Disconnected)   // throws
    else
      var started := Post(Created<ServerMessage, ClientMessage>(), StartTask);
      match RequestTable.Start(s.manager, |s.conns|)
      case Err(_) => SetState(resumed, Disconnected)   // "Client connection is already active"
      case Ok(m) => SetState(resumed.(manager := m, conns := s.conns + [started]), Connected)
  }

  function PostTo(s: Client, to: Option<nat>, task: Task<ClientMessage>): Client {
    if to.Some? && to.value < |s.conns|
    then s.(conns := s.conns[to.value := Post(s.conns[to.value], task)])
    else s
  }

  /** disconnect(), up to its suspension or its return. */
  function Disconnect(s: Client): Client {
    var begun := s.(waits := Begin(s.waits, s.state == Disconnected));
    match s.state
    case Disconnected => begun
    case Disconnecting => begun
    case Connecting => SetState(begun, Disconnecting)
    case Connected =>
      PostTo(SetState(begun, Disconnecting).(manager := Stop(s.manager, CLIENT_DISCONNECTED)),
             s.manager.connection, StopTask)
  }

  // ---- ClientRequestManager ----

  /** The posted connectionClosed task, with the close handler it calls. */
  function CloseTask(s: Client): Client
    requires s.closes != []
  {
    var closed := s.(closes := s.closes[1..], manager := Closed(s.manager));
    if s.manager.onClosed && (s.state == Connected || s.state == Disconnecting)
    then SetState(closed, Disconnected)
    else closed
  }

  function MessageFor(id: nat, r: Request): ClientMessage {
    ClientMessage(id, PayloadOf(r))
  }

  /** sendRequest(): refused at once, or suspended with its message posted to the connection. */
  function SendRequest(cfg: Config, s: Client, r: Request): Client {
    var (m, k) := Called(s.manager, s.calls, cfg.maxPending, r);
    var called := s.(manager := m, calls := k);
    match Admit(s.manager, cfg.maxPending, |s.calls.made|)
    case Refused(_) => called
    case Admitted(_, id) => PostTo(called, s.manager.connection, SendTask(MessageFor(id, r)))
  }

  function SendResumes(s: Client, call: nat): Client
    requires call in s.calls.senders
  {
    var (m, k) := Ended(s.manager, s.calls, call);
    s.(manager := m, calls := k)
  }

  // ---- the connections ----

  predicate Alive(s: Client, g: nat)
    requires g < |s.conns|
  {
    s.manager.connection == Some(g) || s.conns[g].readers != [] || s.conns[g].writers != []
  }

  /** A connection takes a step; if that closed it, its close handler posts connectionClosed. */
  function ConnStep(cfg: Config, s: Client, g: nat, e: ClientEvent): Client
    requires g < |s.conns| && Enabled(cfg.lim, s.conns[g], e)
  {
    var c := ConnectionSpec.Step(cfg.lim, s.conns[g], e);
    s.(conns := s.conns[g := c],
       closes := if c.notices > s.conns[g].notices then s.closes + [g] else s.closes)
  }

  datatype Step =
    | ConnectCalled
    | ConnectResumes(failed: bool)
    | DisconnectCalled
    | DisconnectResumes(waiter: nat)
    | SendCalled(request: Request)
    | TimerExpires(id: nat)
    | SenderResumes(call: nat)
    | CloseTaskRuns
    | ConnRuns(conn: nat, event: ClientEvent)      // any segment of a connection but the next
    | ReceiveRuns(conn: nat, reader: nat)          // receive() runs for a message that was read

  predicate TimerDone(m: Crm, id: nat, call: nat) {
    id in m.pending && m.pending[id].owner == call ==> m.pending[id].timer != Armed
  }

  predicate CanStep(cfg: Config, s: Client, step: Step) {
    match step
    case ConnectCalled => true
    case ConnectResumes(_) => s.connecting > 0
    case DisconnectCalled => true
    case DisconnectResumes(w) => w < |s.waits.waiters| && s.waits.waiters[w].released
    case SendCalled(_) => true
    case TimerExpires(id) => id in s.manager.pending && s.manager.pending[id].timer == Armed
    case SenderResumes(call) => call in s.calls.senders && TimerDone(s.manager, s.calls.senders[call], call)
    case CloseTaskRuns => s.closes != []
    case ConnRuns(g, e) =>
      && g < |s.conns| && Enabled(cfg.lim, s.conns[g], e)
      && !e.Posted? && !e.HandlerDone?
      && (e.TaskRuns? ==> e.alive == Alive(s, g))
    case ReceiveRuns(g, i) => g < |s.conns| && i < |s.conns[g].readers| && s.conns[g].readers[i].Handling?
  }

  function Next(cfg: Config, s: Client, step: Step): Client
    requires CanStep(cfg, s, step)
  {
    match step
    case ConnectCalled => Connect(s)
    case ConnectResumes(failed) => ConnectFinished(s, failed)
    case DisconnectCalled => Disconnect(s)
    case DisconnectResumes(w) => s.(waits := Return(s.waits, w))
    case SendCalled(r) => SendRequest(cfg, s, r)
    case TimerExpires(id) => s.(manager := Expire(s.manager, id))
    case SenderResumes(call) => SendResumes(s, call)
    case CloseTaskRuns => CloseTask(s)
    case ConnRuns(g, e) => ConnStep(cfg, s, g, e)
    case ReceiveRuns(g, i) =>
      ConnStep(cfg, s.(manager := Receive(s.manager, s.conns[g].readers[i].message)), g, HandlerDone(i, true))
  }

  ghost predicate IsRun(cfg: Config, s: Client, steps: seq<Step>, last: Client)
    decreases |steps|
  {
    if steps == [] then last == s
    else CanStep(cfg, s, steps[0]) && IsRun(cfg, Next(cfg, s, steps[0]), steps[1..], last)
  }
}
