/** The server as one state machine: ServerConnectionManager, ServerMessageHandler, the world
    service and every Connection accepted (server/src/network/ServerConnectionManager.cpp,
    ServerMessageHandler.cpp; the accept loop of TcpServer.cpp only as "create, then start;
    ends when create returns nothing or throws"). */
module ServerSpec {
  import opened Prelude
  import opened ConnectionSpec
  import opened Protocol
  import opened WorldSpec

  type ServerConn = Conn<ClientMessage, ServerMessage>
  type ServerEvent = Event<ClientMessage, ServerMessage>

  /** A connection, with every response computed for it, in order, the players of the world each
      of them was computed in, and the player it was given. */
  datatype Served = Served(
    conn: ServerConn, answers: seq<ServerMessage>, seen: seq<map<nat, PlayerState>>, player: Option<nat>)

  function NewlyServed(): Served {
    Served(Post(Created<ClientMessage, ServerMessage>(), StartTask), [], [], None)
  }

  datatype Server = Server(
    stopped: bool, accepting: bool,
    nextId: nat,
    table: set<nat>,              // the keys of m_connections
    conns: map<nat, Served>,      // every connection created, by id
    world: World)

  function Init(): Server {
    Server(false, true, 0, {}, map[], EmptyWorld())
  }

  // ---- ServerMessageHandler ----

  const BAD_REQUEST := "Client message payload is not set"

  function Respond(w: World, m: ClientMessage): ServerMessage {
    match m.payload
    case Ping(t) => ServerMessage(m.requestId, StatusOk, Pong(t))
    case StateSnapshot => ServerMessage(m.requestId, StatusOk, SnapshotReply(TakeSnapshot(w)))
    case NoPayload => ServerMessage(m.requestId, StatusError, ErrorReply(400, BAD_REQUEST))
  }

  /** onMessage(): the player first, which may throw, then the response. */
  function OnMessage(w: World, id: nat, m: ClientMessage): Result<(World, ServerMessage), ()> {
    match Connect(w, id)
    case Err(_) => Err(())
    case Ok((w', _)) => Ok((w', Respond(w', m)))
  }

  // ---- ServerConnectionManager ----

  /** One turn of the accept loop; the id counter is 16 bits wide. */
  function Accept(s: Server): Server {
    var id := (s.nextId + 1) % UINT16_LIMIT;
    if s.stopped then s.(accepting := false)
    else if id == 0 then s.(nextId := 0, accepting := false)   // "Too many connections"
    else s.(nextId := id, table := s.table + {id},
            conns := s.conns[id := NewlyServed()])
  }

  function HandleDisconnect(s: Server, id: nat): Server {
    s.(world := Disconnect(s.world, id), table := if s.stopped then s.table else s.table - {id})
  }

  /** The connection is now as given; if that closed it, its close handler ran. */
  function Becomes(s: Server, id: nat, d: Served): Server
    requires id in s.conns
  {
    var t := s.(conns := s.conns[id := d]);
    if d.conn.notices > s.conns[id].conn.notices then HandleDisconnect(t, id) else t
  }

  /** The read loop has a message: unless the connection closed meanwhile it is handled, and
      its response posted, before anything else runs. */
  function ReadMessage(s: Server, id: nat, i: nat, m: ClientMessage): Server
    requires id in s.conns && i < |s.conns[id].conn.readers|
  {
    var c := s.conns[id];
    var read := ReadCompletes(c.conn, i, m);
    if c.conn.closed then Becomes(s, id, c.(conn := read)) else
    match OnMessage(s.world, id, m)
    case Err(_) => Becomes(s, id, c.(conn := HandlerReturns(read, i, false)))
    case Ok((w, response)) =>
      var sent := if !s.stopped && id in s.table then Post(read, SendTask(response)) else read;
      var player := if id in w.registry then Some(w.registry[id]) else None;
      Becomes(s.(world := w), id,
              Served(HandlerReturns(sent, i, true), c.answers + [response], c.seen + [w.players], player))
  }

  function StopAll(s: Server): Server {
    if s.stopped then s
    else s.(stopped := true, table := {},
            conns := map id | id in s.conns ::
              if id in s.table then s.conns[id].(conn := Post(s.conns[id].conn, StopTask)) else s.conns[id])
  }

  predicate Alive(s: Server, id: nat)
    requires id in s.conns
  {
    id in s.table || s.conns[id].conn.readers != [] || s.conns[id].conn.writers != []
  }

  datatype Step =
    | AcceptRuns
    | MessageArrives(conn: nat, reader: nat, message: ClientMessage)
    | ConnRuns(conn: nat, event: ServerEvent)
    | StopCalled

  predicate CanStep(lim: Limits<ServerMessage>, s: Server, step: Step) {
    match step
    case AcceptRuns => s.accepting
    case MessageArrives(id, i, _) =>
      id in s.conns && i < |s.conns[id].conn.readers| && s.conns[id].conn.readers[i].Reading?
    case ConnRuns(id, e) =>
      && id in s.conns && Enabled(lim, s.conns[id].conn, e)
      && !e.Posted? && !e.MessageRead? && !e.HandlerDone?
      && (e.TaskRuns? ==> e.alive == Alive(s, id))
    case StopCalled => true
  }

  function Next(lim: Limits<ServerMessage>, s: Server, step: Step): Server
    requires CanStep(lim, s, step)
  {
    match step
    case AcceptRuns => Accept(s)
    case MessageArrives(id, i, m) => ReadMessage(s, id, i, m)
    case ConnRuns(id, e) => Becomes(s, id, s.conns[id].(conn := ConnectionSpec.Step(lim, s.conns[id].conn, e)))
    case StopCalled => StopAll(s)
  }

  ghost predicate IsRun(lim: Limits<ServerMessage>, s: Server, steps: seq<Step>, last: Server)
    decreases |steps|
  {
    if steps == [] then last == s
    else CanStep(lim, s, steps[0]) && IsRun(lim, Next(lim, s, steps[0]), steps[1..], last)
  }
}
