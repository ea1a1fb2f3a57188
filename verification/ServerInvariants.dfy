/** What holds in every reachable state of the server. */
module ServerInvariants {
  import opened Prelude
  import opened ConnectionSpec
  import opened Protocol
  import opened WorldSpec
  import opened ServerSpec

  // ---- one connection and its answers ----

  ghost predicate IsAnswerTo(a: ServerMessage, q: ClientMessage) {
    && a.requestId == q.requestId
    && match q.payload
       case Ping(t) => a.status == StatusOk && a.payload == Pong(t)
       case StateSnapshot => a.status == StatusOk && a.payload.SnapshotReply? && Ascending(a.payload.state.players)
       case NoPayload => a.status == StatusError && a.payload == ErrorReply(400, "Client message payload is not set")
  }

  /** The list has exactly these players, once each, in increasing id order. */
  ghost predicate ListsAll(list: seq<PlayerState>, players: map<nat, PlayerState>) {
    Ascending(list) && forall p :: p in list <==> p.id in players && players[p.id] == p
  }

  /** The requester's player is among the players there are, and a snapshot lists them all. */
  ghost predicate Shows(a: ServerMessage, players: map<nat, PlayerState>, player: nat) {
    && player in players && players[player].id == player
    && (a.payload.SnapshotReply? ==> a.payload.state.map_ == TileMap("bootstrap", 32, 18))
    && (a.payload.SnapshotReply? ==> ListsAll(a.payload.state.players, players))
  }

  ghost predicate ShowsEach(answers: seq<ServerMessage>, seen: seq<map<nat, PlayerState>>, player: Option<nat>) {
    && |seen| == |answers|
    && (answers != [] ==> player.Some?)
    && forall k | 0 <= k < |answers| :: Shows(answers[k], seen[k], player.value)
  }

  function Sends(tasks: seq<Task<ServerMessage>>): seq<ServerMessage> {
    if tasks == [] then []
    else (if tasks[0].SendTask? then [tasks[0].message] else []) + Sends(tasks[1..])
  }

  /** Responses answer the messages read, one each and in order, and go out in that order. */
  ghost predicate Answered(c: ServerConn, answers: seq<ServerMessage>) {
    && |answers| <= |c.received|
    && (forall k | 0 <= k < |answers| :: IsAnswerTo(answers[k], c.received[k]))
    && (forall r | r in c.readers :: !r.Handling?)
    && c.accepted <= answers
    && (!c.closed ==>
      && |answers| == |c.received|
      && (answers != [] ==> c.readers != [])
      && c.accepted + Sends(c.tasks) <= answers)
  }

  /** While the manager is not stopped nothing computed is withheld from an open connection. */
  ghost predicate NothingWithheld(c: ServerConn, answers: seq<ServerMessage>) {
    !c.closed ==> c.accepted + Sends(c.tasks) == answers
  }

  lemma {:induction false} SendsAppend(tasks: seq<Task<ServerMessage>>, task: Task<ServerMessage>)
    ensures Sends(tasks + [task]) == Sends(tasks) + (if task.SendTask? then [task.message] else [])
  {
    if tasks == [] {
    } else {
      assert (tasks + [task])[1..] == tasks[1..] + [task];
      SendsAppend(tasks[1..], task);
      Regroup(if tasks[0].SendTask? then [tasks[0].message] else [], Sends(tasks[1..]),
              if task.SendTask? then [task.message] else []);
    }
  }

  /** What a segment that is neither a task nor a message read can do to a connection. */
  ghost predicate Untouched(c: ServerConn, d: ServerConn) {
    && d.tasks == c.tasks && d.accepted == c.accepted && d.received == c.received
    && (c.closed ==> d.closed)
    && (forall r | r in d.readers :: !r.Handling? || r in c.readers)
    && (!d.closed && c.readers != [] ==> d.readers != [])
  }

  lemma SegmentLeavesUntouched(lim: Limits<ServerMessage>, c: ServerConn, e: ServerEvent)
    requires Disciplined(lim, c) && Enabled(lim, c, e)
    requires !e.Posted? && !e.TaskRuns? && !e.MessageRead? && !e.HandlerDone?
    ensures Untouched(c, ConnectionSpec.Step(lim, c, e))
  {
  }

  lemma UntouchedKeepsAnswered(c: ServerConn, d: ServerConn, answers: seq<ServerMessage>)
    requires Answered(c, answers) && Untouched(c, d)
    ensures Answered(d, answers)
    ensures NothingWithheld(c, answers) ==> NothingWithheld(d, answers)
  {
  }

  /** A segment of the connection other than reading a message. */
  lemma ConnKeepsAnswered(lim: Limits<ServerMessage>, c: ServerConn, e: ServerEvent, answers: seq<ServerMessage>)
    requires Disciplined(lim, c) && Answered(c, answers) && Enabled(lim, c, e)
    requires !e.Posted? && !e.MessageRead? && !e.HandlerDone?
    requires e.TaskRuns? && !e.alive ==> c.readers == []
    ensures Answered(ConnectionSpec.Step(lim, c, e), answers)
    ensures NothingWithheld(c, answers) ==> NothingWithheld(ConnectionSpec.Step(lim, c, e), answers)
  {
    if e.TaskRuns? {
      TaskKeepsAnswered(lim, c, e.alive, answers);
    } else {
      SegmentLeavesUntouched(lim, c, e);
      UntouchedKeepsAnswered(c, ConnectionSpec.Step(lim, c, e), answers);
    }
  }

  /** A task takes the message it carries to the accepted ones, unless it closes the connection. */
  ghost predicate Relayed(c: ServerConn, d: ServerConn) {
    && d.received == c.received && (c.closed ==> d.closed)
    && (d.readers == c.readers || d.readers == c.readers + [ReaderSpawned])
    && (d.accepted == c.accepted || (!c.closed && d.accepted <= c.accepted + Sends(c.tasks)))
    && (!d.closed ==> d.accepted + Sends(d.tasks) == c.accepted + Sends(c.tasks))
  }

  lemma TaskRelays(lim: Limits<ServerMessage>, c: ServerConn, alive: bool)
    requires c.tasks != [] && (!alive && !c.closed ==> Sends(c.tasks) == [])
    ensures Relayed(c, RunTask(lim, c, alive))
  {
    if c.tasks[0].SendTask? {
      assert c.accepted + Sends(c.tasks) == c.accepted + [c.tasks[0].message] + Sends(c.tasks[1..]);
    }
  }

  lemma RelayingKeepsAnswered(c: ServerConn, d: ServerConn, answers: seq<ServerMessage>)
    requires Answered(c, answers) && Relayed(c, d)
    ensures Answered(d, answers)
    ensures NothingWithheld(c, answers) ==> NothingWithheld(d, answers)
  {
  }

  lemma TaskKeepsAnswered(lim: Limits<ServerMessage>, c: ServerConn, alive: bool, answers: seq<ServerMessage>)
    requires Answered(c, answers) && c.tasks != []
    requires !alive ==> c.readers == []
    ensures Answered(RunTask(lim, c, alive), answers)
    ensures NothingWithheld(c, answers) ==> NothingWithheld(RunTask(lim, c, alive), answers)
  {
    TaskRelays(lim, c, alive);
    RelayingKeepsAnswered(c, RunTask(lim, c, alive), answers);
  }

  /** The connection after a message was read, and handled with the given answer, in one segment. */
  function HandledConn(c: ServerConn, i: nat, m: ClientMessage, a: ServerMessage, post: bool): ServerConn
    requires i < |c.readers| && !c.closed
  {
    var read := ReadCompletes(c, i, m);
    HandlerReturns(if post then Post(read, SendTask(a)) else read, i, true)
  }

  /** Reading and handling a message: its answer is appended and posted. */
  lemma HandlingKeepsAnswered(lim: Limits<ServerMessage>, c: ServerConn, i: nat, m: ClientMessage,
                              a: ServerMessage, post: bool, answers: seq<ServerMessage>)
    requires Disciplined(lim, c) && Answered(c, answers) && !c.closed
    requires i < |c.readers| && IsAnswerTo(a, m)
    requires post ==> NothingWithheld(c, answers)
    ensures var d := HandledConn(c, i, m, a, post);
      Answered(d, answers + [a]) && (post ==> NothingWithheld(d, answers + [a])) && !d.closed
  {
    SendsAppend(c.tasks, SendTask(a));
  }

  // ---- the whole server ----

  /** After stopAll a connection is closed, has its stop posted, or has nothing left running. */
  ghost predicate EndInSight(c: ServerConn) {
    c.closed || StopTask in c.tasks || (c.readers == [] && c.writers == [])
  }

  /** One connection, in a server that is or is not stopped. */
  ghost predicate ServedOk(lim: Limits<ServerMessage>, stopped: bool, d: Served) {
    && ConnectionSpec.Valid(lim, d.conn) && Answered(d.conn, d.answers)
    && (if stopped then EndInSight(d.conn) else NothingWithheld(d.conn, d.answers))
    && ShowsEach(d.answers, d.seen, d.player)
  }

  ghost function Ok(lim: Limits<ServerMessage>, stopped: bool): Served -> bool {
    d => ServedOk(lim, stopped, d)
  }

  /** The connections created and not closed. */
  function Open(conns: map<nat, Served>): set<nat> {
    set id | id in conns && !conns[id].conn.closed
  }

  /** Those of them that have had a message handled. */
  function Playing(conns: map<nat, Served>): set<nat> {
    set id | id in conns && !conns[id].conn.closed && conns[id].answers != []
  }

  /** No orphan players: the world's connections are exactly the playing ones, each bound to the
      player it was given, and through the registry the players are exactly theirs. */
  ghost predicate WorldExact(w: World, conns: map<nat, Served>) {
    && WorldSpec.Valid(w) && w.map_ == BOOTSTRAP
    && w.registry.Keys == Playing(conns)
    && forall id | id in w.registry :: conns[id].player == Option.Some(w.registry[id])
  }

  /** Ids are never reused; every connection is in order; while running, the table holds exactly
      the created-and-not-closed connections, and after stopAll none; no orphan players. */
  ghost predicate Sound(ok: Served -> bool, s: Server) {
    && s.nextId < UINT16_LIMIT
    && (s.accepting ==> forall id | id in s.conns :: 1 <= id <= s.nextId)
    && Every(s.conns, ok)
    && s.table == (if s.stopped then {} else Open(s.conns))
    && WorldExact(s.world, s.conns)
  }

  ghost predicate ServerValid(lim: Limits<ServerMessage>, s: Server) {
    lim.maxQueued >= 1 && Sound(Ok(lim, s.stopped), s)
  }

  lemma InitIsValid(lim: Limits<ServerMessage>)
    requires lim.maxQueued >= 1
    ensures ServerValid(lim, Init())
  {
  }

  /** The close handler runs exactly when a step closes the connection. */
  ghost predicate Successor(c: ServerConn, d: ServerConn) {
    && (c.closed ==> d.closed)
    && (d.notices > c.notices <==> d.closed && !c.closed)
  }

  lemma UpdateOpen(conns: map<nat, Served>, id: nat, d: Served)
    ensures Open(conns[id := d]) == if d.conn.closed then Open(conns) - {id} else Open(conns) + {id}
    ensures Playing(conns[id := d]) ==
            if d.conn.closed || d.answers == [] then Playing(conns) - {id} else Playing(conns) + {id}
  {
  }

  /** The connection closes: its player, if any, goes. */
  lemma LeavingKeepsWorld(w: World, conns: map<nat, Served>, id: nat, d: Served)
    requires WorldExact(w, conns) && d.conn.closed
    ensures WorldExact(Disconnect(w, id), conns[id := d])
  {
    DisconnectKeepsValid(w, id);
    UpdateOpen(conns, id, d);
  }

  /** It stays as open or as closed as it was, with the same answers. */
  lemma StayingKeepsWorld(w: World, conns: map<nat, Served>, id: nat, d: Served)
    requires WorldExact(w, conns) && id in conns
    requires d.conn.closed == conns[id].conn.closed && d.answers == conns[id].answers && d.player == conns[id].player
    ensures WorldExact(w, conns[id := d]) && Open(conns[id := d]) == Open(conns)
  {
    UpdateOpen(conns, id, d);
  }

  lemma LeavingKeeps(ok: Served -> bool, s: Server, id: nat, d: Served)
    requires Sound(ok, s) && id in s.conns && ok(d) && d.conn.closed
    ensures Sound(ok, HandleDisconnect(s.(conns := s.conns[id := d]), id))
  {
    EveryUpdate(s.conns, ok, id, d);
    LeavingKeepsWorld(s.world, s.conns, id, d);
    UpdateOpen(s.conns, id, d);
  }

  lemma StayingKeeps(ok: Served -> bool, s: Server, id: nat, d: Served)
    requires Sound(ok, s) && id in s.conns && ok(d) && d.conn.closed == s.conns[id].conn.closed
    requires d.answers == s.conns[id].answers && d.player == s.conns[id].player
    ensures Sound(ok, s.(conns := s.conns[id := d]))
  {
    EveryUpdate(s.conns, ok, id, d);
    StayingKeepsWorld(s.world, s.conns, id, d);
  }

  /** Replacing one connection by its next state, with the close handler if it closed. */
  lemma BecomesKeeps(ok: Served -> bool, s: Server, id: nat, d: Served)
    requires Sound(ok, s) && id in s.conns
    requires Successor(s.conns[id].conn, d.conn) && ok(d)
    requires d.answers == s.conns[id].answers && d.player == s.conns[id].player
    ensures Sound(ok, Becomes(s, id, d))
  {
    if d.conn.notices > s.conns[id].conn.notices {
      LeavingKeeps(ok, s, id, d);
    } else {
      StayingKeeps(ok, s, id, d);
    }
  }

  lemma StepIsSuccessor(lim: Limits<ServerMessage>, c: ServerConn, e: ServerEvent)
    requires Enabled(lim, c, e)
    ensures Successor(c, ConnectionSpec.Step(lim, c, e))
  {
  }

  lemma EndStaysInSight(lim: Limits<ServerMessage>, c: ServerConn, e: ServerEvent)
    requires Enabled(lim, c, e) && EndInSight(c)
    requires e.TaskRuns? ==> e.alive == (c.readers != [] || c.writers != [])
    ensures EndInSight(ConnectionSpec.Step(lim, c, e))
  {
    if e.TaskRuns? {
      assert c.tasks == [c.tasks[0]] + c.tasks[1..];
    }
  }

  /** Any segment of a served connection but the handling of a message. */
  lemma SegmentKeepsOk(lim: Limits<ServerMessage>, stopped: bool, d: Served, e: ServerEvent)
    requires lim.maxQueued >= 1 && ServedOk(lim, stopped, d) && Enabled(lim, d.conn, e)
    requires !e.Posted? && !e.MessageRead? && !e.HandlerDone?
    requires e.TaskRuns? && !e.alive ==> d.conn.readers == []
    requires e.TaskRuns? && stopped ==> e.alive == (d.conn.readers != [] || d.conn.writers != [])
    ensures var c := ConnectionSpec.Step(lim, d.conn, e);
      ServedOk(lim, stopped, d.(conn := c)) && Successor(d.conn, c)
  {
    StepKeepsValid(lim, d.conn, e);
    StepIsSuccessor(lim, d.conn, e);
    ConnKeepsAnswered(lim, d.conn, e, d.answers);
    if stopped {
      EndStaysInSight(lim, d.conn, e);
    }
  }

  lemma ConnRunsKeeps(lim: Limits<ServerMessage>, s: Server, id: nat, e: ServerEvent)
    requires ServerValid(lim, s) && CanStep(lim, s, ConnRuns(id, e))
    ensures ServerValid(lim, Next(lim, s, ConnRuns(id, e)))
  {
    var d' := SegmentOf(lim, s, id, e);
    BecomesKeeps(Ok(lim, s.stopped), s, id, d');
  }

  lemma SegmentOf(lim: Limits<ServerMessage>, s: Server, id: nat, e: ServerEvent) returns (d': Served)
    requires ServerValid(lim, s) && CanStep(lim, s, ConnRuns(id, e))
    ensures d' == s.conns[id].(conn := ConnectionSpec.Step(lim, s.conns[id].conn, e))
    ensures Successor(s.conns[id].conn, d'.conn) && Ok(lim, s.stopped)(d')
  {
    var d := s.conns[id];
    assert Ok(lim, s.stopped)(d);
    assert s.stopped ==> id !in s.table;
    assert d.conn.closed || s.stopped || id in s.table;
    SegmentKeepsOk(lim, s.stopped, d, e);
    d' := d.(conn := ConnectionSpec.Step(lim, d.conn, e));
  }

  lemma NewConnOk(lim: Limits<ServerMessage>)
    requires lim.maxQueued >= 1
    ensures var d := NewlyServed();
      ServedOk(lim, false, d) && !d.conn.closed
  {
    var c := Post(Created<ClientMessage, ServerMessage>(), StartTask);
    CreatedIsValid<ClientMessage, ServerMessage>(lim);
    StepKeepsValid(lim, Created<ClientMessage, ServerMessage>(), Posted(StartTask));
    assert c.tasks == [StartTask] && c.tasks[1..] == [];
  }

  lemma ArrivingKeepsWorld(w: World, conns: map<nat, Served>, id: nat, d: Served)
    requires WorldExact(w, conns) && id !in conns && !d.conn.closed && d.answers == []
    ensures WorldExact(w, conns[id := d]) && Open(conns[id := d]) == Open(conns) + {id}
  {
    UpdateOpen(conns, id, d);
    assert Playing(conns) - {id} == Playing(conns);
  }

  lemma AddingKeeps(ok: Served -> bool, s: Server, d: Served)
    requires Sound(ok, s) && s.accepting && !s.stopped && s.nextId + 1 < UINT16_LIMIT
    requires ok(d) && !d.conn.closed && d.answers == []
    ensures var id := s.nextId + 1;
      Sound(ok, s.(nextId := id, table := s.table + {id}, conns := s.conns[id := d]))
  {
    var id := s.nextId + 1;
    EveryUpdate(s.conns, ok, id, d);
    ArrivingKeepsWorld(s.world, s.conns, id, d);
  }

  /** Accepting, with the counter's wrap spelled out. */
  lemma AcceptIs(s: Server)
    requires s.nextId < UINT16_LIMIT
    ensures Accept(s) ==
      if s.stopped then s.(accepting := false)
      else if s.nextId + 1 == UINT16_LIMIT then s.(nextId := 0, accepting := false)
      else s.(nextId := s.nextId + 1, table := s.table + {s.nextId + 1},
              conns := s.conns[s.nextId + 1 := NewlyServed()])
  {
  }

  lemma AcceptKeeps(ok: Served -> bool, s: Server)
    requires Sound(ok, s) && s.accepting && (!s.stopped ==> ok(NewlyServed()))
    ensures Sound(ok, Accept(s))
  {
    AcceptIs(s);
    if !s.stopped && s.nextId + 1 < UINT16_LIMIT {
      AddingKeeps(ok, s, NewlyServed());
    }
  }

  lemma StopAllKeeps(lim: Limits<ServerMessage>, s: Server)
    requires ServerValid(lim, s)
    ensures ServerValid(lim, StopAll(s))
  {
    if !s.stopped {
      var t := StopAll(s);
      forall id | id in t.conns ensures Ok(lim, true)(t.conns[id]) {
        assert Ok(lim, false)(s.conns[id]);
        StopOneKeeps(lim, s.conns[id]);
      }
      assert Playing(t.conns) == Playing(s.conns);
    }
  }

  /** A closed connection is in order whether or not it is in the table; an open one gets its stop. */
  lemma StopOneKeeps(lim: Limits<ServerMessage>, d: Served)
    requires lim.maxQueued >= 1 && ServedOk(lim, false, d)
    ensures ServedOk(lim, true, d.(conn := Post(d.conn, StopTask)))
    ensures d.conn.closed ==> ServedOk(lim, true, d)
  {
    StepKeepsValid(lim, d.conn, Posted(StopTask));
    SendsAppend(d.conn.tasks, StopTask);
  }

  // ---- reading and handling a message ----

  /** The message came too late, or its handler threw: no answer, and the connection is closed. */
  lemma UnansweredKeepsOk(lim: Limits<ServerMessage>, stopped: bool, d: Served, i: nat, m: ClientMessage)
    requires lim.maxQueued >= 1 && ServedOk(lim, stopped, d)
    requires i < |d.conn.readers| && d.conn.readers[i].Reading?
    ensures var read := ReadCompletes(d.conn, i, m);
      var c := if d.conn.closed then read else HandlerReturns(read, i, false);
      ServedOk(lim, stopped, d.(conn := c)) && Successor(d.conn, c) && c.closed
  {
    var read := ReadCompletes(d.conn, i, m);
    StepKeepsValid(lim, d.conn, MessageRead(i, m));
    if !d.conn.closed {
      StepKeepsValid(lim, read, HandlerDone(i, false));
    }
  }

  lemma HandledIsValid(lim: Limits<ServerMessage>, c: ServerConn, i: nat, m: ClientMessage, a: ServerMessage,
                       post: bool)
    requires lim.maxQueued >= 1 && ConnectionSpec.Valid(lim, c) && !c.closed
    requires i < |c.readers| && c.readers[i].Reading?
    ensures var d := HandledConn(c, i, m, a, post);
      && ConnectionSpec.Valid(lim, d) && d.notices == c.notices
      && d.tasks == c.tasks + (if post then [SendTask(a)] else [])
  {
    var read := ReadCompletes(c, i, m);
    StepKeepsValid(lim, c, MessageRead(i, m));
    StepKeepsValid(lim, read, Posted(SendTask(a)));
    var sent := if post then Post(read, SendTask(a)) else read;
    StepKeepsValid(lim, sent, HandlerDone(i, true));
  }

  lemma AnsweredKeepsOk(lim: Limits<ServerMessage>, stopped: bool, d: Served, i: nat, m: ClientMessage,
                        a: ServerMessage, players: map<nat, PlayerState>, player: nat)
    requires lim.maxQueued >= 1 && ServedOk(lim, stopped, d) && !d.conn.closed
    requires i < |d.conn.readers| && d.conn.readers[i].Reading?
    requires IsAnswerTo(a, m) && Shows(a, players, player) && (d.answers != [] ==> d.player == Option.Some(player))
    ensures var c := HandledConn(d.conn, i, m, a, !stopped);
      var d' := Served(c, d.answers + [a], d.seen + [players], Option.Some(player));
      ServedOk(lim, stopped, d') && d'.conn.notices == d.conn.notices && !d'.conn.closed
  {
    HandledIsValid(lim, d.conn, i, m, a, !stopped);
    HandlingKeepsAnswered(lim, d.conn, i, m, a, !stopped, d.answers);
    var c := HandledConn(d.conn, i, m, a, !stopped);
    AssembleOk(lim, stopped, d, c, a, players, player);
  }

  lemma AssembleOk(lim: Limits<ServerMessage>, stopped: bool, d: Served, c: ServerConn, a: ServerMessage,
                   players: map<nat, PlayerState>, player: nat)
    requires ServedOk(lim, stopped, d) && ConnectionSpec.Valid(lim, c) && Answered(c, d.answers + [a])
    requires if stopped then EndInSight(c) else NothingWithheld(c, d.answers + [a])
    requires Shows(a, players, player) && (d.answers != [] ==> d.player == Option.Some(player))
    ensures ServedOk(lim, stopped, Served(c, d.answers + [a], d.seen + [players], Option.Some(player)))
  {
  }

  /** The player comes first: afterwards the connection has one, the world shows it, and the
      response is an answer to the message. */
  lemma OnMessageAnswers(w: World, conns: map<nat, Served>, id: nat, m: ClientMessage)
    requires WorldExact(w, conns) && id in conns && !conns[id].conn.closed
    requires OnMessage(w, id, m).Ok?
    ensures var (w', a) := OnMessage(w, id, m).value;
      && id in w'.registry && w' == Perform(w, ConnectOp(id)) && w'.registry.Keys == w.registry.Keys + {id}
      && IsAnswerTo(a, m) && Shows(a, w'.players, w'.registry[id])
      && (conns[id].answers != [] ==> conns[id].player == Option.Some(w'.registry[id]))
  {
    var (w', a) := OnMessage(w, id, m).value;
    ConnectKeepsValid(w, id);
    SnapshotShowsEveryone(w', id);
    assert w'.players[w'.registry[id]].id == w'.registry[id];
  }

  lemma JoiningKeepsWorld(w: World, conns: map<nat, Served>, id: nat, d: Served)
    requires WorldExact(w, conns) && id in conns && !conns[id].conn.closed
    requires var w' := Perform(w, ConnectOp(id));
      id in w'.registry && d.player == Option.Some(w'.registry[id])
    requires !d.conn.closed && d.answers != []
    ensures WorldExact(Perform(w, ConnectOp(id)), conns[id := d]) && Open(conns[id := d]) == Open(conns)
  {
    ConnectKeepsValid(w, id);
    UpdateOpen(conns, id, d);
  }

  lemma MessageKeeps(lim: Limits<ServerMessage>, s: Server, id: nat, i: nat, m: ClientMessage)
    requires ServerValid(lim, s) && id in s.conns
    requires i < |s.conns[id].conn.readers| && s.conns[id].conn.readers[i].Reading?
    ensures ServerValid(lim, ReadMessage(s, id, i, m))
  {
    if s.conns[id].conn.closed || OnMessage(s.world, id, m).Err? {
      MessageUnanswered(lim, s, id, i, m);
    } else {
      MessageAnswered(lim, s, id, i, m);
    }
  }

  lemma MessageUnanswered(lim: Limits<ServerMessage>, s: Server, id: nat, i: nat, m: ClientMessage)
    requires ServerValid(lim, s) && id in s.conns
    requires i < |s.conns[id].conn.readers| && s.conns[id].conn.readers[i].Reading?
    requires s.conns[id].conn.closed || OnMessage(s.world, id, m).Err?
    ensures ServerValid(lim, ReadMessage(s, id, i, m))
  {
    var d' := UnansweredOf(lim, s, id, i, m);
    BecomesKeeps(Ok(lim, s.stopped), s, id, d');
  }

  lemma UnansweredOf(lim: Limits<ServerMessage>, s: Server, id: nat, i: nat, m: ClientMessage) returns (d': Served)
    requires lim.maxQueued >= 1 && id in s.conns && Ok(lim, s.stopped)(s.conns[id])
    requires i < |s.conns[id].conn.readers| && s.conns[id].conn.readers[i].Reading?
    requires s.conns[id].conn.closed || OnMessage(s.world, id, m).Err?
    ensures Ok(lim, s.stopped)(d') && Successor(s.conns[id].conn, d'.conn) && d'.conn.closed
    ensures d'.player == s.conns[id].player && d'.answers == s.conns[id].answers
    ensures ReadMessage(s, id, i, m) == Becomes(s, id, d')
  {
    var d := s.conns[id];
    UnansweredKeepsOk(lim, s.stopped, d, i, m);
    var read := ReadCompletes(d.conn, i, m);
    d' := d.(conn := if d.conn.closed then read else HandlerReturns(read, i, false));
  }

  lemma MessageAnswered(lim: Limits<ServerMessage>, s: Server, id: nat, i: nat, m: ClientMessage)
    requires ServerValid(lim, s) && id in s.conns && !s.conns[id].conn.closed
    requires i < |s.conns[id].conn.readers| && s.conns[id].conn.readers[i].Reading?
    requires OnMessage(s.world, id, m).Ok?
    ensures ServerValid(lim, ReadMessage(s, id, i, m))
  {
    var d' := HandledOf(lim, s, id, i, m);
    JoiningKeeps(Ok(lim, s.stopped), s, id, d');
  }

  lemma HandledOf(lim: Limits<ServerMessage>, s: Server, id: nat, i: nat, m: ClientMessage) returns (d': Served)
    requires ServerValid(lim, s) && id in s.conns && !s.conns[id].conn.closed
    requires i < |s.conns[id].conn.readers| && s.conns[id].conn.readers[i].Reading?
    requires OnMessage(s.world, id, m).Ok?
    ensures Ok(lim, s.stopped)(d')
    ensures !d'.conn.closed && d'.answers != [] && d'.conn.notices == s.conns[id].conn.notices
    ensures var w := Perform(s.world, ConnectOp(id));
      && id in w.registry && d'.player == Option.Some(w.registry[id])
      && ReadMessage(s, id, i, m) == Becomes(s.(world := w), id, d')
  {
    var d := s.conns[id];
    assert Ok(lim, s.stopped)(d);
    OnMessageAnswers(s.world, s.conns, id, m);
    var (w, a) := OnMessage(s.world, id, m).value;
    AnsweredKeepsOk(lim, s.stopped, d, i, m, a, w.players, w.registry[id]);
    assert !s.stopped <==> !s.stopped && id in s.table;
    d' := Served(HandledConn(d.conn, i, m, a, !s.stopped), d.answers + [a], d.seen + [w.players],
                 Option.Some(w.registry[id]));
  }

  lemma JoiningKeeps(ok: Served -> bool, s: Server, id: nat, d: Served)
    requires Sound(ok, s) && id in s.conns && ok(d)
    requires !s.conns[id].conn.closed && !d.conn.closed && d.answers != [] && d.conn.notices == s.conns[id].conn.notices
    requires var w := Perform(s.world, ConnectOp(id)); id in w.registry && d.player == Option.Some(w.registry[id])
    ensures Sound(ok, Becomes(s.(world := Perform(s.world, ConnectOp(id))), id, d))
  {
    EveryUpdate(s.conns, ok, id, d);
    JoiningKeepsWorld(s.world, s.conns, id, d);
  }

  lemma NextKeepsValid(lim: Limits<ServerMessage>, s: Server, step: ServerSpec.Step)
    requires ServerValid(lim, s) && CanStep(lim, s, step)
    ensures ServerValid(lim, Next(lim, s, step))
  {
    match step
    case AcceptRuns =>
      NewConnOk(lim);
      AcceptKeeps(Ok(lim, s.stopped), s);
    case MessageArrives(id, i, m) => MessageKeeps(lim, s, id, i, m);
    case ConnRuns(id, e) => ConnRunsKeeps(lim, s, id, e);
    case StopCalled => StopAllKeeps(lim, s);
  }

  lemma {:induction false} RunKeepsValid(lim: Limits<ServerMessage>, s: Server, steps: seq<ServerSpec.Step>,
                                         last: Server)
    requires ServerValid(lim, s) && ServerSpec.IsRun(lim, s, steps, last)
    ensures ServerValid(lim, last)
    decreases |steps|
  {
    if steps == [] {
    } else {
      NextKeepsValid(lim, s, steps[0]);
      RunKeepsValid(lim, Next(lim, s, steps[0]), steps[1..], last);
    }
  }

  // ---- the server's guarantees over whole runs ----

  /** No orphan players: in every reachable state the players of the world are exactly those of
      the open connections that have had a message handled, one each; a closed connection has
      none, and while the manager runs its table is exactly the open connections. */
  lemma NoOrphanPlayers(lim: Limits<ServerMessage>, steps: seq<ServerSpec.Step>, s: Server)
    requires lim.maxQueued >= 1 && ServerSpec.IsRun(lim, Init(), steps, s)
    ensures s.world.registry.Keys == Playing(s.conns)
    ensures forall player :: player in s.world.players <==>
      exists id :: id in Playing(s.conns) && s.conns[id].player == Option.Some(player)
    ensures forall a, b | a in Playing(s.conns) && b in Playing(s.conns) && a != b ::
      s.conns[a].player != s.conns[b].player
    ensures !s.stopped ==> s.table == Open(s.conns)
  {
    InitIsValid(lim);
    RunKeepsValid(lim, Init(), steps, s);
    forall player | player in s.world.players
      ensures exists id :: id in Playing(s.conns) && s.conns[id].player == Option.Some(player)
    {
      var id :| id in s.world.registry && s.world.registry[id] == player;
      assert id in Playing(s.conns);
    }
  }

  /** A message that arrives on a closed connection is not handled, so it never brings a player back. */
  lemma ClosedMeansGone(s: Server, id: nat, i: nat, m: ClientMessage)
    requires id in s.conns && i < |s.conns[id].conn.readers| && s.conns[id].conn.closed
    ensures var t := ReadMessage(s, id, i, m);
      t.world == s.world && t.table == s.table && t.conns[id].answers == s.conns[id].answers
  {
  }

  /** Both closed, with the same answers. */
  ghost predicate StillClosed(d: Served, d': Served) {
    d.conn.closed && d'.conn.closed && d'.answers == d.answers
  }

  lemma AcceptLeavesOthers(s: Server, id: nat)
    requires s.accepting && id in s.conns && 1 <= id <= s.nextId < UINT16_LIMIT
    ensures id in Accept(s).conns && Accept(s).conns[id] == s.conns[id]
  {
  }

  lemma ReadingKeepsClosed(s: Server, id: nat, i: nat, m: ClientMessage, other: nat)
    requires id in s.conns && i < |s.conns[id].conn.readers|
    requires other in s.conns && s.conns[other].conn.closed
    ensures other in ReadMessage(s, id, i, m).conns
    ensures StillClosed(s.conns[other], ReadMessage(s, id, i, m).conns[other])
  {
    if id == other {
      ClosedMeansGone(s, id, i, m);
    }
  }

  lemma ClosedStaysClosed(lim: Limits<ServerMessage>, s: Server, step: ServerSpec.Step, id: nat)
    requires CanStep(lim, s, step) && id in s.conns && s.conns[id].conn.closed
    requires s.accepting ==> 1 <= id <= s.nextId < UINT16_LIMIT
    ensures id in Next(lim, s, step).conns && StillClosed(s.conns[id], Next(lim, s, step).conns[id])
  {
    match step
    case AcceptRuns => AcceptLeavesOthers(s, id);
    case MessageArrives(c, i, m) => ReadingKeepsClosed(s, c, i, m, id);
    case ConnRuns(c, e) => ClosedIsFinalFor(lim, s.conns[c].conn, e);
    case StopCalled =>
  }

  lemma ClosedIsFinalFor(lim: Limits<ServerMessage>, c: ServerConn, e: ServerEvent)
    requires Enabled(lim, c, e)
    ensures c.closed ==> ConnectionSpec.Step(lim, c, e).closed
  {
    if c.closed {
      ClosedIsFinal(lim, c, e);
    }
  }

  lemma {:induction false} ClosedNeverReturns(lim: Limits<ServerMessage>, s: Server, steps: seq<ServerSpec.Step>,
                                              last: Server, id: nat)
    requires ServerValid(lim, s) && ServerSpec.IsRun(lim, s, steps, last)
    requires id in s.conns && s.conns[id].conn.closed
    ensures ServerValid(lim, last)
    ensures id in last.conns && StillClosed(s.conns[id], last.conns[id])
    decreases |steps|
  {
    if steps == [] {
    } else {
      NextKeepsValid(lim, s, steps[0]);
      ClosedStaysClosed(lim, s, steps[0], id);
      ClosedNeverReturns(lim, Next(lim, s, steps[0]), steps[1..], last, id);
    }
  }

  /** A connection that closed has no player then or ever after, answers nothing more and, while
      the manager runs, is not in the table, whatever still arrives for it. */
  lemma ClosedIsForGood(lim: Limits<ServerMessage>, before: seq<ServerSpec.Step>, s: Server,
                        after: seq<ServerSpec.Step>, last: Server, id: nat)
    requires lim.maxQueued >= 1 && ServerSpec.IsRun(lim, Init(), before, s)
    requires id in s.conns && s.conns[id].conn.closed && ServerSpec.IsRun(lim, s, after, last)
    ensures id !in last.world.registry && id !in last.table
    ensures id in last.conns && StillClosed(s.conns[id], last.conns[id])
  {
    InitIsValid(lim);
    RunKeepsValid(lim, Init(), before, s);
    ClosedNeverReturns(lim, s, after, last, id);
  }

  /** What is recorded as seen by a response is the world at the moment it was computed: in any
      reachable state, a message that is handled appends one response, and a snapshot in it lists
      exactly the players of the world as it then is, the requester's own among them. */
  lemma AnswerShowsWorld(lim: Limits<ServerMessage>, steps: seq<ServerSpec.Step>, s: Server, id: nat, i: nat,
                         m: ClientMessage)
    requires lim.maxQueued >= 1 && ServerSpec.IsRun(lim, Init(), steps, s)
    requires CanStep(lim, s, MessageArrives(id, i, m)) && !s.conns[id].conn.closed && OnMessage(s.world, id, m).Ok?
    ensures var t := Next(lim, s, MessageArrives(id, i, m)); var a := OnMessage(s.world, id, m).value.1;
      && t.conns[id].answers == s.conns[id].answers + [a] && t.conns[id].seen == s.conns[id].seen + [t.world.players]
      && IsAnswerTo(a, m) && id in t.world.registry && Shows(a, t.world.players, t.world.registry[id])
  {
    InitIsValid(lim);
    RunKeepsValid(lim, Init(), steps, s);
    HandlingRecords(s, id, i, m);
    OnMessageAnswers(s.world, s.conns, id, m);
  }

  lemma HandlingRecords(s: Server, id: nat, i: nat, m: ClientMessage)
    requires id in s.conns && i < |s.conns[id].conn.readers|
    requires !s.conns[id].conn.closed && OnMessage(s.world, id, m).Ok?
    ensures var t := ReadMessage(s, id, i, m); var (w, a) := OnMessage(s.world, id, m).value;
      && t.world == w && id in t.conns
      && t.conns[id].answers == s.conns[id].answers + [a] && t.conns[id].seen == s.conns[id].seen + [w.players]
  {
  }

  function Ids(ms: seq<ServerMessage>): seq<nat> {
    seq(|ms|, k requires 0 <= k < |ms| => ms[k].requestId)
  }

  function QueryIds(ms: seq<ClientMessage>): seq<nat> {
    seq(|ms|, k requires 0 <= k < |ms| => ms[k].requestId)
  }

  /** Ordered answers: on every connection the responses accepted for writing, and so those
      written, answer the messages read, one each, in order; every snapshot among them lists,
      once each and in increasing id order, all the players of the world it was taken of (see
      AnswerShowsWorld), the requester's own among them. */
  lemma OrderedAnswers(lim: Limits<ServerMessage>, steps: seq<ServerSpec.Step>, s: Server, id: nat)
    requires lim.maxQueued >= 1 && ServerSpec.IsRun(lim, Init(), steps, s) && id in s.conns
    ensures var c := s.conns[id].conn;
      && c.flushed <= c.accepted && |c.accepted| <= |c.received|
      && (forall k | 0 <= k < |c.accepted| :: IsAnswerTo(c.accepted[k], c.received[k]))
      && Ids(c.flushed) <= QueryIds(c.received)
      && |c.accepted| <= |s.conns[id].seen|
      && ShowsEach(c.accepted, s.conns[id].seen[..|c.accepted|], s.conns[id].player)
      && (!c.closed && !s.stopped ==> |c.accepted + Sends(c.tasks)| == |c.received|)
  {
    InitIsValid(lim);
    RunKeepsValid(lim, Init(), steps, s);
    assert Ok(lim, s.stopped)(s.conns[id]);
    AnswersInOrder(lim, s.stopped, s.conns[id]);
  }

  lemma AnswersInOrder(lim: Limits<ServerMessage>, stopped: bool, d: Served)
    requires ServedOk(lim, stopped, d)
    ensures var c := d.conn;
      && c.flushed <= c.accepted && |c.accepted| <= |c.received|
      && (forall k | 0 <= k < |c.accepted| :: IsAnswerTo(c.accepted[k], c.received[k]))
      && Ids(c.flushed) <= QueryIds(c.received)
      && |c.accepted| <= |d.seen| && ShowsEach(c.accepted, d.seen[..|c.accepted|], d.player)
  {
    var c := d.conn;
    assert forall k | 0 <= k < |c.accepted| :: c.accepted[k] == d.answers[k];
    assert forall k | 0 <= k < |c.flushed| :: c.flushed[k] == c.accepted[k];
  }
}
