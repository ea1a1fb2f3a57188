/** What each event does to the server in every reachable state, exactly
    (server/src/network/ServerConnectionManager.cpp, ServerMessageHandler.cpp). */
module ServerLaws {
  import opened Prelude
  import opened ConnectionSpec
  import opened Protocol
  import opened WorldSpec
  import opened ServerSpec
  import opened ServerInvariants

  /** The connection answered: one response more, posted unless the manager is stopped, and it
      reads on. */
  ghost predicate Answers(s: Server, t: Server, id: nat, a: ServerMessage)
    requires id in s.conns && id in t.conns
  {
    var c, d := s.conns[id].conn, t.conns[id].conn;
    && !d.closed && d.readers == [Reading]
    && t.conns[id].answers == s.conns[id].answers + [a]
    && d.tasks == c.tasks + (if s.stopped then [] else [SendTask(a)])
  }

  /** The handler threw: the connection is closed and its player, if any, gone. */
  ghost predicate Drops(s: Server, t: Server, id: nat)
    requires id in s.conns && id in t.conns
  {
    t.conns[id].conn.closed && t.conns[id].answers == s.conns[id].answers && id !in t.world.registry
  }

  /** A message that arrives on an open connection is answered, unless it would need a new player
      and all player ids are used up; then the connection is closed. */
  lemma HandlesExactly(lim: Limits<ServerMessage>, steps: seq<ServerSpec.Step>, s: Server, id: nat, i: nat,
                       m: ClientMessage)
    requires lim.maxQueued >= 1 && ServerSpec.IsRun(lim, Init(), steps, s)
    requires CanStep(lim, s, MessageArrives(id, i, m)) && !s.conns[id].conn.closed
    ensures var t := Next(lim, s, MessageArrives(id, i, m));
      && t.conns.Keys == s.conns.Keys && t.stopped == s.stopped
      && if id in s.world.registry || s.world.nextPlayerId < 255
         then exists a :: IsAnswerTo(a, m) && Answers(s, t, id, a)
         else Drops(s, t, id)
  {
    ServerInvariants.InitIsValid(lim);
    ServerInvariants.RunKeepsValid(lim, Init(), steps, s);
    ReadyToHandle(lim, s, id, i);
    HandlesAt(s, id, i, m);
  }

  /** An open connection has one read loop and, while the manager runs, is in the table. */
  lemma ReadyToHandle(lim: Limits<ServerMessage>, s: Server, id: nat, i: nat)
    requires ServerValid(lim, s) && id in s.conns && !s.conns[id].conn.closed && i < |s.conns[id].conn.readers|
    ensures |s.conns[id].conn.readers| == 1 && i == 0 && (!s.stopped ==> id in s.table)
    ensures WorldSpec.Valid(s.world)
  {
    assert ServerInvariants.Ok(lim, s.stopped)(s.conns[id]);
  }

  lemma HandlesAt(s: Server, id: nat, i: nat, m: ClientMessage)
    requires id in s.conns && |s.conns[id].conn.readers| == 1 && i == 0 && !s.conns[id].conn.closed
    requires (!s.stopped ==> id in s.table) && WorldSpec.Valid(s.world)
    ensures var t := ReadMessage(s, id, i, m);
      && t.conns.Keys == s.conns.Keys && t.stopped == s.stopped
      && if id in s.world.registry || s.world.nextPlayerId < 255
         then exists a :: IsAnswerTo(a, m) && Answers(s, t, id, a)
         else Drops(s, t, id)
  {
    StoppedStays(s, id, i, m);
    if id in s.world.registry || s.world.nextPlayerId < MAX_PLAYER_ID {
      var a := HandledAnswers(s, id, i, m);
    } else {
      UnhandledDrops(s, id, i, m);
    }
  }

  lemma StoppedStays(s: Server, id: nat, i: nat, m: ClientMessage)
    requires id in s.conns && i < |s.conns[id].conn.readers|
    ensures ReadMessage(s, id, i, m).stopped == s.stopped
  {
  }

  lemma HandledAnswers(s: Server, id: nat, i: nat, m: ClientMessage) returns (a: ServerMessage)
    requires id in s.conns && |s.conns[id].conn.readers| == 1 && i == 0 && !s.conns[id].conn.closed
    requires !s.stopped ==> id in s.table
    requires WorldSpec.Valid(s.world) && (id in s.world.registry || s.world.nextPlayerId < MAX_PLAYER_ID)
    ensures var t := ReadMessage(s, id, i, m);
      t.conns.Keys == s.conns.Keys && IsAnswerTo(a, m) && Answers(s, t, id, a)
  {
    a := ResponseFor(s.world, id, m);
    ResponseIsPosted(s, id, i, m, a);
  }

  lemma ResponseFor(w: World, id: nat, m: ClientMessage) returns (a: ServerMessage)
    requires WorldSpec.Valid(w) && (id in w.registry || w.nextPlayerId < MAX_PLAYER_ID)
    ensures OnMessage(w, id, m).Ok? && a == OnMessage(w, id, m).value.1 && IsAnswerTo(a, m)
  {
    ConnectKeepsValid(w, id);
    SnapshotShowsEveryone(OnMessage(w, id, m).value.0, id);
    a := OnMessage(w, id, m).value.1;
  }

  lemma ResponseIsPosted(s: Server, id: nat, i: nat, m: ClientMessage, a: ServerMessage)
    requires id in s.conns && |s.conns[id].conn.readers| == 1 && i == 0 && !s.conns[id].conn.closed
    requires !s.stopped ==> id in s.table
    requires OnMessage(s.world, id, m).Ok? && a == OnMessage(s.world, id, m).value.1
    ensures var t := ReadMessage(s, id, i, m); t.conns.Keys == s.conns.Keys && Answers(s, t, id, a)
  {
  }

  lemma UnhandledDrops(s: Server, id: nat, i: nat, m: ClientMessage)
    requires id in s.conns && |s.conns[id].conn.readers| == 1 && i == 0 && !s.conns[id].conn.closed
    requires id !in s.world.registry && s.world.nextPlayerId == MAX_PLAYER_ID
    ensures var t := ReadMessage(s, id, i, m); t.conns.Keys == s.conns.Keys && Drops(s, t, id)
  {
  }

  /** The accept loop ends when the manager is stopped or the ids have run out; otherwise the
      connection accepted is new, under the next id, and its start is posted. */
  lemma AcceptsExactly(lim: Limits<ServerMessage>, steps: seq<ServerSpec.Step>, s: Server)
    requires lim.maxQueued >= 1 && ServerSpec.IsRun(lim, Init(), steps, s) && s.accepting
    ensures var t, id := Next(lim, s, AcceptRuns), s.nextId + 1;
      && t.world == s.world && t.stopped == s.stopped
      && if s.stopped || id == 65536 then !t.accepting && t.conns == s.conns && t.table == s.table
         else t.accepting && id !in s.conns && t.conns == s.conns[id := NewlyServed()] && t.table == s.table + {id}
  {
    ServerInvariants.InitIsValid(lim);
    ServerInvariants.RunKeepsValid(lim, Init(), steps, s);
    AcceptIs(s);
  }

  /** What stopAll() leaves of a connection. */
  function Stopping(stopped: bool, d: Served): Served {
    if stopped || d.conn.closed then d else d.(conn := Post(d.conn, StopTask))
  }

  /** stopAll() posts a stop to every open connection, the first time; then the table is empty. */
  lemma StopsExactly(lim: Limits<ServerMessage>, steps: seq<ServerSpec.Step>, s: Server)
    requires lim.maxQueued >= 1 && ServerSpec.IsRun(lim, Init(), steps, s)
    ensures var t := Next(lim, s, StopCalled);
      && t.stopped && t.table == {} && t.world == s.world && t.conns.Keys == s.conns.Keys
      && forall id | id in s.conns :: t.conns[id] == Stopping(s.stopped, s.conns[id])
  {
    ServerInvariants.InitIsValid(lim);
    ServerInvariants.RunKeepsValid(lim, Init(), steps, s);
    StopsAt(s);
  }

  lemma StopsAt(s: Server)
    requires s.table == if s.stopped then {} else Open(s.conns)
    ensures var t := StopAll(s);
      && t.stopped && t.table == {} && t.world == s.world && t.conns.Keys == s.conns.Keys
      && forall id | id in s.conns :: t.conns[id] == Stopping(s.stopped, s.conns[id])
  {
  }
}
