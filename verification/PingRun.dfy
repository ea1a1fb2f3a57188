/** A run in which a ping completes: the guarantees of EndToEnd are not about nothing. */
module PingRun {
  import opened Prelude
  import opened FrameCodec
  import opened Framing
  import CS = ConnectionSpec
  import opened Delivery
  import opened Protocol
  import opened RequestTable
  import opened RequestCalls
  import opened DisconnectCalls
  import Cl = ClientSpec
  import Sv = ServerSpec
  import WorldSpec
  import opened EndToEnd

  /** Some run leads from one state to the other. */
  ghost predicate Leads(cfg: Setup, s: System, t: System) {
    exists steps :: IsRun(cfg, s, steps, t)
  }

  lemma {:induction false} RunsCompose(cfg: Setup, s: System, a: seq<Step>, m: System, b: seq<Step>, t: System)
    requires IsRun(cfg, s, a, m) && IsRun(cfg, m, b, t)
    ensures IsRun(cfg, s, a + b, t)
    decreases |a|
  {
    if a == [] {
      assert a + b == b;
    } else {
      assert (a + b)[1..] == a[1..] + b;
      RunsCompose(cfg, Next(cfg, s, a[0]), a[1..], m, b, t);
    }
  }

  lemma LeadsOn(cfg: Setup, s: System, m: System, t: System)
    requires Leads(cfg, s, m) && Leads(cfg, m, t)
    ensures Leads(cfg, s, t)
  {
    var a :| IsRun(cfg, s, a, m);
    var b :| IsRun(cfg, m, b, t);
    RunsCompose(cfg, s, a, m, b, t);
  }

  lemma StepLeads(cfg: Setup, s: System, step: Step)
    requires CanStep(cfg, s, step)
    ensures Leads(cfg, s, Next(cfg, s, step))
  {
    assert [step][1..] == [];
    assert IsRun(cfg, s, [step], Next(cfg, s, step));
  }

  // ---- what a connection does on its own ----

  /** Segments a connection runs without anybody else. */
  predicate OnItsOwn<In, Out>(e: CS.Event<In, Out>) {
    !e.Posted? && !e.MessageRead? && !e.HandlerDone? && (e.TaskRuns? ==> e.alive)
  }

  lemma {:induction false} NoticesOnlyGrow<In, Out>(lim: CS.Limits<Out>, c: CS.Conn<In, Out>,
                                                    es: seq<CS.Event<In, Out>>, last: CS.Conn<In, Out>)
    requires CS.IsRun(lim, c, es, last)
    ensures c.notices <= last.notices
    decreases |es|
  {
    if es == [] {
    } else {
      NoticesOnlyGrow(lim, CS.Step(lim, c, es[0]), es[1..], last);
    }
  }

  /** A connection with its read loop waiting, that has read and written these messages. */
  function Quiet<In, Out>(lim: CS.Limits<Out>, written: seq<Out>, received: seq<In>): CS.Conn<In, Out> {
    CS.Conn(true, false, false, [], [], [CS.Reading], [], written, written,
            Frames(lim.proto, lim.maxBytes, written), received, 0)
  }

  lemma StartsUp<In, Out(!new)>(lim: CS.Limits<Out>) returns (es: seq<CS.Event<In, Out>>)
    ensures CS.IsRun(lim, CS.Post(CS.Created<In, Out>(), CS.StartTask), es, Quiet(lim, [], []))
    ensures forall e | e in es :: OnItsOwn(e)
  {
    var start := CS.Post(CS.Created<In, Out>(), CS.StartTask);
    var c := start;
    es := [];
    es, c := Extend(lim, start, es, c, CS.TaskRuns(true));
    es, c := Extend(lim, start, es, c, CS.ReaderBegins(0));
  }

  /** A message posted to a connection that is otherwise quiet gets onto its wire. */
  lemma Writes<In, Out(!new)>(lim: CS.Limits<Out>, m: Out, received: seq<In>) returns (es: seq<CS.Event<In, Out>>)
    requires lim.maxQueued >= 1 && Encodable(lim.proto, lim.maxBytes, m)
    ensures CS.IsRun(lim, CS.Post(Quiet(lim, [], received), CS.SendTask(m)), es, Quiet(lim, [m], received))
    ensures forall e | e in es :: OnItsOwn(e)
  {
    var start := CS.Post(Quiet<In, Out>(lim, [], received), CS.SendTask(m));
    var c := start;
    es := [];
    es, c := Extend(lim, start, es, c, CS.TaskRuns(true));
    es, c := Extend(lim, start, es, c, CS.WriterBegins(0));
    assert c == Quiet(lim, [], received).(writing := true, writers := [CS.WritingPrefix(m, 0)], accepted := [m]);
    es, c := WritesFrame(lim, start, es, c, m);
    FramesOne(lim.proto, lim.maxBytes, m);
    es, c := Extend(lim, start, es, c, CS.PayloadWritten(0));
  }

  // ---- the same within the system ----

  lemma {:induction false} ClientConnLeads(cfg: Setup, s: System, g: nat, es: seq<Cl.ClientEvent>, c: Cl.ClientConn)
    requires g < |s.client.conns| && s.client.manager.connection == Some(g)
    requires CS.IsRun(cfg.client.lim, s.client.conns[g], es, c) && c.notices == s.client.conns[g].notices
    requires forall e | e in es :: OnItsOwn(e)
    ensures Leads(cfg, s, s.(client := s.client.(conns := s.client.conns[g := c])))
    decreases |es|
  {
    if es == [] {
      assert s.client.conns[g := c] == s.client.conns;
      assert IsRun(cfg, s, [], s);
    } else {
      var e, step := es[0], ClientRuns(Cl.ConnRuns(g, es[0]));
      assert e in es;
      var t := Next(cfg, s, step);
      NoticesOnlyGrow(cfg.client.lim, s.client.conns[g], [e], t.client.conns[g]);
      NoticesOnlyGrow(cfg.client.lim, t.client.conns[g], es[1..], c);
      ClientConnLeads(cfg, t, g, es[1..], c);
      StepLeads(cfg, s, step);
      assert t.client.conns[g := c] == s.client.conns[g := c];
      LeadsOn(cfg, s, t, s.(client := s.client.(conns := s.client.conns[g := c])));
    }
  }

  lemma {:induction false} ServerConnLeads(cfg: Setup, s: System, id: nat, es: seq<Sv.ServerEvent>, c: Sv.ServerConn)
    requires id in s.server.conns && id in s.server.table
    requires CS.IsRun(cfg.server, s.server.conns[id].conn, es, c) && c.notices == s.server.conns[id].conn.notices
    requires forall e | e in es :: OnItsOwn(e)
    ensures Leads(cfg, s, s.(server := s.server.(conns := s.server.conns[id := s.server.conns[id].(conn := c)])))
    decreases |es|
  {
    if es == [] {
      assert s.server.conns[id := s.server.conns[id].(conn := c)] == s.server.conns;
      assert IsRun(cfg, s, [], s);
    } else {
      var e, step := es[0], ServerRuns(Sv.ConnRuns(id, es[0]));
      assert e in es;
      var t := Next(cfg, s, step);
      var d := CS.Step(cfg.server, s.server.conns[id].conn, e);
      NoticesOnlyGrow(cfg.server, s.server.conns[id].conn, [e], d);
      NoticesOnlyGrow(cfg.server, d, es[1..], c);
      assert t.server == s.server.(conns := s.server.conns[id := s.server.conns[id].(conn := d)]);
      ServerConnLeads(cfg, t, id, es[1..], c);
      StepLeads(cfg, s, step);
      var conns := s.server.conns[id := s.server.conns[id].(conn := c)];
      assert t.server.conns[id := t.server.conns[id].(conn := c)] == conns;
      LeadsOn(cfg, s, t, s.(server := s.server.(conns := s.server.conns[id := s.server.conns[id].(conn := c)])));
    }
  }

  // ---- the run ----

  /** The client is connected, with one quiet connection that wrote and read these messages. */
  function Joined(cfg: Setup, m: Crm, k: Calls, written: seq<ClientMessage>, received: seq<ServerMessage>): Cl.Client {
    Cl.Client(Cl.Connected, false, 0, NoWaits(), m, [Quiet(cfg.client.lim, written, received)], [], k)
  }

  const UNUSED := Crm(0, Some(0), true, map[], [])
  const ASKING := Crm(1, Some(0), true, map[1 := Pending(0, Armed, Waiting, None, "")], [0])

  lemma ClientStartsConnecting(cfg: Setup) returns (s: System)
    ensures Leads(cfg, Init(), s)
    ensures s == Init().(client := Joined(cfg, UNUSED, NoCalls(), [], []).(
      conns := [CS.Post(CS.Created<ServerMessage, ClientMessage>(), CS.StartTask)]))
  {
    var s0 := Init();
    StepLeads(cfg, s0, ClientRuns(Cl.ConnectCalled));
    var s1 := Next(cfg, s0, ClientRuns(Cl.ConnectCalled));
    StepLeads(cfg, s1, ClientRuns(Cl.ConnectResumes(false)));
    s := Next(cfg, s1, ClientRuns(Cl.ConnectResumes(false)));
    LeadsOn(cfg, s0, s1, s);
  }

  lemma ClientConnects(cfg: Setup)
    ensures Leads(cfg, Init(), Init().(client := Joined(cfg, UNUSED, NoCalls(), [], [])))
  {
    var s := ClientStartsConnecting(cfg);
    var quiet := Quiet<ServerMessage, ClientMessage>(cfg.client.lim, [], []);
    var es := StartsUp<ServerMessage, ClientMessage>(cfg.client.lim);
    ClientConnLeads(cfg, s, 0, es, quiet);
    assert s.client.conns[0 := quiet] == [quiet];
    LeadsOn(cfg, Init(), s, Init().(client := Joined(cfg, UNUSED, NoCalls(), [], [])));
  }

  lemma AskingForPing(cfg: Setup, t: nat)
    requires cfg.client.maxPending >= 1
    ensures Cl.SendRequest(cfg.client, Joined(cfg, UNUSED, NoCalls(), [], []), PingRequest(t)) ==
      Joined(cfg, ASKING, Calls([PingRequest(t)], map[0 := 1], []), [], []).(
        conns := [CS.Post(Quiet(cfg.client.lim, [], []), CS.SendTask(ClientMessage(1, Ping(t))))])
  {
  }

  lemma PingIsAsked(cfg: Setup, s: System, t: nat) returns (u: System)
    requires cfg.client.maxPending >= 1 && s.client == Joined(cfg, UNUSED, NoCalls(), [], [])
    ensures Leads(cfg, s, u)
    ensures u == s.(client := Joined(cfg, ASKING, Calls([PingRequest(t)], map[0 := 1], []), [], []).(
        conns := [CS.Post(Quiet(cfg.client.lim, [], []), CS.SendTask(ClientMessage(1, Ping(t))))]))
  {
    var step := ClientRuns(Cl.SendCalled(PingRequest(t)));
    AskingForPing(cfg, t);
    StepLeads(cfg, s, step);
    u := Next(cfg, s, step);
  }

  lemma PingIsWritten(cfg: Setup, s: System, k: Calls, m: ClientMessage)
    requires cfg.client.lim.maxQueued >= 1 && Encodable(cfg.client.lim.proto, cfg.client.lim.maxBytes, m)
    requires s.client == Joined(cfg, ASKING, k, [], []).(
      conns := [CS.Post(Quiet(cfg.client.lim, [], []), CS.SendTask(m))])
    ensures Leads(cfg, s, s.(client := Joined(cfg, ASKING, k, [m], [])))
  {
    var es := Writes<ServerMessage, ClientMessage>(cfg.client.lim, m, []);
    var done := Quiet<ServerMessage, ClientMessage>(cfg.client.lim, [m], []);
    ClientConnLeads(cfg, s, 0, es, done);
    assert s.client.conns[0 := done] == [done];
  }

  /** A server with one connection. */
  function Serving(cfg: Setup, w: WorldSpec.World, d: Sv.Served): Sv.Server {
    Sv.Server(false, true, 1, {1}, map[1 := d], w)
  }

  lemma ServerAccepts(cfg: Setup, s: System)
    requires s.server == Sv.Init()
    ensures Leads(cfg, s, s.(server :=
      Serving(cfg, WorldSpec.EmptyWorld(), Sv.Served(Quiet(cfg.server, [], []), [], [], None))))
  {
    var step := ServerRuns(Sv.AcceptRuns);
    var accepted := Next(cfg, s, step);
    StepLeads(cfg, s, step);
    assert accepted.server == Serving(cfg, WorldSpec.EmptyWorld(), Sv.NewlyServed());
    var es := StartsUp<ClientMessage, ServerMessage>(cfg.server);
    var quiet := Quiet<ClientMessage, ServerMessage>(cfg.server, [], []);
    ServerConnLeads(cfg, accepted, 1, es, quiet);
    var d := Sv.Served(quiet, [], [], None);
    assert accepted.server.conns[1 := d] == map[1 := d];
    LeadsOn(cfg, s, accepted, s.(server := Serving(cfg, WorldSpec.EmptyWorld(), d)));
  }

  /** What the server computes for the first message it reads, if that is a ping. */
  lemma FirstAnswer(cfg: Setup, d: Sv.ServerConn, m: ClientMessage, t: nat)
    requires m == ClientMessage(1, Ping(t)) && d == Quiet(cfg.server, [], [])
    ensures var served := Sv.ReadMessage(Serving(cfg, WorldSpec.EmptyWorld(), Sv.Served(d, [], [], None)), 1, 0, m);
      && served.conns.Keys == {1} && served.table == {1}
      && served.conns[1].conn == CS.Post(Quiet(cfg.server, [], [m]), CS.SendTask(ServerMessage(1, StatusOk, Pong(t))))
  {
    assert d.readers[0 := CS.Handling(m)] == [CS.Handling(m)];
    assert [CS.Handling(m)][0 := CS.Reading] == [CS.Reading];
  }

  lemma PingIsAnswered(cfg: Setup, s: System, m: ClientMessage, t: nat) returns (u: System)
    requires RoundTrips(cfg.client.lim.proto) && cfg.client.lim.maxBytes == cfg.server.maxBytes
    requires m == ClientMessage(1, Ping(t)) && Encodable(cfg.client.lim.proto, cfg.client.lim.maxBytes, m)
    requires s.client.conns == [Quiet(cfg.client.lim, [m], [])] && s.peer == map[0 := 1] && s.up(0) == 0
    requires s.server == Serving(cfg, WorldSpec.EmptyWorld(), Sv.Served(Quiet(cfg.server, [], []), [], [], None))
    ensures Leads(cfg, s, u) && u.client == s.client && u.peer == s.peer && u.down == s.down
    ensures u.server.conns.Keys == {1} && u.server.table == {1}
    ensures u.server.conns[1].conn ==
      CS.Post(Quiet(cfg.server, [], [m]), CS.SendTask(ServerMessage(1, StatusOk, Pong(t))))
  {
    var wire := s.client.conns[0].wire;
    FramesOne(cfg.client.lim.proto, cfg.client.lim.maxBytes, m);
    assert wire[0..] == Frame(cfg.client.lim.proto, cfg.client.lim.maxBytes, m);
    WholeFrameReads(cfg.client.lim.proto, cfg.client.lim.maxBytes, cfg.server.maxBytes, m, wire[0..]);
    FirstAnswer(cfg, Quiet(cfg.server, [], []), m, t);
    StepLeads(cfg, s, RequestArrives(0, 0));
    u := Next(cfg, s, RequestArrives(0, 0));
  }

  lemma AnswerIsWritten(cfg: Setup, s: System, m: ClientMessage, a: ServerMessage) returns (u: System)
    requires cfg.server.maxQueued >= 1 && Encodable(cfg.server.proto, cfg.server.maxBytes, a)
    requires s.server.conns.Keys == {1} && s.server.table == {1}
    requires s.server.conns[1].conn == CS.Post(Quiet(cfg.server, [], [m]), CS.SendTask(a))
    ensures Leads(cfg, s, u) && u.client == s.client && u.peer == s.peer && u.down == s.down
    ensures 1 in u.server.conns && u.server.conns[1].conn == Quiet(cfg.server, [a], [m])
  {
    var es := Writes<ClientMessage, ServerMessage>(cfg.server, a, [m]);
    var done := Quiet<ClientMessage, ServerMessage>(cfg.server, [a], [m]);
    ServerConnLeads(cfg, s, 1, es, done);
    u := s.(server := s.server.(conns := s.server.conns[1 := s.server.conns[1].(conn := done)]));
  }

  lemma AnswerIsReadable(cfg: Setup, s: System, a: ServerMessage)
    requires RoundTrips(cfg.server.proto) && cfg.client.lim.maxBytes == cfg.server.maxBytes
    requires Encodable(cfg.server.proto, cfg.server.maxBytes, a)
    requires s.peer == map[0 := 1] && s.down(0) == 0
    requires 1 in s.server.conns && s.server.conns[1].conn.wire == Frames(cfg.server.proto, cfg.server.maxBytes, [a])
    ensures DownBytes(cfg, s, 0).Message? && DownBytes(cfg, s, 0).message == a
  {
    var wire := s.server.conns[1].conn.wire;
    FramesOne(cfg.server.proto, cfg.server.maxBytes, a);
    assert wire[0..] == Frame(cfg.server.proto, cfg.server.maxBytes, a);
    WholeFrameReads(cfg.server.proto, cfg.server.maxBytes, cfg.client.lim.maxBytes, a, wire[0..]);
  }

  lemma AnswerIsTaken(cfg: Setup, k: Calls, m: ClientMessage, a: ServerMessage)
    ensures Cl.ConnStep(cfg.client, Joined(cfg, ASKING, k, [m], []), 0, CS.MessageRead(0, a)) ==
      Joined(cfg, ASKING, k, [m], []).(
        conns := [Quiet<ServerMessage, ClientMessage>(cfg.client.lim, [m], [a]).(readers := [CS.Handling(a)])])
  {
    var c := Quiet<ServerMessage, ClientMessage>(cfg.client.lim, [m], []);
    var d := CS.ReadCompletes(c, 0, a);
    assert d.readers == [CS.Handling(a)];
    assert d.received == [a];
    assert [c][0 := d] == [d];
  }

  lemma AnswerArrives(cfg: Setup, s: System, k: Calls, m: ClientMessage, a: ServerMessage) returns (u: System)
    requires DownBytes(cfg, s, 0).Message? && DownBytes(cfg, s, 0).message == a
    requires s.client == Joined(cfg, ASKING, k, [m], [])
    ensures Leads(cfg, s, u)
    ensures u.client == Joined(cfg, ASKING, k, [m], []).(
      conns := [Quiet<ServerMessage, ClientMessage>(cfg.client.lim, [m], [a]).(readers := [CS.Handling(a)])])
  {
    AnswerIsTaken(cfg, k, m, a);
    StepLeads(cfg, s, ResponseArrives(0, 0));
    u := Next(cfg, s, ResponseArrives(0, 0));
  }

  lemma CallCompletes(cfg: Setup, s: System, r: Request, m: ClientMessage, a: ServerMessage) returns (u: System)
    requires a.requestId == 1
    requires s.client == Joined(cfg, ASKING, Calls([r], map[0 := 1], []), [m], []).(
      conns := [Quiet<ServerMessage, ClientMessage>(cfg.client.lim, [m], [a]).(readers := [CS.Handling(a)])])
    ensures Leads(cfg, s, u)
    ensures u.client.calls == Calls([r], map[], [Completion(0, Response(a))])
  {
    var received := ClientRuns(Cl.ReceiveRuns(0, 0));
    StepLeads(cfg, s, received);
    var t := Next(cfg, s, received);
    assert t.client.manager.pending == map[1 := Pending(0, CancelledQueued, Completed, Some(a), "")];
    StepLeads(cfg, t, ClientRuns(Cl.SenderResumes(0)));
    u := Next(cfg, t, ClientRuns(Cl.SenderResumes(0)));
    assert map[0 := 1] - {0} == map[];
    LeadsOn(cfg, s, t, u);
  }

  lemma ReadyToAnswer(cfg: Setup, t: nat) returns (s: System)
    requires cfg.client.maxPending >= 1 && cfg.client.lim.maxQueued >= 1
    requires Encodable(cfg.client.lim.proto, cfg.client.lim.maxBytes, ClientMessage(1, Ping(t)))
    ensures Leads(cfg, Init(), s)
    ensures s.client == Joined(cfg, ASKING, Calls([PingRequest(t)], map[0 := 1], []), [ClientMessage(1, Ping(t))], [])
    ensures s.server == Serving(cfg, WorldSpec.EmptyWorld(), Sv.Served(Quiet(cfg.server, [], []), [], [], None))
    ensures s.peer == map[0 := 1] && s.up(0) == 0 && s.down(0) == 0
  {
    var m, k := ClientMessage(1, Ping(t)), Calls([PingRequest(t)], map[0 := 1], []);
    ClientConnects(cfg);
    var s1 := Init().(client := Joined(cfg, UNUSED, NoCalls(), [], []));
    var s2 := PingIsAsked(cfg, s1, t);
    LeadsOn(cfg, Init(), s1, s2);
    PingIsWritten(cfg, s2, k, m);
    var s3 := s2.(client := Joined(cfg, ASKING, k, [m], []));
    LeadsOn(cfg, Init(), s2, s3);
    s := ServerJoins(cfg, s3);
    LeadsOn(cfg, Init(), s3, s);
  }

  lemma ServerJoins(cfg: Setup, s: System) returns (u: System)
    requires s.server == Sv.Init() && |s.client.conns| == 1 && s.peer == map[]
    ensures Leads(cfg, s, u) && u.client == s.client && u.up == s.up && u.down == s.down && u.peer == map[0 := 1]
    ensures u.server == Serving(cfg, WorldSpec.EmptyWorld(), Sv.Served(Quiet(cfg.server, [], []), [], [], None))
  {
    ServerAccepts(cfg, s);
    var d := Sv.Served(Quiet(cfg.server, [], []), [], [], None);
    var t := s.(server := Serving(cfg, WorldSpec.EmptyWorld(), d));
    StepLeads(cfg, t, Paired(0, 1));
    u := Next(cfg, t, Paired(0, 1));
    LeadsOn(cfg, s, t, u);
  }

  /** From the start, some run ends with a ping that returned its own timestamp. */
  lemma PingCompletes(cfg: Setup, t: nat) returns (steps: seq<Step>, s: System)
    requires RoundTrips(cfg.client.lim.proto) && RoundTrips(cfg.server.proto)
    requires cfg.client.lim.maxBytes == cfg.server.maxBytes
    requires cfg.client.maxPending >= 1 && cfg.client.lim.maxQueued >= 1 && cfg.server.maxQueued >= 1
    requires Encodable(cfg.client.lim.proto, cfg.client.lim.maxBytes, ClientMessage(1, Ping(t)))
    requires Encodable(cfg.server.proto, cfg.server.maxBytes, ServerMessage(1, StatusOk, Pong(t)))
    ensures IsRun(cfg, Init(), steps, s) && s.client.calls.made == [PingRequest(t)]
    ensures exists c :: c in s.client.calls.completions && TypedReply(PingRequest(t), c.outcome) == PongValue(t)
  {
    var m, a := ClientMessage(1, Ping(t)), ServerMessage(1, StatusOk, Pong(t));
    var k := Calls([PingRequest(t)], map[0 := 1], []);
    var s1 := ReadyToAnswer(cfg, t);
    var s2 := PingIsAnswered(cfg, s1, m, t);
    LeadsOn(cfg, Init(), s1, s2);
    var s3 := AnswerIsWritten(cfg, s2, m, a);
    LeadsOn(cfg, Init(), s2, s3);
    AnswerIsReadable(cfg, s3, a);
    var s4 := AnswerArrives(cfg, s3, k, m, a);
    LeadsOn(cfg, Init(), s3, s4);
    s := CallCompletes(cfg, s4, PingRequest(t), m, a);
    LeadsOn(cfg, Init(), s4, s);
    steps :| IsRun(cfg, Init(), steps, s);
    assert Completion(0, Response(a)) in s.client.calls.completions;
  }
}
