/** One client, the server, and the bytes between them, under any interleaving and any number of
    reconnects. The server may have other clients; what they send is unconstrained.

    A byte is on the wire once the sender's transport took it. A read of a frame can complete at
    any time after all of its bytes were written; a stream may also end or fail at any time
    (ReadFailed of either side). The server may accept before or after the client's connect()
    resumes: which of its connections a connection of the client ends at is fixed by Paired, at
    any time before the server has read anything from it. */
module EndToEnd {
  import opened Prelude
  import opened FrameCodec
  import opened Framing
  import opened ConnectionSpec
  import opened Protocol
  import opened RequestTable
  import opened RequestCalls
  import Cl = ClientSpec
  import ClientTheorems
  import Sv = ServerSpec
  import WorldSpec
  import opened ServerInvariants

  /** What both programs are configured with. */
  datatype Setup = Setup(client: Cl.Config, server: Limits<ServerMessage>)

  datatype System = System(
    client: Cl.Client,
    server: Sv.Server,
    peer: map<nat, nat>,     // the server's connection for a connection of the client
    up: nat -> nat,          // bytes of the client's connection the server has consumed
    down: nat -> nat)        // bytes of its peer the client's connection has consumed

  function Init(): System {
    System(Cl.Init(), Sv.Init(), map[], _ => 0, _ => 0)
  }

  datatype Step =
    | ClientRuns(step: Cl.Step)                     // anything but a message arriving
    | ServerRuns(move: Sv.Step)                     // likewise
    | Paired(conn: nat, id: nat)                    // these two turn out to be the ends of one link
    | RequestArrives(conn: nat, reader: nat)
    | ResponseArrives(conn: nat, reader: nat)
    | OtherMessage(id: nat, reader: nat, message: ClientMessage)

  function Set(f: nat -> nat, k: nat, v: nat): nat -> nat {
    x => if x == k then v else f(x)
  }

  function UpBytes(cfg: Setup, s: System, g: nat): FrameRead<ClientMessage> {
    if g < |s.client.conns| && s.up(g) <= |s.client.conns[g].wire|
    then ReadFrame(cfg.client.lim.proto, cfg.server.maxBytes, s.client.conns[g].wire[s.up(g)..])
    else Incomplete
  }

  function DownBytes(cfg: Setup, s: System, g: nat): FrameRead<ServerMessage> {
    if g in s.peer && s.peer[g] in s.server.conns && s.down(g) <= |s.server.conns[s.peer[g]].conn.wire|
    then ReadFrame(cfg.server.proto, cfg.client.lim.maxBytes, s.server.conns[s.peer[g]].conn.wire[s.down(g)..])
    else Incomplete
  }

  predicate CanStep(cfg: Setup, s: System, step: Step) {
    match step
    case ClientRuns(e) =>
      && Cl.CanStep(cfg.client, s.client, e)
      && !(e.ConnRuns? && e.event.MessageRead?)
    case ServerRuns(e) => Sv.CanStep(cfg.server, s.server, e) && !e.MessageArrives?
    case Paired(g, id) =>
      && g < |s.client.conns| && g !in s.peer
      && id in s.server.conns && id !in s.peer.Values && s.server.conns[id].conn.received == []
    case RequestArrives(g, i) =>
      && UpBytes(cfg, s, g).Message? && g in s.peer && s.peer[g] in s.server.conns
      && i < |s.server.conns[s.peer[g]].conn.readers| && s.server.conns[s.peer[g]].conn.readers[i].Reading?
    case ResponseArrives(g, i) =>
      && DownBytes(cfg, s, g).Message? && g < |s.client.conns|
      && i < |s.client.conns[g].readers| && s.client.conns[g].readers[i].Reading?
    case OtherMessage(id, i, _) =>
      && id in s.server.conns && id !in s.peer.Values
      && i < |s.server.conns[id].conn.readers| && s.server.conns[id].conn.readers[i].Reading?
  }

  function TakeRequest(cfg: Setup, s: System, g: nat, i: nat): System
    requires UpBytes(cfg, s, g).Message? && g in s.peer && s.peer[g] in s.server.conns
    requires i < |s.server.conns[s.peer[g]].conn.readers|
  {
    var r := UpBytes(cfg, s, g);
    s.(server := Sv.ReadMessage(s.server, s.peer[g], i, r.message), up := Set(s.up, g, s.up(g) + r.length))
  }

  function Next(cfg: Setup, s: System, step: Step): System
    requires CanStep(cfg, s, step)
  {
    match step
    case ClientRuns(e) => s.(client := Cl.Next(cfg.client, s.client, e))
    case ServerRuns(e) => s.(server := Sv.Next(cfg.server, s.server, e))
    case Paired(g, id) => s.(peer := s.peer[g := id])
    case RequestArrives(g, i) => TakeRequest(cfg, s, g, i)
    case ResponseArrives(g, i) =>
      var r := DownBytes(cfg, s, g);
      s.(client := Cl.ConnStep(cfg.client, s.client, g, MessageRead(i, r.message)),
         down := Set(s.down, g, s.down(g) + r.length))
    case OtherMessage(id, i, m) => s.(server := Sv.ReadMessage(s.server, id, i, m))
  }

  ghost predicate IsRun(cfg: Setup, s: System, steps: seq<Step>, last: System)
    decreases |steps|
  {
    if steps == [] then last == s
    else CanStep(cfg, s, steps[0]) && IsRun(cfg, Next(cfg, s, steps[0]), steps[1..], last)
  }

  // ---- one link ----

  /** One direction of a link: what was received is a prefix of what was accepted for sending,
      and while the receiver is open it has consumed exactly the frames of what it received. */
  ghost predicate DirectionOk<M(!new)>(p: Protobuf<M>, max: UInt32, accepted: seq<M>, received: seq<M>, open: bool,
                                consumed: nat) {
    && received <= accepted
    && (open ==> AllEncodable(p, max, received) && consumed == |Frames(p, max, received)|)
  }

  /** A read of a frame that completes returns the next message accepted. */
  lemma ArrivalIsNext<M(!new)>(p: Protobuf<M>, max: UInt32, maxRead: UInt32, accepted: seq<M>, wire: seq<Byte>,
                               received: seq<M>, consumed: nat)
    requires RoundTrips(p) && wire <= Frames(p, max, accepted)
    requires DirectionOk(p, max, accepted, received, true, consumed) && consumed <= |wire|
    ensures match ReadFrame(p, maxRead, wire[consumed..])
      case Message(m, n) => DirectionOk(p, max, accepted, received + [m], true, consumed + n)
      case _ => true
  {
    var rest := accepted[|received|..];
    assert accepted == received + rest;
    FramesAppend(p, max, received, rest);
    assert wire[consumed..] <= Frames(p, max, rest);
    ReadFrameIsFirst(p, max, maxRead, rest, wire[consumed..]);
    var r := ReadFrame(p, maxRead, wire[consumed..]);
    if r.Message? {
      assert received + [r.message] <= accepted;
      FramesAppend(p, max, received, [r.message]);
      FramesOne(p, max, r.message);
    }
  }

  ghost predicate LinkOk(cfg: Setup, c: Cl.ClientConn, d: Sv.ServerConn, up: nat, down: nat) {
    && DirectionOk(cfg.client.lim.proto, cfg.client.lim.maxBytes, c.accepted, d.received, !d.closed, up)
    && DirectionOk(cfg.server.proto, cfg.server.maxBytes, d.accepted, c.received, !c.closed, down)
  }

  /** What any step but the arrival of a message does to a connection. */
  ghost predicate Grew<In, Out>(c: Conn<In, Out>, d: Conn<In, Out>) {
    c.accepted <= d.accepted && d.received == c.received && (c.closed ==> d.closed)
  }

  lemma LinkGrows(cfg: Setup, c: Cl.ClientConn, c': Cl.ClientConn, d: Sv.ServerConn, d': Sv.ServerConn, up: nat,
                  down: nat)
    requires LinkOk(cfg, c, d, up, down) && Grew(c, c') && Grew(d, d')
    ensures LinkOk(cfg, c', d', up, down)
  {
  }

  lemma StepGrows<In, Out(!new)>(lim: Limits<Out>, c: Conn<In, Out>, e: Event<In, Out>)
    requires Enabled(lim, c, e) && !e.MessageRead?
    ensures Grew(c, ConnectionSpec.Step(lim, c, e))
  {
  }

  // ---- which messages can be where ----

  /** A request on its way is the one its id was issued for. */
  ghost predicate FromCall(m: ClientMessage, issuedTo: seq<nat>, made: seq<Request>) {
    && 1 <= m.requestId <= |issuedTo| && issuedTo[m.requestId - 1] < |made|
    && m == Cl.MessageFor(m.requestId, made[issuedTo[m.requestId - 1]])
  }

  /** A response on its way answers the request its id was issued for. */
  ghost predicate ToCall(r: ServerMessage, issuedTo: seq<nat>, made: seq<Request>) {
    && 1 <= r.requestId <= |issuedTo| && issuedTo[r.requestId - 1] < |made|
    && IsAnswerTo(r, Cl.MessageFor(r.requestId, made[issuedTo[r.requestId - 1]]))
  }

  ghost predicate Carries(c: Cl.ClientConn, m: ClientMessage) {
    m in c.accepted || SendTask(m) in c.tasks
  }

  ghost predicate Asks(c: Cl.ClientConn, issuedTo: seq<nat>, made: seq<Request>) {
    forall m | Carries(c, m) :: FromCall(m, issuedTo, made)
  }

  /** Everything received is an answer to some call, and a handler only ever has something received. */
  ghost predicate Hears(c: Cl.ClientConn, issuedTo: seq<nat>, made: seq<Request>) {
    && (forall r | r in c.received :: ToCall(r, issuedTo, made))
    && (forall h | h in c.readers && h.Handling? :: h.message in c.received)
  }

  /** Some connection of the client received this response. */
  ghost predicate Heard(conns: seq<Cl.ClientConn>, r: ServerMessage) {
    exists g :: 0 <= g < |conns| && r in conns[g].received
  }

  /** Every response a request is holding or has ended with came in on some connection. */
  ghost predicate Holds(conns: seq<Cl.ClientConn>, m: Crm, k: Calls) {
    && (forall id | id in m.pending && m.pending[id].response.Some? :: Heard(conns, m.pending[id].response.value))
    && (forall c | c in k.completions && c.outcome.Response? :: Heard(conns, c.outcome.message))
  }

  lemma StepCarries(lim: Limits<ClientMessage>, c: Cl.ClientConn, e: Cl.ClientEvent, m: ClientMessage)
    requires Enabled(lim, c, e) && Carries(ConnectionSpec.Step(lim, c, e), m)
    ensures Carries(c, m) || e == Posted(SendTask(m))
  {
  }

  lemma StepHandles(lim: Limits<ClientMessage>, c: Cl.ClientConn, e: Cl.ClientEvent)
    requires Enabled(lim, c, e) && !e.MessageRead?
    requires forall h | h in c.readers && h.Handling? :: h.message in c.received
    ensures var d := ConnectionSpec.Step(lim, c, e);
      forall h | h in d.readers && h.Handling? :: h.message in d.received
  {
  }

  // ---- the invariant of the whole system ----

  /** Every connection of the client that was accepted is linked to a server connection of its
      own; one that was not has received nothing. */
  ghost predicate Linked(cfg: Setup, conns: seq<Cl.ClientConn>, served: map<nat, Sv.Served>,
                         peer: map<nat, nat>, up: nat -> nat, down: nat -> nat) {
    && (forall g | g in peer ::
         g < |conns| && peer[g] in served && LinkOk(cfg, conns[g], served[peer[g]].conn, up(g), down(g)))
    && (forall g, h | g in peer && h in peer && g != h :: peer[g] != peer[h])
    && (forall g | 0 <= g < |conns| && g !in peer :: conns[g].received == [])
    && (forall g: nat | g !in peer :: up(g) == 0 && down(g) == 0)
  }

  /** Every message of every connection belongs to the call its id was issued for. */
  ghost predicate Traced(conns: seq<Cl.ClientConn>, issuedTo: seq<nat>, made: seq<Request>) {
    forall g | 0 <= g < |conns| :: Asks(conns[g], issuedTo, made) && Hears(conns[g], issuedTo, made)
  }

  ghost predicate SystemValid(cfg: Setup, s: System) {
    && RoundTrips(cfg.client.lim.proto) && RoundTrips(cfg.server.proto)
    && ClientTheorems.ClientValid(cfg.client, s.client)
    && ServerValid(cfg.server, s.server)
    && Linked(cfg, s.client.conns, s.server.conns, s.peer, s.up, s.down)
    && Traced(s.client.conns, s.client.manager.issuedTo, s.client.calls.made)
    && Holds(s.client.conns, s.client.manager, s.client.calls)
  }

  lemma InitIsValid(cfg: Setup)
    requires RoundTrips(cfg.client.lim.proto) && RoundTrips(cfg.server.proto)
    requires cfg.client.lim.maxQueued >= 1 && cfg.server.maxQueued >= 1
    ensures SystemValid(cfg, Init())
  {
    ClientTheorems.InitIsValid(cfg.client);
    ServerInvariants.InitIsValid(cfg.server);
  }

  // ---- connections grow ----

  ghost predicate ClientGrew(conns: seq<Cl.ClientConn>, conns': seq<Cl.ClientConn>) {
    && |conns| <= |conns'|
    && (forall g | 0 <= g < |conns| :: Grew(conns[g], conns'[g]))
    && (forall g | |conns| <= g < |conns'| :: conns'[g].received == [])
  }

  ghost predicate ServerGrew(served: map<nat, Sv.Served>, served': map<nat, Sv.Served>) {
    && served.Keys <= served'.Keys
    && (forall id | id in served :: Grew(served[id].conn, served'[id].conn))
  }

  lemma LinksGrow(cfg: Setup, conns: seq<Cl.ClientConn>, conns': seq<Cl.ClientConn>,
                  served: map<nat, Sv.Served>, served': map<nat, Sv.Served>,
                  peer: map<nat, nat>, up: nat -> nat, down: nat -> nat)
    requires Linked(cfg, conns, served, peer, up, down)
    requires ClientGrew(conns, conns') && ServerGrew(served, served')
    ensures Linked(cfg, conns', served', peer, up, down)
  {
    forall g | g in peer
      ensures g < |conns'| && peer[g] in served' && LinkOk(cfg, conns'[g], served'[peer[g]].conn, up(g), down(g))
    {
      LinkGrows(cfg, conns[g], conns'[g], served[peer[g]].conn, served'[peer[g]].conn, up(g), down(g));
    }
  }

  lemma ClientStepGrows(cfg: Cl.Config, s: Cl.Client, step: Cl.Step)
    requires Cl.CanStep(cfg, s, step) && !(step.ConnRuns? && step.event.MessageRead?)
    ensures ClientGrew(s.conns, Cl.Next(cfg, s, step).conns)
  {
    match step
    case ConnRuns(g, e) => StepGrows(cfg.lim, s.conns[g], e);
    case ReceiveRuns(g, i) => StepGrows(cfg.lim, s.conns[g], HandlerDone(i, true));
    case _ =>
  }

  lemma AcceptGrows(s: Sv.Server)
    requires s.accepting ==> forall id | id in s.conns :: 1 <= id <= s.nextId
    requires s.accepting && s.nextId < UINT16_LIMIT
    ensures ServerGrew(s.conns, Sv.Accept(s).conns)
  {
  }

  lemma BecomesGrows(s: Sv.Server, id: nat, d: Sv.Served)
    requires id in s.conns && Grew(s.conns[id].conn, d.conn)
    ensures ServerGrew(s.conns, Sv.Becomes(s, id, d).conns)
  {
  }

  lemma StopAllGrows(s: Sv.Server)
    ensures ServerGrew(s.conns, Sv.StopAll(s).conns)
  {
  }

  lemma ServerStepGrows(lim: Limits<ServerMessage>, s: Sv.Server, step: Sv.Step)
    requires ServerValid(lim, s) && Sv.CanStep(lim, s, step) && !step.MessageArrives?
    ensures ServerGrew(s.conns, Sv.Next(lim, s, step).conns)
  {
    match step
    case AcceptRuns => AcceptGrows(s);
    case ConnRuns(id, e) =>
      StepGrows(lim, s.conns[id].conn, e);
      BecomesGrows(s, id, s.conns[id].(conn := ConnectionSpec.Step(lim, s.conns[id].conn, e)));
    case StopCalled => StopAllGrows(s);
  }

  // ---- a message arrives at the server ----

  /** What the arrival of a message does to a connection. */
  ghost predicate TookIn<In, Out>(c: Conn<In, Out>, d: Conn<In, Out>, m: In) {
    && d.accepted == c.accepted && (c.closed ==> d.closed)
    && d.received == (if c.closed then c.received else c.received + [m])
  }

  lemma ReadTakesIn<In, Out>(c: Conn<In, Out>, i: nat, m: In, task: Task<Out>, ok: bool)
    requires i < |c.readers|
    ensures var read := ReadCompletes(c, i, m);
      && TookIn(c, read, m)
      && (!c.closed ==> TookIn(c, HandlerReturns(read, i, ok), m))
      && (!c.closed ==> TookIn(c, HandlerReturns(Post(read, task), i, ok), m))
  {
  }

  lemma ReadMessageEffect(s: Sv.Server, id: nat, i: nat, m: ClientMessage) returns (d: Sv.Served)
    requires id in s.conns && i < |s.conns[id].conn.readers|
    ensures Sv.ReadMessage(s, id, i, m).conns == s.conns[id := d]
    ensures TookIn(s.conns[id].conn, d.conn, m)
  {
    var c := s.conns[id].conn;
    var t := Sv.ReadMessage(s, id, i, m);
    d := t.conns[id];
    var r := Sv.OnMessage(s.world, id, m);
    var task := if r.Ok? then SendTask(r.value.1) else StopTask;
    ReadTakesIn(c, i, m, task, r.Ok?);
  }

  /** What the server reads next is the next request of its peer. */
  lemma RequestIsNext(cfg: Setup, c: Cl.ClientConn, d: Sv.ServerConn, d': Sv.ServerConn, up: nat, down: nat)
    requires RoundTrips(cfg.client.lim.proto) && ConnectionSpec.Valid(cfg.client.lim, c)
    requires LinkOk(cfg, c, d, up, down) && up <= |c.wire|
    ensures match ReadFrame(cfg.client.lim.proto, cfg.server.maxBytes, c.wire[up..])
      case Message(m, n) => TookIn(d, d', m) && !d.closed ==>
        DirectionOk(cfg.client.lim.proto, cfg.client.lim.maxBytes, c.accepted, d'.received, true, up + n)
      case _ => true
  {
    if !d.closed {
      ArrivalIsNext(cfg.client.lim.proto, cfg.client.lim.maxBytes, cfg.server.maxBytes,
                    c.accepted, c.wire, d.received, up);
    }
  }

  /** The server's connection for `g` took a message in, having consumed `n` more bytes. */
  lemma RequestKeepsLinks(cfg: Setup, conns: seq<Cl.ClientConn>, served: map<nat, Sv.Served>,
                          served': map<nat, Sv.Served>, peer: map<nat, nat>,
                          up: nat -> nat, up': nat -> nat, down: nat -> nat,
                          g: nat, d: Sv.Served, m: ClientMessage, n: nat)
    requires Linked(cfg, conns, served, peer, up, down) && g in peer
    requires served' == served[peer[g] := d] && up' == Set(up, g, up(g) + n)
    requires TookIn(served[peer[g]].conn, d.conn, m)
    requires !served[peer[g]].conn.closed ==>
      DirectionOk(cfg.client.lim.proto, cfg.client.lim.maxBytes, conns[g].accepted, d.conn.received, true, up(g) + n)
    ensures Linked(cfg, conns, served', peer, up', down)
  {
    assert LinkOk(cfg, conns[g], served[peer[g]].conn, up(g), down(g));
    forall h | h in peer ensures LinkOk(cfg, conns[h], served'[peer[h]].conn, up'(h), down(h)) {
      assert LinkOk(cfg, conns[h], served[peer[h]].conn, up(h), down(h));
    }
  }

  lemma OtherKeepsLinks(cfg: Setup, conns: seq<Cl.ClientConn>, served: map<nat, Sv.Served>, peer: map<nat, nat>,
                        up: nat -> nat, down: nat -> nat, id: nat, d: Sv.Served)
    requires Linked(cfg, conns, served, peer, up, down) && id !in peer.Values
    ensures Linked(cfg, conns, served[id := d], peer, up, down)
  {
    forall h | h in peer ensures LinkOk(cfg, conns[h], served[id := d][peer[h]].conn, up(h), down(h)) {
      assert peer[h] in peer.Values;
      assert LinkOk(cfg, conns[h], served[peer[h]].conn, up(h), down(h));
    }
  }

  /** A connection of the client turns out to end at a server connection nobody else ends at. */
  lemma PairingKeepsLinks(cfg: Setup, conns: seq<Cl.ClientConn>, served: map<nat, Sv.Served>, peer: map<nat, nat>,
                          up: nat -> nat, down: nat -> nat, g: nat, id: nat)
    requires Linked(cfg, conns, served, peer, up, down)
    requires g < |conns| && g !in peer && id in served && id !in peer.Values
    requires served[id].conn.received == []
    ensures Linked(cfg, conns, served, peer[g := id], up, down)
  {
    forall h | h in peer ensures peer[h] != id && LinkOk(cfg, conns[h], served[peer[h]].conn, up(h), down(h)) {
      assert peer[h] in peer.Values;
    }
  }

  // ---- a message arrives at the client ----

  /** What the client reads next is the next response of its peer, and answers one of its own calls. */
  ghost predicate ResponseIsDue(cfg: Setup, s: System, g: nat)
    requires g < |s.client.conns| && DownBytes(cfg, s, g).Message?
  {
    var r := DownBytes(cfg, s, g);
    && DirectionOk(cfg.server.proto, cfg.server.maxBytes, s.server.conns[s.peer[g]].conn.accepted,
                   s.client.conns[g].received + [r.message], true, s.down(g) + r.length)
    && ToCall(r.message, s.client.manager.issuedTo, s.client.calls.made)
  }

  lemma NextResponse(cfg: Setup, c: Cl.ClientConn, d: Sv.Served, up: nat, down: nat, issuedTo: seq<nat>,
                     made: seq<Request>)
    requires RoundTrips(cfg.server.proto) && !c.closed && down <= |d.conn.wire|
    requires LinkOk(cfg, c, d.conn, up, down) && Asks(c, issuedTo, made)
    requires ConnectionSpec.Valid(cfg.server, d.conn) && Answered(d.conn, d.answers)
    ensures match ReadFrame(cfg.server.proto, cfg.client.lim.maxBytes, d.conn.wire[down..])
      case Message(r, n) =>
        && DirectionOk(cfg.server.proto, cfg.server.maxBytes, d.conn.accepted, c.received + [r], true, down + n)
        && ToCall(r, issuedTo, made)
      case _ => true
  {
    ArrivalIsNext(cfg.server.proto, cfg.server.maxBytes, cfg.client.lim.maxBytes,
                  d.conn.accepted, d.conn.wire, c.received, down);
    var r := ReadFrame(cfg.server.proto, cfg.client.lim.maxBytes, d.conn.wire[down..]);
    if r.Message? {
      AnswerIsToCall(c, d.conn, d.answers, r.message, issuedTo, made);
    }
  }

  lemma AnswerIsToCall(c: Cl.ClientConn, d: Sv.ServerConn, answers: seq<ServerMessage>, r: ServerMessage,
                       issuedTo: seq<nat>, made: seq<Request>)
    requires c.received + [r] <= d.accepted && d.received <= c.accepted
    requires Answered(d, answers) && Asks(c, issuedTo, made)
    ensures ToCall(r, issuedTo, made)
  {
    var k := |c.received|;
    assert r == (c.received + [r])[k] == d.accepted[k] == answers[k];
    var q := d.received[k];
    assert IsAnswerTo(r, q);
    assert q == c.accepted[k] && Carries(c, q);
  }

  lemma ResponseIsToCall(cfg: Setup, s: System, g: nat)
    requires SystemValid(cfg, s) && g in s.peer && g < |s.client.conns| && !s.client.conns[g].closed
    requires DownBytes(cfg, s, g).Message?
    ensures ResponseIsDue(cfg, s, g)
  {
    var d := s.server.conns[s.peer[g]];
    assert ServerInvariants.Ok(cfg.server, s.server.stopped)(d);
    NextResponse(cfg, s.client.conns[g], d, s.up(g), s.down(g), s.client.manager.issuedTo, s.client.calls.made);
  }

  lemma ResponseKeepsLinks(cfg: Setup, conns: seq<Cl.ClientConn>, conns': seq<Cl.ClientConn>,
                           served: map<nat, Sv.Served>, peer: map<nat, nat>,
                           up: nat -> nat, down: nat -> nat, down': nat -> nat, g: nat, m: ServerMessage, n: nat)
    requires Linked(cfg, conns, served, peer, up, down) && g in peer
    requires |conns'| == |conns| && TookIn(conns[g], conns'[g], m) && down' == Set(down, g, down(g) + n)
    requires forall h | 0 <= h < |conns| && h != g :: conns'[h] == conns[h]
    requires !conns[g].closed ==>
      DirectionOk(cfg.server.proto, cfg.server.maxBytes, served[peer[g]].conn.accepted, conns'[g].received, true,
                  down(g) + n)
    ensures Linked(cfg, conns', served, peer, up, down')
  {
    assert LinkOk(cfg, conns[g], served[peer[g]].conn, up(g), down(g));
    forall h | h in peer ensures LinkOk(cfg, conns'[h], served[peer[h]].conn, up(h), down'(h)) {
      assert LinkOk(cfg, conns[h], served[peer[h]].conn, up(h), down(h));
    }
  }

  // ---- every message keeps belonging to its call ----

  /** Later calls and ids do not change what earlier ones were for. */
  lemma TracedGrows(conns: seq<Cl.ClientConn>, issuedTo: seq<nat>, made: seq<Request>, issuedTo': seq<nat>,
                    made': seq<Request>)
    requires Traced(conns, issuedTo, made) && issuedTo <= issuedTo' && made <= made'
    ensures Traced(conns, issuedTo', made')
  {
    forall g | 0 <= g < |conns| ensures Asks(conns[g], issuedTo', made') && Hears(conns[g], issuedTo', made') {
      assert Asks(conns[g], issuedTo, made) && Hears(conns[g], issuedTo, made);
      forall m | Carries(conns[g], m) ensures FromCall(m, issuedTo', made') {
        assert FromCall(m, issuedTo, made);
      }
      forall r | r in conns[g].received ensures ToCall(r, issuedTo', made') {
        assert ToCall(r, issuedTo, made);
      }
    }
  }

  /** One connection moves to a state whose messages belong to their calls. */
  lemma TracedUpdate(conns: seq<Cl.ClientConn>, issuedTo: seq<nat>, made: seq<Request>, g: nat, c: Cl.ClientConn)
    requires Traced(conns, issuedTo, made) && g < |conns|
    requires Asks(c, issuedTo, made) && Hears(c, issuedTo, made)
    ensures Traced(conns[g := c], issuedTo, made)
  {
  }

  lemma SegmentTraced(lim: Limits<ClientMessage>, c: Cl.ClientConn, e: Cl.ClientEvent, issuedTo: seq<nat>,
                      made: seq<Request>)
    requires Enabled(lim, c, e) && !e.MessageRead?
    requires e.Posted? && e.task.SendTask? ==> FromCall(e.task.message, issuedTo, made)
    requires Asks(c, issuedTo, made) && Hears(c, issuedTo, made)
    ensures var d := ConnectionSpec.Step(lim, c, e); Asks(d, issuedTo, made) && Hears(d, issuedTo, made)
  {
    var d := ConnectionSpec.Step(lim, c, e);
    StepGrows(lim, c, e);
    StepHandles(lim, c, e);
    forall m | Carries(d, m) ensures FromCall(m, issuedTo, made) {
      StepCarries(lim, c, e, m);
    }
  }

  lemma PostTraced(lim: Limits<ClientMessage>, s: Cl.Client, to: Option<nat>, task: Task<ClientMessage>,
                   issuedTo: seq<nat>, made: seq<Request>)
    requires Traced(s.conns, issuedTo, made)
    requires task.SendTask? ==> FromCall(task.message, issuedTo, made)
    ensures Traced(Cl.PostTo(s, to, task).conns, issuedTo, made)
  {
    if to.Some? && to.value < |s.conns| {
      var g := to.value;
      SegmentTraced(lim, s.conns[g], Posted(task), issuedTo, made);
      TracedUpdate(s.conns, issuedTo, made, g, Post(s.conns[g], task));
    }
  }

  lemma NewConnTraced(conns: seq<Cl.ClientConn>, issuedTo: seq<nat>, made: seq<Request>)
    requires Traced(conns, issuedTo, made)
    ensures Traced(conns + [Post(Created<ServerMessage, ClientMessage>(), StartTask)], issuedTo, made)
  {
  }

  lemma ConnStepTraced(cfg: Cl.Config, s: Cl.Client, g: nat, e: Cl.ClientEvent, issuedTo: seq<nat>, made: seq<Request>)
    requires Traced(s.conns, issuedTo, made) && g < |s.conns| && Enabled(cfg.lim, s.conns[g], e)
    requires !e.Posted? && !e.MessageRead?
    ensures Traced(Cl.ConnStep(cfg, s, g, e).conns, issuedTo, made)
  {
    SegmentTraced(cfg.lim, s.conns[g], e, issuedTo, made);
    TracedUpdate(s.conns, issuedTo, made, g, ConnectionSpec.Step(cfg.lim, s.conns[g], e));
  }

  /** A new request is posted with the id just issued for it. */
  lemma SendTraced(cfg: Cl.Config, s: Cl.Client, r: Request)
    requires Traced(s.conns, s.manager.issuedTo, s.calls.made)
    requires TableValid(s.manager, cfg.maxPending)
    requires |Called(s.manager, s.calls, cfg.maxPending, r).0.issuedTo| < UINT64_LIMIT
    ensures var t := Cl.SendRequest(cfg, s, r); Traced(t.conns, t.manager.issuedTo, t.calls.made)
  {
    var (m, k) := Called(s.manager, s.calls, cfg.maxPending, r);
    TracedGrows(s.conns, s.manager.issuedTo, s.calls.made, m.issuedTo, k.made);
    match Admit(s.manager, cfg.maxPending, |s.calls.made|)
    case Refused(_) =>
    case Admitted(_, id) =>
      AdmitKeeps(s.manager, cfg.maxPending, |s.calls.made|);
      var message := Cl.MessageFor(id, r);
      assert FromCall(message, m.issuedTo, k.made);
      PostTraced(cfg.lim, s.(manager := m, calls := k), s.manager.connection, SendTask(message), m.issuedTo, k.made);
  }

  lemma ClientStepTraced(cfg: Cl.Config, s: Cl.Client, step: Cl.Step)
    requires Traced(s.conns, s.manager.issuedTo, s.calls.made) && TableValid(s.manager, cfg.maxPending)
    requires Cl.CanStep(cfg, s, step) && !(step.ConnRuns? && step.event.MessageRead?)
    requires |Cl.Next(cfg, s, step).manager.issuedTo| < UINT64_LIMIT
    ensures var t := Cl.Next(cfg, s, step); Traced(t.conns, t.manager.issuedTo, t.calls.made)
  {
    ClientTheorems.NextManager(cfg, s, step);
    var issuedTo, made := s.manager.issuedTo, s.calls.made;
    match step
    case SendCalled(r) => SendTraced(cfg, s, r);
    case DisconnectCalled => PostTraced(cfg.lim, s, s.manager.connection, StopTask, issuedTo, made);
    case ConnectResumes(_) => NewConnTraced(s.conns, issuedTo, made);
    case ConnRuns(g, e) => ConnStepTraced(cfg, s, g, e, issuedTo, made);
    case ReceiveRuns(g, i) => ConnStepTraced(cfg, s, g, HandlerDone(i, true), issuedTo, made);
    case _ =>
  }

  // ---- every response the client holds was received ----

  lemma HeardStays(conns: seq<Cl.ClientConn>, conns': seq<Cl.ClientConn>)
    requires |conns| <= |conns'| && forall g | 0 <= g < |conns| :: conns[g].received <= conns'[g].received
    ensures forall r | Heard(conns, r) :: Heard(conns', r)
  {
    forall r | Heard(conns, r) ensures Heard(conns', r) {
      var g :| 0 <= g < |conns| && r in conns[g].received;
      assert r in conns'[g].received;
    }
  }

  lemma HoldsGrows(conns: seq<Cl.ClientConn>, conns': seq<Cl.ClientConn>, m: Crm, k: Calls, m': Crm, k': Calls)
    requires Holds(conns, m, k) && forall r | Heard(conns, r) :: Heard(conns', r)
    requires forall id | id in m'.pending && m'.pending[id].response.Some? ::
      Heard(conns, m'.pending[id].response.value) ||
      (id in m.pending && m.pending[id].response == m'.pending[id].response)
    requires forall c | c in k'.completions && c.outcome.Response? ::
      c in k.completions || (exists id :: id in m.pending && m.pending[id].response == Some(c.outcome.message))
    ensures Holds(conns', m', k')
  {
  }

  /** A response that is handled was received. */
  lemma HandledWasHeard(conns: seq<Cl.ClientConn>, issuedTo: seq<nat>, made: seq<Request>, g: nat, i: nat)
    requires Traced(conns, issuedTo, made) && g < |conns| && i < |conns[g].readers| && conns[g].readers[i].Handling?
    ensures Heard(conns, conns[g].readers[i].message)
  {
    assert Hears(conns[g], issuedTo, made) && conns[g].readers[i] in conns[g].readers;
  }

  lemma ReceivingHolds(conns: seq<Cl.ClientConn>, m: Crm, k: Calls, r: ServerMessage)
    requires Holds(conns, m, k) && Heard(conns, r)
    ensures Holds(conns, Receive(m, r), k)
  {
  }

  lemma ClientStepHolds(cfg: Cl.Config, s: Cl.Client, step: Cl.Step)
    requires Holds(s.conns, s.manager, s.calls) && Cl.CanStep(cfg, s, step)
    requires Traced(s.conns, s.manager.issuedTo, s.calls.made)
    requires ClientGrew(s.conns, Cl.Next(cfg, s, step).conns)
    ensures var t := Cl.Next(cfg, s, step); Holds(t.conns, t.manager, t.calls)
  {
    ClientTheorems.NextManager(cfg, s, step);
    var t := Cl.Next(cfg, s, step);
    HeardStays(s.conns, t.conns);
    if step.ReceiveRuns? {
      HandledWasHeard(s.conns, s.manager.issuedTo, s.calls.made, step.conn, step.reader);
      ReceivingHolds(s.conns, s.manager, s.calls, s.conns[step.conn].readers[step.reader].message);
      HoldsGrows(s.conns, t.conns, t.manager, s.calls, t.manager, t.calls);
    } else {
      HoldsGrows(s.conns, t.conns, s.manager, s.calls, t.manager, t.calls);
    }
  }

  // ---- the system, step by step ----

  lemma ArrivalTraced(c: Cl.ClientConn, i: nat, m: ServerMessage, issuedTo: seq<nat>, made: seq<Request>)
    requires i < |c.readers| && Asks(c, issuedTo, made) && Hears(c, issuedTo, made)
    requires !c.closed ==> ToCall(m, issuedTo, made)
    ensures var d := ReadCompletes(c, i, m); Asks(d, issuedTo, made) && Hears(d, issuedTo, made)
  {
    var d := ReadCompletes(c, i, m);
    assert forall n | Carries(d, n) :: Carries(c, n);
  }

  lemma ClientRunsKeeps(cfg: Setup, s: System, e: Cl.Step)
    requires SystemValid(cfg, s) && CanStep(cfg, s, ClientRuns(e))
    requires |Cl.Next(cfg.client, s.client, e).manager.issuedTo| < UINT64_LIMIT
    ensures SystemValid(cfg, s.(client := Cl.Next(cfg.client, s.client, e)))
  {
    ClientTheorems.NextKeepsValid(cfg.client, s.client, e);
    ClientStepGrows(cfg.client, s.client, e);
    LinksGrow(cfg, s.client.conns, Cl.Next(cfg.client, s.client, e).conns, s.server.conns, s.server.conns,
              s.peer, s.up, s.down);
    ClientStepTraced(cfg.client, s.client, e);
    ClientStepHolds(cfg.client, s.client, e);
  }

  lemma ServerRunsLinks(cfg: Setup, s: System, served: map<nat, Sv.Served>)
    requires Linked(cfg, s.client.conns, s.server.conns, s.peer, s.up, s.down) && ServerGrew(s.server.conns, served)
    ensures Linked(cfg, s.client.conns, served, s.peer, s.up, s.down)
  {
    LinksGrow(cfg, s.client.conns, s.client.conns, s.server.conns, served, s.peer, s.up, s.down);
  }

  lemma ServerRunsKeeps(cfg: Setup, s: System, e: Sv.Step)
    requires SystemValid(cfg, s) && CanStep(cfg, s, ServerRuns(e))
    ensures SystemValid(cfg, s.(server := Sv.Next(cfg.server, s.server, e)))
  {
    ServerInvariants.NextKeepsValid(cfg.server, s.server, e);
    ServerStepGrows(cfg.server, s.server, e);
    ServerRunsLinks(cfg, s, Sv.Next(cfg.server, s.server, e).conns);
  }

  lemma PairedKeeps(cfg: Setup, s: System, g: nat, id: nat)
    requires SystemValid(cfg, s) && CanStep(cfg, s, Paired(g, id))
    ensures SystemValid(cfg, s.(peer := s.peer[g := id]))
  {
    PairingKeepsLinks(cfg, s.client.conns, s.server.conns, s.peer, s.up, s.down, g, id);
  }

  /** The links with the server's end of `g` replaced and some bytes consumed. */
  ghost predicate LinkedAfter(cfg: Setup, s: System, g: nat, d: Sv.Served, n: nat)
    requires g in s.peer
  {
    Linked(cfg, s.client.conns, s.server.conns[s.peer[g] := d], s.peer, Set(s.up, g, s.up(g) + n), s.down)
  }

  lemma RequestLinks(cfg: Setup, s: System, g: nat, d: Sv.Served, m: ClientMessage, n: nat)
    requires g in s.peer && s.peer[g] in s.server.conns && g < |s.client.conns|
    requires Linked(cfg, s.client.conns, s.server.conns, s.peer, s.up, s.down)
    requires TookIn(s.server.conns[s.peer[g]].conn, d.conn, m)
    requires !s.server.conns[s.peer[g]].conn.closed ==>
      DirectionOk(cfg.client.lim.proto, cfg.client.lim.maxBytes, s.client.conns[g].accepted, d.conn.received, true,
                  s.up(g) + n)
    ensures LinkedAfter(cfg, s, g, d, n)
  {
    RequestKeepsLinks(cfg, s.client.conns, s.server.conns, s.server.conns[s.peer[g] := d], s.peer,
                      s.up, Set(s.up, g, s.up(g) + n), s.down, g, d, m, n);
  }

  lemma RequestTaken(cfg: Setup, s: System, g: nat, i: nat, d: Sv.Served)
    requires UpBytes(cfg, s, g).Message? && g in s.peer && s.peer[g] in s.server.conns
    requires i < |s.server.conns[s.peer[g]].conn.readers|
    requires LinkedAfter(cfg, s, g, d, UpBytes(cfg, s, g).length)
    requires Sv.ReadMessage(s.server, s.peer[g], i, UpBytes(cfg, s, g).message).conns == s.server.conns[s.peer[g] := d]
    ensures var t := TakeRequest(cfg, s, g, i);
      Linked(cfg, t.client.conns, t.server.conns, t.peer, t.up, t.down)
  {
  }

  lemma RequestArrivesLinks(cfg: Setup, s: System, g: nat, i: nat)
    requires UpBytes(cfg, s, g).Message? && g in s.peer && s.peer[g] in s.server.conns
    requires i < |s.server.conns[s.peer[g]].conn.readers|
    requires RoundTrips(cfg.client.lim.proto) && ConnectionSpec.Valid(cfg.client.lim, s.client.conns[g])
    requires Linked(cfg, s.client.conns, s.server.conns, s.peer, s.up, s.down)
    ensures var t := TakeRequest(cfg, s, g, i);
      Linked(cfg, t.client.conns, t.server.conns, t.peer, t.up, t.down)
  {
    assert LinkOk(cfg, s.client.conns[g], s.server.conns[s.peer[g]].conn, s.up(g), s.down(g));
    var d := RequestTakenIn(cfg, s, g, i);
    RequestLinks(cfg, s, g, d, UpBytes(cfg, s, g).message, UpBytes(cfg, s, g).length);
    RequestTaken(cfg, s, g, i, d);
  }

  lemma RequestTakenIn(cfg: Setup, s: System, g: nat, i: nat) returns (d': Sv.Served)
    requires UpBytes(cfg, s, g).Message? && g in s.peer && s.peer[g] in s.server.conns
    requires i < |s.server.conns[s.peer[g]].conn.readers|
    requires RoundTrips(cfg.client.lim.proto) && ConnectionSpec.Valid(cfg.client.lim, s.client.conns[g])
    requires LinkOk(cfg, s.client.conns[g], s.server.conns[s.peer[g]].conn, s.up(g), s.down(g))
    ensures var r := UpBytes(cfg, s, g); var d := s.server.conns[s.peer[g]];
      && Sv.ReadMessage(s.server, s.peer[g], i, r.message).conns == s.server.conns[s.peer[g] := d']
      && TookIn(d.conn, d'.conn, r.message)
      && (!d.conn.closed ==> DirectionOk(cfg.client.lim.proto, cfg.client.lim.maxBytes,
            s.client.conns[g].accepted, d'.conn.received, true, s.up(g) + r.length))
  {
    d' := ReadMessageEffect(s.server, s.peer[g], i, UpBytes(cfg, s, g).message);
    RequestIsNext(cfg, s.client.conns[g], s.server.conns[s.peer[g]].conn, d'.conn, s.up(g), s.down(g));
  }

  lemma RequestArrivesKeeps(cfg: Setup, s: System, g: nat, i: nat)
    requires SystemValid(cfg, s) && CanStep(cfg, s, RequestArrives(g, i))
    ensures SystemValid(cfg, TakeRequest(cfg, s, g, i))
  {
    ServerInvariants.NextKeepsValid(cfg.server, s.server, Sv.MessageArrives(s.peer[g], i, UpBytes(cfg, s, g).message));
    RequestArrivesLinks(cfg, s, g, i);
  }

  lemma OtherMessageKeeps(cfg: Setup, s: System, id: nat, i: nat, m: ClientMessage)
    requires SystemValid(cfg, s) && CanStep(cfg, s, OtherMessage(id, i, m))
    ensures SystemValid(cfg, Next(cfg, s, OtherMessage(id, i, m)))
  {
    ServerInvariants.NextKeepsValid(cfg.server, s.server, Sv.MessageArrives(id, i, m));
    var d' := ReadMessageEffect(s.server, id, i, m);
    OtherKeepsLinks(cfg, s.client.conns, s.server.conns, s.peer, s.up, s.down, id, d');
  }

  lemma ResponseArrivesLinks(cfg: Setup, s: System, g: nat, i: nat)
    requires CanStep(cfg, s, ResponseArrives(g, i))
    requires Linked(cfg, s.client.conns, s.server.conns, s.peer, s.up, s.down)
    requires !s.client.conns[g].closed ==> ResponseIsDue(cfg, s, g)
    ensures var t := Next(cfg, s, ResponseArrives(g, i));
      Linked(cfg, t.client.conns, t.server.conns, t.peer, t.up, t.down)
  {
    var r := DownBytes(cfg, s, g);
    var t := Next(cfg, s, ResponseArrives(g, i));
    ReadTakesIn(s.client.conns[g], i, r.message, StopTask, true);
    ResponseKeepsLinks(cfg, s.client.conns, t.client.conns, s.server.conns, s.peer,
                       s.up, s.down, t.down, g, r.message, r.length);
  }

  lemma ResponseArrivesTraced(cfg: Setup, s: System, g: nat, i: nat)
    requires CanStep(cfg, s, ResponseArrives(g, i))
    requires Traced(s.client.conns, s.client.manager.issuedTo, s.client.calls.made)
    requires !s.client.conns[g].closed ==> ResponseIsDue(cfg, s, g)
    ensures var t := Next(cfg, s, ResponseArrives(g, i));
      Traced(t.client.conns, t.client.manager.issuedTo, t.client.calls.made)
  {
    var m := DownBytes(cfg, s, g).message;
    var c := s.client.conns[g];
    var issuedTo, made := s.client.manager.issuedTo, s.client.calls.made;
    ArrivalTraced(c, i, m, issuedTo, made);
    TracedUpdate(s.client.conns, issuedTo, made, g, ReadCompletes(c, i, m));
  }

  lemma ResponseArrivesHolds(cfg: Setup, s: System, g: nat, i: nat)
    requires CanStep(cfg, s, ResponseArrives(g, i))
    requires Holds(s.client.conns, s.client.manager, s.client.calls)
    ensures var t := Next(cfg, s, ResponseArrives(g, i));
      Holds(t.client.conns, t.client.manager, t.client.calls)
  {
    HeardStays(s.client.conns, Next(cfg, s, ResponseArrives(g, i)).client.conns);
  }

  lemma ResponseArrivesKeeps(cfg: Setup, s: System, g: nat, i: nat)
    requires SystemValid(cfg, s) && CanStep(cfg, s, ResponseArrives(g, i))
    requires |s.client.manager.issuedTo| < UINT64_LIMIT
    ensures SystemValid(cfg, Next(cfg, s, ResponseArrives(g, i)))
  {
    ClientTheorems.NextKeepsValid(cfg.client, s.client, Cl.ConnRuns(g, MessageRead(i, DownBytes(cfg, s, g).message)));
    if !s.client.conns[g].closed {
      ResponseIsToCall(cfg, s, g);
    }
    ResponseArrivesLinks(cfg, s, g, i);
    ResponseArrivesTraced(cfg, s, g, i);
    ResponseArrivesHolds(cfg, s, g, i);
  }

  lemma NextKeepsValid(cfg: Setup, s: System, step: Step)
    requires SystemValid(cfg, s) && CanStep(cfg, s, step)
    requires |Next(cfg, s, step).client.manager.issuedTo| < UINT64_LIMIT
    ensures SystemValid(cfg, Next(cfg, s, step))
  {
    match step
    case ClientRuns(e) => ClientRunsKeeps(cfg, s, e);
    case ServerRuns(e) => ServerRunsKeeps(cfg, s, e);
    case Paired(g, id) => PairedKeeps(cfg, s, g, id);
    case RequestArrives(g, i) => RequestArrivesKeeps(cfg, s, g, i);
    case ResponseArrives(g, i) => ResponseArrivesKeeps(cfg, s, g, i);
    case OtherMessage(id, i, m) => OtherMessageKeeps(cfg, s, id, i, m);
  }

  lemma IssuedGrows(cfg: Setup, s: System, step: Step)
    requires CanStep(cfg, s, step)
    ensures |s.client.manager.issuedTo| <= |Next(cfg, s, step).client.manager.issuedTo|
  {
    if step.ClientRuns? {
      ClientTheorems.NextManager(cfg.client, s.client, step.step);
    }
  }

  lemma {:induction false} RunGrows(cfg: Setup, s: System, steps: seq<Step>, last: System)
    requires IsRun(cfg, s, steps, last)
    ensures |s.client.manager.issuedTo| <= |last.client.manager.issuedTo|
    decreases |steps|
  {
    if steps == [] {
    } else {
      IssuedGrows(cfg, s, steps[0]);
      RunGrows(cfg, Next(cfg, s, steps[0]), steps[1..], last);
    }
  }

  lemma {:induction false} RunKeepsValid(cfg: Setup, s: System, steps: seq<Step>, last: System)
    requires SystemValid(cfg, s) && IsRun(cfg, s, steps, last)
    requires |last.client.manager.issuedTo| < UINT64_LIMIT
    ensures SystemValid(cfg, last)
    decreases |steps|
  {
    if steps == [] {
    } else {
      var t := Next(cfg, s, steps[0]);
      RunGrows(cfg, t, steps[1..], last);
      NextKeepsValid(cfg, s, steps[0]);
      RunKeepsValid(cfg, t, steps[1..], last);
    }
  }

  /** Over every reconnect: a server connection belongs to at most one connection of the client,
      and what either side's handler was given is a prefix, in order, of what the other side
      accepted for sending. */
  lemma LinksDeliverInOrder(cfg: Setup, steps: seq<Step>, s: System, g: nat)
    requires RoundTrips(cfg.client.lim.proto) && RoundTrips(cfg.server.proto)
    requires cfg.client.lim.maxQueued >= 1 && cfg.server.maxQueued >= 1
    requires IsRun(cfg, Init(), steps, s) && |s.client.manager.issuedTo| < UINT64_LIMIT && g in s.peer
    ensures g < |s.client.conns| && s.peer[g] in s.server.conns
    ensures s.server.conns[s.peer[g]].conn.received <= s.client.conns[g].accepted
    ensures s.client.conns[g].received <= s.server.conns[s.peer[g]].conn.accepted
    ensures forall h | h in s.peer && h != g :: s.peer[h] != s.peer[g]
  {
    InitIsValid(cfg);
    RunKeepsValid(cfg, Init(), steps, s);
    LinkedInOrder(cfg, s.client.conns, s.server.conns, s.peer, s.up, s.down, g);
  }

  lemma LinkedInOrder(cfg: Setup, conns: seq<Cl.ClientConn>, served: map<nat, Sv.Served>,
                      peer: map<nat, nat>, up: nat -> nat, down: nat -> nat, g: nat)
    requires Linked(cfg, conns, served, peer, up, down) && g in peer
    ensures g < |conns| && peer[g] in served
    ensures served[peer[g]].conn.received <= conns[g].accepted && conns[g].received <= served[peer[g]].conn.accepted
  {
    assert LinkOk(cfg, conns[g], served[peer[g]].conn, up(g), down(g));
  }

  /** What a finished call may have returned: a ping only its own timestamp, a snapshot request
      only a snapshot in increasing id order; otherwise the exception of an intended failure.
      The "unexpected payload", server error, "state was lost" and "cancelled without response"
      exceptions cannot occur against this server. */
  ghost predicate ProperReply(r: Request, reply: Reply) {
    match reply
    case PongValue(t) => r == PingRequest(t)
    case SnapshotValue(state) => r == SnapshotRequest && WorldSpec.Ascending(state.players)
    case ServerError(_) => false
    case UnexpectedPayload => false
    case SendError(o) => o != StateLost && o != NoResponse && !o.Response?
  }

  /** What a call that was answered returned: the timestamp it sent, or the snapshot of these
      players, its own among them, on the server's map. */
  ghost predicate ReturnsAnswer(r: Request, reply: Reply, players: map<nat, PlayerState>, player: nat) {
    match r
    case PingRequest(t) => reply == PongValue(t)
    case SnapshotRequest =>
      && reply.SnapshotValue? && reply.state.map_ == TileMap("bootstrap", 32, 18)
      && ListsAll(reply.state.players, players)
      && player in players && players[player] in reply.state.players
  }

  /** The k-th response the server computed for connection `g` of the client is what this call
      ended with: it was computed for this call's own message, and the call returned what it says;
      a snapshot lists all the players of the world at that moment, the caller's own among them. */
  ghost predicate AnsweredBy(s: System, c: Completion, g: nat, k: nat) {
    && c.outcome.Response? && c.call < |s.client.calls.made| && g in s.peer && s.peer[g] in s.server.conns
    && var d, r := s.server.conns[s.peer[g]], s.client.calls.made[c.call];
    && k < |d.answers| && k < |d.seen| && k < |d.conn.received|
    && d.answers[k] == c.outcome.message
    && d.conn.received[k] == Cl.MessageFor(c.outcome.message.requestId, r)
    && d.player.Some? && ReturnsAnswer(r, TypedReply(r, c.outcome), d.seen[k], d.player.value)
  }

  /** A response received is one of the peer's, computed for a message of the call it belongs to. */
  lemma TraceAnswer(cfg: Setup, c: Cl.ClientConn, d: Sv.Served, up: nat, down: nat, k: nat,
                    issuedTo: seq<nat>, made: seq<Request>)
    requires LinkOk(cfg, c, d.conn, up, down) && Asks(c, issuedTo, made) && k < |c.received|
    requires Answered(d.conn, d.answers) && ShowsEach(d.answers, d.seen, d.player)
    ensures k < |d.answers| && k < |d.seen| && k < |d.conn.received| && d.answers[k] == c.received[k]
    ensures FromCall(d.conn.received[k], issuedTo, made) && d.conn.received[k].requestId == c.received[k].requestId
    ensures IsAnswerTo(c.received[k], d.conn.received[k])
    ensures d.player.Some? && Shows(d.answers[k], d.seen[k], d.player.value)
  {
    assert c.received[k] == d.conn.accepted[k] == d.answers[k];
    var q := d.conn.received[k];
    assert IsAnswerTo(d.answers[k], q);
    assert q == c.accepted[k] && Carries(c, q);
  }

  lemma HeardWhere(conns: seq<Cl.ClientConn>, r: ServerMessage) returns (g: nat, k: nat)
    requires Heard(conns, r)
    ensures g < |conns| && k < |conns[g].received| && conns[g].received[k] == r
  {
    g :| 0 <= g < |conns| && r in conns[g].received;
    k :| 0 <= k < |conns[g].received| && conns[g].received[k] == r;
  }

  /** A connection that received something is linked. */
  lemma ReceivedMeansLinked(cfg: Setup, conns: seq<Cl.ClientConn>, served: map<nat, Sv.Served>,
                            peer: map<nat, nat>, up: nat -> nat, down: nat -> nat, g: nat)
    requires Linked(cfg, conns, served, peer, up, down) && g < |conns| && conns[g].received != []
    ensures g in peer && peer[g] in served && LinkOk(cfg, conns[g], served[peer[g]].conn, up(g), down(g))
  {
  }

  /** Where the outcome of a finished call came from. */
  lemma AnswerOf(cfg: Setup, s: System, c: Completion, g: nat, k: nat)
    requires g < |s.client.conns| && g in s.peer && s.peer[g] in s.server.conns
    requires LinkOk(cfg, s.client.conns[g], s.server.conns[s.peer[g]].conn, s.up(g), s.down(g))
    requires Answered(s.server.conns[s.peer[g]].conn, s.server.conns[s.peer[g]].answers)
    requires var d := s.server.conns[s.peer[g]]; ShowsEach(d.answers, d.seen, d.player)
    requires Asks(s.client.conns[g], s.client.manager.issuedTo, s.client.calls.made)
    requires c.call < |s.client.calls.made| && c.outcome.Response? && ProperOutcome(s.client.manager.issuedTo, c)
    requires k < |s.client.conns[g].received| && s.client.conns[g].received[k] == c.outcome.message
    ensures AnsweredBy(s, c, g, k)
  {
    var d := s.server.conns[s.peer[g]];
    TraceAnswer(cfg, s.client.conns[g], d, s.up(g), s.down(g), k, s.client.manager.issuedTo, s.client.calls.made);
    var a := c.outcome.message;
    AnswerIsReturned(s.client.calls.made[c.call], a, a.requestId, d.seen[k], d.player.value);
  }

  lemma AnswerIsReturned(r: Request, a: ServerMessage, id: nat, players: map<nat, PlayerState>, player: nat)
    requires IsAnswerTo(a, Cl.MessageFor(id, r)) && Shows(a, players, player)
    ensures ReturnsAnswer(r, TypedReply(r, Response(a)), players, player)
  {
  }

  lemma AnswerFound(cfg: Setup, s: System, c: Completion) returns (g: nat, k: nat)
    requires SystemValid(cfg, s) && c in s.client.calls.completions && c.outcome.Response?
    ensures AnsweredBy(s, c, g, k)
  {
    CompletedFor(s.client.manager, s.client.calls, cfg.client.maxPending, c);
    g, k := HeardWhere(s.client.conns, c.outcome.message);
    ReceivedMeansLinked(cfg, s.client.conns, s.server.conns, s.peer, s.up, s.down, g);
    assert ServerInvariants.Ok(cfg.server, s.server.stopped)(s.server.conns[s.peer[g]]);
    assert Asks(s.client.conns[g], s.client.manager.issuedTo, s.client.calls.made);
    AnswerOf(cfg, s, c, g, k);
  }

  lemma CompletedFor(m: Crm, k: Calls, maxPending: nat, c: Completion)
    requires RequestsValid(m, k, maxPending) && c in k.completions
    ensures c.call < |k.made| && ProperOutcome(m.issuedTo, c)
  {
    assert c.call in Finished(k.completions);
  }

  lemma ReplyIsProper(conns: seq<Cl.ClientConn>, m: Crm, k: Calls, maxPending: nat, c: Completion)
    requires RequestsValid(m, k, maxPending) && Holds(conns, m, k) && Traced(conns, m.issuedTo, k.made)
    requires c in k.completions
    ensures c.call < |k.made| && ProperReply(k.made[c.call], TypedReply(k.made[c.call], c.outcome))
  {
    CompletedFor(m, k, maxPending, c);
    if c.outcome.Response? {
      var g :| 0 <= g < |conns| && c.outcome.message in conns[g].received;
      assert Hears(conns[g], m.issuedTo, k.made);
      assert ToCall(c.outcome.message, m.issuedTo, k.made);
    }
  }

  /** End-to-end correlation: in every run every call that has ended did so properly, and if with
      a response, then with the one the server computed for that very call. */
  lemma EndToEndCorrelation(cfg: Setup, steps: seq<Step>, s: System)
    requires RoundTrips(cfg.client.lim.proto) && RoundTrips(cfg.server.proto)
    requires cfg.client.lim.maxQueued >= 1 && cfg.server.maxQueued >= 1
    requires IsRun(cfg, Init(), steps, s) && |s.client.manager.issuedTo| < UINT64_LIMIT
    ensures forall c | c in s.client.calls.completions ::
      c.call < |s.client.calls.made| &&
      ProperReply(s.client.calls.made[c.call], TypedReply(s.client.calls.made[c.call], c.outcome))
    ensures forall c | c in s.client.calls.completions && c.outcome.Response? :: exists g, k :: AnsweredBy(s, c, g, k)
    ensures forall c | c in s.client.calls.completions && c.call < |s.client.calls.made| && !c.outcome.Response? ::
      TypedReply(s.client.calls.made[c.call], c.outcome) == SendError(c.outcome)
  {
    InitIsValid(cfg);
    RunKeepsValid(cfg, Init(), steps, s);
    forall c | c in s.client.calls.completions
      ensures c.call < |s.client.calls.made| &&
        ProperReply(s.client.calls.made[c.call], TypedReply(s.client.calls.made[c.call], c.outcome))
    {
      ReplyIsProper(s.client.conns, s.client.manager, s.client.calls, cfg.client.maxPending, c);
    }
    forall c | c in s.client.calls.completions && c.outcome.Response? ensures exists g, k :: AnsweredBy(s, c, g, k) {
      var g, k := AnswerFound(cfg, s, c);
    }
  }
}
