/** The client's objects: ClientRequestManager and ConnectionManager
    (client/src/network/ClientRequestManager.cpp, ConnectionManager.cpp), and the event loop
    that resumes them. Every method is one segment of the source and is proved to be the
    operation of the same name in RequestTable or the step of the same name in ClientSpec. */
module Client {
  import opened Prelude
  import opened ConnectionSpec
  import opened Connections
  import opened Protocol
  import opened RequestTable
  import opened RequestCalls
  import opened DisconnectCalls
  import opened ClientSpec
  import opened ClientTheorems

  class ClientRequestManager {
    var nextRequestId: nat
    var connection: Connection?<ServerMessage, ClientMessage>
    var onClosed: ConnectionManager?
    var pendingRequests: map<nat, Pending>
    ghost var issuedTo: seq<nat>

    ghost function View(): Crm
      reads this
    {
      Crm(nextRequestId, if connection == null then None else Some(connection.serial),
          onClosed != null, pendingRequests, issuedTo)
    }

    constructor ()
      ensures View() == FreshManager() && connection == null && onClosed == null
    {
      nextRequestId, connection, onClosed, pendingRequests, issuedTo := 0, null, null, map[], [];
    }

    /** Refuses while a connection is held; otherwise creates one and posts its start. */
    method Start(lim: Limits<ClientMessage>, handler: ConnectionManager, ghost serial: nat)
      returns (r: Result<Connection<ServerMessage, ClientMessage>, ()>)
      modifies this
      ensures match RequestTable.Start(old(View()), serial)
        case Err(_) => r.Err? && View() == old(View()) && connection == old(connection) && onClosed == old(onClosed)
        case Ok(m) =>
          && r.Ok? && fresh(r.value) && View() == m && connection == r.value && onClosed == handler
          && r.value.serial == serial && r.value.lim == lim && r.value.View() == Post(Created(), StartTask)
    {
      if connection != null {
        return Err(());
      }
      var created := new Connection<ServerMessage, ClientMessage>(0, lim, serial);
      connection := created;
      onClosed := handler;
      created.Start();
      return Ok(created);
    }

    method FailPendingRequests(reason: string)
      modifies this`pendingRequests
      ensures View() == FailPending(old(View()), reason)
    {
      var todo := pendingRequests.Keys;
      while todo != {}
        modifies this`pendingRequests
        invariant todo <= pendingRequests.Keys == old(pendingRequests).Keys
        invariant forall id | id in pendingRequests ::
          pendingRequests[id] ==
          if id in todo then old(pendingRequests)[id] else FailEntry(old(pendingRequests)[id], reason)
        decreases |todo|
      {
        var id :| id in todo;
        var e := pendingRequests[id];
        if e.state == Waiting {
          pendingRequests := pendingRequests[id := e.(state := Failed, error := reason, timer := Cancel(e.timer))];
        }
        todo := todo - {id};
      }
    }

    method Stop(reason: string)
      modifies this`pendingRequests, if connection == null then {} else {connection}
      ensures View() == RequestTable.Stop(old(View()), reason)
      ensures connection != null ==> connection.View() == Post(old(connection.View()), StopTask)
    {
      if connection == null {
        return;
      }
      FailPendingRequests(reason);
      connection.Stop();
    }

    /** send(), up to the wait: the id the request now waits under, or why it is refused. */
    method BeginSend(payload: ClientPayload, maxPending: nat, call: nat) returns (r: Result<nat, SendOutcome>)
      modifies this`nextRequestId, this`pendingRequests, this`issuedTo, if connection == null then {} else {connection}
      ensures match Admit(old(View()), maxPending, call)
        case Refused(why) =>
          && r == Err(why) && View() == old(View())
          && (connection != null ==> connection.View() == old(connection.View()))
        case Admitted(m, id) =>
          && r == Ok(id) && View() == m && connection != null
          && connection.View() == Post(old(connection.View()), SendTask(ClientMessage(id, payload)))
    {
      if connection == null {
        return Err(NotConnected);
      }
      if |pendingRequests| >= maxPending {
        return Err(TooManyPending);
      }
      nextRequestId := (nextRequestId + 1) % UINT64_LIMIT;
      issuedTo := issuedTo + [call];
      if nextRequestId !in pendingRequests {
        pendingRequests := pendingRequests[nextRequestId := Pending(call, Armed, Waiting, None, "")];
      }
      connection.Send(ClientMessage(nextRequestId, payload));
      return Ok(nextRequestId);
    }

    /** send(), from the end of the wait. */
    method FinishSend(id: nat, call: nat) returns (outcome: SendOutcome)
      modifies this`pendingRequests
      ensures (View(), outcome) == Finish(old(View()), id, call)
    {
      if id !in pendingRequests || pendingRequests[id].owner != call {
        return StateLost;
      }
      var completed := pendingRequests[id];
      pendingRequests := pendingRequests - {id};
      if completed.timer != CancelledQueued {
        return TimedOut;
      }
      if completed.state == Failed {
        return RequestFailed(completed.error);
      }
      if completed.state != Completed || completed.response == None {
        return NoResponse;
      }
      return Response(completed.response.value);
    }

    method TimerExpires(id: nat)
      requires id in pendingRequests
      modifies this`pendingRequests
      ensures View() == Expire(old(View()), id)
    {
      pendingRequests := pendingRequests[id := pendingRequests[id].(timer := FiredQueued)];
    }

    method Receive(message: ServerMessage)
      modifies this`pendingRequests
      ensures View() == RequestTable.Receive(old(View()), message)
    {
      var id := message.requestId;
      if id !in pendingRequests {
        return;
      }
      var e := pendingRequests[id];
      if e.state != Waiting {
        return;
      }
      var settled := e.(state := Completed, response := Some(message), timer := Cancel(e.timer));
      pendingRequests := pendingRequests[id := settled];
    }

    /** The posted close task: drop the connection, fail what waits, tell the owner once. */
    method ConnectionClosed()
      modifies this, if onClosed == null then {} else {onClosed}
      ensures View() == Closed(old(View())) && connection == null && onClosed == null
      ensures old(onClosed) != null ==> old(onClosed).LinkView() == old(onClosed.LinkView()).LostConnection()
    {
      connection := null;
      FailPendingRequests(CONNECTION_CLOSED);
      if onClosed == null {
        return;
      }
      onClosed.ConnectionClosed();
      onClosed := null;
    }
  }

  /** The part of the client's state that ConnectionManager owns. */
  datatype Link = Link(state: LinkState, socket: bool, waits: Waits) {
    function To(next: LinkState): Link {
      Link(next, socket,
           if state != Disconnected && next == Disconnected then Reached(waits, state == Disconnecting) else waits)
    }

    /** One more disconnect() was called. */
    function Called(): Link {
      this.(waits := Begin(waits, state == Disconnected))
    }

    function LostConnection(): Link {
      if state == Connected || state == Disconnecting then To(Disconnected) else this
    }
  }

  class ConnectionManager {
    const manager: ClientRequestManager
    var state: LinkState
    var connectingSocket: bool
    var disconnectWaiters: seq<Waiter>
    var disconnections: nat       // bookkeeping, with the next two: not in the source
    var begun: seq<Begun>
    var returned: seq<nat>

    ghost function LinkView(): Link
      reads this
    {
      Link(state, connectingSocket, Waits(disconnections, begun, disconnectWaiters, returned))
    }

    constructor (manager: ClientRequestManager)
      ensures this.manager == manager && LinkView() == Link(Disconnected, false, NoWaits())
    {
      this.manager := manager;
      state, connectingSocket, disconnectWaiters := Disconnected, false, [];
      disconnections, begun, returned := 0, [], [];
    }

    /** The exchange, and the cancellation of the timer the disconnect() calls wait on. */
    method SetState(next: LinkState)
      modifies this`state, this`disconnectWaiters, this`disconnections
      ensures LinkView() == old(LinkView()).To(next)
    {
      var previous := state;
      state := next;
      if previous != Disconnected && next == Disconnected {
        disconnections := disconnections + 1;
      }
      if previous == Disconnecting && next == Disconnected {
        CancelWaiters();
      }
    }

    /** cancel() on the timer: every outstanding wait completes. */
    method CancelWaiters()
      modifies this`disconnectWaiters
      ensures disconnectWaiters == Released(old(disconnectWaiters))
    {
      var i := 0;
      while i < |disconnectWaiters|
        modifies this`disconnectWaiters
        invariant 0 <= i <= |disconnectWaiters| == |old(disconnectWaiters)|
        invariant disconnectWaiters[..i] == Released(old(disconnectWaiters))[..i]
        invariant disconnectWaiters[i..] == old(disconnectWaiters)[i..]
      {
        assert disconnectWaiters[i] == old(disconnectWaiters)[i..][0];
        disconnectWaiters := disconnectWaiters[i := disconnectWaiters[i].(released := true)];
        i := i + 1;
      }
    }

    method WaitForDisconnected(call: nat)
      modifies this`disconnectWaiters
      ensures disconnectWaiters == old(disconnectWaiters) + [Waiter(call, false)]
    {
      disconnectWaiters := disconnectWaiters + [Waiter(call, false)];
    }

    /** connect(), up to async_connect; refused unless disconnected. */
    method Connect() returns (ok: bool)
      modifies this
      ensures ok <==> old(state) == Disconnected
      ensures LinkView() == if ok then old(LinkView()).To(Connecting).(socket := true) else old(LinkView())
    {
      if state != Disconnected {
        return false;
      }
      SetState(Connecting);
      connectingSocket := true;
      return true;
    }

    /** connect(), once async_connect has finished: a new connection, or an exception. */
    method ConnectFinished(lim: Limits<ClientMessage>, failed: bool, ghost serial: nat)
      returns (r: Result<Connection<ServerMessage, ClientMessage>, ()>)
      modifies this, manager
      ensures var resumed := old(LinkView()).(socket := false);
        if old(state) == Disconnecting || failed || old(manager.connection) != null then
          && r.Err? && LinkView() == resumed.To(Disconnected) && manager.View() == old(manager.View())
          && manager.connection == old(manager.connection) && manager.onClosed == old(manager.onClosed)
        else
          && r.Ok? && fresh(r.value) && LinkView() == resumed.To(Connected)
          && manager.View() == RequestTable.Start(old(manager.View()), serial).value
          && manager.connection == r.value && manager.onClosed == this
          && r.value.serial == serial && r.value.lim == lim && r.value.View() == Post(Created(), StartTask)
    {
      connectingSocket := false;
      if state == Disconnecting || failed {
        SetState(Disconnected);
        return Err(());
      }
      r := manager.Start(lim, this, serial);
      SetState(if r.Ok? then Connected else Disconnected);
    }

    /** disconnect(), up to its suspension or its return. */
    method Disconnect()
      modifies this, manager`pendingRequests, if manager.connection == null then {} else {manager.connection}
      ensures LinkView() == match old(state)
        case Disconnected => old(LinkView()).Called()
        case Disconnecting => old(LinkView()).Called()
        case _ => old(LinkView()).Called().To(Disconnecting)
      ensures manager.View() ==
        if old(state) == Connected then RequestTable.Stop(old(manager.View()), CLIENT_DISCONNECTED)
        else old(manager.View())
      ensures manager.connection != null ==>
        manager.connection.View() == if old(state) == Connected then Post(old(manager.connection.View()), StopTask)
                                     else old(manager.connection.View())
    {
      var call := |begun|;
      begun := begun + [Begun(state == Disconnected, disconnections)];
      match state {
        case Disconnected =>
          returned := returned + [call];
          return;
        case Disconnecting =>
        case Connecting =>
          SetState(Disconnecting);
        case Connected =>
          SetState(Disconnecting);
          manager.Stop(CLIENT_DISCONNECTED);
      }
      WaitForDisconnected(call);
    }

    method ConnectionClosed()
      modifies this`state, this`disconnectWaiters, this`disconnections
      ensures LinkView() == old(LinkView()).LostConnection()
    {
      if state == Connected || state == Disconnecting {
        SetState(Disconnected);
      }
    }

    /** A disconnect() whose wait was cancelled returns. */
    method DisconnectResumes(w: nat)
      requires w < |disconnectWaiters|
      modifies this`disconnectWaiters, this`returned
      ensures LinkView() == old(LinkView()).(waits := Return(old(LinkView()).waits, w))
    {
      returned := returned + [disconnectWaiters[w].call];
      disconnectWaiters := RemoveAt(disconnectWaiters, w);
    }
  }

  /** The event loop of the client's one thread, with everything it can resume. */
  class ClientLoop {
    const cfg: Config
    const manager: ClientRequestManager
    const link: ConnectionManager
    var conns: seq<Connection<ServerMessage, ClientMessage>>
    var closes: seq<nat>
    var connecting: nat
    var calls: Calls

    ghost function ConnViews(): seq<ClientConn>
      reads this, conns
    {
      seq(|conns|, g requires 0 <= g < |conns| reads this, conns => conns[g].View())
    }

    ghost function View(): ClientSpec.Client
      reads this, manager, link, conns
    {
      ClientSpec.Client(link.state, link.connectingSocket, connecting, link.LinkView().waits,
                        manager.View(), ConnViews(), closes, calls)
    }

    /** The objects refer to each other as the value of the same name says they do. */
    ghost predicate Wired()
      reads this, manager, link, conns
    {
      && link.manager == manager
      && (forall g | 0 <= g < |conns| :: conns[g].serial == g && conns[g].lim == cfg.lim)
      && (manager.connection != null ==>
           manager.connection.serial < |conns| && conns[manager.connection.serial] == manager.connection)
      && (manager.onClosed != null ==> manager.onClosed == link)
    }

    constructor (cfg: Config)
      ensures this.cfg == cfg && Wired() && View() == Init()
      ensures fresh(manager) && fresh(link)
    {
      this.cfg := cfg;
      var m := new ClientRequestManager();
      manager := m;
      link := new ConnectionManager(m);
      conns, closes, connecting, calls := [], [], 0, NoCalls();
    }

    /** Only this connection's view changes when it alone is modified. */
    twostate lemma OnlyOneMoved(g: nat)
      requires old(Wired()) && conns == old(conns) && g < |conns|
      requires forall h | 0 <= h < |conns| && h != g :: conns[h].View() == old(conns[h].View())
      ensures ConnViews() == old(ConnViews())[g := conns[g].View()]
    {
    }

    method OnConnect()
      requires Wired()
      modifies this, link
      ensures Wired() && conns == old(conns) && View() == ClientSpec.Connect(old(View()))
    {
      var ok := link.Connect();
      if ok {
        connecting := connecting + 1;
      }
    }

    method OnConnectResumes(failed: bool)
      requires Wired() && connecting > 0
      modifies this, link, manager
      ensures Wired() && fresh(set c | c in conns && c !in old(conns))
      ensures View() == ClientSpec.ConnectFinished(old(View()), failed)
    {
      connecting := connecting - 1;
      var r := link.ConnectFinished(cfg.lim, failed, |conns|);
      if r.Ok? {
        conns := conns + [r.value];
        assert ConnViews() == old(ConnViews()) + [Post(Created(), StartTask)];
      }
    }

    method OnDisconnect()
      requires Wired()
      modifies link, manager, conns
      ensures Wired() && conns == old(conns) && View() == ClientSpec.Disconnect(old(View()))
    {
      link.Disconnect();
      if manager.connection != null {
        OnlyOneMoved(manager.connection.serial);
      }
    }

    method OnSend(r: Request)
      requires Wired()
      modifies this, manager, conns
      ensures Wired() && conns == old(conns) && View() == SendRequest(cfg, old(View()), r)
    {
      var call := |calls.made|;
      var sent := manager.BeginSend(PayloadOf(r), cfg.maxPending, call);
      match sent {
        case Err(why) =>
          calls := Calls(calls.made + [r], calls.senders, calls.completions + [Completion(call, why)]);
          assert ConnViews() == old(ConnViews());
        case Ok(id) =>
          calls := Calls(calls.made + [r], calls.senders[call := id], calls.completions);
          OnlyOneMoved(manager.connection.serial);
      }
    }

    method OnSenderResumes(call: nat)
      requires Wired() && call in calls.senders
      modifies this, manager
      ensures Wired() && conns == old(conns) && View() == SendResumes(old(View()), call)
    {
      var outcome := manager.FinishSend(calls.senders[call], call);
      calls := Calls(calls.made, calls.senders - {call}, calls.completions + [Completion(call, outcome)]);
    }

    method OnCloseTask()
      requires Wired() && closes != []
      modifies this, link, manager
      ensures Wired() && conns == old(conns) && View() == CloseTask(old(View()))
    {
      closes := closes[1..];
      manager.ConnectionClosed();
    }

    /** A connection is resumed; if that closed it, its close handler posts connectionClosed. */
    method OnConnection(g: nat, e: ClientEvent)
      requires Wired() && g < |conns| && Enabled(cfg.lim, conns[g].View(), e)
      modifies this, conns
      ensures Wired() && conns == old(conns) && View() == ConnStep(cfg, old(View()), g, e)
    {
      ghost var c := ConnectionSpec.Step(cfg.lim, conns[g].View(), e);
      var notify := conns[g].Resume(e);
      OnlyOneMoved(g);
      assert ConnViews() == old(ConnViews())[g := c];
      if notify {
        closes := closes + [g];
      }
    }

    /** receive() runs for a message that was read, and its handler returns. */
    method OnReceive(g: nat, i: nat)
      requires Wired() && CanStep(cfg, View(), ReceiveRuns(g, i))
      modifies this, manager, conns
      ensures Wired() && conns == old(conns) && View() == Next(cfg, old(View()), ReceiveRuns(g, i))
    {
      manager.Receive(conns[g].readers[i].message);
      OnConnection(g, HandlerDone(i, true));
    }

    /** Any step a state allows, performed on the objects. */
    method Take(step: ClientSpec.Step)
      requires Wired() && CanStep(cfg, View(), step)
      modifies this, link, manager, conns
      ensures Wired() && fresh(set c | c in conns && c !in old(conns))
      ensures View() == Next(cfg, old(View()), step)
    {
      match step
      case ConnectCalled => OnConnect();
      case ConnectResumes(failed) => OnConnectResumes(failed);
      case DisconnectCalled => OnDisconnect();
      case DisconnectResumes(w) => link.DisconnectResumes(w);
      case SendCalled(r) => OnSend(r);
      case TimerExpires(id) => manager.TimerExpires(id);
      case SenderResumes(call) => OnSenderResumes(call);
      case CloseTaskRuns => OnCloseTask();
      case ConnRuns(g, e) => OnConnection(g, e);
      case ReceiveRuns(g, i) => OnReceive(g, i);
    }

    /** Any schedule the environment chooses: the objects end where the state machine does, so
        every theorem about its runs holds of them. */
    method Run(schedule: seq<ClientSpec.Step>, ghost last: ClientSpec.Client)
      requires Wired() && ClientValid(cfg, View())
      requires ClientSpec.IsRun(cfg, View(), schedule, last) && |last.manager.issuedTo| < UINT64_LIMIT
      modifies this, link, manager, conns
      ensures View() == last && ClientValid(cfg, View())
    {
      ClientTheorems.RunKeepsValid(cfg, View(), schedule, last);
      var i := 0;
      while i < |schedule|
        modifies this, link, manager, conns
        invariant 0 <= i <= |schedule| && Wired()
        invariant fresh(set c | c in conns && c !in old(conns))
        invariant ClientSpec.IsRun(cfg, View(), schedule[i..], last)
      {
        assert schedule[i..][1..] == schedule[i + 1..];
        Take(schedule[i]);
        i := i + 1;
      }
    }
  }
}
