/** What each call on the client does in every reachable state, exactly
    (client/src/network/ConnectionManager.cpp, ClientRequestManager.cpp). */
module ClientLaws {
  import opened Prelude
  import opened ConnectionSpec
  import opened Protocol
  import opened RequestTable
  import opened RequestCalls
  import opened ClientSpec
  import opened ClientInvariants
  import opened ClientTheorems

  /** connect() begins exactly when the client is Disconnected, one at a time; otherwise it throws
      and changes nothing. */
  lemma ConnectBeginsExactly(cfg: Config, steps: seq<Step>, s: Client)
    requires cfg.lim.maxQueued >= 1 && ClientSpec.IsRun(cfg, Init(), steps, s)
    ensures var t := Next(cfg, s, ConnectCalled);
      if s.state == Disconnected then
        s.connecting == 0 && t == s.(state := Connecting, socket := true, connecting := 1)
      else t == s
  {
    InitLink(cfg);
    RunKeepsLink(cfg, Init(), steps, s);
  }

  /** A connect() whose async_connect is done succeeds exactly when that did not fail and nobody
      disconnected meanwhile: then the client is Connected with one new connection, whose start is
      posted. Otherwise it is Disconnected, with no connection. */
  lemma ConnectEndsExactly(cfg: Config, steps: seq<Step>, s: Client, failed: bool)
    requires cfg.lim.maxQueued >= 1 && ClientSpec.IsRun(cfg, Init(), steps, s) && s.connecting > 0
    ensures var t := Next(cfg, s, ConnectResumes(failed));
      && t.connecting == 0 && !t.socket
      && if s.state == Connecting && !failed then
           && t.state == Connected && t.manager.connection == Some(|s.conns|)
           && t.conns == s.conns + [Post(Created(), StartTask)]
         else t.state == Disconnected && t.manager == s.manager && t.manager.connection == None && t.conns == s.conns
  {
    InitLink(cfg);
    RunKeepsLink(cfg, Init(), steps, s);
  }

  /** The current connection, if there is one, is the newest; a Connected client has one. */
  ghost predicate CurrentIsNewest(s: Client) {
    && (s.manager.connection.Some? ==> s.conns != [] && s.manager.connection == Some(|s.conns| - 1))
    && (s.state == Connected ==> s.manager.connection.Some?)
  }

  lemma ReachedCurrentIsNewest(cfg: Config, steps: seq<Step>, s: Client)
    requires cfg.lim.maxQueued >= 1 && ClientSpec.IsRun(cfg, Init(), steps, s)
    ensures CurrentIsNewest(s)
  {
    InitLink(cfg);
    RunKeepsLink(cfg, Init(), steps, s);
    LinkMeansNewest(s);
  }

  lemma LinkMeansNewest(s: Client)
    requires Coupled(s) && OneLive(s)
    ensures CurrentIsNewest(s)
  {
  }

  /** The newest connection gets this task, and nothing else happens to any connection. */
  ghost predicate PostedToNewest(s: Client, t: Client, task: Task<ClientMessage>) {
    && s.conns != [] && s.manager.connection == Some(|s.conns| - 1)
    && t.conns == s.conns[|s.conns| - 1 := Post(s.conns[|s.conns| - 1], task)]
  }

  /** disconnect() posts a stop exactly when the client is Connected. */
  lemma DisconnectStopsExactly(cfg: Config, steps: seq<Step>, s: Client)
    requires cfg.lim.maxQueued >= 1 && ClientSpec.IsRun(cfg, Init(), steps, s)
    ensures var t := Next(cfg, s, DisconnectCalled);
      if s.state == Connected then PostedToNewest(s, t, StopTask) else t.conns == s.conns && t.manager == s.manager
  {
    ReachedCurrentIsNewest(cfg, steps, s);
    DisconnectStops(cfg, s);
  }

  lemma DisconnectStops(cfg: Config, s: Client)
    requires CurrentIsNewest(s)
    ensures var t := Next(cfg, s, DisconnectCalled);
      if s.state == Connected then PostedToNewest(s, t, StopTask) else t.conns == s.conns && t.manager == s.manager
  {
  }

  /** The call has failed with this exception, and nothing else has happened. */
  ghost predicate FailsAtOnce(s: Client, t: Client, why: SendOutcome) {
    && t.calls.completions == s.calls.completions + [Completion(|s.calls.made|, why)]
    && t.calls.senders == s.calls.senders && t.manager == s.manager && t.conns == s.conns
  }

  /** The call waits under this id, its timer running and its message posted. */
  ghost predicate Begins(s: Client, t: Client, id: nat, m: ClientMessage) {
    && t.calls.completions == s.calls.completions && Undecided(t, |s.calls.made|, id)
    && id !in s.manager.pending && t.manager.pending.Keys == s.manager.pending.Keys + {id}
    && PostedToNewest(s, t, SendTask(m))
  }

  /** sendRequest() fails at once exactly when there is no connection or the table is full, with the
      exception for it; otherwise the call is suspended under the next id, its timer running, with
      its message posted to the current connection. */
  lemma SendBeginsExactly(cfg: Config, steps: seq<Step>, s: Client, r: Request)
    requires cfg.lim.maxQueued >= 1 && ClientSpec.IsRun(cfg, Init(), steps, s)
    requires |s.manager.issuedTo| + 1 < UINT64_LIMIT
    ensures var t := Next(cfg, s, SendCalled(r)); var id := |s.manager.issuedTo| + 1;
      && t.calls.made == s.calls.made + [r]
      && if s.manager.connection == None then FailsAtOnce(s, t, NotConnected)
         else if |s.manager.pending| == cfg.maxPending then FailsAtOnce(s, t, TooManyPending)
         else Begins(s, t, id, MessageFor(id, r))
  {
    ReachedCurrentIsNewest(cfg, steps, s);
    ClientTheorems.InitIsValid(cfg);
    ClientTheorems.RunKeepsValid(cfg, Init(), steps, s);
    SendBegins(cfg, s, r);
  }

  lemma SendBegins(cfg: Config, s: Client, r: Request)
    requires CurrentIsNewest(s) && TableValid(s.manager, cfg.maxPending) && |s.manager.issuedTo| + 1 < UINT64_LIMIT
    ensures var t := Next(cfg, s, SendCalled(r)); var id := |s.manager.issuedTo| + 1;
      && t.calls.made == s.calls.made + [r]
      && if s.manager.connection == None then FailsAtOnce(s, t, NotConnected)
         else if |s.manager.pending| == cfg.maxPending then FailsAtOnce(s, t, TooManyPending)
         else Begins(s, t, id, MessageFor(id, r))
  {
    AdmitKeeps(s.manager, cfg.maxPending, |s.calls.made|);
    if s.manager.connection.Some? && |s.manager.pending| < cfg.maxPending {
      AdmittedBegins(cfg, s, r);
    } else {
      RefusedFails(cfg, s, r);
    }
  }

  lemma RefusedFails(cfg: Config, s: Client, r: Request)
    requires Admit(s.manager, cfg.maxPending, |s.calls.made|).Refused?
    ensures var t := SendRequest(cfg, s, r);
      FailsAtOnce(s, t, Admit(s.manager, cfg.maxPending, |s.calls.made|).why) && t.calls.made == s.calls.made + [r]
  {
  }

  lemma AdmittedBegins(cfg: Config, s: Client, r: Request)
    requires s.conns != [] && s.manager.connection == Some(|s.conns| - 1)
    requires Admit(s.manager, cfg.maxPending, |s.calls.made|).Admitted?
    requires var a := Admit(s.manager, cfg.maxPending, |s.calls.made|);
      && a.id !in s.manager.pending
      && a.m.pending == s.manager.pending[a.id := Pending(|s.calls.made|, Armed, Waiting, None, "")]
    ensures var t, id := SendRequest(cfg, s, r), Admit(s.manager, cfg.maxPending, |s.calls.made|).id;
      Begins(s, t, id, MessageFor(id, r)) && t.calls.made == s.calls.made + [r]
  {
  }

  /** A suspended call can resume exactly when its timer has expired or was cancelled, and as long
      as neither happened the timer can expire. */
  lemma SenderResumesExactly(cfg: Config, steps: seq<Step>, s: Client, call: nat)
    requires cfg.lim.maxQueued >= 1 && ClientSpec.IsRun(cfg, Init(), steps, s)
    requires |s.manager.issuedTo| < UINT64_LIMIT && call in s.calls.senders
    ensures if Undecided(s, call, s.calls.senders[call]) then CanStep(cfg, s, TimerExpires(s.calls.senders[call]))
            else CanStep(cfg, s, SenderResumes(call))
    ensures Undecided(s, call, s.calls.senders[call]) ==> !CanStep(cfg, s, SenderResumes(call))
  {
    OneOutcomePerCall(cfg, steps, s);
  }
}
