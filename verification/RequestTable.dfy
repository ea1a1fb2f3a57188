/** The state of ClientRequestManager (client/src/network/ClientRequestManager.cpp) and what each
    of its segments does to it. */
module RequestTable {
  import opened Prelude
  import opened Protocol

  /** One async_wait on a one-shot timer. Once it has expired its handler is queued, and
      cancel() no longer has any effect on it. */
  datatype Timer = Armed | FiredQueued | CancelledQueued

  function Cancel(t: Timer): Timer {
    if t == Armed then CancelledQueued else t
  }

  datatype PendingState = Waiting | Completed | Failed

  /** `owner` is the number of the sendRequest call whose coroutine holds a pointer to this
      entry: it stands for the entry's address, which the coroutine compares on resuming. */
  datatype Pending = Pending(
    owner: nat, timer: Timer, state: PendingState, response: Option<ServerMessage>, error: string)

  datatype Crm = Crm(
    nextRequestId: nat,
    connection: Option<nat>,         // which connection m_connection points to, if any
    onClosed: bool,                  // m_onClosed is set
    pending: map<nat, Pending>,
    issuedTo: seq<nat>)              // the calls that were given an id, in order

  datatype SendOutcome =
    | Response(message: ServerMessage)
    | NotConnected | TooManyPending | StateLost | TimedOut | NoResponse
    | RequestFailed(reason: string)

  const CLIENT_DISCONNECTED := "client disconnected"
  const CONNECTION_CLOSED := "Connection closed before response was received"

  function FreshManager(): Crm {
    Crm(0, None, false, map[], [])
  }

  /** start(): refuses while a connection is held. */
  function Start(m: Crm, connection: nat): Result<Crm, ()> {
    if m.connection.Some? then Err(()) else Ok(m.(connection := Some(connection), onClosed := true))
  }

  function FailEntry(e: Pending, reason: string): Pending {
    if e.state == Waiting then e.(state := Failed, error := reason, timer := Cancel(e.timer)) else e
  }

  function FailPending(m: Crm, reason: string): Crm {
    m.(pending := map id | id in m.pending :: FailEntry(m.pending[id], reason))
  }

  function Stop(m: Crm, reason: string): Crm {
    if m.connection == None then m else FailPending(m, reason)
  }

  /** connectionClosed(), up to the call of the close handler. */
  function Closed(m: Crm): Crm {
    FailPending(m.(connection := None), CONNECTION_CLOSED).(onClosed := false)
  }

  datatype Admission = Refused(why: SendOutcome) | Admitted(m: Crm, id: nat)

  /** send(), up to the wait. The id counter is 64 bits wide and wraps. */
  function Admit(m: Crm, maxPending: nat, call: nat): Admission {
    if m.connection == None then Refused(NotConnected)
    else if |m.pending| >= maxPending then Refused(TooManyPending)
    else
      var id := (m.nextRequestId + 1) % UINT64_LIMIT;
      Admitted(
        m.(nextRequestId := id,
           pending := if id in m.pending then m.pending
                      else m.pending[id := Pending(call, Armed, Waiting, None, "")],
           issuedTo := m.issuedTo + [call]),
        id)
  }

  /** The timer's deadline passes while the wait is outstanding. */
  function Expire(m: Crm, id: nat): Crm
    requires id in m.pending
  {
    m.(pending := m.pending[id := m.pending[id].(timer := FiredQueued)])
  }

  function Receive(m: Crm, message: ServerMessage): Crm {
    var id := message.requestId;
    if id !in m.pending || m.pending[id].state != Waiting then m
    else
      var e := m.pending[id];
      m.(pending := m.pending[id := e.(state := Completed, response := Some(message), timer := Cancel(e.timer))])
  }

  /** send(), from the end of the wait: the entry is looked up again, by id and by address. */
  function Finish(m: Crm, id: nat, call: nat): (Crm, SendOutcome) {
    if id !in m.pending || m.pending[id].owner != call then (m, StateLost)
    else
      var e := m.pending[id];
      var rest := m.(pending := m.pending - {id});
      if e.timer != CancelledQueued then (rest, TimedOut)
      else if e.state == Failed then (rest, RequestFailed(e.error))
      else if e.state != Completed || e.response == None then (rest, NoResponse)
      else (rest, Response(e.response.value))
  }

  /** What sendRequest makes of the outcome of send. */
  datatype Reply =
    | PongValue(timestamp: nat) | SnapshotValue(state: Snapshot)
    | ServerError(text: string) | UnexpectedPayload | SendError(outcome: SendOutcome)

  function TypedReply(r: Request, o: SendOutcome): Reply {
    match o
    case Response(m) =>
      if m.status != StatusOk then ServerError(if m.payload.ErrorReply? then m.payload.text else "")
      else (match r
        case PingRequest(_) => if m.payload.Pong? then PongValue(m.payload.timestamp) else UnexpectedPayload
        case SnapshotRequest => if m.payload.SnapshotReply? then SnapshotValue(m.payload.state) else UnexpectedPayload)
    case _ => SendError(o)
  }

  // ---- the table on its own ----

  /** Every entry is in a state the races can leave it in: only a waiting request has a running
      timer; a cancelled timer means somebody settled the request first. `FiredQueued` says
      nothing about the state: the timer may have fired before the response was recorded. */
  ghost predicate EntryValid(id: nat, e: Pending) {
    && (e.timer == Armed ==> e.state == Waiting)
    && (e.timer == CancelledQueued ==> e.state != Waiting)
    && (e.state == Completed ==> e.response.Some? && e.response.value.requestId == id)
  }

  ghost predicate TableValid(m: Crm, maxPending: nat) {
    && |m.pending| <= maxPending
    && (forall id | id in m.pending :: EntryValid(id, m.pending[id]))
    && (m.connection == None ==> forall id | id in m.pending :: m.pending[id].state != Waiting)
    && (m.onClosed <==> m.connection.Some?)
    && (|m.issuedTo| < UINT64_LIMIT ==>
         && m.nextRequestId == |m.issuedTo|
         && forall id | id in m.pending :: 1 <= id <= |m.issuedTo| && m.pending[id].owner == m.issuedTo[id - 1])
  }

  /** How a request whose timer is done is going to end. */
  function Verdict(e: Pending): SendOutcome {
    if e.timer != CancelledQueued then TimedOut
    else if e.state == Failed then RequestFailed(e.error)
    else if e.response.Some? then Response(e.response.value)
    else NoResponse
  }

  /** The entry of this call is settled: its timer has expired or was cancelled. */
  ghost predicate Settled(m: Crm, id: nat, call: nat, verdict: SendOutcome) {
    && id in m.pending && m.pending[id].owner == call && m.pending[id].timer != Armed
    && Verdict(m.pending[id]) == verdict
  }

  /** A waiting request of `m` is settled with this verdict, unless its timer had fired before. */
  ghost predicate SettledWith(m: Crm, m': Crm, id: nat, verdict: SendOutcome)
    requires id in m.pending
  {
    Settled(m', id, m.pending[id].owner, if m.pending[id].timer == FiredQueued then TimedOut else verdict)
  }

  /** Exactly the waiting requests are settled, all with this verdict; nothing comes or goes. */
  ghost predicate FailsWaiting(m: Crm, m': Crm, verdict: SendOutcome) {
    && m'.pending.Keys == m.pending.Keys
    && (forall id | id in m.pending && m.pending[id].state == Waiting :: SettledWith(m, m', id, verdict))
    && (forall id | id in m.pending && m.pending[id].state != Waiting :: m'.pending[id] == m.pending[id])
  }

  lemma SizeOfMap<K, A, B>(a: map<K, A>, b: map<K, B>)
    requires a.Keys == b.Keys
    ensures |a| == |b|
  {
    assert |a| == |a.Keys| && |b| == |b.Keys|;
  }

  lemma Shrinks<K, V>(m: map<K, V>, k: K)
    requires k in m
    ensures (m - {k}).Keys == m.Keys - {k} && |m - {k}| == |m| - 1
  {
    assert |m.Keys - {k}| == |m.Keys| - 1;
    assert |m - {k}| == |(m - {k}).Keys|;
  }

  lemma FreshIsValid(maxPending: nat)
    ensures TableValid(FreshManager(), maxPending)
  {
  }

  lemma StopKeeps(m: Crm, reason: string, maxPending: nat)
    requires TableValid(m, maxPending)
    ensures TableValid(Stop(m, reason), maxPending) && Stop(m, reason).pending.Keys == m.pending.Keys
    ensures if m.connection.Some? then FailsWaiting(m, Stop(m, reason), RequestFailed(reason)) else Stop(m, reason) == m
  {
    SizeOfMap(m.pending, FailPending(m, reason).pending);
  }

  lemma ClosedKeeps(m: Crm, maxPending: nat)
    requires TableValid(m, maxPending)
    ensures TableValid(Closed(m), maxPending) && Closed(m).pending.Keys == m.pending.Keys
    ensures Closed(m).connection == None && FailsWaiting(m, Closed(m), RequestFailed(CONNECTION_CLOSED))
  {
    SizeOfMap(m.pending, Closed(m).pending);
  }

  /** A request is refused exactly when there is no connection or the table is full, and the reason
      says which. While fewer than 2^64 ids have been issued an admitted one gets a fresh id: the
      next number. */
  lemma AdmitKeeps(m: Crm, maxPending: nat, call: nat)
    requires TableValid(m, maxPending) && |m.issuedTo| + 1 < UINT64_LIMIT
    ensures match Admit(m, maxPending, call)
      case Refused(why) =>
        if m.connection == None then why == NotConnected else why == TooManyPending && |m.pending| == maxPending
      case Admitted(m', id) =>
        && m.connection.Some? && |m.pending| < maxPending && TableValid(m', maxPending)
        && id !in m.pending && id == |m.issuedTo| + 1
        && m'.pending == m.pending[id := Pending(call, Armed, Waiting, None, "")]
  {
    if m.connection.Some? && |m.pending| < maxPending {
      var id := |m.issuedTo| + 1;
      assert (m.nextRequestId + 1) % UINT64_LIMIT == id;
      var e := Pending(call, Armed, Waiting, None, "");
      assert EntryValid(id, e);
      assert |m.pending[id := e]| == |m.pending| + 1;
    }
  }

  lemma ExpireKeeps(m: Crm, id: nat, maxPending: nat)
    requires TableValid(m, maxPending) && id in m.pending
    ensures TableValid(Expire(m, id), maxPending) && Expire(m, id).pending.Keys == m.pending.Keys
    ensures Settled(Expire(m, id), id, m.pending[id].owner, TimedOut)
    ensures forall other | other in m.pending && other != id :: Expire(m, id).pending[other] == m.pending[other]
  {
  }

  lemma ReceiveKeeps(m: Crm, message: ServerMessage, maxPending: nat)
    requires TableValid(m, maxPending)
    ensures TableValid(Receive(m, message), maxPending) && Receive(m, message).pending.Keys == m.pending.Keys
    ensures message.requestId !in m.pending || m.pending[message.requestId].state != Waiting ==>
      Receive(m, message) == m
    ensures message.requestId in m.pending && m.pending[message.requestId].state == Waiting ==>
      SettledWith(m, Receive(m, message), message.requestId, Response(message))
    ensures forall id | id in m.pending && id != message.requestId :: Receive(m, message).pending[id] == m.pending[id]
  {
  }

  /** A coroutine that finds its own entry ends as its own response, as a timeout, or as a
      failure with a reason; never as a cancellation without either. */
  lemma FinishKeeps(m: Crm, id: nat, call: nat, maxPending: nat)
    requires TableValid(m, maxPending)
    requires id in m.pending && m.pending[id].owner == call && m.pending[id].timer != Armed
    ensures var (m', outcome) := Finish(m, id, call);
      && TableValid(m', maxPending) && m'.pending.Keys == m.pending.Keys - {id}
      && (outcome == TimedOut <==> m.pending[id].timer == FiredQueued)
      && (outcome.Response? ==> outcome.message.requestId == id && m.pending[id].response == Some(outcome.message))
      && (outcome.Response? || outcome.RequestFailed? || outcome.TimedOut?)
  {
    Shrinks(m.pending, id);
    assert EntryValid(id, m.pending[id]);
  }

  /** What each settler makes of a request whose timer is still running. */
  lemma SettlersOf(m: Crm, maxPending: nat, id: nat, expired: nat, reason: string, message: ServerMessage)
    requires TableValid(m, maxPending) && id in m.pending && m.pending[id].timer == Armed
    ensures Settled(Expire(m, id), id, m.pending[id].owner, TimedOut)
    ensures expired in m.pending && expired != id ==> Expire(m, expired).pending[id] == m.pending[id]
    ensures if message.requestId == id then Settled(Receive(m, message), id, m.pending[id].owner, Response(message))
            else id in Receive(m, message).pending && Receive(m, message).pending[id] == m.pending[id]
    ensures m.connection.Some? ==> Settled(Stop(m, reason), id, m.pending[id].owner, RequestFailed(reason))
    ensures Settled(Closed(m), id, m.pending[id].owner, RequestFailed(CONNECTION_CLOSED))
  {
    assert EntryValid(id, m.pending[id]);
  }

  /** No later response, timeout, stop or close changes how a settled request ends. */
  lemma VerdictSurvives(m: Crm, id: nat, call: nat, verdict: SendOutcome, other: nat, reason: string,
                        message: ServerMessage, maxPending: nat)
    requires TableValid(m, maxPending) && Settled(m, id, call, verdict)
    ensures Settled(FailPending(m, reason), id, call, verdict)
    ensures Settled(Closed(m), id, call, verdict)
    ensures Settled(Receive(m, message), id, call, verdict)
    ensures other in m.pending && m.pending[other].timer == Armed ==> Settled(Expire(m, other), id, call, verdict)
  {
    assert EntryValid(id, m.pending[id]);
  }
}
