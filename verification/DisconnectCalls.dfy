/** The disconnect() calls of a client and how long they wait
    (client/src/network/ConnectionManager.cpp: disconnect, waitForDisconnected, setState). */
module DisconnectCalls {
  import opened Prelude

  /** A disconnect() suspended on the never-expiring timer; `released` that the timer was cancelled. */
  datatype Waiter = Waiter(call: nat, released: bool)

  /** A call when it began: whether the client was Disconnected, and how often the state had become
      Disconnected by then. */
  datatype Begun = Begun(idle: bool, since: nat)

  datatype Waits = Waits(
    disconnections: nat,          // how many times the state became Disconnected
    begun: seq<Begun>,            // every disconnect() call
    waiters: seq<Waiter>,         // those suspended
    returned: seq<nat>)           // those that returned, in order of returning

  function NoWaits(): Waits {
    Waits(0, [], [], [])
  }

  /** A call is made: it returns at once if there is nothing to do, and waits otherwise. */
  function Begin(w: Waits, idle: bool): Waits {
    var call, counted := |w.begun|, w.(begun := w.begun + [Begun(idle, w.disconnections)]);
    if idle then counted.(returned := w.returned + [call])
    else counted.(waiters := w.waiters + [Waiter(call, false)])
  }

  function Released(ws: seq<Waiter>): seq<Waiter> {
    seq(|ws|, i requires 0 <= i < |ws| => ws[i].(released := true))
  }

  /** The state becomes Disconnected; coming from Disconnecting the timer is cancelled. */
  function Reached(w: Waits, disconnecting: bool): Waits {
    w.(disconnections := w.disconnections + 1, waiters := if disconnecting then Released(w.waiters) else w.waiters)
  }

  /** A suspended call returns. */
  function Return(w: Waits, i: nat): Waits
    requires i < |w.waiters|
  {
    w.(waiters := RemoveAt(w.waiters, i), returned := w.returned + [w.waiters[i].call])
  }

  function Suspended(ws: seq<Waiter>): set<nat> {
    set w | w in ws :: w.call
  }

  /** The client was Disconnected when this call began, or has been since. */
  predicate Due(w: Waits, call: nat)
    requires call < |w.begun|
  {
    w.begun[call].idle || w.begun[call].since < w.disconnections
  }

  /** Every call is either suspended or returned, and once. */
  ghost predicate Counted(calls: nat, ws: seq<Waiter>, returned: seq<nat>) {
    && (forall call: nat :: call < calls <==> call in Suspended(ws) || call in returned)
    && (forall i, j | 0 <= i < j < |ws| :: ws[i].call != ws[j].call)
    && (forall i, j | 0 <= i < j < |returned| :: returned[i] != returned[j])
    && (forall i | 0 <= i < |ws| :: ws[i].call !in returned)
  }

  /** Those that returned, and those whose timer was cancelled, were due; the others wait
      while the client is disconnecting. */
  ghost predicate OnlyDueReturn(w: Waits, disconnecting: bool) {
    && (forall i | 0 <= i < |w.returned| :: w.returned[i] < |w.begun| && Due(w, w.returned[i]))
    && (forall i | 0 <= i < |w.waiters| ::
          && w.waiters[i].call < |w.begun|
          && if w.waiters[i].released then Due(w, w.waiters[i].call) else disconnecting)
    && (forall call | 0 <= call < |w.begun| :: w.begun[call].since <= w.disconnections)
  }

  ghost predicate WaitsValid(w: Waits, disconnecting: bool) {
    Counted(|w.begun|, w.waiters, w.returned) && OnlyDueReturn(w, disconnecting)
  }

  lemma WaitingAppend(ws: seq<Waiter>, w: Waiter)
    ensures Suspended(ws + [w]) == Suspended(ws) + {w.call}
  {
    forall call | call in Suspended(ws) + {w.call} ensures call in Suspended(ws + [w]) {
      if call == w.call {
        assert w in ws + [w];
      } else {
        var v :| v in ws && v.call == call;
        assert v in ws + [w];
      }
    }
  }

  lemma ReleasedWaiting(ws: seq<Waiter>)
    ensures Suspended(Released(ws)) == Suspended(ws)
  {
    forall call | call in Suspended(ws) ensures call in Suspended(Released(ws)) {
      var i :| 0 <= i < |ws| && ws[i].call == call;
      assert Released(ws)[i] in Released(ws);
    }
    forall call | call in Suspended(Released(ws)) ensures call in Suspended(ws) {
      var i :| 0 <= i < |ws| && Released(ws)[i].call == call;
      assert ws[i] in ws;
    }
  }

  lemma RemovedWaiting(ws: seq<Waiter>, i: nat)
    requires i < |ws| && forall j, k | 0 <= j < k < |ws| :: ws[j].call != ws[k].call
    ensures Suspended(RemoveAt(ws, i)) == Suspended(ws) - {ws[i].call}
  {
    var rest := RemoveAt(ws, i);
    forall call | call in Suspended(rest) ensures call in Suspended(ws) && call != ws[i].call {
      var k :| 0 <= k < |rest| && rest[k].call == call;
      assert rest[k] == ws[if k < i then k else k + 1];
    }
    forall call | call in Suspended(ws) && call != ws[i].call ensures call in Suspended(rest) {
      var k :| 0 <= k < |ws| && ws[k].call == call;
      assert rest[if k < i then k else k - 1] == ws[k];
    }
  }

  lemma OneMoreWaits(calls: nat, ws: seq<Waiter>, returned: seq<nat>)
    requires Counted(calls, ws, returned)
    ensures Counted(calls + 1, ws + [Waiter(calls, false)], returned)
  {
    assert calls !in Suspended(ws) && calls !in returned;
    WaitingAppend(ws, Waiter(calls, false));
    forall i | 0 <= i < |ws| ensures ws[i].call != calls {
      assert ws[i] in ws;
    }
  }

  lemma OneMoreReturned(calls: nat, ws: seq<Waiter>, returned: seq<nat>)
    requires Counted(calls, ws, returned)
    ensures Counted(calls + 1, ws, returned + [calls])
  {
    assert calls !in Suspended(ws) && calls !in returned;
    forall i | 0 <= i < |ws| ensures ws[i].call != calls {
      assert ws[i] in ws;
    }
  }

  lemma WaiterReturns(calls: nat, ws: seq<Waiter>, returned: seq<nat>, i: nat)
    requires Counted(calls, ws, returned) && i < |ws|
    ensures Counted(calls, RemoveAt(ws, i), returned + [ws[i].call])
  {
    RemovedWaiting(ws, i);
    assert ws[i] in ws;
    assert forall k | 0 <= k < |ws| - 1 :: RemoveAt(ws, i)[k] == ws[if k < i then k else k + 1];
  }

  /** A call made when the client is Disconnected returns at once; any other waits, and leaves the
      client disconnecting. */
  lemma BeginKeeps(w: Waits, idle: bool, disconnecting: bool)
    requires WaitsValid(w, disconnecting) && !(idle && disconnecting)
    ensures WaitsValid(Begin(w, idle), !idle)
  {
    if idle {
      OneMoreReturned(|w.begun|, w.waiters, w.returned);
    } else {
      OneMoreWaits(|w.begun|, w.waiters, w.returned);
    }
    BeginKeepsDue(w, idle, disconnecting);
  }

  lemma BeginKeepsDue(w: Waits, idle: bool, disconnecting: bool)
    requires OnlyDueReturn(w, disconnecting) && !(idle && disconnecting)
    ensures OnlyDueReturn(Begin(w, idle), !idle)
  {
    assert forall call: nat | call < |w.begun| :: Due(Begin(w, idle), call) == Due(w, call);
  }

  lemma ReachedKeeps(w: Waits, disconnecting: bool)
    requires WaitsValid(w, disconnecting)
    ensures WaitsValid(Reached(w, disconnecting), false)
  {
    ReleasedWaiting(w.waiters);
    assert forall call: nat | call < |w.begun| :: Due(Reached(w, disconnecting), call);
  }

  lemma ReturnKeeps(w: Waits, i: nat, disconnecting: bool)
    requires WaitsValid(w, disconnecting) && i < |w.waiters| && w.waiters[i].released
    ensures WaitsValid(Return(w, i), disconnecting)
  {
    WaiterReturns(|w.begun|, w.waiters, w.returned, i);
    ReturnKeepsDue(w, i, disconnecting);
  }

  lemma ReturnKeepsDue(w: Waits, i: nat, disconnecting: bool)
    requires OnlyDueReturn(w, disconnecting) && i < |w.waiters| && w.waiters[i].released
    ensures OnlyDueReturn(Return(w, i), disconnecting)
  {
    var t := Return(w, i);
    assert forall call: nat | call < |w.begun| :: Due(t, call) == Due(w, call);
    assert forall k | 0 <= k < |t.waiters| :: t.waiters[k] == w.waiters[if k < i then k else k + 1];
  }
}
