/** The hand-over of results from the network thread to the application
    (client/src/network/NetworkComponent.cpp): completion handlers publish, the application
    drains. The lock makes publishing and draining one step each. */
module NetworkResults {
  import Prelude
  import opened Framing
  import opened Protocol
  import opened RequestTable
  import opened RequestCalls
  import Cl = ClientSpec
  import ClientTheorems

  datatype NetworkOperation = ConnectOperation | DisconnectOperation | PingOperation | SnapshotOperation

  /** The text of an error is left open; `cause` says what a failed request failed with. */
  datatype NetworkResult =
    | PongResponse(timestamp: nat) | SnapshotResponse(state: Snapshot)
    | RequestError(operation: NetworkOperation, cause: Reply)
    | LinkError(operation: NetworkOperation)

  /** What the completion handler of a request publishes. */
  function ResultOf(r: Request, reply: Reply): NetworkResult {
    match reply
    case PongValue(t) => PongResponse(t)
    case SnapshotValue(state) => SnapshotResponse(state)
    case _ => RequestError(if r.PingRequest? then PingOperation else SnapshotOperation, reply)
  }

  /** What a published result means: a response says the server answered this kind of request with
      exactly that; an error, that it did not, and for which operation. */
  ghost predicate Tells(result: NetworkResult, r: Request, o: SendOutcome) {
    match result
    case PongResponse(t) =>
      r.PingRequest? && o.Response? && o.message.status == StatusOk && o.message.payload == Pong(t)
    case SnapshotResponse(state) =>
      r == SnapshotRequest && o.Response? && o.message.status == StatusOk && o.message.payload == SnapshotReply(state)
    case RequestError(operation, cause) =>
      && operation == (if r.PingRequest? then PingOperation else SnapshotOperation)
      && if !o.Response? then cause == SendError(o)
         else if o.message.status == StatusOk then !Fits(r, o.message.payload) && cause == UnexpectedPayload
         else cause.ServerError? && (o.message.payload.ErrorReply? ==> cause.text == o.message.payload.text)
    case LinkError(_) => false
  }

  /** The payload is of the kind the request asks for. */
  predicate Fits(r: Request, payload: ServerPayload) {
    if r.PingRequest? then payload.Pong? else payload.SnapshotReply?
  }

  /** Every finished request is told of truthfully, and a result that tells of it with a response
      is the only one that does. */
  lemma ResultTells(r: Request, o: SendOutcome, other: NetworkResult)
    ensures Tells(ResultOf(r, TypedReply(r, o)), r, o)
    ensures Tells(other, r, o) && !other.RequestError? ==> other == ResultOf(r, TypedReply(r, o))
    ensures ResultOf(r, TypedReply(r, o)).RequestError? <==>
      !(o.Response? && o.message.status == StatusOk && Fits(r, o.message.payload))
  {
  }

  class NetworkComponent {
    var results: seq<NetworkResult>
    ghost var published: seq<NetworkResult>
    ghost var drained: seq<seq<NetworkResult>>

    /** Nothing is lost, repeated or reordered between the two threads. */
    ghost predicate Valid()
      reads this
    {
      Concat(drained) + results == published
    }

    constructor ()
      ensures Valid() && results == [] && published == [] && drained == []
    {
      results, published, drained := [], [], [];
    }

    method Publish(result: NetworkResult)
      requires Valid()
      modifies this
      ensures Valid() && drained == old(drained)
      ensures published == old(published) + [result] && results == old(results) + [result]
    {
      results := results + [result];
      published := published + [result];
    }

    method RequestFinished(r: Request, outcome: SendOutcome)
      requires Valid()
      modifies this
      ensures Valid() && drained == old(drained)
      ensures published == old(published) + [ResultOf(r, TypedReply(r, outcome))]
      ensures Tells(published[|published| - 1], r, outcome)
    {
      ResultTells(r, outcome, ResultOf(r, TypedReply(r, outcome)));
      var reply := TypedReply(r, outcome);
      match reply {
        case PongValue(t) => Publish(PongResponse(t));
        case SnapshotValue(state) => Publish(SnapshotResponse(state));
        case _ => Publish(RequestError(if r.PingRequest? then PingOperation else SnapshotOperation, reply));
      }
    }

    method DrainResults() returns (batch: seq<NetworkResult>)
      requires Valid()
      modifies this
      ensures Valid() && results == [] && batch == old(results)
      ensures published == old(published) && drained == old(drained) + [batch]
    {
      batch, results := results, [];
      ConcatAppend(drained, batch);
      drained := drained + [batch];
    }
  }

  lemma {:induction false} ConcatAppend<T>(parts: seq<seq<T>>, last: seq<T>)
    ensures Concat(parts + [last]) == Concat(parts) + last
  {
    if parts == [] {
    } else {
      assert (parts + [last])[1..] == parts[1..] + [last];
      ConcatAppend(parts[1..], last);
    }
  }

  // ---- together with the client ----

  /** The client, how many of its finished calls have had their completion handler run, and
      where the results are. */
  datatype HandOver = HandOver(client: Cl.Client, handled: nat,
                               results: seq<NetworkResult>, drained: seq<seq<NetworkResult>>)

  datatype Step =
    | ClientRuns(step: Cl.Step)
    | HandlerRuns
    | LinkFailed(operation: NetworkOperation)     // a connect or disconnect coroutine threw
    | Drains

  predicate CanStep(cfg: Cl.Config, h: HandOver, step: Step) {
    match step
    case ClientRuns(e) => Cl.CanStep(cfg, h.client, e)
    case HandlerRuns =>
      && h.handled < |h.client.calls.completions|
      && h.client.calls.completions[h.handled].call < |h.client.calls.made|
    case LinkFailed(_) => true
    case Drains => true
  }

  function Handled(k: Calls, c: Completion): NetworkResult
    requires c.call < |k.made|
  {
    ResultOf(k.made[c.call], TypedReply(k.made[c.call], c.outcome))
  }

  function Next(cfg: Cl.Config, h: HandOver, step: Step): HandOver
    requires CanStep(cfg, h, step)
  {
    match step
    case ClientRuns(e) => h.(client := Cl.Next(cfg, h.client, e))
    case HandlerRuns =>
      h.(handled := h.handled + 1,
         results := h.results + [Handled(h.client.calls, h.client.calls.completions[h.handled])])
    case LinkFailed(op) => h.(results := h.results + [LinkError(op)])
    case Drains => h.(results := [], drained := h.drained + [h.results])
  }

  ghost predicate IsRun(cfg: Cl.Config, h: HandOver, steps: seq<Step>, last: HandOver)
    decreases |steps|
  {
    if steps == [] then last == h
    else CanStep(cfg, h, steps[0]) && IsRun(cfg, Next(cfg, h, steps[0]), steps[1..], last)
  }

  /** The results that belong to requests. */
  function OfRequests(results: seq<NetworkResult>): seq<NetworkResult> {
    if results == [] then []
    else (if results[0].LinkError? then [] else [results[0]]) + OfRequests(results[1..])
  }

  lemma {:induction false} OfRequestsAppend(a: seq<NetworkResult>, r: NetworkResult)
    ensures OfRequests(a + [r]) == OfRequests(a) + (if r.LinkError? then [] else [r])
  {
    if a == [] {
    } else {
      assert (a + [r])[1..] == a[1..] + [r];
      OfRequestsAppend(a[1..], r);
      Prelude.Regroup(if a[0].LinkError? then [] else [a[0]], OfRequests(a[1..]), if r.LinkError? then [] else [r]);
    }
  }

  /** All that was ever handed over or is waiting, in the order published, is one result for
      each handled call, in the order the calls finished. */
  ghost predicate OneEach(h: HandOver) {
    var all := OfRequests(Concat(h.drained) + h.results);
    && h.handled == |all| <= |h.client.calls.completions|
    && forall i | 0 <= i < h.handled ::
         h.client.calls.completions[i].call < |h.client.calls.made| &&
         all[i] == Handled(h.client.calls, h.client.calls.completions[i]) &&
         Tells(all[i], h.client.calls.made[h.client.calls.completions[i].call], h.client.calls.completions[i].outcome)
  }

  lemma NextKeepsOneEach(cfg: Cl.Config, h: HandOver, step: Step)
    requires OneEach(h) && CanStep(cfg, h, step)
    ensures OneEach(Next(cfg, h, step))
  {
    match step
    case ClientRuns(e) => ClientTheorems.CallsOnlyGrow(cfg, h.client, e);
    case HandlerRuns =>
      var r := Handled(h.client.calls, h.client.calls.completions[h.handled]);
      assert Concat(h.drained) + (h.results + [r]) == Concat(h.drained) + h.results + [r];
      OfRequestsAppend(Concat(h.drained) + h.results, r);
      var c := h.client.calls.completions[h.handled];
      ResultTells(h.client.calls.made[c.call], c.outcome, r);
    case LinkFailed(op) =>
      assert Concat(h.drained) + (h.results + [LinkError(op)]) == Concat(h.drained) + h.results + [LinkError(op)];
      OfRequestsAppend(Concat(h.drained) + h.results, LinkError(op));
    case Drains =>
      ConcatAppend(h.drained, h.results);
      assert Concat(h.drained + [h.results]) + [] == Concat(h.drained) + h.results;
  }

  lemma {:induction false} RunKeepsOneEach(cfg: Cl.Config, h: HandOver, steps: seq<Step>, last: HandOver)
    requires OneEach(h) && IsRun(cfg, h, steps, last)
    ensures OneEach(last)
    decreases |steps|
  {
    if steps == [] {
    } else {
      NextKeepsOneEach(cfg, h, steps[0]);
      RunKeepsOneEach(cfg, Next(cfg, h, steps[0]), steps[1..], last);
    }
  }

  /** The steps the client itself took. */
  function ClientSteps(steps: seq<Step>): seq<Cl.Step>
    decreases |steps|
  {
    if steps == [] then []
    else (if steps[0].ClientRuns? then [steps[0].step] else []) + ClientSteps(steps[1..])
  }

  lemma {:induction false} ClientRan(cfg: Cl.Config, h: HandOver, steps: seq<Step>, last: HandOver)
    requires IsRun(cfg, h, steps, last)
    ensures Cl.IsRun(cfg, h.client, ClientSteps(steps), last.client)
    decreases |steps|
  {
    if steps == [] {
    } else {
      ClientRan(cfg, Next(cfg, h, steps[0]), steps[1..], last);
      if steps[0].ClientRuns? {
        assert ClientSteps(steps)[1..] == ClientSteps(steps[1..]);
      } else {
        assert ClientSteps(steps) == ClientSteps(steps[1..]);
      }
    }
  }

  /** Whatever the interleaving: the results drained so far, batch after batch, followed by those
      still waiting, are one for each call whose handler ran; no two are of the same call; and
      the handler of every finished call can run. */
  lemma OneResultPerCall(cfg: Cl.Config, steps: seq<Step>, h: HandOver)
    requires cfg.lim.maxQueued >= 1 && |h.client.manager.issuedTo| < Prelude.UINT64_LIMIT
    requires IsRun(cfg, HandOver(Cl.Init(), 0, [], []), steps, h)
    ensures OneEach(h)
    ensures forall i, j | 0 <= i < j < h.handled ::
      h.client.calls.completions[i].call != h.client.calls.completions[j].call
    ensures h.handled < |h.client.calls.completions| ==> CanStep(cfg, h, HandlerRuns)
  {
    RunKeepsOneEach(cfg, HandOver(Cl.Init(), 0, [], []), steps, h);
    ClientRan(cfg, HandOver(Cl.Init(), 0, [], []), steps, h);
    ClientTheorems.OneOutcomePerCall(cfg, ClientSteps(steps), h.client);
    if h.handled < |h.client.calls.completions| {
      assert h.client.calls.completions[h.handled] in h.client.calls.completions;
      EveryCallWasMade(cfg, ClientSteps(steps), h.client, h.handled);
    }
  }

  lemma EveryCallWasMade(cfg: Cl.Config, steps: seq<Cl.Step>, s: Cl.Client, i: nat)
    requires cfg.lim.maxQueued >= 1 && Cl.IsRun(cfg, Cl.Init(), steps, s) && |s.manager.issuedTo| < Prelude.UINT64_LIMIT
    requires i < |s.calls.completions|
    ensures s.calls.completions[i].call < |s.calls.made|
  {
    ClientTheorems.InitIsValid(cfg);
    ClientTheorems.RunKeepsValid(cfg, Cl.Init(), steps, s);
    assert s.calls.completions[i].call in Finished(s.calls.completions);
  }
}
