/** The sendRequest calls of a client and how they end, whichever of response, timeout, local
    stop and remote close comes first (client/src/network/ClientRequestManager.cpp). */
module RequestCalls {
  import opened Prelude
  import opened Protocol
  import opened RequestTable

  datatype Completion = Completion(call: nat, outcome: SendOutcome)

  datatype Calls = Calls(
    made: seq<Request>,              // every sendRequest call
    senders: map<nat, nat>,          // calls suspended in send(), and their ids
    completions: seq<Completion>)    // finished calls, in order of finishing

  function NoCalls(): Calls {
    Calls([], map[], [])
  }

  /** The table and the calls after a call was refused or admitted. */
  function Called(m: Crm, k: Calls, maxPending: nat, r: Request): (Crm, Calls) {
    var call := |k.made|;
    match Admit(m, maxPending, call)
    case Refused(why) => (m, Calls(k.made + [r], k.senders, k.completions + [Completion(call, why)]))
    case Admitted(m', id) => (m', Calls(k.made + [r], k.senders[call := id], k.completions))
  }

  /** The table and the calls after the wait of a suspended call ended. */
  function Ended(m: Crm, k: Calls, call: nat): (Crm, Calls)
    requires call in k.senders
  {
    var (m', outcome) := Finish(m, k.senders[call], call);
    (m', Calls(k.made, k.senders - {call}, k.completions + [Completion(call, outcome)]))
  }

  /** The table's entries and the coroutines suspended in send() are each other's. */
  ghost predicate OneToOne(senders: map<nat, nat>, pending: map<nat, Pending>) {
    && (forall call | call in senders :: senders[call] in pending && pending[senders[call]].owner == call)
    && (forall id | id in pending :: pending[id].owner in senders && senders[pending[id].owner] == id)
  }

  function Finished(cs: seq<Completion>): set<nat> {
    set c | c in cs :: c.call
  }

  /** Every call made is either suspended or finished, not both, and finished once. */
  ghost predicate Accounted(made: nat, senders: map<nat, nat>, cs: seq<Completion>) {
    && senders.Keys !! Finished(cs)
    && (forall call: nat :: call < made <==> call in senders || call in Finished(cs))
    && (forall i, j | 0 <= i < j < |cs| :: cs[i].call != cs[j].call)
  }

  /** A response that ends a call carries the id that was issued to this very call; the two
      outcomes the source treats as internal errors do not occur. */
  ghost predicate ProperOutcome(issuedTo: seq<nat>, c: Completion) {
    match c.outcome
    case Response(r) => 1 <= r.requestId <= |issuedTo| && issuedTo[r.requestId - 1] == c.call
    case StateLost => false
    case NoResponse => false
    case _ => true
  }

  ghost predicate ProperOutcomes(issuedTo: seq<nat>, cs: seq<Completion>) {
    forall c | c in cs :: ProperOutcome(issuedTo, c)
  }

  ghost predicate RequestsValid(m: Crm, k: Calls, maxPending: nat) {
    && TableValid(m, maxPending)
    && OneToOne(k.senders, m.pending)
    && Accounted(|k.made|, k.senders, k.completions)
    && ProperOutcomes(m.issuedTo, k.completions)
    && (forall call | call in m.issuedTo :: call < |k.made|)
  }

  lemma FinishedAppend(cs: seq<Completion>, c: Completion)
    ensures Finished(cs + [c]) == Finished(cs) + {c.call}
  {
    forall call | call in Finished(cs) + {c.call} ensures call in Finished(cs + [c]) {
      if call == c.call {
        assert c in cs + [c];
      } else {
        var d :| d in cs && d.call == call;
        assert d in cs + [c];
      }
    }
  }

  /** A new call starts by being suspended, or finishes at once. */
  lemma CallAccounted(made: nat, senders: map<nat, nat>, cs: seq<Completion>, id: nat, why: SendOutcome)
    requires Accounted(made, senders, cs)
    ensures made !in senders
    ensures Accounted(made + 1, senders[made := id], cs)
    ensures Accounted(made + 1, senders, cs + [Completion(made, why)])
  {
    FinishedAppend(cs, Completion(made, why));
    assert made !in senders && made !in Finished(cs);
    forall i | 0 <= i < |cs| ensures cs[i].call != made {
      assert cs[i].call in Finished(cs);
    }
  }

  lemma EndAccounted(made: nat, senders: map<nat, nat>, cs: seq<Completion>, call: nat, outcome: SendOutcome)
    requires Accounted(made, senders, cs) && call in senders
    ensures Accounted(made, senders - {call}, cs + [Completion(call, outcome)])
  {
    FinishedAppend(cs, Completion(call, outcome));
    forall i | 0 <= i < |cs| ensures cs[i].call != call {
      assert cs[i].call in Finished(cs);
    }
  }

  lemma AdmitOneToOne(senders: map<nat, nat>, pending: map<nat, Pending>, call: nat, id: nat, e: Pending)
    requires OneToOne(senders, pending) && call !in senders && id !in pending && e.owner == call
    ensures OneToOne(senders[call := id], pending[id := e])
  {
  }

  lemma EndOneToOne(senders: map<nat, nat>, pending: map<nat, Pending>, call: nat)
    requires OneToOne(senders, pending) && call in senders
    ensures OneToOne(senders - {call}, pending - {senders[call]})
  {
  }

  lemma SameOwners(senders: map<nat, nat>, p: map<nat, Pending>, q: map<nat, Pending>)
    requires OneToOne(senders, p) && p.Keys == q.Keys
    requires forall id | id in p :: p[id].owner == q[id].owner
    ensures OneToOne(senders, q)
  {
  }

  lemma MoreOutcomes(issuedTo: seq<nat>, call: nat, cs: seq<Completion>, c: Completion)
    requires ProperOutcomes(issuedTo, cs)
    ensures ProperOutcomes(issuedTo + [call], cs)
    ensures ProperOutcome(issuedTo, c) ==> ProperOutcomes(issuedTo, cs + [c])
  {
    forall d | d in cs ensures ProperOutcome(issuedTo + [call], d) {
      assert ProperOutcome(issuedTo, d);
    }
  }

  lemma CalledKeeps(m: Crm, k: Calls, maxPending: nat, r: Request)
    requires RequestsValid(m, k, maxPending)
    requires |Called(m, k, maxPending, r).0.issuedTo| < UINT64_LIMIT
    ensures var (m', k') := Called(m, k, maxPending, r); RequestsValid(m', k', maxPending)
  {
    var call := |k.made|;
    match Admit(m, maxPending, call)
    case Refused(why) =>
      CallAccounted(call, k.senders, k.completions, 0, why);
      MoreOutcomes(m.issuedTo, call, k.completions, Completion(call, why));
    case Admitted(m', id) =>
      AdmitKeeps(m, maxPending, call);
      CallAccounted(call, k.senders, k.completions, id, NotConnected);
      MoreOutcomes(m.issuedTo, call, k.completions, Completion(call, NotConnected));
      AdmitOneToOne(k.senders, m.pending, call, id, Pending(call, Armed, Waiting, None, ""));
  }

  lemma OutcomeIsProper(m: Crm, id: nat, call: nat, maxPending: nat)
    requires TableValid(m, maxPending) && |m.issuedTo| < UINT64_LIMIT
    requires id in m.pending && m.pending[id].owner == call && m.pending[id].timer != Armed
    ensures ProperOutcome(m.issuedTo, Completion(call, Finish(m, id, call).1))
  {
    FinishKeeps(m, id, call, maxPending);
  }

  lemma SameEntries(senders: map<nat, nat>, p: map<nat, Pending>, q: map<nat, Pending>)
    requires OneToOne(senders, p) && p == q
    ensures OneToOne(senders, q)
  {
  }

  /** Resuming a suspended call whose timer is done: its own entry is there, and goes. */
  lemma EndedKeeps(m: Crm, k: Calls, maxPending: nat, call: nat)
    requires RequestsValid(m, k, maxPending) && |m.issuedTo| < UINT64_LIMIT
    requires call in k.senders && (k.senders[call] in m.pending ==> m.pending[k.senders[call]].timer != Armed)
    ensures var (m', k') := Ended(m, k, call); RequestsValid(m', k', maxPending)
  {
    var id := k.senders[call];
    FinishKeeps(m, id, call, maxPending);
    OutcomeIsProper(m, id, call, maxPending);
    var (m', outcome) := Finish(m, id, call);
    EndAccounted(|k.made|, k.senders, k.completions, call, outcome);
    EndOneToOne(k.senders, m.pending, call);
    FinishRemoves(m, id, call);
    SameEntries(k.senders - {call}, m.pending - {id}, m'.pending);
    MoreOutcomes(m.issuedTo, call, k.completions, Completion(call, outcome));
    Assemble(m', Calls(k.made, k.senders - {call}, k.completions + [Completion(call, outcome)]), maxPending);
  }

  lemma FinishRemoves(m: Crm, id: nat, call: nat)
    requires id in m.pending && m.pending[id].owner == call
    ensures Finish(m, id, call).0.pending == m.pending - {id} && Finish(m, id, call).0.issuedTo == m.issuedTo
  {
  }

  lemma Assemble(m: Crm, k: Calls, maxPending: nat)
    requires TableValid(m, maxPending) && OneToOne(k.senders, m.pending)
    requires Accounted(|k.made|, k.senders, k.completions) && ProperOutcomes(m.issuedTo, k.completions)
    requires forall call | call in m.issuedTo :: call < |k.made|
    ensures RequestsValid(m, k, maxPending)
  {
  }

  /** The segments that neither admit nor finish a request. */
  lemma QuietKeeps(m: Crm, m': Crm, k: Calls, maxPending: nat)
    requires RequestsValid(m, k, maxPending) && TableValid(m', maxPending)
    requires m'.issuedTo == m.issuedTo && m'.pending.Keys == m.pending.Keys
    requires forall id | id in m.pending :: m'.pending[id].owner == m.pending[id].owner
    ensures RequestsValid(m', k, maxPending)
  {
    SameOwners(k.senders, m.pending, m'.pending);
  }
}
