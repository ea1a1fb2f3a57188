/** The stack of application states and the changes queued for it, as values
    (client/src/states/StateManager.cpp). */
module StateStack {
  /** An application state: the root widget it owns, and whether the states below it are still
      updated and drawn while it is on top of them. */
  datatype AppState = AppState(root: nat, updatesBelow: bool, drawsBelow: bool)

  datatype Change = Push(state: AppState) | ResetTo(state: AppState) | Pop

  /** What applying queued changes comes to: the stack, the changes still queued, and whether
      all were applied or a pop of the last state threw. */
  datatype Outcome = Outcome(stack: seq<AppState>, rest: seq<Change>, ok: bool)

  function ApplyOne(stack: seq<AppState>, change: Change): (r: seq<AppState>)
    requires stack != [] && !(change.Pop? && |stack| == 1)
    ensures r != []
  {
    match change
    case Push(s) => stack + [s]
    case ResetTo(s) => [s]
    case Pop => stack[..|stack| - 1]
  }

  function Apply(stack: seq<AppState>, queue: seq<Change>): (r: Outcome)
    requires stack != []
    ensures r.stack != [] && (r.ok ==> r.rest == []) && (!r.ok ==> |r.stack| == 1)
    decreases |queue|
  {
    if queue == [] then Outcome(stack, [], true)
    else if queue[0].Pop? && |stack| == 1 then Outcome(stack, queue[1..], false)
    else Apply(ApplyOne(stack, queue[0]), queue[1..])
  }

  /** The changes are applied one after the other: a batch is the same as its two halves, and
      nothing after a failure is touched. */
  lemma {:induction false} ApplySplits(stack: seq<AppState>, a: seq<Change>, b: seq<Change>)
    requires stack != []
    ensures var first := Apply(stack, a);
      Apply(stack, a + b) == if first.ok then Apply(first.stack, b) else first.(rest := first.rest + b)
    decreases |a|
  {
    if a == [] {
      assert a + b == b;
    } else {
      assert (a + b)[1..] == a[1..] + b;
      if !(a[0].Pop? && |stack| == 1) {
        ApplySplits(ApplyOne(stack, a[0]), a[1..], b);
      }
    }
  }

  /** After a reset nothing of what was there before matters. */
  lemma ResetForgets(stack: seq<AppState>, before: seq<Change>, state: AppState, after: seq<Change>)
    requires stack != [] && Apply(stack, before).ok
    ensures Apply(stack, before + [ResetTo(state)] + after) == Apply([state], after)
  {
    ApplySplits(stack, before, [ResetTo(state)] + after);
    assert before + [ResetTo(state)] + after == before + ([ResetTo(state)] + after);
    assert ([ResetTo(state)] + after)[1..] == after;
  }

  function Pushes(states: seq<AppState>): seq<Change> {
    if states == [] then [] else [Push(states[0])] + Pushes(states[1..])
  }

  lemma {:induction false} PushesStack(stack: seq<AppState>, states: seq<AppState>)
    requires stack != []
    ensures Apply(stack, Pushes(states)) == Outcome(stack + states, [], true)
    decreases |states|
  {
    if states == [] {
      assert stack + states == stack;
    } else {
      PushesStack(stack + [states[0]], states[1..]);
      assert stack + [states[0]] + states[1..] == stack + states;
    }
  }

  lemma {:induction false} PopsUnstack(stack: seq<AppState>, states: seq<AppState>)
    requires stack != []
    ensures Apply(stack + states, seq(|states|, _ => Pop)) == Outcome(stack, [], true)
    decreases |states|
  {
    if states == [] {
      assert stack + states == stack;
    } else {
      var below := states[..|states| - 1];
      assert seq(|states|, _ => Pop)[1..] == seq(|below|, _ => Pop);
      assert (stack + states)[..|stack + states| - 1] == stack + below;
      PopsUnstack(stack, below);
    }
  }

  /** As many pops as pushes before them undo those pushes. */
  lemma PopsUndoPushes(stack: seq<AppState>, states: seq<AppState>)
    requires stack != []
    ensures Apply(stack, Pushes(states) + seq(|states|, _ => Pop)) == Outcome(stack, [], true)
  {
    PushesStack(stack, states);
    PopsUnstack(stack, states);
    ApplySplits(stack, Pushes(states), seq(|states|, _ => Pop));
  }

  // ---- when a batch fails ----

  function DepthAfter(n: int, change: Change): int {
    match change
    case Push(_) => n + 1
    case ResetTo(_) => 1
    case Pop => n - 1
  }

  /** How deep a stack of depth n would be after the changes. */
  function Level(n: int, changes: seq<Change>): int
    decreases |changes|
  {
    if changes == [] then n else Level(DepthAfter(n, changes[0]), changes[1..])
  }

  /** Change k would pop the last state. */
  predicate PopsLast(n: int, queue: seq<Change>, k: nat) {
    k < |queue| && queue[k].Pop? && Level(n, queue[..k]) == 1
  }

  lemma PopsLastLater(n: int, queue: seq<Change>, k: nat)
    requires queue != []
    ensures PopsLast(n, queue, k + 1) <==> PopsLast(DepthAfter(n, queue[0]), queue[1..], k)
  {
    if k < |queue[1..]| {
      assert queue[..k + 1][1..] == queue[1..][..k];
    }
  }

  /** A batch is applied to the end exactly when none of its pops meets the last state. */
  lemma {:induction false} AppliesUnlessLastIsPopped(stack: seq<AppState>, queue: seq<Change>)
    requires stack != []
    ensures Apply(stack, queue).ok <==> forall k :: !PopsLast(|stack|, queue, k)
    decreases |queue|
  {
    if queue == [] {
    } else {
      if queue[0].Pop? && |stack| == 1 {
        assert PopsLast(|stack|, queue, 0);
      } else {
        var next := ApplyOne(stack, queue[0]);
        AppliesUnlessLastIsPopped(next, queue[1..]);
        forall k: nat ensures PopsLast(|stack|, queue, k + 1) <==> PopsLast(|next|, queue[1..], k) {
          PopsLastLater(|stack|, queue, k);
        }
        assert !PopsLast(|stack|, queue, 0);
        if k: nat :| PopsLast(|stack|, queue, k) {
          assert PopsLast(|next|, queue[1..], k - 1);
        }
      }
    }
  }

  /** A batch that fails stops at the first pop that meets the last state, and leaves exactly
      what follows it queued. */
  lemma {:induction false} FailsAtFirstSuchPop(stack: seq<AppState>, queue: seq<Change>) returns (k: nat)
    requires stack != [] && !Apply(stack, queue).ok
    ensures PopsLast(|stack|, queue, k) && forall j: nat | j < k :: !PopsLast(|stack|, queue, j)
    ensures Apply(stack, queue) == Outcome([Bottom(stack[0], queue[..k])], queue[k + 1..], false)
    decreases |queue|
  {
    if queue[0].Pop? && |stack| == 1 {
      k := 0;
      assert stack == [stack[0]];
    } else {
      var next := ApplyOne(stack, queue[0]);
      var later := FailsAtFirstSuchPop(next, queue[1..]);
      k := later + 1;
      PopsLastLater(|stack|, queue, later);
      forall j: nat | j < k ensures !PopsLast(|stack|, queue, j) {
        if j > 0 {
          PopsLastLater(|stack|, queue, j - 1);
        }
      }
      assert queue[..k][1..] == queue[1..][..later] && queue[1..][later + 1..] == queue[k + 1..];
    }
  }

  /** The bottom of a stack after the changes: what the last reset put there, if there was one. */
  function Bottom(bottom: AppState, changes: seq<Change>): AppState
    decreases |changes|
  {
    if changes == [] then bottom
    else Bottom(if changes[0].ResetTo? then changes[0].state else bottom, changes[1..])
  }

  // ---- interactivity ----

  /** Of the roots of the stack's states the top state's is enabled and every other disabled. */
  ghost predicate OnlyTopInteractive(stack: seq<AppState>, disabled: set<nat>)
    requires stack != []
  {
    forall s | s in stack :: s.root in disabled <==> s.root != stack[|stack| - 1].root
  }

  /** A batch that fails refreshes nothing. Afterwards only the top is interactive exactly when
      the one state left was enabled before: the last reset's, or else the former bottom's. If
      only the top was interactive before, the former bottom was enabled only if it was the top. */
  lemma InteractiveAfterFailure(stack: seq<AppState>, queue: seq<Change>, disabled: set<nat>) returns (k: nat)
    requires stack != [] && !Apply(stack, queue).ok
    ensures PopsLast(|stack|, queue, k) && forall j: nat | j < k :: !PopsLast(|stack|, queue, j)
    ensures OnlyTopInteractive(Apply(stack, queue).stack, disabled) <==> Bottom(stack[0], queue[..k]).root !in disabled
    ensures OnlyTopInteractive(stack, disabled) && (forall c | c in queue[..k] :: !c.ResetTo?) ==>
      (OnlyTopInteractive(Apply(stack, queue).stack, disabled) <==> stack[0].root == stack[|stack| - 1].root)
  {
    k := FailsAtFirstSuchPop(stack, queue);
    NoResetKeepsBottom(stack[0], queue[..k]);
    var left := Apply(stack, queue).stack;
    assert left[0] in left && stack[0] in stack;
  }

  lemma {:induction false} NoResetKeepsBottom(bottom: AppState, changes: seq<Change>)
    ensures (forall c | c in changes :: !c.ResetTo?) ==> Bottom(bottom, changes) == bottom
    decreases |changes|
  {
    if changes == [] {
    } else {
      NoResetKeepsBottom(if changes[0].ResetTo? then changes[0].state else bottom, changes[1..]);
      assert changes[0] in changes;
    }
  }

  /** So it can fail: with two states, two queued pops leave the lower one disabled, and nothing
      queued that would refresh it. */
  lemma TwoPopsLeaveADisabledTop(a: AppState, b: AppState, disabled: set<nat>)
    requires a.root != b.root && OnlyTopInteractive([a, b], disabled)
    ensures Apply([a, b], [Pop, Pop]) == Outcome([a], [], false)
    ensures !OnlyTopInteractive([a], disabled)
  {
    assert a in [a, b] && a in [a];
    assert [a, b][..1] == [a];
    assert [Pop, Pop][1..] == [Pop];
    assert Apply([a], [Pop]) == Outcome([a], [], false);
  }
}
