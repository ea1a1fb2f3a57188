/** StateManager and the part of UiComponent it uses (client/src/states/StateManager.cpp,
    client/src/ui/UiComponent.cpp). A state is a value; what it asks of the manager while it is
    being updated is a parameter. */
module StateManagement {
  import opened Prelude
  import opened StateStack

  datatype Refusal = NullState | CannotPopLastState

  /** Mounted root widgets, and the roots of this or any other widget that are disabled. */
  class UiComponent {
    var mounted: multiset<nat>
    var disabled: set<nat>

    constructor ()
      ensures mounted == multiset{} && disabled == {}
    {
      mounted, disabled := multiset{}, {};
    }

    method Mount(root: nat)
      modifies this`mounted
      ensures mounted == old(mounted) + multiset{root}
    {
      mounted := mounted + multiset{root};
    }

    method Unmount(root: nat)
      modifies this`mounted
      ensures mounted == old(mounted) - multiset{root}
    {
      mounted := mounted - multiset{root};
    }

    method SetInteractive(root: nat, interactive: bool)
      modifies this`disabled
      ensures disabled == if interactive then old(disabled) - {root} else old(disabled) + {root}
    {
      disabled := if interactive then disabled - {root} else disabled + {root};
    }
  }

  function Roots(states: seq<AppState>): multiset<nat> {
    if states == [] then multiset{} else Roots(states[..|states| - 1]) + multiset{states[|states| - 1].root}
  }

  function Asked(asks: AppState -> seq<Change>, states: seq<AppState>): seq<Change> {
    if states == [] then [] else Asked(asks, states[..|states| - 1]) + asks(states[|states| - 1])
  }

  /** From which state on the stack is updated or drawn: the lowest one all those above let through. */
  ghost predicate LowestReached(states: seq<AppState>, through: AppState -> bool, first: nat) {
    && first < |states|
    && (forall i | first < i < |states| :: through(states[i]))
    && (first == 0 || !through(states[first]))
  }

  /** The mounted roots count every state of the stack once. */
  lemma {:induction false} RootsOfAll(a: seq<AppState>, b: seq<AppState>)
    ensures Roots(a + b) == Roots(a) + Roots(b) && Roots([]) == multiset{}
    ensures forall s: AppState :: Roots([s]) == multiset{s.root}
    decreases |b|
  {
    if b == [] {
      assert a + b == a;
    } else {
      assert (a + b)[..|a + b| - 1] == a + b[..|b| - 1];
      RootsOfAll(a, b[..|b| - 1]);
    }
    forall s: AppState ensures Roots([s]) == multiset{s.root} {
      assert [s][..0] == [];
    }
  }

  /** What the states ask for is in the order of the states. */
  lemma {:induction false} AskedInOrder(asks: AppState -> seq<Change>, a: seq<AppState>, s: AppState, b: seq<AppState>)
    ensures Asked(asks, a + [s] + b) == Asked(asks, a) + asks(s) + Asked(asks, b)
    decreases |b|
  {
    if b == [] {
      assert a + [s] + b == a + [s] && (a + [s])[..|a|] == a;
    } else {
      assert (a + [s] + b)[..|a| + |b|] == a + [s] + b[..|b| - 1];
      AskedInOrder(asks, a, s, b[..|b| - 1]);
    }
  }

  lemma RootsOfPushed(states: seq<AppState>, state: AppState)
    ensures Roots(states + [state]) == Roots(states) + multiset{state.root}
  {
    assert (states + [state])[..|states|] == states;
  }

  lemma AskedByOneMore(asks: AppState -> seq<Change>, queue: seq<Change>, states: seq<AppState>, state: AppState)
    ensures queue + Asked(asks, states) + asks(state) == queue + Asked(asks, states + [state])
  {
    assert (states + [state])[..|states|] == states;
  }

  lemma MountedAfterPush(mounted: multiset<nat>, others: multiset<nat>, states: seq<AppState>, state: AppState)
    requires mounted == others + Roots(states)
    ensures mounted + multiset{state.root} == others + Roots(states + [state])
  {
    RootsOfPushed(states, state);
  }

  lemma MountedAfterReset(mounted: multiset<nat>, others: multiset<nat>, states: seq<AppState>, state: AppState)
    requires mounted == others + Roots(states)
    ensures mounted + multiset{state.root} - Roots(states) == others + Roots([state])
  {
    RootsOfPushed([], state);
  }

  lemma MountedAfterPop(mounted: multiset<nat>, others: multiset<nat>, states: seq<AppState>)
    requires states != [] && mounted == others + Roots(states)
    ensures mounted - multiset{states[|states| - 1].root} == others + Roots(states[..|states| - 1])
  {
  }

  lemma RemovedInTurn(mounted: multiset<nat>, removed: multiset<nat>, root: nat)
    ensures mounted - removed - multiset{root} == mounted - (removed + multiset{root})
  {
  }

  class StateManager {
    const ui: UiComponent
    ghost const others: multiset<nat>      // what the UI had mounted before
    var states: seq<AppState>
    var pendingChanges: seq<Change>

    /** The stack is never empty, and mounted are exactly the roots of its states. */
    ghost predicate Valid()
      reads this, ui
    {
      states != [] && ui.mounted == others + Roots(states)
    }

    constructor (ui: UiComponent, initial: AppState)
      modifies ui
      ensures Valid() && this.ui == ui && others == old(ui.mounted)
      ensures states == [initial] && pendingChanges == [] && OnlyTopInteractive(states, ui.disabled)
    {
      this.ui, others := ui, ui.mounted;
      states, pendingChanges := [initial], [];
      new;
      ui.Mount(initial.root);
      assert Roots(states) == Roots([]) + multiset{initial.root};
      RefreshInteractivity();
    }

    static method Create(ui: UiComponent, initial: Option<AppState>) returns (r: Result<StateManager, Refusal>)
      modifies ui
      ensures initial == None ==>
        r == Err(NullState) && ui.mounted == old(ui.mounted) && ui.disabled == old(ui.disabled)
      ensures initial.Some? ==>
        && r.Ok? && fresh(r.value) && r.value.Valid() && r.value.ui == ui && r.value.others == old(ui.mounted)
        && r.value.states == [initial.value] && r.value.pendingChanges == []
        && OnlyTopInteractive(r.value.states, ui.disabled)
    {
      if initial == None {
        return Err(NullState);
      }
      var manager := new StateManager(ui, initial.value);
      return Ok(manager);
    }

    method RequestPush(state: Option<AppState>) returns (r: Result<(), Refusal>)
      modifies this`pendingChanges
      ensures r == (if state == None then Err(NullState) else Ok(()))
      ensures pendingChanges == old(pendingChanges) + (if r.Ok? then [Push(state.value)] else [])
    {
      if state == None {
        return Err(NullState);
      }
      pendingChanges := pendingChanges + [Push(state.value)];
      return Ok(());
    }

    method RequestResetTo(state: Option<AppState>) returns (r: Result<(), Refusal>)
      modifies this`pendingChanges
      ensures r == (if state == None then Err(NullState) else Ok(()))
      ensures pendingChanges == old(pendingChanges) + (if r.Ok? then [ResetTo(state.value)] else [])
    {
      if state == None {
        return Err(NullState);
      }
      pendingChanges := pendingChanges + [ResetTo(state.value)];
      return Ok(());
    }

    method RequestPop()
      modifies this`pendingChanges
      ensures pendingChanges == old(pendingChanges) + [Pop]
    {
      pendingChanges := pendingChanges + [Pop];
    }

    method FirstUpdatedState() returns (first: nat)
      requires states != []
      ensures LowestReached(states, (s: AppState) => s.updatesBelow, first)
    {
      first := |states| - 1;
      while first > 0 && states[first].updatesBelow
        invariant first < |states| && forall i | first < i < |states| :: states[i].updatesBelow
      {
        first := first - 1;
      }
    }

    method FirstRenderedState() returns (first: nat)
      requires states != []
      ensures LowestReached(states, (s: AppState) => s.drawsBelow, first)
    {
      first := |states| - 1;
      while first > 0 && states[first].drawsBelow
        invariant first < |states| && forall i | first < i < |states| :: states[i].drawsBelow
      {
        first := first - 1;
      }
    }

    /** Draws the reached states from the bottom up. */
    method Render() returns (drawn: seq<AppState>)
      requires states != []
      ensures |drawn| <= |states| && drawn == states[|states| - |drawn|..]
      ensures LowestReached(states, (s: AppState) => s.drawsBelow, |states| - |drawn|)
    {
      var first := FirstRenderedState();
      drawn := [];
      for index := first to |states|
        invariant drawn == states[first..index]
      {
        drawn := drawn + [states[index]];
      }
    }

    method HandleNetworkResult() returns (told: seq<AppState>)
      requires states != []
      ensures |told| <= |states| && told == states[|states| - |told|..]
      ensures LowestReached(states, (s: AppState) => s.updatesBelow, |states| - |told|)
    {
      var first := FirstUpdatedState();
      told := [];
      for index := first to |states|
        invariant told == states[first..index]
      {
        told := told + [states[index]];
      }
    }

    /** Updates the reached states from the bottom up, then applies what was queued before or
        asked for meanwhile. */
    method Update(asks: AppState -> seq<Change>) returns (r: Result<(), Refusal>, ghost updated: seq<AppState>)
      requires Valid()
      modifies this, ui
      ensures Valid()
      ensures |updated| <= |old(states)| && updated == old(states)[|old(states)| - |updated|..]
      ensures LowestReached(old(states), (s: AppState) => s.updatesBelow, |old(states)| - |updated|)
      ensures Applied(old(states), old(pendingChanges) + Asked(asks, updated), old(ui.disabled), r)
    {
      var first := FirstUpdatedState();
      updated := [];
      for index := first to |states|
        modifies this`pendingChanges
        invariant updated == states[first..index]
        invariant pendingChanges == old(pendingChanges) + Asked(asks, updated)
      {
        AskedByOneMore(asks, old(pendingChanges), updated, states[index]);
        updated := updated + [states[index]];
        pendingChanges := pendingChanges + asks(states[index]);
      }
      assert updated == states[first..] && first == |states| - |updated|;
      r := ApplyPendingChanges();
    }

    /** The manager and its UI after the given changes were applied to the given stack. */
    ghost predicate Applied(stack: seq<AppState>, queue: seq<Change>, disabled: set<nat>, r: Result<(), Refusal>)
      requires stack != []
      reads this, ui
    {
      && Outcome(states, pendingChanges, r.Ok?) == Apply(stack, queue)
      && (r.Err? ==> r.error == CannotPopLastState)
      && (r.Ok? && queue != [] ==> OnlyTopInteractive(states, ui.disabled))
      && (r.Err? || queue == [] ==> ui.disabled == disabled)
    }

    method ApplyPendingChanges() returns (r: Result<(), Refusal>)
      requires Valid()
      modifies this, ui
      ensures Valid() && Applied(old(states), old(pendingChanges), old(ui.disabled), r)
    {
      if pendingChanges == [] {
        return Ok(());
      }
      while pendingChanges != []
        invariant Valid() && ui.disabled == old(ui.disabled)
        invariant Apply(states, pendingChanges) == Apply(old(states), old(pendingChanges))
        decreases |pendingChanges|
      {
        var change := pendingChanges[0];
        pendingChanges := pendingChanges[1..];
        if change.Pop? && |states| == 1 {
          return Err(CannotPopLastState);
        }
        ApplyChange(change);
      }
      RefreshInteractivity();
      return Ok(());
    }

    /** One change of the queue. */
    method ApplyChange(change: Change)
      requires Valid() && !(change.Pop? && |states| == 1)
      modifies this`states, ui`mounted
      ensures Valid() && states == ApplyOne(old(states), change)
    {
      match change
      case Push(state) =>
        MountedAfterPush(ui.mounted, others, states, state);
        ui.Mount(state.root);
        states := states + [state];
      case ResetTo(state) =>
        MountedAfterReset(ui.mounted, others, states, state);
        ui.Mount(state.root);
        UnmountAll();
        states := [state];
      case Pop =>
        MountedAfterPop(ui.mounted, others, states);
        ui.Unmount(states[|states| - 1].root);
        states := states[..|states| - 1];
    }

    method UnmountAll()
      modifies ui`mounted
      ensures ui.mounted == old(ui.mounted) - Roots(states)
    {
      for i := 0 to |states|
        modifies ui`mounted
        invariant ui.mounted == old(ui.mounted) - Roots(states[..i])
      {
        assert states[..i + 1][..i] == states[..i];
        RemovedInTurn(old(ui.mounted), Roots(states[..i]), states[i].root);
        ui.Unmount(states[i].root);
      }
      assert states[..|states|] == states;
    }

    method RefreshInteractivity()
      requires states != []
      modifies ui`disabled
      ensures OnlyTopInteractive(states, ui.disabled)
      ensures forall root | (forall s | s in states :: s.root != root) ::
        root in ui.disabled <==> root in old(ui.disabled)
    {
      var top := states[|states| - 1].root;
      for i := 0 to |states|
        modifies ui`disabled
        invariant forall j | 0 <= j < i :: states[j].root != top ==> states[j].root in ui.disabled
        invariant i == |states| ==> top !in ui.disabled
        invariant forall root | (forall s | s in states :: s.root != root) ::
          root in ui.disabled <==> root in old(ui.disabled)
      {
        ui.SetInteractive(states[i].root, i == |states| - 1);
      }
    }
  }
}
