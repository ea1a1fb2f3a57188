/** What publishing an event delivers on the two event buses (shared/src/shared/event_bus):
    breadth-first through the queue of AsyncEventBus, depth-first through the recursion of
    SyncEventBus.

    Assumed of callbacks: they do nothing to a bus but publish, and what they publish depends
    only on the event they were given. */
module EventBusSpec {
  import opened Prelude

  /** An event: the index of its type, and its value. */
  datatype Event<P> = Event(kind: nat, payload: P)

  /** The subscribers of every event type, in subscription order. */
  type Table = seq<seq<nat>>

  /** One invocation of a callback. */
  datatype Delivery<P> = Delivery(subscriber: nat, event: Event<P>)

  /** The events a subscriber publishes while handling one. */
  type Reaction<!P> = (nat, Event<P>) -> seq<Event<P>>

  function Subscribers(table: Table, kind: nat): seq<nat> {
    if kind < |table| then table[kind] else []
  }

  function Calls<P>(subs: seq<nat>, e: Event<P>): seq<Delivery<P>> {
    if subs == [] then [] else [Delivery(subs[0], e)] + Calls(subs[1..], e)
  }

  function Reactions<P>(react: Reaction<P>, subs: seq<nat>, e: Event<P>): seq<Event<P>> {
    if subs == [] then [] else react(subs[0], e) + Reactions(react, subs[1..], e)
  }

  /** Everything published while one event is delivered. */
  function Children<P>(table: Table, react: Reaction<P>, e: Event<P>): seq<Event<P>> {
    Reactions(react, Subscribers(table, e.kind), e)
  }

  /** Cascades are finite: whatever a subscriber publishes ranks below what it was given. */
  ghost predicate Descends<P(!new)>(table: Table, react: Reaction<P>, rank: Event<P> -> nat) {
    forall e: Event<P>, s: nat, x: Event<P> | s in Subscribers(table, e.kind) && x in react(s, e) :: rank(x) < rank(e)
  }

  /** One more than the highest rank among some events. */
  function Height<P>(rank: Event<P> -> nat, es: seq<Event<P>>): nat {
    if es == [] then 0
    else if rank(es[0]) < Height(rank, es[1..]) then Height(rank, es[1..]) else rank(es[0]) + 1
  }

  lemma {:induction false} HeightBound<P>(rank: Event<P> -> nat, es: seq<Event<P>>, bound: nat)
    requires forall x | x in es :: rank(x) < bound
    ensures Height(rank, es) <= bound
  {
    if es == [] {
    } else {
      assert es[0] in es;
      HeightBound(rank, es[1..], bound);
    }
  }

  lemma {:induction false} ReactionsRankBelow<P(!new)>(table: Table, react: Reaction<P>, rank: Event<P> -> nat,
                                                subs: seq<nat>, e: Event<P>)
    requires Descends(table, react, rank) && forall s | s in subs :: s in Subscribers(table, e.kind)
    ensures forall x | x in Reactions(react, subs, e) :: rank(x) < rank(e)
  {
    if subs == [] {
    } else {
      assert subs[0] in subs;
      ReactionsRankBelow(table, react, rank, subs[1..], e);
    }
  }

  lemma ChildrenRankBelow<P(!new)>(table: Table, react: Reaction<P>, rank: Event<P> -> nat, es: seq<Event<P>>)
    requires Descends(table, react, rank) && es != []
    ensures Height(rank, Children(table, react, es[0])) < Height(rank, es)
  {
    ReactionsRankBelow(table, react, rank, Subscribers(table, es[0].kind), es[0]);
    HeightBound(rank, Children(table, react, es[0]), rank(es[0]));
  }

  // ---- AsyncEventBus ----

  /** The number of events some events amount to, with everything their cascades publish. */
  ghost function Weight<P(!new)>(table: Table, react: Reaction<P>, rank: Event<P> -> nat, es: seq<Event<P>>): nat
    requires Descends(table, react, rank)
    decreases Height(rank, es), |es|
  {
    if es == [] then 0
    else
      ChildrenRankBelow(table, react, rank, es);
      1 + Weight(table, react, rank, Children(table, react, es[0])) + Weight(table, react, rank, es[1..])
  }

  lemma {:induction false} WeightAppend<P(!new)>(table: Table, react: Reaction<P>, rank: Event<P> -> nat,
                                          a: seq<Event<P>>, b: seq<Event<P>>)
    requires Descends(table, react, rank)
    ensures Weight(table, react, rank, a + b) == Weight(table, react, rank, a) + Weight(table, react, rank, b)
    decreases |a|
  {
    if a == [] {
      assert a + b == b;
    } else {
      assert (a + b)[1..] == a[1..] + b;
      WeightAppend(table, react, rank, a[1..], b);
    }
  }

  /** The queue after one turn of dispatch(). */
  function Turn<P>(table: Table, react: Reaction<P>, queue: seq<Event<P>>): seq<Event<P>>
    requires queue != []
  {
    queue[1..] + Children(table, react, queue[0])
  }

  /** A turn may lengthen the queue, but its weight drops by exactly one. */
  lemma TurnWeighsLess<P(!new)>(table: Table, react: Reaction<P>, rank: Event<P> -> nat, queue: seq<Event<P>>)
    requires Descends(table, react, rank) && queue != []
    ensures Weight(table, react, rank, Turn(table, react, queue)) == Weight(table, react, rank, queue) - 1
  {
    WeightAppend(table, react, rank, queue[1..], Children(table, react, queue[0]));
  }

  /** What dispatch() delivers, in order: a FIFO worklist run to the end. */
  ghost function Breadth<P(!new)>(table: Table, react: Reaction<P>, rank: Event<P> -> nat,
                           queue: seq<Event<P>>): seq<Delivery<P>>
    requires Descends(table, react, rank)
    decreases Weight(table, react, rank, queue)
  {
    if queue == [] then []
    else
      TurnWeighsLess(table, react, rank, queue);
      Calls(Subscribers(table, queue[0].kind), queue[0]) + Breadth(table, react, rank, Turn(table, react, queue))
  }

  // ---- SyncEventBus ----

  /** What the remaining subscribers of an event get, each with all it publishes before the next. */
  ghost function DepthSubs<P(!new)>(table: Table, react: Reaction<P>, rank: Event<P> -> nat, subs: seq<nat>,
                             e: Event<P>): seq<Delivery<P>>
    requires Descends(table, react, rank) && forall s | s in subs :: s in Subscribers(table, e.kind)
    decreases rank(e) + 1, 0, |subs|
  {
    if subs == [] then []
    else
      assert subs[0] in subs;
      HeightBound(rank, react(subs[0], e), rank(e));
      [Delivery(subs[0], e)] + Depth(table, react, rank, react(subs[0], e)) +
      DepthSubs(table, react, rank, subs[1..], e)
  }

  /** What publish() of some events one after the other delivers. */
  ghost function Depth<P(!new)>(table: Table, react: Reaction<P>, rank: Event<P> -> nat,
                         es: seq<Event<P>>): seq<Delivery<P>>
    requires Descends(table, react, rank)
    decreases Height(rank, es), 1, |es|
  {
    if es == [] then []
    else DepthSubs(table, react, rank, Subscribers(table, es[0].kind), es[0]) + Depth(table, react, rank, es[1..])
  }

  // ---- the two buses agree ----

  /** Every delivery some events cause, without their order. */
  ghost function Caused<P(!new)>(table: Table, react: Reaction<P>, rank: Event<P> -> nat,
                          es: seq<Event<P>>): multiset<Delivery<P>>
    requires Descends(table, react, rank)
    decreases Height(rank, es), |es|
  {
    if es == [] then multiset{}
    else
      ChildrenRankBelow(table, react, rank, es);
      multiset(Calls(Subscribers(table, es[0].kind), es[0]))
      + Caused(table, react, rank, Children(table, react, es[0])) + Caused(table, react, rank, es[1..])
  }

  lemma {:induction false} CausedAppend<P(!new)>(table: Table, react: Reaction<P>, rank: Event<P> -> nat,
                                          a: seq<Event<P>>, b: seq<Event<P>>)
    requires Descends(table, react, rank)
    ensures Caused(table, react, rank, a + b) == Caused(table, react, rank, a) + Caused(table, react, rank, b)
    decreases |a|
  {
    if a == [] {
      assert a + b == b;
    } else {
      assert (a + b)[1..] == a[1..] + b;
      CausedAppend(table, react, rank, a[1..], b);
    }
  }

  lemma {:induction false} BreadthIsCaused<P(!new)>(table: Table, react: Reaction<P>, rank: Event<P> -> nat,
                                             queue: seq<Event<P>>)
    requires Descends(table, react, rank)
    ensures multiset(Breadth(table, react, rank, queue)) == Caused(table, react, rank, queue)
    decreases Weight(table, react, rank, queue)
  {
    if queue == [] {
    } else {
      TurnWeighsLess(table, react, rank, queue);
      BreadthIsCaused(table, react, rank, Turn(table, react, queue));
      CausedAppend(table, react, rank, queue[1..], Children(table, react, queue[0]));
    }
  }

  lemma {:induction false} DepthSubsIsCaused<P(!new)>(table: Table, react: Reaction<P>, rank: Event<P> -> nat,
                                               subs: seq<nat>, e: Event<P>)
    requires Descends(table, react, rank) && forall s | s in subs :: s in Subscribers(table, e.kind)
    ensures multiset(DepthSubs(table, react, rank, subs, e)) ==
            multiset(Calls(subs, e)) + Caused(table, react, rank, Reactions(react, subs, e))
    decreases rank(e) + 1, 0, |subs|
  {
    if subs == [] {
    } else {
      assert subs[0] in subs;
      HeightBound(rank, react(subs[0], e), rank(e));
      DepthIsCaused(table, react, rank, react(subs[0], e));
      DepthSubsIsCaused(table, react, rank, subs[1..], e);
      CausedAppend(table, react, rank, react(subs[0], e), Reactions(react, subs[1..], e));
    }
  }

  lemma {:induction false} DepthIsCaused<P(!new)>(table: Table, react: Reaction<P>, rank: Event<P> -> nat,
                                           es: seq<Event<P>>)
    requires Descends(table, react, rank)
    ensures multiset(Depth(table, react, rank, es)) == Caused(table, react, rank, es)
    decreases Height(rank, es), 1, |es|
  {
    if es == [] {
    } else {
      DepthSubsIsCaused(table, react, rank, Subscribers(table, es[0].kind), es[0]);
      DepthIsCaused(table, react, rank, es[1..]);
    }
  }

  /** Publishing on the synchronous bus, and publishing on the asynchronous one and dispatching,
      invoke the same callbacks with the same events equally often. */
  lemma BusesAgree<P(!new)>(table: Table, react: Reaction<P>, rank: Event<P> -> nat, es: seq<Event<P>>)
    requires Descends(table, react, rank)
    ensures multiset(Depth(table, react, rank, es)) == multiset(Breadth(table, react, rank, es))
  {
    BreadthIsCaused(table, react, rank, es);
    DepthIsCaused(table, react, rank, es);
  }

  // ---- the order of dispatch ----

  function CallsOfAll<P>(table: Table, es: seq<Event<P>>): seq<Delivery<P>> {
    if es == [] then [] else Calls(Subscribers(table, es[0].kind), es[0]) + CallsOfAll(table, es[1..])
  }

  function ChildrenOfAll<P>(table: Table, react: Reaction<P>, es: seq<Event<P>>): seq<Event<P>> {
    if es == [] then [] else Children(table, react, es[0]) + ChildrenOfAll(table, react, es[1..])
  }

  /** The first of several queued events is delivered, and what it publishes joins the end. */
  lemma FirstOfMany<P(!new)>(table: Table, react: Reaction<P>, rank: Event<P> -> nat, es: seq<Event<P>>,
                      later: seq<Event<P>>)
    requires Descends(table, react, rank) && es != []
    ensures Breadth(table, react, rank, es + later) ==
            Calls(Subscribers(table, es[0].kind), es[0]) +
            Breadth(table, react, rank, es[1..] + (later + Children(table, react, es[0])))
  {
    assert (es + later)[1..] == es[1..] + later;
    Regroup(es[1..], later, Children(table, react, es[0]));
  }

  lemma {:induction false} GenerationFirst<P(!new)>(table: Table, react: Reaction<P>, rank: Event<P> -> nat,
                                             es: seq<Event<P>>, later: seq<Event<P>>)
    requires Descends(table, react, rank)
    ensures Breadth(table, react, rank, es + later) ==
            CallsOfAll(table, es) + Breadth(table, react, rank, later + ChildrenOfAll(table, react, es))
    decreases |es|
  {
    if es == [] {
      assert es + later == later == later + [];
    } else {
      var next := later + Children(table, react, es[0]);
      FirstOfMany(table, react, rank, es, later);
      GenerationFirst(table, react, rank, es[1..], next);
      Regroup(later, Children(table, react, es[0]), ChildrenOfAll(table, react, es[1..]));
      Regroup(Calls(Subscribers(table, es[0].kind), es[0]), CallsOfAll(table, es[1..]),
              Breadth(table, react, rank, later + ChildrenOfAll(table, react, es)));
    }
  }

  /** Dispatch goes generation by generation: all queued events, in order, reach all of their
      subscribers, in order, before anything published meanwhile reaches any. */
  lemma DispatchIsByGeneration<P(!new)>(table: Table, react: Reaction<P>, rank: Event<P> -> nat, queue: seq<Event<P>>)
    requires Descends(table, react, rank)
    ensures Breadth(table, react, rank, queue) ==
            CallsOfAll(table, queue) + Breadth(table, react, rank, ChildrenOfAll(table, react, queue))
  {
    GenerationFirst(table, react, rank, queue, []);
    assert queue + [] == queue;
    assert [] + ChildrenOfAll(table, react, queue) == ChildrenOfAll(table, react, queue);
  }

  // ---- the order of one event's callbacks ----

  /** Every subscriber of an event is called once, in subscription order. */
  lemma {:induction false} CallsInOrder<P>(subs: seq<nat>, e: Event<P>)
    ensures |Calls(subs, e)| == |subs| && forall i | 0 <= i < |subs| :: Calls(subs, e)[i] == Delivery(subs[i], e)
    decreases |subs|
  {
    if subs == [] {
    } else {
      CallsInOrder(subs[1..], e);
    }
  }

  /** What the callbacks publish is in the order of the callbacks. */
  lemma {:induction false} ReactionsInOrder<P>(react: Reaction<P>, a: seq<nat>, s: nat, b: seq<nat>, e: Event<P>)
    ensures Reactions(react, a + [s] + b, e) == Reactions(react, a, e) + react(s, e) + Reactions(react, b, e)
    decreases |a|
  {
    if a == [] {
      assert a + [s] + b == [s] + b;
      assert ([s] + b)[1..] == b;
    } else {
      assert (a + [s] + b)[0] == a[0] && (a + [s] + b)[1..] == a[1..] + [s] + b;
      ReactionsInOrder(react, a[1..], s, b, e);
    }
  }

  // ---- synchronous delivery as a stack ----

  /** Some deliveries, each followed by all it causes before the next. */
  ghost function DepthOf<P(!new)>(table: Table, react: Reaction<P>, rank: Event<P> -> nat,
                           todo: seq<Delivery<P>>): seq<Delivery<P>>
    requires Descends(table, react, rank)
    decreases |todo|
  {
    if todo == [] then []
    else [todo[0]] + Depth(table, react, rank, react(todo[0].subscriber, todo[0].event)) +
         DepthOf(table, react, rank, todo[1..])
  }

  lemma {:induction false} DepthOfAppend<P(!new)>(table: Table, react: Reaction<P>, rank: Event<P> -> nat,
                                                  a: seq<Delivery<P>>, b: seq<Delivery<P>>)
    requires Descends(table, react, rank)
    ensures DepthOf(table, react, rank, a + b) == DepthOf(table, react, rank, a) + DepthOf(table, react, rank, b)
    decreases |a|
  {
    if a == [] {
      assert a + b == b;
    } else {
      assert (a + b)[1..] == a[1..] + b;
      DepthOfAppend(table, react, rank, a[1..], b);
      Regroup([a[0]] + Depth(table, react, rank, react(a[0].subscriber, a[0].event)),
              DepthOf(table, react, rank, a[1..]), DepthOf(table, react, rank, b));
    }
  }

  lemma {:induction false} DepthOfCalls<P(!new)>(table: Table, react: Reaction<P>, rank: Event<P> -> nat,
                                          subs: seq<nat>, e: Event<P>)
    requires Descends(table, react, rank) && forall s | s in subs :: s in Subscribers(table, e.kind)
    ensures DepthOf(table, react, rank, Calls(subs, e)) == DepthSubs(table, react, rank, subs, e)
    decreases |subs|
  {
    if subs == [] {
    } else {
      assert subs[0] in subs;
      DepthOfCalls(table, react, rank, subs[1..], e);
      assert Calls(subs, e)[1..] == Calls(subs[1..], e);
    }
  }

  lemma {:induction false} DepthOfAllCalls<P(!new)>(table: Table, react: Reaction<P>, rank: Event<P> -> nat,
                                             es: seq<Event<P>>)
    requires Descends(table, react, rank)
    ensures DepthOf(table, react, rank, CallsOfAll(table, es)) == Depth(table, react, rank, es)
    decreases |es|
  {
    if es == [] {
    } else {
      DepthOfCalls(table, react, rank, Subscribers(table, es[0].kind), es[0]);
      DepthOfAllCalls(table, react, rank, es[1..]);
      DepthOfAppend(table, react, rank, Calls(Subscribers(table, es[0].kind), es[0]), CallsOfAll(table, es[1..]));
    }
  }

  /** What is left to deliver once the first delivery was made: the calls of what it published, in
      order, and then the rest. */
  function Popped<P>(table: Table, react: Reaction<P>, todo: seq<Delivery<P>>): seq<Delivery<P>>
    requires todo != []
  {
    CallsOfAll(table, react(todo[0].subscriber, todo[0].event)) + todo[1..]
  }

  lemma PoppedDelivers<P(!new)>(table: Table, react: Reaction<P>, rank: Event<P> -> nat, todo: seq<Delivery<P>>)
    requires Descends(table, react, rank) && todo != []
    ensures DepthOf(table, react, rank, todo) == [todo[0]] + DepthOf(table, react, rank, Popped(table, react, todo))
  {
    var published := react(todo[0].subscriber, todo[0].event);
    DepthOfAllCalls(table, react, rank, published);
    DepthOfAppend(table, react, rank, CallsOfAll(table, published), todo[1..]);
    Regroup([todo[0]], Depth(table, react, rank, published), DepthOf(table, react, rank, todo[1..]));
  }

  /** A stack run to the end: each turn delivers the first call of the stack and puts the calls of
      what that callback published in front of the rest. */
  ghost function StackRun<P(!new)>(table: Table, react: Reaction<P>, rank: Event<P> -> nat,
                            todo: seq<Delivery<P>>): seq<Delivery<P>>
    requires Descends(table, react, rank)
    decreases |DepthOf(table, react, rank, todo)|
  {
    if todo == [] then []
    else
      PoppedDelivers(table, react, rank, todo);
      [todo[0]] + StackRun(table, react, rank, Popped(table, react, todo))
  }

  lemma {:induction false} StackRunIsDepthOf<P(!new)>(table: Table, react: Reaction<P>, rank: Event<P> -> nat,
                                               todo: seq<Delivery<P>>)
    requires Descends(table, react, rank)
    ensures StackRun(table, react, rank, todo) == DepthOf(table, react, rank, todo)
    decreases |DepthOf(table, react, rank, todo)|
  {
    if todo == [] {
    } else {
      PoppedDelivers(table, react, rank, todo);
      StackRunIsDepthOf(table, react, rank, Popped(table, react, todo));
    }
  }

  /** Synchronous publishing is a stack: the events' subscribers are called in order, and whatever a
      callback publishes is delivered, in the same way, before the next call. */
  lemma PublishIsAStack<P(!new)>(table: Table, react: Reaction<P>, rank: Event<P> -> nat, es: seq<Event<P>>)
    requires Descends(table, react, rank)
    ensures Depth(table, react, rank, es) == StackRun(table, react, rank, CallsOfAll(table, es))
  {
    DepthOfAllCalls(table, react, rank, es);
    StackRunIsDepthOf(table, react, rank, CallsOfAll(table, es));
  }
}
