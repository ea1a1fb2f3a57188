/** The event buses as objects (shared/src/shared/event_bus/AsyncEventBus.hpp, SyncEventBus.hpp,
    detail/SubscribersStorage.hpp). A callback is a number; invoking it is recorded and publishes
    what `react` says it publishes. */
module EventBus {
  import opened Prelude
  import opened EventBusSpec

  datatype Refusal = ModificationDuringPublish | EmptyCallback

  function Added(here: bool, callback: Option<nat>): seq<nat> {
    if here && callback.Some? then [callback.value] else []
  }

  class SubscriberStorage {
    var publishCount: nat
    var callbacks: Table

    constructor ()
      ensures publishCount == 0 && callbacks == []
    {
      publishCount, callbacks := 0, [];
    }

    /** A new callback comes after the others of its event type, and no other type notices. */
    method Subscribe(index: nat, callback: Option<nat>) returns (r: Result<(), Refusal>)
      modifies this`callbacks
      ensures r == (if publishCount != 0 then Err(ModificationDuringPublish)
                    else if callback == None then Err(EmptyCallback) else Ok(()))
      ensures r.Err? ==> callbacks == old(callbacks)
      ensures r.Ok? ==> forall kind ::
        Subscribers(callbacks, kind) == Subscribers(old(callbacks), kind) + Added(kind == index, callback)
    {
      if publishCount != 0 {
        return Err(ModificationDuringPublish);
      }
      if callback == None {
        return Err(EmptyCallback);
      }
      if index >= |callbacks| {
        callbacks := callbacks + seq(index + 1 - |callbacks|, _ => []);
      }
      callbacks := callbacks[index := callbacks[index] + [callback.value]];
      return Ok(());
    }

    method Clear() returns (r: Result<(), Refusal>)
      modifies this`callbacks
      ensures r == (if publishCount != 0 then Err(ModificationDuringPublish) else Ok(()))
      ensures callbacks == (if r.Ok? then [] else old(callbacks))
    {
      if publishCount != 0 {
        return Err(ModificationDuringPublish);
      }
      callbacks := [];
      return Ok(());
    }

    /** PublishGuard: while one lives the table is frozen. */
    method EnterPublish()
      modifies this`publishCount
      ensures publishCount == old(publishCount) + 1
    {
      publishCount := publishCount + 1;
    }

    method LeavePublish()
      requires publishCount > 0
      modifies this`publishCount
      ensures publishCount == old(publishCount) - 1
    {
      publishCount := publishCount - 1;
    }
  }

  class AsyncEventBus<P(!new)> {
    const storage: SubscriberStorage
    const react: Reaction<P>
    ghost const rank: Event<P> -> nat
    var eventPublishers: seq<Event<P>>
    ghost var delivered: seq<Delivery<P>>

    constructor (react: Reaction<P>, ghost rank: Event<P> -> nat)
      ensures this.react == react && this.rank == rank && fresh(storage)
      ensures storage.callbacks == [] && storage.publishCount == 0 && eventPublishers == [] && delivered == []
    {
      storage := new SubscriberStorage();
      this.react, this.rank := react, rank;
      eventPublishers, delivered := [], [];
    }

    method Publish(e: Event<P>)
      modifies this`eventPublishers
      ensures eventPublishers == old(eventPublishers) + [e]
    {
      eventPublishers := eventPublishers + [e];
    }

    method Invoke(callback: nat, e: Event<P>)
      requires storage.publishCount > 0
      modifies this
      ensures delivered == old(delivered) + [Delivery(callback, e)]
      ensures eventPublishers == old(eventPublishers) + react(callback, e)
    {
      delivered := delivered + [Delivery(callback, e)];
      var published := react(callback, e);
      for i := 0 to |published|
        modifies this`eventPublishers
        invariant eventPublishers == old(eventPublishers) + published[..i]
      {
        Publish(published[i]);
      }
    }

    /** storage.publish() of one event taken off the queue. */
    method Deliver(e: Event<P>)
      modifies this, storage`publishCount
      ensures storage.publishCount == old(storage.publishCount)
      ensures delivered == old(delivered) + Calls(Subscribers(storage.callbacks, e.kind), e)
      ensures eventPublishers == old(eventPublishers) + Children(storage.callbacks, react, e)
    {
      if e.kind >= |storage.callbacks| {
        return;
      }
      storage.EnterPublish();
      var subs := storage.callbacks[e.kind];
      for i := 0 to |subs|
        modifies this
        invariant delivered + Calls(subs[i..], e) == old(delivered) + Calls(subs, e)
        invariant eventPublishers + Reactions(react, subs[i..], e) == old(eventPublishers) + Reactions(react, subs, e)
      {
        Invoke(subs[i], e);
        assert subs[i..][1..] == subs[i + 1..];
      }
      storage.LeavePublish();
    }

    /** Runs until the queue is empty, however much is published meanwhile: it delivers what the
        ideal worklist does, leaves the table as it was and the guard count where it was. */
    method Dispatch()
      requires Descends(storage.callbacks, react, rank)
      modifies this, storage`publishCount
      ensures eventPublishers == [] && storage.publishCount == old(storage.publishCount)
      ensures delivered == old(delivered) + Breadth(storage.callbacks, react, rank, old(eventPublishers))
    {
      while eventPublishers != []
        invariant storage.publishCount == old(storage.publishCount)
        invariant delivered + Breadth(storage.callbacks, react, rank, eventPublishers) ==
          old(delivered) + Breadth(storage.callbacks, react, rank, old(eventPublishers))
        decreases Weight(storage.callbacks, react, rank, eventPublishers)
      {
        ghost var turn := Turn(storage.callbacks, react, eventPublishers);
        TurnWeighsLess(storage.callbacks, react, rank, eventPublishers);
        var event := eventPublishers[0];
        Regroup(delivered, Calls(Subscribers(storage.callbacks, event.kind), event),
                Breadth(storage.callbacks, react, rank, turn));
        eventPublishers := eventPublishers[1..];
        Deliver(event);
        assert eventPublishers == turn;
      }
    }

    method Clear() returns (r: Result<(), Refusal>)
      modifies this`eventPublishers, storage`callbacks
      ensures r == (if storage.publishCount != 0 then Err(ModificationDuringPublish) else Ok(()))
      ensures if r.Ok? then storage.callbacks == [] && eventPublishers == []
              else storage.callbacks == old(storage.callbacks) && eventPublishers == old(eventPublishers)
    {
      r := storage.Clear();
      if r.Ok? {
        eventPublishers := [];
      }
    }
  }

  class SyncEventBus<P(!new)> {
    const storage: SubscriberStorage
    const react: Reaction<P>
    ghost const rank: Event<P> -> nat
    ghost var delivered: seq<Delivery<P>>

    constructor (react: Reaction<P>, ghost rank: Event<P> -> nat)
      ensures this.react == react && this.rank == rank && fresh(storage)
      ensures storage.callbacks == [] && storage.publishCount == 0 && delivered == []
    {
      storage := new SubscriberStorage();
      this.react, this.rank := react, rank;
      delivered := [];
    }

    method Invoke(callback: nat, e: Event<P>)
      requires Descends(storage.callbacks, react, rank) && callback in Subscribers(storage.callbacks, e.kind)
      requires storage.publishCount > 0
      modifies this, storage`publishCount
      ensures storage.publishCount == old(storage.publishCount)
      ensures delivered ==
        old(delivered) + ([Delivery(callback, e)] + Depth(storage.callbacks, react, rank, react(callback, e)))
      decreases rank(e), 0
    {
      var published := react(callback, e);
      Regroup(delivered, [Delivery(callback, e)], Depth(storage.callbacks, react, rank, published));
      delivered := delivered + [Delivery(callback, e)];
      for i := 0 to |published|
        invariant storage.publishCount == old(storage.publishCount)
        invariant delivered + Depth(storage.callbacks, react, rank, published[i..]) ==
          old(delivered) + ([Delivery(callback, e)] + Depth(storage.callbacks, react, rank, published))
      {
        assert published[i..][1..] == published[i + 1..];
        PublishedAlone(storage.callbacks, react, rank, published[i]);
        Regroup(delivered, Depth(storage.callbacks, react, rank, [published[i]]),
                Depth(storage.callbacks, react, rank, published[i + 1..]));
        Publish(published[i]);
      }
    }

    /** Returns only after the whole cascade: it delivers depth-first, leaves the table as it was
        and the guard count where it was, also when called from inside a callback. */
    method Publish(e: Event<P>)
      requires Descends(storage.callbacks, react, rank)
      modifies this, storage`publishCount
      ensures storage.publishCount == old(storage.publishCount)
      ensures delivered == old(delivered) + Depth(storage.callbacks, react, rank, [e])
      decreases rank(e), 1
    {
      PublishedAlone(storage.callbacks, react, rank, e);
      if e.kind >= |storage.callbacks| {
        return;
      }
      storage.EnterPublish();
      var subs := storage.callbacks[e.kind];
      for i := 0 to |subs|
        invariant storage.publishCount == old(storage.publishCount) + 1
        invariant delivered + DepthSubs(storage.callbacks, react, rank, subs[i..], e) ==
          old(delivered) + DepthSubs(storage.callbacks, react, rank, subs, e)
      {
        assert subs[i..][1..] == subs[i + 1..];
        Regroup(delivered, [Delivery(subs[i], e)] + Depth(storage.callbacks, react, rank, react(subs[i], e)),
                DepthSubs(storage.callbacks, react, rank, subs[i + 1..], e));
        Invoke(subs[i], e);
      }
      storage.LeavePublish();
    }
  }

  lemma PublishedAlone<P(!new)>(table: Table, react: Reaction<P>, rank: Event<P> -> nat, e: Event<P>)
    requires Descends(table, react, rank)
    ensures Depth(table, react, rank, [e]) == DepthSubs(table, react, rank, Subscribers(table, e.kind), e)
  {
    assert [e][1..] == [];
  }
}
