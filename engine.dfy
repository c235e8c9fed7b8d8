/** The engine of engine.go as a sequential state machine. Each actor's
    goroutine becomes the Step method (one unit of its work) and the Run
    method (its work until it blocks or exits); waiting on an actor's wait
    group runs that actor's processing context to its end. */
module Engines {
  import opened Actors
  import opened Registries

  /** What Stop and StopByName return: a wait group that is already
      released, or the wait group of one actor, released when its
      processing context exits. */
  datatype WaitHandle = Released | Completion(actor: Actor)

  class Engine {
    const registry: Registry
    /** The identities of the actors whose processing contexts have exited,
        in the order they signalled completion. */
    ghost var finished: seq<string>

    /** Every registered actor is registered under its own identity, keeps
        the actor invariant and has a processing context that has not exited.
        Since keys are identities, no actor is registered twice. */
    ghost predicate Valid()
      reads this, registry, registry.actors.Values
    {
      forall n | n in registry.actors ::
        registry.actors[n].id == n && registry.actors[n].Valid() && !registry.actors[n].done
    }

    /** `a` is the actor registered under its identity. */
    ghost predicate Live(a: Actor)
      reads this, registry
    {
      a.id in registry.actors && registry.actors[a.id] == a
    }

    /** The dead-letter implementations of the registered actors. */
    ghost function RegisteredSinks(): set<DeadLetter>
      reads this, registry
    {
      set a | a in registry.actors.Values && a.implementation.DeadLetterSink? :: a.implementation.sink
    }

    /** The actor a send by name reaches: the named one, or else the
        dead-letter actor. */
    function Route(target: string): Actor
      reads this, registry
      requires DeadLetterId in registry.actors
    {
      if target in registry.actors then registry.actors[target] else registry.actors[DeadLetterId]
    }

    /** A fresh engine whose registry holds exactly the dead-letter actor,
        with an empty log and nothing delivered yet. Registration cannot
        fail on the empty registry, so the panic branch is dead. */
    constructor NewEngine()
      ensures Valid() && fresh(registry) && finished == []
      ensures registry.actors.Keys == {DeadLetterId}
      ensures fresh(registry.actors[DeadLetterId]) && registry.actors[DeadLetterId].Initial()
      ensures registry.actors[DeadLetterId].implementation.DeadLetterSink?
      ensures fresh(registry.actors[DeadLetterId].implementation.sink)
      ensures registry.actors[DeadLetterId].implementation.sink.messages == []
    {
      registry := new Registry();
      finished := [];
      new;
      var d := new DeadLetter();
      var err := Spawn(DeadLetterId, DeadLetterSink(d), None);
      if err.Fail? {
        assert false;
      }
    }

    /** Creates and registers an actor with an empty open inbox. A duplicate
        identity is refused with an error and changes nothing: the actor
        already registered under it stays reachable. */
    method Spawn(id: string, impl: Implementation, parent: Option<Actor>) returns (err: Outcome)
      requires Valid()
      modifies registry
      ensures Valid()
      ensures err.Fail? <==> id in old(registry.actors)
      ensures err.Fail? ==> err.message == "an actor with that ID already exists"
      ensures err.Fail? ==> registry.actors == old(registry.actors)
      ensures err.Ok? ==> id in registry.actors && fresh(registry.actors[id])
      ensures err.Ok? ==> registry.actors == old(registry.actors)[id := registry.actors[id]]
      ensures err.Ok? ==> var a := registry.actors[id];
        a.id == id && a.implementation == impl && a.parent == parent && a.Initial()
    {
      var a := new Actor(id, impl, parent);
      var ok := registry.Register(id, a);
      if !ok {
        return Fail("an actor with that ID already exists");
      }
      return Ok;
    }

    /** Looks an actor up by identity; changes nothing. */
    method GetActor(name: string) returns (a: Actor?, ok: bool)
      ensures ok <==> name in registry.actors
      ensures ok ==> a == registry.actors[name]
      ensures !ok ==> a == null
    {
      a, ok := registry.Get(name);
    }

    /** Sets the stopped flag and closes the inbox, the first time only; a
        second stop changes nothing. Either way it returns the actor's own
        completion handle. Closing appends the stopped notification to what
        the processing context has left to deliver. */
    method Stop(a: Actor) returns (h: WaitHandle)
      requires Valid() && a.Valid()
      modifies a`stopped, a`closed
      ensures Valid() && a.Valid()
      ensures h == Completion(a)
      ensures a.stopped && a.closed
      ensures old(a.stopped) ==> unchanged(a)
      ensures a.Pending() == old(a.Pending()) + (if old(a.stopped) then [] else [Notification(Stopped)])
    {
      if !a.stopped {
        a.closed := true;
        a.stopped := true;
      }
      return Completion(a);
    }

    /** Stops the actor registered under `name`; for an unknown name it
        changes nothing and returns a handle that is already released. */
    method StopByName(name: string) returns (h: WaitHandle)
      requires Valid()
      modifies if name in registry.actors then {registry.actors[name]} else {}
      ensures Valid()
      ensures name !in registry.actors ==> h == Released
      ensures name in registry.actors ==> var a := registry.actors[name];
        h == Completion(a) && a.stopped && a.closed && (old(a.stopped) ==> unchanged(a))
      ensures name in registry.actors ==> var a := registry.actors[name];
        a.Pending() == old(a.Pending()) + (if old(a.stopped) then [] else [Notification(Stopped)])
      ensures name in registry.actors ==> var a := registry.actors[name];
        a.inbox == old(a.inbox) && a.started == old(a.started) && a.received == old(a.received) && a.done == old(a.done)
    {
      var a, ok := registry.Get(name);
      if !ok {
        return Released;
      }
      h := Stop(a);
    }

    /** Delivers `target`'s envelope, which carries the payload and the
        sender but no target, to the actor registered under `target`, or to
        the dead-letter actor when there is none. Nothing else changes. */
    method SendByName(target: string, payload: Payload, sender: Option<Actor>)
      requires Valid()
      requires DeadLetterId in registry.actors && !Route(target).closed
      modifies Route(target)`inbox
      ensures Valid()
      ensures Route(target).inbox == old(Route(target).inbox) + [Envelope(payload, sender, None)]
      decreases if target in registry.actors then 0 else 1
    {
      var a, ok := registry.Get(target);
      if !ok {
        SendByName(DeadLetterId, payload, sender);
        return;
      }
      a.inbox := a.inbox + [Envelope(payload, sender, None)];
    }

    /** Delivers an envelope carrying the payload, the sender and the target
        to the target's inbox. */
    method Send(target: Actor, payload: Payload, sender: Option<Actor>)
      requires Valid() && !target.closed
      modifies target`inbox
      ensures Valid()
      ensures target.inbox == old(target.inbox) + [Envelope(payload, sender, Some(target))]
    {
      target.inbox := target.inbox + [Envelope(payload, sender, Some(target))];
    }

    /** Hands one envelope to the actor's implementation and records it in
        the actor's trace. */
    method Deliver(a: Actor, env: Envelope)
      modifies a`received, a.Sinks()
      ensures a.received == old(a.received) + [env]
      ensures a.implementation.DeadLetterSink? ==>
        a.implementation.sink.messages == old(a.implementation.sink.messages) + UserOnly([env])
    {
      a.received := a.received + [env];
      match a.implementation
      case DeadLetterSink(d) =>
        d.Receive(env);
        assert [env][1..] == [];
      case External =>
    }

    /** The first unit of work: the started notification. */
    method DeliverStarted(a: Actor)
      requires Valid() && a.Valid() && Live(a) && !a.started
      modifies a`started, a`received, a.Sinks()
      ensures Valid() && a.Valid() && Live(a)
      ensures a.received == old(a.received) + [old(a.Pending())[0]]
      ensures a.Pending() == old(a.Pending())[1..]
      ensures a.implementation.DeadLetterSink? ==>
        a.implementation.sink.messages == old(a.implementation.sink.messages) + UserOnly([old(a.Pending())[0]])
    {
      Deliver(a, Notification(Started));
      a.started := true;
    }

    /** Once started: the oldest queued envelope, taken off the inbox. */
    method DeliverNext(a: Actor)
      requires Valid() && a.Valid() && Live(a) && a.started && a.inbox != []
      modifies a`inbox, a`received, a.Sinks()
      ensures Valid() && a.Valid() && Live(a)
      ensures a.received == old(a.received) + [old(a.Pending())[0]]
      ensures a.Pending() == old(a.Pending())[1..]
      ensures a.implementation.DeadLetterSink? ==>
        a.implementation.sink.messages == old(a.implementation.sink.messages) + UserOnly([old(a.Pending())[0]])
    {
      var env := a.inbox[0];
      a.inbox := a.inbox[1..];
      Deliver(a, env);
    }

    /** Once started with the inbox closed and drained: the stopped
        notification; then the actor unregisters itself and signals
        completion. */
    method DeliverStopped(a: Actor)
      requires Valid() && a.Valid() && Live(a) && a.started && a.inbox == [] && a.closed
      modifies this`finished, a`received, a`done, registry, a.Sinks()
      ensures Valid() && a.Valid() && a.done
      ensures a.received == old(a.received) + [old(a.Pending())[0]]
      ensures a.Pending() == old(a.Pending())[1..]
      ensures a.implementation.DeadLetterSink? ==>
        a.implementation.sink.messages == old(a.implementation.sink.messages) + UserOnly([old(a.Pending())[0]])
      ensures registry.actors == old(registry.actors) - {a.id}
      ensures finished == old(finished) + [a.id]
    {
      Deliver(a, Notification(Stopped));
      var err := registry.Unregister(a.id);
      a.done := true;
      finished := finished + [a.id];
    }

    /** One unit of work of the actor's processing context: deliver the
        started notification, then the oldest queued envelope, then, once
        the inbox is closed and empty, the stopped notification, after which
        the actor unregisters itself and signals completion. A context that
        waits on an open empty inbox, or has exited, changes nothing. */
    method Step(a: Actor)
      requires Valid() && a.Valid() && (a.done || Live(a))
      modifies this`finished, a`inbox, a`started, a`received, a`done, registry, a.Sinks()
      ensures Valid() && a.Valid() && (a.done || Live(a)) && a.closed == old(a.closed)
      ensures old(a.Pending()) == [] ==> unchanged(a) && unchanged(a.Sinks())
      ensures old(a.Pending()) != [] ==>
        && a.received == old(a.received) + [old(a.Pending())[0]]
        && a.Pending() == old(a.Pending())[1..]
      ensures old(a.Pending()) != [] && a.implementation.DeadLetterSink? ==>
        a.implementation.sink.messages == old(a.implementation.sink.messages) + UserOnly([old(a.Pending())[0]])
      ensures registry.actors == if a.done && !old(a.done) then old(registry.actors) - {a.id} else old(registry.actors)
      ensures finished == old(finished) + if a.done && !old(a.done) then [a.id] else []
    {
      if a.done {
      } else if !a.started {
        DeliverStarted(a);
      } else if a.inbox != [] {
        DeliverNext(a);
      } else if a.closed {
        DeliverStopped(a);
      }
    }

    /** Runs the actor's processing context until it waits on an open empty
        inbox or has exited: everything pending is delivered in order. When
        the inbox was closed, the actor ends unregistered and done, and the
        dead-letter sink, if it is one, has appended exactly the queued user
        envelopes. */
    method Run(a: Actor)
      requires Valid() && a.Valid() && (a.done || Live(a))
      modifies this`finished, a`inbox, a`started, a`received, a`done, registry, a.Sinks()
      ensures Valid() && a.Valid()
      ensures a.received == old(a.received) + old(a.Pending())
      ensures a.Pending() == [] && a.inbox == []
      ensures a.done == old(a.closed)
      ensures registry.actors == if old(a.closed) && !old(a.done) then old(registry.actors) - {a.id} else old(registry.actors)
      ensures finished == old(finished) + if old(a.closed) && !old(a.done) then [a.id] else []
      ensures a.implementation.DeadLetterSink? ==>
        a.implementation.sink.messages == old(a.implementation.sink.messages) + UserOnly(old(a.inbox))
    {
      ghost var delivered: seq<Envelope> := [];
      while a.Pending() != []
        invariant Valid() && a.Valid() && (a.done || Live(a))
        invariant a.closed == old(a.closed) && (old(a.done) ==> a.done)
        invariant a.received == old(a.received) + delivered
        invariant delivered + a.Pending() == old(a.Pending())
        invariant registry.actors == if a.done && !old(a.done) then old(registry.actors) - {a.id} else old(registry.actors)
        invariant finished == old(finished) + if a.done && !old(a.done) then [a.id] else []
        invariant a.implementation.DeadLetterSink? ==>
          a.implementation.sink.messages == old(a.implementation.sink.messages) + UserOnly(delivered)
        decreases |a.Pending()|
      {
        ghost var p := a.Pending();
        Step(a);
        if a.implementation.DeadLetterSink? {
          UserOnlyConcat(delivered, [p[0]]);
        }
        MoveHead(old(a.received), delivered, p);
        delivered := delivered + [p[0]];
      }
      assert delivered == old(a.Pending());
      if a.implementation.DeadLetterSink? {
        assert old(a.Pending()) == (if old(a.started) then [] else [Notification(Started)]) + old(a.inbox)
          + (if old(a.closed) && !old(a.done) then [Notification(Stopped)] else []);
        PendingUserOnly(old(a.started), old(a.inbox), old(a.closed) && !old(a.done));
      }
    }

    /** Waits on a handle. For an actor's handle the actor must have been
        stopped (otherwise the wait never ends); its processing context runs
        to its end. */
    method Wait(h: WaitHandle)
      requires Valid()
      requires h.Completion? ==> h.actor.Valid() && (h.actor.done || Live(h.actor)) && h.actor.closed
      modifies this`finished, registry
      modifies if h.Completion? then {h.actor} + h.actor.Sinks() else {}
      ensures Valid()
      ensures h.Completion? ==> h.actor.Valid() && h.actor.done && h.actor.received == old(h.actor.received) + old(h.actor.Pending())
      ensures h.Completion? ==> registry.actors == (if old(h.actor.done) then old(registry.actors) else old(registry.actors) - {h.actor.id})
      ensures h.Completion? ==> finished == old(finished) + if old(h.actor.done) then [] else [h.actor.id]
      ensures h.Released? ==> registry.actors == old(registry.actors) && finished == old(finished)
      ensures h.Completion? && h.actor.implementation.DeadLetterSink? ==>
        h.actor.implementation.sink.messages == old(h.actor.implementation.sink.messages) + UserOnly(old(h.actor.inbox))
    {
      match h
      case Released =>
      case Completion(a) =>
        Run(a);
    }

    /** `e.Stop(a).Wait()`: stops a registered actor and waits until its
        processing context has delivered everything pending, the stopped
        notification last, unregistered it and exited. */
    method StopAndWait(a: Actor)
      requires Valid() && Live(a) && a.Valid()
      modifies this`finished, registry, a, a.Sinks()
      ensures Valid() && a.done && a.Valid()
      ensures a.received == old(a.received) + old(a.Pending())
        + (if old(a.closed) then [] else [Notification(Stopped)])
      ensures a.id !in registry.actors
      ensures forall n | n in registry.actors :: n in old(registry.actors) && registry.actors[n] == old(registry.actors)[n]
      ensures forall n | n in old(registry.actors) && n != a.id :: n in registry.actors
      ensures finished == old(finished) + [a.id]
      ensures a.implementation.DeadLetterSink? ==>
        a.implementation.sink.messages == old(a.implementation.sink.messages) + UserOnly(old(a.inbox))
      ensures forall d: DeadLetter | old(allocated(d)) :: old(d.messages) <= d.messages
    {
      var h := Stop(a);
      Wait(h);
    }

    /** `e.StopByName(name).Wait()`: stops the actor registered under
        `name`, if any, and waits until its processing context has exited.
        Afterwards `name` is not registered; the actor that was is done. */
    method StopAndWaitByName(name: string)
      requires Valid()
      modifies this`finished, registry
      modifies if name in registry.actors then {registry.actors[name]} + registry.actors[name].Sinks() else {}
      ensures Valid()
      ensures registry.actors == old(registry.actors) - {name}
      ensures finished == old(finished) + if name in old(registry.actors) then [name] else []
      ensures name in old(registry.actors) ==> var a := old(registry.actors)[name];
        a.done && a.received == old(a.received) + old(a.Pending())
          + (if old(a.closed) then [] else [Notification(Stopped)])
      ensures name in old(registry.actors) && old(registry.actors)[name].implementation.DeadLetterSink? ==>
        var d := old(registry.actors)[name].implementation.sink;
        d.messages == old(d.messages) + UserOnly(old(registry.actors[name].inbox))
      ensures forall d: DeadLetter | old(allocated(d)) :: old(d.messages) <= d.messages
    {
      var h := StopByName(name);
      Wait(h);
      if name in old(registry.actors) {
        ghost var a := old(registry.actors)[name];
        AppendAssoc(old(a.received), old(a.Pending()), if old(a.closed) then [] else [Notification(Stopped)]);
      }
    }

    /** The loop of Shutdown: stops each listed actor and waits for it to
        exit before the next. Afterwards none of the listed identities is
        registered, every other one still is, with the same actor, and the
        listed actors are done, having signalled completion in list order. */
    method StopEach(all: seq<Actor>, ghost names: seq<string>)
      requires Valid()
      requires |all| == |names|
      requires forall j | 0 <= j < |all| :: names[j] in registry.actors && registry.actors[names[j]] == all[j]
      requires forall k, l | 0 <= k < l < |names| :: names[k] != names[l]
      modifies this`finished, registry, set j | 0 <= j < |all| :: all[j]
      modifies set j | 0 <= j < |all| && all[j].implementation.DeadLetterSink? :: all[j].implementation.sink
      ensures Valid()
      ensures forall n | n in registry.actors :: n in old(registry.actors) && registry.actors[n] == old(registry.actors)[n]
      ensures forall k | 0 <= k < |names| :: names[k] !in registry.actors
      ensures forall n | n in old(registry.actors) && n !in names :: n in registry.actors
      ensures finished == old(finished) + names
      ensures forall j | 0 <= j < |all| :: all[j].done
      ensures forall d: DeadLetter | old(allocated(d)) :: old(d.messages) <= d.messages
    {
      ghost var start := registry.actors;
      ghost var before := finished;
      var i := 0;
      while i < |all|
        invariant 0 <= i <= |all|
        invariant Valid()
        invariant forall n | n in registry.actors :: n in start && registry.actors[n] == start[n]
        invariant forall j | 0 <= j < i :: names[j] !in registry.actors
        invariant forall j | i <= j < |all| :: names[j] in registry.actors
        invariant forall n | n in start && n !in names :: n in registry.actors
        invariant finished == before + names[..i]
        invariant forall j | 0 <= j < i :: all[j].done
        invariant forall d: DeadLetter | old(allocated(d)) :: old(d.messages) <= d.messages
      {
        ghost var current := registry.actors;
        StopAndWait(all[i]);
        StoppedNext(names, i, start, current, registry.actors);
        AppendNext(before, names, i);
        i := i + 1;
      }
      assert names[..i] == names;
    }

    /** The last step of Shutdown, `StopByName("deadletter").Wait()`, once at
        most the dead-letter actor is registered: the registry ends empty and
        the actors already done stay done. */
    method StopDeadLetter(ghost others: seq<Actor>)
      requires Valid()
      requires forall n | n in registry.actors :: n == DeadLetterId
      requires forall j | 0 <= j < |others| :: others[j].done && others[j].id != DeadLetterId
      modifies this`finished, registry
      modifies if DeadLetterId in registry.actors then {registry.actors[DeadLetterId]} + registry.actors[DeadLetterId].Sinks() else {}
      ensures Valid() && registry.actors == map[]
      ensures finished == old(finished) + if DeadLetterId in old(registry.actors) then [DeadLetterId] else []
      ensures DeadLetterId in old(registry.actors) ==> old(registry.actors)[DeadLetterId].done
      ensures forall j | 0 <= j < |others| :: others[j].done
      ensures DeadLetterId in old(registry.actors) ==> var a := old(registry.actors)[DeadLetterId];
        a.received == old(a.received) + old(a.Pending()) + (if old(a.closed) then [] else [Notification(Stopped)])
      ensures DeadLetterId in old(registry.actors) && old(registry.actors)[DeadLetterId].implementation.DeadLetterSink? ==>
        var d := old(registry.actors)[DeadLetterId].implementation.sink;
        d.messages == old(d.messages) + UserOnly(old(registry.actors[DeadLetterId].inbox))
      ensures forall d: DeadLetter | old(allocated(d)) :: old(d.messages) <= d.messages
    {
      StopAndWaitByName(DeadLetterId);
      EmptyOnceRemoved(old(registry.actors), DeadLetterId);
    }

    /** Stops and waits for every actor except the dead-letter one, then
        stops and waits for the dead-letter actor. Afterwards the registry is
        empty; `order`, the order in which the processing contexts signalled
        completion, lists every identity that was registered exactly once,
        the dead-letter one last, and every actor that was registered is done. */
    method Shutdown() returns (ghost order: seq<string>)
      requires Valid()
      modifies this`finished, registry, registry.actors.Values, RegisteredSinks()
      ensures Valid() && registry.actors == map[]
      ensures finished == old(finished) + order
      ensures forall k | 0 <= k < |order| :: order[k] in old(registry.actors)
      ensures forall k, l | 0 <= k < l < |order| :: order[k] != order[l]
      ensures forall n | n in old(registry.actors) :: n in order
      ensures old(DeadLetterId in registry.actors) ==> order[|order| - 1] == DeadLetterId
      ensures forall n | n in old(registry.actors) :: old(registry.actors)[n].done
      ensures forall d: DeadLetter | old(allocated(d)) :: old(d.messages) <= d.messages
    {
      var all;
      ghost var names;
      all, names := registry.GetAll();
      ghost var initial := registry.actors;
      StopEach(all, names);
      ghost var before := registry.actors;
      OnlyDeadLetterLeft(initial, before, names);
      if DeadLetterId in before {
        ghost var d := before[DeadLetterId];
        assert d in old(registry.actors.Values) && d.Sinks() <= old(RegisteredSinks());
      }
      StopDeadLetter(all);
      EveryActorDone(initial, all, names);
      order := names + if DeadLetterId in initial then [DeadLetterId] else [];
      AppendAssoc(old(finished), names, if DeadLetterId in initial then [DeadLetterId] else []);
      ShutdownOrder(initial, names, order);
    }
  }

  /** The user envelopes among what an actor has pending are its queued ones. */
  lemma PendingUserOnly(started: bool, inbox: seq<Envelope>, stopping: bool)
    ensures UserOnly((if started then [] else [Notification(Started)]) + inbox
      + (if stopping then [Notification(Stopped)] else [])) == UserOnly(inbox)
  {
    var head: seq<Envelope> := if started then [] else [Notification(Started)];
    var tail: seq<Envelope> := if stopping then [Notification(Stopped)] else [];
    UserOnlyConcat(head + inbox, tail);
    UserOnlyConcat(head, inbox);
    if !started {
      UserOnlyDropsNotification(Started);
    }
    if stopping {
      UserOnlyDropsNotification(Stopped);
    }
  }

  /** Moving the head of what is pending onto what has been delivered. */
  lemma MoveHead(prefix: seq<Envelope>, delivered: seq<Envelope>, pending: seq<Envelope>)
    requires pending != []
    ensures prefix + delivered + [pending[0]] == prefix + (delivered + [pending[0]])
    ensures delivered + [pending[0]] + pending[1..] == delivered + pending
  {
  }

  /** One round of the shutdown loop: the registry `m` that held the names
      from position `i` on, and no earlier one, loses `names[i]` and nothing
      else, so it holds the names from position `i + 1` on. */
  lemma StoppedNext(names: seq<string>, i: nat, start: map<string, Actor>, m: map<string, Actor>, m': map<string, Actor>)
    requires i < |names|
    requires forall k, l | 0 <= k < l < |names| :: names[k] != names[l]
    requires forall n | n in m :: n in start && m[n] == start[n]
    requires forall j | 0 <= j < i :: names[j] !in m
    requires forall j | i <= j < |names| :: names[j] in m
    requires names[i] !in m'
    requires forall n | n in m' :: n in m && m'[n] == m[n]
    requires forall n | n in m && n != names[i] :: n in m'
    ensures forall n | n in m' :: n in start && m'[n] == start[n]
    ensures forall j | 0 <= j < i + 1 :: names[j] !in m'
    ensures forall j | i + 1 <= j < |names| :: names[j] in m'
  {
  }

  /** Extending a prefix of `s` by its next element. */
  lemma AppendNext<T>(prefix: seq<T>, s: seq<T>, i: nat)
    requires i < |s|
    ensures prefix + s[..i] + [s[i]] == prefix + s[..i + 1]
  {
    assert s[..i + 1] == s[..i] + [s[i]];
  }

  /** After the shutdown loop: the loop stopped every identity except the
      dead-letter one, so at most that one is left, with its actor. */
  lemma OnlyDeadLetterLeft(m0: map<string, Actor>, m1: map<string, Actor>, names: seq<string>)
    requires forall n | n in m0 :: m0[n].id == n
    requires forall k | 0 <= k < |names| :: names[k] in m0 && m0[names[k]].id != DeadLetterId
    requires forall n | n in m0 && m0[n].id != DeadLetterId :: n in names
    requires forall n | n in m1 :: n in m0 && m1[n] == m0[n]
    requires forall k | 0 <= k < |names| :: names[k] !in m1
    requires forall n | n in m0 && n !in names :: n in m1
    ensures forall n | n in m1 :: n == DeadLetterId
    ensures DeadLetterId in m0 ==> DeadLetterId in m1 && m1[DeadLetterId] == m0[DeadLetterId]
    ensures DeadLetterId !in names
  {
  }

  /** A map whose only possible key is `x` is empty once `x` is removed. */
  lemma EmptyOnceRemoved(m: map<string, Actor>, x: string)
    requires forall n | n in m :: n == x
    ensures m - {x} == map[]
    ensures x !in m ==> m == map[]
  {
  }

  /** After the shutdown loop and the dead-letter stop: every actor that was
      registered is done, whether the loop stopped it or it is the
      dead-letter actor. */
  lemma EveryActorDone(m0: map<string, Actor>, all: seq<Actor>, names: seq<string>)
    requires |all| == |names|
    requires forall n | n in m0 :: m0[n].id == n
    requires forall j | 0 <= j < |all| :: names[j] in m0 && m0[names[j]] == all[j] && all[j].done
    requires forall n | n in m0 && m0[n].id != DeadLetterId :: n in names
    requires DeadLetterId in m0 ==> m0[DeadLetterId].done
    ensures forall n | n in m0 :: m0[n].done
  {
    forall n | n in m0
      ensures m0[n].done
    {
      if n != DeadLetterId {
        var j :| 0 <= j < |names| && names[j] == n;
      }
    }
  }

  lemma AppendAssoc<T>(a: seq<T>, b: seq<T>, c: seq<T>)
    ensures a + b + c == a + (b + c)
  {
  }

  /** The loop's identities followed by the dead-letter one, if registered,
      list every registered identity exactly once, the dead-letter one last. */
  lemma ShutdownOrder(m0: map<string, Actor>, names: seq<string>, order: seq<string>)
    requires forall n | n in m0 :: m0[n].id == n
    requires forall k | 0 <= k < |names| :: names[k] in m0 && m0[names[k]].id != DeadLetterId
    requires forall n | n in m0 && m0[n].id != DeadLetterId :: n in names
    requires forall k, l | 0 <= k < l < |names| :: names[k] != names[l]
    requires order == names + if DeadLetterId in m0 then [DeadLetterId] else []
    ensures forall k | 0 <= k < |order| :: order[k] in m0
    ensures forall k, l | 0 <= k < l < |order| :: order[k] != order[l]
    ensures forall n | n in m0 :: n in order
    ensures DeadLetterId in m0 ==> order[|order| - 1] == DeadLetterId
  {
  }
}
