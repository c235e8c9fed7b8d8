/** The two engine tests of main_test.go and the registry's and Spawn's
    documented edge cases, as whole runs from a fresh engine. The actor
    behaviours of the tests (the baker and its assistant) call back into the
    engine and print; here the baker is a behaviour whose code lies outside
    the model, so only what the engine hands it is traced. */
module Scenarios {
  import opened Actors
  import opened Registries
  import opened Engines

  /** A message sent by name to an identity nobody registered ends up, after
      the dead-letter actor runs, as the one entry of the dead-letter log,
      with its payload, no sender and no target. */
  method UnknownTargetReachesDeadLetter(tag: string) returns (log: seq<Envelope>)
    ensures log == [Envelope(User(tag), None, None)]
  {
    var e := new Engine.NewEngine();
    e.SendByName("baker", User(tag), None);
    var dl, ok := e.GetActor(DeadLetterId);
    e.Run(dl);
    UserOnlyKeepsUserMessages([Envelope(User(tag), None, None)]);
    match dl.implementation
    case DeadLetterSink(d) =>
      log := d.GetMessages();
  }

  /** A message sent by name to an unknown identity and still queued at the
      dead-letter actor is recorded when that actor is stopped and waited
      for, the last step of shutdown: its inbox is drained into the log. */
  method DeadLetterDrainedOnStop(tag: string) returns (log: seq<Envelope>)
    ensures log == [Envelope(User(tag), None, None)]
  {
    var e := new Engine.NewEngine();
    e.SendByName("baker", User(tag), None);
    var dl, ok := e.GetActor(DeadLetterId);
    e.StopAndWaitByName(DeadLetterId);
    UserOnlyKeepsUserMessages([Envelope(User(tag), None, None)]);
    match dl.implementation
    case DeadLetterSink(d) =>
      log := d.GetMessages();
  }

  /** A dead letter already recorded is still the first entry of the log
      after the whole engine has shut down. */
  method ShutdownKeepsDeadLetters(tag: string) returns (log: seq<Envelope>)
    ensures |log| >= 1 && log[0] == Envelope(User(tag), None, None)
  {
    var e := new Engine.NewEngine();
    e.SendByName("baker", User(tag), None);
    var dl, ok := e.GetActor(DeadLetterId);
    e.Run(dl);
    UserOnlyKeepsUserMessages([Envelope(User(tag), None, None)]);
    ghost var order := e.Shutdown();
    match dl.implementation
    case DeadLetterSink(d) =>
      log := d.GetMessages();
  }

  /** Spawning an actor under an identity other than the dead-letter one
      and sending it three messages by name queues them in the order sent,
      before anything has been delivered. */
  method SpawnAndSend(id: string, m1: Payload, m2: Payload, m3: Payload) returns (e: Engine, a: Actor)
    requires id != DeadLetterId
    ensures fresh(e) && fresh(e.registry) && fresh(a) && e.Valid() && e.Live(a) && a.Valid()
    ensures a.id == id && a.implementation == External && !a.started && !a.closed && a.received == []
    ensures a.inbox == [Envelope(m1, None, None), Envelope(m2, None, None), Envelope(m3, None, None)]
  {
    e := new Engine.NewEngine();
    var err := e.Spawn(id, External, None);
    var found, ok := e.GetActor(id);
    a := found;
    e.SendByName(id, m1, None);
    e.SendByName(id, m2, None);
    e.SendByName(id, m3, None);
  }

  /** The send test: spawning an actor, sending it three messages by name,
      then stopping it and waiting. Its processing context hands it the
      started notification, the three messages in the order sent and the
      stopped notification, and the actor is unregistered afterwards. */
  method SendThenStop(m1: Payload, m2: Payload, m3: Payload) returns (trace: seq<Envelope>, registered: bool)
    ensures trace == [Notification(Started)]
      + [Envelope(m1, None, None), Envelope(m2, None, None), Envelope(m3, None, None)]
      + [Notification(Stopped)]
    ensures !registered
  {
    var e, baker := SpawnAndSend("baker", m1, m2, m3);
    assert baker.Pending() == [Notification(Started)] + baker.inbox;
    e.StopAndWait(baker);
    trace := baker.received;
    var _, found := e.GetActor("baker");
    registered := found;
  }

  /** A second Spawn under a taken identity is refused with its error and
      leaves the actor registered first in place; an unknown identity is
      not found. */
  method DuplicateSpawnRefused() returns (err: Outcome, kept: bool, unknown: bool)
    ensures err == Fail("an actor with that ID already exists")
    ensures kept && !unknown
  {
    var e := new Engine.NewEngine();
    var first, _ := e.GetActor(DeadLetterId);
    err := e.Spawn(DeadLetterId, External, None);
    var again, _ := e.GetActor(DeadLetterId);
    kept := again == first && again.implementation.DeadLetterSink?;
    var _, found := e.GetActor("nobody");
    unknown := found;
  }

  /** The registry's round trip: a name registers once, a second register
      under it is refused, it unregisters once, and a second unregister
      reports that the actor does not exist; the registry ends empty. */
  method RegistryRoundTrip(a: Actor, b: Actor) returns (r1: bool, r2: bool, u1: Outcome, u2: Outcome, left: map<string, Actor>)
    ensures r1 && !r2
    ensures u1 == Ok && u2 == Fail("actor baker does not exist")
    ensures left == map[]
  {
    var r := new Registry();
    r1 := r.Register("baker", a);
    assert r.actors == map["baker" := a];
    r2 := r.Register("baker", b);
    u1 := r.Unregister("baker");
    assert r.actors == map[];
    u2 := r.Unregister("baker");
    left := r.actors;
  }

  /** Shutting down an engine with one spawned actor stops that actor first
      and the dead-letter actor last, leaves the registry empty, and the
      spawned actor is done. */
  method ShutdownStopsDeadLetterLast() returns (left: map<string, Actor>, bakerDone: bool, ghost order: seq<string>)
    ensures left == map[]
    ensures bakerDone
    ensures order == ["baker", DeadLetterId]
  {
    var e := new Engine.NewEngine();
    var err := e.Spawn("baker", External, None);
    var baker, found := e.GetActor("baker");
    order := e.Shutdown();
    left := e.registry.actors;
    bakerDone := baker.done;
    TwoInOrder(order, "baker", DeadLetterId);
  }

  /** A repetition-free list of `x` and `y` that holds both and ends in `y`
      is `[x, y]`. */
  lemma TwoInOrder(s: seq<string>, x: string, y: string)
    requires x != y
    requires forall k | 0 <= k < |s| :: s[k] == x || s[k] == y
    requires forall k, l | 0 <= k < l < |s| :: s[k] != s[l]
    requires x in s && y in s && s[|s| - 1] == y
    ensures s == [x, y]
  {
    var i :| 0 <= i < |s| && s[i] == x;
    assert i < |s| - 1;
    assert forall j | 0 <= j < |s| :: (s[j] == x ==> j == i) && (s[j] == y ==> j == |s| - 1);
    assert s[0] == x && s[|s| - 2] == x;
  }
}
