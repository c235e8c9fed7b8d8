/** The registry of registry.go: the directory from actor identity to actor.
    Its reader/writer lock only serialises the operations, so each operation
    is modelled as one atomic step. */
module Registries {
  import opened Actors

  class Registry {
    var actors: map<string, Actor>

    constructor ()
      ensures actors == map[]
    {
      actors := map[];
    }

    /** Test-and-insert: succeeds exactly when `name` is absent, and only
        then adds the entry; an existing entry is never replaced. */
    method Register(name: string, a: Actor) returns (ok: bool)
      modifies this
      ensures ok <==> name !in old(actors)
      ensures ok ==> actors == old(actors)[name := a]
      ensures !ok ==> actors == old(actors)
    {
      if name in actors {
        return false;
      }
      actors := actors[name := a];
      return true;
    }

    /** Removes the entry for `name`; reports an error, and changes nothing,
        when there is none. */
    method Unregister(name: string) returns (err: Outcome)
      modifies this
      ensures err.Fail? <==> name !in old(actors)
      ensures err.Fail? ==> err.message == "actor " + name + " does not exist"
      ensures err.Fail? ==> actors == old(actors)
      ensures err.Ok? ==> actors == old(actors) - {name}
    {
      if name !in actors {
        return Fail("actor " + name + " does not exist");
      }
      actors := actors - {name};
      return Ok;
    }

    /** Lookup: the registered actor and true, or null and false. */
    method Get(name: string) returns (a: Actor?, ok: bool)
      ensures ok <==> name in actors
      ensures ok ==> a == actors[name]
      ensures !ok ==> a == null
    {
      if name !in actors {
        return null, false;
      }
      return actors[name], true;
    }

    /** A snapshot of every registered actor whose identity is not the
        dead-letter one. The ghost `names` gives, position by position, the
        key each returned actor is registered under: every key whose actor
        qualifies appears exactly once, in some order. */
    method GetAll() returns (r: seq<Actor>, ghost names: seq<string>)
      ensures |r| == |names| <= |actors|
      ensures forall i | 0 <= i < |r| :: names[i] in actors && r[i] == actors[names[i]]
      ensures forall i | 0 <= i < |r| :: r[i].id != DeadLetterId
      ensures forall i, j | 0 <= i < j < |names| :: names[i] != names[j]
      ensures forall n | n in actors && actors[n].id != DeadLetterId :: n in names
    {
      r, names := [], [];
      var rest := actors.Keys;
      while rest != {}
        invariant rest <= actors.Keys
        invariant |r| == |names| && |r| + |rest| <= |actors|
        invariant forall i | 0 <= i < |r| :: names[i] in actors && names[i] !in rest && r[i] == actors[names[i]]
        invariant forall i | 0 <= i < |r| :: r[i].id != DeadLetterId
        invariant forall i, j | 0 <= i < j < |names| :: names[i] != names[j]
        invariant forall n | n in actors && n !in rest && actors[n].id != DeadLetterId :: n in names
        decreases |rest|
      {
        var n :| n in rest;
        if actors[n].id != DeadLetterId {
          r, names := r + [actors[n]], names + [n];
        }
        rest := rest - {n};
      }
    }
  }

  /** Registering a fresh name and unregistering it again succeeds both
      times and restores the registry's map. */
  method RegisterUnregisterRoundTrip(r: Registry, name: string, a: Actor) returns (ok: bool, err: Outcome)
    requires name !in r.actors
    modifies r
    ensures ok && err == Ok
    ensures r.actors == old(r.actors)
  {
    ok := r.Register(name, a);
    err := r.Unregister(name);
  }
}
