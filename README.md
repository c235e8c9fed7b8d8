# bollywood actor runtime, sequential model

This project models the bookkeeping of bollywood, a small Go actor runtime:

- **Registry:** a directory from actor identity to actor, guarded by a lock.
- **Engine:** spawns actors, routes messages to their inboxes, stops actors and shuts the whole system down.
- **Dead-letter actor:** registered under `"deadletter"` when the engine is built. It records every message that reaches it, except the two lifecycle notifications. Messages arrive there when no actor is registered under their target's name.

Each actor runs on its own goroutine. That goroutine hands the actor's implementation three things in order:

1. a started notification;
2. every message of its inbox channel, until the channel is closed;
3. a stopped notification.

After that the actor unregisters itself and releases its wait group.

The model is sequential:

- The registry lock only serialises the operations, so each registry operation is one atomic step.
- An inbox channel becomes a queue `inbox: seq<Envelope>` and a `closed` flag.
- The goroutine becomes `Engine.Step`, which does one unit of its work, and `Engine.Run`, which does its work until it blocks or exits.
- Waiting on an actor's wait group runs that actor's processing context to its end (`Engine.Wait`).
- The wait group's release becomes the actor's `done` flag.
- The engine carries a ghost log, `finished`, of the identities whose contexts have exited, in order.

An actor's trace `received` records what its processing context handed to the implementation. Its `Pending()` is what the context has still to deliver. Most of the engine's contracts are stated through these two.

Modules:

- `Actors` (actors.dfy):
  - payloads, envelopes and the actor record, from actor.go and message.go;
  - the dead-letter sink, from deadletters.go;
  - `UserOnly`, the reference definition of what the sink records from a stream of envelopes.
- `Registries` (registry.dfy): the registry, from registry.go.
- `Engines` (engine.dfy): the engine and the actor processing context, from engine.go.
- `Scenarios` (scenarios.dfy): whole runs from a fresh engine. They cover the two engine tests of main_test.go and the documented edge cases of Spawn and the registry.

### Where the code disagrees with its own comments and tests (the model follows the code)

- **Envelope target.** The comment at message.go:7 says an envelope's target should never be nil. `SendByName` never sets the target (engine.go:90-94), nor do the lifecycle notifications (engine.go:39-43, 49-53). Only `Send` (engine.go:96-104) sets it. In the model, the envelopes of `SendByName` and the notifications have target `None`.
- **Missing dead-letter actor.** `SendByName` to an unknown name re-enters itself with `"deadletter"` (engine.go:85-88). With no dead-letter actor registered, each call makes the same call again. Go has no tail calls, so the stack grows until the runtime aborts the process with a fatal stack overflow. The model requires the dead-letter actor to be registered, so the redirection recurses at most once.
- **Type and field names.** engine.go builds `Message{Payload: …}` values and makes a `chan Message`. message.go declares `Envelope{Message …}` and actor.go a `chan Envelope`. The model has one `Envelope` type whose payload field is `payload`.
- **Test calls.** main_test.go calls `e.Send("baker", …)` and `e.Stop("baker")` with identities. In engine.go those are `SendByName` and `StopByName`. Its `TestEngine_Send` becomes `Scenarios.SendThenStop`, which routes by name and stops the actor it looked up.

## Model

| member | source | states |
|---|---|---|
| Actors.Actor.constructor | engine.go:22-31 | A new actor has the given identity, implementation and parent, an empty open inbox, is not stopped, and has delivered nothing |
| Actors.DeadLetter.constructor | engine.go:14 | The dead-letter log starts empty |
| Actors.DeadLetter.Receive | deadletters.go:12-28 | A started or stopped notification leaves the log unchanged. Any other envelope is appended exactly once at the end. Earlier entries keep their positions |
| Actors.DeadLetter.GetMessages | deadletters.go:30-32 | Returns the recorded envelopes in arrival order and changes nothing |
| Actors.SenderLabel | deadletters.go:17-23 | The label is `"<nil>"` for an envelope without sender, and the sender's identity otherwise |
| Actors.UserOnlyMembers | deadletters.go:13-26 | What the sink records from a stream is no longer than the stream. It holds only non-lifecycle envelopes of the stream, and every one of them |
| Actors.UserOnlyConcat | deadletters.go:26 | Recording a stream in two pieces equals recording it at once (the log is append-only and order-preserving) |
| Actors.UserOnlyKeepsUserMessages | deadletters.go:16-26 | A stream with no lifecycle notification is recorded whole, in order |
| Actors.UserOnlyDropsNotification | deadletters.go:13-15 | A lone started or stopped notification records nothing |
| Registries.Registry.constructor | engine.go:10-12 | A new registry is empty |
| Registries.Registry.Register | registry.go:5-13 | Succeeds iff the name was absent, and then the map is the old map plus that entry. On a present name it returns false and leaves the map unchanged |
| Registries.Registry.Unregister | registry.go:15-23 | Fails iff the name is absent, with message "actor NAME does not exist" and no change. Otherwise it removes exactly that key |
| Registries.Registry.Get | registry.go:25-32 | Returns the registered actor and true when the name is a key, otherwise null and false. Never changes the map |
| Registries.Registry.GetAll | registry.go:34-45 | Returns the registered actors whose identity is not "deadletter": each one once and nothing else, never more than the map holds. The ghost key list pairs each with its key |
| Registries.RegisterUnregisterRoundTrip | registry.go:5-23 | Registering a fresh name and then unregistering it succeeds both times and restores the original map |
| Engines.Engine.NewEngine | engine.go:8-19 | The new registry holds exactly "deadletter", mapped to a fresh dead-letter actor with an empty log. The panic branch is unreachable |
| Engines.Engine.Spawn | engine.go:21-35 | Fails iff the identity is taken, with "an actor with that ID already exists" and no change. Otherwise it registers a fresh actor with that identity in its initial state, and nothing else changes |
| Engines.Engine.GetActor | engine.go:106-108 | Registered actor and true, or null and false. No change |
| Engines.Engine.Stop | engine.go:74-82 | Sets the stopped flag and closes the inbox; a second stop changes nothing. Always returns the actor's own completion handle. A first stop appends the stopped notification to what is pending |
| Engines.Engine.StopByName | engine.go:65-72 | An unknown name changes nothing and returns an already-released handle. Otherwise it behaves as Stop on the registered actor, which keeps its inbox and trace |
| Engines.Engine.SendByName | engine.go:84-95 | Appends an envelope with the payload and sender (no target) to the named actor's inbox, or else to the dead-letter inbox. The invariant is kept |
| Engines.Engine.Send | engine.go:96-104 | Appends an envelope with payload, sender and target to the target's inbox |
| Engines.Engine.Deliver | engine.go:46 | The implementation receives one envelope. The trace grows by it, and a dead-letter sink records it exactly when it is not a lifecycle notification |
| Engines.Engine.DeliverStarted | engine.go:38-43 | The first unit of work delivers the started notification, the head of what is pending |
| Engines.Engine.DeliverNext | engine.go:45-47 | Delivers the oldest queued envelope and removes it from the inbox (FIFO) |
| Engines.Engine.DeliverStopped | engine.go:48-59 | On a closed, drained inbox, delivers the stopped notification, unregisters exactly the actor's identity, then signals completion |
| Engines.Engine.Step | engine.go:37-61 | One unit of work delivers exactly the head of what is pending, in order: started, inbox, stopped. The registry loses the identity exactly when the actor becomes done. With nothing pending (open empty inbox, or exited) nothing changes |
| Engines.Engine.Run | engine.go:37-61 | Delivers everything pending, in order. The actor ends done iff its inbox was closed, and then it is unregistered and recorded as finished. A dead-letter sink appends exactly the queued user envelopes |
| Engines.Engine.Wait | engine.go:55-59 | Waiting on a stopped actor's handle returns once it is done, having delivered everything pending. If the actor is a dead-letter sink, its log gains exactly the queued user envelopes. An already-released handle changes nothing |
| Engines.Engine.StopAndWait | engine.go:113 | After `Stop(a).Wait()` the actor is done. Its trace gained what was pending plus the stopped notification if it was open. Exactly its identity left the registry, and it is the one newly finished. A dead-letter sink it runs gains exactly its queued user envelopes, and every dead-letter log only grows at its end |
| Engines.Engine.StopAndWaitByName | engine.go:116 | After `StopByName(name).Wait()` the name is unregistered. An actor that was registered under it is done with its full trace. If it is a dead-letter sink, its log gains exactly the queued user envelopes. Every dead-letter log only grows at its end |
| Engines.Engine.StopEach | engine.go:111-114 | Stops and waits for each listed actor in list order. Afterwards every listed actor is done, no listed identity is registered and every other entry is unchanged. The listed identities finished in list order. Every dead-letter log only grows at its end |
| Engines.Engine.StopDeadLetter | engine.go:116 | Once at most the dead-letter actor is registered, stopping and waiting for it by name leaves the registry empty and that actor done, with its full trace. Its log gains exactly the user envelopes queued at it. Actors already done stay done, and every dead-letter log only grows at its end |
| Engines.Engine.Shutdown | engine.go:110-117 | Leaves the registry empty, and every actor that was registered is done. Every identity that was registered finished exactly once, the dead-letter one last. Every dead-letter log only grows at its end, so no recorded entry is lost |
| Engines.OnlyDeadLetterLeft | engine.go:112-114 | After the shutdown loop, at most "deadletter" is registered, and with the same actor |
| Engines.ShutdownOrder | engine.go:110-117 | The loop's identities followed by "deadletter" list every registered identity exactly once, "deadletter" last |
| Engines.PendingUserOnly | engine.go:37-53 | Among what an actor has pending, the user envelopes are exactly its queued ones. With both notifications around the inbox this is the actor's whole lifetime: the sink records exactly the inbox's user envelopes |
| Scenarios.UnknownTargetReachesDeadLetter | main_test.go:43-56 | On a fresh engine, a message sent by name to an unregistered identity becomes the single dead-letter entry, with its payload, no sender and no target |
| Scenarios.SpawnAndSend | main_test.go:12-26 | Spawning an actor and sending it three messages by name queues them in the order sent |
| Scenarios.SendThenStop | main_test.go:11-41 | Sending three messages and then stopping and waiting hands the actor started, the three messages in send order, then stopped. The actor is then unregistered |
| Scenarios.DuplicateSpawnRefused | engine.go:32-35 | A second Spawn under a taken identity is refused with its message, and the first actor stays registered |
| Scenarios.RegistryRoundTrip | registry.go:5-23 | Register once succeeds and twice is refused. Unregister once succeeds and twice reports "actor baker does not exist". The registry ends empty |
| Scenarios.DeadLetterDrainedOnStop | engine.go:116 | A message sent by name to an unknown identity and still queued at the dead-letter actor is the single log entry once that actor is stopped and waited for |
| Scenarios.ShutdownKeepsDeadLetters | engine.go:110-117 | A dead letter already recorded is still the first log entry after shutdown |
| Scenarios.ShutdownStopsDeadLetterLast | engine.go:110-117 | With one spawned actor, shutdown finishes that actor and then the dead-letter actor, leaving the registry empty and the spawned actor done |

## Left out

- **Goroutines, channel rendezvous, wait groups.** A send blocks until the receiving goroutine takes the message. The model appends to a queue instead, which keeps each sender's order. Only the order of a sequence of calls is modelled, not interleavings of concurrent callers.
- **`sync.RWMutex` and `atomic.Bool`.** Registry operations and `Stop` are atomic steps, so the Load/Store race in engine.go:75-77 is not modelled.
- **Panics and non-termination are preconditions.** Sending to a closed inbox panics in Go, so `Send` and `SendByName` require the receiving inbox to be open. `SendByName` requires the dead-letter actor to be registered. Waiting on an actor that was never stopped never returns, so `Wait` requires a waited-on actor's inbox to be closed. The model has no nil actor or nil implementation, so three more Go panics are not modelled: `Spawn` with a nil implementation registers the actor and returns nil, and its goroutine then panics calling `Receive` on the nil interface (engine.go:39); `Stop(nil)` panics at engine.go:75; `Send(nil, …)` panics at engine.go:97.
- **Diagnostic output.** `fmt.Printf` (engine.go:57, 68, 79) and `slog.Warn` with `reflect.TypeOf` (deadletters.go:24-25) are not modelled. The sender label these use is `Actors.SenderLabel`.
- **Engine back-reference and user behaviours.** Implementations here are the dead-letter sink or a behaviour whose code lies outside the model (`External`). Such a behaviour is only traced and never calls back into the engine. So the baker/assistant actors of main_test.go, which spawn, send and stop from their handlers, are not modelled.
- Engines.Engine.Shutdown: the empty registry at the end holds only because modelled behaviours never call back into the engine. In Go, engine.go:112 loops over the snapshot `getAll()` took when Shutdown began, and engine.go:116 then stops only "deadletter". An actor spawned by a handler while Shutdown runs is never stopped. For example, if actor X's handler calls `msg.Engine.Spawn("y", …)` on receiving `ActorStopped` (main_test.go:88-98 shows handlers that spawn and stop), `Shutdown()` returns with "y" still registered. Shutdown also does not restate, per actor, the trace and the exact log growth that `StopAndWait` and `StopDeadLetter` state for each stop; it states only that every log grows at its end. The exact final log is not determined by the dead-letter actor alone, since another actor may share its sink.
- **Parent.** Stored by `Spawn` but never read by the core.
- **Payload dynamic types.** A user payload is a tag; the Go `any` value and the type switch on it are not modelled.
- **Nil payload.** `Payload` has no nil value. In Go a nil payload reaches the `default` case of deadletters.go:16, and `reflect.TypeOf(nil).String()` at deadletters.go:24-25 then panics, so the dead-letter goroutine crashes before the append at deadletters.go:26. That crash path is not modelled.
- Actors.DeadLetter.GetMessages: returns the log as a value. deadletters.go:31 returns the slice itself, so in Go a caller that writes into it changes the recorded log; that aliasing is not modelled.
- **main.go, errors.go and the benchmark.** main.go is not part of this model: it is a stale single-file copy of the same package. Neither is errors.go: engine.go does not use its error types. The benchmark in main_test.go is also left out.
