/** The value types of actor.go and message.go, the actor record, and the
    dead-letter sink of deadletters.go.

    They share one module because they refer to each other: an Envelope names
    its sender and target Actors, an Actor names its implementation, and the
    dead-letter implementation stores Envelopes. */
module Actors {

  datatype Option<+T> = None | Some(value: T)

  /** The error value of the Go functions that return `error`: nil or a message. */
  datatype Outcome = Ok | Fail(message: string)

  /** The identity under which the engine registers its dead-letter sink. */
  const DeadLetterId: string := "deadletter"

  /** A payload is one of the two lifecycle notifications (`ActorStarted{}`,
      `ActorStopped{}`) or a user message, distinguished by a tag that stands
      for its Go type and value. */
  datatype Payload = Started | Stopped | User(tag: string)

  predicate IsLifecycle(p: Payload)
  {
    p.Started? || p.Stopped?
  }

  /** An envelope carries a payload, the optional sending actor and the
      optional target actor. The engine back-reference is not modelled:
      implementations here never call back into the engine. */
  datatype Envelope = Envelope(payload: Payload, sender: Option<Actor>, target: Option<Actor>)

  /** The system messages the processing context delivers: no sender, no target. */
  function Notification(p: Payload): Envelope
  {
    Envelope(p, None, None)
  }

  /** What runs an actor's receive capability: the dead-letter sink, or a
      behaviour whose code lies outside this model. */
  datatype Implementation = DeadLetterSink(sink: DeadLetter) | External

  /** The runtime record of one actor. `inbox` and `closed` stand for the
      channel `recvCh`; `started` and `received` trace the processing
      context (which notifications and envelopes it has handed to the
      implementation, in order); `done` stands for the wait group released
      when the processing context exits. */
  class Actor {
    const id: string
    const implementation: Implementation
    const parent: Option<Actor>
    var inbox: seq<Envelope>
    var closed: bool
    var stopped: bool
    var started: bool
    var received: seq<Envelope>
    var done: bool

    constructor (id: string, implementation: Implementation, parent: Option<Actor>)
      ensures this.id == id && this.implementation == implementation && this.parent == parent
      ensures Initial()
    {
      this.id := id;
      this.implementation := implementation;
      this.parent := parent;
      inbox := [];
      closed := false;
      stopped := false;
      started := false;
      received := [];
      done := false;
    }

    /** The state right after construction: empty open inbox, not stopped,
        nothing delivered yet. */
    ghost predicate Initial()
      reads this
    {
      inbox == [] && !closed && !stopped && !started && received == [] && !done
    }

    /** The stopped flag guards the channel close, so the two agree; the
        processing context exits only after the started notification and
        once the inbox is closed and drained. */
    ghost predicate Valid()
      reads this
    {
      stopped == closed && (done ==> started && closed && inbox == [])
    }

    /** What the processing context still has to hand to the implementation,
        in the order it will: the started notification if not yet delivered,
        the queued envelopes first-in first-out, and the stopped notification
        once the inbox is closed. */
    function Pending(): seq<Envelope>
      reads this
    {
      (if started then [] else [Notification(Started)])
      + inbox
      + (if closed && !done then [Notification(Stopped)] else [])
    }

    /** The objects the implementation updates when it receives an envelope. */
    function Sinks(): set<object>
    {
      match implementation
      case DeadLetterSink(d) => {d}
      case External => {}
    }
  }

  /** The dead-letter sink: an append-only log of the envelopes that no
      registered actor could take. */
  class DeadLetter {
    var messages: seq<Envelope>

    constructor ()
      ensures messages == []
    {
      messages := [];
    }

    /** Ignores the two lifecycle notifications and appends every other
        envelope at the end of the log; earlier entries keep their positions. */
    method Receive(msg: Envelope)
      modifies this
      ensures IsLifecycle(msg.payload) ==> messages == old(messages)
      ensures !IsLifecycle(msg.payload) ==> messages == old(messages) + [msg]
      ensures |old(messages)| <= |messages| && messages[..|old(messages)|] == old(messages)
    {
      match msg.payload
      case Started =>
      case Stopped =>
      case User(_) =>
        messages := messages + [msg];
    }

    /** The recorded envelopes, in arrival order; the log is not changed. */
    method GetMessages() returns (r: seq<Envelope>)
      ensures r == messages
    {
      r := messages;
    }
  }

  /** The sender label of the dead-letter diagnostic. */
  function SenderLabel(msg: Envelope): (shown: string)
    ensures msg.sender.None? ==> shown == "<nil>"
    ensures msg.sender.Some? ==> shown == msg.sender.value.id
  {
    match msg.sender
    case None => "<nil>"
    case Some(a) => a.id
  }

  /** The envelopes of `s` that the dead-letter sink records, in order. */
  function UserOnly(s: seq<Envelope>): seq<Envelope>
  {
    if s == [] then []
    else (if IsLifecycle(s[0].payload) then [] else [s[0]]) + UserOnly(s[1..])
  }

  /** The recorded envelopes are exactly the non-lifecycle envelopes of the
      stream, and there are no more of them than envelopes in the stream. */
  lemma {:induction false} UserOnlyMembers(s: seq<Envelope>)
    ensures |UserOnly(s)| <= |s|
    ensures forall e | e in UserOnly(s) :: e in s && !IsLifecycle(e.payload)
    ensures forall e | e in s && !IsLifecycle(e.payload) :: e in UserOnly(s)
  {
    if s != [] {
      UserOnlyMembers(s[1..]);
      assert forall e | e in s :: e == s[0] || e in s[1..];
    }
  }

  /** A lifecycle notification on its own is not recorded. */
  lemma UserOnlyDropsNotification(p: Payload)
    requires IsLifecycle(p)
    ensures UserOnly([Notification(p)]) == []
  {
  }

  /** Filtering distributes over concatenation: recording a stream in two
      pieces is recording it at once. */
  lemma {:induction false} UserOnlyConcat(a: seq<Envelope>, b: seq<Envelope>)
    ensures UserOnly(a + b) == UserOnly(a) + UserOnly(b)
  {
    if a == [] {
      assert a + b == b;
    } else {
      assert (a + b)[0] == a[0];
      assert (a + b)[1..] == a[1..] + b;
      UserOnlyConcat(a[1..], b);
    }
  }

  /** A stream with no lifecycle notification is recorded whole. */
  lemma {:induction false} UserOnlyKeepsUserMessages(s: seq<Envelope>)
    requires forall i | 0 <= i < |s| :: !IsLifecycle(s[i].payload)
    ensures UserOnly(s) == s
  {
    if s != [] {
      UserOnlyKeepsUserMessages(s[1..]);
    }
  }
}
