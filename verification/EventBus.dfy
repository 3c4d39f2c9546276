/**
  The in-process event bus: a bounded channel, a subscription table, workers that
  run every target of an event, and a reply channel for publishers that wait.
 */
module EventBus {
  import opened Wrappers
  import opened Routing

  const CAPACITY := 1024

  datatype Event = Event(eventType: string, correlationId: string, userId: int, payload: string)

  // How one handler call ends.
  datatype Outcome = Returned | Errored(message: string) | Panicked

  const PANIC_ERROR := "event handler panic"

  function OutcomeError(o: Outcome): Option<string> {
    match o
    case Returned => None
    case Errored(m) => Some(m)
    case Panicked => Some(PANIC_ERROR)
  }

  // What the publisher hears: the first error, or nil.
  function FirstError(outcomes: seq<Outcome>): Option<string> {
    if outcomes == [] then None
    else
      var before := FirstError(outcomes[..|outcomes| - 1]);
      if before.Some? then before else OutcomeError(outcomes[|outcomes| - 1])
  }

  predicate AllReturned(outcomes: seq<Outcome>) {
    forall i :: 0 <= i < |outcomes| ==> outcomes[i].Returned?
  }

  /** A nil reply means that no handler failed or panicked. */
  lemma {:induction false} NilMeansAllReturned(outcomes: seq<Outcome>)
    ensures FirstError(outcomes) == None <==> AllReturned(outcomes)
  {
    if outcomes != [] {
      var n := |outcomes| - 1;
      NilMeansAllReturned(outcomes[..n]);
      assert forall i :: 0 <= i < n ==> outcomes[..n][i] == outcomes[i];
    }
  }

  /** Otherwise it is the earliest failure. */
  lemma {:induction false} ErrorIsTheFirst(outcomes: seq<Outcome>, i: nat)
    requires i < |outcomes| && !outcomes[i].Returned? && AllReturned(outcomes[..i])
    ensures FirstError(outcomes) == Some(if outcomes[i].Errored? then outcomes[i].message else "event handler panic")
  {
    var n := |outcomes| - 1;
    if i < n {
      assert outcomes[..n][..i] == outcomes[..i];
      ErrorIsTheFirst(outcomes[..n], i);
    } else {
      NilMeansAllReturned(outcomes[..n]);
    }
  }

  // A reply channel of capacity one.
  class Reply {
    var buffer: seq<Option<string>>

    constructor ()
      ensures buffer == []
    {
      buffer := [];
    }

    // A send that does not block.
    method Send(x: Option<string>)
      requires buffer == []
      modifies this
      ensures buffer == [x]
    {
      buffer := [x];
    }
  }

  // One queued event; result is null for fire-and-forget publishers.
  datatype Queued = Queued(event: Event, result: Reply?)

  // Why the bus refused an event.
  datatype Refusal = BusClosed | ContextDone | Saturated

  // How a publish attempt ends, given the context and, when both the context and
  // the channel are ready, which of the two select picks.
  function Admission(closed: bool, queued: nat, ctxDone: bool, picksDone: bool): Option<Refusal> {
    if closed then Some(BusClosed)
    else if ctxDone && (queued >= CAPACITY || picksDone) then Some(ContextDone)
    else if queued < CAPACITY then None
    else Some(Saturated)
  }

  class Bus {
    var ch: seq<Queued>
    var handlers: Handlers
    var closed: bool
    var dropped: nat
    var subscriptions: nat

    constructor ()
      ensures ch == [] && handlers == map[] && !closed && dropped == 0 && Valid()
    {
      ch, handlers, closed, dropped, subscriptions := [], map[], false, 0, 0;
    }

    ghost predicate Valid()
      reads this
    {
      && TableSound(handlers)
      && (forall p, i :: p in handlers && 0 <= i < |handlers[p]| ==> handlers[p][i] < subscriptions)
      && |ch| <= CAPACITY
    }

    // Handler functions are numbered in the order they subscribe.
    method Subscribe(eventType: string) returns (id: nat)
      requires Valid()
      modifies this`handlers, this`subscriptions
      ensures Valid() && id == old(subscriptions)
      ensures handlers == old(handlers)[eventType := (if eventType in old(handlers) then old(handlers)[eventType]
                                                      else []) + [id]]
    {
      id := subscriptions;
      var known := if eventType in handlers then handlers[eventType] else [];
      handlers := handlers[eventType := known + [id]];
      subscriptions := subscriptions + 1;
    }

    method Enqueue(ev: Queued, ctxCorrelation: string, ctxUser: int, ctxDone: bool, picksDone: bool) returns (ok: bool)
      requires Valid()
      modifies this`ch, this`dropped
      ensures Valid()
      ensures var verdict := Admission(closed, |old(ch)|, ctxDone, picksDone);
              && (ok <==> verdict == None)
              && ch == (if ok then old(ch) + [Queued(Attributed(ev.event, ctxCorrelation, ctxUser), ev.result)]
                        else old(ch))
              && dropped == old(dropped) + (if verdict == Some(Saturated) then 1 else 0)
      ensures ok <==> !closed && |old(ch)| < 1024 && !(ctxDone && picksDone)
      ensures dropped == if !closed && |old(ch)| >= 1024 && !ctxDone then old(dropped) + 1 else old(dropped)
      ensures ok ==>
                |ch| == |old(ch)| + 1 && ch[..|old(ch)|] == old(ch) && ch[|old(ch)|].result == ev.result
                && ch[|old(ch)|].event
                   == Event(ev.event.eventType,
                            if ev.event.correlationId != "" then ev.event.correlationId else ctxCorrelation,
                            if ev.event.userId != 0 then ev.event.userId else ctxUser,
                            ev.event.payload)
    {
      var e := ev.event;
      if e.correlationId == "" {
        e := e.(correlationId := ctxCorrelation);
      }
      if e.userId == 0 {
        e := e.(userId := ctxUser);
      }
      if closed {
        return false;
      }
      if ctxDone && (|ch| >= CAPACITY || picksDone) {
        return false;
      }
      if |ch| < CAPACITY {
        ch := ch + [Queued(e, ev.result)];
        return true;
      }
      dropped := dropped + 1;
      return false;
    }

    // One turn of a worker: the oldest event, all its targets, one reply.
    // behaviour says how each subscription reacts to this event.
    method Work(behaviour: nat -> Outcome) returns (calls: seq<nat>, outcomes: seq<Outcome>)
      requires Valid() && |ch| > 0
      requires ch[0].result != null ==> ch[0].result.buffer == []
      modifies this`ch, ch[0].result
      ensures Valid() && ch == old(ch)[1..]
      ensures calls == Targets(handlers, old(ch)[0].event.eventType)
      ensures |outcomes| == |calls| && forall i :: 0 <= i < |calls| ==> outcomes[i] == behaviour(calls[i])
      ensures old(ch)[0].result != null ==> old(ch)[0].result.buffer == [FirstError(outcomes)]
    {
      var queued := ch[0];
      ch := ch[1..];
      var targets := CollectTargets(handlers, queued.event.eventType);
      var firstErr: Option<string> := None;
      outcomes := [];
      for i := 0 to |targets|
        invariant |outcomes| == i && forall n :: 0 <= n < i ==> outcomes[n] == behaviour(targets[n])
        invariant firstErr == FirstError(outcomes)
      {
        var o := behaviour(targets[i]);
        var handlerErr := OutcomeError(o);
        if handlerErr.Some? && firstErr.None? {
          firstErr := handlerErr;
        }
        assert (outcomes + [o])[..i] == outcomes;
        outcomes := outcomes + [o];
      }
      calls := targets;
      if queued.result != null {
        queued.result.Send(firstErr);
      }
    }

    method Close()
      modifies this`closed
      ensures closed
    {
      closed := true;
    }
  }

  // Missing attribution is taken from the publisher's context.
  function Attributed(e: Event, ctxCorrelation: string, ctxUser: int): Event {
    e.(correlationId := if e.correlationId == "" then ctxCorrelation else e.correlationId,
       userId := if e.userId == 0 then ctxUser else e.userId)
  }
}
