/**
  Publishers, workers and Close on one bus, step by step: the publish lock, the
  closed flag, the channel, the workers' loop and the reply channels.
 */
module EventBusRuns {
  import opened Wrappers
  import opened Routing
  import opened EventBus

  // An accepted event; its position in accepted is its ticket.
  datatype Job = Job(event: Event, wants: bool)

  datatype Verdict =
    | Accepted(ticket: nat)
    | Answered(ticket: nat, error: Option<string>)
    | GaveUp(ticket: nat)
    | Refused(why: Refusal)

  // Where a publisher stands. Inside, Sending and Leaving hold the read lock.
  datatype Publisher =
    | Calling(job: Job)
    | Inside(job: Job)
    | Sending(job: Job)
    | Leaving(job: Job, verdict: Verdict)
    | Waiting(job: Job, ticket: nat)
    | Gone(job: Job, verdict: Verdict)

  // Running keeps the subscription table the worker looked up.
  datatype Worker =
    | Idle
    | Took(ticket: nat)
    | Running(ticket: nat, table: Handlers, outcomes: seq<Outcome>)
    | Exited

  // Close, from before its lock to after it.
  datatype Closing = Open | Locked | Flagged | ChannelClosed | Unlocked

  datatype Finish = Finish(table: Handlers, outcomes: seq<Outcome>)

  datatype State = State(
    closing: Closing,
    handlers: Handlers,
    accepted: seq<Job>,
    queue: seq<nat>,
    pubs: map<nat, Publisher>,
    workers: map<nat, Worker>,
    finished: map<nat, Finish>,
    replies: map<nat, seq<Option<string>>>,
    dropped: nat,
    refusals: seq<Refusal>)

  datatype Step =
    | Subscribe(pattern: string, id: nat)
    | Call(p: nat, job: Job)
    | RLock(p: nat)
    | Check(p: nat)
    | Accept(p: nat)
    | Cancel(p: nat)
    | Saturate(p: nat)
    | RUnlock(p: nat)
    | Receive(p: nat)
    | GiveUp(p: nat)
    | Lock
    | SetClosed
    | CloseChannel
    | Unlock
    | Take(w: nat)
    | Route(w: nat)
    | Handle(w: nat, outcome: Outcome)
    | SendReply(w: nat)
    | Exit(w: nat)

  predicate ClosedFlag(s: State) {
    s.closing in {Flagged, ChannelClosed, Unlocked}
  }

  predicate ChannelOpen(s: State) {
    s.closing in {Open, Locked, Flagged}
  }

  predicate WriterInside(s: State) {
    s.closing in {Locked, Flagged, ChannelClosed}
  }

  predicate ReaderInside(p: Publisher) {
    p.Inside? || p.Sending? || p.Leaving?
  }

  predicate Init(s: State) {
    && s.closing == Open && s.handlers == map[] && s.accepted == [] && s.queue == [] && s.pubs == map[]
    && (forall w :: w in s.workers ==> s.workers[w] == Idle)
    && s.finished == map[] && s.replies == map[] && s.dropped == 0 && s.refusals == []
  }

  function ReplyBuffer(s: State, t: nat): seq<Option<string>> {
    if t in s.replies then s.replies[t] else []
  }

  function Targeted(s: State, t: nat, table: Handlers): seq<nat>
    requires t < |s.accepted|
  {
    Targets(table, s.accepted[t].event.eventType)
  }

  predicate Enabled(s: State, st: Step) {
    match st
    case Subscribe(_, id) => forall q :: q in s.handlers ==> id !in s.handlers[q]
    case Call(p, _) => p !in s.pubs
    case RLock(p) => p in s.pubs && s.pubs[p].Calling? && !WriterInside(s)
    case Check(p) => p in s.pubs && s.pubs[p].Inside?
    case Accept(p) => p in s.pubs && s.pubs[p].Sending? && |s.queue| < CAPACITY
    case Cancel(p) => p in s.pubs && s.pubs[p].Sending?
    case Saturate(p) => p in s.pubs && s.pubs[p].Sending? && |s.queue| >= CAPACITY
    case RUnlock(p) => p in s.pubs && s.pubs[p].Leaving?
    case Receive(p) => p in s.pubs && s.pubs[p].Waiting? && ReplyBuffer(s, s.pubs[p].ticket) != []
    case GiveUp(p) => p in s.pubs && s.pubs[p].Waiting?
    case Lock => s.closing == Open && forall p :: p in s.pubs ==> !ReaderInside(s.pubs[p])
    case SetClosed => s.closing == Locked
    case CloseChannel => s.closing == Flagged
    case Unlock => s.closing == ChannelClosed
    case Take(w) => w in s.workers && s.workers[w].Idle? && s.queue != []
    case Route(w) => w in s.workers && s.workers[w].Took?
    case Handle(w, _) =>
      w in s.workers && s.workers[w].Running? && s.workers[w].ticket < |s.accepted|
      && |s.workers[w].outcomes| < |Targeted(s, s.workers[w].ticket, s.workers[w].table)|
    case SendReply(w) =>
      DoneHandling(s, w) && (s.accepted[s.workers[w].ticket].wants ==> |ReplyBuffer(s, s.workers[w].ticket)| < 1)
    case Exit(w) => w in s.workers && s.workers[w].Idle? && s.queue == [] && !ChannelOpen(s)
  }

  // The worker has run every target and is about to reply.
  predicate DoneHandling(s: State, w: nat) {
    && w in s.workers && s.workers[w].Running? && s.workers[w].ticket < |s.accepted|
    && |s.workers[w].outcomes| == |Targeted(s, s.workers[w].ticket, s.workers[w].table)|
  }

  function Place(s: State, p: nat, pub: Publisher): State {
    s.(pubs := s.pubs[p := pub])
  }

  function Refuse(s: State, p: nat, why: Refusal): State
    requires p in s.pubs
  {
    s.(pubs := s.pubs[p := Leaving(s.pubs[p].job, Refused(why))], refusals := s.refusals + [why])
  }

  function Apply(s: State, st: Step): State
    requires Enabled(s, st)
  {
    match st
    case Subscribe(pattern, id) =>
      s.(handlers := s.handlers[pattern := Subscribers(s.handlers, pattern) + [id]])
    case Call(p, job) => Place(s, p, Calling(job))
    case RLock(p) => Place(s, p, Inside(s.pubs[p].job))
    case Check(p) => if ClosedFlag(s) then Refuse(s, p, BusClosed) else Place(s, p, Sending(s.pubs[p].job))
    case Accept(p) =>
      var job := s.pubs[p].job;
      s.(accepted := s.accepted + [job],
         queue := s.queue + [|s.accepted|],
         pubs := s.pubs[p := Leaving(job, Accepted(|s.accepted|))])
    case Cancel(p) => Refuse(s, p, ContextDone)
    case Saturate(p) => Refuse(s, p, Saturated).(dropped := s.dropped + 1)
    case RUnlock(p) =>
      var pub := s.pubs[p];
      Place(s, p, if pub.verdict.Accepted? && pub.job.wants then Waiting(pub.job, pub.verdict.ticket)
                  else Gone(pub.job, pub.verdict))
    case Receive(p) =>
      var pub := s.pubs[p];
      var buffer := ReplyBuffer(s, pub.ticket);
      s.(pubs := s.pubs[p := Gone(pub.job, Answered(pub.ticket, buffer[0]))],
         replies := s.replies[pub.ticket := buffer[1..]])
    case GiveUp(p) => Place(s, p, Gone(s.pubs[p].job, GaveUp(s.pubs[p].ticket)))
    case Lock => s.(closing := Locked)
    case SetClosed => s.(closing := Flagged)
    case CloseChannel => s.(closing := ChannelClosed)
    case Unlock => s.(closing := Unlocked)
    case Take(w) => s.(queue := s.queue[1..], workers := s.workers[w := Took(s.queue[0])])
    case Route(w) => s.(workers := s.workers[w := Running(s.workers[w].ticket, s.handlers, [])])
    case Handle(w, o) =>
      s.(workers := s.workers[w := Running(s.workers[w].ticket, s.workers[w].table, s.workers[w].outcomes + [o])])
    case SendReply(w) =>
      var wk := s.workers[w];
      s.(workers := s.workers[w := Idle],
         finished := s.finished[wk.ticket := Finish(wk.table, wk.outcomes)],
         replies := if s.accepted[wk.ticket].wants
                    then s.replies[wk.ticket := ReplyBuffer(s, wk.ticket) + [FirstError(wk.outcomes)]]
                    else s.replies)
    case Exit(w) => s.(workers := s.workers[w := Exited])
  }

  // ---------------------------------------------------------------- invariant

  predicate Busy(w: Worker) {
    w.Took? || w.Running?
  }

  function BusyWorkers(s: State): set<nat> {
    set w | w in s.workers && Busy(s.workers[w])
  }

  // Every ticket is queued, in one worker, or finished, and nowhere twice.
  ghost predicate TicketsPlaced(s: State) {
    && (forall i :: 0 <= i < |s.queue| ==> s.queue[i] < |s.accepted| && s.queue[i] !in s.finished)
    && (forall i, j :: 0 <= i < j < |s.queue| ==> s.queue[i] != s.queue[j])
    && (forall w :: w in s.workers && Busy(s.workers[w]) ==>
          s.workers[w].ticket < |s.accepted| && s.workers[w].ticket !in s.finished && s.workers[w].ticket !in s.queue)
    && (forall w, v | w in s.workers && v in s.workers && Busy(s.workers[w]) && Busy(s.workers[v]) ::
          s.workers[w].ticket == s.workers[v].ticket ==> w == v)
    && (forall t :: t in s.finished ==> t < |s.accepted|)
    && |s.accepted| == |s.queue| + |BusyWorkers(s)| + |s.finished|
  }

  ghost predicate TicketsFound(s: State) {
    forall t: nat :: t < |s.accepted| ==> t in s.queue || InWorker(s, t) || t in s.finished
  }

  ghost predicate InWorker(s: State, t: nat) {
    exists w :: w in s.workers && Busy(s.workers[w]) && s.workers[w].ticket == t
  }

  // The lock at work: nobody is inside with Close, and who passed the check still finds the channel open.
  ghost predicate LockSound(s: State) {
    forall p :: p in s.pubs ==>
      && (ReaderInside(s.pubs[p]) ==> !WriterInside(s))
      && (s.pubs[p].Sending? ==> s.closing == Open)
  }

  function CountSaturated(rs: seq<Refusal>): nat {
    if rs == [] then 0 else CountSaturated(rs[..|rs| - 1]) + (if rs[|rs| - 1] == Saturated then 1 else 0)
  }

  predicate CountersSound(s: State) {
    s.dropped == CountSaturated(s.refusals) && |s.queue| <= CAPACITY
  }

  // A finished event had every target run; its reply is the first error.
  predicate FinishSound(s: State, t: nat) {
    t in s.finished && t < |s.accepted|
    && |s.finished[t].outcomes| == |Targeted(s, t, s.finished[t].table)|
    && TableSound(s.finished[t].table)
  }

  predicate ReplySound(s: State, t: nat, x: Option<string>) {
    t in s.finished && x == FirstError(s.finished[t].outcomes)
  }

  predicate VerdictSound(s: State, pub: Publisher) {
    match pub
    case Leaving(job, Accepted(t)) => t < |s.accepted| && s.accepted[t] == job
    case Leaving(_, v) => v.Refused?
    case Waiting(job, t) => t < |s.accepted| && s.accepted[t] == job
    case Gone(job, Accepted(t)) => t < |s.accepted| && s.accepted[t] == job
    case Gone(job, GaveUp(t)) => t < |s.accepted| && s.accepted[t] == job
    case Gone(job, Answered(t, x)) => t < |s.accepted| && s.accepted[t] == job && ReplySound(s, t, x)
    case _ => true
  }

  predicate FinishesSound(s: State) {
    forall t :: t in s.finished ==> FinishSound(s, t)
  }

  // A reply channel holds at most the one reply of a finished event.
  predicate RepliesSound(s: State) {
    forall t :: t in s.replies ==>
      |s.replies[t]| <= 1 && t in s.finished && (s.replies[t] != [] ==> ReplySound(s, t, s.replies[t][0]))
  }

  predicate VerdictsSound(s: State) {
    forall p :: p in s.pubs ==> VerdictSound(s, s.pubs[p])
  }

  predicate WorkersSound(s: State) {
    && TableSound(s.handlers)
    && (forall w :: w in s.workers && s.workers[w].Running? ==> TableSound(s.workers[w].table))
    && (forall w :: w in s.workers && s.workers[w].Exited? ==> !ChannelOpen(s) && s.queue == [])
  }

  ghost predicate Invariant(s: State) {
    && TicketsPlaced(s) && TicketsFound(s) && LockSound(s) && CountersSound(s) && WorkersSound(s)
    && FinishesSound(s) && RepliesSound(s) && VerdictsSound(s)
  }

  // ---------------------------------------------------------------- preservation

  lemma PlacedByAccept(s: State, p: nat)
    requires TicketsPlaced(s) && TicketsFound(s) && Enabled(s, Accept(p))
    ensures TicketsPlaced(Apply(s, Accept(p))) && TicketsFound(Apply(s, Accept(p)))
  {
    var s' := Apply(s, Accept(p));
    assert BusyWorkers(s') == BusyWorkers(s);
    forall t: nat | t < |s'.accepted| ensures t in s'.queue || InWorker(s', t) || t in s'.finished {
      if t == |s.accepted| {
        assert s'.queue[|s.queue|] == t;
      } else if InWorker(s, t) {
        var w :| w in s.workers && Busy(s.workers[w]) && s.workers[w].ticket == t;
        assert w in s'.workers;
      }
    }
  }

  lemma BusyByTake(s: State, w: nat)
    requires Enabled(s, Take(w))
    ensures |BusyWorkers(Apply(s, Take(w)))| == |BusyWorkers(s)| + 1
  {
    assert BusyWorkers(Apply(s, Take(w))) == BusyWorkers(s) + {w};
  }

  lemma BusyByReply(s: State, w: nat)
    requires Enabled(s, SendReply(w))
    ensures |BusyWorkers(Apply(s, SendReply(w)))| == |BusyWorkers(s)| - 1
  {
    assert BusyWorkers(Apply(s, SendReply(w))) == BusyWorkers(s) - {w};
  }

  lemma FinishedByReply(s: State, w: nat)
    requires Enabled(s, SendReply(w)) && s.workers[w].ticket !in s.finished
    ensures |Apply(s, SendReply(w)).finished| == |s.finished| + 1
  {
    assert Apply(s, SendReply(w)).finished.Keys == s.finished.Keys + {s.workers[w].ticket};
  }

  lemma PlacedByTake(s: State, w: nat)
    requires TicketsPlaced(s) && Enabled(s, Take(w))
    ensures TicketsPlaced(Apply(s, Take(w)))
  {
    var s' := Apply(s, Take(w));
    BusyByTake(s, w);
    assert forall i :: 0 <= i < |s'.queue| ==> s'.queue[i] == s.queue[i + 1];
    assert s.queue[0] in s.queue;
  }

  lemma FoundByTake(s: State, w: nat)
    requires TicketsFound(s) && Enabled(s, Take(w))
    ensures TicketsFound(Apply(s, Take(w)))
  {
    var s' := Apply(s, Take(w));
    forall t: nat | t < |s'.accepted| ensures t in s'.queue || InWorker(s', t) || t in s'.finished {
      if t == s.queue[0] {
        assert Busy(s'.workers[w]) && s'.workers[w].ticket == t;
      } else if t in s.queue {
        assert s.queue == [s.queue[0]] + s'.queue;
      } else if InWorker(s, t) {
        var v :| v in s.workers && Busy(s.workers[v]) && s.workers[v].ticket == t;
        assert s'.workers[v] == s.workers[v];
      }
    }
  }

  lemma PlacedByReply(s: State, w: nat)
    requires TicketsPlaced(s) && Enabled(s, SendReply(w))
    ensures TicketsPlaced(Apply(s, SendReply(w)))
  {
    BusyByReply(s, w);
    FinishedByReply(s, w);
    assert forall i :: 0 <= i < |s.queue| ==> s.queue[i] in s.queue;
  }

  lemma FoundByReply(s: State, w: nat)
    requires TicketsFound(s) && Enabled(s, SendReply(w))
    ensures TicketsFound(Apply(s, SendReply(w)))
  {
    var s' := Apply(s, SendReply(w));
    forall t: nat | t < |s'.accepted| ensures t in s'.queue || InWorker(s', t) || t in s'.finished {
      if t != s.workers[w].ticket && InWorker(s, t) {
        var v :| v in s.workers && Busy(s.workers[v]) && s.workers[v].ticket == t;
        assert s'.workers[v] == s.workers[v];
      }
    }
  }

  // A worker goes on with the ticket it has, or an idle one leaves.
  lemma PlacedByWorker(s: State, w: nat, wk: Worker)
    requires TicketsPlaced(s) && w in s.workers
    requires Busy(wk) == Busy(s.workers[w]) && (Busy(wk) ==> wk.ticket == s.workers[w].ticket)
    ensures TicketsPlaced(s.(workers := s.workers[w := wk]))
  {
    assert BusyWorkers(s.(workers := s.workers[w := wk])) == BusyWorkers(s);
  }

  lemma FoundByWorker(s: State, w: nat, wk: Worker)
    requires TicketsFound(s) && w in s.workers
    requires Busy(wk) == Busy(s.workers[w]) && (Busy(wk) ==> wk.ticket == s.workers[w].ticket)
    ensures TicketsFound(s.(workers := s.workers[w := wk]))
  {
    var s' := s.(workers := s.workers[w := wk]);
    forall t: nat | t < |s'.accepted| ensures t in s'.queue || InWorker(s', t) || t in s'.finished {
      if InWorker(s, t) {
        var v :| v in s.workers && Busy(s.workers[v]) && s.workers[v].ticket == t;
        assert v in s'.workers && Busy(s'.workers[v]) && s'.workers[v].ticket == t;
      }
    }
  }

  // Everything that moves no ticket.
  lemma PlacedBySame(s: State, s': State)
    requires TicketsPlaced(s) && TicketsFound(s)
    requires s'.accepted == s.accepted && s'.queue == s.queue && s'.workers == s.workers && s'.finished == s.finished
    ensures TicketsPlaced(s') && TicketsFound(s')
  {
    assert BusyWorkers(s') == BusyWorkers(s);
    forall t: nat | t < |s'.accepted| ensures t in s'.queue || InWorker(s', t) || t in s'.finished {
      assert t in s.queue || InWorker(s, t) || t in s.finished;
    }
  }

  lemma KeptByTake(s: State, w: nat)
    requires TicketsPlaced(s) && TicketsFound(s) && Enabled(s, Take(w))
    ensures TicketsPlaced(Apply(s, Take(w))) && TicketsFound(Apply(s, Take(w)))
  {
    PlacedByTake(s, w);
    FoundByTake(s, w);
  }

  lemma KeptByReply(s: State, w: nat)
    requires TicketsPlaced(s) && TicketsFound(s) && Enabled(s, SendReply(w))
    ensures TicketsPlaced(Apply(s, SendReply(w))) && TicketsFound(Apply(s, SendReply(w)))
  {
    PlacedByReply(s, w);
    FoundByReply(s, w);
  }

  lemma KeptByWorker(s: State, w: nat, wk: Worker)
    requires TicketsPlaced(s) && TicketsFound(s) && w in s.workers
    requires Busy(wk) == Busy(s.workers[w]) && (Busy(wk) ==> wk.ticket == s.workers[w].ticket)
    ensures var s' := s.(workers := s.workers[w := wk]); TicketsPlaced(s') && TicketsFound(s')
  {
    PlacedByWorker(s, w, wk);
    FoundByWorker(s, w, wk);
  }

  // The step moves no ticket between queue, workers and finished.
  predicate MovesNoTicket(st: Step) {
    !st.Accept? && !st.Take? && !st.SendReply? && !st.Route? && !st.Handle? && !st.Exit?
  }

  lemma KeptBySame(s: State, st: Step)
    requires TicketsPlaced(s) && TicketsFound(s) && Enabled(s, st) && MovesNoTicket(st)
    ensures TicketsPlaced(Apply(s, st)) && TicketsFound(Apply(s, st))
  {
    PlacedBySame(s, Apply(s, st));
  }

  // A worker's own step.
  lemma KeptByTurn(s: State, st: Step)
    requires TicketsPlaced(s) && TicketsFound(s) && Enabled(s, st) && (st.Route? || st.Handle? || st.Exit?)
    ensures TicketsPlaced(Apply(s, st)) && TicketsFound(Apply(s, st))
  {
    KeptByWorker(s, st.w, Apply(s, st).workers[st.w]);
  }

  lemma TicketsKept(s: State, st: Step)
    requires TicketsPlaced(s) && TicketsFound(s) && Enabled(s, st)
    ensures TicketsPlaced(Apply(s, st)) && TicketsFound(Apply(s, st))
  {
    if st.Accept? {
      PlacedByAccept(s, st.p);
    } else if st.Take? {
      KeptByTake(s, st.w);
    } else if st.SendReply? {
      KeptByReply(s, st.w);
    } else if MovesNoTicket(st) {
      KeptBySame(s, st);
    } else {
      KeptByTurn(s, st);
    }
  }

  lemma LockKept(s: State, st: Step)
    requires LockSound(s) && Enabled(s, st)
    ensures LockSound(Apply(s, st))
  {
  }

  lemma CountOneMore(rs: seq<Refusal>, why: Refusal)
    ensures CountSaturated(rs + [why]) == CountSaturated(rs) + (if why == Saturated then 1 else 0)
  {
    assert (rs + [why])[..|rs|] == rs;
  }

  lemma CountersKept(s: State, st: Step)
    requires CountersSound(s) && Enabled(s, st)
    ensures CountersSound(Apply(s, st))
  {
    match st
    case Check(_) => CountOneMore(s.refusals, BusClosed);
    case Cancel(_) => CountOneMore(s.refusals, ContextDone);
    case Saturate(_) => CountOneMore(s.refusals, Saturated);
    case _ => CountersSame(s, Apply(s, st));
  }

  lemma CountersSame(s: State, s': State)
    requires CountersSound(s) && s'.dropped == s.dropped && s'.refusals == s.refusals && |s'.queue| <= CAPACITY
    ensures CountersSound(s')
  {
  }

  lemma SubscribeKeepsTable(h: Handlers, pattern: string, id: nat)
    requires TableSound(h) && forall q :: q in h ==> id !in h[q]
    ensures TableSound(h[pattern := Subscribers(h, pattern) + [id]])
  {
  }

  lemma WorkersKept(s: State, st: Step)
    requires WorkersSound(s) && LockSound(s) && Enabled(s, st)
    ensures WorkersSound(Apply(s, st))
  {
    match st
    case Subscribe(pattern, id) => SubscribeKeepsTable(s.handlers, pattern, id);
    case _ =>
  }

  lemma FinishStays(s: State, s': State, t: nat)
    requires FinishSound(s, t) && s.accepted <= s'.accepted && t in s'.finished && s'.finished[t] == s.finished[t]
    ensures FinishSound(s', t)
  {
  }

  lemma FinishesKept(s: State, st: Step)
    requires FinishesSound(s) && WorkersSound(s) && Enabled(s, st)
    ensures FinishesSound(Apply(s, st))
  {
    var s' := Apply(s, st);
    forall t | t in s'.finished ensures FinishSound(s', t) {
      if st.SendReply? && t == s.workers[st.w].ticket {
        assert s'.accepted == s.accepted;
      } else {
        FinishStays(s, s', t);
      }
    }
  }

  lemma RepliesKept(s: State, st: Step)
    requires RepliesSound(s) && TicketsPlaced(s) && Enabled(s, st)
    ensures RepliesSound(Apply(s, st))
  {
  }

  // History that only grows keeps what a publisher was told true.
  lemma VerdictGrows(s: State, s': State, pub: Publisher)
    requires VerdictSound(s, pub) && s.accepted <= s'.accepted
    requires forall t :: t in s.finished ==> t in s'.finished && s'.finished[t] == s.finished[t]
    ensures VerdictSound(s', pub)
  {
  }

  lemma HistoryGrows(s: State, st: Step)
    requires TicketsPlaced(s) && Enabled(s, st)
    ensures s.accepted <= Apply(s, st).accepted
    ensures forall t :: t in s.finished ==> t in Apply(s, st).finished && Apply(s, st).finished[t] == s.finished[t]
  {
  }

  // The publisher a step moves.
  predicate Moves(st: Step, p: nat) {
    match st
    case Call(q, _) => p == q
    case RLock(q) => p == q
    case Check(q) => p == q
    case Accept(q) => p == q
    case Cancel(q) => p == q
    case Saturate(q) => p == q
    case RUnlock(q) => p == q
    case Receive(q) => p == q
    case GiveUp(q) => p == q
    case _ => false
  }

  lemma OthersStay(s: State, st: Step, p: nat)
    requires Enabled(s, st) && p in Apply(s, st).pubs && !Moves(st, p)
    ensures p in s.pubs && Apply(s, st).pubs[p] == s.pubs[p]
  {
  }

  lemma MoverVerdict(s: State, st: Step, p: nat)
    requires VerdictsSound(s) && RepliesSound(s) && Enabled(s, st) && Moves(st, p)
    ensures VerdictSound(Apply(s, st), Apply(s, st).pubs[p])
  {
    if p in s.pubs {
      assert VerdictSound(s, s.pubs[p]);
    }
  }

  lemma VerdictsKept(s: State, st: Step)
    requires VerdictsSound(s) && RepliesSound(s) && TicketsPlaced(s) && Enabled(s, st)
    ensures VerdictsSound(Apply(s, st))
  {
    var s' := Apply(s, st);
    HistoryGrows(s, st);
    forall p | p in s'.pubs ensures VerdictSound(s', s'.pubs[p]) {
      if Moves(st, p) {
        MoverVerdict(s, st, p);
      } else {
        OthersStay(s, st, p);
        VerdictGrows(s, s', s.pubs[p]);
      }
    }
  }

  /** Every step of every publisher, worker and closer keeps the invariant. */
  lemma StepKeeps(s: State, st: Step)
    requires Invariant(s) && Enabled(s, st)
    ensures Invariant(Apply(s, st))
  {
    TicketsKept(s, st);
    LockKept(s, st);
    CountersKept(s, st);
    WorkersKept(s, st);
    FinishesKept(s, st);
    RepliesKept(s, st);
    VerdictsKept(s, st);
  }

  // ---------------------------------------------------------------- over runs

  ghost predicate Next(s: State, s': State) {
    exists st :: Enabled(s, st) && s' == Apply(s, st)
  }

  ghost predicate NextAt(run: seq<State>, i: nat)
    requires i + 1 < |run|
  {
    Next(run[i], run[i + 1])
  }

  ghost predicate IsRun(run: seq<State>) {
    |run| > 0 && Init(run[0]) && forall i: nat :: i + 1 < |run| ==> NextAt(run, i)
  }

  lemma InitSound(s: State)
    requires Init(s)
    ensures Invariant(s)
  {
    assert BusyWorkers(s) == {};
  }

  lemma NextSound(s: State, s': State)
    requires Invariant(s) && Next(s, s')
    ensures Invariant(s')
  {
    var st :| Enabled(s, st) && s' == Apply(s, st);
    StepKeeps(s, st);
  }

  lemma RunStepSound(run: seq<State>, k: nat)
    requires IsRun(run) && k + 1 < |run| && Invariant(run[k])
    ensures Invariant(run[k + 1])
  {
    assert NextAt(run, k);
    NextSound(run[k], run[k + 1]);
  }

  lemma {:induction false} StateSound(run: seq<State>, k: nat, s: State)
    requires IsRun(run) && k < |run| && s == run[k]
    ensures Invariant(s)
  {
    if k == 0 {
      InitSound(s);
    } else {
      StateSound(run, k - 1, run[k - 1]);
      RunStepSound(run, k - 1);
    }
  }

  lemma RunSound(run: seq<State>, k: nat)
    requires IsRun(run) && k < |run|
    ensures Invariant(run[k])
  {
    StateSound(run, k, run[k]);
  }

  /** Conservation: an accepted event is queued, or with one worker, or finished,
      in exactly one of these, so the three always add up. */
  lemma AcceptedConserved(run: seq<State>, k: nat, t: nat)
    requires IsRun(run) && k < |run| && t < |run[k].accepted|
    ensures var s := run[k];
            && |s.accepted| == |s.queue| + |BusyWorkers(s)| + |s.finished|
            && (t in s.queue || InWorker(s, t) || t in s.finished)
            && !(t in s.queue && InWorker(s, t)) && !(t in s.queue && t in s.finished)
            && !(InWorker(s, t) && t in s.finished)
  {
    RunSound(run, k);
  }

  /** A publisher that passed the closed check still finds the channel open. */
  lemma NoSendOnClosedChannel(run: seq<State>, k: nat, p: nat)
    requires IsRun(run) && k < |run| && p in run[k].pubs && run[k].pubs[p].Sending?
    ensures ChannelOpen(run[k]) && !ClosedFlag(run[k])
  {
    RunSound(run, k);
  }

  lemma ClosedStaysClosed(s: State, st: Step)
    requires LockSound(s) && Enabled(s, st) && !ChannelOpen(s)
    ensures Apply(s, st).accepted == s.accepted && !ChannelOpen(Apply(s, st))
  {
  }

  lemma StepAfterClose(run: seq<State>, k: nat)
    requires IsRun(run) && k + 1 < |run| && !ChannelOpen(run[k])
    ensures run[k + 1].accepted == run[k].accepted && !ChannelOpen(run[k + 1])
  {
    RunSound(run, k);
    assert NextAt(run, k);
    var st :| Enabled(run[k], st) && run[k + 1] == Apply(run[k], st);
    ClosedStaysClosed(run[k], st);
  }

  /** Once the channel is closed, nothing is accepted any more. */
  lemma {:induction false} NothingAcceptedAfterClose(run: seq<State>, i: nat, j: nat)
    requires IsRun(run) && i <= j < |run| && !ChannelOpen(run[i])
    ensures run[j].accepted == run[i].accepted && !ChannelOpen(run[j])
  {
    if i < j {
      NothingAcceptedAfterClose(run, i, j - 1);
      StepAfterClose(run, j - 1);
    }
  }

  /** The reply send never blocks a worker: its buffer is free, so a worker that
      has run its targets can always go on. */
  lemma ReplyNeverBlocks(run: seq<State>, k: nat, w: nat)
    requires IsRun(run) && k < |run| && DoneHandling(run[k], w)
    ensures ReplyBuffer(run[k], run[k].workers[w].ticket) == [] && Enabled(run[k], SendReply(w))
  {
    RunSound(run, k);
  }

  /** Dropped counts the refusals for saturation and no others. */
  lemma DroppedCountsSaturation(run: seq<State>, k: nat)
    requires IsRun(run) && k < |run|
    ensures run[k].dropped == CountSaturated(run[k].refusals) == multiset(run[k].refusals)[Saturated]
    ensures |run[k].queue| <= 1024
  {
    RunSound(run, k);
    CountIsMultiplicity(run[k].refusals);
  }

  lemma {:induction false} CountIsMultiplicity(refusals: seq<Refusal>)
    ensures CountSaturated(refusals) == multiset(refusals)[Saturated]
  {
    if refusals != [] {
      var n := |refusals| - 1;
      CountIsMultiplicity(refusals[..n]);
      assert refusals == refusals[..n] + [refusals[n]];
    }
  }

  /** When every worker has left, every accepted event is finished. */
  lemma DrainedCloseFinishedAll(run: seq<State>, k: nat, t: nat)
    requires IsRun(run) && k < |run|
    requires run[k].workers != map[] && forall w :: w in run[k].workers ==> run[k].workers[w].Exited?
    requires t < |run[k].accepted|
    ensures !ChannelOpen(run[k]) && t in run[k].finished && |run[k].accepted| == |run[k].finished|
  {
    RunSound(run, k);
    var s := run[k];
    var w :| w in s.workers;
    assert BusyWorkers(s) == {};
    assert t in s.queue || InWorker(s, t) || t in s.finished;
  }

  // ---------------------------------------------------------------- which subscriptions

  // Every subscription of h is still in h'.
  predicate Within(h: Handlers, h': Handlers) {
    forall p :: p in h ==> p in h' && h[p] <= h'[p]
  }

  // Whatever ticket from n on has looked its table up found the subscriptions of h.
  ghost predicate Covers(h: Handlers, n: nat, s: State) {
    && Within(h, s.handlers)
    && (forall w :: w in s.workers && s.workers[w].Running? && n <= s.workers[w].ticket ==>
          Within(h, s.workers[w].table))
    && (forall t :: t in s.finished && n <= t ==> Within(h, s.finished[t].table))
  }

  // From a state on, the subscriptions it has cover what it has not accepted yet.
  lemma CoversNow(s: State)
    requires Invariant(s)
    ensures Covers(s.handlers, |s.accepted|, s)
  {
  }

  lemma CoversKept(h: Handlers, n: nat, s: State, st: Step)
    requires Covers(h, n, s) && Enabled(s, st)
    ensures Covers(h, n, Apply(s, st))
  {
  }

  // The looked-up tables are among these, each seen when its ticket was accepted.
  ghost predicate TablesAmong(seen: set<(nat, Handlers)>, s: State) {
    && (forall w :: w in s.workers && s.workers[w].Running? ==> Seen(seen, s.workers[w].ticket, s.workers[w].table))
    && (forall t :: t in s.finished ==> Seen(seen, t, s.finished[t].table))
  }

  predicate Seen(seen: set<(nat, Handlers)>, t: nat, table: Handlers) {
    exists x :: x in seen && t < x.0 && x.1 == table
  }

  predicate TookAccepted(s: State) {
    forall w :: w in s.workers && s.workers[w].Took? ==> s.workers[w].ticket < |s.accepted|
  }

  lemma PlacedIsAccepted(s: State)
    requires TicketsPlaced(s)
    ensures TookAccepted(s)
  {
  }

  lemma TablesKept(seen: set<(nat, Handlers)>, s: State, st: Step)
    requires TablesAmong(seen, s) && (|s.accepted|, s.handlers) in seen && Enabled(s, st)
    requires TookAccepted(s)
    ensures TablesAmong(seen, Apply(s, st))
  {
    match st
    case Route(w) =>
      assert (|s.accepted|, s.handlers).1 == Apply(s, st).workers[w].table;
    case SendReply(w) =>
      assert Seen(seen, s.workers[w].ticket, s.workers[w].table);
    case _ =>
  }

  lemma TablesGrow(seen: set<(nat, Handlers)>, more: set<(nat, Handlers)>, s: State)
    requires TablesAmong(seen, s) && seen <= more
    ensures TablesAmong(more, s)
  {
  }

  // A publisher's event, if accepted, was so after n others.
  predicate AcceptedFrom(n: nat, pub: Publisher) {
    match pub
    case Leaving(_, Accepted(t)) => n <= t
    case Waiting(_, t) => n <= t
    case Gone(_, Accepted(t)) => n <= t
    case Gone(_, Answered(t, _)) => n <= t
    case Gone(_, GaveUp(t)) => n <= t
    case _ => true
  }

  lemma AcceptedGrows(s: State, st: Step)
    requires Enabled(s, st)
    ensures s.accepted <= Apply(s, st).accepted
  {
  }

  lemma AcceptedFromKept(n: nat, p: nat, s: State, st: Step)
    requires Enabled(s, st) && n <= |s.accepted|
    requires p in s.pubs && AcceptedFrom(n, s.pubs[p]) && VerdictSound(s, s.pubs[p])
    ensures p in Apply(s, st).pubs && AcceptedFrom(n, Apply(s, st).pubs[p]) && n <= |Apply(s, st).accepted|
  {
  }

  // Subscription x to pattern was called as often as routing says: at least once if the
  // pattern matches, and just once unless the type's last segment is "*".
  ghost predicate Reached(f: Finish, eventType: string, pattern: string, x: nat) {
    var calls := Targets(f.table, eventType);
    && |f.outcomes| == |calls|
    && multiset(calls)[x] == Calls(pattern, eventType)
    && (Matches(pattern, eventType) ==> x in calls)
    && (Matches(pattern, eventType) && LastSegment(eventType) != "*" ==> multiset(calls)[x] == 1)
  }

  // Every call of x returned.
  predicate ReturnedEach(f: Finish, eventType: string, x: nat)
    requires |f.outcomes| == |Targets(f.table, eventType)|
  {
    forall n :: 0 <= n < |f.outcomes| && Targets(f.table, eventType)[n] == x ==> f.outcomes[n].Returned?
  }

  // So is every subscription of a covered table.
  lemma ReachedByTable(h: Handlers, f: Finish, eventType: string, pattern: string, x: nat)
    requires Within(h, f.table) && TableSound(f.table) && pattern in h && x in h[pattern]
    requires |f.outcomes| == |Targets(f.table, eventType)|
    ensures Reached(f, eventType, pattern, x)
  {
    assert x in f.table[pattern];
    RoutingCount(f.table, eventType, pattern, x);
    CallsIfMatches(pattern, eventType);
    if LastSegment(eventType) != "*" {
      CallsOnce(pattern, eventType);
    }
  }

  lemma RunStepCovers(run: seq<State>, h: Handlers, n: nat, k: nat)
    requires IsRun(run) && k + 1 < |run| && Covers(h, n, run[k])
    ensures Covers(h, n, run[k + 1])
  {
    assert NextAt(run, k);
    var st :| Enabled(run[k], st) && run[k + 1] == Apply(run[k], st);
    CoversKept(h, n, run[k], st);
  }

  lemma {:induction false} RunCovers(run: seq<State>, i: nat, k: nat, s: State)
    requires IsRun(run) && i <= k < |run| && s == run[k]
    ensures Covers(run[i].handlers, |run[i].accepted|, s)
  {
    if i == k {
      RunSound(run, i);
      CoversNow(run[i]);
    } else {
      RunCovers(run, i, k - 1, run[k - 1]);
      RunStepCovers(run, run[i].handlers, |run[i].accepted|, k - 1);
    }
  }

  // The tables of the first k + 1 states.
  function SeenBy(run: seq<State>, k: nat): set<(nat, Handlers)>
    requires k < |run|
  {
    set i: nat | i <= k :: (|run[i].accepted|, run[i].handlers)
  }

  lemma RunStepTables(run: seq<State>, k: nat)
    requires IsRun(run) && k + 1 < |run| && TablesAmong(SeenBy(run, k), run[k])
    ensures TablesAmong(SeenBy(run, k), run[k + 1])
  {
    RunSound(run, k);
    PlacedIsAccepted(run[k]);
    assert NextAt(run, k);
    var st :| Enabled(run[k], st) && run[k + 1] == Apply(run[k], st);
    TablesKept(SeenBy(run, k), run[k], st);
  }

  lemma {:induction false} RunTables(run: seq<State>, k: nat, s: State)
    requires IsRun(run) && k < |run| && s == run[k]
    ensures TablesAmong(SeenBy(run, k), s)
  {
    if k > 0 {
      RunTables(run, k - 1, run[k - 1]);
      RunStepTables(run, k - 1);
      TablesGrow(SeenBy(run, k - 1), SeenBy(run, k), s);
    }
  }

  /** A finished event had every target called, one after the other whatever the
      earlier ones did, and what its publisher was told is the first failure. The
      targets are those of the subscriptions at some moment after the event was
      accepted, which include all that were there at any moment before. */
  lemma FinishedRanEveryTarget(run: seq<State>, k: nat, p: nat, t: nat, x: Option<string>) returns (m: nat)
    requires IsRun(run) && k < |run|
    requires p in run[k].pubs && run[k].pubs[p].Gone? && run[k].pubs[p].verdict == Answered(t, x)
    ensures var s := run[k];
            && t < |s.accepted| && s.accepted[t] == s.pubs[p].job && t in s.finished
            && TableSound(s.finished[t].table)
            && |s.finished[t].outcomes| == |Targets(s.finished[t].table, s.accepted[t].event.eventType)|
            && x == FirstError(s.finished[t].outcomes)
            && (x == None <==> AllReturned(s.finished[t].outcomes))
    ensures m <= k && t < |run[m].accepted| && run[k].finished[t].table == run[m].handlers
    ensures forall i: nat :: i <= k && |run[i].accepted| <= t ==> Within(run[i].handlers, run[k].finished[t].table)
  {
    RunSound(run, k);
    var s := run[k];
    assert VerdictSound(s, s.pubs[p]);
    assert FinishSound(s, t);
    NilMeansAllReturned(s.finished[t].outcomes);
    RunTables(run, k, s);
    var seen :| seen in SeenBy(run, k) && t < seen.0 && seen.1 == s.finished[t].table;
    m :| m <= k && seen == (|run[m].accepted|, run[m].handlers);
    forall i: nat | i <= k && |run[i].accepted| <= t ensures Within(run[i].handlers, s.finished[t].table) {
      RunCovers(run, i, k, s);
    }
  }

  /** So every subscription made before the event was accepted is called for it as often
      as routing says, and each call returns if the answer is nil. */
  lemma EarlierSubscriberReached(run: seq<State>, k: nat, p: nat, t: nat, x: Option<string>,
                                 i: nat, pattern: string, h: nat)
    requires IsRun(run) && k < |run|
    requires p in run[k].pubs && run[k].pubs[p].Gone? && run[k].pubs[p].verdict == Answered(t, x)
    requires i <= k && |run[i].accepted| <= t && pattern in run[i].handlers && h in run[i].handlers[pattern]
    ensures t in run[k].finished
    ensures Reached(run[k].finished[t], run[k].pubs[p].job.event.eventType, pattern, h)
    ensures x == None ==> ReturnedEach(run[k].finished[t], run[k].pubs[p].job.event.eventType, h)
  {
    var m := FinishedRanEveryTarget(run, k, p, t, x);
    ReachedByTable(run[i].handlers, run[k].finished[t], run[k].pubs[p].job.event.eventType, pattern, h);
  }
}
