/**
  The bus's methods and its machine: what an enqueue decides and what one turn of a worker
  does is what the machine's steps come to when nothing else runs in between.
 */
module EventBusSteps {
  import opened Wrappers
  import opened Routing
  import opened EventBus
  import opened EventBusRuns

  // The steps can be taken one after the other and end in s'.
  predicate Leads(s: State, steps: seq<Step>, s': State)
    decreases |steps|
  {
    if steps == [] then s == s' else Enabled(s, steps[0]) && Leads(Apply(s, steps[0]), steps[1..], s')
  }

  lemma {:induction false} LeadsSnoc(s: State, steps: seq<Step>, mid: State, st: Step)
    requires Leads(s, steps, mid) && Enabled(mid, st)
    ensures Leads(s, steps + [st], Apply(mid, st))
    decreases |steps|
  {
    if steps == [] {
      assert [st][1..] == [];
    } else {
      assert (steps + [st])[1..] == steps[1..] + [st];
      LeadsSnoc(Apply(s, steps[0]), steps[1..], mid, st);
    }
  }

  // ---------------------------------------------------------------- publishing

  /** A publisher that holds the lock comes to what Enqueue decides: a ticket at the end of
      the queue, or a refusal with its reason, counted as dropped if it is saturation. */
  lemma EnqueueIsSteps(s: State, p: nat, ctxDone: bool, picksDone: bool) returns (steps: seq<Step>)
    requires p in s.pubs && s.pubs[p].Inside?
    ensures var job, verdict := s.pubs[p].job, Admission(ClosedFlag(s), |s.queue|, ctxDone, picksDone);
            Leads(s, steps,
                  if verdict == None then
                    s.(pubs := s.pubs[p := Leaving(job, Accepted(|s.accepted|))], accepted := s.accepted + [job],
                       queue := s.queue + [|s.accepted|])
                  else
                    s.(pubs := s.pubs[p := Leaving(job, Refused(verdict.value))],
                       refusals := s.refusals + [verdict.value],
                       dropped := s.dropped + if verdict == Some(Saturated) then 1 else 0))
  {
    var verdict := Admission(ClosedFlag(s), |s.queue|, ctxDone, picksDone);
    var checked := Apply(s, Check(p));
    if ClosedFlag(s) {
      steps := [Check(p)];
      assert steps[1..] == [];
      assert Leads(checked, [], checked);
    } else {
      var st := if verdict == None then Accept(p) else if verdict == Some(ContextDone) then Cancel(p) else Saturate(p);
      steps := [Check(p), st];
      assert steps[1..] == [st] && [st][1..] == [];
      assert Enabled(checked, st);
      var after := Apply(checked, st);
      assert Leads(after, [], after);
      assert Leads(checked, [st], after);
      assert checked.pubs[p := after.pubs[p]] == s.pubs[p := after.pubs[p]];
    }
  }

  // ---------------------------------------------------------------- working

  // Worker w has run the first n targets.
  function Handling(s: State, w: nat, outcomes: seq<Outcome>, n: nat): State
    requires s.queue != [] && n <= |outcomes|
  {
    s.(queue := s.queue[1..], workers := s.workers[w := Running(s.queue[0], s.handlers, outcomes[..n])])
  }

  predicate MayTurn(s: State, w: nat, outcomes: seq<Outcome>) {
    && w in s.workers && s.workers[w].Idle? && s.queue != [] && s.queue[0] < |s.accepted|
    && |outcomes| == |Targets(s.handlers, s.accepted[s.queue[0]].event.eventType)|
    && ReplyBuffer(s, s.queue[0]) == []
  }

  lemma StartTurn(s: State, w: nat, outcomes: seq<Outcome>)
    requires MayTurn(s, w, outcomes)
    ensures Leads(s, [Take(w), Route(w)], Handling(s, w, outcomes, 0))
  {
    var took := Apply(s, Take(w));
    var routed := Apply(took, Route(w));
    assert took.workers[w := routed.workers[w]] == s.workers[w := routed.workers[w]];
    assert routed == Handling(s, w, outcomes, 0);
    assert [Take(w), Route(w)][1..] == [Route(w)] && [Route(w)][1..] == [];
    assert Leads(routed, [], routed) && Leads(took, [Route(w)], routed);
  }

  lemma HandleNext(s: State, w: nat, outcomes: seq<Outcome>, n: nat)
    requires MayTurn(s, w, outcomes) && n < |outcomes|
    ensures Enabled(Handling(s, w, outcomes, n), Handle(w, outcomes[n]))
    ensures Apply(Handling(s, w, outcomes, n), Handle(w, outcomes[n])) == Handling(s, w, outcomes, n + 1)
  {
    var h, m := Handling(s, w, outcomes, n), Handling(s, w, outcomes, n + 1);
    assert outcomes[..n + 1] == outcomes[..n] + [outcomes[n]];
    assert h.workers[w := m.workers[w]] == m.workers;
  }

  lemma {:induction false} HandleAll(s: State, w: nat, outcomes: seq<Outcome>, n: nat) returns (steps: seq<Step>)
    requires MayTurn(s, w, outcomes) && n <= |outcomes|
    ensures Leads(s, steps, Handling(s, w, outcomes, n))
  {
    if n == 0 {
      steps := [Take(w), Route(w)];
      StartTurn(s, w, outcomes);
    } else {
      steps := HandleAll(s, w, outcomes, n - 1);
      HandleNext(s, w, outcomes, n - 1);
      LeadsSnoc(s, steps, Handling(s, w, outcomes, n - 1), Handle(w, outcomes[n - 1]));
      steps := steps + [Handle(w, outcomes[n - 1])];
    }
  }

  // After the turn the worker is idle again and the oldest event is finished.
  function AfterTurn(s: State, w: nat, outcomes: seq<Outcome>): State
    requires MayTurn(s, w, outcomes)
  {
    var t := s.queue[0];
    s.(queue := s.queue[1..], finished := s.finished[t := Finish(s.handlers, outcomes)],
       replies := if s.accepted[t].wants then s.replies[t := [FirstError(outcomes)]] else s.replies)
  }

  lemma EndTurn(s: State, w: nat, outcomes: seq<Outcome>)
    requires MayTurn(s, w, outcomes)
    ensures Enabled(Handling(s, w, outcomes, |outcomes|), SendReply(w))
    ensures Apply(Handling(s, w, outcomes, |outcomes|), SendReply(w)) == AfterTurn(s, w, outcomes)
  {
    var h := Handling(s, w, outcomes, |outcomes|);
    assert outcomes[..|outcomes|] == outcomes;
    assert h.workers[w := Idle] == s.workers;
    assert [] + [FirstError(outcomes)] == [FirstError(outcomes)];
  }

  /** One turn of a worker, as Work takes it: the oldest event leaves the queue, every target
      of the subscriptions there are is run, and a publisher that waits is sent the first
      error. */
  lemma WorkIsSteps(s: State, w: nat, outcomes: seq<Outcome>) returns (steps: seq<Step>)
    requires MayTurn(s, w, outcomes)
    ensures Leads(s, steps, AfterTurn(s, w, outcomes))
  {
    steps := HandleAll(s, w, outcomes, |outcomes|);
    EndTurn(s, w, outcomes);
    LeadsSnoc(s, steps, Handling(s, w, outcomes, |outcomes|), SendReply(w));
    steps := steps + [SendReply(w)];
  }

  // ---------------------------------------------------------------- waiting

  /** Having left the lock, a publisher that was accepted waits if it wants an answer; any
      other is done with its verdict. */
  lemma LeaveIsStep(s: State, p: nat)
    requires p in s.pubs && s.pubs[p].Leaving?
    ensures var job, v := s.pubs[p].job, s.pubs[p].verdict;
            Leads(s, [RUnlock(p)], Place(s, p, if v.Accepted? && job.wants then Waiting(job, v.ticket)
                                               else Gone(job, v)))
  {
    var after := Apply(s, RUnlock(p));
    assert [RUnlock(p)][1..] == [];
    assert Leads(after, [], after);
  }

  /** PublishAndWait: the publisher whose event a worker takes a turn on is answered with the
      first failure of its targets, nil if there was none. */
  lemma AnswerIsSteps(s: State, w: nat, p: nat, outcomes: seq<Outcome>) returns (steps: seq<Step>, s': State)
    requires MayTurn(s, w, outcomes) && s.accepted[s.queue[0]].wants
    requires p in s.pubs && s.pubs[p].Waiting? && s.pubs[p].ticket == s.queue[0]
    ensures Leads(s, steps, s')
    ensures s'.pubs == s.pubs[p := Gone(s.pubs[p].job, Answered(s.queue[0], FirstError(outcomes)))]
    ensures s'.finished == s.finished[s.queue[0] := Finish(s.handlers, outcomes)] && s'.queue == s.queue[1..]
    ensures s'.replies == s.replies[s.queue[0] := []]
  {
    steps := WorkIsSteps(s, w, outcomes);
    var mid := AfterTurn(s, w, outcomes);
    LeadsSnoc(s, steps, mid, Receive(p));
    steps := steps + [Receive(p)];
    s' := Apply(mid, Receive(p));
    assert [FirstError(outcomes)][1..] == [];
  }
}
