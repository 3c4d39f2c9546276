/**
  Finalize is keyed by id alone. What a late one does when nobody has taken the row,
  and a run in which somebody has.
 */
module IdempotencyLate {
  import opened Wrappers
  import opened ClaimStore
  import opened Idempotency

  /** A finalize in time, or late on the finalizer's own claim or on a row that is gone,
      leaves alone the row of every other live owner and of every success still in
      its window. */
  lemma OwnFinalizeSparesOthers(s: State, c: nat, contentType: string)
    requires Invariant(s) && Enabled(s, FinalizeStep(c, contentType))
    ensures var t' := AfterFinalizeStep(s, c, contentType).table;
            && (forall d :: Live(s, d) && d != c ==> Same(s.table, t', s.clients[d].id))
            && (forall i :: 0 <= i < |s.log| && s.log[i].Finished? && s.clock < s.log[i].req.expiresAt ==>
                  Same(s.table, t', s.log[i].id))
  {
    var cl := s.clients[c];
    assert ClientSound(s.table, s.clock, cl);
    SuccessfulOutcome(cl.ops, cl.panicked, contentType);
    FinalizeProtects(s, c, RunOutcome(cl.ops, cl.panicked, contentType));
  }

  lemma LateHitsOwnerIff(s: State, c: nat, contentType: string, d: nat)
    requires Invariant(s) && c in s.clients && s.clients[c].Finishing? && Live(s, d) && d != c
    ensures var t' := AfterFinalizeStep(s, c, contentType).table;
            && (!Same(s.table, t', s.clients[d].id) <==> s.clients[d].id == s.clients[c].id)
            && (s.clients[d].id == s.clients[c].id ==>
                  !MayFinalize(s, s.clients[c]) && t'.rows[s.clients[d].id].status != Processing)
  {
    OwnerIsAlone(s, d);
  }

  lemma LateHitsSuccessIff(s: State, c: nat, contentType: string, i: nat)
    requires Invariant(s) && c in s.clients && s.clients[c].Finishing?
    requires i < |s.log| && s.log[i].Finished? && s.clock < s.log[i].req.expiresAt
    ensures var t' := AfterFinalizeStep(s, c, contentType).table;
            && (!Same(s.table, t', s.log[i].id) <==> s.log[i].id == s.clients[c].id)
            && (s.log[i].id == s.clients[c].id ==> !MayFinalize(s, s.clients[c]))
  {
    assert FinishedSound(s, s.log[i]);
    if Live(s, c) {
      OwnerIsAlone(s, c);
    }
  }

  /** A finalize in the code's own form, with no condition, changes a live owner's row or
      that of a success still in its window exactly when it is the finalizer's row too,
      which the condition rules out. The owner then has its claim no more. */
  lemma LateFinalizeHitsIff(s: State, c: nat, contentType: string)
    requires Invariant(s) && c in s.clients && s.clients[c].Finishing?
    ensures var t' := AfterFinalizeStep(s, c, contentType).table;
            var id := s.clients[c].id;
            && (forall d :: Live(s, d) && d != c ==>
                  && (!Same(s.table, t', s.clients[d].id) <==> s.clients[d].id == id)
                  && (s.clients[d].id == id ==> !MayFinalize(s, s.clients[c]) && t'.rows[id].status != Processing))
            && (forall i :: 0 <= i < |s.log| && s.log[i].Finished? && s.clock < s.log[i].req.expiresAt ==>
                  && (!Same(s.table, t', s.log[i].id) <==> s.log[i].id == id)
                  && (s.log[i].id == id ==> !MayFinalize(s, s.clients[c])))
  {
    var t' := AfterFinalizeStep(s, c, contentType).table;
    forall d | Live(s, d) && d != c
      ensures !Same(s.table, t', s.clients[d].id) <==> s.clients[d].id == s.clients[c].id
      ensures s.clients[d].id == s.clients[c].id ==>
                !MayFinalize(s, s.clients[c]) && t'.rows[s.clients[c].id].status != Processing
    {
      LateHitsOwnerIff(s, c, contentType, d);
    }
    forall i | 0 <= i < |s.log| && s.log[i].Finished? && s.clock < s.log[i].req.expiresAt
      ensures !Same(s.table, t', s.log[i].id) <==> s.log[i].id == s.clients[c].id
      ensures s.log[i].id == s.clients[c].id ==> !MayFinalize(s, s.clients[c])
    {
      LateHitsSuccessIff(s, c, contentType, i);
    }
  }

  // ---------------------------------------------------------------- without the assumption

  // The same machine, with finalize at any time.
  predicate LateEnabled(s: State, st: Step) {
    if st.FinalizeStep? then st.c in s.clients && s.clients[st.c].Finishing? else Enabled(s, st)
  }

  function LateApply(s: State, st: Step): State
    requires LateEnabled(s, st)
  {
    if st.FinalizeStep? then AfterFinalizeStep(s, st.c, st.contentType) else Apply(s, st)
  }

  ghost predicate LateNext(s: State, s': State) {
    exists st :: LateEnabled(s, st) && s' == LateApply(s, st)
  }

  ghost predicate LateNextAt(run: seq<State>, i: nat)
    requires i + 1 < |run|
  {
    LateNext(run[i], run[i + 1])
  }

  ghost predicate IsLateRun(run: seq<State>) {
    |run| > 0 && Init(run[0]) && forall i: nat :: i + 1 < |run| ==> LateNextAt(run, i)
  }

  lemma Extend(run: seq<State>, st: Step) returns (longer: seq<State>)
    requires IsLateRun(run) && LateEnabled(run[|run| - 1], st)
    ensures IsLateRun(longer) && longer[|longer| - 1] == LateApply(run[|run| - 1], st)
  {
    longer := run + [LateApply(run[|run| - 1], st)];
    forall i: nat | i + 1 < |longer| ensures LateNextAt(longer, i) {
      if i + 1 < |run| {
        assert LateNextAt(run, i);
      } else {
        assert LateNext(longer[i], longer[i + 1]);
      }
    }
  }

  // A new request finds row 1 expired and takes it over.
  lemma TakeOver(run: seq<State>, c: nat, scope: Scope, hash: string, ttl: int) returns (longer: seq<State>)
    requires IsLateRun(run) && ttl > 0
    requires var s := run[|run| - 1];
             && c !in s.clients && 1 in s.table.rows && s.table.rows[1].scope == scope
             && s.table.rows[1].expiresAt <= s.clock
    ensures var s := run[|run| - 1];
            var req := Request(scope, hash, s.clock + ttl);
            && IsLateRun(longer)
            && longer[|longer| - 1] == Begin(s, c, req, AfterReclaimExpired(s.table, 1, req, s.clock), 1)
  {
    var s := run[|run| - 1];
    var rec := Some(Record(1, s.table.rows[1]));
    longer := Extend(run, Arrive(c, scope, hash, ttl));
    longer := Extend(longer, ClaimStep(c));
    longer := Extend(longer, GetStep(c, rec));
    longer := Extend(longer, DecideStep(c, s.clock));
    longer := Extend(longer, ReclaimStep(c, s.clock));
    var req := Request(scope, hash, s.clock + ttl);
    assert longer[|longer| - 1].clients == s.clients[c := Executing(req, 1, [])];
  }

  // A request that claimed, returned, and is late to finalize.
  lemma SlowOwner(scope: Scope) returns (run: seq<State>)
    ensures IsLateRun(run)
    ensures var req := Request(scope, "a", 10);
            run[|run| - 1] == State(10, Table(map[1 := ClaimRow(req)], 2), map[0 := Finishing(req, 1, [], false)],
                                    [Began(req, 0)])
  {
    run := [State(0, Table(map[], 1), map[], [])];
    run := Extend(run, Arrive(0, scope, "a", 10));
    run := Extend(run, ClaimStep(0));
    run := Extend(run, ReturnStep(0));
    run := Extend(run, Tick(10));
  }

  /** Without the assumption mutual exclusion fails: the late finalize completes the row
      under its new owner with the old deadline, and a third request takes it over
      while the second still executes. */
  lemma LateFinalize(scope: Scope) returns (run: seq<State>)
    ensures IsLateRun(run)
    ensures var s := run[|run| - 1];
            Live(s, 1) && Live(s, 2) && s.clients[1].req.scope == s.clients[2].req.scope == scope
  {
    run := SlowOwner(scope);
    run := TakeOver(run, 1, scope, "b", 20);
    run := Extend(run, FinalizeStep(0, ""));
    var s := run[|run| - 1];
    assert s.table.rows[1].expiresAt == 10;
    run := TakeOver(run, 2, scope, "b", 20);
  }
}
