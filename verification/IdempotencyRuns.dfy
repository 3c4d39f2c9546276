/**
  What the idempotency protocol guarantees over every run: one unexpired
  execution per scope, nothing re-executed while a success is remembered, and
  replays that repeat a real execution byte for byte.
 */
module IdempotencyRuns {
  import opened Wrappers
  import opened ResponseCapture
  import opened ClaimStore
  import opened Idempotency

  ghost predicate Next(s: State, s': State) {
    exists st :: Enabled(s, st) && s' == Apply(s, st)
  }

  ghost predicate NextAt(run: seq<State>, i: nat)
    requires i + 1 < |run|
  {
    Next(run[i], run[i + 1])
  }

  ghost predicate IsRun(run: seq<State>) {
    |run| > 0 && Init(run[0]) && forall i: nat :: i + 1 < |run| ==> NextAt(run, i)
  }

  // ------------------------------------------------------- where replays come from

  // The row a success left in the table.
  function RowOf(e: Event): Row
    requires e.Finished?
  {
    Row(e.req.scope, e.req.hash, Completed, Some(e.response), e.req.expiresAt)
  }

  predicate FromRun(log: seq<Event>, r: Row) {
    exists i :: 0 <= i < |log| && log[i].Finished? && RowOf(log[i]) == r
  }

  predicate RowFromRun(log: seq<Event>, r: Row) {
    r.status == Completed ==> FromRun(log, r)
  }

  ghost predicate ReplayFromRun(log: seq<Event>, j: nat)
    requires j < |log| && log[j].Replayed?
  {
    exists r :: FromRun(log[..j], r) && RepeatsRow(log[j], r)
  }

  predicate RepeatsRow(e: Event, r: Row)
    requires e.Replayed?
  {
    e.req.scope == r.scope && e.req.hash == r.hash && r.response.Some?
    && e.response == ReplayResponse(r.response.value)
  }

  ghost predicate Provenance(s: State) {
    && (forall id :: id in s.table.rows ==> RowFromRun(s.log, s.table.rows[id]))
    && (forall c :: c in s.clients && s.clients[c].Looked? && s.clients[c].rec.Some? ==>
          RowFromRun(s.log, s.clients[c].rec.value.row))
    && (forall j :: 0 <= j < |s.log| && s.log[j].Replayed? ==> ReplayFromRun(s.log, j))
  }

  lemma RowFromRunGrows(log: seq<Event>, news: seq<Event>, r: Row)
    requires RowFromRun(log, r)
    ensures RowFromRun(log + news, r)
  {
    if r.status == Completed {
      var i :| 0 <= i < |log| && log[i].Finished? && RowOf(log[i]) == r;
      assert (log + news)[i] == log[i];
    }
  }

  // The log only grows, and what it explained it still explains.
  lemma ProvenanceGrows(s: State, s': State, news: seq<Event>)
    requires Provenance(s) && s'.log == s.log + news
    requires forall i :: 0 <= i < |news| ==> !news[i].Replayed?
    requires forall id :: id in s'.table.rows ==>
               (id in s.table.rows && s'.table.rows[id] == s.table.rows[id]) || RowFromRun(s'.log, s'.table.rows[id])
    requires forall c :: c in s'.clients && s'.clients[c].Looked? && s'.clients[c].rec.Some? ==>
               (c in s.clients && s'.clients[c] == s.clients[c]) || RowFromRun(s'.log, s'.clients[c].rec.value.row)
    ensures Provenance(s')
  {
    forall id | id in s'.table.rows ensures RowFromRun(s'.log, s'.table.rows[id]) {
      if id in s.table.rows && s'.table.rows[id] == s.table.rows[id] {
        RowFromRunGrows(s.log, news, s.table.rows[id]);
      }
    }
    forall c | c in s'.clients && s'.clients[c].Looked? && s'.clients[c].rec.Some?
      ensures RowFromRun(s'.log, s'.clients[c].rec.value.row)
    {
      if c in s.clients && s'.clients[c] == s.clients[c] {
        RowFromRunGrows(s.log, news, s.clients[c].rec.value.row);
      }
    }
    OldReplays(s, s', news);
  }

  lemma OldReplays(s: State, s': State, news: seq<Event>)
    requires Provenance(s) && s'.log == s.log + news
    requires forall i :: 0 <= i < |news| ==> !news[i].Replayed?
    ensures forall j :: 0 <= j < |s'.log| && s'.log[j].Replayed? ==> ReplayFromRun(s'.log, j)
  {
    assert forall n :: |s.log| <= n < |s'.log| ==> s'.log[n] == news[n - |s.log|];
    forall j | 0 <= j < |s'.log| && s'.log[j].Replayed? ensures ReplayFromRun(s'.log, j) {
      assert ReplayFromRun(s.log, j);
      assert s'.log[..j] == s.log[..j];
    }
  }

  lemma ReplayStepSourced(s: State, c: nat, at: int)
    requires Invariant(s) && Provenance(s) && Enabled(s, DecideStep(c, at))
    requires Decide(s.clients[c].rec, s.clients[c].req, at).ReplayOf?
    ensures Provenance(AfterDecideStep(s, c, at))
  {
    var cl := s.clients[c];
    assert ClientSound(s.table, s.clock, cl);
    var row := cl.rec.value.row;
    assert RowFromRun(s.log, row);
    var s' := AfterDecideStep(s, c, at);
    var mid := s'.(log := s.log);
    assert s.log + [] == s.log;
    ProvenanceGrows(s, mid, []);
    forall id | id in s'.table.rows ensures RowFromRun(s'.log, s'.table.rows[id]) {
      RowFromRunGrows(s.log, s'.log[|s.log|..], s.table.rows[id]);
    }
    forall d | d in s'.clients && s'.clients[d].Looked? && s'.clients[d].rec.Some?
      ensures RowFromRun(s'.log, s'.clients[d].rec.value.row)
    {
      RowFromRunGrows(s.log, s'.log[|s.log|..], s.clients[d].rec.value.row);
    }
    forall j | 0 <= j < |s'.log| && s'.log[j].Replayed? ensures ReplayFromRun(s'.log, j) {
      assert s'.log[..j] == s.log[..j];
      if j < |s.log| {
        assert ReplayFromRun(s.log, j);
      } else {
        assert s.log[..j] == s.log;
        assert FromRun(s'.log[..j], row) && RepeatsRow(s'.log[j], row);
      }
    }
  }

  lemma FinalizeSourced(s: State, c: nat, contentType: string)
    requires Invariant(s) && Provenance(s) && Enabled(s, FinalizeStep(c, contentType))
    ensures Provenance(AfterFinalizeStep(s, c, contentType))
  {
    var cl := s.clients[c];
    var s' := AfterFinalizeStep(s, c, contentType);
    var res := RunOutcome(cl.ops, cl.panicked, contentType);
    var news := if res.Aborted? || cl.id !in s.table.rows then []
                else [Finished(cl.req, s.clock, cl.id, cl.ops, res.response)];
    if res.Success? && cl.id in s.table.rows {
      FinalizerIsAlone(s, c);
      assert RowOf(s'.log[|s.log|]) == s'.table.rows[cl.id];
    }
    ProvenanceGrows(s, s', news);
  }

  lemma DecideSourced(s: State, c: nat, at: int)
    requires Invariant(s) && Provenance(s) && Enabled(s, DecideStep(c, at))
    ensures Provenance(AfterDecideStep(s, c, at))
  {
    if Decide(s.clients[c].rec, s.clients[c].req, at).ReplayOf? {
      ReplayStepSourced(s, c, at);
    } else {
      var s' := AfterDecideStep(s, c, at);
      assert s.log + [] == s.log;
      ProvenanceGrows(s, s', s'.log[|s.log|..]);
    }
  }

  lemma ReclaimSourced(s: State, c: nat, at: int)
    requires Invariant(s) && Provenance(s) && Enabled(s, ReclaimStep(c, at))
    ensures Provenance(AfterReclaimStep(s, c, at))
  {
    assert ClientSound(s.table, s.clock, s.clients[c]);
    var s' := AfterReclaimStep(s, c, at);
    ProvenanceGrows(s, s', s'.log[|s.log|..]);
  }

  lemma ClaimSourced(s: State, c: nat)
    requires Invariant(s) && Provenance(s) && Enabled(s, ClaimStep(c))
    ensures Provenance(AfterClaimStep(s, c))
  {
    var s' := AfterClaimStep(s, c);
    assert s.log + [] == s.log;
    ProvenanceGrows(s, s', s'.log[|s.log|..]);
  }

  lemma StepSourced(s: State, st: Step)
    requires Invariant(s) && Provenance(s) && Enabled(s, st)
    ensures Provenance(Apply(s, st))
  {
    match st
    case ClaimStep(c) => ClaimSourced(s, c);
    case DecideStep(c, at) => DecideSourced(s, c, at);
    case FinalizeStep(c, ct) => FinalizeSourced(s, c, ct);
    case ReclaimStep(c, at) => ReclaimSourced(s, c, at);
    case _ =>
      assert s.log + [] == s.log;
      ProvenanceGrows(s, Apply(s, st), []);
  }

  lemma NextSound(s: State, s': State)
    requires Invariant(s) && Provenance(s) && Next(s, s')
    ensures Invariant(s') && Provenance(s')
  {
    var st :| Enabled(s, st) && s' == Apply(s, st);
    StepKeeps(s, st);
    StepSourced(s, st);
  }

  lemma RunStepSound(run: seq<State>, k: nat)
    requires IsRun(run) && k + 1 < |run| && Invariant(run[k]) && Provenance(run[k])
    ensures Invariant(run[k + 1]) && Provenance(run[k + 1])
  {
    assert NextAt(run, k);
    NextSound(run[k], run[k + 1]);
  }

  lemma {:induction false} StateSound(run: seq<State>, k: nat, s: State)
    requires IsRun(run) && k < |run| && s == run[k]
    ensures Invariant(s) && Provenance(s)
  {
    if k > 0 {
      StateSound(run, k - 1, run[k - 1]);
      RunStepSound(run, k - 1);
    }
  }

  lemma RunSound(run: seq<State>, k: nat)
    requires IsRun(run) && k < |run|
    ensures Invariant(run[k]) && Provenance(run[k])
  {
    StateSound(run, k, run[k]);
  }

  // ---------------------------------------------------------------- theorems

  /** Mutual exclusion: two requests of one scope never execute at once under
      unexpired claims, and the row of the one that does is its claim. */
  lemma MutualExclusion(run: seq<State>, k: nat, c: nat, d: nat)
    requires IsRun(run) && k < |run|
    requires Live(run[k], c) && Live(run[k], d)
    requires run[k].clients[c].req.scope == run[k].clients[d].req.scope
    ensures c == d
    ensures var s := run[k];
            var cl := s.clients[c];
            cl.id in s.table.rows
            && s.table.rows[cl.id] == Row(cl.req.scope, cl.req.hash, Processing, None, cl.req.expiresAt)
  {
    RunSound(run, k);
    OwnerIsAlone(run[k], c);
    OwnerIsAlone(run[k], d);
  }

  // Row id is untouched and no run of its scope has begun in between.
  predicate WindowKept(s: State, s': State, id: nat)
    requires id in s.table.rows
  {
    && s.clock <= s'.clock
    && Same(s.table, s'.table, id)
    && s.log <= s'.log
    && forall n :: |s.log| <= n < |s'.log| && s'.log[n].Began? ==> s'.log[n].req.scope != s.table.rows[id].scope
  }

  lemma WindowStep(s: State, s': State, id: nat)
    requires Invariant(s) && Next(s, s')
    requires id in s.table.rows && s.table.rows[id].status == Completed
    ensures s'.clock < s.table.rows[id].expiresAt ==> WindowKept(s, s', id)
  {
    var st :| Enabled(s, st) && s' == Apply(s, st);
    WindowStepBy(s, st, id);
  }

  lemma WindowStepBy(s: State, st: Step, id: nat)
    requires Invariant(s) && Enabled(s, st)
    requires id in s.table.rows && s.table.rows[id].status == Completed
    ensures Apply(s, st).clock < s.table.rows[id].expiresAt ==> WindowKept(s, Apply(s, st), id)
  {
    match st
    case FinalizeStep(c, _) =>
      if s.clients[c].id in s.table.rows {
        FinalizerIsAlone(s, c);
      }
    case ReclaimStep(c, at) =>
      assert ClientSound(s.table, s.clock, s.clients[c]);
    case _ =>
  }

  lemma WindowChain(a: State, b: State, c: State, id: nat)
    requires id in a.table.rows && WindowKept(a, b, id) && WindowKept(b, c, id)
    ensures WindowKept(a, c, id)
  {
    forall n | |a.log| <= n < |c.log| && c.log[n].Began? ensures c.log[n].req.scope != a.table.rows[id].scope {
      assert n < |b.log| ==> c.log[n] == b.log[n];
    }
  }

  lemma ClockStep(s: State, s': State)
    requires Next(s, s')
    ensures s.clock <= s'.clock
  {
  }

  /** Once completed, a scope stays completed until its deadline: the record is
      untouched and no handler run of the scope begins, whatever stale reads the
      requests act on. */
  lemma {:induction false} CompletedWindowHolds(run: seq<State>, i: nat, j: nat, id: nat)
    requires IsRun(run) && i <= j < |run|
    requires id in run[i].table.rows && run[i].table.rows[id].status == Completed
    requires run[j].clock < run[i].table.rows[id].expiresAt
    ensures WindowKept(run[i], run[j], id)
  {
    if i < j {
      assert NextAt(run, j - 1);
      ClockStep(run[j - 1], run[j]);
      CompletedWindowHolds(run, i, j - 1, id);
      RunSound(run, j - 1);
      WindowStep(run[j - 1], run[j], id);
      WindowChain(run[i], run[j - 1], run[j], id);
    }
  }

  /** The recorded successes of one scope are spaced: each holds the time from its own
      moment to its deadline alone, and no run even begins in it. */
  lemma OneSuccessPerWindow(run: seq<State>, k: nat, i: nat, j: nat)
    requires IsRun(run) && k < |run|
    requires i < j < |run[k].log|
    requires run[k].log[i].Finished? && run[k].log[i].req.scope == run[k].log[j].req.scope
    requires run[k].log[j].Finished? || run[k].log[j].Began?
    ensures run[k].log[i].req.expiresAt <= run[k].log[j].at && run[k].log[i].at <= run[k].log[j].at
  {
    RunSound(run, k);
    assert FinishedSound(run[k], run[k].log[i]);
    assert Spaced(run[k].log[i], run[k].log[j]);
  }

  // e is a success of the scope whose deadline is still ahead.
  predicate HoldsNow(s: State, e: Event, scope: Scope) {
    e.Finished? && e.req.scope == scope && s.clock < e.req.expiresAt
  }

  /** A remembered success is the work of exactly one execution. */
  lemma ExactlyOneSuccess(run: seq<State>, k: nat, id: nat) returns (i: nat)
    requires IsRun(run) && k < |run|
    requires id in run[k].table.rows && run[k].table.rows[id].status == Completed
    requires run[k].clock < run[k].table.rows[id].expiresAt
    ensures i < |run[k].log| && run[k].log[i].Finished? && RowOf(run[k].log[i]) == run[k].table.rows[id]
    ensures forall j | 0 <= j < |run[k].log| && HoldsNow(run[k], run[k].log[j], run[k].table.rows[id].scope) :: j == i
  {
    RunSound(run, k);
    var log := run[k].log;
    assert RowFromRun(log, run[k].table.rows[id]);
    i :| 0 <= i < |log| && log[i].Finished? && RowOf(log[i]) == run[k].table.rows[id];
    forall j | 0 <= j < |log| && HoldsNow(run[k], log[j], run[k].table.rows[id].scope) ensures j == i
    {
      assert FinishedSound(run[k], log[i]) && FinishedSound(run[k], log[j]);
      assert Spaced(log[i], log[j]) || Spaced(log[j], log[i]) || i == j;
    }
  }

  /** Every replay repeats an earlier execution of the same scope and payload:
      the status and body are those its handler sent to its own client. */
  lemma ReplayFidelity(run: seq<State>, k: nat, j: nat) returns (i: nat)
    requires IsRun(run) && k < |run| && j < |run[k].log| && run[k].log[j].Replayed?
    ensures i < j && run[k].log[i].Finished?
    ensures run[k].log[i].req.scope == run[k].log[j].req.scope
    ensures run[k].log[i].req.hash == run[k].log[j].req.hash
    ensures FinishCapture(Play(run[k].log[i].ops)).wire
            == Wire(run[k].log[j].response.status, run[k].log[j].response.body)
    ensures run[k].log[j].response.status == FirstStatus(run[k].log[i].ops)
    ensures run[k].log[j].response.body == AllWrites(run[k].log[i].ops)
  {
    RunSound(run, k);
    var log := run[k].log;
    assert ReplayFromRun(log, j);
    var r :| FromRun(log[..j], r) && RepeatsRow(log[j], r);
    i :| 0 <= i < j && log[..j][i].Finished? && RowOf(log[..j][i]) == r;
    assert FinishedSound(run[k], log[i]);
    CaptureIsFaithful(log[i].ops);
  }

  /** A reclaim leaves nothing of the previous owner behind. */
  lemma NothingSurvivesReclaim(run: seq<State>, k: nat, c: nat, at: int)
    requires IsRun(run) && k < |run| && Enabled(run[k], ReclaimStep(c, at))
    ensures var s' := Apply(run[k], ReclaimStep(c, at));
            var cl := run[k].clients[c];
            s'.clients[c].Executing? ==>
              cl.id in s'.table.rows
              && s'.table.rows[cl.id] == Row(cl.req.scope, cl.req.hash, Processing, None, cl.req.expiresAt)
  {
    RunSound(run, k);
    assert ClientSound(run[k].table, run[k].clock, run[k].clients[c]);
  }

  /** The catch-all conflict answer is never given. */
  lemma ConflictAnswerUnreachable(run: seq<State>, k: nat, c: nat, at: int)
    requires IsRun(run) && k < |run| && Enabled(run[k], DecideStep(c, at))
    ensures Decide(run[k].clients[c].rec, run[k].clients[c].req, at) != Refuse(Conflict)
  {
    RunSound(run, k);
    assert ClientSound(run[k].table, run[k].clock, run[k].clients[c]);
  }

  // A run of this scope and payload has begun.
  predicate HasBegun(log: seq<Event>, scope: Scope, hash: string) {
    exists n :: 0 <= n < |log| && log[n].Began? && log[n].req.scope == scope && log[n].req.hash == hash
  }

  // Every row, and every record a request has read, stems from a run that has begun.
  ghost predicate RowsBegun(s: State) {
    forall id :: id in s.table.rows ==> HasBegun(s.log, s.table.rows[id].scope, s.table.rows[id].hash)
  }

  predicate ReadBegun(log: seq<Event>, cl: Client) {
    cl.Looked? && cl.rec.Some? ==>
      cl.rec.value.row.scope == cl.req.scope && HasBegun(log, cl.req.scope, cl.rec.value.row.hash)
  }

  ghost predicate ReadsBegun(s: State) {
    forall c :: c in s.clients ==> ReadBegun(s.log, s.clients[c])
  }

  lemma BegunGrows(log: seq<Event>, news: seq<Event>, scope: Scope, hash: string)
    requires HasBegun(log, scope, hash)
    ensures HasBegun(log + news, scope, hash)
  {
    var n :| 0 <= n < |log| && log[n].Began? && log[n].req.scope == scope && log[n].req.hash == hash;
    assert (log + news)[n] == log[n];
  }

  // Rows that stay keep their origin; the reads that stay, too.
  lemma BegunKept(s: State, s': State, news: seq<Event>)
    requires RowsBegun(s) && ReadsBegun(s) && s'.log == s.log + news
    requires forall id :: id in s'.table.rows ==>
               HasBegun(s'.log, s'.table.rows[id].scope, s'.table.rows[id].hash) ||
               (id in s.table.rows && s'.table.rows[id].scope == s.table.rows[id].scope
                                   && s'.table.rows[id].hash == s.table.rows[id].hash)
    requires forall c :: c in s'.clients ==>
               ReadBegun(s.log, s'.clients[c]) || (c in s.clients && s'.clients[c] == s.clients[c])
    ensures RowsBegun(s') && ReadsBegun(s')
  {
    forall id | id in s'.table.rows ensures HasBegun(s'.log, s'.table.rows[id].scope, s'.table.rows[id].hash) {
      if !HasBegun(s'.log, s'.table.rows[id].scope, s'.table.rows[id].hash) {
        BegunGrows(s.log, news, s.table.rows[id].scope, s.table.rows[id].hash);
      }
    }
    forall c | c in s'.clients ensures ReadBegun(s'.log, s'.clients[c]) {
      var cl := s'.clients[c];
      if cl.Looked? && cl.rec.Some? {
        BegunGrows(s.log, news, cl.req.scope, cl.rec.value.row.hash);
      }
    }
  }

  lemma BeginBegun(s: State, c: nat, req: Request, t: Table, id: nat)
    requires RowsBegun(s) && ReadsBegun(s)
    requires id in t.rows && t.rows[id].scope == req.scope && t.rows[id].hash == req.hash
    requires forall i :: i in t.rows && i != id ==> i in s.table.rows && t.rows[i] == s.table.rows[i]
    ensures RowsBegun(Begin(s, c, req, t, id)) && ReadsBegun(Begin(s, c, req, t, id))
  {
    var s' := Begin(s, c, req, t, id);
    assert s'.log[|s.log|] == Began(req, s.clock);
    BegunKept(s, s', [Began(req, s.clock)]);
  }

  lemma StepBegun(s: State, st: Step)
    requires Invariant(s) && RowsBegun(s) && ReadsBegun(s) && Enabled(s, st)
    ensures RowsBegun(Apply(s, st)) && ReadsBegun(Apply(s, st))
  {
    var s' := Apply(s, st);
    match st
    case ClaimStep(c) => ClaimBegun(s, c);
    case ReclaimStep(c, at) => ReclaimBegun(s, c, at);
    case GetStep(c, rec) =>
      assert s'.log == s.log + [];
      BegunKept(s, s', []);
    case _ => OtherBegun(s, st);
  }

  lemma ClaimBegun(s: State, c: nat)
    requires Invariant(s) && RowsBegun(s) && ReadsBegun(s) && Enabled(s, ClaimStep(c))
    ensures RowsBegun(AfterClaimStep(s, c)) && ReadsBegun(AfterClaimStep(s, c))
  {
    var s', req := AfterClaimStep(s, c), s.clients[c].req;
    if !HasScope(s.table, req.scope) {
      BeginBegun(s, c, req, AfterClaim(s.table, req), s.table.nextId);
    } else {
      assert s'.log == s.log + s'.log[|s.log|..];
      BegunKept(s, s', s'.log[|s.log|..]);
    }
  }

  lemma ReclaimBegun(s: State, c: nat, at: int)
    requires Invariant(s) && RowsBegun(s) && ReadsBegun(s) && Enabled(s, ReclaimStep(c, at))
    ensures RowsBegun(AfterReclaimStep(s, c, at)) && ReadsBegun(AfterReclaimStep(s, c, at))
  {
    var s', cl := AfterReclaimStep(s, c, at), s.clients[c];
    assert ClientSound(s.table, s.clock, cl);
    if cl.WantExpired? && CanReclaimExpired(s.table, cl.id, at) {
      BeginBegun(s, c, cl.req, AfterReclaimExpired(s.table, cl.id, cl.req, at), cl.id);
    } else if cl.WantFailed? && CanReclaimFailed(s.table, cl.id, cl.req) {
      BeginBegun(s, c, cl.req, AfterReclaimFailed(s.table, cl.id, cl.req), cl.id);
    } else {
      BegunKept(s, s', s'.log[|s.log|..]);
    }
  }

  // Steps that begin no run and read nothing.
  lemma OtherBegun(s: State, st: Step)
    requires RowsBegun(s) && ReadsBegun(s) && Enabled(s, st)
    requires !st.ClaimStep? && !st.ReclaimStep? && !st.GetStep?
    ensures RowsBegun(Apply(s, st)) && ReadsBegun(Apply(s, st))
  {
    var s' := Apply(s, st);
    assert s'.log == s.log + s'.log[|s.log|..];
    BegunKept(s, s', s'.log[|s.log|..]);
  }

  lemma RunStepBegun(run: seq<State>, k: nat)
    requires IsRun(run) && k + 1 < |run| && RowsBegun(run[k]) && ReadsBegun(run[k])
    ensures RowsBegun(run[k + 1]) && ReadsBegun(run[k + 1])
  {
    RunSound(run, k);
    assert NextAt(run, k);
    var st :| Enabled(run[k], st) && run[k + 1] == Apply(run[k], st);
    StepBegun(run[k], st);
  }

  lemma {:induction false} StateBegun(run: seq<State>, k: nat, s: State)
    requires IsRun(run) && k < |run| && s == run[k]
    ensures RowsBegun(s) && ReadsBegun(s)
  {
    if k > 0 {
      StateBegun(run, k - 1, run[k - 1]);
      RunStepBegun(run, k - 1);
    }
  }

  /** Refusals mean what they say: a mismatch, that a run of the scope with another
      payload has begun; a concurrent request, that one with the same payload has. */
  lemma RefusalsAreJustified(run: seq<State>, k: nat, c: nat, at: int)
    requires IsRun(run) && k < |run| && Enabled(run[k], DecideStep(c, at))
    ensures var req := run[k].clients[c].req;
            var verdict := Decide(run[k].clients[c].rec, req, at);
            && (verdict == Refuse(Mismatch) ==> exists h :: h != req.hash && HasBegun(run[k].log, req.scope, h))
            && (verdict == Refuse(Concurrent) ==> HasBegun(run[k].log, req.scope, req.hash))
  {
    StateBegun(run, k, run[k]);
    assert ReadBegun(run[k].log, run[k].clients[c]);
  }
}
