/**
  Relays, writers and the janitor on one outbox, step by step. A relay may crash
  anywhere, a settling update may fail, and timestamps may be taken before the
  statement that uses them.

  Two assumptions are covered. SingleRelay: at most one relay holds claimed rows,
  as the application wires it, and a restarted one starts empty. Leases: any
  number of relays, each acting on a row only while its lease lasts.
 */
module OutboxRelay {
  import opened Wrappers
  import opened Backoff
  import opened Outbox

  datatype Mode = SingleRelay | Leases

  // What happened to a row: claims taken, deliveries failed, claims superseded
  // before they were settled, and when.
  datatype History = History(claims: nat, failures: nat, lost: nat, firstFailure: int, diedAt: int)

  const NO_HISTORY := History(0, 0, 0, 0, 0)

  // held: what each relay still has to deliver and settle, in order.
  datatype State = State(mode: Mode, clock: int, table: Table, held: map<nat, seq<Item>>,
                         history: map<nat, History>)

  datatype Step =
    | Tick(now: int)
    | AddStep(message: Message, at: int)
    | ClaimStep(r: nat, ids: seq<nat>, queryAt: int, leaseAt: int)
    | SettleStep(r: nat, delivered: bool, at: int)
    | SkipStep(r: nat)
    | CrashStep(r: nat)
    | PurgeStep(cutoff: int)

  predicate Init(s: State) {
    s.table == Table(map[], 1) && s.held == map[] && s.history == map[]
  }

  function HeldBy(s: State, r: nat): seq<Item> {
    if r in s.held then s.held[r] else []
  }

  predicate AllIdle(s: State) {
    forall r :: r in s.held ==> s.held[r] == []
  }

  // May a relay still act on this item?
  predicate MayAct(s: State, it: Item) {
    s.mode == SingleRelay || s.clock < LeaseEnd(it)
  }

  predicate Enabled(s: State, st: Step) {
    match st
    case Tick(now) => s.clock <= now
    case AddStep(_, at) => at <= s.clock
    case ClaimStep(r, ids, queryAt, leaseAt) =>
      && HeldBy(s, r) == []
      && (s.mode == SingleRelay ==> AllIdle(s))
      && queryAt <= leaseAt <= s.clock
      && Claimable(s.table, ids, queryAt, BATCH_SIZE)
    case SettleStep(r, _, at) =>
      && HeldBy(s, r) != []
      && MayAct(s, HeldBy(s, r)[0])
      && HeldBy(s, r)[0].claimedAt <= at <= s.clock
    case SkipStep(r) => HeldBy(s, r) != []
    case CrashStep(r) => r in s.held
    case PurgeStep(cutoff) => true
  }

  function Recall(s: State, id: nat): History {
    if id in s.history then s.history[id] else NO_HISTORY
  }

  function NoteClaim(s: State, ids: seq<nat>): map<nat, History> {
    map id | id in s.table.rows ::
      var h := Recall(s, id);
      if id in ids then
        h.(claims := h.claims + 1, lost := if s.table.rows[id].status == Processing then h.lost + 1 else h.lost)
      else h
  }

  function NoteSettle(h: History, it: Item, delivered: bool, at: int): History {
    if delivered then h
    else h.(failures := h.failures + 1,
            firstFailure := if h.failures == 0 then at else h.firstFailure,
            diedAt := if it.attempts + 1 >= MAX_OUTBOX_ATTEMPTS then at else h.diedAt)
  }

  function Apply(s: State, st: Step): State
    requires Enabled(s, st)
  {
    match st
    case Tick(now) => s.(clock := now)
    case AddStep(m, at) => s.(table := AfterAdd(s.table, m, at))
    case ClaimStep(r, ids, _, leaseAt) =>
      s.(table := AfterClaim(s.table, ids, leaseAt),
         held := s.held[r := ItemsOf(s.table, ids, leaseAt)],
         history := s.history + NoteClaim(s, ids))
    case SettleStep(r, delivered, at) =>
      var it := HeldBy(s, r)[0];
      s.(table := AfterSettle(s.table, it, delivered, at),
         held := s.held[r := HeldBy(s, r)[1..]],
         history := s.history[it.id := NoteSettle(Recall(s, it.id), it, delivered, at)])
    case SkipStep(r) => s.(held := s.held[r := HeldBy(s, r)[1..]])
    case CrashStep(r) => s.(held := s.held[r := []])
    case PurgeStep(cutoff) => s.(table := AfterPurge(s.table, cutoff))
  }

  // ---------------------------------------------------------------- invariant

  // The i-th item relay r holds, if it may still act on it.
  predicate Active(s: State, r: nat, i: nat) {
    r in s.held && i < |s.held[r]| && MayAct(s, s.held[r][i])
  }

  predicate RowSound(r: Row) {
    && (r.status in {Pending, Failed, Processing} ==> r.nextAttempt.Some?)
    && (r.status == Pending ==> r.attempts == 0)
    && (r.status == Failed ==> 1 <= r.attempts < MAX_OUTBOX_ATTEMPTS)
    && (r.status in {Processing, Done} ==> 1 <= r.attempts)
    && (r.status == Dead ==> MAX_OUTBOX_ATTEMPTS <= r.attempts && r.nextAttempt == None)
    && (r.status == Done ==> r.publishedAt.Some?)
  }

  // An item in force owns its row.
  predicate ItemSound(t: Table, it: Item) {
    && it.id in t.rows
    && t.rows[it.id].status == Processing
    && t.rows[it.id].message == it.message
    && t.rows[it.id].attempts == it.attempts + 1
    && t.rows[it.id].nextAttempt == Some(LeaseEnd(it))
  }

  // Every claim is a failure, the delivery, the one under way, or lost; and as
  // long as none is lost the delays between them have been kept.
  predicate HistorySound(r: Row, h: History)
    requires RowSound(r)
  {
    && h.claims == r.attempts
    && h.claims == h.failures + h.lost
                   + (if r.status == Processing then 1 else 0) + (if r.status == Done then 1 else 0)
    && (h.lost == 0 ==> Paced(r, h))
  }

  predicate Paced(r: Row, h: History)
    requires RowSound(r)
  {
    && (r.status == Done ==> r.attempts <= MAX_OUTBOX_ATTEMPTS)
    && (r.status == Processing ==>
          r.attempts <= MAX_OUTBOX_ATTEMPTS
          && (h.failures > 0 ==>
                h.firstFailure + TotalDelay(h.failures) <= r.nextAttempt.value - LEASE))
    && (r.status == Failed ==> h.firstFailure + TotalDelay(h.failures) <= r.nextAttempt.value)
    && (r.status == Dead ==>
          h.failures == MAX_OUTBOX_ATTEMPTS && h.firstFailure + TotalDelay(h.failures - 1) <= h.diedAt)
  }

  predicate TableSound(s: State) {
    && (forall id :: id in s.table.rows ==>
          id < s.table.nextId && RowSound(s.table.rows[id]) && HistorySound(s.table.rows[id], Recall(s, id)))
    && (forall id :: id in s.history ==> id < s.table.nextId)
  }

  ghost predicate ItemsSound(s: State) {
    forall r, i: nat :: Active(s, r, i) ==> ItemSound(s.table, s.held[r][i])
  }

  // Nobody acts on the same row twice, in one relay or in two.
  ghost predicate Exclusive(s: State) {
    forall r, i: nat, q, j: nat ::
      Active(s, r, i) && Active(s, q, j) && s.held[r][i].id == s.held[q][j].id ==> r == q && i == j
  }

  predicate OneHolder(s: State) {
    s.mode == SingleRelay ==>
      forall r, q :: r in s.held && q in s.held && s.held[r] != [] && s.held[q] != [] ==> r == q
  }

  ghost predicate Invariant(s: State) {
    TableSound(s) && ItemsSound(s) && Exclusive(s) && OneHolder(s)
  }

  // ---------------------------------------------------------------- preservation

  lemma TickKeeps(s: State, now: int)
    requires Invariant(s) && s.clock <= now
    ensures Invariant(s.(clock := now))
  {
    var s' := s.(clock := now);
    assert forall r, i: nat :: Active(s', r, i) ==> Active(s, r, i);
    assert forall id :: Recall(s', id) == Recall(s, id);
  }

  lemma AddKeeps(s: State, m: Message, at: int)
    requires Invariant(s)
    ensures Invariant(s.(table := AfterAdd(s.table, m, at)))
  {
    var s' := s.(table := AfterAdd(s.table, m, at));
    assert forall id :: Recall(s', id) == Recall(s, id);
    assert forall r, i: nat :: Active(s', r, i) <==> Active(s, r, i);
    forall r, i: nat | Active(s', r, i) ensures ItemSound(s'.table, s'.held[r][i]) {
      assert ItemSound(s.table, s.held[r][i]);
    }
  }

  lemma PurgeKeeps(s: State, cutoff: int)
    requires Invariant(s)
    ensures Invariant(s.(table := AfterPurge(s.table, cutoff)))
  {
    var s' := s.(table := AfterPurge(s.table, cutoff));
    assert forall id :: Recall(s', id) == Recall(s, id);
    assert forall r, i: nat :: Active(s', r, i) <==> Active(s, r, i);
    forall r, i: nat | Active(s', r, i) ensures ItemSound(s'.table, s'.held[r][i]) {
      assert ItemSound(s.table, s.held[r][i]);
    }
  }

  // A relay drops its first n items.
  lemma DropKeeps(s: State, r: nat, n: nat)
    requires Invariant(s) && r in s.held && n <= |s.held[r]|
    ensures Invariant(s.(held := s.held[r := s.held[r][n..]]))
  {
    var s' := s.(held := s.held[r := s.held[r][n..]]);
    assert forall id :: Recall(s', id) == Recall(s, id);
    forall q, i: nat | Active(s', q, i)
      ensures Active(s, q, if q == r then i + n else i)
      ensures s'.held[q][i] == s.held[q][if q == r then i + n else i]
    {
    }
  }

  lemma ClaimedRowSound(r: Row, h: History, queryAt: int, leaseAt: int)
    requires RowSound(r) && HistorySound(r, h) && Due(r, queryAt) && queryAt <= leaseAt
    ensures RowSound(ClaimedRow(r, leaseAt))
    ensures HistorySound(ClaimedRow(r, leaseAt),
                         h.(claims := h.claims + 1, lost := if r.status == Processing then h.lost + 1 else h.lost))
  {
  }

  lemma ClaimTable(s: State, r: nat, ids: seq<nat>, queryAt: int, leaseAt: int)
    requires Invariant(s) && Enabled(s, ClaimStep(r, ids, queryAt, leaseAt))
    ensures TableSound(Apply(s, ClaimStep(r, ids, queryAt, leaseAt)))
  {
    var s' := Apply(s, ClaimStep(r, ids, queryAt, leaseAt));
    forall id | id in s'.table.rows
      ensures RowSound(s'.table.rows[id]) && HistorySound(s'.table.rows[id], Recall(s', id))
    {
      if id in ids {
        ClaimedRowSound(s.table.rows[id], Recall(s, id), queryAt, leaseAt);
      }
    }
  }

  // A row in force is not due.
  lemma ActiveIsNotDue(s: State, q: nat, j: nat, queryAt: int)
    requires Invariant(s) && s.mode == Leases && Active(s, q, j) && queryAt <= s.clock
    ensures !Due(s.table.rows[s.held[q][j].id], queryAt)
  {
    assert ItemSound(s.table, s.held[q][j]);
  }

  // Items other relays may still act on are not in the batch.
  lemma ClaimSparesOthers(s: State, r: nat, ids: seq<nat>, queryAt: int, leaseAt: int, q: nat, j: nat)
    requires Invariant(s) && Enabled(s, ClaimStep(r, ids, queryAt, leaseAt))
    requires Active(Apply(s, ClaimStep(r, ids, queryAt, leaseAt)), q, j) && q != r
    ensures Active(s, q, j) && s.held[q][j].id !in ids
    ensures ItemSound(AfterClaim(s.table, ids, leaseAt), s.held[q][j])
  {
    assert Active(s, q, j);
    ActiveIsNotDue(s, q, j, queryAt);
    assert ItemSound(s.table, s.held[q][j]);
  }

  lemma ClaimItems(s: State, r: nat, ids: seq<nat>, queryAt: int, leaseAt: int)
    requires Invariant(s) && Enabled(s, ClaimStep(r, ids, queryAt, leaseAt))
    ensures ItemsSound(Apply(s, ClaimStep(r, ids, queryAt, leaseAt)))
  {
    var s' := Apply(s, ClaimStep(r, ids, queryAt, leaseAt));
    forall q, j: nat | Active(s', q, j) ensures ItemSound(s'.table, s'.held[q][j]) {
      if q != r {
        ClaimSparesOthers(s, r, ids, queryAt, leaseAt, q, j);
      }
    }
  }

  lemma ClaimExclusive(s: State, r: nat, ids: seq<nat>, queryAt: int, leaseAt: int)
    requires Invariant(s) && Enabled(s, ClaimStep(r, ids, queryAt, leaseAt))
    ensures Exclusive(Apply(s, ClaimStep(r, ids, queryAt, leaseAt)))
  {
    var s' := Apply(s, ClaimStep(r, ids, queryAt, leaseAt));
    forall q, i: nat, w, j: nat | Active(s', q, i) && Active(s', w, j) && s'.held[q][i].id == s'.held[w][j].id
      ensures q == w && i == j
    {
      if q != r {
        ClaimSparesOthers(s, r, ids, queryAt, leaseAt, q, i);
      }
      if w != r {
        ClaimSparesOthers(s, r, ids, queryAt, leaseAt, w, j);
      }
    }
  }

  lemma ClaimKeeps(s: State, r: nat, ids: seq<nat>, queryAt: int, leaseAt: int)
    requires Invariant(s) && Enabled(s, ClaimStep(r, ids, queryAt, leaseAt))
    ensures Invariant(Apply(s, ClaimStep(r, ids, queryAt, leaseAt)))
  {
    ClaimTable(s, r, ids, queryAt, leaseAt);
    ClaimItems(s, r, ids, queryAt, leaseAt);
    ClaimExclusive(s, r, ids, queryAt, leaseAt);
  }

  lemma SettledRowSound(r: Row, h: History, it: Item, delivered: bool, at: int)
    requires RowSound(r) && HistorySound(r, h)
    requires r.status == Processing && r.attempts == it.attempts + 1 && r.nextAttempt == Some(LeaseEnd(it))
    requires it.claimedAt <= at
    ensures RowSound(SettledRow(r, it, delivered, at))
    ensures HistorySound(SettledRow(r, it, delivered, at), NoteSettle(h, it, delivered, at))
  {
    if !delivered && h.lost == 0 {
      assert TotalDelay(h.failures + 1) == TotalDelay(h.failures) + Delay(h.failures + 1);
    }
  }

  lemma SettleKeeps(s: State, r: nat, delivered: bool, at: int)
    requires Invariant(s) && Enabled(s, SettleStep(r, delivered, at))
    ensures Invariant(Apply(s, SettleStep(r, delivered, at)))
  {
    var s' := Apply(s, SettleStep(r, delivered, at));
    var it := s.held[r][0];
    assert Active(s, r, 0);
    assert ItemSound(s.table, it);
    SettledRowSound(s.table.rows[it.id], Recall(s, it.id), it, delivered, at);
    assert TableSound(s') by {
      forall id | id in s'.table.rows
        ensures RowSound(s'.table.rows[id]) && HistorySound(s'.table.rows[id], Recall(s', id))
      {
        assert id != it.id ==> Recall(s', id) == Recall(s, id);
      }
    }
    forall q, i: nat | Active(s', q, i)
      ensures Active(s, q, if q == r then i + 1 else i)
      ensures s'.held[q][i] == s.held[q][if q == r then i + 1 else i]
      ensures ItemSound(s'.table, s'.held[q][i])
    {
      var k := if q == r then i + 1 else i;
      assert Active(s, q, k);
      assert ItemSound(s.table, s.held[q][k]);
      assert s.held[q][k].id != it.id;
    }
  }

  /** Every step keeps the leases, the row states and the accounting. */
  lemma StepKeeps(s: State, st: Step)
    requires Invariant(s) && Enabled(s, st)
    ensures Invariant(Apply(s, st))
  {
    match st
    case Tick(now) => TickKeeps(s, now);
    case AddStep(m, at) => AddKeeps(s, m, at);
    case ClaimStep(r, ids, queryAt, leaseAt) => ClaimKeeps(s, r, ids, queryAt, leaseAt);
    case SettleStep(r, delivered, at) => SettleKeeps(s, r, delivered, at);
    case SkipStep(r) => DropKeeps(s, r, 1);
    case CrashStep(r) => DropKeeps(s, r, |s.held[r]|);
    case PurgeStep(cutoff) => PurgeKeeps(s, cutoff);
  }

  // ---------------------------------------------------------------- over runs

  ghost predicate Next(s: State, s': State) {
    exists st :: Enabled(s, st) && s' == Apply(s, st)
  }

  ghost predicate NextAt(run: seq<State>, i: nat)
    requires i + 1 < |run|
  {
    Next(run[i], run[i + 1])
  }

  ghost predicate IsRun(run: seq<State>) {
    |run| > 0 && Init(run[0]) && forall i: nat :: i + 1 < |run| ==> NextAt(run, i)
  }

  lemma NextSound(s: State, s': State)
    requires Invariant(s) && Next(s, s')
    ensures Invariant(s')
  {
    var st :| Enabled(s, st) && s' == Apply(s, st);
    StepKeeps(s, st);
  }

  lemma RunStepSound(run: seq<State>, k: nat)
    requires IsRun(run) && k + 1 < |run| && Invariant(run[k])
    ensures Invariant(run[k + 1])
  {
    assert NextAt(run, k);
    NextSound(run[k], run[k + 1]);
  }

  lemma {:induction false} StateSound(run: seq<State>, k: nat, s: State)
    requires IsRun(run) && k < |run| && s == run[k]
    ensures Invariant(s)
  {
    if k > 0 {
      StateSound(run, k - 1, run[k - 1]);
      RunStepSound(run, k - 1);
    }
  }

  lemma RunSound(run: seq<State>, k: nat)
    requires IsRun(run) && k < |run|
    ensures Invariant(run[k])
  {
    StateSound(run, k, run[k]);
  }

  /** Leases exclude: a row that some relay may still act on is marked processing
      for exactly that claim, and no other item in force names it. */
  lemma LeaseExcludes(run: seq<State>, k: nat, r: nat, i: nat, q: nat, j: nat)
    requires IsRun(run) && k < |run|
    requires Active(run[k], r, i) && Active(run[k], q, j)
    ensures ItemSound(run[k].table, run[k].held[r][i])
    ensures run[k].held[r][i].id == run[k].held[q][j].id ==> r == q && i == j
  {
    RunSound(run, k);
  }

  // What a step may do to a committed row: a settled one stays as it is, and
  // only an old enough done row can go.
  predicate Kept(s: State, s': State, id: nat)
    requires id in s.table.rows
  {
    var r := s.table.rows[id];
    && (id !in s'.table.rows ==> r.status == Done)
    && (id in s'.table.rows && r.status in {Done, Dead} ==> s'.table.rows[id] == r)
    && (id in s'.table.rows ==> s'.table.rows[id].message == r.message)
    && s.table.nextId <= s'.table.nextId
  }

  lemma StepKeepsRows(s: State, st: Step, id: nat)
    requires Invariant(s) && Enabled(s, st) && id in s.table.rows
    ensures Kept(s, Apply(s, st), id)
    ensures id !in Apply(s, st).table.rows <==>
              && st.PurgeStep? && s.table.rows[id].status == Done
              && s.table.rows[id].publishedAt.Some? && s.table.rows[id].publishedAt.value < st.cutoff
  {
    match st
    case SettleStep(r, delivered, at) =>
      assert Active(s, r, 0);
      assert ItemSound(s.table, s.held[r][0]);
    case _ =>
  }

  // One step of a run, for one row: kept if it is there, never back if it is gone.
  lemma RunStep(run: seq<State>, k: nat, id: nat)
    requires IsRun(run) && k + 1 < |run| && id < run[k].table.nextId
    ensures id < run[k + 1].table.nextId
    ensures id in run[k].table.rows ==> Kept(run[k], run[k + 1], id)
    ensures id !in run[k].table.rows ==> id !in run[k + 1].table.rows
  {
    RunSound(run, k);
    assert NextAt(run, k);
    var st :| Enabled(run[k], st) && run[k + 1] == Apply(run[k], st);
    if id in run[k].table.rows {
      StepKeepsRows(run[k], st, id);
    }
  }

  /** Done and dead rows are final: from the step that settles it on, a row is
      never claimed, delivered or changed again. A done row may be purged; a dead
      one is there for good. */
  lemma {:induction false} SettledRowsAreFinal(run: seq<State>, i: nat, j: nat, id: nat)
    requires IsRun(run) && i <= j < |run| && id in run[i].table.rows
    requires run[i].table.rows[id].status in {Done, Dead}
    ensures id < run[j].table.nextId
    ensures id in run[j].table.rows ==> run[j].table.rows[id] == run[i].table.rows[id]
    ensures run[i].table.rows[id].status == Dead ==> id in run[j].table.rows
  {
    if i < j {
      SettledRowsAreFinal(run, i, j - 1, id);
      RunStep(run, j - 1, id);
    } else {
      RunSound(run, i);
    }
  }

  /** No committed event disappears, or changes its message, before it is done. */
  lemma {:induction false} CommittedEventsStay(run: seq<State>, i: nat, j: nat, id: nat)
    requires IsRun(run) && i <= j < |run| && id in run[i].table.rows
    ensures id < run[j].table.nextId
    ensures if id in run[j].table.rows then run[j].table.rows[id].message == run[i].table.rows[id].message
            else WasDone(run, i, j, id)
  {
    if i < j {
      CommittedEventsStay(run, i, j - 1, id);
      RunStep(run, j - 1, id);
      if id in run[j - 1].table.rows && id !in run[j].table.rows {
        assert DoneAt(run[j - 1], id);
      }
    } else {
      RunSound(run, i);
    }
  }

  predicate DoneAt(s: State, id: nat) {
    id in s.table.rows && s.table.rows[id].status == Done
  }

  predicate WasDone(run: seq<State>, i: nat, j: nat, id: nat)
    requires j < |run|
  {
    exists m :: i <= m < j && DoneAt(run[m], id)
  }

  // ---------------------------------------------------------------- when a row is claimed again

  // Row id can be in a batch claimed at time q.
  predicate ClaimableAt(s: State, id: nat, q: int) {
    id in s.table.rows && Claimable(s.table, [id], q, BATCH_SIZE)
  }

  // From time on, and not before.
  ghost predicate ClaimableFrom(s: State, id: nat, time: int) {
    forall q :: ClaimableAt(s, id, q) <==> time <= q
  }

  ghost predicate NeverClaimable(s: State, id: nat) {
    forall q :: !ClaimableAt(s, id, q)
  }

  lemma OneIsClaimable(s: State, id: nat)
    requires id in s.table.rows
    ensures forall q :: ClaimableAt(s, id, q) <==> Due(s.table.rows[id], q)
  {
    assert [id][0] == id;
  }

  /** A committed row can be claimed from its commit time on. */
  lemma AddedIsClaimable(run: seq<State>, k: nat, m: Message, at: int)
    requires IsRun(run) && k < |run| && Enabled(run[k], AddStep(m, at))
    ensures var s, s' := run[k], Apply(run[k], AddStep(m, at));
            && s.table.nextId !in s.table.rows && ClaimableFrom(s', s.table.nextId, at)
            && s'.table.rows[s.table.nextId].message == m
  {
    RunSound(run, k);
    OneIsClaimable(Apply(run[k], AddStep(m, at)), run[k].table.nextId);
  }

  /** A claimed row can be claimed again once five minutes are over, if nobody settles it:
      a crashed relay loses nothing. */
  lemma LeaseRunsOut(run: seq<State>, k: nat, r: nat, ids: seq<nat>, queryAt: int, leaseAt: int, i: nat)
    requires IsRun(run) && k < |run| && Enabled(run[k], ClaimStep(r, ids, queryAt, leaseAt)) && i < |ids|
    ensures ClaimableFrom(Apply(run[k], ClaimStep(r, ids, queryAt, leaseAt)), ids[i], leaseAt + 300 * SECOND)
  {
    var s' := Apply(run[k], ClaimStep(r, ids, queryAt, leaseAt));
    assert s'.table.rows[ids[i]] == ClaimedRow(run[k].table.rows[ids[i]], leaseAt);
    OneIsClaimable(s', ids[i]);
  }

  /** A row whose delivery failed is claimed again when the backoff for its attempts is over
      and not before; after the tenth attempt it is dead and never is, nor is a delivered
      one. */
  lemma FailedIsRetried(run: seq<State>, k: nat, r: nat, delivered: bool, at: int)
    requires IsRun(run) && k < |run| && Enabled(run[k], SettleStep(r, delivered, at))
    ensures var id, s, s' := HeldBy(run[k], r)[0].id, run[k], Apply(run[k], SettleStep(r, delivered, at));
            && id in s.table.rows && id in s'.table.rows
            && s'.table.rows[id].attempts == s.table.rows[id].attempts
            && (delivered ==> s'.table.rows[id].status == Done && s'.table.rows[id].publishedAt == Some(at)
                              && NeverClaimable(s', id))
            && (!delivered && s.table.rows[id].attempts >= 10 ==>
                  s'.table.rows[id].status == Dead && NeverClaimable(s', id))
            && (!delivered && s.table.rows[id].attempts < 10 ==>
                  s'.table.rows[id].status == Failed
                  && ClaimableFrom(s', id, at + Delay(s.table.rows[id].attempts)))
  {
    RunSound(run, k);
    var s := run[k];
    assert Active(s, r, 0);
    assert ItemSound(s.table, s.held[r][0]);
    SettledClaimable(s, r, delivered, at);
  }

  lemma SettledClaimable(s: State, r: nat, delivered: bool, at: int)
    requires Enabled(s, SettleStep(r, delivered, at)) && ItemSound(s.table, HeldBy(s, r)[0])
    ensures var id, s' := HeldBy(s, r)[0].id, Apply(s, SettleStep(r, delivered, at));
            && (delivered || s.table.rows[id].attempts >= 10 ==> NeverClaimable(s', id))
            && (!delivered && s.table.rows[id].attempts < 10 ==>
                  ClaimableFrom(s', id, at + Delay(s.table.rows[id].attempts)))
  {
    var it, s' := HeldBy(s, r)[0], Apply(s, SettleStep(r, delivered, at));
    assert s'.table.rows[it.id] == SettledRow(s.table.rows[it.id], it, delivered, at);
    OneIsClaimable(s', it.id);
  }

  /** Dead letters. In every run attempts counts the claims and a dead row took at
      least ten. If every claim of the row was settled, the row is dead exactly
      when ten deliveries failed, and that is at least 2175 seconds after the first. */
  lemma DeadLetterAccounting(run: seq<State>, k: nat, id: nat)
    requires IsRun(run) && k < |run| && id in run[k].table.rows
    ensures var r := run[k].table.rows[id];
            var h := Recall(run[k], id);
            && r.attempts == h.claims
            && (r.status == Dead ==> h.claims >= 10)
            && (h.lost == 0 ==>
                  && (r.status == Dead <==> h.failures == 10)
                  && (r.status == Dead ==> h.firstFailure + 2175 * SECOND <= h.diedAt))
  {
    RunSound(run, k);
    NineDelays();
  }

  /** Each claim of a row is accounted for: it failed, it delivered, it is under
      way, or a later claim superseded it. */
  lemma ClaimsConserved(run: seq<State>, k: nat, id: nat)
    requires IsRun(run) && k < |run| && id in run[k].table.rows
    ensures var r := run[k].table.rows[id];
            var h := Recall(run[k], id);
            r.attempts == h.failures + h.lost
                          + (if r.status == Processing then 1 else 0) + (if r.status == Done then 1 else 0)
  {
    RunSound(run, k);
  }
}
