/**
  Whole runs of the task service: attempts that commit or fail, between changes by
  others to the users and to the outbox rows.
 */
module TaskRuns {
  import opened Wrappers
  import opened TaskStore
  import opened TaskService
  import Audit
  import Outbox

  // An attempt takes effect if it is acceptable and nothing fails. Others change user
  // rows, and settle and purge outbox rows; they add none.
  datatype Event =
    | Attempt(op: Op, undisturbed: bool)
    | Elsewhere(users: map<int, bool>, rows: map<nat, Outbox.Row>)

  predicate Effective(s: Tables, e: Event) {
    e.Attempt? && e.undisturbed && Answer(s, e.op).Ok?
  }

  predicate AddsNone(s: Tables, e: Event) {
    e.Elsewhere? && e.rows.Keys <= s.outbox.rows.Keys
  }

  function Step(codec: Codec, s: Tables, e: Event): Tables {
    if Effective(s, e) then After(codec, s, e.op)
    else if AddsNone(s, e) then s.(users := e.users, outbox := s.outbox.(rows := e.rows))
    else s
  }

  // No tasks yet.
  function Start(users: map<int, bool>, outbox: Outbox.Table): Tables {
    Tables(map[], 1, users, [], outbox, [])
  }

  function Run(codec: Codec, s: Tables, es: seq<Event>): Tables
    decreases |es|
  {
    if es == [] then s else Step(codec, Run(codec, s, es[..|es| - 1]), es[|es| - 1])
  }

  ghost predicate GoodCodec(codec: Codec) {
    forall v: Option<TaskView> :: codec.decode(codec.encode(v)) == v
  }

  // A view as one text, field by field.
  function Line(v: TaskView): string {
    Audit.Spelled(v.publicId) + "|" + (Audit.Spelled(v.title) + "|" + (Audit.Spelled(v.description) + "|"
    + (Audit.Spelled(v.status) + "|" + (Choice(v.assignee) + "|" + (Tally(v.createdAt) + "|" + Tally(v.updatedAt))))))
  }

  function Tally(n: int): (t: string)
    ensures Audit.NoBar(t)
  {
    if n < 0 then "-" + Audit.Zeros(-n) else Audit.Zeros(n)
  }

  function Choice(n: Option<int>): (t: string)
    ensures Audit.NoBar(t)
  {
    if n.Some? then "." + Tally(n.value) else ""
  }

  lemma TallyApart(m: int, n: int)
    requires Tally(m) == Tally(n)
    ensures m == n
  {
    assert m < 0 ==> Tally(m)[0] == '-';
    assert n < 0 ==> Tally(n)[0] == '-';
  }

  lemma ChoiceApart(m: Option<int>, n: Option<int>)
    requires Choice(m) == Choice(n)
    ensures m == n
  {
    if m.Some? && n.Some? {
      assert Choice(m)[1..] == Tally(m.value) && Choice(n)[1..] == Tally(n.value);
      TallyApart(m.value, n.value);
    }
  }

  lemma SpelledField(s: string, x: string, t: string, y: string)
    requires Audit.Spelled(s) + "|" + x == Audit.Spelled(t) + "|" + y
    ensures s == t && x == y
  {
    Audit.FirstField(Audit.Spelled(s), x, Audit.Spelled(t), y);
    Audit.SpelledApart(s, t);
  }

  lemma LineApart(v: TaskView, w: TaskView)
    requires Line(v) == Line(w)
    ensures v == w
  {
    var a, b := Tally(v.createdAt) + "|" + Tally(v.updatedAt), Tally(w.createdAt) + "|" + Tally(w.updatedAt);
    var c, d := Choice(v.assignee) + "|" + a, Choice(w.assignee) + "|" + b;
    var e, f := Audit.Spelled(v.status) + "|" + c, Audit.Spelled(w.status) + "|" + d;
    var g, h := Audit.Spelled(v.description) + "|" + e, Audit.Spelled(w.description) + "|" + f;
    SpelledField(v.publicId, Audit.Spelled(v.title) + "|" + g, w.publicId, Audit.Spelled(w.title) + "|" + h);
    SpelledField(v.title, g, w.title, h);
    SpelledField(v.description, e, w.description, f);
    SpelledField(v.status, c, w.status, d);
    Audit.FirstField(Choice(v.assignee), a, Choice(w.assignee), b);
    ChoiceApart(v.assignee, w.assignee);
    Audit.FirstField(Tally(v.createdAt), Tally(v.updatedAt), Tally(w.createdAt), Tally(w.updatedAt));
    TallyApart(v.createdAt, w.createdAt);
    TallyApart(v.updatedAt, w.updatedAt);
  }

  function Text(v: Option<TaskView>): string {
    if v.Some? then "v" + Line(v.value) else "null"
  }

  lemma TextApart(v: Option<TaskView>, w: Option<TaskView>)
    requires Text(v) == Text(w)
    ensures v == w
  {
    assert v.Some? ==> Text(v)[0] == 'v' && Text(v)[1..] == Line(v.value);
    assert w.Some? ==> Text(w)[0] == 'v' && Text(w)[1..] == Line(w.value);
    if v.Some? && w.Some? {
      LineApart(v.value, w.value);
    }
  }

  // What a text is of, if anything.
  ghost function Parsed(t: string): Option<TaskView> {
    if exists v :: Text(v) == t then
      var v :| Text(v) == t;
      v
    else None
  }

  /** What is asked of encoding and hash together can be met. */
  lemma GoodCodecExists() returns (codec: Codec)
    ensures GoodCodec(codec) && Audit.GoodHash(codec.hash)
  {
    var hash := Audit.GoodHashExists();
    codec := Codec(Text, Parsed, (p, a) => p, p => p, hash);
    forall v: Option<TaskView> ensures Parsed(Text(v)) == v {
      TextApart(Parsed(Text(v)), v);
    }
  }

  // ---------------------------------------------------------------- what a step adds

  // No row has an id that is yet to be given out.
  predicate OutboxBelow(t: Outbox.Table) {
    forall id :: id in t.rows ==> id < t.nextId
  }

  /** An attempt that takes effect adds exactly one audit row and exactly one outbox row,
      pending and under the next id, which no row has; any other adds none. */
  lemma StepAddsOne(codec: Codec, s: Tables, e: Event)
    ensures OutboxBelow(s.outbox) ==> OutboxBelow(Step(codec, s, e).outbox)
    ensures Effective(s, e) ==>
              var s', id := Step(codec, s, e), s.outbox.nextId;
              && s'.audit == s.audit + [Audit.RowFor(codec.hash, s.audit, EntryOf(codec, s, e.op), e.op.at.audit)]
              && s'.outbox.nextId == id + 1 && id in s'.outbox.rows
              && s'.outbox.rows - {id} == s.outbox.rows - {id}
              && (OutboxBelow(s.outbox) ==> id !in s.outbox.rows)
              && s'.outbox.rows[id].status.Pending? && s'.outbox.rows[id].attempts == 0
              && s'.outbox.rows[id].message == MessageFor(e.op.ctx, EventTypeOf(e.op), PayloadOf(codec, s, e.op))
    ensures e.Attempt? ==>
              Step(codec, s, e) == if e.undisturbed && Answer(s, e.op) == Ok(()) then After(codec, s, e.op) else s
    ensures !Effective(s, e) ==>
              var s' := Step(codec, s, e);
              && s'.audit == s.audit && s'.outbox.nextId == s.outbox.nextId
              && s'.outbox.rows.Keys <= s.outbox.rows.Keys
  {
  }

  function EffectiveCount(codec: Codec, s: Tables, es: seq<Event>): nat
    decreases |es|
  {
    if es == [] then 0
    else
      var n := |es| - 1;
      EffectiveCount(codec, s, es[..n]) + if Effective(Run(codec, s, es[..n]), es[n]) then 1 else 0
  }

  /** The audit rows and the outbox rows ever added are as many as the attempts that took
      effect. */
  lemma {:induction false} OneRowEach(codec: Codec, s: Tables, es: seq<Event>)
    ensures |Run(codec, s, es).audit| - |s.audit| == EffectiveCount(codec, s, es)
    ensures Run(codec, s, es).outbox.nextId - s.outbox.nextId == EffectiveCount(codec, s, es)
    decreases |es|
  {
    if es != [] {
      var n := |es| - 1;
      OneRowEach(codec, s, es[..n]);
      StepAddsOne(codec, Run(codec, s, es[..n]), es[n]);
    }
  }

  lemma {:induction false} OutboxStaysBelow(codec: Codec, s: Tables, es: seq<Event>)
    requires OutboxBelow(s.outbox)
    ensures OutboxBelow(Run(codec, s, es).outbox)
    decreases |es|
  {
    if es != [] {
      var n := |es| - 1;
      OutboxStaysBelow(codec, s, es[..n]);
      StepAddsOne(codec, Run(codec, s, es[..n]), es[n]);
    }
  }

  lemma {:induction false} NextIdGrows(codec: Codec, s: Tables, es: seq<Event>, j: nat)
    requires j <= |es|
    ensures Run(codec, s, es[..j]).outbox.nextId <= Run(codec, s, es).outbox.nextId
    decreases |es|
  {
    if j < |es| {
      var n := |es| - 1;
      NextIdGrows(codec, s, es[..n], j);
      assert es[..n][..j] == es[..j];
      StepAddsOne(codec, Run(codec, s, es[..n]), es[n]);
    } else {
      assert es[..j] == es;
    }
  }

  /** The outbox row of an attempt that takes effect has an id that no row had at any
      moment before, whatever others settled and purged meanwhile. */
  lemma AddedUnderNewId(codec: Codec, s: Tables, es: seq<Event>, e: Event, j: nat)
    requires OutboxBelow(s.outbox) && Effective(Run(codec, s, es), e) && j <= |es|
    ensures var id := Run(codec, s, es).outbox.nextId;
            id !in Run(codec, s, es[..j]).outbox.rows && id in Run(codec, s, es + [e]).outbox.rows
  {
    OutboxStaysBelow(codec, s, es[..j]);
    NextIdGrows(codec, s, es, j);
    assert (es + [e])[..|es|] == es;
    StepAddsOne(codec, Run(codec, s, es), e);
  }

  // ---------------------------------------------------------------- ownership

  /** An operation changes no task of another owner, and leaves its own user's task, if
      any, under its id with that owner. */
  lemma OwnersOnly(codec: Codec, s: Tables, op: Op, pid: string)
    requires Answer(s, op).Ok?
    ensures pid in s.tasks && s.tasks[pid].userId != op.user ==>
              pid in After(codec, s, op).tasks && After(codec, s, op).tasks[pid] == s.tasks[pid]
    ensures pid in After(codec, s, op).tasks && pid != op.pid ==>
              pid in s.tasks && After(codec, s, op).tasks[pid] == s.tasks[pid]
    ensures op.pid in After(codec, s, op).tasks ==> After(codec, s, op).tasks[op.pid].userId == op.user
  {
  }

  // ---------------------------------------------------------------- replay

  function Shown(tasks: map<string, Task>): map<string, TaskView> {
    map pid | pid in tasks :: View(tasks[pid])
  }

  function Put(m: map<string, TaskView>, pid: string, v: Option<TaskView>): map<string, TaskView> {
    if v.Some? then m[pid := v.value] else m - {pid}
  }

  function Lookup(m: map<string, TaskView>, pid: string): Option<TaskView> {
    if pid in m then Some(m[pid]) else None
  }

  // The task table as its audit log tells it.
  function Replay(codec: Codec, log: seq<Audit.Row>): map<string, TaskView>
    decreases |log|
  {
    if log == [] then map[]
    else
      var n := |log| - 1;
      Put(Replay(codec, log[..n]), log[n].entry.publicId, codec.decode(log[n].entry.newValues))
  }

  predicate Keyed(tasks: map<string, Task>) {
    forall pid :: pid in tasks ==> tasks[pid].publicId == pid
  }

  lemma StepKeyed(codec: Codec, s: Tables, op: Op)
    requires Answer(s, op).Ok? && Keyed(s.tasks)
    ensures Keyed(After(codec, s, op).tasks) && EntryOf(codec, s, op).publicId == op.pid
  {
  }

  lemma ShownPut(tasks: map<string, Task>, pid: string, t: Task)
    ensures Shown(tasks[pid := t]) == Put(Shown(tasks), pid, Some(View(t)))
    ensures Shown(tasks - {pid}) == Put(Shown(tasks), pid, None)
  {
  }

  lemma TasksOfAfter(codec: Codec, s: Tables, op: Op)
    requires Answer(s, op).Ok?
    ensures After(codec, s, op).tasks == if Result(s, op).Some? then s.tasks[op.pid := Result(s, op).value]
                                         else s.tasks - {op.pid}
  {
  }

  // What an operation does to the table as shown.
  lemma StepShows(codec: Codec, s: Tables, op: Op)
    requires Answer(s, op).Ok?
    ensures Shown(After(codec, s, op).tasks) == Put(Shown(s.tasks), op.pid, ViewOf(Result(s, op)))
    ensures Lookup(Shown(s.tasks), op.pid) == ViewOf(Before(s, op))
  {
    TasksOfAfter(codec, s, op);
    if Result(s, op).Some? {
      ShownPut(s.tasks, op.pid, Result(s, op).value);
    }
  }

  lemma ReplaySnoc(codec: Codec, log: seq<Audit.Row>, r: Audit.Row)
    ensures Replay(codec, log + [r]) == Put(Replay(codec, log), r.entry.publicId, codec.decode(r.entry.newValues))
  {
    assert (log + [r])[..|log|] == log;
  }

  /** Replaying the audit log rebuilds the task table. */
  lemma {:induction false} ReplayRebuilds(codec: Codec, users: map<int, bool>, outbox: Outbox.Table, es: seq<Event>)
    requires GoodCodec(codec)
    ensures var s := Run(codec, Start(users, outbox), es);
            Keyed(s.tasks) && Replay(codec, s.audit) == Shown(s.tasks)
    decreases |es|
  {
    if es != [] {
      var n := |es| - 1;
      ReplayRebuilds(codec, users, outbox, es[..n]);
      var s := Run(codec, Start(users, outbox), es[..n]);
      StepAddsOne(codec, s, es[n]);
      if Effective(s, es[n]) {
        StepKeyed(codec, s, es[n].op);
        StepShows(codec, s, es[n].op);
        ReplaySnoc(codec, s.audit, Audit.RowFor(codec.hash, s.audit, EntryOf(codec, s, es[n].op), es[n].op.at.audit));
      }
    }
  }

  // Every row's old value is the replayed value at its point.
  ghost predicate OldReplayed(codec: Codec, log: seq<Audit.Row>) {
    forall i :: 0 <= i < |log| ==>
                  log[i].entry.oldValues == codec.encode(Lookup(Replay(codec, log[..i]), log[i].entry.publicId))
  }

  lemma OldReplayedSnoc(codec: Codec, log: seq<Audit.Row>, r: Audit.Row)
    requires OldReplayed(codec, log)
    requires r.entry.oldValues == codec.encode(Lookup(Replay(codec, log), r.entry.publicId))
    ensures OldReplayed(codec, log + [r])
  {
    var longer := log + [r];
    forall i | 0 <= i < |longer|
      ensures longer[i].entry.oldValues == codec.encode(Lookup(Replay(codec, longer[..i]), longer[i].entry.publicId))
    {
      assert longer[..i] == log[..i];
      assert i == |log| ==> log[..i] == log;
    }
  }

  /** Every audit row's old value is what replaying the rows before it gives. */
  lemma {:induction false} OldValuesAreReplayed(codec: Codec, users: map<int, bool>, outbox: Outbox.Table,
                                                es: seq<Event>)
    requires GoodCodec(codec)
    ensures OldReplayed(codec, Run(codec, Start(users, outbox), es).audit)
    decreases |es|
  {
    if es != [] {
      var n := |es| - 1;
      OldValuesAreReplayed(codec, users, outbox, es[..n]);
      ReplayRebuilds(codec, users, outbox, es[..n]);
      var s := Run(codec, Start(users, outbox), es[..n]);
      StepAddsOne(codec, s, es[n]);
      if Effective(s, es[n]) {
        StepKeyed(codec, s, es[n].op);
        StepShows(codec, s, es[n].op);
        var r := Audit.RowFor(codec.hash, s.audit, EntryOf(codec, s, es[n].op), es[n].op.at.audit);
        OldReplayedSnoc(codec, s.audit, r);
      }
    }
  }

  // ---------------------------------------------------------------- the hash chain

  // Public ids and formatted times have no bar in them.
  predicate CleanOp(op: Op) {
    Audit.NoBar(op.pid) && Audit.NoBar(op.at.audit)
  }

  ghost predicate CleanRun(es: seq<Event>) {
    forall i :: 0 <= i < |es| && es[i].Attempt? ==> CleanOp(es[i].op)
  }

  lemma CleanRow(codec: Codec, s: Tables, op: Op)
    requires Answer(s, op).Ok? && Keyed(s.tasks) && CleanOp(op)
    ensures Audit.Clean(Audit.RowFor(codec.hash, s.audit, EntryOf(codec, s, op), op.at.audit))
  {
    StepKeyed(codec, s, op);
    ActionHasNoBar(op);
  }

  lemma ActionHasNoBar(op: Op)
    ensures Audit.NoBar(ActionOf(op))
  {
  }

  /** The audit log of a run is a valid chain. */
  lemma {:induction false} ChainStaysValid(codec: Codec, users: map<int, bool>, outbox: Outbox.Table, es: seq<Event>)
    requires GoodCodec(codec) && CleanRun(es)
    ensures var log := Run(codec, Start(users, outbox), es).audit;
            Audit.ValidChain(codec.hash, log) && Audit.AllClean(log)
    decreases |es|
  {
    if es != [] {
      var n := |es| - 1;
      ChainStaysValid(codec, users, outbox, es[..n]);
      ReplayRebuilds(codec, users, outbox, es[..n]);
      var s := Run(codec, Start(users, outbox), es[..n]);
      StepAddsOne(codec, s, es[n]);
      if Effective(s, es[n]) {
        CleanRow(codec, s, es[n].op);
        Audit.AppendKeepsChain(codec.hash, s.audit, EntryOf(codec, s, es[n].op), es[n].op.at.audit);
      }
    }
  }

  /** What the last hash of a run pins down against any other valid log, however it came
      about: the length, every hash, and every row without a bar in its JSON texts. */
  lemma RunLogPinned(codec: Codec, users: map<int, bool>, outbox: Outbox.Table, es: seq<Event>, b: seq<Audit.Row>)
    requires GoodCodec(codec) && Audit.GoodHash(codec.hash) && CleanRun(es)
    requires Audit.ValidChain(codec.hash, b)
    requires Audit.LastHash(b) == Audit.LastHash(Run(codec, Start(users, outbox), es).audit)
    ensures var log := Run(codec, Start(users, outbox), es).audit;
            && |b| == |log|
            && (forall i :: 0 <= i < |log| ==> b[i].prevHash == log[i].prevHash && b[i].currHash == log[i].currHash)
            && (forall i :: 0 <= i < |log| && Audit.NoBar(log[i].entry.oldValues) && Audit.NoBar(log[i].entry.newValues)
                  ==> Audit.SameColumns(log[i], b[i]))
  {
    ChainStaysValid(codec, users, outbox, es);
    Audit.TamperEvidence(codec.hash, Run(codec, Start(users, outbox), es).audit, b);
  }

  // A row that agrees with another, on the same replayed table, has its new value too.
  lemma SameNewValue(codec: Codec, a: seq<Audit.Row>, b: seq<Audit.Row>, i: nat)
    requires Audit.AllAgree(a, b) && OldReplayed(codec, a) && OldReplayed(codec, b) && i < |a|
    requires Replay(codec, a[..i]) == Replay(codec, b[..i])
    ensures a[i].entry.publicId == b[i].entry.publicId && a[i].entry.newValues == b[i].entry.newValues
  {
    assert Audit.Agree(a[i], b[i]);
    Audit.SplitAtLength(a[i].entry, b[i].entry);
  }

  lemma ReplayNext(codec: Codec, log: seq<Audit.Row>, i: nat)
    requires i < |log|
    ensures Replay(codec, log[..i + 1])
            == Put(Replay(codec, log[..i]), log[i].entry.publicId, codec.decode(log[i].entry.newValues))
  {
    assert log[..i + 1][..i] == log[..i];
  }

  // Logs that agree on what is hashed, with replayed old values, replay alike.
  lemma {:induction false} AgreeingLogsReplayAlike(codec: Codec, a: seq<Audit.Row>, b: seq<Audit.Row>, n: nat)
    requires Audit.AllAgree(a, b) && OldReplayed(codec, a) && OldReplayed(codec, b) && n <= |a|
    ensures Replay(codec, a[..n]) == Replay(codec, b[..n])
  {
    if n > 0 {
      AgreeingLogsReplayAlike(codec, a, b, n - 1);
      SameNewValue(codec, a, b, n - 1);
      ReplayNext(codec, a, n - 1);
      ReplayNext(codec, b, n - 1);
    }
  }

  /** The last hash commits to the whole table: two runs whose audit logs end in the same
      hash show the same tasks. */
  lemma SameHashSameTasks(codec: Codec, users: map<int, bool>, outbox: Outbox.Table, es: seq<Event>,
                          users': map<int, bool>, outbox': Outbox.Table, es': seq<Event>)
    requires GoodCodec(codec) && Audit.GoodHash(codec.hash) && CleanRun(es) && CleanRun(es')
    requires Audit.LastHash(Run(codec, Start(users, outbox), es).audit)
             == Audit.LastHash(Run(codec, Start(users', outbox'), es').audit)
    ensures Shown(Run(codec, Start(users, outbox), es).tasks) == Shown(Run(codec, Start(users', outbox'), es').tasks)
  {
    var a, b := Run(codec, Start(users, outbox), es).audit, Run(codec, Start(users', outbox'), es').audit;
    ChainStaysValid(codec, users, outbox, es);
    ChainStaysValid(codec, users', outbox', es');
    Audit.CleanLogsAgree(codec.hash, a, b);
    OldValuesAreReplayed(codec, users, outbox, es);
    OldValuesAreReplayed(codec, users', outbox', es');
    AgreeingLogsReplayAlike(codec, a, b, |a|);
    assert a[..|a|] == a && b[..|b|] == b;
    ReplayRebuilds(codec, users, outbox, es);
    ReplayRebuilds(codec, users', outbox', es');
  }

  // ---------------------------------------------------------------- assignment history

  // The assignee that a task's log rows lead to.
  function LastAssignee(logs: seq<TaskLog>, taskId: int): Option<int>
    decreases |logs|
  {
    if logs == [] then None
    else
      var n := |logs| - 1;
      if logs[n].taskId == taskId then logs[n].newAssignee else LastAssignee(logs[..n], taskId)
  }

  // Every log row starts from where its task's rows before it end.
  predicate Linked(logs: seq<TaskLog>)
    decreases |logs|
  {
    logs == [] ||
    var n := |logs| - 1;
    Linked(logs[..n]) && logs[n].oldAssignee == LastAssignee(logs[..n], logs[n].taskId)
  }

  predicate IdsBelow(s: Tables) {
    && (forall pid :: pid in s.tasks ==> s.tasks[pid].id < s.nextTask)
    && (forall i :: 0 <= i < |s.logs| ==> s.logs[i].taskId < s.nextTask)
  }

  predicate IdsDistinct(tasks: map<string, Task>) {
    forall p, q :: p in tasks && q in tasks && p != q ==> tasks[p].id != tasks[q].id
  }

  // The log rows of every task lead from no assignee to the present one.
  predicate LogsLead(s: Tables) {
    Linked(s.logs) && forall pid :: pid in s.tasks ==> LastAssignee(s.logs, s.tasks[pid].id) == s.tasks[pid].assignee
  }

  predicate History(s: Tables) {
    IdsBelow(s) && IdsDistinct(s.tasks) && LogsLead(s)
  }

  lemma {:induction false} NoRowsNoAssignee(logs: seq<TaskLog>, taskId: int)
    requires forall i :: 0 <= i < |logs| ==> logs[i].taskId != taskId
    ensures LastAssignee(logs, taskId) == None
    decreases |logs|
  {
    if logs != [] {
      NoRowsNoAssignee(logs[..|logs| - 1], taskId);
    }
  }

  lemma {:induction false} LogsWithoutKeeps(logs: seq<TaskLog>, gone: int, other: int)
    requires other != gone
    ensures LastAssignee(LogsWithout(logs, gone), other) == LastAssignee(logs, other)
    decreases |logs|
  {
    if logs != [] {
      var n := |logs| - 1;
      LogsWithoutKeeps(logs[..n], gone, other);
      if logs[n].taskId != gone {
        assert LogsWithout(logs, gone)[..|LogsWithout(logs, gone)| - 1] == LogsWithout(logs[..n], gone);
      }
    }
  }

  lemma {:induction false} LogsWithoutLinked(logs: seq<TaskLog>, gone: int)
    requires Linked(logs)
    ensures Linked(LogsWithout(logs, gone))
    decreases |logs|
  {
    if logs != [] {
      var n := |logs| - 1;
      LogsWithoutLinked(logs[..n], gone);
      if logs[n].taskId != gone {
        LogsWithoutKeeps(logs[..n], gone, logs[n].taskId);
        assert LogsWithout(logs, gone)[..|LogsWithout(logs, gone)| - 1] == LogsWithout(logs[..n], gone);
      }
    }
  }

  lemma {:induction false} LogsWithoutAmong(logs: seq<TaskLog>, gone: int, bound: int)
    requires forall i :: 0 <= i < |logs| ==> logs[i].taskId < bound
    ensures forall i :: 0 <= i < |LogsWithout(logs, gone)| ==>
                          LogsWithout(logs, gone)[i].taskId < bound && LogsWithout(logs, gone)[i].taskId != gone
    decreases |logs|
  {
    if logs != [] {
      LogsWithoutAmong(logs[..|logs| - 1], gone, bound);
    }
  }

  lemma CreateKeepsHistory(s: Tables, user: int, input: Input, pid: string, now: int)
    requires History(s) && pid !in s.tasks
    ensures History(AfterInsert(s, user, input, pid, now))
  {
    NoRowsNoAssignee(s.logs, s.nextTask);
  }

  lemma UpdateKeepsHistory(s: Tables, pid: string, input: Input, now: int)
    requires History(s) && pid in s.tasks
    ensures History(s.(tasks := s.tasks[pid := UpdatedTask(s.tasks[pid], input, now)]))
  {
  }

  lemma SameIdDistinct(tasks: map<string, Task>, pid: string, t: Task)
    requires pid in tasks && t.id == tasks[pid].id && IdsDistinct(tasks)
    ensures IdsDistinct(tasks[pid := t])
  {
  }

  lemma AssignLeads(s: Tables, pid: string, t: Task, log: TaskLog)
    requires pid in s.tasks && IdsDistinct(s.tasks) && LogsLead(s) && t.id == s.tasks[pid].id
    requires log.taskId == t.id && log.oldAssignee == s.tasks[pid].assignee && log.newAssignee == t.assignee
    ensures LogsLead(s.(tasks := s.tasks[pid := t], logs := s.logs + [log]))
  {
    var logs := s.logs + [log];
    assert logs[..|logs| - 1] == s.logs;
    forall p | p in s.tasks && p != pid ensures LastAssignee(logs, s.tasks[p].id) == s.tasks[p].assignee {
      assert s.tasks[p].id != log.taskId;
    }
  }

  lemma AssignKeepsHistory(s: Tables, pid: string, assignee: int, user: int, now: int, logNow: int)
    requires History(s) && pid in s.tasks
    ensures var t := AssignedTask(s.tasks[pid], assignee, now);
            History(s.(tasks := s.tasks[pid := t], logs := s.logs + [LogOf(s.tasks[pid], t, user, logNow)]))
  {
    var t := AssignedTask(s.tasks[pid], assignee, now);
    SameIdDistinct(s.tasks, pid, t);
    AssignLeads(s, pid, t, LogOf(s.tasks[pid], t, user, logNow));
  }

  lemma DeleteKeepsHistory(s: Tables, pid: string)
    requires History(s) && pid in s.tasks
    ensures History(WithoutTask(s, pid))
  {
    var gone := s.tasks[pid].id;
    LogsWithoutLinked(s.logs, gone);
    LogsWithoutAmong(s.logs, gone, s.nextTask);
    forall p | p in s.tasks && p != pid
      ensures LastAssignee(LogsWithout(s.logs, gone), s.tasks[p].id) == s.tasks[p].assignee
    {
      LogsWithoutKeeps(s.logs, gone, s.tasks[p].id);
    }
  }

  lemma StepKeepsHistory(codec: Codec, s: Tables, op: Op)
    requires Answer(s, op).Ok? && History(s)
    ensures History(After(codec, s, op))
  {
    match op
    case CreateOp(ctx, user, input, pid, at) => CreateKeepsHistory(s, user, input.Normalize(), pid, at.task);
    case UpdateOp(ctx, user, pid, input, at) => UpdateKeepsHistory(s, pid, input.Normalize(), at.task);
    case AssignOp(ctx, user, pid, assignee, at) => AssignKeepsHistory(s, pid, assignee, user, at.task, at.log);
    case DeleteOp(ctx, user, pid, at) => DeleteKeepsHistory(s, pid);
    SameHistory(TasksAfter(s, op), After(codec, s, op));
  }

  lemma SameHistory(s: Tables, s': Tables)
    requires History(s) && s'.tasks == s.tasks && s'.logs == s.logs && s'.nextTask == s.nextTask
    ensures History(s')
  {
  }

  /** At any point of a run every task's log rows lead, old to new, from no assignee to the
      one it has, across updates and other tasks' deletions. */
  lemma {:induction false} AssignmentsAreLogged(codec: Codec, users: map<int, bool>, outbox: Outbox.Table,
                                                es: seq<Event>)
    ensures History(Run(codec, Start(users, outbox), es))
    decreases |es|
  {
    if es != [] {
      var n := |es| - 1;
      AssignmentsAreLogged(codec, users, outbox, es[..n]);
      var s := Run(codec, Start(users, outbox), es[..n]);
      if Effective(s, es[n]) {
        StepKeepsHistory(codec, s, es[n].op);
      } else {
        SameHistory(s, Step(codec, s, es[n]));
      }
    }
  }
}
