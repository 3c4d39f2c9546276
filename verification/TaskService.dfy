/**
  The task service: every operation is one transaction over the tasks, their logs, the
  outbox and the audit log.
 */
module TaskService {
  import opened Wrappers
  import opened TaskStore
  import Audit

  // The clock readings of an operation.
  datatype Stamp = Stamp(task: int, event: int, log: int, audit: string)

  // The operations with what they are given; a created task's public id is drawn.
  datatype Op =
    | CreateOp(ctx: Context, user: int, input: Input, pid: string, at: Stamp)
    | UpdateOp(ctx: Context, user: int, pid: string, input: Input, at: Stamp)
    | AssignOp(ctx: Context, user: int, pid: string, assignee: int, at: Stamp)
    | DeleteOp(ctx: Context, user: int, pid: string, at: Stamp)

  // The answer to an operation when nothing goes wrong.
  function Answer(s: Tables, op: Op): Outcome<()> {
    match op
    case CreateOp(ctx, user, input, pid, at) =>
      if !input.Normalize().Valid() then Err(ValidationError)
      else if pid in s.tasks || user !in s.users || !Refers(s, UserOrNull(ctx.userId)) then Err(InternalError)
      else Ok(())
    case UpdateOp(ctx, user, pid, input, at) =>
      if !input.Normalize().Valid() then Err(ValidationError)
      else if !Owns(s, user, pid) then Err(NotFound)
      else if !Refers(s, UserOrNull(ctx.userId)) || !Refers(s, UserOrNull(user)) then Err(InternalError)
      else Ok(())
    case AssignOp(ctx, user, pid, assignee, at) =>
      if assignee == 0 then Err(ValidationError)
      else if !Owns(s, user, pid) then Err(NotFound)
      else if assignee !in s.users || !s.users[assignee] then Err(ValidationError)
      else if user !in s.users || !Refers(s, UserOrNull(ctx.userId)) then Err(InternalError)
      else Ok(())
    case DeleteOp(ctx, user, pid, at) =>
      if !Owns(s, user, pid) then Err(NotFound)
      else if !Refers(s, UserOrNull(ctx.userId)) || !Refers(s, UserOrNull(user)) then Err(InternalError)
      else Ok(())
  }

  // The task before and after an operation that is accepted.
  function Before(s: Tables, op: Op): Option<Task> {
    if !op.CreateOp? && op.pid in s.tasks then Some(s.tasks[op.pid]) else None
  }

  function Result(s: Tables, op: Op): Option<Task>
    requires Answer(s, op).Ok?
  {
    match op
    case CreateOp(ctx, user, input, pid, at) => Some(InsertedTask(s, user, input.Normalize(), pid, at.task))
    case UpdateOp(ctx, user, pid, input, at) => Some(UpdatedTask(s.tasks[pid], input.Normalize(), at.task))
    case AssignOp(ctx, user, pid, assignee, at) => Some(AssignedTask(s.tasks[pid], assignee, at.task))
    case DeleteOp(ctx, user, pid, at) => None
  }

  function ActionOf(op: Op): string {
    match op
    case CreateOp(ctx, user, input, pid, at) => "CREATE"
    case UpdateOp(ctx, user, pid, input, at) => "UPDATE"
    case AssignOp(ctx, user, pid, assignee, at) => "ASSIGN"
    case DeleteOp(ctx, user, pid, at) => "DELETE"
  }

  function EntryOf(codec: Codec, s: Tables, op: Op): Audit.Entry
    requires Answer(s, op).Ok?
  {
    var before, after := Before(s, op), Result(s, op);
    EntryFor(codec, op.user, ActionOf(op), if after.Some? then after.value else before.value, before, after)
  }

  function LogOf(before: Task, after: Task, user: int, now: int): TaskLog {
    TaskLog(after.id, after.userId, "assign", before.assignee, after.assignee, UserOrNull(user), now)
  }

  // The task tables after an operation.
  function TasksAfter(s: Tables, op: Op): Tables
    requires Answer(s, op).Ok?
  {
    match op
    case CreateOp(ctx, user, input, pid, at) => AfterInsert(s, user, input.Normalize(), pid, at.task)
    case UpdateOp(ctx, user, pid, input, at) =>
      s.(tasks := s.tasks[pid := UpdatedTask(s.tasks[pid], input.Normalize(), at.task)])
    case AssignOp(ctx, user, pid, assignee, at) =>
      var t := AssignedTask(s.tasks[pid], assignee, at.task);
      s.(tasks := s.tasks[pid := t], logs := s.logs + [LogOf(s.tasks[pid], t, user, at.log)])
    case DeleteOp(ctx, user, pid, at) => WithoutTask(s, pid)
  }

  function EventTypeOf(op: Op): string {
    match op
    case CreateOp(ctx, user, input, pid, at) => "task.created"
    case UpdateOp(ctx, user, pid, input, at) => "task.updated"
    case AssignOp(ctx, user, pid, assignee, at) => "task.assigned"
    case DeleteOp(ctx, user, pid, at) => "task.deleted"
  }

  function PayloadOf(codec: Codec, s: Tables, op: Op): string
    requires Answer(s, op).Ok?
  {
    match op
    case CreateOp(ctx, user, input, pid, at) => codec.encode(ViewOf(Result(s, op)))
    case UpdateOp(ctx, user, pid, input, at) => codec.encode(ViewOf(Result(s, op)))
    case AssignOp(ctx, user, pid, assignee, at) => codec.assignment(pid, assignee)
    case DeleteOp(ctx, user, pid, at) => codec.deletion(pid)
  }

  // All tables after an operation: one more outbox row and one more audit row.
  function After(codec: Codec, s: Tables, op: Op): Tables
    requires Answer(s, op).Ok?
  {
    var s' := WithEvent(TasksAfter(s, op), op.ctx, EventTypeOf(op), PayloadOf(codec, s, op), op.at.event);
    WithAudit(s', codec, EntryOf(codec, s, op), op.at.audit)
  }

  function Failure<T, U>(r: Outcome<T>): Outcome<U>
    requires !r.Ok?
  {
    if r.Err? then Err(r.error) else Panicked
  }

  class Service {
    const db: Database
    const codec: Codec

    constructor (db: Database, codec: Codec)
      ensures this.db == db && this.codec == codec
    {
      this.db, this.codec := db, codec;
    }

    // All or nothing: an operation that is answered Ok has had its whole effect, and
    // any other none, whatever statement failed or panicked.
    twostate predicate Atomic(op: Op, done: bool)
      reads db
    {
      && !db.open
      && (done ==> Answer(old(db.committed), op).Ok? && db.committed == After(codec, old(db.committed), op))
      && (!done ==> db.committed == old(db.committed))
    }

    // What holds of the transaction's function before the commit.
    twostate predicate Prepared(op: Op, done: bool)
      reads db
    {
      && db.open && db.committed == old(db.committed)
      && (done ==> Answer(old(db.working), op).Ok? && db.working == After(codec, old(db.working), op))
    }

    // A task operation's answer when nothing went wrong.
    twostate predicate Answered(s: Tables, op: Op, r: Outcome<Task>)
      reads db
    {
      && (db.Undisturbed(old(db.step)) ==>
            (r.Ok? <==> Answer(s, op).Ok?) && (r.Err? ==> Answer(s, op) == Err(r.error)) && !r.Panicked?)
      && (r.Ok? ==> Answer(s, op).Ok? && Result(s, op) == Some(r.value))
      && (r.Err? ==> Answer(s, op) == Err(r.error) || r.error == InternalError)
    }

    method LogAudit(user: int, action: string, t: Task, before: Option<Task>, after: Option<Task>, at: string)
      returns (r: Outcome<()>)
      requires db.open
      modifies db`working, db`step
      ensures old(db.step) < db.step
      ensures var e := EntryFor(codec, user, action, t, before, after);
              r.Ok? ==> Refers(old(db.working), UserOrNull(user))
                        && db.working == WithAudit(old(db.working), codec, e, at)
      ensures db.Undisturbed(old(db.step)) ==>
                r == if Refers(old(db.working), UserOrNull(user)) then Ok(()) else Err(InternalError)
      ensures r.Err? ==> r.error == InternalError
    {
      var oldJSON := codec.encode(ViewOf(before));
      var newJSON := codec.encode(ViewOf(after));
      var actor := None;
      if user != 0 {
        actor := Some(user);
      }
      r := db.LogTx(codec, Audit.Entry(actor, action, "task", t.id, t.publicId, oldJSON, newJSON), at);
    }

    method CreateIn(ctx: Context, user: int, input: Input, pid: string, at: Stamp, ghost op: Op)
      returns (r: Outcome<Task>)
      requires db.open && input.Valid() && op.CreateOp? && input == op.input.Normalize()
      requires op == CreateOp(ctx, user, op.input, pid, at)
      modifies db`working, db`step
      ensures Prepared(op, r.Ok?) && Answered(old(db.working), op, r)
      ensures old(db.step) <= db.step
    {
      var t := db.InsertTask(user, input, pid, at.task);
      if !t.Ok? {
        return t;
      }
      var added := db.AddEvent(ctx, "task.created", codec.encode(Some(View(t.value))), at.event);
      if !added.Ok? {
        return Failure(added);
      }
      var logged := LogAudit(user, "CREATE", t.value, None, Some(t.value), at.audit);
      if !logged.Ok? {
        return Failure(logged);
      }
      r := t;
    }

    method Create(ctx: Context, user: int, input: Input, pid: string, at: Stamp) returns (r: Outcome<Task>)
      requires !db.open
      modifies db
      ensures Atomic(CreateOp(ctx, user, input, pid, at), r.Ok?)
      ensures Answered(old(db.committed), CreateOp(ctx, user, input, pid, at), r)
    {
      var normal := input.Normalize();
      var msgs := normal.Validate();
      if |msgs| > 0 {
        return Err(ValidationError);
      }
      var begun := db.Begin();
      if !begun.Ok? {
        return Failure(begun);
      }
      r := CreateIn(ctx, user, normal, pid, at, CreateOp(ctx, user, input, pid, at));
      r := db.End(r);
    }

    method UpdateIn(ctx: Context, user: int, pid: string, input: Input, at: Stamp, ghost op: Op)
      returns (r: Outcome<Task>)
      requires db.open && input.Valid() && op.UpdateOp? && input == op.input.Normalize()
      requires op == UpdateOp(ctx, user, pid, op.input, at)
      modifies db`working, db`step
      ensures Prepared(op, r.Ok?) && Answered(old(db.working), op, r)
      ensures old(db.step) <= db.step
    {
      var before := db.FindTx(user, pid);
      if !before.Ok? {
        return before;
      }
      var t := db.UpdateTask(user, pid, input, at.task);
      if !t.Ok? {
        return t;
      }
      var added := db.AddEvent(ctx, "task.updated", codec.encode(Some(View(t.value))), at.event);
      if !added.Ok? {
        return Failure(added);
      }
      var logged := LogAudit(user, "UPDATE", t.value, Some(before.value), Some(t.value), at.audit);
      if !logged.Ok? {
        return Failure(logged);
      }
      r := t;
    }

    method Update(ctx: Context, user: int, pid: string, input: Input, at: Stamp) returns (r: Outcome<Task>)
      requires !db.open
      modifies db
      ensures Atomic(UpdateOp(ctx, user, pid, input, at), r.Ok?)
      ensures Answered(old(db.committed), UpdateOp(ctx, user, pid, input, at), r)
    {
      var normal := input.Normalize();
      var msgs := normal.Validate();
      if |msgs| > 0 {
        return Err(ValidationError);
      }
      var begun := db.Begin();
      if !begun.Ok? {
        return Failure(begun);
      }
      r := UpdateIn(ctx, user, pid, normal, at, UpdateOp(ctx, user, pid, input, at));
      r := db.End(r);
    }

    method AssignIn(ctx: Context, user: int, pid: string, assignee: int, at: Stamp) returns (r: Outcome<Task>)
      requires db.open && assignee != 0
      modifies db`working, db`step
      ensures Prepared(AssignOp(ctx, user, pid, assignee, at), r.Ok?)
      ensures Answered(old(db.working), AssignOp(ctx, user, pid, assignee, at), r)
      ensures old(db.step) <= db.step
    {
      var task := db.FindTx(user, pid);
      if !task.Ok? {
        return task;
      }
      var active := db.AssertActiveUser(assignee);
      if !active.Ok? {
        if active == Err(NotFound) {
          return Err(ValidationError);
        }
        return Failure(active);
      }
      var oldAssignee := task.value.assignee;
      var updated := db.AssignTask(user, pid, assignee, at.task);
      if !updated.Ok? {
        return updated;
      }
      var actor := None;
      if user != 0 {
        actor := Some(user);
      }
      var t := updated.value;
      var noted := db.InsertLog(TaskLog(t.id, t.userId, "assign", oldAssignee, t.assignee, actor, at.log));
      if !noted.Ok? {
        return Failure(noted);
      }
      var added := db.AddEvent(ctx, "task.assigned", codec.assignment(pid, assignee), at.event);
      if !added.Ok? {
        return Failure(added);
      }
      var logged := LogAudit(user, "ASSIGN", t, Some(task.value), Some(t), at.audit);
      if !logged.Ok? {
        return Failure(logged);
      }
      r := updated;
    }

    method Assign(ctx: Context, user: int, pid: string, assignee: int, at: Stamp) returns (r: Outcome<Task>)
      requires !db.open
      modifies db
      ensures Atomic(AssignOp(ctx, user, pid, assignee, at), r.Ok?)
      ensures Answered(old(db.committed), AssignOp(ctx, user, pid, assignee, at), r)
    {
      if assignee == 0 {
        return Err(ValidationError);
      }
      var begun := db.Begin();
      if !begun.Ok? {
        return Failure(begun);
      }
      r := AssignIn(ctx, user, pid, assignee, at);
      r := db.End(r);
    }

    method DeleteIn(ctx: Context, user: int, pid: string, at: Stamp) returns (r: Outcome<()>)
      requires db.open
      modifies db`working, db`step
      ensures Prepared(DeleteOp(ctx, user, pid, at), r.Ok?)
      ensures db.Undisturbed(old(db.step)) ==> r == Answer(old(db.working), DeleteOp(ctx, user, pid, at))
      ensures r.Err? ==> r == Answer(old(db.working), DeleteOp(ctx, user, pid, at)) || r.error == InternalError
      ensures old(db.step) <= db.step
    {
      var before := db.FindTx(user, pid);
      if !before.Ok? {
        return Failure(before);
      }
      r := db.DeleteTask(user, pid);
      if !r.Ok? {
        return;
      }
      r := db.AddEvent(ctx, "task.deleted", codec.deletion(pid), at.event);
      if !r.Ok? {
        return;
      }
      r := LogAudit(user, "DELETE", before.value, Some(before.value), None, at.audit);
    }

    method Delete(ctx: Context, user: int, pid: string, at: Stamp) returns (r: Outcome<()>)
      requires !db.open
      modifies db
      ensures Atomic(DeleteOp(ctx, user, pid, at), r.Ok?)
      ensures db.Undisturbed(old(db.step)) ==> r == Answer(old(db.committed), DeleteOp(ctx, user, pid, at))
      ensures r.Err? ==> r == Answer(old(db.committed), DeleteOp(ctx, user, pid, at)) || r.error == InternalError
    {
      r := db.Begin();
      if r.Ok? {
        r := DeleteIn(ctx, user, pid, at);
        r := db.End(r);
      }
    }
  }
}
