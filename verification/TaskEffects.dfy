/**
  What each operation of the task service is for: which requests are accepted, and for
  those every field of every row that a committed operation leaves behind.
 */
module TaskEffects {
  import opened Wrappers
  import opened TaskStore
  import opened TaskService
  import Audit
  import Outbox
  import SqlGrammar

  // ---------------------------------------------------------------- who is accepted

  // Texts as trimmed: a title of 1 to 255 bytes, a description of at most 4096, and a
  // known status or none.
  predicate GoodInput(input: Input) {
    && 1 <= |SqlGrammar.Trim(input.title)| <= 255
    && |SqlGrammar.Trim(input.description)| <= 4096
    && SqlGrammar.Trim(input.status) in {"", "pending", "in_progress", "done"}
  }

  // User 0 is nobody; any other must have a row.
  predicate Known(s: Tables, user: int) {
    user == 0 || user in s.users
  }

  predicate OwnTask(s: Tables, user: int, pid: string) {
    pid in s.tasks && s.tasks[pid].userId == user
  }

  /** Creating: any known user, with good input, under a public id not in use. */
  lemma CreateAcceptedIff(s: Tables, ctx: Context, user: int, input: Input, pid: string, at: Stamp)
    ensures var answer := Answer(s, CreateOp(ctx, user, input, pid, at));
            && (answer == Ok(()) <==> GoodInput(input) && pid !in s.tasks && user in s.users && Known(s, ctx.userId))
            && (answer == Err(ValidationError) <==> !GoodInput(input))
            && (answer.Ok? || answer == Err(ValidationError) || answer == Err(InternalError))
  {
  }

  /** Updating: the owner alone, with good input; to others the task is not there. */
  lemma UpdateAcceptedIff(s: Tables, ctx: Context, user: int, pid: string, input: Input, at: Stamp)
    ensures var answer := Answer(s, UpdateOp(ctx, user, pid, input, at));
            && (answer == Ok(()) <==>
                  GoodInput(input) && OwnTask(s, user, pid) && Known(s, ctx.userId) && Known(s, user))
            && (answer == Err(ValidationError) <==> !GoodInput(input))
            && (answer == Err(NotFound) <==> GoodInput(input) && !OwnTask(s, user, pid))
  {
  }

  /** Assigning: the owner alone, to an active user; to others the task is not there. */
  lemma AssignAcceptedIff(s: Tables, ctx: Context, user: int, pid: string, assignee: int, at: Stamp)
    ensures var answer := Answer(s, AssignOp(ctx, user, pid, assignee, at));
            var active := assignee in s.users && s.users[assignee];
            && (answer == Ok(()) <==>
                  assignee != 0 && active && OwnTask(s, user, pid) && user in s.users && Known(s, ctx.userId))
            && (answer == Err(ValidationError) <==> assignee == 0 || (OwnTask(s, user, pid) && !active))
            && (answer == Err(NotFound) <==> assignee != 0 && !OwnTask(s, user, pid))
  {
  }

  /** Deleting: the owner alone. */
  lemma DeleteAcceptedIff(s: Tables, ctx: Context, user: int, pid: string, at: Stamp)
    ensures var answer := Answer(s, DeleteOp(ctx, user, pid, at));
            && (answer == Ok(()) <==> OwnTask(s, user, pid) && Known(s, ctx.userId) && Known(s, user))
            && (answer == Err(NotFound) <==> !OwnTask(s, user, pid))
            && answer != Err(ValidationError)
  {
  }

  // ---------------------------------------------------------------- what is left behind

  // The JSON that shows a task: everything but its row id and its owner.
  function Json(codec: Codec, t: Task): string {
    codec.encode(Some(TaskView(t.publicId, t.title, t.description, t.status, t.assignee, t.createdAt, t.updatedAt)))
  }

  // One event is added, pending and due at once, in the name of the request.
  predicate AddsEvent(s: Tables, s': Tables, ctx: Context, eventType: string, payload: string, now: int) {
    && s'.outbox.nextId == s.outbox.nextId + 1
    && s'.outbox.rows == s.outbox.rows[s.outbox.nextId := Outbox.Row(
         Outbox.Message(eventType, payload, Some(if ctx.correlationId != "" then ctx.correlationId else ctx.newId),
                        if ctx.userId == 0 then None else Some(ctx.userId)),
         Outbox.Pending, 0, Some(now), None, now)]
  }

  // One entry is added to the audit log, by this user, chained to the one before it.
  predicate AddsEntry(codec: Codec, s: Tables, s': Tables, user: int, action: string, id: int, pid: string,
                      before: string, after: string, at: string)
  {
    && |s'.audit| == |s.audit| + 1 && s'.audit[..|s.audit|] == s.audit
    && var r := s'.audit[|s.audit|];
       && r.entry == Audit.Entry(if user == 0 then None else Some(user), action, "task", id, pid, before, after)
       && r.at == at
       && r.prevHash == (if s.audit == [] then Audit.GENESIS_HASH else s.audit[|s.audit| - 1].currHash)
       && r.currHash == codec.hash(Audit.HashText(r.prevHash, r.entry, at))
  }

  /** A created task has what was asked for, pending unless another status was, nobody
      assigned, and the creator as its owner. */
  lemma CreateEffect(codec: Codec, s: Tables, ctx: Context, user: int, input: Input, pid: string, at: Stamp)
    requires Answer(s, CreateOp(ctx, user, input, pid, at)).Ok?
    ensures var s' := After(codec, s, CreateOp(ctx, user, input, pid, at));
            var status := SqlGrammar.Trim(input.status);
            var t := Task(s.nextTask, pid, user, SqlGrammar.Trim(input.title), SqlGrammar.Trim(input.description),
                          if status == "" then "pending" else status, None, at.task, at.task);
            && s'.tasks == s.tasks[pid := t] && s'.nextTask == s.nextTask + 1
            && s'.users == s.users && s'.logs == s.logs
            && AddsEvent(s, s', ctx, "task.created", Json(codec, t), at.event)
            && AddsEntry(codec, s, s', user, "CREATE", t.id, pid, codec.encode(None), Json(codec, t), at.audit)
  {
  }

  /** An updated task has the new title, description and status, pending if none was given,
      and the time of the update; all else of it, and all other tasks, are as they were. */
  lemma UpdateEffect(codec: Codec, s: Tables, ctx: Context, user: int, pid: string, input: Input, at: Stamp)
    requires Answer(s, UpdateOp(ctx, user, pid, input, at)).Ok?
    ensures var s', t := After(codec, s, UpdateOp(ctx, user, pid, input, at)), s.tasks[pid];
            var status := SqlGrammar.Trim(input.status);
            var u := Task(t.id, t.publicId, user, SqlGrammar.Trim(input.title), SqlGrammar.Trim(input.description),
                          if status == "" then "pending" else status, t.assignee, t.createdAt, at.task);
            && s'.tasks == s.tasks[pid := u] && s'.nextTask == s.nextTask && s'.users == s.users && s'.logs == s.logs
            && AddsEvent(s, s', ctx, "task.updated", Json(codec, u), at.event)
            && AddsEntry(codec, s, s', user, "UPDATE", t.id, t.publicId, Json(codec, t), Json(codec, u), at.audit)
  {
  }

  /** An assigned task has the assignee asked for and the time of the assignment, all else as
      it was; its log has one row more, from the old assignee to the new one. */
  lemma AssignEffect(codec: Codec, s: Tables, ctx: Context, user: int, pid: string, assignee: int, at: Stamp)
    requires Answer(s, AssignOp(ctx, user, pid, assignee, at)).Ok?
    ensures var s', t := After(codec, s, AssignOp(ctx, user, pid, assignee, at)), s.tasks[pid];
            var u := Task(t.id, t.publicId, user, t.title, t.description, t.status, Some(assignee), t.createdAt,
                          at.task);
            && s'.tasks == s.tasks[pid := u] && s'.nextTask == s.nextTask && s'.users == s.users
            && s'.logs == s.logs + [TaskLog(t.id, user, "assign", t.assignee, Some(assignee),
                                            if user == 0 then None else Some(user), at.log)]
            && AddsEvent(s, s', ctx, "task.assigned", codec.assignment(pid, assignee), at.event)
            && AddsEntry(codec, s, s', user, "ASSIGN", t.id, t.publicId, Json(codec, t), Json(codec, u), at.audit)
  {
  }

  // The log rows of one task, in order.
  function RowsOf(logs: seq<TaskLog>, taskId: int): seq<TaskLog>
    decreases |logs|
  {
    if logs == [] then []
    else if logs[0].taskId == taskId then [logs[0]] + RowsOf(logs[1..], taskId)
    else RowsOf(logs[1..], taskId)
  }

  lemma {:induction false} RowsOfSnoc(logs: seq<TaskLog>, l: TaskLog, taskId: int)
    ensures RowsOf(logs + [l], taskId) == RowsOf(logs, taskId) + if l.taskId == taskId then [l] else []
    decreases |logs|
  {
    if logs == [] {
      assert [l][1..] == [];
    } else {
      assert (logs + [l])[1..] == logs[1..] + [l];
      RowsOfSnoc(logs[1..], l, taskId);
    }
  }

  lemma {:induction false} RowsOfOthersStay(logs: seq<TaskLog>, gone: int, other: int)
    ensures RowsOf(LogsWithout(logs, gone), other) == if other == gone then [] else RowsOf(logs, other)
    decreases |logs|
  {
    if logs != [] {
      var n := |logs| - 1;
      RowsOfOthersStay(logs[..n], gone, other);
      assert logs == logs[..n] + [logs[n]];
      RowsOfSnoc(logs[..n], logs[n], other);
      RowsOfSnoc(LogsWithout(logs[..n], gone), logs[n], other);
    }
  }

  /** A deleted task is gone with its log rows; other tasks and their log rows, in their
      order, are as they were. */
  lemma DeleteEffect(codec: Codec, s: Tables, ctx: Context, user: int, pid: string, at: Stamp)
    requires Answer(s, DeleteOp(ctx, user, pid, at)).Ok?
    ensures var s', t := After(codec, s, DeleteOp(ctx, user, pid, at)), s.tasks[pid];
            && s'.tasks == s.tasks - {pid} && s'.nextTask == s.nextTask && s'.users == s.users
            && (forall other :: RowsOf(s'.logs, other) == if other == t.id then [] else RowsOf(s.logs, other))
            && AddsEvent(s, s', ctx, "task.deleted", codec.deletion(pid), at.event)
            && AddsEntry(codec, s, s', user, "DELETE", t.id, t.publicId, Json(codec, t), codec.encode(None), at.audit)
  {
    forall other
      ensures RowsOf(LogsWithout(s.logs, s.tasks[pid].id), other)
              == if other == s.tasks[pid].id then [] else RowsOf(s.logs, other)
    {
      RowsOfOthersStay(s.logs, s.tasks[pid].id, other);
    }
  }
}
