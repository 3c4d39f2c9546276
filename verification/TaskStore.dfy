/**
  Tasks and the tables that change with them, on SQLite: the values of the tables, what
  each statement does to them, and a database whose statements run one by one inside
  a transaction and may fail or panic at any point.
 */
module TaskStore {
  import opened Wrappers
  import Audit
  import Outbox
  import SqlGrammar

  // ---------------------------------------------------------------- values

  datatype Task = Task(id: int, publicId: string, userId: int, title: string, description: string, status: string,
                       assignee: Option<int>, createdAt: int, updatedAt: int)

  // What a task's JSON shows: all but the row id and the owner.
  datatype TaskView = TaskView(publicId: string, title: string, description: string, status: string,
                               assignee: Option<int>, createdAt: int, updatedAt: int)

  function View(t: Task): TaskView {
    TaskView(t.publicId, t.title, t.description, t.status, t.assignee, t.createdAt, t.updatedAt)
  }

  function ViewOf(t: Option<Task>): Option<TaskView> {
    if t.Some? then Some(View(t.value)) else None
  }

  datatype TaskLog = TaskLog(taskId: int, userId: int, action: string, oldAssignee: Option<int>,
                             newAssignee: Option<int>, actor: Option<int>, at: int)

  // users holds every user row and whether it is active and not deleted. Tasks are
  // keyed by their unique public id.
  datatype Tables = Tables(tasks: map<string, Task>, nextTask: int, users: map<int, bool>, logs: seq<TaskLog>,
                           outbox: Outbox.Table, audit: seq<Audit.Row>)

  // JSON texts after redaction, which leaves task fields alone; None is null.
  datatype Codec = Codec(encode: Option<TaskView> -> string, decode: string -> Option<TaskView>,
                         assignment: (string, int) -> string, deletion: string -> string, hash: Audit.Hash)

  datatype AppError = ValidationError | NotFound | InternalError

  datatype Outcome<+T> = Ok(value: T) | Err(error: AppError) | Panicked

  // ---------------------------------------------------------------- input

  const STATUS_PENDING := "pending"
  const STATUS_IN_PROGRESS := "in_progress"
  const STATUS_DONE := "done"

  // Texts are byte strings: a char is a byte, as len counts them.
  predicate IsValidStatus(s: string) {
    s == STATUS_PENDING || s == STATUS_IN_PROGRESS || s == STATUS_DONE
  }

  datatype Input = Input(title: string, description: string, status: string) {

    function Normalize(): Input {
      Input(SqlGrammar.Trim(title), SqlGrammar.Trim(description), SqlGrammar.Trim(status))
    }

    predicate Valid() {
      title != "" && |title| <= 255 && |description| <= 4096 && (status == "" || IsValidStatus(status))
    }

    // The first rule the input breaks.
    method Validate() returns (msgs: seq<string>)
      ensures msgs == [] <==> Valid()
      ensures msgs == [] <==> 1 <= |title| <= 255 && |description| <= 4096
                              && status in {"", "pending", "in_progress", "done"}
      ensures |msgs| <= 1
      ensures title == "" ==> msgs == ["title is required"]
      ensures |title| > 255 ==> msgs == ["title must be 255 characters or fewer"]
      ensures 1 <= |title| <= 255 && |description| > 4096 ==> msgs == ["description must be 4096 characters or fewer"]
      ensures 1 <= |title| <= 255 && |description| <= 4096 && msgs != [] ==>
                msgs == ["status must be pending, in_progress, or done"]
    {
      if title == "" {
        return ["title is required"];
      }
      if |title| > 255 {
        return ["title must be 255 characters or fewer"];
      }
      if |description| > 4096 {
        return ["description must be 4096 characters or fewer"];
      }
      if status != "" && !IsValidStatus(status) {
        return ["status must be pending, in_progress, or done"];
      }
      return [];
    }

    function StatusOrPending(): string {
      if status == "" then STATUS_PENDING else status
    }
  }

  // ---------------------------------------------------------------- statements

  // A nullable reference to a user row.
  predicate Refers(s: Tables, user: Option<int>) {
    user.Some? ==> user.value in s.users
  }

  // User 0 stands for none.
  function UserOrNull(user: int): Option<int> {
    if user != 0 then Some(user) else None
  }

  predicate Owns(s: Tables, user: int, pid: string) {
    pid in s.tasks && s.tasks[pid].userId == user
  }

  function InsertedTask(s: Tables, user: int, input: Input, pid: string, now: int): Task {
    Task(s.nextTask, pid, user, input.title, input.description, input.StatusOrPending(), None, now, now)
  }

  function AfterInsert(s: Tables, user: int, input: Input, pid: string, now: int): Tables {
    s.(tasks := s.tasks[pid := InsertedTask(s, user, input, pid, now)], nextTask := s.nextTask + 1)
  }

  function UpdatedTask(t: Task, input: Input, now: int): Task {
    t.(title := input.title, description := input.description, status := input.StatusOrPending(), updatedAt := now)
  }

  function AssignedTask(t: Task, assignee: int, now: int): Task {
    t.(assignee := Some(assignee), updatedAt := now)
  }

  function LogsWithout(logs: seq<TaskLog>, taskId: int): seq<TaskLog> {
    if logs == [] then []
    else
      var n := |logs| - 1;
      var others := LogsWithout(logs[..n], taskId);
      if logs[n].taskId == taskId then others else others + [logs[n]]
  }

  // Deleting a task takes its log rows with it.
  function WithoutTask(s: Tables, pid: string): Tables
    requires pid in s.tasks
  {
    s.(tasks := s.tasks - {pid}, logs := LogsWithout(s.logs, s.tasks[pid].id))
  }

  // What a request carries along; a request without a correlation id gets a new one.
  datatype Context = Context(correlationId: string, newId: string, userId: int)

  function MessageFor(ctx: Context, eventType: string, payload: string): Outbox.Message {
    Outbox.Message(eventType, payload, Some(if ctx.correlationId == "" then ctx.newId else ctx.correlationId),
                   UserOrNull(ctx.userId))
  }

  function WithEvent(s: Tables, ctx: Context, eventType: string, payload: string, now: int): Tables {
    s.(outbox := Outbox.AfterAdd(s.outbox, MessageFor(ctx, eventType, payload), now))
  }

  function EntryFor(codec: Codec, user: int, action: string, t: Task, before: Option<Task>, after: Option<Task>)
    : Audit.Entry
  {
    Audit.Entry(UserOrNull(user), action, "task", t.id, t.publicId,
                codec.encode(ViewOf(before)), codec.encode(ViewOf(after)))
  }

  function WithAudit(s: Tables, codec: Codec, e: Audit.Entry, at: string): Tables {
    s.(audit := s.audit + [Audit.RowFor(codec.hash, s.audit, e, at)])
  }

  // ---------------------------------------------------------------- database

  // What becomes of a statement, a begin or a commit.
  datatype Fate = Runs | Fails | Panics

  function Meets<T>(fate: Fate, r: Outcome<T>): Outcome<T> {
    match fate
    case Runs => r
    case Fails => Err(InternalError)
    case Panics => Panicked
  }

  ghost predicate AllRun(fates: nat -> Fate, from: nat, to: nat) {
    forall k: nat :: from <= k < to ==> fates(k) == Runs
  }

  // Transactions are serial: there is one connection.
  class Database {
    var committed: Tables
    var working: Tables
    var open: bool
    var step: nat
    const fates: nat -> Fate

    constructor (tables: Tables, fates: nat -> Fate)
      ensures committed == tables && !open && this.fates == fates
    {
      committed, working, open, step := tables, tables, false, 0;
      this.fates := fates;
    }

    // Nothing went wrong from this step on up to the present.
    ghost predicate Undisturbed(from: nat)
      reads this
    {
      AllRun(fates, from, step)
    }

    method Next() returns (fate: Fate)
      modifies this`step
      ensures step == old(step) + 1 && fate == fates(old(step))
    {
      fate := fates(step);
      step := step + 1;
    }

    // How ExecTx begins.
    method Begin() returns (r: Outcome<()>)
      requires !open
      modifies this`working, this`open, this`step
      ensures step == old(step) + 1 && r == Meets(fates(old(step)), Ok(()))
      ensures open == r.Ok? && (open ==> working == committed)
    {
      var fate := Next();
      r := Meets(fate, Ok(()));
      if r.Ok? {
        working := committed;
        open := true;
      }
    }

    // How ExecTx ends, given what the function it ran has come to.
    method End<T>(result: Outcome<T>) returns (r: Outcome<T>)
      requires open
      modifies this
      ensures !open && step == old(step) + if result.Ok? then 1 else 0
      ensures r == (if result.Ok? then Meets(fates(old(step)), result) else result)
      ensures committed == if r.Ok? then old(working) else old(committed)
    {
      r := result;
      if result.Ok? {
        var fate := Next();
        r := Meets(fate, result);
      }
      if r.Ok? {
        committed := working;
      } else {
        working := committed;
      }
      open := false;
    }

    method InsertTask(user: int, input: Input, pid: string, now: int) returns (r: Outcome<Task>)
      requires open
      modifies this`working, this`step
      ensures step == old(step) + 1
      ensures var s := old(working);
              && r == Meets(fates(old(step)), if pid in s.tasks || user !in s.users then Err(InternalError)
                                              else Ok(InsertedTask(s, user, input, pid, now)))
              && working == if r.Ok? then AfterInsert(s, user, input, pid, now) else s
      ensures r.Ok? ==> pid !in old(working).tasks && user in old(working).users
                        && r.value == Task(old(working).nextTask, pid, user, input.title, input.description,
                                           if input.status == "" then "pending" else input.status, None, now, now)
    {
      var fate := Next();
      var t := InsertedTask(working, user, input, pid, now);
      r := Meets(fate, if pid in working.tasks || user !in working.users then Err(InternalError) else Ok(t));
      if r.Ok? {
        working := working.(tasks := working.tasks[pid := t], nextTask := working.nextTask + 1);
      }
    }

    method FindTx(user: int, pid: string) returns (r: Outcome<Task>)
      requires open
      modifies this`step
      ensures step == old(step) + 1
      ensures r == Meets(fates(old(step)), if Owns(working, user, pid) then Ok(working.tasks[pid]) else Err(NotFound))
    {
      var fate := Next();
      r := Meets(fate, if Owns(working, user, pid) then Ok(working.tasks[pid]) else Err(NotFound));
    }

    method UpdateTask(user: int, pid: string, input: Input, now: int) returns (r: Outcome<Task>)
      requires open
      modifies this`working, this`step
      ensures step == old(step) + 1
      ensures var s := old(working);
              && r == Meets(fates(old(step)), if Owns(s, user, pid) then Ok(UpdatedTask(s.tasks[pid], input, now))
                                              else Err(NotFound))
              && working == if r.Ok? then s.(tasks := s.tasks[pid := r.value]) else s
      ensures r.Ok? ==>
                pid in old(working).tasks && old(working).tasks[pid].userId == user
                && var t := old(working).tasks[pid];
                   r.value == Task(t.id, t.publicId, t.userId, input.title, input.description,
                                   if input.status == "" then "pending" else input.status, t.assignee, t.createdAt, now)
    {
      var fate := Next();
      r := Meets(fate, if Owns(working, user, pid) then Ok(UpdatedTask(working.tasks[pid], input, now))
                       else Err(NotFound));
      if r.Ok? {
        working := working.(tasks := working.tasks[pid := r.value]);
      }
    }

    method AssertActiveUser(user: int) returns (r: Outcome<()>)
      requires open
      modifies this`step
      ensures step == old(step) + 1
      ensures r == Meets(fates(old(step)), if user in working.users && working.users[user] then Ok(())
                                           else Err(NotFound))
    {
      var fate := Next();
      r := Meets(fate, if user in working.users && working.users[user] then Ok(()) else Err(NotFound));
    }

    method AssignTask(user: int, pid: string, assignee: int, now: int) returns (r: Outcome<Task>)
      requires open
      modifies this`working, this`step
      ensures step == old(step) + 1
      ensures var s := old(working);
              && r == Meets(fates(old(step)), if !Owns(s, user, pid) then Err(NotFound)
                                              else if assignee !in s.users then Err(InternalError)
                                              else Ok(AssignedTask(s.tasks[pid], assignee, now)))
              && working == if r.Ok? then s.(tasks := s.tasks[pid := r.value]) else s
      ensures r.Ok? ==>
                pid in old(working).tasks && old(working).tasks[pid].userId == user && assignee in old(working).users
                && var t := old(working).tasks[pid];
                   r.value == Task(t.id, t.publicId, t.userId, t.title, t.description, t.status, Some(assignee),
                                   t.createdAt, now)
    {
      var fate := Next();
      r := Meets(fate, if !Owns(working, user, pid) then Err(NotFound)
                       else if assignee !in working.users then Err(InternalError)
                       else Ok(AssignedTask(working.tasks[pid], assignee, now)));
      if r.Ok? {
        working := working.(tasks := working.tasks[pid := r.value]);
      }
    }

    method InsertLog(log: TaskLog) returns (r: Outcome<()>)
      requires open
      modifies this`working, this`step
      ensures step == old(step) + 1
      ensures var s := old(working);
              && r == Meets(fates(old(step)), if log.userId in s.users then Ok(()) else Err(InternalError))
              && working == if r.Ok? then s.(logs := s.logs + [log]) else s
    {
      var fate := Next();
      r := Meets(fate, if log.userId in working.users then Ok(()) else Err(InternalError));
      if r.Ok? {
        working := working.(logs := working.logs + [log]);
      }
    }

    method DeleteTask(user: int, pid: string) returns (r: Outcome<()>)
      requires open
      modifies this`working, this`step
      ensures step == old(step) + 1
      ensures var s := old(working);
              && r == Meets(fates(old(step)), if Owns(s, user, pid) then Ok(()) else Err(NotFound))
              && working == if r.Ok? && pid in s.tasks then WithoutTask(s, pid) else s
    {
      var fate := Next();
      r := Meets(fate, if Owns(working, user, pid) then Ok(()) else Err(NotFound));
      if r.Ok? {
        working := WithoutTask(working, pid);
      }
    }

    // event.Add
    method AddEvent(ctx: Context, eventType: string, payload: string, now: int) returns (r: Outcome<()>)
      requires open
      modifies this`working, this`step
      ensures step == old(step) + 1
      ensures var s := old(working);
              && r == Meets(fates(old(step)), if Refers(s, UserOrNull(ctx.userId)) then Ok(()) else Err(InternalError))
              && working == if r.Ok? then WithEvent(s, ctx, eventType, payload, now) else s
    {
      var cid := ctx.correlationId;
      if cid == "" {
        cid := ctx.newId;
      }
      var userId := None;
      if ctx.userId != 0 {
        userId := Some(ctx.userId);
      }
      var fate := Next();
      r := Meets(fate, if Refers(working, userId) then Ok(()) else Err(InternalError));
      if r.Ok? {
        var m := Outbox.Message(eventType, payload, Some(cid), userId);
        working := working.(outbox := Outbox.AfterAdd(working.outbox, m, now));
      }
    }

    // Writer.LogTx: reads the last row's hash, then inserts the next row.
    method LogTx(codec: Codec, e: Audit.Entry, at: string) returns (r: Outcome<()>)
      requires open
      modifies this`working, this`step
      ensures old(step) < step <= old(step) + 2
      ensures var s := old(working);
              && (r.Ok? ==> Undisturbed(old(step)) && Refers(s, e.userId) && working == WithAudit(s, codec, e, at))
              && (!r.Ok? ==> working == s && (r.Err? ==> r.error == InternalError))
              && (Undisturbed(old(step)) ==> r == if Refers(s, e.userId) then Ok(()) else Err(InternalError))
    {
      var prevHash := Audit.GENESIS_HASH;
      var fate := Next();
      if fate != Runs {
        return Meets(fate, Ok(()));
      }
      if |working.audit| > 0 {
        prevHash := working.audit[|working.audit| - 1].currHash;
      }
      var currHash := Audit.ComputeHash(codec.hash, prevHash, e, at);
      fate := Next();
      r := Meets(fate, if Refers(working, e.userId) then Ok(()) else Err(InternalError));
      if r.Ok? {
        working := working.(audit := working.audit + [Audit.Row(e, prevHash, currHash, at)]);
      }
    }
  }
}
