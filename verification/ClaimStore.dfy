/**
  The idempotency_keys table (dbClaimStore) and the decision taken on a record
  that was read back from it (resolveConflict). Every statement is one atomic
  update of the table; the functions say what each one does, the class does it
  in place.
 */
module ClaimStore {
  import opened Wrappers
  import opened ResponseCapture

  datatype Scope = Scope(key: string, userId: int, path: string, verb: string)

  // What one request brings to the store: its scope, payload hash and deadline.
  datatype Request = Request(scope: Scope, hash: string, expiresAt: int)

  datatype Status = Processing | Completed | Failed

  datatype Response = Response(status: int, body: Bytes, contentType: string)

  // response holds the three nullable response columns.
  datatype Row = Row(scope: Scope, hash: string, status: Status, response: Option<Response>, expiresAt: int)

  // nextId is the AUTOINCREMENT counter: ids are never handed out twice.
  datatype Table = Table(rows: map<nat, Row>, nextId: nat)

  // The result of Get.
  datatype Record = Record(id: nat, row: Row)

  predicate HasScope(t: Table, scope: Scope) {
    exists id :: id in t.rows && t.rows[id].scope == scope
  }

  function ClaimRow(c: Request): Row {
    Row(c.scope, c.hash, Processing, None, c.expiresAt)
  }

  // INSERT ... ON CONFLICT DO NOTHING
  function AfterClaim(t: Table, c: Request): Table {
    if HasScope(t, c.scope) then t else Table(t.rows[t.nextId := ClaimRow(c)], t.nextId + 1)
  }

  // SELECT by the four scope columns
  predicate IsGet(t: Table, scope: Scope, rec: Option<Record>) {
    match rec
    case None => !HasScope(t, scope)
    case Some(r) => r.id in t.rows && t.rows[r.id] == r.row && r.row.scope == scope
  }

  predicate CanReclaimExpired(t: Table, id: nat, now: int) {
    id in t.rows && t.rows[id].expiresAt <= now
  }

  function AfterReclaimExpired(t: Table, id: nat, c: Request, now: int): Table {
    if CanReclaimExpired(t, id, now) then
      t.(rows := t.rows[id := Row(t.rows[id].scope, c.hash, Processing, None, c.expiresAt)])
    else t
  }

  predicate CanReclaimFailed(t: Table, id: nat, c: Request) {
    id in t.rows && t.rows[id].status == Failed && t.rows[id].hash == c.hash
  }

  // The response columns are left as they are.
  function AfterReclaimFailed(t: Table, id: nat, c: Request): Table {
    if CanReclaimFailed(t, id, c) then
      t.(rows := t.rows[id := t.rows[id].(status := Processing, expiresAt := c.expiresAt)])
    else t
  }

  // What a run reports at its end; Aborted stands for a panic or a 5xx status.
  datatype Outcome = Aborted | Success(response: Response)

  // Keyed by id alone.
  function AfterFinalize(t: Table, id: nat, res: Outcome, expiresAt: int): Table {
    if id !in t.rows then t
    else t.(rows := t.rows[id := match res
                                 case Aborted => t.rows[id].(status := Failed)
                                 case Success(r) => t.rows[id].(status := Completed, response := Some(r),
                                                                expiresAt := expiresAt)])
  }

  predicate Purgeable(r: Row, now: int) {
    r.expiresAt <= now && r.status in {Completed, Failed}
  }

  // The janitor's DELETE.
  function AfterPurge(t: Table, now: int): Table {
    t.(rows := map id | id in t.rows && !Purgeable(t.rows[id], now) :: t.rows[id])
  }

  datatype Refusal = Mismatch | Concurrent | Conflict

  datatype Decision =
    | TakeVanished
    | TryExpired(id: nat)
    | TryFailed(id: nat)
    | ReplayOf(response: Response)
    | Refuse(why: Refusal)

  const FALLBACK_CONTENT_TYPE := "application/json; charset=utf-8"

  function ReplayResponse(r: Response): Response {
    r.(contentType := if r.contentType != "" then r.contentType else FALLBACK_CONTENT_TYPE)
  }

  // What resolveConflict does with the record it read.
  function Decide(rec: Option<Record>, c: Request, now: int): Decision {
    match rec
    case None => TakeVanished
    case Some(r) =>
      if r.row.expiresAt <= now then TryExpired(r.id)
      else if r.row.hash != c.hash then Refuse(Mismatch)
      else if r.row.status == Processing then Refuse(Concurrent)
      else if r.row.status == Completed && r.row.response.Some? && r.row.response.value.status != 0 then
        ReplayOf(ReplayResponse(r.row.response.value))
      else if r.row.status != Failed then Refuse(Conflict)
      else TryFailed(r.id)
  }

  // How resolveConflict ends: answered, gone, or owning a row.
  datatype Resolution = Handled(answer: Decision) | VanishedRow | Reclaimed(id: nat)

  function Resolve(t: Table, rec: Option<Record>, c: Request, now: int, sqlNow: int): (Table, Resolution) {
    match Decide(rec, c, now)
    case TakeVanished => (t, VanishedRow)
    case TryExpired(id) =>
      (AfterReclaimExpired(t, id, c, sqlNow),
       if CanReclaimExpired(t, id, sqlNow) then Reclaimed(id) else Handled(Refuse(Concurrent)))
    case TryFailed(id) =>
      (AfterReclaimFailed(t, id, c),
       if CanReclaimFailed(t, id, c) then Reclaimed(id) else Handled(Refuse(Concurrent)))
    case answer => (t, Handled(answer))
  }

  class DbClaimStore {
    var rows: map<nat, Row>
    var nextId: nat

    constructor ()
      ensures Contents() == Table(map[], 1)
    {
      rows := map[];
      nextId := 1;
    }

    ghost function Contents(): Table
      reads this
    {
      Table(rows, nextId)
    }

    method Claim(c: Request) returns (id: nat, ok: bool)
      modifies this
      ensures ok <==> !HasScope(old(Contents()), c.scope)
      ensures Contents() == AfterClaim(old(Contents()), c)
      ensures ok <==> forall i :: i in old(rows) ==> old(rows)[i].scope != c.scope
      ensures ok ==> id == old(nextId) && nextId == id + 1
      ensures rows == if ok then old(rows)[id := Row(c.scope, c.hash, Processing, None, c.expiresAt)] else old(rows)
    {
      if exists id :: id in rows && rows[id].scope == c.scope {
        return 0, false;
      }
      id, ok := nextId, true;
      rows := rows[id := ClaimRow(c)];
      nextId := nextId + 1;
    }

    method Get(scope: Scope) returns (rec: Option<Record>)
      ensures IsGet(Contents(), scope, rec)
    {
      rec := None;
      var todo := rows.Keys;
      while todo != {}
        invariant todo <= rows.Keys
        invariant rec.Some? ==> IsGet(Contents(), scope, rec)
        invariant rec.None? ==> forall id | id in rows && id !in todo :: rows[id].scope != scope
        decreases |todo|
      {
        var id :| id in todo;
        todo := todo - {id};
        if rows[id].scope == scope {
          rec := Some(Record(id, rows[id]));
        }
      }
    }

    method ReclaimExpired(id: nat, c: Request, now: int) returns (ok: bool)
      modifies this
      ensures Contents() == AfterReclaimExpired(old(Contents()), id, c, now)
      ensures ok <==> id in old(rows) && old(rows)[id].expiresAt <= now
      ensures rows == if ok then old(rows)[id := Row(old(rows)[id].scope, c.hash, Processing, None, c.expiresAt)]
                      else old(rows)
    {
      ok := id in rows && rows[id].expiresAt <= now;
      if ok {
        rows := rows[id := Row(rows[id].scope, c.hash, Processing, None, c.expiresAt)];
      }
    }

    method ReclaimFailed(id: nat, c: Request) returns (ok: bool)
      modifies this
      ensures Contents() == AfterReclaimFailed(old(Contents()), id, c)
      ensures ok <==> id in old(rows) && old(rows)[id].status == Failed && old(rows)[id].hash == c.hash
      ensures rows == if ok then old(rows)[id := old(rows)[id].(status := Processing, expiresAt := c.expiresAt)]
                      else old(rows)
    {
      ok := id in rows && rows[id].status == Failed && rows[id].hash == c.hash;
      if ok {
        rows := rows[id := rows[id].(status := Processing, expiresAt := c.expiresAt)];
      }
    }

    method Finalize(id: nat, res: Outcome, expiresAt: int)
      modifies this
      ensures Contents() == AfterFinalize(old(Contents()), id, res, expiresAt)
      ensures rows.Keys == old(rows).Keys && forall i :: i in rows && i != id ==> rows[i] == old(rows)[i]
      ensures id in rows ==> rows[id].scope == old(rows)[id].scope && rows[id].hash == old(rows)[id].hash
      ensures id in rows && res.Aborted? ==>
                rows[id].status == Failed && rows[id].expiresAt == old(rows)[id].expiresAt
                && rows[id].response == old(rows)[id].response
      ensures id in rows && res.Success? ==>
                rows[id].status == Completed && rows[id].expiresAt == expiresAt
                && rows[id].response == Some(res.response)
    {
      if id in rows {
        match res {
          case Aborted =>
            rows := rows[id := rows[id].(status := Failed)];
          case Success(r) =>
            rows := rows[id := rows[id].(status := Completed, response := Some(r), expiresAt := expiresAt)];
        }
      }
    }

    method PurgeExpiredIdempotencyKeys(now: int) returns (purged: nat)
      modifies this
      ensures Contents() == AfterPurge(old(Contents()), now)
      ensures purged == |old(rows)| - |rows|
      ensures forall id :: id in rows ==> id in old(rows) && rows[id] == old(rows)[id]
      ensures forall id :: id in old(rows) ==>
                (id !in rows <==> old(rows)[id].expiresAt <= now && old(rows)[id].status != Processing)
    {
      var kept := map id | id in rows && !Purgeable(rows[id], now) :: rows[id];
      assert kept.Keys <= rows.Keys;
      CountSubset(kept.Keys, rows.Keys);
      assert |kept| == |kept.Keys| && |rows| == |rows.Keys|;
      purged := |rows| - |kept|;
      rows := kept;
    }

    // rec is what Get returned, possibly long ago; the statements run on the
    // table as it is now.
    method ResolveConflict(rec: Option<Record>, c: Request, now: int, sqlNow: int) returns (res: Resolution)
      modifies this
      ensures (Contents(), res) == Resolve(old(Contents()), rec, c, now, sqlNow)
    {
      if rec.None? {
        return VanishedRow;
      }
      var r := rec.value;
      if !(r.row.expiresAt > now) {
        var ok := ReclaimExpired(r.id, c, sqlNow);
        return if ok then Reclaimed(r.id) else Handled(Refuse(Concurrent));
      }
      if r.row.hash != c.hash {
        return Handled(Refuse(Mismatch));
      }
      if r.row.status == Processing {
        return Handled(Refuse(Concurrent));
      }
      if r.row.status == Completed && r.row.response.Some? && r.row.response.value.status != 0 {
        return Handled(ReplayOf(ReplayResponse(r.row.response.value)));
      }
      if r.row.status != Failed {
        return Handled(Refuse(Conflict));
      }
      var ok := ReclaimFailed(r.id, c);
      return if ok then Reclaimed(r.id) else Handled(Refuse(Concurrent));
    }
  }
}
