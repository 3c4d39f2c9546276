/**
  What every request gets, in every reachable state: who is replayed, refused, or goes
  on to execute, decided by the record it read; that a retry of a remembered success is
  replayed; and which runs are remembered.
 */
module IdempotencyAnswers {
  import opened Wrappers
  import opened ResponseCapture
  import opened ClaimStore
  import opened Idempotency
  import opened IdempotencyRuns

  // Request c is answered by one new event, and that is all that happens.
  predicate Answered(s: State, s': State, c: nat, e: Event)
    requires c in s.clients
  {
    s' == s.(clients := s.clients[c := Ended(s.clients[c].req)], log := s.log + [e])
  }

  // Request c goes on as cl, and that is all that happens.
  predicate GoesOn(s: State, s': State, c: nat, cl: Client) {
    s' == s.(clients := s.clients[c := cl])
  }

  // Request c has read a record with its own hash, in this status, that is in force.
  predicate Reads(cl: Client, at: int, status: Status) {
    cl.Looked? && cl.rec.Some? && at < cl.rec.value.row.expiresAt
    && cl.rec.value.row.hash == cl.req.hash && cl.rec.value.row.status == status
  }

  predicate ReadsOther(cl: Client, at: int) {
    cl.Looked? && cl.rec.Some? && at < cl.rec.value.row.expiresAt && cl.rec.value.row.hash != cl.req.hash
  }

  predicate ReadsExpired(cl: Client, at: int) {
    cl.Looked? && cl.rec.Some? && cl.rec.value.row.expiresAt <= at
  }

  // The replay of a stored response.
  function ReplayEvent(req: Request, at: int, r: Response): Event {
    Replayed(req, at, Response(r.status, r.body, if r.contentType == "" then "application/json; charset=utf-8"
                                                 else r.contentType))
  }

  /** In every reachable state the decision on a record is made by its deadline, then its
      hash, then its status: expired ones are taken over, other hashes refused as a mismatch,
      processing ones as concurrent, completed ones replayed and failed ones retried. */
  lemma DecisionIff(run: seq<State>, k: nat, c: nat, at: int)
    requires IsRun(run) && k < |run| && Enabled(run[k], DecideStep(c, at))
    ensures var s, s', cl := run[k], Apply(run[k], DecideStep(c, at)), run[k].clients[c];
            && (cl.rec == None <==> GoesOn(s, s', c, Gone(cl.req)))
            && (forall id :: ReadsExpired(cl, at) && cl.rec.value.id == id <==>
                               GoesOn(s, s', c, WantExpired(cl.req, id)))
            && (ReadsOther(cl, at) <==> Answered(s, s', c, Declined(cl.req, s.clock, Mismatch)))
            && (Reads(cl, at, Processing) <==> Answered(s, s', c, Declined(cl.req, s.clock, Concurrent)))
            && (forall id :: Reads(cl, at, Failed) && cl.rec.value.id == id <==>
                               GoesOn(s, s', c, WantFailed(cl.req, id)))
            && (Reads(cl, at, Completed) <==>
                  exists r :: cl.rec.Some? && cl.rec.value.row.response == Some(r)
                              && Answered(s, s', c, ReplayEvent(cl.req, s.clock, r)))
  {
    RunSound(run, k);
    assert ClientSound(run[k].table, run[k].clock, run[k].clients[c]);
    DecisionOf(run[k], c, at);
  }

  lemma DecisionOf(s: State, c: nat, at: int)
    requires Enabled(s, DecideStep(c, at)) && ClientSound(s.table, s.clock, s.clients[c])
    ensures var s', cl := Apply(s, DecideStep(c, at)), s.clients[c];
            && (cl.rec == None <==> GoesOn(s, s', c, Gone(cl.req)))
            && (forall id :: ReadsExpired(cl, at) && cl.rec.value.id == id <==>
                               GoesOn(s, s', c, WantExpired(cl.req, id)))
            && (ReadsOther(cl, at) <==> Answered(s, s', c, Declined(cl.req, s.clock, Mismatch)))
            && (Reads(cl, at, Processing) <==> Answered(s, s', c, Declined(cl.req, s.clock, Concurrent)))
            && (forall id :: Reads(cl, at, Failed) && cl.rec.value.id == id <==>
                               GoesOn(s, s', c, WantFailed(cl.req, id)))
            && (Reads(cl, at, Completed) <==>
                  exists r :: cl.rec.Some? && cl.rec.value.row.response == Some(r)
                              && Answered(s, s', c, ReplayEvent(cl.req, s.clock, r)))
  {
    var s', cl := Apply(s, DecideStep(c, at)), s.clients[c];
    forall cl' | GoesOn(s, s', c, cl') ensures s'.clients[c] == cl' {
    }
    forall e | Answered(s, s', c, e) ensures s'.clients[c].Ended? && s'.log == s.log + [e] && s'.log[|s.log|] == e {
    }
    if Reads(cl, at, Completed) {
      assert Answered(s, s', c, ReplayEvent(cl.req, s.clock, cl.rec.value.row.response.value));
    }
  }

  // A request's deadline is its time to live from its arrival on.
  lemma DeadlineIs(s: State, c: nat, scope: Scope, hash: string, ttl: int)
    requires Enabled(s, Arrive(c, scope, hash, ttl))
    ensures GoesOn(s, Apply(s, Arrive(c, scope, hash, ttl)), c, Arrived(Request(scope, hash, s.clock + ttl)))
  {
  }

  /** A claim succeeds exactly if no row of the scope is there; then the request executes
      under a new row. A request that comes back after a record was gone is refused. */
  lemma ClaimIff(run: seq<State>, k: nat, c: nat)
    requires IsRun(run) && k < |run| && Enabled(run[k], ClaimStep(c))
    ensures var s, s', cl := run[k], Apply(run[k], ClaimStep(c)), run[k].clients[c];
            var free := forall id :: id in s.table.rows ==> s.table.rows[id].scope != cl.req.scope;
            && (free <==> s'.clients[c].Executing?)
            && (free ==> s'.clients[c] == Executing(cl.req, s.table.nextId, []) && s.table.nextId !in s.table.rows
                         && s'.table.rows == s.table.rows[s.table.nextId := Row(cl.req.scope, cl.req.hash, Processing,
                                                                                None, cl.req.expiresAt)]
                         && s'.log == s.log + [Began(cl.req, s.clock)])
            && (!free && cl.Arrived? ==> GoesOn(s, s', c, Refused(cl.req)))
            && (!free && cl.Gone? ==> Answered(s, s', c, Declined(cl.req, s.clock, Concurrent)))
  {
    RunSound(run, k);
  }

  /** A request takes the row over exactly if the row is still there and still expired, or
      still failed with the same hash; then it executes under its own claim. */
  lemma TakeOverIff(run: seq<State>, k: nat, c: nat, at: int)
    requires IsRun(run) && k < |run| && Enabled(run[k], ReclaimStep(c, at))
    ensures var s, s', cl := run[k], Apply(run[k], ReclaimStep(c, at)), run[k].clients[c];
            var open := cl.id in s.table.rows &&
                        if cl.WantExpired? then s.table.rows[cl.id].expiresAt <= at
                        else s.table.rows[cl.id].status == Failed && s.table.rows[cl.id].hash == cl.req.hash;
            && (open <==> s'.clients[c] == Executing(cl.req, cl.id, []))
            && (open ==> s'.table.rows == s.table.rows[cl.id := Row(cl.req.scope, cl.req.hash, Processing, None,
                                                                    cl.req.expiresAt)]
                         && s'.log == s.log + [Began(cl.req, s.clock)])
            && (!open ==> Answered(s, s', c, Declined(cl.req, s.clock, Concurrent)))
  {
    RunSound(run, k);
    assert ClientSound(run[k].table, run[k].clock, run[k].clients[c]);
  }

  // Request c decides on its record in the step after state d, and has done nothing
  // else until state k.
  predicate DecidedAt(run: seq<State>, d: nat, k: nat, c: nat, at: int) {
    && d < k < |run| && Enabled(run[d], DecideStep(c, at)) && run[d + 1] == Apply(run[d], DecideStep(c, at))
    && c in run[k].clients && run[k].clients[c] == run[d + 1].clients[c]
  }

  /** An expired record, whatever its status, and a failed one of the same hash lead to a
      new execution if the row is still as it was read. */
  lemma RowAsReadIsTakenOver(run: seq<State>, d: nat, k: nat, c: nat, at: int, sqlAt: int)
    requires IsRun(run) && DecidedAt(run, d, k, c, at) && at <= sqlAt <= run[k].clock
    requires ReadsExpired(run[d].clients[c], at) || Reads(run[d].clients[c], at, Failed)
    requires var rec := run[d].clients[c].rec.value; rec.id in run[k].table.rows && run[k].table.rows[rec.id] == rec.row
    ensures Enabled(run[k], ReclaimStep(c, sqlAt))
    ensures var cl, s' := run[d].clients[c], Apply(run[k], ReclaimStep(c, sqlAt));
            && s'.clients[c] == Executing(cl.req, cl.rec.value.id, [])
            && s'.table.rows[cl.rec.value.id] == Row(cl.req.scope, cl.req.hash, Processing, None, cl.req.expiresAt)
  {
    DecisionIff(run, d, c, at);
    TakeOverIff(run, k, c, sqlAt);
  }

  // ---------------------------------------------------------------- remembered successes

  // e is a success of this request's scope and payload, remembered until after time t.
  predicate Remembers(log: seq<Event>, i: nat, req: Request, t: int) {
    i < |log| && log[i].Finished? && log[i].req.scope == req.scope && log[i].req.hash == req.hash
    && t < log[i].req.expiresAt
  }

  /** While a success is remembered, no other request of its scope claims a row, and one
      that looks finds the success and nothing else. */
  lemma RetryFindsSuccess(run: seq<State>, k: nat, c: nat, i: nat)
    requires IsRun(run) && k < |run| && c in run[k].clients
    requires Remembers(run[k].log, i, run[k].clients[c].req, run[k].clock)
    ensures var s, e := run[k], run[k].log[i];
            && (Enabled(s, ClaimStep(c)) ==> Apply(s, ClaimStep(c)).table == s.table
                                             && !Apply(s, ClaimStep(c)).clients[c].Executing?)
            && (forall rec :: Enabled(s, GetStep(c, rec)) ==> rec == Some(Record(e.id, RowOf(e))))
  {
    RunSound(run, k);
    assert FinishedSound(run[k], run[k].log[i]);
  }

  /** A retry is replayed: a request that looks while a success of its scope and payload is
      remembered, and decides before the deadline, is answered with that execution's status,
      body and content type, whatever happens in between. */
  lemma RetryIsReplayed(run: seq<State>, g: nat, k: nat, c: nat, rec: Option<Record>, at: int, i: nat)
    requires IsRun(run) && g < k < |run| && Enabled(run[g], GetStep(c, rec))
    requires run[g + 1] == Apply(run[g], GetStep(c, rec))
    requires c in run[k].clients && run[k].clients[c] == run[g + 1].clients[c] && Enabled(run[k], DecideStep(c, at))
    requires Remembers(run[g].log, i, run[g].clients[c].req, run[g].clock) && at < run[g].log[i].req.expiresAt
    ensures var e, s, s' := run[g].log[i], run[k], Apply(run[k], DecideStep(c, at));
            var response := Response(FirstStatus(e.ops), AllWrites(e.ops), e.response.contentType);
            Answered(s, s', c, ReplayEvent(s.clients[c].req, s.clock, response))
  {
    var e := run[g].log[i];
    RetryFindsSuccess(run, g, c, i);
    RunSound(run, g);
    assert FinishedSound(run[g], e);
    assert run[k].clients[c] == Looked(run[g].clients[c].req, rec);
    assert Reads(run[k].clients[c], at, Completed);
    DecisionIff(run, k, c, at);
  }

  // ---------------------------------------------------------------- what is remembered

  /** A run is remembered exactly if its handler returned with a status below 500 and its
      row is still there: then the row holds the first status, all the bytes written and
      the content type, until the claim's deadline. Any other run leaves its row failed
      and without a response. */
  lemma RememberedIff(run: seq<State>, k: nat, c: nat, contentType: string)
    requires IsRun(run) && k < |run| && Enabled(run[k], FinalizeStep(c, contentType))
    ensures var s, s', cl := run[k], Apply(run[k], FinalizeStep(c, contentType)), run[k].clients[c];
            var response := Response(FirstStatus(cl.ops), AllWrites(cl.ops), contentType);
            var there, ok := cl.id in s.table.rows, !cl.panicked && FirstStatus(cl.ops) < 500;
            && s'.clients[c] == Ended(cl.req)
            && (there && ok <==> s'.log == s.log + [Finished(cl.req, s.clock, cl.id, cl.ops, response)])
            && (!there || !ok ==> s'.log == s.log)
            && (!there ==> s'.table == s.table)
            && (there ==> s'.table.rows == s.table.rows[
                  cl.id := if ok then Row(cl.req.scope, cl.req.hash, Completed, Some(response), cl.req.expiresAt)
                           else Row(cl.req.scope, cl.req.hash, Failed, None, cl.req.expiresAt)])
  {
    RunSound(run, k);
    var s, cl := run[k], run[k].clients[c];
    assert ClientSound(s.table, s.clock, cl);
    CaptureIsFaithful(cl.ops);
    if cl.id in s.table.rows {
      FinalizerIsAlone(s, c);
    }
  }

  /** The handler's calls are the recorder's: a step of a handler leaves the request with the
      calls that the recorder has seen, and panics exactly where the recorder's writer does. */
  lemma HandlerIsRecorded(run: seq<State>, k: nat, c: nat, op: HandlerOp)
    requires IsRun(run) && k < |run| && Enabled(run[k], HandlerStep(c, op))
    ensures var cl, cl' := run[k].clients[c], Apply(run[k], HandlerStep(c, op)).clients[c];
            var before := Play(cl.ops);
            var panics := op.Header? && before.statusCode == 0 && (op.code < 100 || op.code > 999);
            && (panics ==> cl' == Finishing(cl.req, cl.id, cl.ops, true))
            && (!panics ==>
                  && cl' == Executing(cl.req, cl.id, cl'.ops)
                  && Play(cl'.ops) == if op.Write? then CaptureWrite(before, op.data)
                                      else CaptureHeader(before, op.code))
  {
    RunSound(run, k);
    var cl := run[k].clients[c];
    assert ClientSound(run[k].table, run[k].clock, cl);
    PlayState(cl.ops);
    assert (cl.ops + [op])[..|cl.ops|] == cl.ops;
    assert cl.ops != [] && cl.ops[0].Header? ==> FinalCode(cl.ops[0].code);
  }

  /** A panic is not remembered, whatever was written before it: the row is left failed. */
  lemma PanicLeavesFailed(run: seq<State>, p: nat, k: nat, c: nat, contentType: string)
    requires IsRun(run) && p < k < |run|
    requires Enabled(run[p], PanicStep(c)) && run[p + 1] == Apply(run[p], PanicStep(c))
    requires c in run[k].clients && run[k].clients[c] == run[p + 1].clients[c]
    requires Enabled(run[k], FinalizeStep(c, contentType))
    ensures var id, s' := run[p].clients[c].id, Apply(run[k], FinalizeStep(c, contentType));
            s'.log == run[k].log && (id in s'.table.rows ==> s'.table.rows[id].status == Failed)
  {
    RememberedIff(run, k, c, contentType);
  }

  /** A return is, by its status. */
  lemma ReturnIsRecorded(run: seq<State>, p: nat, k: nat, c: nat, contentType: string)
    requires IsRun(run) && p < k < |run|
    requires Enabled(run[p], ReturnStep(c)) && run[p + 1] == Apply(run[p], ReturnStep(c))
    requires c in run[k].clients && run[k].clients[c] == run[p + 1].clients[c]
    requires Enabled(run[k], FinalizeStep(c, contentType)) && run[p].clients[c].id in run[k].table.rows
    ensures var cl, s' := run[p].clients[c], Apply(run[k], FinalizeStep(c, contentType));
            s'.table.rows[cl.id] ==
              if FirstStatus(cl.ops) < 500 then
                Row(cl.req.scope, cl.req.hash, Completed,
                    Some(Response(FirstStatus(cl.ops), AllWrites(cl.ops), contentType)), cl.req.expiresAt)
              else Row(cl.req.scope, cl.req.hash, Failed, None, cl.req.expiresAt)
  {
    RememberedIff(run, k, c, contentType);
  }

  // ---------------------------------------------------------------- the method and the steps

  // The event that tells a request its answer.
  function Told(req: Request, at: int, answer: Decision): Event {
    if answer.ReplayOf? then Replayed(req, at, answer.response)
    else Declined(req, at, if answer.Refuse? then answer.why else Conflict)
  }

  /** Resolving a conflict in one go is the decide step followed, if it comes to that, by
      the reclaim step: the same table, the same answer, the same owner. */
  lemma ResolveIsSteps(s: State, c: nat, at: int, sqlAt: int)
    requires Enabled(s, DecideStep(c, at)) && sqlAt <= s.clock
    ensures var req, mid := s.clients[c].req, Apply(s, DecideStep(c, at));
            var (t, res) := Resolve(s.table, s.clients[c].rec, req, at, sqlAt);
            if mid.clients[c].WantExpired? || mid.clients[c].WantFailed? then
              var s' := Apply(mid, ReclaimStep(c, sqlAt));
              && t == s'.table
              && (s'.clients[c].Executing? <==> res == Reclaimed(mid.clients[c].id))
              && (!s'.clients[c].Executing? ==> res.Handled? && s'.log == s.log + [Told(req, s.clock, res.answer)])
            else
              && t == mid.table == s.table
              && (mid.clients[c].Gone? <==> res == VanishedRow)
              && (!mid.clients[c].Gone? ==> res.Handled? && mid.log == s.log + [Told(req, s.clock, res.answer)])
  {
  }
}
