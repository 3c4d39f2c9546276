/**
  The idempotency middleware as a protocol. Any number of requests run its code
  against one shared table, one database statement at a time, in any order, on
  results that may be stale; the janitor purges in between and requests may stop
  anywhere. A statement may use a timestamp taken before it ran.

  Environment assumption (MayFinalize): a request finalizes before its own deadline,
  or later while its row is still its own claim or gone, or never. IdempotencyLate
  shows what happens without it.
 */
module Idempotency {
  import opened Wrappers
  import opened ResponseCapture
  import opened ClaimStore

  // Where one request stands in the middleware's code.
  datatype Client =
    | Arrived(req: Request)
    | Refused(req: Request)
    | Looked(req: Request, rec: Option<Record>)
    | Gone(req: Request)
    | WantExpired(req: Request, id: nat)
    | WantFailed(req: Request, id: nat)
    | Executing(req: Request, id: nat, ops: seq<HandlerOp>)
    | Finishing(req: Request, id: nat, ops: seq<HandlerOp>, panicked: bool)
    | Ended(req: Request)

  // History, in the order things happened.
  datatype Event =
    | Began(req: Request, at: int)
    | Finished(req: Request, at: int, id: nat, ops: seq<HandlerOp>, response: Response)
    | Replayed(req: Request, at: int, response: Response)
    | Declined(req: Request, at: int, why: Refusal)

  datatype State = State(clock: int, table: Table, clients: map<nat, Client>, log: seq<Event>)

  datatype Step =
    | Tick(now: int)
    | Arrive(c: nat, scope: Scope, hash: string, ttl: int)
    | ClaimStep(c: nat)
    | GetStep(c: nat, rec: Option<Record>)
    | DecideStep(c: nat, at: int)
    | ReclaimStep(c: nat, at: int)
    | HandlerStep(c: nat, op: HandlerOp)
    | ReturnStep(c: nat)
    | PanicStep(c: nat)
    | FinalizeStep(c: nat, contentType: string)
    | CrashStep(c: nat)
    | PurgeStep(at: int)

  predicate Init(s: State) {
    s.table == Table(map[], 1) && s.clients == map[] && s.log == []
  }

  // A run ends in Aborted on a panic or a status of 500 and above.
  function RunOutcome(ops: seq<HandlerOp>, panicked: bool, contentType: string): Outcome {
    var cap := FinishCapture(Play(ops));
    if panicked || cap.statusCode >= 500 then Aborted
    else Success(Response(cap.statusCode, cap.body, contentType))
  }

  predicate Informational(op: HandlerOp) {
    op.Header? && 100 <= op.code < 200
  }

  predicate Enabled(s: State, st: Step) {
    match st
    case Tick(now) => s.clock <= now
    case Arrive(c, _, _, ttl) => c !in s.clients && ttl > 0
    case ClaimStep(c) => c in s.clients && (s.clients[c].Arrived? || s.clients[c].Gone?)
    case GetStep(c, rec) => c in s.clients && s.clients[c].Refused? && IsGet(s.table, s.clients[c].req.scope, rec)
    case DecideStep(c, at) => c in s.clients && s.clients[c].Looked? && at <= s.clock
    case ReclaimStep(c, at) =>
      c in s.clients && (s.clients[c].WantExpired? || s.clients[c].WantFailed?) && at <= s.clock
    case HandlerStep(c, op) => c in s.clients && s.clients[c].Executing? && !Informational(op)
    case ReturnStep(c) => c in s.clients && s.clients[c].Executing?
    case PanicStep(c) => c in s.clients && s.clients[c].Executing?
    case FinalizeStep(c, _) => c in s.clients && s.clients[c].Finishing? && MayFinalize(s, s.clients[c])
    case CrashStep(c) => c in s.clients
    case PurgeStep(at) => at <= s.clock
  }

  // In time, or late with nobody in between: a condition that the UPDATE's WHERE
  // clause could test.
  predicate MayFinalize(s: State, cl: Client)
    requires cl.Finishing?
  {
    s.clock < cl.req.expiresAt || cl.id !in s.table.rows || s.table.rows[cl.id] == ClaimRow(cl.req)
  }

  function Move(s: State, c: nat, cl: Client): State {
    s.(clients := s.clients[c := cl])
  }

  // c owns row id from here on.
  function Begin(s: State, c: nat, req: Request, t: Table, id: nat): State {
    State(s.clock, t, s.clients[c := Executing(req, id, [])], s.log + [Began(req, s.clock)])
  }

  function Answer(s: State, c: nat, req: Request, e: Event): State {
    s.(clients := s.clients[c := Ended(req)], log := s.log + [e])
  }

  function AfterClaimStep(s: State, c: nat): State
    requires Enabled(s, ClaimStep(c))
  {
    var cl := s.clients[c];
    if !HasScope(s.table, cl.req.scope) then
      Begin(s, c, cl.req, AfterClaim(s.table, cl.req), s.table.nextId)
    else if cl.Arrived? then Move(s, c, Refused(cl.req))
    else Answer(s, c, cl.req, Declined(cl.req, s.clock, Concurrent))
  }

  function AfterDecideStep(s: State, c: nat, at: int): State
    requires Enabled(s, DecideStep(c, at))
  {
    var req := s.clients[c].req;
    match Decide(s.clients[c].rec, req, at)
    case TakeVanished => Move(s, c, Gone(req))
    case TryExpired(id) => Move(s, c, WantExpired(req, id))
    case TryFailed(id) => Move(s, c, WantFailed(req, id))
    case ReplayOf(r) => Answer(s, c, req, Replayed(req, s.clock, r))
    case Refuse(why) => Answer(s, c, req, Declined(req, s.clock, why))
  }

  function AfterReclaimStep(s: State, c: nat, at: int): State
    requires Enabled(s, ReclaimStep(c, at))
  {
    var cl := s.clients[c];
    if cl.WantExpired? && CanReclaimExpired(s.table, cl.id, at) then
      Begin(s, c, cl.req, AfterReclaimExpired(s.table, cl.id, cl.req, at), cl.id)
    else if cl.WantFailed? && CanReclaimFailed(s.table, cl.id, cl.req) then
      Begin(s, c, cl.req, AfterReclaimFailed(s.table, cl.id, cl.req), cl.id)
    else Answer(s, c, cl.req, Declined(cl.req, s.clock, Concurrent))
  }

  // A status net/http refuses panics, unless an earlier status already won.
  function AfterHandlerStep(cl: Client, op: HandlerOp): Client
    requires cl.Executing?
  {
    if op.Write? || FinalCode(op.code) then Executing(cl.req, cl.id, cl.ops + [op])
    else if cl.ops != [] then cl
    else Finishing(cl.req, cl.id, cl.ops, true)
  }

  // A success counts as finished if there was a row to record it.
  function AfterFinalizeStep(s: State, c: nat, contentType: string): State
    requires c in s.clients && s.clients[c].Finishing?
  {
    var cl := s.clients[c];
    var res := RunOutcome(cl.ops, cl.panicked, contentType);
    State(s.clock, AfterFinalize(s.table, cl.id, res, cl.req.expiresAt), s.clients[c := Ended(cl.req)],
          s.log + if res.Aborted? || cl.id !in s.table.rows then []
                  else [Finished(cl.req, s.clock, cl.id, cl.ops, res.response)])
  }

  function Apply(s: State, st: Step): State
    requires Enabled(s, st)
  {
    match st
    case Tick(now) => s.(clock := now)
    case Arrive(c, scope, hash, ttl) => Move(s, c, Arrived(Request(scope, hash, s.clock + ttl)))
    case ClaimStep(c) => AfterClaimStep(s, c)
    case GetStep(c, rec) => Move(s, c, Looked(s.clients[c].req, rec))
    case DecideStep(c, at) => AfterDecideStep(s, c, at)
    case ReclaimStep(c, at) => AfterReclaimStep(s, c, at)
    case HandlerStep(c, op) => Move(s, c, AfterHandlerStep(s.clients[c], op))
    case ReturnStep(c) => Move(s, c, Finishing(s.clients[c].req, s.clients[c].id, s.clients[c].ops, false))
    case PanicStep(c) => Move(s, c, Finishing(s.clients[c].req, s.clients[c].id, s.clients[c].ops, true))
    case FinalizeStep(c, ct) => AfterFinalizeStep(s, c, ct)
    case CrashStep(c) => Move(s, c, Ended(s.clients[c].req))
    case PurgeStep(at) => s.(table := AfterPurge(s.table, at))
  }

  // ---------------------------------------------------------------- invariant

  predicate Running(cl: Client) {
    cl.Executing? || cl.Finishing?
  }

  // Executing under a claim that has not expired.
  predicate Live(s: State, c: nat) {
    c in s.clients && Running(s.clients[c]) && s.clock < s.clients[c].req.expiresAt
  }

  predicate IdHasScope(t: Table, id: nat, scope: Scope) {
    id < t.nextId && (id in t.rows ==> t.rows[id].scope == scope)
  }

  predicate RowSound(r: Row) {
    if r.status == Completed then r.response.Some? && 200 <= r.response.value.status < 500
    else r.response.None?
  }

  predicate TableSound(t: Table) {
    && (forall id :: id in t.rows ==> id < t.nextId && RowSound(t.rows[id]))
    && (forall i, j :: i in t.rows && j in t.rows && t.rows[i].scope == t.rows[j].scope ==> i == j)
  }

  predicate ClientSound(t: Table, clock: int, cl: Client) {
    match cl
    case Looked(req, Some(r)) => IdHasScope(t, r.id, req.scope) && RowSound(r.row) && r.row.scope == req.scope
    case WantExpired(req, id) => IdHasScope(t, id, req.scope)
    case WantFailed(req, id) => IdHasScope(t, id, req.scope)
    case Executing(req, id, ops) => OwnerSound(t, clock, req, id, ops)
    case Finishing(req, id, ops, _) => OwnerSound(t, clock, req, id, ops)
    case _ => true
  }

  // Until the deadline, the row is the owner's claim, untouched.
  predicate OwnerSound(t: Table, clock: int, req: Request, id: nat, ops: seq<HandlerOp>) {
    && IdHasScope(t, id, req.scope)
    && FinalOps(ops)
    && (clock < req.expiresAt ==> id in t.rows && t.rows[id] == ClaimRow(req))
  }

  predicate ClientsSound(s: State) {
    forall c :: c in s.clients ==> ClientSound(s.table, s.clock, s.clients[c])
  }

  ghost predicate Exclusive(s: State) {
    forall c, d :: Live(s, c) && Live(s, d) && s.clients[c].id == s.clients[d].id ==> c == d
  }

  // A success is what the handler produced, and it stays in the table until its deadline.
  predicate FinishedSound(s: State, e: Event)
    requires e.Finished?
  {
    && e.id < s.table.nextId
    && e.at <= s.clock
    && FinalOps(e.ops)
    && e.response.status == FirstStatus(e.ops)
    && e.response.body == AllWrites(e.ops)
    && (s.clock < e.req.expiresAt ==>
          e.id in s.table.rows
          && s.table.rows[e.id] == Row(e.req.scope, e.req.hash, Completed, Some(e.response), e.req.expiresAt))
  }

  predicate LogSound(s: State) {
    forall i :: 0 <= i < |s.log| && s.log[i].Finished? ==> FinishedSound(s, s.log[i])
  }

  // No run of the scope begins or succeeds between a success and its deadline.
  predicate Spaced(e: Event, f: Event) {
    e.Finished? && (f.Began? || f.Finished?) && e.req.scope == f.req.scope ==> e.req.expiresAt <= f.at && e.at <= f.at
  }

  predicate WindowsApart(log: seq<Event>) {
    forall i, j :: 0 <= i < j < |log| ==> Spaced(log[i], log[j])
  }

  ghost predicate Invariant(s: State) {
    TableSound(s.table) && ClientsSound(s) && Exclusive(s) && LogSound(s) && WindowsApart(s.log)
  }

  lemma TickKeeps(s: State, now: int)
    requires Invariant(s) && s.clock <= now
    ensures Invariant(s.(clock := now))
  {
    var s' := s.(clock := now);
    assert ClientsSound(s') by {
      forall c | c in s'.clients ensures ClientSound(s'.table, s'.clock, s'.clients[c]) {
        assert ClientSound(s.table, s.clock, s.clients[c]);
      }
    }
    assert forall c :: Live(s', c) ==> Live(s, c);
    assert LogSound(s') by {
      forall i | 0 <= i < |s'.log| && s'.log[i].Finished? ensures FinishedSound(s', s'.log[i]) {
        assert FinishedSound(s, s.log[i]);
      }
    }
  }

  // A request that moves on without touching the table or the log of runs.
  lemma MoveKeeps(s: State, c: nat, cl: Client, news: seq<Event>)
    requires Invariant(s)
    requires ClientSound(s.table, s.clock, cl)
    requires Running(cl) ==> c in s.clients && Running(s.clients[c]) && s.clients[c].req == cl.req
                             && s.clients[c].id == cl.id
    requires forall i :: 0 <= i < |news| ==> news[i].Replayed? || news[i].Declined?
    ensures Invariant(s.(clients := s.clients[c := cl], log := s.log + news))
  {
    var s' := s.(clients := s.clients[c := cl], log := s.log + news);
    assert ClientsSound(s') by {
      forall d | d in s'.clients ensures ClientSound(s'.table, s'.clock, s'.clients[d]) {
        assert d != c ==> ClientSound(s.table, s.clock, s.clients[d]);
      }
    }
    assert Exclusive(s') by {
      forall d, e | Live(s', d) && Live(s', e) && s'.clients[d].id == s'.clients[e].id ensures d == e {
        assert Live(s, d) && Live(s, e);
      }
    }
    assert LogSound(s') by {
      forall i | 0 <= i < |s'.log| && s'.log[i].Finished? ensures FinishedSound(s', s'.log[i]) {
        assert s'.log[i] == s.log[i];
        assert FinishedSound(s, s.log[i]);
      }
    }
  }

  // t' may replace the table under everyone but c (-1 for nobody): ids keep their scopes, and
  // every row that an unexpired claim or success relies on is left alone.
  ghost predicate Protects(s: State, t': Table, c: int) {
    && s.table.nextId <= t'.nextId
    && (forall id :: id in t'.rows && id < s.table.nextId ==>
          id in s.table.rows && t'.rows[id].scope == s.table.rows[id].scope)
    && (forall d :: Live(s, d) && d != c ==> Same(s.table, t', s.clients[d].id))
    && (forall i :: 0 <= i < |s.log| && s.log[i].Finished? && s.clock < s.log[i].req.expiresAt ==>
          Same(s.table, t', s.log[i].id))
  }

  predicate Same(t: Table, t': Table, id: nat) {
    id in t.rows && id in t'.rows && t'.rows[id] == t.rows[id]
  }

  lemma ProtectedParties(s: State, t': Table, c: int)
    requires Invariant(s) && Protects(s, t', c)
    ensures forall d :: d in s.clients && d != c ==> ClientSound(t', s.clock, s.clients[d])
    ensures LogSound(s.(table := t'))
  {
    forall d | d in s.clients && d != c ensures ClientSound(t', s.clock, s.clients[d]) {
      assert ClientSound(s.table, s.clock, s.clients[d]);
      assert Running(s.clients[d]) && s.clock < s.clients[d].req.expiresAt ==> Live(s, d);
    }
    forall i | 0 <= i < |s.log| && s.log[i].Finished? ensures FinishedSound(s.(table := t'), s.log[i]) {
      assert FinishedSound(s, s.log[i]);
    }
  }

  // A success still holding the scope owns a row of it.
  lemma FinishedHoldsScope(s: State, i: nat)
    requires Invariant(s) && i < |s.log| && s.log[i].Finished? && s.clock < s.log[i].req.expiresAt
    ensures HasScope(s.table, s.log[i].req.scope)
  {
    assert FinishedSound(s, s.log[i]);
    assert s.table.rows[s.log[i].id].scope == s.log[i].req.scope;
  }

  // A request takes over row id with t' as the new table.
  lemma BeginKeeps(s: State, c: nat, req: Request, t': Table, id: nat)
    requires Invariant(s) && c in s.clients && !Running(s.clients[c])
    requires Protects(s, t', c) && TableSound(t')
    requires id in t'.rows && t'.rows[id] == ClaimRow(req)
    requires forall d :: Live(s, d) ==> s.clients[d].id != id
    requires forall i :: 0 <= i < |s.log| && s.log[i].Finished? && s.log[i].req.scope == req.scope ==>
               s.log[i].req.expiresAt <= s.clock
    ensures Invariant(Begin(s, c, req, t', id))
  {
    var s' := Begin(s, c, req, t', id);
    ProtectedParties(s, t', c);
    assert ClientsSound(s');
    assert Exclusive(s') by {
      forall d, e | Live(s', d) && Live(s', e) && s'.clients[d].id == s'.clients[e].id ensures d == e {
        assert d != c ==> Live(s, d);
        assert e != c ==> Live(s, e);
      }
    }
    assert LogSound(s') by {
      forall i | 0 <= i < |s'.log| && s'.log[i].Finished? ensures FinishedSound(s', s'.log[i]) {
        assert s'.log[i] == s.log[i];
        assert FinishedSound(s.(table := t'), s.log[i]);
      }
    }
    assert WindowsApart(s'.log) by {
      forall i, j | 0 <= i < j < |s'.log| ensures Spaced(s'.log[i], s'.log[j]) {
        assert j < |s.log| ==> Spaced(s.log[i], s.log[j]);
      }
    }
  }

  lemma ClaimKeeps(s: State, c: nat)
    requires Invariant(s) && Enabled(s, ClaimStep(c))
    ensures Invariant(AfterClaimStep(s, c))
  {
    var cl := s.clients[c];
    var req := cl.req;
    if !HasScope(s.table, req.scope) {
      var t' := AfterClaim(s.table, req);
      assert Protects(s, t', c) by {
        forall d | Live(s, d) && d != c ensures Same(s.table, t', s.clients[d].id) {
          assert ClientSound(s.table, s.clock, s.clients[d]);
        }
        forall i | 0 <= i < |s.log| && s.log[i].Finished? && s.clock < s.log[i].req.expiresAt
          ensures Same(s.table, t', s.log[i].id)
        {
          assert FinishedSound(s, s.log[i]);
        }
      }
      forall d | Live(s, d) ensures s.clients[d].id != s.table.nextId {
        assert ClientSound(s.table, s.clock, s.clients[d]);
      }
      forall i | 0 <= i < |s.log| && s.log[i].Finished? && s.log[i].req.scope == req.scope
        ensures s.log[i].req.expiresAt <= s.clock
      {
        if s.clock < s.log[i].req.expiresAt {
          FinishedHoldsScope(s, i);
        }
      }
      BeginKeeps(s, c, req, t', s.table.nextId);
    } else if cl.Arrived? {
      MoveKeeps(s, c, Refused(req), []);
      assert s.log + [] == s.log;
    } else {
      MoveKeeps(s, c, Ended(req), [Declined(req, s.clock, Concurrent)]);
    }
  }

  // Neither reclaim can hit a row that someone relies on.
  lemma ReclaimableIsFree(s: State, c: nat, at: int)
    requires Invariant(s) && Enabled(s, ReclaimStep(c, at))
    requires var cl := s.clients[c];
             (cl.WantExpired? && CanReclaimExpired(s.table, cl.id, at))
             || (cl.WantFailed? && CanReclaimFailed(s.table, cl.id, cl.req))
    ensures forall d :: Live(s, d) ==> s.clients[d].id != s.clients[c].id
    ensures forall i :: 0 <= i < |s.log| && s.log[i].Finished? && s.clock < s.log[i].req.expiresAt ==>
              s.log[i].id != s.clients[c].id && s.log[i].req.scope != s.clients[c].req.scope
  {
    var id := s.clients[c].id;
    assert ClientSound(s.table, s.clock, s.clients[c]);
    forall d | Live(s, d) ensures s.clients[d].id != id {
      assert ClientSound(s.table, s.clock, s.clients[d]);
    }
    forall i | 0 <= i < |s.log| && s.log[i].Finished? && s.clock < s.log[i].req.expiresAt
      ensures s.log[i].id != id && s.log[i].req.scope != s.clients[c].req.scope
    {
      assert FinishedSound(s, s.log[i]);
    }
  }

  lemma ReclaimKeeps(s: State, c: nat, at: int)
    requires Invariant(s) && Enabled(s, ReclaimStep(c, at))
    ensures Invariant(AfterReclaimStep(s, c, at))
  {
    var cl := s.clients[c];
    var byExpiry := cl.WantExpired? && CanReclaimExpired(s.table, cl.id, at);
    if byExpiry || (cl.WantFailed? && CanReclaimFailed(s.table, cl.id, cl.req)) {
      ReclaimableIsFree(s, c, at);
      var t' := if byExpiry then AfterReclaimExpired(s.table, cl.id, cl.req, at)
                else AfterReclaimFailed(s.table, cl.id, cl.req);
      assert ClientSound(s.table, s.clock, cl);
      assert TableSound(t');
      assert Protects(s, t', c) by {
        forall d | Live(s, d) && d != c ensures Same(s.table, t', s.clients[d].id) {
          assert ClientSound(s.table, s.clock, s.clients[d]);
        }
        forall i | 0 <= i < |s.log| && s.log[i].Finished? && s.clock < s.log[i].req.expiresAt
          ensures Same(s.table, t', s.log[i].id)
        {
          assert FinishedSound(s, s.log[i]);
        }
      }
      BeginKeeps(s, c, cl.req, t', cl.id);
    } else {
      MoveKeeps(s, c, Ended(cl.req), [Declined(cl.req, s.clock, Concurrent)]);
    }
  }

  lemma DecideKeeps(s: State, c: nat, at: int)
    requires Invariant(s) && Enabled(s, DecideStep(c, at))
    ensures Invariant(AfterDecideStep(s, c, at))
  {
    var req := s.clients[c].req;
    assert ClientSound(s.table, s.clock, s.clients[c]);
    assert s.log + [] == s.log;
    match Decide(s.clients[c].rec, req, at)
    case TakeVanished => MoveKeeps(s, c, Gone(req), []);
    case TryExpired(id) => MoveKeeps(s, c, WantExpired(req, id), []);
    case TryFailed(id) => MoveKeeps(s, c, WantFailed(req, id), []);
    case ReplayOf(r) => MoveKeeps(s, c, Ended(req), [Replayed(req, s.clock, r)]);
    case Refuse(why) => MoveKeeps(s, c, Ended(req), [Declined(req, s.clock, why)]);
  }

  lemma HandlerKeeps(s: State, c: nat, op: HandlerOp)
    requires Invariant(s) && Enabled(s, HandlerStep(c, op))
    ensures Invariant(Apply(s, HandlerStep(c, op)))
  {
    var cl := s.clients[c];
    assert ClientSound(s.table, s.clock, cl);
    MoveKeeps(s, c, AfterHandlerStep(cl, op), []);
    assert s.log + [] == s.log;
  }

  // What a successful run records is what its handler sent.
  lemma SuccessfulOutcome(ops: seq<HandlerOp>, panicked: bool, contentType: string)
    requires FinalOps(ops)
    ensures var res := RunOutcome(ops, panicked, contentType);
            res.Success? ==>
              && res.response.status == FirstStatus(ops)
              && res.response.body == AllWrites(ops)
              && 200 <= res.response.status < 500
  {
    CaptureIsFaithful(ops);
    if ops != [] && ops[0].Header? {
      assert FinalCode(ops[0].code);
    }
  }

  // A live owner's row belongs to nobody else.
  lemma OwnerIsAlone(s: State, c: nat)
    requires Invariant(s) && Live(s, c)
    ensures s.clients[c].id in s.table.rows && s.table.rows[s.clients[c].id] == ClaimRow(s.clients[c].req)
    ensures forall d :: Live(s, d) && d != c ==> s.clients[d].id != s.clients[c].id
    ensures forall i :: 0 <= i < |s.log| && s.log[i].Finished? && s.clock < s.log[i].req.expiresAt ==>
              s.log[i].id != s.clients[c].id && s.log[i].req.scope != s.clients[c].req.scope
  {
    assert ClientSound(s.table, s.clock, s.clients[c]);
    forall i | 0 <= i < |s.log| && s.log[i].Finished? && s.clock < s.log[i].req.expiresAt
      ensures s.log[i].id != s.clients[c].id && s.log[i].req.scope != s.clients[c].req.scope
    {
      assert FinishedSound(s, s.log[i]);
    }
  }

  // So does a finalizer's, even a late one's.
  lemma FinalizerIsAlone(s: State, c: nat)
    requires Invariant(s) && c in s.clients && s.clients[c].Finishing? && MayFinalize(s, s.clients[c])
    requires s.clients[c].id in s.table.rows
    ensures s.table.rows[s.clients[c].id] == ClaimRow(s.clients[c].req)
    ensures forall d :: Live(s, d) && d != c ==> s.clients[d].id != s.clients[c].id
    ensures forall i :: 0 <= i < |s.log| && s.log[i].Finished? && s.clock < s.log[i].req.expiresAt ==>
              s.log[i].id != s.clients[c].id && s.log[i].req.scope != s.clients[c].req.scope
  {
    var cl := s.clients[c];
    assert ClientSound(s.table, s.clock, cl);
    if Live(s, c) {
      OwnerIsAlone(s, c);
    } else {
      forall d | Live(s, d) && d != c ensures s.clients[d].id != cl.id {
        assert ClientSound(s.table, s.clock, s.clients[d]);
      }
      forall i | 0 <= i < |s.log| && s.log[i].Finished? && s.clock < s.log[i].req.expiresAt
        ensures s.log[i].id != cl.id && s.log[i].req.scope != cl.req.scope
      {
        assert FinishedSound(s, s.log[i]);
      }
    }
  }

  lemma FinalizeProtects(s: State, c: nat, res: Outcome)
    requires Invariant(s) && c in s.clients && s.clients[c].Finishing? && MayFinalize(s, s.clients[c])
    requires res.Success? ==> 200 <= res.response.status < 500
    ensures var t' := AfterFinalize(s.table, s.clients[c].id, res, s.clients[c].req.expiresAt);
            TableSound(t') && Protects(s, t', c)
  {
    var t' := AfterFinalize(s.table, s.clients[c].id, res, s.clients[c].req.expiresAt);
    if s.clients[c].id in s.table.rows {
      FinalizerIsAlone(s, c);
    }
    forall d | Live(s, d) && d != c ensures Same(s.table, t', s.clients[d].id) {
      assert ClientSound(s.table, s.clock, s.clients[d]);
    }
    forall i | 0 <= i < |s.log| && s.log[i].Finished? && s.clock < s.log[i].req.expiresAt
      ensures Same(s.table, t', s.log[i].id)
    {
      assert FinishedSound(s, s.log[i]);
    }
  }

  lemma FinalizeLog(s: State, c: nat, contentType: string)
    requires Invariant(s) && Enabled(s, FinalizeStep(c, contentType))
    ensures LogSound(AfterFinalizeStep(s, c, contentType))
  {
    var cl := s.clients[c];
    var res := RunOutcome(cl.ops, cl.panicked, contentType);
    var s' := AfterFinalizeStep(s, c, contentType);
    var mid := s.(table := s'.table);
    assert ClientSound(s.table, s.clock, cl);
    if cl.id in s.table.rows {
      FinalizerIsAlone(s, c);
    }
    SuccessfulOutcome(cl.ops, cl.panicked, contentType);
    FinalizeProtects(s, c, res);
    ProtectedParties(s, s'.table, c);
    forall i | 0 <= i < |s'.log| && s'.log[i].Finished? ensures FinishedSound(s', s'.log[i]) {
      if i < |s.log| {
        assert FinishedSound(mid, s.log[i]);
      }
    }
  }

  lemma FinalizeKeeps(s: State, c: nat, contentType: string)
    requires Invariant(s) && Enabled(s, FinalizeStep(c, contentType))
    ensures Invariant(AfterFinalizeStep(s, c, contentType))
  {
    var cl := s.clients[c];
    var s' := AfterFinalizeStep(s, c, contentType);
    assert ClientSound(s.table, s.clock, cl);
    SuccessfulOutcome(cl.ops, cl.panicked, contentType);
    FinalizeProtects(s, c, RunOutcome(cl.ops, cl.panicked, contentType));
    ProtectedParties(s, s'.table, c);
    assert Exclusive(s') by {
      assert forall d :: Live(s', d) ==> Live(s, d);
    }
    FinalizeLog(s, c, contentType);
    FinalizeWindows(s, c, contentType);
  }

  // A recorded success falls into no window of its scope.
  lemma FinalizeWindows(s: State, c: nat, contentType: string)
    requires Invariant(s) && Enabled(s, FinalizeStep(c, contentType))
    ensures WindowsApart(AfterFinalizeStep(s, c, contentType).log)
  {
    var s' := AfterFinalizeStep(s, c, contentType);
    if s.clients[c].id in s.table.rows {
      FinalizerIsAlone(s, c);
    }
    forall i, j | 0 <= i < j < |s'.log| ensures Spaced(s'.log[i], s'.log[j]) {
      if j < |s.log| {
        assert Spaced(s.log[i], s.log[j]);
      } else if s.log[i].Finished? {
        assert FinishedSound(s, s.log[i]);
      }
    }
  }

  lemma PurgeKeeps(s: State, at: int)
    requires Invariant(s) && at <= s.clock
    ensures Invariant(s.(table := AfterPurge(s.table, at)))
  {
    var t' := AfterPurge(s.table, at);
    var s' := s.(table := t');
    var nobody := -1;
    assert Protects(s, t', nobody) by {
      forall d | Live(s, d) ensures Same(s.table, t', s.clients[d].id) {
        assert ClientSound(s.table, s.clock, s.clients[d]);
      }
      forall i | 0 <= i < |s.log| && s.log[i].Finished? && s.clock < s.log[i].req.expiresAt
        ensures Same(s.table, t', s.log[i].id)
      {
        assert FinishedSound(s, s.log[i]);
      }
    }
    ProtectedParties(s, t', nobody);
    assert forall d :: Live(s', d) <==> Live(s, d);
  }

  /** Every step of every party keeps the invariant. */
  lemma StepKeeps(s: State, st: Step)
    requires Invariant(s) && Enabled(s, st)
    ensures Invariant(Apply(s, st))
  {
    assert s.log + [] == s.log;
    match st
    case Tick(now) => TickKeeps(s, now);
    case Arrive(c, scope, hash, ttl) => MoveKeeps(s, c, Arrived(Request(scope, hash, s.clock + ttl)), []);
    case ClaimStep(c) => ClaimKeeps(s, c);
    case GetStep(c, rec) => MoveKeeps(s, c, Looked(s.clients[c].req, rec), []);
    case DecideStep(c, at) => DecideKeeps(s, c, at);
    case ReclaimStep(c, at) => ReclaimKeeps(s, c, at);
    case HandlerStep(c, op) => HandlerKeeps(s, c, op);
    case ReturnStep(c) =>
      assert ClientSound(s.table, s.clock, s.clients[c]);
      MoveKeeps(s, c, Finishing(s.clients[c].req, s.clients[c].id, s.clients[c].ops, false), []);
    case PanicStep(c) =>
      assert ClientSound(s.table, s.clock, s.clients[c]);
      MoveKeeps(s, c, Finishing(s.clients[c].req, s.clients[c].id, s.clients[c].ops, true), []);
    case FinalizeStep(c, ct) => FinalizeKeeps(s, c, ct);
    case CrashStep(c) => MoveKeeps(s, c, Ended(s.clients[c].req), []);
    case PurgeStep(at) => PurgeKeeps(s, at);
  }
}
