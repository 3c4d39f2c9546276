/**
  The outbox relays and their event buses joined. A process makes one bus and one relay
  on it; both are gone when it stops, and the next process has a new bus on the outbox
  as it is. So a relay here stands for one life of a process, and has a bus of its own.
  A relay publishes the row it holds on its bus and waits, other publishers share that
  bus, and a row is settled by the answer.
 */
module Delivery {
  import opened Wrappers
  import Routing
  import Outbox
  import Relay = OutboxRelay
  import EventBus
  import Bus = EventBusRuns

  // calls: the publish attempt each relay is waiting for, on its bus.
  // attempts: for each publisher a relay started on its bus, the row it was for.
  datatype State = State(relay: Relay.State, buses: map<nat, Bus.State>, calls: map<nat, nat>,
                         attempts: map<(nat, nat), nat>)

  datatype Step =
    | StartStep(r: nat, bus: Bus.State)
    | RelayStep(rs: Relay.Step)
    | BusStep(r: nat, bs: Bus.Step)
    | PublishStep(r: nat, p: nat)
    | SettleStep(r: nat, at: int)
    | SkipStep(r: nat)
    | CrashStep(r: nat)

  predicate Init(s: State) {
    Relay.Init(s.relay) && s.buses == map[] && s.calls == map[] && s.attempts == map[]
  }

  // The bus event of an outbox row; NULL columns become zero values.
  function EventOf(m: Outbox.Message): EventBus.Event {
    EventBus.Event(m.eventType,
                   if m.correlationId.Some? then m.correlationId.value else "",
                   if m.userId.Some? then m.userId.value else 0,
                   m.payload)
  }

  function JobOf(m: Outbox.Message): Bus.Job {
    Bus.Job(EventOf(m), true)
  }

  predicate HasPublisher(s: State, r: nat, p: nat) {
    r in s.buses && p in s.buses[r].pubs
  }

  predicate Answered(s: State, r: nat) {
    r in s.calls && HasPublisher(s, r, s.calls[r]) && s.buses[r].pubs[s.calls[r]].Gone?
  }

  // PublishAndWait returned nil.
  function DeliveredBy(p: Bus.Publisher): bool {
    p.Gone? && p.verdict.Answered? && p.verdict.error == None
  }

  function Settling(s: State, r: nat, at: int): Relay.Step
    requires Answered(s, r)
  {
    Relay.SettleStep(r, DeliveredBy(s.buses[r].pubs[s.calls[r]]), at)
  }

  function Publishing(s: State, r: nat, p: nat): Bus.Step
    requires Relay.HeldBy(s.relay, r) != []
  {
    Bus.Call(p, JobOf(Relay.HeldBy(s.relay, r)[0].message))
  }

  predicate Enabled(s: State, st: Step) {
    match st
    case StartStep(r, bus) => r !in s.buses && Bus.Init(bus)
    case RelayStep(rs) =>
      && !rs.SettleStep? && !rs.SkipStep? && !rs.CrashStep?
      && (rs.ClaimStep? ==> rs.r in s.buses)
      && Relay.Enabled(s.relay, rs)
    case BusStep(r, bs) => r in s.buses && Bus.Enabled(s.buses[r], bs)
    case PublishStep(r, p) =>
      && r !in s.calls && r in s.buses && p !in s.buses[r].pubs
      && Relay.HeldBy(s.relay, r) != []
      && Relay.MayAct(s.relay, Relay.HeldBy(s.relay, r)[0])
    case SettleStep(r, at) => Answered(s, r) && Relay.Enabled(s.relay, Settling(s, r, at))
    case SkipStep(r) => Answered(s, r) && Relay.Enabled(s.relay, Relay.SkipStep(r))
    case CrashStep(r) => Relay.Enabled(s.relay, Relay.CrashStep(r))
  }

  function WithBus(s: State, r: nat, bus: Bus.State): State {
    s.(buses := s.buses[r := bus])
  }

  function Apply(s: State, st: Step): State
    requires Enabled(s, st)
  {
    match st
    case StartStep(r, bus) => WithBus(s, r, bus)
    case RelayStep(rs) => s.(relay := Relay.Apply(s.relay, rs))
    case BusStep(r, bs) => WithBus(s, r, Bus.Apply(s.buses[r], bs))
    case PublishStep(r, p) =>
      State(s.relay, s.buses[r := Bus.Apply(s.buses[r], Publishing(s, r, p))],
            s.calls[r := p], s.attempts[(r, p) := Relay.HeldBy(s.relay, r)[0].id])
    case SettleStep(r, at) =>
      s.(relay := Relay.Apply(s.relay, Settling(s, r, at)), calls := s.calls - {r})
    case SkipStep(r) => s.(relay := Relay.Apply(s.relay, Relay.SkipStep(r)), calls := s.calls - {r})
    case CrashStep(r) => s.(relay := Relay.Apply(s.relay, Relay.CrashStep(r)), calls := s.calls - {r})
  }

  // ---------------------------------------------------------------- invariant

  // Publisher p of relay r delivered row id: its one accepted event, the row's own, had
  // every target run and return.
  predicate Delivers(s: State, r: nat, p: nat, id: nat, m: Outbox.Message) {
    && (r, p) in s.attempts && s.attempts[(r, p)] == id
    && HasPublisher(s, r, p) && DeliveredBy(s.buses[r].pubs[p]) && s.buses[r].pubs[p].job == JobOf(m)
  }

  ghost predicate DoneDelivered(s: State) {
    forall id :: id in s.relay.table.rows && s.relay.table.rows[id].status == Outbox.Done ==>
      exists r, p :: Delivers(s, r, p, id, s.relay.table.rows[id].message)
  }

  // A waiting relay waits for the row it holds.
  predicate CallSound(s: State, r: nat)
    requires r in s.calls
  {
    var p := s.calls[r];
    && HasPublisher(s, r, p) && (r, p) in s.attempts
    && Relay.HeldBy(s.relay, r) != []
    && s.attempts[(r, p)] == Relay.HeldBy(s.relay, r)[0].id
    && s.buses[r].pubs[p].job == JobOf(Relay.HeldBy(s.relay, r)[0].message)
  }

  predicate CallsSound(s: State) {
    && (forall r :: r in s.calls ==> CallSound(s, r))
    && (forall x :: x in s.attempts ==> HasPublisher(s, x.0, x.1))
  }

  ghost predicate BusesSound(s: State) {
    forall r :: r in s.buses ==> Bus.Invariant(s.buses[r])
  }

  ghost predicate Invariant(s: State) {
    Relay.Invariant(s.relay) && BusesSound(s) && CallsSound(s) && DoneDelivered(s)
  }

  // The buses of s' know what those of s did of their publishers.
  ghost predicate BusesGrow(s: State, s': State) {
    forall r, p :: HasPublisher(s, r, p) ==>
      && HasPublisher(s', r, p)
      && s'.buses[r].pubs[p].job == s.buses[r].pubs[p].job
      && (s.buses[r].pubs[p].Gone? ==> s'.buses[r].pubs[p] == s.buses[r].pubs[p])
  }

  lemma DeliversStays(s: State, s': State, r: nat, p: nat, id: nat, m: Outbox.Message)
    requires Delivers(s, r, p, id, m) && BusesGrow(s, s')
    requires (r, p) in s'.attempts && s'.attempts[(r, p)] == s.attempts[(r, p)]
    ensures Delivers(s', r, p, id, m)
  {
    assert HasPublisher(s, r, p);
  }

  // Rows that were done stay delivered if buses and attempts only grow.
  lemma DoneStays(s: State, s': State)
    requires DoneDelivered(s) && BusesGrow(s, s')
    requires forall x :: x in s.attempts ==> x in s'.attempts && s'.attempts[x] == s.attempts[x]
    requires forall id :: id in s'.relay.table.rows && s'.relay.table.rows[id].status == Outbox.Done ==>
               id in s.relay.table.rows && s.relay.table.rows[id].status == Outbox.Done
               && s.relay.table.rows[id].message == s'.relay.table.rows[id].message
    ensures DoneDelivered(s')
  {
    forall id | id in s'.relay.table.rows && s'.relay.table.rows[id].status == Outbox.Done
      ensures exists r, p :: Delivers(s', r, p, id, s'.relay.table.rows[id].message)
    {
      var r, p :| Delivers(s, r, p, id, s.relay.table.rows[id].message);
      DeliversStays(s, s', r, p, id, s.relay.table.rows[id].message);
    }
  }

  lemma CallStays(s: State, s': State, r: nat)
    requires r in s.calls && r in s'.calls && s'.calls[r] == s.calls[r] && CallSound(s, r) && BusesGrow(s, s')
    requires (r, s.calls[r]) in s'.attempts && s'.attempts[(r, s.calls[r])] == s.attempts[(r, s.calls[r])]
    requires Relay.HeldBy(s'.relay, r) == Relay.HeldBy(s.relay, r)
    ensures CallSound(s', r)
  {
  }

  // Publishers keep their event, and what they were told.
  lemma BusKeepsPublishers(b: Bus.State, st: Bus.Step, p: nat)
    requires Bus.Enabled(b, st) && p in b.pubs
    ensures p in Bus.Apply(b, st).pubs && Bus.Apply(b, st).pubs[p].job == b.pubs[p].job
    ensures b.pubs[p].Gone? ==> Bus.Apply(b, st).pubs[p] == b.pubs[p]
  {
  }

  lemma BusStepGrows(s: State, r: nat, b: Bus.Step)
    requires r in s.buses && Bus.Enabled(s.buses[r], b)
    ensures BusesGrow(s, WithBus(s, r, Bus.Apply(s.buses[r], b)))
  {
    forall p | p in s.buses[r].pubs
      ensures p in Bus.Apply(s.buses[r], b).pubs && Bus.Apply(s.buses[r], b).pubs[p].job == s.buses[r].pubs[p].job
      ensures s.buses[r].pubs[p].Gone? ==> Bus.Apply(s.buses[r], b).pubs[p] == s.buses[r].pubs[p]
    {
      BusKeepsPublishers(s.buses[r], b, p);
    }
  }

  // With the relay side as it is.
  lemma BusesKeep(s: State, s': State)
    requires Invariant(s) && BusesGrow(s, s') && BusesSound(s')
    requires s'.relay == s.relay && s'.calls == s.calls && s'.attempts == s.attempts
    ensures Invariant(s')
  {
    DoneStays(s, s');
    forall r | r in s'.calls ensures CallSound(s', r) {
      CallStays(s, s', r);
    }
    forall x | x in s'.attempts ensures HasPublisher(s', x.0, x.1) {
      assert HasPublisher(s, x.0, x.1);
    }
  }

  // One bus more, or one that has moved on.
  lemma WithBusKeeps(s: State, r: nat, bus: Bus.State)
    requires Invariant(s) && Bus.Invariant(bus) && BusesGrow(s, WithBus(s, r, bus))
    ensures Invariant(WithBus(s, r, bus))
  {
    BusesKeep(s, WithBus(s, r, bus));
  }

  lemma BusSound(s: State, r: nat)
    requires BusesSound(s) && r in s.buses
    ensures Bus.Invariant(s.buses[r])
  {
  }

  lemma BusStepKeeps(s: State, r: nat, b: Bus.Step)
    requires Invariant(s) && r in s.buses && Bus.Enabled(s.buses[r], b)
    ensures Invariant(WithBus(s, r, Bus.Apply(s.buses[r], b)))
  {
    var bus := s.buses[r];
    BusSound(s, r);
    Bus.StepKeeps(bus, b);
    BusStepGrows(s, r, b);
    WithBusKeeps(s, r, Bus.Apply(bus, b));
  }

  lemma StartGrows(s: State, r: nat, bus: Bus.State)
    requires r !in s.buses
    ensures BusesGrow(s, WithBus(s, r, bus))
  {
  }

  lemma StartKeeps(s: State, r: nat, bus: Bus.State)
    requires Invariant(s) && r !in s.buses && Bus.Init(bus)
    ensures Invariant(WithBus(s, r, bus))
  {
    Bus.InitSound(bus);
    StartGrows(s, r, bus);
    WithBusKeeps(s, r, bus);
  }

  // A new attempt disturbs none of the earlier ones.
  lemma NewAttemptKeeps(s: State, s': State, r: nat, p: nat)
    requires CallsSound(s) && DoneDelivered(s) && (r, p) !in s.attempts && HasPublisher(s, r, p)
    requires s'.relay == s.relay && s'.buses == s.buses
    requires Relay.HeldBy(s.relay, r) != []
    requires s.buses[r].pubs[p].job == JobOf(Relay.HeldBy(s.relay, r)[0].message)
    requires s'.calls == s.calls[r := p] && s'.attempts == s.attempts[(r, p) := Relay.HeldBy(s.relay, r)[0].id]
    ensures CallsSound(s') && DoneDelivered(s')
  {
    DoneStays(s, s');
    forall q | q in s'.calls ensures CallSound(s', q) {
      if q != r {
        CallStays(s, s', q);
      }
    }
    forall x | x in s'.attempts ensures HasPublisher(s', x.0, x.1) {
      assert x != (r, p) ==> HasPublisher(s, x.0, x.1);
    }
  }

  lemma PublishKeeps(s: State, r: nat, p: nat)
    requires Invariant(s) && Enabled(s, PublishStep(r, p))
    ensures Invariant(Apply(s, PublishStep(r, p)))
  {
    var call := Publishing(s, r, p);
    BusStepKeeps(s, r, call);
    var mid := WithBus(s, r, Bus.Apply(s.buses[r], call));
    assert (r, p) in s.attempts ==> HasPublisher(s, r, p);
    NewAttemptKeeps(mid, Apply(s, PublishStep(r, p)), r, p);
  }

  // Only a delivery makes a row done.
  lemma OtherRelayStepDone(s: Relay.State, rs: Relay.Step, id: nat)
    requires Relay.Enabled(s, rs) && !rs.SettleStep?
    requires id in Relay.Apply(s, rs).table.rows && Relay.Apply(s, rs).table.rows[id].status == Outbox.Done
    ensures id in s.table.rows && s.table.rows[id].status == Outbox.Done
    ensures s.table.rows[id].message == Relay.Apply(s, rs).table.rows[id].message
  {
  }

  // Only its own steps take a relay's first item away.
  lemma OthersKeepHeld(s: Relay.State, rs: Relay.Step, r: nat)
    requires Relay.Enabled(s, rs) && !rs.SettleStep? && Relay.HeldBy(s, r) != []
    requires rs.SkipStep? || rs.CrashStep? ==> rs.r != r
    ensures Relay.HeldBy(Relay.Apply(s, rs), r) == Relay.HeldBy(s, r)
  {
  }

  // A relay step that settles nothing, with the calls of the relays that go on.
  lemma RelayStepKeeps(s: State, rs: Relay.Step, calls: map<nat, nat>)
    requires Invariant(s) && Relay.Enabled(s.relay, rs) && !rs.SettleStep?
    requires calls == if rs.SkipStep? || rs.CrashStep? then s.calls - {rs.r} else s.calls
    ensures Invariant(s.(relay := Relay.Apply(s.relay, rs), calls := calls))
  {
    var s' := s.(relay := Relay.Apply(s.relay, rs), calls := calls);
    Relay.StepKeeps(s.relay, rs);
    forall id | id in s'.relay.table.rows && s'.relay.table.rows[id].status == Outbox.Done
      ensures id in s.relay.table.rows && s.relay.table.rows[id].status == Outbox.Done
              && s.relay.table.rows[id].message == s'.relay.table.rows[id].message
    {
      OtherRelayStepDone(s.relay, rs, id);
    }
    DoneStays(s, s');
    forall r | r in s'.calls ensures CallSound(s', r) {
      assert CallSound(s, r);
      OthersKeepHeld(s.relay, rs, r);
      CallStays(s, s', r);
    }
    assert forall x :: x in s'.attempts ==> HasPublisher(s, x.0, x.1) && HasPublisher(s', x.0, x.1);
  }

  // The joint steps that are such a relay step.
  lemma OtherStepKeeps(s: State, st: Step, rs: Relay.Step)
    requires Invariant(s) && Enabled(s, st)
    requires st == RelayStep(rs) || (rs.SkipStep? && st == SkipStep(rs.r)) || (rs.CrashStep? && st == CrashStep(rs.r))
    ensures Invariant(Apply(s, st))
  {
    var calls := if rs.SkipStep? || rs.CrashStep? then s.calls - {rs.r} else s.calls;
    RelayStepKeeps(s, rs, calls);
    assert Apply(s, st) == s.(relay := Relay.Apply(s.relay, rs), calls := calls);
  }

  // A row is settled as delivered only by the call that delivered it.
  lemma SettleDelivers(s: State, r: nat, at: int)
    requires Relay.Invariant(s.relay) && CallsSound(s) && DoneDelivered(s) && Enabled(s, SettleStep(r, at))
    ensures DoneDelivered(Apply(s, SettleStep(r, at)))
  {
    var s' := Apply(s, SettleStep(r, at));
    var p := s.calls[r];
    var it := Relay.HeldBy(s.relay, r)[0];
    assert CallSound(s, r);
    assert Relay.Active(s.relay, r, 0);
    assert Relay.ItemSound(s.relay.table, it);
    forall id | id in s'.relay.table.rows && s'.relay.table.rows[id].status == Outbox.Done
      ensures exists q, o :: Delivers(s', q, o, id, s'.relay.table.rows[id].message)
    {
      if id == it.id {
        assert Delivers(s', r, p, id, s'.relay.table.rows[id].message);
      } else {
        var q, o :| Delivers(s, q, o, id, s.relay.table.rows[id].message);
        assert Delivers(s', q, o, id, s'.relay.table.rows[id].message);
      }
    }
  }

  // The other calls go on.
  lemma SettleCalls(s: State, r: nat, at: int)
    requires CallsSound(s) && Enabled(s, SettleStep(r, at))
    ensures CallsSound(Apply(s, SettleStep(r, at)))
  {
    var s' := Apply(s, SettleStep(r, at));
    forall q | q in s'.calls ensures CallSound(s', q) {
      assert CallSound(s, q);
      assert Relay.HeldBy(s'.relay, q) == Relay.HeldBy(s.relay, q);
      CallStays(s, s', q);
    }
    assert forall x :: x in s'.attempts ==> HasPublisher(s, x.0, x.1) && HasPublisher(s', x.0, x.1);
  }

  lemma SettleKeeps(s: State, r: nat, at: int)
    requires Invariant(s) && Enabled(s, SettleStep(r, at))
    ensures Invariant(Apply(s, SettleStep(r, at)))
  {
    SettleCalls(s, r, at);
    Relay.StepKeeps(s.relay, Settling(s, r, at));
    SettleDelivers(s, r, at);
  }

  /** Every joint step keeps both protocols and the link between them. */
  lemma StepKeeps(s: State, st: Step)
    requires Invariant(s) && Enabled(s, st)
    ensures Invariant(Apply(s, st))
  {
    match st
    case StartStep(r, bus) => StartKeeps(s, r, bus);
    case RelayStep(rs) => OtherStepKeeps(s, st, rs);
    case BusStep(r, bs) => BusStepKeeps(s, r, bs);
    case PublishStep(r, p) => PublishKeeps(s, r, p);
    case SettleStep(r, at) => SettleKeeps(s, r, at);
    case SkipStep(r) => OtherStepKeeps(s, st, Relay.SkipStep(r));
    case CrashStep(r) => OtherStepKeeps(s, st, Relay.CrashStep(r));
  }

  // ---------------------------------------------------------------- over runs

  ghost predicate Next(s: State, s': State) {
    exists st :: Enabled(s, st) && s' == Apply(s, st)
  }

  ghost predicate NextAt(run: seq<State>, i: nat)
    requires i + 1 < |run|
  {
    Next(run[i], run[i + 1])
  }

  ghost predicate IsRun(run: seq<State>) {
    |run| > 0 && Init(run[0]) && forall i: nat :: i + 1 < |run| ==> NextAt(run, i)
  }

  lemma NextSound(s: State, s': State)
    requires Invariant(s) && Next(s, s')
    ensures Invariant(s')
  {
    var st :| Enabled(s, st) && s' == Apply(s, st);
    StepKeeps(s, st);
  }

  lemma RunStepSound(run: seq<State>, k: nat)
    requires IsRun(run) && k + 1 < |run| && Invariant(run[k])
    ensures Invariant(run[k + 1])
  {
    assert NextAt(run, k);
    NextSound(run[k], run[k + 1]);
  }

  lemma {:induction false} StateSound(run: seq<State>, k: nat, s: State)
    requires IsRun(run) && k < |run| && s == run[k]
    ensures Invariant(s)
  {
    if k > 0 {
      StateSound(run, k - 1, run[k - 1]);
      RunStepSound(run, k - 1);
    }
  }

  lemma RunSound(run: seq<State>, k: nat)
    requires IsRun(run) && k < |run|
    ensures Invariant(run[k])
  {
    StateSound(run, k, run[k]);
  }

  // ---------------------------------------------------------------- the buses within

  // A bus makes one of its own steps, or none, once it is there.
  lemma BusMoves(s: State, st: Step, r: nat)
    requires Enabled(s, st) && r in s.buses
    ensures r in Apply(s, st).buses
    ensures Apply(s, st).buses[r] == s.buses[r] ||
            exists bs :: Bus.Enabled(s.buses[r], bs) && Apply(s, st).buses[r] == Bus.Apply(s.buses[r], bs)
  {
    if st.BusStep? && st.r == r {
      assert Bus.Enabled(s.buses[r], st.bs);
    } else if st.PublishStep? && st.r == r {
      assert Bus.Enabled(s.buses[r], Publishing(s, r, st.p));
    }
  }

  // It is there from its start on.
  lemma BusStarts(s: State, st: Step, r: nat)
    requires Enabled(s, st) && r !in s.buses && r in Apply(s, st).buses
    ensures Bus.Init(Apply(s, st).buses[r])
  {
  }

  ghost predicate BusCovers(h: Routing.Handlers, n: nat, s: State, r: nat) {
    r in s.buses && Bus.Covers(h, n, s.buses[r])
  }

  lemma RunStepCovers(run: seq<State>, h: Routing.Handlers, n: nat, r: nat, k: nat)
    requires IsRun(run) && k + 1 < |run| && BusCovers(h, n, run[k], r)
    ensures BusCovers(h, n, run[k + 1], r)
  {
    assert NextAt(run, k);
    var st :| Enabled(run[k], st) && run[k + 1] == Apply(run[k], st);
    BusMoves(run[k], st, r);
    if run[k + 1].buses[r] != run[k].buses[r] {
      var bs :| Bus.Enabled(run[k].buses[r], bs) && run[k + 1].buses[r] == Bus.Apply(run[k].buses[r], bs);
      Bus.CoversKept(h, n, run[k].buses[r], bs);
    }
  }

  lemma {:induction false} RunCovers(run: seq<State>, r: nat, i: nat, k: nat, s: State)
    requires IsRun(run) && i <= k < |run| && s == run[k] && r in run[i].buses
    ensures BusCovers(run[i].buses[r].handlers, |run[i].buses[r].accepted|, s, r)
  {
    if i == k {
      RunSound(run, i);
      Bus.CoversNow(run[i].buses[r]);
    } else {
      RunCovers(run, r, i, k - 1, run[k - 1]);
      RunStepCovers(run, run[i].buses[r].handlers, |run[i].buses[r].accepted|, r, k - 1);
    }
  }

  // The subscription tables of one bus in the first k + 1 states.
  function SeenBy(run: seq<State>, r: nat, k: nat): set<(nat, Routing.Handlers)>
    requires k < |run|
  {
    set i: nat | i <= k && r in run[i].buses :: (|run[i].buses[r].accepted|, run[i].buses[r].handlers)
  }

  ghost predicate BusTables(seen: set<(nat, Routing.Handlers)>, s: State, r: nat) {
    r in s.buses ==> Bus.TablesAmong(seen, s.buses[r])
  }

  lemma StepTables(seen: set<(nat, Routing.Handlers)>, s: State, st: Step, r: nat)
    requires Enabled(s, st) && BusTables(seen, s, r)
    requires r in s.buses ==> (|s.buses[r].accepted|, s.buses[r].handlers) in seen && Bus.TookAccepted(s.buses[r])
    ensures BusTables(seen, Apply(s, st), r)
  {
    if r in s.buses {
      BusMoves(s, st, r);
      if Apply(s, st).buses[r] != s.buses[r] {
        var bs :| Bus.Enabled(s.buses[r], bs) && Apply(s, st).buses[r] == Bus.Apply(s.buses[r], bs);
        Bus.TablesKept(seen, s.buses[r], bs);
      }
    } else if r in Apply(s, st).buses {
      BusStarts(s, st, r);
    }
  }

  lemma RunStepTables(run: seq<State>, r: nat, k: nat)
    requires IsRun(run) && k + 1 < |run| && BusTables(SeenBy(run, r, k), run[k], r)
    ensures BusTables(SeenBy(run, r, k), run[k + 1], r)
  {
    RunSound(run, k);
    if r in run[k].buses {
      Bus.PlacedIsAccepted(run[k].buses[r]);
    }
    RunStepTablesFrom(run, r, k);
  }

  lemma RunStepTablesFrom(run: seq<State>, r: nat, k: nat)
    requires IsRun(run) && k + 1 < |run| && BusTables(SeenBy(run, r, k), run[k], r)
    requires r in run[k].buses ==> Bus.TookAccepted(run[k].buses[r])
    ensures BusTables(SeenBy(run, r, k), run[k + 1], r)
  {
    assert NextAt(run, k);
    var st :| Enabled(run[k], st) && run[k + 1] == Apply(run[k], st);
    StepTables(SeenBy(run, r, k), run[k], st, r);
  }

  lemma {:induction false} RunTables(run: seq<State>, r: nat, k: nat, s: State)
    requires IsRun(run) && k < |run| && s == run[k]
    ensures BusTables(SeenBy(run, r, k), s, r)
  {
    if k > 0 {
      RunTables(run, r, k - 1, run[k - 1]);
      RunStepTables(run, r, k - 1);
      if r in s.buses {
        Bus.TablesGrow(SeenBy(run, r, k - 1), SeenBy(run, r, k), s.buses[r]);
      }
    }
  }

  // ---------------------------------------------------------------- theorems

  // Attempt p of relay r for row id was answered nil for ticket t of its bus.
  predicate DeliveredAs(s: State, id: nat, r: nat, p: nat, t: nat) {
    && (r, p) in s.attempts && s.attempts[(r, p)] == id && HasPublisher(s, r, p)
    && s.buses[r].pubs[p].Gone? && s.buses[r].pubs[p].verdict == Bus.Answered(t, None)
  }

  // The event is the row's: its type and payload, and its correlation id and user if any.
  predicate CarriesMessage(e: EventBus.Event, m: Outbox.Message) {
    && e.eventType == m.eventType && e.payload == m.payload
    && (m.correlationId.Some? ==> e.correlationId == m.correlationId.value)
    && (m.correlationId.None? ==> e.correlationId == "")
    && (m.userId.Some? ==> e.userId == m.userId.value)
    && (m.userId.None? ==> e.userId == 0)
  }

  lemma DeliveredIsFinished(b: Bus.State, p: nat, t: nat)
    requires Bus.VerdictsSound(b) && Bus.FinishesSound(b)
    requires p in b.pubs && b.pubs[p].Gone? && b.pubs[p].verdict == Bus.Answered(t, None)
    ensures t < |b.accepted| && t in b.finished && b.accepted[t] == b.pubs[p].job
    ensures Routing.TableSound(b.finished[t].table)
    ensures |b.finished[t].outcomes| == |Routing.Targets(b.finished[t].table, b.accepted[t].event.eventType)|
    ensures EventBus.AllReturned(b.finished[t].outcomes)
  {
    assert Bus.VerdictSound(b, b.pubs[p]);
    assert Bus.FinishSound(b, t);
    EventBus.NilMeansAllReturned(b.finished[t].outcomes);
  }

  // The table that a finished event was routed by, and when its bus had it.
  lemma TableOf(run: seq<State>, r: nat, k: nat, t: nat) returns (m: nat)
    requires IsRun(run) && k < |run| && r in run[k].buses && t in run[k].buses[r].finished
    ensures m <= k && r in run[m].buses && t < |run[m].buses[r].accepted|
    ensures run[k].buses[r].finished[t].table == run[m].buses[r].handlers
  {
    RunTables(run, r, k, run[k]);
    var seen :| seen in SeenBy(run, r, k) && t < seen.0 && seen.1 == run[k].buses[r].finished[t].table;
    m :| m <= k && r in run[m].buses && seen == (|run[m].buses[r].accepted|, run[m].buses[r].handlers);
  }

  /** End to end, across restarts and with any number of processes: a row is done only if
      the event that one attempt of some relay r published for it on its own bus, carrying
      the row's own message, was accepted and had every target run, none of them failing
      or panicking. The targets are those of that bus's subscriptions at a moment m after
      it accepted the event. */
  lemma DoneMeansDelivered(run: seq<State>, k: nat, id: nat) returns (r: nat, p: nat, t: nat, m: nat)
    requires IsRun(run) && k < |run|
    requires id in run[k].relay.table.rows && run[k].relay.table.rows[id].status == Outbox.Done
    ensures DeliveredAs(run[k], id, r, p, t)
    ensures var b := run[k].buses[r];
            && t < |b.accepted| && t in b.finished
            && b.accepted[t] == b.pubs[p].job == JobOf(run[k].relay.table.rows[id].message)
            && CarriesMessage(b.accepted[t].event, run[k].relay.table.rows[id].message)
            && |b.finished[t].outcomes| == |Routing.Targets(b.finished[t].table, b.accepted[t].event.eventType)|
            && EventBus.AllReturned(b.finished[t].outcomes)
    ensures m <= k && r in run[m].buses && t < |run[m].buses[r].accepted|
    ensures run[k].buses[r].finished[t].table == run[m].buses[r].handlers
  {
    RunSound(run, k);
    var s := run[k];
    r, p :| Delivers(s, r, p, id, s.relay.table.rows[id].message);
    t := s.buses[r].pubs[p].verdict.ticket;
    DeliveredIsFinished(s.buses[r], p, t);
    m := TableOf(run, r, k, t);
  }

  /** Every subscription that the delivering bus had before it accepted that event was
      called for it as often as routing says, at least once if its pattern matches, and
      each call returned. */
  lemma DoneReachedSubscriber(run: seq<State>, k: nat, id: nat, r: nat, p: nat, t: nat,
                              i: nat, pattern: string, h: nat)
    requires IsRun(run) && k < |run| && DeliveredAs(run[k], id, r, p, t)
    requires i <= k && r in run[i].buses && |run[i].buses[r].accepted| <= t
    requires pattern in run[i].buses[r].handlers && h in run[i].buses[r].handlers[pattern]
    ensures t in run[k].buses[r].finished
    ensures Bus.Reached(run[k].buses[r].finished[t], run[k].buses[r].pubs[p].job.event.eventType, pattern, h)
    ensures Bus.ReturnedEach(run[k].buses[r].finished[t], run[k].buses[r].pubs[p].job.event.eventType, h)
  {
    RunSound(run, k);
    var b := run[k].buses[r];
    DeliveredIsFinished(b, p, t);
    RunCovers(run, r, i, k, run[k]);
    Bus.ReachedByTable(run[i].buses[r].handlers, b.finished[t], b.pubs[p].job.event.eventType, pattern, h);
  }

  /** Nothing else was called: every target was a subscription of that bus whose pattern
      matches when the worker looked. */
  lemma DoneCalledOnlySubscribers(run: seq<State>, k: nat, id: nat, r: nat, p: nat, t: nat, h: nat) returns (m: nat)
    requires IsRun(run) && k < |run| && DeliveredAs(run[k], id, r, p, t) && t in run[k].buses[r].finished
    requires h in Routing.Targets(run[k].buses[r].finished[t].table, run[k].buses[r].pubs[p].job.event.eventType)
    ensures m <= k && r in run[m].buses && t < |run[m].buses[r].accepted|
    ensures exists q :: q in run[m].buses[r].handlers && h in run[m].buses[r].handlers[q]
                        && Routing.Matches(q, run[k].buses[r].pubs[p].job.event.eventType)
  {
    m := TableOf(run, r, k, t);
    Routing.OnlySubscriptions(run[m].buses[r].handlers, run[k].buses[r].pubs[p].job.event.eventType, h);
  }

  // A subscription in the table for the type.
  ghost predicate SubscribedTo(h: Routing.Handlers, eventType: string, x: nat) {
    exists q :: q in h && x in h[q] && Routing.Matches(q, eventType)
  }

  /** So who was called is exactly who was subscribed on that bus at one moment m after it
      accepted the event, whatever other processes' buses had. */
  lemma DoneCalledIff(run: seq<State>, k: nat, id: nat, r: nat, p: nat, t: nat) returns (m: nat)
    requires IsRun(run) && k < |run| && DeliveredAs(run[k], id, r, p, t)
    ensures t in run[k].buses[r].finished && m <= k && r in run[m].buses && t < |run[m].buses[r].accepted|
    ensures var eventType := run[k].buses[r].pubs[p].job.event.eventType;
            forall x :: x in Routing.Targets(run[k].buses[r].finished[t].table, eventType)
                        <==> SubscribedTo(run[m].buses[r].handlers, eventType, x)
  {
    RunSound(run, k);
    DeliveredIsFinished(run[k].buses[r], p, t);
    m := TableOf(run, r, k, t);
    var h, eventType := run[m].buses[r].handlers, run[k].buses[r].pubs[p].job.event.eventType;
    forall x ensures x in Routing.Targets(h, eventType) <==> SubscribedTo(h, eventType, x) {
      CalledIff(h, eventType, x);
    }
  }

  lemma CalledIff(h: Routing.Handlers, eventType: string, x: nat)
    requires Routing.TableSound(h)
    ensures x in Routing.Targets(h, eventType) <==> SubscribedTo(h, eventType, x)
  {
    if x in Routing.Targets(h, eventType) {
      Routing.OnlySubscriptions(h, eventType, x);
    }
    if SubscribedTo(h, eventType, x) {
      var q :| q in h && x in h[q] && Routing.Matches(q, eventType);
      Routing.RoutingCount(h, eventType, q, x);
      Routing.CallsIfMatches(q, eventType);
    }
  }

  // ---------------------------------------------------------------- from the commit on

  // Attempts are for committed rows.
  predicate AttemptsBelow(s: State) {
    forall x :: x in s.attempts ==> s.attempts[x] < s.relay.table.nextId
  }

  // Every event that was accepted for row id on bus r came after n others.
  ghost predicate AcceptedLater(id: nat, r: nat, n: nat, s: State) {
    && r in s.buses && n <= |s.buses[r].accepted|
    && forall p :: (r, p) in s.attempts && s.attempts[(r, p)] == id && p in s.buses[r].pubs ==>
         Bus.AcceptedFrom(n, s.buses[r].pubs[p])
  }

  lemma PublishedIsCommitted(s: State, r: nat)
    requires Relay.Invariant(s.relay) && Relay.HeldBy(s.relay, r) != []
    requires Relay.MayAct(s.relay, Relay.HeldBy(s.relay, r)[0])
    ensures var it := Relay.HeldBy(s.relay, r)[0];
            && it.id in s.relay.table.rows && it.id < s.relay.table.nextId
            && s.relay.table.rows[it.id].status == Outbox.Processing
            && s.relay.table.rows[it.id].message == it.message
  {
    assert Relay.Active(s.relay, r, 0);
    assert Relay.ItemSound(s.relay.table, s.relay.held[r][0]);
  }

  lemma IdsGrow(s: Relay.State, rs: Relay.Step)
    requires Relay.Enabled(s, rs)
    ensures s.table.nextId <= Relay.Apply(s, rs).table.nextId
  {
  }

  lemma StepAttemptsBelow(s: State, st: Step)
    requires Relay.Invariant(s.relay) && AttemptsBelow(s) && Enabled(s, st)
    ensures AttemptsBelow(Apply(s, st))
  {
    match st
    case RelayStep(rs) => IdsGrow(s.relay, rs);
    case PublishStep(r, _) => PublishedIsCommitted(s, r);
    case SettleStep(r, at) => IdsGrow(s.relay, Settling(s, r, at));
    case SkipStep(r) => IdsGrow(s.relay, Relay.SkipStep(r));
    case CrashStep(r) => IdsGrow(s.relay, Relay.CrashStep(r));
    case _ =>
  }

  lemma BusAcceptedLater(s: State, s': State, id: nat, r: nat, n: nat, bs: Bus.Step)
    requires AcceptedLater(id, r, n, s) && Bus.VerdictsSound(s.buses[r]) && Bus.Enabled(s.buses[r], bs)
    requires r in s'.buses && s'.buses[r] == Bus.Apply(s.buses[r], bs) && s'.attempts == s.attempts
    requires forall p :: (r, p) in s.attempts ==> p in s.buses[r].pubs
    ensures AcceptedLater(id, r, n, s')
  {
    Bus.AcceptedGrows(s.buses[r], bs);
    forall p | (r, p) in s'.attempts && s'.attempts[(r, p)] == id ensures Bus.AcceptedFrom(n, s'.buses[r].pubs[p]) {
      assert Bus.VerdictSound(s.buses[r], s.buses[r].pubs[p]);
      Bus.AcceptedFromKept(n, p, s.buses[r], bs);
    }
  }

  lemma PublishAcceptedLater(s: State, r: nat, p: nat, id: nat, n: nat)
    requires Enabled(s, PublishStep(r, p)) && AcceptedLater(id, r, n, s) && Bus.VerdictsSound(s.buses[r])
    requires forall q :: (r, q) in s.attempts ==> q in s.buses[r].pubs
    ensures AcceptedLater(id, r, n, Apply(s, PublishStep(r, p)))
  {
    var call := Publishing(s, r, p);
    var mid := WithBus(s, r, Bus.Apply(s.buses[r], call));
    BusAcceptedLater(s, mid, id, r, n, call);
    assert mid.buses[r].pubs[p].Calling?;
  }

  lemma AttemptsHavePublishers(s: State, r: nat)
    requires CallsSound(s) && r in s.buses
    ensures forall p :: (r, p) in s.attempts ==> p in s.buses[r].pubs
  {
    forall p | (r, p) in s.attempts ensures p in s.buses[r].pubs {
      assert HasPublisher(s, (r, p).0, (r, p).1);
    }
  }

  predicate VerdictsHold(s: State) {
    forall r :: r in s.buses ==> Bus.VerdictsSound(s.buses[r])
  }

  lemma BusVerdicts(s: State, r: nat)
    requires VerdictsHold(s) && r in s.buses
    ensures Bus.VerdictsSound(s.buses[r])
  {
  }

  lemma SoundVerdicts(s: State)
    requires BusesSound(s)
    ensures VerdictsHold(s)
  {
    forall r | r in s.buses ensures Bus.VerdictsSound(s.buses[r]) {
      BusSound(s, r);
    }
  }

  lemma StepAcceptedLater(s: State, st: Step, id: nat, r: nat, n: nat)
    requires VerdictsHold(s) && CallsSound(s) && AcceptedLater(id, r, n, s) && Enabled(s, st)
    ensures AcceptedLater(id, r, n, Apply(s, st))
  {
    AttemptsHavePublishers(s, r);
    BusVerdicts(s, r);
    if st.BusStep? && st.r == r {
      BusAcceptedLater(s, Apply(s, st), id, r, n, st.bs);
    } else if st.PublishStep? && st.r == r {
      PublishAcceptedLater(s, r, st.p, id, n);
    }
  }

  lemma RunStepBelow(run: seq<State>, k: nat)
    requires IsRun(run) && k + 1 < |run| && AttemptsBelow(run[k])
    ensures AttemptsBelow(run[k + 1])
  {
    RunSound(run, k);
    assert NextAt(run, k);
    var st :| Enabled(run[k], st) && run[k + 1] == Apply(run[k], st);
    StepAttemptsBelow(run[k], st);
  }

  lemma RunStepLater(run: seq<State>, k: nat, id: nat, r: nat, n: nat)
    requires IsRun(run) && k + 1 < |run| && AcceptedLater(id, r, n, run[k])
    ensures AcceptedLater(id, r, n, run[k + 1])
  {
    RunSound(run, k);
    assert NextAt(run, k);
    var st :| Enabled(run[k], st) && run[k + 1] == Apply(run[k], st);
    SoundVerdicts(run[k]);
    StepAcceptedLater(run[k], st, id, r, n);
  }

  lemma {:induction false} RunAttemptsBelow(run: seq<State>, k: nat, s: State)
    requires IsRun(run) && k < |run| && s == run[k]
    ensures AttemptsBelow(s)
  {
    if k > 0 {
      RunAttemptsBelow(run, k - 1, run[k - 1]);
      RunStepBelow(run, k - 1);
    }
  }

  lemma {:induction false} RunAcceptedLater(run: seq<State>, i: nat, k: nat, id: nat, r: nat, s: State)
    requires IsRun(run) && i <= k < |run| && s == run[k]
    requires run[i].relay.table.nextId <= id && r in run[i].buses
    ensures AcceptedLater(id, r, |run[i].buses[r].accepted|, s)
  {
    if i == k {
      RunAttemptsBelow(run, i, s);
    } else {
      RunAcceptedLater(run, i, k - 1, id, r, run[k - 1]);
      RunStepLater(run, k - 1, id, r, |run[i].buses[r].accepted|);
    }
  }

  /** Subscribed before the commit, delivered when done: when a row is done, some process
      delivered it, and every subscription that this process's bus had before the row was
      committed was called for the event that made it so, with the row's message, as often
      as routing says, and each call returned. */
  lemma SubscribedBeforeCommit(run: seq<State>, i: nat, k: nat, id: nat) returns (r: nat, p: nat, t: nat)
    requires IsRun(run) && i <= k < |run| && run[i].relay.table.nextId <= id
    requires id in run[k].relay.table.rows && run[k].relay.table.rows[id].status == Outbox.Done
    ensures DeliveredAs(run[k], id, r, p, t) && t in run[k].buses[r].finished
    ensures run[k].buses[r].pubs[p].job == JobOf(run[k].relay.table.rows[id].message)
    ensures forall pattern, h :: r in run[i].buses && pattern in run[i].buses[r].handlers
                                 && h in run[i].buses[r].handlers[pattern] ==>
              Bus.Reached(run[k].buses[r].finished[t], run[k].relay.table.rows[id].message.eventType, pattern, h)
              && Bus.ReturnedEach(run[k].buses[r].finished[t], run[k].relay.table.rows[id].message.eventType, h)
  {
    var m;
    r, p, t, m := DoneMeansDelivered(run, k, id);
    forall pattern, h | r in run[i].buses && pattern in run[i].buses[r].handlers
                        && h in run[i].buses[r].handlers[pattern]
      ensures Bus.Reached(run[k].buses[r].finished[t], run[k].relay.table.rows[id].message.eventType, pattern, h)
      ensures Bus.ReturnedEach(run[k].buses[r].finished[t], run[k].relay.table.rows[id].message.eventType, h)
    {
      RunAcceptedLater(run, i, k, id, r, run[k]);
      assert Bus.AcceptedFrom(|run[i].buses[r].accepted|, run[k].buses[r].pubs[p]);
      DoneReachedSubscriber(run, k, id, r, p, t, i, pattern, h);
    }
  }

  // ---------------------------------------------------------------- settling by the answer

  /** A relay settles its row by the answer to its call: done exactly if the answer was nil,
      otherwise failed, to be retried, or dead from the tenth attempt on. */
  lemma SettledByAnswer(run: seq<State>, k: nat, r: nat, at: int)
    requires IsRun(run) && k < |run| && Enabled(run[k], SettleStep(r, at))
    ensures var s, s' := run[k], Apply(run[k], SettleStep(r, at));
            var p, id := s.calls[r], Relay.HeldBy(s.relay, r)[0].id;
            && HasPublisher(s, r, p) && s.buses[r].pubs[p].Gone?
            && id in s.relay.table.rows && id in s'.relay.table.rows
            && (r, p) in s.attempts && s.attempts[(r, p)] == id
            && (s'.relay.table.rows[id].status == Outbox.Done <==>
                  s.buses[r].pubs[p].verdict.Answered? && s.buses[r].pubs[p].verdict.error == None)
            && (s'.relay.table.rows[id].status != Outbox.Done ==>
                  s'.relay.table.rows[id].status
                  == if s.relay.table.rows[id].attempts >= 10 then Outbox.Dead else Outbox.Failed)
  {
    RunSound(run, k);
    SettledIsHeld(run[k], r, at);
    SettledAs(run[k].relay, r, DeliveredBy(run[k].buses[r].pubs[run[k].calls[r]]), at);
  }

  lemma SettledIsHeld(s: State, r: nat, at: int)
    requires Relay.Invariant(s.relay) && CallsSound(s) && Enabled(s, SettleStep(r, at))
    ensures Relay.ItemSound(s.relay.table, Relay.HeldBy(s.relay, r)[0])
    ensures (r, s.calls[r]) in s.attempts && s.attempts[(r, s.calls[r])] == Relay.HeldBy(s.relay, r)[0].id
  {
    assert CallSound(s, r);
    assert Relay.Active(s.relay, r, 0);
  }

  lemma SettledAs(s: Relay.State, r: nat, delivered: bool, at: int)
    requires Relay.Enabled(s, Relay.SettleStep(r, delivered, at)) && Relay.ItemSound(s.table, Relay.HeldBy(s, r)[0])
    ensures var id, s' := Relay.HeldBy(s, r)[0].id, Relay.Apply(s, Relay.SettleStep(r, delivered, at));
            id in s'.table.rows &&
            s'.table.rows[id].status == if delivered then Outbox.Done
                                        else if s.table.rows[id].attempts >= 10 then Outbox.Dead else Outbox.Failed
  {
  }

  // ---------------------------------------------------------------- republishing

  /** What a relay publishes is never a done or dead row. */
  lemma SettledRowsAreNotRepublished(run: seq<State>, k: nat, r: nat, p: nat)
    requires IsRun(run) && k < |run| && Enabled(run[k], PublishStep(r, p))
    ensures var it := Relay.HeldBy(run[k].relay, r)[0];
            it.id in run[k].relay.table.rows
            && run[k].relay.table.rows[it.id].status == Outbox.Processing
            && run[k].relay.table.rows[it.id].message == it.message
  {
    RunSound(run, k);
    PublishedIsCommitted(run[k], r);
  }

  // Relay r waits for publisher p and may still act on its row.
  predicate CallInForce(s: State, r: nat, p: nat) {
    && r in s.calls && s.calls[r] == p
    && Relay.HeldBy(s.relay, r) != [] && Relay.MayAct(s.relay, Relay.HeldBy(s.relay, r)[0])
  }

  lemma CallIsForRow(s: State, r: nat, p: nat)
    requires Relay.Invariant(s.relay) && CallsSound(s) && CallInForce(s, r, p)
    ensures (r, p) in s.attempts && s.attempts[(r, p)] in s.relay.table.rows && HasPublisher(s, r, p)
    ensures var row := s.relay.table.rows[s.attempts[(r, p)]];
            row.status == Outbox.Processing && s.buses[r].pubs[p].job == JobOf(row.message)
  {
    assert CallSound(s, r);
    PublishedIsCommitted(s, r);
  }

  /** Nor is one by the time the bus accepts its event: while the relay's call is in
      force, the row is processing, with the message that the event carries. */
  lemma AcceptedWhileProcessing(run: seq<State>, k: nat, r: nat, p: nat)
    requires IsRun(run) && k < |run| && r in run[k].buses && Bus.Enabled(run[k].buses[r], Bus.Accept(p))
    requires CallInForce(run[k], r, p)
    ensures (r, p) in run[k].attempts && run[k].attempts[(r, p)] in run[k].relay.table.rows
    ensures var row := run[k].relay.table.rows[run[k].attempts[(r, p)]];
            && row.status == Outbox.Processing
            && Bus.Apply(run[k].buses[r], Bus.Accept(p)).accepted
               == run[k].buses[r].accepted + [JobOf(row.message)]
  {
    RunSound(run, k);
    CallIsForRow(run[k], r, p);
  }
}
