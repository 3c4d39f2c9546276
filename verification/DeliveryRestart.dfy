/**
  Subscriptions live on the bus of one process. A run in which a row is done and a
  subscription that was there before the row was committed was never called, because the
  process that had it crashed and the next one delivered the row on its own bus.
 */
module DeliveryRestart {
  import opened Wrappers
  import Routing
  import Outbox
  import Relay = OutboxRelay
  import EventBus
  import Bus = EventBusRuns
  import opened Delivery

  // A bus with one worker, as a process starts it.
  const NEW_BUS := Bus.State(Bus.Open, map[], [], [], map[], map[0 := Bus.Idle], map[], map[], 0, [])

  // ---------------------------------------------------------------- one event, no subscribers

  lemma {:induction false} NoTargets(patterns: seq<string>)
    ensures Routing.Gather(map[], patterns) == []
  {
    if patterns != [] {
      NoTargets(patterns[..|patterns| - 1]);
    }
  }

  // The new bus on the way from a publisher's call to its answer.
  function Stage(job: Bus.Job, n: nat): Bus.State
    requires n <= 8
  {
    var b := NEW_BUS;
    var accepted := b.(accepted := [job]);
    var finished := accepted.(finished := map[0 := Bus.Finish(map[], [])], workers := map[0 := Bus.Idle]);
    match n
    case 0 => b.(pubs := map[0 := Bus.Calling(job)])
    case 1 => b.(pubs := map[0 := Bus.Inside(job)])
    case 2 => b.(pubs := map[0 := Bus.Sending(job)])
    case 3 => accepted.(queue := [0], pubs := map[0 := Bus.Leaving(job, Bus.Accepted(0))])
    case 4 => accepted.(queue := [0], pubs := map[0 := Bus.Waiting(job, 0)])
    case 5 => accepted.(workers := map[0 := Bus.Took(0)], pubs := map[0 := Bus.Waiting(job, 0)])
    case 6 => accepted.(workers := map[0 := Bus.Running(0, map[], [])], pubs := map[0 := Bus.Waiting(job, 0)])
    case 7 => finished.(replies := map[0 := [None]], pubs := map[0 := Bus.Waiting(job, 0)])
    case 8 => finished.(replies := map[0 := []], pubs := map[0 := Bus.Gone(job, Bus.Answered(0, None))])
  }

  function StepOf(n: nat): Bus.Step
    requires n < 8
  {
    match n
    case 0 => Bus.RLock(0)
    case 1 => Bus.Check(0)
    case 2 => Bus.Accept(0)
    case 3 => Bus.RUnlock(0)
    case 4 => Bus.Take(0)
    case 5 => Bus.Route(0)
    case 6 => Bus.SendReply(0)
    case 7 => Bus.Receive(0)
  }

  predicate Steps(b: Bus.State, st: Bus.Step, b': Bus.State) {
    Bus.Enabled(b, st) && Bus.Apply(b, st) == b'
  }

  // Into the queue.
  lemma StageAccept(job: Bus.Job)
    requires job.wants
    ensures Steps(Stage(job, 2), Bus.Accept(0), Stage(job, 3))
  {
    assert [] + [job] == [job];
    var p := Bus.Leaving(job, Bus.Accepted(0));
    assert Stage(job, 2).pubs[0 := p] == map[0 := p];
  }

  // Out of the queue.
  lemma StageTake(job: Bus.Job)
    requires job.wants
    ensures Steps(Stage(job, 4), Bus.Take(0), Stage(job, 5))
  {
    assert Stage(job, 4).queue[1..] == [];
    assert Stage(job, 4).workers[0 := Bus.Took(0)] == map[0 := Bus.Took(0)];
  }

  lemma StageRoute(job: Bus.Job)
    requires job.wants
    ensures Steps(Stage(job, 5), Bus.Route(0), Stage(job, 6))
  {
    assert Stage(job, 5).workers[0 := Bus.Running(0, map[], [])] == map[0 := Bus.Running(0, map[], [])];
  }

  // With nobody to call the handling is over at once.
  lemma StageReply(job: Bus.Job)
    requires job.wants
    ensures Steps(Stage(job, 6), Bus.SendReply(0), Stage(job, 7))
  {
    var b := Stage(job, 6);
    NoTargets(Routing.Patterns(job.event.eventType));
    assert Bus.DoneHandling(b, 0);
    assert b.workers[0 := Bus.Idle] == map[0 := Bus.Idle];
    assert b.finished[0 := Bus.Finish(map[], [])] == map[0 := Bus.Finish(map[], [])];
    assert Bus.ReplyBuffer(b, 0) + [None] == [None];
    assert b.replies[0 := [None]] == map[0 := [None]];
  }

  lemma StageReceive(job: Bus.Job)
    requires job.wants
    ensures Steps(Stage(job, 7), Bus.Receive(0), Stage(job, 8))
  {
    var b := Stage(job, 7);
    assert Bus.ReplyBuffer(b, 0) == [None] && Bus.ReplyBuffer(b, 0)[1..] == [];
    assert b.replies[0 := []] == map[0 := []];
    assert b.pubs[0 := Bus.Gone(job, Bus.Answered(0, None))] == map[0 := Bus.Gone(job, Bus.Answered(0, None))];
  }

  // A step of the publisher alone.
  lemma StagePublisher(job: Bus.Job, n: nat)
    requires job.wants && (n < 2 || n == 3)
    ensures Steps(Stage(job, n), StepOf(n), Stage(job, n + 1))
  {
    var b := Stage(job, n);
    var p := Bus.Apply(b, StepOf(n)).pubs[0];
    assert b.pubs[0 := p] == map[0 := p];
  }

  lemma StageStep(job: Bus.Job, n: nat)
    requires n < 8 && job.wants
    ensures Steps(Stage(job, n), StepOf(n), Stage(job, n + 1))
  {
    match n
    case 2 => StageAccept(job);
    case 4 => StageTake(job);
    case 5 => StageRoute(job);
    case 6 => StageReply(job);
    case 7 => StageReceive(job);
    case _ => StagePublisher(job, n);
  }

  // ---------------------------------------------------------------- runs

  function Last(run: seq<State>): State
    requires run != []
  {
    run[|run| - 1]
  }

  lemma Extend(run: seq<State>, st: Step) returns (longer: seq<State>)
    requires IsRun(run) && Enabled(Last(run), st)
    ensures IsRun(longer) && run <= longer && Last(longer) == Apply(Last(run), st)
  {
    longer := run + [Apply(Last(run), st)];
    forall i: nat | i + 1 < |longer| ensures NextAt(longer, i) {
      if i + 1 < |run| {
        assert NextAt(run, i);
      } else {
        assert Next(longer[i], longer[i + 1]);
      }
    }
  }

  // Bus r takes its event all the way to the answer.
  lemma {:induction false} Deliver(run: seq<State>, r: nat, job: Bus.Job, n: nat) returns (longer: seq<State>)
    requires IsRun(run) && n <= 8 && job.wants
    requires r in Last(run).buses && Last(run).buses[r] == Stage(job, n)
    ensures IsRun(longer) && run <= longer && Last(longer) == WithBus(Last(run), r, Stage(job, 8))
    decreases 8 - n
  {
    if n == 8 {
      longer := run;
      assert WithBus(Last(run), r, Stage(job, 8)) == Last(run);
    } else {
      StageStep(job, n);
      var s := Last(run);
      longer := Extend(run, BusStep(r, StepOf(n)));
      longer := Deliver(longer, r, job, n + 1);
      assert WithBus(WithBus(s, r, Stage(job, n + 1)), r, Stage(job, 8)) == WithBus(s, r, Stage(job, 8));
    }
  }

  const SUBSCRIBED := NEW_BUS.(handlers := map["*" := [7]])

  // The first process, with a subscription and nothing committed yet.
  lemma FirstProcess() returns (run: seq<State>)
    ensures IsRun(run)
    ensures Last(run) == State(Relay.State(Relay.SingleRelay, 0, Outbox.Table(map[], 1), map[], map[]),
                               map[0 := SUBSCRIBED], map[], map[])
  {
    var start := State(Relay.State(Relay.SingleRelay, 0, Outbox.Table(map[], 1), map[], map[]), map[], map[], map[]);
    run := [start];
    run := Extend(run, StartStep(0, NEW_BUS));
    assert Routing.Subscribers(map[], "*") + [7] == [7];
    run := Extend(run, BusStep(0, Bus.Subscribe("*", 7)));
    assert Last(run).buses == map[0 := SUBSCRIBED];
  }

  function RowOf(m: Outbox.Message, attempts: nat, status: Outbox.Status, next: int): Outbox.Row {
    Outbox.Row(m, status, attempts, Some(next), None, 0)
  }

  lemma OnlyRow(t: Outbox.Table, r: Outbox.Row, now: int)
    requires t == Outbox.Table(map[1 := r], 2) && Outbox.Due(r, now)
    ensures Outbox.Claimable(t, [1], now, Outbox.BATCH_SIZE)
    ensures Outbox.AfterClaim(t, [1], now) == Outbox.Table(map[1 := Outbox.ClaimedRow(r, now)], 2)
    ensures Outbox.ItemsOf(t, [1], now) == [Outbox.Item(1, r.message, r.attempts, now)]
  {
  }

  // It commits a row, claims it and crashes; the lease runs out.
  lemma Crash(run: seq<State>, m: Outbox.Message) returns (longer: seq<State>)
    requires IsRun(run)
    requires Last(run) == State(Relay.State(Relay.SingleRelay, 0, Outbox.Table(map[], 1), map[], map[]),
                                map[0 := SUBSCRIBED], map[], map[])
    ensures IsRun(longer) && run <= longer
    ensures var s := Last(longer);
            && s.buses == map[0 := SUBSCRIBED] && s.calls == map[] && s.attempts == map[]
            && s.relay.mode == Relay.SingleRelay && s.relay.clock == Outbox.LEASE && s.relay.held == map[0 := []]
            && s.relay.table == Outbox.Table(map[1 := RowOf(m, 1, Outbox.Processing, Outbox.LEASE)], 2)
  {
    longer := Extend(run, RelayStep(Relay.AddStep(m, 0)));
    var row := RowOf(m, 0, Outbox.Pending, 0);
    assert Last(longer).relay.table == Outbox.Table(map[1 := row], 2);
    OnlyRow(Last(longer).relay.table, row, 0);
    longer := Extend(longer, RelayStep(Relay.ClaimStep(0, [1], 0, 0)));
    longer := Extend(longer, CrashStep(0));
    longer := Extend(longer, RelayStep(Relay.Tick(Outbox.LEASE)));
    assert Last(longer).relay.held == map[0 := []];
  }

  // The next process claims the row and publishes it on its own bus.
  lemma SecondProcess(run: seq<State>, m: Outbox.Message) returns (longer: seq<State>)
    requires IsRun(run)
    requires var s := Last(run);
             && s.buses == map[0 := SUBSCRIBED] && s.calls == map[] && s.attempts == map[]
             && s.relay.mode == Relay.SingleRelay && s.relay.clock == Outbox.LEASE && s.relay.held == map[0 := []]
             && s.relay.table == Outbox.Table(map[1 := RowOf(m, 1, Outbox.Processing, Outbox.LEASE)], 2)
    ensures IsRun(longer) && run <= longer
    ensures var s := Last(longer);
            && s.buses == map[0 := SUBSCRIBED, 1 := Stage(JobOf(m), 0)] && s.calls == map[1 := 0]
            && s.relay.mode == Relay.SingleRelay && s.relay.clock == Outbox.LEASE
            && Relay.HeldBy(s.relay, 1) == [Outbox.Item(1, m, 1, Outbox.LEASE)]
            && 1 in s.relay.table.rows && s.relay.table.rows[1].message == m
  {
    var now := Outbox.LEASE;
    longer := Extend(run, StartStep(1, NEW_BUS));
    OnlyRow(Last(longer).relay.table, RowOf(m, 1, Outbox.Processing, now), now);
    longer := Extend(longer, RelayStep(Relay.ClaimStep(1, [1], now, now)));
    longer := Extend(longer, PublishStep(1, 0));
    assert Last(longer).buses == map[0 := SUBSCRIBED, 1 := Stage(JobOf(m), 0)];
  }

  // No handler call of h is on any bus's record.
  predicate NeverCalled(s: State, h: nat) {
    forall r :: r in s.buses ==>
      && (forall w :: w in s.buses[r].workers ==> !s.buses[r].workers[w].Running?)
      && (forall t :: t in s.buses[r].finished ==>
            t < |s.buses[r].accepted|
            && h !in Routing.Targets(s.buses[r].finished[t].table, s.buses[r].accepted[t].event.eventType))
  }

  lemma NeverCalledAtEnd(s: State, job: Bus.Job)
    requires s.buses == map[0 := SUBSCRIBED, 1 := Stage(job, 8)]
    ensures NeverCalled(s, 7)
  {
    NoTargets(Routing.Patterns(job.event.eventType));
    assert Routing.Targets(map[], job.event.eventType) == [];
  }

  // The answer settles the row.
  lemma Settle(run: seq<State>, m: Outbox.Message) returns (longer: seq<State>)
    requires IsRun(run)
    requires var s := Last(run);
             && 1 in s.buses && s.buses[1] == Stage(JobOf(m), 8) && s.calls == map[1 := 0]
             && s.relay.mode == Relay.SingleRelay && s.relay.clock == Outbox.LEASE
             && Relay.HeldBy(s.relay, 1) == [Outbox.Item(1, m, 1, Outbox.LEASE)]
             && 1 in s.relay.table.rows && s.relay.table.rows[1].message == m
    ensures IsRun(longer) && run <= longer && Last(longer).buses == Last(run).buses
    ensures Last(longer).relay.mode == Relay.SingleRelay
    ensures var rows := Last(longer).relay.table.rows;
            1 in rows && rows[1].status == Outbox.Done && rows[1].message == m
  {
    longer := Extend(run, SettleStep(1, Outbox.LEASE));
  }

  /** Subscriptions of an earlier process are not reached: for every message there is a run
      with one relay at a time in which subscription 7 to every type is there before the
      message's row is committed, the row is done at the end, and 7 was never called. */
  lemma RestartLosesSubscriptions(m: Outbox.Message) returns (run: seq<State>, i: nat)
    ensures IsRun(run) && i < |run| && Last(run).relay.mode == Relay.SingleRelay
    ensures run[i].relay.table.nextId <= 1
    ensures 0 in run[i].buses && "*" in run[i].buses[0].handlers && 7 in run[i].buses[0].handlers["*"]
    ensures var rows := Last(run).relay.table.rows;
            1 in rows && rows[1].status == Outbox.Done && rows[1].message == m
    ensures NeverCalled(Last(run), 7)
  {
    var first := FirstProcess();
    i := |first| - 1;
    run := Crash(first, m);
    run := SecondProcess(run, m);
    run := Deliver(run, 1, JobOf(m), 0);
    assert Last(run).buses == map[0 := SUBSCRIBED, 1 := Stage(JobOf(m), 8)];
    run := Settle(run, m);
    NeverCalledAtEnd(Last(run), JobOf(m));
    assert run[i] == Last(first);
  }
}
