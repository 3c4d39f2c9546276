/**
  Whole runs of the limiter: requests from many clients between sweeps that drop idle
  buckets. Nobody can tell that buckets are dropped, exactly when one that is dropped
  would have been full again.
 */
module RateLimitRuns {
  import opened RateLimit

  // A request's time is when its clock was read, a sweep's when its cutoff was. A
  // sweep takes each key in a step of its own.
  datatype Event = Call(ip: string, at: real) | Evict(ip: string, at: real)

  datatype Answer = Answer(ip: string, ok: bool)

  function Next(cfg: Config, m: Table, e: Event, evicting: bool): Table {
    match e
    case Call(ip, at) => AfterAllow(cfg, m, ip, at)
    case Evict(ip, at) => if evicting then AfterEvict(cfg, m, ip, at) else m
  }

  // The answers to a run's requests, with or without dropping buckets.
  function Play(cfg: Config, m: Table, es: seq<Event>, evicting: bool): seq<Answer>
    decreases |es|
  {
    if es == [] then []
    else
      var rest := Play(cfg, Next(cfg, m, es[0], evicting), es[1..], evicting);
      if es[0].Call? then [Answer(es[0].ip, Allowed(cfg, m, es[0].ip, es[0].at))] + rest else rest
  }

  // No request's time is before that of anything earlier.
  ghost predicate Ordered(es: seq<Event>) {
    forall i, j :: 0 <= i < j < |es| && es[j].Call? ==> es[i].at <= es[j].at
  }

  ghost predicate NoCallBefore(es: seq<Event>, time: real) {
    forall i :: 0 <= i < |es| && es[i].Call? ==> time <= es[i].at
  }

  // ---------------------------------------------------------------- sweeps

  function AfterEvicts(cfg: Config, m: Table, ips: seq<string>, now: real): Table {
    if ips == [] then m else AfterEvicts(cfg, AfterEvict(cfg, m, ips[0], now), ips[1..], now)
  }

  /** A sweep is an eviction of every key, in any order. */
  lemma {:induction false} SweepIsEvictions(cfg: Config, m: Table, ips: seq<string>, now: real)
    requires forall ip :: ip in m && Stale(cfg, m[ip], now) ==> ip in ips
    ensures AfterEvicts(cfg, m, ips, now) == AfterSweep(cfg, m, now)
    decreases |ips|
  {
    if ips != [] {
      var m' := AfterEvict(cfg, m, ips[0], now);
      SweepIsEvictions(cfg, m', ips[1..], now);
      assert AfterSweep(cfg, m', now) == AfterSweep(cfg, m, now);
    }
  }

  // ---------------------------------------------------------------- invisibility

  // A bucket without debt that no request to come is too early for.
  ghost predicate Settled(b: Bucket, es: seq<Event>) {
    b.tokens >= 0.0 && NoCallBefore(es, b.lastFill)
  }

  // m has dropped buckets of n that had been idle.
  ghost predicate Dropped(cfg: Config, m: Table, n: Table, es: seq<Event>) {
    && m.Keys <= n.Keys
    && (forall ip :: ip in m ==> m[ip] == n[ip])
    && (forall ip :: ip in n ==> Settled(n[ip], es))
    && (forall ip :: ip in n && ip !in m ==> NoCallBefore(es, n[ip].lastFill + cfg.cleanupTL))
  }

  lemma GainGrows(cfg: Config, a: real, b: real)
    requires Good(cfg) && a <= b
    ensures Gain(cfg, a) <= Gain(cfg, b)
  {
  }

  // A bucket idle for the cleanup time answers like a new one.
  lemma IdleIsFull(cfg: Config, b: Bucket, now: real)
    requires Good(cfg) && b.tokens >= 0.0 && Gain(cfg, cfg.cleanupTL) >= cfg.burst as real
    requires b.lastFill + cfg.cleanupTL <= now
    ensures Refill(cfg, b, now) == Refill(cfg, Full(cfg, now), now) == cfg.burst as real
  {
    GainGrows(cfg, cfg.cleanupTL, now - b.lastFill);
    assert Gain(cfg, now - now) == 0.0;
  }

  lemma RefillKeepsTokens(cfg: Config, b: Bucket, now: real)
    requires Good(cfg) && b.tokens >= 0.0 && b.lastFill <= now
    ensures Refill(cfg, b, now) >= 0.0
  {
    GainGrows(cfg, 0.0, now - b.lastFill);
  }

  lemma CallIsAlike(cfg: Config, m: Table, n: Table, es: seq<Event>)
    requires Good(cfg) && Gain(cfg, cfg.cleanupTL) >= cfg.burst as real
    requires es != [] && es[0].Call? && Ordered(es) && Dropped(cfg, m, n, es)
    ensures Allowed(cfg, m, es[0].ip, es[0].at) == Allowed(cfg, n, es[0].ip, es[0].at)
    ensures Dropped(cfg, Next(cfg, m, es[0], true), Next(cfg, n, es[0], false), es[1..])
  {
    var ip, at := es[0].ip, es[0].at;
    var b, c := BucketFor(cfg, m, ip, at), BucketFor(cfg, n, ip, at);
    if ip in n && ip !in m {
      IdleIsFull(cfg, c, at);
    }
    assert Refill(cfg, b, at) == Refill(cfg, c, at);
    RefillKeepsTokens(cfg, c, at);
    assert After(cfg, b, at) == After(cfg, c, at);
  }

  lemma EvictIsAlike(cfg: Config, m: Table, n: Table, es: seq<Event>)
    requires es != [] && es[0].Evict? && Ordered(es) && Dropped(cfg, m, n, es)
    ensures Dropped(cfg, Next(cfg, m, es[0], true), n, es[1..])
  {
    assert NoCallBefore(es[1..], es[0].at);
  }

  lemma {:induction false} DroppingIsInvisible(cfg: Config, m: Table, n: Table, es: seq<Event>)
    requires Good(cfg) && Gain(cfg, cfg.cleanupTL) >= cfg.burst as real
    requires Ordered(es) && Dropped(cfg, m, n, es)
    ensures Play(cfg, m, es, true) == Play(cfg, n, es, false)
    decreases |es|
  {
    if es != [] {
      if es[0].Call? {
        CallIsAlike(cfg, m, n, es);
      } else {
        EvictIsAlike(cfg, m, n, es);
      }
      DroppingIsInvisible(cfg, Next(cfg, m, es[0], true), Next(cfg, n, es[0], false), es[1..]);
    }
  }

  // ---------------------------------------------------------------- one client

  function TimesOf(es: seq<Event>, ip: string): seq<real> {
    if es == [] then []
    else (if es[0].Call? && es[0].ip == ip then [es[0].at] else []) + TimesOf(es[1..], ip)
  }

  function VerdictsOf(answers: seq<Answer>, ip: string): seq<bool> {
    if answers == [] then []
    else (if answers[0].ip == ip then [answers[0].ok] else []) + VerdictsOf(answers[1..], ip)
  }

  // A client with a bucket of its own.
  function Alone(cfg: Config, m: Table, ip: string, times: seq<real>): seq<bool> {
    if times == [] then [] else Decisions(cfg, BucketFor(cfg, m, ip, times[0]), times)
  }

  /** Without sweeps every client is answered as if it were alone. */
  lemma {:induction false} ClientsAreIndependent(cfg: Config, m: Table, es: seq<Event>, ip: string)
    ensures VerdictsOf(Play(cfg, m, es, false), ip) == Alone(cfg, m, ip, TimesOf(es, ip))
    decreases |es|
  {
    if es != [] {
      var m' := Next(cfg, m, es[0], false);
      ClientsAreIndependent(cfg, m', es[1..], ip);
      if es[0].Call? {
        var rest := Play(cfg, m', es[1..], false);
        var first := Answer(es[0].ip, Allowed(cfg, m, es[0].ip, es[0].at));
        assert ([first] + rest)[1..] == rest;
        if es[0].ip == ip {
          var times := TimesOf(es[1..], ip);
          assert ([es[0].at] + times)[1..] == times;
          assert Alone(cfg, m', ip, times) == Decisions(cfg, m'[ip], times);
        } else {
          assert TimesOf(es, ip) == TimesOf(es[1..], ip);
        }
      } else {
        assert TimesOf(es, ip) == TimesOf(es[1..], ip);
      }
    }
  }

  // Later decisions are those of a later bucket.
  lemma {:induction false} DecisionsFrom(cfg: Config, b: Bucket, times: seq<real>, a: nat) returns (later: Bucket)
    requires a <= |times|
    ensures Decisions(cfg, b, times)[a..] == Decisions(cfg, later, times[a..])
    decreases a
  {
    if a == 0 {
      later := b;
    } else {
      later := DecisionsFrom(cfg, After(cfg, b, times[0]), times[1..], a - 1);
      assert times[1..][a - 1..] == times[a..];
    }
  }

  lemma WindowBound(cfg: Config, bucket: Bucket, times: seq<real>, ds: seq<bool>, a: nat, b: nat)
    requires ds == Decisions(cfg, bucket, times) && a <= b < |times| && ds[b]
    ensures Count(ds[a..b + 1]) as real <= cfg.burst as real + Gain(cfg, times[b] - times[a])
  {
    var later := DecisionsFrom(cfg, bucket, times, a);
    assert ds[a..][b - a] == ds[b];
    BoundByGain(cfg, later, times[a..], b - a);
    assert ds[a..][..b - a + 1] == ds[a..b + 1];
  }

  /** Whatever other clients do and however often idle buckets are dropped, a client is
      admitted within any window of its requests at most the burst and what the rate
      allows. */
  lemma ClientBound(cfg: Config, es: seq<Event>, ip: string, a: nat, b: nat)
    requires Good(cfg) && cfg.rate * cfg.cleanupTL >= cfg.burst as real && Ordered(es)
    requires a <= b < |VerdictsOf(Play(cfg, map[], es, true), ip)|
    requires VerdictsOf(Play(cfg, map[], es, true), ip)[b]
    ensures |TimesOf(es, ip)| == |VerdictsOf(Play(cfg, map[], es, true), ip)|
    ensures Count(VerdictsOf(Play(cfg, map[], es, true), ip)[a..b + 1]) as real
            <= cfg.burst as real + cfg.rate * (TimesOf(es, ip)[b] - TimesOf(es, ip)[a])
  {
    GainIs(cfg, cfg.cleanupTL);
    var times := TimesOf(es, ip);
    DroppingIsInvisible(cfg, map[], map[], es);
    ClientsAreIndependent(cfg, map[], es, ip);
    var verdicts := VerdictsOf(Play(cfg, map[], es, true), ip);
    assert verdicts == Alone(cfg, map[], ip, times);
    WindowBound(cfg, Full(cfg, times[0]), times, verdicts, a, b);
    GainIs(cfg, times[b] - times[a]);
  }

  /** In such a run a client's request is admitted if and only if, counting it, no window of
      the client's own requests that ends with it goes beyond the burst and the rate. */
  lemma ClientAdmittedIff(cfg: Config, es: seq<Event>, ip: string, n: nat)
    requires Good(cfg) && cfg.rate * cfg.cleanupTL >= cfg.burst as real && Ordered(es)
    requires n < |TimesOf(es, ip)|
    ensures |VerdictsOf(Play(cfg, map[], es, true), ip)| == |TimesOf(es, ip)|
    ensures var times, verdicts := TimesOf(es, ip), VerdictsOf(Play(cfg, map[], es, true), ip);
            verdicts[n] <==> WithinWindows(cfg, verdicts, times, n)
  {
    GainIs(cfg, cfg.cleanupTL);
    var times := TimesOf(es, ip);
    DroppingIsInvisible(cfg, map[], map[], es);
    ClientsAreIndependent(cfg, map[], es, ip);
    assert VerdictsOf(Play(cfg, map[], es, true), ip) == Decisions(cfg, Bucket(cfg.burst as real, times[0]), times);
    AdmittedIffWithinEveryWindow(cfg, times, n);
  }

  // ---------------------------------------------------------------- and only then

  function Calls(ip: string, at: real, n: nat): seq<Event> {
    if n == 0 then [] else [Call(ip, at)] + Calls(ip, at, n - 1)
  }

  predicate AllOk(answers: seq<Answer>) {
    forall i :: 0 <= i < |answers| ==> answers[i].ok
  }

  // So many requests at once, as there are tokens, are all admitted.
  lemma {:induction false} CallsAtOnce(cfg: Config, m: Table, ip: string, at: real, n: nat, tail: seq<Event>)
    returns (m': Table)
    requires n >= 1 && Refill(cfg, BucketFor(cfg, m, ip, at), at) >= n as real
    ensures ip in m' && m'[ip].lastFill == at
    ensures AllOk(Play(cfg, m', tail, true)) ==> AllOk(Play(cfg, m, Calls(ip, at, n) + tail, true))
    decreases n
  {
    var next := AfterAllow(cfg, m, ip, at);
    assert (Calls(ip, at, n) + tail)[1..] == Calls(ip, at, n - 1) + tail;
    if n == 1 {
      m' := next;
      assert Calls(ip, at, 0) + tail == tail;
    } else {
      assert Gain(cfg, at - at) == 0.0;
      m' := CallsAtOnce(cfg, next, ip, at, n - 1, tail);
    }
  }

  lemma {:induction false} CallsTimes(ip: string, at: real, n: nat, tail: seq<Event>)
    ensures |TimesOf(Calls(ip, at, n) + tail, ip)| == n + |TimesOf(tail, ip)|
    ensures n > 0 ==> TimesOf(Calls(ip, at, n) + tail, ip)[0] == at
    ensures forall i :: n <= i < |TimesOf(Calls(ip, at, n) + tail, ip)| ==>
                          TimesOf(Calls(ip, at, n) + tail, ip)[i] == TimesOf(tail, ip)[i - n]
    ensures forall i :: 0 <= i < n ==> TimesOf(Calls(ip, at, n) + tail, ip)[i] == at
  {
    if n > 0 {
      assert (Calls(ip, at, n) + tail)[1..] == Calls(ip, at, n - 1) + tail;
      CallsTimes(ip, at, n - 1, tail);
    } else {
      assert Calls(ip, at, 0) + tail == tail;
    }
  }

  lemma {:induction false} AllOkCount(answers: seq<Answer>, ip: string)
    requires AllOk(answers)
    ensures Count(VerdictsOf(answers, ip)) == |VerdictsOf(answers, ip)|
    ensures forall i :: 0 <= i < |VerdictsOf(answers, ip)| ==> VerdictsOf(answers, ip)[i]
  {
    if answers != [] {
      AllOkCount(answers[1..], ip);
      var rest := VerdictsOf(answers[1..], ip);
      assert [answers[0].ok] + rest == [true] + rest && ([true] + rest)[1..] == rest;
      assert [] + rest == rest;
    }
  }

  // A burst, a cleanup time later a sweep that drops the bucket, and a burst again.
  function TwoBursts(cfg: Config, ip: string, first: real, second: real): seq<Event>
    requires Good(cfg)
  {
    Calls(ip, first, cfg.burst) + ([Evict(ip, second)] + Calls(ip, second, cfg.burst))
  }

  lemma TwoBurstsAdmitted(cfg: Config, ip: string, first: real, second: real)
    requires Good(cfg) && first < second - cfg.cleanupTL
    ensures AllOk(Play(cfg, map[], TwoBursts(cfg, ip, first, second), true))
  {
    var tail := Calls(ip, second, cfg.burst);
    assert Gain(cfg, first - first) == 0.0 && Gain(cfg, second - second) == 0.0;
    var m' := CallsAtOnce(cfg, map[], ip, first, cfg.burst, [Evict(ip, second)] + tail);
    assert ([Evict(ip, second)] + tail)[1..] == tail;
    var m'' := CallsAtOnce(cfg, m' - {ip}, ip, second, cfg.burst, []);
    assert tail + [] == tail;
  }

  lemma {:induction false} CallsAre(ip: string, at: real, n: nat)
    ensures |Calls(ip, at, n)| == n && forall i :: 0 <= i < n ==> Calls(ip, at, n)[i] == Call(ip, at)
  {
    if n > 0 {
      CallsAre(ip, at, n - 1);
    }
  }

  lemma TwoBurstsTimes(cfg: Config, ip: string, first: real, second: real)
    requires Good(cfg)
    ensures var times := TimesOf(TwoBursts(cfg, ip, first, second), ip);
            |times| == 2 * cfg.burst && times[0] == first && times[2 * cfg.burst - 1] == second
  {
    var n := cfg.burst;
    var tail := Calls(ip, second, n);
    CallsTimes(ip, first, n, [Evict(ip, second)] + tail);
    CallsTimes(ip, second, n, []);
    assert tail + [] == tail && ([Evict(ip, second)] + tail)[1..] == tail;
    assert TimesOf([Evict(ip, second)] + tail, ip) == TimesOf(tail, ip);
  }

  lemma TwoBurstsOrdered(cfg: Config, ip: string, first: real, second: real)
    requires Good(cfg) && first <= second
    ensures Ordered(TwoBursts(cfg, ip, first, second))
  {
    CallsAre(ip, first, cfg.burst);
    CallsAre(ip, second, cfg.burst);
  }

  // One bucket does not admit two bursts so close together.
  lemma TooMany(cfg: Config, first: real, second: real, times: seq<real>)
    requires Good(cfg) && |times| == 2 * cfg.burst && times[0] == first && times[|times| - 1] == second
    requires Gain(cfg, second - first) < cfg.burst as real
    ensures var ds := Decisions(cfg, Full(cfg, first), times); ds[|ds| - 1] ==> Count(ds) < |ds|
  {
    var ds := Decisions(cfg, Full(cfg, first), times);
    if ds[|ds| - 1] {
      assert ds[..|ds|] == ds;
      BoundByGain(cfg, Full(cfg, first), times, |ds| - 1);
    }
  }

  // One bucket cannot admit both bursts.
  lemma TwoBurstsTellApart(cfg: Config, ip: string, first: real, second: real)
    requires Good(cfg) && first < second - cfg.cleanupTL
    requires Gain(cfg, second - first) < cfg.burst as real
    ensures var es := TwoBursts(cfg, ip, first, second);
            Ordered(es) && Play(cfg, map[], es, true) != Play(cfg, map[], es, false)
  {
    var es := TwoBursts(cfg, ip, first, second);
    TwoBurstsOrdered(cfg, ip, first, second);
    TwoBurstsAdmitted(cfg, ip, first, second);
    if Play(cfg, map[], es, true) == Play(cfg, map[], es, false) {
      TwoBurstsTimes(cfg, ip, first, second);
      ClientsAreIndependent(cfg, map[], es, ip);
      AllOkCount(Play(cfg, map[], es, false), ip);
      TooMany(cfg, first, second, TimesOf(es, ip));
      assert false;
    }
  }

  /** Dropping idle buckets is invisible, whatever the run, exactly when the rate fills a
      bucket within the cleanup time. */
  lemma EvictionInvisibleIff(cfg: Config)
    requires Good(cfg)
    ensures cfg.rate * cfg.cleanupTL >= cfg.burst as real <==>
            forall es: seq<Event> | Ordered(es) :: Play(cfg, map[], es, true) == Play(cfg, map[], es, false)
  {
    GainIs(cfg, cfg.cleanupTL);
    if cfg.rate * cfg.cleanupTL >= cfg.burst as real {
      forall es: seq<Event> | Ordered(es) ensures Play(cfg, map[], es, true) == Play(cfg, map[], es, false) {
        DroppingIsInvisible(cfg, map[], map[], es);
      }
    } else {
      var spare := SpareTime(cfg);
      TwoBurstsTellApart(cfg, "", 0.0, cfg.cleanupTL + spare);
    }
  }

  lemma SpareTime(cfg: Config) returns (spare: real)
    requires Good(cfg) && Gain(cfg, cfg.cleanupTL) < cfg.burst as real
    ensures spare > 0.0 && Gain(cfg, cfg.cleanupTL + spare) < cfg.burst as real
  {
    var missing := cfg.burst as real - Gain(cfg, cfg.cleanupTL);
    spare := missing / cfg.rate / 2.0;
    assert Gain(cfg, spare) == missing / 2.0;
  }
}
