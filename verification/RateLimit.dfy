/**
  The token-bucket limiter: one bucket per client address, refilled at a fixed rate
  up to a burst, and dropped by a sweep once it has been idle for a while. Tokens
  and times are exact reals.
 */
module RateLimit {

  // ---------------------------------------------------------------- one bucket

  datatype Config = Config(rate: real, burst: int, cleanupTL: real)

  predicate Good(cfg: Config) {
    cfg.rate > 0.0 && cfg.burst >= 1 && cfg.cleanupTL > 0.0
  }

  // The configuration in force: what is not positive gets its default.
  function Defaults(cfg: Config): (d: Config)
    ensures Good(d)
    ensures Good(cfg) ==> d == cfg
  {
    Config(if cfg.rate <= 0.0 then 10.0 else cfg.rate,
           if cfg.burst <= 0 then 20 else cfg.burst,
           if cfg.cleanupTL <= 0.0 then 600.0 else cfg.cleanupTL)
  }

  datatype Bucket = Bucket(tokens: real, lastFill: real)

  // The bucket a client's first request finds.
  function Full(cfg: Config, now: real): Bucket {
    Bucket(cfg.burst as real, now)
  }

  function Min(a: real, b: real): real {
    if b < a then b else a
  }

  // The tokens gained in a time.
  function Gain(cfg: Config, elapsed: real): real {
    elapsed * cfg.rate
  }

  function Refill(cfg: Config, b: Bucket, now: real): real {
    Min(cfg.burst as real, b.tokens + Gain(cfg, now - b.lastFill))
  }

  predicate Admits(cfg: Config, b: Bucket, now: real) {
    Refill(cfg, b, now) >= 1.0
  }

  // The bucket after a request that was admitted or refused.
  function Spend(cfg: Config, b: Bucket, now: real, admit: bool): Bucket {
    Bucket(Refill(cfg, b, now) - if admit then 1.0 else 0.0, now)
  }

  function After(cfg: Config, b: Bucket, now: real): Bucket {
    Spend(cfg, b, now, Admits(cfg, b, now))
  }

  // The decisions on requests in the order in which they take the bucket's lock.
  // Their times were read before, so they may be out of order.
  function Decisions(cfg: Config, b: Bucket, times: seq<real>): (ds: seq<bool>)
    ensures |ds| == |times|
    decreases |times|
  {
    if times == [] then []
    else [Admits(cfg, b, times[0])] + Decisions(cfg, After(cfg, b, times[0]), times[1..])
  }

  function Count(ds: seq<bool>): nat {
    if ds == [] then 0 else (if ds[0] then 1 else 0) + Count(ds[1..])
  }

  /** One request in numbers: what the rate has yielded since the last one is added up to
      the burst; it is admitted if that makes a whole token, which it then costs. */
  lemma RequestIs(cfg: Config, b: Bucket, now: real)
    ensures var level, burst := b.tokens + cfg.rate * (now - b.lastFill), cfg.burst as real;
            var ok := if level <= burst then level >= 1.0 else burst >= 1.0;
            && Admits(cfg, b, now) == ok
            && After(cfg, b, now) == Bucket((if level <= burst then level else burst) - (if ok then 1.0 else 0.0), now)
  {
    GainIs(cfg, now - b.lastFill);
    var gained := cfg.rate * (now - b.lastFill);
    var level := b.tokens + gained;
    assert Refill(cfg, b, now) == if level <= cfg.burst as real then level else cfg.burst as real;
  }

  // ---------------------------------------------------------------- admission bound

  lemma GainAdds(cfg: Config, a: real, b: real, c: real)
    ensures Gain(cfg, b - a) + Gain(cfg, c - b) == Gain(cfg, c - a)
  {
  }

  lemma NoGain(cfg: Config, elapsed: real)
    requires elapsed == 0.0
    ensures Gain(cfg, elapsed) == 0.0
  {
  }

  lemma GainIs(cfg: Config, elapsed: real)
    ensures Gain(cfg, elapsed) == cfg.rate * elapsed
  {
  }

  lemma CountFirst(d: bool, rest: seq<bool>, m: nat)
    requires m <= |rest|
    ensures Count(([d] + rest)[..m + 1]) == (if d then 1 else 0) + Count(rest[..m])
  {
    assert ([d] + rest)[..m + 1] == [d] + rest[..m];
  }

  // Requests admitted up to one that is, if the tokens were at most the allowance.
  lemma {:induction false} Allowance(cfg: Config, b: Bucket, times: seq<real>, m: nat, allowance: real)
    requires m < |times| && Decisions(cfg, b, times)[m]
    requires b.tokens <= allowance
    ensures Count(Decisions(cfg, b, times)[..m + 1]) as real <= allowance + Gain(cfg, times[m] - b.lastFill)
    decreases m
  {
    var t, next := times[0], After(cfg, b, times[0]);
    var rest := Decisions(cfg, next, times[1..]);
    CountFirst(Admits(cfg, b, t), rest, m);
    if m > 0 {
      var here := if Admits(cfg, b, t) then 1.0 else 0.0;
      Allowance(cfg, next, times[1..], m - 1, allowance + Gain(cfg, t - b.lastFill) - here);
      GainAdds(cfg, b.lastFill, t, times[m]);
    }
  }

  lemma BoundByGain(cfg: Config, b: Bucket, times: seq<real>, m: nat)
    requires m < |times| && Decisions(cfg, b, times)[m]
    ensures Count(Decisions(cfg, b, times)[..m + 1]) as real
            <= cfg.burst as real + Gain(cfg, times[m] - times[0])
  {
    var next := After(cfg, b, times[0]);
    CountFirst(Admits(cfg, b, times[0]), Decisions(cfg, next, times[1..]), m);
    if m > 0 {
      Allowance(cfg, next, times[1..], m - 1, next.tokens);
      assert times[1..][m - 1] == times[m];
    } else {
      NoGain(cfg, times[m] - times[0]);
    }
  }

  /** Admission bound: over any window of requests on a bucket, whatever its state and
      even if their times are out of order, at most the burst and what the rate
      allows since the window's first request is admitted. */
  lemma AdmissionBound(cfg: Config, b: Bucket, times: seq<real>, m: nat)
    requires m < |times| && Decisions(cfg, b, times)[m]
    ensures Count(Decisions(cfg, b, times)[..m + 1]) as real
            <= cfg.burst as real + cfg.rate * (times[m] - times[0])
  {
    BoundByGain(cfg, b, times, m);
    GainIs(cfg, times[m] - times[0]);
  }

  // ---------------------------------------------------------------- exactly when

  // What is gained in a time, as some additive function: the arguments below need no more.
  type Curve = real -> real

  predicate AddsAt(g: Curve, a: real, b: real, c: real) {
    g(b - a) + g(c - b) == g(c - a)
  }

  ghost predicate Additive(g: Curve) {
    forall a, b, c :: AddsAt(g, a, b, c)
  }

  function Level(burst: real, g: Curve, tokens: real, last: real, now: real): real {
    Min(burst, tokens + g(now - last))
  }

  // The decisions by such a gain.
  function DecisionsBy(burst: real, g: Curve, tokens: real, last: real, times: seq<real>): (ds: seq<bool>)
    ensures |ds| == |times|
    decreases |times|
  {
    if times == [] then []
    else
      var level := Level(burst, g, tokens, last, times[0]);
      var spent := if level >= 1.0 then 1.0 else 0.0;
      [level >= 1.0] + DecisionsBy(burst, g, level - spent, times[0], times[1..])
  }

  // Request n, admitted, keeps every window up to it within the burst and the gain.
  predicate AllFit(burst: real, g: Curve, ds: seq<bool>, times: seq<real>, n: nat)
    requires n < |times| == |ds|
    decreases n
  {
    && Count(ds[..n]) as real + 1.0 <= burst + g(times[n] - times[0])
    && (n == 0 || AllFit(burst, g, ds[1..], times[1..], n - 1))
  }

  // Request n, admitted, is within the tokens there were at a time, and the gain since.
  predicate FitsTokens(tokens: real, last: real, g: Curve, ds: seq<bool>, times: seq<real>, n: nat)
    requires n < |times| == |ds|
  {
    Count(ds[..n]) as real + 1.0 <= tokens + g(times[n] - last)
  }

  lemma {:induction false} AdmittedIffFits(burst: real, g: Curve, tokens: real, last: real, times: seq<real>, n: nat)
    requires Additive(g) && n < |times|
    ensures var ds := DecisionsBy(burst, g, tokens, last, times);
            ds[n] <==> FitsTokens(tokens, last, g, ds, times, n) && AllFit(burst, g, ds, times, n)
    decreases n
  {
    var t, ds := times[0], DecisionsBy(burst, g, tokens, last, times);
    if n == 0 {
      assert AddsAt(g, t, t, t);
      assert ds[..0] == [];
    } else {
      var level := Level(burst, g, tokens, last, t);
      var here := if level >= 1.0 then 1.0 else 0.0;
      var rest := DecisionsBy(burst, g, level - here, t, times[1..]);
      AdmittedIffFits(burst, g, level - here, t, times[1..], n - 1);
      assert ds[1..] == rest;
      CountFirst(ds[0], rest, n - 1);
      assert AddsAt(g, last, t, times[n]);
    }
  }

  // The rate's gain is such a function, g.
  predicate RateAt(cfg: Config, g: Curve, elapsed: real) {
    g(elapsed) == cfg.rate * elapsed
  }

  ghost predicate IsRate(cfg: Config, g: Curve) {
    forall x :: RateAt(cfg, g, x)
  }

  lemma RateIsAdditive(cfg: Config) returns (g: Curve)
    ensures IsRate(cfg, g) && Additive(g)
  {
    g := x => cfg.rate * x;
    forall x ensures RateAt(cfg, g, x) {
    }
    forall a, b, c ensures AddsAt(g, a, b, c) {
      RateAdds(cfg.rate, a, b, c);
    }
  }

  lemma RateAdds(rate: real, a: real, b: real, c: real)
    ensures rate * (b - a) + rate * (c - b) == rate * (c - a)
  {
  }

  lemma RefillIsLevel(cfg: Config, g: Curve, b: Bucket, now: real)
    requires IsRate(cfg, g)
    ensures Refill(cfg, b, now) == Level(cfg.burst as real, g, b.tokens, b.lastFill, now)
  {
    assert RateAt(cfg, g, now - b.lastFill);
    GainIs(cfg, now - b.lastFill);
  }

  lemma {:induction false} DecisionsByRate(cfg: Config, g: Curve, b: Bucket, times: seq<real>)
    requires IsRate(cfg, g)
    ensures Decisions(cfg, b, times) == DecisionsBy(cfg.burst as real, g, b.tokens, b.lastFill, times)
    decreases |times|
  {
    if times != [] {
      RefillIsLevel(cfg, g, b, times[0]);
      DecisionsByRate(cfg, g, After(cfg, b, times[0]), times[1..]);
    }
  }

  // Request n, admitted, keeps the window since request i within the burst and the rate.
  predicate WithinWindow(cfg: Config, ds: seq<bool>, times: seq<real>, i: nat, n: nat)
    requires i <= n < |times| == |ds|
  {
    Count(ds[i..n]) as real + 1.0 <= cfg.burst as real + cfg.rate * (times[n] - times[i])
  }

  predicate WithinWindows(cfg: Config, ds: seq<bool>, times: seq<real>, n: nat)
    requires n < |times| == |ds|
  {
    forall i: nat :: i <= n ==> WithinWindow(cfg, ds, times, i, n)
  }

  lemma WindowLater(cfg: Config, ds: seq<bool>, times: seq<real>, i: nat, n: nat)
    requires i <= n && n + 1 < |times| == |ds|
    ensures WithinWindow(cfg, ds[1..], times[1..], i, n) <==> WithinWindow(cfg, ds, times, i + 1, n + 1)
  {
    assert ds[1..][i..n] == ds[i + 1..n + 1];
  }

  // The windows that begin at the first request, and those that begin later.
  lemma WindowsLater(cfg: Config, ds: seq<bool>, times: seq<real>, n: nat, m: nat)
    requires m == n + 1 < |times| == |ds|
    ensures WithinWindows(cfg, ds, times, m) <==>
              WithinWindow(cfg, ds, times, 0, m) && WithinWindows(cfg, ds[1..], times[1..], n)
  {
    if WithinWindow(cfg, ds, times, 0, m) && WithinWindows(cfg, ds[1..], times[1..], n) {
      forall i: nat | i <= m ensures WithinWindow(cfg, ds, times, i, m) {
        if i > 0 {
          WindowLater(cfg, ds, times, i - 1, n);
        }
      }
    }
    if WithinWindows(cfg, ds, times, m) {
      forall i: nat | i <= n ensures WithinWindow(cfg, ds[1..], times[1..], i, n) {
        WindowLater(cfg, ds, times, i, n);
      }
    }
  }

  lemma RateGives(cfg: Config, g: Curve, since: real, now: real)
    requires IsRate(cfg, g)
    ensures g(now - since) == cfg.rate * (now - since)
  {
    assert RateAt(cfg, g, now - since);
  }

  lemma FirstWindow(cfg: Config, g: Curve, ds: seq<bool>, times: seq<real>, n: nat)
    requires IsRate(cfg, g) && n < |times| == |ds|
    ensures WithinWindow(cfg, ds, times, 0, n) <==>
              Count(ds[..n]) as real + 1.0 <= cfg.burst as real + g(times[n] - times[0])
  {
    assert ds[0..n] == ds[..n];
    var gained := cfg.rate * (times[n] - times[0]);
    assert WithinWindow(cfg, ds, times, 0, n) <==> Count(ds[..n]) as real + 1.0 <= cfg.burst as real + gained;
    RateGives(cfg, g, times[0], times[n]);
    assert g(times[n] - times[0]) == gained;
  }

  lemma {:induction false} WindowsFit(cfg: Config, g: Curve, ds: seq<bool>, times: seq<real>, n: nat)
    requires IsRate(cfg, g) && n < |times| == |ds|
    ensures WithinWindows(cfg, ds, times, n) <==> AllFit(cfg.burst as real, g, ds, times, n)
    decreases n
  {
    FirstWindow(cfg, g, ds, times, n);
    assert n == 0 ==> (WithinWindows(cfg, ds, times, n) <==> WithinWindow(cfg, ds, times, 0, n));
    if n > 0 {
      WindowsLater(cfg, ds, times, n - 1, n);
      WindowsFit(cfg, g, ds[1..], times[1..], n - 1);
    }
  }

  // What a new bucket has is the burst, since the first request.
  lemma NewBucket(cfg: Config, times: seq<real>, ds: seq<bool>, n: nat)
    requires n < |times| && ds == Decisions(cfg, Bucket(cfg.burst as real, times[0]), times)
    ensures exists g :: IsRate(cfg, g) && (ds[n] <==> AllFit(cfg.burst as real, g, ds, times, n))
  {
    var g := RateIsAdditive(cfg);
    DecisionsByRate(cfg, g, Bucket(cfg.burst as real, times[0]), times);
    AdmittedIffFits(cfg.burst as real, g, cfg.burst as real, times[0], times, n);
  }

  /** The limiter exactly: a request on a bucket that was new at the first one is admitted
      if and only if, counting it, no window of requests that ends with it admits more than
      the burst and what the rate allows. */
  lemma AdmittedIffWithinEveryWindow(cfg: Config, times: seq<real>, n: nat)
    requires n < |times|
    ensures var ds := Decisions(cfg, Bucket(cfg.burst as real, times[0]), times);
            ds[n] <==> WithinWindows(cfg, ds, times, n)
  {
    var ds := Decisions(cfg, Bucket(cfg.burst as real, times[0]), times);
    NewBucket(cfg, times, ds, n);
    var g :| IsRate(cfg, g) && (ds[n] <==> AllFit(cfg.burst as real, g, ds, times, n));
    WindowsFit(cfg, g, ds, times, n);
  }

  lemma {:induction false} CountAtMost(ds: seq<bool>)
    ensures Count(ds) <= |ds|
  {
    if ds != [] {
      CountAtMost(ds[1..]);
    }
  }

  lemma {:induction false} FitsAtOnce(burst: real, tokens: real, last: real, g: Curve, ds: seq<bool>,
                                      times: seq<real>, now: real, k: nat)
    requires Additive(g) && k < |times| == |ds| && |ds| as real <= burst && tokens >= 0.0
    requires g(now - last) >= |ds| as real && forall i :: 0 <= i < |times| ==> times[i] == now
    ensures FitsTokens(tokens, last, g, ds, times, k) && AllFit(burst, g, ds, times, k)
    decreases k
  {
    CountAtMost(ds[..k]);
    assert AddsAt(g, now, now, now);
    if k > 0 {
      FitsAtOnce(burst, tokens, last, g, ds[1..], times[1..], now, k - 1);
    }
  }

  /** The time in which the rate yields a token lets a request through, and the time in which
      it yields a burst lets a whole burst through at once. */
  lemma IdleAdmits(cfg: Config, b: Bucket, now: real, n: nat)
    requires Good(cfg) && b.tokens >= 0.0 && 1 <= n <= cfg.burst && cfg.rate * (now - b.lastFill) >= n as real
    ensures Decisions(cfg, b, seq(n, _ => now)) == seq(n, _ => true)
  {
    var times := seq(n, _ => now);
    var g := RateIsAdditive(cfg);
    RateGives(cfg, g, b.lastFill, now);
    DecisionsByRate(cfg, g, b, times);
    IdleAdmitsBy(cfg.burst as real, g, b.tokens, b.lastFill, now, times);
  }

  lemma IdleAdmitsBy(burst: real, g: Curve, tokens: real, last: real, now: real, times: seq<real>)
    requires Additive(g) && |times| as real <= burst && tokens >= 0.0
    requires g(now - last) >= |times| as real && forall i :: 0 <= i < |times| ==> times[i] == now
    ensures forall k :: 0 <= k < |times| ==> DecisionsBy(burst, g, tokens, last, times)[k]
  {
    forall k: nat | k < |times| ensures DecisionsBy(burst, g, tokens, last, times)[k] {
      AdmittedIffFits(burst, g, tokens, last, times, k);
      FitsAtOnce(burst, tokens, last, g, DecisionsBy(burst, g, tokens, last, times), times, now, k);
    }
  }

  // ---------------------------------------------------------------- optimality

  // A policy may refuse any request, and admits only what its bucket has a token for.
  predicate Obeys(cfg: Config, b: Bucket, times: seq<real>, policy: seq<bool>)
    requires |policy| == |times|
    decreases |times|
  {
    times == [] ||
    ((policy[0] ==> Admits(cfg, b, times[0])) &&
     Obeys(cfg, Spend(cfg, b, times[0], policy[0]), times[1..], policy[1..]))
  }

  /** The limiter's own decisions are such a policy. */
  lemma {:induction false} GreedyObeys(cfg: Config, b: Bucket, times: seq<real>)
    ensures Obeys(cfg, b, times, Decisions(cfg, b, times))
    decreases |times|
  {
    if times != [] {
      GreedyObeys(cfg, After(cfg, b, times[0]), times[1..]);
    }
  }

  // The greedy bucket g, ahead of the policy's bucket o by some admitted requests,
  // lacks at most as many tokens.
  lemma RefillKeepsLead(cfg: Config, g: Bucket, o: Bucket, lead: nat, now: real)
    requires g.lastFill == o.lastFill && g.tokens + lead as real >= o.tokens
    ensures Refill(cfg, g, now) + lead as real >= Refill(cfg, o, now)
  {
  }

  lemma {:induction false} GreedyKeepsLead(cfg: Config, g: Bucket, o: Bucket, lead: nat, times: seq<real>,
                                           policy: seq<bool>, m: nat)
    requires |policy| == |times| && m <= |times| && Obeys(cfg, o, times, policy)
    requires g.lastFill == o.lastFill && g.tokens + lead as real >= o.tokens
    ensures Count(policy[..m]) <= lead + Count(Decisions(cfg, g, times)[..m])
    decreases |times|
  {
    if m > 0 {
      var t, p, d := times[0], policy[0], Admits(cfg, g, times[0]);
      RefillKeepsLead(cfg, g, o, lead, t);
      var ahead: int := lead + (if d then 1 else 0) - if p then 1 else 0;
      assert ahead >= 0;
      GreedyKeepsLead(cfg, After(cfg, g, t), Spend(cfg, o, t, p), ahead, times[1..], policy[1..], m - 1);
      assert policy == [p] + policy[1..];
      CountFirst(p, policy[1..], m - 1);
      CountFirst(d, Decisions(cfg, After(cfg, g, t), times[1..]), m - 1);
    } else {
      assert policy[..0] == Decisions(cfg, g, times)[..0] == [];
    }
  }

  /** Admitting whenever there is a token is optimal: no policy on the same bucket
      has admitted more of any prefix of the requests. */
  lemma GreedyIsOptimal(cfg: Config, b: Bucket, times: seq<real>, policy: seq<bool>, m: nat)
    requires |policy| == |times| && m <= |times| && Obeys(cfg, b, times, policy)
    ensures Count(policy[..m]) <= Count(Decisions(cfg, b, times)[..m])
  {
    GreedyKeepsLead(cfg, b, b, 0, times, policy, m);
  }

  // ---------------------------------------------------------------- the limiter

  type Table = map<string, Bucket>

  function BucketFor(cfg: Config, m: Table, ip: string, now: real): Bucket {
    if ip in m then m[ip] else Full(cfg, now)
  }

  predicate Allowed(cfg: Config, m: Table, ip: string, now: real) {
    Admits(cfg, BucketFor(cfg, m, ip, now), now)
  }

  function AfterAllow(cfg: Config, m: Table, ip: string, now: real): Table {
    m[ip := After(cfg, BucketFor(cfg, m, ip, now), now)]
  }

  /** A client without a bucket is admitted. */
  lemma NewClientAllowed(cfg: Config, m: Table, ip: string, now: real)
    requires Good(cfg) && ip !in m
    ensures Allowed(cfg, m, ip, now)
  {
    RequestIs(cfg, Full(cfg, now), now);
  }

  predicate Stale(cfg: Config, b: Bucket, now: real) {
    b.lastFill < now - cfg.cleanupTL
  }

  function AfterEvict(cfg: Config, m: Table, ip: string, now: real): Table {
    if ip in m && Stale(cfg, m[ip], now) then m - {ip} else m
  }

  function AfterSweep(cfg: Config, m: Table, now: real): Table {
    map ip | ip in m && !Stale(cfg, m[ip], now) :: m[ip]
  }

  class TokenBucket {
    var tokens: real
    var lastFill: real

    constructor (tokens: real, lastFill: real)
      ensures this.tokens == tokens && this.lastFill == lastFill
    {
      this.tokens, this.lastFill := tokens, lastFill;
    }

    function View(): Bucket
      reads this
    {
      Bucket(tokens, lastFill)
    }

    // What a request does under the bucket's lock.
    method Take(cfg: Config, now: real) returns (ok: bool)
      modifies this
      ensures View() == After(cfg, old(View()), now) && ok == Admits(cfg, old(View()), now)
    {
      var elapsed := now - lastFill;
      tokens := Min(cfg.burst as real, tokens + Gain(cfg, elapsed));
      lastFill := now;
      if tokens < 1.0 {
        return false;
      }
      tokens := tokens - 1.0;
      return true;
    }
  }

  class RateLimiter {
    const cfg: Config
    var buckets: map<string, TokenBucket>

    ghost predicate Valid()
      reads this
    {
      Good(cfg) && forall i, j :: i in buckets && j in buckets && i != j ==> buckets[i] != buckets[j]
    }

    ghost function Repr(): set<TokenBucket>
      reads this
    {
      set ip | ip in buckets :: buckets[ip]
    }

    ghost function View(): Table
      reads this, Repr()
    {
      map ip | ip in buckets :: buckets[ip].View()
    }

    constructor (config: Config)
      ensures Valid() && cfg == Defaults(config) && View() == map[]
      ensures cfg.rate == (if config.rate > 0.0 then config.rate else 10.0)
      ensures cfg.burst == (if config.burst > 0 then config.burst else 20)
      ensures cfg.cleanupTL == (if config.cleanupTL > 0.0 then config.cleanupTL else 600.0)
    {
      cfg := Defaults(config);
      buckets := map[];
    }

    // The bucket of a client, a full one if there was none.
    method LoadOrStore(ip: string, now: real) returns (b: TokenBucket)
      requires Valid()
      modifies this`buckets
      ensures Valid() && ip in buckets && b == buckets[ip]
      ensures if ip in old(buckets) then buckets == old(buckets) else fresh(b) && buckets == old(buckets)[ip := b]
      ensures b.View() == BucketFor(cfg, old(View()), ip, now)
      ensures View() == old(View())[ip := b.View()]
      ensures b in Repr() && fresh(Repr() - old(Repr()))
    {
      if ip !in buckets {
        b := new TokenBucket(cfg.burst as real, now);
        buckets := buckets[ip := b];
      }
      b := buckets[ip];
    }

    method Allow(ip: string, now: real) returns (ok: bool)
      requires Valid()
      modifies this, Repr()
      ensures Valid() && fresh(Repr() - old(Repr()))
      ensures View() == AfterAllow(cfg, old(View()), ip, now)
      ensures ok == Allowed(cfg, old(View()), ip, now)
    {
      var _ := LoadOrStore(ip, now);
      ok := Use(ip, now);
    }

    // A request of a client that has a bucket.
    method Use(ip: string, now: real) returns (ok: bool)
      requires Valid() && ip in buckets
      modifies buckets[ip]
      ensures buckets == old(buckets)
      ensures View() == old(View())[ip := After(cfg, old(View())[ip], now)]
      ensures ok == Admits(cfg, old(View())[ip], now)
    {
      var b := buckets[ip];
      ok := b.Take(cfg, now);
      assert forall k :: k in buckets && k != ip ==> buckets[k] != b;
    }

    // One key of a sweep whose cutoff was taken at now.
    method Evict(ip: string, now: real)
      requires Valid()
      modifies this`buckets
      ensures Valid() && Repr() <= old(Repr())
      ensures buckets == if ip in old(buckets) && Stale(cfg, old(View())[ip], now) then old(buckets) - {ip}
                         else old(buckets)
      ensures View() == AfterEvict(cfg, old(View()), ip, now)
    {
      if ip in buckets {
        var b := buckets[ip];
        var stale := b.lastFill < now - cfg.cleanupTL;
        if stale {
          buckets := buckets - {ip};
        }
      }
    }

    method Sweep(now: real)
      requires Valid()
      modifies this`buckets
      ensures Valid() && Repr() <= old(Repr())
      ensures View() == AfterSweep(cfg, old(View()), now)
      ensures forall ip :: ip in old(buckets) ==>
                (ip in buckets <==> now - cfg.cleanupTL <= old(buckets)[ip].lastFill)
    {
      var keys := buckets.Keys;
      while keys != {}
        invariant Valid() && Repr() <= old(Repr()) && buckets.Keys <= old(buckets.Keys)
        invariant forall ip :: ip in buckets ==> buckets[ip] == old(buckets[ip])
        invariant forall ip :: ip in old(buckets) && ip in keys ==> ip in buckets
        invariant forall ip :: ip in old(buckets) && ip !in keys ==>
                                 (ip in buckets <==> !Stale(cfg, old(View())[ip], now))
        decreases |keys|
      {
        var ip :| ip in keys;
        Evict(ip, now);
        keys := keys - {ip};
      }
    }
  }
}
