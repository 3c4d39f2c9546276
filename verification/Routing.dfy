/**
  Which subscriptions an event reaches: the worker looks up the event type, "*",
  and every dotted prefix of the type followed by ".*".
 */
module Routing {

  type Handlers = map<string, seq<nat>>

  function LastDot(s: string): (k: int)
    ensures -1 <= k < |s|
    ensures k >= 0 ==> s[k] == '.'
    ensures forall i :: k < i < |s| ==> s[i] != '.'
  {
    if s == "" then -1
    else if s[|s| - 1] == '.' then |s| - 1
    else LastDot(s[..|s| - 1])
  }

  // strings.Split(s, ".")
  function SplitDots(s: string): (parts: seq<string>)
    ensures |parts| >= 1
    decreases |s|
  {
    var k := LastDot(s);
    if k < 0 then [s] else SplitDots(s[..k]) + [s[k + 1..]]
  }

  // strings.Join(parts, ".")
  function JoinDots(parts: seq<string>): string
    decreases |parts|
  {
    if parts == [] then ""
    else if |parts| == 1 then parts[0]
    else JoinDots(parts[..|parts| - 1]) + "." + parts[|parts| - 1]
  }

  function LastSegment(s: string): string {
    SplitDots(s)[|SplitDots(s)| - 1]
  }

  function PrefixPattern(parts: seq<string>, i: nat): string
    requires i <= |parts|
  {
    JoinDots(parts[..i]) + ".*"
  }

  // The prefixes of i, i - 1, ..., 1 segments.
  function PrefixPatterns(parts: seq<string>, i: nat): seq<string>
    requires i <= |parts|
  {
    if i == 0 then [] else [PrefixPattern(parts, i)] + PrefixPatterns(parts, i - 1)
  }

  // The lookups of one event, in order.
  function Patterns(eventType: string): seq<string> {
    var parts := SplitDots(eventType);
    [eventType, "*"] + PrefixPatterns(parts, |parts| - 1)
  }

  function Subscribers(h: Handlers, pattern: string): seq<nat> {
    if pattern in h then h[pattern] else []
  }

  function Gather(h: Handlers, patterns: seq<string>): seq<nat> {
    if patterns == [] then []
    else Gather(h, patterns[..|patterns| - 1]) + Subscribers(h, patterns[|patterns| - 1])
  }

  function Targets(h: Handlers, eventType: string): seq<nat> {
    Gather(h, Patterns(eventType))
  }

  lemma GatherOneMore(h: Handlers, patterns: seq<string>, p: string)
    ensures Gather(h, patterns + [p]) == Gather(h, patterns) + Subscribers(h, p)
  {
    assert (patterns + [p])[..|patterns|] == patterns;
  }

  lemma GatherFirstTwo(h: Handlers, eventType: string)
    ensures Gather(h, [eventType, "*"]) == Subscribers(h, eventType) + Subscribers(h, "*")
  {
    GatherOneMore(h, [], eventType);
    GatherOneMore(h, [eventType], "*");
    assert [] + [eventType] == [eventType] && [eventType] + ["*"] == [eventType, "*"];
  }

  lemma LookedOneMore(looked: seq<string>, parts: seq<string>, i: nat)
    requires 1 <= i <= |parts|
    ensures looked + [PrefixPattern(parts, i)] + PrefixPatterns(parts, i - 1) == looked + PrefixPatterns(parts, i)
  {
  }

  method CollectTargets(h: Handlers, eventType: string) returns (targets: seq<nat>)
    ensures targets == Targets(h, eventType)
  {
    var specific := if eventType in h then h[eventType] else [];
    var wildcard := if "*" in h then h["*"] else [];
    targets := specific + wildcard;
    ghost var looked := [eventType, "*"];
    GatherFirstTwo(h, eventType);
    var parts := SplitDots(eventType);
    var i := |parts| - 1;
    while i >= 1
      invariant 0 <= i <= |parts| - 1
      invariant targets == Gather(h, looked)
      invariant looked + PrefixPatterns(parts, i) == Patterns(eventType)
    {
      var prefix := PrefixPattern(parts, i);
      GatherOneMore(h, looked, prefix);
      LookedOneMore(looked, parts, i);
      looked := looked + [prefix];
      if prefix in h && |h[prefix]| > 0 {
        targets := targets + h[prefix];
      }
      i := i - 1;
    }
    assert looked + [] == looked;
  }

  lemma {:induction false} PrefixPatternsLength(parts: seq<string>, i: nat)
    requires i <= |parts|
    ensures |PrefixPatterns(parts, i)| == i
    ensures forall n :: 0 <= n < i ==> PrefixPatterns(parts, i)[n] == PrefixPattern(parts, i - n)
  {
    if i > 0 {
      PrefixPatternsLength(parts, i - 1);
    }
  }

  lemma {:induction false} GatherAppends(h: Handlers, ps: seq<string>, qs: seq<string>)
    ensures Gather(h, ps + qs) == Gather(h, ps) + Gather(h, qs)
    decreases |qs|
  {
    if qs == [] {
      assert ps + qs == ps;
    } else {
      var n := |qs| - 1;
      GatherAppends(h, ps, qs[..n]);
      assert (ps + qs)[..|ps + qs| - 1] == ps + qs[..n];
    }
  }

  /** The targets are the lookups' subscriptions in the order of the lookups. */
  lemma TargetsInOrder(h: Handlers, eventType: string, n: nat)
    requires n < |Patterns(eventType)|
    ensures var all := Patterns(eventType);
            Targets(h, eventType)
            == Gather(h, all[..n]) + (if all[n] in h then h[all[n]] else []) + Gather(h, all[n + 1..])
  {
    var all := Patterns(eventType);
    assert all == all[..n] + [all[n]] + all[n + 1..];
    GatherAppends(h, all[..n] + [all[n]], all[n + 1..]);
    GatherOneMore(h, all[..n], all[n]);
  }

  // ---------------------------------------------------------------- what a match is

  // s[..k] is a proper dotted prefix.
  predicate DotAt(s: string, k: int) {
    0 <= k < |s| && s[k] == '.'
  }

  ghost predicate MatchesPrefix(pattern: string, eventType: string) {
    exists k :: DotAt(eventType, k) && pattern == eventType[..k] + ".*"
  }

  // The intended meaning of a subscription pattern.
  ghost predicate Matches(pattern: string, eventType: string) {
    pattern == eventType || pattern == "*" || MatchesPrefix(pattern, eventType)
  }

  lemma {:induction false} JoinSplit(s: string)
    ensures JoinDots(SplitDots(s)) == s
    decreases |s|
  {
    var k := LastDot(s);
    if k >= 0 {
      JoinSplit(s[..k]);
      var parts := SplitDots(s);
      assert parts[..|parts| - 1] == SplitDots(s[..k]);
      assert s == s[..k] + "." + s[k + 1..];
    }
  }

  // With JoinSplit this is what makes it the split: nothing is left to cut.
  lemma {:induction false} PartsHaveNoDot(s: string, i: nat)
    requires i < |SplitDots(s)|
    ensures '.' !in SplitDots(s)[i]
    decreases |s|
  {
    var k := LastDot(s);
    if k >= 0 && i < |SplitDots(s)| - 1 {
      PartsHaveNoDot(s[..k], i);
    }
  }

  // Each shorter join is a proper dotted prefix.
  lemma {:induction false} JoinIsPrefix(s: string, i: nat)
    requires 1 <= i < |SplitDots(s)|
    ensures var p := JoinDots(SplitDots(s)[..i]);
            DotAt(s, |p|) && p == s[..|p|]
    decreases |s|
  {
    var k := LastDot(s);
    var front := SplitDots(s[..k]);
    assert SplitDots(s)[..i] == front[..i];
    if i == |front| {
      assert front[..i] == front;
      JoinSplit(s[..k]);
    } else {
      JoinIsPrefix(s[..k], i);
    }
  }

  // Every proper dotted prefix is a shorter join.
  lemma {:induction false} PrefixIsJoin(s: string, k: nat) returns (i: nat)
    requires DotAt(s, k)
    ensures 1 <= i < |SplitDots(s)| && JoinDots(SplitDots(s)[..i]) == s[..k]
    decreases |s|
  {
    var last := LastDot(s);
    var front := SplitDots(s[..last]);
    if k == last {
      i := |front|;
      assert SplitDots(s)[..i] == front;
      JoinSplit(s[..k]);
    } else {
      i := PrefixIsJoin(s[..last], k);
      assert SplitDots(s)[..i] == front[..i];
      assert s[..last][..k] == s[..k];
    }
  }

  // Longer joins are longer strings.
  lemma {:induction false} JoinGrows(parts: seq<string>, i: nat, j: nat)
    requires 1 <= i < j <= |parts|
    ensures |JoinDots(parts[..i])| < |JoinDots(parts[..j])|
    decreases j
  {
    assert parts[..j][..j - 1] == parts[..j - 1];
    if i < j - 1 {
      JoinGrows(parts, i, j - 1);
    }
  }

  // Lookup n after the first two is the prefix of |parts| - 1 - n segments.
  lemma LookupAt(eventType: string, n: nat)
    requires n + 2 < |Patterns(eventType)|
    ensures var parts := SplitDots(eventType);
            && |Patterns(eventType)| == |parts| + 1
            && Patterns(eventType)[n + 2] == PrefixPattern(parts, |parts| - 1 - n)
  {
    var parts := SplitDots(eventType);
    PrefixPatternsLength(parts, |parts| - 1);
  }

  /** A pattern matches as the type itself, as the wildcard, or as a proper dotted prefix
      of the type followed by ".*". */
  lemma MatchesIs(pattern: string, eventType: string)
    ensures Matches(pattern, eventType) <==>
              || pattern == eventType || pattern == "*"
              || exists k :: 0 <= k < |eventType| && eventType[k] == '.' && pattern == eventType[..k] + ".*"
  {
    assert forall k :: 0 <= k < |eventType| && eventType[k] == '.' ==> DotAt(eventType, k);
  }

  /** The lookups are exactly the matching patterns. */
  lemma LookupsAreMatches(pattern: string, eventType: string)
    ensures pattern in Patterns(eventType) <==> Matches(pattern, eventType)
  {
    var all := Patterns(eventType);
    var parts := SplitDots(eventType);
    PrefixPatternsLength(parts, |parts| - 1);
    if pattern in all {
      var n :| 0 <= n < |all| && all[n] == pattern;
      if n >= 2 {
        LookupAt(eventType, n - 2);
        JoinIsPrefix(eventType, |parts| - 1 - (n - 2));
        assert DotAt(eventType, |JoinDots(parts[..|parts| - 1 - (n - 2)])|);
      }
    }
    if Matches(pattern, eventType) {
      if pattern == eventType {
        assert all[0] == pattern;
      } else if pattern == "*" {
        assert all[1] == pattern;
      } else {
        var k :| DotAt(eventType, k) && pattern == eventType[..k] + ".*";
        var i := PrefixIsJoin(eventType, k);
        LookupAt(eventType, |parts| - 1 - i);
        assert all[|parts| - 1 - i + 2] == pattern;
      }
    }
  }

  /** After the exact type and the wildcard come the prefixes, longest first. */
  lemma PrefixesLongestFirst(eventType: string, m: nat, n: nat)
    requires 2 <= m < n < |Patterns(eventType)|
    ensures Patterns(eventType)[0] == eventType && Patterns(eventType)[1] == "*"
    ensures MatchesPrefix(Patterns(eventType)[m], eventType)
    ensures |Patterns(eventType)[n]| < |Patterns(eventType)[m]|
  {
    var parts := SplitDots(eventType);
    LookupAt(eventType, m - 2);
    LookupAt(eventType, n - 2);
    JoinGrows(parts, |parts| - 1 - (n - 2), |parts| - 1 - (m - 2));
    PrefixLookup(eventType, m);
  }

  predicate Distinct(xs: seq<string>) {
    forall i, j :: 0 <= i < j < |xs| ==> xs[i] != xs[j]
  }

  // What the type's last segment says about its shape.
  lemma LastSegmentStar(s: string)
    ensures LastSegment(s) == "*" <==> s == "*" || MatchesPrefix(s, s)
  {
    var k := LastDot(s);
    if k >= 0 {
      assert LastSegment(s) == s[k + 1..];
      if LastSegment(s) == "*" {
        assert s == s[..k] + ".*";
        assert DotAt(s, k);
      }
      if MatchesPrefix(s, s) {
        var d :| DotAt(s, d) && s == s[..d] + ".*";
        assert d == |s| - 2 && s[|s| - 1] == '*';
        assert d == k;
      }
    }
  }

  lemma PrefixLookup(eventType: string, n: nat)
    requires 2 <= n < |Patterns(eventType)|
    ensures MatchesPrefix(Patterns(eventType)[n], eventType)
  {
    var parts := SplitDots(eventType);
    LookupAt(eventType, n - 2);
    JoinIsPrefix(eventType, |parts| - 1 - (n - 2));
    assert DotAt(eventType, |JoinDots(parts[..|parts| - 1 - (n - 2)])|);
  }

  // ---------------------------------------------------------------- subscriptions

  // Every Subscribe call is one subscription: no id appears twice.
  predicate TableSound(h: Handlers) {
    forall p, q, i, j ::
      p in h && q in h && 0 <= i < |h[p]| && 0 <= j < |h[q]| && h[p][i] == h[q][j] ==> p == q && i == j
  }

  lemma {:induction false} CountOnce(xs: seq<nat>, x: nat)
    requires forall i, j :: 0 <= i < j < |xs| ==> xs[i] != xs[j]
    ensures multiset(xs)[x] == if x in xs then 1 else 0
  {
    if xs != [] {
      var n := |xs| - 1;
      CountOnce(xs[..n], x);
      assert xs == xs[..n] + [xs[n]];
    }
  }

  lemma InSubscribers(h: Handlers, q: string, p: string, x: nat)
    requires TableSound(h) && p in h && x in h[p]
    ensures x in Subscribers(h, q) <==> q == p
    ensures forall i, j :: 0 <= i < j < |Subscribers(h, q)| ==> Subscribers(h, q)[i] != Subscribers(h, q)[j]
  {
  }

  // How often one subscription is gathered: once per lookup of its pattern.
  lemma {:induction false} GatherCounts(h: Handlers, patterns: seq<string>, p: string, x: nat)
    requires TableSound(h) && p in h && x in h[p]
    ensures multiset(Gather(h, patterns))[x] == multiset(patterns)[p]
  {
    if patterns != [] {
      var n := |patterns| - 1;
      GatherCounts(h, patterns[..n], p, x);
      assert patterns == patterns[..n] + [patterns[n]];
      var subs := Subscribers(h, patterns[n]);
      InSubscribers(h, patterns[n], p, x);
      CountOnce(subs, x);
    }
  }

  lemma {:induction false} CountPattern(xs: seq<string>, x: string)
    requires Distinct(xs)
    ensures multiset(xs)[x] == if x in xs then 1 else 0
  {
    if xs != [] {
      var n := |xs| - 1;
      CountPattern(xs[..n], x);
      assert xs == xs[..n] + [xs[n]];
    }
  }

  // How often a subscription to a pattern is called for an event type.
  ghost function Calls(pattern: string, eventType: string): nat {
    (if pattern == eventType then 1 else 0) + (if pattern == "*" then 1 else 0)
    + (if MatchesPrefix(pattern, eventType) then 1 else 0)
  }

  lemma CallsIfMatches(pattern: string, eventType: string)
    ensures Calls(pattern, eventType) >= 1 <==> Matches(pattern, eventType)
  {
  }

  // The lookups after the first two.
  function PrefixLookups(eventType: string): seq<string> {
    var parts := SplitDots(eventType);
    PrefixPatterns(parts, |parts| - 1)
  }

  lemma PrefixLookupAt(eventType: string, n: nat)
    requires n < |PrefixLookups(eventType)|
    ensures n + 2 < |Patterns(eventType)| && Patterns(eventType)[n + 2] == PrefixLookups(eventType)[n]
  {
  }

  lemma PrefixLookupsDistinct(eventType: string)
    ensures Distinct(PrefixLookups(eventType))
  {
    var prefixes := PrefixLookups(eventType);
    forall m, n | 0 <= m < n < |prefixes| ensures prefixes[m] != prefixes[n] {
      PrefixLookupAt(eventType, m);
      PrefixLookupAt(eventType, n);
      PrefixesLongestFirst(eventType, m + 2, n + 2);
    }
  }

  lemma PrefixLookupsMatch(eventType: string, pattern: string)
    ensures pattern in PrefixLookups(eventType) <==> MatchesPrefix(pattern, eventType)
  {
    var prefixes := PrefixLookups(eventType);
    if pattern in prefixes {
      var n :| 0 <= n < |prefixes| && prefixes[n] == pattern;
      PrefixLookupAt(eventType, n);
      PrefixLookup(eventType, n + 2);
    }
    if MatchesPrefix(pattern, eventType) {
      var k :| DotAt(eventType, k) && pattern == eventType[..k] + ".*";
      var i := PrefixIsJoin(eventType, k);
      var parts := SplitDots(eventType);
      PrefixPatternsLength(parts, |parts| - 1);
      assert prefixes[|parts| - 1 - i] == pattern;
    }
  }

  // A type's lookups of one pattern.
  lemma LookupCount(eventType: string, p: string)
    ensures multiset(Patterns(eventType))[p] == Calls(p, eventType)
  {
    var prefixes := PrefixLookups(eventType);
    PrefixLookupsDistinct(eventType);
    CountPattern(prefixes, p);
    PrefixLookupsMatch(eventType, p);
    CountFirstTwo(eventType, "*", prefixes, p);
  }

  lemma CountFirstTwo(a: string, b: string, rest: seq<string>, p: string)
    ensures multiset([a, b] + rest)[p] == (if p == a then 1 else 0) + (if p == b then 1 else 0) + multiset(rest)[p]
  {
  }

  /** Routing is exact, for every event type: a subscription is called once for each way
      in which its pattern matches, as the type itself, as the wildcard, and as a prefix. */
  lemma RoutingCount(h: Handlers, eventType: string, p: string, x: nat)
    requires TableSound(h) && p in h && x in h[p]
    ensures multiset(Targets(h, eventType))[x] == Calls(p, eventType)
  {
    GatherCounts(h, Patterns(eventType), p, x);
    LookupCount(eventType, p);
  }

  // Only a type that is a pattern itself matches in two ways.
  lemma CallsOnce(pattern: string, eventType: string)
    requires LastSegment(eventType) != "*"
    ensures Calls(pattern, eventType) == if Matches(pattern, eventType) then 1 else 0
  {
    LastSegmentStar(eventType);
    if MatchesPrefix(pattern, eventType) {
      var k :| DotAt(eventType, k) && pattern == eventType[..k] + ".*";
      assert |pattern| >= 2;
    }
  }

  /** If the type's last segment is not "*", that is once when the pattern matches and
      never otherwise. */
  lemma RoutingExact(h: Handlers, eventType: string, p: string, x: nat)
    requires TableSound(h) && p in h && x in h[p]
    requires LastSegment(eventType) != "*"
    ensures multiset(Targets(h, eventType))[x] == if Matches(p, eventType) then 1 else 0
  {
    RoutingCount(h, eventType, p, x);
    CallsOnce(p, eventType);
  }

  /** The condition is the exact one: for every other type a subscription to the
      type itself is invoked at least twice. */
  lemma StarTypesRepeat(h: Handlers, eventType: string, x: nat)
    requires TableSound(h) && eventType in h && x in h[eventType]
    ensures multiset(Targets(h, eventType))[x] >= 2 <==> LastSegment(eventType) == "*"
  {
    RoutingCount(h, eventType, eventType, x);
    LastSegmentStar(eventType);
  }

  /** Nothing else is invoked: every target is a subscription whose pattern matches. */
  lemma {:induction false} OnlySubscriptions(h: Handlers, eventType: string, x: nat)
    requires x in Targets(h, eventType)
    ensures exists p :: p in h && x in h[p] && Matches(p, eventType)
  {
    var p := GatheredFrom(h, Patterns(eventType), x);
    LookupsAreMatches(p, eventType);
  }

  lemma {:induction false} GatheredFrom(h: Handlers, patterns: seq<string>, x: nat) returns (p: string)
    requires x in Gather(h, patterns)
    ensures p in patterns && p in h && x in h[p]
  {
    var n := |patterns| - 1;
    if x in Subscribers(h, patterns[n]) {
      p := patterns[n];
    } else {
      p := GatheredFrom(h, patterns[..n], x);
    }
  }
}
