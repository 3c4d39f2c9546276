/**
  The audit log: a chain of rows, each of which hashes the one before it. The hash is
  a parameter; what the chain proves needs it to be collision-free, never equal to
  the genesis value, and free of the separator, as hexadecimal text is.
 */
module Audit {
  import opened Wrappers

  function Zeros(n: nat): (s: string)
    ensures |s| == n && forall c :: c in s ==> c == '0'
  {
    if n == 0 then "" else "0" + Zeros(n - 1)
  }

  const GENESIS_HASH := Zeros(64)

  // Old and new values are the redacted JSON texts.
  datatype Entry = Entry(userId: Option<int>, action: string, entityType: string, entityId: int,
                         publicId: string, oldValues: string, newValues: string)

  datatype Row = Row(entry: Entry, prevHash: string, currHash: string, at: string)

  type Hash = string -> string

  function HashText(prevHash: string, e: Entry, at: string): string {
    prevHash + "|" + (e.action + "|" + (e.entityType + "|" + (e.publicId + "|" + (at + "|" + Values(e)))))
  }

  // The old and the new text, joined.
  function Values(e: Entry): string {
    e.oldValues + "|" + e.newValues
  }

  function ComputeHash(hash: Hash, prevHash: string, e: Entry, at: string): string {
    hash(HashText(prevHash, e, at))
  }

  // What the next row's previous hash is.
  function LastHash(log: seq<Row>): string {
    if log == [] then GENESIS_HASH else log[|log| - 1].currHash
  }

  function RowFor(hash: Hash, log: seq<Row>, e: Entry, at: string): Row {
    Row(e, LastHash(log), ComputeHash(hash, LastHash(log), e, at), at)
  }

  // Every row hashes its own fields and the hash of the row before it.
  predicate ValidChain(hash: Hash, log: seq<Row>) {
    forall i :: 0 <= i < |log| ==> log[i] == RowFor(hash, log[..i], log[i].entry, log[i].at)
  }

  /** Appending a row keeps the chain valid. */
  lemma AppendKeepsChain(hash: Hash, log: seq<Row>, e: Entry, at: string)
    requires ValidChain(hash, log)
    ensures ValidChain(hash, log + [RowFor(hash, log, e, at)])
  {
    var longer := log + [RowFor(hash, log, e, at)];
    forall i | 0 <= i < |longer| ensures longer[i] == RowFor(hash, longer[..i], longer[i].entry, longer[i].at) {
      assert longer[..i] == log[..i];
      if i == |log| {
        assert log[..i] == log;
      }
    }
  }

  // The parts, each but the last followed by a bar.
  function Barred(parts: seq<string>): string {
    if parts == [] then "" else if |parts| == 1 then parts[0] else parts[0] + "|" + Barred(parts[1..])
  }

  lemma BarredText(prevHash: string, e: Entry, at: string)
    ensures HashText(prevHash, e, at)
            == Barred([prevHash, e.action, e.entityType, e.publicId, at, e.oldValues, e.newValues])
  {
    BarredCons(e.oldValues, [e.newValues]);
    BarredCons(at, [e.oldValues, e.newValues]);
    BarredCons(e.publicId, [at, e.oldValues, e.newValues]);
    BarredCons(e.entityType, [e.publicId, at, e.oldValues, e.newValues]);
    BarredCons(e.action, [e.entityType, e.publicId, at, e.oldValues, e.newValues]);
    BarredCons(prevHash, [e.action, e.entityType, e.publicId, at, e.oldValues, e.newValues]);
  }

  lemma BarredCons(part: string, parts: seq<string>)
    requires parts != []
    ensures Barred([part] + parts) == part + ("|" + Barred(parts))
  {
    assert ([part] + parts)[1..] == parts;
    assert part + "|" + Barred(parts) == part + ("|" + Barred(parts));
  }

  /** A log is a valid chain exactly if its first row follows sixty-four zeros, every other
      the row before it, and each row's hash is that of the previous hash, action, type,
      public id, time, old and new text, in this order, with bars between them. */
  lemma ChainIs(hash: Hash, log: seq<Row>)
    ensures |GENESIS_HASH| == 64 && forall c :: c in GENESIS_HASH ==> c == '0'
    ensures ValidChain(hash, log) <==>
              forall i :: 0 <= i < |log| ==>
                && log[i].prevHash == (if i == 0 then GENESIS_HASH else log[i - 1].currHash)
                && log[i].currHash
                   == hash(Barred([log[i].prevHash, log[i].entry.action, log[i].entry.entityType,
                                   log[i].entry.publicId, log[i].at, log[i].entry.oldValues, log[i].entry.newValues]))
  {
    forall i | 0 <= i < |log|
      ensures LastHash(log[..i]) == if i == 0 then GENESIS_HASH else log[i - 1].currHash
      ensures log[i] == RowFor(hash, log[..i], log[i].entry, log[i].at) <==>
                && log[i].prevHash == (if i == 0 then GENESIS_HASH else log[i - 1].currHash)
                && log[i].currHash
                   == hash(Barred([log[i].prevHash, log[i].entry.action, log[i].entry.entityType,
                                   log[i].entry.publicId, log[i].at, log[i].entry.oldValues, log[i].entry.newValues]))
    {
      assert i > 0 ==> log[..i][i - 1] == log[i - 1];
      BarredText(log[i].prevHash, log[i].entry, log[i].at);
    }
  }

  // ---------------------------------------------------------------- tamper evidence

  predicate NoBar(s: string) {
    '|' !in s
  }

  ghost predicate GoodHash(hash: Hash) {
    && (forall x, y :: hash(x) == hash(y) ==> x == y)
    && (forall x :: hash(x) != GENESIS_HASH && NoBar(hash(x)))
  }

  // A text spelled without bars.
  function Spelled(s: string): (t: string)
    ensures NoBar(t)
  {
    if s == "" then "" else (if s[0] == '|' then "\\b" else if s[0] == '\\' then "\\\\" else [s[0]]) + Spelled(s[1..])
  }

  lemma {:induction false} SpelledApart(s: string, t: string)
    requires Spelled(s) == Spelled(t)
    ensures s == t
  {
    if s != "" && t != "" {
      assert Spelled(s)[0] == Spelled(t)[0] && (s[0] == '|' || s[0] == '\\' ==> Spelled(s)[1] == Spelled(t)[1]);
      assert s[0] == t[0];
      var n := if s[0] == '|' || s[0] == '\\' then 2 else 1;
      assert Spelled(s)[n..] == Spelled(s[1..]) && Spelled(t)[n..] == Spelled(t[1..]);
      SpelledApart(s[1..], t[1..]);
      assert s == [s[0]] + s[1..] && t == [t[0]] + t[1..];
    }
  }

  /** What is asked of the hash can be met. */
  lemma GoodHashExists() returns (hash: Hash)
    ensures GoodHash(hash)
  {
    hash := x => "h" + Spelled(x);
    forall x, y | hash(x) == hash(y) ensures x == y {
      assert hash(x)[1..] == Spelled(x) && hash(y)[1..] == Spelled(y);
      SpelledApart(x, y);
    }
    forall x ensures hash(x) != GENESIS_HASH && NoBar(hash(x)) {
      assert hash(x)[0] == 'h' && GENESIS_HASH[0] == '0';
    }
  }

  // Action, type, public id and time are constants, UUIDs and formatted times.
  predicate Clean(r: Row) {
    NoBar(r.entry.action) && NoBar(r.entry.entityType) && NoBar(r.entry.publicId) && NoBar(r.at)
  }

  predicate AllClean(log: seq<Row>) {
    forall i :: 0 <= i < |log| ==> Clean(log[i])
  }

  // No bar anywhere in what is hashed of a row.
  predicate Plain(r: Row) {
    Clean(r) && NoBar(r.entry.oldValues) && NoBar(r.entry.newValues)
  }

  // The same place in the chain, and the same hashed text.
  predicate SameText(a: Row, b: Row) {
    && a.prevHash == b.prevHash && a.currHash == b.currHash
    && HashText(a.prevHash, a.entry, a.at) == HashText(b.prevHash, b.entry, b.at)
  }

  // All that the hash covers is the same, with the two texts as one.
  predicate Agree(a: Row, b: Row) {
    && a.prevHash == b.prevHash && a.at == b.at
    && a.entry.action == b.entry.action && a.entry.entityType == b.entry.entityType
    && a.entry.publicId == b.entry.publicId && Values(a.entry) == Values(b.entry)
  }

  // All that the hash covers is the same, column by column.
  predicate SameColumns(a: Row, b: Row) {
    Agree(a, b) && a.entry.oldValues == b.entry.oldValues && a.entry.newValues == b.entry.newValues
  }

  lemma FirstField(a: string, x: string, b: string, y: string)
    requires NoBar(a) && NoBar(b) && a + "|" + x == b + "|" + y
    ensures a == b && x == y
  {
    var s, t := a + "|" + x, b + "|" + y;
    assert s[|a|] == '|' && t[|b|] == '|';
    assert forall i :: 0 <= i < |a| ==> s[i] == a[i] && s[i] != '|';
    assert forall i :: 0 <= i < |b| ==> t[i] == b[i] && t[i] != '|';
    assert s[..|a|] == a && t[..|b|] == b;
    assert s[|a| + 1..] == x && t[|b| + 1..] == y;
  }

  lemma Cancel(a: string, x: string, y: string)
    requires a + "|" + x == a + "|" + y
    ensures x == y
  {
    assert (a + "|" + x)[|a| + 1..] == x && (a + "|" + y)[|a| + 1..] == y;
  }

  // What of a row's text follows the previous hash.
  function Tail(e: Entry, at: string): string {
    e.action + "|" + (e.entityType + "|" + (e.publicId + "|" + (at + "|" + Values(e))))
  }

  // In clean rows the hashed text determines its parts.
  lemma HashTextParts(a: Row, b: Row)
    requires Clean(a) && Clean(b) && SameText(a, b)
    ensures Agree(a, b)
  {
    var e, f := a.entry, b.entry;
    var v, w := a.at + "|" + Values(e), b.at + "|" + Values(f);
    Cancel(a.prevHash, Tail(e, a.at), Tail(f, b.at));
    FirstField(e.action, e.entityType + "|" + (e.publicId + "|" + v),
               f.action, f.entityType + "|" + (f.publicId + "|" + w));
    FirstField(e.entityType, e.publicId + "|" + v, f.entityType, f.publicId + "|" + w);
    FirstField(e.publicId, v, f.publicId, w);
    FirstField(a.at, Values(e), b.at, Values(f));
  }

  /** Beside a clean row, one with the same text agrees with it exactly when it is clean. */
  lemma CleanRowsAgreeIff(a: Row, b: Row)
    requires Clean(a) && SameText(a, b)
    ensures Agree(a, b) <==> Clean(b)
  {
    if Clean(b) {
      HashTextParts(a, b);
    }
  }

  // ---------------------------------------------------------------- counting bars

  function Bars(s: string): nat {
    if s == "" then 0 else (if s[0] == '|' then 1 else 0) + Bars(s[1..])
  }

  lemma {:induction false} NoBarIff(s: string)
    ensures NoBar(s) <==> Bars(s) == 0
  {
    if s != "" {
      NoBarIff(s[1..]);
      assert s == [s[0]] + s[1..];
    }
  }

  lemma {:induction false} BarsJoined(s: string, t: string)
    ensures Bars(s + "|" + t) == Bars(s) + 1 + Bars(t)
  {
    if s == "" {
      assert (s + "|" + t)[1..] == t;
    } else {
      assert (s + "|" + t)[1..] == s[1..] + "|" + t;
      BarsJoined(s[1..], t);
    }
  }

  lemma BarsOfTail(e: Entry, at: string)
    ensures Bars(Tail(e, at)) == Bars(e.action) + Bars(e.entityType) + Bars(e.publicId) + Bars(at)
                                 + Bars(e.oldValues) + Bars(e.newValues) + 5
  {
    BarsJoined(e.oldValues, e.newValues);
    BarsJoined(at, Values(e));
    BarsJoined(e.publicId, at + "|" + Values(e));
    BarsJoined(e.entityType, e.publicId + "|" + (at + "|" + Values(e)));
    BarsJoined(e.action, e.entityType + "|" + (e.publicId + "|" + (at + "|" + Values(e))));
  }

  lemma PlainIff(r: Row)
    ensures Plain(r) <==> Bars(Tail(r.entry, r.at)) == 5
  {
    BarsOfTail(r.entry, r.at);
    NoBarIff(r.entry.action);
    NoBarIff(r.entry.entityType);
    NoBarIff(r.entry.publicId);
    NoBarIff(r.at);
    NoBarIff(r.entry.oldValues);
    NoBarIff(r.entry.newValues);
  }

  /** Beside a row without bars there is no other row of its text. */
  lemma PlainRowIsAlone(a: Row, b: Row)
    requires Plain(a) && SameText(a, b)
    ensures SameColumns(a, b)
  {
    Cancel(a.prevHash, Tail(a.entry, a.at), Tail(b.entry, b.at));
    PlainIff(a);
    PlainIff(b);
    HashTextParts(a, b);
    SplitDetermined(a.entry, b.entry);
  }

  // ---------------------------------------------------------------- two chains

  lemma LastHashHasNoBar(hash: Hash, log: seq<Row>)
    requires GoodHash(hash) && ValidChain(hash, log)
    ensures NoBar(LastHash(log))
    ensures LastHash(log) == GENESIS_HASH <==> log == []
  {
    if log != [] {
      var r := log[|log| - 1];
      assert r.currHash == hash(HashText(r.prevHash, r.entry, r.at));
    }
  }

  // The last row of a chain, after a shorter one.
  lemma LastRow(hash: Hash, log: seq<Row>)
    requires GoodHash(hash) && ValidChain(hash, log) && log != []
    ensures var n, r := |log| - 1, log[|log| - 1];
            && ValidChain(hash, log[..n]) && r.prevHash == LastHash(log[..n]) && NoBar(r.prevHash)
            && LastHash(log) == r.currHash == hash(HashText(r.prevHash, r.entry, r.at))
  {
    var shorter := log[..|log| - 1];
    forall i | 0 <= i < |shorter| ensures shorter[i] == RowFor(hash, shorter[..i], shorter[i].entry, shorter[i].at) {
      assert shorter[..i] == log[..i];
    }
    LastHashHasNoBar(hash, shorter);
  }

  lemma SameHashText(hash: Hash, a: Row, b: Row)
    requires GoodHash(hash) && NoBar(a.prevHash) && NoBar(b.prevHash) && a.currHash == b.currHash
    requires a.currHash == hash(HashText(a.prevHash, a.entry, a.at))
    requires b.currHash == hash(HashText(b.prevHash, b.entry, b.at))
    ensures SameText(a, b)
  {
    FirstField(a.prevHash, Tail(a.entry, a.at), b.prevHash, Tail(b.entry, b.at));
  }

  ghost predicate AllSameText(a: seq<Row>, b: seq<Row>) {
    |a| == |b| && forall i :: 0 <= i < |a| ==> SameText(a[i], b[i])
  }

  lemma AllSameTextSnoc(a: seq<Row>, b: seq<Row>)
    requires a != [] && b != [] && AllSameText(a[..|a| - 1], b[..|b| - 1]) && SameText(a[|a| - 1], b[|b| - 1])
    ensures AllSameText(a, b)
  {
    forall i | 0 <= i < |a| ensures SameText(a[i], b[i]) {
      if i < |a| - 1 {
        assert a[i] == a[..|a| - 1][i] && b[i] == b[..|b| - 1][i];
      }
    }
  }

  lemma LastRowsSameText(hash: Hash, a: seq<Row>, b: seq<Row>)
    requires GoodHash(hash) && ValidChain(hash, a) && ValidChain(hash, b)
    requires a != [] && b != [] && LastHash(a) == LastHash(b)
    ensures var m, n := |a| - 1, |b| - 1;
            && SameText(a[m], b[n])
            && ValidChain(hash, a[..m]) && ValidChain(hash, b[..n])
            && LastHash(a[..m]) == LastHash(b[..n])
  {
    LastRow(hash, a);
    LastRow(hash, b);
    SameHashText(hash, a[|a| - 1], b[|b| - 1]);
  }

  // Two valid logs that end in the same hash have the same hashes and hashed texts.
  lemma {:induction false} ChainsShareTexts(hash: Hash, a: seq<Row>, b: seq<Row>)
    requires GoodHash(hash) && ValidChain(hash, a) && ValidChain(hash, b) && LastHash(a) == LastHash(b)
    ensures AllSameText(a, b)
    decreases |a|
  {
    LastHashHasNoBar(hash, a);
    LastHashHasNoBar(hash, b);
    if a != [] {
      LastRowsSameText(hash, a, b);
      ChainsShareTexts(hash, a[..|a| - 1], b[..|b| - 1]);
      AllSameTextSnoc(a, b);
    }
  }

  /** Tamper evidence: any two valid logs that end in the same hash are of one length and
      have, row by row, the same hashes and the same hashed text. A row whose header has
      no bar agrees with its counterpart exactly when that has none either; a row with
      no bar at all is the same in every column that is hashed. */
  lemma TamperEvidence(hash: Hash, a: seq<Row>, b: seq<Row>)
    requires GoodHash(hash) && ValidChain(hash, a) && ValidChain(hash, b) && LastHash(a) == LastHash(b)
    ensures |a| == |b|
    ensures forall i :: 0 <= i < |a| ==> SameText(a[i], b[i])
    ensures forall i :: 0 <= i < |a| && Clean(a[i]) ==> (Agree(a[i], b[i]) <==> Clean(b[i]))
    ensures forall i :: 0 <= i < |a| && Plain(a[i]) ==> SameColumns(a[i], b[i])
  {
    ChainsShareTexts(hash, a, b);
    forall i | 0 <= i < |a| && Clean(a[i]) ensures Agree(a[i], b[i]) <==> Clean(b[i]) {
      CleanRowsAgreeIff(a[i], b[i]);
    }
    forall i | 0 <= i < |a| && Plain(a[i]) ensures SameColumns(a[i], b[i]) {
      PlainRowIsAlone(a[i], b[i]);
    }
  }

  ghost predicate AllAgree(a: seq<Row>, b: seq<Row>) {
    |a| == |b| && forall i :: 0 <= i < |a| ==> Agree(a[i], b[i])
  }

  // Logs of clean rows, as the service writes them, agree throughout.
  lemma CleanLogsAgree(hash: Hash, a: seq<Row>, b: seq<Row>)
    requires GoodHash(hash) && ValidChain(hash, a) && ValidChain(hash, b) && LastHash(a) == LastHash(b)
    requires AllClean(a) && AllClean(b)
    ensures AllAgree(a, b)
  {
    TamperEvidence(hash, a, b);
  }

  // ---------------------------------------------------------------- the joined texts

  lemma SplitAtLength(e: Entry, f: Entry)
    requires Values(e) == Values(f) && |e.oldValues| == |f.oldValues|
    ensures e.oldValues == f.oldValues && e.newValues == f.newValues
  {
    var v, w := Values(e), Values(f);
    assert v[..|e.oldValues|] == e.oldValues && w[..|f.oldValues|] == f.oldValues;
    assert v[|e.oldValues| + 1..] == e.newValues && w[|f.oldValues| + 1..] == f.newValues;
  }

  // The only bar is the one between the texts.
  lemma SplitDetermined(e: Entry, f: Entry)
    requires NoBar(e.oldValues) && NoBar(e.newValues) && Values(e) == Values(f)
    ensures e.oldValues == f.oldValues && e.newValues == f.newValues
  {
    var v, n, m := Values(e), |e.oldValues|, |f.oldValues|;
    assert v[m] == Values(f)[m] == '|';
    assert forall i :: 0 <= i < n ==> v[i] == e.oldValues[i] && v[i] != '|';
    assert forall i :: n < i < |v| ==> v[i] == e.newValues[i - n - 1] && v[i] != '|';
    SplitAtLength(e, f);
  }

  // Another bar may be taken for it.
  lemma OtherSplit(e: Entry) returns (f: Entry)
    requires !NoBar(e.oldValues) || !NoBar(e.newValues)
    ensures Values(f) == Values(e) && f.oldValues != e.oldValues && f.newValues != e.newValues
    ensures f == e.(oldValues := f.oldValues, newValues := f.newValues)
  {
    var o, n := e.oldValues, e.newValues;
    if !NoBar(o) {
      var i :| 0 <= i < |o| && o[i] == '|';
      f := e.(oldValues := o[..i], newValues := o[i + 1..] + "|" + n);
      assert o == o[..i] + "|" + o[i + 1..];
    } else {
      var i :| 0 <= i < |n| && n[i] == '|';
      f := e.(oldValues := o + "|" + n[..i], newValues := n[i + 1..]);
      assert n == n[..i] + "|" + n[i + 1..];
    }
    assert |f.oldValues| != |o| && |f.newValues| != |n|;
  }

  /** The joined text determines an entry's old and new text exactly when neither has a
      bar in it. */
  lemma ValuesSplitIff(e: Entry)
    ensures (forall f: Entry :: Values(f) == Values(e) ==> f.oldValues == e.oldValues && f.newValues == e.newValues)
            <==> NoBar(e.oldValues) && NoBar(e.newValues)
  {
    if NoBar(e.oldValues) && NoBar(e.newValues) {
      forall f: Entry | Values(f) == Values(e) ensures f.oldValues == e.oldValues && f.newValues == e.newValues {
        SplitDetermined(e, f);
      }
    } else {
      var f := OtherSplit(e);
      assert Values(f) == Values(e);
    }
  }

  // In entries that differ in their texts alone, equal hash texts mean equal values.
  lemma SameTextsIff(prevHash: string, e: Entry, f: Entry, at: string)
    requires f == e.(oldValues := f.oldValues, newValues := f.newValues)
    ensures HashText(prevHash, e, at) == HashText(prevHash, f, at) <==> Values(e) == Values(f)
  {
    if HashText(prevHash, e, at) == HashText(prevHash, f, at) {
      var v, w := at + "|" + Values(e), at + "|" + Values(f);
      Cancel(prevHash, Tail(e, at), Tail(f, at));
      Cancel(e.action, e.entityType + "|" + (e.publicId + "|" + v), e.entityType + "|" + (e.publicId + "|" + w));
      Cancel(e.entityType, e.publicId + "|" + v, e.publicId + "|" + w);
      Cancel(e.publicId, v, w);
      Cancel(at, Values(e), Values(f));
    }
  }

  // The log with another entry and time in row i, under the same hashes.
  function WithRow(log: seq<Row>, i: nat, f: Entry, at: string): seq<Row>
    requires i < |log|
  {
    log[i := log[i].(entry := f, at := at)]
  }

  // An altered row passes exactly when its hashed text is the same.
  lemma AlteredChain(hash: Hash, log: seq<Row>, i: nat, f: Entry, at: string)
    requires GoodHash(hash) && ValidChain(hash, log) && i < |log|
    ensures LastHash(WithRow(log, i, f, at)) == LastHash(log)
    ensures ValidChain(hash, WithRow(log, i, f, at)) <==> SameText(log[i], WithRow(log, i, f, at)[i])
  {
    var altered := WithRow(log, i, f, at);
    assert altered[..i] == log[..i];
    assert log[i] == RowFor(hash, log[..i], log[i].entry, log[i].at);
    if SameText(log[i], altered[i]) {
      forall j | 0 <= j < |altered| ensures altered[j] == RowFor(hash, altered[..j], altered[j].entry, altered[j].at) {
        SameLastHash(log, altered, i, j);
        assert log[j] == RowFor(hash, log[..j], log[j].entry, log[j].at);
      }
    } else {
      assert altered[i] != RowFor(hash, altered[..i], f, at);
    }
  }

  lemma SameLastHash(log: seq<Row>, altered: seq<Row>, i: nat, j: nat)
    requires i < |log| == |altered| && j <= |log|
    requires altered == log[i := altered[i]] && altered[i].currHash == log[i].currHash
    ensures LastHash(altered[..j]) == LastHash(log[..j])
  {
    if j > 0 {
      assert altered[..j][j - 1] == altered[j - 1] && log[..j][j - 1] == log[j - 1];
    }
  }

  // The log with other texts in row i, and nothing else changed.
  function WithTexts(log: seq<Row>, i: nat, oldValues: string, newValues: string): seq<Row>
    requires i < |log|
  {
    WithRow(log, i, log[i].entry.(oldValues := oldValues, newValues := newValues), log[i].at)
  }

  /** Of a row's two texts alone: they can be altered, and the chain stay valid with the
      same last hash, exactly when one of them has a bar in it. */
  lemma TextsPinnedIff(hash: Hash, log: seq<Row>, i: nat)
    requires GoodHash(hash) && ValidChain(hash, log) && i < |log|
    ensures (forall o, n :: ValidChain(hash, WithTexts(log, i, o, n)) ==>
                              o == log[i].entry.oldValues && n == log[i].entry.newValues)
            <==> NoBar(log[i].entry.oldValues) && NoBar(log[i].entry.newValues)
  {
    var e := log[i].entry;
    if NoBar(e.oldValues) && NoBar(e.newValues) {
      forall o, n | ValidChain(hash, WithTexts(log, i, o, n)) ensures o == e.oldValues && n == e.newValues {
        var f := e.(oldValues := o, newValues := n);
        AlteredChain(hash, log, i, f, log[i].at);
        SameTextsIff(log[i].prevHash, e, f, log[i].at);
        SplitDetermined(e, f);
      }
    } else {
      var f := OtherSplit(e);
      SameTextsIff(log[i].prevHash, e, f, log[i].at);
      AlteredChain(hash, log, i, f, log[i].at);
      assert ValidChain(hash, WithTexts(log, i, f.oldValues, f.newValues));
    }
  }

  // ---------------------------------------------------------------- the whole row

  lemma Regroup(x: string, y: string, z: string)
    ensures (x + "|" + y) + "|" + z == x + "|" + (y + "|" + z)
  {
  }

  lemma CutAtBar(s: string) returns (x: string, y: string)
    requires !NoBar(s)
    ensures s == x + "|" + y && |x| < |s| && |y| < |s|
  {
    var i :| 0 <= i < |s| && s[i] == '|';
    x, y := s[..i], s[i + 1..];
  }

  // A header column with a bar in it can be two, and the columns after it move on.
  lemma OtherHeader(e: Entry, at: string) returns (f: Entry, at': string)
    requires !(NoBar(e.action) && NoBar(e.entityType) && NoBar(e.publicId) && NoBar(at))
    ensures Tail(f, at') == Tail(e, at)
    ensures f.action != e.action || f.entityType != e.entityType || f.publicId != e.publicId || at' != at
  {
    var rest := Values(e);
    if !NoBar(e.action) {
      var x, y := CutAtBar(e.action);
      f := e.(action := x, entityType := y, publicId := e.entityType, oldValues := at, newValues := rest);
      at' := e.publicId;
      Regroup(x, y, e.entityType + "|" + (e.publicId + "|" + (at + "|" + rest)));
    } else if !NoBar(e.entityType) {
      var x, y := CutAtBar(e.entityType);
      f, at' := e.(entityType := x, publicId := y, oldValues := at, newValues := rest), e.publicId;
      Regroup(x, y, e.publicId + "|" + (at + "|" + rest));
    } else if !NoBar(e.publicId) {
      var x, y := CutAtBar(e.publicId);
      f, at' := e.(publicId := x, oldValues := at, newValues := rest), y;
      Regroup(x, y, at + "|" + rest);
    } else {
      var x, y := CutAtBar(at);
      f, at' := e.(oldValues := y, newValues := rest), x;
      Regroup(x, y, rest);
    }
  }

  // A row with a bar in it has another one of the same text.
  lemma OtherRow(r: Row) returns (f: Entry, at: string)
    requires !Plain(r)
    ensures SameText(r, r.(entry := f, at := at)) && !SameColumns(r, r.(entry := f, at := at))
  {
    if Clean(r) {
      f := OtherSplit(r.entry);
      at := r.at;
    } else {
      f, at := OtherHeader(r.entry, r.at);
    }
  }

  /** What the last hash pins down: a row is the same, in every column that is hashed, in
      each valid log with that last hash, exactly when it has no bar in any of them. */
  lemma RowPinnedIff(hash: Hash, log: seq<Row>, i: nat)
    requires GoodHash(hash) && ValidChain(hash, log) && i < |log|
    ensures (forall b: seq<Row> :: ValidChain(hash, b) && LastHash(b) == LastHash(log) ==>
                                     |b| == |log| && SameColumns(log[i], b[i]))
            <==> Plain(log[i])
  {
    if Plain(log[i]) {
      forall b: seq<Row> | ValidChain(hash, b) && LastHash(b) == LastHash(log)
        ensures |b| == |log| && SameColumns(log[i], b[i])
      {
        TamperEvidence(hash, log, b);
      }
    } else {
      var f, at := OtherRow(log[i]);
      AlteredChain(hash, log, i, f, at);
      assert ValidChain(hash, WithRow(log, i, f, at));
    }
  }

  /** Nor is it only the texts that can be altered: a bar in the new text lets action,
      type, public id and time all move by one column. */
  lemma HeaderMayShift(hash: Hash, log: seq<Row>, i: nat) returns (altered: seq<Row>)
    requires GoodHash(hash) && ValidChain(hash, log) && i < |log| && !NoBar(log[i].entry.newValues)
    ensures ValidChain(hash, altered) && |altered| == |log| && LastHash(altered) == LastHash(log)
    ensures var e, f := log[i].entry, altered[i].entry;
            && f.action == e.action + "|" + e.entityType && f.entityType == e.publicId && f.publicId == log[i].at
            && altered[i].at == e.oldValues && f.oldValues + "|" + f.newValues == e.newValues
            && !Agree(log[i], altered[i])
  {
    var e, at := log[i].entry, log[i].at;
    var x, y := CutAtBar(e.newValues);
    var f := e.(action := e.action + "|" + e.entityType, entityType := e.publicId, publicId := at,
                oldValues := x, newValues := y);
    Regroup(e.action, e.entityType, e.publicId + "|" + (at + "|" + (e.oldValues + "|" + (x + "|" + y))));
    assert Tail(f, e.oldValues) == Tail(e, at);
    AlteredChain(hash, log, i, f, e.oldValues);
    altered := WithRow(log, i, f, e.oldValues);
    assert |f.action| > |e.action|;
  }

  /** An entry that the service writes for a title with a bar, and an altered one, whose
      texts are no JSON any more, with the same hash. */
  lemma ValuesMayShift(hash: Hash, prevHash: string, at: string) returns (e: Entry, f: Entry)
    ensures e.oldValues == "null" && e.newValues == "{\"title\":\"a|b\"}"
    ensures f.oldValues == "null|{\"title\":\"a" && f.newValues == "b\"}"
    ensures ComputeHash(hash, prevHash, e, at) == ComputeHash(hash, prevHash, f, at)
  {
    e := Entry(None, "CREATE", "task", 1, "", "null", "{\"title\":\"a|b\"}");
    f := e.(oldValues := "null|{\"title\":\"a", newValues := "b\"}");
    assert "{\"title\":\"a" + "|" + "b\"}" == "{\"title\":\"a|b\"}";
    assert Values(e) == Values(f);
  }
}
