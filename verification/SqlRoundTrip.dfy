/**
  What the splitter's grammar promises: tokens are what their names say, pieces
  add up to the text and are cut at the semicolons outside every token, and
  splitting undoes joining.
 */
module SqlRoundTrip {
  import opened SqlGrammar

  // ---------------------------------------------------------------- closers and tags

  // n is just after the first c at or after k, or the end if there is none.
  predicate FirstAfter(c: char, s: string, k: nat, n: nat) {
    && k <= n <= |s|
    && (forall j :: k <= j < n - 1 ==> s[j] != c)
    && (n == |s| || k < n)
    && (k < n < |s| ==> s[n - 1] == c)
  }

  lemma {:induction false} CharEndIsFirst(c: char, s: string, k: nat)
    requires k <= |s|
    ensures FirstAfter(c, s, k, CharEnd(c, s, k))
    decreases |s| - k
  {
    if k < |s| && s[k] != c {
      CharEndIsFirst(c, s, k + 1);
    }
  }

  // n is just after the first mark at or after k, or the end if there is none.
  predicate FirstMark(mark: string, s: string, k: nat, n: nat) {
    && k <= n <= |s|
    && (forall j :: k <= j < n - |mark| ==> !MarkAt(mark, s, j))
    && ((k + |mark| <= n && MarkAt(mark, s, n - |mark|)) ||
        (n == |s| && forall j :: k <= j < |s| ==> !MarkAt(mark, s, j)))
  }

  lemma NotYetMark(mark: string, s: string, k: nat, n: nat)
    requires k < |s| && mark != "" && !MarkAt(mark, s, k) && FirstMark(mark, s, k + 1, n)
    ensures FirstMark(mark, s, k, n)
  {
  }

  lemma {:induction false} MarkEndIsFirst(mark: string, s: string, k: nat)
    requires k <= |s| && mark != ""
    ensures FirstMark(mark, s, k, MarkEnd(mark, s, k))
    decreases |s| - k
  {
    if k < |s| && !MarkAt(mark, s, k) {
      MarkEndIsFirst(mark, s, k + 1);
      NotYetMark(mark, s, k, MarkEnd(mark, s, k + 1));
    }
  }

  predicate TagChars(s: string, a: nat, b: nat)
    requires a <= b <= |s|
  {
    forall j :: a <= j < b ==> TagStart(s[j]) || Digit(s[j])
  }

  lemma {:induction false} TagEndIsName(s: string, k: nat, first: bool)
    requires k <= |s|
    ensures var n := TagEnd(s, k, first);
            n > 0 ==> s[n - 1] == '$' && TagChars(s, k, n - 1) && (first && k < n - 1 ==> !Digit(s[k]))
    decreases |s| - k
  {
    if k < |s| && s[k] != '$' && (TagStart(s[k]) || (Digit(s[k]) && !first)) {
      TagEndIsName(s, k + 1, false);
    }
  }

  lemma {:induction false} NameIsTagEnd(s: string, k: nat, m: nat, first: bool)
    requires k <= m < |s| && s[m] == '$' && TagChars(s, k, m) && (first && k < m ==> !Digit(s[k]))
    ensures TagEnd(s, k, first) == m + 1
    decreases m - k
  {
    if k < m {
      NameIsTagEnd(s, k + 1, m, false);
    }
  }

  lemma SubSlice(s: string, k: nat, n: nat, a: nat, b: nat)
    requires k <= n <= |s| && a <= b <= n - k
    ensures s[k..n][a..b] == s[k + a..k + b]
  {
    var x, y := s[k..n][a..b], s[k + a..k + b];
    assert |x| == |y| && forall i :: 0 <= i < |x| ==> x[i] == y[i];
  }

  // The name between the dollar signs of s[k..n].
  lemma TagParts(s: string, k: nat, n: nat)
    requires k + 2 <= n <= |s|
    ensures IsTag(s[k..n]) == (s[k] == '$' && s[n - 1] == '$' && TagName(s[k + 1..n - 1]))
  {
    SubSlice(s, k, n, 1, n - k - 1);
  }

  lemma TagNameParts(s: string, a: nat, b: nat)
    requires a <= b <= |s|
    ensures TagName(s[a..b]) <==> TagChars(s, a, b) && (a < b ==> !Digit(s[a]))
  {
    var name := s[a..b];
    assert forall j :: a <= j < b ==> s[j] == name[j - a];
  }

  /** A dollar tag is recognised exactly when one is there. */
  lemma TagAtIff(s: string, k: nat, n: nat)
    requires k + 2 <= n <= |s|
    ensures TagAt(s, k) == n <==> IsTag(s[k..n])
  {
    TagParts(s, k, n);
    TagNameParts(s, k + 1, n - 1);
    if TagAt(s, k) == n {
      TagEndIsName(s, k + 1, true);
    } else if IsTag(s[k..n]) {
      NameIsTagEnd(s, k + 1, n - 1, true);
    }
  }

  /** Tag names are made of ASCII letters, the underscore and, after the first, digits;
      the characters trimmed are the ASCII ones numbered 9 to 13, and 32. */
  lemma CharacterClasses(c: char)
    ensures TagStart(c) <==> c == '_' || (65 <= c as int <= 90) || (97 <= c as int <= 122)
    ensures Digit(c) <==> c in "0123456789"
    ensures Space(c) <==> 9 <= c as int <= 13 || c as int == 32
  {
    assert Space(c) ==> c as int in {9, 10, 11, 12, 13, 32};
  }

  // ---------------------------------------------------------------- token shapes

  predicate TagThrough(s: string, k: nat, m: int) {
    k + 2 <= m <= |s| && IsTag(s[k..m])
  }

  // A dollar tag begins at k.
  ghost predicate HasTag(s: string, k: nat) {
    exists m :: TagThrough(s, k, m)
  }

  // What opens a token other than a plain character.
  ghost predicate OpensAt(s: string, k: nat)
    requires k < |s|
  {
    || PairAt(s, k, '-', '-')
    || PairAt(s, k, '/', '*')
    || s[k] == '\''
    || s[k] == '"'
    || s[k] == ';'
    || HasTag(s, k)
  }

  // A token's text by its own definition. Only the last token of a text may be open.
  ghost predicate Shape(s: string, k: nat, n: nat, kind: Kind)
    requires k < |s|
  {
    match kind
    case LineComment => PairAt(s, k, '-', '-') && FirstAfter('\n', s, k + 1, n)
    case BlockComment => PairAt(s, k, '/', '*') && FirstMark("*/", s, k + 1, n)
    case Quoted => s[k] == '\'' && FirstAfter('\'', s, k + 1, n)
    case Identifier => s[k] == '"' && FirstAfter('"', s, k + 1, n)
    case Dollar => exists m :: TagThrough(s, k, m) && m <= n && FirstMark(s[k..m], s, m, n)
    case Semicolon => n == k + 1 && s[k] == ';'
    case Plain => n == k + 1 && !OpensAt(s, k)
  }

  lemma FirstAfterIsOne(c: char, s: string, k: nat, m: nat, n: nat)
    requires FirstAfter(c, s, k, m) && FirstAfter(c, s, k, n)
    ensures m == n
  {
  }

  lemma FirstMarkIsOne(mark: string, s: string, k: nat, m: nat, n: nat)
    requires mark != "" && FirstMark(mark, s, k, m) && FirstMark(mark, s, k, n)
    ensures m == n
  {
    assert m < n ==> m - |mark| < n - |mark|;
  }

  // A dollar tag is where one is recognised, just the one, and nothing else opens there.
  lemma TagOpens(s: string, k: nat)
    requires k < |s|
    ensures TagAt(s, k) > 0 <==> HasTag(s, k)
    ensures HasTag(s, k) ==> s[k] == '$'
  {
    if TagAt(s, k) > 0 {
      TagAtIff(s, k, TagAt(s, k));
      assert TagThrough(s, k, TagAt(s, k));
    }
    if m :| TagThrough(s, k, m) {
      TagIsOne(s, k, m);
    }
  }

  lemma TagIsOne(s: string, k: nat, m: int)
    requires TagThrough(s, k, m)
    ensures m == TagAt(s, k) > 0
  {
    TagAtIff(s, k, m);
  }

  /** Which token begins at a position is decided by the text there alone. */
  lemma KindIff(s: string, k: nat)
    requires k < |s|
    ensures KindAt(s, k) == Quoted <==> s[k] == '\''
    ensures KindAt(s, k) == Identifier <==> s[k] == '"'
    ensures KindAt(s, k) == Semicolon <==> s[k] == ';'
    ensures KindAt(s, k) == LineComment <==> k + 1 < |s| && s[k] == '-' && s[k + 1] == '-'
    ensures KindAt(s, k) == BlockComment <==> k + 1 < |s| && s[k] == '/' && s[k + 1] == '*'
    ensures KindAt(s, k) == Dollar <==> HasTag(s, k)
    ensures KindAt(s, k) == Plain <==> !OpensAt(s, k)
  {
    TagOpens(s, k);
  }

  lemma TokenHasShape(s: string, k: nat)
    requires k < |s|
    ensures Shape(s, k, TokenEnd(s, k), KindAt(s, k))
  {
    KindIff(s, k);
    match KindAt(s, k)
    case LineComment => CharEndIsFirst('\n', s, k + 1);
    case BlockComment => MarkEndIsFirst("*/", s, k + 1);
    case Quoted => CharEndIsFirst('\'', s, k + 1);
    case Identifier => CharEndIsFirst('"', s, k + 1);
    case Dollar => DollarShape(s, k);
    case _ =>
  }

  lemma DollarShape(s: string, k: nat)
    requires k < |s| && KindAt(s, k) == Dollar
    ensures Shape(s, k, TokenEnd(s, k), Dollar)
  {
    var m := TagAt(s, k);
    TagAtIff(s, k, m);
    MarkEndIsFirst(s[k..m], s, m);
    assert TagThrough(s, k, m);
  }

  lemma DollarIsOne(s: string, k: nat, n: nat)
    requires k < |s| && Shape(s, k, n, Dollar) && KindAt(s, k) == Dollar
    ensures n == TokenEnd(s, k)
  {
    var m :| TagThrough(s, k, m) && m <= n && FirstMark(s[k..m], s, m, n);
    TagIsOne(s, k, m);
    MarkEndIsFirst(s[k..m], s, m);
    FirstMarkIsOne(s[k..m], s, m, n, TokenEnd(s, k));
  }

  /** The token at a position is the one thing that has a shape there: every token is what
      its kind says it is, up to its first closer, and whatever has such a shape is the
      token. */
  lemma TokenShape(s: string, k: nat, n: nat, kind: Kind)
    requires k < |s|
    ensures Shape(s, k, n, kind) <==> kind == KindAt(s, k) && n == TokenEnd(s, k)
  {
    TokenHasShape(s, k);
    if Shape(s, k, n, kind) {
      KindIff(s, k);
      assert kind == KindAt(s, k);
      var e := TokenEnd(s, k);
      match kind
      case LineComment => FirstAfterIsOne('\n', s, k + 1, n, e);
      case BlockComment => FirstMarkIsOne("*/", s, k + 1, n, e);
      case Quoted => FirstAfterIsOne('\'', s, k + 1, n, e);
      case Identifier => FirstAfterIsOne('"', s, k + 1, n, e);
      case Dollar =>
        DollarIsOne(s, k, n);
      case _ =>
    }
  }

  // ---------------------------------------------------------------- pieces and cuts

  function Join(ps: seq<string>, sep: string): string {
    if ps == [] then "" else if |ps| == 1 then ps[0] else ps[0] + sep + Join(ps[1..], sep)
  }

  lemma JoinCons(p: string, ps: seq<string>, sep: string)
    requires ps != []
    ensures Join([p] + ps, sep) == p + sep + Join(ps, sep)
  {
    assert ([p] + ps)[1..] == ps;
  }

  lemma Reassemble(s: string, k: nat, n: nat, ps: seq<string>)
    requires k <= n < |s| && s[n] == ';' && ps != [] && Join(ps, ";") == s[n + 1..]
    ensures Join([s[k..n]] + ps, ";") == s[k..]
  {
    JoinCons(s[k..n], ps, ";");
    assert s[k..n] + ";" + s[n + 1..] == s[k..];
  }

  /** The untrimmed pieces, joined by semicolons, are the text. */
  lemma {:induction false} PiecesJoinToText(s: string, k: nat)
    requires k <= |s|
    ensures Join(PiecesFrom(s, k), ";") == s[k..]
    decreases |s| - k
  {
    var n := CutFrom(s, k);
    if n < |s| {
      PiecesJoinToText(s, n + 1);
      Reassemble(s, k, n, PiecesFrom(s, n + 1));
    }
  }

  // k starts a token of the text when tokens are read from e on.
  predicate StartsAt(s: string, e: nat, k: nat)
    decreases |s| - e
  {
    e == k || (e < k && e < |s| && StartsAt(s, TokenEnd(s, e), k))
  }

  // The semicolons the pieces from k on are cut at.
  function CutsFrom(s: string, k: nat): (cuts: seq<nat>)
    requires k <= |s|
    ensures forall i :: 0 <= i < |cuts| ==> k <= cuts[i] < |s|
    ensures forall i, j :: 0 <= i < j < |cuts| ==> cuts[i] < cuts[j]
    decreases |s| - k
  {
    var n := CutFrom(s, k);
    if n == |s| then [] else [n] + CutsFrom(s, n + 1)
  }

  // The text from k on, cut at these positions.
  function SliceAt(s: string, k: nat, cuts: seq<nat>): seq<string>
    requires k <= |s| && forall i :: 0 <= i < |cuts| ==> k <= cuts[i] < |s|
    requires forall i, j :: 0 <= i < j < |cuts| ==> cuts[i] < cuts[j]
    decreases |cuts|
  {
    if cuts == [] then [s[k..|s|]] else [s[k..cuts[0]]] + SliceAt(s, cuts[0] + 1, cuts[1..])
  }

  /** The pieces are the text sliced at the cuts. */
  lemma {:induction false} PiecesAreSlices(s: string, k: nat)
    requires k <= |s|
    ensures PiecesFrom(s, k) == SliceAt(s, k, CutsFrom(s, k))
    decreases |s| - k
  {
    var n := CutFrom(s, k);
    if n < |s| {
      PiecesAreSlices(s, n + 1);
      assert CutsFrom(s, k)[1..] == CutsFrom(s, n + 1);
    }
  }

  lemma {:induction false} StartsChain(s: string, a: nat, b: nat, k: nat)
    requires StartsAt(s, a, b) && StartsAt(s, b, k)
    ensures StartsAt(s, a, k)
    decreases |s| - a
  {
    if a < b {
      StartsChain(s, TokenEnd(s, a), b, k);
    }
  }

  // Reading from k finds its cut, and every token start before it is no semicolon.
  lemma {:induction false} CutIsStart(s: string, k: nat, j: nat)
    requires k <= |s|
    ensures StartsAt(s, k, CutFrom(s, k))
    ensures StartsAt(s, k, j) && j < CutFrom(s, k) ==> s[j] != ';'
    ensures StartsAt(s, k, j) && CutFrom(s, k) <= j ==> StartsAt(s, CutFrom(s, k), j)
    decreases |s| - k
  {
    if k < |s| && s[k] != ';' {
      var n := TokenEnd(s, k);
      assert CutFrom(s, k) == CutFrom(s, n);
      CutIsStart(s, n, j);
      assert StartsAt(s, k, j) && k != j ==> StartsAt(s, n, j);
    }
  }

  // The cuts are the semicolons that start a token.
  lemma {:induction false} CutsAreStarts(s: string, k: nat, j: nat)
    requires k <= |s|
    ensures j in CutsFrom(s, k) <==> j < |s| && s[j] == ';' && StartsAt(s, k, j)
    decreases |s| - k
  {
    var n := CutFrom(s, k);
    CutIsStart(s, k, j);
    if n < |s| {
      CutsAreStarts(s, n + 1, j);
      if j in CutsFrom(s, n + 1) {
        StartsChain(s, k, n, j);
      }
    }
  }

  // j lies in a token other than a semicolon.
  ghost predicate InsideToken(s: string, j: nat) {
    exists e: nat :: StartsAt(s, 0, e) && Covers(s, e, j) && KindAt(s, e) != Semicolon
  }

  predicate Covers(s: string, e: nat, j: nat) {
    e <= j && e < |s| && j < TokenEnd(s, e)
  }

  // Tokens do not overlap.
  lemma {:induction false} StartsDoNotOverlap(s: string, k: nat, e: nat, j: nat)
    requires StartsAt(s, k, e) && StartsAt(s, k, j) && e < j
    ensures e < |s| && TokenEnd(s, e) <= j
    decreases |s| - k
  {
    if k < e {
      StartsDoNotOverlap(s, TokenEnd(s, k), e, j);
    } else {
      StartsAfter(s, TokenEnd(s, e), j);
    }
  }

  lemma {:induction false} StartsAfter(s: string, k: nat, j: nat)
    requires StartsAt(s, k, j)
    ensures k <= j
  {
  }

  // Every character belongs to a token.
  lemma {:induction false} Covered(s: string, k: nat, j: nat) returns (e: nat)
    requires k <= j < |s|
    ensures StartsAt(s, k, e) && Covers(s, e, j)
    decreases |s| - k
  {
    if j < TokenEnd(s, k) {
      e := k;
    } else {
      e := Covered(s, TokenEnd(s, k), j);
      StartsAfter(s, TokenEnd(s, k), e);
    }
  }

  lemma SemicolonKind(s: string, e: nat)
    requires e < |s|
    ensures KindAt(s, e) == Semicolon <==> s[e] == ';'
    ensures s[e] == ';' ==> TokenEnd(s, e) == e + 1
  {
  }

  lemma StartIsFree(s: string, j: nat)
    requires j < |s| && s[j] == ';' && StartsAt(s, 0, j)
    ensures !InsideToken(s, j)
  {
    forall e: nat | StartsAt(s, 0, e) && Covers(s, e, j) ensures KindAt(s, e) == Semicolon {
      SemicolonKind(s, j);
      if e < j {
        StartsDoNotOverlap(s, 0, e, j);
      }
    }
  }

  lemma FreeIsStart(s: string, j: nat)
    requires j < |s| && !InsideToken(s, j)
    ensures StartsAt(s, 0, j)
  {
    var e := Covered(s, 0, j);
    SemicolonKind(s, e);
  }

  /** Cuts fall at exactly the semicolons outside every token. */
  lemma CutsAreFreeSemicolons(s: string, j: nat)
    ensures j in CutsFrom(s, 0) <==> j < |s| && s[j] == ';' && !InsideToken(s, j)
  {
    CutsAreStarts(s, 0, j);
    if j < |s| && s[j] == ';' {
      if StartsAt(s, 0, j) {
        StartIsFree(s, j);
      } else if !InsideToken(s, j) {
        FreeIsStart(s, j);
      }
    }
  }

  // ---------------------------------------------------------------- trimming

  predicate AllSpace(s: string, a: nat, b: nat)
    requires a <= b <= |s|
  {
    forall j :: a <= j < b ==> Space(s[j])
  }

  lemma {:induction false} SkipSpaceSkips(s: string, k: nat)
    requires k <= |s|
    ensures var n := SkipSpace(s, k);
            AllSpace(s, k, n) && (n < |s| ==> !Space(s[n]))
    decreases |s| - k
  {
    if k < |s| && Space(s[k]) {
      SkipSpaceSkips(s, k + 1);
    }
  }

  lemma {:induction false} DropSpaceDrops(s: string, k: nat, n: nat)
    requires k <= n <= |s|
    ensures var m := DropSpace(s, k, n);
            AllSpace(s, m, n) && (k < m ==> !Space(s[m - 1]))
  {
    if k < n && Space(s[n - 1]) {
      DropSpaceDrops(s, k, n - 1);
    }
  }

  // s[a..b] is what is left of s without the space around it.
  predicate TrimsTo(s: string, a: nat, b: nat) {
    a < b <= |s| && AllSpace(s, 0, a) && AllSpace(s, b, |s|) && !Space(s[a]) && !Space(s[b - 1])
  }

  /** Trimming leaves the text between the first and last non-space. */
  lemma TrimIs(s: string, a: nat, b: nat)
    requires TrimsTo(s, a, b)
    ensures Trim(s) == s[a..b] && Emit(s) == [s[a..b]]
  {
    SkipSpaceSkips(s, 0);
    var k := SkipSpace(s, 0);
    assert k == a;
    DropSpaceDrops(s, k, |s|);
    assert DropSpace(s, k, |s|) == b;
  }

  lemma TrimFinds(s: string) returns (a: nat, b: nat)
    ensures a <= b <= |s| && Trim(s) == s[a..b] && AllSpace(s, 0, a) && AllSpace(s, b, |s|)
    ensures Trim(s) != "" ==> TrimsTo(s, a, b)
    ensures Trim(s) == "" ==> AllSpace(s, 0, |s|)
  {
    SkipSpaceSkips(s, 0);
    a := SkipSpace(s, 0);
    DropSpaceDrops(s, a, |s|);
    b := DropSpace(s, a, |s|);
  }

  // ---------------------------------------------------------------- copied text

  // s' repeats s[k..e], d positions further on.
  predicate Copies(s: string, k: nat, e: nat, s': string, d: int) {
    k <= e <= |s| && 0 <= k + d && e + d <= |s'| && forall j :: k <= j < e ==> s[j] == s'[j + d]
  }

  // A character at which no token but a comment, string or quote goes on.
  predicate StopAt(s: string, k: nat) {
    k == |s| || (k < |s| && (Space(s[k]) || s[k] == ';'))
  }

  predicate FreeOf(c: char, s: string, k: nat, e: nat)
    requires k <= e <= |s|
  {
    forall j :: k <= j < e ==> s[j] != c
  }

  lemma {:induction false} CharEndCopy(c: char, s: string, k: nat, e: nat, s': string, d: int)
    requires Copies(s, k, e, s', d)
    ensures FreeOf(c, s, k, e) ==>
              CharEnd(c, s, k) == CharEnd(c, s, e) && CharEnd(c, s', k + d) == CharEnd(c, s', e + d)
    ensures !FreeOf(c, s, k, e) ==> CharEnd(c, s, k) <= e && CharEnd(c, s', k + d) == CharEnd(c, s, k) + d
    decreases e - k
  {
    if k < e && s[k] != c {
      CharEndCopy(c, s, k + 1, e, s', d);
    }
  }

  // A mark that a token may wait for: no space or semicolon in it.
  predicate SolidMark(mark: string) {
    mark != "" && forall i :: 0 <= i < |mark| ==> !Space(mark[i]) && mark[i] != ';'
  }

  lemma MarkStopsBefore(mark: string, s: string, j: nat, e: nat)
    requires SolidMark(mark) && j < e && StopAt(s, e) && MarkAt(mark, s, j)
    ensures j + |mark| <= e
  {
    forall i | 0 <= i < |mark| ensures s[j + i] == mark[i] {
      assert s[j..j + |mark|][i] == s[j + i];
    }
  }

  lemma MarkAtCopy(mark: string, s: string, j: nat, k: nat, e: nat, s': string, d: int)
    requires SolidMark(mark) && Copies(s, k, e, s', d) && k <= j < e && StopAt(s, e) && StopAt(s', e + d)
    ensures MarkAt(mark, s, j) <==> MarkAt(mark, s', j + d)
    ensures MarkAt(mark, s, j) ==> j + |mark| <= e
  {
    if MarkAt(mark, s, j) {
      MarkStopsBefore(mark, s, j, e);
      SliceCopy(s, k, e, s', d, j, j + |mark|);
    }
    if MarkAt(mark, s', j + d) {
      MarkStopsBefore(mark, s', j + d, e + d);
      SliceCopy(s, k, e, s', d, j, j + |mark|);
    }
  }

  lemma SliceCopy(s: string, k: nat, e: nat, s': string, d: int, a: nat, b: nat)
    requires Copies(s, k, e, s', d) && k <= a <= b <= e
    ensures s'[a + d..b + d] == s[a..b]
  {
    forall i | 0 <= i < b - a ensures s'[a + d..b + d][i] == s[a..b][i] {
      assert s[a + i] == s'[a + i + d];
    }
  }

  // Where a mark is waited for: found within the copy, or beyond it in both texts.
  lemma {:induction false} MarkEndCopy(mark: string, s: string, k: nat, e: nat, s': string, d: int)
    requires SolidMark(mark) && Copies(s, k, e, s', d) && StopAt(s, e) && StopAt(s', e + d)
    ensures var n := MarkEnd(mark, s, k);
            var n' := MarkEnd(mark, s', k + d);
            (n <= e && n' == n + d) || (n == MarkEnd(mark, s, e) && n' == MarkEnd(mark, s', e + d))
    decreases e - k
  {
    if k < e {
      MarkAtCopy(mark, s, k, k, e, s', d);
      if !MarkAt(mark, s, k) {
        MarkEndCopy(mark, s, k + 1, e, s', d);
      }
    }
  }

  lemma {:induction false} TagEndCopy(s: string, k: nat, e: nat, s': string, d: int, first: bool)
    requires Copies(s, k, e, s', d) && StopAt(s, e) && StopAt(s', e + d)
    ensures var n := TagEnd(s, k, first);
            && n <= e
            && TagEnd(s', k + d, first) == if n == 0 then 0 else n + d
    decreases e - k
  {
    if k < e && s[k] != '$' {
      TagEndCopy(s, k + 1, e, s', d, false);
    }
  }

  // The token that starts in the copy is the same in both texts.
  lemma KindCopy(s: string, k: nat, e: nat, s': string, d: int)
    requires Copies(s, k, e, s', d) && k < e && StopAt(s, e) && StopAt(s', e + d)
    ensures KindAt(s', k + d) == KindAt(s, k)
    ensures KindAt(s, k) in {LineComment, BlockComment} ==> k + 2 <= e
    ensures KindAt(s, k) == Dollar ==> TagAt(s, k) <= e && TagAt(s', k + d) == TagAt(s, k) + d
  {
    assert s[k] == s'[k + d];
    if k + 1 < e {
      assert s[k + 1] == s'[k + 1 + d];
    }
    if s[k] == '$' {
      TagEndCopy(s, k + 1, e, s', d, true);
    }
  }

  // What follows the copy: the end, or the join's separator.
  predicate Separated(s': string, q: nat) {
    q == |s'| || (q + 1 < |s'| && s'[q] == '\n' && s'[q + 1] == ';')
  }

  // s[e..c] is the space trimmed off a piece that is cut at c.
  predicate TrimmedTail(s: string, e: nat, c: nat) {
    e <= c <= |s| && AllSpace(s, e, c) && (c < |s| ==> s[c] == ';')
  }

  // The copy s[k..e] and what follows it in both texts. Only the last piece of a
  // text may be copied to the end of another without the piece's semicolon.
  predicate CopiedPiece(s: string, k: nat, e: nat, c: nat, s': string, d: int) {
    && Copies(s, k, e, s', d)
    && TrimmedTail(s, e, c)
    && Separated(s', e + d)
    && (e + d == |s'| || c < |s|)
  }

  // Where the copied token ends: in its place, or, if it reached into the trimmed
  // space, at the end or after the separator's newline.
  predicate EndsAlike(n: nat, n': nat, e: nat, s': string, d: int) {
    if n <= e then n' == n + d else if e + d == |s'| then n' == |s'| else n' == e + d + 1
  }

  lemma CommentEndsAlike(s: string, k: nat, e: nat, c: nat, s': string, d: int)
    requires CopiedPiece(s, k, e, c, s', d) && CharEnd('\n', s, k) <= c
    ensures EndsAlike(CharEnd('\n', s, k), CharEnd('\n', s', k + d), e, s', d)
  {
    CharEndCopy('\n', s, k, e, s', d);
  }

  lemma QuoteEndsAlike(q: char, s: string, k: nat, e: nat, c: nat, s': string, d: int)
    requires CopiedPiece(s, k, e, c, s', d) && CharEnd(q, s, k) <= c && !Space(q)
    ensures EndsAlike(CharEnd(q, s, k), CharEnd(q, s', k + d), e, s', d)
    ensures CharEnd(q, s, k) > e ==> e + d == |s'|
  {
    CharEndCopy(q, s, k, e, s', d);
    CharEndIsFirst(q, s, e);
  }

  lemma MarkEndsAlike(mark: string, s: string, k: nat, e: nat, c: nat, s': string, d: int)
    requires CopiedPiece(s, k, e, c, s', d) && SolidMark(mark) && MarkEnd(mark, s, k) <= c
    ensures EndsAlike(MarkEnd(mark, s, k), MarkEnd(mark, s', k + d), e, s', d)
    ensures MarkEnd(mark, s, k) > e ==> e + d == |s'|
  {
    MarkEndCopy(mark, s, k, e, s', d);
    var n := MarkEnd(mark, s, e);
    MarkEndIsFirst(mark, s, e);
    if n < |s| {
      assert s[n - |mark|..n - |mark| + |mark|][|mark| - 1] == s[n - 1];
    }
  }

  lemma TagIsSolid(s: string, k: nat)
    requires k < |s| && TagAt(s, k) > 0
    ensures SolidMark(s[k..TagAt(s, k)])
  {
    TagEndIsName(s, k + 1, true);
  }

  lemma ShorterCopy(s: string, k: nat, e: nat, c: nat, s': string, d: int, m: nat)
    requires CopiedPiece(s, k, e, c, s', d) && k <= m <= e
    ensures CopiedPiece(s, m, e, c, s', d)
  {
  }

  // The copied token ends alike, and only a line comment reaches past the separator.
  predicate TokenEndsAlike(s: string, k: nat, e: nat, s': string, d: int)
    requires k < |s| && 0 <= k + d < |s'|
  {
    && EndsAlike(TokenEnd(s, k), TokenEnd(s', k + d), e, s', d)
    && (TokenEnd(s, k) > e && e + d < |s'| ==> KindAt(s, k) == LineComment)
  }

  lemma BlockCopy(s: string, k: nat, e: nat, c: nat, s': string, d: int)
    requires CopiedPiece(s, k, e, c, s', d) && k < e && TokenEnd(s, k) <= c
    requires KindAt(s, k) == BlockComment == KindAt(s', k + d)
    ensures TokenEndsAlike(s, k, e, s', d)
  {
    ShorterCopy(s, k, e, c, s', d, k + 1);
    assert SolidMark("*/");
    MarkEndsAlike("*/", s, k + 1, e, c, s', d);
  }

  lemma DollarCopy(s: string, k: nat, e: nat, c: nat, s': string, d: int)
    requires CopiedPiece(s, k, e, c, s', d) && k < e && TokenEnd(s, k) <= c
    requires KindAt(s, k) == Dollar == KindAt(s', k + d)
    requires TagAt(s, k) <= e && TagAt(s', k + d) == TagAt(s, k) + d
    ensures TokenEndsAlike(s, k, e, s', d)
  {
    var m := TagAt(s, k);
    TagIsSolid(s, k);
    SliceCopy(s, k, e, s', d, k, m);
    ShorterCopy(s, k, e, c, s', d, m);
    MarkEndsAlike(s[k..m], s, m, e, c, s', d);
  }

  lemma SimpleCopy(s: string, k: nat, e: nat, c: nat, s': string, d: int)
    requires CopiedPiece(s, k, e, c, s', d) && k < e && TokenEnd(s, k) <= c
    requires KindAt(s, k) == KindAt(s', k + d)
    requires KindAt(s, k) != BlockComment && KindAt(s, k) != Dollar
    ensures TokenEndsAlike(s, k, e, s', d)
  {
    ShorterCopy(s, k, e, c, s', d, k + 1);
    match KindAt(s, k)
    case LineComment => CommentEndsAlike(s, k + 1, e, c, s', d);
    case Quoted => QuoteEndsAlike('\'', s, k + 1, e, c, s', d);
    case Identifier => QuoteEndsAlike('"', s, k + 1, e, c, s', d);
    case _ =>
  }

  lemma TokenCopy(s: string, k: nat, e: nat, c: nat, s': string, d: int)
    requires CopiedPiece(s, k, e, c, s', d) && k < e && TokenEnd(s, k) <= c
    ensures TokenEndsAlike(s, k, e, s', d)
  {
    KindCopy(s, k, e, s', d);
    if KindAt(s, k) == BlockComment {
      BlockCopy(s, k, e, c, s', d);
    } else if KindAt(s, k) == Dollar {
      DollarCopy(s, k, e, c, s', d);
    } else {
      SimpleCopy(s, k, e, c, s', d);
    }
  }

  /** A trimmed piece, copied, is cut where the copy ends: at the end of the text,
      or at the separator's semicolon. */
  lemma {:induction false} CutCopy(s: string, k: nat, e: nat, c: nat, s': string, d: int)
    requires CopiedPiece(s, k, e, c, s', d) && c == CutFrom(s, k)
    ensures CutFrom(s', k + d) == if e + d == |s'| then |s'| else e + d + 1
    decreases e - k
  {
    if k < e {
      var n := TokenEnd(s, k);
      assert s[k] == s'[k + d];
      TokenCopy(s, k, e, c, s', d);
      assert CutFrom(s, k) == CutFrom(s, n) && CutFrom(s', k + d) == CutFrom(s', TokenEnd(s', k + d));
      if n <= e {
        assert CopiedPiece(s, n, e, c, s', d);
        CutCopy(s, n, e, c, s', d);
      }
    } else if e + d < |s'| {
      assert TokenEnd(s', e + d) == e + d + 1;
    }
  }

  // ---------------------------------------------------------------- round trip

  const SEPARATOR := "\n;\n"

  // s[a..b] is the trimmed piece that starts at k and is cut at c.
  predicate PieceText(s: string, k: nat, c: nat, a: nat, b: nat) {
    && k <= a < b <= c <= |s|
    && AllSpace(s, k, a) && AllSpace(s, b, c)
    && !Space(s[a]) && !Space(s[b - 1])
  }

  // Space between tokens does not move the cut.
  lemma {:induction false} CutSkipsSpace(s: string, k: nat, a: nat)
    requires k <= a <= |s| && AllSpace(s, k, a)
    ensures CutFrom(s, k) == CutFrom(s, a)
    decreases a - k
  {
    if k < a {
      assert KindAt(s, k) == Plain;
      CutSkipsSpace(s, k + 1, a);
    }
  }

  lemma BlankTrims(s: string)
    requires AllSpace(s, 0, |s|)
    ensures Trim(s) == ""
  {
    SkipSpaceSkips(s, 0);
  }

  lemma EmitSkipsSpace(piece: string)
    requires piece != "" && Space(piece[0])
    ensures Emit(piece) == Emit(piece[1..])
  {
    var rest := piece[1..];
    var a, b := TrimFinds(rest);
    if Trim(rest) != "" {
      assert TrimsTo(piece, a + 1, b + 1);
      TrimIs(piece, a + 1, b + 1);
      TrimIs(rest, a, b);
      assert rest[a..b] == piece[a + 1..b + 1];
    } else {
      assert forall j :: 1 <= j < |piece| ==> piece[j] == rest[j - 1];
      BlankTrims(piece);
    }
  }

  lemma PieceSkipsSpace(s: string, k: nat, n: nat)
    requires k < n <= |s| && Space(s[k])
    ensures Emit(s[k..n]) == Emit(s[k + 1..n])
  {
    EmitSkipsSpace(s[k..n]);
    assert s[k..n][1..] == s[k + 1..n];
  }

  lemma StatementsSkipSpace(s: string, k: nat)
    requires k < |s| && Space(s[k])
    ensures StatementsFrom(s, k) == StatementsFrom(s, k + 1)
  {
    CutSkipsSpace(s, k, k + 1);
    PieceSkipsSpace(s, k, CutFrom(s, k));
    StatementsStep(s, k);
    StatementsStep(s, k + 1);
  }

  lemma CopiesFromSlice(s: string, a: nat, b: nat, s': string, j: nat)
    requires a <= b <= |s| && j + (b - a) <= |s'| && s'[j..j + (b - a)] == s[a..b]
    ensures Copies(s, a, b, s', j - a)
  {
    forall i | a <= i < b ensures s[i] == s'[i + (j - a)] {
      assert s[a..b][i - a] == s'[j..j + (b - a)][i - a];
    }
  }

  // The cut after a copied statement, at the end of a text or before a separator.
  lemma CutAfterCopy(s: string, k: nat, c: nat, a: nat, b: nat, s': string, j: nat)
    requires PieceText(s, k, c, a, b) && c == CutFrom(s, k)
    requires Copies(s, a, b, s', j - a) && Separated(s', j + (b - a))
    requires j + (b - a) == |s'| || c < |s|
    ensures CutFrom(s', j) == if j + (b - a) == |s'| then |s'| else j + (b - a) + 1
  {
    CutSkipsSpace(s, k, a);
    CutCopy(s, a, b, c, s', j - a);
  }

  // A statement alone at the end of a text is one statement.
  lemma LastStatement(s: string, k: nat, c: nat, a: nat, b: nat, s': string, j: nat)
    requires PieceText(s, k, c, a, b) && c == CutFrom(s, k)
    requires j <= |s'| && s'[j..] == s[a..b]
    ensures StatementsFrom(s', j) == [s[a..b]]
  {
    assert |s'[j..]| == b - a;
    assert s'[j..j + (b - a)] == s'[j..];
    CopiesFromSlice(s, a, b, s', j);
    CutAfterCopy(s, k, c, a, b, s', j);
    TextIsTrim(s, k, c, a, b);
    var t := s[a..b];
    TrimIs(t, 0, |t|);
    assert s'[j..|s'|] == t && t[0..|t|] == t;
    StatementsStep(s', j);
  }

  lemma CutOfCopy(s: string, k: nat, c: nat, a: nat, b: nat, s': string, j: nat)
    requires PieceText(s, k, c, a, b) && c == CutFrom(s, k) && c < |s|
    requires j + (b - a) < |s'| && s'[j..j + (b - a)] == s[a..b] && Separated(s', j + (b - a))
    ensures CutFrom(s', j) == j + (b - a) + 1
  {
    CopiesFromSlice(s, a, b, s', j);
    CutAfterCopy(s, k, c, a, b, s', j);
  }

  lemma TextIsTrim(s: string, k: nat, c: nat, a: nat, b: nat)
    requires PieceText(s, k, c, a, b)
    ensures var t := s[a..b]; t != "" && !Space(t[0]) && !Space(t[|t| - 1])
  {
    var t := s[a..b];
    assert t[0] == s[a] && t[|t| - 1] == s[b - 1];
  }

  lemma CutBeforeSeparator(s: string, j: nat, t: string)
    requires j + |t| + 3 <= |s| && s[j..j + |t|] == t && s[j + |t|] == s[j + |t| + 2] == '\n'
    requires t != "" && !Space(t[0]) && !Space(t[|t| - 1])
    requires CutFrom(s, j) == j + |t| + 1
    ensures StatementsFrom(s, j) == [t] + StatementsFrom(s, j + |t| + 3)
  {
    PieceBeforeSeparator(s, j, t);
    StatementsSkipSpace(s, j + |t| + 2);
    FirstStatement(s, j, j + |t| + 1, t, StatementsFrom(s, j + |t| + 3));
  }

  lemma FirstStatement(s: string, k: nat, n: nat, t: string, more: seq<string>)
    requires k <= n < |s| && n == CutFrom(s, k) && Emit(s[k..n]) == [t] && more == StatementsFrom(s, n + 1)
    ensures StatementsFrom(s, k) == [t] + more
  {
    StatementsStep(s, k);
    assert RestFrom(s, k) == more;
  }

  lemma SeparatorAt(s: string, j: nat, t: string, tail: string)
    requires j <= |s| && s[j..] == t + SEPARATOR + tail
    ensures j + |t| + 3 <= |s| && s[j..j + |t|] == t && s[j + |t| + 3..] == tail
    ensures Separated(s, j + |t|) && s[j + |t|] == s[j + |t| + 2] == '\n'
  {
    var u := s[j..];
    assert |u| == |t| + 3 + |tail|;
    SubSlice(s, j, |s|, 0, |t|);
    assert u[..|t|] == t;
    assert u[|t|..|t| + 3] == SEPARATOR;
    SubSlice(s, j, |s|, |t|, |t| + 3);
    assert u[|t| + 3..] == tail;
    assert s[j + |t|..j + |t| + 3][0] == '\n' && s[j + |t|..j + |t| + 3][1] == ';';
    assert s[j + |t|..j + |t| + 3][2] == '\n';
  }

  lemma PieceBeforeSeparator(s: string, j: nat, t: string)
    requires j + |t| < |s| && s[j..j + |t|] == t && s[j + |t|] == '\n'
    requires t != "" && !Space(t[0]) && !Space(t[|t| - 1])
    ensures Emit(s[j..j + |t| + 1]) == [t]
  {
    var piece := s[j..j + |t| + 1];
    assert piece == t + "\n";
    TrimIs(piece, 0, |t|);
  }

  // Where a piece's statement is, if it has one.
  lemma PieceFinds(s: string, k: nat, c: nat) returns (a: nat, b: nat)
    requires k <= c <= |s|
    ensures Emit(s[k..c]) == [] || (PieceText(s, k, c, a, b) && Emit(s[k..c]) == [s[a..b]])
  {
    var piece := s[k..c];
    var a0, b0 := TrimFinds(piece);
    a, b := k + a0, k + b0;
    if Trim(piece) != "" {
      SubSlice(s, k, c, a0, b0);
      assert forall j :: k <= j < c ==> s[j] == piece[j - k];
    }
  }

  lemma NoStatements(s: string)
    ensures StatementsFrom(s, |s|) == []
  {
    StatementsStep(s, |s|);
    BlankTrims("");
    assert s[|s|..|s|] == "";
  }

  // The only one of joined statements.
  lemma OnlyJoined(s: string, k: nat, s': string, j: nat)
    requires k <= |s| && j <= |s'| && Emit(s[k..CutFrom(s, k)]) == [s'[j..]]
    ensures StatementsFrom(s', j) == [s'[j..]]
  {
    var c := CutFrom(s, k);
    var a, b := PieceFinds(s, k, c);
    LastStatement(s, k, c, a, b, s', j);
  }

  // A copied statement is cut before the separator.
  lemma CopyIsCut(s: string, k: nat, t: string, s': string, j: nat)
    requires k <= |s| && CutFrom(s, k) < |s| && Emit(s[k..CutFrom(s, k)]) == [t]
    requires j + |t| < |s'| && s'[j..j + |t|] == t && Separated(s', j + |t|)
    ensures CutFrom(s', j) == j + |t| + 1 && t != "" && !Space(t[0]) && !Space(t[|t| - 1])
  {
    var c := CutFrom(s, k);
    var a, b := PieceFinds(s, k, c);
    CutOfCopy(s, k, c, a, b, s', j);
    TextIsTrim(s, k, c, a, b);
  }

  lemma CopyIsFirst(s: string, k: nat, t: string, s': string, j: nat)
    requires k <= |s| && CutFrom(s, k) < |s| && Emit(s[k..CutFrom(s, k)]) == [t]
    requires j + |t| + 3 <= |s'| && s'[j..j + |t|] == t && Separated(s', j + |t|)
    requires s'[j + |t|] == s'[j + |t| + 2] == '\n'
    ensures StatementsFrom(s', j) == [t] + StatementsFrom(s', j + |t| + 3)
  {
    CopyIsCut(s, k, t, s', j);
    CutBeforeSeparator(s', j, t);
  }

  lemma JoinedParts(t: string, rest: seq<string>, s: string, j: nat)
    requires rest != [] && j <= |s| && s[j..] == Join([t] + rest, SEPARATOR)
    ensures j + |t| + 3 <= |s| && s[j..j + |t|] == t && s[j + |t| + 3..] == Join(rest, SEPARATOR)
    ensures Separated(s, j + |t|) && s[j + |t|] == s[j + |t| + 2] == '\n'
  {
    JoinCons(t, rest, SEPARATOR);
    SeparatorAt(s, j, t, Join(rest, SEPARATOR));
  }

  // The first of joined statements, and where the others begin.
  lemma FirstJoined(s: string, k: nat, t: string, rest: seq<string>, s': string, j: nat) returns (next: nat)
    requires k <= |s| && CutFrom(s, k) < |s| && Emit(s[k..CutFrom(s, k)]) == [t] && rest != []
    requires j <= |s'| && s'[j..] == Join([t] + rest, SEPARATOR)
    ensures next <= |s'| && s'[next..] == Join(rest, SEPARATOR)
    ensures StatementsFrom(s', j) == [t] + StatementsFrom(s', next)
  {
    JoinedParts(t, rest, s', j);
    CopyIsFirst(s, k, t, s', j);
    next := j + |t| + 3;
  }

  // A piece without a statement adds nothing.
  lemma EmptyPiece(s: string, k: nat)
    requires k <= |s| && Emit(s[k..CutFrom(s, k)]) == []
    ensures StatementsFrom(s, k) == RestFrom(s, k)
  {
    StatementsStep(s, k);
  }

  lemma FullPiece(s: string, k: nat) returns (t: string)
    requires k <= |s| && Emit(s[k..CutFrom(s, k)]) != []
    ensures Emit(s[k..CutFrom(s, k)]) == [t] && StatementsFrom(s, k) == [t] + RestFrom(s, k)
  {
    t := Trim(s[k..CutFrom(s, k)]);
    StatementsStep(s, k);
  }

  // Joined statements, wherever they end a text, split into themselves.
  lemma {:induction false} JoinedStatements(s: string, k: nat, s': string, j: nat)
    requires k <= |s| && j <= |s'| && s'[j..] == Join(StatementsFrom(s, k), SEPARATOR)
    ensures StatementsFrom(s', j) == StatementsFrom(s, k)
    decreases |s| - k
  {
    var c := CutFrom(s, k);
    if Emit(s[k..c]) == [] {
      EmptyPiece(s, k);
      if c == |s| {
        NoStatements(s');
      } else {
        JoinedStatements(s, c + 1, s', j);
      }
    } else {
      var t := FullPiece(s, k);
      if RestFrom(s, k) == [] {
        assert s'[j..] == t;
        OnlyJoined(s, k, s', j);
      } else {
        var next := FirstJoined(s, k, t, RestFrom(s, k), s', j);
        JoinedStatements(s, c + 1, s', next);
      }
    }
  }

  /** Splitting undoes joining: statements joined by separators split into the
      same statements. */
  lemma JoinSplits(s: string)
    ensures Statements(Join(Statements(s), SEPARATOR)) == Statements(s)
  {
    var s' := Join(Statements(s), SEPARATOR);
    assert s'[0..] == s';
    JoinedStatements(s, 0, s', 0);
  }

  lemma EmittedIsOne(s: string, k: nat, t: string)
    requires k <= |s| && Emit(s[k..CutFrom(s, k)]) == [t]
    ensures Statements(t) == [t]
  {
    assert t[0..] == t;
    OnlyJoined(s, k, t, 0);
  }

  // A statement is the first one, or one of the others.
  lemma StatementAt(s: string, k: nat, t: string)
    requires k <= |s| && t in StatementsFrom(s, k)
    ensures Emit(s[k..CutFrom(s, k)]) == [t] || t in RestFrom(s, k)
  {
    StatementsStep(s, k);
    var first, rest := Emit(s[k..CutFrom(s, k)]), RestFrom(s, k);
    assert t in first + rest;
  }

  lemma {:induction false} StatementFromIsOne(s: string, k: nat, t: string)
    requires k <= |s| && t in StatementsFrom(s, k)
    ensures Statements(t) == [t]
    decreases |s| - k
  {
    StatementAt(s, k, t);
    if Emit(s[k..CutFrom(s, k)]) == [t] {
      EmittedIsOne(s, k, t);
    } else {
      StatementFromIsOne(s, CutFrom(s, k) + 1, t);
    }
  }

  /** Every statement splits into itself. */
  lemma StatementIsOne(s: string, t: string)
    requires t in Statements(s)
    ensures Statements(t) == [t]
  {
    StatementFromIsOne(s, 0, t);
  }
}
