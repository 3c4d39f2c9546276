/**
  The token grammar of SQL text as the statement splitter understands it, and the
  cut of a text into pieces at the semicolons between tokens.
 */
module SqlGrammar {

  datatype Kind = Plain | LineComment | BlockComment | Quoted | Identifier | Dollar | Semicolon

  // ---------------------------------------------------------------- closers

  // The position after the first c from k on, or the end of s.
  function CharEnd(c: char, s: string, k: nat): (n: nat)
    requires k <= |s|
    ensures k <= n <= |s| && (k < |s| ==> k < n)
    decreases |s| - k
  {
    if k == |s| then k else if s[k] == c then k + 1 else CharEnd(c, s, k + 1)
  }

  // mark stands at position k of s.
  predicate MarkAt(mark: string, s: string, k: nat) {
    k + |mark| <= |s| && s[k..k + |mark|] == mark
  }

  // The position after the first mark from k on, or the end of s.
  function MarkEnd(mark: string, s: string, k: nat): (n: nat)
    requires k <= |s| && mark != ""
    ensures k <= n <= |s| && (k < |s| ==> k < n)
    decreases |s| - k
  {
    if k == |s| then k else if MarkAt(mark, s, k) then k + |mark| else MarkEnd(mark, s, k + 1)
  }

  // ---------------------------------------------------------------- dollar tags

  predicate TagStart(c: char) {
    c == '_' || 'a' <= c <= 'z' || 'A' <= c <= 'Z'
  }

  predicate Digit(c: char) {
    '0' <= c <= '9'
  }

  // A tag between two dollar signs: empty, or a name that does not start with a digit.
  predicate TagName(s: string) {
    (s != "" ==> !Digit(s[0])) && forall i :: 0 <= i < |s| ==> TagStart(s[i]) || Digit(s[i])
  }

  predicate IsTag(s: string) {
    |s| >= 2 && s[0] == '$' && s[|s| - 1] == '$' && TagName(s[1..|s| - 1])
  }

  // The position after the dollar sign that ends the tag name going on at k, 0 if
  // it is no tag; first says whether the name is still empty.
  function TagEnd(s: string, k: nat, first: bool): (n: nat)
    requires k <= |s|
    ensures n <= |s| && (n > 0 ==> k < n)
    decreases |s| - k
  {
    if k == |s| then 0
    else if s[k] == '$' then k + 1
    else if TagStart(s[k]) || (Digit(s[k]) && !first) then TagEnd(s, k + 1, false)
    else 0
  }

  // The position after the tag that begins at k, 0 if there is none.
  function TagAt(s: string, k: nat): (n: nat)
    requires k <= |s|
    ensures n <= |s| && (n > 0 ==> k + 2 <= n)
  {
    if |s| - k < 2 || s[k] != '$' then 0 else TagEnd(s, k + 1, true)
  }

  // ---------------------------------------------------------------- tokens

  predicate PairAt(s: string, k: nat, c: char, d: char) {
    k + 1 < |s| && s[k] == c && s[k + 1] == d
  }

  // The token that begins at k.
  function KindAt(s: string, k: nat): Kind
    requires k < |s|
  {
    if PairAt(s, k, '-', '-') then LineComment
    else if PairAt(s, k, '/', '*') then BlockComment
    else if s[k] == '\'' then Quoted
    else if s[k] == '"' then Identifier
    else if TagAt(s, k) > 0 then Dollar
    else if s[k] == ';' then Semicolon
    else Plain
  }

  // Where it ends. A block comment's closer may share the star of its opener.
  function TokenEnd(s: string, k: nat): (n: nat)
    requires k < |s|
    ensures k < n <= |s|
  {
    match KindAt(s, k)
    case LineComment => CharEnd('\n', s, k + 1)
    case BlockComment => MarkEnd("*/", s, k + 1)
    case Quoted => CharEnd('\'', s, k + 1)
    case Identifier => CharEnd('"', s, k + 1)
    case Dollar => MarkEnd(s[k..TagAt(s, k)], s, TagAt(s, k))
    case Semicolon => k + 1
    case Plain => k + 1
  }

  // ---------------------------------------------------------------- pieces

  // The first semicolon between tokens from the token boundary k on, or the end.
  function CutFrom(s: string, k: nat): (n: nat)
    requires k <= |s|
    ensures k <= n <= |s| && (n < |s| ==> s[n] == ';')
    decreases |s| - k, 1
  {
    if k == |s| || s[k] == ';' then k else CutPast(s, k)
  }

  // The same from the end of the token at k on.
  function CutPast(s: string, k: nat): (n: nat)
    requires k < |s|
    ensures k < n <= |s| && (n < |s| ==> s[n] == ';')
    decreases |s| - k, 0
  {
    CutFrom(s, TokenEnd(s, k))
  }

  function PiecesFrom(s: string, k: nat): (ps: seq<string>)
    requires k <= |s|
    ensures |ps| >= 1
    decreases |s| - k
  {
    var n := CutFrom(s, k);
    if n == |s| then [s[k..n]] else [s[k..n]] + PiecesFrom(s, n + 1)
  }

  // ---------------------------------------------------------------- statements

  // strings.TrimSpace, on ASCII.
  predicate Space(c: char) {
    c == ' ' || c == '\t' || c == '\n' || c == '\r' || c == '\U{0B}' || c == '\U{0C}'
  }

  // The first position from k on that is no space, or the end of s.
  function SkipSpace(s: string, k: nat): (n: nat)
    requires k <= |s|
    ensures k <= n <= |s|
    decreases |s| - k
  {
    if k == |s| || !Space(s[k]) then k else SkipSpace(s, k + 1)
  }

  // The end of s[..n] without its trailing spaces, not going below k.
  function DropSpace(s: string, k: nat, n: nat): (m: nat)
    requires k <= n <= |s|
    ensures k <= m <= n
  {
    if n == k || !Space(s[n - 1]) then n else DropSpace(s, k, n - 1)
  }

  function Trim(s: string): string {
    var k := SkipSpace(s, 0);
    s[k..DropSpace(s, k, |s|)]
  }

  // A trimmed piece, unless nothing is left of it.
  function Emit(piece: string): seq<string> {
    if Trim(piece) == "" then [] else [Trim(piece)]
  }

  function Trimmed(pieces: seq<string>): seq<string> {
    if pieces == [] then [] else Emit(pieces[0]) + Trimmed(pieces[1..])
  }

  function StatementsFrom(s: string, k: nat): seq<string>
    requires k <= |s|
  {
    Trimmed(PiecesFrom(s, k))
  }

  // The statements after the first piece from k on.
  function RestFrom(s: string, k: nat): seq<string>
    requires k <= |s|
  {
    var n := CutFrom(s, k);
    if n == |s| then [] else StatementsFrom(s, n + 1)
  }

  lemma StatementsStep(s: string, k: nat)
    requires k <= |s|
    ensures StatementsFrom(s, k) == Emit(s[k..CutFrom(s, k)]) + RestFrom(s, k)
  {
    var n := CutFrom(s, k);
    if n == |s| {
      assert PiecesFrom(s, k)[1..] == [] && Trimmed([]) == [];
    } else {
      assert PiecesFrom(s, k)[1..] == PiecesFrom(s, n + 1);
    }
    assert StatementsFrom(s, k) == Emit(s[k..n]) + Trimmed(PiecesFrom(s, k)[1..]);
  }

  function Statements(s: string): seq<string> {
    StatementsFrom(s, 0)
  }
}
