/** SplitSQLStatements and scanDollarTag, proved against the token grammar. */
module SqlSplit {
  import opened SqlGrammar

  lemma {:induction false} TagEndShift(s: string, i: nat, k: nat, first: bool)
    requires i + k <= |s|
    ensures TagEnd(s, i + k, first) == if TagEnd(s[i..], k, first) == 0 then 0 else i + TagEnd(s[i..], k, first)
    decreases |s| - k
  {
    if i + k < |s| {
      assert s[i..][k] == s[i + k];
      TagEndShift(s, i, k + 1, false);
    }
  }

  method ScanDollarTag(s: string) returns (tag: string, n: nat)
    ensures n == TagAt(s, 0) && tag == s[..n]
  {
    if |s| < 2 || s[0] != '$' {
      return "", 0;
    }
    var first := true;
    var i := 1;
    while i < |s|
      invariant 1 <= i <= |s|
      invariant TagAt(s, 0) == TagEnd(s, i, first)
    {
      var c := s[i];
      if c == '$' {
        return s[..i + 1], i + 1;
      } else if c == '_' || ('a' <= c <= 'z') || ('A' <= c <= 'Z') {
        first := false;
      } else if '0' <= c <= '9' {
        if first {
          return "", 0;
        }
      } else {
        return "", 0;
      }
      i := i + 1;
    }
    return "", 0;
  }

  // The splitter's five mode variables.
  datatype Flags = Flags(line: bool, block: bool, quote: bool, ident: bool, dollar: string)

  const NO_FLAGS := Flags(false, false, false, false, "")

  predicate AtMostOne(f: Flags) {
    && (f.line ==> f == NO_FLAGS.(line := true))
    && (f.block ==> f == NO_FLAGS.(block := true))
    && (f.quote ==> f == NO_FLAGS.(quote := true))
    && (f.ident ==> f == NO_FLAGS.(ident := true))
  }

  // Where the open token ends.
  function OpenEnd(f: Flags, s: string, k: nat): (n: nat)
    requires k <= |s|
    ensures k <= n <= |s|
    ensures f == NO_FLAGS ==> n == k
    ensures f != NO_FLAGS && k < |s| ==> k < n
  {
    if f.line then CharEnd('\n', s, k)
    else if f.block then MarkEnd("*/", s, k)
    else if f.quote then CharEnd('\'', s, k)
    else if f.ident then CharEnd('"', s, k)
    else if f.dollar != "" then MarkEnd(f.dollar, s, k)
    else k
  }

  // One turn of the loop inside a token: reads sql[i..next].
  method ReadInside(sql: string, i: nat, f: Flags) returns (read: string, next: nat, f': Flags)
    requires i < |sql| && AtMostOne(f) && f != NO_FLAGS
    ensures i < next <= |sql| && read == sql[i..next] && AtMostOne(f')
    ensures OpenEnd(f', sql, next) == OpenEnd(f, sql, i)
  {
    var c := sql[i];
    read, next, f' := [c], i + 1, f;
    if f.line {
      if c == '\n' {
        f' := f'.(line := false);
      }
    } else if f.block {
      assert MarkAt("*/", sql, i) <==> i + 1 < |sql| && c == '*' && sql[i + 1] == '/';
      if c == '*' && i + 1 < |sql| && sql[i + 1] == '/' {
        read := read + "/";
        next := next + 1;
        f' := f'.(block := false);
      }
    } else if f.quote {
      if c == '\'' {
        f' := f'.(quote := false);
      }
    } else if f.ident {
      if c == '"' {
        f' := f'.(ident := false);
      }
    } else if f.dollar <= sql[i..] {
      assert sql[i..i + |f.dollar|] == f.dollar;
      read := f.dollar;
      next := i + |f.dollar|;
      f' := f'.(dollar := "");
    }
  }

  // One turn of the loop between tokens, at anything but a semicolon.
  method ReadOpening(sql: string, i: nat) returns (read: string, next: nat, f: Flags)
    requires i < |sql| && sql[i] != ';'
    ensures i < next <= |sql| && read == sql[i..next] && AtMostOne(f)
    ensures OpenEnd(f, sql, next) == TokenEnd(sql, i)
  {
    var c := sql[i];
    read, next, f := [c], i + 1, NO_FLAGS;
    if c == '-' && i + 1 < |sql| && sql[i + 1] == '-' {
      f := f.(line := true);
    } else if c == '/' && i + 1 < |sql| && sql[i + 1] == '*' {
      f := f.(block := true);
    } else if c == '\'' {
      f := f.(quote := true);
    } else if c == '"' {
      f := f.(ident := true);
    } else if c == '$' {
      var tag, n := ScanDollarTag(sql[i..]);
      if i + 1 < |sql| {
        TagEndShift(sql, i, 1, true);
      }
      if n > 0 {
        read, next := tag, i + n;
        f := f.(dollar := tag);
        assert tag == sql[i..next];
      }
    }
  }

  // The splitting loop's invariant: out and the statements from start on make up
  // the whole, and the piece from start is read into cur up to i, inside the token
  // that f says is open.
  ghost predicate OnTrack(sql: string, i: nat, out: seq<string>, cur: string, f: Flags, start: nat) {
    && start <= i <= |sql|
    && cur == sql[start..i]
    && AtMostOne(f)
    && CutFrom(sql, start) == CutFrom(sql, OpenEnd(f, sql, i))
    && StatementsFrom(sql, 0) == out + StatementsFrom(sql, start)
  }

  lemma Glue(s: string, a: nat, b: nat, c: nat)
    requires a <= b <= c <= |s|
    ensures s[a..b] + s[b..c] == s[a..c]
  {
  }

  method TurnInside(sql: string, i: nat, cur: string, f: Flags, ghost out: seq<string>, ghost start: nat)
    returns (next: nat, cur': string, f': Flags)
    requires i < |sql| && f != NO_FLAGS && OnTrack(sql, i, out, cur, f, start)
    ensures i < next && OnTrack(sql, next, out, cur', f', start)
  {
    var read;
    read, next, f' := ReadInside(sql, i, f);
    cur' := cur + read;
    Glue(sql, start, i, next);
  }

  method TurnBetween(sql: string, i: nat, cur: string, ghost out: seq<string>, ghost start: nat)
    returns (next: nat, cur': string, f': Flags)
    requires i < |sql| && sql[i] != ';' && OnTrack(sql, i, out, cur, NO_FLAGS, start)
    ensures i < next && OnTrack(sql, next, out, cur', f', start)
  {
    var read;
    read, next, f' := ReadOpening(sql, i);
    cur' := cur + read;
    assert CutFrom(sql, i) == CutFrom(sql, TokenEnd(sql, i));
    Glue(sql, start, i, next);
  }

  method AppendTrimmed(out: seq<string>, cur: string) returns (out': seq<string>)
    ensures out' == out + Emit(cur)
  {
    out' := out;
    var s := Trim(cur);
    if s != "" {
      out' := out' + [s];
    }
  }

  lemma Assoc(a: seq<string>, b: seq<string>, c: seq<string>)
    ensures a + (b + c) == a + b + c
  {
  }

  lemma PieceCut(sql: string, start: nat, i: nat)
    requires start <= i < |sql| && sql[i] == ';' && CutFrom(sql, start) == CutFrom(sql, i)
    ensures StatementsFrom(sql, start) == Emit(sql[start..i]) + StatementsFrom(sql, i + 1)
  {
    StatementsStep(sql, start);
  }

  method TurnSemicolon(ghost sql: string, ghost i: nat, cur: string, out: seq<string>, ghost start: nat)
    returns (out': seq<string>)
    requires i < |sql| && sql[i] == ';' && OnTrack(sql, i, out, cur, NO_FLAGS, start)
    ensures OnTrack(sql, i + 1, out', "", NO_FLAGS, i + 1)
  {
    PieceCut(sql, start, i);
    Assoc(out, Emit(cur), StatementsFrom(sql, i + 1));
    out' := AppendTrimmed(out, cur);
  }

  method Finish(ghost sql: string, cur: string, f: Flags, out: seq<string>, ghost start: nat)
    returns (out': seq<string>)
    requires OnTrack(sql, |sql|, out, cur, f, start)
    ensures out' == Statements(sql)
  {
    StatementsStep(sql, start);
    out' := AppendTrimmed(out, cur);
  }

  /** The splitter computes the statements of the token grammar, with at most one
      of its five modes ever on. */
  method SplitSQLStatements(sql: string) returns (out: seq<string>)
    ensures out == Statements(sql)
  {
    out := [];
    var cur := "";
    var f := NO_FLAGS;
    var i: nat := 0;
    ghost var start: nat := 0;
    while i < |sql|
      invariant OnTrack(sql, i, out, cur, f, start)
      decreases |sql| - i
    {
      if f != NO_FLAGS {
        i, cur, f := TurnInside(sql, i, cur, f, out, start);
      } else if sql[i] != ';' {
        i, cur, f := TurnBetween(sql, i, cur, out, start);
      } else {
        out := TurnSemicolon(sql, i, cur, out, start);
        cur := "";
        i := i + 1;
        start := i;
      }
    }
    out := Finish(sql, cur, f, out, start);
  }
}
