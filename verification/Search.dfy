/**
  Title search: the escaped LIKE pattern that a listing builds from the search text,
  and what it finds under SQLite's LIKE with the escape character.
 */
module Search {

  // ---------------------------------------------------------------- SQLite's side

  // lower() and LIKE's case folding, on ASCII letters.
  function Fold(c: char): char {
    if 'A' <= c <= 'Z' then c - 'A' + 'a' else c
  }

  function Lower(s: string): (r: string)
    ensures |r| == |s|
  {
    if s == "" then "" else [Fold(s[0])] + Lower(s[1..])
  }

  // pattern matches text under LIKE ... ESCAPE '\'. An escape at the end of the
  // pattern matches nothing.
  predicate Like(pattern: string, text: string)
    decreases |pattern|, |text|
  {
    if pattern == "" then text == ""
    else if pattern[0] == '%' then Like(pattern[1..], text) || (text != "" && Like(pattern, text[1..]))
    else if pattern[0] == '\\' then
      |pattern| > 1 && text != "" && Fold(pattern[1]) == Fold(text[0]) && Like(pattern[2..], text[1..])
    else
      text != "" && (pattern[0] == '_' || Fold(pattern[0]) == Fold(text[0])) && Like(pattern[1..], text[1..])
  }

  // ---------------------------------------------------------------- the store's side

  predicate Special(c: char) {
    c == '\\' || c == '%' || c == '_'
  }

  function Escaped(s: string): string {
    if s == "" then ""
    else (if Special(s[0]) then ['\\', s[0]] else [s[0]]) + Escaped(s[1..])
  }

  lemma {:induction false} EscapedSnoc(s: string, c: char)
    ensures Escaped(s + [c]) == Escaped(s) + if Special(c) then ['\\', c] else [c]
  {
    if s == "" {
      assert s + [c] == [c] && [c][1..] == "";
    } else {
      assert (s + [c])[1..] == s[1..] + [c];
      EscapedSnoc(s[1..], c);
    }
  }

  method EscapeLike(s: string) returns (b: string)
    ensures b == Escaped(s)
  {
    b := "";
    for i := 0 to |s|
      invariant b == Escaped(s[..i])
    {
      var r := s[i];
      EscapedSnoc(s[..i], r);
      assert s[..i + 1] == s[..i] + [r];
      if r == '\\' || r == '%' || r == '_' {
        b := b + ['\\'];
      }
      b := b + [r];
    }
    assert s[..|s|] == s;
  }

  // The pattern of a listing, empty for one that searches nothing.
  function Pattern(search: string): string {
    if search != "" then "%" + Escaped(search) + "%" else ""
  }

  // The title condition of the listing's query.
  predicate TitleMatches(pattern: string, title: string) {
    pattern == "" || Like(Lower(pattern), Lower(title))
  }

  // ---------------------------------------------------------------- what it finds

  predicate Contains(text: string, part: string) {
    exists k: nat :: k <= |text| && part <= text[k..]
  }

  lemma FoldKeepsSpecials(c: char)
    ensures Special(Fold(c)) <==> Special(c)
    ensures Special(c) ==> Fold(c) == c
    ensures Fold(Fold(c)) == Fold(c)
  {
  }

  lemma {:induction false} LowerAppends(s: string, t: string)
    ensures Lower(s + t) == Lower(s) + Lower(t)
  {
    if s == "" {
      assert s + t == t;
    } else {
      assert (s + t)[1..] == s[1..] + t;
      LowerAppends(s[1..], t);
    }
  }

  // Folding and escaping commute.
  lemma {:induction false} LowerEscaped(s: string)
    ensures Lower(Escaped(s)) == Escaped(Lower(s))
  {
    if s != "" {
      FoldKeepsSpecials(s[0]);
      LowerEscaped(s[1..]);
      var first := if Special(s[0]) then ['\\', s[0]] else [s[0]];
      LowerAppends(first, Escaped(s[1..]));
      assert Lower(s)[0] == Fold(s[0]) && Lower(s)[1..] == Lower(s[1..]);
      assert Lower(first) == if Special(s[0]) then ['\\', s[0]] else [Fold(s[0])] by {
        assert first[1..] == if Special(s[0]) then [s[0]] else "";
        assert [s[0]][1..] == "";
      }
    }
  }

  // Text that folding leaves alone.
  predicate Folded(s: string) {
    forall i :: 0 <= i < |s| ==> Fold(s[i]) == s[i]
  }

  lemma {:induction false} LowerFolds(s: string)
    ensures Folded(Lower(s))
  {
    if s != "" {
      FoldKeepsSpecials(s[0]);
      LowerFolds(s[1..]);
    }
  }

  lemma {:induction false} PercentMatchesAll(text: string)
    ensures Like("%", text)
  {
    if text == "" {
      assert Like("%"[1..], text);
    } else {
      PercentMatchesAll(text[1..]);
    }
  }

  lemma EscapedStep(part: string)
    requires part != ""
    ensures var pattern, rest := Escaped(part) + "%", Escaped(part[1..]) + "%";
            if Special(part[0]) then |pattern| > 2 && pattern[..2] == ['\\', part[0]] && pattern[2..] == rest
            else pattern != "" && pattern[0] == part[0] && pattern[1..] == rest
  {
    var first := if Special(part[0]) then ['\\', part[0]] else [part[0]];
    var rest := Escaped(part[1..]) + "%";
    assert Escaped(part) + "%" == first + rest;
  }

  lemma PrefixStep(part: string, text: string)
    requires part != "" && text != ""
    ensures part <= text <==> part[0] == text[0] && part[1..] <= text[1..]
  {
    assert part == [part[0]] + part[1..] && text == [text[0]] + text[1..];
  }

  // An escaped text before a wildcard matches what starts with the text.
  lemma {:induction false} EscapedMatchesPrefix(part: string, text: string)
    requires Folded(part) && Folded(text)
    ensures Like(Escaped(part) + "%", text) <==> part <= text
  {
    if part == "" {
      assert Escaped(part) + "%" == "%";
      PercentMatchesAll(text);
    } else {
      EscapedStep(part);
      if text != "" {
        EscapedMatchesPrefix(part[1..], text[1..]);
        PrefixStep(part, text);
      }
    }
  }

  // With a wildcard before it as well, what contains it.
  lemma {:induction false} EscapedMatchesPart(part: string, text: string)
    requires Folded(part) && Folded(text)
    ensures Like("%" + Escaped(part) + "%", text) <==> Contains(text, part)
    decreases |text|
  {
    var pattern := "%" + Escaped(part) + "%";
    assert pattern[1..] == Escaped(part) + "%";
    EscapedMatchesPrefix(part, text);
    assert text[0..] == text;
    if text != "" {
      EscapedMatchesPart(part, text[1..]);
      if Contains(text[1..], part) {
        var k: nat :| k <= |text[1..]| && part <= text[1..][k..];
        assert text[1..][k..] == text[k + 1..];
      }
      if Contains(text, part) && !(part <= text) {
        var k: nat :| k <= |text| && part <= text[k..];
        assert text[1..][k - 1..] == text[k..];
      }
    }
  }

  lemma LowerPattern(search: string)
    requires search != ""
    ensures Lower(Pattern(search)) == "%" + Escaped(Lower(search)) + "%"
  {
    var e := Escaped(search);
    assert "%" + e + "%" == "%" + (e + "%");
    LowerAppends("%", e + "%");
    LowerAppends(e, "%");
    assert Lower("%") == "%";
    LowerEscaped(search);
  }

  // The same letter in either case, or the same character.
  predicate SameLetter(c: char, d: char) {
    || c == d
    || (65 <= c as int <= 90 && d as int == c as int + 32)
    || (65 <= d as int <= 90 && c as int == d as int + 32)
  }

  lemma FoldIsSameLetter(c: char, d: char)
    ensures Fold(c) == Fold(d) <==> SameLetter(c, d)
  {
  }

  lemma {:induction false} LowerAt(s: string, i: nat)
    requires i < |s|
    ensures Lower(s)[i] == Fold(s[i])
  {
    if i > 0 {
      LowerAt(s[1..], i - 1);
    }
  }

  // The search text stands at position k of the title, in either case of each letter.
  predicate StandsAt(title: string, search: string, k: nat) {
    k + |search| <= |title| && forall i :: 0 <= i < |search| ==> SameLetter(title[k + i], search[i])
  }

  lemma StandsAtIff(title: string, search: string, k: nat)
    requires k <= |title|
    ensures StandsAt(title, search, k) <==> Lower(search) <= Lower(title)[k..]
  {
    var part, rest := Lower(search), Lower(title)[k..];
    if k + |search| <= |title| {
      forall i | 0 <= i < |search| ensures part[i] == rest[i] <==> SameLetter(title[k + i], search[i]) {
        LowerAt(search, i);
        LowerAt(title, k + i);
        FoldIsSameLetter(title[k + i], search[i]);
      }
      assert part <= rest <==> forall i :: 0 <= i < |search| ==> part[i] == rest[i];
    }
  }

  /** A listing finds a title exactly if the search text, taken literally and in either case
      of its ASCII letters, stands somewhere in it. */
  lemma SearchFindsText(search: string, title: string)
    ensures TitleMatches(Pattern(search), title) <==> exists k: nat :: StandsAt(title, search, k)
  {
    SearchFindsParts(search, title);
    if Contains(Lower(title), Lower(search)) {
      var k: nat :| k <= |Lower(title)| && Lower(search) <= Lower(title)[k..];
      StandsAtIff(title, search, k);
    }
    if k: nat :| StandsAt(title, search, k) {
      StandsAtIff(title, search, k);
    }
  }

  /** A listing finds exactly the titles that contain the search text, in any case of
      their letters. */
  lemma SearchFindsParts(search: string, title: string)
    ensures TitleMatches(Pattern(search), title) <==> Contains(Lower(title), Lower(search))
  {
    if search == "" {
      assert Lower(search) <= Lower(title)[0..];
    } else {
      LowerPattern(search);
      LowerFolds(search);
      LowerFolds(title);
      EscapedMatchesPart(Lower(search), Lower(title));
    }
  }
}
