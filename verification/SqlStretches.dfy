/**
  What the statements of a text are: its stretches between the free semicolons, trimmed,
  in order, and nothing of the text lost but those semicolons and space.
 */
module SqlStretches {
  import opened SqlGrammar
  import opened SqlRoundTrip

  datatype Span = Span(start: nat, end: nat)

  // t is the text of the span: no space at its ends, and no cut in it.
  predicate Stretch(s: string, t: string, x: Span, cuts: seq<nat>) {
    && x.start < x.end <= |s| && t == s[x.start..x.end] && !Space(s[x.start]) && !Space(s[x.end - 1])
    && forall c :: c in cuts ==> !(x.start <= c < x.end)
  }

  predicate Within(spans: seq<Span>, j: nat) {
    exists i :: 0 <= i < |spans| && spans[i].start <= j < spans[i].end
  }

  predicate CutBetween(cuts: seq<nat>, x: Span, y: Span) {
    exists c :: c in cuts && x.end <= c < y.start
  }

  // The texts are the stretches between the cuts, in order. What is in none of them is
  // space or a cut.
  predicate Stretches(s: string, k: nat, cuts: seq<nat>, ts: seq<string>, spans: seq<Span>) {
    && |ts| == |spans|
    && (forall i :: 0 <= i < |ts| ==> k <= spans[i].start && Stretch(s, ts[i], spans[i], cuts))
    && (forall i, j :: 0 <= i < j < |ts| ==> CutBetween(cuts, spans[i], spans[j]))
    && (forall j :: k <= j < |s| ==> Within(spans, j) || Space(s[j]) || j in cuts)
  }

  // The spans of the texts in the piece s[k..n].
  predicate PieceSpans(s: string, k: nat, n: nat, ts: seq<string>, spans: seq<Span>) {
    && |spans| == |ts| <= 1
    && (forall i :: 0 <= i < |ts| ==> k <= spans[i].start && spans[i].end <= n && Stretch(s, ts[i], spans[i], []))
    && (forall j :: k <= j < n <= |s| ==> Within(spans, j) || Space(s[j]))
  }

  lemma PieceStretch(s: string, k: nat, n: nat) returns (spans: seq<Span>)
    requires k <= n <= |s|
    ensures PieceSpans(s, k, n, Emit(s[k..n]), spans)
  {
    var piece := s[k..n];
    var a, b := TrimFinds(piece);
    assert forall j :: k <= j < n ==> s[j] == piece[j - k];
    if Trim(piece) == "" {
      spans := [];
    } else {
      spans := [Span(k + a, k + b)];
      TrimIs(piece, a, b);
      SubSlice(s, k, n, a, b);
      forall j | k <= j < n ensures Within(spans, j) || Space(s[j]) {
        assert spans[0].start <= j < spans[0].end || Space(s[j]);
      }
    }
  }

  // A cut before the others.
  predicate FirstCut(n: nat, cuts: seq<nat>) {
    forall c :: c in cuts ==> n < c
  }

  // A text before the first cut, or one after it, is still free of cuts.
  lemma StretchWithFirst(s: string, t: string, x: Span, n: nat, cuts: seq<nat>)
    requires FirstCut(n, cuts)
    requires (x.end <= n && Stretch(s, t, x, [])) || (n < x.start && Stretch(s, t, x, cuts))
    ensures Stretch(s, t, x, [n] + cuts)
  {
  }

  lemma CutBetweenWithFirst(cuts: seq<nat>, x: Span, y: Span, n: nat)
    requires x.end <= n < y.start || CutBetween(cuts, x, y)
    ensures CutBetween([n] + cuts, x, y)
  {
    if x.end <= n < y.start {
      assert n in [n] + cuts;
    } else {
      var c :| c in cuts && x.end <= c < y.start;
      assert c in [n] + cuts;
    }
  }

  lemma WithinMore(xs: seq<Span>, ys: seq<Span>, j: nat)
    requires Within(xs, j) || Within(ys, j)
    ensures Within(xs + ys, j)
  {
    if Within(xs, j) {
      var i :| 0 <= i < |xs| && xs[i].start <= j < xs[i].end;
      assert (xs + ys)[i] == xs[i];
    } else {
      var i :| 0 <= i < |ys| && ys[i].start <= j < ys[i].end;
      assert (xs + ys)[|xs| + i] == ys[i];
    }
  }

  // The stretches of the first piece, and those of the pieces after its cut.
  lemma ConsStretches(s: string, k: nat, n: nat, us: seq<string>, xs: seq<Span>, cuts: seq<nat>, ts: seq<string>,
                      ys: seq<Span>)
    requires k <= n < |s| && PieceSpans(s, k, n, us, xs) && FirstCut(n, cuts)
    requires Stretches(s, n + 1, cuts, ts, ys)
    ensures Stretches(s, k, [n] + cuts, us + ts, xs + ys)
  {
    forall i | 0 <= i < |us + ts|
      ensures k <= (xs + ys)[i].start && Stretch(s, (us + ts)[i], (xs + ys)[i], [n] + cuts)
    {
      StretchWithFirst(s, (us + ts)[i], (xs + ys)[i], n, cuts);
    }
    forall i, j | 0 <= i < j < |us + ts| ensures CutBetween([n] + cuts, (xs + ys)[i], (xs + ys)[j]) {
      CutBetweenWithFirst(cuts, (xs + ys)[i], (xs + ys)[j], n);
    }
    forall j | k <= j < |s| ensures Within(xs + ys, j) || Space(s[j]) || j in [n] + cuts {
      if Within(xs, j) || Within(ys, j) {
        WithinMore(xs, ys, j);
      }
    }
  }

  lemma LastPiece(s: string, k: nat, spans: seq<Span>)
    requires k <= |s| && CutFrom(s, k) == |s| && PieceSpans(s, k, |s|, Emit(s[k..|s|]), spans)
    ensures StretchesAre(s, k, spans)
  {
    StatementsStep(s, k);
    assert RestFrom(s, k) == [] && CutsFrom(s, k) == [];
    assert StatementsFrom(s, k) == Emit(s[k..|s|]);
  }

  // A piece that is cut, and what follows.
  lemma NextPiece(s: string, k: nat, n: nat)
    requires k <= n < |s| && CutFrom(s, k) == n
    ensures CutsFrom(s, k) == [n] + CutsFrom(s, n + 1) && FirstCut(n, CutsFrom(s, n + 1))
    ensures StatementsFrom(s, k) == Emit(s[k..n]) + StatementsFrom(s, n + 1)
  {
    StatementsStep(s, k);
    assert RestFrom(s, k) == StatementsFrom(s, n + 1);
  }

  predicate StretchesAre(s: string, k: nat, spans: seq<Span>)
    requires k <= |s|
  {
    Stretches(s, k, CutsFrom(s, k), StatementsFrom(s, k), spans)
  }

  lemma NextStretches(s: string, k: nat, n: nat, xs: seq<Span>, ys: seq<Span>)
    requires k <= n < |s| && CutFrom(s, k) == n
    requires PieceSpans(s, k, n, Emit(s[k..n]), xs) && StretchesAre(s, n + 1, ys)
    ensures StretchesAre(s, k, xs + ys)
  {
    NextPiece(s, k, n);
    ConsStretches(s, k, n, Emit(s[k..n]), xs, CutsFrom(s, n + 1), StatementsFrom(s, n + 1), ys);
  }

  lemma {:induction false} StretchesFrom(s: string, k: nat) returns (spans: seq<Span>)
    requires k <= |s|
    ensures StretchesAre(s, k, spans)
    decreases |s| - k
  {
    var n := CutFrom(s, k);
    spans := PieceStretch(s, k, n);
    if n == |s| {
      LastPiece(s, k, spans);
    } else {
      var others := StretchesFrom(s, n + 1);
      NextStretches(s, k, n, spans, others);
      spans := spans + others;
    }
  }

  /** The statements are, in order, the stretches of the text between its free semicolons,
      without the space around them; nothing but space and those semicolons is left out. */
  lemma StatementsAreStretches(s: string) returns (spans: seq<Span>)
    ensures Stretches(s, 0, CutsFrom(s, 0), Statements(s), spans)
  {
    spans := StretchesFrom(s, 0);
  }
}
