// countNonEmptyLines of internal/configure/service.go, against "split the text, then count".

module LineCounter {
  predicate IsBreak(c: char) {
    c == '\n' || c == '\r'
  }

  /** A line counts when it holds a character other than a space or a tab. */
  ghost predicate Counts(line: string) {
    exists i | 0 <= i < |line| :: line[i] != ' ' && line[i] != '\t'
  }

  /** The text cut at every line break. */
  ghost function Pieces(text: string): (r: seq<string>)
    ensures |r| > 0
  {
    if text == "" then [""]
    else
      var n := |text| - 1;
      var before := Pieces(text[..n]);
      if IsBreak(text[n]) then before + [""] else Grow(before, text[n])
  }

  /** The last piece one character longer. */
  ghost function Grow(pieces: seq<string>, c: char): seq<string>
    requires |pieces| > 0
  {
    pieces[|pieces| - 1 := pieces[|pieces| - 1] + [c]]
  }

  /** How many pieces count. */
  ghost function Tally(pieces: seq<string>): nat {
    if pieces == [] then 0
    else Tally(pieces[..|pieces| - 1]) + if Counts(pieces[|pieces| - 1]) then 1 else 0
  }

  ghost function NonEmptyLines(text: string): nat {
    Tally(Pieces(text))
  }

  /** Breaks put back between the pieces. */
  ghost function Weave(pieces: seq<string>, breaks: string): string
    requires |pieces| == |breaks| + 1
  {
    var n := |breaks|;
    if n == 0 then pieces[0] else Weave(pieces[..n], breaks[..n - 1]) + [breaks[n - 1]] + pieces[n]
  }

  ghost predicate Unbroken(piece: string) {
    forall i | 0 <= i < |piece| :: !IsBreak(piece[i])
  }

  lemma {:induction false} PiecesExtend(text: string, tail: string)
    requires Unbroken(tail)
    ensures var p := Pieces(text); Pieces(text + tail) == p[|p| - 1 := p[|p| - 1] + tail]
  {
    if tail == "" {
      assert text + tail == text;
      assert Pieces(text)[|Pieces(text)| - 1] + tail == Pieces(text)[|Pieces(text)| - 1];
    } else {
      var n := |tail| - 1;
      PiecesExtend(text, tail[..n]);
      assert (text + tail)[..|text| + n] == text + tail[..n];
      assert tail == tail[..n] + [tail[n]];
      var last := Pieces(text)[|Pieces(text)| - 1];
      assert last + tail[..n] + [tail[n]] == last + tail;
    }
  }

  lemma {:induction false} PiecesAroundABreak(a: string, c: char, b: string)
    requires IsBreak(c)
    ensures Pieces(a + [c] + b) == Pieces(a) + Pieces(b)
  {
    if b == "" {
      assert (a + [c] + b)[..|a|] == a;
    } else {
      var n := |b| - 1;
      PiecesAroundABreak(a, c, b[..n]);
      assert (a + [c] + b)[..|a| + 1 + n] == a + [c] + b[..n];
    }
  }

  lemma UnbrokenIsOnePiece(piece: string)
    requires Unbroken(piece)
    ensures Pieces(piece) == [piece]
  {
    PiecesExtend("", piece);
    assert "" + piece == piece;
  }

  /** Pieces is the cut at every break and no other: whatever break-free pieces were woven together
      come out again. */
  lemma {:induction false} PiecesUndoWeave(pieces: seq<string>, breaks: string)
    requires |pieces| == |breaks| + 1
    requires forall i | 0 <= i < |pieces| :: Unbroken(pieces[i])
    requires forall i | 0 <= i < |breaks| :: IsBreak(breaks[i])
    ensures Pieces(Weave(pieces, breaks)) == pieces
  {
    var n := |breaks|;
    UnbrokenIsOnePiece(pieces[n]);
    if n > 0 {
      PiecesUndoWeave(pieces[..n], breaks[..n - 1]);
      PiecesAroundABreak(Weave(pieces[..n], breaks[..n - 1]), breaks[n - 1], pieces[n]);
      assert pieces == pieces[..n] + [pieces[n]];
    }
  }

  lemma {:induction false} TallyAppends(p: seq<string>, q: seq<string>)
    ensures Tally(p + q) == Tally(p) + Tally(q)
  {
    if q == [] {
      assert p + q == p;
    } else {
      TallyAppends(p, q[..|q| - 1]);
      assert (p + q)[..|p + q| - 1] == p + q[..|q| - 1];
    }
  }

  /** The count is additive over a line break. */
  lemma NonEmptyLinesAdd(a: string, c: char, b: string)
    requires IsBreak(c)
    ensures NonEmptyLines(a + [c] + b) == NonEmptyLines(a) + NonEmptyLines(b)
  {
    PiecesAroundABreak(a, c, b);
    TallyAppends(Pieces(a), Pieces(b));
  }

  lemma GrowTally(pieces: seq<string>, c: char)
    requires |pieces| > 0
    ensures
      var last := pieces[|pieces| - 1];
      && Grow(pieces, c)[..|pieces| - 1] == pieces[..|pieces| - 1]
      && (Counts(last + [c]) <==> Counts(last) || (c != ' ' && c != '\t'))
  {
    var last := pieces[|pieces| - 1];
    assert (last + [c])[|last|] == c;
    if Counts(last) {
      var i :| 0 <= i < |last| && last[i] != ' ' && last[i] != '\t';
      assert (last + [c])[i] == last[i];
    }
  }

  /** One pass: `count` lines are complete and `inLine` says whether the current one already counts. */
  method CountNonEmptyLines(text: string) returns (count: nat)
    ensures count == NonEmptyLines(text)
  {
    count := 0;
    var inLine := false;
    for k := 0 to |text|
      invariant var p := Pieces(text[..k]);
                && count == Tally(p[..|p| - 1])
                && (inLine <==> Counts(p[|p| - 1]))
    {
      assert text[..k + 1][..k] == text[..k];
      GrowTally(Pieces(text[..k]), text[k]);
      match text[k]
      case '\n' | '\r' =>
        if inLine {
          count := count + 1;
          inLine := false;
        }
      case ' ' | '\t' =>
      case _ =>
        inLine := true;
    }
    assert text[..|text|] == text;
    if inLine {
      count := count + 1;
    }
  }
}
