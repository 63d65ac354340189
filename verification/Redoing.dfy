/** Redo done over again: which buffers a redo record is good for. */
module Redoing {
  import opened Editing
  import opened Splice
  import opened Undoing

  // ---- edits keep the lines clean ----

  lemma LinesKeepClean(e: Ed, s: string)
    requires Sound(e) && Clean(e.lines) && s != ""
    ensures Clean(InsertMultiline(e, s).lines)
  {
    PiecesClean(s);
    InsertPiecesKeepsClean(e, Pieces(s));
    if s[|s| - 1] == LF {
      SplitKeepsClean(InsertPieces(e, Pieces(s)));
    }
  }

  lemma ApplyKeepsClean(e: Ed, edit: Edit)
    requires Allowed(e, edit) && Clean(e.lines)
    requires edit.EditLine? ==> LF !in edit.text
    ensures Sound(Apply(e, edit).ed) && Clean(Apply(e, edit).ed.lines)
  {
    hide InsertMultiline, WithoutRegion, RegionString;
    match edit
    case MoveTo(_, _) =>
    case EditLine(_, _, _) =>
    case InsertSeparator => SplitGrows(e); SplitKeepsClean(e);
    case DeleteSeparator =>
    case InsertLines(s) => LinesKeepClean(e, s);
    case DeleteRegion =>
      if e.mark.Marked? {
        DeleteTakesRegion(e.lines, RegionBegin(e), RegionEnd(e));
        DeleteKeepsClean(e.lines, RegionBegin(e), RegionEnd(e));
      }
  }

  // ---- one record ----

  /** Redoing r from e leaves one record, and puts the text of a line edit on dot's line. */
  predicate Straight(e: Ed, r: Record) {
    && Clean(e.lines)
    && CanRedo(e, r)
    && |Redo1(e, r).pushed| == 1
    && (r.action.LineEdited? ==> r.dot.line == e.dot.line && LF !in r.data[0])
  }

  lemma RedoKeepsClean(e: Ed, m: Ed, r: Record)
    requires Straight(e, r) && CanRedo(m, r) && Clean(m.lines)
    ensures Clean(Redo1(m, r).ed.lines)
  {
    hide Apply, Allowed;
    match r.action
    case Moved =>
    case LineEdited =>
    case SeparatorDeleted => ApplyKeepsClean(m, DeleteSeparator);
    case SeparatorInserted => ApplyKeepsClean(m, InsertSeparator);
    case LinesInserted => ApplyKeepsClean(m, InsertLines(r.data[0]));
    case RegionDeleted => ApplyKeepsClean(m, Edit.DeleteRegion);
  }

  lemma SameLines(k: seq<string>, l: seq<string>, i: nat)
    requires |k| == |l| && i < |k| && k[i] == l[i]
    requires k[..i] == l[..i] && k[i + 1..] == l[i + 1..]
    ensures k == l
  {
    assert k == k[..i] + [k[i]] + k[i + 1..] && l == l[..i] + [l[i]] + l[i + 1..];
  }

  lemma SplitDetermines(e: Ed, m: Ed)
    requires Sound(e) && Sound(m) && m.dot == e.dot && m.mark == e.mark && m.DotText() == e.DotText()
    requires SplitDot(m).lines == SplitDot(e).lines
    ensures m == e
  {
    var i := e.dot.line;
    var k, l := SplitDot(m).lines, SplitDot(e).lines;
    assert |k| == |m.lines| + 1 && |l| == |e.lines| + 1;
    assert m.lines[..i] == k[..i] && e.lines[..i] == l[..i];
    assert m.lines[i + 1..] == k[i + 2..] && e.lines[i + 1..] == l[i + 2..];
    SameLines(m.lines, e.lines, i);
  }

  lemma JoinDetermines(e: Ed, m: Ed)
    requires Sound(e) && Sound(m) && m.dot == e.dot && m.mark == e.mark && m.DotText() == e.DotText()
    requires e.dot.line + 1 < |e.lines| && e.dot.line + 1 < |m.lines|
    requires m.lines[e.dot.line + 1] == e.lines[e.dot.line + 1]
    requires JoinDot(m).lines == JoinDot(e).lines
    ensures m == e
  {
    var i := e.dot.line;
    var k, l := JoinDot(m).lines, JoinDot(e).lines;
    assert |k| == |m.lines| - 1 && |l| == |e.lines| - 1;
    assert m.lines[..i] == k[..i] && e.lines[..i] == l[..i];
    assert m.lines[i + 2..] == k[i + 1..] && e.lines[i + 2..] == l[i + 1..];
    assert m.lines[i + 1..] == [m.lines[i + 1]] + m.lines[i + 2..];
    assert e.lines[i + 1..] == [e.lines[i + 1]] + e.lines[i + 2..];
    SameLines(m.lines, e.lines, i);
  }

  /** Whatever an insertion does to dot's line, the other lines can be read off the result. */
  lemma GrownDetermines(e: Ed, m: Ed, f: Ed, n: nat, k: nat)
    requires Grows(e, f, n) && Grows(m, f, k)
    requires m.dot == e.dot && m.mark == e.mark && m.DotText() == e.DotText()
    ensures m == e
  {
    assert n == k && |m.lines| == |e.lines|;
    var i := e.dot.line;
    forall j | 0 <= j < |e.lines|
      ensures m.lines[j] == e.lines[j]
    {
      if j > i {
        assert f.lines[j + n] == e.lines[j] && f.lines[j + n] == m.lines[j];
      }
    }
  }

  lemma LinesDetermine(e: Ed, m: Ed, s: string)
    requires Sound(e) && Sound(m) && s != ""
    requires m.dot == e.dot && m.mark == e.mark && m.DotText() == e.DotText()
    requires InsertMultiline(m, s) == InsertMultiline(e, s)
    ensures m == e
  {
    hide Grows, InsertMultiline;
    var n := MultilineGrows(e, s);
    var k := MultilineGrows(m, s);
    GrownDetermines(e, m, InsertMultiline(e, s), n, k);
  }

  /** What is left and what was cut out make up the text. */
  lemma CutDetermines(e: Ed, m: Ed)
    requires Sound(e) && Sound(m) && Clean(e.lines) && Clean(m.lines)
    requires m.dot == e.dot && m.mark == e.mark && e.mark.Marked?
    requires Legal(e.lines, e.mark.pos) && Legal(m.lines, e.mark.pos)
    requires RegionString(m.lines, RegionBegin(e), RegionEnd(e)) == RegionString(e.lines, RegionBegin(e), RegionEnd(e))
    requires WithoutRegion(m.lines, RegionBegin(e), RegionEnd(e))
          == WithoutRegion(e.lines, RegionBegin(e), RegionEnd(e))
    ensures m == e
  {
    hide WithoutRegion, RegionString, Before, After, Contents, Clean;
    var (b, end) := (RegionBegin(e), RegionEnd(e));
    DeleteTakesRegion(e.lines, b, end);
    DeleteTakesRegion(m.lines, b, end);
    ContentsDetermineLines(e.lines, m.lines);
  }

  lemma LineEditDetermines(e: Ed, m: Ed, text: string)
    requires Sound(e) && Sound(m) && m.dot == e.dot && m.mark == e.mark && m.DotText() == e.DotText()
    requires m.lines[e.dot.line := text] == e.lines[e.dot.line := text]
    ensures m == e
  {
    var i := e.dot.line;
    var k, l := m.lines[i := text], e.lines[i := text];
    assert |k| == |m.lines| && |l| == |e.lines|;
    assert k[..i] == m.lines[..i] && l[..i] == e.lines[..i];
    assert k[i + 1..] == m.lines[i + 1..] && l[i + 1..] == e.lines[i + 1..];
    SameLines(m.lines, e.lines, i);
  }

  /** From two buffers a redo can lead to the same buffer and the same record only when the
      two are one. */
  lemma RedoDetermines(e: Ed, m: Ed, r: Record)
    requires Straight(e, r) && Clean(m.lines)
    requires CanRedo(m, r) && Redo1(m, r) == Redo1(e, r)
    ensures m == e
  {
    hide SplitDot, JoinDot, InsertMultiline, InsertString, RegionString, WithoutRegion, RegionBegin, RegionEnd, Clean;
    var u := Redo1(e, r).pushed[0];
    assert Redo1(m, r).pushed[0] == u;
    assert u.dot == e.dot && u.dot == m.dot && u.mark == e.mark && u.mark == m.mark;
    match r.action
    case Moved =>
    case LineEdited =>
      assert u.data[0] == e.DotText() && u.data[0] == m.DotText();
      LineEditDetermines(e, m, r.data[0]);
    case SeparatorDeleted =>
      assert u.data == [e.DotText(), e.lines[e.dot.line + 1]];
      assert u.data == [m.DotText(), m.lines[m.dot.line + 1]];
      assert u.data[0] == e.DotText() && u.data[1] == e.lines[e.dot.line + 1];
      JoinDetermines(e, m);
    case SeparatorInserted =>
      assert u.data[0] == e.DotText() && u.data[0] == m.DotText();
      SplitDetermines(e, m);
    case LinesInserted =>
      assert u.data[0] == e.DotText() && u.data[0] == m.DotText();
      LinesDetermine(e, m, r.data[0]);
    case RegionDeleted =>
      CutRedoDetermines(e, m);
  }

  lemma CutRedoDetermines(e: Ed, m: Ed)
    requires Allowed(e, DeleteRegion) && Allowed(m, DeleteRegion) && Clean(e.lines) && Clean(m.lines)
    requires m.dot == e.dot && m.mark == e.mark && e.mark.Marked?
    requires Apply(m, DeleteRegion) == Apply(e, DeleteRegion)
    ensures m == e
  {
    hide RegionString, WithoutRegion, Clean;
    var (b, end) := (RegionBegin(e), RegionEnd(e));
    var u := Apply(e, DeleteRegion).pushed[0];
    assert Apply(m, DeleteRegion).pushed[0] == u;
    if b.line == end.line {
      assert u.data[0] == e.DotText() && u.data[0] == m.DotText();
      InLineCutDetermines(e, m, b, end);
    } else {
      assert u.data[0] == RegionString(e.lines, b, end) && u.data[0] == RegionString(m.lines, b, end);
      CutDetermines(e, m);
    }
  }

  lemma InLineCutDetermines(e: Ed, m: Ed, b: Pos, end: Pos)
    requires Sound(e) && Sound(m) && m.dot == e.dot && m.mark == e.mark && m.DotText() == e.DotText()
    requires b.line == end.line == e.dot.line && !PosBefore(end, b)
    requires Legal(e.lines, b) && Legal(e.lines, end) && Legal(m.lines, b) && Legal(m.lines, end)
    requires WithoutRegion(m.lines, b, end) == WithoutRegion(e.lines, b, end)
    ensures m == e
  {
    var i := e.dot.line;
    var k, l := WithoutRegion(m.lines, b, end), WithoutRegion(e.lines, b, end);
    assert |k| == |m.lines| && |l| == |e.lines|;
    assert k[..i] == m.lines[..i] && l[..i] == e.lines[..i];
    assert k[i + 1..] == m.lines[i + 1..] && l[i + 1..] == e.lines[i + 1..];
    SameLines(m.lines, e.lines, i);
  }

  /** A redo record is good for one buffer only: from any clean buffer the redo is possible
      and leads to the buffer and the record that it leads to from e just when that buffer
      is e, lines, dot and mark. */
  lemma RedoIff(e: Ed, m: Ed, r: Record)
    requires Straight(e, r) && Clean(m.lines)
    ensures CanRedo(m, r) && Redo1(m, r) == Redo1(e, r) <==> m == e
  {
    hide Straight, CanRedo, Redo1, Clean;
    StraightCan(e, r);
    if CanRedo(m, r) && Redo1(m, r) == Redo1(e, r) {
      RedoDetermines(e, m, r);
    }
  }

  lemma StraightCan(e: Ed, r: Record)
    requires Straight(e, r)
    ensures Clean(e.lines) && CanRedo(e, r) && |Redo1(e, r).pushed| == 1
  {
  }
}
