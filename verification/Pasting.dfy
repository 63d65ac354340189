/** What pasting a string comes to as a command: a line edit, an insertion of lines, whole
    lines put in above dot's line, or one of the first two over a deleted region. */
module Pasting {
  import opened Editing
  import opened Splice
  import opened Undoing
  import opened EditTexts
  import opened Redoing
  import opened History

  predicate EndsInLF(s: string) { s != "" && s[|s| - 1] == LF }

  /** The edit that puts a string in at dot: lines when it has a line break. */
  function PasteEdit(e: Ed, s: string): Edit
    requires Sound(e)
  {
    if LF in s then InsertLines(s)
    else
      var (t, o) := (e.DotText(), e.dot.offset);
      Edit.EditLine(t[..o] + s + t[o..], o + |s|, e.mark)
  }

  /** Whole lines go in at the start of dot's line, and dot goes back to its offset. */
  function PasteLines(e: Ed, s: string): seq<Edit>
    requires Sound(e) && s != ""
  {
    var start := Pos(e.dot.line, 0);
    var f := InsertMultiline(e.(dot := start), s);
    [MoveTo(start, e.mark), InsertLines(s), MoveTo(Pos(f.dot.line, e.dot.offset), f.mark)]
  }

  /** Pasting over a region deletes it and inserts in one compound. */
  function PasteCommand(e: Ed, s: string): Command
    requires Reversible(e, DeleteRegion)
  {
    if e.mark.Marked? then (EditIsClean(e, DeleteRegion); PasteOver(e, s))
    else if EndsInLF(s) then Compound(PasteLines(e, s))
    else Single(PasteEdit(e, s))
  }

  function PasteOver(e: Ed, s: string): Command
    requires Allowed(e, DeleteRegion) && Sound(Apply(e, DeleteRegion).ed)
  {
    Compound([DeleteRegion, PasteEdit(Apply(e, DeleteRegion).ed, s)])
  }

  lemma PasteEditReversible(e: Ed, s: string)
    requires Sound(e) && Clean(e.lines)
    ensures Reversible(e, PasteEdit(e, s))
  {
  }

  // ---- whole lines ----

  /** From the start of a line with text t, the pieces but the last become lines, and the
      last stands before t. */
  lemma {:induction false} PiecesFromStart(e: Ed, front: seq<string>, t: string, back: seq<string>, pieces: seq<string>)
    requires Sound(e) && e.lines == front + [t] + back && e.dot == Pos(|front|, 0) && pieces != []
    ensures var n := |pieces| - 1;
            InsertPieces(e, pieces) ==
            Ed(front + pieces[..n] + [pieces[n] + t] + back, Pos(|front| + n, |pieces[n]|),
               Later(e.mark, |front| + 1, n))
    decreases |pieces|
  {
    hide InsertPlain, SplitDot, Later;
    PlainFromStart(e, front, t, back, pieces[0]);
    if |pieces| == 1 {
      LaterByNone(e.mark, |front| + 1);
      assert front + pieces[..0] == front;
    } else {
      var e1 := InsertPlain(e, pieces[0]);
      SplitSeam(e1, front, pieces[0], t, back);
      SplitGrows(e1);
      PiecesFromStart(SplitDot(e1), front + [pieces[0]], t, back, pieces[1..]);
      PiecesJoin(front, pieces);
      LaterTwice(e.mark, |front|, |pieces| - 1);
    }
  }

  lemma PiecesJoin(front: seq<string>, pieces: seq<string>)
    requires |pieces| > 1
    ensures var n := |pieces| - 1;
            front + [pieces[0]] + pieces[1..][..n - 1] == front + pieces[..n] && pieces[1..][n - 1] == pieces[n]
  {
    assert [pieces[0]] + pieces[1..][..|pieces| - 2] == pieces[..|pieces| - 1];
  }

  lemma LaterByNone(m: Mark, i: nat)
    ensures Later(m, i, 0) == m
  {
  }

  lemma PlainFromStart(e: Ed, front: seq<string>, t: string, back: seq<string>, piece: string)
    requires Sound(e) && e.lines == front + [t] + back && e.dot == Pos(|front|, 0)
    ensures InsertPlain(e, piece) == Ed(front + [piece + t] + back, Pos(|front|, |piece|), e.mark)
    ensures Sound(InsertPlain(e, piece))
  {
    assert e.DotText() == t && t[..0] == "" && t[0..] == t;
    assert "" + piece == piece;
    PlainGrows(e, piece);
  }

  lemma LaterTwice(m: Mark, i: nat, n: nat)
    requires n > 0
    ensures Later(Later(m, i + 1, 1), i + 2, n - 1) == Later(m, i + 1, n)
  {
  }

  /** From the start of a line, a string of whole lines puts its lines before that one. */
  lemma LinesFromStart(e: Ed, s: string)
    requires Sound(e) && e.dot.offset == 0 && EndsInLF(s)
    ensures var (i, n) := (e.dot.line, |Pieces(s)|);
            InsertMultiline(e, s) == Ed(e.lines[..i] + Pieces(s) + e.lines[i..], Pos(i + n, 0), Later(e.mark, i + 1, n))
  {
    hide Pieces, InsertPieces, SplitDot, Later;
    var pieces := Pieces(s);
    var (i, n) := (e.dot.line, |pieces| - 1);
    var (front, t, back) := (e.lines[..i], e.DotText(), e.lines[i + 1..]);
    PiecesFromStart(e, front, t, back, pieces);
    SplitSeam(InsertPieces(e, pieces), front + pieces[..n], pieces[n], t, back);
    assert pieces == pieces[..n] + [pieces[n]] && e.lines[i..] == [t] + back;
    assert front + pieces[..n] + [pieces[n]] + [t] + back == front + pieces + e.lines[i..];
    LaterAtDot(e.mark, i, n);
  }

  lemma SplitSeam(f: Ed, front: seq<string>, head: string, tail: string, back: seq<string>)
    requires Sound(f) && f.lines == front + [head + tail] + back && f.dot == Pos(|front|, |head|)
    ensures SplitDot(f) == Ed(front + [head] + [tail] + back, Pos(|front| + 1, 0), Later(f.mark, |front| + 1, 1))
  {
    var i := |front|;
    assert f.lines[i] == head + tail;
    assert (head + tail)[..|head|] == head && (head + tail)[|head|..] == tail;
    assert f.lines[i := head] == front + [head] + back;
  }

  lemma LaterAtDot(m: Mark, i: nat, n: nat)
    ensures Later(Later(m, i + 1, n), i + n + 1, 1) == Later(m, i + 1, n + 1)
  {
  }

  /** Pasting whole lines puts them above dot's line; dot stays on its text, at its offset. */
  lemma PasteLinesInserts(e: Ed, s: string)
    requires Sound(e) && Clean(e.lines) && e.mark.Unmarked? && EndsInLF(s)
    ensures var edits := PasteLines(e, s);
            var (i, n) := (e.dot.line, |Pieces(s)|);
            AllReversible(e, edits)
            && ApplyAll(e, edits).ed == Ed(e.lines[..i] + Pieces(s) + e.lines[i..], Pos(i + n, e.dot.offset), Unmarked)
  {
    hide Pieces, InsertMultiline, Reversible, Clean, AllReversible, ApplyAll;
    PasteLinesApplied(e, s);
    LinesFromStart(e.(dot := Pos(e.dot.line, 0)), s);
  }

  /** The three edits, one after the other. */
  lemma PasteLinesApplied(e: Ed, s: string)
    requires Sound(e) && Clean(e.lines) && e.mark.Unmarked? && EndsInLF(s)
    ensures var edits := PasteLines(e, s);
            var d := e.(dot := Pos(e.dot.line, 0));
            var f := InsertMultiline(d, s);
            && f.mark == Unmarked && Legal(f.lines, Pos(f.dot.line, e.dot.offset))
            && AllReversible(e, edits)
            && ApplyAll(e, edits) ==
               Undoing.Outcome(f.(dot := Pos(f.dot.line, e.dot.offset)),
                               [NewRecord(e, Moved, [], ""), NewRecord(d, LinesInserted, [d.DotText()], s),
                                NewRecord(f, Moved, [], "")])
  {
    hide InsertMultiline, Pieces, Clean, Apply, Reversible;
    var d := e.(dot := Pos(e.dot.line, 0));
    var f := InsertMultiline(d, s);
    var back := Pos(f.dot.line, e.dot.offset);
    LinesFromStart(d, s);
    assert f.lines[f.dot.line] == e.DotText();
    LinesKeepClean(d, s);
    MoveIsReversible(e, d.dot, Unmarked);
    InsertIsReversible(d, s);
    MoveIsReversible(f, back, Unmarked);
    ApplyThree(e, d, f, f.(dot := back), PasteLines(e, s));
  }

  lemma MoveIsReversible(e: Ed, dot: Pos, mark: Mark)
    requires Sound(e) && Clean(e.lines) && Legal(e.lines, dot) && OnLine(e.lines, mark)
    ensures Reversible(e, MoveTo(dot, mark))
    ensures Apply(e, MoveTo(dot, mark)) == Undoing.Outcome(e.(dot := dot, mark := mark), [NewRecord(e, Moved, [], "")])
  {
  }

  lemma InsertIsReversible(e: Ed, s: string)
    requires Sound(e) && Clean(e.lines) && s != ""
    ensures Reversible(e, InsertLines(s))
    ensures Apply(e, InsertLines(s)) ==
            Undoing.Outcome(InsertMultiline(e, s), [NewRecord(e, LinesInserted, [e.DotText()], s)])
  {
  }

  lemma ApplyThree(e: Ed, d: Ed, f: Ed, g: Ed, edits: seq<Edit>)
    requires |edits| == 3
    requires Reversible(e, edits[0]) && Apply(e, edits[0]).ed == d
    requires Reversible(d, edits[1]) && Apply(d, edits[1]).ed == f
    requires Reversible(f, edits[2]) && Apply(f, edits[2]).ed == g
    ensures AllReversible(e, edits)
    ensures ApplyAll(e, edits) ==
            Undoing.Outcome(g, Apply(e, edits[0]).pushed + Apply(d, edits[1]).pushed + Apply(f, edits[2]).pushed)
  {
    hide Allowed, Apply, CutsLines, Clean;
    var two := edits[1..];
    var one := two[1..];
    assert two[0] == edits[1] && one[0] == edits[2] && one[1..] == [];
    assert AllReversible(g, []);
    assert AllReversible(f, one);
    assert AllReversible(d, two);
    assert ApplyAll(g, []) == Undoing.Outcome(g, []);
    var (p, q, r) := (Apply(e, edits[0]).pushed, Apply(d, edits[1]).pushed, Apply(f, edits[2]).pushed);
    assert ApplyAll(f, one) == Undoing.Outcome(g, r + []);
    assert ApplyAll(d, two) == Undoing.Outcome(g, q + (r + []));
    assert p + (q + (r + [])) == p + q + r;
  }

  // ---- any paste ----

  /** A paste that nests no compound in another is a command that undo takes back whole. */
  lemma PasteIsCommand(e: Ed, s: string)
    requires Reversible(e, DeleteRegion)
    requires e.mark.Marked? ==> !EndsInLF(s)
    ensures CanPerform(e, PasteCommand(e, s))
  {
    if e.mark.Marked? {
      EditIsClean(e, DeleteRegion);
      var o := Apply(e, DeleteRegion);
      PasteEditReversible(o.ed, s);
      var edits := [DeleteRegion, PasteEdit(o.ed, s)];
      hide Reversible, Apply;
      assert edits[1..] == [edits[1]] && edits[1..][1..] == [];
      assert AllReversible(o.ed, edits[1..]);
    } else if EndsInLF(s) {
      PasteLinesApplied(e, s);
    } else {
      PasteEditReversible(e, s);
    }
  }

  // ---- what a paste does to the text ----

  /** The string stands in place of the region, or at dot, or, if it is one of whole lines,
      where dot's line begins, with dot as far into its line as before. */
  predicate Pasted(e: Ed, s: string, f: Ed)
    requires Sound(e) && (e.mark.Marked? ==> Legal(e.lines, e.mark.pos))
  {
    && Legal(f.lines, f.dot) && f.mark.Unmarked?
    && if e.mark.Marked? then
         if |Before(e.lines, e.dot)| <= |Before(e.lines, e.mark.pos)|
         then Replaces(e, e.dot, e.mark.pos, Normal(s), f) else Replaces(e, e.mark.pos, e.dot, Normal(s), f)
       else if s != "" && s[|s| - 1] == '\n' then
         && f.dot.offset == e.dot.offset
         && Replaces(e, Pos(e.dot.line, 0), Pos(e.dot.line, 0), Normal(s), f.(dot := Pos(f.dot.line, 0)))
       else Replaces(e, e.dot, e.dot, Normal(s), f)
  }

  /** One edit that puts the string in at dot, line breaks or not. */
  lemma PasteEditText(e: Ed, s: string)
    requires Sound(e) && Clean(e.lines)
    ensures Allowed(e, PasteEdit(e, s))
    ensures var f := Apply(e, PasteEdit(e, s)).ed;
            Replaces(e, e.dot, e.dot, Normal(s), f) && (e.mark.Unmarked? ==> f.mark.Unmarked?)
  {
    hide Before, After, Normal, InsertMultiline;
    if LF in s {
      InsertedText(e, s);
      var n := MultilineGrows(e, s);
    } else {
      NormalWithoutLF(s);
      PlainInserts(e, s);
    }
  }

  /** Two edits, one after the other. */
  lemma ApplyTwo(e: Ed, a: Edit, b: Edit)
    requires Reversible(e, a) && Reversible(Apply(e, a).ed, b)
    ensures AllReversible(e, [a, b])
    ensures ApplyAll(e, [a, b]).ed == Apply(Apply(e, a).ed, b).ed
  {
    hide Allowed, Apply, CutsLines, Clean;
    var d := Apply(e, a).ed;
    assert [a, b][1..] == [b] && [b][1..] == [];
    assert AllReversible(d, [b]);
    assert ApplyAll(d, [b]).ed == Apply(d, b).ed;
  }

  /** Over a region, the string takes the place of the region. */
  lemma PasteOverText(e: Ed, s: string)
    requires Reversible(e, DeleteRegion) && e.mark.Marked? && !EndsInLF(s)
    ensures Legal(e.lines, e.mark.pos) && CanPerform(e, PasteCommand(e, s)) && PasteCommand(e, s).Compound?
    ensures Pasted(e, s, ApplyAll(e, PasteCommand(e, s).edits).ed)
  {
    ReversibleIsAllowed(e, DeleteRegion);
    PasteIsCommand(e, s);
    EditIsClean(e, DeleteRegion);
    DeletedText(e);
    var d := Apply(e, DeleteRegion).ed;
    PasteEditText(d, s);
    PasteEditReversible(d, s);
    assert PasteCommand(e, s) == Compound([DeleteRegion, PasteEdit(d, s)]);
    hide Before, After, Normal, Apply, Reversible, Allowed, PasteEdit, PasteCommand, AllReversible, ApplyAll;
    ApplyTwo(e, DeleteRegion, PasteEdit(d, s));
    NothingMore(Before(e.lines, e.dot));
    NothingMore(Before(e.lines, e.mark.pos));
  }

  lemma NothingMore(t: string)
    ensures t + "" == t
  {
  }

  lemma ReversibleIsAllowed(e: Ed, edit: Edit)
    requires Reversible(e, edit)
    ensures Allowed(e, edit) && Clean(e.lines)
  {
  }

  /** Whole lines go in where dot's line begins, and dot is as far into that line as before. */
  lemma PasteLinesText(e: Ed, s: string)
    requires Reversible(e, DeleteRegion) && e.mark.Unmarked? && EndsInLF(s)
    ensures CanPerform(e, PasteCommand(e, s)) && PasteCommand(e, s).Compound?
    ensures Pasted(e, s, ApplyAll(e, PasteCommand(e, s).edits).ed)
  {
    hide Before, After, Normal, InsertMultiline, AllReversible, ApplyAll, PasteLines;
    var d := e.(dot := Pos(e.dot.line, 0));
    PasteLinesApplied(e, s);
    LinesFromStart(d, s);
    InsertedText(d, s);
  }

  lemma PasteOnceText(e: Ed, s: string)
    requires Reversible(e, DeleteRegion) && e.mark.Unmarked? && !EndsInLF(s)
    ensures CanPerform(e, PasteCommand(e, s)) && PasteCommand(e, s).Single?
    ensures Pasted(e, s, Apply(e, PasteCommand(e, s).edit).ed)
  {
    hide Before, After, Normal, Apply, PasteEdit;
    ReversibleIsAllowed(e, DeleteRegion);
    PasteEditText(e, s);
    PasteEditReversible(e, s);
  }

  /** What stands on either side of dot after any paste, whatever edits it is made of. */
  lemma PasteText(w: Session, s: string)
    requires Reversible(w.ed, DeleteRegion)
    requires w.ed.mark.Marked? ==> !EndsInLF(s)
    ensures CanPerform(w.ed, PasteCommand(w.ed, s)) && Allowed(w.ed, DeleteRegion)
    ensures Pasted(w.ed, s, Perform(w, PasteCommand(w.ed, s)).ed)
  {
    hide Pasted, Apply, ApplyAll, AllReversible, PasteCommand, Reversible, EndsInLF, CanPerform;
    ReversibleIsAllowed(w.ed, DeleteRegion);
    if w.ed.mark.Marked? {
      PasteOverText(w.ed, s);
    } else if EndsInLF(s) {
      PasteLinesText(w.ed, s);
    } else {
      PasteOnceText(w.ed, s);
    }
  }
}
