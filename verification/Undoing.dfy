/** Recorded edits, their undo records, and the inverse that each record stands for. */
module Undoing {
  import opened Editing

  datatype Action = Moved | LineEdited | SeparatorDeleted | SeparatorInserted | LinesInserted | RegionDeleted

  /** Where dot and mark were, and what text the inverse needs. */
  datatype Record = Record(action: Action, dot: Pos, mark: Mark, data: seq<string>, redoData: string)

  function NewRecord(e: Ed, action: Action, data: seq<string>, redoData: string): Record {
    Record(action, e.dot, e.mark, data, redoData)
  }

  // ---- edits ----

  /** A recorded move takes dot and mark anywhere, a line edit leaves any text on dot's line. */
  datatype Edit =
    | MoveTo(dot: Pos, mark: Mark)
    | EditLine(text: string, offset: nat, mark: Mark)
    | InsertSeparator
    | DeleteSeparator
    | InsertLines(s: string)
    | DeleteRegion

  /** dot is at the end of a line that has a next one. */
  predicate AtSeparator(e: Ed)
    requires Sound(e)
  {
    e.dot.line + 1 < |e.lines| && e.dot.offset == |e.DotText()|
  }

  predicate Allowed(e: Ed, edit: Edit) {
    && Sound(e)
    && match edit
       case MoveTo(dot, mark) => Legal(e.lines, dot) && OnLine(e.lines, mark)
       case EditLine(text, offset, mark) => offset <= |text| && OnLine(e.lines, mark)
       case InsertSeparator => true
       case DeleteSeparator => AtSeparator(e) ==> !MarkInside(e.mark, e.dot.line + 1, e.dot.line + 2)
       case InsertLines(s) => s != ""
       case DeleteRegion => e.mark.Marked? ==> Legal(e.lines, e.mark.pos)
  }

  /** The buffer after the edit and what was pushed on the undo stack: at most one record. */
  datatype Outcome = Outcome(ed: Ed, pushed: seq<Record>)

  function Apply(e: Ed, edit: Edit): Outcome
    requires Allowed(e, edit)
  {
    match edit
    case MoveTo(dot, mark) => Outcome(e.(dot := dot, mark := mark), [NewRecord(e, Moved, [], "")])
    case EditLine(text, offset, mark) =>
      Outcome(Ed(e.lines[e.dot.line := text], Pos(e.dot.line, offset), mark),
              [NewRecord(e, LineEdited, [e.DotText()], "")])
    case InsertSeparator => Outcome(SplitDot(e), [NewRecord(e, SeparatorInserted, [e.DotText()], "")])
    case DeleteSeparator =>
      if AtSeparator(e)
      then Outcome(JoinDot(e), [NewRecord(e, SeparatorDeleted, [e.DotText(), e.lines[e.dot.line + 1]], "")])
      else Outcome(e, [])
    case InsertLines(s) => Outcome(InsertMultiline(e, s), [NewRecord(e, LinesInserted, [e.DotText()], s)])
    case DeleteRegion => if e.mark.Marked? then ApplyDelete(e) else Outcome(e, [])
  }

  /** A region within one line is recorded as a line edit. */
  function ApplyDelete(e: Ed): Outcome
    requires Sound(e) && e.mark.Marked? && Legal(e.lines, e.mark.pos)
  {
    var (b, end) := (RegionBegin(e), RegionEnd(e));
    Outcome(Ed(WithoutRegion(e.lines, b, end), b, Unmarked),
            [if b.line == end.line then NewRecord(e, LineEdited, [e.DotText()], "")
             else NewRecord(e, RegionDeleted, [RegionString(e.lines, b, end)], "")])
  }

  // ---- undo ----

  /** The buffer after undoing or redoing one record, and the record pushed for the way back. */
  datatype Swap = Swap(ed: Ed, pushed: seq<Record>)

  function RestoreDot(e: Ed, r: Record): Ed
    requires r.dot.line < |e.lines|
  {
    e.(dot := Pos(r.dot.line, Min(r.dot.offset, |e.lines[r.dot.line]|)))
  }

  function RestoreLine(e: Ed, r: Record): Ed
    requires r.dot.line < |e.lines| && |r.data| == 1
  {
    RestoreDot(Ed(e.lines[r.dot.line := r.data[0]], e.dot, r.mark), r)
  }

  function RestoreSeparator(e: Ed, r: Record): Ed
    requires r.dot.line < |e.lines| && |r.data| == 2
  {
    var d := RestoreDot(e, r);
    var i := r.dot.line;
    Ed(Inserted(e.lines[i := r.data[0]], i + 1, r.data[1]), d.dot, Later(e.mark, i + 1, 1))
  }

  /** The lines after the restored dot line, up to last, are taken out. */
  function RemoveLines(e: Ed, r: Record, last: nat): Ed
    requires r.dot.line <= last < |e.lines| && |r.data| == 1
  {
    var d := RestoreDot(e, r);
    var i := r.dot.line;
    Ed(Dropped(e.lines[i := r.data[0]], i + 1, last + 1), d.dot, Earlier(e.mark, i + 1, last - i))
  }

  function RestoreRegion(e: Ed, r: Record): Ed
    requires Sound(e) && |r.data| == 1
    requires r.dot.line < |InsertString(e, r.data[0]).lines|
  {
    RestoreDot(InsertString(e, r.data[0]), r).(mark := r.mark)
  }

  predicate CanUndo(e: Ed, r: Record) {
    && Sound(e)
    && match r.action
       case Moved => r.dot.line < |e.lines| && OnLine(e.lines, r.mark)
       case LineEdited => r.dot.line < |e.lines| && OnLine(e.lines, r.mark) && |r.data| == 1
       case SeparatorDeleted =>
         r.dot.line < |e.lines| && |r.data| == 2 && RestoreDot(e, r).dot.offset <= |r.data[0]|
       case SeparatorInserted =>
         && r.dot.line + 1 < |e.lines| && |r.data| == 1 && RestoreDot(e, r).dot.offset <= |r.data[0]|
         && !MarkInside(e.mark, r.dot.line + 1, r.dot.line + 2)
       case LinesInserted =>
         && r.dot.line <= e.dot.line && |r.data| == 1 && RestoreDot(e, r).dot.offset <= |r.data[0]|
         && !MarkInside(e.mark, r.dot.line + 1, e.dot.line + 1)
       case RegionDeleted =>
         && |r.data| == 1
         && r.dot.line < |InsertString(e, r.data[0]).lines|
         && OnLine(InsertString(e, r.data[0]).lines, r.mark)
  }

  function Undo1(e: Ed, r: Record): Swap
    requires CanUndo(e, r)
  {
    match r.action
    case Moved => Swap(RestoreDot(e, r).(mark := r.mark), [NewRecord(e, Moved, [], "")])
    case LineEdited => Swap(RestoreLine(e, r), [NewRecord(e, LineEdited, [e.DotText()], "")])
    case SeparatorDeleted =>
      var f := RestoreSeparator(e, r); Swap(f, [NewRecord(f, SeparatorDeleted, [], "")])
    case SeparatorInserted =>
      var f := RemoveLines(e, r, r.dot.line + 1); Swap(f, [NewRecord(f, SeparatorInserted, [], "")])
    case LinesInserted =>
      Swap(RemoveLines(e, r, e.dot.line), [NewRecord(RestoreDot(e, r), LinesInserted, [r.redoData], "")])
    case RegionDeleted => Swap(RestoreRegion(e, r), [NewRecord(e, RegionDeleted, [], "")])
  }

  lemma UndoIsSound(e: Ed, r: Record)
    requires CanUndo(e, r)
    ensures Sound(Undo1(e, r).ed)
  {
    hide InsertString;
  }

  // ---- redo ----

  predicate CanRedo(e: Ed, r: Record) {
    match r.action
    case Moved => CanUndo(e, r)
    case LineEdited => CanUndo(e, r)
    case SeparatorDeleted => Allowed(e, DeleteSeparator)
    case SeparatorInserted => Allowed(e, InsertSeparator)
    case LinesInserted => |r.data| == 1 && Allowed(e, InsertLines(r.data[0]))
    case RegionDeleted => Allowed(e, DeleteRegion)
  }

  /** Moves and line edits swap with the record; the rest is done over again. */
  function Redo1(e: Ed, r: Record): Swap
    requires CanRedo(e, r)
  {
    match r.action
    case Moved => Undo1(e, r)
    case LineEdited => Undo1(e, r)
    case SeparatorDeleted => Again(e, DeleteSeparator)
    case SeparatorInserted => Again(e, InsertSeparator)
    case LinesInserted => Again(e, InsertLines(r.data[0]))
    case RegionDeleted => Again(e, Edit.DeleteRegion)
  }

  function Again(e: Ed, edit: Edit): Swap
    requires Allowed(e, edit)
  {
    var o := Apply(e, edit);
    Swap(o.ed, o.pushed)
  }

  // ---- undo takes back the edit, redo takes back the undo ----

  /** The record u takes f back to e, leaving a record that takes e to f again and leaves u. */
  ghost predicate Links(e: Ed, f: Ed, u: Record) {
    && CanUndo(f, u)
    && Undo1(f, u).ed == e
    && |Undo1(f, u).pushed| == 1
    && var r := Undo1(f, u).pushed[0];
       CanRedo(e, r) && Redo1(e, r) == Swap(f, [u])
  }

  lemma MoveLinks(e: Ed, dot: Pos, mark: Mark)
    requires Allowed(e, MoveTo(dot, mark))
    ensures Links(e, Apply(e, MoveTo(dot, mark)).ed, Apply(e, MoveTo(dot, mark)).pushed[0])
  {
  }

  lemma LineEditLinks(e: Ed, text: string, offset: nat, mark: Mark)
    requires Allowed(e, EditLine(text, offset, mark))
    ensures Links(e, Apply(e, EditLine(text, offset, mark)).ed, Apply(e, EditLine(text, offset, mark)).pushed[0])
  {
    var o := Apply(e, EditLine(text, offset, mark));
    var u := o.pushed[0];
    assert o.ed.lines[e.dot.line := e.DotText()] == e.lines;
    assert Undo1(o.ed, u).ed == e;
    assert e.lines[e.dot.line := text] == o.ed.lines;
  }

  lemma InsertSeparatorLinks(e: Ed)
    requires Allowed(e, InsertSeparator)
    ensures Links(e, Apply(e, InsertSeparator).ed, Apply(e, InsertSeparator).pushed[0])
  {
    hide InsertMultiline, InsertString, RestoreRegion, RestoreSeparator, ApplyDelete;
    var f := SplitDot(e);
    var u := Apply(e, InsertSeparator).pushed[0];
    RemoveSplit(e);
    assert Undo1(f, u).ed == e;
  }

  lemma RemoveSplit(e: Ed)
    requires Sound(e)
    ensures var f := SplitDot(e);
            Dropped(f.lines[e.dot.line := e.DotText()], e.dot.line + 1, e.dot.line + 2) == e.lines
  {
    var i := e.dot.line;
    assert SplitDot(e).lines[i] == e.DotText()[..e.dot.offset];
  }

  lemma DeleteSeparatorLinks(e: Ed)
    requires Allowed(e, DeleteSeparator) && AtSeparator(e)
    ensures Links(e, Apply(e, DeleteSeparator).ed, Apply(e, DeleteSeparator).pushed[0])
  {
    var f := JoinDot(e);
    var u := Apply(e, DeleteSeparator).pushed[0];
    var i := e.dot.line;
    assert f.lines[i] == e.lines[i] + e.lines[i + 1];
    assert Inserted(f.lines[i := e.lines[i]], i + 1, e.lines[i + 1]) == e.lines;
    assert Undo1(f, u).ed == e;
  }

  lemma RemoveGrown(e: Ed, f: Ed, n: nat)
    requires Grows(e, f, n)
    ensures Dropped(f.lines[e.dot.line := e.DotText()], e.dot.line + 1, e.dot.line + n + 1) == e.lines
    ensures Earlier(f.mark, e.dot.line + 1, n) == e.mark
    ensures !MarkInside(f.mark, e.dot.line + 1, e.dot.line + n + 1)
  {
    var i := e.dot.line;
    var back := Dropped(f.lines[i := e.DotText()], i + 1, i + n + 1);
    assert |back| == |e.lines|;
    forall k | 0 <= k < |e.lines|
      ensures back[k] == e.lines[k]
    {
      if k > i {
        assert back[k] == f.lines[k + n];
      }
    }
  }

  lemma InsertLinesLinks(e: Ed, s: string)
    requires Allowed(e, InsertLines(s))
    ensures Links(e, Apply(e, InsertLines(s)).ed, Apply(e, InsertLines(s)).pushed[0])
  {
    hide InsertMultiline, InsertString;
    var n := MultilineGrows(e, s);
    var f := InsertMultiline(e, s);
    var u := Apply(e, InsertLines(s)).pushed[0];
    RemoveGrown(e, f, n);
    assert Undo1(f, u).ed == e;
  }
}
