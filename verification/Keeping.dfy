/** Commands that leave the redo stack alone: what that does to undo, nothing, and to redo. */
module Keeping {
  import opened Editing
  import opened Splice
  import opened Undoing
  import opened Redoing
  import opened History

  function PerformKeeping(s: Session, c: Command): Session
    requires CanPerform(s.ed, c)
  {
    Perform(s, c).(redos := s.redos)
  }

  datatype Step = Edited(c: Command, resets: bool) | Back

  predicate CanWalk(s: Session, steps: seq<Step>)
    requires Undoable(s.ed, s.undos)
    decreases |steps|
  {
    steps == [] || match steps[0]
      case Edited(c, resets) =>
        CanPerform(s.ed, c)
        && (PerformThenUndo(s, c); CanWalk(if resets then Perform(s, c) else PerformKeeping(s, c), steps[1..]))
      case Back => CanWalk(Undo(s), steps[1..])
  }

  function Walk(s: Session, steps: seq<Step>): Session
    requires Undoable(s.ed, s.undos) && CanWalk(s, steps)
    decreases |steps|
  {
    if steps == [] then s
    else match steps[0]
      case Edited(c, resets) =>
        PerformThenUndo(s, c);
        Walk(if resets then Perform(s, c) else PerformKeeping(s, c), steps[1..])
      case Back => Walk(Undo(s), steps[1..])
  }

  lemma PerformKeepsOrigin(s: Session, c: Command)
    requires Undoable(s.ed, s.undos) && CanPerform(s.ed, c)
    ensures var t := Perform(s, c); Undoable(t.ed, t.undos) && Origin(t.ed, t.undos) == Origin(s.ed, s.undos)
  {
    hide CanUndoEntry, CanRedoEntry, UndoEntry, RedoEntry, CanPerform, Perform;
    PerformThenUndo(s, c);
    OriginOfUndo(Perform(s, c));
  }

  /** Undo does not need the redo stack to be emptied: whatever commands and undos there
      were, with stale redo records left or not, undoing everything leads to the buffer that
      the walk began with. */
  lemma {:induction false} WalkKeepsOrigin(s: Session, steps: seq<Step>)
    requires Undoable(s.ed, s.undos) && CanWalk(s, steps)
    ensures var t := Walk(s, steps); Undoable(t.ed, t.undos) && Origin(t.ed, t.undos) == Origin(s.ed, s.undos)
    decreases |steps|
  {
    hide CanUndoEntry, CanRedoEntry, UndoEntry, RedoEntry, CanPerform, Perform;
    if steps != [] {
      match steps[0]
      case Edited(c, resets) =>
        PerformKeepsOrigin(s, c);
        WalkKeepsOrigin(if resets then Perform(s, c) else PerformKeeping(s, c), steps[1..]);
      case Back =>
        WalkKeepsOrigin(Undo(s), steps[1..]);
    }
  }

  // ---- the next redo ----

  predicate CanKeepAll(s: Session, cs: seq<Command>)
    decreases |cs|
  {
    cs == [] || (CanPerform(s.ed, cs[0]) && CanKeepAll(PerformKeeping(s, cs[0]), cs[1..]))
  }

  /** Any number of commands, none of which empties the redo stack. */
  function KeepAll(s: Session, cs: seq<Command>): Session
    requires CanKeepAll(s, cs)
    decreases |cs|
  {
    if cs == [] then s else KeepAll(PerformKeeping(s, cs[0]), cs[1..])
  }

  lemma {:induction false} KeepAllKeeps(s: Session, cs: seq<Command>)
    requires CanKeepAll(s, cs) && Clean(s.ed.lines)
    ensures KeepAll(s, cs).redos == s.redos && Clean(KeepAll(s, cs).ed.lines)
    decreases |cs|
  {
    hide CanPerform, Perform, Clean;
    if cs != [] {
      PerformKeepsClean(s, cs[0]);
      KeepAllKeeps(PerformKeeping(s, cs[0]), cs[1..]);
    }
  }

  /** After any commands that keep the redo stack, the next redo does what it would have done
      before them, buffer and undo entry, exactly when they left the buffer, text, dot and
      mark, as it was. */
  lemma RedoAfterKeepingIff(s: Session, cs: seq<Command>)
    requires Consistent(s) && s.redos != [] && CanKeepAll(s, cs)
    ensures var t := KeepAll(s, cs);
            && t.redos == s.redos
            && CanRedoEntry(s.ed, Top(s.redos))
            && (CanRedoEntry(t.ed, Top(t.redos)) && RedoEntry(t.ed, Top(t.redos)) == RedoEntry(s.ed, Top(s.redos))
                <==> t.ed == s.ed)
  {
    hide CanKeepAll, KeepAll, CanRedoEntry, RedoEntry, CanUndoEntry, UndoEntry, StraightEntry, Clean;
    StraightIsClean(s.ed, Top(s.redos));
    KeepAllKeeps(s, cs);
    RedoEntryIff(s.ed, KeepAll(s, cs).ed, Top(s.redos));
  }

  // ---- an input on which redo loses text ----

  const AB: Ed := Ed(["ab"], Pos(0, 1), Unmarked)
  const PARTED: Ed := Ed(["a", "b"], Pos(1, 0), Unmarked)
  const LEFT: Ed := Ed(["ab"], Pos(0, 0), Unmarked)

  /** newline-and-indent before the b of "ab". */
  const NEWLINE: Command := Compound([InsertSeparator, EditLine("b", 0, Unmarked)])
  const GO_LEFT: Command := Single(MoveTo(Pos(0, 0), Unmarked))

  lemma SplitAB()
    ensures Allowed(AB, InsertSeparator) && SplitDot(AB) == PARTED
    ensures Sound(LEFT) && SplitDot(LEFT) == Ed(["", "ab"], Pos(1, 0), Unmarked)
  {
    assert "ab"[..1] == "a" && "ab"[1..] == "b" && "ab"[..0] == "" && "ab"[0..] == "ab";
    assert Inserted(["ab"][0 := "a"], 1, "b") == ["a", "b"];
    assert Inserted(["ab"][0 := ""], 1, "ab") == ["", "ab"];
  }

  lemma EditsOfNewline()
    ensures AllReversible(AB, NEWLINE.edits) && Clean(AB.lines)
    ensures ApplyAll(AB, NEWLINE.edits) ==
            Undoing.Outcome(PARTED, [NewRecord(AB, SeparatorInserted, ["ab"], ""),
                                     NewRecord(PARTED, LineEdited, ["b"], "")])
  {
    SplitAB();
    var edits := NEWLINE.edits;
    assert edits[1..] == [edits[1]] && edits[1..][1..] == [];
    assert Apply(AB, edits[0]).ed == PARTED;
    assert PARTED.lines[1 := "b"] == PARTED.lines;
    assert Apply(PARTED, edits[1]).ed == PARTED;
    assert ApplyAll(PARTED, []) == Undoing.Outcome(PARTED, []);
    assert ApplyAll(PARTED, edits[1..]) == Apply(PARTED, edits[1]);
  }

  /** What undoing the newline leaves for redo. */
  function RedosOfNewline(): seq<Record> {
    [NewRecord(PARTED, LineEdited, ["b"], ""), NewRecord(AB, SeparatorInserted, [], "")]
  }

  lemma UndoOfNewline(us: seq<Record>)
    requires us == [NewRecord(AB, SeparatorInserted, ["ab"], ""), NewRecord(PARTED, LineEdited, ["b"], "")]
    requires CanUndoMany(PARTED, us)
    ensures UndoMany(PARTED, us) == Swap(AB, RedosOfNewline())
  {
    var first := us[..1];
    assert first == [us[0]] && first[..0] == [];
    assert PARTED.lines[1 := "b"] == PARTED.lines;
    assert Undo1(PARTED, us[1]).ed == PARTED;
    assert Dropped(["ab", "b"], 1, 2) == ["ab"];
    assert PARTED.lines[0 := "ab"] == ["ab", "b"];
    assert Undo1(PARTED, us[0]) == Swap(AB, [RedosOfNewline()[1]]);
    assert UndoMany(AB, []) == Swap(AB, []);
  }

  lemma RedoFromTheLeft()
    ensures CanRedoMany(LEFT, RedosOfNewline()) && RedoMany(LEFT, RedosOfNewline()).ed.lines == ["", "b"]
  {
    SplitAB();
    var rs := RedosOfNewline();
    var split := Ed(["", "ab"], Pos(1, 0), Unmarked);
    assert rs[..1] == [rs[0]] && rs[..1][..0] == [];
    assert Redo1(LEFT, rs[1]).ed == split;
    assert split.lines[1 := "b"] == ["", "b"];
    assert CanRedoMany(split, rs[..1]);
  }

  /** A lone compound on the undo stack, undone. */
  lemma UndoLoneCompound(s: Session, us: seq<Record>)
    requires s.undos == [Many(us)] && s.redos == [] && CanUndoMany(s.ed, us)
    ensures CanUndoEntry(s.ed, Top(s.undos))
    ensures Undo(s) == Session(UndoMany(s.ed, us).ed, [], [Many(UndoMany(s.ed, us).pushed)])
  {
    hide CanUndoMany, UndoMany;
    assert Rest(s.undos) == [];
    assert s.redos + [Many(UndoMany(s.ed, us).pushed)] == [Many(UndoMany(s.ed, us).pushed)];
  }

  lemma RedoLoneCompound(s: Session, rs: seq<Record>)
    requires s.redos == [Many(rs)] && CanRedoMany(s.ed, rs)
    ensures CanRedoEntry(s.ed, Top(s.redos)) && Redo(s).ed == RedoMany(s.ed, rs).ed
  {
    hide CanRedoMany, RedoMany;
  }

  lemma NewlineUndone() returns (done: Session)
    ensures CanPerform(AB, NEWLINE) && done == Perform(Session(AB, [], []), NEWLINE)
    ensures done.ed == PARTED && done.undos != [] && CanUndoEntry(done.ed, Top(done.undos))
    ensures Undo(done) == Session(AB, [], [Many(RedosOfNewline())])
  {
    hide AllReversible, ApplyAll, CanUndoMany, UndoMany, LinksMany, Clean, Undo;
    EditsOfNewline();
    var us := ApplyAll(AB, NEWLINE.edits).pushed;
    done := Perform(Session(AB, [], []), NEWLINE);
    assert done == Session(PARTED, [Many(us)], []);
    ApplyAllLinks(AB, NEWLINE.edits);
    CompoundSwaps(AB, PARTED, us);
    UndoOfNewline(us);
    UndoLoneCompound(done, us);
  }

  lemma MovedLeft(undone: Session)
    requires undone.ed == AB
    ensures CanPerform(AB, GO_LEFT)
    ensures PerformKeeping(undone, GO_LEFT).ed == LEFT && PerformKeeping(undone, GO_LEFT).redos == undone.redos
  {
  }

  /** A newline put in, taken back by undo, a move to the left, and redo: the letter left of
      the newline is gone. */
  lemma RedoAfterMoveLosesText() returns (s: Session, done: Session, undone: Session, moved: Session)
    ensures s == Session(AB, [], []) && CanPerform(AB, NEWLINE) && done == Perform(s, NEWLINE)
    ensures done.ed.lines == ["a", "b"] && done.undos != [] && CanUndoEntry(done.ed, Top(done.undos))
    ensures undone == Undo(done) && undone.ed == AB
    ensures CanPerform(AB, GO_LEFT) && moved == PerformKeeping(undone, GO_LEFT)
    ensures moved.redos != [] && CanRedoEntry(moved.ed, Top(moved.redos))
    ensures Redo(moved).ed.lines == ["", "b"]
  {
    hide Perform, CanPerform, PerformKeeping, CanUndoEntry, CanRedoEntry, Undo, Redo, RedosOfNewline;
    s := Session(AB, [], []);
    done := NewlineUndone();
    undone := Undo(done);
    MovedLeft(undone);
    moved := PerformKeeping(undone, GO_LEFT);
    RedoFromTheLeft();
    RedoLoneCompound(moved, RedosOfNewline());
  }
}
