/** Laws of whole sessions: what the events of a run do one by one, and which of them cancel. */
module Sessions {
  import opened Editing
  import opened Splice
  import opened Undoing
  import opened EditTexts
  import opened History
  import opened Keeping

  // ---- one command ----

  /** A single edit performed does to the text what the edit does; what it pushes is one
      entry, or none when it changes nothing, and there is nothing left to redo. */
  lemma PerformText(s: Session, edit: Edit)
    requires Reversible(s.ed, edit)
    ensures var (e, t) := (s.ed, Perform(s, Single(edit)));
            var f := t.ed;
            && t.redos == []
            && s.undos <= t.undos && |t.undos| <= |s.undos| + 1 && (|t.undos| == |s.undos| ==> f == e)
            && match edit
               case MoveTo(dot, mark) => f == Ed(e.lines, dot, mark)
               case EditLine(text, offset, mark) =>
                 && f.mark == mark && f.dot == Pos(e.dot.line, offset) && Legal(f.lines, f.dot)
                 && Before(f.lines, f.dot) == Before(e.lines, Pos(e.dot.line, 0)) + text[..offset]
                 && After(f.lines, f.dot) == text[offset..] + After(e.lines, Pos(e.dot.line, |e.DotText()|))
               case InsertSeparator => Replaces(e, e.dot, e.dot, "\n", f) && MarkKept(e, f)
               case DeleteSeparator =>
                 if After(e.lines, e.dot) != "" && After(e.lines, e.dot)[0] == '\n'
                 then Legal(f.lines, f.dot) && f.dot == e.dot
                      && Before(f.lines, f.dot) == Before(e.lines, e.dot)
                      && "\n" + After(f.lines, f.dot) == After(e.lines, e.dot) && MarkKept(e, f)
                 else f == e
               case InsertLines(text) => Replaces(e, e.dot, e.dot, Normal(text), f) && MarkKept(e, f)
               case DeleteRegion =>
                 if e.mark.Unmarked? then f == e
                 else f.mark.Unmarked?
                      && if |Before(e.lines, e.dot)| <= |Before(e.lines, e.mark.pos)|
                         then Replaces(e, e.dot, e.mark.pos, "", f) else Replaces(e, e.mark.pos, e.dot, "", f)
  {
    hide Before, After, Replaces, MarkKept, Apply, Normal;
    EditText(s.ed, edit);
    PushedAtMostOne(s.ed, edit);
  }

  lemma PushedAtMostOne(e: Ed, edit: Edit)
    requires Allowed(e, edit)
    ensures |Apply(e, edit).pushed| <= 1 && (Apply(e, edit).pushed == [] ==> Apply(e, edit).ed == e)
  {
  }

  /** The edits of a compound are performed in order, and are one entry to undo. */
  lemma CompoundIsSequence(s: Session, edit: Edit, edits: seq<Edit>)
    requires CanPerform(s.ed, Compound([edit] + edits))
    ensures CanPerform(s.ed, Single(edit)) && CanPerform(Perform(s, Single(edit)).ed, Compound(edits))
    ensures Perform(s, Compound([edit] + edits)).ed == Perform(Perform(s, Single(edit)), Compound(edits)).ed
    ensures Perform(s, Compound([])).ed == s.ed
    ensures |Perform(s, Compound([edit] + edits)).undos| == |s.undos| + 1
    ensures Perform(s, Compound([edit] + edits)).redos == []
  {
    hide Apply, Allowed, CutsLines, Clean;
    assert ([edit] + edits)[1..] == edits;
    EditIsClean(s.ed, edit);
  }

  // ---- what can be performed ----

  lemma {:induction false} NoReturnInLines(lines: seq<string>, i: nat, j: nat)
    requires i <= j <= |lines| && forall k :: 0 <= k < |lines| ==> CR !in lines[k]
    ensures CR !in WholeLines(lines, i, j)
    decreases j - i
  {
    if i < j { NoReturnInLines(lines, i + 1, j); }
  }

  lemma NoReturnInRegion(lines: seq<string>, b: Pos, e: Pos)
    requires Legal(lines, b) && Legal(lines, e) && !PosBefore(e, b)
    requires forall k :: 0 <= k < |lines| ==> CR !in lines[k]
    ensures NoCRLF(RegionString(lines, b, e))
  {
    if b.line < e.line { NoReturnInLines(lines, b.line + 1, e.line); }
    assert CR !in RegionString(lines, b, e);
  }

  /** In a buffer without carriage returns every edit can be undone whose positions are on
      lines, that does not leave a line feed in a line, and that does not take away the
      line that the mark is on without deleting its region. */
  lemma ReversibleEdits(e: Ed, edit: Edit)
    requires e.dot.line < |e.lines| && e.dot.offset <= |e.lines[e.dot.line]|
    requires e.mark.Marked? ==> e.mark.pos.line < |e.lines| && e.mark.pos.offset <= |e.lines[e.mark.pos.line]|
    requires forall i :: 0 <= i < |e.lines| ==> '\n' !in e.lines[i] && '\r' !in e.lines[i]
    requires match edit
             case MoveTo(dot, mark) =>
               && dot.line < |e.lines| && dot.offset <= |e.lines[dot.line]|
               && (mark.Marked? ==> mark.pos.line < |e.lines|)
             case EditLine(text, offset, mark) =>
               offset <= |text| && '\n' !in text && (mark.Marked? ==> mark.pos.line < |e.lines|)
             case InsertSeparator => true
             case DeleteSeparator => e.mark.Marked? ==> e.mark.pos.line != e.dot.line + 1
             case InsertLines(s) => s != ""
             case DeleteRegion => true
    ensures Reversible(e, edit)
  {
    hide RegionString, NoCRLF;
    if CutsLines(e, edit) { NoReturnInRegion(e.lines, RegionBegin(e), RegionEnd(e)); }
  }

  // ---- runs, from their last event ----

  /** A run followed by one more event. */
  lemma {:induction false} RunLast(s: Session, events: seq<Event>, last: Event)
    requires Consistent(s) && CanRun(s, events + [last])
    ensures CanRun(s, events) && Consistent(Run(s, events)) && CanRun(Run(s, events), [last])
    ensures Run(s, events + [last]) == Run(Run(s, events), [last])
    decreases |events|
  {
    hide Undoable, Redoable, CanPerform, Perform, CanUndoEntry, CanRedoEntry, UndoEntry, RedoEntry, Undo, Redo;
    if events == [] {
      assert events + [last] == [last];
    } else {
      assert (events + [last])[1..] == events[1..] + [last];
      match events[0]
      case Do(c) => PerformThenUndo(s, c); RunLast(Perform(s, c), events[1..], last);
      case UndoEvent => UndoThenRedo(s); RunLast(Undo(s), events[1..], last);
      case RedoEvent => RedoThenUndo(s); RunLast(Redo(s), events[1..], last);
    }
  }

  lemma RunOne(s: Session, c: Command)
    requires Consistent(s)
    ensures CanRun(s, [Do(c)]) <==> CanPerform(s.ed, c)
    ensures CanRun(s, [Do(c)]) ==> Run(s, [Do(c)]) == Perform(s, c)
    ensures CanRun(s, [UndoEvent]) && (s.undos == [] || CanUndoEntry(s.ed, Top(s.undos)))
    ensures Run(s, [UndoEvent]) == Undo(s)
    ensures CanRun(s, [RedoEvent]) && (s.redos == [] || CanRedoEntry(s.ed, Top(s.redos)))
    ensures Run(s, [RedoEvent]) == Redo(s)
  {
    hide CanPerform, Perform, CanUndoEntry, CanRedoEntry, UndoEntry, RedoEntry, Undo, Redo, Undoable, Redoable;
    UndoThenRedo(s);
    RedoThenUndo(s);
    assert [Do(c)][1..] == [] && [UndoEvent][1..] == [] && [RedoEvent][1..] == [];
    if CanPerform(s.ed, c) {
      PerformThenUndo(s, c);
    }
  }

  /** Two runs, one after the other, are one run. */
  lemma {:induction false} RunsCompose(s: Session, events: seq<Event>, more: seq<Event>)
    requires Consistent(s) && CanRun(s, events)
    requires Consistent(Run(s, events)) && CanRun(Run(s, events), more)
    ensures CanRun(s, events + more) && Run(s, events + more) == Run(Run(s, events), more)
    decreases |events|
  {
    hide Undoable, Redoable, CanPerform, Perform, CanUndoEntry, CanRedoEntry, UndoEntry, RedoEntry, Undo, Redo;
    if events == [] {
      assert events + more == more;
    } else {
      assert (events + more)[1..] == events[1..] + more;
      match events[0]
      case Do(c) => PerformThenUndo(s, c); RunsCompose(Perform(s, c), events[1..], more);
      case UndoEvent => UndoThenRedo(s); RunsCompose(Undo(s), events[1..], more);
      case RedoEvent => RedoThenUndo(s); RunsCompose(Redo(s), events[1..], more);
    }
  }

  /** After any run with something to undo, an undo and a redo change nothing at all; with
      something to redo, neither do a redo and an undo. */
  lemma UndoRedoCancel(s: Session, events: seq<Event>)
    requires Consistent(s) && CanRun(s, events)
    ensures Consistent(Run(s, events))
    ensures Run(s, events).undos != [] ==>
              CanRun(s, events + [UndoEvent, RedoEvent]) && Run(s, events + [UndoEvent, RedoEvent]) == Run(s, events)
    ensures Run(s, events).redos != [] ==>
              CanRun(s, events + [RedoEvent, UndoEvent]) && Run(s, events + [RedoEvent, UndoEvent]) == Run(s, events)
  {
    hide CanRun, Run, CanPerform, Perform, CanUndoEntry, CanRedoEntry, UndoEntry, RedoEntry, Undo, Redo;
    hide Undoable, Redoable;
    RunKeepsOrigin(s, events);
    var t := Run(s, events);
    UndoThenRedo(t);
    RedoThenUndo(t);
    BackAndForth(t);
    if t.undos != [] { RunsCompose(s, events, [UndoEvent, RedoEvent]); }
    if t.redos != [] { RunsCompose(s, events, [RedoEvent, UndoEvent]); }
  }

  lemma BackAndForth(t: Session)
    requires Consistent(t)
    ensures t.undos != [] ==> CanRun(t, [UndoEvent, RedoEvent]) && Run(t, [UndoEvent, RedoEvent]) == t
    ensures t.redos != [] ==> CanRun(t, [RedoEvent, UndoEvent]) && Run(t, [RedoEvent, UndoEvent]) == t
  {
    hide CanUndoEntry, CanRedoEntry, UndoEntry, RedoEntry, Undo, Redo, Undoable, Redoable, CanRun, Run;
    var c := Compound([]);
    UndoThenRedo(t);
    RedoThenUndo(t);
    RunOne(t, c);
    RunOne(Undo(t), c);
    RunOne(Redo(t), c);
    RunsCompose(t, [UndoEvent], [RedoEvent]);
    RunsCompose(t, [RedoEvent], [UndoEvent]);
    assert [UndoEvent] + [RedoEvent] == [UndoEvent, RedoEvent];
    assert [RedoEvent] + [UndoEvent] == [RedoEvent, UndoEvent];
  }

  /** After any run, a command and an undo leave the buffer and the undo stack as they were,
      unless the command did nothing. */
  lemma DoUndoCancel(s: Session, events: seq<Event>, c: Command)
    requires Consistent(s) && CanRun(s, events + [Do(c)])
    ensures CanRun(s, events) && CanRun(s, events + [Do(c)] + [UndoEvent])
    ensures var t := Run(s, events);
            var u := Run(s, events + [Do(c)]);
            var v := Run(s, events + [Do(c)] + [UndoEvent]);
            if u.undos == t.undos then u.ed == t.ed else v.ed == t.ed && v.undos == t.undos
  {
    hide CanPerform, Perform, CanUndoEntry, CanRedoEntry, UndoEntry, RedoEntry, Undo, Redo, CanRun, Run;
    hide Undoable, Redoable;
    RunLast(s, events, Do(c));
    var t := Run(s, events);
    RunOne(t, c);
    PerformThenUndo(t, c);
    var u := Perform(t, c);
    RunOne(u, c);
    RunsCompose(s, events + [Do(c)], [UndoEvent]);
  }

  // ---- walks ----

  /** A walk followed by one more step, with the redo stack emptied or left alone. */
  lemma {:induction false} WalkLast(s: Session, steps: seq<Step>, last: Step)
    requires Undoable(s.ed, s.undos) && CanWalk(s, steps + [last])
    ensures CanWalk(s, steps) && Undoable(Walk(s, steps).ed, Walk(s, steps).undos)
    ensures var t := Walk(s, steps);
            match last
            case Edited(c, resets) =>
              CanPerform(t.ed, c)
              && Walk(s, steps + [last]) == if resets then Perform(t, c) else Perform(t, c).(redos := t.redos)
            case Back => (t.undos == [] || CanUndoEntry(t.ed, Top(t.undos))) && Walk(s, steps + [last]) == Undo(t)
    decreases |steps|
  {
    hide CanPerform, Perform, CanUndoEntry, CanRedoEntry, UndoEntry, RedoEntry;
    if steps == [] {
      assert steps + [last] == [last] && [last][1..] == [];
      if last.Edited? { PerformThenUndo(s, last.c); }
    } else {
      assert (steps + [last])[1..] == steps[1..] + [last];
      match steps[0]
      case Edited(c, resets) =>
        PerformThenUndo(s, c);
        WalkLast(if resets then Perform(s, c) else PerformKeeping(s, c), steps[1..], last);
      case Back => WalkLast(Undo(s), steps[1..], last);
    }
  }

  /** Commands that keep the redo stack, from the last of them. */
  lemma {:induction false} KeepAllLast(s: Session, cs: seq<Command>, c: Command)
    requires CanKeepAll(s, cs + [c])
    ensures CanKeepAll(s, cs) && CanPerform(KeepAll(s, cs).ed, c)
    ensures KeepAll(s, cs + [c]) == Perform(KeepAll(s, cs), c).(redos := s.redos)
    decreases |cs|
  {
    hide CanPerform, Perform;
    if cs == [] {
      assert cs + [c] == [c] && [c][1..] == [];
    } else {
      assert (cs + [c])[1..] == cs[1..] + [c];
      KeepAllLast(PerformKeeping(s, cs[0]), cs[1..], c);
    }
  }
}
