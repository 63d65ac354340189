/** Whole sessions: the undo and redo stacks, compound records, and what any run of edits,
    undos and redos keeps. */
module History {
  import opened Editing
  import opened Splice
  import opened Undoing
  import opened Redoing

  // ---- region deletions ----

  /** A region of several lines. */
  predicate CutsLines(e: Ed, edit: Edit) {
    edit.DeleteRegion? && e.mark.Marked? && e.mark.pos.line != e.dot.line
  }

  lemma RegionOrdered(e: Ed)
    requires e.mark.Marked?
    ensures !PosBefore(RegionEnd(e), RegionBegin(e))
  {
  }

  lemma DeleteInLineLinks(e: Ed)
    requires Allowed(e, DeleteRegion) && e.mark.Marked? && !CutsLines(e, DeleteRegion)
    ensures Links(e, Apply(e, DeleteRegion).ed, Apply(e, DeleteRegion).pushed[0])
  {
    var f := Apply(e, DeleteRegion).ed;
    var u := Apply(e, DeleteRegion).pushed[0];
    var i := e.dot.line;
    assert f.lines == e.lines[i := f.lines[i]];
    assert f.lines[i := e.DotText()] == e.lines;
    assert Undo1(f, u).ed == e;
  }

  /** Undoing the deletion of several lines gives back the buffer exactly when no line break
      in the region had a carriage return before it. */
  lemma DeleteLinesUndoneIff(e: Ed)
    requires Allowed(e, DeleteRegion) && CutsLines(e, DeleteRegion) && Clean(e.lines)
    ensures var o := Apply(e, DeleteRegion);
            CanUndo(o.ed, o.pushed[0]) && Undo1(o.ed, o.pushed[0]).ed == e
            <==> NoCRLF(RegionString(e.lines, RegionBegin(e), RegionEnd(e)))
  {
    hide InsertString, NoCRLF, RegionString, WithoutRegion;
    RegionOrdered(e);
    ReinsertedIff(e.lines, RegionBegin(e), RegionEnd(e));
  }

  lemma DeleteLinesLinks(e: Ed)
    requires Allowed(e, DeleteRegion) && CutsLines(e, DeleteRegion) && Clean(e.lines)
    requires NoCRLF(RegionString(e.lines, RegionBegin(e), RegionEnd(e)))
    ensures Links(e, Apply(e, DeleteRegion).ed, Apply(e, DeleteRegion).pushed[0])
  {
    hide InsertString, NoCRLF, RegionString, WithoutRegion;
    DeleteLinesUndoneIff(e);
  }

  // ---- every edit ----

  /** The edits whose undo is exact: all of them, but for a carriage return before a line
      break in a deleted region. */
  predicate Reversible(e: Ed, edit: Edit) {
    && Allowed(e, edit)
    && Clean(e.lines)
    && (edit.EditLine? ==> LF !in edit.text)
    && (CutsLines(e, edit) ==> NoCRLF(RegionString(e.lines, RegionBegin(e), RegionEnd(e))))
  }

  /** Undo takes back any edit, text, dot and mark, and redo then brings it back. */
  lemma EditLinks(e: Ed, edit: Edit)
    requires Reversible(e, edit)
    ensures var o := Apply(e, edit);
            |o.pushed| <= 1 && (o.pushed == [] ==> o.ed == e) && (o.pushed != [] ==> Links(e, o.ed, o.pushed[0]))
  {
    hide Links;
    match edit
    case MoveTo(dot, mark) => MoveLinks(e, dot, mark);
    case EditLine(text, offset, mark) => LineEditLinks(e, text, offset, mark);
    case InsertSeparator => InsertSeparatorLinks(e);
    case DeleteSeparator => if AtSeparator(e) { DeleteSeparatorLinks(e); }
    case InsertLines(s) => InsertLinesLinks(e, s);
    case DeleteRegion =>
      if e.mark.Marked? {
        if CutsLines(e, edit) { DeleteLinesLinks(e); } else { DeleteInLineLinks(e); }
      }
  }

  /** Links, and the record that redo uses is straight. */
  ghost predicate Ties(e: Ed, f: Ed, u: Record) {
    Links(e, f, u) && Straight(e, Undo1(f, u).pushed[0])
  }

  lemma EditTies(e: Ed, edit: Edit)
    requires Reversible(e, edit)
    ensures var o := Apply(e, edit);
            |o.pushed| <= 1 && (o.pushed == [] ==> o.ed == e) && (o.pushed != [] ==> Ties(e, o.ed, o.pushed[0]))
  {
    hide Links, Straight, Clean, Apply, CutsLines;
    EditLinks(e, edit);
    var o := Apply(e, edit);
    if o.pushed != [] {
      EditIsClean(e, edit);
      if o.pushed[0].action.LineEdited? {
        EditStays(e, edit);
      }
      LinkIsStraight(e, o.ed, o.pushed[0]);
    }
  }

  /** The redo record that undoing an edit leaves is good for the buffer that the edit was
      made in, and from any other it goes astray. */
  lemma RedoOfEditIff(e: Ed, edit: Edit, m: Ed)
    requires Reversible(e, edit) && Apply(e, edit).pushed != [] && Clean(m.lines)
    ensures var f, u := Apply(e, edit).ed, Apply(e, edit).pushed[0];
            CanUndo(f, u) && |Undo1(f, u).pushed| == 1
            && var r := Undo1(f, u).pushed[0];
               (CanRedo(m, r) && Redo1(m, r) == Swap(f, [u]) <==> m == e)
  {
    hide Straight, Clean, Apply, CanRedo, Redo1, CutsLines;
    EditTies(e, edit);
    var f, u := Apply(e, edit).ed, Apply(e, edit).pushed[0];
    RedoIff(e, m, Undo1(f, u).pushed[0]);
  }

  lemma EditIsClean(e: Ed, edit: Edit)
    requires Reversible(e, edit)
    ensures Clean(e.lines) && Sound(Apply(e, edit).ed) && Clean(Apply(e, edit).ed.lines)
  {
    ApplyKeepsClean(e, edit);
  }

  /** What is recorded as a line edit leaves dot on its line. */
  lemma EditStays(e: Ed, edit: Edit)
    requires Reversible(e, edit) && Apply(e, edit).pushed != [] && Apply(e, edit).pushed[0].action.LineEdited?
    ensures Apply(e, edit).ed.dot.line == e.dot.line
  {
  }

  lemma LinkIsStraight(e: Ed, f: Ed, u: Record)
    requires Links(e, f, u)
    requires Clean(e.lines) && Clean(f.lines)
    requires u.action.LineEdited? ==> f.dot.line == e.dot.line
    ensures Straight(e, Undo1(f, u).pushed[0])
  {
  }

  // ---- several records at once ----

  predicate CanUndoMany(f: Ed, us: seq<Record>)
    decreases |us|
  {
    us == [] || (CanUndo(f, us[|us| - 1]) && CanUndoMany(Undo1(f, us[|us| - 1]).ed, us[..|us| - 1]))
  }

  /** The records are undone from the last. */
  function UndoMany(f: Ed, us: seq<Record>): Swap
    requires CanUndoMany(f, us)
    decreases |us|
  {
    if us == [] then Swap(f, [])
    else
      var s := Undo1(f, us[|us| - 1]);
      var t := UndoMany(s.ed, us[..|us| - 1]);
      Swap(t.ed, s.pushed + t.pushed)
  }

  predicate CanRedoMany(e: Ed, rs: seq<Record>)
    decreases |rs|
  {
    rs == [] || (CanRedo(e, rs[|rs| - 1]) && CanRedoMany(Redo1(e, rs[|rs| - 1]).ed, rs[..|rs| - 1]))
  }

  function RedoMany(e: Ed, rs: seq<Record>): Swap
    requires CanRedoMany(e, rs)
    decreases |rs|
  {
    if rs == [] then Swap(e, [])
    else
      var s := Redo1(e, rs[|rs| - 1]);
      var t := RedoMany(s.ed, rs[..|rs| - 1]);
      Swap(t.ed, s.pushed + t.pushed)
  }

  lemma {:induction false} RedoFirstLast(e: Ed, r: Record, rs: seq<Record>)
    requires CanRedoMany(e, rs) && CanRedo(RedoMany(e, rs).ed, r)
    ensures CanRedoMany(e, [r] + rs)
    ensures var s := RedoMany(e, rs); var t := Redo1(s.ed, r);
            RedoMany(e, [r] + rs) == Swap(t.ed, s.pushed + t.pushed)
    decreases |rs|
  {
    hide CanRedo, Redo1;
    var all := [r] + rs;
    if rs == [] {
      assert all == [r] && all[..0] == [];
      assert RedoMany(Redo1(e, r).ed, []) == Swap(Redo1(e, r).ed, []);
    } else {
      var last := rs[|rs| - 1];
      assert all[|all| - 1] == last && all[..|all| - 1] == [r] + rs[..|rs| - 1];
      RedoFirstLast(Redo1(e, last).ed, r, rs[..|rs| - 1]);
    }
  }

  /** Each record is straight where its turn comes. */
  predicate StraightMany(e: Ed, rs: seq<Record>)
    decreases |rs|
  {
    rs == [] || (Straight(e, rs[|rs| - 1]) && StraightMany(Redo1(e, rs[|rs| - 1]).ed, rs[..|rs| - 1]))
  }

  lemma {:induction false} StraightFirstLast(e: Ed, r: Record, rs: seq<Record>)
    requires CanRedoMany(e, rs) && StraightMany(e, rs) && Straight(RedoMany(e, rs).ed, r)
    ensures StraightMany(e, [r] + rs)
    decreases |rs|
  {
    hide CanRedo, Redo1, Straight;
    var all := [r] + rs;
    if rs == [] {
      assert all == [r] && all[..0] == [];
      StraightCan(e, r);
    } else {
      var last := rs[|rs| - 1];
      assert all[|all| - 1] == last && all[..|all| - 1] == [r] + rs[..|rs| - 1];
      StraightFirstLast(Redo1(e, last).ed, r, rs[..|rs| - 1]);
    }
  }

  lemma PushesAtMostOne(m: Ed, r: Record)
    requires CanRedo(m, r)
    ensures |Redo1(m, r).pushed| <= 1
  {
  }

  lemma {:induction false} ManyPushed(m: Ed, rs: seq<Record>)
    requires CanRedoMany(m, rs)
    ensures |RedoMany(m, rs).pushed| <= |rs|
    ensures StraightMany(m, rs) ==> |RedoMany(m, rs).pushed| == |rs|
    decreases |rs|
  {
    hide CanRedo, Redo1, Straight;
    if rs != [] {
      var last := rs[|rs| - 1];
      PushesAtMostOne(m, last);
      ManyPushed(Redo1(m, last).ed, rs[..|rs| - 1]);
      if StraightMany(m, rs) {
        StraightCan(m, last);
      }
    }
  }

  lemma {:induction false} StraightManyCan(e: Ed, rs: seq<Record>)
    requires StraightMany(e, rs)
    ensures CanRedoMany(e, rs)
    decreases |rs|
  {
    hide CanRedo, Redo1, Straight;
    if rs != [] {
      StraightCan(e, rs[|rs| - 1]);
      StraightManyCan(Redo1(e, rs[|rs| - 1]).ed, rs[..|rs| - 1]);
    }
  }

  lemma {:induction false} ManyKeepsClean(e: Ed, rs: seq<Record>)
    requires StraightMany(e, rs) && CanRedoMany(e, rs) && Clean(e.lines)
    ensures Clean(RedoMany(e, rs).ed.lines)
    decreases |rs|
  {
    hide CanRedo, Redo1, Straight, Clean;
    if rs != [] {
      RedoKeepsClean(e, e, rs[|rs| - 1]);
      ManyKeepsClean(Redo1(e, rs[|rs| - 1]).ed, rs[..|rs| - 1]);
    }
  }

  lemma {:induction false} ManyDetermine(e: Ed, m: Ed, rs: seq<Record>)
    requires StraightMany(e, rs) && CanRedoMany(e, rs) && Clean(m.lines)
    requires CanRedoMany(m, rs) && RedoMany(m, rs) == RedoMany(e, rs)
    ensures m == e
    decreases |rs|
  {
    hide CanRedo, Redo1, Straight, Clean;
    if rs != [] {
      var last, before := rs[|rs| - 1], rs[..|rs| - 1];
      var s, t := Redo1(e, last), Redo1(m, last);
      var s', t' := RedoMany(s.ed, before), RedoMany(t.ed, before);
      StraightCan(e, last);
      PushesAtMostOne(m, last);
      ManyPushed(s.ed, before);
      ManyPushed(t.ed, before);
      var all := s.pushed + s'.pushed;
      assert all == RedoMany(e, rs).pushed && all == t.pushed + t'.pushed;
      assert |all| == 1 + |s'.pushed| && |all| == |t.pushed| + |t'.pushed|;
      SameSplit(s.pushed, s'.pushed, t.pushed, t'.pushed);
      RedoKeepsClean(e, m, last);
      ManyDetermine(s.ed, t.ed, before);
      RedoDetermines(e, m, last);
    }
  }

  lemma SameSplit(a: seq<Record>, b: seq<Record>, c: seq<Record>, d: seq<Record>)
    requires |a| == |c| && a + b == c + d
    ensures a == c && b == d
  {
    assert a == (a + b)[..|a|] && c == (c + d)[..|a|];
    assert b == (a + b)[|a|..] && d == (c + d)[|a|..];
  }

  /** The records take f back to e one by one. */
  ghost predicate LinksMany(e: Ed, f: Ed, us: seq<Record>)
    decreases |us|
  {
    if us == [] then e == f
    else
      var u := us[|us| - 1];
      CanUndo(f, u) && Ties(Undo1(f, u).ed, f, u) && LinksMany(e, Undo1(f, u).ed, us[..|us| - 1])
  }

  /** Undoing a compound gives a compound whose redo brings everything back. */
  lemma {:induction false} CompoundSwaps(e: Ed, f: Ed, us: seq<Record>)
    requires LinksMany(e, f, us)
    ensures CanUndoMany(f, us) && UndoMany(f, us).ed == e
    ensures var rs := UndoMany(f, us).pushed;
            CanRedoMany(e, rs) && RedoMany(e, rs) == Swap(f, us) && StraightMany(e, rs)
    decreases |us|
  {
    hide CanUndo, Undo1, CanRedo, Redo1, Straight;
    if us != [] {
      var u := us[|us| - 1];
      var m := Undo1(f, u).ed;
      var r := Undo1(f, u).pushed[0];
      var before := us[..|us| - 1];
      CompoundSwaps(e, m, before);
      RedoFirstLast(e, r, UndoMany(m, before).pushed);
      StraightFirstLast(e, r, UndoMany(m, before).pushed);
      assert Undo1(f, u).pushed == [r];
      assert before + [u] == us;
    }
  }

  // ---- a command, its edits recorded singly or as one compound ----

  datatype Command = Single(edit: Edit) | Compound(edits: seq<Edit>)

  predicate AllReversible(e: Ed, edits: seq<Edit>)
    decreases |edits|
  {
    edits == [] || (Reversible(e, edits[0]) && AllReversible(Apply(e, edits[0]).ed, edits[1..]))
  }

  function ApplyAll(e: Ed, edits: seq<Edit>): Outcome
    requires AllReversible(e, edits)
    decreases |edits|
  {
    if edits == [] then Outcome(e, [])
    else
      var o := Apply(e, edits[0]);
      var p := ApplyAll(o.ed, edits[1..]);
      Outcome(p.ed, o.pushed + p.pushed)
  }

  lemma {:induction false} LinksManyFirst(d: Ed, e: Ed, f: Ed, u: Record, us: seq<Record>)
    requires Ties(d, e, u) && LinksMany(e, f, us)
    ensures LinksMany(d, f, [u] + us)
    decreases |us|
  {
    hide CanUndo, Undo1, CanRedo, Redo1, Straight;
    var all := [u] + us;
    if us == [] {
      assert all[..|all| - 1] == [];
    } else {
      var last := us[|us| - 1];
      assert all[|all| - 1] == last && all[..|all| - 1] == [u] + us[..|us| - 1];
      LinksManyFirst(d, e, Undo1(f, last).ed, u, us[..|us| - 1]);
    }
  }

  lemma {:induction false} ApplyAllLinks(e: Ed, edits: seq<Edit>)
    requires AllReversible(e, edits)
    ensures var o := ApplyAll(e, edits); LinksMany(e, o.ed, o.pushed)
    decreases |edits|
  {
    hide Allowed, Apply, Ties, LinksMany;
    if edits == [] {
      LinksNone(e);
    } else {
      var o := Apply(e, edits[0]);
      EditTies(e, edits[0]);
      var p := ApplyAll(o.ed, edits[1..]);
      ApplyAllLinks(o.ed, edits[1..]);
      if o.pushed == [] {
        assert o.pushed + p.pushed == p.pushed;
      } else {
        LinksManyFirst(e, o.ed, p.ed, o.pushed[0], p.pushed);
        assert o.pushed == [o.pushed[0]];
      }
    }
  }

  lemma LinksNone(e: Ed)
    ensures LinksMany(e, e, [])
  {
  }

  // ---- the stacks ----

  datatype Entry = One(r: Record) | Many(records: seq<Record>)

  datatype Session = Session(ed: Ed, undos: seq<Entry>, redos: seq<Entry>)

  datatype Stepped = Stepped(ed: Ed, pushed: seq<Entry>)

  function Ones(rs: seq<Record>): (r: seq<Entry>)
    ensures |r| == |rs| && forall i :: 0 <= i < |rs| ==> r[i] == One(rs[i])
  {
    seq(|rs|, i requires 0 <= i < |rs| => One(rs[i]))
  }

  predicate CanUndoEntry(f: Ed, en: Entry) {
    match en case One(r) => CanUndo(f, r) case Many(rs) => CanUndoMany(f, rs)
  }

  function UndoEntry(f: Ed, en: Entry): Stepped
    requires CanUndoEntry(f, en)
  {
    match en
    case One(r) => var s := Undo1(f, r); Stepped(s.ed, Ones(s.pushed))
    case Many(rs) => var s := UndoMany(f, rs); Stepped(s.ed, [Many(s.pushed)])
  }

  predicate CanRedoEntry(e: Ed, en: Entry) {
    match en case One(r) => CanRedo(e, r) case Many(rs) => CanRedoMany(e, rs)
  }

  function RedoEntry(e: Ed, en: Entry): Stepped
    requires CanRedoEntry(e, en)
  {
    match en
    case One(r) => var s := Redo1(e, r); Stepped(s.ed, Ones(s.pushed))
    case Many(rs) => var s := RedoMany(e, rs); Stepped(s.ed, [Many(s.pushed)])
  }

  predicate StraightEntry(e: Ed, en: Entry) {
    match en case One(r) => Straight(e, r) case Many(rs) => Clean(e.lines) && StraightMany(e, rs)
  }

  /** A redo entry is good for one buffer only: from any clean buffer the redo is possible
      and leads to the buffer and the undo entry that it leads to from e just when that
      buffer is e. */
  lemma RedoEntryIff(e: Ed, m: Ed, en: Entry)
    requires StraightEntry(e, en) && Clean(m.lines)
    ensures CanRedoEntry(e, en)
    ensures CanRedoEntry(m, en) && RedoEntry(m, en) == RedoEntry(e, en) <==> m == e
  {
    hide CanRedo, Redo1, Straight, StraightMany, CanRedoMany, RedoMany, Clean;
    match en
    case One(r) =>
      StraightCan(e, r);
      if CanRedo(m, r) {
        SameOnes(Redo1(m, r), Redo1(e, r));
      }
      RedoIff(e, m, r);
    case Many(rs) =>
      StraightManyCan(e, rs);
      if CanRedoMany(m, rs) && RedoEntry(m, en) == RedoEntry(e, en) {
        ManyDetermine(e, m, rs);
      }
  }

  lemma SameOnes(s: Swap, t: Swap)
    ensures Stepped(s.ed, Ones(s.pushed)) == Stepped(t.ed, Ones(t.pushed)) ==> s == t
  {
    if Ones(s.pushed) == Ones(t.pushed) {
      assert |s.pushed| == |Ones(s.pushed)| == |t.pushed|;
      assert forall i :: 0 <= i < |s.pushed| ==> One(s.pushed[i]) == Ones(s.pushed)[i] == One(t.pushed[i]);
      assert s.pushed == t.pushed;
    }
  }

  /** Undoing u takes f to e and leaves r; redoing r takes e to f and leaves u, and only
      from e. */
  predicate Swaps(e: Ed, f: Ed, u: Entry, r: Entry) {
    && StraightEntry(e, r)
    && CanUndoEntry(f, u) && UndoEntry(f, u) == Stepped(e, [r])
    && CanRedoEntry(e, r) && RedoEntry(e, r) == Stepped(f, [u])
  }

  function Top(stack: seq<Entry>): Entry
    requires stack != []
  {
    stack[|stack| - 1]
  }

  function Rest(stack: seq<Entry>): seq<Entry>
    requires stack != []
  {
    stack[..|stack| - 1]
  }

  predicate Undoable(f: Ed, stack: seq<Entry>)
    decreases |stack|
  {
    stack == [] || (
      && CanUndoEntry(f, Top(stack))
      && var s := UndoEntry(f, Top(stack));
         |s.pushed| == 1 && Swaps(s.ed, f, Top(stack), s.pushed[0]) && Undoable(s.ed, Rest(stack)))
  }

  predicate Redoable(e: Ed, stack: seq<Entry>)
    decreases |stack|
  {
    stack == [] || (
      && CanRedoEntry(e, Top(stack))
      && var s := RedoEntry(e, Top(stack));
         |s.pushed| == 1 && Swaps(e, s.ed, s.pushed[0], Top(stack)) && Redoable(s.ed, Rest(stack)))
  }

  lemma UndoableTop(f: Ed, stack: seq<Entry>)
    requires Undoable(f, stack) && stack != []
    ensures CanUndoEntry(f, Top(stack))
    ensures var s := UndoEntry(f, Top(stack));
            |s.pushed| == 1 && Swaps(s.ed, f, Top(stack), s.pushed[0]) && Undoable(s.ed, Rest(stack))
  {
    hide CanUndoEntry, UndoEntry, Swaps;
  }

  lemma RedoableTop(e: Ed, stack: seq<Entry>)
    requires Redoable(e, stack) && stack != []
    ensures CanRedoEntry(e, Top(stack))
    ensures var s := RedoEntry(e, Top(stack));
            |s.pushed| == 1 && Swaps(e, s.ed, s.pushed[0], Top(stack)) && Redoable(s.ed, Rest(stack))
  {
    hide CanRedoEntry, RedoEntry, Swaps;
  }

  predicate Consistent(s: Session) { Undoable(s.ed, s.undos) && Redoable(s.ed, s.redos) }

  /** Undo with something to undo; with an empty stack nothing changes. */
  function Undo(s: Session): Session
    requires s.undos == [] || CanUndoEntry(s.ed, Top(s.undos))
  {
    if s.undos == [] then s
    else
      var t := UndoEntry(s.ed, Top(s.undos));
      Session(t.ed, Rest(s.undos), s.redos + t.pushed)
  }

  function Redo(s: Session): Session
    requires s.redos == [] || CanRedoEntry(s.ed, Top(s.redos))
  {
    if s.redos == [] then s
    else
      var t := RedoEntry(s.ed, Top(s.redos));
      Session(t.ed, s.undos + t.pushed, Rest(s.redos))
  }

  predicate CanPerform(e: Ed, c: Command) {
    match c
    case Single(edit) => Reversible(e, edit)
    case Compound(edits) => Clean(e.lines) && AllReversible(e, edits)
  }

  /** A command that starts by emptying the redo stack. */
  function Perform(s: Session, c: Command): Session
    requires CanPerform(s.ed, c)
  {
    match c
    case Single(edit) =>
      var o := Apply(s.ed, edit); Session(o.ed, s.undos + Ones(o.pushed), [])
    case Compound(edits) =>
      var o := ApplyAll(s.ed, edits); Session(o.ed, s.undos + [Many(o.pushed)], [])
  }

  // ---- what every step keeps ----

  lemma TopAndRest(stack: seq<Entry>, en: Entry)
    ensures Top(stack + [en]) == en && Rest(stack + [en]) == stack
  {
  }

  lemma PushUndo(e: Ed, f: Ed, stack: seq<Entry>, u: Entry, r: Entry)
    requires Undoable(e, stack) && Swaps(e, f, u, r)
    ensures Undoable(f, stack + [u])
  {
    hide CanUndoEntry, UndoEntry, CanRedoEntry, RedoEntry;
    TopAndRest(stack, u);
    assert UndoEntry(f, u) == Stepped(e, [r]);
  }

  lemma PushRedo(e: Ed, f: Ed, stack: seq<Entry>, u: Entry, r: Entry)
    requires Redoable(f, stack) && Swaps(e, f, u, r)
    ensures Redoable(e, stack + [r])
  {
    hide CanUndoEntry, UndoEntry, CanRedoEntry, RedoEntry;
    TopAndRest(stack, r);
    assert RedoEntry(e, r) == Stepped(f, [u]);
  }

  /** An undo keeps the session consistent, and a redo straight after it gives the session
      back whole: text, dot, mark and both stacks. */
  lemma UndoThenRedo(s: Session)
    requires Consistent(s)
    ensures s.undos == [] || CanUndoEntry(s.ed, Top(s.undos))
    ensures Consistent(Undo(s))
    ensures s.undos != [] ==> Redo(Undo(s)) == s
  {
    hide CanUndoEntry, UndoEntry, CanRedoEntry, RedoEntry, Undoable, Redoable, StraightEntry;
    if s.undos != [] {
      var u := Top(s.undos);
      UndoableTop(s.ed, s.undos);
      var t := UndoEntry(s.ed, u);
      var r := t.pushed[0];
      assert t.pushed == [r];
      PushRedo(t.ed, s.ed, s.redos, u, r);
      TopAndRest(s.redos, r);
      assert Rest(s.undos) + [u] == s.undos;
    }
  }

  lemma RedoThenUndo(s: Session)
    requires Consistent(s)
    ensures s.redos == [] || CanRedoEntry(s.ed, Top(s.redos))
    ensures Consistent(Redo(s))
    ensures s.redos != [] ==> Undo(Redo(s)) == s
  {
    hide CanUndoEntry, UndoEntry, CanRedoEntry, RedoEntry, Undoable, Redoable, StraightEntry;
    if s.redos != [] {
      var r := Top(s.redos);
      RedoableTop(s.ed, s.redos);
      var t := RedoEntry(s.ed, r);
      var u := t.pushed[0];
      assert t.pushed == [u];
      PushUndo(s.ed, t.ed, s.undos, u, r);
      TopAndRest(s.undos, u);
      assert Rest(s.redos) + [r] == s.redos;
    }
  }

  lemma OneSwaps(e: Ed, f: Ed, u: Record)
    requires Ties(e, f, u)
    ensures Swaps(e, f, One(u), One(Undo1(f, u).pushed[0]))
  {
    hide CanUndo, Undo1, CanRedo, Redo1, Straight;
    var r := Undo1(f, u).pushed[0];
    assert Ones([u]) == [One(u)] && Ones([r]) == [One(r)];
    assert Undo1(f, u).pushed == [r];
  }

  lemma ManySwaps(e: Ed, f: Ed, us: seq<Record>)
    requires LinksMany(e, f, us) && Clean(e.lines)
    ensures CanUndoMany(f, us) && Swaps(e, f, Many(us), Many(UndoMany(f, us).pushed))
  {
    hide LinksMany, StraightMany, Clean;
    CompoundSwaps(e, f, us);
  }

  /** Every command, single or compound, can be undone by one undo. */
  lemma PerformThenUndo(s: Session, c: Command)
    requires Undoable(s.ed, s.undos) && CanPerform(s.ed, c)
    ensures var t := Perform(s, c);
            Consistent(t) && (t.undos != s.undos ==> Undo(t).ed == s.ed && Undo(t).undos == s.undos)
            && (t.undos == s.undos ==> t.ed == s.ed)
  {
    hide Allowed, AllReversible, Apply, ApplyAll, Ties, LinksMany, CanUndo, Undo1, Swaps;
    match c
    case Single(edit) =>
      EditTies(s.ed, edit);
      var o := Apply(s.ed, edit);
      if o.pushed == [] {
        assert s.undos + Ones(o.pushed) == s.undos;
      } else {
        var u := o.pushed[0];
        assert Ones(o.pushed) == [One(u)];
        LinksCan(s.ed, o.ed, u);
        OneSwaps(s.ed, o.ed, u);
        Pushed(s, o.ed, One(u), One(Undo1(o.ed, u).pushed[0]));
      }
    case Compound(edits) =>
      ApplyAllLinks(s.ed, edits);
      var o := ApplyAll(s.ed, edits);
      ManySwaps(s.ed, o.ed, o.pushed);
      Pushed(s, o.ed, Many(o.pushed), Many(UndoMany(o.ed, o.pushed).pushed));
  }

  lemma LinksCan(e: Ed, f: Ed, u: Record)
    requires Ties(e, f, u)
    ensures CanUndo(f, u) && |Undo1(f, u).pushed| == 1
  {
  }

  lemma Pushed(s: Session, f: Ed, u: Entry, r: Entry)
    requires Undoable(s.ed, s.undos) && Swaps(s.ed, f, u, r)
    ensures var t := Session(f, s.undos + [u], []);
            Consistent(t) && Undo(t).ed == s.ed && Undo(t).undos == s.undos && t.undos != s.undos
  {
    hide CanUndoEntry, UndoEntry, CanRedoEntry, RedoEntry;
    PushUndo(s.ed, f, s.undos, u, r);
    TopAndRest(s.undos, u);
    assert |s.undos + [u]| > |s.undos|;
  }

  // ---- whole sessions ----

  datatype Event = Do(c: Command) | UndoEvent | RedoEvent

  /** Each command is allowed where it comes; nothing is asked of undos and redos. */
  predicate CanRun(s: Session, events: seq<Event>)
    requires Consistent(s)
    decreases |events|
  {
    events == [] || match events[0]
      case Do(c) => CanPerform(s.ed, c) && (PerformThenUndo(s, c); CanRun(Perform(s, c), events[1..]))
      case UndoEvent => UndoThenRedo(s); CanRun(Undo(s), events[1..])
      case RedoEvent => RedoThenUndo(s); CanRun(Redo(s), events[1..])
  }

  function Run(s: Session, events: seq<Event>): Session
    requires Consistent(s) && CanRun(s, events)
    decreases |events|
  {
    if events == [] then s
    else match events[0]
      case Do(c) => PerformThenUndo(s, c); Run(Perform(s, c), events[1..])
      case UndoEvent => UndoThenRedo(s); Run(Undo(s), events[1..])
      case RedoEvent => RedoThenUndo(s); Run(Redo(s), events[1..])
  }

  /** The buffer that undoing the whole stack leads to. */
  function Origin(f: Ed, stack: seq<Entry>): Ed
    requires Undoable(f, stack)
    decreases |stack|
  {
    if stack == [] then f else Origin(UndoEntry(f, Top(stack)).ed, Rest(stack))
  }

  lemma OriginOfUndo(s: Session)
    requires Consistent(s)
    ensures Consistent(Undo(s)) && Origin(Undo(s).ed, Undo(s).undos) == Origin(s.ed, s.undos)
  {
    UndoThenRedo(s);
  }

  /** Nothing that happens in a session changes where undoing everything leads. */
  lemma {:induction false} RunKeepsOrigin(s: Session, events: seq<Event>)
    requires Consistent(s) && CanRun(s, events)
    ensures var t := Run(s, events); Consistent(t) && Origin(t.ed, t.undos) == Origin(s.ed, s.undos)
    decreases |events|
  {
    hide CanUndoEntry, CanRedoEntry, UndoEntry, RedoEntry, CanPerform, Perform;
    if events != [] {
      match events[0]
      case Do(c) =>
        PerformThenUndo(s, c);
        OriginOfUndo(Perform(s, c));
        RunKeepsOrigin(Perform(s, c), events[1..]);
      case UndoEvent =>
        OriginOfUndo(s);
        RunKeepsOrigin(Undo(s), events[1..]);
      case RedoEvent =>
        RedoThenUndo(s);
        OriginOfUndo(Redo(s));
        RunKeepsOrigin(Redo(s), events[1..]);
    }
  }

  function UndoTimes(s: Session, n: nat): (t: Session)
    requires Consistent(s)
    ensures Consistent(t)
    decreases n
  {
    if n == 0 then s else UndoThenRedo(s); UndoTimes(Undo(s), n - 1)
  }

  function RedoTimes(s: Session, n: nat): (t: Session)
    requires Consistent(s)
    ensures Consistent(t)
  {
    if n == 0 then s
    else
      var t := RedoTimes(s, n - 1);
      RedoThenUndo(t); Redo(t)
  }

  lemma {:induction false} UndoAll(s: Session)
    requires Consistent(s)
    ensures var t := UndoTimes(s, |s.undos|); t.undos == [] && t.ed == Origin(s.ed, s.undos)
    decreases |s.undos|
  {
    hide CanUndoEntry, CanRedoEntry, UndoEntry, RedoEntry;
    if s.undos != [] {
      UndoThenRedo(s);
      OriginOfUndo(s);
      UndoAll(Undo(s));
    }
  }

  /** Any number of undos is taken back by as many redos. */
  lemma {:induction false} RedoAll(s: Session, n: nat)
    requires Consistent(s) && n <= |s.undos|
    ensures RedoTimes(UndoTimes(s, n), n) == s
    decreases n
  {
    hide CanUndoEntry, CanRedoEntry, UndoEntry, RedoEntry, Undoable, Redoable;
    if n > 0 {
      UndoThenRedo(s);
      RedoAll(Undo(s), n - 1);
    }
  }

  /** A whole session from empty stacks: whatever was done, undone and redone, undoing all
      that is on the stack gives the original lines, dot and mark, and redoing as often
      gives back the session as it was. */
  lemma WholeSession(e: Ed, events: seq<Event>)
    requires CanRun(Session(e, [], []), events)
    ensures var t := Run(Session(e, [], []), events);
            && Consistent(t)
            && UndoTimes(t, |t.undos|).ed == e
            && RedoTimes(UndoTimes(t, |t.undos|), |t.undos|) == t
  {
    hide CanUndoEntry, CanRedoEntry, UndoEntry, RedoEntry, CanPerform, Perform, CanRun;
    var s := Session(e, [], []);
    RunKeepsOrigin(s, events);
    var t := Run(s, events);
    UndoAll(t);
    RedoAll(t, |t.undos|);
  }

  // ---- no line ever holds a separator ----

  lemma {:induction false} ApplyAllKeepsClean(e: Ed, edits: seq<Edit>)
    requires AllReversible(e, edits) && Clean(e.lines)
    ensures Clean(ApplyAll(e, edits).ed.lines)
    decreases |edits|
  {
    hide Apply, Clean;
    if edits != [] {
      EditIsClean(e, edits[0]);
      ApplyAllKeepsClean(Apply(e, edits[0]).ed, edits[1..]);
    }
  }

  lemma PerformKeepsClean(s: Session, c: Command)
    requires CanPerform(s.ed, c)
    ensures Clean(s.ed.lines) && Clean(Perform(s, c).ed.lines)
  {
    match c
    case Single(edit) => EditIsClean(s.ed, edit);
    case Compound(edits) => ApplyAllKeepsClean(s.ed, edits);
  }

  lemma StraightIsClean(e: Ed, en: Entry)
    requires StraightEntry(e, en)
    ensures Clean(e.lines) && CanRedoEntry(e, en) && Clean(RedoEntry(e, en).ed.lines)
  {
    hide Clean;
    match en
    case One(r) => StraightCan(e, r); RedoKeepsClean(e, e, r);
    case Many(rs) => StraightManyCan(e, rs); ManyKeepsClean(e, rs);
  }

  /** Whatever runs in a session, no line comes to hold a line separator. */
  lemma {:induction false} RunKeepsClean(s: Session, events: seq<Event>)
    requires Consistent(s) && CanRun(s, events) && Clean(s.ed.lines)
    ensures Clean(Run(s, events).ed.lines)
    decreases |events|
  {
    hide CanUndoEntry, CanRedoEntry, UndoEntry, RedoEntry, CanPerform, Perform, StraightEntry, Clean;
    if events != [] {
      match events[0]
      case Do(c) =>
        PerformThenUndo(s, c);
        PerformKeepsClean(s, c);
        RunKeepsClean(Perform(s, c), events[1..]);
      case UndoEvent =>
        UndoThenRedo(s);
        if s.undos != [] {
          var t := UndoEntry(s.ed, Top(s.undos));
          StraightIsClean(t.ed, t.pushed[0]);
        }
        RunKeepsClean(Undo(s), events[1..]);
      case RedoEvent =>
        RedoThenUndo(s);
        if s.redos != [] {
          StraightIsClean(s.ed, Top(s.redos));
        }
        RunKeepsClean(Redo(s), events[1..]);
    }
  }
}
