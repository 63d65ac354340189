/** Deleting a whole line, which undo does not always take back and redo does not record. */
module LineDeletion {
  import opened Editing
  import opened Splice
  import opened Undoing

  /** Dot's line goes, in a buffer of more than one; dot moves to the start of the next line,
      or to the end of the previous one when there is no next. */
  function DeleteLine(e: Ed): (f: Ed)
    requires Sound(e) && |e.lines| > 1
    ensures Sound(f) && |f.lines| == |e.lines| - 1
  {
    var d := e.dot.line;
    Ed(Dropped(e.lines, d, d + 1),
       if d + 1 < |e.lines| then Pos(d, 0) else Pos(d - 1, |e.lines[d - 1]|),
       Unmarked)
  }

  /** The text comes back before dot's line, or after it when dot is on the last line. */
  function UndoDeleteLine(f: Ed, dot: Pos, text: string): Ed
    requires Sound(f) && dot.line <= |f.lines|
  {
    var i := if f.dot.line + 1 < |f.lines| then f.dot.line else f.dot.line + 1;
    var lines := Inserted(f.lines, i, text);
    Ed(lines, Pos(dot.line, Min(dot.offset, |lines[dot.line]|)), f.mark)
  }

  /** The line goes with the separator behind it, or, if it is the last, with the one before
      it; dot stands where they were. */
  lemma DeleteLineText(e: Ed)
    requires Sound(e) && |e.lines| > 1
    ensures var (f, start) := (DeleteLine(e), Pos(e.dot.line, 0));
            && f.mark.Unmarked?
            && if e.dot.line + 1 < |e.lines|
               then Before(f.lines, f.dot) == Before(e.lines, start)
                    && After(e.lines, start) == e.DotText() + "\n" + After(f.lines, f.dot)
               else Before(e.lines, start) == Before(f.lines, f.dot) + "\n" && After(f.lines, f.dot) == ""
  {
    var (f, d) := (DeleteLine(e), e.dot.line);
    if d + 1 < |e.lines| {
      assert f.lines[..d] == e.lines[..d] && f.lines[d..] == e.lines[d + 1..];
      assert f.lines[d + 1..] == e.lines[d + 1..][1..];
    } else {
      assert f.lines[..d - 1] == e.lines[..d - 1] && e.lines[..d] == e.lines[..d - 1] + [e.lines[d - 1]];
      EndedAppend(e.lines[..d - 1], [e.lines[d - 1]]);
      assert Ended([e.lines[d - 1]]) == e.lines[d - 1] + "\n";
    }
  }

  /** Undo puts the text in as a line above dot's, or, from the last line, behind it all. */
  lemma UndoDeleteLineText(f: Ed, dot: Pos, text: string)
    requires Sound(f) && dot.line <= |f.lines|
    ensures var (back, i) := (UndoDeleteLine(f, dot, text), f.dot.line);
            && Legal(back.lines, back.dot) && back.dot.line == dot.line
            && (dot.offset <= |back.lines[dot.line]| ==> back.dot == dot)
            && if i + 1 < |f.lines|
               then Before(back.lines, Pos(i + 1, 0)) == Before(f.lines, Pos(i, 0)) + text + "\n"
                    && After(back.lines, Pos(i + 1, 0)) == After(f.lines, Pos(i, 0))
               else Contents(back.lines) == Contents(f.lines) + "\n" + text
  {
    var i := f.dot.line;
    if i + 1 < |f.lines| {
      LineInsertedText(f.lines, i, text);
    } else {
      LineAddedText(f.lines, text);
      assert Inserted(f.lines, i + 1, text) == f.lines + [text];
    }
  }

  lemma LineInsertedText(lines: seq<string>, i: nat, text: string)
    requires i + 1 < |lines|
    ensures var more := Inserted(lines, i, text);
            && Before(more, Pos(i + 1, 0)) == Before(lines, Pos(i, 0)) + text + "\n"
            && After(more, Pos(i + 1, 0)) == After(lines, Pos(i, 0))
  {
    var more := Inserted(lines, i, text);
    assert more[..i + 1] == lines[..i] + [text] && more[i + 2..] == lines[i + 1..];
    EndedAppend(lines[..i], [text]);
    assert Ended([text]) == text + "\n";
  }

  lemma LineAddedText(lines: seq<string>, text: string)
    requires lines != []
    ensures Contents(lines + [text]) == Contents(lines) + "\n" + text
  {
    BegunAppend(lines[1..], [text]);
    assert (lines + [text])[1..] == lines[1..] + [text] && Begun([text]) == "\n" + text;
  }

  lemma {:induction false} BegunAppend(a: seq<string>, b: seq<string>)
    ensures Begun(a + b) == Begun(a) + Begun(b)
  {
    if a == [] {
      assert a + b == b;
    } else {
      assert (a + b)[1..] == a[1..] + b;
      BegunAppend(a[1..], b);
    }
  }

  /** Undo gives the buffer back exactly when the line was not the last but one, or had the
      same text as the last. */
  lemma DeleteLineUndoneIff(e: Ed)
    requires Sound(e) && |e.lines| > 1
    ensures UndoDeleteLine(DeleteLine(e), e.dot, e.DotText()) == e.(mark := Unmarked)
            <==> e.dot.line != |e.lines| - 2 || e.lines[|e.lines| - 2] == e.lines[|e.lines| - 1]
  {
    var n, d := |e.lines|, e.dot.line;
    var back := UndoDeleteLine(DeleteLine(e), e.dot, e.DotText());
    if d != n - 2 {
      assert back.lines == e.lines;
    } else {
      assert back.lines == e.lines[..d] + [e.lines[n - 1], e.lines[d]];
      assert back.lines[d] == e.lines[n - 1];
      if e.lines[d] == e.lines[n - 1] {
        assert back.lines == e.lines;
      }
    }
  }

  /** Where undo is exact, deleting the line again leads to the same buffer as before. */
  lemma DeleteLineAgain(e: Ed)
    requires Sound(e) && |e.lines| > 1 && e.mark.Unmarked?
    requires e.dot.line != |e.lines| - 2 || e.lines[|e.lines| - 2] == e.lines[|e.lines| - 1]
    ensures var back := UndoDeleteLine(DeleteLine(e), e.dot, e.DotText());
            Sound(back) && |back.lines| > 1 && DeleteLine(back) == DeleteLine(e)
  {
    DeleteLineUndoneIff(e);
  }
}
