/** The editor's buffer object: the list of lines, dot, mark and top line, changed in place. */
module EditorBuffer {
  import opened Editing
  import opened History
  import opened LineList
  import opened Pasting
  import opened Undoing

  /** A compound record being filled, or none. */
  datatype Scope = Outside | Collecting(records: seq<Record>)

  /** The value without lines i up to j. */
  function Without(e: Ed, i: nat, j: nat): Ed
    requires i <= j <= |e.lines|
  {
    Ed(Dropped(e.lines, i, j), Pos(if e.dot.line >= j then e.dot.line - (j - i) else e.dot.line, e.dot.offset),
       Earlier(e.mark, i, j - i))
  }

  lemma ApplyInsertSeparator(e: Ed)
    requires Sound(e)
    ensures Allowed(e, InsertSeparator)
    ensures Apply(e, InsertSeparator) == Outcome(SplitDot(e), [NewRecord(e, SeparatorInserted, [e.DotText()], "")])
  {
  }

  lemma ApplyMoveTo(e: Ed, dot: Pos, mark: Mark)
    requires Sound(e) && Legal(e.lines, dot) && OnLine(e.lines, mark)
    ensures Allowed(e, MoveTo(dot, mark))
    ensures Apply(e, MoveTo(dot, mark)) == Outcome(Ed(e.lines, dot, mark), [NewRecord(e, Moved, [], "")])
  {
  }

  lemma ApplyEditLine(e: Ed, text: string, offset: nat, mark: Mark)
    requires Sound(e) && offset <= |text| && OnLine(e.lines, mark)
    ensures Allowed(e, EditLine(text, offset, mark))
    ensures Apply(e, EditLine(text, offset, mark))
         == Outcome(Ed(e.lines[e.dot.line := text], Pos(e.dot.line, offset), mark),
                    [NewRecord(e, LineEdited, [e.DotText()], "")])
  {
  }

  lemma ApplyDeleteSeparator(e: Ed)
    requires Allowed(e, DeleteSeparator)
    ensures Apply(e, DeleteSeparator)
         == if AtSeparator(e)
            then Outcome(JoinDot(e), [NewRecord(e, SeparatorDeleted, [e.DotText(), e.lines[e.dot.line + 1]], "")])
            else Outcome(e, [])
    ensures AtSeparator(e) ==> !MarkInside(e.mark, e.dot.line + 1, e.dot.line + 2)
  {
  }

  lemma ApplyInsertLines(e: Ed, s: string)
    requires Sound(e) && s != ""
    ensures Allowed(e, InsertLines(s))
    ensures Apply(e, InsertLines(s)) == Outcome(InsertMultiline(e, s), [NewRecord(e, LinesInserted, [e.DotText()], s)])
  {
  }

  lemma ApplyDeleteRegion(e: Ed)
    requires Allowed(e, Edit.DeleteRegion)
    ensures e.mark.Unmarked? ==> Apply(e, Edit.DeleteRegion) == Outcome(e, [])
    ensures e.mark.Marked? ==>
              var (b, end) := (RegionBegin(e), RegionEnd(e));
              Legal(e.lines, b) && Legal(e.lines, end) && !PosBefore(end, b)
              && Apply(e, Edit.DeleteRegion)
                 == Outcome(Ed(WithoutRegion(e.lines, b, end), b, Unmarked),
                            [if b.line == end.line then NewRecord(e, LineEdited, [e.DotText()], "")
                             else NewRecord(e, RegionDeleted, [RegionString(e.lines, b, end)], "")])
  {
  }

  /** The lines up to line i are the same ones. */
  predicate SameUpTo(was: seq<Line>, now: seq<Line>, i: nat) {
    i < |was| && i < |now| && was[..i + 1] == now[..i + 1]
  }

  lemma SameUpToTwice(a: seq<Line>, b: seq<Line>, c: seq<Line>, i: nat, j: nat)
    requires SameUpTo(a, b, i) && SameUpTo(b, c, j) && i <= j
    ensures SameUpTo(a, c, i)
  {
    assert b[..i + 1] == b[..j + 1][..i + 1] && c[..i + 1] == c[..j + 1][..i + 1];
  }

  lemma Regroup(a: seq<Record>, b: seq<Record>, c: seq<Record>)
    ensures (a + b) + c == a + (b + c)
  {
  }

  class Buffer {
    var firstLine: Line
    var lastLine: Line
    var topLine: Line
    var dotLine: Line
    var dotOffset: nat
    var markLine: Line?
    var markOffset: nat
    const rows: nat
    var undoStack: seq<Entry>
    var redoStack: seq<Entry>
    var compoundUndo: Scope
    var compoundRedo: Scope
    var inRedo: bool
    ghost var lines: seq<Line>
    /** Whether the top line is known to be listed. No edit, undo or redo changes this: what
        they do to text, dot, mark and stacks is the same with any top line. */
    ghost var windowed: bool

    // ---- what holds of the list ----

    /** The lines are chained, and dot and mark are on listed ones. */
    ghost predicate Held()
      reads `firstLine, `dotLine, `dotOffset, `markLine, `lines, lines`prev, lines`next, dotLine`text
    {
      && Chained(lines)
      && firstLine == lines[0]
      && dotLine in lines
      && dotOffset <= |dotLine.text|
      && (markLine != null ==> markLine in lines)
    }

    /** Besides, lines are numbered in order. */
    ghost predicate Settled()
      reads `firstLine, `lastLine, `dotLine, `dotOffset, `markLine, `lines
      reads lines`prev, lines`next, lines`number, dotLine`text
    {
      Held() && InOrder(lines) && lastLine == lines[|lines| - 1]
    }

    /** Besides, the top line is listed if it is known to be. */
    ghost predicate Valid()
      reads `firstLine, `lastLine, `topLine, `dotLine, `dotOffset, `markLine, `lines, `windowed
      reads lines`prev, lines`next, lines`number, dotLine`text
    {
      Settled() && (windowed ==> topLine in lines)
    }

    /** And the window does not start below dot: what every command leaves. */
    ghost predicate Framed()
      reads `firstLine, `lastLine, `topLine, `dotLine, `dotOffset, `markLine, `lines, `windowed
      reads lines`prev, lines`next, lines`number, dotLine`text
    {
      Valid() && (windowed ==> topLine.number <= dotLine.number)
    }

    /** The buffer as a value. */
    ghost function Value(): (e: Ed)
      requires Held()
      reads `firstLine, `dotLine, `dotOffset, `markLine, `markOffset, `lines
      reads lines`prev, lines`next, lines`text
      ensures Sound(e)
    {
      TextsIndexed(lines);
      Ed(Texts(lines), Pos(At(lines, dotLine), dotOffset),
         if markLine == null then Unmarked else Marked(Pos(At(lines, markLine), markOffset)))
    }

    constructor (text: string, rows: nat)
      ensures Framed() && windowed && Value() == Ed([text], Pos(0, 0), Unmarked)
      ensures undoStack == redoStack == [] && compoundUndo == compoundRedo == Outside && !inRedo
    {
      var line := new Line(text);
      line.number := 0;
      firstLine, lastLine, topLine, dotLine := line, line, line, line;
      dotOffset, markLine, markOffset := 0, null, 0;
      this.rows := rows;
      lines := [line];
      windowed := true;
      undoStack, redoStack, compoundUndo, compoundRedo, inRedo := [], [], Outside, Outside, false;
    }

    // ---- list surgery ----

    /** Numbers and the last line do not matter to the value. */
    twostate lemma OnlyNumbered()
      requires old(Held())
      requires lines == old(lines) && firstLine == old(firstLine)
      requires dotLine == old(dotLine) && dotOffset == old(dotOffset)
      requires markLine == old(markLine) && markOffset == old(markOffset)
      requires forall l :: l in lines ==> l.prev == old(l.prev) && l.next == old(l.next) && l.text == old(l.text)
      ensures Held() && Value() == old(Value())
    {
      hide Distinct, Texts;
      SameTexts(lines);
    }

    method Renumber()
      requires Held()
      modifies lines`number, this`lastLine
      ensures Settled() && Value() == old(Value())
    {
      hide Texts, Chained, Distinct, Value, Held;
      HeldParts();
      var line := firstLine;
      var n := 0;
      NextAt(lines, 0);
      while line.next != null
        invariant n < |lines| && line == lines[n]
        invariant line.next == if n + 1 < |lines| then lines[n + 1] else null
        invariant forall i :: 0 <= i < n ==> lines[i].number == i
        invariant Chained(lines)
        decreases |lines| - n
      {
        NextAt(lines, n);
        OthersDiffer(lines, n);
        line.number := n;
        n := n + 1;
        line := line.next;
        NextAt(lines, n);
      }
      OthersDiffer(lines, n);
      line.number := n;
      lastLine := line;
      OnlyNumbered();
    }

    lemma HeldParts()
      requires Held()
      ensures Chained(lines) && firstLine == lines[0]
    {
    }

    method NthLine(lineNumber: int) returns (r: Line?)
      requires Held()
      ensures r == if 0 <= lineNumber < |lines| then lines[lineNumber] else null
    {
      if lineNumber < 0 { return null; }
      r := firstLine;
      var n := 0;
      while r != null && n < lineNumber
        invariant n <= |lines| && n <= lineNumber
        invariant r == if n < |lines| then lines[n] else null
        decreases |lines| - n
      {
        n := n + 1;
        r := r.next;
      }
    }

    /** Splicing a new line in after line i. */
    twostate lemma ChainedWith(new i: nat, new line: Line)
      requires lines == old(lines) && old(Chained(lines)) && i < |lines| && line !in lines
      requires line.prev == lines[i] && lines[i].next == line
      requires i + 1 < |lines| ==> line.next == lines[i + 1]
      requires i + 1 < |lines| ==> lines[i + 1].prev == line
      requires i + 1 == |lines| ==> line.next == null
      requires forall k :: 0 <= k < |lines| && k != i ==> lines[k].next == old(lines[k].next)
      requires forall k :: 0 <= k < |lines| && k != i + 1 ==> lines[k].prev == old(lines[k].prev)
      ensures Chained(WithLine(lines, i + 1, line))
    {
      WithLineAt(lines, i + 1, line, lines[i]);
      hide Distinct;
      var more := WithLine(lines, i + 1, line);
      forall k | 0 < k < |more|
        ensures more[k].prev == more[k - 1]
      {
        if k > i + 2 {
          assert more[k] == lines[k - 1] && more[k - 1] == lines[k - 2];
        }
      }
      forall k | 0 <= k < |more| - 1
        ensures more[k].next == more[k + 1]
      {
        if k > i + 1 {
          assert more[k] == lines[k - 1] && more[k + 1] == lines[k];
        }
      }
    }

    /** Taking out the lines from i up to j. */
    twostate lemma ChainedWithout(new i: nat, new j: nat)
      requires lines == old(lines) && old(Chained(lines)) && 0 < i <= j <= |lines|
      requires j < |lines| ==> lines[i - 1].next == lines[j]
      requires j == |lines| ==> lines[i - 1].next == null
      requires j < |lines| ==> lines[j].prev == lines[i - 1]
      requires forall k :: 0 <= k < i - 1 || j <= k < |lines| ==> lines[k].next == old(lines[k].next)
      requires forall k :: 0 <= k < i || j < k < |lines| ==> lines[k].prev == old(lines[k].prev)
      ensures Chained(WithoutLines(lines, i, j))
    {
      OthersStay(lines, i, j);
      hide Distinct;
      var fewer := WithoutLines(lines, i, j);
      forall k | 0 < k < |fewer|
        ensures fewer[k].prev == fewer[k - 1]
      {
        if k > i {
          var m := k + (j - i);
          assert fewer[k] == lines[m] && fewer[k - 1] == lines[m - 1];
        }
      }
      forall k | 0 <= k < |fewer| - 1
        ensures fewer[k].next == fewer[k + 1]
      {
        if k >= i {
          var m := k + (j - i);
          assert fewer[k] == lines[m] && fewer[k + 1] == lines[m + 1];
        }
      }
    }

    /** The new line goes in after one that is listed. */
    method InsertAfter(line: Line, prev: Line)
      requires Chained(lines) && firstLine == lines[0] && prev in lines && line !in lines
      modifies this`lines, this`lastLine, lines`next, lines`prev, line`next, line`prev
      ensures Chained(lines) && firstLine == lines[0]
      ensures lines == WithLine(old(lines), At(old(lines), prev) + 1, line)
    {
      hide Distinct, Chained;
      ghost var i := At(lines, prev);
      var next := prev.next;
      NextAt(lines, i);
      OthersDiffer(lines, i);
      if next != null { OthersDiffer(lines, i + 1); }
      prev.next := line;
      line.prev := prev;
      line.next := next;
      if next != null { next.prev := line; } else { lastLine := line; }
      ChainedWith(i, line);
      lines := WithLine(lines, i + 1, line);
    }

    /** With no line to go in after, the new line becomes the first, and the top one. */
    method InsertFirst(line: Line)
      requires Chained(lines) && firstLine == lines[0] && line !in lines
      modifies this`lines, this`firstLine, this`topLine, firstLine`prev, line`next, line`prev
      ensures Chained(lines) && firstLine == lines[0] == line == topLine
      ensures lines == WithLine(old(lines), 0, line)
    {
      hide Distinct, Chained;
      var next := firstLine;
      ChainedIsSome(lines);
      NextAt(lines, 0);
      OthersDiffer(lines, 0);
      firstLine, topLine := line, line;
      line.prev := null;
      line.next := next;
      next.prev := line;
      ChainedBefore(line);
      lines := WithLine(lines, 0, line);
    }

    twostate lemma ChainedBefore(new line: Line)
      requires lines == old(lines) && old(Chained(lines)) && line !in lines
      requires line.prev == null && line.next == lines[0] && lines[0].prev == line
      requires forall k :: 0 <= k < |lines| ==> lines[k].next == old(lines[k].next)
      requires forall k :: 0 < k < |lines| ==> lines[k].prev == old(lines[k].prev)
      ensures Chained(WithLine(lines, 0, line))
    {
      WithLineAt(lines, 0, line, lines[0]);
      hide Distinct;
      var more := WithLine(lines, 0, line);
      forall k | 0 < k < |more|
        ensures more[k].prev == more[k - 1]
      {
        assert more[k] == lines[k - 1];
        if k > 1 {
          assert more[k - 1] == lines[k - 2];
        }
      }
      forall k | 0 <= k < |more| - 1
        ensures more[k].next == more[k + 1]
      {
        assert more[k + 1] == lines[k];
        if k > 0 {
          assert more[k] == lines[k - 1];
        }
      }
      assert more[|more| - 1] == lines[|lines| - 1];
    }

    /** A line other than the first is taken out of the chain. */
    method Detach(line: Line)
      requires Chained(lines) && firstLine == lines[0] && line in lines && line != firstLine
      modifies this`lines, lines`next, lines`prev
      ensures Chained(lines) && firstLine == lines[0]
      ensures lines == WithoutLines(old(lines), At(old(lines), line), At(old(lines), line) + 1)
      ensures line.next == null && line.prev == null
    {
      hide Distinct, Chained;
      ghost var i := At(lines, line);
      var next := line.next;
      var prev := line.prev;
      NextAt(lines, i);
      OthersDiffer(lines, i);
      OthersDiffer(lines, i - 1);
      if next != null { OthersDiffer(lines, i + 1); }
      if prev != null { prev.next := next; }
      if next != null { next.prev := prev; }
      line.next := null;
      line.prev := null;
      ChainedWithout(i, i + 1);
      lines := WithoutLines(lines, i, i + 1);
    }

    lemma Parts()
      requires Held()
      ensures Chained(lines) && Distinct(lines) && firstLine == lines[0] && dotLine in lines
      ensures dotOffset <= |dotLine.text| && (markLine != null ==> markLine in lines)
      ensures Value().lines == Texts(lines) && Value().dot == Pos(At(lines, dotLine), dotOffset)
      ensures markLine == null ==> Value().mark == Unmarked
      ensures markLine != null ==> Value().mark == Marked(Pos(At(lines, markLine), markOffset))
      ensures Value().DotText() == dotLine.text
    {
      TextsIndexed(lines);
    }

    /** The parts make up a buffer that is held. */
    lemma Assemble()
      requires Chained(lines) && firstLine == lines[0] && dotLine in lines && dotOffset <= |dotLine.text|
      requires markLine != null ==> markLine in lines
      ensures Held()
      ensures Value() == Ed(Texts(lines), Pos(At(lines, dotLine), dotOffset),
                            if markLine == null then Unmarked else Marked(Pos(At(lines, markLine), markOffset)))
    {
    }

    /** The lines from i up to j are gone, and neither dot nor mark was on one of them. */
    twostate lemma Removed(new i: nat, new j: nat)
      requires old(Held()) && Distinct(old(lines)) && i <= j <= |old(lines)|
      requires lines == WithoutLines(old(lines), i, j) && Chained(lines) && firstLine == lines[0]
      requires dotLine == old(dotLine) && dotOffset == old(dotOffset) && !(i <= old(Value()).dot.line < j)
      requires markLine == old(markLine) && markOffset == old(markOffset) && !MarkInside(old(Value()).mark, i, j)
      requires forall l :: l in old(lines) ==> l.text == old(l.text)
      ensures Held() && Value() == Without(old(Value()), i, j)
    {
      hide Distinct, Texts, Chained, WithoutLines, Dropped;
      SameTexts(old(lines));
      TextsWithoutLines(old(lines), i, j);
      WithoutLinesAt(old(lines), i, j, dotLine);
      if markLine != null { WithoutLinesAt(old(lines), i, j, markLine); }
    }

    /** A line that holds neither dot nor mark, and is not the first, comes out of the list. */
    method Unlink(line: Line)
      requires Held() && line in lines && line != firstLine && line != dotLine && line != markLine
      modifies this`lines, this`lastLine, lines`next, lines`prev, lines`number
      ensures Settled() && line.number == old(line.number) && line.next == null && line.prev == null
      ensures lines == WithoutLines(old(lines), At(old(lines), line), At(old(lines), line) + 1)
      ensures Value() == Without(old(Value()), At(old(lines), line), At(old(lines), line) + 1)
    {
      hide Distinct, Chained, Texts, Held, Value;
      Parts();
      ghost var i := At(lines, line);
      Gone(lines, i, i + 1, i);
      Detach(line);
      Removed(i, i + 1);
      Renumber();
    }

    // ---- changes without undo ----

    /** Only the text of line i is new. */
    twostate lemma OnlyText(new i: nat)
      requires old(Held()) && i < |lines| && lines == old(lines) && firstLine == old(firstLine)
      requires dotLine == old(dotLine) && markLine == old(markLine) && markOffset == old(markOffset)
      requires dotOffset <= |dotLine.text|
      requires forall l :: l in lines ==> l.prev == old(l.prev) && l.next == old(l.next)
      requires forall k :: 0 <= k < |lines| && k != i ==> lines[k].text == old(lines[k].text)
      ensures Held()
      ensures Value() == old(Value()).(lines := old(Value()).lines[i := lines[i].text], dot := Value().dot)
      ensures Value().dot == Pos(old(Value()).dot.line, dotOffset)
    {
      hide Distinct, Texts;
      NewText(lines, i);
      TextsIndexed(lines);
    }

    method InsertStringInternal(s: string)
      requires Held()
      modifies this`dotOffset, dotLine`text
      ensures Held() && Value() == InsertPlain(old(Value()), s) && Value().dot.line == old(Value()).dot.line
    {
      hide Distinct, Chained, Texts, Held, Value;
      Parts();
      ghost var i := At(lines, dotLine);
      OthersDiffer(lines, i);
      dotLine.text := dotLine.text[..dotOffset] + s + dotLine.text[dotOffset..];
      dotOffset := dotOffset + |s|;
      OnlyText(i);
    }

    /** A text is put on dot's line in place of the one there, with dot staying in it. */
    method SetDotText(text: string)
      requires Held() && dotOffset <= |text|
      modifies dotLine`text
      ensures Held() && Value() == old(Value()).(lines := old(Value()).lines[old(Value()).dot.line := text])
      ensures dotLine.text == text
    {
      hide Distinct, Texts, Chained, Held, Value, At;
      Parts();
      ghost var i := At(lines, dotLine);
      OthersDiffer(lines, i);
      dotLine.text := text;
      OnlyText(i);
      Parts();
    }

    /** A new line below dot's, with dot and mark where they were. */
    method AddLineBelow(text: string) returns (line: Line)
      requires Held()
      modifies this`lines, this`lastLine, lines`next, lines`prev
      ensures Held() && fresh(line) && lines == WithLine(old(lines), At(old(lines), dotLine) + 1, line)
      ensures var e := old(Value());
              Value() == Ed(Inserted(e.lines, e.dot.line + 1, text), e.dot, Later(e.mark, e.dot.line + 1, 1))
      ensures line in lines && At(lines, line) == At(old(lines), dotLine) + 1
    {
      hide Distinct, Chained, Texts, Held, Value, At, WithLine, Inserted, Later;
      Parts();
      ghost var i := At(lines, dotLine);
      ghost var was := lines;
      line := new Line(text);
      InsertAfter(line, dotLine);
      SameTexts(was);
      TextsWithLine(was, i + 1, line);
      WithLineAt(was, i + 1, line, dotLine);
      if markLine != null { WithLineAt(was, i + 1, line, markLine); }
      Assemble();
      MarkLater(old(Value()).mark, i + 1);
    }

    lemma MarkLater(m: Mark, i: nat)
      ensures m.Unmarked? ==> Later(m, i, 1) == m
      ensures m.Marked? ==> Later(m, i, 1) == Marked(Pos(m.pos.line + if m.pos.line >= i then 1 else 0, m.pos.offset))
    {
    }

    /** A line separator goes in at dot, and dot moves past it to a new line. */
    method InsertLineSeparatorInternal()
      requires Held()
      modifies this`lines, this`lastLine, this`dotLine, this`dotOffset
      modifies lines`next, lines`prev, dotLine`text
      ensures Held() && Value() == SplitDot(old(Value()))
      ensures fresh(dotLine) && lines == WithLine(old(lines), At(old(lines), old(dotLine)) + 1, dotLine)
    {
      hide Distinct, Chained, Texts, Held, Value, At, WithLine, Inserted, Later;
      Parts();
      var tail := dotLine.text[dotOffset..];
      SetDotText(dotLine.text[..dotOffset]);
      var newLine := AddLineBelow(tail);
      Parts();
      dotLine := newLine;
      dotOffset := 0;
      Assemble();
    }

    /** One separator, keeping the lines that were there. */
    method NextLine(ghost was: seq<Line>)
      requires Held() && forall l :: l in was ==> l in lines
      modifies this`lines, this`lastLine, this`dotLine, this`dotOffset
      modifies lines`next, lines`prev, lines`text
      ensures Held() && Value() == SplitDot(old(Value()))
      ensures fresh(dotLine) && forall l :: l in was ==> l in lines
      ensures forall k :: 0 <= k < |lines| ==> lines[k] == dotLine || lines[k] in old(lines)
      ensures SameUpTo(old(lines), lines, old(Value()).dot.line) && Value().dot.line == old(Value()).dot.line + 1
    {
      hide Distinct, Chained, Texts, Held, Value;
      Parts();
      InsertLineSeparatorInternal();
      WithLineHas(old(lines), At(old(lines), old(dotLine)) + 1, dotLine);
    }

    lemma StartsSame()
      requires Held()
      ensures SameUpTo(lines, lines, Value().dot.line)
    {
    }

    method InsertMultilineStringInternal(s: string)
      requires Held() && s != ""
      modifies this`lines, this`lastLine, this`dotLine, this`dotOffset
      modifies lines`next, lines`prev, lines`text, lines`number
      ensures Settled() && Value() == InsertMultiline(old(Value()), s)
      ensures forall l :: l in old(lines) ==> l in lines
      ensures forall k :: 0 <= k < |lines| ==> lines[k] in old(lines) || fresh(lines[k])
      ensures SameUpTo(old(lines), lines, old(Value()).dot.line) && Value().dot.line >= old(Value()).dot.line
    {
      hide Distinct, Chained, Texts, Held, Value, SplitDot, InsertPlain, Pieces, SameUpTo;
      StartsSame();
      var pieces := Pieces(s);
      ghost var result := InsertPieces(Value(), pieces);
      var i := 0;
      while i < |pieces|
        invariant i <= |pieces| && Held()
        invariant i < |pieces| ==> InsertPieces(Value(), pieces[i..]) == result
        invariant i == |pieces| ==> Value() == result
        invariant SameUpTo(old(lines), lines, old(Value()).dot.line) && Value().dot.line >= old(Value()).dot.line
        invariant forall l :: l in old(lines) ==> l in lines
        invariant forall k :: 0 <= k < |lines| ==> lines[k] in old(lines) || fresh(lines[k])
        decreases |pieces| - i
      {
        assert pieces[i..][0] == pieces[i] && pieces[i..][1..] == pieces[i + 1..];
        Parts();
        ghost var before, d := lines, Value().dot.line;
        InsertStringInternal(pieces[i]);
        if i + 1 < |pieces| {
          NextLine(old(lines));
          SameUpToTwice(old(lines), before, lines, old(Value()).dot.line, d);
        }
        i := i + 1;
      }
      if s[|s| - 1] == LF {
        ghost var before, d := lines, Value().dot.line;
        NextLine(old(lines));
        SameUpToTwice(old(lines), before, lines, old(Value()).dot.line, d);
      }
      HeldParts();
      Renumber();
    }

    method InsertString(s: string)
      requires Settled()
      modifies this`lines, this`lastLine, this`dotLine, this`dotOffset
      modifies lines`next, lines`prev, lines`text, lines`number
      ensures Settled() && Value() == Editing.InsertString(old(Value()), s)
      ensures forall l :: l in old(lines) ==> l in lines
      ensures forall k :: 0 <= k < |lines| ==> lines[k] in old(lines) || fresh(lines[k])
    {
      hide Distinct, Chained, Texts, Held, Value;
      Parts();
      if LF in s {
        InsertMultilineStringInternal(s);
      } else {
        InsertStringInternal(s);
      }
    }

    /** The separator at the end of dot's line goes, and with it the next line, unless the
        mark is there. */
    method JoinWithNext()
      requires Held() && At(lines, dotLine) + 1 < |lines| && lines[At(lines, dotLine) + 1] != markLine
      modifies this`lines, this`lastLine
      modifies lines`next, lines`prev, lines`text, lines`number
      ensures Settled() && Value() == JoinDot(old(Value()))
      ensures var i := At(old(lines), dotLine);
              i + 1 < |old(lines)| && lines == WithoutLines(old(lines), i + 1, i + 2) && dotLine.number == i
              && old(lines)[i + 1].number == old(lines[i + 1].number)
    {
      hide Distinct, Chained, Texts, Held, Value, WithoutLines, Dropped;
      Parts();
      ghost var i := At(lines, dotLine);
      NextAt(lines, i);
      TextsIndexed(lines);
      var next := dotLine.next;
      AtIs(lines, next, i + 1);
      OthersDiffer(lines, i + 1);
      SetDotText(dotLine.text + next.text);
      Unlink(next);
      SettledIsHeld();
      Parts();
    }

    // ---- the top line ----

    /** The top line is listed, or it was unlinked with a number above dot's. */
    ghost predicate TopIsSane()
      requires Settled()
      reads `firstLine, `lastLine, `topLine, `dotLine, `dotOffset, `markLine, `lines, `windowed
      reads lines`prev, lines`next, lines`number, dotLine`text, topLine`number
    {
      windowed ==> topLine in lines || topLine.number > dotLine.number
    }

    predicate OnScreen()
      reads `dotLine, `topLine, dotLine`number, topLine`number
    {
      topLine.number <= dotLine.number < topLine.number + rows - 1
    }

    method Reframe()
      requires Settled()
      modifies this`topLine
      ensures Framed() && topLine in lines && Value() == old(Value())
      ensures topLine == lines[if dotLine.number < rows / 2 then 0 else dotLine.number - rows / 2]
    {
      hide Distinct, Texts, Chained;
      var i := rows / 2;
      var line: Line := dotLine;
      ghost var k: nat := At(lines, dotLine);
      NextAt(lines, k);
      while i > 0 && line.prev != null
        invariant 0 <= i <= rows / 2 && k < |lines| && line == lines[k] && k + (rows / 2 - i) == dotLine.number
        invariant line.prev == if k > 0 then lines[k - 1] else null
        decreases i
      {
        line := line.prev;
        i := i - 1;
        k := k - 1;
        NextAt(lines, k);
      }
      topLine := line;
      OnlyNumbered();
    }

    /** Whatever was unlinked, the top line is a listed one afterwards. */
    method MaybeReframe()
      requires Settled() && TopIsSane()
      modifies this`topLine
      ensures Framed() && Value() == old(Value())
      ensures topLine == if old(topLine.number) <= dotLine.number < old(topLine.number) + rows - 1 then old(topLine)
                         else lines[if dotLine.number < rows / 2 then 0 else dotLine.number - rows / 2]
    {
      if !OnScreen() { Reframe(); }
    }

    // ---- records ----

    method PushUndo(r: Record)
      modifies this`undoStack, this`compoundUndo
      ensures PushedUndo([r])
    {
      match compoundUndo
      case Outside => undoStack := undoStack + [One(r)];
      case Collecting(records) => compoundUndo := Collecting(records + [r]);
    }

    method PushRedo(r: Record)
      modifies this`redoStack, this`compoundRedo
      ensures PushedRedo([r])
    {
      match compoundRedo
      case Outside => redoStack := redoStack + [One(r)];
      case Collecting(records) => compoundRedo := Collecting(records + [r]);
    }

    /** Records go to the stack one by one, or all into the open compound. */
    twostate predicate PushedUndo(new rs: seq<Record>)
      reads this
    {
      && compoundUndo == (if old(compoundUndo).Outside? then Outside else Collecting(old(compoundUndo).records + rs))
      && undoStack == (if old(compoundUndo).Outside? then old(undoStack) + Ones(rs) else old(undoStack))
    }

    twostate predicate PushedRedo(new rs: seq<Record>)
      reads this
    {
      && compoundRedo == (if old(compoundRedo).Outside? then Outside else Collecting(old(compoundRedo).records + rs))
      && redoStack == (if old(compoundRedo).Outside? then old(redoStack) + Ones(rs) else old(redoStack))
    }

    method NewUndoRecord(action: Action, data: seq<string>, redoData: string) returns (r: Record)
      requires Settled()
      ensures r == NewRecord(Value(), action, data, redoData)
    {
      hide Distinct, Texts;
      var mark := Unmarked;
      if markLine != null { mark := Marked(Pos(markLine.number, markOffset)); }
      r := Record(action, Pos(dotLine.number, dotOffset), mark, data, redoData);
    }

    // ---- regions ----

    /** The line after first becomes next, a later one or none; those between are dropped. */
    method SkipTo(first: Line, next: Line?, ghost i: nat, ghost j: nat)
      requires Chained(lines) && firstLine == lines[0] && i < j <= |lines| && first == lines[i]
      requires next == if j < |lines| then lines[j] else null
      modifies this`lines, first`next, lines`prev
      ensures Chained(lines) && firstLine == lines[0] && lines == WithoutLines(old(lines), i + 1, j)
      ensures Texts(lines) == Dropped(old(Texts(lines)), i + 1, j)
    {
      hide Distinct, Chained, Texts;
      TextsWithoutLines(lines, i + 1, j);
      NextAt(lines, i);
      OthersDiffer(lines, i);
      if j < |lines| { OthersDiffer(lines, j); }
      first.next := next;
      if next != null { next.prev := first; }
      ChainedWithout(i + 1, j);
      lines := WithoutLines(lines, i + 1, j);
      SameTexts(lines);
    }

    /** The ends of the region between dot and mark, the earlier first. */
    method MakeRegion() returns (beginLine: Line, beginOffset: nat, endLine: Line, endOffset: nat)
      requires Settled() && markLine != null
      ensures beginLine in lines && endLine in lines
      ensures RegionBegin(Value()) == Pos(beginLine.number, beginOffset)
      ensures RegionEnd(Value()) == Pos(endLine.number, endOffset)
    {
      hide Distinct, Texts, Chained;
      if dotLine.number < markLine.number || (dotLine == markLine && dotOffset < markOffset) {
        return dotLine, dotOffset, markLine, markOffset;
      }
      return markLine, markOffset, dotLine, dotOffset;
    }

    lemma NoWholeLines(texts: seq<string>, i: nat)
      requires i <= |texts|
      ensures WholeLines(texts, i, i) == ""
    {
    }

    lemma SettledParts()
      requires Settled()
      ensures Held() && dotLine.number < |lines| && lines[dotLine.number] == dotLine
      ensures forall l :: l in lines ==> l.number < |lines| && lines[l.number] == l && At(lines, l) == l.number
    {
    }

    lemma {:induction false} WholeLinesGrow(texts: seq<string>, i: nat, j: nat)
      requires i <= j < |texts|
      ensures WholeLines(texts, i, j + 1) == WholeLines(texts, i, j) + texts[j] + [LF]
      decreases j - i
    {
      if i < j {
        WholeLinesGrow(texts, i + 1, j);
      }
    }

    /** The lines between two listed ones, each with its separator. */
    method LinesBetween(beginLine: Line, endLine: Line) returns (s: string)
      requires Settled() && beginLine in lines && endLine in lines && beginLine.number < endLine.number
      ensures endLine.number < |Value().lines| && s == WholeLines(Value().lines, beginLine.number + 1, endLine.number)
    {
      hide Distinct, Texts, Chained, Held, Settled, Value, At, WholeLines;
      SettledParts();
      Parts();
      TextsIndexed(lines);
      ghost var texts := Value().lines;
      s := "";
      NoWholeLines(texts, beginLine.number + 1);
      ghost var k: nat := beginLine.number + 1;
      NextAt(lines, beginLine.number);
      var line := beginLine.next;
      while line != endLine
        invariant beginLine.number < k <= endLine.number && line == lines[k]
        invariant s == WholeLines(texts, beginLine.number + 1, k)
        decreases endLine.number - k
      {
        WholeLinesGrow(texts, beginLine.number + 1, k);
        s := s + line.text;
        s := s + [LF];
        NextAt(lines, k);
        line := line.next;
        k := k + 1;
      }
    }

    method RegionAsString(beginLine: Line, beginOffset: nat, endLine: Line, endOffset: nat) returns (s: string)
      requires Settled() && beginLine in lines && endLine in lines
      requires var (b, e) := (Pos(beginLine.number, beginOffset), Pos(endLine.number, endOffset));
               Legal(Value().lines, b) && Legal(Value().lines, e) && !PosBefore(e, b)
      ensures s == RegionString(Value().lines, Pos(beginLine.number, beginOffset), Pos(endLine.number, endOffset))
    {
      hide Distinct, Texts, Chained, Held, Settled, Value, At, WholeLines;
      SettledParts();
      Parts();
      TextsIndexed(lines);
      if beginLine == endLine { return beginLine.text[beginOffset..endOffset]; }
      s := beginLine.text[beginOffset..] + [LF];
      var between := LinesBetween(beginLine, endLine);
      s := s + between;
      if endOffset > 0 {
        s := s + endLine.text[..endOffset];
      }
    }

    // ---- recorded edits ----

    /** A record of the buffer as it stands is pushed; nothing else changes. */
    method RecordUndo(action: Action, data: seq<string>, redoData: string)
      requires Valid()
      modifies this`undoStack, this`compoundUndo
      ensures Valid() && Value() == old(Value()) && Framed() == old(Framed())
      ensures PushedUndo([NewRecord(Value(), action, data, redoData)])
    {
      hide Distinct, Texts, Chained;
      var r := NewUndoRecord(action, data, redoData);
      PushUndo(r);
    }

    lemma ValidParts()
      requires Valid()
      ensures Settled() && Held() && (windowed ==> topLine in lines)
      ensures dotLine.number < |lines| && lines[dotLine.number] == dotLine
      ensures At(lines, dotLine) == dotLine.number
      ensures forall l :: l in lines ==> l.number < |lines| && lines[l.number] == l && At(lines, l) == l.number
    {
    }

    lemma SettledIsValid()
      requires Settled() && (windowed ==> topLine in lines)
      ensures Valid()
    {
    }

    lemma FramedIsValid()
      requires Framed()
      ensures Valid()
    {
    }

    /** Nothing up to dot's old line was moved, and dot is not above it: the window still
        does not start below dot. */
    twostate lemma TopStays(new i: nat)
      requires old(Framed()) && i == old(dotLine.number) && topLine == old(topLine) && windowed == old(windowed)
      requires Settled() && i < |lines| && i < |old(lines)| && lines[..i + 1] == old(lines)[..i + 1]
      requires Value().dot.line >= i
      ensures Framed() && (windowed ==> topLine in lines)
    {
      hide Distinct, Texts, Chained;
      if windowed {
        var k := old(topLine.number);
        assert old(lines)[..i + 1][k] == topLine;
        assert lines[..i + 1][k] == lines[k];
      }
    }

    lemma SettledIsSane()
      requires Valid()
      ensures Settled() && TopIsSane()
    {
    }

    lemma SettledIsHeld()
      requires Settled()
      ensures Held()
    {
    }

    /** A separator at dot, with the lines numbered again. */
    method SplitAndRenumber()
      requires Framed()
      modifies this`lines, this`lastLine, this`dotLine, this`dotOffset, lines
      ensures Framed() && fresh(dotLine) && Value() == SplitDot(old(Value()))
      ensures forall k :: 0 <= k < |lines| ==> lines[k] in old(lines) || fresh(lines[k])
    {
      hide Distinct, Texts, Chained, Held, Valid, Settled, Framed, Value, At, SplitDot;
      FramedIsValid();
      ValidParts();
      Parts();
      ghost var i := dotLine.number;
      NextLine(lines);
      HeldParts();
      Renumber();
      TopStays(i);
    }

    method InsertLineSeparator()
      requires Framed()
      modifies this`lines, this`lastLine, this`dotLine, this`dotOffset, this`undoStack, this`compoundUndo, lines
      ensures Framed() && fresh(dotLine)
      ensures Value() == Apply(old(Value()), InsertSeparator).ed
      ensures PushedUndo(Apply(old(Value()), InsertSeparator).pushed)
      ensures forall k :: 0 <= k < |lines| ==> lines[k] in old(lines) || fresh(lines[k])
    {
      hide Distinct, Texts, Chained, Held, Valid, Settled, Framed, Value, At, SplitDot, Apply, Allowed;
      hide NewRecord, Sound, Ones;
      FramedIsValid();
      ValidParts();
      Parts();
      ApplyInsertSeparator(Value());
      RecordUndo(SeparatorInserted, [dotLine.text], "");
      SplitAndRenumber();
    }

    /** Only dot and mark have moved. */
    twostate lemma OnlyMoved()
      requires old(Valid()) && lines == old(lines) && firstLine == old(firstLine) && lastLine == old(lastLine)
      requires topLine == old(topLine) && windowed == old(windowed)
      requires dotLine in lines && dotOffset <= |dotLine.text| && (markLine != null ==> markLine in lines)
      requires forall l :: l in lines ==> l.prev == old(l.prev) && l.next == old(l.next) && l.number == old(l.number)
      requires forall l :: l in lines ==> l.text == old(l.text)
      ensures Valid()
      ensures Value() == Ed(old(Value()).lines, Pos(dotLine.number, dotOffset),
                            if markLine == null then Unmarked else Marked(Pos(markLine.number, markOffset)))
    {
      hide Distinct, Texts;
      SameTexts(lines);
    }

    /** Dot and mark anywhere, and the window brought along. */
    method PlaceDot(line: Line, offset: nat, newMarkLine: Line?, newMarkOffset: nat)
      requires Valid() && line in lines && offset <= |line.text| && (newMarkLine != null ==> newMarkLine in lines)
      modifies this`dotLine, this`dotOffset, this`markLine, this`markOffset, this`topLine
      ensures Framed()
      ensures Value() == Ed(old(Value()).lines, Pos(line.number, offset),
                            if newMarkLine == null then Unmarked else Marked(Pos(newMarkLine.number, newMarkOffset)))
    {
      hide Distinct, Texts, Chained, Held, Valid, Settled, Framed, Value, At, TopIsSane, OnScreen;
      ValidParts();
      dotLine, dotOffset := line, offset;
      markLine, markOffset := newMarkLine, newMarkOffset;
      OnlyMoved();
      SettledIsSane();
      MaybeReframe();
    }

    method MoveTo(line: Line, offset: nat, newMarkLine: Line?, newMarkOffset: nat)
      requires Valid() && line in lines && offset <= |line.text| && (newMarkLine != null ==> newMarkLine in lines)
      modifies this`dotLine, this`dotOffset, this`markLine, this`markOffset, this`topLine
      modifies this`undoStack, this`compoundUndo
      ensures Framed()
      ensures var edit := Edit.MoveTo(Pos(line.number, offset),
                            if newMarkLine == null then Unmarked else Marked(Pos(newMarkLine.number, newMarkOffset)));
              Allowed(old(Value()), edit) && Value() == Apply(old(Value()), edit).ed
              && PushedUndo(Apply(old(Value()), edit).pushed)
    {
      hide Distinct, Texts, Chained, Held, Valid, Settled, Framed, Value, At, Ones, Apply, Allowed;
      ValidParts();
      Parts();
      TextsIndexed(lines);
      ApplyMoveTo(Value(), Pos(line.number, offset),
        if newMarkLine == null then Unmarked else Marked(Pos(newMarkLine.number, newMarkOffset)));
      RecordUndo(Moved, [], "");
      PlaceDot(line, offset, newMarkLine, newMarkOffset);
    }

    /** Only dot's line has a new text; dot is on the same line, the mark may have moved. */
    twostate lemma OnlyDotLine()
      requires old(Valid()) && lines == old(lines) && firstLine == old(firstLine) && lastLine == old(lastLine)
      requires topLine == old(topLine) && windowed == old(windowed)
      requires dotLine == old(dotLine) && dotOffset <= |dotLine.text| && (markLine != null ==> markLine in lines)
      requires forall l :: l in lines ==> l.prev == old(l.prev) && l.next == old(l.next) && l.number == old(l.number)
      requires forall k :: 0 <= k < |lines| && k != dotLine.number ==> lines[k].text == old(lines[k].text)
      ensures Valid() && (old(Framed()) ==> Framed())
      ensures Value() == Ed(old(Value()).lines[old(Value()).dot.line := dotLine.text],
                            Pos(old(Value()).dot.line, dotOffset),
                            if markLine == null then Unmarked else Marked(Pos(markLine.number, markOffset)))
    {
      hide Distinct, Texts;
      NewText(lines, dotLine.number);
    }

    /** A text for dot's line, an offset in it and a mark. */
    method RewriteLine(text: string, offset: nat, newMarkLine: Line?, newMarkOffset: nat)
      requires Framed() && offset <= |text| && (newMarkLine != null ==> newMarkLine in lines)
      modifies this`dotOffset, this`markLine, this`markOffset, dotLine`text
      ensures Framed()
      ensures Value() == Ed(old(Value()).lines[old(Value()).dot.line := text], Pos(old(Value()).dot.line, offset),
                            if newMarkLine == null then Unmarked else Marked(Pos(newMarkLine.number, newMarkOffset)))
    {
      hide Distinct, Texts, Chained, Held, Valid, Settled, Framed, Value, At;
      FramedIsValid();
      ValidParts();
      Parts();
      OthersDiffer(lines, dotLine.number);
      markLine, markOffset := newMarkLine, newMarkOffset;
      dotLine.text := text;
      dotOffset := offset;
      OnlyDotLine();
    }

    method EditLine(text: string, offset: nat, newMarkLine: Line?, newMarkOffset: nat)
      requires Framed() && offset <= |text| && (newMarkLine != null ==> newMarkLine in lines)
      modifies this`dotOffset, this`markLine, this`markOffset, dotLine`text, this`undoStack, this`compoundUndo
      ensures Framed()
      ensures var edit := Edit.EditLine(text, offset,
                            if newMarkLine == null then Unmarked else Marked(Pos(newMarkLine.number, newMarkOffset)));
              Allowed(old(Value()), edit) && Value() == Apply(old(Value()), edit).ed
              && PushedUndo(Apply(old(Value()), edit).pushed)
    {
      hide Distinct, Texts, Chained, Held, Valid, Settled, Framed, Value, At, Ones, Apply, Allowed;
      FramedIsValid();
      ValidParts();
      Parts();
      MarkIsOnLine(newMarkLine, newMarkOffset);
      ApplyEditLine(Value(), text, offset,
        if newMarkLine == null then Unmarked else Marked(Pos(newMarkLine.number, newMarkOffset)));
      RecordUndo(LineEdited, [dotLine.text], "");
      RewriteLine(text, offset, newMarkLine, newMarkOffset);
    }

    lemma MarkIsOnLine(line: Line?, offset: nat)
      requires Valid() && (line != null ==> line in lines)
      ensures OnLine(Value().lines, if line == null then Unmarked else Marked(Pos(line.number, offset)))
    {
    }

    /** Joining with the line below dot: the top line stays listed unless it was that one. */
    method JoinKeepingTop()
      requires Framed() && dotLine.number + 1 < |lines|
      requires !MarkInside(Value().mark, dotLine.number + 1, dotLine.number + 2)
      modifies this`lines, this`lastLine, lines
      ensures Framed() && Value() == JoinDot(old(Value()))
      ensures old(topLine in lines) ==> (topLine in lines <==> topLine != old(dotLine.next))
      ensures forall k :: 0 <= k < |lines| ==> lines[k] in old(lines)
    {
      hide Distinct, Texts, Chained, Held, Valid, Settled, Framed, Value, At, JoinDot, WithoutLines;
      FramedIsValid();
      ValidParts();
      Parts();
      ghost var i := dotLine.number;
      NextAt(lines, i);
      ghost var was := lines;
      Gone(was, i + 1, i + 2, i + 1);
      JoinWithNext();
      WithoutKeeps(was, i + 1);
      JoinedDot(old(Value()));
      TopStays(i);
    }

    static lemma JoinedDot(e: Ed)
      requires Sound(e) && e.dot.line + 1 < |e.lines|
      ensures JoinDot(e).dot == e.dot
    {
    }

    /** The separator at dot goes, if dot is at one. A listed top line stays listed unless it
        is the line that goes, which it is not in a window that does not start below dot. */
    method DeleteLineSeparator()
      requires Framed() && Allowed(Value(), DeleteSeparator)
      modifies this`lines, this`lastLine, this`undoStack, this`compoundUndo, lines
      ensures Framed()
      ensures Value() == Apply(old(Value()), DeleteSeparator).ed
      ensures PushedUndo(Apply(old(Value()), DeleteSeparator).pushed)
      ensures old(topLine in lines) ==>
                (topLine in lines <==> !(AtSeparator(old(Value())) && topLine == old(dotLine.next)))
      ensures forall k :: 0 <= k < |lines| ==> lines[k] in old(lines) || fresh(lines[k])
    {
      hide Distinct, Texts, Chained, Held, Valid, Settled, Framed, Value, At, Apply, NewRecord, JoinDot;
      FramedIsValid();
      ValidParts();
      Parts();
      NextAt(lines, dotLine.number);
      TextsIndexed(lines);
      ApplyDeleteSeparator(Value());
      var next := dotLine.next;
      if next != null && dotOffset == |dotLine.text| {
        RecordUndo(SeparatorDeleted, [dotLine.text, next.text], "");
        JoinKeepingTop();
      }
    }

    lemma WithoutKeeps(was: seq<Line>, i: nat)
      requires i < |was|
      ensures forall l :: l in was && l != was[i] ==> l in WithoutLines(was, i, i + 1)
      ensures |WithoutLines(was, i, i + 1)| == |was| - 1 && WithoutLines(was, i, i + 1)[..i] == was[..i]
      ensures var fewer := WithoutLines(was, i, i + 1); forall k :: 0 <= k < |fewer| ==> fewer[k] in was
    {
      var fewer := WithoutLines(was, i, i + 1);
      forall l | l in was && l != was[i]
        ensures l in fewer
      {
        var k := At(was, l);
        assert fewer[if k < i then k else k - 1] == l;
      }
    }

    method InsertInWindow(s: string)
      requires Framed() && s != ""
      modifies this`lines, this`lastLine, this`dotLine, this`dotOffset, lines
      ensures Framed() && Value() == InsertMultiline(old(Value()), s)
      ensures forall k :: 0 <= k < |lines| ==> lines[k] in old(lines) || fresh(lines[k])
    {
      hide Distinct, Texts, Chained, Held, Valid, Settled, Framed, Value, At, InsertMultiline;
      FramedIsValid();
      ValidParts();
      Parts();
      ghost var i := dotLine.number;
      InsertMultilineStringInternal(s);
      TopStays(i);
    }

    method InsertMultilineString(s: string)
      requires Framed() && s != ""
      modifies this`lines, this`lastLine, this`dotLine, this`dotOffset, this`undoStack, this`compoundUndo, lines
      ensures Framed()
      ensures Value() == Apply(old(Value()), InsertLines(s)).ed
      ensures PushedUndo(Apply(old(Value()), InsertLines(s)).pushed)
      ensures forall k :: 0 <= k < |lines| ==> lines[k] in old(lines) || fresh(lines[k])
    {
      hide Distinct, Texts, Chained, Held, Valid, Settled, Framed, Value, At, InsertMultiline, Apply, Allowed;
      hide NewRecord, Sound, Ones;
      FramedIsValid();
      ValidParts();
      Parts();
      ApplyInsertLines(Value(), s);
      RecordUndo(LinesInserted, [dotLine.text], s);
      InsertInWindow(s);
    }

    /** The ends of the region become one line; the lines between are skipped. */
    method JoinEnds(beginLine: Line, beginOffset: nat, endLine: Line, endOffset: nat, ghost i: nat, ghost j: nat)
      requires Chained(lines) && Distinct(lines) && firstLine == lines[0]
      requires i <= j < |lines| && lines[i] == beginLine && lines[j] == endLine
      requires beginOffset <= |beginLine.text| && endOffset <= |endLine.text|
      modifies this`lines, this`dotLine, this`dotOffset, this`markLine, lines`text, lines`next, lines`prev
      ensures Held() && lines == WithoutLines(old(lines), i + 1, j + 1)
      ensures var joined := old(beginLine.text[..beginOffset] + endLine.text[endOffset..]);
              Value() == Ed(Dropped(old(Texts(lines))[i := joined], i + 1, j + 1), Pos(i, beginOffset), Unmarked)
    {
      hide Distinct, Texts, Chained, Held, Valid, Settled, Value, At, WithoutLines, Dropped;
      NextAt(lines, j);
      var next := endLine.next;
      SetText(beginLine, beginLine.text[..beginOffset] + endLine.text[endOffset..], i);
      DotAfterCut(beginLine, i, j + 1);
      if beginLine != endLine {
        SkipTo(beginLine, next, i, j + 1);
      } else {
        NothingSkipped(i + 1);
      }
      markLine := null;
      dotLine, dotOffset := beginLine, beginOffset;
      Assemble();
    }

    lemma DotAfterCut(line: Line, i: nat, j: nat)
      requires Distinct(lines) && i < j <= |lines| && lines[i] == line
      ensures line in WithoutLines(lines, i + 1, j) && At(WithoutLines(lines, i + 1, j), line) == i
      ensures forall k :: i < k < j ==> lines[k] != line
    {
      WithoutLinesAt(lines, i + 1, j, line);
    }

    lemma NothingSkipped(i: nat)
      requires i <= |lines|
      ensures WithoutLines(lines, i, i) == lines && Dropped(Texts(lines), i, i) == Texts(lines)
    {
    }

    method SetText(line: Line, text: string, ghost i: nat)
      requires i < |lines| && lines[i] == line && Distinct(lines)
      modifies line`text
      ensures line.text == text && Texts(lines) == old(Texts(lines))[i := text]
    {
      hide Distinct, Texts;
      OthersDiffer(lines, i);
      line.text := text;
      NewText(lines, i);
    }

    /** The text between two positions goes; dot is left at the first, the mark is off. A top
        line that went with it keeps a number above dot's. */
    method CutRegion(beginLine: Line, beginOffset: nat, endLine: Line, endOffset: nat)
      requires Valid() && beginLine in lines && endLine in lines
      requires var (b, e) := (Pos(beginLine.number, beginOffset), Pos(endLine.number, endOffset));
               Legal(Value().lines, b) && Legal(Value().lines, e) && !PosBefore(e, b)
      modifies this`lines, this`lastLine, this`dotLine, this`dotOffset, this`markLine, lines
      ensures Settled() && TopIsSane()
      ensures Value() == Ed(WithoutRegion(old(Value()).lines, Pos(old(beginLine.number), beginOffset),
                                          Pos(old(endLine.number), endOffset)),
                            Pos(old(beginLine.number), beginOffset), Unmarked)
      ensures forall k :: 0 <= k < |lines| ==> lines[k] in old(lines)
    {
      hide Distinct, Texts, Chained, Held, Valid, Settled, Value, At, WithoutLines, Dropped, WithoutRegion, Legal;
      hide TopIsSane;
      RegionParts(beginLine, beginOffset, endLine, endOffset);
      ghost var i, j := beginLine.number + 1, endLine.number + 1;
      ghost var was := lines;
      JoinEnds(beginLine, beginOffset, endLine, endOffset, i - 1, j - 1);
      RangeGone(was, i, j);
      Renumber();
      NumberOfDot(i - 1);
      TopAfterCut(was, i, j);
    }

    /** A top line that was cut away still has its number, which was above dot's. */
    lemma TopAfterCut(was: seq<Line>, i: nat, j: nat)
      requires Settled() && Distinct(was) && 0 < i <= j <= |was| && dotLine.number == i - 1
      requires lines == WithoutLines(was, i, j)
      requires windowed ==> topLine in was && (topLine in lines || topLine.number == At(was, topLine))
      ensures TopIsSane()
    {
      hide Distinct, Texts, Chained, WithoutLines;
      RangeGone(was, i, j);
    }

    lemma RegionParts(beginLine: Line, beginOffset: nat, endLine: Line, endOffset: nat)
      requires Valid() && beginLine in lines && endLine in lines
      requires var (b, e) := (Pos(beginLine.number, beginOffset), Pos(endLine.number, endOffset));
               Legal(Value().lines, b) && Legal(Value().lines, e) && !PosBefore(e, b)
      ensures Chained(lines) && Distinct(lines) && firstLine == lines[0]
      ensures windowed ==> topLine in lines && topLine.number == At(lines, topLine)
      ensures beginLine.number <= endLine.number < |lines|
      ensures lines[beginLine.number] == beginLine && lines[endLine.number] == endLine
      ensures beginOffset <= |beginLine.text| && endOffset <= |endLine.text|
      ensures WithoutRegion(Value().lines, Pos(beginLine.number, beginOffset), Pos(endLine.number, endOffset))
           == Dropped(Texts(lines)[beginLine.number := beginLine.text[..beginOffset] + endLine.text[endOffset..]],
                      beginLine.number + 1, endLine.number + 1)
    {
      hide Distinct, Texts, Chained, Held, Valid, Settled, Value, At;
      ValidParts();
      Parts();
      TextsIndexed(lines);
    }

    lemma NumberOfDot(i: nat)
      requires Settled() && Value().dot.line == i
      ensures dotLine.number == i
    {
    }

    lemma RangeGone(was: seq<Line>, i: nat, j: nat)
      requires Distinct(was) && i <= j <= |was|
      ensures var fewer := WithoutLines(was, i, j);
              (forall k :: 0 <= k < |fewer| ==> fewer[k] in was)
              && (forall k :: i <= k < j ==> was[k] !in fewer)
              && (forall l :: l in was && !(i <= At(was, l) < j) ==> l in fewer)
    {
      var fewer := WithoutLines(was, i, j);
      forall l | l in was && !(i <= At(was, l) < j)
        ensures l in fewer
      {
        var k := At(was, l);
        assert fewer[if k < i then k else k - (j - i)] == l;
      }
    }

    /** A deletion is recorded as the text of dot's line when the region lies in one line,
        and as the region string otherwise. */
    method RecordDeletion(beginLine: Line, beginOffset: nat, endLine: Line, endOffset: nat)
      requires Valid() && beginLine in lines && endLine in lines
      requires var (b, e) := (Pos(beginLine.number, beginOffset), Pos(endLine.number, endOffset));
               Legal(Value().lines, b) && Legal(Value().lines, e) && !PosBefore(e, b)
      modifies this`undoStack, this`compoundUndo
      ensures Valid() && Value() == old(Value())
      ensures var (b, e) := (Pos(beginLine.number, beginOffset), Pos(endLine.number, endOffset));
              PushedUndo([if b.line == e.line then NewRecord(Value(), LineEdited, [Value().DotText()], "")
                          else NewRecord(Value(), RegionDeleted, [RegionString(Value().lines, b, e)], "")])
    {
      hide Distinct, Texts, Chained, Held, Valid, Settled, Value, At, NewRecord, RegionString, Legal;
      ValidParts();
      Parts();
      if beginLine == endLine {
        RecordUndo(LineEdited, [dotLine.text], "");
      } else {
        var s := RegionAsString(beginLine, beginOffset, endLine, endOffset);
        RecordUndo(RegionDeleted, [s], "");
      }
    }

    method CutAndReframe(beginLine: Line, beginOffset: nat, endLine: Line, endOffset: nat)
      requires Valid() && beginLine in lines && endLine in lines
      requires var (b, e) := (Pos(beginLine.number, beginOffset), Pos(endLine.number, endOffset));
               Legal(Value().lines, b) && Legal(Value().lines, e) && !PosBefore(e, b)
      modifies this`lines, this`lastLine, this`topLine, this`dotLine, this`dotOffset, this`markLine, lines
      ensures Framed()
      ensures Value() == Ed(WithoutRegion(old(Value()).lines, Pos(old(beginLine.number), beginOffset),
                                          Pos(old(endLine.number), endOffset)),
                            Pos(old(beginLine.number), beginOffset), Unmarked)
      ensures forall k :: 0 <= k < |lines| ==> lines[k] in old(lines) || fresh(lines[k])
    {
      hide Value, WithoutRegion, TopIsSane, OnScreen, Legal;
      CutRegion(beginLine, beginOffset, endLine, endOffset);
      MaybeReframe();
    }

    /** The region between dot and mark is recorded and goes. */
    method DeleteMarked()
      requires Valid() && Allowed(Value(), Edit.DeleteRegion) && markLine != null
      modifies this`lines, this`lastLine, this`topLine, this`dotLine, this`dotOffset, this`markLine
      modifies this`undoStack, this`compoundUndo, lines
      ensures Framed()
      ensures Value() == Apply(old(Value()), Edit.DeleteRegion).ed
      ensures PushedUndo(Apply(old(Value()), Edit.DeleteRegion).pushed)
      ensures forall k :: 0 <= k < |lines| ==> lines[k] in old(lines) || fresh(lines[k])
    {
      hide Distinct, Texts, Chained, Held, Valid, Settled, Framed, Value, At, Apply, Allowed, NewRecord;
      hide WithoutRegion, RegionString, TopIsSane, OnScreen, Legal, Ones, RegionBegin, RegionEnd, PosBefore;
      ValidParts();
      Parts();
      ApplyDeleteRegion(Value());
      var beginLine, beginOffset, endLine, endOffset := MakeRegion();
      RecordDeletion(beginLine, beginOffset, endLine, endOffset);
      CutAndReframe(beginLine, beginOffset, endLine, endOffset);
    }

    /** The region between dot and mark goes, if there is a mark. */
    method DeleteRegion()
      requires Framed() && Allowed(Value(), Edit.DeleteRegion)
      modifies this`lines, this`lastLine, this`topLine, this`dotLine, this`dotOffset, this`markLine
      modifies this`undoStack, this`compoundUndo, lines
      ensures Framed()
      ensures Value() == Apply(old(Value()), Edit.DeleteRegion).ed
      ensures PushedUndo(Apply(old(Value()), Edit.DeleteRegion).pushed)
      ensures forall k :: 0 <= k < |lines| ==> lines[k] in old(lines) || fresh(lines[k])
    {
      hide Distinct, Texts, Chained, Held, Valid, Settled, Framed, Value, At, Apply, Allowed;
      FramedIsValid();
      ValidParts();
      Parts();
      ApplyDeleteRegion(Value());
      if markLine != null {
        DeleteMarked();
      }
    }

    // ---- undo ----

    method RecordRedo(action: Action, data: seq<string>, redoData: string)
      requires Settled()
      modifies this`redoStack, this`compoundRedo
      ensures Settled() && Value() == old(Value()) && TopIsSane() == old(TopIsSane())
      ensures PushedRedo([NewRecord(Value(), action, data, redoData)])
    {
      hide Distinct, Texts, Chained;
      var r := NewUndoRecord(action, data, redoData);
      PushRedo(r);
    }

    /** Moves and line edits are recorded for the opposite direction. */
    twostate predicate PushedBack(new rs: seq<Record>)
      reads this
    {
      if inRedo then PushedUndo(rs) && redoStack == old(redoStack) && compoundRedo == old(compoundRedo)
      else PushedRedo(rs) && undoStack == old(undoStack) && compoundUndo == old(compoundUndo)
    }

    method RecordBack(action: Action, data: seq<string>)
      requires Valid()
      modifies this`undoStack, this`compoundUndo, this`redoStack, this`compoundRedo
      ensures Valid() && Value() == old(Value())
      ensures PushedBack([NewRecord(Value(), action, data, "")])
    {
      hide Distinct, Texts, Chained;
      var r := NewUndoRecord(action, data, "");
      if inRedo { PushUndo(r); } else { PushRedo(r); }
    }

    /** Dot goes to the recorded line and offset, or to the end of a line that is shorter. */
    method RestoreDot(r: Record)
      requires Valid() && r.dot.line < |Value().lines|
      modifies this`dotLine, this`dotOffset
      ensures Valid() && Value() == Undoing.RestoreDot(old(Value()), r) && dotLine.number == r.dot.line
    {
      hide Distinct, Texts, Chained, Held, Valid, Settled, Value, At;
      ValidParts();
      Parts();
      TextsIndexed(lines);
      ghost var e := Value();
      var line := NthLine(r.dot.line);
      dotLine := line;
      dotOffset := Min(r.dot.offset, |line.text|);
      OnlyMoved();
      NumberAt(r.dot.line);
    }

    lemma NumberAt(i: nat)
      requires InOrder(lines) && i < |lines|
      ensures lines[i].number == i
    {
    }

    method RestoreMark(r: Record)
      requires Valid() && OnLine(Value().lines, r.mark)
      modifies this`markLine, this`markOffset
      ensures Valid() && Value() == old(Value()).(mark := r.mark)
    {
      hide Distinct, Texts, Chained, Held, Valid, Settled, Value, At;
      ValidParts();
      Parts();
      match r.mark {
        case Unmarked => markLine := null;
        case Marked(pos) =>
          var line := NthLine(pos.line);
          markLine, markOffset := line, pos.offset;
          NumberAt(pos.line);
      }
      OnlyMoved();
    }

    method UndoMove(r: Record)
      requires Valid() && r.action == Moved && CanUndo(Value(), r)
      modifies this`undoStack, this`compoundUndo, this`redoStack, this`compoundRedo
      modifies this`dotLine, this`dotOffset, this`markLine, this`markOffset
      ensures Valid() && Value() == Undoing.Undo1(old(Value()), r).ed
      ensures PushedBack(Undoing.Undo1(old(Value()), r).pushed)
    {
      hide Distinct, Texts, Chained, Held, Valid, Settled, Value, At, NewRecord, Ones;
      RecordBack(Moved, []);
      RestoreDot(r);
      RestoreMark(r);
    }

    method UndoLineEdit(r: Record)
      requires Valid() && r.action == LineEdited && CanUndo(Value(), r)
      modifies this`undoStack, this`compoundUndo, this`redoStack, this`compoundRedo
      modifies this`dotLine, this`dotOffset, this`markLine, this`markOffset, lines`text
      ensures Valid() && Value() == Undoing.Undo1(old(Value()), r).ed
      ensures PushedBack(Undoing.Undo1(old(Value()), r).pushed)
    {
      hide Distinct, Texts, Chained, Held, Valid, Settled, Value, At, NewRecord, Ones;
      ValidParts();
      Parts();
      RecordBack(LineEdited, [dotLine.text]);
      RestoreText(r);
      RestoreMark(r);
    }

    /** The recorded text comes back on the recorded line, and dot with it. */
    method RestoreText(r: Record)
      requires Valid() && r.dot.line < |Value().lines| && |r.data| == 1
      modifies this`dotLine, this`dotOffset, lines`text
      ensures Valid() && dotLine.number == r.dot.line
      ensures Value() == Undoing.RestoreDot(Ed(old(Value()).lines[r.dot.line := r.data[0]], old(Value()).dot,
                                               old(Value()).mark), r)
    {
      hide Distinct, Texts, Chained, Held, Valid, Settled, Value, At;
      RestoreDot(r);
      ValidParts();
      Parts();
      OthersDiffer(lines, dotLine.number);
      label Dotted:
      dotLine.text := r.data[0];
      dotOffset := Min(r.dot.offset, |dotLine.text|);
      OnlyDotLine@Dotted();
    }

    /** Dot goes back where it was, and a text to its line, which dot must be in. */
    method RestoreDotText(r: Record, text: string)
      requires Valid() && r.dot.line < |Value().lines| && Undoing.RestoreDot(Value(), r).dot.offset <= |text|
      modifies this`dotLine, this`dotOffset, lines`text
      ensures Valid() && dotLine.number == r.dot.line && dotLine in lines
      ensures Value() == Ed(old(Value()).lines[r.dot.line := text], Undoing.RestoreDot(old(Value()), r).dot,
                            old(Value()).mark)
      ensures dotLine.number + 1 < |lines| <==> r.dot.line + 1 < |old(Value()).lines|
    {
      hide Distinct, Texts, Chained, Held, Valid, Settled, Value, At;
      RestoreDot(r);
      ValidParts();
      Parts();
      WriteDotLine(text);
      ValidParts();
      Parts();
    }

    method WriteDotLine(text: string)
      requires Valid() && dotOffset <= |text|
      modifies dotLine`text
      ensures Valid()
      ensures Value() == old(Value()).(lines := old(Value()).lines[old(Value()).dot.line := text])
    {
      hide Distinct, Texts, Chained, Held, Value, At;
      SetDotText(text);
    }

    /** A new line below dot's, with the lines numbered again. */
    method OpenLineBelow(text: string)
      requires Valid()
      modifies this`lines, this`lastLine, lines`next, lines`prev, lines`number
      ensures Valid()
      ensures var e := old(Value());
              Value() == Ed(Inserted(e.lines, e.dot.line + 1, text), e.dot, Later(e.mark, e.dot.line + 1, 1))
      ensures forall k :: 0 <= k < |lines| ==> lines[k] in old(lines) || fresh(lines[k])
    {
      hide Distinct, Texts, Chained, Held, Valid, Settled, Value, At, WithLine, Inserted, Later;
      ValidParts();
      var line := AddLineBelow(text);
      WithLineHas(old(lines), At(old(lines), dotLine) + 1, line);
      Renumber();
      SettledIsValid();
    }

    static lemma UndoSeparatorIs(e: Ed, r: Record)
      requires r.action == SeparatorDeleted && CanUndo(e, r)
      ensures r.dot.line < |e.lines| && |r.data| == 2 && Undoing.RestoreDot(e, r).dot.offset <= |r.data[0]|
      ensures var f := RestoreSeparator(e, r);
              Undoing.Undo1(e, r) == Swap(f, [NewRecord(f, SeparatorDeleted, [], "")])
    {
    }

    method PutSeparatorBack(r: Record)
      requires Valid() && r.dot.line < |Value().lines| && |r.data| == 2
      requires Undoing.RestoreDot(Value(), r).dot.offset <= |r.data[0]|
      modifies this`lines, this`lastLine, this`dotLine, this`dotOffset, lines
      ensures Valid() && Value() == RestoreSeparator(old(Value()), r)
      ensures forall k :: 0 <= k < |lines| ==> lines[k] in old(lines) || fresh(lines[k])
    {
      hide Distinct, Texts, Chained, Held, Valid, Settled, Value, At, Inserted, Later;
      RestoreDotText(r, r.data[0]);
      OpenLineBelow(r.data[1]);
    }

    method UndoDeleteLineSeparator(r: Record)
      requires Valid() && r.action == SeparatorDeleted && CanUndo(Value(), r)
      modifies this`lines, this`lastLine, this`dotLine, this`dotOffset, this`redoStack, this`compoundRedo, lines
      ensures Valid() && Value() == Undoing.Undo1(old(Value()), r).ed
      ensures PushedRedo(Undoing.Undo1(old(Value()), r).pushed)
      ensures forall k :: 0 <= k < |lines| ==> lines[k] in old(lines) || fresh(lines[k])
    {
      hide Distinct, Texts, Chained, Held, Valid, Settled, Value, At, NewRecord, Ones;
      hide CanUndo, Undoing.Undo1, Undoing.RestoreDot, RestoreSeparator, TopIsSane;
      ValidParts();
      UndoSeparatorIs(Value(), r);
      PutSeparatorBack(r);
      ValidParts();
      RecordRedo(SeparatorDeleted, [], "");
      SettledIsValid();
    }

    /** The line below dot's is unlinked; a top line there keeps its number, above dot's. */
    method UnlinkBelow()
      requires Valid() && dotLine.number + 1 < |lines|
      requires !MarkInside(Value().mark, dotLine.number + 1, dotLine.number + 2)
      modifies this`lines, this`lastLine, lines`next, lines`prev, lines`number
      ensures Settled() && TopIsSane()
      ensures Value() == Without(old(Value()), old(dotLine.number) + 1, old(dotLine.number) + 2)
      ensures forall k :: 0 <= k < |lines| ==> lines[k] in old(lines)
    {
      hide Distinct, Texts, Chained, Held, Valid, Settled, Value, At, WithoutLines, Dropped;
      ValidParts();
      Parts();
      ghost var i := dotLine.number;
      ghost var was := lines;
      NextAt(lines, i);
      NumberAtNext(i);
      OthersDiffer(lines, i + 1);
      AtIs(lines, dotLine.next, i + 1);
      Unlink(dotLine.next);
      NumberOfDot(i);
      WithoutKeeps(was, i + 1);
    }

    lemma NumberAtNext(i: nat)
      requires Settled() && i + 1 < |lines|
      ensures lines[i + 1].number == i + 1
    {
    }

    method UndoInsertLineSeparator(r: Record)
      requires Valid() && r.action == SeparatorInserted && CanUndo(Value(), r)
      modifies this`lines, this`lastLine, this`dotLine, this`dotOffset, this`redoStack, this`compoundRedo, lines
      ensures Settled() && TopIsSane() && Value() == Undoing.Undo1(old(Value()), r).ed
      ensures PushedRedo(Undoing.Undo1(old(Value()), r).pushed)
      ensures forall k :: 0 <= k < |lines| ==> lines[k] in old(lines)
    {
      hide Distinct, Texts, Chained, Held, Valid, Settled, Value, At, NewRecord, Ones, TopIsSane;
      RestoreDotText(r, r.data[0]);
      UnlinkBelow();
      RecordRedo(SeparatorInserted, [], "");
    }

    static lemma UndoLinesIs(e: Ed, r: Record)
      requires r.action == LinesInserted && CanUndo(e, r)
      ensures r.dot.line <= e.dot.line < |e.lines| && |r.data| == 1
      ensures var d := Undoing.RestoreDot(e, r);
              var (i, j) := (r.dot.line + 1, e.dot.line + 1);
              && d.lines == e.lines && d.mark == e.mark && d.dot.line == r.dot.line && d.dot.offset <= |r.data[0]|
              && !MarkInside(e.mark, i, j)
              && var f := Ed(Dropped(e.lines[i - 1 := r.data[0]], i, j), d.dot, Earlier(e.mark, i, j - i));
                 Undoing.Undo1(e, r) == Swap(f, [NewRecord(d, LinesInserted, [r.redoData], "")])
    {
    }

    /** Dot goes back, and the way forward is recorded from there. */
    method RestoreAndRecord(r: Record)
      requires Valid() && r.dot.line < |Value().lines|
      modifies this`dotLine, this`dotOffset, this`redoStack, this`compoundRedo
      ensures Valid() && Value() == Undoing.RestoreDot(old(Value()), r) && dotLine.number == r.dot.line
      ensures PushedRedo([NewRecord(Value(), LinesInserted, [r.redoData], "")])
    {
      hide Distinct, Texts, Chained, Held, Valid, Settled, Value, At, NewRecord, Ones, Undoing.RestoreDot, TopIsSane;
      RestoreDot(r);
      ValidParts();
      RecordRedo(LinesInserted, [r.redoData], "");
      SettledIsValid();
    }

    method UndoInsertMultilineString(r: Record)
      requires Valid() && r.action == LinesInserted && CanUndo(Value(), r)
      modifies this`lines, this`lastLine, this`dotLine, this`dotOffset, this`redoStack, this`compoundRedo, lines
      ensures Settled() && TopIsSane() && Value() == Undoing.Undo1(old(Value()), r).ed
      ensures PushedRedo(Undoing.Undo1(old(Value()), r).pushed)
      ensures forall k :: 0 <= k < |lines| ==> lines[k] in old(lines) || fresh(lines[k])
    {
      hide Distinct, Texts, Chained, Held, Valid, Settled, Value, At, NewRecord, Ones, TopIsSane, CanUndo;
      hide Undoing.Undo1;
      hide Undoing.RestoreDot, Dropped, Earlier, MarkInside;
      ValidParts();
      Parts();
      UndoLinesIs(Value(), r);
      var last := dotLine;
      RestoreAndRecord(r);
      DotParts();
      DropTo(last, r.data[0]);
    }

    lemma DotParts()
      requires Valid()
      ensures Held() && Value().dot == Pos(dotLine.number, dotOffset)
    {
    }

    /** The lines below dot's down to last are skipped, and dot's line gets a text back. */
    method DropTo(last: Line, text: string)
      requires Valid() && last in lines && dotLine.number <= last.number && dotOffset <= |text|
      requires !MarkInside(Value().mark, dotLine.number + 1, last.number + 1)
      modifies this`lines, this`lastLine, lines
      ensures Settled() && TopIsSane()
      ensures var e := old(Value());
              var (i, j) := (old(dotLine.number) + 1, old(last.number) + 1);
              Value() == Ed(Dropped(e.lines[i - 1 := text], i, j), e.dot, Earlier(e.mark, i, j - i))
      ensures forall k :: 0 <= k < |lines| ==> lines[k] in old(lines)
    {
      hide Distinct, Texts, Chained, Held, Valid, Settled, Value, At, TopIsSane, Dropped, Earlier, Without, MarkInside;
      ValidParts();
      Parts();
      WriteDotLine(text);
      DotParts();
      WithoutBelow(Value(), dotLine.number + 1, last.number + 1);
      SkipBelow(last);
    }

    /** The lines between dot's and the one after last are skipped. */
    method CutBelow(last: Line)
      requires Valid() && last in lines && dotLine.number <= last.number
      requires !MarkInside(Value().mark, dotLine.number + 1, last.number + 1)
      modifies this`lines, lines`next, lines`prev
      ensures Held() && Value() == Without(old(Value()), dotLine.number + 1, last.number + 1)
      ensures last.number < |old(lines)| && lines == WithoutLines(old(lines), dotLine.number + 1, last.number + 1)
    {
      hide Distinct, Texts, Chained, Held, Valid, Settled, Value, At, WithoutLines, Dropped, Without;
      ValidParts();
      Parts();
      NextAt(lines, last.number);
      SkipTo(dotLine, last.next, dotLine.number, last.number + 1);
      Removed(dotLine.number + 1, last.number + 1);
    }

    method SkipBelow(last: Line)
      requires Valid() && last in lines && dotLine.number <= last.number
      requires !MarkInside(Value().mark, dotLine.number + 1, last.number + 1)
      modifies this`lines, this`lastLine, lines`next, lines`prev, lines`number
      ensures Settled() && TopIsSane()
      ensures Value() == Without(old(Value()), old(dotLine.number) + 1, old(last.number) + 1)
      ensures forall k :: 0 <= k < |lines| ==> lines[k] in old(lines)
    {
      hide Distinct, Texts, Chained, Held, Valid, Settled, Value, At, WithoutLines, Dropped, Without, TopIsSane;
      ValidParts();
      Parts();
      ghost var i, j := dotLine.number, last.number + 1;
      RangeGone(lines, i + 1, j);
      CutBelow(last);
      Renumber();
      WithoutBelow(old(Value()), i + 1, j);
      NumberOfDot(i);
      TopAfterCut(old(lines), i + 1, j);
    }

    static lemma WithoutBelow(e: Ed, i: nat, j: nat)
      requires i <= j <= |e.lines| && e.dot.line < i
      ensures Without(e, i, j) == Ed(Dropped(e.lines, i, j), e.dot, Earlier(e.mark, i, j - i))
    {
    }

    static lemma UndoRegionIs(e: Ed, r: Record)
      requires r.action == RegionDeleted && CanUndo(e, r)
      ensures |r.data| == 1
      ensures var f := Editing.InsertString(e, r.data[0]); r.dot.line < |f.lines| && OnLine(f.lines, r.mark)
      ensures Undoing.Undo1(e, r) == Swap(RestoreRegion(e, r), [NewRecord(e, RegionDeleted, [], "")])
    {
    }

    method PutRegionBack(r: Record)
      requires Valid() && |r.data| == 1
      requires var f := Editing.InsertString(Value(), r.data[0]); r.dot.line < |f.lines| && OnLine(f.lines, r.mark)
      modifies this`lines, this`lastLine, this`dotLine, this`dotOffset, this`markLine, this`markOffset, lines
      ensures Valid()
      ensures Value() == RestoreRegion(old(Value()), r)
      ensures forall k :: 0 <= k < |lines| ==> lines[k] in old(lines) || fresh(lines[k])
    {
      hide Distinct, Texts, Chained, Held, Valid, Settled, Value, At, Editing.InsertString;
      ValidParts();
      InsertString(r.data[0]);
      SettledIsValid();
      RestoreDot(r);
      RestoreMark(r);
    }

    method UndoDeleteRegion(r: Record)
      requires Valid() && r.action == RegionDeleted && CanUndo(Value(), r)
      modifies this`lines, this`lastLine, this`dotLine, this`dotOffset, this`markLine, this`markOffset
      modifies this`redoStack, this`compoundRedo, lines
      ensures Valid() && Value() == Undoing.Undo1(old(Value()), r).ed
      ensures PushedRedo(Undoing.Undo1(old(Value()), r).pushed)
      ensures forall k :: 0 <= k < |lines| ==> lines[k] in old(lines) || fresh(lines[k])
    {
      hide Distinct, Texts, Chained, Held, Valid, Settled, Value, At, NewRecord, Ones, Editing.InsertString;
      hide CanUndo, Undoing.Undo1, RestoreRegion, TopIsSane;
      ValidParts();
      UndoRegionIs(Value(), r);
      RecordRedo(RegionDeleted, [], "");
      SettledIsValid();
      PutRegionBack(r);
    }

    /** The record is undone, a record of the way back is pushed, and the window follows. */
    method Undo1(r: Record)
      requires Valid() && !inRedo && CanUndo(Value(), r)
      modifies this`lines, this`lastLine, this`topLine, this`dotLine, this`dotOffset, this`markLine, this`markOffset
      modifies this`redoStack, this`compoundRedo, this`undoStack, this`compoundUndo, lines
      ensures Framed() && Value() == Undoing.Undo1(old(Value()), r).ed
      ensures PushedRedo(Undoing.Undo1(old(Value()), r).pushed)
      ensures undoStack == old(undoStack) && compoundUndo == old(compoundUndo)
      ensures forall k :: 0 <= k < |lines| ==> lines[k] in old(lines) || fresh(lines[k])
    {
      hide Distinct, Texts, Chained, Held, Valid, Settled, Framed, Value, At, Ones, TopIsSane, OnScreen, CanUndo;
      hide Undoing.Undo1;
      match r.action
      case Moved => UndoMove(r); Reframed();
      case LineEdited => UndoLineEdit(r); Reframed();
      case SeparatorDeleted => UndoDeleteLineSeparator(r); Reframed();
      case SeparatorInserted => UndoInsertLineSeparator(r); MaybeReframe();
      case LinesInserted => UndoInsertMultilineString(r); MaybeReframe();
      case RegionDeleted => UndoDeleteRegion(r); Reframed();
    }

    method Reframed()
      requires Valid()
      modifies this`topLine
      ensures Framed() && Value() == old(Value())
    {
      hide Value;
      SettledIsSane();
      MaybeReframe();
    }

    ghost function Whole(): Session
      requires Held()
      reads `firstLine, `dotLine, `dotOffset, `markLine, `markOffset, `lines, `undoStack, `redoStack
      reads lines`prev, lines`next, lines`text
    {
      Session(Value(), undoStack, redoStack)
    }

    /** Between commands: no compound is open and nothing is being redone. */
    ghost predicate AtRest()
      reads this, lines`prev, lines`next, lines`number, dotLine`text
    {
      Framed() && !inRedo && compoundUndo.Outside? && compoundRedo.Outside?
    }

    lemma UndoManyLast(e: Ed, us: seq<Record>, k: nat)
      requires 0 < k <= |us| && CanUndoMany(e, us[..k])
      ensures CanUndo(e, us[k - 1])
      ensures var s := Undoing.Undo1(e, us[k - 1]);
              CanUndoMany(s.ed, us[..k - 1])
              && UndoMany(e, us[..k]) == Swap(UndoMany(s.ed, us[..k - 1]).ed,
                                              s.pushed + UndoMany(s.ed, us[..k - 1]).pushed)
    {
      assert us[..k][..k - 1] == us[..k - 1];
    }

    /** The records of a compound are undone from the last, and their redo records collected. */
    method UndoRecords(us: seq<Record>)
      requires Framed() && !inRedo && compoundRedo == Collecting([]) && CanUndoMany(Value(), us)
      modifies this`lines, this`lastLine, this`topLine, this`dotLine, this`dotOffset, this`markLine, this`markOffset
      modifies this`redoStack, this`compoundRedo, this`undoStack, this`compoundUndo, lines
      ensures forall k :: 0 <= k < |lines| ==> lines[k] in old(lines) || fresh(lines[k])
      ensures Framed() && Value() == UndoMany(old(Value()), us).ed
      ensures compoundRedo == Collecting(UndoMany(old(Value()), us).pushed)
      ensures redoStack == old(redoStack) && undoStack == old(undoStack) && compoundUndo == old(compoundUndo)
    {
      hide Held, Settled, Valid, Framed, Value, Ones, CanUndo, Undoing.Undo1, CanUndoMany, UndoMany;
      FramedIsHeld();
      assert us[..|us|] == us;
      ghost var result := UndoMany(Value(), us);
      var k: nat := |us|;
      while k > 0
        invariant k <= |us| && Framed() && Held() && compoundRedo.Collecting? && CanUndoMany(Value(), us[..k])
        invariant UndoMany(Value(), us[..k]).ed == result.ed
        invariant compoundRedo.records + UndoMany(Value(), us[..k]).pushed == result.pushed
        invariant redoStack == old(redoStack) && undoStack == old(undoStack) && compoundUndo == old(compoundUndo)
        invariant forall i :: 0 <= i < |lines| ==> lines[i] in old(lines) || fresh(lines[i])
      {
        UndoManyLast(Value(), us, k);
        k := k - 1;
        ghost var s := Undoing.Undo1(Value(), us[k]);
        Regroup(compoundRedo.records, s.pushed, UndoMany(s.ed, us[..k]).pushed);
        FramedIsValid();
        Undo1(us[k]);
        FramedIsHeld();
      }
      NoneLeft(Value(), us);
    }

    lemma NoneLeft(e: Ed, us: seq<Record>)
      ensures CanUndoMany(e, us[..0]) && UndoMany(e, us[..0]) == Swap(e, [])
    {
    }

    method UndoTop(entry: Entry)
      requires Framed() && !inRedo && compoundRedo.Outside? && CanUndoEntry(Value(), entry)
      modifies this`lines, this`lastLine, this`topLine, this`dotLine, this`dotOffset, this`markLine, this`markOffset
      modifies this`redoStack, this`compoundRedo, this`undoStack, this`compoundUndo, lines
      ensures forall k :: 0 <= k < |lines| ==> lines[k] in old(lines) || fresh(lines[k])
      ensures Framed() && Value() == UndoEntry(old(Value()), entry).ed
      ensures redoStack == old(redoStack) + UndoEntry(old(Value()), entry).pushed && compoundRedo.Outside?
      ensures undoStack == old(undoStack) && compoundUndo == old(compoundUndo)
    {
      hide Distinct, Texts, Chained, Held, Settled, Valid, Framed, Value, At, CanUndo, Undoing.Undo1, CanUndoMany;
      hide UndoMany;
      match entry
      case One(r) => FramedIsValid(); Undo1(r);
      case Many(us) =>
        compoundRedo := Collecting([]);
        UndoRecords(us);
        redoStack := redoStack + [Many(compoundRedo.records)];
        compoundRedo := Outside;
    }

    /** One entry comes off the undo stack and what it leaves goes on the redo stack. */
    method Undo()
      requires AtRest() && (undoStack == [] || CanUndoEntry(Value(), Top(undoStack)))
      modifies this`lines, this`lastLine, this`topLine, this`dotLine, this`dotOffset, this`markLine, this`markOffset
      modifies this`redoStack, this`compoundRedo, this`undoStack, this`compoundUndo, lines
      ensures AtRest() && Whole() == History.Undo(old(Whole()))
      ensures forall k :: 0 <= k < |lines| ==> lines[k] in old(lines) || fresh(lines[k])
    {
      hide Distinct, Texts, Chained, Held, Settled, Value, At, CanUndoEntry, UndoEntry;
      if undoStack != [] {
        var entry := undoStack[|undoStack| - 1];
        undoStack := undoStack[..|undoStack| - 1];
        UndoTop(entry);
      }
    }

    // ---- redo ----

    /** Moves and line edits swap with the record; the other edits are done over again. */
    method Redo1(r: Record)
      requires Framed() && inRedo && CanRedo(Value(), r)
      modifies this`lines, this`lastLine, this`topLine, this`dotLine, this`dotOffset, this`markLine, this`markOffset
      modifies this`redoStack, this`compoundRedo, this`undoStack, this`compoundUndo, lines
      ensures Framed() && Value() == Undoing.Redo1(old(Value()), r).ed
      ensures PushedUndo(Undoing.Redo1(old(Value()), r).pushed)
      ensures redoStack == old(redoStack) && compoundRedo == old(compoundRedo)
      ensures forall k :: 0 <= k < |lines| ==> lines[k] in old(lines) || fresh(lines[k])
    {
      hide Distinct, Texts, Chained, Held, Settled, Valid, Framed, Value, At, Ones, TopIsSane, OnScreen, CanUndo;
      hide Apply, Allowed, Undoing.Undo1;
      FramedIsValid();
      match r.action
      case Moved => UndoMove(r); Reframed();
      case LineEdited => UndoLineEdit(r); Reframed();
      case SeparatorDeleted => DeleteLineSeparator(); FramedAgain();
      case SeparatorInserted => InsertLineSeparator(); FramedAgain();
      case LinesInserted => RedoInsertMultilineString(r.data[0]);
      case RegionDeleted => DeleteRegion(); FramedAgain();
    }

    method FramedAgain()
      requires Framed()
      modifies this`topLine
      ensures Framed() && Value() == old(Value())
    {
      hide Value, Settled;
      Reframed();
    }

    method RedoInsertMultilineString(s: string)
      requires Framed() && Allowed(Value(), InsertLines(s))
      modifies this`lines, this`lastLine, this`topLine, this`dotLine, this`dotOffset
      modifies this`undoStack, this`compoundUndo, lines
      ensures Framed()
      ensures Value() == Apply(old(Value()), InsertLines(s)).ed
      ensures PushedUndo(Apply(old(Value()), InsertLines(s)).pushed)
      ensures forall k :: 0 <= k < |lines| ==> lines[k] in old(lines) || fresh(lines[k])
    {
      hide Framed, Value, Apply, Ones;
      InsertMultilineString(s);
      FramedAgain();
    }

    lemma RedoManyLast(e: Ed, rs: seq<Record>, k: nat)
      requires 0 < k <= |rs| && CanRedoMany(e, rs[..k])
      ensures CanRedo(e, rs[k - 1])
      ensures var s := Undoing.Redo1(e, rs[k - 1]);
              CanRedoMany(s.ed, rs[..k - 1])
              && RedoMany(e, rs[..k]) == Swap(RedoMany(s.ed, rs[..k - 1]).ed,
                                              s.pushed + RedoMany(s.ed, rs[..k - 1]).pushed)
    {
      assert rs[..k][..k - 1] == rs[..k - 1];
    }

    method RedoRecords(rs: seq<Record>)
      requires Framed() && inRedo && compoundUndo == Collecting([]) && CanRedoMany(Value(), rs)
      modifies this`lines, this`lastLine, this`topLine, this`dotLine, this`dotOffset, this`markLine, this`markOffset
      modifies this`redoStack, this`compoundRedo, this`undoStack, this`compoundUndo, lines
      ensures forall k :: 0 <= k < |lines| ==> lines[k] in old(lines) || fresh(lines[k])
      ensures Framed() && Value() == RedoMany(old(Value()), rs).ed
      ensures compoundUndo == Collecting(RedoMany(old(Value()), rs).pushed)
      ensures redoStack == old(redoStack) && undoStack == old(undoStack) && compoundRedo == old(compoundRedo)
    {
      hide Held, Settled, Valid, Framed, Value, Ones, CanRedo, Undoing.Redo1, CanRedoMany, RedoMany;
      FramedIsHeld();
      assert rs[..|rs|] == rs;
      ghost var result := RedoMany(Value(), rs);
      var k: nat := |rs|;
      while k > 0
        invariant k <= |rs| && Framed() && Held() && compoundUndo.Collecting? && CanRedoMany(Value(), rs[..k])
        invariant RedoMany(Value(), rs[..k]).ed == result.ed
        invariant compoundUndo.records + RedoMany(Value(), rs[..k]).pushed == result.pushed
        invariant redoStack == old(redoStack) && undoStack == old(undoStack) && compoundRedo == old(compoundRedo)
        invariant forall i :: 0 <= i < |lines| ==> lines[i] in old(lines) || fresh(lines[i])
      {
        RedoManyLast(Value(), rs, k);
        k := k - 1;
        ghost var s := Undoing.Redo1(Value(), rs[k]);
        Regroup(compoundUndo.records, s.pushed, RedoMany(s.ed, rs[..k]).pushed);
        Redo1(rs[k]);
        FramedIsHeld();
      }
      NoneLeftToRedo(Value(), rs);
    }

    lemma NoneLeftToRedo(e: Ed, rs: seq<Record>)
      ensures CanRedoMany(e, rs[..0]) && RedoMany(e, rs[..0]) == Swap(e, [])
    {
    }

    method RedoTop(entry: Entry)
      requires Framed() && inRedo && compoundUndo.Outside? && CanRedoEntry(Value(), entry)
      modifies this`lines, this`lastLine, this`topLine, this`dotLine, this`dotOffset, this`markLine, this`markOffset
      modifies this`redoStack, this`compoundRedo, this`undoStack, this`compoundUndo, lines
      ensures forall k :: 0 <= k < |lines| ==> lines[k] in old(lines) || fresh(lines[k])
      ensures Framed() && Value() == RedoEntry(old(Value()), entry).ed
      ensures undoStack == old(undoStack) + RedoEntry(old(Value()), entry).pushed && compoundUndo.Outside?
      ensures redoStack == old(redoStack) && compoundRedo == old(compoundRedo)
    {
      hide Distinct, Texts, Chained, Held, Settled, Valid, Framed, Value, At, CanRedo, Undoing.Redo1, CanRedoMany;
      hide RedoMany;
      match entry
      case One(r) => Redo1(r);
      case Many(rs) =>
        compoundUndo := Collecting([]);
        RedoRecords(rs);
        undoStack := undoStack + [Many(compoundUndo.records)];
        compoundUndo := Outside;
    }

    /** One entry comes off the redo stack and what it leaves goes back on the undo stack. */
    method Redo()
      requires AtRest() && (redoStack == [] || CanRedoEntry(Value(), Top(redoStack)))
      modifies this`lines, this`lastLine, this`topLine, this`dotLine, this`dotOffset, this`markLine, this`markOffset
      modifies this`redoStack, this`compoundRedo, this`undoStack, this`compoundUndo, this`inRedo, lines
      ensures AtRest() && Whole() == History.Redo(old(Whole()))
      ensures forall k :: 0 <= k < |lines| ==> lines[k] in old(lines) || fresh(lines[k])
    {
      hide Distinct, Texts, Chained, Held, Settled, Value, At, CanRedoEntry, RedoEntry;
      if redoStack != [] {
        inRedo := true;
        var entry := redoStack[|redoStack| - 1];
        redoStack := redoStack[..|redoStack| - 1];
        RedoTop(entry);
        inRedo := false;
      }
    }

    // ---- paste ----

    method PasteStringInternal(s: string)
      requires Framed() && !EndsInLF(s)
      modifies this`lines, this`lastLine, this`topLine, this`dotLine, this`dotOffset, this`markLine, this`markOffset
      modifies this`undoStack, this`compoundUndo, lines
      ensures Framed()
      ensures Allowed(old(Value()), PasteEdit(old(Value()), s))
      ensures Value() == Apply(old(Value()), PasteEdit(old(Value()), s)).ed
      ensures PushedUndo(Apply(old(Value()), PasteEdit(old(Value()), s)).pushed)
    {
      hide Distinct, Texts, Chained, Held, Valid, Settled, Framed, Value, At, Ones, Apply, NewRecord;
      FramedIsValid();
      ValidParts();
      Parts();
      if LF in s {
        InsertMultilineString(s);
        FramedAgain();
      } else {
        EditLine(dotLine.text[..dotOffset] + s + dotLine.text[dotOffset..], dotOffset + |s|, markLine, markOffset);
      }
    }

    /** Deleting the region and pasting, collected in a compound that is then pushed. */
    method PasteOverRegion(s: string)
      requires Framed() && compoundUndo.Outside? && Allowed(Value(), Edit.DeleteRegion) && !EndsInLF(s)
      modifies this`lines, this`lastLine, this`topLine, this`dotLine, this`dotOffset, this`markLine, this`markOffset
      modifies this`undoStack, this`compoundUndo, lines
      ensures var o := Apply(old(Value()), Edit.DeleteRegion);
              Sound(o.ed) && Allowed(o.ed, PasteEdit(o.ed, s))
              && var p := Apply(o.ed, PasteEdit(o.ed, s));
                 Framed() && Value() == p.ed
                 && undoStack == old(undoStack) + [Many([] + o.pushed + p.pushed)] && compoundUndo.Outside?
    {
      hide Distinct, Texts, Chained, Held, Settled, Valid, Framed, Value, At, Apply, Allowed, PasteEdit, Ones;
      compoundUndo := Collecting([]);
      DeleteRegion();
      FramedIsValid();
      ValidParts();
      Parts();
      PasteStringInternal(s);
      undoStack := undoStack + [Many(compoundUndo.records)];
      compoundUndo := Outside;
    }

    /** Dot moves within its line. */
    method SetDotOffset(offset: nat)
      requires Framed() && offset <= |dotLine.text|
      modifies this`dotOffset
      ensures Framed() && Value() == old(Value()).(dot := Pos(old(Value()).dot.line, offset))
    {
      hide Distinct, Texts, Chained, Held, Valid, Settled, Framed, Value, At;
      FramedIsValid();
      ValidParts();
      Parts();
      dotOffset := offset;
      OnlyDotLine();
      SameLine(old(Value()).lines, old(Value()).dot.line);
      MarkStays();
    }

    /** A recorded move within dot's line. */
    method MoveInLine(offset: nat)
      requires Framed() && offset <= |dotLine.text|
      modifies this`dotOffset, this`undoStack, this`compoundUndo
      ensures Framed() && Held() && Value() == old(Value()).(dot := Pos(old(Value()).dot.line, offset))
      ensures PushedUndo([NewRecord(old(Value()), Moved, [], "")])
    {
      hide Held, Valid, Settled, Framed, Value, NewRecord, Ones;
      FramedIsValid();
      ValidParts();
      RecordUndo(Moved, [], "");
      SetDotOffset(offset);
      FramedIsHeld();
    }

    lemma MarkStays()
      requires Valid()
      ensures Held()
      ensures Value().mark == if markLine == null then Unmarked else Marked(Pos(markLine.number, markOffset))
    {
    }

    static lemma SameLine(texts: seq<string>, i: nat)
      requires i < |texts|
      ensures texts[i := texts[i]] == texts
    {
    }

    /** Whole lines go in above dot's: dot is moved to the start of its line, the lines are
        inserted, and dot is moved back to its offset. */
    method InsertWholeLines(s: string)
      requires Framed() && compoundUndo == Collecting([])
      requires Splice.Clean(Value().lines) && Value().mark.Unmarked? && EndsInLF(s)
      modifies this`lines, this`lastLine, this`topLine, this`dotLine, this`dotOffset
      modifies this`undoStack, this`compoundUndo, lines
      ensures Framed() && undoStack == old(undoStack)
      ensures AllReversible(old(Value()), PasteLines(old(Value()), s))
      ensures Value() == ApplyAll(old(Value()), PasteLines(old(Value()), s)).ed
      ensures compoundUndo == Collecting(ApplyAll(old(Value()), PasteLines(old(Value()), s)).pushed)
    {
      hide Distinct, Texts, Chained, Held, Settled, Valid, Framed, Value, At, Apply, Allowed, AllReversible, ApplyAll;
      hide PasteLines, InsertMultiline, NewRecord, Splice.Clean, Ones;
      FramedIsValid();
      ValidParts();
      Parts();
      PasteLinesApplied(Value(), s);
      var offset := dotOffset;
      MoveInLine(0);
      ghost var d := Value();
      ApplyInsertLines(d, s);
      InsertMultilineString(s);
      FramedIsValid();
      ValidParts();
      Parts();
      ghost var f := Value();
      MoveInLine(offset);
      ThreeRecords(NewRecord(old(Value()), Moved, [], ""), NewRecord(d, LinesInserted, [d.DotText()], s),
                   NewRecord(f, Moved, [], ""));
    }

    static lemma ThreeRecords(q: Record, r: Record, s: Record)
      ensures [] + [q] + [r] + [s] == [q, r, s]
    {
    }

    /** All of that in one compound. */
    method PasteWholeLines(s: string)
      requires Framed() && compoundUndo.Outside?
      requires Splice.Clean(Value().lines) && Value().mark.Unmarked? && EndsInLF(s)
      modifies this`lines, this`lastLine, this`topLine, this`dotLine, this`dotOffset
      modifies this`undoStack, this`compoundUndo, lines
      ensures Framed() && compoundUndo.Outside?
      ensures AllReversible(old(Value()), PasteLines(old(Value()), s))
      ensures Value() == ApplyAll(old(Value()), PasteLines(old(Value()), s)).ed
      ensures undoStack == old(undoStack) + [Many(ApplyAll(old(Value()), PasteLines(old(Value()), s)).pushed)]
    {
      hide Distinct, Texts, Chained, Held, Settled, Valid, Framed, Value, At, AllReversible, ApplyAll, PasteLines;
      compoundUndo := Collecting([]);
      InsertWholeLines(s);
      undoStack := undoStack + [Many(compoundUndo.records)];
      compoundUndo := Outside;
      FramedAgain();
    }

    /** Pasting any string, over a region unless the string is one of whole lines. */
    method PasteString(s: string)
      requires AtRest() && Reversible(Value(), Edit.DeleteRegion)
      requires markLine != null ==> !EndsInLF(s)
      modifies this`lines, this`lastLine, this`topLine, this`dotLine, this`dotOffset, this`markLine, this`markOffset
      modifies this`redoStack, this`undoStack, this`compoundUndo, lines
      ensures CanPerform(old(Value()), PasteCommand(old(Value()), s))
      ensures AtRest() && Whole() == History.Perform(old(Whole()), PasteCommand(old(Value()), s))
      ensures Allowed(old(Value()), Edit.DeleteRegion) && Pasted(old(Value()), s, Value())
    {
      hide Distinct, Texts, Chained, Held, Settled, Valid, Framed, Value, At, Apply, Allowed, Reversible, PasteEdit;
      hide Ones;
      hide CanPerform, History.Perform, PasteCommand, PasteLines, EndsInLF, Splice.Clean, ApplyAll, AllReversible;
      hide Pasted;
      FramedIsValid();
      ValidParts();
      Parts();
      PasteText(Whole(), s);
      PerformPaste(Whole(), s);
      redoStack := [];
      if markLine != null {
        PasteOverRegion(s);
      } else if s != "" && s[|s| - 1] == LF {
        LastIsLF(s);
        PasteWholeLines(s);
      } else {
        LastIsLF(s);
        PasteStringInternal(s);
      }
      FramedIsHeld();
    }

    static lemma LastIsLF(s: string)
      ensures EndsInLF(s) <==> s != "" && s[|s| - 1] == LF
    {
    }

    static lemma PerformPaste(was: Session, s: string)
      requires Reversible(was.ed, Edit.DeleteRegion) && CanPerform(was.ed, PasteCommand(was.ed, s))
      ensures Allowed(was.ed, Edit.DeleteRegion) && Splice.Clean(was.ed.lines)
      ensures var t := History.Perform(was, PasteCommand(was.ed, s));
              if was.ed.mark.Marked? then
                var o := Apply(was.ed, Edit.DeleteRegion);
                Sound(o.ed) && Allowed(o.ed, PasteEdit(o.ed, s))
                && var p := Apply(o.ed, PasteEdit(o.ed, s));
                   t == Session(p.ed, was.undos + [Many([] + o.pushed + p.pushed)], [])
              else if EndsInLF(s) then
                AllReversible(was.ed, PasteLines(was.ed, s))
                && var o := ApplyAll(was.ed, PasteLines(was.ed, s));
                   t == Session(o.ed, was.undos + [Many(o.pushed)], [])
              else
                Allowed(was.ed, PasteEdit(was.ed, s))
                && var o := Apply(was.ed, PasteEdit(was.ed, s));
                   t == Session(o.ed, was.undos + Ones(o.pushed), [])
    {
      hide Apply, PasteEdit, PasteLines, EndsInLF, CutsLines, Splice.Clean;
      if was.ed.mark.Marked? {
        EditIsClean(was.ed, Edit.DeleteRegion);
        var o := Apply(was.ed, Edit.DeleteRegion);
        var edit := PasteEdit(o.ed, s);
        var edits := [Edit.DeleteRegion, edit];
        assert edits[1..] == [edit] && [edit][1..] == [];
        assert AllReversible(o.ed, [edit]);
        var p := Apply(o.ed, edit);
        assert ApplyAll(p.ed, []) == Outcome(p.ed, []);
        assert ApplyAll(o.ed, [edit]) == Outcome(p.ed, p.pushed + []);
        assert [] + o.pushed + p.pushed == o.pushed + (p.pushed + []);
      }
    }

    // ---- any command ----

    /** Any edit that is allowed, with the positions it names looked up in the list. */
    method ApplyEdit(edit: Edit)
      requires Framed() && Allowed(Value(), edit)
      modifies this`lines, this`lastLine, this`topLine, this`dotLine, this`dotOffset, this`markLine, this`markOffset
      modifies this`undoStack, this`compoundUndo, lines
      ensures Framed() && Value() == Apply(old(Value()), edit).ed
      ensures PushedUndo(Apply(old(Value()), edit).pushed)
      ensures forall k :: 0 <= k < |lines| ==> lines[k] in old(lines) || fresh(lines[k])
    {
      hide Framed, Valid, Settled, Held, Value, Apply, Ones, Texts, Chained, Distinct;
      FramedIsValid();
      ValidParts();
      match edit
      case MoveTo(dot, mark) =>
        var line, markLine, markOffset := LookUp(dot, mark);
        MoveTo(line, dot.offset, markLine, markOffset);
      case EditLine(text, offset, mark) =>
        var markLine, markOffset := LookUpMark(mark);
        EditLine(text, offset, markLine, markOffset);
      case InsertSeparator => InsertLineSeparator();
      case DeleteSeparator => DeleteLineSeparator();
      case InsertLines(s) => InsertMultilineString(s);
      case DeleteRegion => DeleteRegion();
    }

    method LookUpMark(mark: Mark) returns (line: Line?, offset: nat)
      requires Valid() && OnLine(Value().lines, mark)
      ensures line != null ==> line in lines
      ensures mark == if line == null then Unmarked else Marked(Pos(line.number, offset))
    {
      hide Valid, Settled, Held, Value, Texts, Chained, Distinct;
      ValidParts();
      Parts();
      match mark {
        case Unmarked => line, offset := null, 0;
        case Marked(pos) =>
          line := NthLine(pos.line);
          offset := pos.offset;
          InOrderOf();
          NumberAt(pos.line);
      }
    }

    lemma InOrderOf()
      requires Settled()
      ensures InOrder(lines)
    {
    }

    method LookUp(dot: Pos, mark: Mark) returns (line: Line, markLine: Line?, markOffset: nat)
      requires Valid() && Legal(Value().lines, dot) && OnLine(Value().lines, mark)
      ensures line in lines && line.number == dot.line && dot.offset <= |line.text|
      ensures markLine != null ==> markLine in lines
      ensures mark == if markLine == null then Unmarked else Marked(Pos(markLine.number, markOffset))
    {
      hide Valid, Settled, Held, Value, Texts, Chained, Distinct;
      ValidParts();
      Parts();
      TextsIndexed(lines);
      InOrderOf();
      NumberAt(dot.line);
      var found := NthLine(dot.line);
      line := found;
      markLine, markOffset := LookUpMark(mark);
    }

    /** The edits of a compound, one after the other. */
    method Edits(edits: seq<Edit>)
      requires Framed() && compoundUndo == Collecting([]) && AllReversible(Value(), edits)
      modifies this`lines, this`lastLine, this`topLine, this`dotLine, this`dotOffset, this`markLine, this`markOffset
      modifies this`undoStack, this`compoundUndo, lines
      ensures Framed() && Value() == ApplyAll(old(Value()), edits).ed
      ensures compoundUndo == Collecting(ApplyAll(old(Value()), edits).pushed) && undoStack == old(undoStack)
      ensures forall k :: 0 <= k < |lines| ==> lines[k] in old(lines) || fresh(lines[k])
    {
      hide Framed, Value, Apply, ApplyAll, AllReversible, Reversible, Allowed, Ones;
      FramedIsHeld();
      assert edits[0..] == edits;
      ghost var result := ApplyAll(Value(), edits);
      var k := 0;
      while k < |edits|
        invariant k <= |edits| && Framed() && Held() && compoundUndo.Collecting? && AllReversible(Value(), edits[k..])
        invariant ApplyAll(Value(), edits[k..]).ed == result.ed
        invariant compoundUndo.records + ApplyAll(Value(), edits[k..]).pushed == result.pushed
        invariant undoStack == old(undoStack)
        invariant forall i :: 0 <= i < |lines| ==> lines[i] in old(lines) || fresh(lines[i])
      {
        ApplyAllFirst(Value(), edits, k);
        ghost var o := Apply(Value(), edits[k]);
        Regroup(compoundUndo.records, o.pushed, ApplyAll(o.ed, edits[k + 1..]).pushed);
        ApplyEdit(edits[k]);
        FramedIsHeld();
        k := k + 1;
      }
      ApplyNone(Value(), edits);
    }

    static lemma ApplyAllFirst(e: Ed, edits: seq<Edit>, k: nat)
      requires k < |edits| && AllReversible(e, edits[k..])
      ensures Allowed(e, edits[k])
      ensures var o := Apply(e, edits[k]);
              AllReversible(o.ed, edits[k + 1..])
              && ApplyAll(e, edits[k..]) == Outcome(ApplyAll(o.ed, edits[k + 1..]).ed,
                                                    o.pushed + ApplyAll(o.ed, edits[k + 1..]).pushed)
    {
      hide Apply;
      assert edits[k..][0] == edits[k] && edits[k..][1..] == edits[k + 1..];
    }

    static lemma ApplyNone(e: Ed, edits: seq<Edit>)
      ensures AllReversible(e, edits[|edits|..]) && ApplyAll(e, edits[|edits|..]) == Outcome(e, [])
    {
    }

    method PerformCompound(edits: seq<Edit>)
      requires Framed() && compoundUndo.Outside? && AllReversible(Value(), edits)
      modifies this`lines, this`lastLine, this`topLine, this`dotLine, this`dotOffset, this`markLine, this`markOffset
      modifies this`undoStack, this`compoundUndo, lines
      ensures Framed() && compoundUndo.Outside? && Value() == ApplyAll(old(Value()), edits).ed
      ensures undoStack == old(undoStack) + [Many(ApplyAll(old(Value()), edits).pushed)]
      ensures forall k :: 0 <= k < |lines| ==> lines[k] in old(lines) || fresh(lines[k])
    {
      hide Framed, Held, Value, ApplyAll, AllReversible;
      compoundUndo := Collecting([]);
      Edits(edits);
      undoStack := undoStack + [Many(compoundUndo.records)];
      compoundUndo := Outside;
    }

    /** A command that empties the redo stack, its edits recorded singly or as a compound. */
    method Perform(c: Command)
      requires AtRest() && CanPerform(Value(), c)
      modifies this`lines, this`lastLine, this`topLine, this`dotLine, this`dotOffset, this`markLine, this`markOffset
      modifies this`redoStack, this`undoStack, this`compoundUndo, lines
      ensures AtRest() && Whole() == History.Perform(old(Whole()), c)
      ensures forall k :: 0 <= k < |lines| ==> lines[k] in old(lines) || fresh(lines[k])
    {
      hide Framed, Held, Value, Apply, ApplyAll, AllReversible, Allowed, Ones;
      redoStack := [];
      match c
      case Single(edit) => ApplyEdit(edit); FramedIsHeld();
      case Compound(edits) => PerformCompound(edits); FramedIsHeld();
    }

    lemma FramedIsHeld()
      requires Framed()
      ensures Held()
    {
    }

    /** A whole session on the list: whatever commands, undos and redos come, the buffer, both
        stacks and the chain of lines are what the session's value says. */
    method Run(events: seq<Event>)
      requires AtRest() && Consistent(Whole()) && CanRun(Whole(), events)
      modifies this`lines, this`lastLine, this`topLine, this`dotLine, this`dotOffset, this`markLine, this`markOffset
      modifies this`redoStack, this`compoundRedo, this`undoStack, this`compoundUndo, this`inRedo, lines
      ensures AtRest() && Whole() == History.Run(old(Whole()), events)
      ensures Consistent(Whole())
    {
      hide AtRest, Held, Whole, Value, Consistent, CanRun, History.Run, History.Perform, History.Undo, History.Redo;
      hide CanPerform, CanUndoEntry, CanRedoEntry;
      RestIsHeld();
      assert events[0..] == events;
      ghost var result := History.Run(Whole(), events);
      var k := 0;
      while k < |events|
        invariant k <= |events| && AtRest() && Held() && Consistent(Whole()) && CanRun(Whole(), events[k..])
        invariant History.Run(Whole(), events[k..]) == result
        invariant forall i :: 0 <= i < |lines| ==> lines[i] in old(lines) || fresh(lines[i])
      {
        RunFirst(Whole(), events, k);
        WholeIs();
        match events[k] {
          case Do(c) => Perform(c);
          case UndoEvent => Undo();
          case RedoEvent => Redo();
        }
        RestIsHeld();
        k := k + 1;
      }
      RunNone(Whole(), events);
    }

    lemma RestIsHeld()
      requires AtRest()
      ensures Held()
    {
    }

    lemma WholeIs()
      requires Held()
      ensures Whole() == Session(Value(), undoStack, redoStack)
    {
    }

    static lemma RunFirst(s: Session, events: seq<Event>, k: nat)
      requires k < |events| && Consistent(s) && CanRun(s, events[k..])
      ensures match events[k]
              case Do(c) =>
                && CanPerform(s.ed, c)
                && Consistent(History.Perform(s, c)) && CanRun(History.Perform(s, c), events[k + 1..])
                && History.Run(s, events[k..]) == History.Run(History.Perform(s, c), events[k + 1..])
              case UndoEvent =>
                && (s.undos == [] || CanUndoEntry(s.ed, Top(s.undos)))
                && Consistent(History.Undo(s)) && CanRun(History.Undo(s), events[k + 1..])
                && History.Run(s, events[k..]) == History.Run(History.Undo(s), events[k + 1..])
              case RedoEvent =>
                && (s.redos == [] || CanRedoEntry(s.ed, Top(s.redos)))
                && Consistent(History.Redo(s)) && CanRun(History.Redo(s), events[k + 1..])
                && History.Run(s, events[k..]) == History.Run(History.Redo(s), events[k + 1..])
    {
      hide CanPerform, CanUndoEntry, CanRedoEntry, Undoable, Redoable, History.Perform, History.Undo, History.Redo;
      var rest := events[k..];
      assert rest[0] == events[k] && rest[1..] == events[k + 1..];
      match events[k]
      case Do(c) => PerformThenUndo(s, c);
      case UndoEvent => UndoThenRedo(s);
      case RedoEvent => RedoThenUndo(s);
    }

    static lemma RunNone(s: Session, events: seq<Event>)
      requires Consistent(s)
      ensures CanRun(s, events[|events|..]) && History.Run(s, events[|events|..]) == s
    {
    }
  }
}
