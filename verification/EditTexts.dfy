/** What each recorded edit does to the text on either side of dot, and to the mark. */
module EditTexts {
  import opened Editing
  import opened Splice
  import opened Undoing

  /** From e to f the text from b to end has become s, and dot is behind it. */
  predicate Replaces(e: Ed, b: Pos, end: Pos, s: string, f: Ed)
    requires Legal(e.lines, b) && Legal(e.lines, end)
  {
    && Legal(f.lines, f.dot)
    && Before(f.lines, f.dot) == Before(e.lines, b) + s
    && After(f.lines, f.dot) == After(e.lines, end)
  }

  /** The mark stays where it is in its line, the line counted from the first if it is not
      below dot's, and from the last if it is. */
  predicate MarkKept(e: Ed, f: Ed) {
    if e.mark.Unmarked? then f.mark.Unmarked?
    else
      && f.mark.Marked? && f.mark.pos.offset == e.mark.pos.offset
      && (e.mark.pos.line <= e.dot.line ==> f.mark.pos.line == e.mark.pos.line)
      && (e.mark.pos.line > e.dot.line ==> |f.lines| - f.mark.pos.line == |e.lines| - e.mark.pos.line)
  }

  /** A line edit replaces dot's whole line, up to offset before dot and the rest behind it. */
  lemma LineEditText(e: Ed, text: string, offset: nat, mark: Mark)
    requires Allowed(e, EditLine(text, offset, mark))
    ensures var f := Apply(e, EditLine(text, offset, mark)).ed;
            && f.mark == mark && f.dot == Pos(e.dot.line, offset) && Legal(f.lines, f.dot)
            && Before(f.lines, f.dot) == Before(e.lines, Pos(e.dot.line, 0)) + text[..offset]
            && After(f.lines, f.dot) == text[offset..] + After(e.lines, Pos(e.dot.line, |e.DotText()|))
  {
    var i := e.dot.line;
    var f := Apply(e, EditLine(text, offset, mark)).ed;
    assert f.lines[..i] == e.lines[..i] && f.lines[i + 1..] == e.lines[i + 1..];
  }

  /** A clean buffer has a separator right behind dot just when the edit takes one out. */
  lemma SeparatorText(e: Ed)
    requires Allowed(e, DeleteSeparator) && Clean(e.lines)
    ensures var f := Apply(e, DeleteSeparator).ed;
            if After(e.lines, e.dot) != "" && After(e.lines, e.dot)[0] == '\n'
            then Legal(f.lines, f.dot) && f.dot == e.dot
                 && Before(f.lines, f.dot) == Before(e.lines, e.dot)
                 && "\n" + After(f.lines, f.dot) == After(e.lines, e.dot)
            else f == e
  {
    if AtSeparator(e) {
      JoinDeletes(e);
    }
  }

  /** A position comes before another when there is less text before it. */
  lemma BeforeHasLessText(lines: seq<string>, p: Pos, q: Pos)
    requires Legal(lines, p) && Legal(lines, q)
    ensures PosBefore(p, q) <==> |Before(lines, p)| < |Before(lines, q)|
  {
    if p.line < q.line {
      LaterLineIsFurther(lines, p, q);
    } else if q.line < p.line {
      LaterLineIsFurther(lines, q, p);
    }
  }

  /** What stands between dot and mark goes, whichever comes first. */
  lemma DeletedText(e: Ed)
    requires Allowed(e, DeleteRegion) && e.mark.Marked?
    ensures var f := Apply(e, DeleteRegion).ed;
            var m := e.mark.pos;
            && f.mark.Unmarked?
            && if |Before(e.lines, e.dot)| <= |Before(e.lines, m)|
               then Replaces(e, e.dot, m, "", f) else Replaces(e, m, e.dot, "", f)
  {
    hide Before, After, WithoutRegion, RegionString, Contents;
    var m := e.mark.pos;
    DeleteTakesRegion(e.lines, RegionBegin(e), RegionEnd(e));
    BeforeHasLessText(e.lines, e.dot, m);
    if |Before(e.lines, e.dot)| == |Before(e.lines, m)| {
      BeforeDeterminesPosition(e.lines, e.dot, m);
    }
    assert Before(e.lines, RegionBegin(e)) + "" == Before(e.lines, RegionBegin(e));
  }

  lemma InsertedText(e: Ed, s: string)
    requires Sound(e) && s != ""
    ensures Replaces(e, e.dot, e.dot, Normal(s), InsertMultiline(e, s))
  {
    hide Before, After, InsertPlain, SplitDot, InsertPieces, Pieces, Joined, Normal;
    JoinedPieces(s);
    PiecesInsert(e, Pieces(s));
    if s[|s| - 1] == LF {
      SplitInserts(InsertPieces(e, Pieces(s)));
    }
  }

  /** Every edit, by what it does to the text. */
  lemma EditText(e: Ed, edit: Edit)
    requires Allowed(e, edit) && Clean(e.lines)
    ensures var f := Apply(e, edit).ed;
            match edit
            case MoveTo(dot, mark) => f == Ed(e.lines, dot, mark)
            case EditLine(text, offset, mark) =>
              && f.mark == mark && f.dot == Pos(e.dot.line, offset) && Legal(f.lines, f.dot)
              && Before(f.lines, f.dot) == Before(e.lines, Pos(e.dot.line, 0)) + text[..offset]
              && After(f.lines, f.dot) == text[offset..] + After(e.lines, Pos(e.dot.line, |e.DotText()|))
            case InsertSeparator => Replaces(e, e.dot, e.dot, "\n", f) && MarkKept(e, f)
            case DeleteSeparator =>
              if After(e.lines, e.dot) != "" && After(e.lines, e.dot)[0] == '\n'
              then Legal(f.lines, f.dot) && f.dot == e.dot
                   && Before(f.lines, f.dot) == Before(e.lines, e.dot)
                   && "\n" + After(f.lines, f.dot) == After(e.lines, e.dot) && MarkKept(e, f)
              else f == e
            case InsertLines(s) => Replaces(e, e.dot, e.dot, Normal(s), f) && MarkKept(e, f)
            case DeleteRegion =>
              if e.mark.Unmarked? then f == e
              else f.mark.Unmarked?
                   && if |Before(e.lines, e.dot)| <= |Before(e.lines, e.mark.pos)|
                      then Replaces(e, e.dot, e.mark.pos, "", f) else Replaces(e, e.mark.pos, e.dot, "", f)
  {
    match edit
    case MoveTo(dot, mark) =>
    case EditLine(text, offset, mark) => LineEditText(e, text, offset, mark);
    case InsertSeparator => SplitInserts(e);
    case DeleteSeparator => SeparatorText(e);
    case InsertLines(s) => InsertedText(e, s); var n := MultilineGrows(e, s);
    case DeleteRegion => if e.mark.Marked? { DeletedText(e); }
  }
}
