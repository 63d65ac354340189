/** The editor's buffer as a value: its lines, dot and mark, what each recorded edit does to
    them, and what undo and redo make of the record. */
module Editing {

  const LF := '\n'
  const CR := '\r'

  datatype Pos = Pos(line: nat, offset: nat)

  datatype Mark = Unmarked | Marked(pos: Pos)

  datatype Ed = Ed(lines: seq<string>, dot: Pos, mark: Mark)
  {
    function DotText(): string
      requires dot.line < |lines|
    {
      lines[dot.line]
    }
  }

  predicate Legal(lines: seq<string>, p: Pos) {
    p.line < |lines| && p.offset <= |lines[p.line]|
  }

  predicate OnLine(lines: seq<string>, m: Mark) { m.Marked? ==> m.pos.line < |lines| }

  predicate Sound(e: Ed) { Legal(e.lines, e.dot) && OnLine(e.lines, e.mark) }

  // ---- list surgery, and where it leaves the mark ----

  function Min(a: nat, b: nat): nat { if a < b then a else b }

  /** s becomes line i. */
  function Inserted(lines: seq<string>, i: nat, s: string): seq<string>
    requires i <= |lines|
  {
    lines[..i] + [s] + lines[i..]
  }

  /** Lines i up to j are taken out. */
  function Dropped(lines: seq<string>, i: nat, j: nat): seq<string>
    requires i <= j <= |lines|
  {
    lines[..i] + lines[j..]
  }

  function Later(m: Mark, i: nat, n: nat): Mark {
    if m.Marked? && m.pos.line >= i then Marked(Pos(m.pos.line + n, m.pos.offset)) else m
  }

  function Earlier(m: Mark, i: nat, n: nat): Mark {
    if m.Marked? && m.pos.line >= i + n then Marked(Pos(m.pos.line - n, m.pos.offset)) else m
  }

  predicate MarkInside(m: Mark, i: nat, j: nat) { m.Marked? && i <= m.pos.line < j }

  // ---- changes without undo ----

  function InsertPlain(e: Ed, s: string): Ed
    requires Sound(e)
  {
    var t := e.DotText();
    Ed(e.lines[e.dot.line := t[..e.dot.offset] + s + t[e.dot.offset..]],
       Pos(e.dot.line, e.dot.offset + |s|), e.mark)
  }

  /** A line separator goes in at dot, and dot moves past it. */
  function SplitDot(e: Ed): Ed
    requires Sound(e)
  {
    var t := e.DotText();
    var i := e.dot.line;
    Ed(Inserted(e.lines[i := t[..e.dot.offset]], i + 1, t[e.dot.offset..]), Pos(i + 1, 0), Later(e.mark, i + 1, 1))
  }

  /** The separator at the end of dot's line goes. */
  function JoinDot(e: Ed): Ed
    requires Sound(e) && e.dot.line + 1 < |e.lines|
  {
    var i := e.dot.line;
    Ed(Dropped(e.lines[i := e.lines[i] + e.lines[i + 1]], i + 1, i + 2), e.dot, Earlier(e.mark, i + 1, 1))
  }

  /** The lines of a string: a carriage return right before a line feed is dropped. */
  function Pieces(s: string): (r: seq<string>)
    ensures s != "" ==> r != []
  {
    if s == "" then []
    else if LF !in s then [s]
    else
      [FirstPiece(s)] + Pieces(s[FirstLF(s) + 1..])
  }

  function FirstLF(s: string): (k: nat)
    requires LF in s
    ensures k < |s| && s[k] == LF && LF !in s[..k]
  {
    if s[0] == LF then 0 else FirstLF(s[1..]) + 1
  }

  function FirstPiece(s: string): string
    requires LF in s
  {
    var k := FirstLF(s);
    if k > 0 && s[k - 1] == CR then s[..k - 1] else s[..k]
  }

  function InsertPieces(e: Ed, pieces: seq<string>): (r: Ed)
    requires Sound(e) && pieces != []
    ensures Sound(r)
    decreases |pieces|
  {
    var e1 := InsertPlain(e, pieces[0]);
    PlainGrows(e, pieces[0]);
    if |pieces| == 1 then e1
    else SplitGrows(e1); InsertPieces(SplitDot(e1), pieces[1..])
  }

  function InsertMultiline(e: Ed, s: string): (r: Ed)
    requires Sound(e) && s != ""
    ensures Sound(r)
  {
    var e1 := InsertPieces(e, Pieces(s));
    if s[|s| - 1] == LF then SplitGrows(e1); SplitDot(e1) else e1
  }

  function InsertString(e: Ed, s: string): (r: Ed)
    requires Sound(e)
    ensures Sound(r)
  {
    PlainGrows(e, s);
    if LF in s then InsertMultiline(e, s) else InsertPlain(e, s)
  }

  predicate PosBefore(p: Pos, q: Pos) { p.line < q.line || (p.line == q.line && p.offset < q.offset) }

  function RegionBegin(e: Ed): Pos
    requires e.mark.Marked?
  {
    if PosBefore(e.dot, e.mark.pos) then e.dot else e.mark.pos
  }

  function RegionEnd(e: Ed): Pos
    requires e.mark.Marked?
  {
    if PosBefore(e.dot, e.mark.pos) then e.mark.pos else e.dot
  }

  /** Lines i up to j, each with its separator. */
  function WholeLines(lines: seq<string>, i: nat, j: nat): string
    requires i <= j <= |lines|
    decreases j - i
  {
    if i == j then "" else lines[i] + [LF] + WholeLines(lines, i + 1, j)
  }

  function RegionString(lines: seq<string>, b: Pos, e: Pos): string
    requires Legal(lines, b) && Legal(lines, e) && !PosBefore(e, b)
  {
    if b.line == e.line then lines[b.line][b.offset..e.offset]
    else lines[b.line][b.offset..] + [LF] + WholeLines(lines, b.line + 1, e.line) + lines[e.line][..e.offset]
  }

  function WithoutRegion(lines: seq<string>, b: Pos, e: Pos): seq<string>
    requires Legal(lines, b) && Legal(lines, e) && !PosBefore(e, b)
  {
    Dropped(lines[b.line := lines[b.line][..b.offset] + lines[e.line][e.offset..]], b.line + 1, e.line + 1)
  }

  // ---- how an insertion grows the buffer ----

  /** From e to f only dot's line was opened up, into n + 1 lines, and dot moved to the last. */
  predicate Grows(e: Ed, f: Ed, n: nat) {
    && Sound(e) && Sound(f)
    && |f.lines| == |e.lines| + n
    && (forall k :: 0 <= k < e.dot.line ==> f.lines[k] == e.lines[k])
    && (forall k :: e.dot.line < k < |e.lines| ==> f.lines[k + n] == e.lines[k])
    && f.dot.line == e.dot.line + n
    && (n == 0 ==> e.dot.offset <= f.dot.offset)
    && e.dot.offset <= |f.lines[e.dot.line]|
    && f.mark == Later(e.mark, e.dot.line + 1, n)
  }

  lemma PlainGrows(e: Ed, s: string)
    requires Sound(e)
    ensures Grows(e, InsertPlain(e, s), 0)
  {
  }

  lemma SplitGrows(e: Ed)
    requires Sound(e)
    ensures Grows(e, SplitDot(e), 1)
  {
  }

  lemma GrowsTwice(e: Ed, f: Ed, g: Ed, n: nat, m: nat)
    requires Grows(e, f, n) && Grows(f, g, m)
    ensures Grows(e, g, n + m)
  {
    forall k | e.dot.line < k < |e.lines|
      ensures g.lines[k + (n + m)] == e.lines[k]
    {
      assert f.lines[k + n] == e.lines[k];
      assert g.lines[(k + n) + m] == f.lines[k + n];
    }
  }

  lemma {:induction false} PiecesGrow(e: Ed, pieces: seq<string>)
    requires Sound(e) && pieces != []
    ensures Grows(e, InsertPieces(e, pieces), |pieces| - 1)
    decreases |pieces|
  {
    hide Grows, InsertPlain, SplitDot;
    PlainGrows(e, pieces[0]);
    var e1 := InsertPlain(e, pieces[0]);
    if |pieces| > 1 {
      GrownIsSound(e, e1, 0);
      SplitGrows(e1);
      var e2 := SplitDot(e1);
      GrownIsSound(e1, e2, 1);
      PiecesGrow(e2, pieces[1..]);
      GrowsTwice(e1, e2, InsertPieces(e2, pieces[1..]), 1, |pieces| - 2);
      GrowsTwice(e, e1, InsertPieces(e, pieces), 0, |pieces| - 1);
    }
  }

  lemma GrownIsSound(e: Ed, f: Ed, n: nat)
    requires Grows(e, f, n)
    ensures Sound(e) && Sound(f)
  {
  }

  lemma MultilineGrows(e: Ed, s: string) returns (n: nat)
    requires Sound(e) && s != ""
    ensures Grows(e, InsertMultiline(e, s), n)
  {
    hide Grows, SplitDot, InsertPieces;
    PiecesGrow(e, Pieces(s));
    var e1 := InsertPieces(e, Pieces(s));
    n := |Pieces(s)| - 1;
    if s[|s| - 1] == LF {
      SplitGrows(e1);
      GrowsTwice(e, e1, SplitDot(e1), n, 1);
      n := n + 1;
    }
  }
}
