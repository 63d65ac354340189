/** What the edits do to the buffer's text, its lines joined by newlines: the text before a
    position, the text after it, and how insertions and deletions change the two. */
module Splice {
  import opened Editing

  /** Each line with its separator. */
  function Ended(lines: seq<string>): string {
    if lines == [] then "" else lines[0] + [LF] + Ended(lines[1..])
  }

  /** Each line after a separator. */
  function Begun(lines: seq<string>): string {
    if lines == [] then "" else [LF] + lines[0] + Begun(lines[1..])
  }

  function Before(lines: seq<string>, p: Pos): string
    requires Legal(lines, p)
  {
    Ended(lines[..p.line]) + lines[p.line][..p.offset]
  }

  function After(lines: seq<string>, p: Pos): string
    requires Legal(lines, p)
  {
    lines[p.line][p.offset..] + Begun(lines[p.line + 1..])
  }

  function Contents(lines: seq<string>): string
    requires lines != []
  {
    lines[0] + Begun(lines[1..])
  }

  /** No line holds a separator. */
  predicate Clean(lines: seq<string>) { forall i :: 0 <= i < |lines| ==> LF !in lines[i] }

  lemma {:induction false} EndedAppend(a: seq<string>, b: seq<string>)
    ensures Ended(a + b) == Ended(a) + Ended(b)
  {
    if a == [] {
      assert a + b == b;
    } else {
      assert (a + b)[1..] == a[1..] + b;
      EndedAppend(a[1..], b);
    }
  }

  lemma {:induction false} WholeLinesEnded(lines: seq<string>, i: nat, j: nat)
    requires i <= j <= |lines|
    ensures WholeLines(lines, i, j) == Ended(lines[i..j])
    decreases j - i
  {
    if i < j {
      WholeLinesEnded(lines, i + 1, j);
      assert lines[i..j][1..] == lines[i + 1..j];
    }
  }

  lemma {:induction false} EndedThenLine(lines: seq<string>, i: nat)
    requires i < |lines|
    ensures Ended(lines[..i]) + lines[i] + Begun(lines[i + 1..]) == Contents(lines)
  {
    if i > 0 {
      var rest := lines[1..];
      EndedThenLine(rest, i - 1);
      assert lines[..i][1..] == rest[..i - 1] && rest[i..] == lines[i + 1..];
      assert Ended(lines[..i]) == lines[0] + [LF] + Ended(rest[..i - 1]);
      hide Ended, Begun;
      BegunIsContents(rest);
      FourParts(lines[0] + [LF], Ended(rest[..i - 1]), lines[i], Begun(lines[i + 1..]));
    }
  }

  lemma FourParts(a: string, b: string, c: string, d: string)
    ensures a + b + c + d == a + (b + c + d)
  {
  }

  /** A position cuts the text in two. */
  lemma BeforeAndAfter(lines: seq<string>, p: Pos)
    requires Legal(lines, p)
    ensures Before(lines, p) + After(lines, p) == Contents(lines)
  {
    EndedThenLine(lines, p.line);
    var t := lines[p.line];
    assert t == t[..p.offset] + t[p.offset..];
  }

  // ---- the text determines the lines, and the length before it a position ----

  lemma FirstLineNotShorter(a: string, x: string, b: string, y: string)
    requires LF !in b && a + x == b + y && (x == "" || x[0] == LF)
    ensures |a| >= |b|
  {
    assert forall i :: 0 <= i < |b| ==> (a + x)[i] == b[i];
    assert x != "" ==> (a + x)[|a|] == LF;
  }

  lemma FirstLineSame(a: string, x: string, b: string, y: string)
    requires LF !in a && LF !in b && a + x == b + y
    requires (x == "" || x[0] == LF) && (y == "" || y[0] == LF)
    ensures a == b && x == y
  {
    FirstLineNotShorter(a, x, b, y);
    FirstLineNotShorter(b, y, a, x);
    assert a == (a + x)[..|a|] && b == (b + y)[..|b|];
    assert x == (a + x)[|a|..] && y == (b + y)[|b|..];
  }

  lemma {:induction false} ContentsDetermineLines(k: seq<string>, l: seq<string>)
    requires k != [] && l != [] && Clean(k) && Clean(l) && Contents(k) == Contents(l)
    ensures k == l
    decreases |k|
  {
    FirstLineSame(k[0], Begun(k[1..]), l[0], Begun(l[1..]));
    if |k| > 1 && |l| > 1 {
      BegunIsContents(k[1..]);
      BegunIsContents(l[1..]);
      ContentsDetermineLines(k[1..], l[1..]);
      assert k == [k[0]] + k[1..] && l == [l[0]] + l[1..];
    }
  }

  lemma BegunIsContents(lines: seq<string>)
    requires lines != []
    ensures Begun(lines) == [LF] + Contents(lines) && Begun(lines)[1..] == Contents(lines)
  {
  }

  lemma LaterLineIsFurther(lines: seq<string>, p: Pos, q: Pos)
    requires Legal(lines, p) && Legal(lines, q) && p.line < q.line
    ensures |Before(lines, p)| < |Before(lines, q)|
  {
    EndedAppend(lines[..p.line], lines[p.line..q.line]);
    assert lines[..p.line] + lines[p.line..q.line] == lines[..q.line];
    assert |Ended(lines[p.line..q.line])| > |lines[p.line]|;
  }

  lemma BeforeDeterminesPosition(lines: seq<string>, p: Pos, q: Pos)
    requires Legal(lines, p) && Legal(lines, q) && |Before(lines, p)| == |Before(lines, q)|
    ensures p == q
  {
    if p.line < q.line {
      LaterLineIsFurther(lines, p, q);
    } else if q.line < p.line {
      LaterLineIsFurther(lines, q, p);
    }
  }

  /** The two texts on either side of a position determine the lines and the position. */
  lemma SidesDetermine(k: seq<string>, p: Pos, l: seq<string>, q: Pos)
    requires Legal(k, p) && Legal(l, q) && Clean(k) && Clean(l)
    requires Before(k, p) == Before(l, q) && After(k, p) == After(l, q)
    ensures k == l && p == q
  {
    BeforeAndAfter(k, p);
    BeforeAndAfter(l, q);
    ContentsDetermineLines(k, l);
    BeforeDeterminesPosition(k, p, q);
  }

  // ---- deleting ----

  /** The region string is what stands between its ends. */
  lemma RegionBetween(lines: seq<string>, b: Pos, e: Pos)
    requires Legal(lines, b) && Legal(lines, e) && !PosBefore(e, b)
    ensures Before(lines, e) == Before(lines, b) + RegionString(lines, b, e)
  {
    if b.line < e.line {
      WholeLinesEnded(lines, b.line + 1, e.line);
      EndedAppend(lines[..b.line], lines[b.line..e.line]);
      assert lines[..b.line] + lines[b.line..e.line] == lines[..e.line];
      assert lines[b.line..e.line][1..] == lines[b.line + 1..e.line];
      var t := lines[b.line];
      assert t == t[..b.offset] + t[b.offset..];
    }
  }

  /** Deleting a region takes out exactly the text that the region string holds. */
  lemma DeleteTakesRegion(lines: seq<string>, b: Pos, e: Pos)
    requires Legal(lines, b) && Legal(lines, e) && !PosBefore(e, b)
    ensures var left := WithoutRegion(lines, b, e);
            && Legal(left, b)
            && Before(left, b) == Before(lines, b)
            && After(left, b) == After(lines, e)
            && Contents(lines) == Before(left, b) + RegionString(lines, b, e) + After(left, b)
  {
    RegionBetween(lines, b, e);
    BeforeAndAfter(lines, e);
    var left := WithoutRegion(lines, b, e);
    assert left[..b.line] == lines[..b.line];
    assert left[b.line + 1..] == lines[e.line + 1..];
  }

  lemma DeleteKeepsClean(lines: seq<string>, b: Pos, e: Pos)
    requires Legal(lines, b) && Legal(lines, e) && !PosBefore(e, b) && Clean(lines)
    ensures Clean(WithoutRegion(lines, b, e))
  {
  }

  // ---- inserting ----

  lemma PlainInserts(e: Ed, s: string)
    requires Sound(e)
    ensures var f := InsertPlain(e, s);
            Legal(f.lines, f.dot) && Before(f.lines, f.dot) == Before(e.lines, e.dot) + s
            && After(f.lines, f.dot) == After(e.lines, e.dot)
  {
    var f := InsertPlain(e, s);
    assert f.lines[..e.dot.line] == e.lines[..e.dot.line];
    assert f.lines[e.dot.line + 1..] == e.lines[e.dot.line + 1..];
    assert f.DotText()[..f.dot.offset] == e.DotText()[..e.dot.offset] + s;
  }

  lemma SplitInserts(e: Ed)
    requires Sound(e)
    ensures var f := SplitDot(e);
            Legal(f.lines, f.dot) && Before(f.lines, f.dot) == Before(e.lines, e.dot) + [LF]
            && After(f.lines, f.dot) == After(e.lines, e.dot)
  {
    var f := SplitDot(e);
    var i := e.dot.line;
    var head := e.DotText()[..e.dot.offset];
    assert f.lines[..i + 1] == e.lines[..i] + [head];
    EndedAppend(e.lines[..i], [head]);
    assert Ended([head]) == head + [LF];
    assert f.lines[i + 2..] == e.lines[i + 1..];
  }

  /** Joining takes out the separator that stands right after dot. */
  lemma JoinDeletes(e: Ed)
    requires Sound(e) && e.dot.line + 1 < |e.lines| && e.dot.offset == |e.DotText()|
    ensures var f := JoinDot(e);
            Legal(f.lines, f.dot) && Before(f.lines, f.dot) == Before(e.lines, e.dot)
            && [LF] + After(f.lines, f.dot) == After(e.lines, e.dot)
  {
    var f := JoinDot(e);
    var i := e.dot.line;
    assert f.lines[..i] == e.lines[..i] && f.lines[i + 1..] == e.lines[i + 2..];
    assert e.lines[i + 1..][1..] == e.lines[i + 2..];
  }

  function Joined(pieces: seq<string>): string {
    if pieces == [] then ""
    else if |pieces| == 1 then pieces[0]
    else pieces[0] + [LF] + Joined(pieces[1..])
  }

  lemma {:induction false} PiecesInsert(e: Ed, pieces: seq<string>)
    requires Sound(e) && pieces != []
    ensures var f := InsertPieces(e, pieces);
            Before(f.lines, f.dot) == Before(e.lines, e.dot) + Joined(pieces)
            && After(f.lines, f.dot) == After(e.lines, e.dot)
    decreases |pieces|
  {
    hide Before, After, InsertPlain, SplitDot;
    PlainInserts(e, pieces[0]);
    PlainGrows(e, pieces[0]);
    var e1 := InsertPlain(e, pieces[0]);
    if |pieces| > 1 {
      SplitInserts(e1);
      SplitGrows(e1);
      PiecesInsert(SplitDot(e1), pieces[1..]);
    }
  }

  /** The string without each carriage return that a line feed follows. */
  function Normal(s: string): string {
    if s == "" then ""
    else if |s| > 1 && s[0] == CR && s[1] == LF then Normal(s[1..])
    else [s[0]] + Normal(s[1..])
  }

  lemma Associative(a: string, b: string, c: string)
    ensures a + b + c == a + (b + c)
  {
  }

  lemma FirstLFCons(s: string)
    requires LF in s && s[0] != LF
    ensures LF in s[1..] && FirstLF(s) == FirstLF(s[1..]) + 1
  {
  }

  /** The first line of a string that does not break right away. */
  lemma FirstPieceCons(s: string)
    requires LF in s && s[0] != LF && !(s[0] == CR && s[1] == LF)
    ensures LF in s[1..] && FirstPiece(s) == [s[0]] + FirstPiece(s[1..])
  {
    hide FirstLF;
    FirstLFCons(s);
    var k := FirstLF(s);
    TakeCons(s, k);
    if k > 1 {
      TakeCons(s, k - 1);
    }
  }

  lemma TakeCons(s: string, k: nat)
    requires 0 < k <= |s|
    ensures s[..k] == [s[0]] + s[1..][..k - 1]
  {
  }

  lemma NormalCons(s: string)
    requires s != ""
    ensures Normal(s) == (if |s| > 1 && s[0] == CR && s[1] == LF then "" else [s[0]]) + Normal(s[1..])
  {
  }

  lemma Regroup(a: string, b: string, c: string, d: string)
    ensures a + (b + c + d) == a + b + c + d
  {
  }

  lemma {:induction false} NormalLine(s: string)
    requires LF in s
    ensures Normal(s) == FirstPiece(s) + [LF] + Normal(s[FirstLF(s) + 1..])
  {
    hide Normal;
    NormalCons(s);
    var rest := s[1..];
    if s[0] == LF {
    } else if s[0] == CR && s[1] == LF {
      assert FirstLF(s) == 1 && FirstPiece(s) == "";
      NormalCons(rest);
      assert rest[1..] == s[2..];
    } else {
      FirstLFCons(s);
      FirstPieceCons(s);
      hide FirstLF, FirstPiece;
      NormalLine(rest);
      var after := s[FirstLF(s) + 1..];
      assert rest[FirstLF(rest) + 1..] == after;
      Regroup([s[0]], FirstPiece(rest), [LF], Normal(after));
    }
  }

  lemma {:induction false} NormalWithoutLF(s: string)
    requires LF !in s
    ensures Normal(s) == s
  {
    if s != "" {
      NormalWithoutLF(s[1..]);
    }
  }

  /** The separator that an insertion ends with when its string does. */
  function LastLF(s: string): string
    requires s != ""
  {
    if s[|s| - 1] == LF then [LF] else ""
  }

  lemma JoinedFirst(piece: string, rest: seq<string>)
    ensures Joined([piece] + rest) == if rest == [] then piece else piece + [LF] + Joined(rest)
  {
    assert ([piece] + rest)[1..] == rest;
  }

  lemma {:induction false} JoinedPieces(s: string)
    requires s != ""
    ensures Joined(Pieces(s)) + LastLF(s) == Normal(s)
  {
    hide Joined, Normal, Pieces, FirstLF, FirstPiece;
    PiecesUnfold(s);
    if LF in s {
      NormalLine(s);
      var rest := s[FirstLF(s) + 1..];
      JoinedFirst(FirstPiece(s), Pieces(rest));
      if rest == "" {
        NormalWithoutLF(rest);
        PiecesUnfold(rest);
      } else {
        JoinedPieces(rest);
        PiecesUnfold(rest);
        LastOfRest(s, FirstLF(s));
        Associative(FirstPiece(s) + [LF], Joined(Pieces(rest)), LastLF(s));
      }
    } else {
      NormalWithoutLF(s);
      JoinedFirst(s, []);
      assert [s] + [] == [s];
    }
  }

  lemma PiecesUnfold(s: string)
    ensures s == "" ==> Pieces(s) == []
    ensures s != "" && LF !in s ==> Pieces(s) == [s]
    ensures LF in s ==> Pieces(s) == [FirstPiece(s)] + Pieces(s[FirstLF(s) + 1..])
  {
  }

  lemma LastOfRest(s: string, k: nat)
    requires k + 1 < |s|
    ensures LastLF(s) == LastLF(s[k + 1..])
  {
  }

  /** What an insertion puts at dot, leaving dot after it. */
  lemma InsertStringInserts(e: Ed, s: string)
    requires Sound(e)
    ensures var f := InsertString(e, s);
            && Before(f.lines, f.dot) == Before(e.lines, e.dot) + Normal(s)
            && After(f.lines, f.dot) == After(e.lines, e.dot)
  {
    hide Before, After, InsertPlain, SplitDot, InsertPieces, Pieces, Joined, Normal;
    if LF in s {
      JoinedPieces(s);
      PiecesInsert(e, Pieces(s));
      var e1 := InsertPieces(e, Pieces(s));
      if s[|s| - 1] == LF {
        SplitInserts(e1);
      }
    } else {
      NormalWithoutLF(s);
      PlainInserts(e, s);
    }
  }

  /** No carriage return stands right before a line feed. */
  predicate NoCRLF(s: string) {
    forall i :: 0 <= i < |s| - 1 ==> !(s[i] == CR && s[i + 1] == LF)
  }

  lemma {:induction false} NormalIff(s: string)
    ensures |Normal(s)| <= |s|
    ensures |Normal(s)| == |s| <==> NoCRLF(s)
    ensures Normal(s) == s <==> NoCRLF(s)
  {
    if s != "" {
      NormalIff(s[1..]);
      if |s| > 1 && s[0] == CR && s[1] == LF {
        assert !NoCRLF(s);
      } else if NoCRLF(s[1..]) {
        assert forall i :: 0 < i < |s| - 1 ==> s[i] == s[1..][i - 1] && s[i + 1] == s[1..][i];
      } else {
        var i :| 0 <= i < |s[1..]| - 1 && s[1..][i] == CR && s[1..][i + 1] == LF;
        assert s[i + 1] == CR && s[i + 2] == LF;
      }
    }
  }

  /** Exactly the string is inserted when it has no carriage return before a line feed, and
      only then. */
  lemma InsertsExactlyIff(e: Ed, s: string)
    requires Sound(e)
    ensures var f := InsertString(e, s);
            (Before(f.lines, f.dot) == Before(e.lines, e.dot) + s && After(f.lines, f.dot) == After(e.lines, e.dot))
            <==> NoCRLF(s)
  {
    InsertStringInserts(e, s);
    NormalIff(s);
    var f := InsertString(e, s);
    if Before(f.lines, f.dot) == Before(e.lines, e.dot) + s {
      assert |Normal(s)| == |s|;
    }
  }

  lemma CRLFIsNotInsertedExactly()
    ensures var f := InsertString(Ed([""], Pos(0, 0), Unmarked), "\r\n");
            Contents(f.lines) == "\n"
  {
    var e := Ed([""], Pos(0, 0), Unmarked);
    var s := [CR, LF];
    var f := InsertString(e, s);
    InsertStringInserts(e, s);
    assert s[1..] == [LF] && [LF][1..] == "";
    assert Normal([LF]) == [LF];
    assert Normal(s) == [LF];
    BeforeAndAfter(f.lines, f.dot);
  }

  // ---- inserting keeps the lines clean ----

  lemma {:induction false} PiecesClean(s: string)
    ensures Clean(Pieces(s))
  {
    if LF in s {
      PiecesClean(s[FirstLF(s) + 1..]);
    }
  }

  lemma PlainKeepsClean(e: Ed, s: string)
    requires Sound(e) && Clean(e.lines) && LF !in s
    ensures Clean(InsertPlain(e, s).lines)
  {
  }

  lemma SplitKeepsClean(e: Ed)
    requires Sound(e) && Clean(e.lines)
    ensures Clean(SplitDot(e).lines)
  {
  }

  lemma {:induction false} InsertPiecesKeepsClean(e: Ed, pieces: seq<string>)
    requires Sound(e) && Clean(e.lines) && pieces != [] && Clean(pieces)
    ensures Clean(InsertPieces(e, pieces).lines)
    decreases |pieces|
  {
    hide InsertPlain, SplitDot;
    PlainGrows(e, pieces[0]);
    PlainKeepsClean(e, pieces[0]);
    if |pieces| > 1 {
      var e1 := InsertPlain(e, pieces[0]);
      SplitGrows(e1);
      SplitKeepsClean(e1);
      InsertPiecesKeepsClean(SplitDot(e1), pieces[1..]);
    }
  }

  lemma InsertKeepsClean(e: Ed, s: string)
    requires Sound(e) && Clean(e.lines)
    ensures Clean(InsertString(e, s).lines)
  {
    if LF in s {
      PiecesClean(s);
      InsertPiecesKeepsClean(e, Pieces(s));
      if s[|s| - 1] == LF {
        SplitKeepsClean(InsertPieces(e, Pieces(s)));
      }
    } else {
      PlainKeepsClean(e, s);
    }
  }

  /** A deleted region put back where it was gives the original lines, with dot at the end of
      the region, exactly when the region holds no carriage return before a line feed. */
  lemma ReinsertedIff(lines: seq<string>, b: Pos, e: Pos)
    requires Legal(lines, b) && Legal(lines, e) && !PosBefore(e, b) && Clean(lines)
    ensures var s := RegionString(lines, b, e);
            var f := Ed(WithoutRegion(lines, b, e), b, Unmarked);
            Sound(f) && (NoCRLF(s) ==> InsertString(f, s).lines == lines && InsertString(f, s).dot == e)
            && (InsertString(f, s).lines == lines ==> NoCRLF(s))
  {
    hide WithoutRegion, RegionString, InsertString, Before, After, Contents, Normal, NoCRLF;
    var s := RegionString(lines, b, e);
    var f := Ed(WithoutRegion(lines, b, e), b, Unmarked);
    DeleteTakesRegion(lines, b, e);
    DeleteKeepsClean(lines, b, e);
    RegionBetween(lines, b, e);
    var g := InsertString(f, s);
    InsertStringInserts(f, s);
    InsertKeepsClean(f, s);
    NormalIff(s);
    if NoCRLF(s) {
      SidesDetermine(g.lines, g.dot, lines, e);
    }
    BeforeAndAfter(g.lines, g.dot);
    BeforeAndAfter(lines, e);
    if g.lines == lines {
      assert |Normal(s)| == |s|;
    }
  }
}
