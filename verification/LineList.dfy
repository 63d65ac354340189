/** The buffer's doubly linked list of numbered lines and the surgery on it. */
module LineList {
  import opened Editing

  class Line {
    var prev: Line?
    var next: Line?
    var number: nat
    var text: string

    /** A new line has no neighbours yet, and a number only once the list is renumbered. */
    constructor (text: string)
      ensures this.text == text && prev == null && next == null
    {
      this.text, prev, next := text, null, null;
    }
  }

  predicate Distinct(lines: seq<Line>) {
    forall i, j :: 0 <= i < j < |lines| ==> lines[i] != lines[j]
  }

  /** Where a line stands in the list. */
  ghost function At(lines: seq<Line>, line: Line): (i: nat)
    requires line in lines
    ensures i < |lines| && lines[i] == line
  {
    var i :| 0 <= i < |lines| && lines[i] == line;
    i
  }

  lemma AtIs(lines: seq<Line>, line: Line, k: nat)
    requires Distinct(lines) && k < |lines| && lines[k] == line
    ensures At(lines, line) == k
  {
  }

  function Texts(lines: seq<Line>): (r: seq<string>)
    reads lines`text
    ensures |r| == |lines|
  {
    if lines == [] then [] else [lines[0].text] + Texts(lines[1..])
  }

  /** next leads through all the lines and ends, and prev is its exact inverse. */
  predicate Chained(lines: seq<Line>)
    reads lines`prev, lines`next
  {
    && lines != []
    && Distinct(lines)
    && lines[0].prev == null
    && (forall i :: 0 < i < |lines| ==> lines[i].prev == lines[i - 1])
    && (forall i :: 0 <= i < |lines| - 1 ==> lines[i].next == lines[i + 1])
    && lines[|lines| - 1].next == null
  }

  predicate InOrder(lines: seq<Line>)
    reads lines`number
  {
    forall i :: 0 <= i < |lines| ==> lines[i].number == i
  }

  function WithLine(lines: seq<Line>, i: nat, line: Line): seq<Line>
    requires i <= |lines|
  {
    lines[..i] + [line] + lines[i..]
  }

  function WithoutLines(lines: seq<Line>, i: nat, j: nat): seq<Line>
    requires i <= j <= |lines|
  {
    lines[..i] + lines[j..]
  }

  lemma WithLineAt(lines: seq<Line>, i: nat, line: Line, other: Line)
    requires i <= |lines| && Distinct(lines) && line !in lines && other in lines
    ensures Distinct(WithLine(lines, i, line))
    ensures other in WithLine(lines, i, line) && line in WithLine(lines, i, line)
    ensures At(WithLine(lines, i, line), line) == i
    ensures At(WithLine(lines, i, line), other) == At(lines, other) + if At(lines, other) >= i then 1 else 0
  {
    var k := At(lines, other);
    var more := WithLine(lines, i, line);
    assert more[i] == line && more[if k >= i then k + 1 else k] == other;
  }

  lemma WithoutLinesAt(lines: seq<Line>, i: nat, j: nat, other: Line)
    requires i <= j <= |lines| && Distinct(lines) && other in lines
    requires !(i <= At(lines, other) < j)
    ensures Distinct(WithoutLines(lines, i, j))
    ensures other in WithoutLines(lines, i, j)
    ensures At(WithoutLines(lines, i, j), other) == At(lines, other) - if At(lines, other) >= j then j - i else 0
  {
    var k := At(lines, other);
    var fewer := WithoutLines(lines, i, j);
    assert fewer[if k >= j then k - (j - i) else k] == other;
  }

  lemma ChainedIsSome(lines: seq<Line>)
    requires Chained(lines)
    ensures lines != []
  {
  }

  lemma NextAt(lines: seq<Line>, n: nat)
    requires Chained(lines) && n < |lines|
    ensures lines[n].next == if n + 1 < |lines| then lines[n + 1] else null
    ensures lines[n].prev == if n > 0 then lines[n - 1] else null
    ensures Distinct(lines)
  {
  }

  lemma Gone(lines: seq<Line>, i: nat, j: nat, k: nat)
    requires Distinct(lines) && i <= k < j <= |lines|
    ensures lines[k] !in WithoutLines(lines, i, j)
  {
  }

  lemma OthersDiffer(lines: seq<Line>, i: nat)
    requires Distinct(lines) && i < |lines|
    ensures forall j :: 0 <= j < |lines| && j != i ==> lines[j] != lines[i]
  {
  }

  lemma OthersStay(lines: seq<Line>, i: nat, j: nat)
    requires Distinct(lines) && i <= j <= |lines|
    ensures Distinct(WithoutLines(lines, i, j))
  {
  }

  lemma {:induction false} TextsIndexed(lines: seq<Line>)
    ensures forall i :: 0 <= i < |lines| ==> Texts(lines)[i] == lines[i].text
  {
    if lines != [] {
      TextsIndexed(lines[1..]);
      assert forall i :: 0 < i < |lines| ==> lines[i] == lines[1..][i - 1];
    }
  }

  twostate lemma {:induction false} SameTexts(ls: seq<Line>)
    requires forall l :: l in ls ==> l.text == old(l.text)
    ensures Texts(ls) == old(Texts(ls))
  {
    if ls != [] {
      SameTexts(ls[1..]);
    }
  }

  /** Only line i has a new text. */
  twostate lemma {:induction false} NewText(ls: seq<Line>, new i: nat)
    requires i < |ls|
    requires forall k :: 0 <= k < |ls| && k != i ==> ls[k].text == old(ls[k].text)
    ensures Texts(ls) == old(Texts(ls))[i := ls[i].text]
  {
    if i == 0 {
      SameTexts(ls[1..]);
    } else {
      NewText(ls[1..], i - 1);
    }
  }

  lemma {:induction false} TextsAppend(a: seq<Line>, b: seq<Line>)
    ensures Texts(a + b) == Texts(a) + Texts(b)
  {
    if a == [] {
      assert a + b == b;
    } else {
      TextsAppend(a[1..], b);
      assert (a + b)[1..] == a[1..] + b;
    }
  }

  lemma TextsSplit(lines: seq<Line>, i: nat)
    requires i <= |lines|
    ensures Texts(lines[..i]) == Texts(lines)[..i] && Texts(lines[i..]) == Texts(lines)[i..]
  {
    hide Texts;
    TextsAppend(lines[..i], lines[i..]);
    assert lines[..i] + lines[i..] == lines;
    TakeDrop(Texts(lines[..i]), Texts(lines[i..]));
  }

  lemma TakeDrop(a: seq<string>, b: seq<string>)
    ensures (a + b)[..|a|] == a && (a + b)[|a|..] == b
  {
  }

  lemma TextsWithLine(lines: seq<Line>, i: nat, line: Line)
    requires i <= |lines|
    ensures Texts(WithLine(lines, i, line)) == Inserted(Texts(lines), i, line.text)
  {
    TextsSplit(lines, i);
    TextsAppend(lines[..i], [line]);
    TextsAppend(lines[..i] + [line], lines[i..]);
    assert Texts([line]) == [line.text];
  }

  lemma TextsWithoutLines(lines: seq<Line>, i: nat, j: nat)
    requires i <= j <= |lines|
    ensures Texts(WithoutLines(lines, i, j)) == Dropped(Texts(lines), i, j)
  {
    TextsSplit(lines, i);
    TextsSplit(lines, j);
    TextsAppend(lines[..i], lines[j..]);
  }

  lemma WithLineHas(was: seq<Line>, i: nat, line: Line)
    requires i <= |was|
    ensures line in WithLine(was, i, line) && forall l :: l in was ==> l in WithLine(was, i, line)
    ensures var more := WithLine(was, i, line);
            forall k :: 0 <= k < |more| ==> more[k] == line || more[k] in was
  {
    var more := WithLine(was, i, line);
    assert more[i] == line;
    forall l | l in was
      ensures l in more
    {
      var k := At(was, l);
      assert more[if k < i then k else k + 1] == l;
    }
  }
}
