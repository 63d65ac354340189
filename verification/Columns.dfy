/** Display columns: a tab moves to the next multiple of the tab width, every other
    character is one column wide. */
module Columns {

  const TAB := '\t'
  const SPACE := ' '

  function NextColumn(c: char, column: nat, tabWidth: nat): (next: nat)
    requires tabWidth > 0
    ensures column < next
  {
    if c == TAB then column + (tabWidth - column % tabWidth) else column + 1
  }

  /** The column where the character at an offset starts. */
  function Column(text: string, offset: nat, tabWidth: nat): nat
    requires tabWidth > 0 && offset <= |text|
  {
    if offset == 0 then 0 else NextColumn(text[offset - 1], Column(text, offset - 1, tabWidth), tabWidth)
  }

  lemma {:induction false} ColumnsIncrease(text: string, i: nat, j: nat, tabWidth: nat)
    requires tabWidth > 0 && i <= j <= |text|
    ensures Column(text, i, tabWidth) + (j - i) <= Column(text, j, tabWidth)
  {
    if i < j {
      ColumnsIncrease(text, i, j - 1, tabWidth);
    }
  }

  /** The first offset whose column is at least the one asked for, or the end of the line. */
  ghost predicate Reaches(text: string, column: int, tabWidth: nat, offset: nat)
    requires tabWidth > 0
  {
    && offset <= |text|
    && (offset < |text| ==> Column(text, offset, tabWidth) >= column)
    && forall i :: 0 <= i < offset ==> Column(text, i, tabWidth) < column
  }

  method LineOffsetColumn(text: string, offset: nat, tabWidth: nat) returns (column: nat)
    requires tabWidth > 0
    ensures column == Column(text, if offset < |text| then offset else |text|, tabWidth)
  {
    var limit := if offset < |text| then offset else |text|;
    column := 0;
    for i := 0 to limit
      invariant column == Column(text, i, tabWidth)
    {
      if text[i] == TAB {
        column := column + (tabWidth - column % tabWidth);
      } else {
        column := column + 1;
      }
    }
  }

  method LineColumnOffset(text: string, column: int, tabWidth: nat) returns (offset: nat)
    requires tabWidth > 0
    ensures Reaches(text, column, tabWidth, offset)
  {
    offset := 0;
    var col := 0;
    while offset < |text| && col < column
      invariant offset <= |text| && col == Column(text, offset, tabWidth)
      invariant forall i :: 0 <= i < offset ==> Column(text, i, tabWidth) < column
      decreases |text| - offset
    {
      if text[offset] == TAB {
        col := col + (tabWidth - col % tabWidth);
      } else {
        col := col + 1;
      }
      offset := offset + 1;
    }
  }

  /** Only one offset is the answer for a column, and it is the offset that the column came
      from: going from offset to column and back changes nothing. */
  lemma ColumnGivesBackOffset(text: string, offset: nat, tabWidth: nat, back: nat)
    requires tabWidth > 0 && offset <= |text|
    requires Reaches(text, Column(text, offset, tabWidth), tabWidth, back)
    ensures back == offset
  {
    if back < offset {
      ColumnsIncrease(text, back, offset, tabWidth);
      assert false;
    }
  }

  method RoundTrip(text: string, offset: nat, tabWidth: nat) returns (back: nat)
    requires tabWidth > 0 && offset <= |text|
    ensures back == offset
  {
    var column := LineOffsetColumn(text, offset, tabWidth);
    back := LineColumnOffset(text, column, tabWidth);
    ColumnGivesBackOffset(text, offset, tabWidth, back);
  }

  // ---- expanding tabs ----

  /** The character at offset i stands at its own column; a tab's columns are all spaces. */
  ghost predicate Stands(text: string, i: nat, tabWidth: nat, expanded: string)
    requires tabWidth > 0 && i < |text|
  {
    && Column(text, i + 1, tabWidth) <= |expanded|
    && if text[i] == TAB
       then forall j :: Column(text, i, tabWidth) <= j < Column(text, i + 1, tabWidth) ==> expanded[j] == SPACE
       else Column(text, i, tabWidth) < |expanded| && expanded[Column(text, i, tabWidth)] == text[i]
  }

  /** The first k characters expanded, and nothing more. */
  ghost predicate Expands(text: string, k: nat, tabWidth: nat, expanded: string)
    requires tabWidth > 0 && k <= |text|
  {
    && |expanded| == Column(text, k, tabWidth)
    && forall i :: 0 <= i < k ==> Stands(text, i, tabWidth, expanded)
  }

  lemma ScaleUp(a: nat, b: nat, tabWidth: nat)
    requires a <= b
    ensures a * tabWidth <= b * tabWidth
  {
  }

  lemma MultipleBetween(q: nat, m: nat, tabWidth: nat)
    requires tabWidth > 0 && q * tabWidth < m * tabWidth <= (q + 1) * tabWidth
    ensures m == q + 1
  {
    if m <= q {
      ScaleUp(m, q, tabWidth);
    } else if m > q + 1 {
      ScaleUp(q + 2, m, tabWidth);
    }
  }

  lemma StopIsMultiple(column: nat, tabWidth: nat)
    requires tabWidth > 0
    ensures column == column / tabWidth * tabWidth + column % tabWidth
    ensures column + (tabWidth - column % tabWidth) == (column / tabWidth + 1) * tabWidth
  {
  }

  lemma MultipleHasNoRest(q: nat, tabWidth: nat)
    requires tabWidth > 0
    ensures q * tabWidth % tabWidth == 0
  {
    var r := q * tabWidth % tabWidth;
    var m := q * tabWidth / tabWidth;
    assert q * tabWidth == m * tabWidth + r;
    if m < q {
      ScaleUp(m + 1, q, tabWidth);
    } else if m > q {
      ScaleUp(q + 1, m, tabWidth);
    }
  }

  /** The first multiple of the width past a column is where a tab there leads. */
  lemma NextStop(column: nat, length: nat, tabWidth: nat)
    requires tabWidth > 0 && column < length <= column + (tabWidth - column % tabWidth)
    ensures length % tabWidth == 0 <==> length == column + (tabWidth - column % tabWidth)
  {
    var q := column / tabWidth;
    StopIsMultiple(column, tabWidth);
    StopIsMultiple(length, tabWidth);
    if length % tabWidth == 0 {
      MultipleBetween(q, length / tabWidth, tabWidth);
    }
    MultipleHasNoRest(q + 1, tabWidth);
  }

  /** A tab leads to the first multiple of the width past its column; any other character is
      one column wide. */
  lemma NextColumnIs(c: char, column: nat, tabWidth: nat)
    requires tabWidth > 0
    ensures var next := NextColumn(c, column, tabWidth);
            if c == '\t' then next % tabWidth == 0 && forall k :: column < k < next ==> k % tabWidth != 0
            else next == column + 1
  {
    if c == '\t' {
      var next := NextColumn(c, column, tabWidth);
      forall k | column < k <= next
        ensures k % tabWidth == 0 <==> k == next
      {
        NextStop(column, k, tabWidth);
      }
    }
  }

  lemma StillStands(text: string, i: nat, tabWidth: nat, before: string, after: string)
    requires tabWidth > 0 && i < |text| && before <= after && Stands(text, i, tabWidth, before)
    ensures Stands(text, i, tabWidth, after)
  {
    hide Column;
    if text[i] != TAB {
      assert after[Column(text, i, tabWidth)] == before[Column(text, i, tabWidth)];
    } else {
      forall j | Column(text, i, tabWidth) <= j < Column(text, i + 1, tabWidth)
        ensures after[j] == SPACE
      {
        assert after[j] == before[j];
      }
    }
  }

  lemma OneMore(text: string, k: nat, tabWidth: nat, before: string, after: string)
    requires tabWidth > 0 && k < |text| && Expands(text, k, tabWidth, before)
    requires |after| == NextColumn(text[k], |before|, tabWidth) && before <= after
    requires text[k] != TAB ==> after[|before|] == text[k]
    requires text[k] == TAB ==> forall j :: |before| <= j < |after| ==> after[j] == SPACE
    ensures Expands(text, k + 1, tabWidth, after)
  {
    hide NextColumn;
    forall i | 0 <= i < k + 1
      ensures Stands(text, i, tabWidth, after)
    {
      if i < k {
        StillStands(text, i, tabWidth, before, after);
      }
    }
  }

  method ExpandTab(before: string, tabWidth: nat) returns (expanded: string)
    requires tabWidth > 0
    ensures before <= expanded && |expanded| == NextColumn(TAB, |before|, tabWidth)
    ensures forall j :: |before| <= j < |expanded| ==> expanded[j] == SPACE
  {
    expanded := before + [SPACE];
    while |expanded| % tabWidth != 0
      invariant |before| < |expanded| <= NextColumn(TAB, |before|, tabWidth) && before <= expanded
      invariant forall j :: |before| <= j < |expanded| ==> expanded[j] == SPACE
      decreases NextColumn(TAB, |before|, tabWidth) - |expanded|
    {
      NextStop(|before|, |expanded|, tabWidth);
      expanded := expanded + [SPACE];
    }
    NextStop(|before|, |expanded|, tabWidth);
  }

  /** A line without tabs is given back as it was, the rest are built up in a buffer. */
  method Detab(text: string, tabWidth: nat) returns (expanded: string)
    requires tabWidth > 0
    ensures Expands(text, |text|, tabWidth, expanded)
    ensures TAB !in text ==> expanded == text
  {
    if TAB !in text {
      NothingToExpand(text, |text|, tabWidth);
      assert text[..|text|] == text;
      return text;
    }
    expanded := [];
    for k := 0 to |text|
      invariant Expands(text, k, tabWidth, expanded)
    {
      hide Expands, NextColumn;
      ghost var before := expanded;
      WidthOfExpansion(text, k, tabWidth, before);
      if text[k] == TAB {
        expanded := ExpandTab(expanded, tabWidth);
      } else {
        expanded := expanded + [text[k]];
        NextAfterOther(text[k], |before|, tabWidth);
      }
      OneMore(text, k, tabWidth, before, expanded);
    }
  }

  lemma WidthOfExpansion(text: string, k: nat, tabWidth: nat, expanded: string)
    requires tabWidth > 0 && k <= |text| && Expands(text, k, tabWidth, expanded)
    ensures |expanded| == Column(text, k, tabWidth)
  {
  }

  lemma NextAfterOther(c: char, column: nat, tabWidth: nat)
    requires tabWidth > 0 && c != TAB
    ensures NextColumn(c, column, tabWidth) == column + 1
  {
  }

  lemma {:induction false} NothingToExpand(text: string, k: nat, tabWidth: nat)
    requires tabWidth > 0 && k <= |text| && TAB !in text
    ensures Expands(text, k, tabWidth, text[..k])
  {
    if k > 0 {
      NothingToExpand(text, k - 1, tabWidth);
      NextAfterOther(text[k - 1], k - 1, tabWidth);
      OneMore(text, k - 1, tabWidth, text[..k - 1], text[..k]);
    }
  }

  /** Every position of an expansion belongs to a character of the line. */
  lemma {:induction false} Owner(text: string, k: nat, tabWidth: nat, p: nat) returns (i: nat)
    requires tabWidth > 0 && k <= |text| && p < Column(text, k, tabWidth)
    ensures i < k && Column(text, i, tabWidth) <= p < Column(text, i + 1, tabWidth)
  {
    if p < Column(text, k - 1, tabWidth) {
      i := Owner(text, k - 1, tabWidth, p);
    } else {
      i := k - 1;
    }
  }

  lemma StandsAt(text: string, i: nat, tabWidth: nat, p: nat, a: string)
    requires tabWidth > 0 && i < |text| && Stands(text, i, tabWidth, a)
    requires Column(text, i, tabWidth) <= p < Column(text, i + 1, tabWidth)
    ensures p < |a| && a[p] == if text[i] == TAB then SPACE else text[i]
  {
  }

  /** A line has only one expansion, and it has no tabs left. */
  lemma ExpansionIsUnique(text: string, tabWidth: nat, a: string, b: string)
    requires tabWidth > 0
    requires Expands(text, |text|, tabWidth, a) && Expands(text, |text|, tabWidth, b)
    ensures a == b && '\t' !in a && forall p :: 0 <= p < |a| ==> a[p] == ' ' || a[p] in text
  {
    hide Column, Stands;
    forall p | 0 <= p < |a|
      ensures a[p] == b[p] && a[p] != '\t' && (a[p] == ' ' || a[p] in text)
    {
      var i := Owner(text, |text|, tabWidth, p);
      StandsAt(text, i, tabWidth, p, a);
      StandsAt(text, i, tabWidth, p, b);
    }
  }
}
