/** Which pair a match* picks: the compiled code makes the last _ the default and tests the
    keys before it, each taken out of its wrapper; the interpreter takes the first key that
    is _ or equal, wrapper or not. */
module Choices {
  import opened Bytes
  import opened Source
  import opened CodeGen

  /** The number of pairs whose keys the compiled code tests: those before the last _. */
  function Tested(p: Program, pairs: seq<word>): (k: nat)
    ensures k <= |pairs| / 2
  {
    var d := WildcardIndex(p, pairs, |pairs| / 2);
    if d >= 0 then d else |pairs| / 2
  }

  /** The first of the pairs from i up to k whose unwrapped key is equal to x, or -1. */
  function FirstEqual(h: Heap, pairs: seq<word>, equal: (word, word) -> bool, x: word, i: nat, k: nat): (hit: int)
    requires i <= k && 2 * k <= |pairs|
    ensures -1 <= hit < k
    ensures hit >= 0 ==> i <= hit && equal(x, Unwrap(h, pairs[2 * hit]))
    ensures forall j :: i <= j < (if hit >= 0 then hit else k) ==> !equal(x, Unwrap(h, pairs[2 * j]))
    decreases k - i
  {
    if i == k then -1
    else if equal(x, Unwrap(h, pairs[2 * i])) then i
    else FirstEqual(h, pairs, equal, x, i + 1, k)
  }

  /** The pair that the code of match* takes, or -1 when it reports that none matched. */
  function CompiledChoice(p: Program, pairs: seq<word>, equal: (word, word) -> bool, x: word): (c: int)
    ensures -1 <= c < |pairs| / 2
  {
    var hit := FirstEqual(p.heap, pairs, equal, x, 0, Tested(p, pairs));
    if hit >= 0 then hit else WildcardIndex(p, pairs, |pairs| / 2)
  }

  /** The pair that the word match* takes, counted from pair i on, or -1 when there is none. */
  function InterpretedChoice(p: Program, pairs: seq<word>, equal: (word, word) -> bool, x: word, i: nat): (c: int)
    requires 2 * i <= |pairs|
    ensures -1 <= c < |pairs| / 2
    ensures c >= 0 ==> i <= c && (pairs[2 * c] == p.wildcard || equal(x, pairs[2 * c]))
    ensures forall j :: i <= j < (if c >= 0 then c else |pairs| / 2) ==>
              pairs[2 * j] != p.wildcard && !equal(x, pairs[2 * j])
    decreases |pairs| - 2 * i
  {
    if 2 * i + 1 >= |pairs| then -1
    else if pairs[2 * i] == p.wildcard || equal(x, pairs[2 * i]) then i
    else InterpretedChoice(p, pairs, equal, x, i + 1)
  }

  /** InterpretedChoice is what the meaning of match* does. */
  lemma {:induction false} EvalMatchChoice(p: Program, sem: Meaning, fuel: nat, pairs: seq<word>, i: nat, st: State)
    requires p.wildcard == sem.wildcard
    requires 2 * i <= |pairs| && st.Has(1)
    ensures var c := InterpretedChoice(p, pairs, sem.equal, st.Peek(0), i);
            EvalMatch(p.heap, sem, fuel, pairs[2 * i..], st) ==
            if c >= 0 then CallValue(p.heap, sem, fuel, pairs[2 * c + 1], st.Drop(1)) else Failed
    decreases |pairs| - 2 * i
  {
    hide CallValue;
    var rest := pairs[2 * i..];
    if |rest| >= 2 {
      assert rest[0] == pairs[2 * i] && rest[1] == pairs[2 * i + 1];
      assert rest[2..] == pairs[2 * (i + 1)..];
      EvalMatchChoice(p, sem, fuel, pairs, i + 1, st);
    }
  }

  // ---- when the two agree ----

  predicate AtMostOneWildcard(p: Program, pairs: seq<word>) {
    forall i, j :: 0 <= i < j < |pairs| / 2 ==> pairs[2 * i] != p.wildcard || pairs[2 * j] != p.wildcard
  }

  predicate TestsItsKeys(p: Program, pairs: seq<word>) {
    forall i :: 0 <= i < Tested(p, pairs) ==> Unwrap(p.heap, pairs[2 * i]) == pairs[2 * i]
  }

  /** What can be read off the array: at most one key is _, and no key before it is a
      wrapper around something else. */
  predicate MatchReadsAlike(p: Program, pairs: seq<word>) {
    AtMostOneWildcard(p, pairs) && TestsItsKeys(p, pairs)
  }

  ghost predicate AlwaysTheSame(p: Program, pairs: seq<word>) {
    forall equal: (word, word) -> bool, x: word ::
      CompiledChoice(p, pairs, equal, x) == InterpretedChoice(p, pairs, equal, x, 0)
  }

  /** The compiled and the interpreted match* pick the same pair for every equality and
      every element exactly when MatchReadsAlike holds of the array. */
  lemma SameChoiceIff(p: Program, pairs: seq<word>)
    ensures AlwaysTheSame(p, pairs) <==> MatchReadsAlike(p, pairs)
  {
    hide MatchReadsAlike, CompiledChoice, InterpretedChoice;
    if MatchReadsAlike(p, pairs) {
      forall equal: (word, word) -> bool, x: word
        ensures CompiledChoice(p, pairs, equal, x) == InterpretedChoice(p, pairs, equal, x, 0)
      {
        SameChoice(p, pairs, equal, x);
      }
    } else {
      var equal, x := ChoicesDiffer(p, pairs);
    }
  }

  lemma SameChoice(p: Program, pairs: seq<word>, equal: (word, word) -> bool, x: word)
    requires MatchReadsAlike(p, pairs)
    ensures CompiledChoice(p, pairs, equal, x) == InterpretedChoice(p, pairs, equal, x, 0)
  {
    var c, i := CompiledChoice(p, pairs, equal, x), InterpretedChoice(p, pairs, equal, x, 0);
    if c >= 0 && i >= 0 {
      assert pairs[2 * c] == p.wildcard || equal(x, pairs[2 * c]);
      assert pairs[2 * i] == p.wildcard || equal(x, pairs[2 * i]);
    }
  }

  /** An equality and an element on which they part. */
  lemma ChoicesDiffer(p: Program, pairs: seq<word>) returns (equal: (word, word) -> bool, x: word)
    requires !MatchReadsAlike(p, pairs)
    ensures CompiledChoice(p, pairs, equal, x) != InterpretedChoice(p, pairs, equal, x, 0)
  {
    if !AtMostOneWildcard(p, pairs) {
      equal, x := (a: word, b: word) => false, 0;
      TwoWildcardsDiffer(p, pairs, equal, x);
    } else {
      var i :| 0 <= i < Tested(p, pairs) && Unwrap(p.heap, pairs[2 * i]) != pairs[2 * i];
      equal, x := (a: word, b: word) => a == b, pairs[2 * i];
      WrapperKeyDiffers(p, pairs, i, equal);
    }
  }

  /** With two wildcards an element that no key equals goes to the first or to the last. */
  lemma TwoWildcardsDiffer(p: Program, pairs: seq<word>, equal: (word, word) -> bool, x: word)
    requires !AtMostOneWildcard(p, pairs)
    requires forall b :: !equal(x, b)
    ensures CompiledChoice(p, pairs, equal, x) != InterpretedChoice(p, pairs, equal, x, 0)
  {
    var i, j :| 0 <= i < j < |pairs| / 2 && pairs[2 * i] == p.wildcard && pairs[2 * j] == p.wildcard;
    var c, d := CompiledChoice(p, pairs, equal, x), InterpretedChoice(p, pairs, equal, x, 0);
    assert d <= i < j <= c;
  }

  /** A wrapper among the keys that are tested: the wrapper itself as element is found by
      the word and missed by the code. */
  lemma WrapperKeyDiffers(p: Program, pairs: seq<word>, i: nat, equal: (word, word) -> bool)
    requires AtMostOneWildcard(p, pairs)
    requires i < Tested(p, pairs) && Unwrap(p.heap, pairs[2 * i]) != pairs[2 * i]
    requires forall a, b :: equal(a, b) <==> a == b
    ensures CompiledChoice(p, pairs, equal, pairs[2 * i]) != InterpretedChoice(p, pairs, equal, pairs[2 * i], 0)
  {
    var x := pairs[2 * i];
    var c, d := CompiledChoice(p, pairs, equal, x), InterpretedChoice(p, pairs, equal, x, 0);
    assert d <= i;
    assert pairs[2 * d] == x;
  }
}
