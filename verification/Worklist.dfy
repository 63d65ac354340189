/** The worklist of nested quotations: gathered in preorder, reversed, and compiled before
    the word that holds them. */
module Worklist {
  import opened Bytes
  import opened Source

  predicate HasElements(h: Heap, v: word) { IsQuotation(h, v) || IsArray(h, v) }

  /** Quotations and arrays are nested at most d deep below v. */
  predicate Nested(h: Heap, v: word, d: nat)
    decreases d
  {
    HasElements(h, v) ==> d > 0 && forall i :: 0 <= i < |h[v].elems| ==> Nested(h, h[v].elems[i], d - 1)
  }

  predicate AllNested(h: Heap, vs: seq<word>, d: nat) {
    forall i :: 0 <= i < |vs| ==> Nested(h, vs[i], d)
  }

  /** The quotations at and below v, each before its contents. */
  function Preorder(h: Heap, v: word, d: nat): seq<word>
    requires Nested(h, v, d)
    decreases d, 0, 1
  {
    if HasElements(h, v)
    then (if IsQuotation(h, v) then [v] else []) + Gathered(h, h[v].elems, d - 1)
    else []
  }

  function Gathered(h: Heap, vs: seq<word>, d: nat): seq<word>
    requires AllNested(h, vs, d)
    decreases d, 1, |vs|
  {
    if vs == [] then [] else Preorder(h, vs[0], d) + Gathered(h, vs[1..], d)
  }

  /** There is a path of n > 0 steps from p through quotations and arrays to c. */
  predicate Contains(h: Heap, p: word, c: word, n: nat)
    decreases n
  {
    && n > 0
    && HasElements(h, p)
    && if n == 1 then c in h[p].elems
       else exists i :: 0 <= i < |h[p].elems| && Contains(h, h[p].elems[i], c, n - 1)
  }

  lemma {:induction false} GatheredHolds(h: Heap, vs: seq<word>, d: nat, i: nat, c: word)
    requires AllNested(h, vs, d) && i < |vs| && c in Preorder(h, vs[i], d)
    ensures c in Gathered(h, vs, d)
    decreases |vs|
  {
    if i > 0 {
      GatheredHolds(h, vs[1..], d, i - 1, c);
    }
  }

  /** Whatever quotation is inside v is gathered with v's elements. */
  lemma {:induction false} ContainedIsGathered(h: Heap, v: word, d: nat, c: word, n: nat)
    requires HasElements(h, v) && Nested(h, v, d) && IsQuotation(h, c) && Contains(h, v, c, n)
    ensures c in Gathered(h, h[v].elems, d - 1)
    decreases n
  {
    var vs := h[v].elems;
    if n == 1 {
      var i :| 0 <= i < |vs| && vs[i] == c;
      assert c in Preorder(h, vs[i], d - 1);
      GatheredHolds(h, vs, d - 1, i, c);
    } else {
      var i :| 0 <= i < |vs| && Contains(h, vs[i], c, n - 1);
      ContainedIsGathered(h, vs[i], d - 1, c, n - 1);
      GatheredHolds(h, vs, d - 1, i, c);
    }
  }

  /** And nothing else is: only quotations that v contains. */
  lemma {:induction false} GatheredIsContained(h: Heap, vs: seq<word>, d: nat, c: word) returns (i: nat, n: nat)
    requires AllNested(h, vs, d) && c in Gathered(h, vs, d)
    ensures IsQuotation(h, c) && i < |vs|
    ensures if n == 0 then c == vs[i] else Contains(h, vs[i], c, n)
    decreases d, |vs|
  {
    if c in Preorder(h, vs[0], d) {
      i := 0;
      if IsQuotation(h, vs[0]) && c == vs[0] {
        n := 0;
      } else {
        var es := h[vs[0]].elems;
        var k, m := GatheredIsContained(h, es, d - 1, c);
        n := m + 1;
        if m > 0 { assert Contains(h, es[k], c, n - 1); }
      }
    } else {
      i, n := GatheredIsContained(h, vs[1..], d, c);
      i := i + 1;
    }
  }

  /** What is gathered from a quotation: itself and exactly the quotations it contains. */
  lemma PreorderIff(h: Heap, q: word, d: nat, c: word)
    requires IsQuotation(h, q) && Nested(h, q, d)
    ensures c in Preorder(h, q, d) <==> c == q || (IsQuotation(h, c) && exists n: nat :: Contains(h, q, c, n))
  {
    var below := Gathered(h, h[q].elems, d - 1);
    if c in below {
      var i, n := GatheredIsContained(h, h[q].elems, d - 1, c);
      if n > 0 { assert Contains(h, h[q].elems[i], c, n); }
      assert Contains(h, q, c, n + 1);
    }
    if IsQuotation(h, c) && exists n: nat :: Contains(h, q, c, n) {
      var n: nat :| Contains(h, q, c, n);
      ContainedIsGathered(h, q, d, c, n);
    }
  }

  /** Every quotation inside the one at position j comes after it. */
  ghost predicate ContentsFollow(h: Heap, order: seq<word>) {
    forall j, c, n :: 0 <= j < |order| && IsQuotation(h, c) && Contains(h, order[j], c, n)
                      ==> c in order[j + 1..]
  }

  lemma BothFollow(h: Heap, a: seq<word>, b: seq<word>)
    requires ContentsFollow(h, a) && ContentsFollow(h, b)
    ensures ContentsFollow(h, a + b)
  {
    forall j, c, n | 0 <= j < |a + b| && IsQuotation(h, c) && Contains(h, (a + b)[j], c, n)
      ensures c in (a + b)[j + 1..]
    {
      if j < |a| {
        assert c in a[j + 1..];
        assert (a + b)[j + 1..] == a[j + 1..] + b;
      } else {
        assert c in b[j - |a| + 1..];
        assert (a + b)[j + 1..] == b[j - |a| + 1..];
      }
    }
  }

  lemma {:induction false} PreorderFollows(h: Heap, v: word, d: nat)
    requires Nested(h, v, d)
    ensures ContentsFollow(h, Preorder(h, v, d))
    decreases d, 0, 1
  {
    if HasElements(h, v) {
      var below := Gathered(h, h[v].elems, d - 1);
      GatheredFollows(h, h[v].elems, d - 1);
      if IsQuotation(h, v) {
        var all := Preorder(h, v, d);
        forall j, c, n | 0 <= j < |all| && IsQuotation(h, c) && Contains(h, all[j], c, n)
          ensures c in all[j + 1..]
        {
          assert all[j + 1..] == below[j..];
          if j == 0 {
            ContainedIsGathered(h, v, d, c, n);
          } else {
            assert all[j] == below[j - 1];
          }
        }
      } else {
        assert Preorder(h, v, d) == below;
      }
    }
  }

  lemma {:induction false} GatheredFollows(h: Heap, vs: seq<word>, d: nat)
    requires AllNested(h, vs, d)
    ensures ContentsFollow(h, Gathered(h, vs, d))
    decreases d, 1, |vs|
  {
    if vs != [] {
      PreorderFollows(h, vs[0], d);
      GatheredFollows(h, vs[1..], d);
      BothFollow(h, Preorder(h, vs[0], d), Gathered(h, vs[1..], d));
    }
  }

  function Reversed(s: seq<word>): (r: seq<word>)
    ensures |r| == |s| && forall i :: 0 <= i < |s| ==> r[i] == s[|s| - 1 - i]
  {
    if s == [] then [] else Reversed(s[1..]) + [s[0]]
  }

  /** Every quotation inside q is among those compiled, so it has a code address. */
  ghost predicate ContentsCompiled(h: Heap, compiled: seq<word>, q: word) {
    forall c, n :: IsQuotation(h, c) && Contains(h, q, c, n) ==> c in compiled
  }

  lemma ReversedIsReady(h: Heap, order: seq<word>, k: nat)
    requires ContentsFollow(h, order) && k < |order|
    ensures ContentsCompiled(h, Reversed(order)[..k], Reversed(order)[k])
  {
    var r := Reversed(order);
    forall c, n | IsQuotation(h, c) && Contains(h, r[k], c, n)
      ensures c in r[..k]
    {
      var j := |order| - 1 - k;
      assert c in order[j + 1..];
      var i :| j + 1 <= i < |order| && order[i] == c;
      assert r[..k][|order| - 1 - i] == c;
    }
  }

  lemma QuotationFirst(h: Heap, q: word, d: nat)
    requires IsQuotation(h, q) && Nested(h, q, d)
    ensures d > 0 && AllNested(h, h[q].elems, d - 1)
    ensures Preorder(h, q, d) == [q] + Gathered(h, h[q].elems, d - 1)
  {
  }

  class Compiler {
    const h: Heap
    var worklist: seq<word>
    var compiled: seq<word>

    constructor (h: Heap)
      ensures this.h == h && compiled == []
    {
      this.h, worklist, compiled := h, [], [];
    }

    method AddQuotation(q: word)
      requires IsQuotation(h, q)
      modifies this`worklist
      ensures worklist == old(worklist) + [q]
    {
      worklist := worklist + [q];
    }

    method AddChildren(v: word, ghost d: nat)
      requires HasElements(h, v) && Nested(h, v, d)
      modifies this`worklist
      ensures worklist == old(worklist) + Gathered(h, h[v].elems, d - 1)
      decreases d, 0
    {
      var vs := h[v].elems;
      for i := 0 to |vs|
        invariant worklist + Gathered(h, vs[i..], d - 1) == old(worklist) + Gathered(h, vs, d - 1)
      {
        assert vs[i..][0] == vs[i] && vs[i..][1..] == vs[i + 1..];
        MaybeAddQuotationAndChildren(vs[i], d - 1);
      }
    }

    method AddQuotationAndChildren(q: word, ghost d: nat)
      requires IsQuotation(h, q) && Nested(h, q, d)
      modifies this`worklist
      ensures worklist == old(worklist) + Preorder(h, q, d)
      decreases d, 1
    {
      QuotationFirst(h, q, d);
      hide Nested, AllNested, Gathered, Preorder;
      AddQuotation(q);
      AddChildren(q, d);
    }

    method MaybeAddQuotationAndChildren(v: word, ghost d: nat)
      requires Nested(h, v, d)
      modifies this`worklist
      ensures worklist == old(worklist) + Preorder(h, v, d)
      decreases d, 2
    {
      if IsQuotation(h, v) {
        AddQuotationAndChildren(v, d);
      } else if IsArray(h, v) {
        AddChildren(v, d);
      }
    }

    method BuildWorklist(definition: word, ghost d: nat)
      requires IsQuotation(h, definition) && Nested(h, definition, d)
      modifies this`worklist
      ensures worklist == Preorder(h, definition, d)
    {
      worklist := [];
      AddQuotationAndChildren(definition, d);
    }

    /** Compiling a quotation writes the code addresses of its literal quotations. */
    method PrimitiveCompileQuotation(q: word)
      requires IsQuotation(h, q) && ContentsCompiled(h, compiled, q)
      modifies this`compiled
      ensures compiled == old(compiled) + [q]
    {
      compiled := compiled + [q];
    }

    /** After the worklist is done the definition itself, dropped from it, can be compiled:
        everything inside has been, in an order in which nothing came before its contents. */
    method ProcessWorklist(definition: word, ghost d: nat)
      requires IsQuotation(h, definition) && Nested(h, definition, d)
      requires worklist == Preorder(h, definition, d) && compiled == []
      modifies this
      ensures ContentsCompiled(h, compiled, definition)
      ensures compiled + [definition] == Reversed(old(worklist))
    {
      PreorderFollows(h, definition, d);
      ghost var order := worklist;
      worklist := Reversed(worklist);
      ReversedIsReady(h, order, |worklist| - 1);
      AllQuotations(h, definition, d);
      worklist := worklist[..|worklist| - 1];
      for k := 0 to |worklist|
        invariant worklist == Reversed(order)[..|order| - 1] && compiled == worklist[..k]
      {
        ReversedIsReady(h, order, k);
        assert Reversed(order)[..k] == worklist[..k];
        PrimitiveCompileQuotation(worklist[k]);
      }
    }
  }

  lemma {:induction false} AllQuotations(h: Heap, v: word, d: nat)
    requires Nested(h, v, d)
    ensures forall i :: 0 <= i < |Preorder(h, v, d)| ==> IsQuotation(h, Preorder(h, v, d)[i])
    decreases d, 0, 1
  {
    if HasElements(h, v) {
      AllGathered(h, h[v].elems, d - 1);
    }
  }

  lemma {:induction false} AllGathered(h: Heap, vs: seq<word>, d: nat)
    requires AllNested(h, vs, d)
    ensures forall i :: 0 <= i < |Gathered(h, vs, d)| ==> IsQuotation(h, Gathered(h, vs, d)[i])
    decreases d, 1, |vs|
  {
    if vs != [] {
      AllQuotations(h, vs[0], d);
      AllGathered(h, vs[1..], d);
    }
  }
}
