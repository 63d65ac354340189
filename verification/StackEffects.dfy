/** What running a quotation does, written out on stacks: how literals, symbols, calls and
    every expanded word turn one stack into the next. Nil is 0, true is 14 and the fixnum n
    is 2n + 1 (src/macros.asm). */
module StackEffects {
  import opened Bytes
  import opened Source

  // ---- bodies ----

  /** Running one body after another is running the two as one. */
  lemma {:induction false} ConcatenationComposes(
    h: Heap, sem: Meaning, fuel: nat, a: seq<word>, b: seq<word>, st: State)
    ensures var o := EvalElems(h, sem, fuel, a, st);
            EvalElems(h, sem, fuel, a + b, st) == if o.Done? then EvalElems(h, sem, fuel, b, o.st) else o
    decreases |a|
  {
    hide EvalOp;
    if a == [] {
      assert a + b == b;
    } else {
      assert (a + b)[1..] == a[1..] + b;
      if IsSymbol(h, a[0]) {
        var o := EvalOp(h, sem, fuel, h[a[0]].op, st);
        if o.Done? { ConcatenationComposes(h, sem, fuel, a[1..], b, o.st); }
      } else {
        ConcatenationComposes(h, sem, fuel, a[1..], b, st.Push(Unwrap(h, a[0])));
      }
    }
  }

  /** A wrapper pushes the object in it, a symbol runs, and anything else is pushed itself. */
  lemma ElementEffect(h: Heap, sem: Meaning, fuel: nat, v: word, s: seq<word>, ls: seq<Local>)
    ensures EvalElems(h, sem, fuel, [v], State(s, ls)) ==
            if v in h && h[v].Wrapper? then Done(State(s + [h[v].wrapped], ls))
            else if v in h && h[v].Symbol? then EvalOp(h, sem, fuel, h[v].op, State(s, ls))
            else Done(State(s + [v], ls))
  {
    hide EvalOp;
    assert [v][1..] == [];
  }

  // ---- calls ----

  /** Calling runs a quotation's body, early exits ending at the caller, or a symbol's word. */
  lemma CallEffect(h: Heap, sem: Meaning, fuel: nat, v: word, st: State)
    ensures CallValue(h, sem, 0, v, st) == OutOfFuel
    ensures v in h && h[v].Quotation? ==>
              var o := EvalElems(h, sem, fuel, h[v].elems, st);
              CallValue(h, sem, fuel + 1, v, st) == if o.Returned? then Done(o.st) else o
    ensures v in h && h[v].Symbol? ==>
              var op := h[v].op;
              CallValue(h, sem, fuel + 1, v, st) ==
              if op.ExitNoLocals? || op.ExitLocals? || op.ReturnNoLocals? || op.ReturnLocals? then Failed
              else EvalOp(h, sem, fuel, op, st)
    ensures v !in h || h[v].Array? || h[v].Wrapper? ==> CallValue(h, sem, fuel + 1, v, st) == Failed
  {
    hide EvalOp, EvalElems;
  }

  /** A compiled word starts with unset locals of its own and leaves the caller's alone; any
      other word has the effect it is given. */
  lemma WordEffect(h: Heap, sem: Meaning, fuel: nat, n: nat, s: seq<word>, ls: seq<Local>)
    ensures n in sem.defs ==>
              var d := sem.defs[n];
              var o := EvalElems(h, sem, fuel, d.elems, State(s, seq(d.locals, k => Unset)));
              EvalOp(h, sem, fuel + 1, Word(n), State(s, ls)) ==
              if o.Done? || o.Returned? then Done(State(o.st.stack, ls)) else o
    ensures n !in sem.defs ==>
              EvalOp(h, sem, fuel, Word(n), State(s, ls)) ==
              match sem.effect(n, s) case Defined(t) => Done(State(t, ls)) case Undefined => Failed
  {
    hide EvalElems;
    if n in sem.defs {
      assert FreshLocals(sem.defs[n].locals) == seq(sem.defs[n].locals, k => Unset);
    }
  }

  // ---- words without quotations ----

  lemma ShuffleEffects(h: Heap, sem: Meaning, fuel: nat, s: seq<word>, ls: seq<Local>, x: word, y: word)
    ensures EvalOp(h, sem, fuel, Nip, State(s + [x, y], ls)) == Done(State(s + [y], ls))
    ensures EvalOp(h, sem, fuel, Call, State(s + [x], ls)) == CallValue(h, sem, fuel, x, State(s, ls))
    ensures EvalOp(h, sem, fuel, MatchTest, State(s + [x, y], ls)) ==
            Done(State(s + [x] + [if sem.equal(x, y) then 14 else 0], ls))
  {
    Operands1(s, x);
    Operands2(s, x, y);
  }

  lemma Operands1(s: seq<word>, x: word)
    ensures (s + [x])[..|s|] == s
  {
  }

  lemma Operands2(s: seq<word>, x: word, y: word)
    ensures (s + [x, y])[..|s|] == s && (s + [x, y])[..|s| + 1] == s + [x]
  {
  }

  lemma Operands3(s: seq<word>, x: word, y: word, z: word)
    ensures (s + [x, y, z])[..|s|] == s && (s + [x, y, z])[..|s| + 1] == s + [x]
  {
  }

  /** Local n is named by the fixnum n, and nothing else names a local. */
  lemma LocalEffects(h: Heap, sem: Meaning, fuel: nat, s: seq<word>, ls: seq<Local>, x: word, n: nat, v: word)
    requires v == 2 * n + 1
    ensures EvalOp(h, sem, fuel, LocalGet, State(s + [v], ls)) ==
            if n < |ls| && ls[n].Holds? then Done(State(s + [ls[n].v], ls)) else Failed
    ensures EvalOp(h, sem, fuel, LocalSet, State(s + [x, v], ls)) ==
            if n < |ls| then Done(State(s, ls[n := Holds(x)])) else Failed
  {
    Operands1(s, v);
    Operands2(s, x, v);
  }

  lemma NoLocal(h: Heap, sem: Meaning, fuel: nat, s: seq<word>, ls: seq<Local>, x: word, n: nat, v: word)
    requires v == 2 * n
    ensures EvalOp(h, sem, fuel, LocalGet, State(s + [v], ls)) == Failed
    ensures EvalOp(h, sem, fuel, LocalSet, State(s + [x, v], ls)) == Failed
  {
  }

  // ---- one flag or value, one or two quotations ----

  lemma WhenEffects(h: Heap, sem: Meaning, fuel: nat, s: seq<word>, ls: seq<Local>, x: word, q: word)
    ensures EvalOp(h, sem, fuel, When, State(s + [x, q], ls)) ==
            if x != 0 then CallValue(h, sem, fuel, q, State(s, ls)) else Done(State(s, ls))
    ensures EvalOp(h, sem, fuel, Unless, State(s + [x, q], ls)) ==
            if x == 0 then CallValue(h, sem, fuel, q, State(s, ls)) else Done(State(s, ls))
    ensures EvalOp(h, sem, fuel, WhenStar, State(s + [x, q], ls)) ==
            if x != 0 then CallValue(h, sem, fuel, q, State(s + [x], ls)) else Done(State(s, ls))
  {
    hide CallValue;
    Operands2(s, x, q);
  }

  lemma IfEffects(h: Heap, sem: Meaning, fuel: nat, s: seq<word>, ls: seq<Local>, x: word, q: word, r: word)
    ensures EvalOp(h, sem, fuel, If, State(s + [x, q, r], ls)) ==
            CallValue(h, sem, fuel, if x != 0 then q else r, State(s, ls))
    ensures EvalOp(h, sem, fuel, IfStar, State(s + [x, q, r], ls)) ==
            if x != 0 then CallValue(h, sem, fuel, q, State(s + [x], ls)) else CallValue(h, sem, fuel, r, State(s, ls))
  {
    hide CallValue;
    Operands3(s, x, q, r);
  }

  /** The first quotation leaves t with x on top; the second runs without x. */
  lemma AndOrEffects(
    h: Heap, sem: Meaning, fuel: nat, s: seq<word>, ls: seq<Local>, q: word, r: word, t: seq<word>,
    ms: seq<Local>, x: word)
    requires CallValue(h, sem, fuel, q, State(s, ls)) == Done(State(t + [x], ms))
    ensures EvalOp(h, sem, fuel, AndStar, State(s + [q, r], ls)) ==
            if x != 0 then CallValue(h, sem, fuel, r, State(t, ms)) else Done(State(t + [0], ms))
    ensures EvalOp(h, sem, fuel, OrStar, State(s + [q, r], ls)) ==
            if x != 0 then Done(State(t + [x], ms)) else CallValue(h, sem, fuel, r, State(t, ms))
  {
    hide CallValue;
    Operands2(s, q, r);
    Operands1(t, x);
  }

  /** The quotation is called with or without x on the stack, and x is on top afterwards. */
  lemma KeepEffects(h: Heap, sem: Meaning, fuel: nat, s: seq<word>, ls: seq<Local>, x: word, q: word)
    ensures var o := CallValue(h, sem, fuel, q, State(s + [x], ls));
            EvalOp(h, sem, fuel, Keep, State(s + [x, q], ls)) ==
            if o.Done? then Done(State(o.st.stack + [x], o.st.locals)) else o
    ensures var o := CallValue(h, sem, fuel, q, State(s, ls));
            EvalOp(h, sem, fuel, Dip, State(s + [x, q], ls)) ==
            if o.Done? then Done(State(o.st.stack + [x], o.st.locals)) else o
  {
    hide CallValue;
    Operands2(s, x, q);
  }

  /** Two quotations on one value, and one quotation on two values. */
  lemma BiEffects(h: Heap, sem: Meaning, fuel: nat, s: seq<word>, ls: seq<Local>, x: word, y: word, q: word)
    ensures var o := CallValue(h, sem, fuel, y, State(s + [x], ls));
            EvalOp(h, sem, fuel, Bi, State(s + [x, y, q], ls)) ==
            if o.Done? then CallValue(h, sem, fuel, q, State(o.st.stack + [x], o.st.locals)) else o
    ensures var o := CallValue(h, sem, fuel, q, State(s + [x], ls));
            EvalOp(h, sem, fuel, BiAt, State(s + [x, y, q], ls)) ==
            if o.Done? then CallValue(h, sem, fuel, q, State(o.st.stack + [y], o.st.locals)) else o
  {
    hide CallValue;
    Operands3(s, x, y, q);
  }

  // ---- leaving early ----

  lemma ExitEffects(h: Heap, sem: Meaning, fuel: nat, s: seq<word>, ls: seq<Local>, x: word, q: word, op: Op)
    ensures op.ExitNoLocals? || op.ExitLocals? ==>
              EvalOp(h, sem, fuel, op, State(s + [x], ls)) ==
              if x != 0 then Returned(State(s, ls)) else Done(State(s, ls))
    ensures op.ReturnNoLocals? || op.ReturnLocals? ==>
              var o := CallValue(h, sem, fuel, q, State(s, ls));
              EvalOp(h, sem, fuel, op, State(s + [x, q], ls)) ==
              if x == 0 then Done(State(s, ls)) else if o.Done? then Returned(o.st) else o
  {
    hide CallValue;
    Operands1(s, x);
    Operands2(s, x, q);
  }

  // ---- loops and clauses ----

  /** The test leaves t with x on top: nil ends the loop, anything else runs the body and
      goes round again. */
  lemma WhileEffects(
    h: Heap, sem: Meaning, fuel: nat, s: seq<word>, ls: seq<Local>, p: word, q: word, t: seq<word>,
    ms: seq<Local>, x: word)
    requires CallValue(h, sem, fuel + 1, p, State(s, ls)) == Done(State(t + [x], ms))
    ensures var o := CallValue(h, sem, fuel + 1, q, State(t, ms));
            EvalOp(h, sem, fuel + 1, While, State(s + [p, q], ls)) ==
            if x == 0 then Done(State(t, ms))
            else if o.Done? then EvalOp(h, sem, fuel, While, State(o.st.stack + [p, q], o.st.locals)) else o
  {
    hide CallValue;
    Operands2(s, p, q);
    Operands1(t, x);
    var o := CallValue(h, sem, fuel + 1, q, State(t, ms));
    if o.Done? { Operands2(o.st.stack, p, q); }
  }

  /** The clauses of cond are tried in order; a quotation among them ends the search. */
  lemma CondEffects(
    h: Heap, sem: Meaning, fuel: nat, s: seq<word>, ls: seq<Local>, a: word, clause: word, rest: seq<word>)
    requires a in h && h[a] == Array([clause] + rest)
    ensures clause in h && h[clause].Quotation? ==>
              EvalOp(h, sem, fuel, Cond, State(s + [a], ls)) == CallValue(h, sem, fuel, clause, State(s, ls))
    ensures clause in h && h[clause].Array? && |h[clause].elems| == 2 ==>
              var o := CallValue(h, sem, fuel, h[clause].elems[0], State(s, ls));
              o.Done? && o.st.stack != [] ==>
                var n := |o.st.stack| - 1;
                var t := State(o.st.stack[..n], o.st.locals);
                EvalOp(h, sem, fuel, Cond, State(s + [a], ls)) ==
                if o.st.stack[n] != 0 then CallValue(h, sem, fuel, h[clause].elems[1], t)
                else EvalClauses(h, sem, fuel, rest, t)
    ensures EvalClauses(h, sem, fuel, [], State(s, ls)) == Failed
  {
    hide CallValue;
    Operands1(s, a);
    assert ([clause] + rest)[1..] == rest;
  }

  /** The pairs of match* are tried in order; _ or an equal key ends the search. */
  lemma MatchEffects(
    h: Heap, sem: Meaning, fuel: nat, s: seq<word>, ls: seq<Local>, x: word, a: word, key: word, q: word,
    rest: seq<word>)
    requires a in h && h[a] == Array([key, q] + rest)
    ensures EvalOp(h, sem, fuel, MatchStar, State(s + [x, a], ls)) ==
            if key == sem.wildcard || sem.equal(x, key) then CallValue(h, sem, fuel, q, State(s, ls))
            else EvalMatch(h, sem, fuel, rest, State(s + [x], ls))
    ensures EvalMatch(h, sem, fuel, [], State(s + [x], ls)) == Failed
  {
    hide CallValue;
    Operands1(s, x);
    Operands2(s, x, a);
    assert ([key, q] + rest)[2..] == rest;
  }

  // ---- too few operands ----

  /** Every word fails on a stack that does not hold its operands. */
  lemma Underflows(h: Heap, sem: Meaning, fuel: nat, op: Op, s: seq<word>, ls: seq<Local>)
    requires !op.Word?
    requires |s| < if op.If? || op.IfStar? || op.Bi? || op.BiAt? then 3
                   else if op.Call? || op.Cond? || op.LocalGet? || op.ExitNoLocals? || op.ExitLocals? then 1
                   else 2
    ensures EvalOp(h, sem, fuel, op, State(s, ls)) == Failed
  {
    hide CallValue;
  }

  // ---- fuel ----

  /** With one more unit of fuel, calls that ended end in the same way. */
  ghost predicate CallsSteady(h: Heap, sem: Meaning, fuel: nat) {
    && (forall v: word, st: State :: CallValue(h, sem, fuel, v, st) == OutOfFuel
                                     || CallValue(h, sem, fuel + 1, v, st) == CallValue(h, sem, fuel, v, st))
    && forall d: Definition, st: State :: CallWord(h, sem, fuel, d, st) == OutOfFuel
                                          || CallWord(h, sem, fuel + 1, d, st) == CallWord(h, sem, fuel, d, st)
  }

  lemma {:induction false} WhileSteady(h: Heap, sem: Meaning, fuel: nat, p: word, q: word, st: State)
    requires forall k: nat :: k <= fuel ==> CallsSteady(h, sem, k)
    requires EvalWhile(h, sem, fuel, p, q, st) != OutOfFuel
    ensures EvalWhile(h, sem, fuel + 1, p, q, st) == EvalWhile(h, sem, fuel, p, q, st)
  {
    hide CallValue;
    assert CallsSteady(h, sem, fuel);
    var o := CallValue(h, sem, fuel, p, st);
    if o.Done? && o.st.Has(1) && o.st.Peek(0) != NIL {
      var o2 := CallValue(h, sem, fuel, q, o.st.Drop(1));
      if o2.Done? && fuel > 0 {
        WhileSteady(h, sem, fuel - 1, p, q, o2.st);
      }
    }
  }

  lemma {:induction false} ClausesSteady(h: Heap, sem: Meaning, fuel: nat, clauses: seq<word>, st: State)
    requires CallsSteady(h, sem, fuel)
    requires EvalClauses(h, sem, fuel, clauses, st) != OutOfFuel
    ensures EvalClauses(h, sem, fuel + 1, clauses, st) == EvalClauses(h, sem, fuel, clauses, st)
    decreases |clauses|
  {
    hide CallValue;
    if clauses != [] && IsArray(h, clauses[0]) && |h[clauses[0]].elems| >= 2 {
      var o := CallValue(h, sem, fuel, h[clauses[0]].elems[0], st);
      if o.Done? && o.st.Has(1) && o.st.Peek(0) == NIL {
        ClausesSteady(h, sem, fuel, clauses[1..], o.st.Drop(1));
      }
    }
  }

  lemma {:induction false} PairsSteady(h: Heap, sem: Meaning, fuel: nat, pairs: seq<word>, st: State)
    requires CallsSteady(h, sem, fuel)
    requires EvalMatch(h, sem, fuel, pairs, st) != OutOfFuel
    ensures EvalMatch(h, sem, fuel + 1, pairs, st) == EvalMatch(h, sem, fuel, pairs, st)
    decreases |pairs|
  {
    hide CallValue;
    if |pairs| >= 2 && st.Has(1) && pairs[0] != sem.wildcard && !sem.equal(st.Peek(0), pairs[0]) {
      PairsSteady(h, sem, fuel, pairs[2..], st);
    }
  }

  lemma ReturnSteady(h: Heap, sem: Meaning, fuel: nat, st: State)
    requires CallsSteady(h, sem, fuel)
    requires EvalReturn(h, sem, fuel, st) != OutOfFuel
    ensures EvalReturn(h, sem, fuel + 1, st) == EvalReturn(h, sem, fuel, st)
  {
    hide CallValue;
  }

  lemma OpSteady(h: Heap, sem: Meaning, fuel: nat, op: Op, st: State)
    requires forall k: nat :: k <= fuel ==> CallsSteady(h, sem, k)
    requires EvalOp(h, sem, fuel, op, st) != OutOfFuel
    ensures EvalOp(h, sem, fuel + 1, op, st) == EvalOp(h, sem, fuel, op, st)
  {
    hide CallValue, CallWord, EvalWhile, EvalClauses, EvalMatch, EvalReturn;
    assert CallsSteady(h, sem, fuel);
    match op {
      case While => if st.Has(2) { WhileSteady(h, sem, fuel, st.Peek(1), st.Peek(0), st.Drop(2)); }
      case Cond =>
        if st.Has(1) && IsArray(h, st.Peek(0)) { ClausesSteady(h, sem, fuel, h[st.Peek(0)].elems, st.Drop(1)); }
      case MatchStar =>
        if st.Has(2) && IsArray(h, st.Peek(0)) { PairsSteady(h, sem, fuel, h[st.Peek(0)].elems, st.Drop(1)); }
      case ReturnNoLocals => ReturnSteady(h, sem, fuel, st);
      case ReturnLocals => ReturnSteady(h, sem, fuel, st);
      case _ =>
    }
  }

  lemma {:induction false} ElemsSteady(h: Heap, sem: Meaning, fuel: nat, elems: seq<word>, st: State)
    requires forall k: nat :: k <= fuel ==> CallsSteady(h, sem, k)
    requires EvalElems(h, sem, fuel, elems, st) != OutOfFuel
    ensures EvalElems(h, sem, fuel + 1, elems, st) == EvalElems(h, sem, fuel, elems, st)
    decreases |elems|
  {
    hide EvalOp, CallsSteady;
    if elems != [] {
      if IsSymbol(h, elems[0]) {
        OpSteady(h, sem, fuel, h[elems[0]].op, st);
        var o := EvalOp(h, sem, fuel, h[elems[0]].op, st);
        if o.Done? { ElemsSteady(h, sem, fuel, elems[1..], o.st); }
      } else {
        ElemsSteady(h, sem, fuel, elems[1..], st.Push(Unwrap(h, elems[0])));
      }
    }
  }

  lemma {:induction false} AllCallsSteady(h: Heap, sem: Meaning, fuel: nat)
    ensures forall k: nat :: k <= fuel ==> CallsSteady(h, sem, k)
  {
    hide EvalOp, EvalElems;
    if fuel > 0 {
      AllCallsSteady(h, sem, fuel - 1);
      forall v: word, st: State | CallValue(h, sem, fuel, v, st) != OutOfFuel
        ensures CallValue(h, sem, fuel + 1, v, st) == CallValue(h, sem, fuel, v, st)
      {
        if IsQuotation(h, v) {
          ElemsSteady(h, sem, fuel - 1, h[v].elems, st);
        } else if IsSymbol(h, v) && !LeavesBody(h[v].op) {
          OpSteady(h, sem, fuel - 1, h[v].op, st);
        }
      }
      forall d: Definition, st: State | CallWord(h, sem, fuel, d, st) != OutOfFuel
        ensures CallWord(h, sem, fuel + 1, d, st) == CallWord(h, sem, fuel, d, st)
      {
        ElemsSteady(h, sem, fuel - 1, d.elems, State(st.stack, FreshLocals(d.locals)));
      }
    }
  }

  /** Fuel decides only whether a computation is followed to its end: with any more of it the
      outcome is the same. */
  lemma {:induction false} FuelOnlyBounds(h: Heap, sem: Meaning, fuel: nat, more: nat, elems: seq<word>, st: State)
    requires EvalElems(h, sem, fuel, elems, st) != OutOfFuel
    ensures EvalElems(h, sem, fuel + more, elems, st) == EvalElems(h, sem, fuel, elems, st)
  {
    hide EvalElems;
    if more > 0 {
      FuelOnlyBounds(h, sem, fuel, more - 1, elems, st);
      AllCallsSteady(h, sem, fuel + more - 1);
      ElemsSteady(h, sem, fuel + more - 1, elems, st);
    }
  }
}
