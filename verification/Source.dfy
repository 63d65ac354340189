/** Quotations as the compiler finds them, and what they mean: the stack effect of every
    word that the compiler can expand in line (src/combinators.asm, src/primitives.asm,
    src/locals.asm). */
module Source {
  import opened Bytes

  const NIL: word := 0
  const TRUE: word := 14

  /** A symbol that a quotation may hold. Word stands for every word without a compiler
      of its own. */
  datatype Op =
    | Word(n: nat)
    | When | WhenStar | Unless | If | IfStar | AndStar | OrStar | While
    | Keep | Dip | Bi | BiAt | Call | Nip
    | Cond | MatchStar | MatchTest
    | LocalGet | LocalSet
    | ExitNoLocals | ExitLocals | ReturnNoLocals | ReturnLocals

  /** Heap objects. A raw word that names none is an immediate value such as a fixnum. */
  datatype Obj =
    | Quotation(elems: seq<word>)
    | Array(elems: seq<word>)
    | Symbol(op: Op)
    | Wrapper(wrapped: word)

  type Heap = map<word, Obj>

  predicate IsQuotation(h: Heap, v: word) { v in h && h[v].Quotation? }

  predicate IsArray(h: Heap, v: word) { v in h && h[v].Array? }

  predicate IsSymbol(h: Heap, v: word) { v in h && h[v].Symbol? }

  predicate IsWrapper(h: Heap, v: word) { v in h && h[v].Wrapper? }

  function Unwrap(h: Heap, v: word): word {
    if IsWrapper(h, v) then h[v].wrapped else v
  }

  function Unwrapped(h: Heap, vs: seq<word>): (r: seq<word>)
    ensures |r| == |vs|
  {
    seq(|vs|, i requires 0 <= i < |vs| => Unwrap(h, vs[i]))
  }

  predicate IsFixnum(v: word) { v % 2 == 1 }

  /** The index held in a tagged fixnum; a negative one comes out above any real index. */
  function Untag(v: word): nat { v / 2 }

  /** Leaves the body that contains it rather than falling through. */
  predicate LeavesBody(op: Op) {
    op.ExitNoLocals? || op.ExitLocals? || op.ReturnNoLocals? || op.ReturnLocals?
  }

  /** A local has no value that could be relied on before one is stored in it. */
  datatype Local = Unset | Holds(v: word)

  function FreshLocals(n: nat): (ls: seq<Local>)
    ensures |ls| == n && forall j :: 0 <= j < n ==> ls[j] == Unset
  {
    seq(n, j => Unset)
  }

  datatype State = State(stack: seq<word>, locals: seq<Local>) {
    function Push(v: word): State { this.(stack := stack + [v]) }

    predicate Has(n: nat) { n <= |stack| }

    /** The stack without its n topmost elements. */
    function Drop(n: nat): State
      requires Has(n)
    {
      this.(stack := stack[..|stack| - n])
    }

    /** The element n below the top. */
    function Peek(n: nat): word
      requires Has(n + 1)
    {
      stack[|stack| - 1 - n]
    }
  }

  datatype Outcome = Done(st: State) | Returned(st: State) | Failed | OutOfFuel {
    /** Leaving a quotation early brings control back to its caller. */
    function Landed(): Outcome { if Returned? then Done(st) else this }

    predicate Ended() { Done? || Returned? }

    /** No word changes how many locals there are. */
    predicate KeepsLocals(before: State) { Ended() ==> |st.locals| == |before.locals| }
  }

  datatype Effect = Undefined | Defined(stack: seq<word>)

  /** A word that is compiled here: its body, and how many locals it has. */
  datatype Definition = Definition(elems: seq<word>, locals: nat)

  /** The words that are compiled; and what is not decided here: the effect of each other
      word, the equality that match? uses, and the object that the symbol _ denotes. */
  datatype Meaning = Meaning(
    defs: map<nat, Definition>,
    effect: (nat, seq<word>) -> Effect,
    equal: (word, word) -> bool,
    wildcard: word)

  function EvalElems(h: Heap, sem: Meaning, fuel: nat, elems: seq<word>, st: State): (out: Outcome)
    ensures out.KeepsLocals(st)
    decreases fuel, 5, |elems|
  {
    if elems == [] then Done(st)
    else if IsSymbol(h, elems[0]) then
      var o := EvalOp(h, sem, fuel, h[elems[0]].op, st);
      if o.Done? then EvalElems(h, sem, fuel, elems[1..], o.st) else o
    else EvalElems(h, sem, fuel, elems[1..], st.Push(Unwrap(h, elems[0])))
  }

  /** Calling a value: a quotation runs its body, a symbol its word. */
  function CallValue(h: Heap, sem: Meaning, fuel: nat, v: word, st: State): (out: Outcome)
    ensures out.KeepsLocals(st) && !out.Returned?
    decreases fuel, 1, 0
  {
    if fuel == 0 then OutOfFuel
    else if IsQuotation(h, v) then EvalElems(h, sem, fuel - 1, h[v].elems, st).Landed()
    else if IsSymbol(h, v) && !LeavesBody(h[v].op) then EvalOp(h, sem, fuel - 1, h[v].op, st)
    else Failed
  }

  function EvalOp(h: Heap, sem: Meaning, fuel: nat, op: Op, st: State): (out: Outcome)
    ensures out.KeepsLocals(st) && (out.Returned? ==> LeavesBody(op))
    decreases fuel, 4, 0
  {
    match op
    case Word(n) =>
      if n in sem.defs then CallWord(h, sem, fuel, sem.defs[n], st)
      else
        var e := sem.effect(n, st.stack);
        if e.Defined? then Done(st.(stack := e.stack)) else Failed
    case When =>
      if !st.Has(2) then Failed
      else if st.Peek(1) != NIL then CallValue(h, sem, fuel, st.Peek(0), st.Drop(2))
      else Done(st.Drop(2))
    case WhenStar =>
      if !st.Has(2) then Failed
      else if st.Peek(1) != NIL then CallValue(h, sem, fuel, st.Peek(0), st.Drop(1))
      else Done(st.Drop(2))
    case Unless =>
      if !st.Has(2) then Failed
      else if st.Peek(1) == NIL then CallValue(h, sem, fuel, st.Peek(0), st.Drop(2))
      else Done(st.Drop(2))
    case If =>
      if !st.Has(3) then Failed
      else CallValue(h, sem, fuel, if st.Peek(2) != NIL then st.Peek(1) else st.Peek(0), st.Drop(3))
    case IfStar =>
      if !st.Has(3) then Failed
      else if st.Peek(2) != NIL then CallValue(h, sem, fuel, st.Peek(1), st.Drop(2))
      else CallValue(h, sem, fuel, st.Peek(0), st.Drop(3))
    case AndStar =>
      if !st.Has(2) then Failed else
      var o := CallValue(h, sem, fuel, st.Peek(1), st.Drop(2));
      if !o.Done? then o
      else if !o.st.Has(1) then Failed
      else if o.st.Peek(0) == NIL then o
      else CallValue(h, sem, fuel, st.Peek(0), o.st.Drop(1))
    case OrStar =>
      if !st.Has(2) then Failed else
      var o := CallValue(h, sem, fuel, st.Peek(1), st.Drop(2));
      if !o.Done? then o
      else if !o.st.Has(1) then Failed
      else if o.st.Peek(0) != NIL then o
      else CallValue(h, sem, fuel, st.Peek(0), o.st.Drop(1))
    case While =>
      if !st.Has(2) then Failed
      else EvalWhile(h, sem, fuel, st.Peek(1), st.Peek(0), st.Drop(2))
    case Keep =>
      if !st.Has(2) then Failed else
      var o := CallValue(h, sem, fuel, st.Peek(0), st.Drop(1));
      if o.Done? then Done(o.st.Push(st.Peek(1))) else o
    case Dip =>
      if !st.Has(2) then Failed else
      var o := CallValue(h, sem, fuel, st.Peek(0), st.Drop(2));
      if o.Done? then Done(o.st.Push(st.Peek(1))) else o
    case Bi =>
      if !st.Has(3) then Failed else
      var o := CallValue(h, sem, fuel, st.Peek(1), st.Drop(2));
      if o.Done? then CallValue(h, sem, fuel, st.Peek(0), o.st.Push(st.Peek(2))) else o
    case BiAt =>
      if !st.Has(3) then Failed else
      var o := CallValue(h, sem, fuel, st.Peek(0), st.Drop(2));
      if o.Done? then CallValue(h, sem, fuel, st.Peek(0), o.st.Push(st.Peek(1))) else o
    case Call =>
      if !st.Has(1) then Failed else CallValue(h, sem, fuel, st.Peek(0), st.Drop(1))
    case Nip =>
      if !st.Has(2) then Failed else Done(st.Drop(2).Push(st.Peek(0)))
    case Cond =>
      if !st.Has(1) || !IsArray(h, st.Peek(0)) then Failed
      else EvalClauses(h, sem, fuel, h[st.Peek(0)].elems, st.Drop(1))
    case MatchStar =>
      if !st.Has(2) || !IsArray(h, st.Peek(0)) then Failed
      else EvalMatch(h, sem, fuel, h[st.Peek(0)].elems, st.Drop(1))
    case MatchTest =>
      if !st.Has(2) then Failed
      else Done(st.Drop(1).Push(if sem.equal(st.Peek(1), st.Peek(0)) then TRUE else NIL))
    case LocalGet =>
      if !st.Has(1) || !IsFixnum(st.Peek(0)) || |st.locals| <= Untag(st.Peek(0)) then Failed
      else if st.locals[Untag(st.Peek(0))].Unset? then Failed
      else Done(st.Drop(1).Push(st.locals[Untag(st.Peek(0))].v))
    case LocalSet =>
      if !st.Has(2) || !IsFixnum(st.Peek(0)) || |st.locals| <= Untag(st.Peek(0)) then Failed
      else Done(State(st.Drop(2).stack, st.locals[Untag(st.Peek(0)) := Holds(st.Peek(1))]))
    case ExitNoLocals => EvalExit(st)
    case ExitLocals => EvalExit(st)
    case ReturnNoLocals => EvalReturn(h, sem, fuel, st)
    case ReturnLocals => EvalReturn(h, sem, fuel, st)
  }

  /** A compiled word runs its body with locals of its own, and the caller's come back. */
  function CallWord(h: Heap, sem: Meaning, fuel: nat, d: Definition, st: State): (out: Outcome)
    ensures out.KeepsLocals(st) && !out.Returned?
    decreases fuel, 3, 0
  {
    if fuel == 0 then OutOfFuel
    else
      var o := EvalElems(h, sem, fuel - 1, d.elems, State(st.stack, FreshLocals(d.locals))).Landed();
      if o.Done? then Done(State(o.st.stack, st.locals)) else o
  }

  function EvalExit(st: State): (out: Outcome)
    ensures out.KeepsLocals(st)
  {
    if !st.Has(1) then Failed
    else if st.Peek(0) != NIL then Returned(st.Drop(1))
    else Done(st.Drop(1))
  }

  function EvalReturn(h: Heap, sem: Meaning, fuel: nat, st: State): (out: Outcome)
    ensures out.KeepsLocals(st)
    decreases fuel, 3, 0
  {
    if !st.Has(2) then Failed
    else if st.Peek(1) == NIL then Done(st.Drop(2))
    else
      var o := CallValue(h, sem, fuel, st.Peek(0), st.Drop(2));
      if o.Done? then Returned(o.st) else o
  }

  function EvalWhile(h: Heap, sem: Meaning, fuel: nat, test: word, body: word, st: State): (out: Outcome)
    ensures out.KeepsLocals(st) && !out.Returned?
    decreases fuel, 3, 0
  {
    var o := CallValue(h, sem, fuel, test, st);
    if !o.Done? then o
    else if !o.st.Has(1) then Failed
    else if o.st.Peek(0) == NIL then Done(o.st.Drop(1))
    else
      var o2 := CallValue(h, sem, fuel, body, o.st.Drop(1));
      if !o2.Done? then o2
      else if fuel == 0 then OutOfFuel
      else EvalWhile(h, sem, fuel - 1, test, body, o2.st)
  }

  /** The clauses of old-cond: two-element arrays, or a quotation that ends the search. */
  function EvalClauses(h: Heap, sem: Meaning, fuel: nat, clauses: seq<word>, st: State): (out: Outcome)
    ensures out.KeepsLocals(st) && !out.Returned?
    decreases fuel, 3, |clauses|
  {
    if clauses == [] then Failed
    else if IsQuotation(h, clauses[0]) then CallValue(h, sem, fuel, clauses[0], st)
    else if !IsArray(h, clauses[0]) || |h[clauses[0]].elems| < 2 then Failed
    else
      var o := CallValue(h, sem, fuel, h[clauses[0]].elems[0], st);
      if !o.Done? then o
      else if !o.st.Has(1) then Failed
      else if o.st.Peek(0) != NIL then CallValue(h, sem, fuel, h[clauses[0]].elems[1], o.st.Drop(1))
      else EvalClauses(h, sem, fuel, clauses[1..], o.st.Drop(1))
  }

  /** The pairs of match*: the first key that is _ or equal to the element on top. */
  function EvalMatch(h: Heap, sem: Meaning, fuel: nat, pairs: seq<word>, st: State): (out: Outcome)
    ensures out.KeepsLocals(st) && !out.Returned?
    decreases fuel, 3, |pairs|
  {
    if |pairs| < 2 || !st.Has(1) then Failed
    else if pairs[0] == sem.wildcard || sem.equal(st.Peek(0), pairs[0]) then
      CallValue(h, sem, fuel, pairs[1], st.Drop(1))
    else EvalMatch(h, sem, fuel, pairs[2..], st)
  }
}
