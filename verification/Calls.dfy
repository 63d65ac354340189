/** The main results about compiled programs: quotations and words that call one another,
    recursion included, and the link from bytes in code memory to what runs. */
module Calls {
  import opened Bytes
  import opened X86
  import opened Source
  import opened CodeGen
  import opened Machine
  import opened Simulation
  import opened Combinators
  import opened Clauses
  import opened Frames
  import opened Correctness
  import opened CompilerTheorem
  import opened Words

  // ---- what is loaded ----

  /** The code of quotation v is in place and its body is within what the compiler relies on. */
  ghost predicate QuotationLoaded(env: Env, v: word)
    requires IsQuotation(env.p.heap, v) && v in env.p.quotAddr
  {
    CodeLoaded(env, Definition(env.p.heap[v].elems, 0), env.p.quotAddr[v])
  }

  ghost predicate CodeLoaded(env: Env, d: Definition, a: int) {
    var c := FinishedCode(env.p, d.elems, d.locals, a);
    && c.Good? && Placed(env.fetch, a, c.code) && ElemsSound(env.p, d.elems, [], d.locals)
    && a !in env.opAt
  }

  /** The symbol of a word that is compiled. */
  predicate Defined(env: Env, op: Op) { op.Word? && op.n in env.sem.defs }

  /** A word that is not compiled, or a combinator called as a word, does what it means: it
      leaves the stacks as the source says and returns. This is assumed of those words. */
  ghost predicate OpRuns(env: Env, fuel: nat, op: Op, m: Machine, st: State) {
    var o := EvalOp(env.p.heap, env.sem, fuel, op, st);
    Rep(env, m, st) && o.Done? ==>
      var m' := env.exec(op, m);
      && m'.ip == m.ip
      && m'.rsp == m.rsp
      && Rep(env, m', o.st)
      && Preserved(m, m', m.rsp, |st.locals|)
  }

  ghost predicate PrimitivesRun(env: Env) {
    && (forall op: Op :: op in env.p.opAddr && !Defined(env, op) ==>
          !LeavesBody(op) && env.p.opAddr[op] in env.opAt && env.opAt[env.p.opAddr[op]] == op)
    && forall fuel: nat, op: Op, m: Machine, st: State :: op in env.p.opAddr && !Defined(env, op) ==>
         OpRuns(env, fuel, op, m, st)
  }

  ghost predicate QuotationsLoaded(env: Env) {
    forall v :: IsQuotation(env.p.heap, v) && v in env.p.quotAddr ==> QuotationLoaded(env, v)
  }

  ghost predicate WordsLoaded(env: Env) {
    forall n :: n in env.sem.defs && Word(n) in env.p.opAddr ==>
      CodeLoaded(env, env.sem.defs[n], env.p.opAddr[Word(n)])
  }

  /** Every quotation and every compiled word that has a code address has its code there. */
  ghost predicate ProgramLoaded(env: Env) {
    PrimitivesRun(env) && HeapSound(env) && QuotationsLoaded(env) && WordsLoaded(env)
  }

  // ---- one call, given that calls with less fuel run ----

  lemma PrimitiveStep(env: Env, fuel: nat, op: Op, m: Machine, st: State)
    requires PrimitivesRun(env) && !Defined(env, op)
    ensures WordRuns(env, fuel, op, m, st)
  {
    hide EvalOp, Preserved, Defined;
    var o := EvalOp(env.p.heap, env.sem, fuel, op, st);
    if op in env.p.opAddr && Placed(env.fetch, m.ip, CallCode(m.ip, env.p.opAddr[op])) && Rep(env, m, st) && o.Done? {
      var m1 := m.(ip := m.ip + 5);
      assert OpRuns(env, fuel, op, m1, st);
      var m' := env.exec(op, m1);
      assert Rep(env, m1, st);
      StepRuns(env, m, Call32(env.p.opAddr[op] - (m.ip + 5)), m');
      SamePreserved(m, m1, m', |st.locals|);
      assert Goes(env, m, m', m.ip + 5, o.st);
    }
  }

  lemma SamePreserved(m: Machine, m1: Machine, m': Machine, n: nat)
    requires m1 == m.(ip := m1.ip) && Preserved(m1, m', m1.rsp, n)
    ensures Preserved(m, m', m.rsp, n)
  {
  }

  /** Entering code that returns is going behind the call. */
  lemma ThereAndBack(env: Env, a: int, d: Definition, fuel: nat, m: Machine, st: State)
    requires CallsRun(env, fuel) && WordsRun(env, fuel) && HeapSound(env)
    requires CodeLoaded(env, d, a)
    requires Placed(env.fetch, m.ip, CallCode(m.ip, a)) && Rep(env, m, st)
    requires WordOutcome(env, fuel, d, st).Ended()
    ensures CanGo(env, m, m.ip + 5, State(WordOutcome(env, fuel, d, st).st.stack, st.locals))
  {
    hide CallsRun, WordsRun, HeapSound, Rep, Preserved, Goes, Leaves, Saved, Reaches, CanReturn, Placed, FinishedCode;
    hide WordOutcome, ElemsSound, CallCode, Asm;
    var m1 := EnterCode(env, a, m, st);
    var m' := SimWord(env, fuel, d, FinishedCode(env.p, d.elems, d.locals, a).code, m1, st);
    ReturnsTo(env, m, m1, m', m.ip + 5, State(WordOutcome(env, fuel, d, st).st.stack, st.locals));
  }

  lemma DefinedMeans(env: Env, fuel: nat, op: Op, st: State)
    requires Defined(env, op) && EvalOp(env.p.heap, env.sem, fuel, op, st).Done?
    ensures fuel > 0 && WordOutcome(env, fuel - 1, env.sem.defs[op.n], st).Ended()
    ensures EvalOp(env.p.heap, env.sem, fuel, op, st) ==
            Done(State(WordOutcome(env, fuel - 1, env.sem.defs[op.n], st).st.stack, st.locals))
  {
    hide EvalElems;
  }

  /** A call of a word. */
  lemma WordStep(env: Env, fuel: nat, op: Op, m: Machine, st: State)
    requires ProgramLoaded(env)
    requires fuel > 0 ==> CallsRun(env, fuel - 1) && WordsRun(env, fuel - 1)
    ensures WordRuns(env, fuel, op, m, st)
  {
    hide CallsRun, WordsRun, HeapSound, PrimitivesRun, QuotationsLoaded, Rep, CanGo, Placed, EvalOp, WordOutcome;
    hide CodeLoaded;
    hide CallCode;
    if !Defined(env, op) {
      PrimitiveStep(env, fuel, op, m, st);
    } else {
      var o := EvalOp(env.p.heap, env.sem, fuel, op, st);
      if op in env.p.opAddr && Placed(env.fetch, m.ip, CallCode(m.ip, env.p.opAddr[op])) && Rep(env, m, st) && o.Done? {
        DefinedMeans(env, fuel, op, st);
        assert op == Word(op.n);
        ThereAndBack(env, env.p.opAddr[op], env.sem.defs[op.n], fuel - 1, m, st);
      }
    }
  }

  lemma QuotationMeans(env: Env, fuel: nat, v: word, st: State)
    requires IsQuotation(env.p.heap, v) && CallValue(env.p.heap, env.sem, fuel, v, st).Done?
    ensures fuel > 0
    ensures var o := EvalElems(env.p.heap, env.sem, fuel - 1, env.p.heap[v].elems, st);
            o.Ended() && CallValue(env.p.heap, env.sem, fuel, v, st) == Done(o.st)
  {
    hide EvalElems;
  }

  /** A call of a quotation, which shares the locals of its caller. */
  lemma QuotationStep(env: Env, fuel: nat, v: word, m: Machine, st: State)
    requires QuotationsLoaded(env) && HeapSound(env)
    requires fuel > 0 ==> CallsRun(env, fuel - 1) && WordsRun(env, fuel - 1)
    requires IsQuotation(env.p.heap, v) && v in env.p.quotAddr
    requires Placed(env.fetch, m.ip, CallCode(m.ip, env.p.quotAddr[v])) && Rep(env, m, st)
    requires CallValue(env.p.heap, env.sem, fuel, v, st).Done?
    ensures CanGo(env, m, m.ip + 5, CallValue(env.p.heap, env.sem, fuel, v, st).st)
  {
    hide CallsRun, WordsRun, HeapSound, Rep, Preserved, Goes, Leaves, Saved, Reaches, CanReturn, Placed, FinishedCode;
    hide CallValue, EvalElems, ElemsSound, CallCode, Asm;
    assert QuotationLoaded(env, v);
    var (elems, a) := (env.p.heap[v].elems, env.p.quotAddr[v]);
    QuotationMeans(env, fuel, v, st);
    var m1 := EnterCode(env, a, m, st);
    var m' := SimQuotation(env, fuel - 1, elems, FinishedCode(env.p, elems, 0, a).code, m1, st);
    ReturnsTo(env, m, m1, m', m.ip + 5, CallValue(env.p.heap, env.sem, fuel, v, st).st);
  }

  lemma SymbolMeans(env: Env, fuel: nat, v: word, st: State)
    requires IsSymbol(env.p.heap, v) && CallValue(env.p.heap, env.sem, fuel, v, st).Done?
    ensures fuel > 0
    ensures CallValue(env.p.heap, env.sem, fuel, v, st) == EvalOp(env.p.heap, env.sem, fuel - 1, env.p.heap[v].op, st)
  {
    hide EvalOp;
  }

  lemma CallableIs(p: Program, v: word)
    requires CallableAddress(p, v).Address?
    ensures IsSymbol(p.heap, v) ==> p.heap[v].op in p.opAddr && CallableAddress(p, v).a == p.opAddr[p.heap[v].op]
    ensures !IsSymbol(p.heap, v) ==>
              IsQuotation(p.heap, v) && v in p.quotAddr && CallableAddress(p, v).a == p.quotAddr[v]
  {
  }

  lemma CallStep(env: Env, fuel: nat, v: word, m: Machine, st: State)
    requires ProgramLoaded(env)
    requires fuel > 0 ==> CallsRun(env, fuel - 1) && WordsRun(env, fuel - 1)
    ensures CallRuns(env, fuel, v, m, st)
  {
    hide CallsRun, WordsRun, HeapSound, PrimitivesRun, QuotationsLoaded, WordsLoaded, Rep, Goes, Placed, CallValue;
    hide EvalOp;
    hide CallCode, CallableAddress;
    var a := CallableAddress(env.p, v);
    var o := CallValue(env.p.heap, env.sem, fuel, v, st);
    if a.Address? && Placed(env.fetch, m.ip, CallCode(m.ip, a.a)) && Rep(env, m, st) && o.Done? {
      CallableIs(env.p, v);
      if IsSymbol(env.p.heap, v) {
        SymbolMeans(env, fuel, v, st);
        var m' := RunSymbol(env, fuel - 1, env.p.heap[v].op, m, st);
        assert CanGo(env, m, m.ip + 5, o.st);
      } else {
        QuotationStep(env, fuel, v, m, st);
      }
    }
  }

  /** Every call of a callable value and of a word does what calling it means, however the
      quotations and words of the program call one another. */
  lemma {:induction false} AllCallsRun(env: Env, fuel: nat)
    requires ProgramLoaded(env)
    ensures CallsRun(env, fuel) && WordsRun(env, fuel)
  {
    hide CallRuns, WordRuns, ProgramLoaded;
    if fuel > 0 {
      AllCallsRun(env, fuel - 1);
    }
    forall k: nat, op: Op, m: Machine, st: State | k <= fuel
      ensures WordRuns(env, k, op, m, st)
    {
      if k == fuel {
        WordStep(env, fuel, op, m, st);
      }
    }
    forall k: nat, v: word, m: Machine, st: State | k <= fuel
      ensures CallRuns(env, k, v, m, st)
    {
      if k == fuel {
        CallStep(env, fuel, v, m, st);
      }
    }
  }

  // ---- compiler correctness ----

  lemma LoadedParts(env: Env)
    requires ProgramLoaded(env)
    ensures HeapSound(env) && QuotationsLoaded(env) && WordsLoaded(env)
  {
    hide HeapSound, PrimitivesRun, QuotationsLoaded, WordsLoaded;
  }

  /** Compiler correctness for quotations: if a quotation ends with some state, the machine
      that enters its code with the initial state represented returns to its caller with
      the final state represented, whatever combinators, loops and calls it took. */
  lemma QuotationCorrect(env: Env, fuel: nat, v: word, m: Machine, st: State) returns (m': Machine)
    requires ProgramLoaded(env)
    requires IsQuotation(env.p.heap, v) && v in env.p.quotAddr
    requires m.ip == env.p.quotAddr[v]
    requires Rep(env, m, st) && CanReturn(m, st)
    requires EvalElems(env.p.heap, env.sem, fuel, env.p.heap[v].elems, st).Ended()
    ensures Leaves(env, m, m', EvalElems(env.p.heap, env.sem, fuel, env.p.heap[v].elems, st).st)
  {
    hide Rep, CallsRun, WordsRun, HeapSound, ProgramLoaded, EvalElems, Placed, Leaves, FinishedCode, ElemsSound;
    hide CanReturn;
    AllCallsRun(env, fuel);
    LoadedParts(env);
    assert QuotationLoaded(env, v);
    var elems := env.p.heap[v].elems;
    m' := SimQuotation(env, fuel, elems, FinishedCode(env.p, elems, 0, m.ip).code, m, st);
  }

  /** Compiler correctness for words: from the entry of a compiled word the machine returns
      to its caller with the stack that the word means, and with the caller's locals. */
  lemma WordCorrect(env: Env, fuel: nat, n: nat, m: Machine, st: State) returns (m': Machine)
    requires ProgramLoaded(env)
    requires n in env.sem.defs && Word(n) in env.p.opAddr
    requires m.ip == env.p.opAddr[Word(n)]
    requires Rep(env, m, st) && CanReturn(m, st)
    requires EvalOp(env.p.heap, env.sem, fuel, Word(n), st).Done?
    ensures Leaves(env, m, m', EvalOp(env.p.heap, env.sem, fuel, Word(n), st).st)
  {
    hide Rep, CallsRun, WordsRun, HeapSound, ProgramLoaded, EvalOp, WordOutcome, Placed, Leaves, FinishedCode;
    hide ElemsSound;
    hide CanReturn;
    DefinedMeans(env, fuel, Word(n), st);
    AllCallsRun(env, fuel - 1);
    LoadedParts(env);
    var d := env.sem.defs[n];
    assert CodeLoaded(env, d, m.ip);
    m' := SimWord(env, fuel - 1, d, FinishedCode(env.p, d.elems, d.locals, m.ip).code, m, st);
  }

  // ---- from bytes ----

  /** The finished bytes of a body are in code memory at a. */
  ghost predicate BytesLoaded(env: Env, code: int -> byte, d: Definition, a: int) {
    var c := FinishedCode(env.p, d.elems, d.locals, a);
    && c.Good? && AllEncodable(c.code) && Loaded(code, a, Asm(c.code))
    && ElemsSound(env.p, d.elems, [], d.locals) && a !in env.opAt
  }

  ghost predicate CodeInMemory(env: Env, code: int -> byte) {
    && FetchesFrom(env.fetch, code)
    && PrimitivesRun(env)
    && HeapSound(env)
    && (forall v :: IsQuotation(env.p.heap, v) && v in env.p.quotAddr ==>
          BytesLoaded(env, code, Definition(env.p.heap[v].elems, 0), env.p.quotAddr[v]))
    && forall n :: n in env.sem.defs && Word(n) in env.p.opAddr ==>
         BytesLoaded(env, code, env.sem.defs[n], env.p.opAddr[Word(n)])
  }

  lemma BytesAreCode(env: Env, code: int -> byte, d: Definition, a: int)
    requires FetchesFrom(env.fetch, code) && BytesLoaded(env, code, d, a)
    ensures CodeLoaded(env, d, a)
  {
    hide FinishedCode, ElemsSound, Loaded, FetchesFrom, AllEncodable, Placed, Asm;
    LoadedPlaces(env.fetch, code, a, FinishedCode(env.p, d.elems, d.locals, a).code);
  }

  /** A code memory that holds the bytes of every quotation and word is a loaded program. */
  lemma BytesAreProgram(env: Env, code: int -> byte)
    requires CodeInMemory(env, code)
    ensures ProgramLoaded(env)
  {
    hide BytesLoaded, CodeLoaded, PrimitivesRun, HeapSound, FetchesFrom;
    forall v | IsQuotation(env.p.heap, v) && v in env.p.quotAddr
      ensures QuotationLoaded(env, v)
    {
      BytesAreCode(env, code, Definition(env.p.heap[v].elems, 0), env.p.quotAddr[v]);
    }
    forall n | n in env.sem.defs && Word(n) in env.p.opAddr
      ensures CodeLoaded(env, env.sem.defs[n], env.p.opAddr[Word(n)])
    {
      BytesAreCode(env, code, env.sem.defs[n], env.p.opAddr[Word(n)]);
    }
  }

  /** The main result, over bytes: with the compiled bytes of every quotation and word in
      memory and instructions fetched from there, running a quotation's code gives what it
      means. */
  lemma CompiledBytesCorrect(env: Env, code: int -> byte, fuel: nat, v: word, m: Machine, st: State)
    returns (m': Machine)
    requires CodeInMemory(env, code)
    requires IsQuotation(env.p.heap, v) && v in env.p.quotAddr
    requires m.ip == env.p.quotAddr[v]
    requires Rep(env, m, st) && CanReturn(m, st)
    requires EvalElems(env.p.heap, env.sem, fuel, env.p.heap[v].elems, st).Ended()
    ensures Leaves(env, m, m', EvalElems(env.p.heap, env.sem, fuel, env.p.heap[v].elems, st).st)
  {
    hide *;
    BytesAreProgram(env, code);
    m' := QuotationCorrect(env, fuel, v, m, st);
  }

  /** The same for a word. */
  lemma CompiledWordCorrect(env: Env, code: int -> byte, fuel: nat, n: nat, m: Machine, st: State)
    returns (m': Machine)
    requires CodeInMemory(env, code)
    requires n in env.sem.defs && Word(n) in env.p.opAddr
    requires m.ip == env.p.opAddr[Word(n)]
    requires Rep(env, m, st) && CanReturn(m, st)
    requires EvalOp(env.p.heap, env.sem, fuel, Word(n), st).Done?
    ensures Leaves(env, m, m', EvalOp(env.p.heap, env.sem, fuel, Word(n), st).st)
  {
    hide *;
    BytesAreProgram(env, code);
    m' := WordCorrect(env, fuel, n, m, st);
  }
}
