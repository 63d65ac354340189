/** Compiler correctness: running the code of a quotation has the effect that the
    quotation means. */
module Correctness {
  import opened Bytes
  import opened X86
  import opened Source
  import opened CodeGen
  import opened Machine
  import opened Simulation
  import opened Combinators
  import opened Choices
  import opened Clauses
  import opened Frames

  /** Where a construct that starts at m ends: at next when control falls through; when
      the body is left early, at its return address or, with locals, at its epilog. */
  ghost predicate Ends(env: Env, m: Machine, m': Machine, next: int, out: Outcome, locals: nat, exit: int) {
    match out
    case Done(st) => Goes(env, m, m', next, st)
    case Returned(st) => if locals == 0 then Leaves(env, m, m', st) else Goes(env, m, m', exit, st)
    case _ => false
  }

  /** How many literals the compiler of op may take. */
  predicate Takes(op: Op, n: nat) {
    match op
    case If => n == 0 || n == 2
    case IfStar => n == 0 || n == 2
    case AndStar => n == 0 || n == 2
    case OrStar => n == 0 || n == 2
    case While => n == 0 || n == 2
    case Bi => n == 0 || n == 2
    case LocalSet => n <= 2
    case Word(_) => n == 0
    case MatchTest => n == 0
    case ExitNoLocals => n == 0
    case ExitLocals => n == 0
    case _ => n <= 1
  }

  lemma TakenTakes(p: Program, op: Op, pending: seq<word>)
    ensures Takes(op, Taken(p, op, pending))
  {
  }

  /** What the compiler relies on and does not check: see README for each. */
  predicate OpSound(p: Program, op: Op, lits: seq<word>, locals: nat) {
    match op
    case MatchStar =>
      |lits| == 1 && IsArray(p.heap, lits[0]) ==> MatchReadsAlike(p, p.heap[lits[0]].elems)
    case LocalSet => |lits| == 2 ==> Unwrap(p.heap, lits[0]) == lits[0]
    case ExitNoLocals => locals == 0
    case ReturnNoLocals => locals == 0
    case ExitLocals => locals > 0
    case ReturnLocals => locals > 0
    case _ => true
  }

  /** No heap object is a fixnum, and the two sides agree on which symbol is _. */
  predicate HeapSound(env: Env) {
    && (forall v :: v in env.p.heap ==> !IsFixnum(v))
    && env.p.wildcard == env.sem.wildcard
  }

  /** The source state: the run-time stack followed by the literals the operator takes. */
  function WithLiterals(p: Program, st: State, lits: seq<word>): State {
    st.(stack := st.stack + Unwrapped(p.heap, lits))
  }

  lemma OneLiteral(p: Program, st: State, lits: seq<word>)
    requires |lits| == 1
    ensures WithLiterals(p, st, lits) == st.Push(Unwrap(p.heap, lits[0]))
  {
    assert Unwrapped(p.heap, lits) == [Unwrap(p.heap, lits[0])];
  }

  lemma TwoLiterals(p: Program, st: State, lits: seq<word>)
    requires |lits| == 2
    ensures WithLiterals(p, st, lits) == st.Push(Unwrap(p.heap, lits[0])).Push(Unwrap(p.heap, lits[1]))
  {
    assert Unwrapped(p.heap, lits) == [Unwrap(p.heap, lits[0]), Unwrap(p.heap, lits[1])];
  }

  lemma NoLiterals(p: Program, st: State)
    ensures WithLiterals(p, st, []) == st
  {
    assert st.stack + Unwrapped(p.heap, []) == st.stack;
  }

  /** What the operator means on the source state. */
  function Meant(env: Env, fuel: nat, op: Op, lits: seq<word>, st: State): Outcome {
    EvalOp(env.p.heap, env.sem, fuel, op, WithLiterals(env.p, st, lits))
  }

  /** The code of op is at m.ip, the run-time state is represented, and the source state
      leads somewhere. */
  ghost predicate Ready(
    env: Env, fuel: nat, op: Op, lits: seq<word>, c: seq<Instr>, exit: Address, m: Machine, st: State)
  {
    && CallsRun(env, fuel)
    && WordsRun(env, fuel)
    && HeapSound(env)
    && OperatorCode(env.p, op, lits, m.ip, exit) == Good(c)
    && Placed(env.fetch, m.ip, c)
    && Rep(env, m, st)
    && Meant(env, fuel, op, lits, st).Ended()
  }

  /** One literal: what is known, with the literal on the source stack. */
  lemma OneReady(env: Env, fuel: nat, op: Op, lits: seq<word>, c: seq<Instr>, exit: Address, m: Machine, st: State)
    requires Ready(env, fuel, op, lits, c, exit, m, st) && |lits| == 1
    ensures CallsRun(env, fuel) && WordsRun(env, fuel) && HeapSound(env) && Rep(env, m, st)
    ensures OneLiteralCode(env.p, op, lits[0], m.ip, exit) == Good(c) && Placed(env.fetch, m.ip, c)
    ensures var o := EvalOp(env.p.heap, env.sem, fuel, op, st.Push(Unwrap(env.p.heap, lits[0])));
            o.Ended() && Meant(env, fuel, op, lits, st) == o
  {
    hide Rep, CallsRun, WordsRun, HeapSound, EvalOp, OneLiteralCode, TwoLiteralCode, NoLiteralCode, Placed;
    hide WithLiterals;
    OneLiteral(env.p, st, lits);
  }

  lemma TwoReady(env: Env, fuel: nat, op: Op, lits: seq<word>, c: seq<Instr>, exit: Address, m: Machine, st: State)
    requires Ready(env, fuel, op, lits, c, exit, m, st) && |lits| == 2
    ensures CallsRun(env, fuel) && WordsRun(env, fuel) && HeapSound(env) && Rep(env, m, st)
    ensures TwoLiteralCode(env.p, op, lits[0], lits[1], m.ip) == Good(c) && Placed(env.fetch, m.ip, c)
    ensures var h := env.p.heap;
            var o := EvalOp(h, env.sem, fuel, op, st.Push(Unwrap(h, lits[0])).Push(Unwrap(h, lits[1])));
            o.Ended() && Meant(env, fuel, op, lits, st) == o
  {
    hide Rep, CallsRun, WordsRun, HeapSound, EvalOp, OneLiteralCode, TwoLiteralCode, NoLiteralCode, Placed;
    hide WithLiterals;
    TwoLiterals(env.p, st, lits);
  }

  lemma NoneReady(env: Env, fuel: nat, op: Op, c: seq<Instr>, exit: Address, m: Machine, st: State)
    requires Ready(env, fuel, op, [], c, exit, m, st)
    ensures CallsRun(env, fuel) && WordsRun(env, fuel) && Rep(env, m, st)
    ensures NoLiteralCode(env.p, op, m.ip, exit) == Good(c) && Placed(env.fetch, m.ip, c)
    ensures var o := EvalOp(env.p.heap, env.sem, fuel, op, st);
            o.Ended() && Meant(env, fuel, op, [], st) == o
  {
    hide Rep, CallsRun, WordsRun, HeapSound, EvalOp, OneLiteralCode, TwoLiteralCode, NoLiteralCode, Placed;
    hide WithLiterals;
    NoLiterals(env.p, st);
  }

  /** Two quotations stand for themselves, and their code has addresses. */
  lemma TwoQuotations(p: Program, op: Op, lits: seq<word>, pc: int) returns (a1: int, a2: int)
    requires |lits| == 2 && !op.LocalSet?
    requires TwoLiteralCode(p, op, lits[0], lits[1], pc).Good?
    ensures Unwrap(p.heap, lits[0]) == lits[0] && Unwrap(p.heap, lits[1]) == lits[1]
    ensures CallableAddress(p, lits[0]) == Address(a1) && CallableAddress(p, lits[1]) == Address(a2)
    ensures QuotationAddress(p, lits[0]) == Address(a1) && QuotationAddress(p, lits[1]) == Address(a2)
  {
    a1, a2 := QuotationAddress(p, lits[0]).a, QuotationAddress(p, lits[1]).a;
  }

  lemma OpWhen(env: Env, fuel: nat, lits: seq<word>, c: seq<Instr>, exit: Address, m: Machine, st: State)
    returns (m': Machine)
    requires Ready(env, fuel, When, lits, c, exit, m, st) && |lits| == 1
    ensures Goes(env, m, m', m.ip + Size(c), Meant(env, fuel, When, lits, st).st)
  {
    hide Ready, Meant, OperatorCode, Rep, Preserved, Goes, CallsRun, WordsRun, CallValue, WhenCode, Placed, Size, Asm;
    hide CallableAddress, KeepTarget, QuotationAddress, Unwrap, EvalClauses, EvalMatch, EvalExit, EvalReturn, EvalWhile;
    OneReady(env, fuel, When, lits, c, exit, m, st);
    var v := Unwrap(env.p.heap, lits[0]);
    PushPeeks(st, v);
    var a := CallableAddress(env.p, v).a;
    WhenPlaces(env.fetch, m.ip, a);
    m' := SimWhen(env, fuel, v, a, m, st);
  }

  lemma OpUnless(env: Env, fuel: nat, lits: seq<word>, c: seq<Instr>, exit: Address, m: Machine, st: State)
    returns (m': Machine)
    requires Ready(env, fuel, Unless, lits, c, exit, m, st) && |lits| == 1
    ensures Goes(env, m, m', m.ip + Size(c), Meant(env, fuel, Unless, lits, st).st)
  {
    hide Ready, Meant, OperatorCode, Rep, Preserved, Goes, CallsRun, WordsRun, CallValue, UnlessCode, Placed, Size, Asm;
    hide CallableAddress, KeepTarget, QuotationAddress, Unwrap, EvalClauses, EvalMatch, EvalExit, EvalReturn, EvalWhile;
    OneReady(env, fuel, Unless, lits, c, exit, m, st);
    var v := Unwrap(env.p.heap, lits[0]);
    PushPeeks(st, v);
    var a := CallableAddress(env.p, v).a;
    UnlessPlaces(env.fetch, m.ip, a);
    m' := SimUnless(env, fuel, v, a, m, st);
  }

  lemma OpWhenStar(env: Env, fuel: nat, lits: seq<word>, c: seq<Instr>, exit: Address, m: Machine, st: State)
    returns (m': Machine)
    requires Ready(env, fuel, WhenStar, lits, c, exit, m, st) && |lits| == 1
    ensures Goes(env, m, m', m.ip + Size(c), Meant(env, fuel, WhenStar, lits, st).st)
  {
    hide Ready, Meant, OperatorCode, Rep, Preserved, Goes, CallsRun, WordsRun, CallValue, WhenStarCode, Placed;
    hide Size, Asm;
    hide CallableAddress, KeepTarget, QuotationAddress, Unwrap, EvalClauses, EvalMatch, EvalExit, EvalReturn, EvalWhile;
    OneReady(env, fuel, WhenStar, lits, c, exit, m, st);
    var v := Unwrap(env.p.heap, lits[0]);
    PushPeeks(st, v);
    var a := CallableAddress(env.p, v).a;
    WhenStarPlaces(env.fetch, m.ip, a);
    m' := SimWhenStar(env, fuel, v, a, m, st);
  }

  lemma OpDip(env: Env, fuel: nat, lits: seq<word>, c: seq<Instr>, exit: Address, m: Machine, st: State)
    returns (m': Machine)
    requires Ready(env, fuel, Dip, lits, c, exit, m, st) && |lits| == 1
    ensures Goes(env, m, m', m.ip + Size(c), Meant(env, fuel, Dip, lits, st).st)
  {
    hide Ready, Meant, OperatorCode, Rep, Preserved, Goes, CallsRun, WordsRun, CallValue, DipCode, Placed, Size, Asm;
    hide CallableAddress, KeepTarget, QuotationAddress, Unwrap, EvalClauses, EvalMatch, EvalExit, EvalReturn, EvalWhile;
    OneReady(env, fuel, Dip, lits, c, exit, m, st);
    var v := Unwrap(env.p.heap, lits[0]);
    PushPeeks(st, v);
    var a := CallableAddress(env.p, v).a;
    DipPlaces(env.fetch, m.ip, a);
    m' := SimDip(env, fuel, v, a, m, st);
  }

  lemma OpBiAt(env: Env, fuel: nat, lits: seq<word>, c: seq<Instr>, exit: Address, m: Machine, st: State)
    returns (m': Machine)
    requires Ready(env, fuel, BiAt, lits, c, exit, m, st) && |lits| == 1
    ensures Goes(env, m, m', m.ip + Size(c), Meant(env, fuel, BiAt, lits, st).st)
  {
    hide Ready, Meant, OperatorCode, Rep, Preserved, Goes, CallsRun, WordsRun, CallValue, BiAtCode, Placed, Size, Asm;
    hide CallableAddress, KeepTarget, QuotationAddress, Unwrap, EvalClauses, EvalMatch, EvalExit, EvalReturn, EvalWhile;
    OneReady(env, fuel, BiAt, lits, c, exit, m, st);
    var v := Unwrap(env.p.heap, lits[0]);
    PushPeeks(st, v);
    BiAtQuotation(env.p, lits[0]);
    var a := QuotationAddress(env.p, lits[0]).a;
    BiAtPlaces(env.fetch, m.ip, a);
    m' := SimBiAt(env, fuel, v, a, m, st);
  }

  lemma OpIf(env: Env, fuel: nat, lits: seq<word>, c: seq<Instr>, exit: Address, m: Machine, st: State)
    returns (m': Machine)
    requires Ready(env, fuel, If, lits, c, exit, m, st) && |lits| == 2
    ensures Goes(env, m, m', m.ip + Size(c), Meant(env, fuel, If, lits, st).st)
  {
    hide Ready, Meant, OperatorCode, Rep, Preserved, Goes, CallsRun, WordsRun, CallValue, IfCode, Placed, Size, Asm;
    hide CallableAddress, KeepTarget, QuotationAddress, Unwrap, EvalClauses, EvalMatch, EvalExit, EvalReturn, EvalWhile;
    TwoReady(env, fuel, If, lits, c, exit, m, st);
    var a1, a2 := TwoQuotations(env.p, If, lits, m.ip);
    PushTwoPeeks(st, lits[0], lits[1]);
    IfPlaces(env.fetch, m.ip, a1, a2);
    m' := SimIf(env, fuel, lits[0], lits[1], a1, a2, m, st);
  }

  lemma OpIfStar(env: Env, fuel: nat, lits: seq<word>, c: seq<Instr>, exit: Address, m: Machine, st: State)
    returns (m': Machine)
    requires Ready(env, fuel, IfStar, lits, c, exit, m, st) && |lits| == 2
    ensures Goes(env, m, m', m.ip + Size(c), Meant(env, fuel, IfStar, lits, st).st)
  {
    hide Ready, Meant, OperatorCode, Rep, Preserved, Goes, CallsRun, WordsRun, CallValue, IfStarCode, Placed, Size, Asm;
    hide CallableAddress, KeepTarget, QuotationAddress, Unwrap, EvalClauses, EvalMatch, EvalExit, EvalReturn, EvalWhile;
    TwoReady(env, fuel, IfStar, lits, c, exit, m, st);
    var a1, a2 := TwoQuotations(env.p, IfStar, lits, m.ip);
    PushTwoPeeks(st, lits[0], lits[1]);
    IfStarPlaces(env.fetch, m.ip, a1, a2);
    m' := SimIfStar(env, fuel, lits[0], lits[1], a1, a2, m, st);
  }

  lemma OpAndStar(env: Env, fuel: nat, lits: seq<word>, c: seq<Instr>, exit: Address, m: Machine, st: State)
    returns (m': Machine)
    requires Ready(env, fuel, AndStar, lits, c, exit, m, st) && |lits| == 2
    ensures Goes(env, m, m', m.ip + Size(c), Meant(env, fuel, AndStar, lits, st).st)
  {
    hide Ready, Meant, OperatorCode, Rep, Preserved, Goes, CallsRun, WordsRun, CallValue, AndStarCode, Placed, Size;
    hide Asm;
    hide CallableAddress, KeepTarget, QuotationAddress, Unwrap, EvalClauses, EvalMatch, EvalExit, EvalReturn, EvalWhile;
    TwoReady(env, fuel, AndStar, lits, c, exit, m, st);
    var a1, a2 := TwoQuotations(env.p, AndStar, lits, m.ip);
    PushTwoPeeks(st, lits[0], lits[1]);
    AndStarPlaces(env.fetch, m.ip, a1, a2);
    m' := SimAndStar(env, fuel, lits[0], lits[1], a1, a2, m, st);
  }

  lemma OpOrStar(env: Env, fuel: nat, lits: seq<word>, c: seq<Instr>, exit: Address, m: Machine, st: State)
    returns (m': Machine)
    requires Ready(env, fuel, OrStar, lits, c, exit, m, st) && |lits| == 2
    ensures Goes(env, m, m', m.ip + Size(c), Meant(env, fuel, OrStar, lits, st).st)
  {
    hide Ready, Meant, OperatorCode, Rep, Preserved, Goes, CallsRun, WordsRun, CallValue, OrStarCode, Placed, Size, Asm;
    hide CallableAddress, KeepTarget, QuotationAddress, Unwrap, EvalClauses, EvalMatch, EvalExit, EvalReturn, EvalWhile;
    TwoReady(env, fuel, OrStar, lits, c, exit, m, st);
    var a1, a2 := TwoQuotations(env.p, OrStar, lits, m.ip);
    PushTwoPeeks(st, lits[0], lits[1]);
    OrStarPlaces(env.fetch, m.ip, a1, a2);
    m' := SimOrStar(env, fuel, lits[0], lits[1], a1, a2, m, st);
  }

  lemma BiAtQuotation(p: Program, v: word)
    requires QuotationAddress(p, v).Address?
    ensures Unwrap(p.heap, v) == v && CallableAddress(p, v) == QuotationAddress(p, v)
  {
  }

  lemma OpBi(env: Env, fuel: nat, lits: seq<word>, c: seq<Instr>, exit: Address, m: Machine, st: State)
    returns (m': Machine)
    requires Ready(env, fuel, Bi, lits, c, exit, m, st) && |lits| == 2
    ensures Goes(env, m, m', m.ip + Size(c), Meant(env, fuel, Bi, lits, st).st)
  {
    hide Ready, Meant, OperatorCode, Rep, Preserved, Goes, CallsRun, WordsRun, CallValue, BiCode, Placed, Size, Asm;
    hide CallableAddress, KeepTarget, QuotationAddress, Unwrap, EvalClauses, EvalMatch, EvalExit, EvalReturn, EvalWhile;
    TwoReady(env, fuel, Bi, lits, c, exit, m, st);
    var a1, a2 := TwoQuotations(env.p, Bi, lits, m.ip);
    PushTwoPeeks(st, lits[0], lits[1]);
    BiPlaces(env.fetch, m.ip, a1, a2);
    m' := SimBi(env, fuel, lits[0], lits[1], a1, a2, m, st);
  }

  lemma OpWhile(env: Env, fuel: nat, lits: seq<word>, c: seq<Instr>, exit: Address, m: Machine, st: State)
    returns (m': Machine)
    requires Ready(env, fuel, While, lits, c, exit, m, st) && |lits| == 2
    ensures Goes(env, m, m', m.ip + Size(c), Meant(env, fuel, While, lits, st).st)
  {
    hide Ready, Meant, OperatorCode, Rep, Preserved, Goes, CallsRun, WordsRun, CallValue, WhileCode, Placed, Size, Asm;
    hide CallableAddress, KeepTarget, QuotationAddress, Unwrap, EvalClauses, EvalMatch, EvalExit, EvalReturn, EvalWhile;
    TwoReady(env, fuel, While, lits, c, exit, m, st);
    var a1, a2 := TwoQuotations(env.p, While, lits, m.ip);
    PushTwoPeeks(st, lits[0], lits[1]);
    WhilePlaces(env.fetch, m.ip, a1, a2);
    m' := SimWhile(env, fuel, fuel, lits[0], lits[1], a1, a2, m, st);
  }

  lemma OpCall(env: Env, fuel: nat, lits: seq<word>, c: seq<Instr>, exit: Address, m: Machine, st: State)
    returns (m': Machine)
    requires Ready(env, fuel, Call, lits, c, exit, m, st) && |lits| == 1
    ensures Goes(env, m, m', m.ip + Size(c), Meant(env, fuel, Call, lits, st).st)
  {
    hide Ready, Meant, OperatorCode, Rep, Preserved, Goes, CallsRun, WordsRun, CallValue, Placed, Unwrap;
    hide CallableAddress, KeepTarget, QuotationAddress, EvalClauses, EvalMatch, EvalExit, EvalReturn, EvalWhile;
    OneReady(env, fuel, Call, lits, c, exit, m, st);
    var v := Unwrap(env.p.heap, lits[0]);
    PushPeeks(st, v);
    m' := RunCall(env, fuel, fuel, v, CallableAddress(env.p, v).a, m, st);
  }

  /** Calling a quotation that holds one word is calling the word. */
  lemma OneWordQuotation(env: Env, fuel: nat, v: word, st: State)
    requires IsQuotation(env.p.heap, v) && |env.p.heap[v].elems| == 1
    requires IsSymbol(env.p.heap, env.p.heap[v].elems[0]) && !LeavesBody(env.p.heap[env.p.heap[v].elems[0]].op)
    requires CallValue(env.p.heap, env.sem, fuel, v, st).Done?
    ensures CallValue(env.p.heap, env.sem, fuel, env.p.heap[v].elems[0], st) ==
            CallValue(env.p.heap, env.sem, fuel, v, st)
  {
    hide EvalOp;
    var elems := env.p.heap[v].elems;
    var o := EvalOp(env.p.heap, env.sem, fuel - 1, env.p.heap[elems[0]].op, st);
    assert elems[1..] == [];
    assert o.Done? ==> EvalElems(env.p.heap, env.sem, fuel - 1, elems[1..], o.st) == o;
  }

  lemma OpKeep(env: Env, fuel: nat, lits: seq<word>, c: seq<Instr>, exit: Address, m: Machine, st: State)
    returns (m': Machine)
    requires Ready(env, fuel, Keep, lits, c, exit, m, st) && |lits| == 1
    ensures Goes(env, m, m', m.ip + Size(c), Meant(env, fuel, Keep, lits, st).st)
  {
    hide Rep, Preserved, Goes, CallsRun, WordsRun, CallValue, KeepCode, Placed, Size, Asm;
    OneLiteral(env.p, st, lits);
    var v := Unwrap(env.p.heap, lits[0]);
    PushPeeks(st, v);
    var a := KeepTarget(env.p, v).a;
    KeepPlaces(env.fetch, m.ip, a);
    var elems := env.p.heap[v].elems;
    if |elems| == 1 && IsSymbol(env.p.heap, elems[0]) {
      OneWordQuotation(env, fuel, v, st);
      m' := SimKeep(env, fuel, elems[0], a, m, st);
    } else {
      m' := SimKeep(env, fuel, v, a, m, st);
    }
  }

  lemma NipUnfolds(env: Env, fuel: nat, lits: seq<word>, c: seq<Instr>, exit: Address, m: Machine, st: State)
    requires Ready(env, fuel, Nip, lits, c, exit, m, st) && |lits| <= 1
    ensures c == if lits == [] then NipCode() else One(MovLiteral(Unwrap(env.p.heap, lits[0])))
    ensures WithLiterals(env.p, st, lits).Has(2)
    ensures var all := WithLiterals(env.p, st, lits);
            Meant(env, fuel, Nip, lits, st) == Done(all.Drop(2).Push(all.Peek(0)))
  {
    hide Rep, Preserved, Goes, CallsRun, WordsRun, CallValue, Placed, MovLiteral, Asm, WithLiterals, CondCode;
    hide MatchCode;
  }

  lemma OpNip(env: Env, fuel: nat, lits: seq<word>, c: seq<Instr>, exit: Address, m: Machine, st: State)
    returns (m': Machine)
    requires Ready(env, fuel, Nip, lits, c, exit, m, st) && |lits| <= 1
    ensures Goes(env, m, m', m.ip + Size(c), Meant(env, fuel, Nip, lits, st).st)
  {
    hide Rep, Preserved, Goes, CallsRun, WordsRun, CallValue, EvalOp, OperatorCode, Meant, Placed, MovLiteral, Asm;
    hide WithLiterals;
    NipUnfolds(env, fuel, lits, c, exit, m, st);
    if lits == [] {
      NoLiterals(env.p, st);
      m' := RunNip(env, m, st);
    } else {
      OneLiteral(env.p, st, lits);
      var v := Unwrap(env.p.heap, lits[0]);
      PushPeeks(st, v);
      m' := RunNipLiteral(env, v, m, st);
    }
  }

  lemma ArrayUnwrapped(p: Program, v: word)
    ensures IsArray(p.heap, v) ==> Unwrap(p.heap, v) == v
  {
  }

  lemma OpCond(env: Env, fuel: nat, lits: seq<word>, c: seq<Instr>, exit: Address, m: Machine, st: State)
    returns (m': Machine)
    requires Ready(env, fuel, Cond, lits, c, exit, m, st) && |lits| == 1
    ensures Goes(env, m, m', m.ip + Size(c), Meant(env, fuel, Cond, lits, st).st)
  {
    hide Ready, Meant, OperatorCode, Rep, Preserved, Goes, CallsRun, WordsRun, CallValue, CondCode, MatchCode;
    hide Placed, Size, Asm;
    hide CallableAddress, KeepTarget, QuotationAddress, Unwrap, EvalClauses, EvalMatch, EvalExit, EvalReturn, EvalWhile;
    OneReady(env, fuel, Cond, lits, c, exit, m, st);
    ArrayUnwrapped(env.p, lits[0]);
    PushPeeks(st, lits[0]);
    m' := SimCond(env, fuel, env.p.heap[lits[0]].elems, c, m, st);
  }

  lemma OpMatchStar(env: Env, fuel: nat, lits: seq<word>, c: seq<Instr>, exit: Address, m: Machine, st: State)
    returns (m': Machine)
    requires Ready(env, fuel, MatchStar, lits, c, exit, m, st) && |lits| == 1
    requires OpSound(env.p, MatchStar, lits, 0)
    ensures Goes(env, m, m', m.ip + Size(c), Meant(env, fuel, MatchStar, lits, st).st)
  {
    hide Ready, Meant, OperatorCode, Rep, Preserved, Goes, CallsRun, WordsRun, CallValue, CondCode, MatchCode;
    hide MatchReadsAlike, Placed, Size, Asm;
    hide CallableAddress, KeepTarget, QuotationAddress, Unwrap, EvalClauses, EvalMatch, EvalExit, EvalReturn, EvalWhile;
    OneReady(env, fuel, MatchStar, lits, c, exit, m, st);
    ArrayUnwrapped(env.p, lits[0]);
    PushPeeks(st, lits[0]);
    m' := SimMatch(env, fuel, env.p.heap[lits[0]].elems, c, m, st);
  }

  lemma OpLocalGet(env: Env, fuel: nat, lits: seq<word>, c: seq<Instr>, exit: Address, m: Machine, st: State)
    returns (m': Machine)
    requires Ready(env, fuel, LocalGet, lits, c, exit, m, st) && |lits| == 1
    ensures Goes(env, m, m', m.ip + Size(c), Meant(env, fuel, LocalGet, lits, st).st)
  {
    hide Ready, Meant, OperatorCode, Rep, Preserved, Goes, CallsRun, WordsRun, CallValue, LocalGetCode, Placed;
    hide Size, Asm;
    hide CallableAddress, KeepTarget, QuotationAddress, Unwrap, EvalClauses, EvalMatch, EvalExit, EvalReturn, EvalWhile;
    OneReady(env, fuel, LocalGet, lits, c, exit, m, st);
    FixnumUnwrapped(env, lits[0]);
    PushPeeks(st, lits[0]);
    m' := RunLocalGet(env, Untag(lits[0]), m, st);
  }

  lemma OpLocalSet(env: Env, fuel: nat, lits: seq<word>, c: seq<Instr>, exit: Address, m: Machine, st: State)
    returns (m': Machine)
    requires Ready(env, fuel, LocalSet, lits, c, exit, m, st) && 1 <= |lits| <= 2
    requires OpSound(env.p, LocalSet, lits, 0)
    ensures Goes(env, m, m', m.ip + Size(c), Meant(env, fuel, LocalSet, lits, st).st)
  {
    hide Ready, Meant, OperatorCode, Rep, Preserved, Goes, CallsRun, WordsRun, CallValue, LocalSetCode;
    hide LocalSetLiteralCode, Placed, Size, Asm;
    hide CallableAddress, KeepTarget, QuotationAddress, Unwrap, EvalClauses, EvalMatch, EvalExit, EvalReturn, EvalWhile;
    if |lits| == 1 {
      OneReady(env, fuel, LocalSet, lits, c, exit, m, st);
      FixnumUnwrapped(env, lits[0]);
      PushPeeks(st, lits[0]);
      m' := RunLocalSet(env, Untag(lits[0]), m, st);
    } else {
      TwoReady(env, fuel, LocalSet, lits, c, exit, m, st);
      FixnumUnwrapped(env, lits[1]);
      PushTwoPeeks(st, lits[0], lits[1]);
      m' := RunLocalSetLiteral(env, Untag(lits[1]), lits[0], m, st);
    }
  }

  /** A literal stored into a local goes there as it stands in the body, wrapper and all
      (Frames.RunLocalSetLiteral): that is what local! means exactly when it is no wrapper
      around something else. */
  lemma LocalSetLiteralIff(env: Env, fuel: nat, lits: seq<word>, st: State)
    requires HeapSound(env)
    requires |lits| == 2 && IsFixnum(lits[1]) && Untag(lits[1]) < |st.locals|
    ensures Meant(env, fuel, LocalSet, lits, st) == Done(st.(locals := st.locals[Untag(lits[1]) := Holds(lits[0])]))
            <==> Unwrap(env.p.heap, lits[0]) == lits[0]
  {
    TwoLiterals(env.p, st, lits);
    var v := Unwrap(env.p.heap, lits[0]);
    PushTwoPeeks(st, v, lits[1]);
    assert Meant(env, fuel, LocalSet, lits, st) == Done(st.(locals := st.locals[Untag(lits[1]) := Holds(v)]));
    assert st.locals[Untag(lits[1]) := Holds(v)][Untag(lits[1])] == Holds(v);
    assert st.locals[Untag(lits[1]) := Holds(lits[0])][Untag(lits[1])] == Holds(lits[0]);
  }

  lemma ExitMeans(env: Env, fuel: nat, op: Op, st: State)
    requires op == ExitNoLocals || op == ExitLocals
    requires EvalOp(env.p.heap, env.sem, fuel, op, st).Ended()
    ensures st.Has(1)
    ensures EvalOp(env.p.heap, env.sem, fuel, op, st) ==
            if st.Peek(0) != NIL then Returned(st.Drop(1)) else Done(st.Drop(1))
  {
  }

  lemma ReturnMeans(env: Env, fuel: nat, op: Op, v: word, st: State)
    requires op == ReturnNoLocals || op == ReturnLocals
    ensures var o := EvalOp(env.p.heap, env.sem, fuel, op, st.Push(v));
            o.Ended() ==>
              st.Has(1)
              && (st.Peek(0) == NIL ==> o == Done(st.Drop(1)))
              && (st.Peek(0) != NIL ==>
                    var called := CallValue(env.p.heap, env.sem, fuel, v, st.Drop(1));
                    called.Done? && o == Returned(called.st))
  {
    hide CallValue;
    PushPeeks(st, v);
  }

  lemma FixnumUnwrapped(env: Env, v: word)
    requires HeapSound(env) && IsFixnum(v)
    ensures Unwrap(env.p.heap, v) == v
  {
  }

  lemma OpExit(env: Env, fuel: nat, op: Op, c: seq<Instr>, locals: nat, exit: int, m: Machine, st: State)
    returns (m': Machine)
    requires op == ExitNoLocals || op == ExitLocals
    requires Ready(env, fuel, op, [], c, Address(exit), m, st)
    requires OpSound(env.p, op, [], locals) && (locals == 0 ==> CanReturn(m, st))
    ensures Ends(env, m, m', m.ip + Size(c), Meant(env, fuel, op, [], st), locals, exit)
  {
    hide Ready, Meant, OperatorCode, Rep, Preserved, Goes, CallsRun, WordsRun, CallValue, ExitNoLocalsCode;
    hide ExitLocalsCode, Leaves, Placed, Size, Asm;
    hide CallableAddress, KeepTarget, QuotationAddress, Unwrap, EvalClauses, EvalMatch, EvalExit, EvalReturn, EvalWhile;
    hide WithLiterals, OneLiteralCode, TwoLiteralCode, EvalOp;
    NoneReady(env, fuel, op, c, Address(exit), m, st);
    ExitMeans(env, fuel, op, st);
    if op == ExitNoLocals {
      ExitNoLocalsPlaces(env.fetch, m.ip);
      m' := SimExitNoLocals(env, m, st);
    } else {
      ExitLocalsPlaces(env.fetch, m.ip, exit - (m.ip + 18));
      m' := SimExitLocals(env, exit - (m.ip + 18), m, st);
    }
  }

  lemma OpReturnNoLocals(
    env: Env, fuel: nat, lits: seq<word>, c: seq<Instr>, locals: nat, exit: int, m: Machine, st: State)
    returns (m': Machine)
    requires Ready(env, fuel, ReturnNoLocals, lits, c, Address(exit), m, st) && |lits| == 1
    requires OpSound(env.p, ReturnNoLocals, lits, locals) && (locals == 0 ==> CanReturn(m, st))
    ensures Ends(env, m, m', m.ip + Size(c), Meant(env, fuel, ReturnNoLocals, lits, st), locals, exit)
  {
    hide Ready, Meant, OperatorCode, Rep, Preserved, Goes, CallsRun, WordsRun, CallValue, ReturnNoLocalsCode;
    hide Leaves, Placed, Size, Asm;
    hide CallableAddress, KeepTarget, QuotationAddress, Unwrap, EvalClauses, EvalMatch, EvalExit, EvalReturn, EvalWhile;
    hide EvalOp;
    OneReady(env, fuel, ReturnNoLocals, lits, c, Address(exit), m, st);
    var v := Unwrap(env.p.heap, lits[0]);
    PushPeeks(st, v);
    ReturnMeans(env, fuel, ReturnNoLocals, v, st);
    var a := CallableAddress(env.p, v).a;
    ReturnNoLocalsPlaces(env.fetch, m.ip, a);
    m' := SimReturnNoLocals(env, fuel, v, a, m, st);
  }

  lemma OpReturnLocals(
    env: Env, fuel: nat, lits: seq<word>, c: seq<Instr>, locals: nat, exit: int, m: Machine, st: State)
    returns (m': Machine)
    requires Ready(env, fuel, ReturnLocals, lits, c, Address(exit), m, st) && |lits| == 1
    requires OpSound(env.p, ReturnLocals, lits, locals) && (locals == 0 ==> CanReturn(m, st))
    ensures Ends(env, m, m', m.ip + Size(c), Meant(env, fuel, ReturnLocals, lits, st), locals, exit)
  {
    hide Ready, Meant, OperatorCode, Rep, Preserved, Goes, CallsRun, WordsRun, CallValue, ReturnLocalsCode, Leaves;
    hide Placed, Size, Asm;
    hide CallableAddress, KeepTarget, QuotationAddress, Unwrap, EvalClauses, EvalMatch, EvalExit, EvalReturn, EvalWhile;
    hide EvalOp;
    OneReady(env, fuel, ReturnLocals, lits, c, Address(exit), m, st);
    var v := Unwrap(env.p.heap, lits[0]);
    PushPeeks(st, v);
    ReturnMeans(env, fuel, ReturnLocals, v, st);
    var a := CallableAddress(env.p, v).a;
    ReturnLocalsPlaces(env.fetch, m.ip, a, exit - (m.ip + 24));
    m' := SimReturnLocals(env, fuel, v, a, exit - (m.ip + 24), m, st);
  }

  /** Any other operator is a call of its symbol. */
  lemma OpSymbol(env: Env, fuel: nat, op: Op, c: seq<Instr>, exit: Address, m: Machine, st: State)
    returns (m': Machine)
    requires Ready(env, fuel, op, [], c, exit, m, st)
    requires !LeavesBody(op) && !op.Nip?
    ensures Goes(env, m, m', m.ip + Size(c), Meant(env, fuel, op, [], st).st)
  {
    hide Ready, Meant, OperatorCode, Rep, Preserved, Goes, CallsRun, WordsRun, CallValue, CallCode, Placed, Size, Asm;
    hide CallableAddress, KeepTarget, QuotationAddress, Unwrap, EvalClauses, EvalMatch, EvalExit, EvalReturn, EvalWhile;
    hide EvalOp;
    NoneReady(env, fuel, op, c, exit, m, st);
    m' := RunSymbol(env, fuel, op, m, st);
  }

  /** The code of an operator does what the operator means. */
  lemma SimOperator(
    env: Env, fuel: nat, op: Op, lits: seq<word>, c: seq<Instr>, locals: nat, exit: int, m: Machine, st: State)
    returns (m': Machine)
    requires Ready(env, fuel, op, lits, c, Address(exit), m, st)
    requires Takes(op, |lits|)
    requires OpSound(env.p, op, lits, locals) && (locals == 0 ==> CanReturn(m, st))
    ensures Ends(env, m, m', m.ip + Size(c), Meant(env, fuel, op, lits, st), locals, exit)
  {
    hide Ready, Rep, Preserved, Goes, Leaves, MatchReadsAlike, CanReturn, OperatorCode, Meant, Size, Asm;
    var x := Address(exit);
    ReadyOutcome(env, fuel, op, lits, c, x, m, st);
    if lits == [] && op.Nip? {
      m' := OpNip(env, fuel, lits, c, x, m, st);
    } else if lits == [] && !LeavesBody(op) {
      m' := OpSymbol(env, fuel, op, c, x, m, st);
    } else if op.ExitNoLocals? || op.ExitLocals? {
      m' := OpExit(env, fuel, op, c, locals, exit, m, st);
    } else if op.ReturnNoLocals? {
      m' := OpReturnNoLocals(env, fuel, lits, c, locals, exit, m, st);
    } else if op.ReturnLocals? {
      m' := OpReturnLocals(env, fuel, lits, c, locals, exit, m, st);
    } else {
      match op {
        case When => m' := OpWhen(env, fuel, lits, c, x, m, st);
        case WhenStar => m' := OpWhenStar(env, fuel, lits, c, x, m, st);
        case Unless => m' := OpUnless(env, fuel, lits, c, x, m, st);
        case If => m' := OpIf(env, fuel, lits, c, x, m, st);
        case IfStar => m' := OpIfStar(env, fuel, lits, c, x, m, st);
        case AndStar => m' := OpAndStar(env, fuel, lits, c, x, m, st);
        case OrStar => m' := OpOrStar(env, fuel, lits, c, x, m, st);
        case While => m' := OpWhile(env, fuel, lits, c, x, m, st);
        case Keep => m' := OpKeep(env, fuel, lits, c, x, m, st);
        case Dip => m' := OpDip(env, fuel, lits, c, x, m, st);
        case Bi => m' := OpBi(env, fuel, lits, c, x, m, st);
        case BiAt => m' := OpBiAt(env, fuel, lits, c, x, m, st);
        case Call => m' := OpCall(env, fuel, lits, c, x, m, st);
        case Nip => m' := OpNip(env, fuel, lits, c, x, m, st);
        case Cond => m' := OpCond(env, fuel, lits, c, x, m, st);
        case MatchStar => m' := OpMatchStar(env, fuel, lits, c, x, m, st);
        case LocalGet => m' := OpLocalGet(env, fuel, lits, c, x, m, st);
        case LocalSet => m' := OpLocalSet(env, fuel, lits, c, x, m, st);
      }
    }
  }

  lemma ReadyOutcome(env: Env, fuel: nat, op: Op, lits: seq<word>, c: seq<Instr>, exit: Address, m: Machine, st: State)
    requires Ready(env, fuel, op, lits, c, exit, m, st)
    requires Takes(op, |lits|)
    ensures var o := Meant(env, fuel, op, lits, st);
            o.Ended() && (o.Returned? ==> LeavesBody(op))
    ensures op == ReturnNoLocals || op == ReturnLocals ==> |lits| == 1
  {
    hide Rep, CallsRun, WordsRun, HeapSound, Placed, EvalOp, OperatorCode, WithLiterals;
    if lits == [] {
      ReturnTakesOne(env.p, op, m.ip, exit);
    }
  }

  lemma ReturnTakesOne(p: Program, op: Op, pc: int, exit: Address)
    requires OperatorCode(p, op, [], pc, exit).Good?
    ensures op != ReturnNoLocals && op != ReturnLocals
  {
    hide OneLiteralCode, TwoLiteralCode;
  }
}
