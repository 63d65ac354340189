/** The code of bodies and of whole quotations, given that the calls in it run. */
module CompilerTheorem {
  import opened Bytes
  import opened X86
  import opened Source
  import opened CodeGen
  import opened Machine
  import opened Simulation
  import opened Combinators
  import opened Clauses
  import opened Frames
  import opened Correctness

  // ---- the size of code does not depend on where the epilog is ----

  lemma OperatorSize(p: Program, op: Op, lits: seq<word>, pc: int, x: Address, y: Address)
    ensures var c, d := OperatorCode(p, op, lits, pc, x), OperatorCode(p, op, lits, pc, y);
            c.Good? == d.Good? && (c.Good? ==> Size(c.code) == Size(d.code))
  {
    hide CondCode, MatchCode, CallSymbol, ReturnLocalsCode, ExitLocalsCode, CallableAddress, KeepTarget, Size;
    if op.ReturnLocals? && |lits| == 1 {
      var a := CallableAddress(p, Unwrap(p.heap, lits[0]));
      if a.Address? {
        FixedReturnSize(pc, a.a, ForwardJump(x, pc + 24));
        FixedReturnSize(pc, a.a, ForwardJump(y, pc + 24));
      }
    } else if op.ExitLocals? {
      ExitLocalsSize(ForwardJump(x, pc + 18), ForwardJump(y, pc + 18));
    }
  }

  lemma FixedReturnSize(pc: int, a: int, j: int)
    ensures Size(ReturnLocalsCode(pc, a, j)) == 24
  {
    hide Asm;
    SizeAppend(CmpNil(), DropCode() + (One(Jz8(10)) + (CallCode(pc + 14, a) + One(Jmp32(j)))));
    SizeAppend(DropCode(), One(Jz8(10)) + (CallCode(pc + 14, a) + One(Jmp32(j))));
    SizeAppend(One(Jz8(10)), CallCode(pc + 14, a) + One(Jmp32(j)));
    SizeAppend(CallCode(pc + 14, a), One(Jmp32(j)));
  }

  lemma ExitLocalsSize(j: int, k: int)
    ensures Size(ExitLocalsCode(j)) == Size(ExitLocalsCode(k)) == 18
  {
    SizeAppend(CmpNil(), DropCode() + One(Jne32(j)));
    SizeAppend(DropCode(), One(Jne32(j)));
    SizeAppend(CmpNil(), DropCode() + One(Jne32(k)));
    SizeAppend(DropCode(), One(Jne32(k)));
  }

  lemma OpSize(p: Program, op: Op, pending: seq<word>, pc: int, x: Address, y: Address)
    ensures var c, d := OpCode(p, op, pending, pc, x), OpCode(p, op, pending, pc, y);
            c.Good? == d.Good? && (c.Good? ==> Size(c.code) == Size(d.code))
  {
    hide OperatorCode, FlushCode, Taken, Size;
    var n := Taken(p, op, pending);
    var kept, lits := pending[..|pending| - n], pending[|pending| - n..];
    var flush := FlushCode(Unwrapped(p.heap, kept));
    OperatorSize(p, op, lits, pc + Size(flush), x, y);
    var c, d := OperatorCode(p, op, lits, pc + Size(flush), x), OperatorCode(p, op, lits, pc + Size(flush), y);
    if c.Good? {
      SizeAppend(flush, c.code);
      SizeAppend(flush, d.code);
    }
  }

  lemma {:induction false} ElemsSize(p: Program, elems: seq<word>, pending: seq<word>, pc: int, x: Address, y: Address)
    ensures var c, d := ElemsCode(p, elems, pending, pc, x), ElemsCode(p, elems, pending, pc, y);
            c.Good? == d.Good? && (c.Good? ==> Size(c.code) == Size(d.code))
    decreases |elems|
  {
    hide OpCode, FlushCode, Size;
    if elems == [] {
    } else if IsSymbol(p.heap, elems[0]) {
      var op := p.heap[elems[0]].op;
      OpSize(p, op, pending, pc, x, y);
      var c, d := OpCode(p, op, pending, pc, x), OpCode(p, op, pending, pc, y);
      if c.Good? {
        ElemsSize(p, elems[1..], [], pc + Size(c.code), x, y);
        var e := ElemsCode(p, elems[1..], [], pc + Size(c.code), x);
        var f := ElemsCode(p, elems[1..], [], pc + Size(c.code), y);
        if e.Good? {
          SizeAppend(c.code, e.code);
          SizeAppend(d.code, f.code);
        }
      }
    } else {
      ElemsSize(p, elems[1..], pending + [elems[0]], pc, x, y);
    }
  }

  // ---- bodies ----

  /** What the compiler relies on throughout a body, at each operator for the literals
      queued there. */
  predicate ElemsSound(p: Program, elems: seq<word>, pending: seq<word>, locals: nat)
    decreases |elems|
  {
    elems == [] ||
    if IsSymbol(p.heap, elems[0]) then
      var op := p.heap[elems[0]].op;
      && OpSound(p, op, pending[|pending| - Taken(p, op, pending)..], locals)
      && ElemsSound(p, elems[1..], [], locals)
    else ElemsSound(p, elems[1..], pending + [elems[0]], locals)
  }

  /** Where no heap object is a wrapper and no array holds _, nothing is asked of a body but
      that its early exits are in the form for its number of locals. */
  lemma {:induction false} PlainBodyIsSound(p: Program, elems: seq<word>, pending: seq<word>, locals: nat)
    requires forall v :: v in p.heap ==> !p.heap[v].Wrapper?
    requires forall v :: v in p.heap && p.heap[v].Array? ==> p.wildcard !in p.heap[v].elems
    requires forall v :: v in elems && v in p.heap && p.heap[v].Symbol? ==>
               var op := p.heap[v].op;
               && (op.ExitNoLocals? || op.ReturnNoLocals? ==> locals == 0)
               && (op.ExitLocals? || op.ReturnLocals? ==> locals > 0)
    ensures ElemsSound(p, elems, pending, locals)
    decreases |elems|
  {
    hide Taken;
    if elems != [] {
      if IsSymbol(p.heap, elems[0]) {
        assert elems[0] in elems;
        PlainBodyIsSound(p, elems[1..], [], locals);
      } else {
        PlainBodyIsSound(p, elems[1..], pending + [elems[0]], locals);
      }
    }
  }

  lemma GoesEnds(
    env: Env, m: Machine, m1: Machine, ip: int, st1: State, m2: Machine, next: int, out: Outcome, locals: nat,
    exit: int)
    requires Goes(env, m, m1, ip, st1)
    requires Ends(env, m1, m2, next, out, locals, exit)
    requires out.KeepsLocals(st1)
    requires locals == 0 ==> CanReturn(m, st1)
    ensures Ends(env, m, m2, next, out, locals, exit)
  {
    ReachesTrans(env, m, m1, m2);
  }

  lemma LiteralsSplit(p: Program, st: State, kept: seq<word>, lits: seq<word>)
    ensures WithLiterals(p, WithLiterals(p, st, kept), lits) == WithLiterals(p, st, kept + lits)
  {
    assert Unwrapped(p.heap, kept + lits) == Unwrapped(p.heap, kept) + Unwrapped(p.heap, lits);
  }

  /** An operator behind a queue of literals: those it does not take are flushed first.
      The run-time stack with the queue behind it is the source stack, before and after. */
  lemma SimOp(
    env: Env, fuel: nat, op: Op, pending: seq<word>, c: seq<Instr>, locals: nat, exit: int, m: Machine, st: State)
    returns (m': Machine)
    requires CallsRun(env, fuel) && WordsRun(env, fuel) && HeapSound(env)
    requires OpCode(env.p, op, pending, m.ip, Address(exit)) == Good(c)
    requires Placed(env.fetch, m.ip, c)
    requires Rep(env, m, st)
    requires EvalOp(env.p.heap, env.sem, fuel, op, WithLiterals(env.p, st, pending)).Ended()
    requires OpSound(env.p, op, pending[|pending| - Taken(env.p, op, pending)..], locals)
    requires locals == 0 ==> CanReturn(m, st)
    ensures Ends(env, m, m', m.ip + Size(c),
                 EvalOp(env.p.heap, env.sem, fuel, op, WithLiterals(env.p, st, pending)), locals, exit)
  {
    hide Rep, Preserved, CallsRun, WordsRun, HeapSound, EvalOp, OperatorCode, FlushCode, Taken, OpSound, Ends;
    hide Placed, Reaches;
    var n := Taken(env.p, op, pending);
    var kept, lits := pending[..|pending| - n], pending[|pending| - n..];
    assert kept + lits == pending;
    var vs := Unwrapped(env.p.heap, kept);
    var flush := FlushCode(vs);
    var frag := OperatorCode(env.p, op, lits, m.ip + Size(flush), Address(exit)).code;
    PlacedAppend(env.fetch, m.ip, flush, frag);
    var m1 := RunFlush(env, m, st, vs);
    var st1 := WithLiterals(env.p, st, kept);
    LiteralsSplit(env.p, st, kept, lits);
    TakenTakes(env.p, op, pending);
    CanStillReturn(env, m, m1, st1, locals);
    m' := SimOperator(env, fuel, op, lits, frag, locals, exit, m1, st1);
    GoesEnds(env, m, m1, m1.ip, st1, m', m.ip + Size(c),
             EvalOp(env.p.heap, env.sem, fuel, op, WithLiterals(env.p, st, pending)), locals, exit);
  }

  lemma CanStillReturn(env: Env, m: Machine, m1: Machine, st: State, locals: nat)
    requires Goes(env, m, m1, m1.ip, st)
    ensures CanReturn(m, st) ==> CanReturn(m1, st)
  {
  }

  /** The code of a body does what the body means, whichever way it ends. */
  lemma {:induction false} SimElems(
    env: Env, fuel: nat, elems: seq<word>, pending: seq<word>, c: seq<Instr>, locals: nat, exit: int,
    m: Machine, st: State)
    returns (m': Machine)
    requires CallsRun(env, fuel) && WordsRun(env, fuel) && HeapSound(env)
    requires ElemsCode(env.p, elems, pending, m.ip, Address(exit)) == Good(c)
    requires Placed(env.fetch, m.ip, c)
    requires Rep(env, m, st)
    requires EvalElems(env.p.heap, env.sem, fuel, elems, WithLiterals(env.p, st, pending)).Ended()
    requires ElemsSound(env.p, elems, pending, locals)
    requires locals == 0 ==> CanReturn(m, st)
    ensures Ends(env, m, m', m.ip + Size(c),
                 EvalElems(env.p.heap, env.sem, fuel, elems, WithLiterals(env.p, st, pending)), locals, exit)
    decreases |elems|
  {
    hide Rep, Preserved, CallsRun, WordsRun, HeapSound, EvalOp, OpCode, FlushCode, Taken, OpSound, Placed, Reaches;
    hide Goes, Leaves, Asm, CanReturn;
    var src := WithLiterals(env.p, st, pending);
    if elems == [] {
      m' := RunFlush(env, m, st, Unwrapped(env.p.heap, pending));
    } else if IsSymbol(env.p.heap, elems[0]) {
      var op := env.p.heap[elems[0]].op;
      var c1 := OpCode(env.p, op, pending, m.ip, Address(exit)).code;
      var c2 := ElemsCode(env.p, elems[1..], [], m.ip + Size(c1), Address(exit)).code;
      PlacedAppend(env.fetch, m.ip, c1, c2);
      var o := EvalOp(env.p.heap, env.sem, fuel, op, src);
      m' := SimOp(env, fuel, op, pending, c1, locals, exit, m, st);
      if o.Done? {
        var m1 := m';
        GoesReps(env, m, m1, m.ip + Size(c1), o.st);
        KeepsReturn(env, m, m1, m.ip + Size(c1), st, o.st);
        NoLiterals(env.p, o.st);
        m' := SimElems(env, fuel, elems[1..], [], c2, locals, exit, m1, o.st);
        GoesEnds(env, m, m1, m.ip + Size(c1), o.st, m', m.ip + Size(c),
                 EvalElems(env.p.heap, env.sem, fuel, elems[1..], o.st), locals, exit);
      }
    } else {
      LiteralsSplit(env.p, st, pending, [elems[0]]);
      OneLiteral(env.p, src, [elems[0]]);
      m' := SimElems(env, fuel, elems[1..], pending + [elems[0]], c, locals, exit, m, st);
    }
  }

  lemma KeepsReturn(env: Env, m: Machine, m1: Machine, ip: int, st: State, st1: State)
    requires Goes(env, m, m1, ip, st1) && |st1.locals| == |st.locals|
    ensures CanReturn(m, st) ==> CanReturn(m, st1) && CanReturn(m1, st1)
  {
  }

  // ---- whole quotations ----

  /** Where the epilog of a body starts: its forward jumps are patched to go there. */
  function EpilogAddress(p: Program, elems: seq<word>, locals: nat, origin: int): int {
    var prolog := PrologCode(locals);
    var body := ElemsCode(p, elems, [], origin + Size(prolog), NoAddress);
    origin + Size(prolog) + if body.Good? then Size(body.code) else 0
  }

  /** The finished code of a quotation at origin. */
  function FinishedCode(p: Program, elems: seq<word>, locals: nat, origin: int): Listing {
    QuotationCode(p, elems, locals, origin, Address(EpilogAddress(p, elems, locals, origin)))
  }

  /** The prolog, the body and the end of finished code, each in its place. */
  lemma FinishedParts(p: Program, f: int -> Fetched, elems: seq<word>, locals: nat, origin: int, c: seq<Instr>)
    returns (body: seq<Instr>)
    requires FinishedCode(p, elems, locals, origin) == Good(c)
    requires Placed(f, origin, c)
    ensures var start := origin + Size(PrologCode(locals));
            var epilog := EpilogAddress(p, elems, locals, origin);
            && Placed(f, origin, PrologCode(locals))
            && ElemsCode(p, elems, [], start, Address(epilog)) == Good(body)
            && Placed(f, start, body)
            && start + Size(body) == epilog
            && Placed(f, epilog, EpilogCode(locals))
            && Placed(f, epilog + Size(EpilogCode(locals)), One(Ret))
  {
    hide Placed, PrologCode, EpilogCode, ElemsCode, Size, Asm;
    var prolog := PrologCode(locals);
    var start := origin + Size(prolog);
    var epilog := EpilogAddress(p, elems, locals, origin);
    ElemsSize(p, elems, [], start, NoAddress, Address(epilog));
    body := ElemsCode(p, elems, [], start, Address(epilog)).code;
    PlacedAppend(f, origin, prolog, body + (EpilogCode(locals) + One(Ret)));
    PlacedAppend(f, start, body, EpilogCode(locals) + One(Ret));
    PlacedAppend(f, epilog, EpilogCode(locals), One(Ret));
  }

  /** A quotation without locals of its own runs as one call: it leaves the stack and the
      enclosing word's locals as the source says and returns to its caller. */
  lemma SimQuotation(env: Env, fuel: nat, elems: seq<word>, c: seq<Instr>, m: Machine, st: State)
    returns (m': Machine)
    requires CallsRun(env, fuel) && WordsRun(env, fuel) && HeapSound(env)
    requires FinishedCode(env.p, elems, 0, m.ip) == Good(c)
    requires Placed(env.fetch, m.ip, c)
    requires Rep(env, m, st) && CanReturn(m, st)
    requires EvalElems(env.p.heap, env.sem, fuel, elems, st).Ended()
    requires ElemsSound(env.p, elems, [], 0)
    ensures Leaves(env, m, m', EvalElems(env.p.heap, env.sem, fuel, elems, st).st)
  {
    hide Rep, Preserved, CallsRun, WordsRun, HeapSound, EvalElems, ElemsCode, Placed, Reaches, Goes, Leaves, Asm;
    hide CanReturn, FinishedCode, EpilogAddress;
    var body := FinishedParts(env.p, env.fetch, elems, 0, m.ip, c);
    var o := EvalElems(env.p.heap, env.sem, fuel, elems, st);
    NoLiterals(env.p, st);
    m' := SimElems(env, fuel, elems, [], body, 0, EpilogAddress(env.p, elems, 0, m.ip), m, st);
    if o.Done? {
      GoesReps(env, m, m', m.ip + Size(body), o.st);
      KeepsReturn(env, m, m', m.ip + Size(body), st, o.st);
      m' := RunRet(env, m, m', o.st);
    }
  }

  /** The call instruction enters the code with its return address pushed. */
  lemma EnterCode(env: Env, a: int, m: Machine, st: State) returns (m1: Machine)
    requires a !in env.opAt
    requires Placed(env.fetch, m.ip, CallCode(m.ip, a))
    requires Rep(env, m, st)
    ensures Reaches(env, m, m1) && m1.ip == a
    ensures Rep(env, m1, st) && CanReturn(m1, st)
    ensures Saved(m, m1, m.ip + 5, |st.locals|)
  {
    m1 := m.(rsp := m.rsp - 8, ret := m.ret[m.rsp - 8 := m.ip + 5], ip := a);
    StepRuns(env, m, Call32(a - (m.ip + 5)), m1);
    forall j | 0 <= j < |st.locals| && st.locals[j].Holds?
      ensures Read(m1.ret, m1.r14 + 8 * j) == st.locals[j].v
    {
      assert Read(m.ret, m.r14 + 8 * j) == st.locals[j].v;
    }
  }

  lemma ReturnsTo(env: Env, m: Machine, m1: Machine, m2: Machine, ip: int, st: State)
    requires Reaches(env, m, m1) && Saved(m, m1, ip, |st.locals|)
    requires Leaves(env, m1, m2, st)
    ensures Goes(env, m, m2, ip, st)
  {
    ReachesTrans(env, m, m1, m2);
  }
}
