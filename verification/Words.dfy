/** Words: the frame of locals that the prolog sets up and the epilog takes down, and what
    runs in between. */
module Words {
  import opened Bytes
  import opened X86
  import opened Source
  import opened CodeGen
  import opened Machine
  import opened Simulation
  import opened Combinators
  import opened Clauses
  import opened Frames
  import opened Correctness
  import opened CompilerTheorem

  /** The cells that the prolog reserves for n locals, below the saved r14. */
  function FrameBase(m: Machine, n: nat): int { m.rsp - 8 - 8 * n }

  /** The frame of n locals is set up: r14 is saved above it and points at its base. */
  ghost predicate Framed(m: Machine, m1: Machine, n: nat) {
    && m1.rsp == FrameBase(m, n)
    && m1.r14 == FrameBase(m, n)
    && Read(m1.ret, m.rsp - 8) == m.r14
    && forall a :: m.rsp <= a ==> Read(m1.ret, a) == Read(m.ret, a)
  }

  lemma RunSub(env: Env, m: Machine, n: nat) returns (m': Machine)
    requires Placed(env.fetch, m.ip, One(AddRsp(SUB, n)))
    ensures Reaches(env, m, m')
    ensures m' == m.(ip := m.ip + Len(AddRsp(SUB, n)), rsp := m.rsp - n, zf := m.rsp == n)
  {
    m' := m.(ip := m.ip + Len(AddRsp(SUB, n)), rsp := m.rsp - n, zf := m.rsp == n);
    StepRuns(env, m, AddRsp(SUB, n), m');
  }

  lemma RunAdd(env: Env, m: Machine, n: nat) returns (m': Machine)
    requires Placed(env.fetch, m.ip, One(AddRsp(ADD, n)))
    ensures Reaches(env, m, m')
    ensures m' == m.(ip := m.ip + Len(AddRsp(ADD, n)), rsp := m.rsp + n, zf := m.rsp + n == 0)
  {
    m' := m.(ip := m.ip + Len(AddRsp(ADD, n)), rsp := m.rsp + n, zf := m.rsp + n == 0);
    StepRuns(env, m, AddRsp(ADD, n), m');
  }

  lemma RunPushFrame(env: Env, m: Machine) returns (m': Machine)
    requires Placed(env.fetch, m.ip, One(Push(R14)))
    ensures Reaches(env, m, m')
    ensures m' == m.(ip := m.ip + 2, rsp := m.rsp - 8, ret := m.ret[m.rsp - 8 := m.r14])
  {
    m' := m.(ip := m.ip + 2, rsp := m.rsp - 8, ret := m.ret[m.rsp - 8 := m.r14]);
    StepRuns(env, m, Push(R14), m');
  }

  lemma RunMovFrame(env: Env, m: Machine) returns (m': Machine)
    requires Placed(env.fetch, m.ip, One(MovReg(R14, RSP)))
    ensures Reaches(env, m, m')
    ensures m' == m.(ip := m.ip + 3, r14 := m.rsp)
  {
    m' := m.(ip := m.ip + 3, r14 := m.rsp);
    StepRuns(env, m, MovReg(R14, RSP), m');
  }

  /** push r14, sub rsp and mov r14, whatever the state. */
  lemma RunFrame(env: Env, m: Machine, n: nat) returns (m': Machine)
    requires n > 0
    requires Placed(env.fetch, m.ip, PrologCode(n))
    ensures Reaches(env, m, m') && m'.ip == m.ip + Size(PrologCode(n))
    ensures m'.(ip := m.ip, zf := m.zf) ==
            m.(rsp := FrameBase(m, n), r14 := FrameBase(m, n), ret := m.ret[m.rsp - 8 := m.r14])
  {
    hide Reaches, Asm;
    var sub, mov := One(AddRsp(SUB, 8 * n)), One(MovReg(R14, RSP));
    PlacedAppend(env.fetch, m.ip, One(Push(R14)), sub + mov);
    PlacedAppend(env.fetch, m.ip + 2, sub, mov);
    var m1 := RunPushFrame(env, m);
    var m2 := RunSub(env, m1, 8 * n);
    m' := RunMovFrame(env, m2);
    ReachesTrans(env, m, m1, m2);
    ReachesTrans(env, m, m2, m');
  }

  lemma RunProlog(env: Env, m: Machine, n: nat, st: State) returns (m': Machine)
    requires n > 0
    requires Placed(env.fetch, m.ip, PrologCode(n))
    requires Rep(env, m, st)
    ensures Reaches(env, m, m') && m'.ip == m.ip + Size(PrologCode(n))
    ensures Framed(m, m', n)
    ensures Rep(env, m', State(st.stack, FreshLocals(n)))
  {
    hide Reaches, Placed, PrologCode, Size, Asm;
    m' := RunFrame(env, m, n);
  }

  /** add rsp, pop r14 and ret, whatever the state. */
  lemma RunUnframe(env: Env, m: Machine, n: nat) returns (m': Machine)
    requires n > 0
    requires Placed(env.fetch, m.ip, EpilogCode(n))
    requires Placed(env.fetch, m.ip + Size(EpilogCode(n)), One(Ret))
    ensures Reaches(env, m, m')
    ensures var sp := m.rsp + 8 * n;
            m' == m.(ip := Read(m.ret, sp + 8), rsp := sp + 16, r14 := Read(m.ret, sp), zf := sp == 0)
  {
    hide Reaches, Asm;
    PlacedAppend(env.fetch, m.ip, One(AddRsp(ADD, 8 * n)), One(Pop(R14)));
    var m1 := RunAdd(env, m, 8 * n);
    var m2 := m1.(ip := m1.ip + 2, rsp := m1.rsp + 8, r14 := Read(m.ret, m1.rsp));
    StepRuns(env, m1, Pop(R14), m2);
    m' := m2.(ip := Read(m.ret, m2.rsp), rsp := m2.rsp + 8);
    StepRuns(env, m2, Ret, m');
    ReachesTrans(env, m, m1, m2);
    ReachesTrans(env, m, m2, m');
  }

  /** The epilog and the return undo the frame, wherever the body left from. */
  lemma RunEpilog(env: Env, m: Machine, m0: Machine, m1: Machine, n: nat, st: State, outer: seq<Local>)
    returns (m': Machine)
    requires n > 0 && |st.locals| == n
    requires Framed(m, m0, n) && Reaches(env, m, m0)
    requires Goes(env, m0, m1, m1.ip, st)
    requires Placed(env.fetch, m1.ip, EpilogCode(n))
    requires Placed(env.fetch, m1.ip + Size(EpilogCode(n)), One(Ret))
    requires |outer| > 0 ==> m.rsp + 8 <= m.r14
    requires forall j :: 0 <= j < |outer| && outer[j].Holds? ==> Read(m.ret, m.r14 + 8 * j) == outer[j].v
    ensures Leaves(env, m, m', State(st.stack, outer))
    ensures KeepsCaller(m, m')
  {
    hide Reaches, Placed, EpilogCode, Size, Asm;
    m' := RunUnframe(env, m1, n);
    ReachesTrans(env, m, m0, m1);
    ReachesTrans(env, m, m1, m');
  }

  /** r14 and all of the caller's return stack are as they were. */
  ghost predicate KeepsCaller(m: Machine, m': Machine) {
    m'.r14 == m.r14 && forall a :: m.rsp <= a ==> Read(m'.ret, a) == Read(m.ret, a)
  }

  /** With a frame, a body ends at its epilog whether it falls through or leaves early. */
  lemma RunBody(
    env: Env, fuel: nat, elems: seq<word>, n: nat, body: seq<Instr>, epilog: int, m: Machine, st: State)
    returns (m': Machine)
    requires CallsRun(env, fuel) && WordsRun(env, fuel) && HeapSound(env)
    requires n > 0
    requires ElemsCode(env.p, elems, [], m.ip, Address(epilog)) == Good(body)
    requires m.ip + Size(body) == epilog
    requires Placed(env.fetch, m.ip, body)
    requires ElemsSound(env.p, elems, [], n)
    requires Rep(env, m, st)
    requires EvalElems(env.p.heap, env.sem, fuel, elems, st).Ended()
    ensures Goes(env, m, m', epilog, EvalElems(env.p.heap, env.sem, fuel, elems, st).st)
  {
    hide CallsRun, WordsRun, HeapSound, Rep, Goes, Leaves, EvalElems, ElemsCode, Placed, ElemsSound, Size, Asm;
    NoLiterals(env.p, st);
    m' := SimElems(env, fuel, elems, [], body, n, epilog, m, st);
  }

  /** A word with a frame: from its entry the machine returns to its caller with the stack
      the body leaves and the caller's locals, on every way out: past the last instruction,
      ?exit and ?return. */
  lemma SimFramedWord(env: Env, fuel: nat, d: Definition, c: seq<Instr>, m: Machine, st: State)
    returns (m': Machine)
    requires CallsRun(env, fuel) && WordsRun(env, fuel) && HeapSound(env)
    requires d.locals > 0
    requires FinishedCode(env.p, d.elems, d.locals, m.ip) == Good(c)
    requires Placed(env.fetch, m.ip, c)
    requires ElemsSound(env.p, d.elems, [], d.locals)
    requires Rep(env, m, st) && CanReturn(m, st)
    requires WordOutcome(env, fuel, d, st).Ended()
    ensures Leaves(env, m, m', State(WordOutcome(env, fuel, d, st).st.stack, st.locals))
    ensures KeepsCaller(m, m')
  {
    hide CallsRun, WordsRun, HeapSound, Goes, Leaves, EvalElems, ElemsSound, FinishedCode, EpilogAddress, PrologCode;
    hide EpilogCode, Placed, Size, Asm, KeepsCaller;
    var n, elems := d.locals, d.elems;
    var inner := State(st.stack, FreshLocals(n));
    var o := EvalElems(env.p.heap, env.sem, fuel, elems, inner);
    var body := FinishedParts(env.p, env.fetch, elems, n, m.ip, c);
    var m0 := RunProlog(env, m, n, st);
    var m1 := RunBody(env, fuel, elems, n, body, EpilogAddress(env.p, elems, n, m.ip), m0, inner);
    GoesReps(env, m0, m1, EpilogAddress(env.p, elems, n, m.ip), o.st);
    m' := RunEpilog(env, m, m0, m1, n, o.st, st.locals);
  }

  /** What the body of a word comes to, with locals of its own. */
  function WordOutcome(env: Env, fuel: nat, d: Definition, st: State): (o: Outcome)
    ensures o.Ended() ==> |o.st.locals| == d.locals
  {
    EvalElems(env.p.heap, env.sem, fuel, d.elems, State(st.stack, FreshLocals(d.locals)))
  }

  /** Without a frame the caller's locals are simply not touched. */
  lemma NotTouched(env: Env, m: Machine, m': Machine, st: State, outer: seq<Local>)
    requires Leaves(env, m, m', State(st.stack, [])) && CanReturn(m, State(st.stack, outer))
    requires forall j :: 0 <= j < |outer| && outer[j].Holds? ==> Read(m.ret, m.r14 + 8 * j) == outer[j].v
    ensures Leaves(env, m, m', State(st.stack, outer))
  {
  }

  /** Any compiled word, with locals or without. */
  lemma SimWord(env: Env, fuel: nat, d: Definition, c: seq<Instr>, m: Machine, st: State) returns (m': Machine)
    requires CallsRun(env, fuel) && WordsRun(env, fuel) && HeapSound(env)
    requires FinishedCode(env.p, d.elems, d.locals, m.ip) == Good(c)
    requires Placed(env.fetch, m.ip, c)
    requires ElemsSound(env.p, d.elems, [], d.locals)
    requires Rep(env, m, st) && CanReturn(m, st)
    requires WordOutcome(env, fuel, d, st).Ended()
    ensures Leaves(env, m, m', State(WordOutcome(env, fuel, d, st).st.stack, st.locals))
  {
    hide CallsRun, WordsRun, HeapSound, Leaves, EvalElems, ElemsSound, FinishedCode, Placed, Asm, KeepsCaller;
    if d.locals > 0 {
      m' := SimFramedWord(env, fuel, d, c, m, st);
    } else {
      var bare := State(st.stack, FreshLocals(0));
      assert FreshLocals(0) == [];
      m' := SimQuotation(env, fuel, d.elems, c, m, bare);
      NotTouched(env, m, m', State(WordOutcome(env, fuel, d, st).st.stack, []), st.locals);
    }
  }
}
