/** Locals and the two ways out of a body: falling through, and leaving early by ?exit or
    ?return. */
module Frames {
  import opened Bytes
  import opened X86
  import opened Source
  import opened CodeGen
  import opened Machine
  import opened Simulation
  import opened Combinators

  // ---- locals ----

  lemma LoadLocalSteps(env: Env, n: nat, v: word, m: Machine) returns (m': Machine)
    requires Placed(env.fetch, m.ip, One(Load(RBX, LocalMem(n))))
    requires Read(m.ret, m.r14 + 8 * n) == v
    ensures m' == m.(ip := m.ip + Len(Load(RBX, LocalMem(n))), rbx := v)
    ensures Reaches(env, m, m')
  {
    assert Disp(LocalMem(n)) == 8 * n && LocalMem(n).base == R14;
    m' := m.(ip := m.ip + Len(Load(RBX, LocalMem(n))), rbx := v);
    StepRuns(env, m, Load(RBX, LocalMem(n)), m');
  }

  /** A local is read from its cell whichever of the three operand forms n calls for. */
  lemma RunLocalGet(env: Env, n: nat, m: Machine, st: State) returns (m': Machine)
    requires n < |st.locals| && st.locals[n].Holds?
    requires Placed(env.fetch, m.ip, LocalGetCode(n))
    requires Rep(env, m, st)
    ensures Goes(env, m, m', m.ip + Size(LocalGetCode(n)), st.Push(st.locals[n].v))
  {
    PlacedAppend(env.fetch, m.ip, DupCode(), One(Load(RBX, LocalMem(n))));
    var m1 := RunDup(env, m, st);
    var v := st.locals[n].v;
    assert Read(m1.ret, m1.r14 + 8 * n) == v;
    m' := LoadLocalSteps(env, n, v, m1);
    hide Reaches, Placed, Len, Size, Asm, Encode;
    ReachesTrans(env, m, m1, m');
    assert Rep(env, m1.(rbx := v), st.Push(v));
  }

  lemma StoreLocalSteps(env: Env, n: nat, r: reg, m: Machine) returns (m': Machine)
    requires Placed(env.fetch, m.ip, One(Store(LocalMem(n), r)))
    requires Known64(r)
    ensures m' == m.(ip := m.ip + Len(Store(LocalMem(n), r)), ret := m.ret[m.r14 + 8 * n := Get(m, r)])
    ensures Reaches(env, m, m')
  {
    assert Disp(LocalMem(n)) == 8 * n && LocalMem(n).base == R14;
    m' := m.(ip := m.ip + Len(Store(LocalMem(n), r)), ret := m.ret[m.r14 + 8 * n := Get(m, r)]);
    StepRuns(env, m, Store(LocalMem(n), r), m');
  }

  /** A store to a local's cell changes that local and nothing else. */
  lemma RunStoreLocal(env: Env, n: nat, r: reg, v: word, m: Machine, st: State) returns (m': Machine)
    requires n < |st.locals|
    requires Placed(env.fetch, m.ip, One(Store(LocalMem(n), r)))
    requires Rep(env, m, st)
    requires Known64(r) && Get(m, r) == v
    ensures Goes(env, m, m', m.ip + Len(Store(LocalMem(n), r)), State(st.stack, st.locals[n := Holds(v)]))
  {
    m' := StoreLocalSteps(env, n, r, m);
    hide Reaches, Placed, Len, Asm, Encode;
    forall j | 0 <= j < |st.locals| && st.locals[n := Holds(v)][j].Holds?
      ensures Read(m'.ret, m'.r14 + 8 * j) == st.locals[n := Holds(v)][j].v
    {
      if j != n {
        assert Read(m.ret, m.r14 + 8 * j) == st.locals[j].v;
      }
    }
  }

  lemma RunLocalSet(env: Env, n: nat, m: Machine, st: State) returns (m': Machine)
    requires n < |st.locals|
    requires Placed(env.fetch, m.ip, LocalSetCode(n))
    requires Rep(env, m, st) && st.Has(1)
    ensures Goes(env, m, m', m.ip + Size(LocalSetCode(n)), State(st.Drop(1).stack, st.locals[n := Holds(st.Peek(0))]))
  {
    PlacedAppend(env.fetch, m.ip, One(Store(LocalMem(n), RBX)), DropCode());
    m' := RunStoreLocal(env, n, RBX, st.Peek(0), m, st);
    m' := RunDropFrom(env, m, m', State(st.stack, st.locals[n := Holds(st.Peek(0))]));
  }

  lemma RunLocalSetLiteral(env: Env, n: nat, x: word, m: Machine, st: State) returns (m': Machine)
    requires n < |st.locals|
    requires Placed(env.fetch, m.ip, LocalSetLiteralCode(n, x))
    requires Rep(env, m, st)
    ensures Goes(env, m, m', m.ip + Size(LocalSetLiteralCode(n, x)), State(st.stack, st.locals[n := Holds(x)]))
  {
    PlacedAppend(env.fetch, m.ip, One(MovImm64(RAX, x)), One(Store(LocalMem(n), RAX)));
    var m1 := m.(ip := m.ip + 10, rax := x);
    StepRuns(env, m, MovImm64(RAX, x), m1);
    m' := RunStoreLocal(env, n, RAX, x, m1, st);
    var st' := State(st.stack, st.locals[n := Holds(x)]);
    GoesTrans(env, m, m1, m1.ip, st, m', m'.ip, st');
  }

  // ---- nip ----

  lemma RunNip(env: Env, m: Machine, st: State) returns (m': Machine)
    requires Placed(env.fetch, m.ip, NipCode())
    requires Rep(env, m, st) && st.Has(2)
    ensures Goes(env, m, m', m.ip + 4, st.Drop(2).Push(st.Peek(0)))
  {
    m' := m.(ip := m.ip + 4, rbp := m.rbp + 8);
    StepRuns(env, m, Lea(RBP, RBP, 8), m');
    forall j | 0 <= j < |st.stack| - 2
      ensures Read(m'.data, env.base - 8 * (j + 2)) == st.Drop(2).Push(st.Peek(0)).stack[j]
    {
      assert Read(m.data, env.base - 8 * (j + 2)) == st.stack[j];
    }
  }

  lemma RunNipLiteral(env: Env, v: word, m: Machine, st: State) returns (m': Machine)
    requires Placed(env.fetch, m.ip, One(MovLiteral(v)))
    requires Rep(env, m, st) && st.Has(1)
    ensures Goes(env, m, m', m.ip + Size(One(MovLiteral(v))), st.Drop(1).Push(v))
  {
    m' := m.(ip := m.ip + Len(MovLiteral(v)), rbx := v);
    RunMovLiteral(env, m, v);
    forall j | 0 <= j < |st.stack| - 1
      ensures Read(m'.data, env.base - 8 * (j + 2)) == st.Drop(1).Push(v).stack[j]
    {
      assert Read(m.data, env.base - 8 * (j + 2)) == st.stack[j];
    }
  }

  // ---- leaving a body ----

  /** The return address is below the cells of the locals in use. */
  ghost predicate CanReturn(m: Machine, st: State) {
    |st.locals| > 0 ==> m.rsp + 8 <= m.r14
  }

  /** From m the machine returns to the address on top of m's return stack. */
  ghost predicate Leaves(env: Env, m: Machine, m': Machine, st: State) {
    && Reaches(env, m, m')
    && m'.ip == Read(m.ret, m.rsp)
    && m'.rsp == m.rsp + 8
    && Rep(env, m', st)
    && Preserved(m, m', m.rsp, |st.locals|)
  }

  lemma RunRet(env: Env, m: Machine, m1: Machine, st: State) returns (m': Machine)
    requires Goes(env, m, m1, m1.ip, st)
    requires Placed(env.fetch, m1.ip, One(Ret))
    requires CanReturn(m, st)
    ensures Leaves(env, m, m', st)
  {
    m' := m1.(ip := Read(m1.ret, m1.rsp), rsp := m1.rsp + 8);
    StepRuns(env, m1, Ret, m');
    ReachesTrans(env, m, m1, m');
  }

  lemma ExitNoLocalsPlaces(f: int -> Fetched, pc: int)
    requires Placed(f, pc, ExitNoLocalsCode())
    ensures Placed(f, pc, CmpNil())
    ensures Placed(f, pc + 4, DropCode())
    ensures Placed(f, pc + 12, One(Jz8(1)))
    ensures Placed(f, pc + 14, One(Ret))
    ensures Size(ExitNoLocalsCode()) == 15
  {
    PlacedAppend(f, pc, CmpNil(), DropCode() + (One(Jz8(1)) + One(Ret)));
    PlacedAppend(f, pc + 4, DropCode(), One(Jz8(1)) + One(Ret));
    PlacedAppend(f, pc + 12, One(Jz8(1)), One(Ret));
  }

  lemma SimExitNoLocals(env: Env, m: Machine, st: State) returns (m': Machine)
    requires Placed(env.fetch, m.ip, ExitNoLocalsCode())
    requires Rep(env, m, st) && st.Has(1) && CanReturn(m, st)
    ensures if st.Peek(0) == NIL then Goes(env, m, m', m.ip + 15, st.Drop(1)) else Leaves(env, m, m', st.Drop(1))
  {
    ExitNoLocalsPlaces(env.fetch, m.ip);
    m' := RunCmp(env, m, st);
    m' := RunDropFrom(env, m, m', st);
    m' := RunJz8From(env, m, m', st.Drop(1), 1);
    if st.Peek(0) != NIL {
      m' := RunRet(env, m, m', st.Drop(1));
    }
  }

  lemma ReturnNoLocalsPlaces(f: int -> Fetched, pc: int, a: int)
    requires Placed(f, pc, ReturnNoLocalsCode(pc, a))
    ensures Placed(f, pc, CmpNil())
    ensures Placed(f, pc + 4, DropCode())
    ensures Placed(f, pc + 12, One(Jz8(6)))
    ensures Placed(f, pc + 14, CallCode(pc + 14, a))
    ensures Placed(f, pc + 19, One(Ret))
    ensures Size(ReturnNoLocalsCode(pc, a)) == 20
  {
    PlacedAppend(f, pc, CmpNil(), DropCode() + (One(Jz8(6)) + (CallCode(pc + 14, a) + One(Ret))));
    PlacedAppend(f, pc + 4, DropCode(), One(Jz8(6)) + (CallCode(pc + 14, a) + One(Ret)));
    PlacedAppend(f, pc + 12, One(Jz8(6)), CallCode(pc + 14, a) + One(Ret));
    PlacedAppend(f, pc + 14, CallCode(pc + 14, a), One(Ret));
  }

  lemma SimReturnNoLocals(env: Env, fuel: nat, v: word, a: int, m: Machine, st: State) returns (m': Machine)
    requires CallsRun(env, fuel)
    requires CallableAddress(env.p, v) == Address(a)
    requires Placed(env.fetch, m.ip, ReturnNoLocalsCode(m.ip, a))
    requires Rep(env, m, st) && st.Has(1) && CanReturn(m, st)
    requires st.Peek(0) != NIL ==> After(env, fuel, v, st.Drop(1)).Done?
    ensures if st.Peek(0) == NIL then Goes(env, m, m', m.ip + 20, st.Drop(1))
            else Leaves(env, m, m', After(env, fuel, v, st.Drop(1)).st)
  {
    ReturnNoLocalsPlaces(env.fetch, m.ip, a);
    m' := RunCmp(env, m, st);
    m' := RunDropFrom(env, m, m', st);
    m' := RunJz8From(env, m, m', st.Drop(1), 6);
    if st.Peek(0) != NIL {
      m' := RunCallFrom(env, fuel, v, a, m, m', st.Drop(1));
      m' := RunRet(env, m, m', After(env, fuel, v, st.Drop(1)).st);
    }
  }

  lemma ExitLocalsPlaces(f: int -> Fetched, pc: int, jump: int)
    requires Placed(f, pc, ExitLocalsCode(jump))
    ensures Placed(f, pc, CmpNil())
    ensures Placed(f, pc + 4, DropCode())
    ensures Placed(f, pc + 12, One(Jne32(jump)))
    ensures Size(ExitLocalsCode(jump)) == 18
  {
    PlacedAppend(f, pc, CmpNil(), DropCode() + One(Jne32(jump)));
    PlacedAppend(f, pc + 4, DropCode(), One(Jne32(jump)));
  }

  lemma SimExitLocals(env: Env, jump: int, m: Machine, st: State) returns (m': Machine)
    requires Placed(env.fetch, m.ip, ExitLocalsCode(jump))
    requires Rep(env, m, st) && st.Has(1)
    ensures Goes(env, m, m', if st.Peek(0) == NIL then m.ip + 18 else m.ip + 18 + jump, st.Drop(1))
  {
    ExitLocalsPlaces(env.fetch, m.ip, jump);
    var m1 := RunCmp(env, m, st);
    m1 := RunDropFrom(env, m, m1, st);
    m' := RunJne32(env, m1, st.Drop(1), jump);
    GoesTrans(env, m, m1, m1.ip, st.Drop(1), m', m'.ip, st.Drop(1));
  }

  lemma ReturnLocalsPlaces(f: int -> Fetched, pc: int, a: int, jump: int)
    requires Placed(f, pc, ReturnLocalsCode(pc, a, jump))
    ensures Placed(f, pc, CmpNil())
    ensures Placed(f, pc + 4, DropCode())
    ensures Placed(f, pc + 12, One(Jz8(10)))
    ensures Placed(f, pc + 14, CallCode(pc + 14, a))
    ensures Placed(f, pc + 19, One(Jmp32(jump)))
    ensures Size(ReturnLocalsCode(pc, a, jump)) == 24
  {
    PlacedAppend(f, pc, CmpNil(), DropCode() + (One(Jz8(10)) + (CallCode(pc + 14, a) + One(Jmp32(jump)))));
    PlacedAppend(f, pc + 4, DropCode(), One(Jz8(10)) + (CallCode(pc + 14, a) + One(Jmp32(jump))));
    PlacedAppend(f, pc + 12, One(Jz8(10)), CallCode(pc + 14, a) + One(Jmp32(jump)));
    PlacedAppend(f, pc + 14, CallCode(pc + 14, a), One(Jmp32(jump)));
  }

  lemma SimReturnLocals(env: Env, fuel: nat, v: word, a: int, jump: int, m: Machine, st: State) returns (m': Machine)
    requires CallsRun(env, fuel)
    requires CallableAddress(env.p, v) == Address(a)
    requires Placed(env.fetch, m.ip, ReturnLocalsCode(m.ip, a, jump))
    requires Rep(env, m, st) && st.Has(1)
    requires st.Peek(0) != NIL ==> After(env, fuel, v, st.Drop(1)).Done?
    ensures if st.Peek(0) == NIL then Goes(env, m, m', m.ip + 24, st.Drop(1))
            else Goes(env, m, m', m.ip + 24 + jump, After(env, fuel, v, st.Drop(1)).st)
  {
    ReturnLocalsPlaces(env.fetch, m.ip, a, jump);
    m' := RunCmp(env, m, st);
    m' := RunDropFrom(env, m, m', st);
    m' := RunJz8From(env, m, m', st.Drop(1), 10);
    if st.Peek(0) != NIL {
      var st2 := After(env, fuel, v, st.Drop(1)).st;
      var m1 := RunCallFrom(env, fuel, v, a, m, m', st.Drop(1));
      m' := RunJmp32(env, m1, st2, jump);
      GoesTrans(env, m, m1, m1.ip, st2, m', m'.ip, st2);
    }
  }
}
