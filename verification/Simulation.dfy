/** How machine states represent source states, and what the recurring pieces of emitted
    code do to that representation. */
module Simulation {
  import opened Bytes
  import opened X86
  import opened Source
  import opened CodeGen
  import opened Machine

  /** The top of stack is in rbx, the rest is at rbp upwards, and local n, once it is set, is
      at r14 + 8n, above everything that has been pushed since. */
  ghost predicate Rep(env: Env, m: Machine, st: State) {
    && m.rbp == env.base - 8 * |st.stack|
    && (|st.stack| > 0 ==> m.rbx == st.Peek(0))
    && (forall j :: 0 <= j < |st.stack| - 1 ==> Read(m.data, env.base - 8 * (j + 2)) == st.stack[j])
    && (|st.locals| > 0 ==> m.rsp <= m.r14)
    && forall j :: 0 <= j < |st.locals| && st.locals[j].Holds? ==> Read(m.ret, m.r14 + 8 * j) == st.locals[j].v
  }

  /** r14 is kept, and so is return-stack memory from floor up, the n locals aside. */
  ghost predicate Preserved(m: Machine, m': Machine, floor: int, n: nat) {
    && m'.r14 == m.r14
    && forall a :: floor <= a && !(m.r14 <= a < m.r14 + 8 * n) ==> Read(m'.ret, a) == Read(m.ret, a)
  }

  /** From m the machine gets to the address ip with state st represented and its return
      stack as it was. */
  ghost predicate Goes(env: Env, m: Machine, m': Machine, ip: int, st: State) {
    && Reaches(env, m, m')
    && m'.ip == ip
    && m'.rsp == m.rsp
    && Rep(env, m', st)
    && Preserved(m, m', m.rsp, |st.locals|)
  }

  lemma GoesTrans(env: Env, m: Machine, m1: Machine, ip1: int, st1: State, m2: Machine, ip2: int, st2: State)
    requires Goes(env, m, m1, ip1, st1) && Goes(env, m1, m2, ip2, st2)
    requires |st1.locals| == |st2.locals|
    ensures Goes(env, m, m2, ip2, st2)
  {
    ReachesTrans(env, m, m1, m2);
  }

  // ---- single pieces ----

  lemma RunCmp(env: Env, m: Machine, st: State) returns (m': Machine)
    requires Placed(env.fetch, m.ip, CmpNil())
    requires Rep(env, m, st) && st.Has(1)
    ensures Goes(env, m, m', m.ip + 4, st)
    ensures m'.zf == (st.Peek(0) == NIL)
  {
    m' := m.(ip := m.ip + 4, zf := m.rbx == 0);
    StepRuns(env, m, AluImm8(CMP, RBX, 0), m');
  }

  lemma RunJz8(env: Env, m: Machine, st: State, d: int) returns (m': Machine)
    requires Placed(env.fetch, m.ip, One(Jz8(d)))
    requires Rep(env, m, st)
    ensures Goes(env, m, m', if m.zf then m.ip + 2 + d else m.ip + 2, st)
  {
    m' := m.(ip := if m.zf then m.ip + 2 + d else m.ip + 2);
    StepRuns(env, m, Jz8(d), m');
  }

  lemma RunJne8(env: Env, m: Machine, st: State, d: int) returns (m': Machine)
    requires Placed(env.fetch, m.ip, One(Jne8(d)))
    requires Rep(env, m, st)
    ensures Goes(env, m, m', if m.zf then m.ip + 2 else m.ip + 2 + d, st)
  {
    m' := m.(ip := if m.zf then m.ip + 2 else m.ip + 2 + d);
    StepRuns(env, m, Jne8(d), m');
  }

  lemma RunJmp8(env: Env, m: Machine, st: State, d: int) returns (m': Machine)
    requires Placed(env.fetch, m.ip, One(Jmp8(d)))
    requires Rep(env, m, st)
    ensures Goes(env, m, m', m.ip + 2 + d, st)
  {
    m' := m.(ip := m.ip + 2 + d);
    StepRuns(env, m, Jmp8(d), m');
  }

  lemma RunJmp32(env: Env, m: Machine, st: State, d: int) returns (m': Machine)
    requires Placed(env.fetch, m.ip, One(Jmp32(d)))
    requires Rep(env, m, st)
    ensures Goes(env, m, m', m.ip + 5 + d, st)
  {
    m' := m.(ip := m.ip + 5 + d);
    StepRuns(env, m, Jmp32(d), m');
  }

  lemma RunJne32(env: Env, m: Machine, st: State, d: int) returns (m': Machine)
    requires Placed(env.fetch, m.ip, One(Jne32(d)))
    requires Rep(env, m, st)
    ensures Goes(env, m, m', if m.zf then m.ip + 6 else m.ip + 6 + d, st)
  {
    m' := m.(ip := if m.zf then m.ip + 6 else m.ip + 6 + d);
    StepRuns(env, m, Jne32(d), m');
  }

  /** Two placed instructions run one after the other. */
  lemma RunTwo(env: Env, m: Machine, i: Instr, m1: Machine, j: Instr, m2: Machine)
    requires Placed(env.fetch, m.ip, Two(i, j))
    requires Execute(env, i, m.(ip := m.ip + Len(i))) == Running(m1)
    requires m1.ip == m.ip + Len(i)
    requires Execute(env, j, m1.(ip := m1.ip + Len(j))) == Running(m2)
    ensures Reaches(env, m, m2)
  {
    assert Two(i, j)[1..] == One(j);
    assert Placed(env.fetch, m1.ip, One(j));
    StepRuns(env, m, i, m1);
    StepRuns(env, m1, j, m2);
    ReachesTrans(env, m, m1, m2);
  }

  lemma RunDrop(env: Env, m: Machine, st: State) returns (m': Machine)
    requires Placed(env.fetch, m.ip, DropCode())
    requires Rep(env, m, st) && st.Has(1)
    ensures Goes(env, m, m', m.ip + 8, st.Drop(1))
    ensures m'.zf == m.zf
  {
    var m1 := m.(ip := m.ip + 4, rbx := Read(m.data, m.rbp));
    m' := m1.(ip := m.ip + 8, rbp := m.rbp + 8);
    RunTwo(env, m, Load(RBX, At8(RBP, 0)), m1, Lea(RBP, RBP, 8), m');
    var n := |st.stack|;
    if n > 1 {
      assert Read(m.data, env.base - 8 * ((n - 2) + 2)) == st.stack[n - 2];
    }
  }

  /** emit-dup makes room below rbx: whatever is put in rbx next is the new top. */
  lemma RunDup(env: Env, m: Machine, st: State) returns (m': Machine)
    requires Placed(env.fetch, m.ip, DupCode())
    requires Rep(env, m, st)
    ensures Reaches(env, m, m') && m'.ip == m.ip + 8
    ensures m'.rsp == m.rsp && m'.r14 == m.r14 && m'.ret == m.ret
    ensures forall v: word :: Rep(env, m'.(rbx := v), st.Push(v))
  {
    var m1 := m.(ip := m.ip + 4, data := m.data[m.rbp - 8 := m.rbx]);
    m' := m1.(ip := m.ip + 8, rbp := m.rbp - 8);
    RunTwo(env, m, Store(At8(RBP, -8), RBX), m1, Lea(RBP, RBP, -8), m');
    forall v: word
      ensures Rep(env, m'.(rbx := v), st.Push(v))
    {
      var n := |st.stack|;
      forall j | 0 <= j < n
        ensures Read(m'.data, env.base - 8 * (j + 2)) == st.Push(v).stack[j]
      {
        if j < n - 1 {
          assert env.base - 8 * (j + 2) != m.rbp - 8;
          assert Read(m.data, env.base - 8 * (j + 2)) == st.stack[j];
        }
      }
    }
  }

  lemma RunMovLiteral(env: Env, m: Machine, v: word)
    requires Placed(env.fetch, m.ip, One(MovLiteral(v)))
    ensures Reaches(env, m, m.(ip := m.ip + Len(MovLiteral(v)), rbx := v))
  {
    StepRuns(env, m, MovLiteral(v), m.(ip := m.ip + Len(MovLiteral(v)), rbx := v));
  }

  lemma RunLiteral(env: Env, m: Machine, st: State, v: word) returns (m': Machine)
    requires Placed(env.fetch, m.ip, LiteralCode(v))
    requires Rep(env, m, st)
    ensures Goes(env, m, m', m.ip + Size(LiteralCode(v)), st.Push(v))
  {
    PlacedAppend(env.fetch, m.ip, DupCode(), One(MovLiteral(v)));
    SizeAppend(DupCode(), One(MovLiteral(v)));
    var m1 := RunDup(env, m, st);
    m' := m1.(ip := m1.ip + Len(MovLiteral(v)), rbx := v);
    RunMovLiteral(env, m1, v);
    ReachesTrans(env, m, m1, m');
    assert Rep(env, m1.(rbx := v), st.Push(v));
  }

  /** flush-pending pushes the queued literals in order. */
  lemma {:induction false} RunFlush(env: Env, m: Machine, st: State, vs: seq<word>) returns (m': Machine)
    requires Placed(env.fetch, m.ip, FlushCode(vs))
    requires Rep(env, m, st)
    ensures Goes(env, m, m', m.ip + Size(FlushCode(vs)), st.(stack := st.stack + vs))
    decreases |vs|
  {
    if vs == [] {
      m' := m;
      ReachesRefl(env, m);
      assert st.stack + vs == st.stack;
    } else {
      var c, rest := LiteralCode(vs[0]), FlushCode(vs[1..]);
      PlacedAppend(env.fetch, m.ip, c, rest);
      SizeAppend(c, rest);
      var m1 := RunLiteral(env, m, st, vs[0]);
      m' := RunFlush(env, m1, st.Push(vs[0]), vs[1..]);
      assert st.stack + [vs[0]] + vs[1..] == st.stack + vs;
      GoesTrans(env, m, m1, m1.ip, st.Push(vs[0]), m', m'.ip, st.(stack := st.stack + vs));
    }
  }
}
