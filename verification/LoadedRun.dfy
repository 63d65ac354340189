/** The program of Loading, run: whatever is above the topmost nil of the stack is dropped,
    and that nil with it, by a word and a quotation that call each other. */
module LoadedRun {
  import opened Bytes
  import opened Source
  import opened StackEffects
  import opened CodeGen
  import opened Machine
  import opened Simulation
  import opened Frames
  import opened Calls
  import opened Loading

  /** The word's body takes the element on top into its local, and calls the quotation
      unless it is nil. */
  lemma BodyEffect(sem: Meaning, fuel: nat, t: seq<word>, x: word)
    ensures var o := EvalElems(HEAP, sem, fuel, BODY, State(t + [x], [Unset]));
            if x != 0 then o == CallValue(HEAP, sem, fuel, 8, State(t, [Holds(x)])) else o == Done(State(t, [Holds(x)]))
  {
    hide EvalElems, CallValue, EvalOp;
    var (none, held) := ([Unset], [Holds(x)]);
    BodyInElements();
    assert none[0 := Holds(x)] == held && t + [x] + [1] == t + [x, 1] && t + [x] + [8] == t + [x, 8];
    ElementEffect(HEAP, sem, fuel, 1, t + [x], none);
    ElementEffect(HEAP, sem, fuel, 2, t + [x, 1], none);
    LocalEffects(HEAP, sem, fuel, t, none, x, 0, 1);
    ElementEffect(HEAP, sem, fuel, 1, t, held);
    ElementEffect(HEAP, sem, fuel, 4, t + [1], held);
    LocalEffects(HEAP, sem, fuel, t, held, x, 0, 1);
    ElementEffect(HEAP, sem, fuel, 8, t + [x], held);
    ElementEffect(HEAP, sem, fuel, 6, t + [x, 8], held);
    WhenEffects(HEAP, sem, fuel, t, held, x, 8);
    var st := State(t + [x], none);
    ConcatenationComposes(HEAP, sem, fuel, [1], [2, 1, 4, 8, 6], st);
    ConcatenationComposes(HEAP, sem, fuel, [2], [1, 4, 8, 6], State(t + [x, 1], none));
    ConcatenationComposes(HEAP, sem, fuel, [1], [4, 8, 6], State(t, held));
    ConcatenationComposes(HEAP, sem, fuel, [4], [8, 6], State(t + [1], held));
    ConcatenationComposes(HEAP, sem, fuel, [8], [6], State(t + [x], held));
  }

  lemma BodyInElements()
    ensures [1] + [2, 1, 4, 8, 6] == BODY && [2] + [1, 4, 8, 6] == [2, 1, 4, 8, 6]
    ensures [1] + [4, 8, 6] == [1, 4, 8, 6] && [4] + [8, 6] == [4, 8, 6] && [8] + [6] == [8, 6]
  {
  }

  /** What the word means, for any number of elements above the topmost nil. */
  lemma {:induction false} DropsToNil(sem: Meaning, s: seq<word>, xs: seq<word>, ls: seq<Local>)
    requires sem.defs == map[0 := Definition(BODY, 1)] && 0 !in xs
    ensures EvalOp(HEAP, sem, 2 * |xs| + 1, Word(0), State(s + [0] + xs, ls)) == Done(State(s, ls))
    decreases |xs|
  {
    hide EvalElems, CallValue, EvalOp;
    var fuel := 2 * |xs|;
    assert seq(1, k => Unset) == [Unset];
    WordEffect(HEAP, sem, fuel, 0, s + [0] + xs, ls);
    if xs == [] {
      assert s + [0] + xs == s + [0];
      BodyEffect(sem, fuel, s, 0);
    } else {
      var (most, x) := (xs[..|xs| - 1], xs[|xs| - 1]);
      var t := s + [0] + most;
      assert xs == most + [x] && s + [0] + xs == t + [x];
      BodyEffect(sem, fuel, t, x);
      CallEffect(HEAP, sem, fuel - 1, 8, State(t, [Holds(x)]));
      ElementEffect(HEAP, sem, fuel - 1, 10, t, [Holds(x)]);
      DropsToNil(sem, s, most, [Holds(x)]);
    }
  }

  /** Memory with the first k elements of a stack whose bottom is at base, and with the first
      k locals from address a up. */
  function StackCells(base: int, s: seq<word>, k: nat): (mem: map<int, int>)
    requires k <= |s|
    ensures forall j :: 0 <= j < k ==> Read(mem, base - 8 * (j + 2)) == s[j]
  {
    if k == 0 then map[] else StackCells(base, s, k - 1)[base - 8 * (k + 1) := s[k - 1]]
  }

  function LocalCells(a: int, ls: seq<Local>, k: nat): (mem: map<int, int>)
    requires k <= |ls|
    ensures forall j :: 0 <= j < k && ls[j].Holds? ==> Read(mem, a + 8 * j) == ls[j].v
  {
    if k == 0 then map[]
    else LocalCells(a, ls, k - 1)[a + 8 * (k - 1) := if ls[k - 1].Holds? then ls[k - 1].v else 0]
  }

  /** Any state is represented by some machine that can return. */
  lemma SomeMachine(env: Env, st: State, ip: int) returns (m: Machine)
    ensures m.ip == ip && Rep(env, m, st) && CanReturn(m, st)
  {
    var n := |st.stack|;
    var top: int := if n > 0 then st.stack[n - 1] else 0;
    m := Machine(ip, 0, top, env.base - 8 * n, 0, 8, false, StackCells(env.base, st.stack, n),
                 LocalCells(8, st.locals, |st.locals|));
  }

  /** So it does in memory: entered with such a stack, its bytes return with what is below
      the nil, and with the caller's locals and return stack as they were. */
  lemma LoadedDropsToNil(sem: Meaning, s: seq<word>, xs: seq<word>, ls: seq<Local>, m: Machine) returns (m': Machine)
    requires sem.defs == map[0 := Definition(BODY, 1)] && sem.wildcard == 12 && 0 !in xs
    requires var st := State(s + [0] + xs, ls); m.ip == 0 && Rep(Machinery(sem), m, st) && CanReturn(m, st)
    ensures Leaves(Machinery(sem), m, m', State(s, ls))
    ensures exists n: nat :: Steps(Machinery(sem), m, n) == Running(m')
    ensures m'.ip == Read(m.ret, m.rsp) && m'.rsp == m.rsp + 8 && m'.r14 == m.r14
    ensures m'.rbp == Machinery(sem).base - 8 * |s| && (|s| > 0 ==> m'.rbx == s[|s| - 1])
    ensures forall j :: 0 <= j < |s| - 1 ==> Read(m'.data, Machinery(sem).base - 8 * (j + 2)) == s[j]
    ensures forall j :: 0 <= j < |ls| && ls[j].Holds? ==> Read(m'.ret, m.r14 + 8 * j) == ls[j].v
    ensures forall a :: m.rsp <= a && !(m.r14 <= a < m.r14 + 8 * |ls|) ==> Read(m'.ret, a) == Read(m.ret, a)
  {
    m' := LoadedReturns(sem, s, xs, ls, m);
    hide *;
    ReturnSpelledOut(Machinery(sem), m, m', s, ls);
  }

  /** What returning with a state represented comes to, register by register. */
  lemma ReturnSpelledOut(env: Env, m: Machine, m': Machine, s: seq<word>, ls: seq<Local>)
    requires Leaves(env, m, m', State(s, ls))
    ensures exists n: nat :: Steps(env, m, n) == Running(m')
    ensures m'.ip == Read(m.ret, m.rsp) && m'.rsp == m.rsp + 8 && m'.r14 == m.r14
    ensures m'.rbp == env.base - 8 * |s| && (|s| > 0 ==> m'.rbx == s[|s| - 1])
    ensures forall j :: 0 <= j < |s| - 1 ==> Read(m'.data, env.base - 8 * (j + 2)) == s[j]
    ensures forall j :: 0 <= j < |ls| && ls[j].Holds? ==> Read(m'.ret, m.r14 + 8 * j) == ls[j].v
    ensures forall a :: m.rsp <= a && !(m.r14 <= a < m.r14 + 8 * |ls|) ==> Read(m'.ret, a) == Read(m.ret, a)
  {
    hide Steps, Read;
  }

  lemma LoadedReturns(sem: Meaning, s: seq<word>, xs: seq<word>, ls: seq<Local>, m: Machine) returns (m': Machine)
    requires sem.defs == map[0 := Definition(BODY, 1)] && sem.wildcard == 12 && 0 !in xs
    requires var st := State(s + [0] + xs, ls); m.ip == 0 && Rep(Machinery(sem), m, st) && CanReturn(m, st)
    ensures Leaves(Machinery(sem), m, m', State(s, ls))
  {
    hide Rep, CanReturn, Leaves, EvalOp, CodeInMemory, Memory, Blocks;
    ProgramInMemory(sem);
    DropsToNil(sem, s, xs, ls);
    m' := CompiledWordCorrect(Machinery(sem), Memory(Blocks()), 2 * |xs| + 1, 0, m, State(s + [0] + xs, ls));
  }
}
