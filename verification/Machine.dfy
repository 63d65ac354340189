/** A machine that runs the emitted bytes: the registers and stacks the compiled code
    uses, fetching every instruction from code memory. */
module Machine {
  import opened Bytes
  import opened X86
  import opened Source
  import opened CodeGen

  /** The data stack is addressed through rbp and the return stack through rsp and r14;
      they are separate areas of memory. */
  datatype Machine = Machine(
    ip: int, rax: int, rbx: int, rbp: int, rsp: int, r14: int, zf: bool,
    data: map<int, int>, ret: map<int, int>)

  /** Everything the run depends on and does not change: fetch tells the instruction at
      each address. Words that are not compiled here run as one step, exec, starting
      right after the call that reaches them; base is the address of the bottom of the
      data stack. */
  datatype Env = Env(
    p: Program,
    sem: Meaning,
    fetch: int -> Fetched,
    base: int,
    opAt: map<int, Op>,
    exec: (Op, Machine) -> Machine)

  function Read(mem: map<int, int>, a: int): int { if a in mem then mem[a] else 0 }

  /** The instructions xs are what is fetched from address a on. */
  ghost predicate Placed(fetch: int -> Fetched, a: int, xs: seq<Instr>)
    decreases |xs|
  {
    xs == [] || (fetch(a) == Known(xs[0]) && Placed(fetch, a + Len(xs[0]), xs[1..]))
  }

  // ---- execution ----

  datatype Next = Stuck | Running(m: Machine)

  predicate Known64(r: reg) { r == RAX || r == RBX || r == RBP || r == RSP || r == R14 }

  function Get(m: Machine, r: reg): int
    requires Known64(r)
  {
    if r == RAX then m.rax
    else if r == RBX then m.rbx
    else if r == RBP then m.rbp
    else if r == RSP then m.rsp
    else m.r14
  }

  function Set(m: Machine, r: reg, v: int): Machine
    requires Known64(r)
  {
    if r == RAX then m.(rax := v)
    else if r == RBX then m.(rbx := v)
    else if r == RBP then m.(rbp := v)
    else if r == RSP then m.(rsp := v)
    else m.(r14 := v)
  }

  /** One instruction; m.ip is already past it. */
  function Execute(env: Env, i: Instr, m: Machine): Next {
    match i
    case Push(r) =>
      if !Known64(r) then Stuck
      else Running(m.(rsp := m.rsp - 8, ret := m.ret[m.rsp - 8 := Get(m, r)]))
    case Pop(r) =>
      if !Known64(r) then Stuck
      else Running(Set(m.(rsp := m.rsp + 8), r, Read(m.ret, m.rsp)))
    case MovImm32(r, imm) => if !Known64(r) then Stuck else Running(Set(m, r, imm))
    case MovImm64(r, imm) => if !Known64(r) then Stuck else Running(Set(m, r, imm))
    case Load(r, a) =>
      if !Known64(r) then Stuck
      else if a.base == RBP then Running(Set(m, r, Read(m.data, m.rbp + Disp(a))))
      else if a.base == R14 then Running(Set(m, r, Read(m.ret, m.r14 + Disp(a))))
      else Stuck
    case Store(a, r) =>
      if !Known64(r) then Stuck
      else if a.base == RBP then Running(m.(data := m.data[m.rbp + Disp(a) := Get(m, r)]))
      else if a.base == R14 then Running(m.(ret := m.ret[m.r14 + Disp(a) := Get(m, r)]))
      else Stuck
    case MovReg(dst, src) =>
      if !Known64(dst) || !Known64(src) then Stuck else Running(Set(m, dst, Get(m, src)))
    case Lea(r, b, d) =>
      if !Known64(r) || !Known64(b) then Stuck else Running(Set(m, r, Get(m, b) + d))
    case AluImm8(op, r, imm) => ExecuteAlu(op, r, imm, m)
    case AluImm32(op, r, imm) => ExecuteAlu(op, r, imm, m)
    case Jz8(d) => Running(if m.zf then m.(ip := m.ip + d) else m)
    case Jne8(d) => Running(if m.zf then m else m.(ip := m.ip + d))
    case Jmp8(d) => Running(m.(ip := m.ip + d))
    case Jne32(d) => Running(if m.zf then m else m.(ip := m.ip + d))
    case Jmp32(d) => Running(m.(ip := m.ip + d))
    case Call32(d) =>
      if m.ip + d in env.opAt then Running(env.exec(env.opAt[m.ip + d], m))
      else Running(m.(rsp := m.rsp - 8, ret := m.ret[m.rsp - 8 := m.ip], ip := m.ip + d))
    case Ret => Running(m.(ip := Read(m.ret, m.rsp), rsp := m.rsp + 8))
  }

  function ExecuteAlu(op: ext, r: reg, imm: int, m: Machine): Next {
    if !Known64(r) then Stuck
    else if op == CMP then Running(m.(zf := Get(m, r) == imm))
    else if op == ADD then Running(Set(m, r, Get(m, r) + imm).(zf := Get(m, r) + imm == 0))
    else if op == SUB then Running(Set(m, r, Get(m, r) - imm).(zf := Get(m, r) == imm))
    else Stuck
  }

  function Step(env: Env, m: Machine): Next {
    var f := env.fetch(m.ip);
    if f.Unknown? then Stuck else Execute(env, f.i, m.(ip := m.ip + Len(f.i)))
  }

  function Steps(env: Env, m: Machine, n: nat): Next
    decreases n
  {
    if n == 0 then Running(m)
    else
      var next := Step(env, m);
      if next.Stuck? then Stuck else Steps(env, next.m, n - 1)
  }

  ghost predicate Reaches(env: Env, m: Machine, m': Machine) {
    exists n: nat :: Steps(env, m, n) == Running(m')
  }

  lemma {:induction false} StepsAdd(env: Env, m: Machine, n: nat, m': Machine, k: nat)
    requires Steps(env, m, n) == Running(m')
    ensures Steps(env, m, n + k) == Steps(env, m', k)
    decreases n
  {
    if n > 0 {
      StepsAdd(env, Step(env, m).m, n - 1, m', k);
    }
  }

  lemma ReachesTrans(env: Env, m: Machine, m': Machine, m'': Machine)
    requires Reaches(env, m, m') && Reaches(env, m', m'')
    ensures Reaches(env, m, m'')
  {
    var n: nat :| Steps(env, m, n) == Running(m');
    var k: nat :| Steps(env, m', k) == Running(m'');
    StepsAdd(env, m, n, m', k);
  }

  lemma ReachesRefl(env: Env, m: Machine)
    ensures Reaches(env, m, m)
  {
    assert Steps(env, m, 0) == Running(m);
  }

  /** The instruction placed at ip is the one that runs. */
  lemma StepRuns(env: Env, m: Machine, i: Instr, m': Machine)
    requires env.fetch(m.ip) == Known(i)
    requires Execute(env, i, m.(ip := m.ip + Len(i))) == Running(m')
    ensures Reaches(env, m, m')
  {
    assert Step(env, m) == Running(m');
    assert Steps(env, m', 0) == Running(m');
    assert Steps(env, m, 1) == Running(m');
  }

  // ---- placement ----

  lemma {:induction false} PlacedAppend(fetch: int -> Fetched, a: int, xs: seq<Instr>, ys: seq<Instr>)
    ensures Placed(fetch, a, xs + ys) <==> Placed(fetch, a, xs) && Placed(fetch, a + Size(xs), ys)
    ensures Size(xs + ys) == Size(xs) + Size(ys)
    decreases |xs|
  {
    if xs == [] {
      assert xs + ys == ys;
    } else {
      assert (xs + ys)[1..] == xs[1..] + ys;
      PlacedAppend(fetch, a + Len(xs[0]), xs[1..], ys);
    }
  }

  /** The machine fetches its instructions from the bytes in code memory. */
  ghost predicate FetchesFrom(fetch: int -> Fetched, code: int -> byte) {
    forall a: int :: fetch(a) == Fetch(Window(code, a))
  }

  ghost predicate Loaded(code: int -> byte, a: int, b: seq<byte>) {
    forall k :: 0 <= k < |b| ==> code(a + k) == b[k]
  }

  /** Bytes that are the assembly of a listing are fetched as its instructions. */
  lemma {:induction false} LoadedPlaces(fetch: int -> Fetched, code: int -> byte, a: int, xs: seq<Instr>)
    requires FetchesFrom(fetch, code)
    requires AllEncodable(xs)
    requires Loaded(code, a, Asm(xs))
    ensures Placed(fetch, a, xs)
    decreases |xs|
  {
    if xs != [] {
      LenEncode(xs[0]);
      LoadedSplit(code, a, Encode(xs[0]), Asm(xs[1..]));
      LoadedHead(code, a, xs[0]);
      LoadedPlaces(fetch, code, a + Len(xs[0]), xs[1..]);
    }
  }

  lemma LoadedSplit(code: int -> byte, a: int, b: seq<byte>, c: seq<byte>)
    requires Loaded(code, a, b + c)
    ensures Loaded(code, a, b) && Loaded(code, a + |b|, c)
  {
    forall k | 0 <= k < |b|
      ensures code(a + k) == b[k]
    {
      assert (b + c)[k] == b[k];
    }
    forall k | 0 <= k < |c|
      ensures code(a + |b| + k) == c[k]
    {
      assert (b + c)[|b| + k] == c[k];
      assert code(a + (|b| + k)) == c[k];
    }
  }

  lemma LoadedHead(code: int -> byte, a: int, i: Instr)
    requires Encodable(i) && Loaded(code, a, Encode(i))
    ensures Fetch(Window(code, a)) == Known(i)
  {
    LenEncode(i);
    var e := Encode(i);
    forall k | 0 <= k < |e|
      ensures e[k] == Window(code, a)[k]
    {
      assert code(a + k) == e[k];
    }
    FetchEncoded(i, Window(code, a));
  }
}
