/** Listings read as assembly text: what a reader of a line would have the machine do is what
    the machine does at the instruction that the line was made from. */
module Listings {
  import opened Bytes
  import opened X86
  import opened Machine
  import opened Disassembler

  // ---- the reader: mnemonics and operands, and nothing of the instruction ----

  /** Registers are named by number: 0 rax, 3 rbx, 4 rsp, 5 rbp, 14 r14. */
  predicate Named(n: int) { n == 0 || n == 3 || n == 4 || n == 5 || n == 14 }

  function Held(m: Machine, n: int): int
    requires Named(n)
  {
    if n == 0 then m.rax else if n == 3 then m.rbx else if n == 4 then m.rsp else if n == 5 then m.rbp else m.r14
  }

  function Holding(m: Machine, n: int, v: int): Machine
    requires Named(n)
  {
    if n == 0 then m.(rax := v)
    else if n == 3 then m.(rbx := v)
    else if n == 4 then m.(rsp := v)
    else if n == 5 then m.(rbp := v)
    else m.(r14 := v)
  }

  /** A memory operand off rbp is on the data stack, one off r14 among the locals. */
  predicate IsCell(o: Operand) { o.Relative? && (o.base == 5 || o.base == 14) }

  function Content(m: Machine, o: Operand): int
    requires IsCell(o)
  {
    if o.base == 5 then Read(m.data, m.rbp + o.disp) else Read(m.ret, m.r14 + o.disp)
  }

  function Storing(m: Machine, o: Operand, v: int): Machine
    requires IsCell(o)
  {
    if o.base == 5 then m.(data := m.data[m.rbp + o.disp := v]) else m.(ret := m.ret[m.r14 + o.disp := v])
  }

  function ReadMov(m: Machine, to: Operand, from: Operand): Next {
    if to.Register? && Named(to.n) then
      if from.Immediate? then Running(Holding(m, to.n, from.value))
      else if from.Register? && Named(from.n) then Running(Holding(m, to.n, Held(m, from.n)))
      else if IsCell(from) then Running(Holding(m, to.n, Content(m, from)))
      else Stuck
    else if IsCell(to) && from.Register? && Named(from.n) then Running(Storing(m, to, Held(m, from.n)))
    else Stuck
  }

  function ReadLea(m: Machine, to: Operand, from: Operand): Next {
    if to.Register? && Named(to.n) && from.Relative? && Named(from.base)
    then Running(Holding(m, to.n, Held(m, from.base) + from.disp)) else Stuck
  }

  /** add, sub and cmp of a register and an immediate; the flag tells whether the result is zero. */
  function ReadAlu(mnemonic: string, m: Machine, to: Operand, from: Operand): Next {
    if !to.Register? || !Named(to.n) || !from.Immediate? then Stuck
    else
      var (v, w) := (Held(m, to.n), from.value);
      if mnemonic == "cmp" then Running(m.(zf := v - w == 0))
      else if mnemonic == "add" then Running(Holding(m, to.n, v + w).(zf := v + w == 0))
      else if mnemonic == "sub" then Running(Holding(m, to.n, v - w).(zf := v - w == 0))
      else Stuck
  }

  function ReadPush(m: Machine, o: Operand): Next {
    if o.Register? && Named(o.n)
    then Running(m.(rsp := m.rsp - 8, ret := m.ret[m.rsp - 8 := Held(m, o.n)])) else Stuck
  }

  function ReadPop(m: Machine, o: Operand): Next {
    if o.Register? && Named(o.n)
    then Running(Holding(m.(rsp := m.rsp + 8), o.n, Read(m.ret, m.rsp))) else Stuck
  }

  function ReadJump(mnemonic: string, m: Machine, o: Operand): Next {
    if !o.Target? then Stuck
    else if mnemonic == "jmp" || (mnemonic == "jz" && m.zf) || (mnemonic == "jne" && !m.zf)
    then Running(m.(ip := o.a)) else Running(m)
  }

  function ReadCall(env: Env, m: Machine, o: Operand): Next {
    if !o.Target? then Stuck
    else if o.a in env.opAt then Running(env.exec(env.opAt[o.a], m))
    else Running(m.(rsp := m.rsp - 8, ret := m.ret[m.rsp - 8 := m.ip], ip := o.a))
  }

  /** What the line says, on a machine whose ip is at the line after it. */
  function ReadLine(env: Env, line: Shown, m: Machine): Next {
    if line.mnemonic == "mov" then ReadMov(m, line.dest, line.source)
    else if line.mnemonic == "lea" then ReadLea(m, line.dest, line.source)
    else if line.mnemonic in ["add", "sub", "cmp"] then ReadAlu(line.mnemonic, m, line.dest, line.source)
    else if line.mnemonic == "push" then ReadPush(m, line.dest)
    else if line.mnemonic == "pop" then ReadPop(m, line.dest)
    else if line.mnemonic in ["jz", "jne", "jmp"] then ReadJump(line.mnemonic, m, line.dest)
    else if line.mnemonic == "call" then ReadCall(env, m, line.dest)
    else if line.mnemonic == "ret" then Running(m.(ip := Read(m.ret, m.rsp), rsp := m.rsp + 8))
    else Stuck
  }

  // ---- the reader is right ----

  /** The operations of the immediate group, by number. */
  lemma AluNames(op: ext, r: reg, imm: int, next: int)
    ensures var name := if op == 0 then "add" else if op == 1 then "or" else if op == 2 then "adc"
                        else if op == 3 then "sbb" else if op == 4 then "and" else if op == 5 then "sub"
                        else if op == 6 then "xor" else "cmp";
            Meaning(AluImm8(op, r, imm), next).mnemonic == name && Meaning(AluImm32(op, r, imm), next).mnemonic == name
  {
  }

  /** Each mnemonic is read in its own way. */
  lemma ReadsByMnemonic(env: Env, m: Machine, a: Operand, b: Operand)
    ensures ReadLine(env, Shown("mov", a, b), m) == ReadMov(m, a, b)
    ensures ReadLine(env, Shown("lea", a, b), m) == ReadLea(m, a, b)
    ensures ReadLine(env, Shown("push", a, b), m) == ReadPush(m, a)
    ensures ReadLine(env, Shown("pop", a, b), m) == ReadPop(m, a)
    ensures ReadLine(env, Shown("call", a, b), m) == ReadCall(env, m, a)
    ensures forall s :: s in ["jz", "jne", "jmp"] ==> ReadLine(env, Shown(s, a, b), m) == ReadJump(s, m, a)
  {
    hide ReadMov, ReadLea, ReadPush, ReadPop, ReadCall, ReadJump, ReadAlu;
  }

  lemma ReadsAlu(env: Env, m: Machine, s: string, a: Operand, b: Operand)
    ensures s in ["add", "sub", "cmp"] ==> ReadLine(env, Shown(s, a, b), m) == ReadAlu(s, m, a, b)
    ensures s in ["or", "adc", "sbb", "and", "xor"] ==> ReadLine(env, Shown(s, a, b), m) == Stuck
  {
    hide ReadMov, ReadLea, ReadPush, ReadPop, ReadCall, ReadJump, ReadAlu;
  }

  lemma Registers(m: Machine, r: reg, v: int)
    ensures Known64(r) <==> Named(r)
    ensures Named(r) ==> Get(m, r) == Held(m, r) && Set(m, r, v) == Holding(m, r, v)
  {
  }

  lemma AluReads(env: Env, op: ext, r: reg, imm: int, m: Machine, i: Instr)
    requires i == AluImm8(op, r, imm) || i == AluImm32(op, r, imm)
    ensures ReadLine(env, Meaning(i, m.ip), m) == ExecuteAlu(op, r, imm, m)
  {
    AluNames(op, r, imm, m.ip);
    var name := Meaning(i, m.ip).mnemonic;
    var (a, b) := (Register(r, 64), Immediate(imm));
    assert Meaning(i, m.ip) == Shown(name, a, b);
    ReadsAlu(env, m, name, a, b);
    hide AluName, Meaning, ReadLine, ReadAlu, ExecuteAlu;
    if op == ADD || op == SUB || op == CMP {
      AluIs(op, r, imm, m);
    } else {
      NoAlu(op, r, imm, m);
    }
  }

  lemma NoAlu(op: ext, r: reg, imm: int, m: Machine)
    requires op != ADD && op != SUB && op != CMP
    ensures ExecuteAlu(op, r, imm, m) == Stuck
  {
  }

  lemma AluIs(op: ext, r: reg, imm: int, m: Machine)
    requires op == ADD || op == SUB || op == CMP
    ensures ExecuteAlu(op, r, imm, m) ==
            ReadAlu(if op == ADD then "add" else if op == SUB then "sub" else "cmp", m, Register(r, 64), Immediate(imm))
  {
    Registers(m, r, 0);
    hide Known64, Named, Get, Set, Held, Holding;
    if Named(r) {
      Registers(m, r, Held(m, r) + imm);
      Registers(m, r, Held(m, r) - imm);
    }
  }

  lemma MovReads(env: Env, i: Instr, m: Machine)
    requires i.MovImm32? || i.MovImm64? || i.MovReg? || i.Load? || i.Store?
    ensures ReadLine(env, Meaning(i, m.ip), m) == Execute(env, i, m)
  {
    var shown := Meaning(i, m.ip);
    ReadsByMnemonic(env, m, shown.dest, shown.source);
    hide ReadLine;
  }

  lemma PushReads(env: Env, r: reg, m: Machine)
    ensures ReadLine(env, Meaning(Push(r), m.ip), m) == Execute(env, Push(r), m)
  {
    ReadsByMnemonic(env, m, Register(r, 64), NoOperand);
    Registers(m, r, 0);
    hide ReadLine, Known64, Named, Get, Held;
  }

  lemma PopReads(env: Env, r: reg, m: Machine)
    ensures ReadLine(env, Meaning(Pop(r), m.ip), m) == Execute(env, Pop(r), m)
  {
    ReadsByMnemonic(env, m, Register(r, 64), NoOperand);
    Registers(m.(rsp := m.rsp + 8), r, Read(m.ret, m.rsp));
    hide ReadLine, Known64, Named, Set, Holding, Read;
  }

  lemma LeaIs(r: reg, base: reg, d: int, m: Machine)
    ensures ReadLea(m, Register(r, 64), Relative(base, Nil, 0, d, 64)) ==
            if !Known64(r) || !Known64(base) then Stuck else Running(Set(m, r, Get(m, base) + d))
  {
    Registers(m, base, 0);
    if Known64(base) { Registers(m, r, Get(m, base) + d); } else { Registers(m, r, 0); }
    hide Known64, Named, Get, Set, Held, Holding;
  }

  lemma LeaReads(env: Env, r: reg, base: reg, d: int, m: Machine)
    ensures ReadLine(env, Meaning(Lea(r, base, d), m.ip), m) == Execute(env, Lea(r, base, d), m)
  {
    ReadsByMnemonic(env, m, Register(r, 64), Relative(base, Nil, 0, d, 64));
    hide ReadLine;
    LeaIs(r, base, d, m);
    hide Set, Get, Held, Holding, Known64, Named, ReadLea;
  }

  lemma RetReads(env: Env, m: Machine)
    ensures ReadLine(env, Meaning(Ret, m.ip), m) == Execute(env, Ret, m)
  {
  }

  lemma JumpReads(env: Env, i: Instr, m: Machine)
    requires i.Jz8? || i.Jne8? || i.Jmp8? || i.Jne32? || i.Jmp32? || i.Call32?
    ensures ReadLine(env, Meaning(i, m.ip), m) == Execute(env, i, m)
  {
    var shown := Meaning(i, m.ip);
    ReadsByMnemonic(env, m, shown.dest, shown.source);
    hide ReadLine;
  }

  /** Whatever the instruction, reading its line does what executing it does. */
  lemma LineExecutes(env: Env, i: Instr, m: Machine)
    ensures ReadLine(env, Meaning(i, m.ip), m) == Execute(env, i, m)
  {
    hide ReadLine, Meaning;
    match i {
      case AluImm8(op, r, imm) => AluReads(env, op, r, imm, m, i);
      case AluImm32(op, r, imm) => AluReads(env, op, r, imm, m, i);
      case Push(r) => PushReads(env, r, m);
      case Pop(r) => PopReads(env, r, m);
      case Lea(r, base, d) => LeaReads(env, r, base, d, m);
      case Ret => RetReads(env, m);
      case MovImm32(_, _) => MovReads(env, i, m);
      case MovImm64(_, _) => MovReads(env, i, m);
      case MovReg(_, _) => MovReads(env, i, m);
      case Load(_, _) => MovReads(env, i, m);
      case Store(_, _) => MovReads(env, i, m);
      case _ => JumpReads(env, i, m);
    }
  }

  /** Where the line after line k starts: the next one, or the end of the listing. */
  function NextStart(xs: seq<Instr>, a: int, k: nat): int {
    var lines := Lines(xs, a);
    if k + 1 < |lines| then lines[k + 1].start else a + Size(xs)
  }

  /** Where the machine stands at the start of a listed line, its next step is what the line
      says, from the start of the line after it. */
  lemma {:induction false} ListingExecutes(env: Env, xs: seq<Instr>, a: int, k: nat, m: Machine)
    requires Placed(env.fetch, a, xs) && k < |Lines(xs, a)| && m.ip == Lines(xs, a)[k].start
    ensures Step(env, m) == ReadLine(env, Lines(xs, a)[k].shown, m.(ip := NextStart(xs, a, k)))
    decreases k
  {
    hide Meaning, Execute, ReadLine, Len;
    var (rest, b) := (xs[1..], a + Len(xs[0]));
    assert Lines(xs, a) == [Line(a, Meaning(xs[0], b))] + Lines(rest, b);
    if k == 0 {
      NextOfFirst(xs, a);
      LineExecutes(env, xs[0], m.(ip := b));
    } else {
      assert Lines(xs, a)[k] == Lines(rest, b)[k - 1];
      ListingExecutes(env, rest, b, k - 1, m);
    }
  }

  lemma NextOfFirst(xs: seq<Instr>, a: int)
    requires xs != []
    ensures NextStart(xs, a, 0) == a + Len(xs[0])
  {
    hide Meaning, Len;
    var rest := xs[1..];
    assert Lines(xs, a)[1..] == Lines(rest, a + Len(xs[0]));
    if rest == [] {
      assert Size(xs) == Len(xs[0]) + Size(rest);
    }
  }
}
