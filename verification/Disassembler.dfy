/** The disassembler: decode and the handlers of the opcodes that the compiler emits. It is
    an independent reader of REX prefixes, ModRM bytes and SIB bytes; what it recovers is
    compared with what was encoded. */
module Disassembler {
  import opened Bytes
  import opened X86

  // ---- what a line of the disassembly says ----

  datatype Slot = Nil | Is(n: int)

  datatype Operand =
    | NoOperand
    | Register(n: int, size: int)
    | Relative(base: int, index: Slot, scale: int, disp: int, size: int)
    | Absolute(disp: int, size: int)
    | Immediate(value: int)
    | Target(a: int)

  datatype Shown = Shown(mnemonic: string, dest: Operand, source: Operand)

  function AluName(op: ext): string {
    ["add", "or", "adc", "sbb", "and", "sub", "xor", "cmp"][op]
  }

  function MemOperand(m: Mem): Operand { Relative(m.base, Nil, 0, Disp(m), 64) }

  /** The operation and operands of an instruction that ends at next. */
  function Meaning(i: Instr, next: int): Shown {
    match i
    case Push(r) => Shown("push", Register(r, 64), NoOperand)
    case Pop(r) => Shown("pop", Register(r, 64), NoOperand)
    case MovImm32(r, imm) => Shown("mov", Register(r, 32), Immediate(imm))
    case MovImm64(r, imm) => Shown("mov", Register(r, 64), Immediate(imm))
    case Load(r, m) => Shown("mov", Register(r, 64), MemOperand(m))
    case Store(m, r) => Shown("mov", MemOperand(m), Register(r, 64))
    case MovReg(dst, src) => Shown("mov", Register(dst, 64), Register(src, 64))
    case Lea(r, base, d) => Shown("lea", Register(r, 64), Relative(base, Nil, 0, d, 64))
    case AluImm8(op, r, imm) => Shown(AluName(op), Register(r, 64), Immediate(imm))
    case AluImm32(op, r, imm) => Shown(AluName(op), Register(r, 64), Immediate(imm))
    case Jz8(d) => Shown("jz", Target(next + d), NoOperand)
    case Jne8(d) => Shown("jne", Target(next + d), NoOperand)
    case Jmp8(d) => Shown("jmp", Target(next + d), NoOperand)
    case Jne32(d) => Shown("jne", Target(next + d), NoOperand)
    case Jmp32(d) => Shown("jmp", Target(next + d), NoOperand)
    case Call32(d) => Shown("call", Target(next + d), NoOperand)
    case Ret => Shown("ret", NoOperand, NoOperand)
  }

  datatype Line = Line(start: int, shown: Shown)

  function Lines(xs: seq<Instr>, a: int): seq<Line>
    decreases |xs|
  {
    if xs == [] then []
    else [Line(a, Meaning(xs[0], a + Len(xs[0])))] + Lines(xs[1..], a + Len(xs[0]))
  }

  // ---- what encoding puts in memory ----

  function Signed32At(mem: int -> byte, a: int): int {
    Signed32(mem(a), mem(a + 1), mem(a + 2), mem(a + 3))
  }

  function Unsigned32At(mem: int -> byte, a: int): int {
    Unsigned32(mem(a), mem(a + 1), mem(a + 2), mem(a + 3))
  }

  // The fields of a ModRM byte, and of a SIB byte.
  function High(b: byte): int { b / 0x40 }

  function Middle(b: byte): ext { b / 8 % 8 }

  function Lowest(b: byte): int { b % 8 }

  ghost predicate EncodedAt(mem: int -> byte, a: int, i: Instr) {
    Encodable(i) && Encode(i) <= Window(mem, a)
  }

  /** The first three bytes of a REX-prefixed instruction with a ModRM byte. */
  ghost predicate Form(mem: int -> byte, a: int, op: byte, r: reg, rm: reg, mode: int) {
    && mem(a) == RexW(r, rm)
    && mem(a + 1) == op
    && High(mem(a + 2)) == mode
    && Middle(mem(a + 2)) == Low(r)
    && Lowest(mem(a + 2)) == Low(rm)
  }

  /** The ModRM byte and displacement at a + 2 spell the memory operand. */
  ghost predicate MemForm(mem: int -> byte, a: int, op: byte, r: reg, m: Mem) {
    match m
    case At(b) => Form(mem, a, op, r, b, 0)
    case At8(b, d) => Form(mem, a, op, r, b, 1) && Signed8(mem(a + 3)) == d
    case At32(b, d) => Form(mem, a, op, r, b, 2) && Signed32At(mem, a + 3) == d
  }

  lemma WindowBytes(mem: int -> byte, a: int, e: seq<byte>)
    requires e <= Window(mem, a)
    ensures |e| > 0 ==> mem(a) == e[0]
    ensures |e| > 1 ==> mem(a + 1) == e[1]
    ensures |e| > 2 ==> mem(a + 2) == e[2]
    ensures |e| > 3 ==> mem(a + 3) == e[3]
  {
    var f := Window(mem, a);
    assert |e| > 0 ==> f[0] == e[0];
    assert |e| > 1 ==> f[1] == e[1];
    assert |e| > 2 ==> f[2] == e[2];
    assert |e| > 3 ==> f[3] == e[3];
  }

  lemma WindowInt32(mem: int -> byte, a: int, e: seq<byte>, k: nat, x: int)
    requires e <= Window(mem, a)
    requires k + 4 <= |e| && e[k..k + 4] == Le32(x)
    ensures IsInt32(x) ==> Signed32At(mem, a + k) == x
    ensures IsUint32(x) ==> Unsigned32At(mem, a + k) == x
  {
    var f := Window(mem, a);
    assert f[k..k + 4] == e[k..k + 4];
    In32(x, f, k);
  }

  lemma Digits(mode: int, x: ext, y: ext)
    requires 0 <= mode < 4
    ensures var b := mode * 0x40 + x * 8 + y; b / 0x40 == mode && b / 8 == mode * 8 + x && b % 8 == y
  {
    var q := mode * 8 + x;
    assert q * 8 <= q * 8 + y < q * 8 + 8;
  }

  lemma ModRMFields(mode: int, r: reg, rm: reg)
    requires 0 <= mode < 4
    ensures var b := ModRM(mode, r, rm); High(b) == mode && Middle(b) == Low(r) && Lowest(b) == Low(rm)
  {
    hide Low;
    Digits(mode, Low(r), Low(rm));
    var q := mode * 8 + Low(r);
    assert q % 8 == Low(r);
  }

  lemma OperandBytes(mem: int -> byte, a: int, op: byte, r: reg, m: Mem)
    requires EncodableMem(m)
    requires [RexW(r, m.base), op] + ModRMMem(r, m) <= Window(mem, a)
    ensures MemForm(mem, a, op, r, m)
  {
    hide Signed32At, Le32, Signed8, High, Middle, Lowest, ModRM, RexW;
    ModRMFields(if m.At? then 0 else if m.At8? then 1 else 2, r, m.base);
    var e := [RexW(r, m.base), op] + ModRMMem(r, m);
    WindowBytes(mem, a, e);
    assert e[2] == ModRMMem(r, m)[0];
    match m {
      case At(_) =>
      case At8(_, d) =>
        assert e[3] == ModRMMem(r, m)[1] == Le8(d)[0];
        Signed8Inverts(d);
      case At32(_, d) =>
        assert e[3..3 + 4] == ModRMMem(r, m)[1..] == Le32(d);
        WindowInt32(mem, a, e, 3, d);
    }
  }

  lemma DirectBytes(mem: int -> byte, a: int, op: byte, r: reg, rm: reg, rest: seq<byte>)
    requires [RexW(r, rm), op, ModRM(3, r, rm)] + rest <= Window(mem, a)
    ensures Form(mem, a, op, r, rm, 3)
  {
    ModRMFields(3, r, rm);
    hide High, Middle, Lowest, ModRM, RexW, Low;
    var e := [RexW(r, rm), op, ModRM(3, r, rm)] + rest;
    WindowBytes(mem, a, e);
    assert e[0] == RexW(r, rm) && e[1] == op && e[2] == ModRM(3, r, rm);
  }

  /** What decode relies on finding in memory, instruction by instruction. */
  ghost predicate Found(mem: int -> byte, a: int, i: Instr) {
    match i
    case Push(r) => if r < 8 then mem(a) == 0x50 + r else mem(a) == 0x41 && mem(a + 1) == 0x50 + r - 8
    case Pop(r) => if r < 8 then mem(a) == 0x58 + r else mem(a) == 0x41 && mem(a + 1) == 0x58 + r - 8
    case MovImm32(r, imm) => r < 8 && mem(a) == 0xb8 + r && Unsigned32At(mem, a + 1) == imm
    case MovImm64(r, imm) =>
      && mem(a) == RexW(0, r) && mem(a + 1) == 0xb8 + Low(r)
      && Unsigned32At(mem, a + 2) + TWO_32 * Unsigned32At(mem, a + 6) == imm
    case Load(r, m) => EncodableMem(m) && MemForm(mem, a, 0x8b, r, m)
    case Store(m, r) => EncodableMem(m) && MemForm(mem, a, 0x89, r, m)
    case MovReg(dst, src) => Form(mem, a, 0x89, src, dst, 3)
    case Lea(r, base, d) => EncodableMem(At8(base, d)) && MemForm(mem, a, 0x8d, r, At8(base, d))
    case AluImm8(op, r, imm) => Form(mem, a, 0x83, op, r, 3) && Signed8(mem(a + 3)) == imm
    case AluImm32(op, r, imm) => Form(mem, a, 0x81, op, r, 3) && Signed32At(mem, a + 3) == imm
    case Jz8(d) => mem(a) == 0x74 && Signed8(mem(a + 1)) == d
    case Jne8(d) => mem(a) == 0x75 && Signed8(mem(a + 1)) == d
    case Jmp8(d) => mem(a) == 0xeb && Signed8(mem(a + 1)) == d
    case Jne32(d) => mem(a) == 0x0f && mem(a + 1) == 0x85 && Signed32At(mem, a + 2) == d
    case Jmp32(d) => mem(a) == 0xe9 && Signed32At(mem, a + 1) == d
    case Call32(d) => mem(a) == 0xe8 && Signed32At(mem, a + 1) == d
    case Ret => mem(a) == 0xc3
  }

  lemma EncodedIsFound(mem: int -> byte, a: int, i: Instr)
    requires EncodedAt(mem, a, i)
    ensures Found(mem, a, i)
  {
    hide Signed32At, Unsigned32At, MemForm, Form, EncodableMem, Le32;
    var e := Encode(i);
    match i {
      case Load(r, m) => OperandBytes(mem, a, 0x8b, r, m);
      case Store(m, r) => OperandBytes(mem, a, 0x89, r, m);
      case Lea(r, b, d) => OperandBytes(mem, a, 0x8d, r, At8(b, d));
      case MovReg(dst, src) => DirectBytes(mem, a, 0x89, src, dst, []);
      case AluImm8(op, r, imm) =>
        DirectBytes(mem, a, 0x83, op, r, Le8(imm));
        WindowBytes(mem, a, e);
        Signed8Inverts(imm);
      case AluImm32(op, r, imm) =>
        DirectBytes(mem, a, 0x81, op, r, Le32(imm));
        assert e[3..3 + 4] == Le32(imm);
        WindowInt32(mem, a, e, 3, imm);
      case MovImm32(r, imm) =>
        WindowBytes(mem, a, e);
        assert e[1..1 + 4] == Le32(imm);
        WindowInt32(mem, a, e, 1, imm);
      case MovImm64(r, imm) =>
        FoundImm64(mem, a, r, imm);
      case _ =>
        FoundShort(mem, a, i);
    }
  }

  lemma FoundImm64(mem: int -> byte, a: int, r: reg, imm: int)
    requires EncodedAt(mem, a, MovImm64(r, imm))
    ensures Found(mem, a, MovImm64(r, imm))
  {
    hide Le32;
    var e := Encode(MovImm64(r, imm));
    WindowBytes(mem, a, e);
    var f := Window(mem, a);
    assert f[2..2 + 8] == e[2..] == Le64(imm);
    In64(imm, f, 2);
  }

  lemma FoundShort(mem: int -> byte, a: int, i: Instr)
    requires EncodedAt(mem, a, i)
    requires i.Push? || i.Pop? || i.Jz8? || i.Jne8? || i.Jmp8? || i.Jne32? || i.Jmp32? || i.Call32? || i.Ret?
    ensures Found(mem, a, i)
  {
    hide Signed32At, Unsigned32At, Le32;
    var e := Encode(i);
    WindowBytes(mem, a, e);
    if i.Jne32? {
      assert e[2..2 + 4] == Le32(i.d);
      WindowInt32(mem, a, e, 2, i.d);
    } else if i.Jmp32? || i.Call32? {
      assert e[1..1 + 4] == Le32(i.d);
      WindowInt32(mem, a, e, 1, i.d);
    }
  }

  // ---- what the opcode tells ----

  /** The opcode of the instruction at a, behind its REX prefix. */
  function OpcodeAt(mem: int -> byte, a: int): byte {
    if 0x40 <= mem(a) < 0x50 then mem(a + 1) else mem(a)
  }

  lemma OpcodeOfOperands(mem: int -> byte, a: int, i: Instr)
    requires Found(mem, a, i)
    ensures OpcodeAt(mem, a) == 0x8b ==> i.Load?
    ensures OpcodeAt(mem, a) == 0x89 ==> i.Store? || i.MovReg?
    ensures OpcodeAt(mem, a) == 0x8d ==> i.Lea?
    ensures OpcodeAt(mem, a) == 0x83 ==> i.AluImm8?
    ensures OpcodeAt(mem, a) == 0x81 ==> i.AluImm32?
  {
    hide High, Middle, Lowest, Signed8, Signed32At, Unsigned32At, EncodableMem;
  }

  lemma OpcodeOfOthers(mem: int -> byte, a: int, i: Instr)
    requires Found(mem, a, i)
    ensures 0x50 <= OpcodeAt(mem, a) < 0x58 ==> i.Push?
    ensures 0x58 <= OpcodeAt(mem, a) < 0x60 ==> i.Pop?
    ensures 0xb8 <= OpcodeAt(mem, a) < 0xc0 ==> i.MovImm32? || i.MovImm64?
    ensures OpcodeAt(mem, a) == 0x74 ==> i.Jz8?
    ensures OpcodeAt(mem, a) == 0x75 ==> i.Jne8?
    ensures OpcodeAt(mem, a) == 0xeb ==> i.Jmp8?
    ensures OpcodeAt(mem, a) == 0xe8 ==> i.Call32?
    ensures OpcodeAt(mem, a) == 0xe9 ==> i.Jmp32?
    ensures OpcodeAt(mem, a) == 0xc3 ==> i.Ret?
    ensures OpcodeAt(mem, a) == 0x0f ==> i.Jne32?
  {
    hide High, Middle, Lowest, Signed8, Signed32At, Unsigned32At, EncodableMem;
  }

  /** The opcode is one of those with a handler. */
  lemma OpcodeIsHandled(mem: int -> byte, a: int, i: Instr)
    requires Found(mem, a, i)
    ensures var b := OpcodeAt(mem, a);
            || 0x50 <= b < 0x60 || 0xb8 <= b < 0xc0 || b in {0x89, 0x8b, 0x81, 0x83, 0x8d}
            || b in {0x74, 0x75, 0xeb, 0xe8, 0xe9, 0xc3, 0x0f}
  {
    hide High, Middle, Lowest, Signed8, Signed32At, Unsigned32At, EncodableMem;
  }

  lemma MemFormParts(mem: int -> byte, a: int, op: byte, r: reg, m: Mem)
    requires EncodableMem(m) && MemForm(mem, a, op, r, m)
    ensures mem(a) == RexW(r, m.base) && 0x40 <= mem(a) < 0x50
    ensures var b := mem(a + 2);
            && Middle(b) == Low(r) && Lowest(b) == Low(m.base) && Low(m.base) != 4
            && (m.At? ==> High(b) == 0 && Low(m.base) != 5)
            && (m.At8? ==> High(b) == 1 && Signed8(mem(a + 3)) == m.disp)
            && (m.At32? ==> High(b) == 2 && Low(m.base) == 6 && Signed32At(mem, a + 3) == m.disp)
  {
    hide High, Middle, Lowest, Signed8, Signed32At;
  }

  lemma LowOfExtension(op: ext)
    ensures Low(op) == op
  {
  }

  lemma FormParts(mem: int -> byte, a: int, op: byte, r: reg, rm: reg)
    requires Form(mem, a, op, r, rm, 3)
    ensures mem(a) == RexW(r, rm) && 0x40 <= mem(a) < 0x50
    ensures High(mem(a + 2)) == 3 && Middle(mem(a + 2)) == Low(r) && Lowest(mem(a + 2)) == Low(rm)
  {
    hide High, Middle, Lowest;
  }

  /** What the disassembler notes about one side of an instruction. */
  datatype Side = Side(reg: Slot, size: int, base: Slot, index: Slot, scale: int, disp: int)

  const BLANK := Side(Nil, 64, Nil, Nil, 0, 0)

  class Disassembler {
    const mem: int -> byte
    var ip: int
    var prefix: byte
    var operandSizePrefix: byte
    var opcode: byte
    var modrm: byte
    var sib: byte
    var mnemonic: string
    var immediateOperand: Slot
    var memoryOperand: bool
    var source: Side
    var dest: Side
    var operands: int
    var target: Slot

    constructor (mem: int -> byte)
      ensures this.mem == mem
    {
      this.mem := mem;
      ip, prefix, operandSizePrefix, opcode, modrm, sib := 0, 0, 0, 0, 0, 0;
      mnemonic, immediateOperand, memoryOperand := "", Nil, false;
      source, dest, operands, target := BLANK, BLANK, 2, Nil;
    }

    ghost predicate Clear()
      reads this
    {
      && immediateOperand == Nil && !memoryOperand && target == Nil && operands == 2
      && source == BLANK && dest == BLANK
    }

    /** reset-disassembler */
    method Reset()
      modifies this
      ensures Clear() && ip == old(ip) && operandSizePrefix == 0
    {
      prefix, operandSizePrefix, mnemonic := 0, 0, "";
      immediateOperand, memoryOperand := Nil, false;
      source, dest, operands, target := BLANK, BLANK, 2, Nil;
    }

    /** .dest */
    function Dest(): Operand
      reads this
    {
      if dest.reg.Is? then Register(dest.reg.n, dest.size)
      else if dest.base.Is? then Relative(dest.base.n, dest.index, dest.scale, dest.disp, dest.size)
      else if memoryOperand then Absolute(dest.disp, dest.size)
      else if immediateOperand.Is? then Immediate(immediateOperand.n)
      else NoOperand
    }

    /** .source, behind .dest, which takes the memory operand when it shows it */
    function Source(): Operand
      reads this
    {
      if immediateOperand.Is? then Immediate(immediateOperand.n)
      else if source.base.Is? then Relative(source.base.n, source.index, source.scale, source.disp, source.size)
      else if memoryOperand && (dest.reg.Is? || dest.base.Is?) then Absolute(source.disp, source.size)
      else if source.reg.Is? then Register(source.reg.n, source.size)
      else NoOperand
    }

    /** .inst, or the jump target in its place */
    function Show(): Shown
      reads this
    {
      if target.Is? then Shown(mnemonic, Target(target.n), NoOperand)
      else Shown(mnemonic, if operands > 0 then Dest() else NoOperand, if operands > 1 then Source() else NoOperand)
    }

    /** What a line shows, by what has been read: the target of a jump alone, or one operand,
        or two, of which a register or a memory operand may be either. */
    lemma Shows(d: int, s: int, x: int)
      ensures target.Is? ==> Show() == Shown(mnemonic, Target(target.n), NoOperand)
      ensures target == Nil && operands == 0 ==> Show() == Shown(mnemonic, NoOperand, NoOperand)
      ensures target == Nil && operands == 1 && dest.reg == Is(d) ==>
                Show() == Shown(mnemonic, Register(d, dest.size), NoOperand)
      ensures target == Nil && operands == 2 && source.base == Nil && dest.reg == Is(d) ==>
                && (immediateOperand == Is(x) ==> Show() == Shown(mnemonic, Register(d, dest.size), Immediate(x)))
                && (immediateOperand == Nil && memoryOperand ==>
                      Show() == Shown(mnemonic, Register(d, dest.size), Absolute(source.disp, source.size)))
                && (immediateOperand == Nil && !memoryOperand && source.reg == Is(s) ==>
                      Show() == Shown(mnemonic, Register(d, dest.size), Register(s, source.size)))
      ensures target == Nil && operands == 2 && dest.reg == Is(d) && source.base == Is(s) && immediateOperand == Nil ==>
                Show() == Shown(mnemonic, Register(d, dest.size),
                                Relative(s, source.index, source.scale, source.disp, source.size))
      ensures target == Nil && operands == 2 && dest.reg == Nil && source.base == Nil ==>
                var memory := if dest.base == Is(d) then Relative(d, dest.index, dest.scale, dest.disp, dest.size)
                              else Absolute(dest.disp, dest.size);
                dest.base == Is(d) || (dest.base == Nil && memoryOperand) ==>
                  && (immediateOperand == Is(x) ==> Show() == Shown(mnemonic, memory, Immediate(x)))
                  && (immediateOperand == Nil && source.reg == Is(s) && (dest.base == Nil || !memoryOperand) ==>
                        Show() == Shown(mnemonic, memory, Register(s, source.size)))
    {
    }

    // ---- reading ----

    method NextByte() returns (b: byte)
      modifies this`ip
      ensures b == mem(old(ip)) && ip == old(ip) + 1
    {
      b := mem(ip);
      ip := ip + 1;
    }

    method NextSignedByte() returns (x: int)
      modifies this`ip
      ensures x == Signed8(mem(old(ip))) && ip == old(ip) + 1
    {
      x := Signed8(mem(ip));
      ip := ip + 1;
    }

    method NextInt32() returns (x: int)
      modifies this`ip
      ensures x == Signed32At(mem, old(ip)) && ip == old(ip) + 4
    {
      x := Signed32At(mem, ip);
      ip := ip + 4;
    }

    method NextUint32() returns (x: int)
      modifies this`ip
      ensures x == Unsigned32At(mem, old(ip)) && ip == old(ip) + 4
    {
      x := Unsigned32At(mem, ip);
      ip := ip + 4;
    }

    method NextUint64() returns (x: int)
      modifies this`ip
      ensures x == Unsigned32At(mem, old(ip))
                   + TWO_32 * Unsigned32At(mem, old(ip) + 4)
      ensures ip == old(ip) + 8
    {
      var lo := NextUint32();
      var hi := NextUint32();
      x := lo + TWO_32 * hi;
    }

    /** !modrm-byte */
    method ReadModrm()
      modifies this`ip, this`modrm
      ensures ip == old(ip) + 1 && modrm == mem(old(ip))
    {
      modrm := NextByte();
    }

    /** !sib-byte */
    method ReadSib()
      modifies this`ip, this`sib
      ensures ip == old(ip) + 1 && sib == mem(old(ip))
    {
      sib := NextByte();
    }

    /** register-reg */
    function RegisterReg(n: int): int
      reads this
    {
      if prefix / 0x10 == 4 && prefix / 4 % 2 == 1 then n + 8 else n
    }

    /** register-rm */
    function RegisterRm(n: int): int
      reads this
    {
      if prefix / 0x10 == 4 && prefix % 2 == 1 then n + 8 else n
    }

    /** register-index */
    function RegisterIndex(n: int): int
      reads this
    {
      if prefix / 0x10 == 4 && prefix / 2 % 2 == 1 then n + 8 else n
    }

    /** instruction-operand-size */
    function OperandSize(): int
      reads this
    {
      if operandSizePrefix == 0x66 then 16
      else if prefix / 0x40 % 2 == 1 && prefix / 8 % 2 == 1 then 64
      else 32
    }

    // ---- the two ModRM forms ----

    /** A side with the base, index and scale of a SIB byte. */
    function Scaled(side: Side, b: byte): Side
      reads this
    {
      side.(base := Is(RegisterRm(Lowest(b))), index := Is(RegisterIndex(Middle(b))), scale := High(b))
    }

    /** A REX prefix with W set and a SIB byte spell reg field, index, base and scale. */
    lemma SibSpells(side: Side, r: reg, index: reg, base: reg, scale: int, b: byte)
      requires operandSizePrefix != 0x66 && 0 <= scale < 4
      requires prefix == 0x48 + (if r < 8 then 0 else 4) + (if index < 8 then 0 else 2) + (if base < 8 then 0 else 1)
      requires b == scale * 0x40 + index % 8 * 8 + base % 8
      ensures Scaled(side, b) == side.(base := Is(base), index := Is(index), scale := scale)
      ensures RegisterReg(r % 8) == r && OperandSize() == 64
    {
      SibFields(b, scale, index % 8, base % 8);
      hide High, Middle, Lowest;
    }

    static lemma SibFields(b: byte, scale: int, index: ext, base: ext)
      requires 0 <= scale < 4 && b == scale * 0x40 + index * 8 + base
      ensures High(b) == scale && Middle(b) == index && Lowest(b) == base
    {
      assert b / 8 == scale * 8 + index;
    }

    /** Without a REX prefix the fields are the registers and operands have 32 bits, or 16
        behind the operand size prefix. */
    lemma PlainSpells(n: int)
      requires prefix == 0
      ensures RegisterReg(n) == n && RegisterRm(n) == n && RegisterIndex(n) == n
      ensures OperandSize() == if operandSizePrefix == 0x66 then 16 else 32
    {
    }

    /** A destination behind a SIB byte, without and with an 8-bit displacement. */
    method DestSib()
      modifies this`ip, this`sib, this`dest, this`memoryOperand
      ensures var b := mem(old(ip));
              if Lowest(b) == 5 then
                dest == old(dest).(disp := Signed32At(mem, old(ip) + 1)) && memoryOperand && ip == old(ip) + 5
              else
                dest == Scaled(old(dest), b) && memoryOperand == old(memoryOperand) && ip == old(ip) + 1
    {
      ReadSib();
      if Lowest(sib) == 5 {
        var disp := NextInt32();
        dest := dest.(disp := disp);
        memoryOperand := true;
      } else {
        dest := Scaled(dest, sib);
      }
    }

    method DestSib8()
      modifies this`ip, this`sib, this`dest
      ensures var b := mem(old(ip));
              var index := if Middle(b) == 4 then old(dest.index) else Is(RegisterIndex(Middle(b)));
              dest == Scaled(old(dest), b).(index := index, disp := Signed8(mem(old(ip) + 1))) && ip == old(ip) + 2
    {
      ReadSib();
      dest := dest.(base := Is(RegisterRm(Lowest(sib))));
      if Middle(sib) != 4 {
        dest := dest.(index := Is(RegisterIndex(Middle(sib))));
      }
      var disp := NextSignedByte();
      dest := dest.(scale := High(sib), disp := disp);
    }

    /** /r-r/m-reg: the source is the reg field, the destination the r/m field. */
    method DestRm() returns (ok: bool)
      requires Clear()
      modifies this`ip, this`modrm, this`sib, this`dest, this`source, this`memoryOperand
      ensures source == BLANK.(size := old(OperandSize()), reg := Is(RegisterReg(Middle(mem(old(ip))))))
      ensures var (a, b) := (old(ip), mem(old(ip)));
              var blank := BLANK.(size := old(OperandSize()));
              var based := blank.(base := Is(RegisterRm(Lowest(b))));
              && (High(b) == 3 ==>
                    ok && dest == blank.(reg := Is(RegisterRm(Lowest(b)))) && !memoryOperand && ip == a + 1)
              && (High(b) == 0 && Lowest(b) != 4 ==> ok && dest == based && !memoryOperand && ip == a + 1)
              && (High(b) == 1 && Lowest(b) != 4 ==>
                    ok && dest == based.(disp := Signed8(mem(a + 1))) && !memoryOperand && ip == a + 2)
              && (High(b) == 2 ==> ok == (Lowest(b) == 6))
              && (High(b) == 2 && ok ==>
                    dest == based.(disp := Signed32At(mem, a + 1)) && !memoryOperand && ip == a + 5)
      ensures var (a, b, c) := (old(ip), mem(old(ip)), mem(old(ip) + 1));
              var blank := BLANK.(size := old(OperandSize()));
              Lowest(b) == 4 ==>
                && (High(b) == 0 && Lowest(c) == 5 ==>
                      ok && dest == blank.(disp := Signed32At(mem, a + 2)) && memoryOperand && ip == a + 6)
                && (High(b) == 0 && Lowest(c) != 5 ==>
                      ok && dest == Scaled(blank, c) && !memoryOperand && ip == a + 2)
                && (High(b) == 1 ==>
                      && ok && !memoryOperand && ip == a + 3
                      && var index := if Middle(c) == 4 then Nil else Is(RegisterIndex(Middle(c)));
                         dest == Scaled(blank, c).(disp := Signed8(mem(a + 2)), index := index))
    {
      hide Signed8, Signed32At, High, Middle, Lowest;
      dest, source := dest.(size := OperandSize()), source.(size := OperandSize());
      ReadModrm();
      source := source.(reg := Is(RegisterReg(Middle(modrm))));
      var rm := RegisterRm(Lowest(modrm));
      ok := true;
      if High(modrm) == 0 {
        if Lowest(modrm) == 4 {
          DestSib();
        } else {
          dest := dest.(base := Is(rm));
        }
      } else if High(modrm) == 1 {
        if Lowest(modrm) == 4 {
          DestSib8();
        } else {
          var disp := NextSignedByte();
          dest := dest.(disp := disp, base := Is(rm));
        }
      } else if High(modrm) == 2 {
        if Lowest(modrm) == 6 {
          var disp := NextInt32();
          dest := dest.(base := Is(rm), disp := disp);
        } else {
          ok := false;
        }
      } else {
        dest := dest.(reg := Is(rm));
      }
    }

    /** A source behind a SIB byte, without and with an 8-bit displacement. */
    method SourceSib()
      modifies this`ip, this`sib, this`source, this`memoryOperand
      ensures var b := mem(old(ip));
              if b == 0x24 then
                && source == old(source).(base := Is(RegisterRm(Lowest(b))))
                && memoryOperand == old(memoryOperand) && ip == old(ip) + 1
              else if Lowest(b) == 5 then
                source == old(source).(disp := Signed32At(mem, old(ip) + 1)) && memoryOperand && ip == old(ip) + 5
              else
                source == Scaled(old(source), b) && memoryOperand == old(memoryOperand) && ip == old(ip) + 1
    {
      ReadSib();
      if sib == 0x24 {
        source := source.(base := Is(RegisterRm(Lowest(sib))));
      } else if Lowest(sib) == 5 {
        var disp := NextInt32();
        source := source.(disp := disp);
        memoryOperand := true;
      } else {
        source := Scaled(source, sib);
      }
    }

    method SourceSib8()
      modifies this`ip, this`sib, this`source
      ensures var b := mem(old(ip));
              var side := if b == 0x24 then old(source).(base := Is(Lowest(b))) else Scaled(old(source), b);
              source == side.(disp := Signed8(mem(old(ip) + 1))) && ip == old(ip) + 2
    {
      ReadSib();
      var disp := NextSignedByte();
      source := source.(disp := disp);
      if sib == 0x24 {
        source := source.(base := Is(Lowest(sib)));
      } else {
        source := Scaled(source, sib);
      }
    }

    /** /r-reg-r/m: the destination is the reg field, the source the r/m field. */
    method SourceRm() returns (ok: bool)
      requires Clear()
      modifies this`ip, this`modrm, this`sib, this`dest, this`source, this`memoryOperand
      ensures dest == BLANK.(size := old(OperandSize()), reg := Is(RegisterReg(Middle(mem(old(ip))))))
      ensures var (a, b) := (old(ip), mem(old(ip)));
              var blank := BLANK.(size := old(OperandSize()));
              var based := blank.(base := Is(RegisterRm(Lowest(b))));
              && (High(b) == 3 ==> ok && source == blank.(reg := Is(RegisterRm(Lowest(b)))) && ip == a + 1)
              && (High(b) == 0 && Lowest(b) != 4 && Lowest(b) != 5 ==> ok && source == based && ip == a + 1)
              && (High(b) == 0 && Lowest(b) == 5 ==>
                    ok && source == blank.(disp := Signed32At(mem, a + 1) + ip) && memoryOperand && ip == a + 5)
              && (High(b) == 1 && Lowest(b) != 4 ==>
                    ok && source == based.(disp := Signed8(mem(a + 1))) && ip == a + 2)
              && (High(b) == 2 ==> ok == (Lowest(b) == 6))
              && (High(b) == 2 && ok ==> source == based.(disp := Signed32At(mem, a + 1)) && ip == a + 5)
      ensures var (a, b, c) := (old(ip), mem(old(ip)), mem(old(ip) + 1));
              var blank := BLANK.(size := old(OperandSize()));
              var plain := blank.(base := Is(RegisterRm(Lowest(c))));
              Lowest(b) == 4 ==>
                && (High(b) == 0 && c == 0x24 ==> ok && source == plain && ip == a + 2)
                && (High(b) == 0 && c != 0x24 && Lowest(c) == 5 ==>
                      ok && source == blank.(disp := Signed32At(mem, a + 2)) && memoryOperand && ip == a + 6)
                && (High(b) == 0 && c != 0x24 && Lowest(c) != 5 ==> ok && source == Scaled(blank, c) && ip == a + 2)
                && (High(b) == 1 && c == 0x24 ==>
                      ok && source == blank.(base := Is(Lowest(c)), disp := Signed8(mem(a + 2))) && ip == a + 3)
                && (High(b) == 1 && c != 0x24 ==>
                      ok && source == Scaled(blank, c).(disp := Signed8(mem(a + 2))) && ip == a + 3)
    {
      hide Signed8, Signed32At, High, Middle, Lowest, Scaled;
      dest, source := dest.(size := OperandSize()), source.(size := OperandSize());
      ReadModrm();
      dest := dest.(reg := Is(RegisterReg(Middle(modrm))));
      var rm := RegisterRm(Lowest(modrm));
      ok := true;
      if High(modrm) == 0 {
        if Lowest(modrm) == 4 {
          SourceSib();
        } else if Lowest(modrm) == 5 {
          var d := NextInt32();
          source := source.(disp := d + ip);
          memoryOperand := true;
        } else {
          source := source.(base := Is(rm));
        }
      } else if High(modrm) == 1 {
        if Lowest(modrm) == 4 {
          SourceSib8();
        } else {
          var disp := NextSignedByte();
          source := source.(base := Is(rm), disp := disp);
        }
      } else if High(modrm) == 2 {
        if Lowest(modrm) == 6 {
          var disp := NextInt32();
          source := source.(base := Is(rm), disp := disp);
        } else {
          ok := false;
        }
      } else {
        source := source.(reg := Is(rm));
      }
    }

    /** The REX prefix gives the registers back whole, and the operands 64 bits. */
    lemma RexRegisters(r: reg, rm: reg)
      requires prefix == RexW(r, rm) && operandSizePrefix == 0
      ensures RegisterReg(Low(r)) == r && RegisterRm(Low(rm)) == rm && OperandSize() == 64
    {
    }

    lemma OpenedAt(start: int)
      requires Opened(start)
      ensures opcode == OpcodeAt(mem, start) && operandSizePrefix == 0
      ensures 0x40 <= mem(start) < 0x50 ==> prefix == mem(start) && ip == start + 2
      ensures !(0x40 <= mem(start) < 0x50) ==> prefix == 0 && ip == start + 1
    {
    }

    // ---- handlers ----

    method HandlePush()
      modifies this`mnemonic, this`dest, this`operands
      ensures mnemonic == "push" && dest == old(dest).(reg := Is(RegisterRm(opcode - 0x50))) && operands == 1
    {
      mnemonic := "push";
      dest := dest.(reg := Is(RegisterRm(opcode - 0x50)));
      operands := 1;
    }

    method HandlePop()
      modifies this`mnemonic, this`dest, this`operands
      ensures mnemonic == "pop" && dest == old(dest).(reg := Is(RegisterRm(opcode - 0x58))) && operands == 1
    {
      mnemonic := "pop";
      dest := dest.(reg := Is(RegisterRm(opcode - 0x58)));
      operands := 1;
    }

    /** jmp/jcc-rel8 */
    method HandleRel8(name: string)
      modifies this`mnemonic, this`ip, this`target
      ensures mnemonic == name && ip == old(ip) + 1 && target == Is(Signed8(mem(old(ip))) + ip)
    {
      mnemonic := name;
      var d := NextSignedByte();
      target := Is(d + ip);
    }

    /** jcc-rel32, and call and jmp with a 32-bit displacement */
    method HandleRel32(name: string)
      modifies this`mnemonic, this`ip, this`target
      ensures mnemonic == name && ip == old(ip) + 4
      ensures target == Is(Signed32At(mem, old(ip)) + ip)
    {
      mnemonic := name;
      var d := NextInt32();
      target := Is(d + ip);
    }

    /** .b8 */
    method HandleMovImm()
      requires Clear()
      modifies this`mnemonic, this`ip, this`dest, this`immediateOperand
      ensures mnemonic == "mov" && dest.reg == Is(RegisterRm(opcode - 0xb8))
      ensures var lo := Unsigned32At(mem, old(ip));
              if prefix / 8 % 2 == 0 then
                dest.size == 32 && ip == old(ip) + 4 && immediateOperand == Is(lo)
              else
                && dest.size == 64 && ip == old(ip) + 8
                && immediateOperand == Is(lo + TWO_32 * Unsigned32At(mem, old(ip) + 4))
    {
      mnemonic := "mov";
      dest := dest.(reg := Is(RegisterRm(opcode - 0xb8)));
      var x;
      if prefix / 8 % 2 == 0 {
        x := NextUint32();
        dest := dest.(size := 32);
      } else {
        x := NextUint64();
      }
      immediateOperand := Is(x);
    }

    /** The source of lea behind a SIB byte with a 32-bit displacement: no index but rsp's. */
    method LeaSource32() returns (ok: bool)
      modifies this`ip, this`source
      ensures ok <==> High(sib) == 0 && Middle(sib) == 4 && Lowest(sib) == 4
      ensures ok ==> source == old(source).(base := Is(RegisterRm(4)), disp := Signed32At(mem, old(ip)))
                     && ip == old(ip) + 4
    {
      ok := Middle(sib) == 4 && Lowest(sib) == 4 && High(sib) == 0;
      if ok {
        source := source.(base := Is(RegisterRm(Lowest(sib))));
        var disp := NextInt32();
        source := source.(disp := disp);
      }
    }

    /** .8d */
    method HandleLea() returns (ok: bool)
      requires Clear()
      modifies this`mnemonic, this`ip, this`modrm, this`sib, this`dest, this`source
      ensures mnemonic == "lea"
      ensures var (a, b) := (old(ip), mem(old(ip)));
              && dest == BLANK.(reg := Is(RegisterReg(Middle(b))))
              && (High(b) == 1 && Lowest(b) != 4 ==>
                    && ok && ip == a + 2
                    && source == BLANK.(base := Is(RegisterRm(Lowest(b))), disp := Signed8(mem(a + 1))))
              && (High(b) == 1 && Lowest(b) == 4 ==>
                    ok && source == BLANK.(base := Is(RegisterRm(4)), disp := Signed8(mem(a + 2))) && ip == a + 3)
              && (ok ==> High(b) == 1 || (High(b) == 2 && Lowest(b) == 4))
    {
      hide Signed8, Signed32At, High, Middle, Lowest;
      mnemonic := "lea";
      ReadModrm();
      dest := dest.(reg := Is(RegisterReg(Middle(modrm))));
      if Lowest(modrm) == 4 { ReadSib(); }
      ok := true;
      if High(modrm) == 1 {
        source := source.(base := Is(RegisterRm(Lowest(modrm))));
        var disp := NextSignedByte();
        source := source.(disp := disp);
      } else if High(modrm) == 2 && Lowest(modrm) == 4 {
        ok := LeaSource32();
      } else {
        ok := false;
      }
    }

    /** .81: an operation named by the reg field, with a 32-bit immediate. */
    method HandleGroupImm32() returns (ok: bool)
      requires Clear()
      modifies this`mnemonic, this`ip, this`modrm, this`dest, this`source, this`immediateOperand
      ensures dest.size == old(OperandSize())
      ensures var b := mem(old(ip));
              High(b) == 3 ==>
                && ok && mnemonic == AluName(Middle(b)) && dest.reg == Is(RegisterRm(Lowest(b))) && ip == old(ip) + 5
                && immediateOperand == Is(Signed32At(mem, old(ip) + 1))
      ensures var (a, b) := (old(ip), mem(old(ip)));
              && (High(b) == 1 ==>
                    && ok && mnemonic == AluName(Middle(b)) && immediateOperand == Is(Signed32At(mem, a + 2))
                    && dest == BLANK.(size := old(OperandSize()), base := Is(RegisterRm(Lowest(b))),
                                      disp := Signed8(mem(a + 1)))
                    && ip == a + 6)
              && (ok ==> High(b) == 1 || High(b) == 3)
    {
      hide Signed8, Signed32, High, Middle, Lowest;
      dest, source := dest.(size := OperandSize()), source.(size := OperandSize());
      ReadModrm();
      mnemonic := AluName(Middle(modrm));
      ok := true;
      if High(modrm) == 1 {
        dest := dest.(base := Is(RegisterRm(Lowest(modrm))));
        var disp := NextSignedByte();
        dest := dest.(disp := disp);
        var x := NextInt32();
        immediateOperand := Is(x);
      } else if High(modrm) == 3 {
        dest := dest.(reg := Is(RegisterRm(Lowest(modrm))));
        var x := NextInt32();
        immediateOperand := Is(x);
      } else {
        ok := false;
      }
    }

    /** The destination of .83 in memory, without a displacement. */
    method GroupDest() returns (ok: bool)
      modifies this`ip, this`sib, this`dest, this`memoryOperand
      ensures var (a, c) := (old(ip), mem(old(ip)));
              if Lowest(modrm) != 4 then
                ok && dest == old(dest).(base := Is(RegisterRm(Lowest(modrm)))) && ip == a
                && memoryOperand == old(memoryOperand)
              else if Lowest(c) == 5 then
                ok && dest == old(dest).(disp := Signed32At(mem, a + 1)) && memoryOperand && ip == a + 5
              else if Lowest(c) == 4 && Middle(c) == 4 && High(c) == 0 then
                ok && dest == old(dest).(base := Is(4)) && memoryOperand == old(memoryOperand) && ip == a + 1
              else !ok && dest == old(dest)
    {
      ok := true;
      if Lowest(modrm) == 4 {
        ReadSib();
        if Lowest(sib) == 4 && Middle(sib) == 4 && High(sib) == 0 {
          dest := dest.(base := Is(Lowest(sib)));
        } else if Lowest(sib) == 5 {
          var disp := NextInt32();
          dest := dest.(disp := disp);
          memoryOperand := true;
        } else {
          ok := false;
        }
      } else {
        dest := dest.(base := Is(RegisterRm(Lowest(modrm))));
      }
    }

    /** The same with an 8-bit displacement. */
    method GroupDest8() returns (ok: bool)
      modifies this`ip, this`sib, this`dest
      ensures var (a, c) := (old(ip), mem(old(ip)));
              if Lowest(modrm) != 4 then
                ok && dest == old(dest).(base := Is(RegisterRm(Lowest(modrm))), disp := Signed8(c)) && ip == a + 1
              else if Lowest(c) == 4 && Middle(c) == 4 && High(c) == 0 then
                ok && dest == old(dest).(base := Is(4), disp := Signed8(mem(a + 1))) && ip == a + 2
              else !ok && dest.size == old(dest.size)
    {
      ok := true;
      if Lowest(modrm) == 4 {
        ReadSib();
        var disp := NextSignedByte();
        dest := dest.(disp := disp);
        if Lowest(sib) == 4 && Middle(sib) == 4 && High(sib) == 0 {
          dest := dest.(base := Is(Lowest(sib)));
        } else {
          ok := false;
        }
      } else {
        dest := dest.(base := Is(RegisterRm(Lowest(modrm))));
        var disp := NextSignedByte();
        dest := dest.(disp := disp);
      }
    }

    /** .83: an operation named by the reg field, with an 8-bit immediate, which is shown with
        its sign only behind a register. */
    method HandleGroupImm8() returns (ok: bool)
      requires Clear()
      modifies this`mnemonic, this`ip, this`modrm, this`sib, this`dest, this`source
      modifies this`memoryOperand, this`immediateOperand
      ensures dest.size == old(OperandSize())
      ensures var b := mem(old(ip));
              && (High(b) == 3 ==>
                    && ok && mnemonic == AluName(Middle(b)) && dest.reg == Is(RegisterRm(Lowest(b)))
                    && ip == old(ip) + 2 && immediateOperand == Is(Signed8(mem(old(ip) + 1))))
              && (High(b) == 2 ==> !ok)
              && (High(b) <= 1 && ok ==> mnemonic == AluName(Middle(b)) && immediateOperand == Is(mem(ip - 1)))
    {
      hide Signed8, Signed32, Signed32At, High, Middle, Lowest, AluName;
      dest, source := dest.(size := OperandSize()), source.(size := OperandSize());
      ReadModrm();
      mnemonic := AluName(Middle(modrm));
      ok := true;
      if High(modrm) == 0 {
        ok := GroupDest();
        if !ok { return; }
        var x := NextByte();
        immediateOperand := Is(x);
      } else if High(modrm) == 1 {
        ok := GroupDest8();
        if !ok { return; }
        var x := NextByte();
        immediateOperand := Is(x);
      } else if High(modrm) == 3 {
        dest := dest.(reg := Is(RegisterRm(Lowest(modrm))));
        var x := NextSignedByte();
        immediateOperand := Is(x);
      } else {
        ok := false;
      }
    }

    /** The prefix and opcode at ip, and ip behind them; 0x66 comes before any REX prefix. */
    method ReadOpcode()
      requires operandSizePrefix == 0
      modifies this`ip, this`prefix, this`opcode, this`operandSizePrefix
      ensures var b := mem(old(ip));
              && (0x40 <= b < 0x50 ==>
                    prefix == b && opcode == mem(old(ip) + 1) && ip == old(ip) + 2 && operandSizePrefix == 0)
              && (!(0x40 <= b < 0x50) && b != 0x66 ==>
                    prefix == 0 && opcode == b && ip == old(ip) + 1 && operandSizePrefix == 0)
              && (b == 0x66 ==>
                    operandSizePrefix == 0x66
                    && var c := mem(old(ip) + 1);
                       if 0x40 <= c < 0x50 then prefix == c && opcode == mem(old(ip) + 2) && ip == old(ip) + 3
                       else prefix == 0 && opcode == c && ip == old(ip) + 2)
    {
      var b := mem(ip);
      if b == 0x66 {
        operandSizePrefix := b;
        ip := ip + 1;
        b := mem(ip);
      }
      if 0x40 <= b <= 0x4f {
        prefix := b;
        opcode := mem(ip + 1);
        ip := ip + 2;
      } else {
        opcode := b;
        prefix := 0;
        ip := ip + 1;
      }
    }

    /** ip is behind the opcode of the instruction at start. */
    ghost predicate Opened(start: int)
      reads this
    {
      var b := mem(start);
      && operandSizePrefix == 0
      && if 0x40 <= b < 0x50 then prefix == b && opcode == mem(start + 1) && ip == start + 2
         else prefix == 0 && opcode == b && ip == start + 1
    }

    /** Opcode 0x0f: only the conditional jumps are here, by the second byte. */
    method HandleTwoByte() returns (ok: bool)
      modifies this`mnemonic, this`ip, this`target
      ensures mem(old(ip)) == 0x85 ==>
                && ok && mnemonic == "jne" && ip == old(ip) + 5
                && target == Is(Signed32At(mem, old(ip) + 1) + ip)
    {
      var b := NextByte();
      ok := b == 0x85;
      if ok { HandleRel32("jne"); }
    }

    /** .89 */
    method HandleStore(ghost start: int, ghost i: Instr) returns (ok: bool)
      requires Clear() && Opened(start) && Found(mem, start, i)
      requires opcode == 0x89
      modifies this
      ensures ok && ip == start + Len(i) && Show() == Meaning(i, ip)
    {
      hide Signed32At, Unsigned32At, Signed8, High, Middle, Lowest, Opened, Form, MemForm, EncodableMem, RexW, Low;
      hide RegisterReg, RegisterRm, OperandSize;
      OpenedAt(start);
      OpcodeOfOperands(mem, start, i);
      ghost var (r, base) := if i.Store? then (i.r, i.m.base) else (i.src, i.dst);
      if i.Store? {
        MemFormParts(mem, start, 0x89, i.r, i.m);
      } else {
        FormParts(mem, start, 0x89, i.src, i.dst);
      }
      mnemonic := "mov";
      RexRegisters(r, base);
      ok := DestRm();
      RexRegisters(r, base);
    }

    /** .8b */
    method HandleLoad(ghost start: int, ghost i: Instr) returns (ok: bool)
      requires Clear() && Opened(start) && Found(mem, start, i)
      requires opcode == 0x8b
      modifies this
      ensures ok && ip == start + Len(i) && Show() == Meaning(i, ip)
    {
      hide Signed32At, Unsigned32At, Signed8, High, Middle, Lowest, Opened, Form, MemForm, EncodableMem, RexW, Low;
      hide RegisterReg, RegisterRm, OperandSize;
      OpenedAt(start);
      OpcodeOfOperands(mem, start, i);
      MemFormParts(mem, start, 0x8b, i.r, i.m);
      mnemonic := "mov";
      RexRegisters(i.r, i.m.base);
      ok := SourceRm();
      RexRegisters(i.r, i.m.base);
    }

    /** .8d, .83 and .81 */
    method HandleOthers(ghost start: int, ghost i: Instr) returns (ok: bool)
      requires Clear() && Opened(start) && Found(mem, start, i)
      requires opcode == 0x81 || opcode == 0x83 || opcode == 0x8d
      modifies this
      ensures ok && ip == start + Len(i) && Show() == Meaning(i, ip)
    {
      hide Signed32At, Unsigned32At, Signed8, High, Middle, Lowest, Opened, Form, MemForm, EncodableMem, RexW, Low;
      hide RegisterReg, RegisterRm, OperandSize;
      OpenedAt(start);
      OpcodeOfOperands(mem, start, i);
      if opcode == 0x8d {
        MemFormParts(mem, start, 0x8d, i.r, At8(i.base, i.disp));
        RexRegisters(i.r, i.base);
        ok := HandleLea();
        RexRegisters(i.r, i.base);
      } else if opcode == 0x83 {
        FormParts(mem, start, 0x83, i.op, i.r);
        LowOfExtension(i.op);
        RexRegisters(i.op, i.r);
        ok := HandleGroupImm8();
        RexRegisters(i.op, i.r);
      } else {
        FormParts(mem, start, 0x81, i.op, i.r);
        LowOfExtension(i.op);
        RexRegisters(i.op, i.r);
        ok := HandleGroupImm32();
        RexRegisters(i.op, i.r);
      }
    }

    /** The opcodes without a ModRM byte. */
    method HandlePlain(ghost start: int, ghost i: Instr) returns (ok: bool)
      requires Clear() && Opened(start) && Found(mem, start, i)
      requires !(opcode in {0x89, 0x8b, 0x81, 0x83, 0x8d})
      modifies this
      ensures ok && ip == start + Len(i) && Show() == Meaning(i, ip)
    {
      hide Signed32At, Unsigned32At, Signed8, High, Middle, Lowest, Opened, Form, MemForm, EncodableMem;
      OpenedAt(start);
      OpcodeOfOthers(mem, start, i);
      OpcodeIsHandled(mem, start, i);
      ok := true;
      if 0x50 <= opcode < 0x58 {
        HandlePush();
      } else if 0x58 <= opcode < 0x60 {
        HandlePop();
      } else if 0xb8 <= opcode < 0xc0 {
        HandleMovImm();
      } else if opcode == 0x74 {
        HandleRel8("jz");
      } else if opcode == 0x75 {
        HandleRel8("jne");
      } else if opcode == 0xeb {
        HandleRel8("jmp");
      } else if opcode == 0xe8 {
        HandleRel32("call");
      } else if opcode == 0xe9 {
        HandleRel32("jmp");
      } else if opcode == 0xc3 {
        mnemonic, operands := "ret", 0;
      } else if opcode == 0x0f {
        ok := HandleTwoByte();
      } else {
        ok := false;
      }
    }

    /** .opcode: runs the handler installed for the opcode. */
    method Dispatch(ghost start: int, ghost i: Instr) returns (ok: bool)
      requires Clear() && Opened(start) && Found(mem, start, i)
      modifies this
      ensures ok && ip == start + Len(i) && Show() == Meaning(i, ip)
    {
      hide Clear, Opened, Found, Show, Meaning;
      if opcode == 0x89 {
        ok := HandleStore(start, i);
      } else if opcode == 0x8b {
        ok := HandleLoad(start, i);
      } else if opcode == 0x81 || opcode == 0x83 || opcode == 0x8d {
        ok := HandleOthers(start, i);
      } else {
        ok := HandlePlain(start, i);
      }
    }

    /** decode: whatever encodable instruction is at ip, it is recognised, with its own
        operands, and ip advances by exactly its length. */
    method Decode(ghost i: Instr) returns (ok: bool, line: Line)
      requires EncodedAt(mem, ip, i)
      modifies this
      ensures ok && ip == old(ip) + Len(i)
      ensures line == Line(old(ip), Meaning(i, ip))
    {
      hide EncodedAt, Found, Meaning;
      EncodedIsFound(mem, ip, i);
      var start := ip;
      Reset();
      ReadOpcode();
      FirstByte(mem, start, i);
      ok := Dispatch(start, i);
      line := Line(start, Show());
    }

    /** disasm: decoding from start to stop visits exactly the instructions that were
        assembled there, in order, and stops at stop. */
    method Disassemble(start: int, stop: int, ghost xs: seq<Instr>) returns (ok: bool, lines: seq<Line>)
      requires Written(mem, start, xs) && stop == start + Size(xs)
      modifies this
      ensures ok && ip == stop
      ensures lines == Lines(xs, start) && |lines| == |xs|
    {
      hide EncodedAt, Meaning, Written, Lines, Size, Asm;
      ip := start;
      ok, lines := true, [];
      ghost var rest := xs;
      while ip < stop
        invariant ok && |rest| <= |xs| && |lines| == |xs| - |rest|
        invariant stop == ip + Size(rest) && Written(mem, ip, rest)
        invariant Lines(xs, start) == lines + Lines(rest, ip)
        decreases stop - ip
      {
        Unfold(mem, ip, rest);
        var line;
        ok, line := Decode(rest[0]);
        lines := lines + [line];
        rest := rest[1..];
      }
      Finished(rest, ip);
    }
  }

  /** Memory from a on holds the encodings of xs, one behind the other. */
  ghost predicate Written(mem: int -> byte, a: int, xs: seq<Instr>)
    decreases |xs|
  {
    xs == [] || (EncodedAt(mem, a, xs[0]) && Written(mem, a + Len(xs[0]), xs[1..]))
  }

  lemma Unfold(mem: int -> byte, a: int, xs: seq<Instr>)
    requires Written(mem, a, xs) && Size(xs) > 0
    ensures |xs| > 0 && EncodedAt(mem, a, xs[0])
    ensures Written(mem, a + Len(xs[0]), xs[1..])
    ensures Size(xs) == Len(xs[0]) + Size(xs[1..])
    ensures Lines(xs, a) == [Line(a, Meaning(xs[0], a + Len(xs[0])))] + Lines(xs[1..], a + Len(xs[0]))
  {
    hide EncodedAt, Meaning, Asm;
  }

  lemma {:induction false} SizePositive(xs: seq<Instr>)
    ensures Size(xs) >= |xs|
  {
    if xs != [] {
      SizePositive(xs[1..]);
    }
  }

  lemma Finished(xs: seq<Instr>, a: int)
    requires Size(xs) <= 0
    ensures xs == [] && Size(xs) == 0 && Lines(xs, a) == []
  {
    SizePositive(xs);
  }

  /** 0x66 starts no instruction of the compiler. */
  lemma FirstByte(mem: int -> byte, a: int, i: Instr)
    requires Found(mem, a, i)
    ensures mem(a) != 0x66
  {
  }

  // ---- the listing determines the instructions ----

  /** The operation, the operands and the length tell which instruction it was. */
  lemma MeaningDetermines(i: Instr, j: Instr, next: int)
    requires Encodable(i) && Encodable(j)
    requires Meaning(i, next) == Meaning(j, next) && Len(i) == Len(j)
    ensures i == j
  {
    NamesDiffer();
    if i.Load? || i.Store? {
      assert Disp(i.m) == Disp(j.m) && MemLen(i.m) == MemLen(j.m);
    }
  }

  lemma NamesDiffer()
    ensures forall a: ext, b: ext :: AluName(a) == AluName(b) ==> a == b
    ensures forall a: ext :: AluName(a) != "mov" && AluName(a) != "lea"
  {
    assert |AluName(1)| == 2;
    forall a: ext, b: ext | AluName(a) == AluName(b)
      ensures a == b
    {
      assert AluName(a)[0] == AluName(b)[0] && AluName(a)[1] == AluName(b)[1];
    }
    forall a: ext
      ensures AluName(a) != "mov" && AluName(a) != "lea"
    {
      assert AluName(a)[0] != 'm' && AluName(a)[0] != 'l';
    }
  }
}
