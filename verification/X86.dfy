/** The part of the x86-64 instruction set that the quotation compiler emits, with the
    exact encodings of Intel 64 and IA-32 SDM volume 2A, sections 2.1.3, 2.1.5 and 2.2.1. */
module X86 {
  import opened Bytes

  type reg = r: int | 0 <= r < 16

  const RAX: reg := 0
  const RBX: reg := 3
  const RSP: reg := 4
  const RBP: reg := 5
  const R14: reg := 14

  /** Opcode extension of the immediate group 0x80-0x83. */
  type ext = e: int | 0 <= e < 8

  const ADD: ext := 0
  const SUB: ext := 5
  const CMP: ext := 7

  /** A memory operand: a base register with no, an 8-bit or a 32-bit displacement. */
  datatype Mem = At(base: reg) | At8(base: reg, disp: int) | At32(base: reg, disp: int)

  datatype Instr =
    | Push(r: reg)
    | Pop(r: reg)
    | MovImm32(r: reg, imm: int)            // mov r32, imm32 (zero-extends)
    | MovImm64(r: reg, imm: int)            // mov r64, imm64
    | Load(r: reg, m: Mem)                  // mov r64, [m]
    | Store(m: Mem, r: reg)                 // mov [m], r64
    | MovReg(dst: reg, src: reg)            // mov r64, r64
    | Lea(r: reg, base: reg, disp: int)     // lea r64, [base + disp8]
    | AluImm8(op: ext, r: reg, imm: int)    // op r64, imm8 (sign-extended)
    | AluImm32(op: ext, r: reg, imm: int)   // op r64, imm32 (sign-extended)
    | Jz8(d: int)
    | Jne8(d: int)
    | Jmp8(d: int)
    | Jne32(d: int)
    | Jmp32(d: int)
    | Call32(d: int)
    | Ret

  /** The three bits of a register number that fit in an opcode or a ModRM byte. */
  function Low(r: reg): ext { if 8 <= r then r - 8 else r }

  /** The operand forms in use: no SIB byte, no RIP-relative form, and a 32-bit
      displacement only from rsi or r14, which is all the disassembler reads. */
  predicate EncodableMem(m: Mem) {
    && Low(m.base) != 4
    && match m
       case At(b) => Low(b) != 5
       case At8(_, d) => IsInt8(d)
       case At32(b, d) => Low(b) == 6 && IsInt32(d)
  }

  predicate Encodable(i: Instr) {
    match i
    case Push(_) => true
    case Pop(_) => true
    case MovImm32(r, imm) => r < 8 && IsUint32(imm)
    case MovImm64(_, imm) => IsWord(imm)
    case Load(_, m) => EncodableMem(m)
    case Store(m, _) => EncodableMem(m)
    case MovReg(_, _) => true
    case Lea(_, base, d) => EncodableMem(At8(base, d))
    case AluImm8(_, _, imm) => IsInt8(imm)
    case AluImm32(_, _, imm) => IsInt32(imm)
    case Jz8(d) => IsInt8(d)
    case Jne8(d) => IsInt8(d)
    case Jmp8(d) => IsInt8(d)
    case Jne32(d) => IsInt32(d)
    case Jmp32(d) => IsInt32(d)
    case Call32(d) => IsInt32(d)
    case Ret => true
  }

  /** REX prefix with W set: R extends the ModRM reg field, B the r/m field. */
  function RexW(r: reg, rm: reg): byte {
    0x48 + (if 8 <= r then 4 else 0) + (if 8 <= rm then 1 else 0)
  }

  function ModRM(mode: int, r: reg, rm: reg): byte
    requires 0 <= mode < 4
  {
    mode * 0x40 + Low(r) * 8 + Low(rm)
  }

  function ModRMMem(r: reg, m: Mem): seq<byte> {
    match m
    case At(b) => [ModRM(0, r, b)]
    case At8(b, d) => [ModRM(1, r, b)] + Le8(d)
    case At32(b, d) => [ModRM(2, r, b)] + Le32(d)
  }

  function Encode(i: Instr): seq<byte> {
    match i
    case Push(r) => (if 8 <= r then [0x41] else []) + [0x50 + Low(r)]
    case Pop(r) => (if 8 <= r then [0x41] else []) + [0x58 + Low(r)]
    case MovImm32(r, imm) => [0xb8 + Low(r)] + Le32(imm)
    case MovImm64(r, imm) => [RexW(0, r), 0xb8 + Low(r)] + Le64(imm)
    case Load(r, m) => [RexW(r, m.base), 0x8b] + ModRMMem(r, m)
    case Store(m, r) => [RexW(r, m.base), 0x89] + ModRMMem(r, m)
    case MovReg(dst, src) => [RexW(src, dst), 0x89, ModRM(3, src, dst)]
    case Lea(r, base, d) => [RexW(r, base), 0x8d] + ModRMMem(r, At8(base, d))
    case AluImm8(op, r, imm) => [RexW(0, r), 0x83, ModRM(3, op, r)] + Le8(imm)
    case AluImm32(op, r, imm) => [RexW(0, r), 0x81, ModRM(3, op, r)] + Le32(imm)
    case Jz8(d) => [0x74] + Le8(d)
    case Jne8(d) => [0x75] + Le8(d)
    case Jmp8(d) => [0xeb] + Le8(d)
    case Jne32(d) => [0x0f, 0x85] + Le32(d)
    case Jmp32(d) => [0xe9] + Le32(d)
    case Call32(d) => [0xe8] + Le32(d)
    case Ret => [0xc3]
  }

  function MemLen(m: Mem): int {
    match m
    case At(_) => 1
    case At8(_, _) => 2
    case At32(_, _) => 5
  }

  function Len(i: Instr): (n: int)
    ensures 1 <= n <= MAX_LEN
  {
    match i
    case Push(r) => if 8 <= r then 2 else 1
    case Pop(r) => if 8 <= r then 2 else 1
    case MovImm32(_, _) => 5
    case MovImm64(_, _) => 10
    case Load(_, m) => 2 + MemLen(m)
    case Store(m, _) => 2 + MemLen(m)
    case MovReg(_, _) => 3
    case Lea(_, _, _) => 4
    case AluImm8(_, _, _) => 4
    case AluImm32(_, _, _) => 7
    case Jz8(_) => 2
    case Jne8(_) => 2
    case Jmp8(_) => 2
    case Jne32(_) => 6
    case Jmp32(_) => 5
    case Call32(_) => 5
    case Ret => 1
  }

  lemma LenEncode(i: Instr)
    ensures |Encode(i)| == Len(i)
  {
  }

  function Asm(xs: seq<Instr>): seq<byte> {
    if xs == [] then [] else Encode(xs[0]) + Asm(xs[1..])
  }

  function Size(xs: seq<Instr>): int {
    if xs == [] then 0 else Len(xs[0]) + Size(xs[1..])
  }

  lemma {:induction false} SizeAsm(xs: seq<Instr>)
    ensures |Asm(xs)| == Size(xs)
  {
    if xs != [] {
      LenEncode(xs[0]);
      SizeAsm(xs[1..]);
    }
  }

  predicate AllEncodable(xs: seq<Instr>) { forall i :: 0 <= i < |xs| ==> Encodable(xs[i]) }

  function Disp(m: Mem): int { if m.At? then 0 else m.disp }

  // ---- the processor's reading of code memory ----

  /** The bytes from address a on that an instruction there may take up. */
  function Window(code: int -> byte, a: int): (f: seq<byte>)
    ensures |f| == MAX_LEN
  {
    seq<byte>(MAX_LEN, k requires 0 <= k => code(a + k))
  }

  const MAX_LEN := 10

  datatype Fetched = Unknown | Known(i: Instr)

  function Signed32In(f: seq<byte>, k: nat): int
    requires k + 4 <= |f|
  {
    Signed32(f[k], f[k + 1], f[k + 2], f[k + 3])
  }

  function Unsigned32In(f: seq<byte>, k: nat): int
    requires k + 4 <= |f|
  {
    Unsigned32(f[k], f[k + 1], f[k + 2], f[k + 3])
  }

  /** The instruction at the start of the window f. */
  function Fetch(f: seq<byte>): Fetched
    requires |f| == MAX_LEN
  {
    var b := f[0];
    if 0x40 <= b < 0x50 then FetchRex(f)
    else if 0x50 <= b < 0x58 then Known(Push(b - 0x50))
    else if 0x58 <= b < 0x60 then Known(Pop(b - 0x58))
    else if 0xb8 <= b < 0xc0 then Known(MovImm32(b - 0xb8, Unsigned32In(f, 1)))
    else if b == 0x74 then Known(Jz8(Signed8(f[1])))
    else if b == 0x75 then Known(Jne8(Signed8(f[1])))
    else if b == 0xeb then Known(Jmp8(Signed8(f[1])))
    else if b == 0xe9 then Known(Jmp32(Signed32In(f, 1)))
    else if b == 0xe8 then Known(Call32(Signed32In(f, 1)))
    else if b == 0xc3 then Known(Ret)
    else if b == 0x0f && f[1] == 0x85 then Known(Jne32(Signed32In(f, 2)))
    else Unknown
  }

  /** An instruction with a REX prefix. */
  function FetchRex(f: seq<byte>): Fetched
    requires |f| == MAX_LEN
  {
    var rex, op, m := f[0], f[1], f[2];
    var hi: int := if rex % 2 == 1 then 8 else 0;
    var r: reg := m / 8 % 8 + (if rex / 4 % 2 == 1 then 8 else 0);
    var rm: reg := m % 8 + hi;
    if 0x50 <= op < 0x58 then Known(Push(op - 0x50 + hi))
    else if 0x58 <= op < 0x60 then Known(Pop(op - 0x58 + hi))
    else if rex < 0x48 then Unknown
    else if 0xb8 <= op < 0xc0 then
      Known(MovImm64(op - 0xb8 + hi, Unsigned32In(f, 2) + TWO_32 * Unsigned32In(f, 6)))
    else if op == 0x83 && m / 0x40 == 3 then Known(AluImm8(m / 8 % 8, rm, Signed8(f[3])))
    else if op == 0x81 && m / 0x40 == 3 then Known(AluImm32(m / 8 % 8, rm, Signed32In(f, 3)))
    else if op == 0x89 && m / 0x40 == 3 then Known(MovReg(rm, r))
    else if op == 0x89 then Known(Store(FetchMem(f, rm), r))
    else if op == 0x8b && m / 0x40 != 3 then Known(Load(r, FetchMem(f, rm)))
    else if op == 0x8d && m / 0x40 == 1 then Known(Lea(r, rm, Signed8(f[3])))
    else Unknown
  }

  function FetchMem(f: seq<byte>, rm: reg): Mem
    requires |f| == MAX_LEN
  {
    var mode := f[2] / 0x40;
    if mode == 0 then At(rm)
    else if mode == 1 then At8(rm, Signed8(f[3]))
    else At32(rm, Signed32In(f, 3))
  }

  /** Whatever follows an encoded instruction, the processor reads that instruction. */
  lemma FetchEncoded(i: Instr, f: seq<byte>)
    requires Encodable(i) && |f| == MAX_LEN
    requires Encode(i) <= f
    ensures Fetch(f) == Known(i)
  {
    match i {
      case Push(_) => FetchRegister(i, f);
      case Pop(_) => FetchRegister(i, f);
      case MovImm32(_, _) => FetchRegister(i, f);
      case MovImm64(_, _) => FetchImm64(i, f);
      case Load(_, _) => FetchMemory(i, f);
      case Store(_, _) => FetchMemory(i, f);
      case Lea(_, _, _) => FetchMemory(i, f);
      case MovReg(_, _) => FetchMovReg(i, f);
      case AluImm8(_, _, _) => FetchAlu8(i, f);
      case AluImm32(_, _, _) => FetchAlu32(i, f);
      case _ => FetchBranch(i, f);
    }
  }

  lemma In32(x: int, f: seq<byte>, k: nat)
    requires k + 4 <= |f| && f[k..k + 4] == Le32(x)
    ensures IsUint32(x) ==> Unsigned32In(f, k) == x
    ensures IsInt32(x) ==> Signed32In(f, k) == x
  {
    var g := f[k..k + 4];
    assert g[0] == f[k] && g[1] == f[k + 1] && g[2] == f[k + 2] && g[3] == f[k + 3];
    Unsigned32Inverts(x);
  }

  lemma In64(x: int, f: seq<byte>, k: nat)
    requires IsWord(x) && k + 8 <= |f| && f[k..k + 8] == Le64(x)
    ensures Unsigned32In(f, k) + TWO_32 * Unsigned32In(f, k + 4) == x
  {
    var lo, hi := x % TWO_32, x / TWO_32;
    assert x == lo + TWO_32 * hi && IsUint32(lo) && IsUint32(hi);
    var b, c := Le32(lo), Le32(hi);
    assert Le64(x) == b + c;
    assert f[k..k + 4] == f[k..k + 8][..4] == b;
    assert f[k + 4..k + 8] == f[k..k + 8][4..] == c;
    In32(lo, f, k);
    In32(hi, f, k + 4);
  }

  lemma FetchRegister(i: Instr, f: seq<byte>)
    requires Encodable(i) && |f| == MAX_LEN
    requires Encode(i) <= f
    requires i.Push? || i.Pop? || i.MovImm32?
    ensures Fetch(f) == Known(i)
  {
    var e := Encode(i);
    assert f[0] == e[0];
    assert |e| > 1 ==> f[1] == e[1];
    if i.MovImm32? {
      assert f[1..5] == Le32(i.imm);
      In32(i.imm, f, 1);
    }
  }

  lemma FetchImm64(i: Instr, f: seq<byte>)
    requires i.MovImm64? && Encodable(i) && |f| == MAX_LEN
    requires Encode(i) <= f
    ensures Fetch(f) == Known(i)
  {
    var e := Encode(i);
    assert f[0] == e[0] && f[1] == e[1];
    assert f[2..2 + 8] == e[2..] == Le64(i.imm);
    In64(i.imm, f, 2);
  }

  lemma FetchMovReg(i: Instr, f: seq<byte>)
    requires i.MovReg? && Encodable(i) && |f| == MAX_LEN
    requires Encode(i) <= f
    ensures Fetch(f) == Known(i)
  {
    var e := Encode(i);
    assert f[0] == e[0] && f[1] == e[1] && f[2] == e[2];
  }

  lemma FetchAlu8(i: Instr, f: seq<byte>)
    requires i.AluImm8? && Encodable(i) && |f| == MAX_LEN
    requires Encode(i) <= f
    ensures Fetch(f) == Known(i)
  {
    var e := Encode(i);
    assert f[0] == e[0] && f[1] == e[1] && f[2] == e[2];
    assert f[3] == e[3] == Le8(i.imm)[0];
  }

  lemma FetchAlu32(i: Instr, f: seq<byte>)
    requires i.AluImm32? && Encodable(i) && |f| == MAX_LEN
    requires Encode(i) <= f
    ensures Fetch(f) == Known(i)
  {
    hide Le32, Signed32In, Unsigned32In, Signed8, FetchMem;
    var e := Encode(i);
    assert f[0] == e[0] && f[1] == e[1] && f[2] == e[2];
    assert f[3..7] == Le32(i.imm);
    In32(i.imm, f, 3);
  }

  /** The ModRM byte and displacement at offset 2 give back register and operand. */
  lemma FetchOperand(r: reg, m: Mem, f: seq<byte>)
    requires EncodableMem(m) && |f| == MAX_LEN
    requires ModRMMem(r, m) <= f[2..]
    ensures f[2] / 8 % 8 == Low(r) && f[2] % 8 == Low(m.base) && f[2] / 0x40 < 3
    ensures FetchMem(f, m.base) == m
    ensures m.At8? ==> f[2] / 0x40 == 1 && Signed8(f[3]) == m.disp
  {
    var e := ModRMMem(r, m);
    assert f[2] == f[2..][0] == e[0];
    if m.At8? {
      assert f[3] == f[2..][1] == e[1] == Le8(m.disp)[0];
    } else if m.At32? {
      assert e[1..] == Le32(m.disp);
      assert f[3..7] == f[2..][1..5] == e[1..];
      In32(m.disp, f, 3);
    }
  }

  lemma FetchMemory(i: Instr, f: seq<byte>)
    requires Encodable(i) && |f| == MAX_LEN
    requires Encode(i) <= f
    requires i.Load? || i.Store? || i.Lea?
    ensures Fetch(f) == Known(i)
  {
    var e := Encode(i);
    var m := if i.Lea? then At8(i.base, i.disp) else i.m;
    assert f[0] == e[0] && f[1] == e[1];
    assert e[2..] == ModRMMem(i.r, m);
    assert e[2..] <= f[2..];
    FetchOperand(i.r, m, f);
  }

  lemma FetchBranch(i: Instr, f: seq<byte>)
    requires Encodable(i) && |f| == MAX_LEN
    requires Encode(i) <= f
    requires i.Jz8? || i.Jne8? || i.Jmp8? || i.Jne32? || i.Jmp32? || i.Call32? || i.Ret?
    ensures Fetch(f) == Known(i)
  {
    var e := Encode(i);
    assert f[0] == e[0];
    assert |e| > 1 ==> f[1] == e[1];
    if i.Jne32? {
      assert f[2..6] == Le32(i.d);
      In32(i.d, f, 2);
    } else if i.Jmp32? || i.Call32? {
      assert f[1..5] == Le32(i.d);
      In32(i.d, f, 1);
    }
  }

  /** No instruction's encoding starts another's: the bytes at an address determine
      the instruction there. */
  lemma PrefixFree(i: Instr, j: Instr)
    requires Encodable(i) && Encodable(j)
    requires Encode(i) <= Encode(j)
    ensures i == j
  {
    LenEncode(j);
    var f := Encode(j) + seq(MAX_LEN - Len(j), _ => 0);
    FetchEncoded(i, f);
    FetchEncoded(j, f);
  }
}
