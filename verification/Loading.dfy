/** A program in memory: that compiled code can be laid out so that the main results apply,
    shown for a word with a local and a quotation that call each other. */
module Loading {
  import opened Bytes
  import opened X86
  import opened Source
  import opened CodeGen
  import opened Machine
  import opened Simulation
  import opened Clauses
  import opened Correctness
  import opened CompilerTheorem
  import opened Calls

  // ---- blocks of bytes in memory ----

  datatype Block = Block(at: int, bytes: seq<byte>)

  function ByteAt(blocks: seq<Block>, a: int): byte {
    if blocks == [] then 0
    else if blocks[0].at <= a < blocks[0].at + |blocks[0].bytes| then blocks[0].bytes[a - blocks[0].at]
    else ByteAt(blocks[1..], a)
  }

  predicate Apart(b: Block, c: Block) {
    b.at + |b.bytes| <= c.at || c.at + |c.bytes| <= b.at
  }

  predicate AllApart(blocks: seq<Block>) {
    forall i, j :: 0 <= i < j < |blocks| ==> Apart(blocks[i], blocks[j])
  }

  lemma {:induction false} BlockByte(blocks: seq<Block>, i: nat, k: nat)
    requires AllApart(blocks) && i < |blocks| && k < |blocks[i].bytes|
    ensures ByteAt(blocks, blocks[i].at + k) == blocks[i].bytes[k]
    decreases |blocks|
  {
    if i > 0 {
      assert Apart(blocks[0], blocks[i]);
      BlockByte(blocks[1..], i - 1, k);
    }
  }

  function Memory(blocks: seq<Block>): int -> byte {
    (a: int) => ByteAt(blocks, a)
  }

  /** Blocks that do not overlap are all loaded at once. */
  lemma BlockLoaded(blocks: seq<Block>, i: nat)
    requires AllApart(blocks) && i < |blocks|
    ensures Loaded(Memory(blocks), blocks[i].at, blocks[i].bytes)
  {
    forall k | 0 <= k < |blocks[i].bytes|
      ensures Memory(blocks)(blocks[i].at + k) == blocks[i].bytes[k]
    {
      BlockByte(blocks, i, k);
    }
  }

  // ---- the element loop, a step at a time ----

  /** An operator right behind the one literal that it takes. */
  lemma PairStep(p: Program, v: word, s: word, rest: seq<word>, pc: int, x: Address, c: seq<Instr>)
    requires !IsSymbol(p.heap, v) && IsSymbol(p.heap, s)
    requires Taken(p, p.heap[s].op, [v]) == 1 && OneLiteralCode(p, p.heap[s].op, v, pc, x) == Good(c)
    ensures var r := ElemsCode(p, rest, [], pc + Size(c), x);
            ElemsCode(p, [v, s] + rest, [], pc, x) == if r.Good? then Good(c + r.code) else Bad
  {
    hide OneLiteralCode, Taken, Size;
    var all := [v, s] + rest;
    assert all[1..] == [s] + rest && all[1..][1..] == rest;
    assert [] + [v] == [v];
    TakesTheLiteral(p, p.heap[s].op, v, pc, x, c);
  }

  lemma TakesTheLiteral(p: Program, op: Op, v: word, pc: int, x: Address, c: seq<Instr>)
    requires Taken(p, op, [v]) == 1 && OneLiteralCode(p, op, v, pc, x) == Good(c)
    ensures OpCode(p, op, [v], pc, x) == Good(c)
  {
    hide OneLiteralCode, Taken;
    assert [v][..0] == [] && [v][0..] == [v] && Unwrapped(p.heap, []) == [];
    assert FlushCode([]) + c == c;
  }

  /** A word without a compiler of its own, with no literals queued. */
  lemma CallStepCode(p: Program, s: word, pc: int, x: Address, n: nat)
    requires IsSymbol(p.heap, s) && p.heap[s].op == Word(n) && Word(n) in p.opAddr
    ensures ElemsCode(p, [s], [], pc, x) == Good(CallCode(pc, p.opAddr[Word(n)]))
  {
    hide CallCode;
    assert [s][1..] == [];
    var none: seq<word> := [];
    assert none[..|none| - 0] == [] && none[|none| - 0..] == [] && Unwrapped(p.heap, []) == [];
    var call := CallCode(pc, p.opAddr[Word(n)]);
    assert FlushCode([]) == [] && Size([]) == 0;
    assert [] + call == call && call + [] == call;
    assert OperatorCode(p, Word(n), [], pc, x) == Good(call);
    assert OpCode(p, Word(n), none, pc, x) == Good(call);
  }

  // ---- a program ----

  const HEAP: Heap := map[
    2 := Symbol(LocalSet), 4 := Symbol(LocalGet), 6 := Symbol(When), 8 := Quotation([10]), 10 := Symbol(Word(0))]

  const PROGRAM: Program := Program(HEAP, map[8 := 100], map[Word(0) := 0], 0, 0, 12)

  /** The word keeps the element on top in its local, and calls itself through the
      quotation when it is not nil. */
  const BODY: seq<word> := [1, 2, 1, 4, 8, 6]

  function WordListing(): seq<Instr> {
    PrologCode(1)
    + (LocalSetCode(0) + (LocalGetCode(0) + (WhenCode(31, 100) + [])) + (EpilogCode(1) + One(Ret)))
  }

  function QuotationListing(): seq<Instr> {
    [] + (CallCode(100, 0) + ([] + One(Ret)))
  }

  lemma WhenPart(x: Address)
    ensures ElemsCode(PROGRAM, [8, 6], [], 31, x) == Good(WhenCode(31, 100) + [])
  {
    hide WhenCode, Size;
    var p := PROGRAM;
    assert [8, 6] == [8, 6] + [];
    assert OneLiteralCode(p, When, 8, 31, x) == Good(WhenCode(31, 100));
    PairStep(p, 8, 6, [], 31, x, WhenCode(31, 100));
    assert ElemsCode(p, [], [], 31 + Size(WhenCode(31, 100)), x) == Good([]);
  }

  lemma GetStep(x: Address)
    ensures !IsSymbol(PROGRAM.heap, 1) && IsSymbol(PROGRAM.heap, 4) && PROGRAM.heap[4].op == LocalGet
    ensures Taken(PROGRAM, LocalGet, [1]) == 1
    ensures OneLiteralCode(PROGRAM, LocalGet, 1, 20, x) == Good(LocalGetCode(0))
    ensures [1, 4] + [8, 6] == [1, 4, 8, 6]
  {
    hide LocalGetCode;
  }

  lemma GetPart(x: Address)
    ensures ElemsCode(PROGRAM, [1, 4, 8, 6], [], 20, x) == Good(LocalGetCode(0) + (WhenCode(31, 100) + []))
  {
    hide *;
    GetStep(x);
    PairStep(PROGRAM, 1, 4, [8, 6], 20, x, LocalGetCode(0));
    LocalSizes();
    WhenPart(x);
  }

  lemma LocalSizes()
    ensures Size(LocalGetCode(0)) == 11 && Size(LocalSetCode(0)) == 11
  {
    SizeAppend(One(Store(LocalMem(0), RBX)), DropCode());
    SizeAppend(DupCode(), One(Load(RBX, LocalMem(0))));
  }

  lemma BodyCode(x: Address)
    ensures ElemsCode(PROGRAM, BODY, [], 9, x) ==
            Good(LocalSetCode(0) + (LocalGetCode(0) + (WhenCode(31, 100) + [])))
  {
    hide *;
    BodySplit();
    SetPart(x);
    PairStep(PROGRAM, 1, 2, [1, 4, 8, 6], 9, x, LocalSetCode(0));
    LocalSizes();
    GetPart(x);
  }

  lemma BodySplit()
    ensures BODY == [1, 2] + [1, 4, 8, 6]
  {
  }

  lemma SetPart(x: Address)
    ensures !IsSymbol(PROGRAM.heap, 1) && IsSymbol(PROGRAM.heap, 2) && PROGRAM.heap[2].op == LocalSet
    ensures Taken(PROGRAM, LocalSet, [1]) == 1
    ensures OneLiteralCode(PROGRAM, LocalSet, 1, 9, x) == Good(LocalSetCode(0))
  {
    hide LocalSetCode;
  }

  lemma WordIsFinished()
    ensures FinishedCode(PROGRAM, BODY, 1, 0) == Good(WordListing())
  {
    hide ElemsCode, LocalSetCode, LocalGetCode, WhenCode, Asm;
    SizeAppend(One(AddRsp(SUB, 8)), One(MovReg(R14, RSP)));
    SizeAppend(One(Push(R14)), One(AddRsp(SUB, 8)) + One(MovReg(R14, RSP)));
    BodyCode(Address(EpilogAddress(PROGRAM, BODY, 1, 0)));
  }

  lemma QuotationIsFinished()
    ensures FinishedCode(PROGRAM, [10], 0, 100) == Good(QuotationListing())
  {
    hide ElemsCode, CallCode, Asm;
    CallStepCode(PROGRAM, 10, 100, Address(EpilogAddress(PROGRAM, [10], 0, 100)), 0);
  }

  // ---- its bytes ----

  lemma EncodableBoth(xs: seq<Instr>, ys: seq<Instr>)
    requires AllEncodable(xs) && AllEncodable(ys)
    ensures AllEncodable(xs + ys)
  {
  }

  lemma PrologFits()
    ensures AllEncodable(PrologCode(1)) && Size(PrologCode(1)) == 9
  {
    SizeAppend(One(AddRsp(SUB, 8)), One(MovReg(R14, RSP)));
    SizeAppend(One(Push(R14)), One(AddRsp(SUB, 8)) + One(MovReg(R14, RSP)));
  }

  lemma EndFits()
    ensures AllEncodable(EpilogCode(1) + One(Ret)) && Size(EpilogCode(1) + One(Ret)) == 7
  {
    SizeAppend(One(AddRsp(ADD, 8)), One(Pop(R14)));
    SizeAppend(EpilogCode(1), One(Ret));
  }

  lemma WordFits()
    ensures AllEncodable(WordListing()) && |Asm(WordListing())| == 57
  {
    hide PrologCode, EpilogCode, LocalSetCode, LocalGetCode, WhenCode, AllEncodable, Size, Asm;
    var body := LocalSetCode(0) + (LocalGetCode(0) + (WhenCode(31, 100) + []));
    var end := EpilogCode(1) + One(Ret);
    PrologFits();
    BodyFits();
    EndFits();
    SizeAppend(body, end);
    SizeAppend(PrologCode(1), body + end);
    EncodableBoth(body, end);
    EncodableBoth(PrologCode(1), body + end);
    SizeAsm(WordListing());
  }

  lemma WhenFits()
    ensures AllEncodable(WhenCode(31, 100)) && Size(WhenCode(31, 100)) == 19
  {
    SizeAppend(One(Jz8(5)), CallCode(45, 100));
    SizeAppend(DropCode(), One(Jz8(5)) + CallCode(45, 100));
    SizeAppend(CmpNil(), DropCode() + (One(Jz8(5)) + CallCode(45, 100)));
  }

  lemma BodyFits()
    ensures var body := LocalSetCode(0) + (LocalGetCode(0) + (WhenCode(31, 100) + []));
            AllEncodable(body) && Size(body) == 41
  {
    WhenFits();
    LocalSizes();
    LocalsFit();
    hide LocalSetCode, LocalGetCode, WhenCode, Asm, Encodable;
    assert WhenCode(31, 100) + [] == WhenCode(31, 100);
    SizeAppend(LocalGetCode(0), WhenCode(31, 100));
    SizeAppend(LocalSetCode(0), LocalGetCode(0) + WhenCode(31, 100));
    EncodableBoth(LocalGetCode(0), WhenCode(31, 100));
    EncodableBoth(LocalSetCode(0), LocalGetCode(0) + WhenCode(31, 100));
  }

  lemma LocalsFit()
    ensures AllEncodable(LocalSetCode(0)) && AllEncodable(LocalGetCode(0))
  {
  }

  lemma QuotationFits()
    ensures AllEncodable(QuotationListing()) && |Asm(QuotationListing())| == 6
  {
    hide Asm;
    var ret := [] + One(Ret);
    assert QuotationListing() == CallCode(100, 0) + One(Ret);
    SizeAppend(CallCode(100, 0), One(Ret));
    SizeAsm(QuotationListing());
  }

  function Blocks(): seq<Block> {
    [Block(0, Asm(WordListing())), Block(100, Asm(QuotationListing()))]
  }

  // ---- in memory ----

  /** The program with nothing but its own bytes in memory, and no word left to assume. */
  function Machinery(sem: Meaning): Env {
    Env(PROGRAM, sem, (a: int) => Fetch(Window(Memory(Blocks()), a)), 0, map[], (op: Op, m: Machine) => m)
  }

  lemma SoundLiteral(p: Program, v: word, rest: seq<word>, pending: seq<word>, locals: nat)
    requires !IsSymbol(p.heap, v) && ElemsSound(p, rest, pending + [v], locals)
    ensures ElemsSound(p, [v] + rest, pending, locals)
  {
    assert ([v] + rest)[1..] == rest;
  }

  lemma SoundSymbol(p: Program, s: word, rest: seq<word>, pending: seq<word>, locals: nat)
    requires IsSymbol(p.heap, s) && ElemsSound(p, rest, [], locals)
    requires var op := p.heap[s].op; op.When? || op.LocalGet? || op.Word? || (op.LocalSet? && |pending| < 2)
    ensures ElemsSound(p, [s] + rest, pending, locals)
  {
    assert ([s] + rest)[1..] == rest;
  }

  lemma SoundPair(p: Program, v: word, s: word, rest: seq<word>, locals: nat)
    requires !IsSymbol(p.heap, v) && IsSymbol(p.heap, s) && ElemsSound(p, rest, [], locals)
    requires var op := p.heap[s].op; op.When? || op.LocalGet? || op.LocalSet?
    ensures ElemsSound(p, [v, s] + rest, [], locals)
  {
    hide ElemsSound;
    SoundSymbol(p, s, rest, [] + [v], locals);
    SoundLiteral(p, v, [s] + rest, [], locals);
    assert [v] + ([s] + rest) == [v, s] + rest;
  }

  lemma SymbolsOfProgram()
    ensures var h := PROGRAM.heap;
            && !IsSymbol(h, 1) && !IsSymbol(h, 8)
            && IsSymbol(h, 2) && h[2].op.LocalSet? && IsSymbol(h, 4) && h[4].op.LocalGet?
            && IsSymbol(h, 6) && h[6].op.When? && IsSymbol(h, 10) && h[10].op.Word?
  {
  }

  lemma SoundEnd(p: Program, locals: nat)
    ensures ElemsSound(p, [], [], locals)
  {
  }

  lemma BodyInPairs()
    ensures [10] + [] == [10] && [1, 2] + ([1, 4] + ([8, 6] + [])) == BODY
  {
  }

  lemma SoundBodies()
    ensures ElemsSound(PROGRAM, BODY, [], 1) && ElemsSound(PROGRAM, [10], [], 0)
  {
    hide *;
    SymbolsOfProgram();
    SoundEnd(PROGRAM, 0);
    SoundEnd(PROGRAM, 1);
    SoundSymbol(PROGRAM, 10, [], [], 0);
    SoundPair(PROGRAM, 8, 6, [], 1);
    SoundPair(PROGRAM, 1, 4, [8, 6] + [], 1);
    SoundPair(PROGRAM, 1, 2, [1, 4] + ([8, 6] + []), 1);
    BodyInPairs();
  }

  /** What the main results ask of a program in memory can be met: by a word with a local
      and a quotation that call each other, for any meaning of the words that are not
      theirs. */
  lemma ProgramInMemory(sem: Meaning)
    requires sem.defs == map[0 := Definition(BODY, 1)] && sem.wildcard == 12
    ensures CodeInMemory(Machinery(sem), Memory(Blocks()))
  {
    hide FinishedCode, ElemsSound, Asm, WordListing, QuotationListing, AllEncodable, Loaded, OpRuns, Fetch, Window;
    WordIsFinished();
    QuotationIsFinished();
    WordFits();
    QuotationFits();
    SoundBodies();
    BlockLoaded(Blocks(), 0);
    BlockLoaded(Blocks(), 1);
    var env := Machinery(sem);
    assert PrimitivesRun(env);
    assert BytesLoaded(env, Memory(Blocks()), Definition(BODY, 1), 0);
    assert BytesLoaded(env, Memory(Blocks()), Definition([10], 0), 100);
  }
}
