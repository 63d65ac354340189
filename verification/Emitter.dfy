/** The compiler itself: it writes bytes at a moving pc, queues literals, and records the
    forward jumps to patch. Every method is tied to the listing that CodeGen gives. */
module Emitter {
  import opened Bytes
  import opened X86
  import opened Source
  import opened CodeGen

  // ---- back-patching ----

  /** b with the four bytes at offset k replaced. */
  function PatchOne(b: seq<byte>, k: int, x: int): (r: seq<byte>)
    ensures |r| == |b|
  {
    if 0 <= k && k + 4 <= |b| then b[..k] + Le32(x) + b[k + 4..] else b
  }

  /** b, placed at origin, with every site made to jump to exit. */
  function Patch(b: seq<byte>, origin: int, sites: seq<int>, exit: int): (r: seq<byte>)
    ensures |r| == |b|
  {
    if sites == [] then b
    else
      var last := |sites| - 1;
      PatchOne(Patch(b, origin, sites[..last], exit), sites[last] - origin, exit - (sites[last] + 4))
  }

  predicate SitesIn(sites: seq<int>, origin: int, n: nat) {
    forall j :: 0 <= j < |sites| ==> origin <= sites[j] && sites[j] + 4 <= origin + n
  }

  lemma PatchOneAppend(r: seq<byte>, c: seq<byte>, k: int, x: int)
    requires 0 <= k && k + 4 <= |r|
    ensures PatchOne(r + c, k, x) == PatchOne(r, k, x) + c
  {
    hide Le32;
    assert (r + c)[..k] == r[..k] && (r + c)[k + 4..] == r[k + 4..] + c;
    var a, b, d := r[..k], Le32(x), r[k + 4..];
    assert a + b + (d + c) == a + b + d + c;
  }

  /** Bytes behind all sites stay as they are. */
  lemma {:induction false} PatchAppend(b: seq<byte>, c: seq<byte>, origin: int, sites: seq<int>, exit: int)
    requires SitesIn(sites, origin, |b|)
    ensures Patch(b + c, origin, sites, exit) == Patch(b, origin, sites, exit) + c
  {
    hide PatchOne;
    if sites != [] {
      var last := |sites| - 1;
      PatchAppend(b, c, origin, sites[..last], exit);
      var r, k := Patch(b, origin, sites[..last], exit), sites[last] - origin;
      PatchOneAppend(r, c, k, exit - (sites[last] + 4));
    }
  }

  lemma SitesStayIn(sites: seq<int>, origin: int, n: nat, k: nat)
    requires SitesIn(sites, origin, n) && n <= k
    ensures SitesIn(sites, origin, k)
  {
  }

  predicate EndsIn(xs: seq<Instr>, c: seq<Instr>) { |c| <= |xs| && xs[|xs| - |c|..] == c }

  /** The fixnum n is the word 2n + 1. */
  lemma UntagOf(v: word)
    ensures forall n: nat :: v == 2 * n + 1 ==> Untag(v) == n
  {
  }

  lemma EndsBehind(xs: seq<Instr>, c: seq<Instr>)
    ensures EndsIn(xs + c, c)
  {
  }

  /** The compiler has to come through: the construct is one it handles, and every
      displacement and immediate fits its field. */
  predicate Feasible(r: Listing) { r.Good? && AllEncodable(r.code) }

  /** What fits: every literal, calls within two gigabytes, and the code for locals as long as
      their cells lie within two gigabytes of the frame's base. */
  lemma LiteralFits(v: word)
    ensures AllEncodable(LiteralCode(v)) && Encodable(MovImm64(RBX, v)) && Encodable(MovImm64(RAX, v))
  {
    assert Encodable(MovLiteral(v));
  }

  lemma CallFitsIff(pc: int, a: int)
    ensures AllEncodable(CallCode(pc, a)) <==> -0x8000_0000 <= a - (pc + 5) < 0x8000_0000
  {
    assert CallCode(pc, a)[0] == Call32(a - (pc + 5));
  }

  lemma LocalsFitIff(n: nat)
    ensures AllEncodable(LocalGetCode(n)) <==> 8 * n < 0x8000_0000
    ensures AllEncodable(LocalSetCode(n)) <==> 8 * n < 0x8000_0000
  {
    hide DupCode, DropCode;
    PairsFit();
    EncodableAppend(DupCode(), One(Load(RBX, LocalMem(n))));
    EncodableAppend(One(Store(LocalMem(n), RBX)), DropCode());
    OneFitsIff(Load(RBX, LocalMem(n)));
    OneFitsIff(Store(LocalMem(n), RBX));
  }

  lemma PairsFit()
    ensures AllEncodable(DupCode()) && AllEncodable(DropCode())
  {
  }

  lemma OneFitsIff(i: Instr)
    ensures AllEncodable(One(i)) <==> Encodable(i)
  {
    assert One(i)[0] == i;
  }

  lemma FrameFitsIff(n: nat)
    ensures AllEncodable(PrologCode(n)) <==> 8 * n < 0x8000_0000
    ensures AllEncodable(EpilogCode(n)) <==> 8 * n < 0x8000_0000
  {
    if n > 0 {
      EncodableAppend(One(Push(R14)), One(AddRsp(SUB, 8 * n)) + One(MovReg(R14, RSP)));
      EncodableAppend(One(AddRsp(SUB, 8 * n)), One(MovReg(R14, RSP)));
      EncodableAppend(One(AddRsp(ADD, 8 * n)), One(Pop(R14)));
      OneFitsIff(AddRsp(SUB, 8 * n));
      OneFitsIff(AddRsp(ADD, 8 * n));
      OneFitsIff(Push(R14));
      OneFitsIff(Pop(R14));
      OneFitsIff(MovReg(R14, RSP));
    }
  }

  lemma EncodableAppend(xs: seq<Instr>, ys: seq<Instr>)
    ensures AllEncodable(xs + ys) <==> AllEncodable(xs) && AllEncodable(ys)
  {
    if AllEncodable(xs + ys) {
      forall i | 0 <= i < |xs| ensures Encodable(xs[i]) { assert (xs + ys)[i] == xs[i]; }
      forall i | 0 <= i < |ys| ensures Encodable(ys[i]) { assert (xs + ys)[|xs| + i] == ys[i]; }
    }
  }

  lemma PatchOneTail(r: seq<byte>, op: seq<byte>, z: seq<byte>, x: int)
    requires |z| == 4
    ensures PatchOne(r + (op + z), |r| + |op|, x) == r + (op + Le32(x))
  {
    hide Le32;
    var b, k := r + (op + z), |r| + |op|;
    assert b[..k] == r + op && b[k + 4..] == [];
    assert r + op + Le32(x) + [] == r + (op + Le32(x));
  }

  lemma PatchSnoc(b: seq<byte>, origin: int, sites: seq<int>, s: int, exit: int)
    ensures Patch(b, origin, sites + [s], exit) ==
            PatchOne(Patch(b, origin, sites, exit), s - origin, exit - (s + 4))
  {
    hide PatchOne;
    assert (sites + [s])[..|sites + [s]| - 1] == sites;
  }

  lemma SitesSnoc(sites: seq<int>, origin: int, n: nat, k: nat)
    requires SitesIn(sites, origin, n)
    ensures SitesIn(sites + [origin + n + k], origin, n + k + 4)
  {
  }

  /** A new site at the end: its four bytes become the jump to exit. */
  lemma PatchLast(b: seq<byte>, op: seq<byte>, z: seq<byte>, origin: int, sites: seq<int>, exit: int)
    requires SitesIn(sites, origin, |b|) && |z| == 4
    ensures var s := origin + |b| + |op|;
            Patch(b + (op + z), origin, sites + [s], exit) ==
            Patch(b, origin, sites, exit) + (op + Le32(exit - (s + 4)))
  {
    hide Le32, PatchOne, Patch, SitesIn;
    var s := origin + |b| + |op|;
    PatchAppend(b, op + z, origin, sites, exit);
    PatchSnoc(b + (op + z), origin, sites, s, exit);
    PatchOneTail(Patch(b, origin, sites, exit), op, z, exit - (s + 4));
  }

  lemma PartEncodable(xs: seq<Instr>, ys: seq<Instr>)
    requires AllEncodable(ys) && forall i :: i in xs ==> i in ys
    ensures AllEncodable(xs)
  {
    forall k | 0 <= k < |xs|
      ensures Encodable(xs[k])
    {
      assert xs[k] in ys;
    }
  }

  lemma CallEncodable(c: seq<Instr>, a: int, pc: int)
    requires AllEncodable(c) && Call32(a - (pc + 5)) in c
    ensures Encodable(Call32(a - (pc + 5)))
  {
  }

  // ---- the constant byte strings of the compiler ----

  lemma AsmOne(i: Instr)
    ensures Asm(One(i)) == Encode(i)
  {
    assert One(i)[1..] == [];
    assert Encode(i) + Asm([]) == Encode(i);
  }

  lemma AsmTwo(i: Instr, j: Instr)
    ensures Asm(Two(i, j)) == Encode(i) + Encode(j)
  {
    AsmOne(j);
    assert Two(i, j)[1..] == One(j);
  }

  lemma DupBytes()
    ensures Asm(DupCode()) == [0x48, 0x89, 0x5d, 0xf8, 0x48, 0x8d, 0x6d, 0xf8]
  {
    AsmTwo(Store(At8(RBP, -8), RBX), Lea(RBP, RBP, -8));
  }

  lemma DropBytes()
    ensures Asm(DropCode()) == [0x48, 0x8b, 0x5d, 0x00, 0x48, 0x8d, 0x6d, 0x08]
  {
    AsmTwo(Load(RBX, At8(RBP, 0)), Lea(RBP, RBP, 8));
  }

  lemma CmpBytes()
    ensures Asm(CmpNil()) == [0x48, 0x83, 0xfb, 0x00]
  {
    AsmOne(AluImm8(CMP, RBX, 0));
  }

  // ---- pieces in a row ----

  lemma SizeNone()
    ensures Size([]) == 0
  {
  }

  lemma Nest2(l: seq<Instr>, a: seq<Instr>, b: seq<Instr>)
    ensures l + a + b == l + (a + b)
    ensures Size(a + b) == Size(a) + Size(b)
  {
    SizeAppend(a, b);
  }

  lemma Nest3(l: seq<Instr>, a: seq<Instr>, b: seq<Instr>, c: seq<Instr>)
    ensures l + a + b + c == l + (a + (b + c))
    ensures Size(a + (b + c)) == Size(a) + Size(b) + Size(c)
  {
    Nest2(l + a, b, c);
    Nest2(l, a, b + c);
  }

  lemma Nest4(l: seq<Instr>, a: seq<Instr>, b: seq<Instr>, c: seq<Instr>, d: seq<Instr>)
    ensures l + a + b + c + d == l + (a + (b + (c + d)))
    ensures Size(a + (b + (c + d))) == Size(a) + Size(b) + Size(c) + Size(d)
  {
    Nest3(l + a, b, c, d);
    Nest2(l, a, b + (c + d));
  }

  lemma Nest5(l: seq<Instr>, a: seq<Instr>, b: seq<Instr>, c: seq<Instr>, d: seq<Instr>, e: seq<Instr>)
    ensures l + a + b + c + d + e == l + (a + (b + (c + (d + e))))
    ensures Size(a + (b + (c + (d + e)))) == Size(a) + Size(b) + Size(c) + Size(d) + Size(e)
  {
    Nest4(l + a, b, c, d, e);
    Nest2(l, a, b + (c + (d + e)));
  }

  lemma Nest6(
    l: seq<Instr>, a: seq<Instr>, b: seq<Instr>, c: seq<Instr>, d: seq<Instr>, e: seq<Instr>, f: seq<Instr>)
    ensures l + a + b + c + d + e + f == l + (a + (b + (c + (d + (e + f)))))
    ensures Size(a + (b + (c + (d + (e + f))))) ==
            Size(a) + Size(b) + Size(c) + Size(d) + Size(e) + Size(f)
  {
    Nest5(l + a, b, c, d, e, f);
    Nest2(l, a, b + (c + (d + (e + f))));
  }

  lemma Nest7(
    l: seq<Instr>, a: seq<Instr>, b: seq<Instr>, c: seq<Instr>, d: seq<Instr>, e: seq<Instr>, f: seq<Instr>,
    g: seq<Instr>)
    ensures l + a + b + c + d + e + f + g == l + (a + (b + (c + (d + (e + (f + g))))))
    ensures Size(a + (b + (c + (d + (e + (f + g)))))) ==
            Size(a) + Size(b) + Size(c) + Size(d) + Size(e) + Size(f) + Size(g)
  {
    Nest6(l + a, b, c, d, e, f, g);
    Nest2(l, a, b + (c + (d + (e + (f + g)))));
  }

  lemma Nest8(
    l: seq<Instr>, a: seq<Instr>, b: seq<Instr>, c: seq<Instr>, d: seq<Instr>, e: seq<Instr>, f: seq<Instr>,
    g: seq<Instr>, h: seq<Instr>)
    ensures l + a + b + c + d + e + f + g + h == l + (a + (b + (c + (d + (e + (f + (g + h)))))))
    ensures Size(a + (b + (c + (d + (e + (f + (g + h))))))) ==
            Size(a) + Size(b) + Size(c) + Size(d) + Size(e) + Size(f) + Size(g) + Size(h)
  {
    Nest7(l + a, b, c, d, e, f, g, h);
    Nest2(l, a, b + (c + (d + (e + (f + (g + h))))));
  }

  lemma Nest9(
    l: seq<Instr>, a: seq<Instr>, b: seq<Instr>, c: seq<Instr>, d: seq<Instr>, e: seq<Instr>, f: seq<Instr>,
    g: seq<Instr>, h: seq<Instr>, i: seq<Instr>)
    ensures l + a + b + c + d + e + f + g + h + i == l + (a + (b + (c + (d + (e + (f + (g + (h + i))))))))
    ensures Size(a + (b + (c + (d + (e + (f + (g + (h + i)))))))) ==
            Size(a) + Size(b) + Size(c) + Size(d) + Size(e) + Size(f) + Size(g) + Size(h) + Size(i)
  {
    Nest8(l + a, b, c, d, e, f, g, h, i);
    Nest2(l, a, b + (c + (d + (e + (f + (g + (h + i)))))));
  }

  function MatchTestCode(p: Program, pc: int, key: word, test: int): seq<Instr> {
    DupCode() + (One(MovImm64(RBX, Unwrap(p.heap, key))) + (CallCode(pc + 18, test) + (CmpNil() +
    (DropCode() + One(Jz8(18))))))
  }

  lemma MatchTestNest(l: seq<Instr>, p: Program, pc: int, key: word, test: int)
    ensures var k := DupCode() + One(MovImm64(RBX, Unwrap(p.heap, key)));
            l + k + CallCode(pc + 18, test) + CmpNil() + DropCode() + One(Jz8(18))
            == l + MatchTestCode(p, pc, key, test)
    ensures Size(DupCode() + One(MovImm64(RBX, Unwrap(p.heap, key)))) == 18
    ensures Size(MatchTestCode(p, pc, key, test)) == 37
    ensures Size(CallCode(pc + 18, test)) == 5 && Size(CmpNil()) == 4
    ensures Size(DropCode()) == 8 && Size(One(Jz8(18))) == 2
  {
    hide Size, Asm;
    Nest6(l, DupCode(), One(MovImm64(RBX, Unwrap(p.heap, key))), CallCode(pc + 18, test), CmpNil(), DropCode(),
          One(Jz8(18)));
    Nest2(l, DupCode(), One(MovImm64(RBX, Unwrap(p.heap, key))));
  }

  lemma MatchClauseNest(l: seq<Instr>, p: Program, pc: int, key: word, test: int, a: int, end: int)
    ensures l + MatchTestCode(p, pc, key, test) + DropCode() + CallCode(pc + 45, a) + ExitJump(pc + 50, end)
            == l + MatchClauseCode(p, pc, key, test, a, end)
    ensures Size(MatchClauseCode(p, pc, key, test, a, end)) == 50 + Size(ExitJump(pc + 50, end))
    ensures Size(DropCode()) == 8 && Size(CallCode(pc + 45, a)) == 5
  {
    hide DupCode, DropCode, CmpNil, CallCode, ExitJump, Size, Asm;
    var k, t, call := One(MovImm64(RBX, Unwrap(p.heap, key))), CallCode(pc + 18, test), CallCode(pc + 45, a);
    Nest9(l, DupCode(), k, t, CmpNil(), DropCode(), One(Jz8(18)), DropCode(), call, ExitJump(pc + 50, end));
    Nest6(l, DupCode(), k, t, CmpNil(), DropCode(), One(Jz8(18)));
  }

  lemma MatchClauseEncodable(p: Program, pc: int, key: word, test: int, a: int, end: int)
    requires AllEncodable(MatchClauseCode(p, pc, key, test, a, end))
    ensures Encodable(Call32(test - (pc + 18 + 5))) && Encodable(Call32(a - (pc + 45 + 5)))
    ensures AllEncodable(ExitJump(pc + 50, end))
  {
    hide AllEncodable, DupCode, DropCode, CmpNil, ExitJump;
    var c := MatchClauseCode(p, pc, key, test, a, end);
    PartEncodable(ExitJump(pc + 50, end), c);
    CallEncodable(c, test, pc + 18);
    CallEncodable(c, a, pc + 45);
  }

  /** The code of an operator is the flush of the literals it leaves and its own code. */
  lemma OpCodeParts(
    p: Program, op: Op, pending: seq<word>, pc: int, exit: Address, n: nat) returns (flush: seq<Instr>, c: Listing)
    requires n == Taken(p, op, pending)
    ensures flush == FlushCode(Unwrapped(p.heap, pending[..|pending| - n]))
    ensures c == OperatorCode(p, op, pending[|pending| - n..], pc + Size(flush), exit)
    ensures OpCode(p, op, pending, pc, exit) == if c.Good? then Good(flush + c.code) else Bad
    ensures c.Good? ==> Size(flush + c.code) == Size(flush) + Size(c.code)
    ensures Feasible(OpCode(p, op, pending, pc, exit)) ==> Feasible(c)
  {
    hide OperatorCode, FlushCode, Taken, Size, Encodable;
    flush := FlushCode(Unwrapped(p.heap, pending[..|pending| - n]));
    c := OperatorCode(p, op, pending[|pending| - n..], pc + Size(flush), exit);
    if c.Good? {
      SizeAppend(flush, c.code);
      EncodableAppend(flush, c.code);
    }
  }

  /** Some operators have no code of their own to call when their literals are missing. */
  lemma Refused(p: Program, op: Op, pending: seq<word>, pc: int, exit: Address)
    requires op.Unless? || op.AndStar? || op.OrStar? || op.ReturnNoLocals? || op.ReturnLocals?
    requires Taken(p, op, pending) == 0
    ensures !Feasible(OpCode(p, op, pending, pc, exit))
  {
    hide OperatorCode, OpCode, FlushCode, Unwrapped, Taken;
    var flush, c := OpCodeParts(p, op, pending, pc, exit, 0);
    assert pending[|pending| - 0..] == [];
    NoCodeIs(p, op, pc + Size(flush), exit);
  }

  lemma NoCodeIs(p: Program, op: Op, pc: int, exit: Address)
    requires op.Unless? || op.AndStar? || op.OrStar? || op.ReturnNoLocals? || op.ReturnLocals?
    ensures OperatorCode(p, op, [], pc, exit) == Bad
  {
    hide OneLiteralCode, TwoLiteralCode;
  }

  /** Without literals an operator is a call of its symbol, with few exceptions. */
  lemma CallCodeIs(p: Program, op: Op, pc: int, exit: Address)
    requires !LeavesBody(op) && !op.Nip? && !op.Unless? && !op.AndStar? && !op.OrStar?
    ensures var a := SymbolAddress(p, op);
            OperatorCode(p, op, [], pc, exit) == if a.Address? then Good(CallCode(pc, a.a)) else Bad
  {
    hide OneLiteralCode, TwoLiteralCode;
  }

  lemma LocalSetCodeIs(p: Program, lits: seq<word>, pc: int, exit: Address)
    requires 1 <= |lits| <= 2
    ensures OperatorCode(p, LocalSet, lits, pc, exit) ==
            if !IsFixnum(lits[|lits| - 1]) then Bad
            else if |lits| == 1 then Good(LocalSetCode(Untag(lits[0])))
            else Good(LocalSetLiteralCode(Untag(lits[1]), lits[0]))
  {
    hide NoLiteralCode, LocalSetCode, LocalSetLiteralCode, CondCode, MatchCode, KeepTarget, CallableAddress;
  }

  predicate TakesOne(op: Op) { op.When? || op.WhenStar? || op.Unless? || op.Dip? || op.Call? }

  predicate TakesTwo(op: Op) { op.If? || op.IfStar? || op.AndStar? || op.OrStar? || op.While? || op.Bi? }

  function OneCode(op: Op, pc: int, a: int): seq<Instr>
    requires TakesOne(op)
  {
    match op
    case When => WhenCode(pc, a)
    case WhenStar => WhenStarCode(pc, a)
    case Unless => UnlessCode(pc, a)
    case Dip => DipCode(pc, a)
    case Call => CallCode(pc, a)
  }

  function TwoCode(op: Op, pc: int, a1: int, a2: int): seq<Instr>
    requires TakesTwo(op)
  {
    match op
    case If => IfCode(pc, a1, a2)
    case IfStar => IfStarCode(pc, a1, a2)
    case AndStar => AndStarCode(pc, a1, a2)
    case OrStar => OrStarCode(pc, a1, a2)
    case While => WhileCode(pc, a1, a2)
    case Bi => BiCode(pc, a1, a2)
  }

  lemma OneCodeIs(p: Program, op: Op, lits: seq<word>, pc: int, exit: Address)
    requires TakesOne(op) && |lits| == 1
    ensures var a := CallableAddress(p, Unwrap(p.heap, lits[0]));
            OperatorCode(p, op, lits, pc, exit) == if a.Address? then Good(OneCode(op, pc, a.a)) else Bad
  {
    hide CallableAddress, WhenCode, WhenStarCode, UnlessCode, DipCode, CallCode, NoLiteralCode, TwoLiteralCode;
    hide KeepTarget;
  }

  lemma ReturnCodeIs(p: Program, lits: seq<word>, pc: int, exit: Address)
    requires |lits| == 1
    ensures var a := CallableAddress(p, Unwrap(p.heap, lits[0]));
            && OperatorCode(p, ReturnNoLocals, lits, pc, exit) ==
               (if a.Address? then Good(ReturnNoLocalsCode(pc, a.a)) else Bad)
            && OperatorCode(p, ReturnLocals, lits, pc, exit) ==
               (if a.Address? then Good(ReturnLocalsCode(pc, a.a, ForwardJump(exit, pc + 24))) else Bad)
  {
    hide CallableAddress, ReturnNoLocalsCode, ReturnLocalsCode, NoLiteralCode, TwoLiteralCode, KeepTarget;
  }

  lemma TwoCodeIs(p: Program, op: Op, lits: seq<word>, pc: int, exit: Address)
    requires TakesTwo(op) && |lits| == 2
    ensures var a1, a2 := QuotationAddress(p, lits[0]), QuotationAddress(p, lits[1]);
            OperatorCode(p, op, lits, pc, exit) ==
            if a1.Address? && a2.Address? then Good(TwoCode(op, pc, a1.a, a2.a)) else Bad
  {
    hide QuotationAddress, IfCode, IfStarCode, AndStarCode, OrStarCode, WhileCode, BiCode, NoLiteralCode;
    hide OneLiteralCode;
  }

  /** The compiler of one quotation. */
  class Emitter {
    const p: Program
    const origin: int
    const locals: nat
    var code: seq<byte>
    var pending: seq<word>
    var forwardJumps: seq<int>
    /** Where the epilog will turn out to be, and the instructions written so far. */
    ghost const exit: int
    ghost var listing: seq<Instr>

    constructor (p: Program, origin: int, locals: nat, ghost exit: int)
      ensures this.p == p && this.origin == origin && this.locals == locals && this.exit == exit
      ensures Valid() && listing == [] && pending == [] && forwardJumps == [] && code == []
    {
      this.p := p;
      this.origin := origin;
      this.locals := locals;
      this.exit := exit;
      code := [];
      pending := [];
      forwardJumps := [];
      listing := [];
    }

    /** Once the forward jumps are patched the bytes are those of the listing. */
    ghost predicate Valid()
      reads this
    {
      && SitesIn(forwardJumps, origin, |code|)
      && Patch(code, origin, forwardJumps, exit) == Asm(listing)
    }

    function Pc(): int
      reads this
    {
      origin + |code|
    }

    /** Nothing but code and its listing has changed, by c. */
    twostate predicate Appended(c: seq<Instr>)
      reads this
    {
      && Valid()
      && listing == old(listing) + c
      && Pc() == old(Pc()) + Size(c)
      && pending == old(pending)
      && forwardJumps == old(forwardJumps)
    }

    method EmitByte(b: byte)
      modifies this`code
      ensures code == old(code) + [b]
    {
      code := code + [b];
    }

    method EmitBytes(b: seq<byte>, ghost c: seq<Instr>)
      requires Valid() && b == Asm(c)
      modifies this`code, this`listing
      ensures Appended(c)
    {
      hide Patch, Asm, Size, SitesIn;
      for i := 0 to |b|
        modifies this`code
        invariant code == old(code) + b[..i]
      {
        EmitByte(b[i]);
      }
      assert b[..|b|] == b;
      SitesStayIn(forwardJumps, origin, |old(code)|, |code|);
      PatchAppend(old(code), b, origin, forwardJumps, exit);
      AsmAppend(listing, c);
      SizeAsm(c);
      listing := listing + c;
    }

    method EmitDup()
      requires Valid()
      modifies this`code, this`listing
      ensures Appended(DupCode())
    {
      DupBytes();
      EmitBytes([0x48, 0x89, 0x5d, 0xf8, 0x48, 0x8d, 0x6d, 0xf8], DupCode());
    }

    method EmitDrop()
      requires Valid()
      modifies this`code, this`listing
      ensures Appended(DropCode())
    {
      DropBytes();
      EmitBytes([0x48, 0x8b, 0x5d, 0x00, 0x48, 0x8d, 0x6d, 0x08], DropCode());
    }

    method EmitCmpNil()
      requires Valid()
      modifies this`code, this`listing
      ensures Appended(CmpNil())
    {
      CmpBytes();
      EmitBytes([0x48, 0x83, 0xfb, 0x00], CmpNil());
    }

    method EmitPushRbx()
      requires Valid()
      modifies this`code, this`listing
      ensures Appended(PushCode())
    {
      AsmOne(Push(RBX));
      EmitBytes([0x53], PushCode());
    }

    method EmitPopRbx()
      requires Valid()
      modifies this`code, this`listing
      ensures Appended(PopCode())
    {
      AsmOne(Pop(RBX));
      EmitBytes([0x5b], PopCode());
    }

    method EmitJz8(d: byte)
      requires Valid() && d < 0x80
      modifies this`code, this`listing
      ensures Appended(One(Jz8(d)))
    {
      AsmOne(Jz8(d));
      EmitBytes([0x74, d], One(Jz8(d)));
    }

    method EmitJne8(d: byte)
      requires Valid() && d < 0x80
      modifies this`code, this`listing
      ensures Appended(One(Jne8(d)))
    {
      AsmOne(Jne8(d));
      EmitBytes([0x75, d], One(Jne8(d)));
    }

    method EmitJmp8(d: byte)
      requires Valid()
      modifies this`code, this`listing
      ensures Appended(One(Jmp8(Signed8(d))))
    {
      AsmOne(Jmp8(Signed8(d)));
      EmitBytes([0xeb, d], One(Jmp8(Signed8(d))));
    }

    method EmitRet()
      requires Valid()
      modifies this`code, this`listing
      ensures Appended(One(Ret))
    {
      AsmOne(Ret);
      EmitBytes([0xc3], One(Ret));
    }

    /** The five-byte call; ok tells whether the displacement fits in 32 bits. */
    method CompileCallAddress(a: int) returns (ok: bool)
      requires Valid()
      modifies this`code, this`listing
      ensures ok == Encodable(Call32(a - (old(Pc()) + 5)))
      ensures ok ==> Appended(CallCode(old(Pc()), a))
    {
      var d := a - (Pc() + 5);
      ok := IsInt32(d);
      if ok {
        AsmOne(Call32(d));
        EmitBytes([0xe8] + Le32(d), CallCode(Pc(), a));
      }
    }

    /** mov ebx or mov rbx, whichever holds the literal. */
    method EmitMovLiteral(v: word)
      requires Valid()
      modifies this`code, this`listing
      ensures Appended(One(MovLiteral(v)))
    {
      AsmOne(MovLiteral(v));
      if v < 0x8000_0000 {
        EmitBytes([0xbb] + Le32(v), One(MovLiteral(v)));
      } else {
        EmitBytes([0x48, 0xbb] + Le64(v), One(MovLiteral(v)));
      }
    }

    /** A wrapper stands for the object in it, any other value for itself. */
    method CompileLiteral(v: word)
      requires Valid()
      modifies this`code, this`listing
      ensures Appended(LiteralCode(Unwrap(p.heap, v)))
      ensures Appended(LiteralCode(if v in p.heap && p.heap[v].Wrapper? then p.heap[v].wrapped else v))
    {
      var w := Unwrap(p.heap, v);
      ghost var l := listing;
      EmitDup();
      EmitMovLiteral(w);
      Nest2(l, DupCode(), One(MovLiteral(w)));
    }

    /** Every queued literal is compiled, in order, and the queue is left empty. */
    method FlushPending()
      requires Valid()
      modifies this`code, this`listing, this`pending
      ensures Valid() && pending == [] && forwardJumps == old(forwardJumps)
      ensures var c := FlushCode(Unwrapped(p.heap, old(pending)));
              listing == old(listing) + c && Pc() == old(Pc()) + Size(c)
    {
      hide LiteralCode, Size, Asm;
      ghost var vs := Unwrapped(p.heap, pending);
      ghost var l := listing;
      ghost var acc: seq<Instr> := [];
      SizeNone();
      for i := 0 to |pending|
        invariant Valid() && pending == old(pending) && forwardJumps == old(forwardJumps)
        invariant listing == l + acc && Pc() == old(Pc()) + Size(acc)
        invariant FlushCode(vs) == acc + FlushCode(vs[i..])
      {
        CompileLiteral(pending[i]);
        ghost var c := LiteralCode(vs[i]);
        assert vs[i..][1..] == vs[i + 1..];
        Nest2(l, acc, c);
        Nest2(acc, c, FlushCode(vs[i + 1..]));
        acc := acc + c;
      }
      assert FlushCode(vs[|vs|..]) == [] && acc + [] == acc;
      pending := [];
    }

    method PendingRemoveLast() returns (v: word)
      requires Valid() && pending != []
      modifies this`pending
      ensures Valid()
      ensures pending == old(pending)[..|old(pending)| - 1] && v == old(pending)[|old(pending)| - 1]
    {
      v := pending[|pending| - 1];
      pending := pending[..|pending| - 1];
    }

    // ---- the code of each combinator, byte for byte ----

    method EmitWhen(a: int) returns (ok: bool)
      requires Valid()
      modifies this`code, this`listing
      ensures AllEncodable(WhenCode(old(Pc()), a)) ==> ok
      ensures ok ==> Appended(WhenCode(old(Pc()), a))
    {
      hide Patch, SitesIn, Size, Asm, Valid;
      ghost var pc, l := Pc(), listing;
      EmitCmpNil();
      EmitDrop();
      EmitJz8(0x05);
      assert Call32(a - (pc + 14 + 5)) in WhenCode(pc, a);
      ok := CompileCallAddress(a);
      if !ok { return; }
      Nest4(l, CmpNil(), DropCode(), One(Jz8(5)), CallCode(pc + 14, a));
    }

    method EmitUnless(a: int) returns (ok: bool)
      requires Valid()
      modifies this`code, this`listing
      ensures AllEncodable(UnlessCode(old(Pc()), a)) ==> ok
      ensures ok ==> Appended(UnlessCode(old(Pc()), a))
    {
      hide Patch, SitesIn, Size, Asm, Valid;
      ghost var pc, l := Pc(), listing;
      EmitCmpNil();
      EmitDrop();
      EmitJne8(0x05);
      assert Call32(a - (pc + 14 + 5)) in UnlessCode(pc, a);
      ok := CompileCallAddress(a);
      if !ok { return; }
      Nest4(l, CmpNil(), DropCode(), One(Jne8(5)), CallCode(pc + 14, a));
    }

    method EmitWhenStar(a: int) returns (ok: bool)
      requires Valid()
      modifies this`code, this`listing
      ensures AllEncodable(WhenStarCode(old(Pc()), a)) ==> ok
      ensures ok ==> Appended(WhenStarCode(old(Pc()), a))
    {
      hide Patch, SitesIn, Size, Asm, Valid;
      ghost var pc, l := Pc(), listing;
      EmitCmpNil();
      EmitJz8(0x07);
      assert Call32(a - (pc + 6 + 5)) in WhenStarCode(pc, a);
      ok := CompileCallAddress(a);
      if !ok { return; }
      EmitJmp8(0x08);
      EmitDrop();
      Nest5(l, CmpNil(), One(Jz8(7)), CallCode(pc + 6, a), One(Jmp8(8)), DropCode());
    }

    method EmitIf(a1: int, a2: int) returns (ok: bool)
      requires Valid()
      modifies this`code, this`listing
      ensures AllEncodable(IfCode(old(Pc()), a1, a2)) ==> ok
      ensures ok ==> Appended(IfCode(old(Pc()), a1, a2))
    {
      hide Patch, SitesIn, Size, Asm, Valid;
      ghost var pc, l := Pc(), listing;
      EmitCmpNil();
      EmitDrop();
      EmitJz8(0x07);
      assert Call32(a1 - (pc + 14 + 5)) in IfCode(pc, a1, a2);
      ok := CompileCallAddress(a1);
      if !ok { return; }
      EmitJmp8(0x05);
      assert Call32(a2 - (pc + 21 + 5)) in IfCode(pc, a1, a2);
      ok := CompileCallAddress(a2);
      if !ok { return; }
      Nest6(l, CmpNil(), DropCode(), One(Jz8(7)), CallCode(pc + 14, a1), One(Jmp8(5)), CallCode(pc + 21, a2));
    }

    method EmitIfStar(a1: int, a2: int) returns (ok: bool)
      requires Valid()
      modifies this`code, this`listing
      ensures AllEncodable(IfStarCode(old(Pc()), a1, a2)) ==> ok
      ensures ok ==> Appended(IfStarCode(old(Pc()), a1, a2))
    {
      hide Patch, SitesIn, Size, Asm, Valid;
      ghost var pc, l := Pc(), listing;
      EmitCmpNil();
      EmitJz8(0x07);
      assert Call32(a1 - (pc + 6 + 5)) in IfStarCode(pc, a1, a2);
      ok := CompileCallAddress(a1);
      if !ok { return; }
      EmitJmp8(0x0d);
      EmitDrop();
      assert Call32(a2 - (pc + 21 + 5)) in IfStarCode(pc, a1, a2);
      ok := CompileCallAddress(a2);
      if !ok { return; }
      Nest6(l, CmpNil(), One(Jz8(7)), CallCode(pc + 6, a1), One(Jmp8(13)), DropCode(), CallCode(pc + 21, a2));
    }

    method EmitAndStar(a1: int, a2: int) returns (ok: bool)
      requires Valid()
      modifies this`code, this`listing
      ensures AllEncodable(AndStarCode(old(Pc()), a1, a2)) ==> ok
      ensures ok ==> Appended(AndStarCode(old(Pc()), a1, a2))
    {
      hide Patch, SitesIn, Size, Asm, Valid;
      ghost var pc, l := Pc(), listing;
      assert Call32(a1 - (pc + 5)) in AndStarCode(pc, a1, a2);
      ok := CompileCallAddress(a1);
      if !ok { return; }
      EmitCmpNil();
      EmitJz8(0x0d);
      EmitDrop();
      assert Call32(a2 - (pc + 19 + 5)) in AndStarCode(pc, a1, a2);
      ok := CompileCallAddress(a2);
      if !ok { return; }
      Nest5(l, CallCode(pc, a1), CmpNil(), One(Jz8(13)), DropCode(), CallCode(pc + 19, a2));
    }

    method EmitOrStar(a1: int, a2: int) returns (ok: bool)
      requires Valid()
      modifies this`code, this`listing
      ensures AllEncodable(OrStarCode(old(Pc()), a1, a2)) ==> ok
      ensures ok ==> Appended(OrStarCode(old(Pc()), a1, a2))
    {
      hide Patch, SitesIn, Size, Asm, Valid;
      ghost var pc, l := Pc(), listing;
      assert Call32(a1 - (pc + 5)) in OrStarCode(pc, a1, a2);
      ok := CompileCallAddress(a1);
      if !ok { return; }
      EmitCmpNil();
      EmitJne8(0x0d);
      EmitDrop();
      assert Call32(a2 - (pc + 19 + 5)) in OrStarCode(pc, a1, a2);
      ok := CompileCallAddress(a2);
      if !ok { return; }
      Nest5(l, CallCode(pc, a1), CmpNil(), One(Jne8(13)), DropCode(), CallCode(pc + 19, a2));
    }

    method EmitWhile(a1: int, a2: int) returns (ok: bool)
      requires Valid()
      modifies this`code, this`listing
      ensures AllEncodable(WhileCode(old(Pc()), a1, a2)) ==> ok
      ensures ok ==> Appended(WhileCode(old(Pc()), a1, a2))
    {
      hide Patch, SitesIn, Size, Asm, Valid;
      ghost var pc, l := Pc(), listing;
      assert Call32(a1 - (pc + 5)) in WhileCode(pc, a1, a2);
      ok := CompileCallAddress(a1);
      if !ok { return; }
      EmitCmpNil();
      EmitDrop();
      EmitJz8(0x07);
      assert Call32(a2 - (pc + 19 + 5)) in WhileCode(pc, a1, a2);
      ok := CompileCallAddress(a2);
      if !ok { return; }
      EmitJmp8(0xe6);
      Nest6(l, CallCode(pc, a1), CmpNil(), DropCode(), One(Jz8(7)), CallCode(pc + 19, a2), One(Jmp8(-26)));
    }

    method EmitKeep(a: int) returns (ok: bool)
      requires Valid()
      modifies this`code, this`listing
      ensures AllEncodable(KeepCode(old(Pc()), a)) ==> ok
      ensures ok ==> Appended(KeepCode(old(Pc()), a))
    {
      hide Patch, SitesIn, Size, Asm, Valid;
      ghost var pc, l := Pc(), listing;
      EmitPushRbx();
      assert Call32(a - (pc + 1 + 5)) in KeepCode(pc, a);
      ok := CompileCallAddress(a);
      if !ok { return; }
      EmitDup();
      EmitPopRbx();
      Nest4(l, PushCode(), CallCode(pc + 1, a), DupCode(), PopCode());
    }

    method EmitDip(a: int) returns (ok: bool)
      requires Valid()
      modifies this`code, this`listing
      ensures AllEncodable(DipCode(old(Pc()), a)) ==> ok
      ensures ok ==> Appended(DipCode(old(Pc()), a))
    {
      hide Patch, SitesIn, Size, Asm, Valid;
      ghost var pc, l := Pc(), listing;
      EmitPushRbx();
      EmitDrop();
      assert Call32(a - (pc + 9 + 5)) in DipCode(pc, a);
      ok := CompileCallAddress(a);
      if !ok { return; }
      EmitDup();
      EmitPopRbx();
      Nest5(l, PushCode(), DropCode(), CallCode(pc + 9, a), DupCode(), PopCode());
    }

    method EmitBi(a1: int, a2: int) returns (ok: bool)
      requires Valid()
      modifies this`code, this`listing
      ensures AllEncodable(BiCode(old(Pc()), a1, a2)) ==> ok
      ensures ok ==> Appended(BiCode(old(Pc()), a1, a2))
    {
      hide Patch, SitesIn, Size, Asm, Valid;
      ghost var pc, l := Pc(), listing;
      EmitPushRbx();
      assert Call32(a1 - (pc + 1 + 5)) in BiCode(pc, a1, a2);
      ok := CompileCallAddress(a1);
      if !ok { return; }
      EmitDup();
      EmitPopRbx();
      assert Call32(a2 - (pc + 15 + 5)) in BiCode(pc, a1, a2);
      ok := CompileCallAddress(a2);
      if !ok { return; }
      Nest5(l, PushCode(), CallCode(pc + 1, a1), DupCode(), PopCode(), CallCode(pc + 15, a2));
    }

    method EmitBiAt(a: int) returns (ok: bool)
      requires Valid()
      modifies this`code, this`listing
      ensures AllEncodable(BiAtCode(old(Pc()), a)) ==> ok
      ensures ok ==> Appended(BiAtCode(old(Pc()), a))
    {
      hide Patch, SitesIn, Size, Asm, Valid;
      ghost var pc, l := Pc(), listing;
      EmitPushRbx();
      EmitDrop();
      assert Call32(a - (pc + 9 + 5)) in BiAtCode(pc, a);
      ok := CompileCallAddress(a);
      if !ok { return; }
      EmitDup();
      EmitPopRbx();
      assert Call32(a - (pc + 23 + 5)) in BiAtCode(pc, a);
      ok := CompileCallAddress(a);
      if !ok { return; }
      Nest6(l, PushCode(), DropCode(), CallCode(pc + 9, a), DupCode(), PopCode(), CallCode(pc + 23, a));
    }

    method EmitReturnNoLocals(a: int) returns (ok: bool)
      requires Valid()
      modifies this`code, this`listing
      ensures AllEncodable(ReturnNoLocalsCode(old(Pc()), a)) ==> ok
      ensures ok ==> Appended(ReturnNoLocalsCode(old(Pc()), a))
    {
      hide Patch, SitesIn, Size, Asm, Valid;
      ghost var pc, l := Pc(), listing;
      EmitCmpNil();
      EmitDrop();
      EmitJz8(0x06);
      assert Call32(a - (pc + 14 + 5)) in ReturnNoLocalsCode(pc, a);
      ok := CompileCallAddress(a);
      if !ok { return; }
      EmitRet();
      Nest5(l, CmpNil(), DropCode(), One(Jz8(6)), CallCode(pc + 14, a), One(Ret));
    }

    method EmitExitNoLocals()
      requires Valid()
      modifies this`code, this`listing
      ensures Appended(ExitNoLocalsCode())
    {
      hide Patch, SitesIn, Size, Asm, Valid;
      ghost var pc, l := Pc(), listing;
      EmitCmpNil();
      EmitDrop();
      EmitJz8(0x01);
      EmitRet();
      Nest4(l, CmpNil(), DropCode(), One(Jz8(1)), One(Ret));
    }

    // ---- forward jumps to the epilog ----

    /** An operation whose displacement is written as zero and patched at the end. */
    method EmitForwardJump(op: seq<byte>, ghost i: Instr)
      requires Valid()
      requires Encode(i) == op + Le32(exit - (Pc() + |op| + 4))
      modifies this`code, this`listing, this`forwardJumps
      ensures Valid() && pending == old(pending)
      ensures listing == old(listing) + One(i) && Pc() == old(Pc()) + Len(i)
      ensures forwardJumps == old(forwardJumps) + [old(Pc()) + |op|]
      ensures code == old(code) + (op + [0, 0, 0, 0])
    {
      hide Patch, SitesIn, Size, Asm, Encode;
      var zeros: seq<byte> := [0, 0, 0, 0];
      PatchLast(code, op, zeros, origin, forwardJumps, exit);
      SitesSnoc(forwardJumps, origin, |code|, |op|);
      AsmOne(i);
      AsmAppend(listing, One(i));
      LenEncode(i);
      forwardJumps := forwardJumps + [Pc() + |op|];
      code := code + (op + zeros);
      listing := listing + One(i);
    }

    method EmitExitLocals()
      requires Valid()
      modifies this`code, this`listing, this`forwardJumps
      ensures Valid() && pending == old(pending)
      ensures var c := ExitLocalsCode(exit - (old(Pc()) + 18));
              listing == old(listing) + c && Pc() == old(Pc()) + Size(c)
      ensures forwardJumps == old(forwardJumps) + [old(Pc()) + 14]
    {
      hide Patch, SitesIn, Size, Asm, Valid;
      ghost var pc, l := Pc(), listing;
      EmitCmpNil();
      EmitDrop();
      ghost var i := Jne32(exit - (pc + 18));
      EmitForwardJump([0x0f, 0x85], i);
      Nest3(l, CmpNil(), DropCode(), One(i));
    }

    method EmitReturnLocals(a: int) returns (ok: bool)
      requires Valid()
      modifies this`code, this`listing, this`forwardJumps
      ensures AllEncodable(ReturnLocalsCode(old(Pc()), a, exit - (old(Pc()) + 24))) ==> ok
      ensures ok ==> Valid() && pending == old(pending)
      ensures ok ==> var c := ReturnLocalsCode(old(Pc()), a, exit - (old(Pc()) + 24));
                     listing == old(listing) + c && Pc() == old(Pc()) + Size(c)
      ensures ok ==> forwardJumps == old(forwardJumps) + [old(Pc()) + 20]
    {
      hide Patch, SitesIn, Size, Asm, Valid;
      ghost var pc, l := Pc(), listing;
      EmitCmpNil();
      EmitDrop();
      EmitJz8(0x0a);
      ghost var i := Jmp32(exit - (pc + 24));
      assert Call32(a - (pc + 14 + 5)) in ReturnLocalsCode(pc, a, exit - (pc + 24));
      ok := CompileCallAddress(a);
      if !ok { return; }
      EmitForwardJump([0xe9], i);
      Nest5(l, CmpNil(), DropCode(), One(Jz8(10)), CallCode(pc + 14, a), One(i));
    }

    // ---- locals ----

    /** The ModRM byte, and the displacement if any, of [r14 + 8n] with rbx or rax. */
    method LocalOperand(n: nat, r: reg) returns (ok: bool, b: seq<byte>)
      requires r == RBX || r == RAX
      ensures ok == EncodableMem(LocalMem(n))
      ensures ok ==> b == ModRMMem(r, LocalMem(n))
    {
      ok := true;
      if n == 0 {
        b := [if r == RBX then 0x1e else 0x06];
      } else if n < 16 {
        b := [if r == RBX then 0x5e else 0x46, 0x08 * n];
      } else {
        ok := IsInt32(0x08 * n);
        b := [if r == RBX then 0x9e else 0x86] + Le32(0x08 * n);
      }
    }

    method EmitLocalGet(n: nat) returns (ok: bool)
      requires Valid()
      modifies this`code, this`listing
      ensures AllEncodable(LocalGetCode(n)) ==> ok
      ensures ok ==> Appended(LocalGetCode(n))
    {
      hide Patch, SitesIn, Size, Asm;
      ghost var l := listing;
      ghost var i := Load(RBX, LocalMem(n));
      assert i in LocalGetCode(n);
      EmitDup();
      var b;
      ok, b := LocalOperand(n, RBX);
      if !ok { return; }
      AsmOne(i);
      EmitBytes([0x49, 0x8b] + b, One(i));
      Nest2(l, DupCode(), One(i));
    }

    method EmitLocalSet(n: nat) returns (ok: bool)
      requires Valid()
      modifies this`code, this`listing
      ensures AllEncodable(LocalSetCode(n)) ==> ok
      ensures ok ==> Appended(LocalSetCode(n))
    {
      hide Patch, SitesIn, Size, Asm;
      ghost var l := listing;
      ghost var i := Store(LocalMem(n), RBX);
      assert i in LocalSetCode(n);
      var b;
      ok, b := LocalOperand(n, RBX);
      if !ok { return; }
      AsmOne(i);
      EmitBytes([0x49, 0x89] + b, One(i));
      EmitDrop();
      Nest2(l, One(i), DropCode());
    }

    method EmitLocalSetLiteral(n: nat, x: word) returns (ok: bool)
      requires Valid()
      modifies this`code, this`listing
      ensures AllEncodable(LocalSetLiteralCode(n, x)) ==> ok
      ensures ok ==> Appended(LocalSetLiteralCode(n, x))
    {
      hide Patch, SitesIn, Size, Asm;
      ghost var l := listing;
      ghost var i, j := MovImm64(RAX, x), Store(LocalMem(n), RAX);
      assert j in LocalSetLiteralCode(n, x);
      AsmOne(i);
      EmitBytes([0x48, 0xb8] + Le64(x), One(i));
      var b;
      ok, b := LocalOperand(n, RAX);
      if !ok { return; }
      AsmOne(j);
      EmitBytes([0x49, 0x89] + b, One(j));
      Nest2(l, One(i), One(j));
    }

    method EmitNip()
      requires Valid()
      modifies this`code, this`listing
      ensures Appended(NipCode())
    {
      AsmOne(Lea(RBP, RBP, 8));
      EmitBytes([0x48, 0x8d, 0x6d, 0x08], NipCode());
    }

    // ---- prolog and epilog ----

    method EmitAddRsp(op: ext, n: nat) returns (ok: bool)
      requires Valid() && (op == ADD || op == SUB)
      modifies this`code, this`listing
      ensures Encodable(AddRsp(op, n)) ==> ok
      ensures ok ==> Appended(One(AddRsp(op, n)))
    {
      AsmOne(AddRsp(op, n));
      ok := true;
      if n < 128 {
        EmitBytes([0x48, 0x83, if op == SUB then 0xec else 0xc4, n], One(AddRsp(op, n)));
      } else {
        ok := IsInt32(n);
        if !ok { return; }
        EmitBytes([0x48, 0x81, if op == SUB then 0xec else 0xc4] + Le32(n), One(AddRsp(op, n)));
      }
    }

    method CompileProlog() returns (ok: bool)
      requires Valid()
      modifies this`code, this`listing
      ensures AllEncodable(PrologCode(locals)) ==> ok
      ensures ok ==> Appended(PrologCode(locals))
    {
      hide Patch, SitesIn, Size, Asm;
      ghost var l := listing;
      SizeNone();
      ok := true;
      if locals == 0 {
        assert l + [] == l;
        return;
      }
      ghost var sub := AddRsp(SUB, 8 * locals);
      assert sub in PrologCode(locals);
      AsmOne(Push(R14));
      EmitBytes([0x41, 0x56], One(Push(R14)));
      ok := EmitAddRsp(SUB, 8 * locals);
      if !ok { return; }
      AsmOne(MovReg(R14, RSP));
      EmitBytes([0x49, 0x89, 0xe6], One(MovReg(R14, RSP)));
      Nest3(l, One(Push(R14)), One(sub), One(MovReg(R14, RSP)));
    }

    method CompileEpilog() returns (ok: bool)
      requires Valid()
      modifies this`code, this`listing
      ensures AllEncodable(EpilogCode(locals)) ==> ok
      ensures ok ==> Appended(EpilogCode(locals))
    {
      hide Patch, SitesIn, Size, Asm;
      ghost var l := listing;
      SizeNone();
      ok := true;
      if locals == 0 {
        assert l + [] == l;
        return;
      }
      ghost var add := AddRsp(ADD, 8 * locals);
      assert add in EpilogCode(locals);
      ok := EmitAddRsp(ADD, 8 * locals);
      if !ok { return; }
      AsmOne(Pop(R14));
      EmitBytes([0x41, 0x5e], One(Pop(R14)));
      Nest2(l, One(add), One(Pop(R14)));
    }

    // ---- cond ----

    /** The jump to the end, unless it would go nowhere. */
    method EmitExitJump(end: int) returns (ok: bool)
      requires Valid()
      modifies this`code, this`listing
      ensures AllEncodable(ExitJump(old(Pc()), end)) ==> ok
      ensures ok ==> Appended(ExitJump(old(Pc()), end))
    {
      hide Patch, SitesIn, Size, Asm;
      SizeNone();
      var delta := end - (Pc() + 5);
      ok := true;
      if delta == 0 {
        assert listing + [] == listing;
        return;
      }
      ok := IsInt32(delta);
      assert Jmp32(delta) in ExitJump(Pc(), end);
      if !ok { return; }
      AsmOne(Jmp32(delta));
      EmitBytes([0xe9] + Le32(delta), JumpCode(Pc(), end));
    }

    /** cond-step-array */
    method EmitCondClause(a1: int, a2: int, end: int) returns (ok: bool)
      requires Valid()
      modifies this`code, this`listing
      ensures AllEncodable(CondClauseCode(old(Pc()), a1, a2, end)) ==> ok
      ensures ok ==> Appended(CondClauseCode(old(Pc()), a1, a2, end))
    {
      hide Valid, Patch, SitesIn, Size, Asm, ExitJump;
      ghost var pc, l := Pc(), listing;
      ghost var c := CondClauseCode(pc, a1, a2, end);
      ghost var j := ExitJump(pc + 24, end);
      Nest6(l, CallCode(pc, a1), CmpNil(), DropCode(), One(Jz8(10)), CallCode(pc + 19, a2), j);
      assert Call32(a1 - (pc + 5)) in c && Call32(a2 - (pc + 19 + 5)) in c;
      if AllEncodable(c) {
        PartEncodable(j, c);
      }
      ok := CompileCallAddress(a1);
      if !ok { return; }
      EmitCmpNil();
      EmitDrop();
      EmitJz8(0x0a);
      ok := CompileCallAddress(a2);
      if !ok { return; }
      ok := EmitExitJump(end);
    }

    /** The clauses before the default, one after the other. */
    method EmitCondClauses(clauses: seq<word>, end: int) returns (ok: bool)
      requires Valid()
      modifies this`code, this`listing
      ensures Feasible(CondClausesCode(p, clauses, old(Pc()), end)) ==> ok
      ensures ok ==> CondClausesCode(p, clauses, old(Pc()), end).Good?
                     && Appended(CondClausesCode(p, clauses, old(Pc()), end).code)
    {
      hide Patch, SitesIn, Size, Asm, CondClauseCode, AllEncodable;
      ghost var l, pc := listing, Pc();
      ghost var acc: seq<Instr> := [];
      ghost var whole := CondClausesCode(p, clauses, pc, end);
      SizeNone();
      assert clauses[0..] == clauses && l + [] == l;
      for i := 0 to |clauses|
        modifies this`code, this`listing
        invariant Valid() && pending == old(pending) && forwardJumps == old(forwardJumps)
        invariant listing == l + acc && Pc() == pc + Size(acc)
        invariant var rest := CondClausesCode(p, clauses[i..], Pc(), end);
                  whole.Good? == rest.Good? && (whole.Good? ==> whole.code == acc + rest.code)
      {
        var v := clauses[i];
        assert clauses[i..][0] == v && clauses[i..][1..] == clauses[i + 1..];
        if !IsArray(p.heap, v) || |p.heap[v].elems| != 2 { return false; }
        var a1 := CallableAddress(p, p.heap[v].elems[0]);
        var a2 := CallableAddress(p, p.heap[v].elems[1]);
        if a1.NoAddress? || a2.NoAddress? { return false; }
        ghost var c := CondClauseCode(Pc(), a1.a, a2.a, end);
        ghost var rest := CondClausesCode(p, clauses[i + 1..], Pc() + Size(c), end);
        if whole.Good? {
          Nest2(acc, c, rest.code);
          EncodableAppend(acc, c + rest.code);
          EncodableAppend(c, rest.code);
        }
        Nest2(l, acc, c);
        ok := EmitCondClause(a1.a, a2.a, end);
        if !ok { return; }
        acc := acc + c;
      }
      assert clauses[|clauses|..] == [] && acc + [] == acc;
      ok := true;
    }

    /** find: the position of the first quotation, or the length. */
    method FindQuotation(clauses: seq<word>) returns (i: nat)
      ensures i == DefaultIndex(p.heap, clauses)
    {
      i := 0;
      assert clauses[0..] == clauses;
      while i < |clauses| && !IsQuotation(p.heap, clauses[i])
        invariant i <= |clauses|
        invariant DefaultIndex(p.heap, clauses) == i + DefaultIndex(p.heap, clauses[i..])
      {
        assert clauses[i..][0] == clauses[i] && clauses[i..][1..] == clauses[i + 1..];
        i := i + 1;
      }
      assert i < |clauses| ==> clauses[i..][0] == clauses[i];
    }

    method EmitCond(clauses: seq<word>) returns (ok: bool)
      requires Valid()
      modifies this`code, this`listing
      ensures Feasible(CondCode(p, clauses, old(Pc()))) ==> ok
      ensures ok ==> CondCode(p, clauses, old(Pc())).Good? && Appended(CondCode(p, clauses, old(Pc())).code)
    {
      hide Valid, Patch, SitesIn, Size, Asm, CondClausesCode, DefaultIndex, Encodable;
      ghost var l, pc := listing, Pc();
      if clauses == [] { return false; }
      var d := FindQuotation(clauses);
      var end := d * 29 + Pc() + 5;
      var last := if d < |clauses| then CallableAddress(p, clauses[d]) else Address(p.noCond);
      if last.NoAddress? { return false; }
      ghost var body := CondClausesCode(p, clauses[..d], pc, end);
      if body.Good? {
        EncodableAppend(body.code, CallCode(pc + Size(body.code), last.a));
        assert CallCode(pc + Size(body.code), last.a)[0] == Call32(last.a - (pc + Size(body.code) + 5));
      }
      ok := EmitCondClauses(clauses[..d], end);
      if !ok { return; }
      Nest2(l, body.code, CallCode(pc + Size(body.code), last.a));
      ok := CompileCallAddress(last.a);
    }

    // ---- match* ----

    /** compile-literal*: always a quadword. */
    method CompileLiteralStar(v: word)
      requires Valid()
      modifies this`code, this`listing
      ensures Appended(DupCode() + One(MovImm64(RBX, Unwrap(p.heap, v))))
      ensures Unwrap(p.heap, v) == if v in p.heap && p.heap[v].Wrapper? then p.heap[v].wrapped else v
    {
      ghost var l := listing;
      var w := Unwrap(p.heap, v);
      EmitDup();
      AsmOne(MovImm64(RBX, w));
      EmitBytes([0x48, 0xbb] + Le64(w), One(MovImm64(RBX, w)));
      Nest2(l, DupCode(), One(MovImm64(RBX, w)));
    }

    /** The test of a pair: dup, the key, match?, and a jump past the drop and the call. */
    method EmitMatchTest(key: word, test: int) returns (ok: bool)
      requires Valid()
      modifies this`code, this`listing
      ensures Encodable(Call32(test - (old(Pc()) + 23))) ==> ok
      ensures ok ==> Appended(MatchTestCode(p, old(Pc()), key, test)) && Pc() == old(Pc()) + 37
    {
      hide Valid, Patch, SitesIn, Size, Asm, MatchTestCode, Encodable;
      MatchTestNest(listing, p, Pc(), key, test);
      CompileLiteralStar(key);
      ok := CompileCallAddress(test);
      if !ok { return; }
      EmitCmpNil();
      EmitDrop();
      EmitJz8(0x12);
    }

    /** compile-match*-step */
    method EmitMatchClause(key: word, test: int, a: int, end: int) returns (ok: bool)
      requires Valid()
      modifies this`code, this`listing
      ensures AllEncodable(MatchClauseCode(p, old(Pc()), key, test, a, end)) ==> ok
      ensures ok ==> Appended(MatchClauseCode(p, old(Pc()), key, test, a, end))
    {
      hide Valid, Patch, SitesIn, Size, Asm, ExitJump, MatchClauseCode, MatchTestCode, AllEncodable, Encodable;
      ghost var pc, l := Pc(), listing;
      MatchClauseNest(l, p, pc, key, test, a, end);
      if AllEncodable(MatchClauseCode(p, pc, key, test, a, end)) {
        MatchClauseEncodable(p, pc, key, test, a, end);
      }
      ok := EmitMatchTest(key, test);
      if !ok { return; }
      EmitDrop();
      ok := CompileCallAddress(a);
      if !ok { return; }
      ok := EmitExitJump(end);
    }

    /** The clauses before the default, pair by pair. */
    method EmitMatchClauses(pairs: seq<word>, end: int) returns (ok: bool)
      requires Valid() && |pairs| % 2 == 0
      modifies this`code, this`listing
      ensures Feasible(MatchClausesCode(p, pairs, old(Pc()), end)) ==> ok
      ensures ok ==> MatchClausesCode(p, pairs, old(Pc()), end).Good?
                     && Appended(MatchClausesCode(p, pairs, old(Pc()), end).code)
    {
      hide Patch, SitesIn, Size, Asm, MatchClauseCode, AllEncodable;
      ghost var l, pc := listing, Pc();
      ghost var acc: seq<Instr> := [];
      ghost var whole := MatchClausesCode(p, pairs, pc, end);
      SizeNone();
      assert pairs[0..] == pairs && l + [] == l;
      for j := 0 to |pairs| / 2
        modifies this`code, this`listing
        invariant Valid() && pending == old(pending) && forwardJumps == old(forwardJumps)
        invariant listing == l + acc && Pc() == pc + Size(acc)
        invariant var rest := MatchClausesCode(p, pairs[2 * j..], Pc(), end);
                  whole.Good? == rest.Good? && (whole.Good? ==> whole.code == acc + rest.code)
      {
        var i := 2 * j;
        assert pairs[i..][0] == pairs[i] && pairs[i..][1] == pairs[i + 1] && pairs[i..][2..] == pairs[i + 2..];
        var test := SymbolAddress(p, MatchTest);
        var a := QuotationAddress(p, pairs[i + 1]);
        if test.NoAddress? || a.NoAddress? { return false; }
        ghost var c := MatchClauseCode(p, Pc(), pairs[i], test.a, a.a, end);
        ghost var rest := MatchClausesCode(p, pairs[i + 2..], Pc() + Size(c), end);
        if whole.Good? {
          Nest2(acc, c, rest.code);
          EncodableAppend(acc, c + rest.code);
          EncodableAppend(c, rest.code);
        }
        Nest2(l, acc, c);
        ok := EmitMatchClause(pairs[i], test.a, a.a, end);
        if !ok { return; }
        acc := acc + c;
        assert i + 2 == 2 * (j + 1);
      }
      assert pairs[2 * (|pairs| / 2)..] == [] && acc + [] == acc;
      ok := true;
    }

    /** The last pair whose key is _, or -1. */
    method FindWildcard(pairs: seq<word>) returns (d: int)
      ensures d == WildcardIndex(p, pairs, |pairs| / 2)
    {
      d := -1;
      for j := 0 to |pairs| / 2
        invariant d == WildcardIndex(p, pairs, j)
      {
        if pairs[2 * j] == p.wildcard { d := j; }
      }
    }

    method EmitMatch(pairs: seq<word>) returns (ok: bool)
      requires Valid()
      modifies this`code, this`listing
      ensures Feasible(MatchCode(p, pairs, old(Pc()))) ==> ok
      ensures ok ==> MatchCode(p, pairs, old(Pc())).Good? && Appended(MatchCode(p, pairs, old(Pc())).code)
    {
      hide Valid, Patch, SitesIn, Size, Asm, MatchClausesCode, WildcardIndex, Encodable;
      ghost var l, pc := listing, Pc();
      var n := |pairs| / 2;
      if pairs == [] || |pairs| % 2 == 1 { return false; }
      var d := FindWildcard(pairs);
      var k := if 0 <= d then d else n;
      var end := if 0 <= d then d * 55 + Pc() + 13 else n * 55 + Pc() + 5;
      var last := if 0 <= d then CallableAddress(p, pairs[2 * d + 1]) else Address(p.noMatch);
      if last.NoAddress? { return false; }
      ghost var body := MatchClausesCode(p, pairs[..2 * k], pc, end);
      ghost var c := if body.Good? then body.code else [];
      ghost var tail := if 0 <= d then DropCode() + CallCode(pc + Size(c) + 8, last.a)
                        else CallCode(pc + Size(c), last.a);
      EncodableAppend(c, tail);
      assert Call32(last.a - (pc + Size(c) + (if 0 <= d then 8 else 0) + 5)) in tail;
      assert |pairs[..2 * k]| == 2 * k;
      ok := EmitMatchClauses(pairs[..2 * k], end);
      if !ok { return; }
      ghost var l2 := listing;
      if 0 <= d {
        EmitDrop();
        Nest2(l2, DropCode(), CallCode(Pc(), last.a));
      }
      ok := CompileCallAddress(last.a);
      Nest2(l, c, tail);
    }

    // ---- operators: the literals taken, the others flushed, the code laid down ----

    /** The operator has been compiled as OpCode says; it is, whenever that is feasible. */
    twostate predicate Compiled(op: Op, ok: bool)
      reads this
    {
      var r := OpCode(p, op, old(pending), old(Pc()), Address(exit));
      && (Feasible(r) ==> ok)
      && (ok ==>
            && r.Good?
            && Valid()
            && pending == []
            && listing == old(listing) + r.code
            && Pc() == old(Pc()) + Size(r.code))
    }

    /** The n last literals leave the queue and the others are compiled. */
    method TakeAndFlush(n: nat) returns (lits: seq<word>)
      requires Valid() && n <= 2 && n <= |pending|
      modifies this`code, this`listing, this`pending
      ensures Valid() && pending == [] && forwardJumps == old(forwardJumps)
      ensures lits == old(pending)[|old(pending)| - n..]
      ensures var c := FlushCode(Unwrapped(p.heap, old(pending)[..|old(pending)| - n]));
              listing == old(listing) + c && Pc() == old(Pc()) + Size(c)
    {
      hide FlushCode, Size, Asm, Patch, SitesIn;
      lits := [];
      if n == 2 {
        var v := PendingRemoveLast();
        lits := [v];
      }
      if n >= 1 {
        var v := PendingRemoveLast();
        lits := [v] + lits;
      }
      assert pending == old(pending)[..|old(pending)| - n];
      assert lits == old(pending)[|old(pending)| - n..];
      FlushPending();
    }

    /** flush-pending and compile-call-symbol */
    method FlushAndCall(op: Op) returns (ok: bool)
      requires Valid()
      requires Taken(p, op, pending) == 0 && !LeavesBody(op) && !op.Nip?
      requires !op.Unless? && !op.AndStar? && !op.OrStar?
      modifies this`code, this`listing, this`pending
      ensures Compiled(op, ok)
    {
      hide Valid, OpCode, OperatorCode, FlushCode, Size, Asm, Patch, SitesIn, Taken, Unwrapped;
      ghost var flush, c := OpCodeParts(p, op, pending, Pc(), Address(exit), 0);
      assert pending[..|pending| - 0] == pending && pending[|pending| - 0..] == [];
      CallCodeIs(p, op, Pc() + Size(flush), Address(exit));
      ghost var l := listing;
      FlushPending();
      var a := SymbolAddress(p, op);
      if a.NoAddress? { return false; }
      ghost var call := CallCode(Pc(), a.a);
      assert call[0] == Call32(a.a - (Pc() + 5));
      Nest2(l, flush, call);
      ok := CompileCallAddress(a.a);
    }

    /** The code of an operator that takes one callable literal. */
    method EmitOne(op: Op, a: int) returns (ok: bool)
      requires Valid() && TakesOne(op)
      modifies this`code, this`listing
      ensures AllEncodable(OneCode(op, old(Pc()), a)) ==> ok
      ensures ok ==> Appended(OneCode(op, old(Pc()), a))
    {
      hide Valid, Size, Asm, WhenCode, WhenStarCode, UnlessCode, DipCode, Encodable;
      match op
      case When => ok := EmitWhen(a);
      case WhenStar => ok := EmitWhenStar(a);
      case Unless => ok := EmitUnless(a);
      case Dip => ok := EmitDip(a);
      case Call =>
        assert CallCode(Pc(), a)[0] == Call32(a - (Pc() + 5));
        ok := CompileCallAddress(a);
    }

    /** compile-when, compile-when*, compile-unless, compile-dip and compile-call: the last
        literal is taken if there is one. */
    method CompileOne(op: Op) returns (ok: bool)
      requires Valid() && TakesOne(op)
      modifies this`code, this`listing, this`pending
      ensures Compiled(op, ok)
    {
      hide Valid, OpCode, OperatorCode, FlushCode, Size, Asm, Patch, SitesIn, AllEncodable, OneCode, Unwrapped;
      if pending == [] {
        if op.Unless? {
          Refused(p, op, pending, Pc(), Address(exit));
          ok := false;
        } else {
          ok := FlushAndCall(op);
        }
        return;
      }
      var v := pending[|pending| - 1];
      ghost var flush, c := OpCodeParts(p, op, pending, Pc(), Address(exit), 1);
      ghost var l := listing;
      OneCodeIs(p, op, pending[|pending| - 1..], Pc() + Size(flush), Address(exit));
      var a := CallableAddress(p, Unwrap(p.heap, v));
      if a.NoAddress? { return false; }
      var lits := TakeAndFlush(1);
      Nest2(l, flush, c.code);
      ok := EmitOne(op, a.a);
    }

    /** The code of an operator that takes two literal quotations. */
    method EmitTwo(op: Op, a1: int, a2: int) returns (ok: bool)
      requires Valid() && TakesTwo(op)
      modifies this`code, this`listing
      ensures AllEncodable(TwoCode(op, old(Pc()), a1, a2)) ==> ok
      ensures ok ==> Appended(TwoCode(op, old(Pc()), a1, a2))
    {
      hide Valid, Size, Asm, IfCode, IfStarCode, AndStarCode, OrStarCode, WhileCode, BiCode, AllEncodable;
      match op
      case If => ok := EmitIf(a1, a2);
      case IfStar => ok := EmitIfStar(a1, a2);
      case AndStar => ok := EmitAndStar(a1, a2);
      case OrStar => ok := EmitOrStar(a1, a2);
      case While => ok := EmitWhile(a1, a2);
      case Bi => ok := EmitBi(a1, a2);
    }

    /** compile-if, compile-if*, compile-and*, compile-or*, compile-while and compile-bi: the
        two last literals are taken if both are quotations. */
    method CompileTwo(op: Op) returns (ok: bool)
      requires Valid() && TakesTwo(op)
      modifies this`code, this`listing, this`pending
      ensures Compiled(op, ok)
    {
      hide Valid, OpCode, OperatorCode, FlushCode, Size, Asm, Patch, SitesIn, AllEncodable, TwoCode, Unwrapped;
      var n := |pending|;
      if n < 2 || !IsQuotation(p.heap, pending[n - 1]) || !IsQuotation(p.heap, pending[n - 2]) {
        if op.AndStar? || op.OrStar? {
          Refused(p, op, pending, Pc(), Address(exit));
          ok := false;
        } else {
          ok := FlushAndCall(op);
        }
        return;
      }
      ghost var flush, c := OpCodeParts(p, op, pending, Pc(), Address(exit), 2);
      ghost var l := listing;
      TwoCodeIs(p, op, pending[n - 2..], Pc() + Size(flush), Address(exit));
      var a1 := QuotationAddress(p, pending[n - 2]);
      var a2 := QuotationAddress(p, pending[n - 1]);
      if a1.NoAddress? || a2.NoAddress? { return false; }
      var lits := TakeAndFlush(2);
      Nest2(l, flush, c.code);
      ok := EmitTwo(op, a1.a, a2.a);
    }

    method CompileReturnNoLocals() returns (ok: bool)
      requires Valid()
      modifies this`code, this`listing, this`pending
      ensures Compiled(ReturnNoLocals, ok)
    {
      hide Valid, OpCode, OperatorCode, FlushCode, Size, Asm, Patch, SitesIn, AllEncodable, ReturnNoLocalsCode;
      hide Unwrapped;
      if pending == [] {
        Refused(p, ReturnNoLocals, pending, Pc(), Address(exit));
        ok := false;
        return;
      }
      ghost var flush, c := OpCodeParts(p, ReturnNoLocals, pending, Pc(), Address(exit), 1);
      ghost var l := listing;
      ReturnCodeIs(p, pending[|pending| - 1..], Pc() + Size(flush), Address(exit));
      var a := CallableAddress(p, Unwrap(p.heap, pending[|pending| - 1]));
      if a.NoAddress? { return false; }
      var lits := TakeAndFlush(1);
      Nest2(l, flush, c.code);
      ok := EmitReturnNoLocals(a.a);
    }

    method CompileReturnLocals() returns (ok: bool)
      requires Valid()
      modifies this`code, this`listing, this`pending, this`forwardJumps
      ensures Compiled(ReturnLocals, ok)
    {
      hide Valid, OpCode, OperatorCode, FlushCode, Size, Asm, Patch, SitesIn, AllEncodable, ReturnLocalsCode;
      hide Unwrapped;
      if pending == [] {
        Refused(p, ReturnLocals, pending, Pc(), Address(exit));
        ok := false;
        return;
      }
      ghost var flush, c := OpCodeParts(p, ReturnLocals, pending, Pc(), Address(exit), 1);
      ghost var l := listing;
      ReturnCodeIs(p, pending[|pending| - 1..], Pc() + Size(flush), Address(exit));
      var a := CallableAddress(p, Unwrap(p.heap, pending[|pending| - 1]));
      if a.NoAddress? { return false; }
      var lits := TakeAndFlush(1);
      assert ForwardJump(Address(exit), Pc() + 24) == exit - (Pc() + 24);
      Nest2(l, flush, c.code);
      ok := EmitReturnLocals(a.a);
    }

    method CompileBiAt() returns (ok: bool)
      requires Valid()
      modifies this`code, this`listing, this`pending
      ensures Compiled(BiAt, ok)
    {
      hide OpCode, FlushCode, Size, Asm, Patch, SitesIn, AllEncodable, BiAtCode;
      hide CondCode, MatchCode, KeepTarget, Unwrapped;
      var n := |pending|;
      if n == 0 || !IsQuotation(p.heap, pending[n - 1]) {
        ok := FlushAndCall(BiAt);
        return;
      }
      ghost var flush, c := OpCodeParts(p, BiAt, pending, Pc(), Address(exit), 1);
      ghost var l := listing;
      var a := QuotationAddress(p, pending[n - 1]);
      if a.NoAddress? { return false; }
      var lits := TakeAndFlush(1);
      Nest2(l, flush, c.code);
      ok := EmitBiAt(a.a);
    }

    method CompileKeep() returns (ok: bool)
      requires Valid()
      modifies this`code, this`listing, this`pending
      ensures Compiled(Keep, ok)
    {
      hide OpCode, FlushCode, Size, Asm, Patch, SitesIn, AllEncodable, KeepCode;
      hide CondCode, MatchCode, KeepTarget, Unwrapped;
      var n := |pending|;
      if n == 0 || !IsCallable(p.heap, Unwrap(p.heap, pending[n - 1])) {
        ok := FlushAndCall(Keep);
        return;
      }
      ghost var flush, c := OpCodeParts(p, Keep, pending, Pc(), Address(exit), 1);
      ghost var l := listing;
      var a := KeepTarget(p, Unwrap(p.heap, pending[n - 1]));
      if a.NoAddress? { return false; }
      var lits := TakeAndFlush(1);
      Nest2(l, flush, c.code);
      ok := EmitKeep(a.a);
    }

    method CompileNip() returns (ok: bool)
      requires Valid()
      modifies this`code, this`listing, this`pending
      ensures Compiled(Nip, ok)
    {
      hide OpCode, FlushCode, Size, Asm, Patch, SitesIn, AllEncodable, NipCode, MovLiteral;
      hide CondCode, MatchCode, KeepTarget, Unwrapped;
      var n := if pending == [] then 0 else 1;
      ghost var flush, c := OpCodeParts(p, Nip, pending, Pc(), Address(exit), n);
      ghost var l := listing;
      ok := true;
      var lits := TakeAndFlush(n);
      Nest2(l, flush, c.code);
      if n == 0 {
        EmitNip();
      } else {
        EmitMovLiteral(Unwrap(p.heap, lits[0]));
      }
    }

    method CompileCond() returns (ok: bool)
      requires Valid()
      modifies this`code, this`listing, this`pending
      ensures Compiled(Cond, ok)
    {
      hide OpCode, FlushCode, Size, Asm, Patch, SitesIn, AllEncodable, CondCode;
      hide MatchCode, KeepTarget, Unwrapped;
      if pending == [] {
        ok := FlushAndCall(Cond);
        return;
      }
      ghost var flush, c := OpCodeParts(p, Cond, pending, Pc(), Address(exit), 1);
      ghost var l := listing;
      if !IsArray(p.heap, pending[|pending| - 1]) { return false; }
      var lits := TakeAndFlush(1);
      if c.Good? { Nest2(l, flush, c.code); }
      ok := EmitCond(p.heap[lits[0]].elems);
    }

    method CompileMatch() returns (ok: bool)
      requires Valid()
      modifies this`code, this`listing, this`pending
      ensures Compiled(MatchStar, ok)
    {
      hide OpCode, FlushCode, Size, Asm, Patch, SitesIn, AllEncodable, MatchCode;
      hide CondCode, KeepTarget, Unwrapped;
      if pending == [] {
        ok := FlushAndCall(MatchStar);
        return;
      }
      ghost var flush, c := OpCodeParts(p, MatchStar, pending, Pc(), Address(exit), 1);
      ghost var l := listing;
      if !IsArray(p.heap, pending[|pending| - 1]) { return false; }
      var lits := TakeAndFlush(1);
      if c.Good? { Nest2(l, flush, c.code); }
      ok := EmitMatch(p.heap[lits[0]].elems);
    }

    method CompileLocalGet() returns (ok: bool)
      requires Valid()
      modifies this`code, this`listing, this`pending
      ensures Compiled(LocalGet, ok)
      ensures forall n: nat :: ok && old(pending) != [] && old(pending)[|old(pending)| - 1] == 2 * n + 1
                               ==> EndsIn(listing, LocalGetCode(n))
    {
      hide OpCode, FlushCode, Size, Asm, Patch, SitesIn, AllEncodable, LocalGetCode;
      hide CondCode, MatchCode, KeepTarget, Unwrapped, EndsIn, Untag;
      if pending == [] {
        ok := FlushAndCall(LocalGet);
        return;
      }
      ghost var flush, c := OpCodeParts(p, LocalGet, pending, Pc(), Address(exit), 1);
      ghost var l := listing;
      if !IsFixnum(pending[|pending| - 1]) { return false; }
      var lits := TakeAndFlush(1);
      Nest2(l, flush, c.code);
      EndsBehind(l + flush, c.code);
      UntagOf(lits[0]);
      ok := EmitLocalGet(Untag(lits[0]));
    }

    method CompileLocalSet() returns (ok: bool)
      requires Valid()
      modifies this`code, this`listing, this`pending
      ensures Compiled(LocalSet, ok)
      ensures forall n: nat :: ok && old(pending) != [] && old(pending)[|old(pending)| - 1] == 2 * n + 1
                               ==> if |old(pending)| == 1 then EndsIn(listing, LocalSetCode(n))
                                   else EndsIn(listing, LocalSetLiteralCode(n, old(pending)[|old(pending)| - 2]))
    {
      hide Valid, OpCode, OperatorCode, FlushCode, Size, Asm, Patch, SitesIn, AllEncodable;
      hide LocalSetCode, LocalSetLiteralCode, Unwrapped, EndsIn, Untag;
      if pending == [] {
        ok := FlushAndCall(LocalSet);
        return;
      }
      var n := if |pending| == 1 then 1 else 2;
      ghost var flush, c := OpCodeParts(p, LocalSet, pending, Pc(), Address(exit), n);
      ghost var l := listing;
      LocalSetCodeIs(p, pending[|pending| - n..], Pc() + Size(flush), Address(exit));
      if !IsFixnum(pending[|pending| - 1]) { return false; }
      var lits := TakeAndFlush(n);
      Nest2(l, flush, c.code);
      EndsBehind(l + flush, c.code);
      UntagOf(lits[n - 1]);
      if n == 1 {
        ok := EmitLocalSet(Untag(lits[0]));
      } else {
        ok := EmitLocalSetLiteral(Untag(lits[1]), lits[0]);
      }
    }

    /** ?exit copies its code in; with locals it leaves a forward jump. */
    method CompileExit(op: Op) returns (ok: bool)
      requires Valid() && (op == ExitNoLocals || op == ExitLocals)
      modifies this`code, this`listing, this`pending, this`forwardJumps
      ensures Compiled(op, ok)
    {
      hide OpCode, FlushCode, Size, Asm, Patch, SitesIn, AllEncodable, ExitNoLocalsCode, ExitLocalsCode;
      hide CondCode, MatchCode, KeepTarget, Unwrapped;
      ghost var flush, c := OpCodeParts(p, op, pending, Pc(), Address(exit), 0);
      assert pending[..|pending| - 0] == pending;
      ghost var l := listing;
      ok := true;
      FlushPending();
      Nest2(l, flush, c.code);
      if op == ExitNoLocals {
        EmitExitNoLocals();
      } else {
        assert ForwardJump(Address(exit), Pc() + 18) == exit - (Pc() + 18);
        EmitExitLocals();
      }
    }

    /** compile-operator-node */
    method CompileOperator(op: Op) returns (ok: bool)
      requires Valid()
      modifies this`code, this`listing, this`pending, this`forwardJumps
      ensures Compiled(op, ok)
    {
      hide Valid, Feasible, OpCode, Size, Asm, Pc;
      match op {
        case When => ok := CompileOne(op);
        case WhenStar => ok := CompileOne(op);
        case Unless => ok := CompileOne(op);
        case Dip => ok := CompileOne(op);
        case Call => ok := CompileOne(op);
        case If => ok := CompileTwo(op);
        case IfStar => ok := CompileTwo(op);
        case AndStar => ok := CompileTwo(op);
        case OrStar => ok := CompileTwo(op);
        case While => ok := CompileTwo(op);
        case Bi => ok := CompileTwo(op);
        case Keep => ok := CompileKeep();
        case BiAt => ok := CompileBiAt();
        case Nip => ok := CompileNip();
        case Cond => ok := CompileCond();
        case MatchStar => ok := CompileMatch();
        case LocalGet => ok := CompileLocalGet();
        case LocalSet => ok := CompileLocalSet();
        case ExitNoLocals => ok := CompileExit(op);
        case ExitLocals => ok := CompileExit(op);
        case ReturnNoLocals => ok := CompileReturnNoLocals();
        case ReturnLocals => ok := CompileReturnLocals();
        case Word(_) => ok := FlushAndCall(op);
        case MatchTest => ok := FlushAndCall(op);
      }
    }

    /** The compile loop and the flush after it. */
    method CompileElems(elems: seq<word>) returns (ok: bool)
      requires Valid() && pending == []
      modifies this`code, this`listing, this`pending, this`forwardJumps
      ensures var r := ElemsCode(p, elems, [], old(Pc()), Address(exit));
              && (Feasible(r) ==> ok)
              && (ok ==> r.Good? && Valid() && pending == [] && listing == old(listing) + r.code
                         && Pc() == old(Pc()) + Size(r.code))
    {
      hide OpCode, FlushCode, Unwrapped, Size, Asm, Patch, SitesIn, AllEncodable;
      ghost var l, pc := listing, Pc();
      ghost var acc: seq<Instr> := [];
      ghost var whole := ElemsCode(p, elems, [], pc, Address(exit));
      SizeNone();
      assert elems[0..] == elems && l + [] == l && whole.Good? ==> whole.code == [] + whole.code;
      for i := 0 to |elems|
        invariant Valid()
        invariant listing == l + acc && Pc() == pc + Size(acc)
        invariant var rest := ElemsCode(p, elems[i..], pending, Pc(), Address(exit));
                  whole.Good? == rest.Good? && (whole.Good? ==> whole.code == acc + rest.code)
      {
        var e := elems[i];
        assert elems[i..][0] == e && elems[i..][1..] == elems[i + 1..];
        if IsSymbol(p.heap, e) {
          ghost var c := OpCode(p, p.heap[e].op, pending, Pc(), Address(exit));
          if whole.Good? {
            ghost var rest := ElemsCode(p, elems[i + 1..], [], Pc() + Size(c.code), Address(exit));
            Nest2(acc, c.code, rest.code);
            EncodableAppend(acc, c.code + rest.code);
            EncodableAppend(c.code, rest.code);
          }
          ok := CompileOperator(p.heap[e].op);
          if !ok { return; }
          Nest2(l, acc, c.code);
          acc := acc + c.code;
        } else {
          pending := pending + [e];
        }
      }
      assert elems[|elems|..] == [];
      Nest2(l, acc, FlushCode(Unwrapped(p.heap, pending)));
      FlushPending();
      ok := true;
    }

    /** The displacement field at every site is made to lead to exitAddress. */
    method PatchForwardJumps(exitAddress: int)
      requires SitesIn(forwardJumps, origin, |code|)
      modifies this`code
      ensures code == Patch(old(code), origin, forwardJumps, exitAddress)
    {
      hide PatchOne, Le32;
      for j := 0 to |forwardJumps|
        invariant |code| == |old(code)|
        invariant code == Patch(old(code), origin, forwardJumps[..j], exitAddress)
      {
        var a := forwardJumps[j];
        PatchSnoc(old(code), origin, forwardJumps[..j], a, exitAddress);
        assert forwardJumps[..j + 1] == forwardJumps[..j] + [a];
        code := PatchOne(code, a - origin, exitAddress - (a + 4));
      }
      assert forwardJumps[..|forwardJumps|] == forwardJumps;
    }

    /** primitive-compile-quotation: given where its epilog falls, the compiler leaves
        exactly the bytes of the finished listing, forward jumps patched. */
    method CompileQuotation(elems: seq<word>) returns (ok: bool)
      requires Valid() && code == [] && listing == [] && pending == [] && forwardJumps == []
      requires var body := ElemsCode(p, elems, [], origin + Size(PrologCode(locals)), Address(exit));
               body.Good? ==> exit == origin + Size(PrologCode(locals)) + Size(body.code)
      modifies this`code, this`listing, this`pending, this`forwardJumps
      ensures var r := QuotationCode(p, elems, locals, origin, Address(exit));
              && (Feasible(r) ==> ok)
              && (ok ==> r.Good? && code == Asm(r.code))
    {
      hide ElemsCode, PrologCode, EpilogCode, Size, Asm, Patch, Encodable, AllEncodable, SitesIn;
      ghost var prolog := PrologCode(locals);
      ghost var body := ElemsCode(p, elems, [], origin + Size(prolog), Address(exit));
      ghost var c := if body.Good? then body.code else [];
      ghost var tail := EpilogCode(locals) + One(Ret);
      EncodableAppend(prolog, c + tail);
      EncodableAppend(c, tail);
      EncodableAppend(EpilogCode(locals), One(Ret));
      ok := CompileProlog();
      if !ok { return; }
      assert [] + prolog == prolog;
      ok := CompileElems(elems);
      if !ok { return; }
      var exitAddress := Pc();
      ok := CompileEpilog();
      if !ok { return; }
      EmitRet();
      Nest4([], prolog, c, EpilogCode(locals), One(Ret));
      assert [] + prolog + c + EpilogCode(locals) + One(Ret) == listing;
      assert [] + (prolog + (c + tail)) == prolog + (c + tail);
      PatchForwardJumps(exitAddress);
    }
  }
}
