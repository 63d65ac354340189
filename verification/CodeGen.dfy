/** The code that the compiler lays down for each construct, as instruction listings.
    Every jump distance is the constant of src/compiler.feline; every call displacement
    is counted from the end of its five-byte call (src/compile-word.asm). */
module CodeGen {
  import opened Bytes
  import opened X86
  import opened Source

  /** What the compiler knows: the heap, the code addresses given out so far, and the
      addresses of the two words that report a failed cond or match*. */
  datatype Program = Program(
    heap: Heap,
    quotAddr: map<word, int>,
    opAddr: map<Op, int>,
    noCond: int,
    noMatch: int,
    wildcard: word)

  // ---- instruction sequences ----

  function One(i: Instr): (c: seq<Instr>)
    ensures Size(c) == Len(i)
  {
    assert Size([i]) == Len(i) + Size([i][1..]);
    [i]
  }

  function Two(i: Instr, j: Instr): (c: seq<Instr>)
    ensures Size(c) == Len(i) + Len(j)
  {
    assert [i, j][1..] == One(j);
    [i, j]
  }

  lemma {:induction false} SizeAppend(xs: seq<Instr>, ys: seq<Instr>)
    ensures Size(xs + ys) == Size(xs) + Size(ys)
  {
    if xs == [] {
      assert xs + ys == ys;
    } else {
      assert (xs + ys)[1..] == xs[1..] + ys;
      SizeAppend(xs[1..], ys);
    }
  }

  lemma {:induction false} AsmAppend(xs: seq<Instr>, ys: seq<Instr>)
    ensures Asm(xs + ys) == Asm(xs) + Asm(ys)
  {
    if xs == [] {
      assert xs + ys == ys;
    } else {
      assert (xs + ys)[1..] == xs[1..] + ys;
      AsmAppend(xs[1..], ys);
    }
  }

  /** emit-dup */
  function DupCode(): (c: seq<Instr>)
    ensures Size(c) == 8
  {
    Two(Store(At8(RBP, -8), RBX), Lea(RBP, RBP, -8))
  }

  /** emit-drop */
  function DropCode(): (c: seq<Instr>)
    ensures Size(c) == 8
  {
    Two(Load(RBX, At8(RBP, 0)), Lea(RBP, RBP, 8))
  }

  /** cmp rbx, nil */
  function CmpNil(): (c: seq<Instr>)
    ensures Size(c) == 4
  {
    One(AluImm8(CMP, RBX, 0))
  }

  /** compile-call-address, with a displacement that fits in 32 bits. */
  function CallCode(pc: int, target: int): (c: seq<Instr>)
    ensures Size(c) == 5
  {
    One(Call32(target - (pc + 5)))
  }

  function JumpCode(pc: int, target: int): (c: seq<Instr>)
    ensures Size(c) == 5
  {
    One(Jmp32(target - (pc + 5)))
  }

  function PushCode(): (c: seq<Instr>)
    ensures Size(c) == 1
  {
    One(Push(RBX))
  }

  function PopCode(): (c: seq<Instr>)
    ensures Size(c) == 1
  {
    One(Pop(RBX))
  }

  // ---- literals ----

  function MovLiteral(v: word): Instr {
    if v < TWO_31 then MovImm32(RBX, v) else MovImm64(RBX, v)
  }

  /** compile-literal, the wrapper already removed. */
  function LiteralCode(v: word): seq<Instr> { DupCode() + One(MovLiteral(v)) }

  /** flush-pending */
  function FlushCode(vs: seq<word>): seq<Instr> {
    if vs == [] then [] else LiteralCode(vs[0]) + FlushCode(vs[1..])
  }

  // ---- combinators with literal quotations ----

  function WhenCode(pc: int, a: int): seq<Instr> {
    CmpNil() + (DropCode() + (One(Jz8(5)) + CallCode(pc + 14, a)))
  }

  function UnlessCode(pc: int, a: int): seq<Instr> {
    CmpNil() + (DropCode() + (One(Jne8(5)) + CallCode(pc + 14, a)))
  }

  function WhenStarCode(pc: int, a: int): seq<Instr> {
    CmpNil() + (One(Jz8(7)) + (CallCode(pc + 6, a) + (One(Jmp8(8)) + DropCode())))
  }

  function IfCode(pc: int, a1: int, a2: int): seq<Instr> {
    CmpNil() + (DropCode() + (One(Jz8(7)) + (CallCode(pc + 14, a1) + (One(Jmp8(5)) + CallCode(pc + 21, a2)))))
  }

  function IfStarCode(pc: int, a1: int, a2: int): seq<Instr> {
    CmpNil() + (One(Jz8(7)) + (CallCode(pc + 6, a1) + (One(Jmp8(13)) + (DropCode() + CallCode(pc + 21, a2)))))
  }

  function AndStarCode(pc: int, a1: int, a2: int): seq<Instr> {
    CallCode(pc, a1) + (CmpNil() + (One(Jz8(13)) + (DropCode() + CallCode(pc + 19, a2))))
  }

  function OrStarCode(pc: int, a1: int, a2: int): seq<Instr> {
    CallCode(pc, a1) + (CmpNil() + (One(Jne8(13)) + (DropCode() + CallCode(pc + 19, a2))))
  }

  function WhileCode(pc: int, a1: int, a2: int): seq<Instr> {
    CallCode(pc, a1) + (CmpNil() + (DropCode() + (One(Jz8(7)) + (CallCode(pc + 19, a2) + One(Jmp8(-26))))))
  }

  function KeepCode(pc: int, a: int): seq<Instr> {
    PushCode() + (CallCode(pc + 1, a) + (DupCode() + PopCode()))
  }

  function DipCode(pc: int, a: int): seq<Instr> {
    PushCode() + (DropCode() + (CallCode(pc + 9, a) + (DupCode() + PopCode())))
  }

  function BiCode(pc: int, a1: int, a2: int): seq<Instr> {
    PushCode() + (CallCode(pc + 1, a1) + (DupCode() + (PopCode() + CallCode(pc + 15, a2))))
  }

  function BiAtCode(pc: int, a: int): seq<Instr> {
    PushCode() + (DropCode() + (CallCode(pc + 9, a) + (DupCode() + (PopCode() + CallCode(pc + 23, a)))))
  }

  function NipCode(): seq<Instr> { One(Lea(RBP, RBP, 8)) }

  // ---- leaving early; exit is the address of the epilog ----

  function ReturnNoLocalsCode(pc: int, a: int): seq<Instr> {
    CmpNil() + (DropCode() + (One(Jz8(6)) + (CallCode(pc + 14, a) + One(Ret))))
  }

  function ReturnLocalsCode(pc: int, a: int, jump: int): seq<Instr> {
    CmpNil() + (DropCode() + (One(Jz8(10)) + (CallCode(pc + 14, a) + One(Jmp32(jump)))))
  }

  function ExitNoLocalsCode(): seq<Instr> {
    CmpNil() + (DropCode() + (One(Jz8(1)) + One(Ret)))
  }

  function ExitLocalsCode(jump: int): seq<Instr> {
    CmpNil() + (DropCode() + One(Jne32(jump)))
  }

  // ---- locals ----

  /** Local n is the cell at r14 + 8n; the operand form depends on n. */
  function LocalMem(n: nat): Mem {
    if n == 0 then At(R14) else if n < 16 then At8(R14, 8 * n) else At32(R14, 8 * n)
  }

  function LocalGetCode(n: nat): seq<Instr> { DupCode() + One(Load(RBX, LocalMem(n))) }

  function LocalSetCode(n: nat): seq<Instr> { One(Store(LocalMem(n), RBX)) + DropCode() }

  function LocalSetLiteralCode(n: nat, x: word): seq<Instr> {
    One(MovImm64(RAX, x)) + One(Store(LocalMem(n), RAX))
  }

  function AddRsp(op: ext, n: nat): Instr {
    if n < 128 then AluImm8(op, RSP, n) else AluImm32(op, RSP, n)
  }

  function PrologCode(locals: nat): seq<Instr> {
    if locals == 0 then []
    else One(Push(R14)) + (One(AddRsp(SUB, 8 * locals)) + One(MovReg(R14, RSP)))
  }

  function EpilogCode(locals: nat): seq<Instr> {
    if locals == 0 then [] else One(AddRsp(ADD, 8 * locals)) + One(Pop(R14))
  }

  // ---- addresses ----

  datatype Address = NoAddress | Address(a: int)

  function QuotationAddress(p: Program, v: word): Address {
    if IsQuotation(p.heap, v) && v in p.quotAddr then Address(p.quotAddr[v]) else NoAddress
  }

  function SymbolAddress(p: Program, op: Op): Address {
    if op in p.opAddr then Address(p.opAddr[op]) else NoAddress
  }

  /** callable-code-address */
  function CallableAddress(p: Program, v: word): Address {
    if IsSymbol(p.heap, v) then SymbolAddress(p, p.heap[v].op) else QuotationAddress(p, v)
  }

  // ---- cond ----

  datatype Listing = Bad | Good(code: seq<Instr>)

  /** The jump to the end of a cond or match*, left out when it would go nowhere. */
  function ExitJump(pc: int, end: int): seq<Instr> {
    if end - (pc + 5) == 0 then [] else JumpCode(pc, end)
  }

  function CondClauseCode(pc: int, a1: int, a2: int, end: int): seq<Instr> {
    CallCode(pc, a1) + (CmpNil() + (DropCode() + (One(Jz8(10)) + (CallCode(pc + 19, a2) + ExitJump(pc + 24, end)))))
  }

  /** The position of the first quotation among the clauses, or their number. */
  function DefaultIndex(h: Heap, clauses: seq<word>): (i: nat)
    ensures i <= |clauses|
    ensures forall k :: 0 <= k < i ==> !IsQuotation(h, clauses[k])
    ensures i < |clauses| ==> IsQuotation(h, clauses[i])
  {
    if clauses == [] || IsQuotation(h, clauses[0]) then 0 else 1 + DefaultIndex(h, clauses[1..])
  }

  function CondClausesCode(p: Program, clauses: seq<word>, pc: int, end: int): Listing
    decreases |clauses|
  {
    if clauses == [] then Good([])
    else if !IsArray(p.heap, clauses[0]) || |p.heap[clauses[0]].elems| != 2 then Bad
    else
      var a1 := CallableAddress(p, p.heap[clauses[0]].elems[0]);
      var a2 := CallableAddress(p, p.heap[clauses[0]].elems[1]);
      if !a1.Address? || !a2.Address? then Bad
      else
        var c := CondClauseCode(pc, a1.a, a2.a, end);
        var rest := CondClausesCode(p, clauses[1..], pc + Size(c), end);
        if rest.Bad? then Bad else Good(c + rest.code)
  }

  /** compile-cond on a literal array; the end address is computed before any clause. */
  function CondCode(p: Program, clauses: seq<word>, pc: int): Listing {
    var d := DefaultIndex(p.heap, clauses);
    var last := if d < |clauses| then CallableAddress(p, clauses[d]) else Address(p.noCond);
    var end := d * 29 + pc + 5;
    var body := CondClausesCode(p, clauses[..d], pc, end);
    if clauses == [] || !last.Address? || body.Bad? then Bad
    else Good(body.code + CallCode(pc + Size(body.code), last.a))
  }

  // ---- match* ----

  function MatchClauseCode(p: Program, pc: int, key: word, test: int, a: int, end: int): seq<Instr> {
    DupCode() + (One(MovImm64(RBX, Unwrap(p.heap, key))) + (CallCode(pc + 18, test) + (CmpNil() +
    (DropCode() + (One(Jz8(18)) + (DropCode() + (CallCode(pc + 45, a) + ExitJump(pc + 50, end))))))))
  }

  /** The number of the last pair whose key is _, or the number of pairs. */
  function WildcardIndex(p: Program, pairs: seq<word>, n: nat): (i: int)
    requires 2 * n <= |pairs|
    ensures -1 <= i < n
    ensures 0 <= i ==> pairs[2 * i] == p.wildcard
    ensures forall k :: i < k < n ==> pairs[2 * k] != p.wildcard
  {
    if n == 0 then -1
    else if pairs[2 * (n - 1)] == p.wildcard then n - 1
    else WildcardIndex(p, pairs, n - 1)
  }

  function MatchClausesCode(p: Program, pairs: seq<word>, pc: int, end: int): Listing
    decreases |pairs|
  {
    if |pairs| < 2 then Good([])
    else
      var test := SymbolAddress(p, MatchTest);
      var a := QuotationAddress(p, pairs[1]);
      if !test.Address? || !a.Address? then Bad
      else
        var c := MatchClauseCode(p, pc, pairs[0], test.a, a.a, end);
        var rest := MatchClausesCode(p, pairs[2..], pc + Size(c), end);
        if rest.Bad? then Bad else Good(c + rest.code)
  }

  /** compile-match* on a literal array of key, quotation pairs. */
  function MatchCode(p: Program, pairs: seq<word>, pc: int): Listing {
    var n := |pairs| / 2;
    var d := WildcardIndex(p, pairs, n);
    var k := if 0 <= d then d else n;
    var end := if 0 <= d then d * 55 + pc + 13 else n * 55 + pc + 5;
    var body := MatchClausesCode(p, pairs[..2 * k], pc, end);
    if pairs == [] || |pairs| % 2 == 1 || body.Bad? then Bad
    else if 0 <= d then
      var last := CallableAddress(p, pairs[2 * d + 1]);
      if !last.Address? then Bad
      else Good(body.code + (DropCode() + CallCode(pc + Size(body.code) + 8, last.a)))
    else Good(body.code + CallCode(pc + Size(body.code), p.noMatch))
  }

  // ---- one operator ----

  predicate LastAreQuotations(p: Program, pending: seq<word>, n: nat) {
    && n <= |pending|
    && forall k :: |pending| - n <= k < |pending| ==> IsQuotation(p.heap, pending[k])
  }

  predicate IsCallable(h: Heap, v: word) { IsQuotation(h, v) || IsSymbol(h, v) }

  /** How many queued literals the operator's compiler removes instead of flushing. */
  function Taken(p: Program, op: Op, pending: seq<word>): (n: nat)
    ensures n <= |pending| && n <= 2
  {
    match op
    case If => if LastAreQuotations(p, pending, 2) then 2 else 0
    case IfStar => if LastAreQuotations(p, pending, 2) then 2 else 0
    case AndStar => if LastAreQuotations(p, pending, 2) then 2 else 0
    case OrStar => if LastAreQuotations(p, pending, 2) then 2 else 0
    case While => if LastAreQuotations(p, pending, 2) then 2 else 0
    case Bi => if LastAreQuotations(p, pending, 2) then 2 else 0
    case BiAt => if LastAreQuotations(p, pending, 1) then 1 else 0
    case Keep => if pending != [] && IsCallable(p.heap, Unwrap(p.heap, pending[|pending| - 1])) then 1 else 0
    case When => if pending != [] then 1 else 0
    case WhenStar => if pending != [] then 1 else 0
    case Unless => if pending != [] then 1 else 0
    case Dip => if pending != [] then 1 else 0
    case Call => if pending != [] then 1 else 0
    case Nip => if pending != [] then 1 else 0
    case Cond => if pending != [] then 1 else 0
    case MatchStar => if pending != [] then 1 else 0
    case LocalGet => if pending != [] then 1 else 0
    case LocalSet => if |pending| <= 2 then |pending| else 2
    case ReturnNoLocals => if pending != [] then 1 else 0
    case ReturnLocals => if pending != [] then 1 else 0
    case _ => 0
  }

  function CallSymbol(p: Program, op: Op, pc: int): Listing {
    var a := SymbolAddress(p, op);
    if a.Address? then Good(CallCode(pc, a.a)) else Bad
  }

  /** keep calls the symbol itself when its quotation holds nothing else. */
  function KeepTarget(p: Program, v: word): Address {
    if !IsQuotation(p.heap, v) then NoAddress
    else
      var elems := p.heap[v].elems;
      if |elems| == 1 && IsSymbol(p.heap, elems[0]) then
        if LeavesBody(p.heap[elems[0]].op) then NoAddress else SymbolAddress(p, p.heap[elems[0]].op)
      else QuotationAddress(p, v)
  }

  /** The jump that a forward jump to the epilog needs, from the end of its instruction.
      While the body is being compiled the epilog's address is not known and 0 stands
      there; exit is then NoAddress. */
  function ForwardJump(exit: Address, next: int): int {
    if exit.Address? then exit.a - next else 0
  }

  /** The code for an operator once the literals that it does not take are flushed. */
  function OperatorCode(p: Program, op: Op, lits: seq<word>, pc: int, exit: Address): Listing {
    match |lits|
    case 1 => OneLiteralCode(p, op, lits[0], pc, exit)
    case 2 => TwoLiteralCode(p, op, lits[0], lits[1], pc)
    case _ => NoLiteralCode(p, op, pc, exit)
  }

  function NoLiteralCode(p: Program, op: Op, pc: int, exit: Address): Listing {
    match op
    case Nip => Good(NipCode())
    case ExitNoLocals => Good(ExitNoLocalsCode())
    case ExitLocals => Good(ExitLocalsCode(ForwardJump(exit, pc + 18)))
    case ReturnNoLocals => Bad
    case ReturnLocals => Bad
    case Unless => Bad
    case AndStar => Bad
    case OrStar => Bad
    case _ => CallSymbol(p, op, pc)
  }

  function OneLiteralCode(p: Program, op: Op, v: word, pc: int, exit: Address): Listing {
    var a := CallableAddress(p, Unwrap(p.heap, v));
    match op
    case When => if a.Address? then Good(WhenCode(pc, a.a)) else Bad
    case WhenStar => if a.Address? then Good(WhenStarCode(pc, a.a)) else Bad
    case Unless => if a.Address? then Good(UnlessCode(pc, a.a)) else Bad
    case Dip => if a.Address? then Good(DipCode(pc, a.a)) else Bad
    case Call => if a.Address? then Good(CallCode(pc, a.a)) else Bad
    case ReturnNoLocals => if a.Address? then Good(ReturnNoLocalsCode(pc, a.a)) else Bad
    case ReturnLocals =>
      if a.Address? then Good(ReturnLocalsCode(pc, a.a, ForwardJump(exit, pc + 24))) else Bad
    case Keep =>
      var k := KeepTarget(p, Unwrap(p.heap, v));
      if k.Address? then Good(KeepCode(pc, k.a)) else Bad
    case BiAt =>
      var q := QuotationAddress(p, v);
      if q.Address? then Good(BiAtCode(pc, q.a)) else Bad
    case Nip => Good(One(MovLiteral(Unwrap(p.heap, v))))
    case Cond => if IsArray(p.heap, v) then CondCode(p, p.heap[v].elems, pc) else Bad
    case MatchStar => if IsArray(p.heap, v) then MatchCode(p, p.heap[v].elems, pc) else Bad
    case LocalGet => if IsFixnum(v) then Good(LocalGetCode(Untag(v))) else Bad
    case LocalSet => if IsFixnum(v) then Good(LocalSetCode(Untag(v))) else Bad
    case _ => Bad
  }

  function TwoLiteralCode(p: Program, op: Op, v1: word, v2: word, pc: int): Listing {
    var a1, a2 := QuotationAddress(p, v1), QuotationAddress(p, v2);
    match op
    case LocalSet => if IsFixnum(v2) then Good(LocalSetLiteralCode(Untag(v2), v1)) else Bad
    case If => if a1.Address? && a2.Address? then Good(IfCode(pc, a1.a, a2.a)) else Bad
    case IfStar => if a1.Address? && a2.Address? then Good(IfStarCode(pc, a1.a, a2.a)) else Bad
    case AndStar => if a1.Address? && a2.Address? then Good(AndStarCode(pc, a1.a, a2.a)) else Bad
    case OrStar => if a1.Address? && a2.Address? then Good(OrStarCode(pc, a1.a, a2.a)) else Bad
    case While => if a1.Address? && a2.Address? then Good(WhileCode(pc, a1.a, a2.a)) else Bad
    case Bi => if a1.Address? && a2.Address? then Good(BiCode(pc, a1.a, a2.a)) else Bad
    case _ => Bad
  }

  /** A literal quotation is called at its own address, a literal symbol, which comes in a
      wrapper, at its word's, and nothing else can be called. */
  lemma LiteralTarget(p: Program, v: word, pc: int, exit: Address)
    ensures v in p.heap && p.heap[v].Quotation? && v in p.quotAddr ==>
              OneLiteralCode(p, Call, v, pc, exit) == Good([Call32(p.quotAddr[v] - (pc + 5))])
    ensures v in p.heap && p.heap[v].Wrapper? && p.heap[v].wrapped in p.heap && p.heap[p.heap[v].wrapped].Symbol?
            && p.heap[p.heap[v].wrapped].op in p.opAddr ==>
              OneLiteralCode(p, Call, v, pc, exit) ==
              Good([Call32(p.opAddr[p.heap[p.heap[v].wrapped].op] - (pc + 5))])
    ensures v !in p.heap || p.heap[v].Array? ==> OneLiteralCode(p, Call, v, pc, exit) == Bad
  {
  }

  /** keep calls a lone symbol's word without going through its quotation. */
  lemma KeptTarget(p: Program, v: word, pc: int, exit: Address)
    requires v in p.heap && p.heap[v].Quotation? && v in p.quotAddr
    ensures var es := p.heap[v].elems;
            OneLiteralCode(p, Keep, v, pc, exit) ==
            if |es| != 1 || es[0] !in p.heap || !p.heap[es[0]].Symbol? then Good(KeepCode(pc, p.quotAddr[v]))
            else if p.heap[es[0]].op in p.opAddr && !LeavesBody(p.heap[es[0]].op)
            then Good(KeepCode(pc, p.opAddr[p.heap[es[0]].op]))
            else Bad
  {
  }

  /** The literal that names a local is a fixnum: n is the word 2n + 1, and an even word is
      refused. */
  lemma LocalLiteral(p: Program, v: word, n: nat, x: word, pc: int, exit: Address)
    ensures v == 2 * n + 1 ==>
              && OneLiteralCode(p, LocalGet, v, pc, exit) == Good(LocalGetCode(n))
              && OneLiteralCode(p, LocalSet, v, pc, exit) == Good(LocalSetCode(n))
              && TwoLiteralCode(p, LocalSet, x, v, pc) == Good(LocalSetLiteralCode(n, x))
    ensures v == 2 * n ==>
              && OneLiteralCode(p, LocalGet, v, pc, exit) == Bad && OneLiteralCode(p, LocalSet, v, pc, exit) == Bad
              && TwoLiteralCode(p, LocalSet, x, v, pc) == Bad
  {
    hide CallableAddress, QuotationAddress, LocalGetCode, LocalSetCode, LocalSetLiteralCode;
  }

  /** Which literals an operator's compiler takes off the queue. */
  lemma TakenIs(p: Program, op: Op, pending: seq<word>)
    ensures var n := |pending|;
            op.If? || op.IfStar? || op.AndStar? || op.OrStar? || op.While? || op.Bi? ==>
              Taken(p, op, pending) ==
              if n >= 2 && (forall k :: n - 2 <= k < n ==> pending[k] in p.heap && p.heap[pending[k]].Quotation?)
              then 2 else 0
    ensures var n := |pending|;
            op.BiAt? ==>
              Taken(p, op, pending) ==
              if n >= 1 && pending[n - 1] in p.heap && p.heap[pending[n - 1]].Quotation? then 1 else 0
    ensures op.When? || op.WhenStar? || op.Unless? || op.Dip? || op.Call? || op.Nip? || op.Cond? || op.MatchStar?
            || op.LocalGet? || op.ReturnNoLocals? || op.ReturnLocals? ==>
              Taken(p, op, pending) == if pending == [] then 0 else 1
    ensures op.LocalSet? ==> Taken(p, op, pending) == if |pending| > 1 then 2 else |pending|
    ensures op.Word? || op.MatchTest? || op.ExitNoLocals? || op.ExitLocals? ==> Taken(p, op, pending) == 0
  {
  }

  /** keep takes a literal quotation, or a symbol in a wrapper. */
  lemma KeepTakes(p: Program, pending: seq<word>, v: word)
    ensures Taken(p, Keep, []) == 0
    ensures Taken(p, Keep, pending + [v]) ==
            if v in p.heap && (p.heap[v].Quotation? || p.heap[v].Symbol?) then 1
            else if v in p.heap && p.heap[v].Wrapper? && p.heap[v].wrapped in p.heap
                    && (p.heap[p.heap[v].wrapped].Quotation? || p.heap[p.heap[v].wrapped].Symbol?) then 1
            else 0
  {
  }

  function OpCode(p: Program, op: Op, pending: seq<word>, pc: int, exit: Address): Listing {
    var n := Taken(p, op, pending);
    var kept, lits := pending[..|pending| - n], pending[|pending| - n..];
    var flush := FlushCode(Unwrapped(p.heap, kept));
    var c := OperatorCode(p, op, lits, pc + Size(flush), exit);
    if c.Good? then Good(flush + c.code) else Bad
  }

  // ---- a body ----

  /** The compile loop over the elements of a quotation, and the flush after the last. */
  function ElemsCode(p: Program, elems: seq<word>, pending: seq<word>, pc: int, exit: Address): Listing
    decreases |elems|
  {
    if elems == [] then Good(FlushCode(Unwrapped(p.heap, pending)))
    else if IsSymbol(p.heap, elems[0]) then
      var c := OpCode(p, p.heap[elems[0]].op, pending, pc, exit);
      if c.Bad? then Bad
      else
        var rest := ElemsCode(p, elems[1..], [], pc + Size(c.code), exit);
        if rest.Bad? then Bad else Good(c.code + rest.code)
    else ElemsCode(p, elems[1..], pending + [elems[0]], pc, exit)
  }

  /** primitive-compile-quotation: prolog, body, epilog and ret, placed at origin. */
  function QuotationCode(p: Program, elems: seq<word>, locals: nat, origin: int, exit: Address): Listing {
    var prolog := PrologCode(locals);
    var body := ElemsCode(p, elems, [], origin + Size(prolog), exit);
    if body.Bad? then Bad
    else Good(prolog + (body.code + (EpilogCode(locals) + One(Ret))))
  }
}
