/** Where the jumps of compiled code go: every branch target is the start of one of its
    instructions, or the end of the code. */
module Targets {
  import opened Bytes
  import opened X86
  import opened Source
  import opened CodeGen
  import opened Clauses
  import opened CompilerTheorem

  predicate IsJump(i: Instr) { i.Jz8? || i.Jne8? || i.Jmp8? || i.Jne32? || i.Jmp32? }

  /** The addresses where instructions of the listing start, and where it ends. */
  function Starts(c: seq<Instr>, pc: int): set<int>
    decreases |c|
  {
    {pc} + if c == [] then {} else Starts(c[1..], pc + Len(c[0]))
  }

  /** Every jump in the listing goes to an address in the set. */
  predicate JumpsInto(c: seq<Instr>, pc: int, s: set<int>)
    decreases |c|
  {
    c == [] || (
      && (IsJump(c[0]) ==> pc + Len(c[0]) + c[0].d in s)
      && JumpsInto(c[1..], pc + Len(c[0]), s))
  }

  /** The jumps stay inside the listing, but for those to the exits. */
  predicate Closed(c: seq<Instr>, pc: int, exits: set<int>) { JumpsInto(c, pc, Starts(c, pc) + exits) }

  // ---- listings in sequence ----

  lemma {:induction false} JumpsAppend(a: seq<Instr>, b: seq<Instr>, pc: int, s: set<int>)
    ensures JumpsInto(a + b, pc, s) <==> JumpsInto(a, pc, s) && JumpsInto(b, pc + Size(a), s)
    decreases |a|
  {
    if a == [] {
      assert a + b == b;
    } else {
      assert (a + b)[1..] == a[1..] + b;
      JumpsAppend(a[1..], b, pc + Len(a[0]), s);
    }
  }

  lemma {:induction false} StartsAppend(a: seq<Instr>, b: seq<Instr>, pc: int)
    ensures Starts(a + b, pc) == Starts(a, pc) + Starts(b, pc + Size(a))
    ensures pc in Starts(a, pc) && pc + Size(a) in Starts(a, pc)
    decreases |a|
  {
    if a == [] {
      assert a + b == b;
    } else {
      assert (a + b)[1..] == a[1..] + b;
      StartsAppend(a[1..], b, pc + Len(a[0]));
    }
  }

  lemma {:induction false} JumpsWider(c: seq<Instr>, pc: int, s: set<int>, t: set<int>)
    requires JumpsInto(c, pc, s) && s <= t
    ensures JumpsInto(c, pc, t)
    decreases |c|
  {
    if c != [] {
      JumpsWider(c[1..], pc + Len(c[0]), s, t);
    }
  }

  lemma ClosedAppend(a: seq<Instr>, b: seq<Instr>, pc: int, exits: set<int>)
    requires Closed(a, pc, exits) && Closed(b, pc + Size(a), exits)
    ensures Closed(a + b, pc, exits)
  {
    hide JumpsInto, Starts, Size;
    StartsAppend(a, b, pc);
    JumpsWider(a, pc, Starts(a, pc) + exits, Starts(a + b, pc) + exits);
    JumpsWider(b, pc + Size(a), Starts(b, pc + Size(a)) + exits, Starts(a + b, pc) + exits);
    JumpsAppend(a, b, pc, Starts(a + b, pc) + exits);
  }

  lemma ClosedOnEmpty(pc: int, exits: set<int>)
    ensures Closed([], pc, exits)
  {
  }

  /** A listing without jumps. */
  lemma {:induction false} PlainJumps(c: seq<Instr>, pc: int, s: set<int>)
    requires forall i :: 0 <= i < |c| ==> !IsJump(c[i])
    ensures JumpsInto(c, pc, s)
    decreases |c|
  {
    if c != [] {
      PlainJumps(c[1..], pc + Len(c[0]), s);
    }
  }

  lemma PlainFirst(x: seq<Instr>, rest: seq<Instr>, pc: int, exits: set<int>)
    requires (forall i :: 0 <= i < |x| ==> !IsJump(x[i])) && Closed(rest, pc + Size(x), exits)
    ensures Closed(x + rest, pc, exits)
  {
    hide JumpsInto, Starts, Size;
    PlainJumps(x, pc, Starts(x, pc) + exits);
    ClosedAppend(x, rest, pc, exits);
  }

  lemma JumpAlone(j: Instr, pc: int, s: set<int>)
    requires IsJump(j) && pc + Len(j) + j.d in s
    ensures JumpsInto(One(j), pc, s)
  {
  }

  /** A jump over y lands right behind it. */
  lemma JumpOver(j: Instr, y: seq<Instr>, z: seq<Instr>, pc: int, exits: set<int>)
    requires IsJump(j) && j.d == Size(y) && Closed(y + z, pc + Len(j), exits)
    ensures Closed(One(j) + (y + z), pc, exits)
  {
    hide JumpsInto, Starts, Size;
    var all := One(j) + (y + z);
    StartsAppend(One(j), y + z, pc);
    StartsAppend(y, z, pc + Len(j));
    JumpAlone(j, pc, Starts(all, pc) + exits);
    JumpsWider(y + z, pc + Len(j), Starts(y + z, pc + Len(j)) + exits, Starts(all, pc) + exits);
    JumpsAppend(One(j), y + z, pc, Starts(all, pc) + exits);
  }

  /** A jump that ends its listing by leaving for an exit. */
  lemma JumpAway(j: Instr, pc: int, exits: set<int>)
    requires IsJump(j) && pc + Len(j) + j.d in exits
    ensures Closed(One(j), pc, exits)
  {
    JumpAlone(j, pc, Starts(One(j), pc) + exits);
  }

  /** An exit that is an address inside is no exit. */
  lemma NoExit(c: seq<Instr>, pc: int, t: int, exits: set<int>)
    requires Closed(c, pc, exits + {t}) && t in Starts(c, pc)
    ensures Closed(c, pc, exits)
  {
    assert Starts(c, pc) + (exits + {t}) == Starts(c, pc) + exits;
  }

  lemma ClosedWider(c: seq<Instr>, pc: int, s: set<int>, t: set<int>)
    requires Closed(c, pc, s) && s <= t
    ensures Closed(c, pc, t)
  {
    JumpsWider(c, pc, Starts(c, pc) + s, Starts(c, pc) + t);
  }

  lemma Plain(c: seq<Instr>, pc: int, exits: set<int>)
    requires forall i :: 0 <= i < |c| ==> !IsJump(c[i])
    ensures Closed(c, pc, exits)
  {
    PlainJumps(c, pc, Starts(c, pc) + exits);
  }

  // ---- the combinators ----

  /** cmp rbx, nil and the drop that follow most tests. */
  lemma TestFirst(rest: seq<Instr>, pc: int, exits: set<int>)
    requires Closed(rest, pc + 12, exits)
    ensures Closed(CmpNil() + (DropCode() + rest), pc, exits)
  {
    hide Closed;
    PlainFirst(DropCode(), rest, pc + 4, exits);
    PlainFirst(CmpNil(), DropCode() + rest, pc, exits);
  }

  /** A jump over one last piece of code. */
  lemma JumpOverLast(j: Instr, y: seq<Instr>, pc: int, exits: set<int>)
    requires IsJump(j) && j.d == Size(y) && Closed(y, pc + Len(j), exits)
    ensures Closed(One(j) + y, pc, exits)
  {
    hide Closed, Size;
    assert y + [] == y;
    JumpOver(j, y, [], pc, exits);
  }

  /** Code that ends in a jump over other code, itself jumped into from before. */
  lemma TwoWays(j: Instr, call: seq<Instr>, k: Instr, other: seq<Instr>, pc: int, exits: set<int>)
    requires IsJump(j) && IsJump(k) && Len(j) == 2 && k.d == Size(other) && j.d == Size(call) + Len(k)
    requires forall i :: 0 <= i < |call| ==> !IsJump(call[i])
    requires forall i :: 0 <= i < |other| ==> !IsJump(other[i])
    ensures Closed(One(j) + (call + (One(k) + other)), pc, exits)
  {
    hide Closed, Size;
    var next := pc + 2 + Size(call);
    Plain(other, next + Len(k), exits);
    JumpOverLast(k, other, next, exits);
    PlainFirst(call, One(k) + other, pc + 2, exits);
    assert (call + One(k)) + other == call + (One(k) + other);
    SizeAppend(call, One(k));
    JumpOver(j, call + One(k), other, pc, exits);
  }

  lemma WhenClosed(pc: int, a: int)
    ensures Closed(WhenCode(pc, a), pc, {}) && Closed(UnlessCode(pc, a), pc, {})
  {
    hide Closed, Size;
    Plain(CallCode(pc + 14, a), pc + 14, {});
    JumpOverLast(Jz8(5), CallCode(pc + 14, a), pc + 12, {});
    TestFirst(One(Jz8(5)) + CallCode(pc + 14, a), pc, {});
    JumpOverLast(Jne8(5), CallCode(pc + 14, a), pc + 12, {});
    TestFirst(One(Jne8(5)) + CallCode(pc + 14, a), pc, {});
  }

  lemma WhenStarClosed(pc: int, a: int)
    ensures Closed(WhenStarCode(pc, a), pc, {})
  {
    hide Closed, Size;
    TwoWays(Jz8(7), CallCode(pc + 6, a), Jmp8(8), DropCode(), pc + 4, {});
    PlainFirst(CmpNil(), One(Jz8(7)) + (CallCode(pc + 6, a) + (One(Jmp8(8)) + DropCode())), pc, {});
  }

  lemma IfClosed(pc: int, a1: int, a2: int)
    ensures Closed(IfCode(pc, a1, a2), pc, {})
  {
    hide Closed, Size;
    TwoWays(Jz8(7), CallCode(pc + 14, a1), Jmp8(5), CallCode(pc + 21, a2), pc + 12, {});
    TestFirst(One(Jz8(7)) + (CallCode(pc + 14, a1) + (One(Jmp8(5)) + CallCode(pc + 21, a2))), pc, {});
  }

  lemma IfStarClosed(pc: int, a1: int, a2: int)
    ensures Closed(IfStarCode(pc, a1, a2), pc, {})
  {
    hide Closed, Size;
    var other := DropCode() + CallCode(pc + 21, a2);
    SizeAppend(DropCode(), CallCode(pc + 21, a2));
    TwoWays(Jz8(7), CallCode(pc + 6, a1), Jmp8(13), other, pc + 4, {});
    PlainFirst(CmpNil(), One(Jz8(7)) + (CallCode(pc + 6, a1) + (One(Jmp8(13)) + other)), pc, {});
  }

  lemma AndOrClosed(pc: int, a1: int, a2: int)
    ensures Closed(AndStarCode(pc, a1, a2), pc, {}) && Closed(OrStarCode(pc, a1, a2), pc, {})
  {
    hide Closed, Size;
    var other := DropCode() + CallCode(pc + 19, a2);
    SizeAppend(DropCode(), CallCode(pc + 19, a2));
    Plain(other, pc + 11, {});
    JumpOverLast(Jz8(13), other, pc + 9, {});
    PlainFirst(CmpNil(), One(Jz8(13)) + other, pc + 5, {});
    PlainFirst(CallCode(pc, a1), CmpNil() + (One(Jz8(13)) + other), pc, {});
    JumpOverLast(Jne8(13), other, pc + 9, {});
    PlainFirst(CmpNil(), One(Jne8(13)) + other, pc + 5, {});
    PlainFirst(CallCode(pc, a1), CmpNil() + (One(Jne8(13)) + other), pc, {});
  }

  /** The loop's jump back goes to its first instruction. */
  lemma WhileClosed(pc: int, a1: int, a2: int)
    ensures Closed(WhileCode(pc, a1, a2), pc, {})
  {
    hide Closed, Size;
    var body := CallCode(pc + 19, a2) + One(Jmp8(-26));
    SizeAppend(CallCode(pc + 19, a2), One(Jmp8(-26)));
    JumpAway(Jmp8(-26), pc + 24, {} + {pc});
    PlainFirst(CallCode(pc + 19, a2), One(Jmp8(-26)), pc + 19, {} + {pc});
    JumpOverLast(Jz8(7), body, pc + 17, {} + {pc});
    TestFirst(One(Jz8(7)) + body, pc + 5, {} + {pc});
    PlainFirst(CallCode(pc, a1), CmpNil() + (DropCode() + (One(Jz8(7)) + body)), pc, {} + {pc});
    StartsAppend([], WhileCode(pc, a1, a2), pc);
    assert [] + WhileCode(pc, a1, a2) == WhileCode(pc, a1, a2);
    FirstStarts(WhileCode(pc, a1, a2), pc);
    NoExit(WhileCode(pc, a1, a2), pc, pc, {});
  }

  lemma FirstStarts(c: seq<Instr>, pc: int)
    ensures pc in Starts(c, pc)
  {
  }

  lemma ReturnsClosed(pc: int, a: int, jump: int)
    ensures Closed(ReturnNoLocalsCode(pc, a), pc, {}) && Closed(ExitNoLocalsCode(), pc, {})
    ensures Closed(ReturnLocalsCode(pc, a, jump), pc, {pc + 24 + jump})
    ensures Closed(ExitLocalsCode(jump), pc, {pc + 18 + jump})
  {
    hide Closed, Size;
    var call := CallCode(pc + 14, a);
    SizeAppend(call, One(Ret));
    Plain(call + One(Ret), pc + 14, {});
    JumpOverLast(Jz8(6), call + One(Ret), pc + 12, {});
    TestFirst(One(Jz8(6)) + (call + One(Ret)), pc, {});
    Plain(One(Ret), pc + 14, {});
    JumpOverLast(Jz8(1), One(Ret), pc + 12, {});
    TestFirst(One(Jz8(1)) + One(Ret), pc, {});
    var away := {pc + 24 + jump};
    SizeAppend(call, One(Jmp32(jump)));
    JumpAway(Jmp32(jump), pc + 19, away);
    PlainFirst(call, One(Jmp32(jump)), pc + 14, away);
    JumpOverLast(Jz8(10), call + One(Jmp32(jump)), pc + 12, away);
    TestFirst(One(Jz8(10)) + (call + One(Jmp32(jump))), pc, away);
    JumpAway(Jne32(jump), pc + 12, {pc + 18 + jump});
    TestFirst(One(Jne32(jump)), pc, {pc + 18 + jump});
  }

  // ---- cond and match* ----

  lemma CondClauseClosed(pc: int, a1: int, a2: int, end: int)
    requires end != pc + 29
    ensures Closed(CondClauseCode(pc, a1, a2, end), pc, {end})
  {
    hide Closed, Size;
    CondClauseSize(pc, a1, a2, end);
    var j := JumpCode(pc + 24, end);
    var c2 := CallCode(pc + 19, a2);
    SizeAppend(c2, j);
    JumpAway(Jmp32(end - (pc + 29)), pc + 24, {end});
    PlainFirst(c2, j, pc + 19, {end});
    JumpOverLast(Jz8(10), c2 + j, pc + 17, {end});
    TestFirst(One(Jz8(10)) + (c2 + j), pc + 5, {end});
    PlainFirst(CallCode(pc, a1), CmpNil() + (DropCode() + (One(Jz8(10)) + (c2 + j))), pc, {end});
  }

  lemma {:induction false} CondClausesClosed(p: Program, clauses: seq<word>, pc: int, end: int)
    requires CondClausesCode(p, clauses, pc, end).Good?
    requires pc + 29 * |clauses| < end
    ensures Closed(CondClausesCode(p, clauses, pc, end).code, pc, {end})
    decreases |clauses|
  {
    hide Closed, Size, CondClauseCode;
    if clauses == [] {
      ClosedOnEmpty(pc, {end});
    } else {
      var a1 := CallableAddress(p, p.heap[clauses[0]].elems[0]).a;
      var a2 := CallableAddress(p, p.heap[clauses[0]].elems[1]).a;
      CondClauseSize(pc, a1, a2, end);
      CondClauseClosed(pc, a1, a2, end);
      CondClausesClosed(p, clauses[1..], pc + 29, end);
      ClosedAppend(CondClauseCode(pc, a1, a2, end), CondClausesCode(p, clauses[1..], pc + 29, end).code, pc, {end});
    }
  }

  /** All exits of the clauses meet right behind the last call. */
  lemma ExitsMeet(body: seq<Instr>, last: seq<Instr>, pc: int, end: int)
    requires Closed(body, pc, {end}) && (forall i :: 0 <= i < |last| ==> !IsJump(last[i]))
    requires end == pc + Size(body) + Size(last)
    ensures Closed(body + last, pc, {})
  {
    hide Closed, Size, Starts;
    Plain(last, pc + Size(body), {end});
    ClosedAppend(body, last, pc, {end});
    StartsAppend(body + last, [], pc);
    SizeAppend(body, last);
    assert {} + {end} == {end};
    NoExit(body + last, pc, end, {});
  }

  lemma CondClosed(p: Program, clauses: seq<word>, pc: int)
    requires CondCode(p, clauses, pc).Good?
    ensures Closed(CondCode(p, clauses, pc).code, pc, {})
  {
    hide Closed, Size, CondClausesCode;
    var d := DefaultIndex(p.heap, clauses);
    var end := d * 29 + pc + 5;
    CondClausesClosed(p, clauses[..d], pc, end);
    CondLayout(p, clauses[..d], pc, end);
    var last := if d < |clauses| then CallableAddress(p, clauses[d]) else Address(p.noCond);
    var body := CondClausesCode(p, clauses[..d], pc, end).code;
    ExitsMeet(body, CallCode(pc + Size(body), last.a), pc, end);
  }

  lemma MatchClauseClosed(p: Program, pc: int, key: word, test: int, a: int, end: int)
    requires end != pc + 55
    ensures Closed(MatchClauseCode(p, pc, key, test, a, end), pc, {end})
  {
    hide Closed, Size;
    MatchClauseSize(p, pc, key, test, a, end);
    var j := JumpCode(pc + 50, end);
    var c8 := CallCode(pc + 45, a) + j;
    SizeAppend(CallCode(pc + 45, a), j);
    SizeAppend(DropCode(), c8);
    JumpAway(Jmp32(end - (pc + 55)), pc + 50, {end});
    PlainFirst(CallCode(pc + 45, a), j, pc + 45, {end});
    PlainFirst(DropCode(), c8, pc + 37, {end});
    JumpOverLast(Jz8(18), DropCode() + c8, pc + 35, {end});
    var tail := CmpNil() + (DropCode() + (One(Jz8(18)) + (DropCode() + c8)));
    TestFirst(One(Jz8(18)) + (DropCode() + c8), pc + 23, {end});
    PlainFirst(CallCode(pc + 18, test), tail, pc + 18, {end});
    var key1 := One(MovImm64(RBX, Unwrap(p.heap, key)));
    PlainFirst(key1, CallCode(pc + 18, test) + tail, pc + 8, {end});
    PlainFirst(DupCode(), key1 + (CallCode(pc + 18, test) + tail), pc, {end});
  }

  lemma {:induction false} MatchClausesClosed(p: Program, pairs: seq<word>, pc: int, end: int)
    requires MatchClausesCode(p, pairs, pc, end).Good?
    requires pc + 55 * (|pairs| / 2) < end
    ensures Closed(MatchClausesCode(p, pairs, pc, end).code, pc, {end})
    decreases |pairs|
  {
    hide Closed, Size, MatchClauseCode;
    if |pairs| < 2 {
      ClosedOnEmpty(pc, {end});
    } else {
      var test, a := SymbolAddress(p, MatchTest).a, QuotationAddress(p, pairs[1]).a;
      MatchClauseSize(p, pc, pairs[0], test, a, end);
      MatchClauseClosed(p, pc, pairs[0], test, a, end);
      assert |pairs[2..]| / 2 == |pairs| / 2 - 1;
      MatchClausesClosed(p, pairs[2..], pc + 55, end);
      ClosedAppend(MatchClauseCode(p, pc, pairs[0], test, a, end),
                   MatchClausesCode(p, pairs[2..], pc + 55, end).code, pc, {end});
    }
  }

  lemma MatchClosed(p: Program, pairs: seq<word>, pc: int)
    requires MatchCode(p, pairs, pc).Good?
    ensures Closed(MatchCode(p, pairs, pc).code, pc, {})
  {
    hide Closed, Size, MatchClausesCode;
    var n := |pairs| / 2;
    var d := WildcardIndex(p, pairs, n);
    var k := if 0 <= d then d else n;
    var end := if 0 <= d then d * 55 + pc + 13 else n * 55 + pc + 5;
    MatchClausesClosed(p, pairs[..2 * k], pc, end);
    MatchLayout(p, pairs[..2 * k], pc, end);
    var body := MatchClausesCode(p, pairs[..2 * k], pc, end).code;
    if 0 <= d {
      var last := CallableAddress(p, pairs[2 * d + 1]);
      var call := CallCode(pc + Size(body) + 8, last.a);
      SizeAppend(DropCode(), call);
      ExitsMeet(body, DropCode() + call, pc, end);
    } else {
      ExitsMeet(body, CallCode(pc + Size(body), p.noMatch), pc, end);
    }
  }

  // ---- bodies ----

  lemma {:induction false} FlushPlain(vs: seq<word>)
    ensures forall i :: 0 <= i < |FlushCode(vs)| ==> !IsJump(FlushCode(vs)[i])
  {
    if vs != [] {
      FlushPlain(vs[1..]);
    }
  }

  lemma OperatorClosed(p: Program, op: Op, lits: seq<word>, pc: int, e: int)
    requires OperatorCode(p, op, lits, pc, Address(e)).Good?
    ensures Closed(OperatorCode(p, op, lits, pc, Address(e)).code, pc, {e})
  {
    hide Closed, Size, WhenCode, UnlessCode, WhenStarCode, IfCode, IfStarCode, AndStarCode, OrStarCode, WhileCode;
    hide CondCode, MatchCode, ReturnNoLocalsCode, ReturnLocalsCode, ExitNoLocalsCode, ExitLocalsCode;
    var c := OperatorCode(p, op, lits, pc, Address(e)).code;
    var n := |lits|;
    if (op.When? || op.Unless?) && n == 1 {
      WhenClosed(pc, CallableAddress(p, Unwrap(p.heap, lits[0])).a);
      ClosedWider(c, pc, {}, {e});
    } else if op.WhenStar? && n == 1 {
      WhenStarClosed(pc, CallableAddress(p, Unwrap(p.heap, lits[0])).a);
      ClosedWider(c, pc, {}, {e});
    } else if (op.If? || op.IfStar? || op.AndStar? || op.OrStar? || op.While?) && n == 2 {
      TwoQuotationsClosed(p, op, lits, pc);
      ClosedWider(c, pc, {}, {e});
    } else if op.Cond? && n == 1 {
      CondClosed(p, p.heap[lits[0]].elems, pc);
      ClosedWider(c, pc, {}, {e});
    } else if op.MatchStar? && n == 1 {
      MatchClosed(p, p.heap[lits[0]].elems, pc);
      ClosedWider(c, pc, {}, {e});
    } else if op.ReturnNoLocals? || op.ReturnLocals? || op.ExitNoLocals? || op.ExitLocals? {
      LeavingClosed(p, op, lits, pc, e);
    } else {
      OthersPlain(p, op, lits, pc, e);
      assert NoJumps(c);
      Plain(c, pc, {e});
    }
  }

  lemma TwoQuotationsClosed(p: Program, op: Op, lits: seq<word>, pc: int)
    requires (op.If? || op.IfStar? || op.AndStar? || op.OrStar? || op.While?) && |lits| == 2
    requires OperatorCode(p, op, lits, pc, NoAddress).Good?
    ensures Closed(OperatorCode(p, op, lits, pc, NoAddress).code, pc, {})
  {
    hide Closed, IfCode, IfStarCode, AndStarCode, OrStarCode, WhileCode;
    var a1, a2 := QuotationAddress(p, lits[0]).a, QuotationAddress(p, lits[1]).a;
    match op
    case If => IfClosed(pc, a1, a2);
    case IfStar => IfStarClosed(pc, a1, a2);
    case While => WhileClosed(pc, a1, a2);
    case _ => AndOrClosed(pc, a1, a2);
  }

  lemma LeavingClosed(p: Program, op: Op, lits: seq<word>, pc: int, e: int)
    requires op.ReturnNoLocals? || op.ReturnLocals? || op.ExitNoLocals? || op.ExitLocals?
    requires OperatorCode(p, op, lits, pc, Address(e)).Good?
    ensures Closed(OperatorCode(p, op, lits, pc, Address(e)).code, pc, {e})
  {
    hide Closed, ReturnNoLocalsCode, ReturnLocalsCode, ExitNoLocalsCode, ExitLocalsCode;
    var c := OperatorCode(p, op, lits, pc, Address(e)).code;
    if op.ReturnNoLocals? {
      ReturnsClosed(pc, CallableAddress(p, Unwrap(p.heap, lits[0])).a, 0);
      ClosedWider(c, pc, {}, {e});
    } else if op.ReturnLocals? {
      var jump := ForwardJump(Address(e), pc + 24);
      ReturnsClosed(pc, CallableAddress(p, Unwrap(p.heap, lits[0])).a, jump);
      assert c == ReturnLocalsCode(pc, CallableAddress(p, Unwrap(p.heap, lits[0])).a, jump);
    } else if op.ExitNoLocals? {
      ReturnsClosed(pc, 0, 0);
      ClosedWider(c, pc, {}, {e});
    } else {
      ReturnsClosed(pc, 0, e - (pc + 18));
    }
  }

  predicate NoJumps(c: seq<Instr>) { forall i :: 0 <= i < |c| ==> !IsJump(c[i]) }

  predicate HasJumps(op: Op, n: nat) {
    || ((op.When? || op.Unless? || op.WhenStar? || op.Cond? || op.MatchStar?) && n == 1)
    || ((op.If? || op.IfStar? || op.AndStar? || op.OrStar? || op.While?) && n == 2)
    || op.ReturnNoLocals? || op.ReturnLocals? || op.ExitNoLocals? || op.ExitLocals?
  }

  lemma NoJumpsAppend(a: seq<Instr>, b: seq<Instr>)
    requires NoJumps(a) && NoJumps(b)
    ensures NoJumps(a + b)
  {
  }

  lemma PlainPieces(pc: int, a: int, b: int)
    ensures NoJumps(CallCode(pc, a)) && NoJumps(DipCode(pc, a)) && NoJumps(KeepCode(pc, a))
    ensures NoJumps(BiCode(pc, a, b)) && NoJumps(BiAtCode(pc, a))
  {
    hide Size;
    NoJumpsAppend(DupCode(), PopCode());
    NoJumpsAppend(CallCode(pc + 9, a), DupCode() + PopCode());
    NoJumpsAppend(DropCode(), CallCode(pc + 9, a) + (DupCode() + PopCode()));
    NoJumpsAppend(PushCode(), DropCode() + (CallCode(pc + 9, a) + (DupCode() + PopCode())));
    NoJumpsAppend(CallCode(pc + 1, a), DupCode() + PopCode());
    NoJumpsAppend(PushCode(), CallCode(pc + 1, a) + (DupCode() + PopCode()));
    BisPlain(pc, a, b);
  }

  lemma BisPlain(pc: int, a: int, b: int)
    ensures NoJumps(BiCode(pc, a, b)) && NoJumps(BiAtCode(pc, a))
  {
    hide Size;
    var last := PopCode() + CallCode(pc + 15, b);
    NoJumpsAppend(PopCode(), CallCode(pc + 15, b));
    NoJumpsAppend(DupCode(), last);
    NoJumpsAppend(CallCode(pc + 1, a), DupCode() + last);
    NoJumpsAppend(PushCode(), CallCode(pc + 1, a) + (DupCode() + last));
    var again := PopCode() + CallCode(pc + 23, a);
    NoJumpsAppend(PopCode(), CallCode(pc + 23, a));
    NoJumpsAppend(DupCode(), again);
    NoJumpsAppend(CallCode(pc + 9, a), DupCode() + again);
    NoJumpsAppend(DropCode(), CallCode(pc + 9, a) + (DupCode() + again));
    NoJumpsAppend(PushCode(), DropCode() + (CallCode(pc + 9, a) + (DupCode() + again)));
  }

  lemma PlainMoves(n: nat, v: word)
    ensures NoJumps(NipCode()) && NoJumps(One(MovLiteral(v)))
    ensures NoJumps(LocalGetCode(n)) && NoJumps(LocalSetCode(n)) && NoJumps(LocalSetLiteralCode(n, v))
  {
    hide Size;
    NoJumpsAppend(DupCode(), One(Load(RBX, LocalMem(n))));
    NoJumpsAppend(One(Store(LocalMem(n), RBX)), DropCode());
    NoJumpsAppend(One(MovImm64(RAX, v)), One(Store(LocalMem(n), RAX)));
  }

  /** What the operators without jumps have their code made for. */
  lemma OthersPlain(p: Program, op: Op, lits: seq<word>, pc: int, e: int)
    requires !HasJumps(op, |lits|) && OperatorCode(p, op, lits, pc, Address(e)).Good?
    ensures NoJumps(OperatorCode(p, op, lits, pc, Address(e)).code)
  {
    hide NoJumps, CallCode, DipCode, KeepCode, BiCode, BiAtCode, NipCode, LocalGetCode, LocalSetCode;
    hide LocalSetLiteralCode, CondCode, MatchCode, MovLiteral, Size, One, Unwrap, KeepTarget;
    var symbol := SymbolAddress(p, op);
    if symbol.Address? {
      PlainPieces(pc, symbol.a, 0);
    }
    if |lits| == 1 {
      OneLiteralPlain(p, lits[0], pc);
    } else if |lits| == 2 {
      if QuotationAddress(p, lits[0]).Address? && QuotationAddress(p, lits[1]).Address? {
        PlainPieces(pc, QuotationAddress(p, lits[0]).a, QuotationAddress(p, lits[1]).a);
      }
      PlainMoves(Untag(lits[1]), lits[0]);
    } else {
      PlainMoves(0, 0);
    }
  }

  lemma OneLiteralPlain(p: Program, v: word, pc: int)
    ensures var a := CallableAddress(p, Unwrap(p.heap, v));
            a.Address? ==> NoJumps(CallCode(pc, a.a)) && NoJumps(DipCode(pc, a.a))
    ensures var a := KeepTarget(p, Unwrap(p.heap, v));
            a.Address? ==> NoJumps(KeepCode(pc, a.a))
    ensures var a := QuotationAddress(p, v);
            a.Address? ==> NoJumps(BiAtCode(pc, a.a))
    ensures NoJumps(One(MovLiteral(Unwrap(p.heap, v))))
    ensures NoJumps(LocalGetCode(Untag(v))) && NoJumps(LocalSetCode(Untag(v)))
  {
    hide NoJumps, CallCode, DipCode, KeepCode, BiAtCode, LocalGetCode, LocalSetCode, MovLiteral, One, Size;
    hide Unwrap, KeepTarget, CallableAddress, QuotationAddress;
    PlainMoves(Untag(v), Unwrap(p.heap, v));
    var a, k, q := CallableAddress(p, Unwrap(p.heap, v)), KeepTarget(p, Unwrap(p.heap, v)), QuotationAddress(p, v);
    if a.Address? { PlainPieces(pc, a.a, 0); }
    if k.Address? { PlainPieces(pc, k.a, 0); }
    if q.Address? { PlainPieces(pc, q.a, 0); }
  }

  lemma OpClosed(p: Program, op: Op, pending: seq<word>, pc: int, e: int)
    requires OpCode(p, op, pending, pc, Address(e)).Good?
    ensures Closed(OpCode(p, op, pending, pc, Address(e)).code, pc, {e})
  {
    hide Closed, Size, OperatorCode, FlushCode, Taken;
    var n := Taken(p, op, pending);
    var kept, lits := pending[..|pending| - n], pending[|pending| - n..];
    var flush := FlushCode(Unwrapped(p.heap, kept));
    FlushPlain(Unwrapped(p.heap, kept));
    OperatorClosed(p, op, lits, pc + Size(flush), e);
    PlainFirst(flush, OperatorCode(p, op, lits, pc + Size(flush), Address(e)).code, pc, {e});
  }

  lemma {:induction false} ElemsClosed(p: Program, elems: seq<word>, pending: seq<word>, pc: int, e: int)
    requires ElemsCode(p, elems, pending, pc, Address(e)).Good?
    ensures Closed(ElemsCode(p, elems, pending, pc, Address(e)).code, pc, {e})
    decreases |elems|
  {
    hide Closed, Size, OpCode, FlushCode;
    if elems == [] {
      FlushPlain(Unwrapped(p.heap, pending));
      Plain(FlushCode(Unwrapped(p.heap, pending)), pc, {e});
    } else if IsSymbol(p.heap, elems[0]) {
      var op := p.heap[elems[0]].op;
      OpClosed(p, op, pending, pc, e);
      var c := OpCode(p, op, pending, pc, Address(e)).code;
      ElemsClosed(p, elems[1..], [], pc + Size(c), e);
      ClosedAppend(c, ElemsCode(p, elems[1..], [], pc + Size(c), Address(e)).code, pc, {e});
    } else {
      ElemsClosed(p, elems[1..], pending + [elems[0]], pc, e);
    }
  }

  /** In finished code, every jump lands on the start of one of its own instructions, the
      patched forward jumps on the epilog, or on the end. */
  lemma FinishedClosed(p: Program, elems: seq<word>, locals: nat, origin: int)
    requires FinishedCode(p, elems, locals, origin).Good?
    ensures Closed(FinishedCode(p, elems, locals, origin).code, origin, {})
  {
    hide Closed, Size, ElemsCode, Starts;
    var prolog := PrologCode(locals);
    var start := origin + Size(prolog);
    var e := EpilogAddress(p, elems, locals, origin);
    var body := ElemsCode(p, elems, [], start, Address(e)).code;
    var tail := EpilogCode(locals) + One(Ret);
    ElemsSize(p, elems, [], start, NoAddress, Address(e));
    ElemsClosed(p, elems, [], start, e);
    Plain(tail, start + Size(body), {e});
    ClosedAppend(body, tail, start, {e});
    PlainFirst(prolog, body + tail, origin, {e});
    StartsAppend(body, tail, start);
    StartsAppend(prolog, body + tail, origin);
    assert {} + {e} == {e};
    NoExit(prolog + (body + tail), origin, e, {});
  }
}
