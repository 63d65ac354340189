/** cond and match*: the layout of their clauses, and that the emitted code picks the
    clause that the interpreted word picks. */
module Clauses {
  import opened Bytes
  import opened X86
  import opened Source
  import opened CodeGen
  import opened Machine
  import opened Simulation
  import opened Combinators
  import opened Choices

  // ---- layout ----

  lemma CondClauseSize(pc: int, a1: int, a2: int, end: int)
    requires end != pc + 29
    ensures Size(CondClauseCode(pc, a1, a2, end)) == 29
    ensures CondClauseCode(pc, a1, a2, end) ==
            CallCode(pc, a1) + (CmpNil() + (DropCode() + (One(Jz8(10)) +
            (CallCode(pc + 19, a2) + JumpCode(pc + 24, end)))))
  {
    var j := JumpCode(pc + 24, end);
    var c2 := CallCode(pc + 19, a2);
    SizeAppend(c2, j);
    SizeAppend(One(Jz8(10)), c2 + j);
    SizeAppend(DropCode(), One(Jz8(10)) + (c2 + j));
    SizeAppend(CmpNil(), DropCode() + (One(Jz8(10)) + (c2 + j)));
    SizeAppend(CallCode(pc, a1), CmpNil() + (DropCode() + (One(Jz8(10)) + (c2 + j))));
  }

  /** Every clause takes 29 bytes, so the end address computed beforehand is right and no
      clause's exit jump is left out. */
  lemma {:induction false} CondLayout(p: Program, clauses: seq<word>, pc: int, end: int)
    requires CondClausesCode(p, clauses, pc, end).Good?
    requires pc + 29 * |clauses| < end
    ensures Size(CondClausesCode(p, clauses, pc, end).code) == 29 * |clauses|
    decreases |clauses|
  {
    if clauses != [] {
      var a1 := CallableAddress(p, p.heap[clauses[0]].elems[0]).a;
      var a2 := CallableAddress(p, p.heap[clauses[0]].elems[1]).a;
      CondClauseSize(pc, a1, a2, end);
      CondLayout(p, clauses[1..], pc + 29, end);
      SizeAppend(CondClauseCode(pc, a1, a2, end), CondClausesCode(p, clauses[1..], pc + 29, end).code);
    }
  }

  lemma MatchClauseSize(p: Program, pc: int, key: word, test: int, a: int, end: int)
    requires end != pc + 55
    ensures Size(MatchClauseCode(p, pc, key, test, a, end)) == 55
    ensures MatchClauseCode(p, pc, key, test, a, end) ==
            DupCode() + (One(MovImm64(RBX, Unwrap(p.heap, key))) + (CallCode(pc + 18, test) + (CmpNil() +
            (DropCode() + (One(Jz8(18)) + (DropCode() + (CallCode(pc + 45, a) + JumpCode(pc + 50, end))))))))
  {
    var c8 := CallCode(pc + 45, a) + JumpCode(pc + 50, end);
    var c7 := DropCode() + c8;
    var c6 := One(Jz8(18)) + c7;
    var c5 := DropCode() + c6;
    var c4 := CmpNil() + c5;
    var c3 := CallCode(pc + 18, test) + c4;
    SizeAppend(CallCode(pc + 45, a), JumpCode(pc + 50, end));
    SizeAppend(DropCode(), c8);
    SizeAppend(One(Jz8(18)), c7);
    SizeAppend(DropCode(), c6);
    SizeAppend(CmpNil(), c5);
    SizeAppend(CallCode(pc + 18, test), c4);
    SizeAppend(One(MovImm64(RBX, Unwrap(p.heap, key))), c3);
    SizeAppend(DupCode(), One(MovImm64(RBX, Unwrap(p.heap, key))) + c3);
  }

  /** Every clause takes 55 bytes, so all exits meet at the end address. */
  lemma {:induction false} MatchLayout(p: Program, pairs: seq<word>, pc: int, end: int)
    requires MatchClausesCode(p, pairs, pc, end).Good?
    requires pc + 55 * (|pairs| / 2) < end
    ensures Size(MatchClausesCode(p, pairs, pc, end).code) == 55 * (|pairs| / 2)
    decreases |pairs|
  {
    if |pairs| >= 2 {
      var test, a := SymbolAddress(p, MatchTest).a, QuotationAddress(p, pairs[1]).a;
      MatchClauseSize(p, pc, pairs[0], test, a, end);
      assert |pairs[2..]| / 2 == |pairs| / 2 - 1;
      MatchLayout(p, pairs[2..], pc + 55, end);
      SizeAppend(MatchClauseCode(p, pc, pairs[0], test, a, end), MatchClausesCode(p, pairs[2..], pc + 55, end).code);
    }
  }

  // ---- cond ----

  lemma CondClausePlaces(f: int -> Fetched, pc: int, a1: int, a2: int, end: int)
    requires end != pc + 29
    requires Placed(f, pc, CondClauseCode(pc, a1, a2, end))
    ensures Placed(f, pc, CallCode(pc, a1))
    ensures Placed(f, pc + 5, CmpNil())
    ensures Placed(f, pc + 9, DropCode())
    ensures Placed(f, pc + 17, One(Jz8(10)))
    ensures Placed(f, pc + 19, CallCode(pc + 19, a2))
    ensures Placed(f, pc + 24, JumpCode(pc + 24, end))
  {
    CondClauseSize(pc, a1, a2, end);
    var j := JumpCode(pc + 24, end);
    var c2 := CallCode(pc + 19, a2);
    PlacedAppend(f, pc, CallCode(pc, a1), CmpNil() + (DropCode() + (One(Jz8(10)) + (c2 + j))));
    PlacedAppend(f, pc + 5, CmpNil(), DropCode() + (One(Jz8(10)) + (c2 + j)));
    PlacedAppend(f, pc + 9, DropCode(), One(Jz8(10)) + (c2 + j));
    PlacedAppend(f, pc + 17, One(Jz8(10)), c2 + j);
    PlacedAppend(f, pc + 19, c2, j);
  }

  /** A call, then the long jump to the end. */
  lemma RunCallExit(env: Env, fuel: nat, v: word, a: int, end: int, m: Machine, m1: Machine, st: State)
    returns (m': Machine)
    requires CallsRun(env, fuel)
    requires CallableAddress(env.p, v) == Address(a)
    requires Goes(env, m, m1, m1.ip, st)
    requires Placed(env.fetch, m1.ip, CallCode(m1.ip, a))
    requires Placed(env.fetch, m1.ip + 5, JumpCode(m1.ip + 5, end))
    requires After(env, fuel, v, st).Done?
    ensures Goes(env, m, m', end, After(env, fuel, v, st).st)
  {
    var st2 := After(env, fuel, v, st).st;
    var m2 := RunCallFrom(env, fuel, v, a, m, m1, st);
    m' := RunJmp32(env, m2, st2, end - (m1.ip + 10));
    GoesTrans(env, m, m2, m2.ip, st2, m', m'.ip, st2);
  }

  /** One clause: its body runs and control goes to the end, or the next clause is next. */
  lemma SimCondClause(env: Env, fuel: nat, v1: word, v2: word, a1: int, a2: int, end: int, m: Machine, st: State)
    returns (m': Machine)
    requires CallsRun(env, fuel)
    requires CallableAddress(env.p, v1) == Address(a1) && CallableAddress(env.p, v2) == Address(a2)
    requires ClauseAt(env.fetch, m.ip, a1, a2, end)
    requires Rep(env, m, st)
    requires var o := After(env, fuel, v1, st);
             o.Done? && o.st.Has(1) && (o.st.Peek(0) != NIL ==> After(env, fuel, v2, o.st.Drop(1)).Done?)
    ensures var st1 := After(env, fuel, v1, st).st;
            if st1.Peek(0) != NIL then Goes(env, m, m', end, After(env, fuel, v2, st1.Drop(1)).st)
            else Goes(env, m, m', m.ip + 29, st1.Drop(1))
  {
    var st1 := After(env, fuel, v1, st).st;
    m' := RunCall(env, fuel, fuel, v1, a1, m, st);
    m' := RunCmpFrom(env, m, m', st1);
    m' := RunDropFrom(env, m, m', st1);
    m' := RunJz8From(env, m, m', st1.Drop(1), 10);
    if st1.Peek(0) != NIL {
      m' := RunCallExit(env, fuel, v2, a2, end, m, m', st1.Drop(1));
    }
  }

  /** From pc on there is a clause of 29 bytes for every pair, each leaving to end. */
  ghost predicate ClausesAt(p: Program, f: int -> Fetched, clauses: seq<word>, pc: int, end: int)
    decreases |clauses|
  {
    clauses == [] ||
    (&& IsPair(p, clauses[0])
     && ClauseAt(f, pc, PairAddress(p, clauses[0], 0), PairAddress(p, clauses[0], 1), end)
     && ClausesAt(p, f, clauses[1..], pc + 29, end))
  }

  /** A two-element array of callables. */
  predicate IsPair(p: Program, clause: word) {
    && IsArray(p.heap, clause) && |p.heap[clause].elems| == 2
    && CallableAddress(p, p.heap[clause].elems[0]).Address?
    && CallableAddress(p, p.heap[clause].elems[1]).Address?
  }

  function PairAddress(p: Program, clause: word, k: nat): int
    requires IsPair(p, clause) && k < 2
  {
    CallableAddress(p, p.heap[clause].elems[k]).a
  }

  ghost predicate ClauseAt(f: int -> Fetched, pc: int, a1: int, a2: int, end: int) {
    && Placed(f, pc, CallCode(pc, a1))
    && Placed(f, pc + 5, CmpNil())
    && Placed(f, pc + 9, DropCode())
    && Placed(f, pc + 17, One(Jz8(10)))
    && Placed(f, pc + 19, CallCode(pc + 19, a2))
    && Placed(f, pc + 24, JumpCode(pc + 24, end))
  }

  /** The code of the first clause and the code of the others. */
  lemma CondUnfold(p: Program, clauses: seq<word>, pc: int, end: int) returns (rest: seq<Instr>)
    requires CondClausesCode(p, clauses, pc, end).Good? && clauses != []
    requires pc + 29 < end
    ensures IsPair(p, clauses[0])
    ensures CondClausesCode(p, clauses[1..], pc + 29, end) == Good(rest)
    ensures CondClausesCode(p, clauses, pc, end).code ==
            CondClauseCode(pc, PairAddress(p, clauses[0], 0), PairAddress(p, clauses[0], 1), end) + rest
  {
    CondClauseSize(pc, PairAddress(p, clauses[0], 0), PairAddress(p, clauses[0], 1), end);
    rest := CondClausesCode(p, clauses[1..], pc + 29, end).code;
  }

  lemma {:induction false} CondPlaces(
    p: Program, f: int -> Fetched, clauses: seq<word>, pc: int, end: int, c: seq<Instr>)
    requires CondClausesCode(p, clauses, pc, end) == Good(c)
    requires pc + 29 * |clauses| < end
    requires Placed(f, pc, c)
    ensures ClausesAt(p, f, clauses, pc, end)
    decreases |clauses|
  {
    if clauses != [] {
      var rest := CondUnfold(p, clauses, pc, end);
      var a1, a2 := PairAddress(p, clauses[0], 0), PairAddress(p, clauses[0], 1);
      FirstClausePlaces(f, pc, a1, a2, end, rest);
      CondPlaces(p, f, clauses[1..], pc + 29, end, rest);
    }
  }

  lemma FirstClausePlaces(f: int -> Fetched, pc: int, a1: int, a2: int, end: int, rest: seq<Instr>)
    requires Placed(f, pc, CondClauseCode(pc, a1, a2, end) + rest)
    requires pc + 29 < end
    ensures ClauseAt(f, pc, a1, a2, end) && Placed(f, pc + 29, rest)
  {
    CondClauseSize(pc, a1, a2, end);
    PlacedAppend(f, pc, CondClauseCode(pc, a1, a2, end), rest);
    CondClausePlaces(f, pc, a1, a2, end);
  }

  /** One step of the search in the source. */
  lemma EvalClausesStep(env: Env, fuel: nat, clauses: seq<word>, st: State)
    requires clauses != [] && IsArray(env.p.heap, clauses[0]) && |env.p.heap[clauses[0]].elems| == 2
    requires EvalClauses(env.p.heap, env.sem, fuel, clauses, st).Done?
    ensures var pair := env.p.heap[clauses[0]].elems;
            var o := After(env, fuel, pair[0], st);
            && o.Done? && o.st.Has(1)
            && (o.st.Peek(0) != NIL ==> After(env, fuel, pair[1], o.st.Drop(1)).Done?)
            && EvalClauses(env.p.heap, env.sem, fuel, clauses, st) ==
               if o.st.Peek(0) != NIL then After(env, fuel, pair[1], o.st.Drop(1))
               else EvalClauses(env.p.heap, env.sem, fuel, clauses[1..], o.st.Drop(1))
  {
  }

  /** The clauses before the default: one of them ends the search at the end address, or
      control falls out of the last with the search still to be decided by rest. */
  lemma {:induction false} SimClauses(
    env: Env, fuel: nat, clauses: seq<word>, rest: seq<word>, end: int, m: Machine, st: State)
    returns (m': Machine, found: bool, st': State)
    requires CallsRun(env, fuel)
    requires ClausesAt(env.p, env.fetch, clauses, m.ip, end)
    requires Rep(env, m, st)
    requires EvalClauses(env.p.heap, env.sem, fuel, clauses + rest, st).Done?
    ensures |st'.locals| == |st.locals|
    ensures Goes(env, m, m', if found then end else m.ip + 29 * |clauses|, st')
    ensures EvalClauses(env.p.heap, env.sem, fuel, clauses + rest, st) ==
            if found then Done(st') else EvalClauses(env.p.heap, env.sem, fuel, rest, st')
    decreases |clauses|
  {
    if clauses == [] {
      assert clauses + rest == rest;
      ReachesRefl(env, m);
      m', found, st' := m, false, st;
    } else {
      var pair := env.p.heap[clauses[0]].elems;
      var a1, a2 := PairAddress(env.p, clauses[0], 0), PairAddress(env.p, clauses[0], 1);
      assert (clauses + rest)[0] == clauses[0] && (clauses + rest)[1..] == clauses[1..] + rest;
      EvalClausesStep(env, fuel, clauses + rest, st);
      m' := SimCondClause(env, fuel, pair[0], pair[1], a1, a2, end, m, st);
      var st1 := After(env, fuel, pair[0], st).st;
      if st1.Peek(0) != NIL {
        found, st' := true, After(env, fuel, pair[1], st1.Drop(1)).st;
      } else {
        var m1 := m';
        m', found, st' := SimClauses(env, fuel, clauses[1..], rest, end, m1, st1.Drop(1));
        GoesTrans(env, m, m1, m1.ip, st1.Drop(1), m', m'.ip, st');
      }
    }
  }

  /** What the code of a cond comes to: a clause for every pair before the default, then
      the call of the default or of no-cond. */
  lemma CondParts(p: Program, clauses: seq<word>, pc: int) returns (d: nat, body: seq<Instr>, last: int)
    requires CondCode(p, clauses, pc).Good?
    ensures d == DefaultIndex(p.heap, clauses)
    ensures CondClausesCode(p, clauses[..d], pc, d * 29 + pc + 5) == Good(body)
    ensures d < |clauses| ==> CallableAddress(p, clauses[d]) == Address(last)
    ensures CondCode(p, clauses, pc).code == body + CallCode(pc + Size(body), last)
  {
    hide CondClausesCode, DefaultIndex, CallableAddress, CallCode, Size, Asm;
    d := DefaultIndex(p.heap, clauses);
    body := CondClausesCode(p, clauses[..d], pc, d * 29 + pc + 5).code;
    last := if d < |clauses| then CallableAddress(p, clauses[d]).a else p.noCond;
  }

  /** The code of cond refines old-cond, and takes 29 bytes for each clause before the
      default and 5 for the last call. */
  lemma SimCond(env: Env, fuel: nat, clauses: seq<word>, c: seq<Instr>, m: Machine, st: State) returns (m': Machine)
    requires CallsRun(env, fuel)
    requires CondCode(env.p, clauses, m.ip) == Good(c)
    requires Placed(env.fetch, m.ip, c)
    requires Rep(env, m, st)
    requires EvalClauses(env.p.heap, env.sem, fuel, clauses, st).Done?
    ensures Size(c) == 29 * DefaultIndex(env.p.heap, clauses) + 5
    ensures Goes(env, m, m', m.ip + Size(c), EvalClauses(env.p.heap, env.sem, fuel, clauses, st).st)
  {
    hide *;
    var d, body, last := CondParts(env.p, clauses, m.ip);
    CondPartsPlace(env.p, env.fetch, clauses, m.ip, d, body, last);
    m' := SimSearch(env, fuel, clauses, d, last, m, st);
  }

  lemma CondPartsPlace(p: Program, f: int -> Fetched, clauses: seq<word>, pc: int, d: nat, body: seq<Instr>, last: int)
    requires d <= |clauses|
    requires CondClausesCode(p, clauses[..d], pc, d * 29 + pc + 5) == Good(body)
    requires Placed(f, pc, body + CallCode(pc + Size(body), last))
    ensures Size(body) == 29 * d
    ensures Size(body + CallCode(pc + Size(body), last)) == 29 * d + 5
    ensures ClausesAt(p, f, clauses[..d], pc, d * 29 + pc + 5)
    ensures Placed(f, pc + 29 * d, CallCode(pc + 29 * d, last))
  {
    hide CondClausesCode, ClausesAt, Placed, Size, Asm;
    CondLayout(p, clauses[..d], pc, d * 29 + pc + 5);
    PlacedAppend(f, pc, body, CallCode(pc + Size(body), last));
    CondPlaces(p, f, clauses[..d], pc, d * 29 + pc + 5, body);
  }

  lemma SimSearch(env: Env, fuel: nat, clauses: seq<word>, d: nat, last: int, m: Machine, st: State)
    returns (m': Machine)
    requires CallsRun(env, fuel)
    requires d <= |clauses| && (d < |clauses| ==> IsQuotation(env.p.heap, clauses[d]))
    requires d < |clauses| ==> CallableAddress(env.p, clauses[d]) == Address(last)
    requires ClausesAt(env.p, env.fetch, clauses[..d], m.ip, d * 29 + m.ip + 5)
    requires Placed(env.fetch, m.ip + 29 * d, CallCode(m.ip + 29 * d, last))
    requires Rep(env, m, st)
    requires EvalClauses(env.p.heap, env.sem, fuel, clauses, st).Done?
    ensures Goes(env, m, m', d * 29 + m.ip + 5, EvalClauses(env.p.heap, env.sem, fuel, clauses, st).st)
  {
    hide Rep, Preserved, CallsRun, CallValue, CallableAddress, ClausesAt, Placed, CallCode, Size, Asm;
    assert clauses[..d] + clauses[d..] == clauses;
    var m1, found, st1 := SimClauses(env, fuel, clauses[..d], clauses[d..], d * 29 + m.ip + 5, m, st);
    m' := m1;
    if !found {
      m' := RunCallFrom(env, fuel, clauses[d], last, m, m1, st1);
    }
  }

  // ---- words reached by a call ----

  /** The call of op's code at m.ip has the effect of op with k units of fuel. */
  ghost predicate WordRuns(env: Env, k: nat, op: Op, m: Machine, st: State) {
    var o := EvalOp(env.p.heap, env.sem, k, op, st);
    op in env.p.opAddr && Placed(env.fetch, m.ip, CallCode(m.ip, env.p.opAddr[op])) && Rep(env, m, st) && o.Done?
    ==> CanGo(env, m, m.ip + 5, o.st)
  }

  ghost predicate WordsRun(env: Env, fuel: nat) {
    forall k: nat, op: Op, m: Machine, st: State :: k <= fuel ==> WordRuns(env, k, op, m, st)
  }

  lemma RunSymbol(env: Env, fuel: nat, op: Op, m: Machine, st: State) returns (m': Machine)
    requires WordsRun(env, fuel)
    requires op in env.p.opAddr
    requires Placed(env.fetch, m.ip, CallCode(m.ip, env.p.opAddr[op]))
    requires Rep(env, m, st)
    requires EvalOp(env.p.heap, env.sem, fuel, op, st).Done?
    ensures Goes(env, m, m', m.ip + 5, EvalOp(env.p.heap, env.sem, fuel, op, st).st)
  {
    hide Rep, Preserved, Goes, Placed, EvalOp, CallCode;
    assert WordRuns(env, fuel, op, m, st);
    m' :| Goes(env, m, m', m.ip + 5, EvalOp(env.p.heap, env.sem, fuel, op, st).st);
  }

  // ---- match* ----

  ghost predicate MatchClauseAt(p: Program, f: int -> Fetched, pc: int, key: word, test: int, a: int, end: int) {
    && Placed(f, pc, DupCode())
    && Placed(f, pc + 8, One(MovImm64(RBX, Unwrap(p.heap, key))))
    && Placed(f, pc + 18, CallCode(pc + 18, test))
    && Placed(f, pc + 23, CmpNil())
    && Placed(f, pc + 27, DropCode())
    && Placed(f, pc + 35, One(Jz8(18)))
    && Placed(f, pc + 37, DropCode())
    && Placed(f, pc + 45, CallCode(pc + 45, a))
    && Placed(f, pc + 50, JumpCode(pc + 50, end))
  }

  /** From pc on there is a clause of 55 bytes for every pair, each leaving to end. */
  ghost predicate PairsAt(p: Program, f: int -> Fetched, pairs: seq<word>, pc: int, end: int)
    decreases |pairs|
  {
    |pairs| < 2 ||
    (&& MatchTest in p.opAddr
     && QuotationAddress(p, pairs[1]).Address?
     && MatchClauseAt(p, f, pc, pairs[0], p.opAddr[MatchTest], QuotationAddress(p, pairs[1]).a, end)
     && PairsAt(p, f, pairs[2..], pc + 55, end))
  }

  lemma MatchClausePlaces(
    p: Program, f: int -> Fetched, pc: int, key: word, test: int, a: int, end: int, rest: seq<Instr>)
    requires end != pc + 55
    requires Placed(f, pc, MatchClauseCode(p, pc, key, test, a, end) + rest)
    ensures MatchClauseAt(p, f, pc, key, test, a, end) && Placed(f, pc + 55, rest)
  {
    hide MatchClauseCode, Placed, Size, Asm;
    MatchClauseSize(p, pc, key, test, a, end);
    PlacedAppend(f, pc, MatchClauseCode(p, pc, key, test, a, end), rest);
    var k := One(MovImm64(RBX, Unwrap(p.heap, key)));
    var c8 := CallCode(pc + 45, a) + JumpCode(pc + 50, end);
    var c7 := DropCode() + c8;
    var c6 := One(Jz8(18)) + c7;
    var c5 := DropCode() + c6;
    var c4 := CmpNil() + c5;
    var c3 := CallCode(pc + 18, test) + c4;
    PlacedAppend(f, pc, DupCode(), k + c3);
    PlacedAppend(f, pc + 8, k, c3);
    PlacedAppend(f, pc + 18, CallCode(pc + 18, test), c4);
    PlacedAppend(f, pc + 23, CmpNil(), c5);
    PlacedAppend(f, pc + 27, DropCode(), c6);
    PlacedAppend(f, pc + 35, One(Jz8(18)), c7);
    PlacedAppend(f, pc + 37, DropCode(), c8);
    PlacedAppend(f, pc + 45, CallCode(pc + 45, a), JumpCode(pc + 50, end));
  }

  lemma MatchUnfold(p: Program, pairs: seq<word>, pc: int, end: int) returns (rest: seq<Instr>)
    requires MatchClausesCode(p, pairs, pc, end).Good? && |pairs| >= 2
    requires pc + 55 < end
    ensures MatchTest in p.opAddr && QuotationAddress(p, pairs[1]).Address?
    ensures MatchClausesCode(p, pairs[2..], pc + 55, end) == Good(rest)
    ensures MatchClausesCode(p, pairs, pc, end).code ==
            MatchClauseCode(p, pc, pairs[0], p.opAddr[MatchTest], QuotationAddress(p, pairs[1]).a, end) + rest
  {
    hide MatchClauseCode, Size, Asm;
    MatchClauseSize(p, pc, pairs[0], p.opAddr[MatchTest], QuotationAddress(p, pairs[1]).a, end);
    rest := MatchClausesCode(p, pairs[2..], pc + 55, end).code;
  }

  lemma {:induction false} MatchPlaces(
    p: Program, f: int -> Fetched, pairs: seq<word>, pc: int, end: int, c: seq<Instr>)
    requires MatchClausesCode(p, pairs, pc, end) == Good(c)
    requires pc + 55 * (|pairs| / 2) < end
    requires Placed(f, pc, c)
    ensures PairsAt(p, f, pairs, pc, end)
    decreases |pairs|
  {
    hide MatchClauseCode, MatchClausesCode, MatchClauseAt, Placed, Size, Asm;
    if |pairs| >= 2 {
      var rest := MatchUnfold(p, pairs, pc, end);
      MatchClausePlaces(p, f, pc, pairs[0], p.opAddr[MatchTest], QuotationAddress(p, pairs[1]).a, end, rest);
      assert |pairs[2..]| / 2 == |pairs| / 2 - 1;
      MatchPlaces(p, f, pairs[2..], pc + 55, end, rest);
    }
  }

  /** What taking pair c comes to, with the element to match dropped. */
  function Chosen(env: Env, fuel: nat, pairs: seq<word>, c: nat, st: State): Outcome
    requires c < |pairs| / 2 && st.Has(1)
  {
    After(env, fuel, pairs[2 * c + 1], st.Drop(1))
  }

  /** Control gets to ip with the state that a finished outcome ends in. */
  ghost predicate GoesOn(env: Env, m: Machine, m': Machine, ip: int, out: Outcome) {
    out.Done? && Goes(env, m, m', ip, out.st)
  }

  /** One pair: the quotation runs and control goes to the end, or the next pair is next.
      What is compared is the key without its wrapper. */
  lemma RunMatchClause(env: Env, fuel: nat, key: word, v: word, a: int, end: int, m: Machine, st: State)
    returns (m': Machine)
    requires CallsRun(env, fuel) && WordsRun(env, fuel)
    requires MatchTest in env.p.opAddr
    requires CallableAddress(env.p, v) == Address(a)
    requires MatchClauseAt(env.p, env.fetch, m.ip, key, env.p.opAddr[MatchTest], a, end)
    requires Rep(env, m, st) && st.Has(1)
    requires env.sem.equal(st.Peek(0), Unwrap(env.p.heap, key)) ==> After(env, fuel, v, st.Drop(1)).Done?
    ensures if env.sem.equal(st.Peek(0), Unwrap(env.p.heap, key))
            then Goes(env, m, m', end, After(env, fuel, v, st.Drop(1)).st)
            else Goes(env, m, m', m.ip + 55, st)
  {
    hide Rep, Preserved, Goes, CallsRun, WordsRun, CallValue, CallableAddress, Placed, Unwrap, Size, Asm;
    hide DupCode, CallCode, CmpNil, DropCode, JumpCode;
    m' := RunMatchTest(env, fuel, Unwrap(env.p.heap, key), m, st);
    var zf := m'.zf;
    GoesReps(env, m, m', m.ip + 35, st);
    m' := RunJz8From(env, m, m', st, 18);
    if !zf {
      GoesReps(env, m, m', m.ip + 37, st);
      m' := RunDropFrom(env, m, m', st);
      GoesReps(env, m, m', m.ip + 45, st.Drop(1));
      m' := RunCallExit(env, fuel, v, a, end, m, m', st.Drop(1));
    }
  }

  /** The key is pushed and compared, and the comparison dropped again. */
  lemma RunMatchTest(env: Env, fuel: nat, key: word, m: Machine, st: State) returns (m': Machine)
    requires WordsRun(env, fuel)
    requires MatchTest in env.p.opAddr
    requires Placed(env.fetch, m.ip, DupCode())
    requires Placed(env.fetch, m.ip + 8, One(MovImm64(RBX, key)))
    requires Placed(env.fetch, m.ip + 18, CallCode(m.ip + 18, env.p.opAddr[MatchTest]))
    requires Placed(env.fetch, m.ip + 23, CmpNil())
    requires Placed(env.fetch, m.ip + 27, DropCode())
    requires Rep(env, m, st) && st.Has(1)
    ensures Goes(env, m, m', m.ip + 35, st)
    ensures m'.zf == !env.sem.equal(st.Peek(0), key)
  {
    hide *;
    var result := if env.sem.equal(st.Peek(0), key) then TRUE else NIL;
    PushHas(st, key);
    PushHas(st, result);
    MatchTestMeans(env, fuel, key, st);
    m' := RunKey(env, key, m, st);
    GoesReps(env, m, m', m.ip + 18, st.Push(key));
    m' := RunSymbolFrom(env, fuel, MatchTest, m, m', st.Push(key));
    GoesReps(env, m, m', m.ip + 23, st.Push(result));
    m' := RunCmpFrom(env, m, m', st.Push(result));
    GoesReps(env, m, m', m.ip + 27, st.Push(result));
    var zf := m'.zf;
    m' := RunDropFrom(env, m, m', st.Push(result));
    TruthIsNotNil();
  }

  lemma TruthIsNotNil()
    ensures TRUE != NIL
  {
  }

  lemma PushHas(st: State, v: word)
    ensures st.Push(v).Has(1) && st.Push(v).Peek(0) == v && st.Push(v).Drop(1) == st
  {
  }

  lemma RunSymbolFrom(env: Env, fuel: nat, op: Op, m: Machine, m1: Machine, st: State) returns (m': Machine)
    requires WordsRun(env, fuel)
    requires op in env.p.opAddr
    requires Goes(env, m, m1, m1.ip, st)
    requires Placed(env.fetch, m1.ip, CallCode(m1.ip, env.p.opAddr[op]))
    requires EvalOp(env.p.heap, env.sem, fuel, op, st).Done?
    ensures Goes(env, m, m', m1.ip + 5, EvalOp(env.p.heap, env.sem, fuel, op, st).st)
  {
    hide Rep, Preserved, Reaches, WordsRun, Placed, CallCode, EvalOp;
    m' := RunSymbol(env, fuel, op, m1, st);
    GoesTrans(env, m, m1, m1.ip, st, m', m'.ip, EvalOp(env.p.heap, env.sem, fuel, op, st).st);
  }

  lemma MatchTestMeans(env: Env, fuel: nat, key: word, st: State)
    requires st.Has(1)
    ensures EvalOp(env.p.heap, env.sem, fuel, MatchTest, st.Push(key)) ==
            Done(st.Push(if env.sem.equal(st.Peek(0), key) then TRUE else NIL))
  {
    PushPeeks(st, key);
  }

  lemma RunKey(env: Env, key: word, m: Machine, st: State) returns (m': Machine)
    requires Placed(env.fetch, m.ip, DupCode())
    requires Placed(env.fetch, m.ip + 8, One(MovImm64(RBX, key)))
    requires Rep(env, m, st)
    ensures Goes(env, m, m', m.ip + 18, st.Push(key))
  {
    var m1 := RunDup(env, m, st);
    m' := m1.(ip := m1.ip + 10, rbx := key);
    StepRuns(env, m1, MovImm64(RBX, key), m');
    ReachesTrans(env, m, m1, m');
    assert Rep(env, m1.(rbx := key), st.Push(key));
  }

  lemma PairsAtFirst(p: Program, f: int -> Fetched, pairs: seq<word>, i: nat, k: nat, pc: int, end: int)
    requires i < k && 2 * k <= |pairs|
    requires PairsAt(p, f, pairs[2 * i..2 * k], pc, end)
    ensures MatchTest in p.opAddr && QuotationAddress(p, pairs[2 * i + 1]).Address?
    ensures MatchClauseAt(p, f, pc, pairs[2 * i], p.opAddr[MatchTest], QuotationAddress(p, pairs[2 * i + 1]).a, end)
    ensures PairsAt(p, f, pairs[2 * (i + 1)..2 * k], pc + 55, end)
  {
    hide MatchClauseAt, QuotationAddress;
    var some := pairs[2 * i..2 * k];
    assert some[0] == pairs[2 * i] && some[1] == pairs[2 * i + 1];
    assert some[2..] == pairs[2 * (i + 1)..2 * k];
  }

  /** The pairs from i up to k: the first whose unwrapped key is equal runs its quotation
      and ends the search at the end address, or control falls out of the last. */
  lemma {:induction false} RunPairs(
    env: Env, fuel: nat, pairs: seq<word>, i: nat, k: nat, end: int, m: Machine, st: State, hit: int)
    returns (m': Machine)
    requires CallsRun(env, fuel) && WordsRun(env, fuel)
    requires i <= k && 2 * k <= |pairs|
    requires PairsAt(env.p, env.fetch, pairs[2 * i..2 * k], m.ip, end)
    requires Rep(env, m, st) && st.Has(1)
    requires hit == FirstEqual(env.p.heap, pairs, env.sem.equal, st.Peek(0), i, k)
    requires hit >= 0 ==> Chosen(env, fuel, pairs, hit, st).Done?
    ensures hit >= 0 ==> GoesOn(env, m, m', end, Chosen(env, fuel, pairs, hit, st))
    ensures hit < 0 ==> Goes(env, m, m', m.ip + 55 * (k - i), st)
    decreases k - i
  {
    hide Rep, Preserved, Goes, MatchClauseAt, PairsAt, CallsRun, WordsRun, CallValue, After, Unwrap;
    if i == k {
      StaysPut(env, m, st);
      m' := m;
    } else {
      PairsAtFirst(env.p, env.fetch, pairs, i, k, m.ip, end);
      var a := QuotationAddress(env.p, pairs[2 * i + 1]).a;
      m' := RunMatchClause(env, fuel, pairs[2 * i], pairs[2 * i + 1], a, end, m, st);
      if hit != i {
        var m1 := m';
        GoesReps(env, m, m1, m.ip + 55, st);
        m' := RunPairs(env, fuel, pairs, i + 1, k, end, m1, st, hit);
        if hit >= 0 {
          ChosenKeepsLocals(env, fuel, pairs, hit, st);
          GoesTrans(env, m, m1, m1.ip, st, m', end, Chosen(env, fuel, pairs, hit, st).st);
        } else {
          GoesTrans(env, m, m1, m1.ip, st, m', m1.ip + 55 * (k - (i + 1)), st);
        }
      }
    }
  }

  lemma ChosenKeepsLocals(env: Env, fuel: nat, pairs: seq<word>, c: nat, st: State)
    requires c < |pairs| / 2 && st.Has(1) && Chosen(env, fuel, pairs, c, st).Done?
    ensures |Chosen(env, fuel, pairs, c, st).st.locals| == |st.locals|
  {
  }

  lemma StaysPut(env: Env, m: Machine, st: State)
    requires Rep(env, m, st)
    ensures Goes(env, m, m, m.ip, st)
  {
    ReachesRefl(env, m);
  }

  lemma GoesReps(env: Env, m: Machine, m': Machine, ip: int, st: State)
    requires Goes(env, m, m', ip, st)
    ensures Rep(env, m', st) && m'.ip == ip && m'.rsp == m.rsp
  {
  }

  /** What the code of a match* comes to: a clause for every pair before the default, then
      the default or the report that nothing matched. */
  lemma MatchParts(p: Program, pairs: seq<word>, pc: int) returns (d: int, k: nat, body: seq<Instr>, last: int)
    requires MatchCode(p, pairs, pc).Good?
    ensures |pairs| % 2 == 0
    ensures d == WildcardIndex(p, pairs, |pairs| / 2) && k == Tested(p, pairs)
    ensures MatchClausesCode(p, pairs[..2 * k], pc, k * 55 + pc + (if 0 <= d then 13 else 5)) == Good(body)
    ensures if 0 <= d then CallableAddress(p, pairs[2 * d + 1]) == Address(last) else last == p.noMatch
    ensures MatchCode(p, pairs, pc).code == body + MatchTail(pc + Size(body), d, last)
  {
    hide MatchClausesCode, WildcardIndex, CallableAddress, CallCode, DropCode, Size, Asm;
    d := WildcardIndex(p, pairs, |pairs| / 2);
    k := if 0 <= d then d else |pairs| / 2;
    body := MatchClausesCode(p, pairs[..2 * k], pc, k * 55 + pc + (if 0 <= d then 13 else 5)).code;
    last := if 0 <= d then CallableAddress(p, pairs[2 * d + 1]).a else p.noMatch;
  }

  /** Behind the clauses: the element is dropped and the default called, or the report that
      nothing matched is called with the element on top. */
  function MatchTail(pc: int, d: int, last: int): seq<Instr> {
    if 0 <= d then DropCode() + CallCode(pc + 8, last) else CallCode(pc, last)
  }

  lemma MatchTailPlaces(f: int -> Fetched, pc: int, d: int, last: int)
    requires Placed(f, pc, MatchTail(pc, d, last))
    ensures Size(MatchTail(pc, d, last)) == if 0 <= d then 13 else 5
    ensures if 0 <= d then Placed(f, pc, DropCode()) && Placed(f, pc + 8, CallCode(pc + 8, last))
            else Placed(f, pc, CallCode(pc, last))
  {
    if 0 <= d {
      PlacedAppend(f, pc, DropCode(), CallCode(pc + 8, last));
    }
  }

  lemma MatchPartsPlace(
    p: Program, f: int -> Fetched, pairs: seq<word>, pc: int, k: nat, body: seq<Instr>, tail: seq<Instr>, end: int)
    requires 2 * k <= |pairs|
    requires MatchClausesCode(p, pairs[..2 * k], pc, end) == Good(body)
    requires pc + 55 * k < end
    requires Placed(f, pc, body + tail)
    ensures Size(body) == 55 * k
    ensures Size(body + tail) == 55 * k + Size(tail)
    ensures PairsAt(p, f, pairs[..2 * k], pc, end)
    ensures Placed(f, pc + 55 * k, tail)
  {
    hide MatchClausesCode, PairsAt, Placed, Size, Asm;
    assert |pairs[..2 * k]| / 2 == k;
    MatchLayout(p, pairs[..2 * k], pc, end);
    PlacedAppend(f, pc, body, tail);
    MatchPlaces(p, f, pairs[..2 * k], pc, end, body);
  }

  /** The pair that the code takes for the element on top. */
  function Choice(env: Env, pairs: seq<word>, st: State): (c: int)
    requires st.Has(1)
    ensures -1 <= c < |pairs| / 2
  {
    CompiledChoice(env.p, pairs, env.sem.equal, st.Peek(0))
  }

  /** The code of match*, for any array that it is emitted for: it runs the quotation of
      the pair that CompiledChoice names and ends behind the code, or stands at the call
      that reports that nothing matched, with the element still on top. It takes 55 bytes
      a clause and 13 or 5 at the end. */
  lemma RunChosen(env: Env, fuel: nat, pairs: seq<word>, c: seq<Instr>, m: Machine, st: State) returns (m': Machine)
    requires CallsRun(env, fuel) && WordsRun(env, fuel)
    requires MatchCode(env.p, pairs, m.ip) == Good(c)
    requires Placed(env.fetch, m.ip, c)
    requires Rep(env, m, st) && st.Has(1)
    requires Choice(env, pairs, st) >= 0 ==> Chosen(env, fuel, pairs, Choice(env, pairs, st), st).Done?
    ensures var d := WildcardIndex(env.p, pairs, |pairs| / 2);
            Size(c) == if 0 <= d then 55 * d + 13 else 55 * (|pairs| / 2) + 5
    ensures Choice(env, pairs, st) >= 0 ==>
              GoesOn(env, m, m', m.ip + Size(c), Chosen(env, fuel, pairs, Choice(env, pairs, st), st))
    ensures Choice(env, pairs, st) < 0 ==>
              Goes(env, m, m', m.ip + Size(c) - 5, st) && Placed(env.fetch, m'.ip, CallCode(m'.ip, env.p.noMatch))
  {
    hide *;
    var d, k, body, last := MatchParts(env.p, pairs, m.ip);
    var end := k * 55 + m.ip + (if 0 <= d then 13 else 5);
    MatchPartsPlace(env.p, env.fetch, pairs, m.ip, k, body, MatchTail(m.ip + Size(body), d, last), end);
    MatchTailPlaces(env.fetch, m.ip + 55 * k, d, last);
    TestedIsDefault(env.p, pairs);
    m' := RunParts(env, fuel, pairs, d, k, last, end, m, st);
    if Choice(env, pairs, st) < 0 {
      GoesReps(env, m, m', m.ip + 55 * k, st);
    }
  }

  lemma ChoiceIs(env: Env, pairs: seq<word>, st: State, d: int, k: nat)
    requires st.Has(1)
    requires d == WildcardIndex(env.p, pairs, |pairs| / 2) && k == Tested(env.p, pairs)
    ensures var hit := FirstEqual(env.p.heap, pairs, env.sem.equal, st.Peek(0), 0, k);
            Choice(env, pairs, st) == if hit >= 0 then hit else d
  {
  }

  lemma RunParts(
    env: Env, fuel: nat, pairs: seq<word>, d: int, k: nat, last: int, end: int, m: Machine, st: State)
    returns (m': Machine)
    requires CallsRun(env, fuel) && WordsRun(env, fuel)
    requires d == WildcardIndex(env.p, pairs, |pairs| / 2) && k == Tested(env.p, pairs)
    requires end == k * 55 + m.ip + (if 0 <= d then 13 else 5)
    requires PairsAt(env.p, env.fetch, pairs[..2 * k], m.ip, end)
    requires 0 <= d ==> CallableAddress(env.p, pairs[2 * d + 1]) == Address(last)
    requires 0 <= d ==> Placed(env.fetch, m.ip + 55 * k, DropCode())
    requires 0 <= d ==> Placed(env.fetch, m.ip + 55 * k + 8, CallCode(m.ip + 55 * k + 8, last))
    requires Rep(env, m, st) && st.Has(1)
    requires Choice(env, pairs, st) >= 0 ==> Chosen(env, fuel, pairs, Choice(env, pairs, st), st).Done?
    ensures Choice(env, pairs, st) >= 0 ==>
              GoesOn(env, m, m', end, Chosen(env, fuel, pairs, Choice(env, pairs, st), st))
    ensures Choice(env, pairs, st) < 0 ==> Goes(env, m, m', m.ip + 55 * k, st) && d < 0
  {
    hide Rep, Preserved, Goes, CallsRun, WordsRun, PairsAt, Placed, CallableAddress, CallValue, After, DropCode;
    hide CallCode;
    hide Tested, WildcardIndex, CompiledChoice, Choice, FirstEqual;
    ChoiceIs(env, pairs, st, d, k);
    assert pairs[2 * 0..2 * k] == pairs[..2 * k];
    var hit := FirstEqual(env.p.heap, pairs, env.sem.equal, st.Peek(0), 0, k);
    m' := RunPairs(env, fuel, pairs, 0, k, end, m, st, hit);
    if 0 <= d && hit < 0 {
      TestedIsDefault(env.p, pairs);
      GoesReps(env, m, m', m.ip + 55 * k, st);
      m' := RunDropFrom(env, m, m', st);
      GoesReps(env, m, m', m.ip + 55 * k + 8, st.Drop(1));
      m' := RunCallFrom(env, fuel, pairs[2 * d + 1], last, m, m', st.Drop(1));
    }
  }

  lemma TestedIsDefault(p: Program, pairs: seq<word>)
    ensures var d := WildcardIndex(p, pairs, |pairs| / 2); Tested(p, pairs) == if d >= 0 then d else |pairs| / 2
  {
  }

  /** On an array that the two read alike, the interpreter too takes the pair that the code
      takes. */
  lemma AlikeMeans(env: Env, fuel: nat, pairs: seq<word>, st: State)
    requires env.p.wildcard == env.sem.wildcard
    requires MatchReadsAlike(env.p, pairs)
    requires EvalMatch(env.p.heap, env.sem, fuel, pairs, st).Done?
    ensures st.Has(1) && Choice(env, pairs, st) >= 0
    ensures Chosen(env, fuel, pairs, Choice(env, pairs, st), st) == EvalMatch(env.p.heap, env.sem, fuel, pairs, st)
  {
    hide MatchReadsAlike, CompiledChoice, InterpretedChoice, CallValue, EvalMatch;
    EvalMatchHas(env, fuel, pairs, st);
    SameChoice(env.p, pairs, env.sem.equal, st.Peek(0));
    EvalMatchChoice(env.p, env.sem, fuel, pairs, 0, st);
    assert pairs[2 * 0..] == pairs;
  }

  lemma EvalMatchHas(env: Env, fuel: nat, pairs: seq<word>, st: State)
    requires EvalMatch(env.p.heap, env.sem, fuel, pairs, st).Done?
    ensures st.Has(1)
  {
  }

  /** The code of match* selects the clause that the interpreted match* selects and
      leaves the same stack, for every array that the two read alike. */
  lemma SimMatch(env: Env, fuel: nat, pairs: seq<word>, c: seq<Instr>, m: Machine, st: State) returns (m': Machine)
    requires CallsRun(env, fuel) && WordsRun(env, fuel)
    requires env.p.wildcard == env.sem.wildcard
    requires MatchCode(env.p, pairs, m.ip) == Good(c)
    requires MatchReadsAlike(env.p, pairs)
    requires Placed(env.fetch, m.ip, c)
    requires Rep(env, m, st)
    requires EvalMatch(env.p.heap, env.sem, fuel, pairs, st).Done?
    ensures Goes(env, m, m', m.ip + Size(c), EvalMatch(env.p.heap, env.sem, fuel, pairs, st).st)
  {
    hide Rep, Preserved, Goes, CallsRun, WordsRun, CallValue, EvalMatch, MatchCode, MatchReadsAlike, Placed, Size, Asm;
    hide Choice, Chosen, After, WildcardIndex;
    AlikeMeans(env, fuel, pairs, st);
    m' := RunChosen(env, fuel, pairs, c, m, st);
  }
}
