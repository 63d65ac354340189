/** The in-line code of each combinator does what the combinator means, as long as the
    calls in it do what calling their targets means. */
module Combinators {
  import opened Bytes
  import opened X86
  import opened Source
  import opened CodeGen
  import opened Machine
  import opened Simulation

  /** The call of v's code at m.ip has the effect of calling v with k units of fuel. */
  ghost predicate CallRuns(env: Env, k: nat, v: word, m: Machine, st: State) {
    var a := CallableAddress(env.p, v);
    var o := CallValue(env.p.heap, env.sem, k, v, st);
    a.Address? && Placed(env.fetch, m.ip, CallCode(m.ip, a.a)) && Rep(env, m, st) && o.Done?
    ==> CanGo(env, m, m.ip + 5, o.st)
  }

  ghost predicate CanGo(env: Env, m: Machine, ip: int, st: State) {
    exists m' :: Goes(env, m, m', ip, st)
  }

  ghost predicate CallsRun(env: Env, fuel: nat) {
    forall k: nat, v: word, m: Machine, st: State :: k <= fuel ==> CallRuns(env, k, v, m, st)
  }

  lemma RunCall(env: Env, fuel: nat, k: nat, v: word, a: int, m: Machine, st: State) returns (m': Machine)
    requires CallsRun(env, fuel) && k <= fuel
    requires CallableAddress(env.p, v) == Address(a)
    requires Placed(env.fetch, m.ip, CallCode(m.ip, a))
    requires Rep(env, m, st)
    requires CallValue(env.p.heap, env.sem, k, v, st).Done?
    ensures Goes(env, m, m', m.ip + 5, CallValue(env.p.heap, env.sem, k, v, st).st)
  {
    assert CallRuns(env, k, v, m, st);
    m' :| Goes(env, m, m', m.ip + 5, CallValue(env.p.heap, env.sem, k, v, st).st);
  }

  lemma PushPeeks(st: State, v: word)
    ensures st.Push(v).Peek(0) == v
    ensures st.Push(v).Drop(1) == st
    ensures st.Has(1) ==> st.Push(v).Peek(1) == st.Peek(0) && st.Push(v).Drop(2) == st.Drop(1)
    ensures st.Has(2) ==> st.Push(v).Peek(2) == st.Peek(1) && st.Push(v).Drop(3) == st.Drop(2)
  {
  }

  lemma PushTwoPeeks(st: State, v: word, w: word)
    ensures var s := st.Push(v).Push(w);
            && s.Peek(0) == w && s.Peek(1) == v && s.Drop(2) == st
            && (st.Has(1) ==> s.Peek(2) == st.Peek(0) && s.Drop(3) == st.Drop(1))
  {
  }

  /** What calling v with fuel units of fuel comes to. */
  function After(env: Env, fuel: nat, v: word, st: State): Outcome {
    CallValue(env.p.heap, env.sem, fuel, v, st)
  }

  lemma RunCallFrom(env: Env, fuel: nat, v: word, a: int, m: Machine, m1: Machine, st: State)
    returns (m': Machine)
    requires CallsRun(env, fuel)
    requires CallableAddress(env.p, v) == Address(a)
    requires Goes(env, m, m1, m1.ip, st)
    requires Placed(env.fetch, m1.ip, CallCode(m1.ip, a))
    requires After(env, fuel, v, st).Done?
    ensures Goes(env, m, m', m1.ip + 5, After(env, fuel, v, st).st)
  {
    m' := RunCall(env, fuel, fuel, v, a, m1, st);
    GoesTrans(env, m, m1, m1.ip, st, m', m'.ip, After(env, fuel, v, st).st);
  }

  lemma RunDropFrom(env: Env, m: Machine, m1: Machine, st: State) returns (m': Machine)
    requires Goes(env, m, m1, m1.ip, st) && st.Has(1)
    requires Placed(env.fetch, m1.ip, DropCode())
    ensures Goes(env, m, m', m1.ip + 8, st.Drop(1)) && m'.zf == m1.zf
  {
    m' := RunDrop(env, m1, st);
    GoesTrans(env, m, m1, m1.ip, st, m', m'.ip, st.Drop(1));
  }

  lemma RunCmpFrom(env: Env, m: Machine, m1: Machine, st: State) returns (m': Machine)
    requires Goes(env, m, m1, m1.ip, st) && st.Has(1)
    requires Placed(env.fetch, m1.ip, CmpNil())
    ensures Goes(env, m, m', m1.ip + 4, st) && m'.zf == (st.Peek(0) == NIL)
  {
    m' := RunCmp(env, m1, st);
    GoesTrans(env, m, m1, m1.ip, st, m', m'.ip, st);
  }

  lemma RunJz8From(env: Env, m: Machine, m1: Machine, st: State, d: int) returns (m': Machine)
    requires Goes(env, m, m1, m1.ip, st)
    requires Placed(env.fetch, m1.ip, One(Jz8(d)))
    ensures Goes(env, m, m', if m1.zf then m1.ip + 2 + d else m1.ip + 2, st)
  {
    m' := RunJz8(env, m1, st, d);
    GoesTrans(env, m, m1, m1.ip, st, m', m'.ip, st);
  }

  lemma RunJne8From(env: Env, m: Machine, m1: Machine, st: State, d: int) returns (m': Machine)
    requires Goes(env, m, m1, m1.ip, st)
    requires Placed(env.fetch, m1.ip, One(Jne8(d)))
    ensures Goes(env, m, m', if m1.zf then m1.ip + 2 else m1.ip + 2 + d, st)
  {
    m' := RunJne8(env, m1, st, d);
    GoesTrans(env, m, m1, m1.ip, st, m', m'.ip, st);
  }

  lemma RunJmp8From(env: Env, m: Machine, m1: Machine, st: State, d: int) returns (m': Machine)
    requires Goes(env, m, m1, m1.ip, st)
    requires Placed(env.fetch, m1.ip, One(Jmp8(d)))
    ensures Goes(env, m, m', m1.ip + 2 + d, st)
  {
    m' := RunJmp8(env, m1, st, d);
    GoesTrans(env, m, m1, m1.ip, st, m', m'.ip, st);
  }

  lemma WhenPlaces(f: int -> Fetched, pc: int, a: int)
    requires Placed(f, pc, WhenCode(pc, a))
    ensures Placed(f, pc, CmpNil())
    ensures Placed(f, pc + 4, DropCode())
    ensures Placed(f, pc + 12, One(Jz8(5)))
    ensures Placed(f, pc + 14, CallCode(pc + 14, a))
    ensures Size(WhenCode(pc, a)) == 19
  {
    PlacedAppend(f, pc, CmpNil(), DropCode() + (One(Jz8(5)) + CallCode(pc + 14, a)));
    PlacedAppend(f, pc + 4, DropCode(), One(Jz8(5)) + CallCode(pc + 14, a));
    PlacedAppend(f, pc + 12, One(Jz8(5)), CallCode(pc + 14, a));
  }

  lemma SimWhen(env: Env, fuel: nat, v: word, a: int, m: Machine, st: State) returns (m': Machine)
    requires CallsRun(env, fuel)
    requires CallableAddress(env.p, v) == Address(a)
    requires Placed(env.fetch, m.ip, WhenCode(m.ip, a))
    requires Rep(env, m, st) && st.Has(1)
    requires st.Peek(0) != NIL ==> After(env, fuel, v, st.Drop(1)).Done?
    ensures Goes(env, m, m', m.ip + 19,
                 if st.Peek(0) != NIL then After(env, fuel, v, st.Drop(1)).st else st.Drop(1))
  {
    WhenPlaces(env.fetch, m.ip, a);
    m' := RunCmp(env, m, st);
    m' := RunDropFrom(env, m, m', st);
    m' := RunJz8From(env, m, m', st.Drop(1), 5);
    if st.Peek(0) != NIL {
      m' := RunCallFrom(env, fuel, v, a, m, m', st.Drop(1));
    }
  }

  lemma UnlessPlaces(f: int -> Fetched, pc: int, a: int)
    requires Placed(f, pc, UnlessCode(pc, a))
    ensures Placed(f, pc, CmpNil())
    ensures Placed(f, pc + 4, DropCode())
    ensures Placed(f, pc + 12, One(Jne8(5)))
    ensures Placed(f, pc + 14, CallCode(pc + 14, a))
    ensures Size(UnlessCode(pc, a)) == 19
  {
    PlacedAppend(f, pc, CmpNil(), DropCode() + (One(Jne8(5)) + CallCode(pc + 14, a)));
    PlacedAppend(f, pc + 4, DropCode(), One(Jne8(5)) + CallCode(pc + 14, a));
    PlacedAppend(f, pc + 12, One(Jne8(5)), CallCode(pc + 14, a));
  }

  lemma SimUnless(env: Env, fuel: nat, v: word, a: int, m: Machine, st: State) returns (m': Machine)
    requires CallsRun(env, fuel)
    requires CallableAddress(env.p, v) == Address(a)
    requires Placed(env.fetch, m.ip, UnlessCode(m.ip, a))
    requires Rep(env, m, st) && st.Has(1)
    requires st.Peek(0) == NIL ==> After(env, fuel, v, st.Drop(1)).Done?
    ensures Goes(env, m, m', m.ip + 19,
                 if st.Peek(0) == NIL then After(env, fuel, v, st.Drop(1)).st else st.Drop(1))
  {
    UnlessPlaces(env.fetch, m.ip, a);
    m' := RunCmp(env, m, st);
    m' := RunDropFrom(env, m, m', st);
    m' := RunJne8From(env, m, m', st.Drop(1), 5);
    if st.Peek(0) == NIL {
      m' := RunCallFrom(env, fuel, v, a, m, m', st.Drop(1));
    }
  }

  lemma WhenStarPlaces(f: int -> Fetched, pc: int, a: int)
    requires Placed(f, pc, WhenStarCode(pc, a))
    ensures Placed(f, pc, CmpNil())
    ensures Placed(f, pc + 4, One(Jz8(7)))
    ensures Placed(f, pc + 6, CallCode(pc + 6, a))
    ensures Placed(f, pc + 11, One(Jmp8(8)))
    ensures Placed(f, pc + 13, DropCode())
    ensures Size(WhenStarCode(pc, a)) == 21
  {
    PlacedAppend(f, pc, CmpNil(), One(Jz8(7)) + (CallCode(pc + 6, a) + (One(Jmp8(8)) + DropCode())));
    PlacedAppend(f, pc + 4, One(Jz8(7)), CallCode(pc + 6, a) + (One(Jmp8(8)) + DropCode()));
    PlacedAppend(f, pc + 6, CallCode(pc + 6, a), One(Jmp8(8)) + DropCode());
    PlacedAppend(f, pc + 11, One(Jmp8(8)), DropCode());
  }

  lemma SimWhenStar(env: Env, fuel: nat, v: word, a: int, m: Machine, st: State) returns (m': Machine)
    requires CallsRun(env, fuel)
    requires CallableAddress(env.p, v) == Address(a)
    requires Placed(env.fetch, m.ip, WhenStarCode(m.ip, a))
    requires Rep(env, m, st) && st.Has(1)
    requires st.Peek(0) != NIL ==> After(env, fuel, v, st).Done?
    ensures Goes(env, m, m', m.ip + 21,
                 if st.Peek(0) != NIL then After(env, fuel, v, st).st else st.Drop(1))
  {
    WhenStarPlaces(env.fetch, m.ip, a);
    m' := RunCmp(env, m, st);
    m' := RunJz8From(env, m, m', st, 7);
    if st.Peek(0) == NIL {
      m' := RunDropFrom(env, m, m', st);
    } else {
      m' := RunCallFrom(env, fuel, v, a, m, m', st);
      m' := RunJmp8From(env, m, m', After(env, fuel, v, st).st, 8);
    }
  }

  lemma IfPlaces(f: int -> Fetched, pc: int, a1: int, a2: int)
    requires Placed(f, pc, IfCode(pc, a1, a2))
    ensures Placed(f, pc, CmpNil()) && Placed(f, pc + 4, DropCode()) && Placed(f, pc + 12, One(Jz8(7)))
    ensures Placed(f, pc + 14, CallCode(pc + 14, a1)) && Placed(f, pc + 19, One(Jmp8(5)))
    ensures Placed(f, pc + 21, CallCode(pc + 21, a2))
    ensures Size(IfCode(pc, a1, a2)) == 26
  {
    var c1, c2 := CallCode(pc + 14, a1), CallCode(pc + 21, a2);
    PlacedAppend(f, pc, CmpNil(), DropCode() + (One(Jz8(7)) + (c1 + (One(Jmp8(5)) + c2))));
    PlacedAppend(f, pc + 4, DropCode(), One(Jz8(7)) + (c1 + (One(Jmp8(5)) + c2)));
    PlacedAppend(f, pc + 12, One(Jz8(7)), c1 + (One(Jmp8(5)) + c2));
    PlacedAppend(f, pc + 14, c1, One(Jmp8(5)) + c2);
    PlacedAppend(f, pc + 19, One(Jmp8(5)), c2);
  }

  lemma SimIf(env: Env, fuel: nat, v1: word, v2: word, a1: int, a2: int, m: Machine, st: State)
    returns (m': Machine)
    requires CallsRun(env, fuel)
    requires CallableAddress(env.p, v1) == Address(a1) && CallableAddress(env.p, v2) == Address(a2)
    requires Placed(env.fetch, m.ip, IfCode(m.ip, a1, a2))
    requires Rep(env, m, st) && st.Has(1)
    requires After(env, fuel, if st.Peek(0) != NIL then v1 else v2, st.Drop(1)).Done?
    ensures Goes(env, m, m', m.ip + 26,
                 After(env, fuel, if st.Peek(0) != NIL then v1 else v2, st.Drop(1)).st)
  {
    hide Rep, Preserved, Reaches, CallsRun, Placed, CallValue, Size, Asm;
    IfPlaces(env.fetch, m.ip, a1, a2);
    var z := st.Peek(0) == NIL;
    m' := RunCmp(env, m, st);
    m' := RunDropFrom(env, m, m', st);
    m' := RunJz8From(env, m, m', st.Drop(1), 7);
    m' := RunCallFrom(env, fuel, if z then v2 else v1, if z then a2 else a1, m, m', st.Drop(1));
    if !z {
      m' := RunJmp8From(env, m, m', After(env, fuel, v1, st.Drop(1)).st, 5);
    }
  }

  lemma IfStarPlaces(f: int -> Fetched, pc: int, a1: int, a2: int)
    requires Placed(f, pc, IfStarCode(pc, a1, a2))
    ensures Placed(f, pc, CmpNil()) && Placed(f, pc + 4, One(Jz8(7)))
    ensures Placed(f, pc + 6, CallCode(pc + 6, a1)) && Placed(f, pc + 11, One(Jmp8(13)))
    ensures Placed(f, pc + 13, DropCode()) && Placed(f, pc + 21, CallCode(pc + 21, a2))
    ensures Size(IfStarCode(pc, a1, a2)) == 26
  {
    var c1, c2 := CallCode(pc + 6, a1), CallCode(pc + 21, a2);
    PlacedAppend(f, pc, CmpNil(), One(Jz8(7)) + (c1 + (One(Jmp8(13)) + (DropCode() + c2))));
    PlacedAppend(f, pc + 4, One(Jz8(7)), c1 + (One(Jmp8(13)) + (DropCode() + c2)));
    PlacedAppend(f, pc + 6, c1, One(Jmp8(13)) + (DropCode() + c2));
    PlacedAppend(f, pc + 11, One(Jmp8(13)), DropCode() + c2);
    PlacedAppend(f, pc + 13, DropCode(), c2);
  }

  lemma SimIfStar(env: Env, fuel: nat, v1: word, v2: word, a1: int, a2: int, m: Machine, st: State)
    returns (m': Machine)
    requires CallsRun(env, fuel)
    requires CallableAddress(env.p, v1) == Address(a1) && CallableAddress(env.p, v2) == Address(a2)
    requires Placed(env.fetch, m.ip, IfStarCode(m.ip, a1, a2))
    requires Rep(env, m, st) && st.Has(1)
    requires if st.Peek(0) != NIL then After(env, fuel, v1, st).Done? else After(env, fuel, v2, st.Drop(1)).Done?
    ensures Goes(env, m, m', m.ip + 26,
                 if st.Peek(0) != NIL then After(env, fuel, v1, st).st else After(env, fuel, v2, st.Drop(1)).st)
  {
    hide Rep, Preserved, Reaches, CallsRun, Placed, CallValue, Size, Asm;
    IfStarPlaces(env.fetch, m.ip, a1, a2);
    m' := RunCmp(env, m, st);
    m' := RunJz8From(env, m, m', st, 7);
    if st.Peek(0) == NIL {
      m' := RunDropFrom(env, m, m', st);
      m' := RunCallFrom(env, fuel, v2, a2, m, m', st.Drop(1));
    } else {
      m' := RunCallFrom(env, fuel, v1, a1, m, m', st);
      m' := RunJmp8From(env, m, m', After(env, fuel, v1, st).st, 13);
    }
  }

  lemma AndStarPlaces(f: int -> Fetched, pc: int, a1: int, a2: int)
    requires Placed(f, pc, AndStarCode(pc, a1, a2))
    ensures Placed(f, pc, CallCode(pc, a1))
    ensures Placed(f, pc + 5, CmpNil())
    ensures Placed(f, pc + 9, One(Jz8(13)))
    ensures Placed(f, pc + 11, DropCode())
    ensures Placed(f, pc + 19, CallCode(pc + 19, a2))
    ensures Size(AndStarCode(pc, a1, a2)) == 24
  {
    PlacedAppend(f, pc, CallCode(pc, a1), CmpNil() + (One(Jz8(13)) + (DropCode() + CallCode(pc + 19, a2))));
    PlacedAppend(f, pc + 5, CmpNil(), One(Jz8(13)) + (DropCode() + CallCode(pc + 19, a2)));
    PlacedAppend(f, pc + 9, One(Jz8(13)), DropCode() + CallCode(pc + 19, a2));
    PlacedAppend(f, pc + 11, DropCode(), CallCode(pc + 19, a2));
  }

  lemma SimAndStar(env: Env, fuel: nat, v1: word, v2: word, a1: int, a2: int, m: Machine, st: State)
    returns (m': Machine)
    requires CallsRun(env, fuel)
    requires CallableAddress(env.p, v1) == Address(a1) && CallableAddress(env.p, v2) == Address(a2)
    requires Placed(env.fetch, m.ip, AndStarCode(m.ip, a1, a2))
    requires Rep(env, m, st)
    requires var o := After(env, fuel, v1, st);
             o.Done? && o.st.Has(1) && (o.st.Peek(0) != NIL ==> After(env, fuel, v2, o.st.Drop(1)).Done?)
    ensures var st1 := After(env, fuel, v1, st).st;
            Goes(env, m, m', m.ip + 24,
                 if st1.Peek(0) == NIL then st1 else After(env, fuel, v2, st1.Drop(1)).st)
  {
    AndStarPlaces(env.fetch, m.ip, a1, a2);
    var st1 := After(env, fuel, v1, st).st;
    m' := RunCall(env, fuel, fuel, v1, a1, m, st);
    m' := RunCmpFrom(env, m, m', st1);
    m' := RunJz8From(env, m, m', st1, 13);
    if st1.Peek(0) != NIL {
      m' := RunDropFrom(env, m, m', st1);
      m' := RunCallFrom(env, fuel, v2, a2, m, m', st1.Drop(1));
    }
  }

  lemma OrStarPlaces(f: int -> Fetched, pc: int, a1: int, a2: int)
    requires Placed(f, pc, OrStarCode(pc, a1, a2))
    ensures Placed(f, pc, CallCode(pc, a1))
    ensures Placed(f, pc + 5, CmpNil())
    ensures Placed(f, pc + 9, One(Jne8(13)))
    ensures Placed(f, pc + 11, DropCode())
    ensures Placed(f, pc + 19, CallCode(pc + 19, a2))
    ensures Size(OrStarCode(pc, a1, a2)) == 24
  {
    PlacedAppend(f, pc, CallCode(pc, a1), CmpNil() + (One(Jne8(13)) + (DropCode() + CallCode(pc + 19, a2))));
    PlacedAppend(f, pc + 5, CmpNil(), One(Jne8(13)) + (DropCode() + CallCode(pc + 19, a2)));
    PlacedAppend(f, pc + 9, One(Jne8(13)), DropCode() + CallCode(pc + 19, a2));
    PlacedAppend(f, pc + 11, DropCode(), CallCode(pc + 19, a2));
  }

  lemma SimOrStar(env: Env, fuel: nat, v1: word, v2: word, a1: int, a2: int, m: Machine, st: State)
    returns (m': Machine)
    requires CallsRun(env, fuel)
    requires CallableAddress(env.p, v1) == Address(a1) && CallableAddress(env.p, v2) == Address(a2)
    requires Placed(env.fetch, m.ip, OrStarCode(m.ip, a1, a2))
    requires Rep(env, m, st)
    requires var o := After(env, fuel, v1, st);
             o.Done? && o.st.Has(1) && (o.st.Peek(0) == NIL ==> After(env, fuel, v2, o.st.Drop(1)).Done?)
    ensures var st1 := After(env, fuel, v1, st).st;
            Goes(env, m, m', m.ip + 24,
                 if st1.Peek(0) != NIL then st1 else After(env, fuel, v2, st1.Drop(1)).st)
  {
    OrStarPlaces(env.fetch, m.ip, a1, a2);
    var st1 := After(env, fuel, v1, st).st;
    m' := RunCall(env, fuel, fuel, v1, a1, m, st);
    m' := RunCmpFrom(env, m, m', st1);
    m' := RunJne8From(env, m, m', st1, 13);
    if st1.Peek(0) == NIL {
      m' := RunDropFrom(env, m, m', st1);
      m' := RunCallFrom(env, fuel, v2, a2, m, m', st1.Drop(1));
    }
  }

  lemma WhilePlaces(f: int -> Fetched, pc: int, a1: int, a2: int)
    requires Placed(f, pc, WhileCode(pc, a1, a2))
    ensures Placed(f, pc, CallCode(pc, a1))
    ensures Placed(f, pc + 5, CmpNil())
    ensures Placed(f, pc + 9, DropCode())
    ensures Placed(f, pc + 17, One(Jz8(7)))
    ensures Placed(f, pc + 19, CallCode(pc + 19, a2))
    ensures Placed(f, pc + 24, One(Jmp8(-26)))
    ensures Size(WhileCode(pc, a1, a2)) == 26
  {
    PlacedAppend(f, pc, CallCode(pc, a1),
                 CmpNil() + (DropCode() + (One(Jz8(7)) + (CallCode(pc + 19, a2) + One(Jmp8(-26))))));
    PlacedAppend(f, pc + 5, CmpNil(), DropCode() + (One(Jz8(7)) + (CallCode(pc + 19, a2) + One(Jmp8(-26)))));
    PlacedAppend(f, pc + 9, DropCode(), One(Jz8(7)) + (CallCode(pc + 19, a2) + One(Jmp8(-26))));
    PlacedAppend(f, pc + 17, One(Jz8(7)), CallCode(pc + 19, a2) + One(Jmp8(-26)));
    PlacedAppend(f, pc + 19, CallCode(pc + 19, a2), One(Jmp8(-26)));
  }

  /** One round of while: the test, and unless it gave nil the body and the jump back. */
  lemma SimRound(env: Env, fuel: nat, k: nat, v1: word, v2: word, a1: int, a2: int, m: Machine, st: State)
    returns (m': Machine)
    requires CallsRun(env, fuel) && k <= fuel
    requires CallableAddress(env.p, v1) == Address(a1) && CallableAddress(env.p, v2) == Address(a2)
    requires Placed(env.fetch, m.ip, WhileCode(m.ip, a1, a2))
    requires Rep(env, m, st)
    requires var o := After(env, k, v1, st);
             o.Done? && o.st.Has(1) && (o.st.Peek(0) != NIL ==> After(env, k, v2, o.st.Drop(1)).Done?)
    ensures var st1 := After(env, k, v1, st).st;
            if st1.Peek(0) == NIL then Goes(env, m, m', m.ip + 26, st1.Drop(1))
            else Goes(env, m, m', m.ip, After(env, k, v2, st1.Drop(1)).st)
  {
    WhilePlaces(env.fetch, m.ip, a1, a2);
    var st1 := After(env, k, v1, st).st;
    m' := RunCall(env, fuel, k, v1, a1, m, st);
    m' := RunCmpFrom(env, m, m', st1);
    m' := RunDropFrom(env, m, m', st1);
    m' := RunJz8From(env, m, m', st1.Drop(1), 7);
    if st1.Peek(0) != NIL {
      CallsRunLess(env, fuel, k);
      m' := RunCallFrom(env, k, v2, a2, m, m', st1.Drop(1));
      m' := RunJmp8From(env, m, m', After(env, k, v2, st1.Drop(1)).st, -26);
    }
  }

  lemma CallsRunLess(env: Env, fuel: nat, k: nat)
    requires CallsRun(env, fuel) && k <= fuel
    ensures CallsRun(env, k)
  {
  }

  /** The loop runs as often as the source loop does, the backward jump included. */
  lemma {:induction false} SimWhile(
    env: Env, fuel: nat, k: nat, v1: word, v2: word, a1: int, a2: int, m: Machine, st: State)
    returns (m': Machine)
    requires CallsRun(env, fuel) && k <= fuel
    requires CallableAddress(env.p, v1) == Address(a1) && CallableAddress(env.p, v2) == Address(a2)
    requires Placed(env.fetch, m.ip, WhileCode(m.ip, a1, a2))
    requires Rep(env, m, st)
    requires EvalWhile(env.p.heap, env.sem, k, v1, v2, st).Done?
    ensures Goes(env, m, m', m.ip + 26, EvalWhile(env.p.heap, env.sem, k, v1, v2, st).st)
    decreases k
  {
    hide Rep, Preserved, Reaches, CallsRun, Placed, CallValue, WhileCode, Size, Asm;
    m' := SimRound(env, fuel, k, v1, v2, a1, a2, m, st);
    var st1 := After(env, k, v1, st).st;
    if st1.Peek(0) != NIL {
      var m1, st2 := m', After(env, k, v2, st1.Drop(1)).st;
      m' := SimWhile(env, fuel, k - 1, v1, v2, a1, a2, m1, st2);
      GoesTrans(env, m, m1, m1.ip, st2, m', m'.ip, EvalWhile(env.p.heap, env.sem, k - 1, v1, v2, st2).st);
    }
  }

  // ---- values saved on the return stack ----

  lemma RunPush(env: Env, m: Machine, st: State) returns (m': Machine)
    requires Placed(env.fetch, m.ip, PushCode())
    requires Rep(env, m, st) && st.Has(1)
    ensures Reaches(env, m, m') && m'.ip == m.ip + 1 && Rep(env, m', st)
    ensures Saved(m, m', st.Peek(0), |st.locals|)
  {
    m' := m.(ip := m.ip + 1, rsp := m.rsp - 8, ret := m.ret[m.rsp - 8 := m.rbx]);
    StepRuns(env, m, Push(RBX), m');
    forall j | 0 <= j < |st.locals| && st.locals[j].Holds?
      ensures Read(m'.ret, m'.r14 + 8 * j) == st.locals[j].v
    {
      assert Read(m.ret, m.r14 + 8 * j) == st.locals[j].v;
    }
  }

  /** m' has x on top of the return stack that m had. */
  ghost predicate Saved(m: Machine, m': Machine, x: int, n: nat) {
    && m'.rsp == m.rsp - 8
    && Read(m'.ret, m'.rsp) == x
    && (n > 0 ==> m.rsp <= m.r14)
    && Preserved(m, m', m.rsp, n)
  }

  /** Running on with x saved keeps it saved. */
  lemma StaysSaved(env: Env, m: Machine, m1: Machine, x: int, m2: Machine, ip: int, st: State)
    requires Saved(m, m1, x, |st.locals|)
    requires Goes(env, m1, m2, ip, st)
    ensures Saved(m, m2, x, |st.locals|)
  {
  }

  /** emit-dup and pop bring the saved value back on top. */
  lemma RunRestore(env: Env, m: Machine, m1: Machine, st: State, x: word) returns (m': Machine)
    requires Placed(env.fetch, m1.ip, DupCode()) && Placed(env.fetch, m1.ip + 8, PopCode())
    requires Reaches(env, m, m1) && Rep(env, m1, st)
    requires Saved(m, m1, x, |st.locals|)
    ensures Goes(env, m, m', m1.ip + 9, st.Push(x))
  {
    hide Asm, Encode;
    var m2 := RunDup(env, m1, st);
    assert Rep(env, m2.(rbx := x), st.Push(x));
    m' := m2.(ip := m2.ip + 1, rsp := m2.rsp + 8, rbx := x);
    StepRuns(env, m2, Pop(RBX), m');
    ReachesTrans(env, m, m1, m2);
    ReachesTrans(env, m, m2, m');
  }

  lemma KeepPlaces(f: int -> Fetched, pc: int, a: int)
    requires Placed(f, pc, KeepCode(pc, a))
    ensures Placed(f, pc, PushCode())
    ensures Placed(f, pc + 1, CallCode(pc + 1, a))
    ensures Placed(f, pc + 6, DupCode())
    ensures Placed(f, pc + 14, PopCode())
    ensures Size(KeepCode(pc, a)) == 15
  {
    PlacedAppend(f, pc, PushCode(), CallCode(pc + 1, a) + (DupCode() + PopCode()));
    PlacedAppend(f, pc + 1, CallCode(pc + 1, a), DupCode() + PopCode());
    PlacedAppend(f, pc + 6, DupCode(), PopCode());
  }

  lemma SimKeep(env: Env, fuel: nat, v: word, a: int, m: Machine, st: State) returns (m': Machine)
    requires CallsRun(env, fuel)
    requires CallableAddress(env.p, v) == Address(a)
    requires Placed(env.fetch, m.ip, KeepCode(m.ip, a))
    requires Rep(env, m, st) && st.Has(1)
    requires After(env, fuel, v, st).Done?
    ensures Goes(env, m, m', m.ip + 15, After(env, fuel, v, st).st.Push(st.Peek(0)))
  {
    KeepPlaces(env.fetch, m.ip, a);
    var x, st2 := st.Peek(0), After(env, fuel, v, st).st;
    var m1 := RunPush(env, m, st);
    var m2 := RunCall(env, fuel, fuel, v, a, m1, st);
    StaysSaved(env, m, m1, x, m2, m2.ip, st2);
    ReachesTrans(env, m, m1, m2);
    m' := RunRestore(env, m, m2, st2, x);
  }

  lemma DipPlaces(f: int -> Fetched, pc: int, a: int)
    requires Placed(f, pc, DipCode(pc, a))
    ensures Placed(f, pc, PushCode())
    ensures Placed(f, pc + 1, DropCode())
    ensures Placed(f, pc + 9, CallCode(pc + 9, a))
    ensures Placed(f, pc + 14, DupCode())
    ensures Placed(f, pc + 22, PopCode())
    ensures Size(DipCode(pc, a)) == 23
  {
    PlacedAppend(f, pc, PushCode(), DropCode() + (CallCode(pc + 9, a) + (DupCode() + PopCode())));
    PlacedAppend(f, pc + 1, DropCode(), CallCode(pc + 9, a) + (DupCode() + PopCode()));
    PlacedAppend(f, pc + 9, CallCode(pc + 9, a), DupCode() + PopCode());
    PlacedAppend(f, pc + 14, DupCode(), PopCode());
  }

  /** dip and bi@ up to the return of the first call. */
  lemma RunDipped(env: Env, fuel: nat, v: word, a: int, m: Machine, st: State) returns (m': Machine)
    requires CallsRun(env, fuel)
    requires CallableAddress(env.p, v) == Address(a)
    requires Placed(env.fetch, m.ip, PushCode()) && Placed(env.fetch, m.ip + 1, DropCode())
    requires Placed(env.fetch, m.ip + 9, CallCode(m.ip + 9, a))
    requires Rep(env, m, st) && st.Has(1)
    requires After(env, fuel, v, st.Drop(1)).Done?
    ensures Reaches(env, m, m') && m'.ip == m.ip + 14 && Rep(env, m', After(env, fuel, v, st.Drop(1)).st)
    ensures Saved(m, m', st.Peek(0), |st.locals|)
  {
    var x, st2 := st.Peek(0), After(env, fuel, v, st.Drop(1)).st;
    var m1 := RunPush(env, m, st);
    var m2 := RunDrop(env, m1, st);
    m' := RunCallFrom(env, fuel, v, a, m1, m2, st.Drop(1));
    StaysSaved(env, m, m1, x, m', m'.ip, st2);
    ReachesTrans(env, m, m1, m');
  }

  lemma SimDip(env: Env, fuel: nat, v: word, a: int, m: Machine, st: State) returns (m': Machine)
    requires CallsRun(env, fuel)
    requires CallableAddress(env.p, v) == Address(a)
    requires Placed(env.fetch, m.ip, DipCode(m.ip, a))
    requires Rep(env, m, st) && st.Has(1)
    requires After(env, fuel, v, st.Drop(1)).Done?
    ensures Goes(env, m, m', m.ip + 23, After(env, fuel, v, st.Drop(1)).st.Push(st.Peek(0)))
  {
    DipPlaces(env.fetch, m.ip, a);
    var m1 := RunDipped(env, fuel, v, a, m, st);
    m' := RunRestore(env, m, m1, After(env, fuel, v, st.Drop(1)).st, st.Peek(0));
  }

  lemma BiPlaces(f: int -> Fetched, pc: int, a1: int, a2: int)
    requires Placed(f, pc, BiCode(pc, a1, a2))
    ensures Placed(f, pc, PushCode())
    ensures Placed(f, pc + 1, CallCode(pc + 1, a1))
    ensures Placed(f, pc + 6, DupCode())
    ensures Placed(f, pc + 14, PopCode())
    ensures Placed(f, pc + 15, CallCode(pc + 15, a2))
    ensures Size(BiCode(pc, a1, a2)) == 20
  {
    PlacedAppend(f, pc, PushCode(), CallCode(pc + 1, a1) + (DupCode() + (PopCode() + CallCode(pc + 15, a2))));
    PlacedAppend(f, pc + 1, CallCode(pc + 1, a1), DupCode() + (PopCode() + CallCode(pc + 15, a2)));
    PlacedAppend(f, pc + 6, DupCode(), PopCode() + CallCode(pc + 15, a2));
    PlacedAppend(f, pc + 14, PopCode(), CallCode(pc + 15, a2));
  }

  lemma SimBi(env: Env, fuel: nat, v1: word, v2: word, a1: int, a2: int, m: Machine, st: State)
    returns (m': Machine)
    requires CallsRun(env, fuel)
    requires CallableAddress(env.p, v1) == Address(a1) && CallableAddress(env.p, v2) == Address(a2)
    requires Placed(env.fetch, m.ip, BiCode(m.ip, a1, a2))
    requires Rep(env, m, st) && st.Has(1)
    requires var o := After(env, fuel, v1, st);
             o.Done? && After(env, fuel, v2, o.st.Push(st.Peek(0))).Done?
    ensures Goes(env, m, m', m.ip + 20, After(env, fuel, v2, After(env, fuel, v1, st).st.Push(st.Peek(0))).st)
  {
    BiPlaces(env.fetch, m.ip, a1, a2);
    var x, st2 := st.Peek(0), After(env, fuel, v1, st).st;
    var m1 := RunPush(env, m, st);
    var m2 := RunCall(env, fuel, fuel, v1, a1, m1, st);
    StaysSaved(env, m, m1, x, m2, m2.ip, st2);
    ReachesTrans(env, m, m1, m2);
    m' := RunRestore(env, m, m2, st2, x);
    m' := RunCallFrom(env, fuel, v2, a2, m, m', st2.Push(x));
  }

  lemma BiAtPlaces(f: int -> Fetched, pc: int, a: int)
    requires Placed(f, pc, BiAtCode(pc, a))
    ensures Placed(f, pc, PushCode())
    ensures Placed(f, pc + 1, DropCode())
    ensures Placed(f, pc + 9, CallCode(pc + 9, a))
    ensures Placed(f, pc + 14, DupCode())
    ensures Placed(f, pc + 22, PopCode())
    ensures Placed(f, pc + 23, CallCode(pc + 23, a))
    ensures Size(BiAtCode(pc, a)) == 28
  {
    PlacedAppend(f, pc, PushCode(),
                 DropCode() + (CallCode(pc + 9, a) + (DupCode() + (PopCode() + CallCode(pc + 23, a)))));
    PlacedAppend(f, pc + 1, DropCode(), CallCode(pc + 9, a) + (DupCode() + (PopCode() + CallCode(pc + 23, a))));
    PlacedAppend(f, pc + 9, CallCode(pc + 9, a), DupCode() + (PopCode() + CallCode(pc + 23, a)));
    PlacedAppend(f, pc + 14, DupCode(), PopCode() + CallCode(pc + 23, a));
    PlacedAppend(f, pc + 22, PopCode(), CallCode(pc + 23, a));
  }

  lemma SimBiAt(env: Env, fuel: nat, v: word, a: int, m: Machine, st: State) returns (m': Machine)
    requires CallsRun(env, fuel)
    requires CallableAddress(env.p, v) == Address(a)
    requires Placed(env.fetch, m.ip, BiAtCode(m.ip, a))
    requires Rep(env, m, st) && st.Has(1)
    requires var o := After(env, fuel, v, st.Drop(1));
             o.Done? && After(env, fuel, v, o.st.Push(st.Peek(0))).Done?
    ensures Goes(env, m, m', m.ip + 28, After(env, fuel, v, After(env, fuel, v, st.Drop(1)).st.Push(st.Peek(0))).st)
  {
    BiAtPlaces(env.fetch, m.ip, a);
    var x, st2 := st.Peek(0), After(env, fuel, v, st.Drop(1)).st;
    var m1 := RunDipped(env, fuel, v, a, m, st);
    m' := RunRestore(env, m, m1, st2, x);
    m' := RunCallFrom(env, fuel, v, a, m, m', st2.Push(x));
  }
}
