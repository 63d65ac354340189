/** Where control goes in compiled code: from the start of one of its instructions every step
    but a call or a return leads to the start of one of its instructions, or to its end. */
module ControlFlow {
  import opened Bytes
  import opened X86
  import opened Source
  import opened CodeGen
  import opened Machine
  import opened CompilerTheorem
  import opened Targets

  /** Only jumps, calls and returns do anything to ip. */
  lemma IpAfter(env: Env, i: Instr, m: Machine)
    requires !i.Call32? && !i.Ret? && Execute(env, i, m).Running?
    ensures var ip := Execute(env, i, m).m.ip;
            ip == m.ip || (IsJump(i) && ip == m.ip + i.d)
  {
  }

  /** An address where an instruction starts is the end, or holds that instruction; its
      successor and its target are such addresses too. */
  lemma {:induction false} InstructionAt(fetch: int -> Fetched, c: seq<Instr>, pc: int, s: set<int>, ip: int)
    returns (i: Instr)
    requires Placed(fetch, pc, c) && JumpsInto(c, pc, s) && ip in Starts(c, pc) && ip < pc + Size(c)
    ensures fetch(ip) == Known(i)
    ensures ip + Len(i) in Starts(c, pc) && (IsJump(i) ==> ip + Len(i) + i.d in s)
    decreases |c|
  {
    if ip == pc {
      i := c[0];
      StartsHere(c[1..], pc + Len(c[0]));
    } else {
      i := InstructionAt(fetch, c[1..], pc + Len(c[0]), s, ip);
    }
  }

  lemma StartsHere(c: seq<Instr>, pc: int)
    ensures pc in Starts(c, pc)
  {
  }

  /** Control does not leave compiled code, nor get into the middle of an instruction, but by
      a call or a return. */
  lemma ControlStays(env: Env, p: Program, elems: seq<word>, locals: nat, origin: int, m: Machine)
    requires FinishedCode(p, elems, locals, origin).Good?
    requires var c := FinishedCode(p, elems, locals, origin).code;
             Placed(env.fetch, origin, c) && m.ip in Starts(c, origin) && m.ip < origin + Size(c)
    ensures var f := env.fetch(m.ip);
            f.Known? && (f.i.Call32? || f.i.Ret? || Step(env, m).Stuck?
                         || Step(env, m).m.ip in Starts(FinishedCode(p, elems, locals, origin).code, origin))
  {
    hide FinishedCode, Starts, JumpsInto, Placed, Size, Execute, Len;
    var c := FinishedCode(p, elems, locals, origin).code;
    FinishedClosed(p, elems, locals, origin);
    assert Starts(c, origin) + {} == Starts(c, origin);
    var i := InstructionAt(env.fetch, c, origin, Starts(c, origin), m.ip);
    if !i.Call32? && !i.Ret? && Step(env, m).Running? {
      IpAfter(env, i, m.(ip := m.ip + Len(i)));
    }
  }
}
