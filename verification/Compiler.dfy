/** The compiler put together: bytes for a whole quotation, what the disassembler makes of
    them, and where the listed jumps go. */
module Compiler {
  import opened Bytes
  import opened X86
  import opened Source
  import opened CodeGen
  import opened CompilerTheorem
  import opened Machine
  import Disassembler
  import Emitter
  import Targets

  /** Compiling a quotation at an address gives the bytes of its finished code: forward
      jumps are patched to the epilog that the body turned out to have. */
  method Compile(p: Program, elems: seq<word>, locals: nat, origin: int) returns (ok: bool, code: seq<byte>)
    ensures var r := FinishedCode(p, elems, locals, origin);
            && (Emitter.Feasible(r) ==> ok)
            && (ok ==> r.Good? && code == Asm(r.code))
  {
    hide ElemsCode, Size, Asm, PrologCode;
    ghost var e := EpilogAddress(p, elems, locals, origin);
    ElemsSize(p, elems, [], origin + Size(PrologCode(locals)), NoAddress, Address(e));
    var emitter := new Emitter.Emitter(p, origin, locals, e);
    ok := emitter.CompileQuotation(elems);
    code := emitter.code;
  }

  lemma {:induction false} LoadedIsWritten(mem: int -> byte, a: int, xs: seq<Instr>)
    requires AllEncodable(xs) && Loaded(mem, a, Asm(xs))
    ensures Disassembler.Written(mem, a, xs)
    decreases |xs|
  {
    if xs != [] {
      LenEncode(xs[0]);
      LoadedSplit(mem, a, Encode(xs[0]), Asm(xs[1..]));
      LoadedIsEncoded(mem, a, xs[0]);
      LoadedIsWritten(mem, a + Len(xs[0]), xs[1..]);
    }
  }

  lemma LoadedIsEncoded(mem: int -> byte, a: int, i: Instr)
    requires Encodable(i) && Loaded(mem, a, Encode(i))
    ensures Disassembler.EncodedAt(mem, a, i)
  {
    LenEncode(i);
    var e := Encode(i);
    assert forall k :: 0 <= k < |e| ==> Window(mem, a)[k] == mem(a + k);
  }

  /** Disassembling compiled code from its address to its end lists exactly the instructions
      that were compiled, each at its address. */
  method List(p: Program, elems: seq<word>, locals: nat, origin: int, mem: int -> byte, size: int)
    returns (lines: seq<Disassembler.Line>)
    requires var r := FinishedCode(p, elems, locals, origin);
             Emitter.Feasible(r) && Loaded(mem, origin, Asm(r.code)) && size == Size(r.code)
    ensures lines == Disassembler.Lines(FinishedCode(p, elems, locals, origin).code, origin)
  {
    hide FinishedCode, AllEncodable, Asm, Loaded, Disassembler.Written, Disassembler.Lines, Size;
    ghost var c := FinishedCode(p, elems, locals, origin).code;
    LoadedIsWritten(mem, origin, c);
    var disassembler := new Disassembler.Disassembler(mem);
    var ok;
    ok, lines := disassembler.Disassemble(origin, origin + size, c);
  }

  // ---- the jumps in the listing ----

  /** The line shows a branch to t. */
  predicate ShowsJump(line: Disassembler.Line, t: int) {
    line.shown.dest == Disassembler.Target(t) && line.shown.mnemonic in ["jz", "jne", "jmp"]
  }

  /** t is where a listed line starts, or where the listing ends. */
  predicate IsListed(lines: seq<Disassembler.Line>, t: int, end: int) {
    t == end || exists j :: 0 <= j < |lines| && lines[j].start == t
  }

  lemma {:induction false} StartsAreListed(xs: seq<Instr>, a: int, t: int)
    requires t in Targets.Starts(xs, a)
    ensures IsListed(Disassembler.Lines(xs, a), t, a + Size(xs))
    decreases |xs|
  {
    if xs != [] {
      var lines := Disassembler.Lines(xs, a);
      if t == a {
        assert lines[0].start == t;
      } else {
        StartsAreListed(xs[1..], a + Len(xs[0]), t);
        var rest := Disassembler.Lines(xs[1..], a + Len(xs[0]));
        if t != a + Size(xs) {
          var j :| 0 <= j < |rest| && rest[j].start == t;
          assert lines[j + 1].start == t;
        }
      }
    }
  }

  lemma {:induction false} ListedJumps(xs: seq<Instr>, a: int, s: set<int>, k: nat, t: int)
    requires Targets.JumpsInto(xs, a, s)
    requires k < |Disassembler.Lines(xs, a)| && ShowsJump(Disassembler.Lines(xs, a)[k], t)
    ensures t in s
    decreases |xs|
  {
    if k > 0 {
      ListedJumps(xs[1..], a + Len(xs[0]), s, k - 1, t);
    } else {
      JumpShown(xs[0], a + Len(xs[0]), t);
    }
  }

  lemma JumpShown(i: Instr, next: int, t: int)
    requires ShowsJump(Disassembler.Line(0, Disassembler.Meaning(i, next)), t)
    ensures Targets.IsJump(i) && t == next + i.d
  {
  }

  /** Every branch in the listing of compiled code goes to the start of a listed line, or to
      the end of the code. */
  lemma BranchesAreListed(p: Program, elems: seq<word>, locals: nat, origin: int, k: nat, t: int)
    requires FinishedCode(p, elems, locals, origin).Good?
    requires var lines := Disassembler.Lines(FinishedCode(p, elems, locals, origin).code, origin);
             k < |lines| && ShowsJump(lines[k], t)
    ensures var c := FinishedCode(p, elems, locals, origin).code;
            IsListed(Disassembler.Lines(c, origin), t, origin + Size(c))
  {
    hide FinishedCode, Targets.JumpsInto, Targets.Starts, Disassembler.Lines, ShowsJump, IsListed, Size;
    var c := FinishedCode(p, elems, locals, origin).code;
    Targets.FinishedClosed(p, elems, locals, origin);
    assert Targets.Starts(c, origin) + {} == Targets.Starts(c, origin);
    ListedJumps(c, origin, Targets.Starts(c, origin), k, t);
    StartsAreListed(c, origin, t);
  }
}
