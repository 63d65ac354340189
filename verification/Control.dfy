/** Conditional compilation: #if, #else and #endif act while a file is read, and skip the
    tokens of the branches that are not wanted by counting nested #if tokens. */
module Control {

  datatype Token = Word(name: string) | If(flag: bool) | Ifdef | Ifndef | Else | Endif
  {
    function Text(): string {
      match this
      case Word(name) => name
      case If(_) => "#if"
      case Ifdef => "#ifdef"
      case Ifndef => "#ifndef"
      case Else => "#else"
      case Endif => "#endif"
    }
  }

  // ---- what the reader does with a stream of tokens ----

  /** The words let through, and whether the stream lasted as long as it had to. An If token
      carries the flag that it finds on the stack. */
  datatype Reading = Reading(passed: seq<string>, complete: bool)

  datatype Skipped = EndOfStream | Resume(rest: seq<Token>)

  /** How one skipped token changes the level. */
  function Level(t: Token, level: nat): nat
    requires level > 0
  {
    match t
    case If(_) => level + 1
    case Endif => level - 1
    case Else => if level == 1 then 0 else level
    case _ => level
  }

  function Skip(ts: seq<Token>, level: nat): (r: Skipped)
    ensures r.Resume? ==> |r.rest| <= |ts|
  {
    if level == 0 then Resume(ts)
    else if ts == [] then EndOfStream
    else Skip(ts[1..], Level(ts[0], level))
  }

  function Read(ts: seq<Token>, known: set<string>): Reading
    decreases |ts|, 0
  {
    if ts == [] then Reading([], true)
    else match ts[0]
      case Word(name) => var r := Read(ts[1..], known); Reading([name] + r.passed, r.complete)
      case If(flag) => ReadBranch(ts[1..], flag, known)
      case Ifdef => if |ts| == 1 then Reading([], false) else ReadBranch(ts[2..], ts[1].Text() in known, known)
      case Ifndef => if |ts| == 1 then Reading([], false) else ReadBranch(ts[2..], ts[1].Text() !in known, known)
      case Else => ReadBranch(ts[1..], false, known)
      case Endif => Read(ts[1..], known)
  }

  function ReadBranch(ts: seq<Token>, wanted: bool, known: set<string>): Reading
    decreases |ts|, 1
  {
    if wanted then Read(ts, known)
    else match Skip(ts, 1)
      case EndOfStream => Reading([], false)
      case Resume(rest) => Read(rest, known)
  }

  // ---- the trees that well-nested streams are flattened from ----

  /** Whatever token comes after #ifdef or #ifndef is taken for the name, by its text. */
  lemma AnyTokenIsAName(t: Token, rest: seq<Token>, known: set<string>)
    ensures var name := match t
              case Word(w) => w case If(_) => "#if" case Ifdef => "#ifdef" case Ifndef => "#ifndef"
              case Else => "#else" case Endif => "#endif";
            && Read([Ifdef, t] + rest, known) ==
               (if name in known then Read(rest, known) else ReadBranch(rest, false, known))
            && Read([Ifndef, t] + rest, known) ==
               (if name in known then ReadBranch(rest, false, known) else Read(rest, known))
  {
    assert ([Ifdef, t] + rest)[2..] == rest && ([Ifndef, t] + rest)[2..] == rest;
  }

  /** Where the stream ends before a name or before the end of a skip, reading has failed. */
  lemma StreamEnds(known: set<string>)
    ensures Read([Ifdef], known) == Reading([], false) && Read([Ifndef], known) == Reading([], false)
    ensures Read([If(false)], known) == Reading([], false) && Read([Else], known) == Reading([], false)
    ensures Read([If(true)], known) == Reading([], true) && Read([Endif], known) == Reading([], true)
  {
  }

  datatype Test = Flag(flag: bool) | Defined(name: string) | Undefined(name: string)
  {
    function Holds(known: set<string>): bool {
      match this
      case Flag(flag) => flag
      case Defined(name) => name in known
      case Undefined(name) => name !in known
    }

    function Tokens(): seq<Token> {
      match this
      case Flag(flag) => [If(flag)]
      case Defined(name) => [Ifdef, Word(name)]
      case Undefined(name) => [Ifndef, Word(name)]
    }
  }

  datatype Items = End | Plain(name: string, next: Items)
                 | Choice(test: Test, yes: Items, hasElse: bool, no: Items, next: Items)

  function Flatten(items: Items): seq<Token> {
    match items
    case End => []
    case Plain(name, next) => [Word(name)] + Flatten(next)
    case Choice(test, a, hasElse, b, next) =>
      test.Tokens() + Flatten(a) + (if hasElse then [Else] + Flatten(b) else []) + [Endif] + Flatten(next)
  }

  function Alternative(hasElse: bool, b: Items): seq<Token> {
    if hasElse then [Else] + Flatten(b) else []
  }

  /** The words of the branches that the tests select. */
  function Selected(items: Items, known: set<string>): seq<string> {
    match items
    case End => []
    case Plain(name, next) => [name] + Selected(next, known)
    case Choice(test, a, hasElse, b, next) =>
      (if test.Holds(known) then Selected(a, known) else if hasElse then Selected(b, known) else [])
      + Selected(next, known)
  }

  /** How many #ifdef and #ifndef choices there are, at any depth. */
  function NameTests(items: Items): nat {
    match items
    case End => 0
    case Plain(_, next) => NameTests(next)
    case Choice(test, a, hasElse, b, next) =>
      (if test.Flag? then 0 else 1) + NameTests(a) + (if hasElse then NameTests(b) else 0) + NameTests(next)
  }

  /** No skipped branch has an #ifdef or #ifndef inside. */
  predicate Clean(items: Items, known: set<string>) {
    match items
    case End => true
    case Plain(_, next) => Clean(next, known)
    case Choice(test, a, hasElse, b, next) =>
      && (if test.Holds(known) then Clean(a, known) && (hasElse ==> NameTests(b) == 0)
          else NameTests(a) == 0 && (hasElse ==> Clean(b, known)))
      && Clean(next, known)
  }

  // ---- skipping ----

  lemma SkipFirst(t: Token, ts: seq<Token>, level: nat)
    requires level > 0
    ensures Skip([t] + ts, level) == Skip(ts, Level(t, level))
  {
    assert ([t] + ts)[1..] == ts;
  }

  lemma FlattenChoice(test: Test, a: Items, hasElse: bool, b: Items, next: Items, rest: seq<Token>)
    ensures Flatten(Choice(test, a, hasElse, b, next)) + rest
         == test.Tokens() + (Flatten(a) + (Alternative(hasElse, b) + ([Endif] + (Flatten(next) + rest))))
  {
  }

  lemma SkipTest(test: Test, ts: seq<Token>, level: nat)
    requires level > 0
    ensures Skip(test.Tokens() + ts, level) == Skip(ts, if test.Flag? then level + 1 else level)
  {
    if test.Flag? {
      SkipFirst(If(test.flag), ts, level);
    } else {
      var named := Word(test.name);
      SkipFirst(named, ts, level);
      var first := test.Tokens()[0];
      assert test.Tokens() + ts == [first] + ([named] + ts);
      SkipFirst(first, [named] + ts, level);
    }
  }

  /** Skipping well-nested items loses one level for each #ifdef or #ifndef among them,
      because only #if is counted while every #endif is. */
  lemma {:induction false} SkipItems(items: Items, rest: seq<Token>, level: nat)
    requires level > NameTests(items)
    ensures Skip(Flatten(items) + rest, level) == Skip(rest, level - NameTests(items))
    decreases items, 2
  {
    hide Skip;
    match items
    case End =>
      assert Flatten(items) + rest == rest;
    case Plain(name, next) =>
      FlattenPlain(name, next, rest);
      SkipFirst(Word(name), Flatten(next) + rest, level);
      SkipItems(next, rest, level);
    case Choice(test, a, hasElse, b, next) =>
      SkipChoice(test, a, hasElse, b, next, rest, level);
  }

  lemma SkipChoice(test: Test, a: Items, hasElse: bool, b: Items, next: Items, rest: seq<Token>, level: nat)
    requires level > NameTests(Choice(test, a, hasElse, b, next))
    ensures Skip(Flatten(Choice(test, a, hasElse, b, next)) + rest, level)
         == Skip(rest, level - NameTests(Choice(test, a, hasElse, b, next)))
    decreases Choice(test, a, hasElse, b, next), 1
  {
    hide Skip, Flatten, Alternative;
    FlattenChoice(test, a, hasElse, b, next, rest);
    var afterEnd := Flatten(next) + rest;
    var afterA := Alternative(hasElse, b) + ([Endif] + afterEnd);
    var inside := if test.Flag? then level + 1 else level;
    SkipTest(test, Flatten(a) + afterA, level);
    SkipItems(a, afterA, inside);
    var between := inside - NameTests(a);
    SkipAlternative(hasElse, b, [Endif] + afterEnd, between);
    var last := between - if hasElse then NameTests(b) else 0;
    SkipFirst(Endif, afterEnd, last);
    SkipItems(next, rest, last - 1);
  }

  lemma SkipAlternative(hasElse: bool, b: Items, rest: seq<Token>, level: nat)
    requires hasElse ==> level > 1 && level > NameTests(b)
    ensures Skip(Alternative(hasElse, b) + rest, level)
         == Skip(rest, level - if hasElse then NameTests(b) else 0)
    decreases b, 3
  {
    hide Skip;
    if hasElse {
      assert Alternative(hasElse, b) + rest == [Else] + (Flatten(b) + rest);
      SkipFirst(Else, Flatten(b) + rest, level);
      SkipItems(b, rest, level);
    } else {
      assert Alternative(hasElse, b) + rest == rest;
    }
  }

  /** From a level that they can use up, skipping ends inside the items. */
  lemma {:induction false} SkipStops(items: Items, rest: seq<Token>, level: nat)
    requires 0 < level <= NameTests(items)
    ensures var r := Skip(Flatten(items) + rest, level); r.Resume? && |r.rest| >= |rest|
    decreases items
  {
    hide Skip, Flatten, Alternative;
    match items
    case Plain(name, next) =>
      FlattenPlain(name, next, rest);
      SkipFirst(Word(name), Flatten(next) + rest, level);
      SkipStops(next, rest, level);
    case Choice(test, a, hasElse, b, next) =>
      FlattenChoice(test, a, hasElse, b, next, rest);
      var afterEnd := Flatten(next) + rest;
      var afterB := [Endif] + afterEnd;
      var afterA := Alternative(hasElse, b) + afterB;
      var inside := if test.Flag? then level + 1 else level;
      SkipTest(test, Flatten(a) + afterA, level);
      if inside <= NameTests(a) {
        SkipStops(a, afterA, inside);
      } else {
        SkipItems(a, afterA, inside);
        AlternativeIs(hasElse, b, afterB);
        var between := inside - NameTests(a);
        if hasElse {
          SkipFirst(Else, Flatten(b) + afterB, between);
        }
        if hasElse && between == 1 {
          SkipNone(Flatten(b) + afterB);
        } else if hasElse && between <= NameTests(b) {
          SkipStops(b, afterB, between);
        } else {
          SkipAlternative(hasElse, b, afterB, between);
          var last := between - if hasElse then NameTests(b) else 0;
          SkipFirst(Endif, afterEnd, last);
          if last == 1 {
            SkipNone(afterEnd);
          } else {
            SkipStops(next, rest, last - 1);
          }
        }
      }
  }

  lemma FlattenPlain(name: string, next: Items, rest: seq<Token>)
    ensures Flatten(Plain(name, next)) + rest == [Word(name)] + (Flatten(next) + rest)
  {
  }

  /** Skipping that ends within some tokens ends at the same one whatever follows them. */
  lemma {:induction false} SkipWithin(ts: seq<Token>, rest: seq<Token>, level: nat)
    requires Skip(ts, level).Resume?
    ensures Skip(ts + rest, level) == Resume(Skip(ts, level).rest + rest)
    ensures exists n :: 0 <= n <= |ts| && Skip(ts, level).rest == ts[n..]
    decreases |ts|
  {
    if level == 0 {
      assert ts[0..] == ts;
    } else {
      assert (ts + rest)[1..] == ts[1..] + rest;
      SkipWithin(ts[1..], rest, Level(ts[0], level));
      var n :| 0 <= n <= |ts[1..]| && Skip(ts, level).rest == ts[1..][n..];
      assert ts[n + 1..] == ts[1..][n..];
    }
  }

  /** Skipping starts at level 1. Items are skipped whole when it is still at level 1 behind
      them, whatever follows. */
  ghost predicate SkippedWhole(items: Items) {
    forall rest: seq<Token> :: Skip(Flatten(items) + rest, 1) == Skip(rest, 1)
  }

  /** Skipping ends inside the items, before their token n, whatever follows. */
  ghost predicate SkippingEndsInside(items: Items) {
    exists n :: 0 <= n <= |Flatten(items)| &&
      forall rest: seq<Token> :: Skip(Flatten(items) + rest, 1) == Resume(Flatten(items)[n..] + rest)
  }

  /** A branch is skipped whole exactly when it has no #ifdef or #ifndef inside; any other
      branch resumes reading at one of its own tokens. */
  lemma SkippedWholeIff(items: Items)
    ensures SkippedWhole(items) <==> NameTests(items) == 0
    ensures SkippingEndsInside(items) <==> NameTests(items) > 0
  {
    hide Skip, Flatten;
    NotBothWays(items);
    if NameTests(items) == 0 {
      forall rest: seq<Token>
        ensures Skip(Flatten(items) + rest, 1) == Skip(rest, 1)
      {
        SkipItems(items, rest, 1);
      }
    } else {
      EndsInside(items);
    }
  }

  lemma EndsInside(items: Items)
    requires NameTests(items) > 0
    ensures SkippingEndsInside(items)
  {
    hide Skip, Flatten;
    var ts := Flatten(items);
    SkipStops(items, [], 1);
    assert ts + [] == ts;
    SkipWithin(ts, [], 1);
    var n :| 0 <= n <= |ts| && Skip(ts, 1).rest == ts[n..];
    forall rest: seq<Token>
      ensures Skip(ts + rest, 1) == Resume(ts[n..] + rest)
    {
      SkipWithin(ts, rest, 1);
    }
  }

  /** With nothing behind the items, either skipping ends inside or it does not. */
  lemma NotBothWays(items: Items)
    ensures !(SkippedWhole(items) && SkippingEndsInside(items))
  {
    hide Skip, Flatten;
    SkipOfNothing();
    var ts := Flatten(items);
    if SkippedWhole(items) {
      assert Skip(ts + [], 1) == Skip([], 1);
    }
  }

  lemma SkipOfNothing()
    ensures Skip([], 1) == EndOfStream
  {
  }

  // ---- reading ----

  lemma ReadFirst(t: Token, ts: seq<Token>, known: set<string>)
    ensures t.Word? ==> Read([t] + ts, known) == Reading([t.name] + Read(ts, known).passed, Read(ts, known).complete)
    ensures t.If? ==> Read([t] + ts, known) == ReadBranch(ts, t.flag, known)
    ensures t.Else? ==> Read([t] + ts, known) == ReadBranch(ts, false, known)
    ensures t.Endif? ==> Read([t] + ts, known) == Read(ts, known)
  {
    assert ([t] + ts)[1..] == ts;
  }

  lemma ReadTest(test: Test, ts: seq<Token>, known: set<string>)
    ensures Read(test.Tokens() + ts, known) == ReadBranch(ts, test.Holds(known), known)
  {
    if test.Flag? {
      ReadFirst(If(test.flag), ts, known);
    } else {
      assert (test.Tokens() + ts)[2..] == ts;
    }
  }

  /** Reading that starts at a level, 0 when nothing is being skipped. */
  function ReadFrom(ts: seq<Token>, level: nat, known: set<string>): Reading {
    match Skip(ts, level)
    case EndOfStream => Reading([], false)
    case Resume(rest) => Read(rest, known)
  }

  /** What gets through of items met at a level, and the level behind them. */
  datatype Passage = Passage(words: seq<string>, level: nat)

  /** The level inside a choice, behind its #else, and behind its #endif. */
  function Entered(test: Test, level: nat, known: set<string>): nat {
    if level == 0 then (if test.Holds(known) then 0 else 1)
    else if test.Flag? then level + 1 else level
  }

  function Turned(level: nat): nat {
    if level == 0 then 1 else if level == 1 then 0 else level
  }

  function Left(level: nat): nat {
    if level == 0 then 0 else level - 1
  }

  function Pass(items: Items, level: nat, known: set<string>): Passage {
    match items
    case End => Passage([], level)
    case Plain(name, next) =>
      var p := Pass(next, level, known);
      if level == 0 then Passage([name] + p.words, p.level) else p
    case Choice(test, a, hasElse, b, next) =>
      var p := Pass(a, Entered(test, level, known), known);
      var q := if hasElse then Pass(b, Turned(p.level), known) else Passage([], p.level);
      var r := Pass(next, Left(q.level), known);
      Passage(p.words + q.words + r.words, r.level)
  }

  lemma FromZero(ts: seq<Token>, known: set<string>)
    ensures ReadFrom(ts, 0, known) == Read(ts, known)
  {
    SkipNone(ts);
  }

  lemma FromTest(test: Test, ts: seq<Token>, level: nat, known: set<string>)
    ensures ReadFrom(test.Tokens() + ts, level, known) == ReadFrom(ts, Entered(test, level, known), known)
  {
    hide Skip;
    if level == 0 {
      ReadTest(test, ts, known);
      FromZero(test.Tokens() + ts, known);
      FromZero(ts, known);
    } else {
      SkipTest(test, ts, level);
    }
  }

  lemma FromElse(ts: seq<Token>, level: nat, known: set<string>)
    ensures ReadFrom([Else] + ts, level, known) == ReadFrom(ts, Turned(level), known)
  {
    hide Skip;
    if level == 0 {
      ReadFirst(Else, ts, known);
      FromZero([Else] + ts, known);
    } else {
      SkipFirst(Else, ts, level);
    }
  }

  lemma FromEndif(ts: seq<Token>, level: nat, known: set<string>)
    ensures ReadFrom([Endif] + ts, level, known) == ReadFrom(ts, Left(level), known)
  {
    hide Skip;
    if level == 0 {
      ReadFirst(Endif, ts, known);
      FromZero([Endif] + ts, known);
      FromZero(ts, known);
    } else {
      SkipFirst(Endif, ts, level);
    }
  }

  lemma FromWord(name: string, ts: seq<Token>, level: nat, known: set<string>)
    ensures var r := ReadFrom(ts, level, known);
            ReadFrom([Word(name)] + ts, level, known) ==
            if level == 0 then Reading([name] + r.passed, r.complete) else r
  {
    hide Skip;
    if level == 0 {
      ReadFirst(Word(name), ts, known);
      FromZero([Word(name)] + ts, known);
      FromZero(ts, known);
    } else {
      SkipFirst(Word(name), ts, level);
    }
  }

  /** The words w, and then what r passes. */
  function Followed(w: seq<string>, r: Reading): Reading {
    Reading(w + r.passed, r.complete)
  }

  lemma FollowedTwice(u: seq<string>, v: seq<string>, w: seq<string>, r: Reading)
    ensures Followed(u, Followed(v, Followed(w, r))) == Followed(u + v + w, r)
    ensures Followed([], r) == r
  {
  }

  /** For every tree, clean or not, and from every level: the reader lets through what Pass
      says and goes on behind the tree at the level that Pass ends at. */
  lemma {:induction false} ReadsPassed(items: Items, rest: seq<Token>, level: nat, known: set<string>)
    ensures var p := Pass(items, level, known);
            ReadFrom(Flatten(items) + rest, level, known) == Followed(p.words, ReadFrom(rest, p.level, known))
    decreases items
  {
    hide Read, ReadFrom, Flatten, Alternative;
    match items
    case End =>
      FlattenEnd(rest);
      FollowedTwice([], [], [], ReadFrom(rest, level, known));
    case Plain(name, next) =>
      FlattenPlain(name, next, rest);
      FromWord(name, Flatten(next) + rest, level, known);
      ReadsPassed(next, rest, level, known);
    case Choice(test, a, hasElse, b, next) =>
      FlattenChoice(test, a, hasElse, b, next, rest);
      var afterEnd := Flatten(next) + rest;
      var afterB := [Endif] + afterEnd;
      var afterA := Alternative(hasElse, b) + afterB;
      FromTest(test, Flatten(a) + afterA, level, known);
      var p := Pass(a, Entered(test, level, known), known);
      ReadsPassed(a, afterA, Entered(test, level, known), known);
      AlternativeIs(hasElse, b, afterB);
      var q := if hasElse then Pass(b, Turned(p.level), known) else Passage([], p.level);
      if hasElse {
        FromElse(Flatten(b) + afterB, p.level, known);
        ReadsPassed(b, afterB, Turned(p.level), known);
      }
      FromEndif(afterEnd, q.level, known);
      ReadsPassed(next, rest, Left(q.level), known);
      var r := Pass(next, Left(q.level), known);
      FollowedTwice(p.words, q.words, r.words, ReadFrom(rest, r.level, known));
      FollowedTwice([], [], [], ReadFrom(afterB, p.level, known));
  }

  lemma FlattenEnd(rest: seq<Token>)
    ensures Flatten(End) + rest == rest
  {
  }

  /** Each #ifdef or #ifndef costs a level, and reading that has set in does not stop. */
  lemma {:induction false} LevelBehind(items: Items, level: nat, known: set<string>)
    ensures Pass(items, level, known).level == if level > NameTests(items) then level - NameTests(items) else 0
    ensures level > NameTests(items) ==> Pass(items, level, known).words == []
    decreases items
  {
    match items
    case End =>
    case Plain(name, next) => LevelBehind(next, level, known);
    case Choice(test, a, hasElse, b, next) =>
      LevelBehind(a, Entered(test, level, known), known);
      var p := Pass(a, Entered(test, level, known), known);
      if hasElse {
        LevelBehind(b, Turned(p.level), known);
      }
      var q := if hasElse then Pass(b, Turned(p.level), known) else Passage([], p.level);
      LevelBehind(next, Left(q.level), known);
  }

  /** A tree met while reading is left reading again, whatever its branches hold. */
  lemma ReadsOn(items: Items, rest: seq<Token>, known: set<string>)
    ensures Read(Flatten(items) + rest, known) == Followed(Pass(items, 0, known).words, Read(rest, known))
  {
    hide Read, ReadFrom, Flatten, Pass;
    ReadsPassed(items, rest, 0, known);
    LevelBehind(items, 0, known);
    FromZero(Flatten(items) + rest, known);
    FromZero(rest, known);
  }

  lemma {:induction false} CleanPassesSelected(items: Items, known: set<string>)
    requires Clean(items, known)
    ensures Pass(items, 0, known).words == Selected(items, known)
    decreases items
  {
    match items
    case End =>
    case Plain(name, next) => CleanPassesSelected(next, known);
    case Choice(test, a, hasElse, b, next) =>
      CleanPassesSelected(next, known);
      if test.Holds(known) {
        CleanPassesSelected(a, known);
        LevelBehind(a, 0, known);
        LevelBehind(b, 1, known);
      } else {
        LevelBehind(a, 1, known);
        if hasElse {
          CleanPassesSelected(b, known);
          LevelBehind(b, 0, known);
        }
      }
  }

  /** Exactly the words of the selected branches get through, at any depth, and reading goes
      on as if they alone had been there. */
  lemma ReadsSelected(items: Items, rest: seq<Token>, known: set<string>)
    requires Clean(items, known)
    ensures Read(Flatten(items) + rest, known) == Followed(Selected(items, known), Read(rest, known))
  {
    hide Read, Flatten, Pass, Selected, Clean;
    ReadsOn(items, rest, known);
    CleanPassesSelected(items, known);
  }

  /** Without #ifdef and #ifndef, all trees are read as they should be. */
  lemma {:induction false} NoNameTestsClean(items: Items, known: set<string>)
    requires NameTests(items) == 0
    ensures Clean(items, known)
  {
    match items
    case End =>
    case Plain(_, next) => NoNameTestsClean(next, known);
    case Choice(test, a, hasElse, b, next) =>
      NoNameTestsClean(a, known);
      if hasElse { NoNameTestsClean(b, known); }
      NoNameTestsClean(next, known);
  }

  // ---- when a skipped branch is read as nothing ----

  /** A word behind the items. */
  function Then(items: Items, name: string): Items {
    match items
    case End => Plain(name, End)
    case Plain(first, next) => Plain(first, Then(next, name))
    case Choice(test, a, hasElse, b, next) => Choice(test, a, hasElse, b, Then(next, name))
  }

  lemma {:induction false} PassThen(items: Items, name: string, level: nat, known: set<string>)
    ensures var p := Pass(items, level, known);
            Pass(Then(items, name), level, known) ==
            Passage(p.words + if p.level == 0 then [name] else [], p.level)
    decreases items
  {
    match items
    case End =>
    case Plain(_, next) => PassThen(next, name, level, known);
    case Choice(test, a, hasElse, b, next) =>
      var p := Pass(a, Entered(test, level, known), known);
      var q := if hasElse then Pass(b, Turned(p.level), known) else Passage([], p.level);
      PassThen(next, name, Left(q.level), known);
  }

  /** A branch that is not wanted and ends in a word: nothing of it is read exactly when
      there is no #ifdef or #ifndef in it, and otherwise at least its last word is. */
  lemma UnwantedBranchReadIff(test: Test, a: Items, name: string, known: set<string>)
    requires !test.Holds(known)
    ensures var items := Choice(test, Then(a, name), false, End, End);
            Selected(items, known) == []
            && (Read(Flatten(items), known).passed == [] <==> NameTests(a) == 0)
            && (NameTests(a) > 0 ==> name in Read(Flatten(items), known).passed)
  {
    hide Read, Flatten;
    var items := Choice(test, Then(a, name), false, End, End);
    assert Flatten(items) + [] == Flatten(items);
    ReadsOn(items, [], known);
    ReadOfNothing(known);
    PassThen(a, name, 1, known);
    LevelBehind(a, 1, known);
    var p := Pass(Then(a, name), 1, known);
    assert p.words + [] + [] == p.words;
  }

  /** #ifdef inside a skipped branch: its #endif ends the skipping early. */
  lemma IfdefInsideSkippedBranch(known: set<string>)
    ensures var items := Choice(Flag(false), Choice(Defined("x"), End, false, End, Plain("y", End)), false, End, End);
            Selected(items, known) == [] && Read(Flatten(items), known).passed == ["y"]
  {
    hide Read, Flatten;
    var inner := Choice(Defined("x"), End, false, End, Plain("y", End));
    var items := Choice(Flag(false), inner, false, End, End);
    assert Flatten(items) + [] == Flatten(items);
    ReadsOn(items, [], known);
    ReadOfNothing(known);
    assert Pass(Plain("y", End), 0, known) == Passage(["y"], 0);
    assert Pass(End, 1, known) == Passage([], 1);
    assert Pass(inner, 1, known) == Passage(["y"], 0);
  }

  lemma ReadOfNothing(known: set<string>)
    ensures Read([], known) == Reading([], true)
  {
  }

  lemma AlternativeIs(hasElse: bool, b: Items, rest: seq<Token>)
    ensures Alternative(hasElse, b) + rest == if hasElse then [Else] + (Flatten(b) + rest) else rest
  {
    hide Flatten;
  }

  lemma SkipNone(ts: seq<Token>)
    ensures Skip(ts, 0) == Resume(ts)
  {
  }

  // ---- the reader ----

  class Reader {
    var tokens: seq<Token>
    var ignoreLevel: nat
    var passed: seq<string>
    const known: set<string>

    constructor (tokens: seq<Token>, known: set<string>)
      ensures this.tokens == tokens && this.known == known && ignoreLevel == 0 && passed == []
    {
      this.tokens, this.known, ignoreLevel, passed := tokens, known, 0, [];
    }

    /** The next token, if there is one; parsing past the end is an error. */
    method MustParseToken() returns (ok: bool, t: Token)
      modifies this`tokens
      ensures ok <==> old(tokens) != []
      ensures ok ==> [t] + tokens == old(tokens)
      ensures !ok ==> tokens == []
    {
      if tokens == [] { return false, Endif; }
      ok, t := true, tokens[0];
      tokens := tokens[1..];
    }

    method ProcessNextToken() returns (ok: bool)
      requires ignoreLevel > 0
      modifies this`tokens, this`ignoreLevel
      ensures ok ==> |tokens| < |old(tokens)|
      ensures ok ==> Skip(tokens, ignoreLevel) == Skip(old(tokens), old(ignoreLevel))
      ensures !ok ==> old(tokens) == [] == tokens
    {
      var t;
      ok, t := MustParseToken();
      if ok {
        SkipFirst(t, tokens, ignoreLevel);
        if t.If? {
          ignoreLevel := ignoreLevel + 1;
        } else if t.Endif? {
          ignoreLevel := ignoreLevel - 1;
        } else if t.Else? {
          if ignoreLevel == 1 { ignoreLevel := 0; }
        }
      }
    }

    method StartIgnoring() returns (ok: bool)
      modifies this`tokens, this`ignoreLevel
      ensures Skip(old(tokens), 1) == if ok then Resume(tokens) else EndOfStream
      ensures ok ==> ignoreLevel == 0
      ensures |tokens| <= |old(tokens)|
    {
      ignoreLevel := 1;
      while ignoreLevel > 0
        invariant Skip(tokens, ignoreLevel) == Skip(old(tokens), 1)
        invariant |tokens| <= |old(tokens)|
        decreases |tokens|
      {
        var more := ProcessNextToken();
        if !more { return false; }
      }
      ok := true;
    }

    /** #if with the flag found on the stack. */
    method HashIf(flag: bool) returns (ok: bool)
      requires ignoreLevel == 0
      modifies this`tokens, this`ignoreLevel
      ensures ReadBranch(old(tokens), flag, known) == if ok then Read(tokens, known) else Reading([], false)
      ensures ok ==> ignoreLevel == 0
      ensures |tokens| <= |old(tokens)|
    {
      ok := true;
      if !flag { ok := StartIgnoring(); }
    }

    /** #ifdef, or #ifndef when negated: the next token's text is the name to look for. */
    method HashIfdef(negated: bool) returns (ok: bool)
      requires ignoreLevel == 0
      modifies this`tokens, this`ignoreLevel
      ensures ok ==> old(tokens) != [] && ignoreLevel == 0
      ensures old(tokens) != [] ==>
                ReadBranch(old(tokens)[1..], (old(tokens)[0].Text() in known) != negated, known)
                == if ok then Read(tokens, known) else Reading([], false)
      ensures |tokens| <= |old(tokens)|
    {
      var name;
      ok, name := MustParseToken();
      if ok {
        assert tokens == old(tokens)[1..];
        ok := HashIf((name.Text() in known) != negated);
      }
    }

    method HashElse() returns (ok: bool)
      modifies this`tokens, this`ignoreLevel
      ensures old(ignoreLevel) == 0 ==>
                ReadBranch(old(tokens), false, known) == if ok then Read(tokens, known) else Reading([], false)
      ensures old(ignoreLevel) > 0 ==> ok && tokens == old(tokens)
      ensures ok ==> ignoreLevel == if old(ignoreLevel) <= 1 then 0 else old(ignoreLevel)
      ensures |tokens| <= |old(tokens)|
    {
      ok := true;
      match ignoreLevel
      case 0 => ok := StartIgnoring();
      case 1 => ignoreLevel := 0;
      case _ =>
    }

    method HashEndif()
      modifies this`ignoreLevel
      ensures ignoreLevel == if old(ignoreLevel) > 0 then old(ignoreLevel) - 1 else 0
    {
      if ignoreLevel > 0 { ignoreLevel := ignoreLevel - 1; }
    }

    /** Reads the whole stream; the words let through are exactly those that Read gives. */
    method ReadAll() returns (ok: bool)
      requires ignoreLevel == 0 && passed == []
      modifies this`tokens, this`ignoreLevel, this`passed
      ensures Read(old(tokens), known) == Reading(passed, ok)
      ensures ok ==> ignoreLevel == 0
    {
      while tokens != []
        invariant ignoreLevel == 0
        invariant Read(old(tokens), known)
               == Reading(passed + Read(tokens, known).passed, Read(tokens, known).complete)
        decreases |tokens|
      {
        ghost var before, done := tokens, passed;
        var more, t := MustParseToken();
        assert tokens == before[1..];
        match t {
          case Word(name) => passed := passed + [name];
          case If(flag) => more := HashIf(flag);
          case Ifdef => more := HashIfdef(false);
          case Ifndef => more := HashIfdef(true);
          case Else => more := HashElse();
          case Endif => HashEndif();
        }
        if !more { return false; }
      }
      ok := true;
    }

    /** A file flattened from any tree is read to its end, with the level back at 0; from a
        clean tree exactly the words of the selected branches are read. */
    method ReadTree(ghost items: Items) returns (ok: bool)
      requires ignoreLevel == 0 && passed == []
      requires tokens == Flatten(items)
      modifies this`tokens, this`ignoreLevel, this`passed
      ensures ok && ignoreLevel == 0
      ensures passed == Pass(items, 0, known).words
      ensures Clean(items, known) ==> passed == Selected(items, known)
    {
      ReadsOn(items, [], known);
      ReadOfNothing(known);
      assert Flatten(items) + [] == tokens;
      if Clean(items, known) {
        CleanPassesSelected(items, known);
      }
      ok := ReadAll();
    }
  }
}
