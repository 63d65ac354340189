/** The random number generator: splitmix64 turns a seed into two words of state, and
    xoroshiro128+ steps them. Arithmetic is on 64-bit words that wrap. */
module Random {

  // ---- splitmix64 ----

  /** The next value of splitmix64's counter. */
  function Advance(x: bv64): bv64 { x + 0x9E3779B97F4A7C15 }

  // The pieces of the output map, each with its inverse: a shift is undone by xoring in its
  // multiples, an odd factor by its inverse modulo 2 to the 64.

  function Shift30(x: bv64): bv64 { x ^ (x >> 30) }

  function Unshift30(x: bv64): bv64 { x ^ (x >> 30) ^ (x >> 60) }

  function Times1(x: bv64): bv64 { x * 0xBF58476D1CE4E5B9 }

  function Divide1(x: bv64): bv64 { x * 0x96DE1B173F119089 }

  function Shift27(x: bv64): bv64 { x ^ (x >> 27) }

  function Unshift27(x: bv64): bv64 { x ^ (x >> 27) ^ (x >> 54) }

  function Times2(x: bv64): bv64 { x * 0x94D049BB133111EB }

  function Divide2(x: bv64): bv64 { x * 0x319642B2D24D8EC3 }

  function Shift31(x: bv64): bv64 { x ^ (x >> 31) }

  function Unshift31(x: bv64): bv64 { x ^ (x >> 31) ^ (x >> 62) }

  function Mix(x: bv64): bv64 {
    Shift31(Times2(Shift27(Times1(Shift30(x)))))
  }

  function Unmix(y: bv64): bv64 {
    Unshift30(Divide1(Unshift27(Divide2(Unshift31(y)))))
  }

  lemma Times1Undone(x: bv64)
    ensures Divide1(Times1(x)) == x && Times1(Divide1(x)) == x
  {
    assert Divide1(x * 0xBF58476D1CE4E5B9) == x;
    assert Times1(x * 0x96DE1B173F119089) == x;
  }

  lemma Times2Undone(x: bv64)
    ensures Divide2(Times2(x)) == x && Times2(Divide2(x)) == x
  {
    assert Divide2(x * 0x94D049BB133111EB) == x;
    assert Times2(x * 0x319642B2D24D8EC3) == x;
  }

  lemma Shift30Undone(x: bv64)
    ensures Unshift30(Shift30(x)) == x && Shift30(Unshift30(x)) == x
  {
    assert Unshift30(x ^ (x >> 30)) == x;
    assert Shift30(x ^ (x >> 30) ^ (x >> 60)) == x;
  }

  lemma Shift27Undone(x: bv64)
    ensures Unshift27(Shift27(x)) == x && Shift27(Unshift27(x)) == x
  {
    assert Unshift27(x ^ (x >> 27)) == x;
    assert Shift27(x ^ (x >> 27) ^ (x >> 54)) == x;
  }

  lemma Shift31Undone(x: bv64)
    ensures Unshift31(Shift31(x)) == x && Shift31(Unshift31(x)) == x
  {
    assert Unshift31(x ^ (x >> 31)) == x;
    assert Shift31(x ^ (x >> 31) ^ (x >> 62)) == x;
  }

  /** splitmix64's output map is a bijection on words. */
  lemma MixIsBijective(x: bv64)
    ensures Unmix(Mix(x)) == x && Mix(Unmix(x)) == x
  {
    hide Shift30, Unshift30, Times1, Divide1, Shift27, Unshift27, Times2, Divide2, Shift31, Unshift31;
    Shift30Undone(x);
    Times1Undone(Shift30(x));
    Shift27Undone(Times1(Shift30(x)));
    Times2Undone(Shift27(Times1(Shift30(x))));
    Shift31Undone(Times2(Shift27(Times1(Shift30(x)))));
    Shift31Undone(x);
    Times2Undone(Unshift31(x));
    Shift27Undone(Divide2(Unshift31(x)));
    Times1Undone(Unshift27(Divide2(Unshift31(x))));
    Shift30Undone(Divide1(Unshift27(Divide2(Unshift31(x)))));
  }

  // ---- xoroshiro128+ ----

  /** The constants and shifts of one output, a step at a time. */
  lemma MixSteps(x: bv64) returns (a: bv64, y: bv64, b: bv64, z: bv64)
    ensures a == x ^ (x >> 30) && y == a * 0xBF58476D1CE4E5B9
    ensures b == y ^ (y >> 27) && z == b * 0x94D049BB133111EB
    ensures Mix(x) == z ^ (z >> 31)
  {
    ShiftsAre(x);
    a := Shift30(x);
    TimesAre(a);
    y := Times1(a);
    ShiftsAre(y);
    b := Shift27(y);
    TimesAre(b);
    z := Times2(b);
    ShiftsAre(z);
    hide Shift30, Times1, Shift27, Times2, Shift31;
  }

  lemma ShiftsAre(x: bv64)
    ensures Shift30(x) == x ^ (x >> 30) && Shift27(x) == x ^ (x >> 27) && Shift31(x) == x ^ (x >> 31)
  {
  }

  lemma TimesAre(x: bv64)
    ensures Times1(x) == x * 0xBF58476D1CE4E5B9 && Times2(x) == x * 0x94D049BB133111EB
  {
  }

  datatype State = State(s0: bv64, s1: bv64)

  function RotateLeft(s: bv64, k: bv64): bv64
    requires 0 < k < 64
  {
    (s << k) | (s >> (64 - k))
  }

  function Xor(x: bv64, y: bv64): bv64 { x ^ y }

  function Blend(t: bv64): bv64 { t ^ (t << 14) }

  function Step(s: State): State {
    var t := Xor(s.s1, s.s0);
    State(Xor(RotateLeft(s.s0, 55), Blend(t)), RotateLeft(t, 36))
  }

  /** The shifts and rotations of one step, written out. */
  lemma StepIs(s0: bv64, s1: bv64, t: bv64)
    requires t == s1 ^ s0
    ensures Step(State(s0, s1)).s0 == ((s0 << 55) | (s0 >> 9)) ^ (t ^ (t << 14))
    ensures Step(State(s0, s1)).s1 == (t << 36) | (t >> 28)
  {
    XorIs(s1, s0);
    RotationsAre(s0);
    RotationsAre(t);
    BlendIs(t);
    hide Xor, RotateLeft, Blend;
    FirstWord(RotateLeft(s0, 55), Blend(t), s0, t);
  }

  lemma XorIs(x: bv64, y: bv64)
    ensures Xor(x, y) == x ^ y
  {
  }

  lemma RotationsAre(x: bv64)
    ensures RotateLeft(x, 55) == (x << 55) | (x >> 9) && RotateLeft(x, 36) == (x << 36) | (x >> 28)
  {
  }

  lemma BlendIs(t: bv64)
    ensures Blend(t) == t ^ (t << 14)
  {
  }

  lemma FirstWord(x: bv64, y: bv64, s0: bv64, t: bv64)
    requires x == (s0 << 55) | (s0 >> 9) && y == t ^ (t << 14)
    ensures Xor(x, y) == ((s0 << 55) | (s0 >> 9)) ^ (t ^ (t << 14))
  {
  }

  function Unstep(s: State): State {
    var t := RotateLeft(s.s1, 28);
    var s0 := RotateLeft(Xor(s.s0, Blend(t)), 9);
    State(s0, Xor(t, s0))
  }

  lemma RotationsUndone(x: bv64)
    ensures RotateLeft(RotateLeft(x, 55), 9) == x && RotateLeft(RotateLeft(x, 9), 55) == x
    ensures RotateLeft(RotateLeft(x, 36), 28) == x && RotateLeft(RotateLeft(x, 28), 36) == x
  {
    assert RotateLeft((x << 55) | (x >> 9), 9) == x;
    assert RotateLeft((x << 9) | (x >> 55), 55) == x;
    assert RotateLeft((x << 36) | (x >> 28), 28) == x;
    assert RotateLeft((x << 28) | (x >> 36), 36) == x;
  }

  lemma XorTwice(x: bv64, y: bv64)
    ensures Xor(Xor(x, y), y) == x
  {
    assert Xor(x ^ y, y) == x;
  }

  /** A step loses nothing: it is a bijection on pairs of words. */
  lemma StepIsBijective(s: State)
    ensures Unstep(Step(s)) == s && Step(Unstep(s)) == s
  {
    UnstepStep(s);
    StepUnstep(s);
  }

  lemma UnstepStep(s: State)
    ensures Unstep(Step(s)) == s
  {
    hide RotateLeft, Blend, Xor;
    var t := Xor(s.s1, s.s0);
    RotationsUndone(t);
    RotationsUndone(s.s0);
    XorTwice(RotateLeft(s.s0, 55), Blend(t));
    XorTwice(s.s1, s.s0);
  }

  lemma StepUnstep(s: State)
    ensures Step(Unstep(s)) == s
  {
    hide RotateLeft, Blend, Xor;
    var t := RotateLeft(s.s1, 28);
    var u := Xor(s.s0, Blend(t));
    RotationsUndone(s.s1);
    RotationsUndone(u);
    XorTwice(t, RotateLeft(u, 9));
    XorTwice(s.s0, Blend(t));
  }

  // ---- whole runs ----

  const DEAD := State(0, 0)

  function Seeded(seed: bv64): State {
    State(Mix(Advance(seed)), Mix(Advance(Advance(seed))))
  }

  function After(s: State, n: nat): State {
    if n == 0 then s else Step(After(s, n - 1))
  }

  lemma DeadStaysDead()
    ensures Step(DEAD) == DEAD && Mix(0) == 0
  {
  }

  lemma AdvancedTwice(seed: bv64)
    ensures Advance(seed) == seed + 0x9E3779B97F4A7C15
    ensures Advance(Advance(seed)) == seed + 0x3C6EF372FE94F82A
  {
  }

  /** The first state and the first two numbers from one seed. */
  lemma SeededWith1234567()
    ensures var s := Seeded(1234567);
            && s == State(0x599ED017FB08FC85, 0x2C73F08458540FA5)
            && s.s0 + s.s1 == 0x8612C09C535D0C2A
            && Step(s).s0 + Step(s).s1 == 0xB5343933F33B8098
  {
  }

  /** No seed gives two zero words. */
  lemma SeededIsAlive(seed: bv64)
    ensures Seeded(seed) != DEAD
  {
    if Seeded(seed) == DEAD {
      MixIsBijective(Advance(seed));
      MixIsBijective(Advance(Advance(seed)));
      assert false;
    }
  }

  /** Two states that ever meet after equally many steps were equal to begin with. */
  lemma {:induction false} RunsNeverMerge(s: State, t: State, n: nat)
    requires After(s, n) == After(t, n)
    ensures s == t
  {
    if n > 0 {
      UnstepStep(After(s, n - 1));
      UnstepStep(After(t, n - 1));
      RunsNeverMerge(s, t, n - 1);
    }
  }

  lemma {:induction false} DeadAfter(n: nat)
    ensures After(DEAD, n) == DEAD
  {
    if n > 0 {
      DeadAfter(n - 1);
      DeadStaysDead();
    }
  }

  /** However often a seeded generator is called, it never reaches the all-zero state, from
      which every number would be zero; and different seeds never fall into step. */
  lemma NeverDies(seed: bv64, n: nat)
    ensures After(Seeded(seed), n) != DEAD
  {
    if After(Seeded(seed), n) == DEAD {
      DeadAfter(n);
      RunsNeverMerge(Seeded(seed), DEAD, n);
      SeededIsAlive(seed);
      assert false;
    }
  }

  lemma SeedsStayApart(seed: bv64, other: bv64, n: nat)
    requires seed != other
    ensures After(Seeded(seed), n) != After(Seeded(other), n)
  {
    if After(Seeded(seed), n) == After(Seeded(other), n) {
      RunsNeverMerge(Seeded(seed), Seeded(other), n);
      MixIsBijective(Advance(seed));
      MixIsBijective(Advance(other));
      assert false;
    }
  }

  // ---- the generator's static variables ----

  class Generator {
    var x: bv64
    var state0: bv64
    var state1: bv64
    ghost var seed: bv64
    ghost var calls: nat

    function Words(): State
      reads this
    {
      State(state0, state1)
    }

    /** The state is where its seed and the number of calls have brought it. */
    ghost predicate Valid()
      reads this
    {
      Words() == After(Seeded(seed), calls)
    }

    constructor (seed: bv64)
      ensures Valid() && this.seed == seed && calls == 0
    {
      new;
      Seed(seed);
    }

    method SplitmixNext() returns (r: bv64)
      modifies this`x
      ensures x == Advance(old(x)) && r == Mix(x)
    {
      hide Advance, Shift30, Times1, Shift27, Times2, Shift31;
      x := Advance(x);
      var z := x;
      z := Times1(Shift30(z));
      z := Times2(Shift27(z));
      r := Shift31(z);
    }

    method Seed(seed: bv64)
      modifies this
      ensures Valid() && this.seed == seed && calls == 0
      ensures x == seed + 0x3C6EF372FE94F82A
      ensures state0 == Mix(seed + 0x9E3779B97F4A7C15) && state1 == Mix(seed + 0x3C6EF372FE94F82A)
    {
      AdvancedTwice(seed);
      hide Advance, Mix;
      x := seed;
      state0 := SplitmixNext();
      state1 := SplitmixNext();
      this.seed, calls := seed, 0;
    }

    /** The two words are renewed; t is what the second has become on the way. */
    method Renew() returns (ghost t: bv64)
      modifies this`state0, this`state1
      ensures Words() == Step(old(Words())) && t == old(state1) ^ old(state0)
      ensures state0 == ((old(state0) << 55) | (old(state0) >> 9)) ^ (t ^ (t << 14))
      ensures state1 == (t << 36) | (t >> 28)
    {
      t := state1 ^ state0;
      StepIs(state0, state1, t);
      hide RotateLeft, Blend, Xor;
      var s0 := state0;
      var s1 := state1;
      s1 := Xor(s1, s0);
      state0 := Xor(RotateLeft(s0, 55), Blend(s1));
      state1 := RotateLeft(s1, 36);
    }

    /** The sum of the words is returned and the words renewed. */
    method Next() returns (r: bv64, ghost t: bv64)
      requires Valid()
      modifies this`state0, this`state1, this`calls
      ensures Valid() && calls == old(calls) + 1 && Words() != DEAD
      ensures r == old(state0) + old(state1) && t == old(state1) ^ old(state0)
      ensures state0 == ((old(state0) << 55) | (old(state0) >> 9)) ^ (t ^ (t << 14))
      ensures state1 == (t << 36) | (t >> 28)
    {
      hide Step, Seeded;
      r := state0 + state1;
      t := Renew();
      NeverDies(seed, calls + 1);
      calls := calls + 1;
    }
  }
}
