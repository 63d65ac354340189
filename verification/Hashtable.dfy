/** The open-addressing hashtable: linear probing from the key's home slot with a sentinel
    and wrap-around, tombstones, and growth by rehashing. Keys are fixnums, whose hashcode
    is the tagged key itself. */
module Hashtable {

  /** A cell of the bucket array. Zero is the raw word 0: the sentinel where a key is
      expected, nil where a value is. */
  datatype Cell = Empty | Deleted | Zero | Fixnum(n: int) | Object(id: nat)

  // ---- bucket arrays as sequences: key and value of entry i at 2i and 2i + 1 ----

  function Key(s: seq<Cell>, i: int): Cell
    requires 0 <= 2 * i < |s|
  {
    s[2 * i]
  }

  function Value(s: seq<Cell>, i: int): Cell
    requires 0 <= 2 * i < |s| - 1
  {
    s[2 * i + 1]
  }

  predicate Shaped(s: seq<Cell>, cap: nat) {
    && cap > 0
    && |s| == 2 * cap + 1
    && Key(s, cap) == Zero
    && forall i :: 0 <= i < cap ==> Key(s, i) == Empty || Key(s, i) == Deleted || Key(s, i).Fixnum?
  }

  /** The entry where the search for n starts: the tagged key under the mask. */
  function Home(n: int, cap: nat): (h: nat)
    requires cap > 0
    ensures h < cap
  {
    (2 * n + 1) % cap
  }

  /** A probe that starts at home passes j before it gets to i. */
  predicate Passes(home: int, j: int, i: int) {
    if home <= i then home <= j < i else home <= j || j < i
  }

  lemma OneComesFirst(home: int, j: int, i: int)
    ensures i == j || Passes(home, j, i) || Passes(home, i, j)
  {
  }

  /** Every key can be reached from its home without meeting an empty entry. */
  ghost predicate Reachable(s: seq<Cell>, cap: nat)
    requires Shaped(s, cap)
  {
    forall i, j :: 0 <= i < cap && 0 <= j < cap && Key(s, i).Fixnum? && Passes(Home(Key(s, i).n, cap), j, i)
                   ==> Key(s, j) != Empty
  }

  ghost predicate Distinct(s: seq<Cell>, cap: nat)
    requires Shaped(s, cap)
  {
    forall i, j :: 0 <= i < cap && 0 <= j < cap && Key(s, i).Fixnum? && Key(s, i) == Key(s, j) ==> i == j
  }

  ghost predicate Represents(s: seq<Cell>, cap: nat, m: map<int, Cell>)
    requires Shaped(s, cap)
  {
    && (forall i :: 0 <= i < cap && Key(s, i).Fixnum? ==> Key(s, i).n in m && m[Key(s, i).n] == Value(s, i))
    && forall n :: n in m ==> exists i :: 0 <= i < cap && Key(s, i) == Fixnum(n)
  }

  ghost predicate Sound(s: seq<Cell>, cap: nat, m: map<int, Cell>) {
    Shaped(s, cap) && Reachable(s, cap) && Distinct(s, cap) && Represents(s, cap, m)
  }

  /** How many of the first k entries are in use, tombstones counted. */
  function Used(s: seq<Cell>, k: nat): (u: nat)
    requires 2 * k <= |s|
    ensures u <= k
  {
    if k == 0 then 0 else Used(s, k - 1) + if Key(s, k - 1) == Empty then 0 else 1
  }

  lemma {:induction false} SomeEmpty(s: seq<Cell>, k: nat) returns (e: nat)
    requires 2 * k <= |s| && Used(s, k) < k
    ensures e < k && Key(s, e) == Empty
  {
    if Key(s, k - 1) == Empty {
      e := k - 1;
    } else {
      e := SomeEmpty(s, k - 1);
    }
  }

  lemma {:induction false} UsedFilled(s: seq<Cell>, t: seq<Cell>, i: nat, k: nat)
    requires |s| == |t| && 2 * k <= |s| && 2 * i < |s|
    requires Key(s, i) == Empty && Key(t, i) != Empty
    requires forall j :: 0 <= j < k && j != i ==> (Key(s, j) == Empty <==> Key(t, j) == Empty)
    ensures Used(t, k) == Used(s, k) + if i < k then 1 else 0
  {
    if k > 0 {
      UsedFilled(s, t, i, k - 1);
    }
  }

  lemma {:induction false} UsedSame(s: seq<Cell>, t: seq<Cell>, k: nat)
    requires |s| == |t| && 2 * k <= |s|
    requires forall j :: 0 <= j < k ==> (Key(s, j) == Empty <==> Key(t, j) == Empty)
    ensures Used(t, k) == Used(s, k)
  {
    if k > 0 {
      UsedSame(s, t, k - 1);
    }
  }

  lemma {:induction false} NoneUsed(s: seq<Cell>, k: nat)
    requires 2 * k <= |s| && forall j :: 0 <= j < k ==> Key(s, j) == Empty
    ensures Used(s, k) == 0
  {
    if k > 0 {
      NoneUsed(s, k - 1);
    }
  }

  // ---- what one change of the array does ----

  /** The probe has gone from home to i without meeting n or an empty entry. */
  ghost predicate Scanned(s: seq<Cell>, cap: nat, n: int, i: nat)
    requires Shaped(s, cap)
  {
    forall j :: 0 <= j < cap && Passes(Home(n, cap), j, i) ==> Key(s, j) != Empty && Key(s, j) != Fixnum(n)
  }

  /** An empty entry where the probe ends shows that the key is nowhere in the table. */
  lemma EmptyMeansAbsent(s: seq<Cell>, cap: nat, m: map<int, Cell>, n: int, i: nat)
    requires Sound(s, cap, m) && i < cap
    requires Key(s, i) == Empty && Scanned(s, cap, n, i)
    ensures n !in m
  {
    if n in m {
      var k :| 0 <= k < cap && Key(s, k) == Fixnum(n);
      OneComesFirst(Home(n, cap), k, i);
      assert false;
    }
  }

  lemma InsertSound(s: seq<Cell>, cap: nat, m: map<int, Cell>, n: int, v: Cell, i: nat)
    requires Sound(s, cap, m) && i < cap
    requires Key(s, i) == Empty && Scanned(s, cap, n, i)
    ensures var t := s[2 * i := Fixnum(n)][2 * i + 1 := v];
            Sound(t, cap, m[n := v]) && Used(t, cap) == Used(s, cap) + 1
  {
    EmptyMeansAbsent(s, cap, m, n, i);
    var t := s[2 * i := Fixnum(n)][2 * i + 1 := v];
    assert Key(t, i) == Fixnum(n) && Value(t, i) == v;
    assert forall j :: 0 <= j < cap && j != i ==> Key(t, j) == Key(s, j) && Value(t, j) == Value(s, j);
    assert Key(t, cap) == Key(s, cap);
    forall k | k in m[n := v]
      ensures exists j :: 0 <= j < cap && Key(t, j) == Fixnum(k)
    {
      if k != n {
        var j :| 0 <= j < cap && Key(s, j) == Fixnum(k);
        assert Key(t, j) == Fixnum(k);
      }
    }
    UsedFilled(s, t, i, cap);
  }

  lemma ReplaceSound(s: seq<Cell>, cap: nat, m: map<int, Cell>, n: int, v: Cell, i: nat)
    requires Sound(s, cap, m) && i < cap && Key(s, i) == Fixnum(n)
    ensures var t := s[2 * i + 1 := v];
            Sound(t, cap, m[n := v]) && Used(t, cap) == Used(s, cap)
  {
    var t := s[2 * i + 1 := v];
    assert forall j :: 0 <= j <= cap ==> Key(t, j) == Key(s, j);
    assert Value(t, i) == v && forall j :: 0 <= j < cap && j != i ==> Value(t, j) == Value(s, j);
    forall k | k in m[n := v]
      ensures exists j :: 0 <= j < cap && Key(t, j) == Fixnum(k)
    {
      if k == n {
        assert Key(t, i) == Fixnum(n);
      } else {
        var j :| 0 <= j < cap && Key(s, j) == Fixnum(k);
        assert Key(t, j) == Fixnum(k);
      }
    }
    UsedSame(s, t, cap);
  }

  /** A tombstone keeps every other key reachable, which an empty entry would not. */
  lemma DeleteSound(s: seq<Cell>, cap: nat, m: map<int, Cell>, n: int, i: nat)
    requires Sound(s, cap, m) && i < cap && Key(s, i) == Fixnum(n)
    ensures var t := s[2 * i := Deleted][2 * i + 1 := Deleted];
            Sound(t, cap, m - {n}) && Used(t, cap) == Used(s, cap)
  {
    var t := s[2 * i := Deleted][2 * i + 1 := Deleted];
    assert Key(t, i) == Deleted;
    assert forall j :: 0 <= j < cap && j != i ==> Key(t, j) == Key(s, j) && Value(t, j) == Value(s, j);
    assert Key(t, cap) == Key(s, cap);
    forall k | k in m - {n}
      ensures exists j :: 0 <= j < cap && Key(t, j) == Fixnum(k)
    {
      var j :| 0 <= j < cap && Key(s, j) == Fixnum(k);
      assert Key(t, j) == Fixnum(k);
    }
    UsedSame(s, t, cap);
  }

  /** The entries among the first k that hold keys, as a map. */
  function Entries(s: seq<Cell>, k: nat): map<int, Cell>
    requires 2 * k < |s|
  {
    if k == 0 then map[]
    else if Key(s, k - 1).Fixnum? then Entries(s, k - 1)[Key(s, k - 1).n := Value(s, k - 1)]
    else Entries(s, k - 1)
  }

  lemma {:induction false} EntriesKeys(s: seq<Cell>, cap: nat, m: map<int, Cell>, k: nat)
    requires Sound(s, cap, m) && k <= cap
    ensures forall n :: n in Entries(s, k) ==> exists i :: 0 <= i < k && Key(s, i) == Fixnum(n)
    ensures forall i :: 0 <= i < k && Key(s, i).Fixnum? ==>
              Key(s, i).n in Entries(s, k) && Entries(s, k)[Key(s, i).n] == Value(s, i)
  {
    if k > 0 {
      EntriesKeys(s, cap, m, k - 1);
      forall n | n in Entries(s, k)
        ensures exists i :: 0 <= i < k && Key(s, i) == Fixnum(n)
      {
        if n in Entries(s, k - 1) {
          var i :| 0 <= i < k - 1 && Key(s, i) == Fixnum(n);
          assert Key(s, i) == Fixnum(n);
        } else {
          assert Key(s, k - 1) == Fixnum(n);
        }
      }
    }
  }

  /** All the entries together are the map that the array represents. */
  lemma EntriesAll(s: seq<Cell>, cap: nat, m: map<int, Cell>)
    requires Sound(s, cap, m)
    ensures Entries(s, cap) == m
  {
    EntriesKeys(s, cap, m, cap);
    var all := Entries(s, cap);
    forall n
      ensures n in all <==> n in m
      ensures n in m ==> all[n] == m[n]
    {
      if n in all {
        var i :| 0 <= i < cap && Key(s, i) == Fixnum(n);
      }
      if n in m {
        var i :| 0 <= i < cap && Key(s, i) == Fixnum(n);
        assert Key(s, i).n == n;
      }
    }
    assert all == m;
  }

  lemma EmptySound(s: seq<Cell>, cap: nat)
    requires cap > 0 && |s| == 2 * cap + 1 && Key(s, cap) == Zero
    requires forall i :: 0 <= i < cap ==> Key(s, i) == Empty
    ensures Sound(s, cap, map[]) && Used(s, cap) == 0
  {
    NoneUsed(s, cap);
  }

  predicate PowerOfTwo(n: nat)
    decreases n
  {
    n == 1 || (n > 1 && n % 2 == 0 && PowerOfTwo(n / 2))
  }

  // ---- the mask ----

  /** The bits that two numbers have in common. */
  function BitAnd(x: nat, y: nat): nat {
    if x == 0 || y == 0 then 0 else 2 * BitAnd(x / 2, y / 2) + (if x % 2 == 1 && y % 2 == 1 then 1 else 0)
  }

  function Twos(k: nat): nat {
    if k == 0 then 1 else 2 * Twos(k - 1)
  }

  lemma {:induction false} TwosArePowers(k: nat)
    ensures PowerOfTwo(Twos(k))
  {
    if k > 0 {
      TwosPositive(k - 1);
      TwosArePowers(k - 1);
    }
  }

  lemma {:induction false} PowersAreTwos(n: nat) returns (k: nat)
    requires PowerOfTwo(n)
    ensures n == Twos(k)
  {
    if n == 1 {
      k := 0;
    } else {
      k := PowersAreTwos(n / 2);
      k := k + 1;
    }
  }

  lemma PowerOfTwoIff(n: nat)
    ensures PowerOfTwo(n) <==> exists k: nat :: n == Twos(k)
  {
    if PowerOfTwo(n) {
      var k := PowersAreTwos(n);
    } else if exists k: nat :: n == Twos(k) {
      var k: nat :| n == Twos(k);
      TwosArePowers(k);
    }
  }

  lemma {:induction false} TwosPositive(k: nat)
    ensures Twos(k) >= 1
  {
    if k > 0 { TwosPositive(k - 1); }
  }

  lemma {:induction false} TwosMultiply(j: nat, k: nat)
    ensures Twos(j + k) == Twos(j) * Twos(k)
  {
    if j > 0 {
      TwosMultiply(j - 1, k);
      Regroup(Twos(j - 1), Twos(k));
    }
  }

  lemma Regroup(a: nat, b: nat)
    ensures 2 * (a * b) == 2 * a * b
  {
  }

  lemma RemainderIs(x: int, m: nat, a: int, r: nat)
    requires x == m * a + r && r < m
    ensures x % m == r
  {
    var (q, s) := (x / m, x % m);
    assert x == m * q + s;
    assert m * (a - q) == s - r;
    if a > q { Larger(m, a - q); } else if a < q { Larger(m, q - a); }
  }

  lemma Larger(m: nat, d: int)
    requires d >= 1
    ensures m * d >= m
  {
  }

  /** The remainder by twice a number, from the remainder of the half by the number. */
  lemma RemainderByDouble(x: nat, c: nat)
    requires c > 0
    ensures x % (2 * c) == 2 * (x / 2 % c) + x % 2
  {
    var h := x / 2;
    assert h == c * (h / c) + h % c;
    RemainderIs(x, 2 * c, h / c, 2 * (h % c) + x % 2);
  }

  lemma HalfPower(cap: nat)
    requires PowerOfTwo(cap) && cap > 1
    ensures PowerOfTwo(cap / 2) && cap == 2 * (cap / 2)
  {
  }

  lemma AndStep(x: nat, c: nat)
    requires x > 0 && c > 0
    ensures BitAnd(x, 2 * c - 1) == 2 * BitAnd(x / 2, c - 1) + x % 2
  {
    HalfMask(c);
  }

  /** Masking with a power of two less one is taking the remainder. */
  lemma {:induction false} MaskIsRemainder(x: nat, cap: nat)
    requires PowerOfTwo(cap)
    ensures BitAnd(x, cap - 1) == x % cap
    decreases cap
  {
    if cap == 1 {
      RemainderIs(x, 1, x, 0);
    } else if x == 0 {
      RemainderIs(x, cap, 0, 0);
    } else {
      HalfPower(cap);
      hide BitAnd, PowerOfTwo;
      var c := cap / 2;
      MaskIsRemainder(x / 2, c);
      RemainderByDouble(x, c);
      AndStep(x, c);
    }
  }

  lemma HalfMask(c: nat)
    requires c > 0
    ensures (2 * c - 1) / 2 == c - 1 && (2 * c - 1) % 2 == 1
  {
  }

  /** So the home of a key is its tagged word, as 64 bits, under the mask. */
  lemma HomeIsMasked(n: int, cap: nat)
    requires PowerOfTwo(cap) && cap <= 0x1_0000_0000_0000_0000
    ensures Home(n, cap) == BitAnd((2 * n + 1) % 0x1_0000_0000_0000_0000, cap - 1)
  {
    var word := (2 * n + 1) % 0x1_0000_0000_0000_0000;
    MaskIsRemainder(word, cap);
    var d := Divides(cap);
    RemainderOfMultiple(2 * n + 1, cap, d, 0x1_0000_0000_0000_0000);
  }

  lemma Divides(cap: nat) returns (d: nat)
    requires PowerOfTwo(cap) && cap <= 0x1_0000_0000_0000_0000
    ensures cap * d == 0x1_0000_0000_0000_0000
  {
    var k := PowersAreTwos(cap);
    Twos64();
    if k > 64 {
      TwosAbove64(k);
      assert false;
    }
    d := Twos(64 - k);
    TwosMultiply(k, 64 - k);
  }

  lemma {:induction false} TwosAbove64(k: nat)
    requires k > 64
    ensures Twos(k) > 0x1_0000_0000_0000_0000
  {
    if k == 65 {
      Twos64();
    } else {
      TwosAbove64(k - 1);
    }
  }

  lemma Twos64()
    ensures Twos(64) == 0x1_0000_0000_0000_0000
  {
    assert Twos(8) == 0x100;
    TwosMultiply(8, 8);
    TwosMultiply(16, 16);
    TwosMultiply(32, 32);
  }

  lemma RemainderOfMultiple(x: int, cap: nat, d: nat, m: nat)
    requires cap > 0 && m > 0 && cap * d == m
    ensures x % m % cap == x % cap
  {
    var (a, y) := (x / m, x % m);
    var (e, r) := (y / cap, y % cap);
    assert x == m * a + y && y == cap * e + r;
    Distribute(cap, d, a, e);
    RemainderIs(x, cap, d * a + e, r);
  }

  lemma Distribute(cap: nat, d: nat, a: int, e: int)
    ensures cap * d * a + cap * e == cap * (d * a + e)
  {
  }

  // ---- the table ----

  class Table {
    var capacity: nat
    var mask: int
    var occupancy: nat
    var deletions: nat
    var data: array<Cell>
    ghost var contents: map<int, Cell>

    /** The array is sound and the occupancy right; nothing about how full it is. */
    ghost predicate Stored()
      reads this, data
    {
      && PowerOfTwo(capacity)
      && mask == capacity - 1
      && Sound(data[..], capacity, contents)
      && occupancy == Used(data[..], capacity)
    }

    /** At most half of the entries are in use, so a probe always meets an empty one. */
    ghost predicate Valid()
      reads this, data
    {
      Stored() && 2 * occupancy <= capacity
    }

    constructor (cap: nat)
      requires PowerOfTwo(cap)
      ensures Valid() && contents == map[] && capacity == cap && deletions == 0 && fresh(data)
    {
      capacity, mask, occupancy, deletions := cap, cap - 1, 0, 0;
      contents := map[];
      data := new Cell[1];
      new;
      data := MakeBucketArray(cap);
      EmptySound(data[..], cap);
    }

    static method MakeBucketArray(cap: nat) returns (a: array<Cell>)
      requires cap > 0
      ensures fresh(a) && a.Length == 2 * cap + 1
      ensures Key(a[..], cap) == Zero && forall i :: 0 <= i < cap ==> Key(a[..], i) == Empty
    {
      a := new Cell[2 * cap + 1];
      for k := 0 to 2 * cap
        invariant forall j :: 0 <= j < k ==> a[j] == Empty
      {
        a[k] := Empty;
      }
      a[2 * cap] := Zero;
    }

    /** The two probe loops: from the home entry to the sentinel, then from the start. The
        second has no sentinel to stop it: it relies on there being an empty entry. */
    method Probe(n: int) returns (found: bool, i: nat)
      requires Stored() && occupancy < capacity
      ensures i < capacity && Scanned(data[..], capacity, n, i)
      ensures found ==> Key(data[..], i) == Fixnum(n)
      ensures !found ==> Key(data[..], i) == Empty
      ensures found <==> n in contents
    {
      ghost var s := data[..];
      ghost var e := SomeEmpty(s, capacity);
      var home := (2 * n + 1) % (mask + 1);
      i := home;
      while true
        invariant home <= i <= capacity
        invariant forall j :: home <= j < i ==> Key(s, j) != Empty && Key(s, j) != Fixnum(n)
        invariant s == data[..]
        decreases capacity - i
      {
        var key := data[2 * i];
        assert key == Key(s, i);
        if key == Fixnum(n) { return true, i; }
        if key == Empty { EmptyMeansAbsent(s, capacity, contents, n, i); return false, i; }
        if key == Zero { break; }
        i := i + 1;
      }
      i := 0;
      while true
        invariant i <= e < home
        invariant forall j :: 0 <= j < i ==> Key(s, j) != Empty && Key(s, j) != Fixnum(n)
        invariant s == data[..]
        decreases e - i
      {
        var key := data[2 * i];
        assert key == Key(s, i);
        if key == Fixnum(n) { return true, i; }
        if key == Empty { EmptyMeansAbsent(s, capacity, contents, n, i); return false, i; }
        i := i + 1;
      }
    }

    /** The value stored for a key, or nil. */
    method Get(n: int) returns (v: Cell)
      requires Valid()
      ensures v == if n in contents then contents[n] else Zero
    {
      var found, i := Probe(n);
      v := if found then data[2 * i + 1] else Zero;
    }

    method PutInternal(n: int, v: Cell)
      requires Stored() && occupancy < capacity
      modifies this`occupancy, this`contents, data
      ensures Stored() && contents == old(contents)[n := v]
      ensures occupancy == old(occupancy) + if n in old(contents) then 0 else 1
    {
      ghost var s := data[..];
      var found, i := Probe(n);
      if found {
        ReplaceSound(s, capacity, contents, n, v, i);
        data[2 * i + 1] := v;
        assert data[..] == s[2 * i + 1 := v];
      } else {
        InsertSound(s, capacity, contents, n, v, i);
        data[2 * i] := Fixnum(n);
        occupancy := occupancy + 1;
        data[2 * i + 1] := v;
        assert data[..] == s[2 * i := Fixnum(n)][2 * i + 1 := v];
      }
      contents := contents[n := v];
    }

    /** A removed entry stays in use: occupancy does not go down. */
    method Remove(n: int)
      requires Valid()
      modifies this`deletions, this`contents, data
      ensures Valid() && contents == old(contents) - {n}
      ensures deletions == old(deletions) + if n in old(contents) then 1 else 0
      ensures occupancy == old(occupancy) && capacity == old(capacity)
    {
      ghost var s := data[..];
      var found, i := Probe(n);
      if found {
        DeleteSound(s, capacity, contents, n, i);
        data[2 * i] := Deleted;
        data[2 * i + 1] := Deleted;
        assert data[..] == s[2 * i := Deleted][2 * i + 1 := Deleted];
        deletions := deletions + 1;
        contents := contents - {n};
      } else {
        assert contents - {n} == contents;
      }
    }

    /** An empty table of twice the capacity. */
    method StartOver()
      requires Stored()
      modifies this
      ensures Stored() && contents == map[] && fresh(data)
      ensures capacity == 2 * old(capacity) && occupancy == deletions == 0
    {
      hide Sound;
      StoredIsShaped();
      capacity := 2 * capacity;
      mask := capacity - 1;
      data := MakeBucketArray(capacity);
      occupancy, deletions := 0, 0;
      contents := map[];
      EmptySound(data[..], capacity);
    }

    lemma StoredIsShaped()
      requires Stored()
      ensures Shaped(data[..], capacity)
    {
    }

    /** Twice the capacity, and only the live entries carried over. */
    method Grow()
      requires Stored()
      modifies this
      ensures Valid() && contents == old(contents) && fresh(data)
      ensures capacity == 2 * old(capacity) && deletions == 0 && occupancy == |contents|
    {
      hide Sound;
      StoredIsShaped();
      var was := data;
      ghost var s, c := data[..], capacity;
      EntriesAll(s, c, contents);
      StartOver();
      var i := 0;
      while was[2 * i] != Zero
        invariant i <= c && capacity == 2 * c && fresh(data) && data != was && was[..] == s
        invariant Stored() && occupancy <= i && deletions == 0 && occupancy == |contents|
        invariant contents == Entries(s, i)
        decreases c - i
      {
        var key, value := was[2 * i], was[2 * i + 1];
        assert key == Key(s, i) && value == Value(s, i);
        if key.Fixnum? {
          PutInternal(key.n, value);
        }
        i := i + 1;
      }
      assert was[2 * i] == Key(s, i);
    }

    /** A put leaves the table at most half full, whatever its capacity was. It grows just
        when half of the entries or more have come into use, and then no tombstone is left. */
    method Put(n: int, v: Cell)
      requires Valid()
      modifies this, data
      ensures Valid() && contents == old(contents)[n := v]
      ensures data == old(data) || fresh(data)
      ensures var used := old(occupancy) + if n in old(contents) then 0 else 1;
              if used >= old(capacity) / 2
              then capacity == 2 * old(capacity) && deletions == 0 && occupancy == |contents|
              else capacity == old(capacity) && deletions == old(deletions) && occupancy == used
    {
      PutInternal(n, v);
      if occupancy >= capacity / 2 {
        Grow();
      }
    }

    /** Any run of operations keeps the table and the map it stands for in step. */
    method Run(ops: seq<Operation>)
      requires Valid() && contents == map[]
      modifies this, data
      ensures Valid() && contents == Replay(ops)
    {
      for k := 0 to |ops|
        invariant Valid() && contents == Replay(ops[..k])
        invariant data == old(data) || fresh(data)
      {
        assert ops[..k + 1][..k] == ops[..k];
        match ops[k] {
          case Put(n, v) => Put(n, v);
          case Remove(n) => Remove(n);
          case Grow => Grow();
        }
      }
      assert ops[..|ops|] == ops;
    }
  }

  // ---- what a history of operations means ----

  datatype Operation = Put(n: int, v: Cell) | Remove(n: int) | Grow

  function Replay(ops: seq<Operation>): map<int, Cell> {
    if ops == [] then map[]
    else
      var before := Replay(ops[..|ops| - 1]);
      match ops[|ops| - 1]
      case Put(n, v) => before[n := v]
      case Remove(n) => before - {n}
      case Grow => before
  }

  /** Operation k put v for n, and nothing later put or removed n. */
  predicate LastPut(ops: seq<Operation>, k: int, n: int, v: Cell) {
    && 0 <= k < |ops| && ops[k] == Put(n, v)
    && forall j :: k < j < |ops| ==> ops[j].Grow? || ops[j].n != n
  }

  /** The table's answer is exactly the last value put and not since removed. */
  lemma {:induction false} ReplayIsLastPut(ops: seq<Operation>, n: int, v: Cell)
    ensures n in Replay(ops) && Replay(ops)[n] == v <==> exists k :: LastPut(ops, k, n, v)
  {
    if ops != [] {
      var last := |ops| - 1;
      var before := ops[..last];
      ReplayIsLastPut(before, n, v);
      assert forall k :: 0 <= k < last ==> before[k] == ops[k];
      if !ops[last].Grow? && ops[last].n == n {
        assert ops[last] == Put(n, v) ==> LastPut(ops, last, n, v);
      } else {
        forall k
          ensures LastPut(ops, k, n, v) <==> LastPut(before, k, n, v)
        {
        }
      }
    }
  }
}
