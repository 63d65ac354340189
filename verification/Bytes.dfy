/** Bytes, 64-bit words and the little-endian layout that the code generator writes
    and the disassembler reads back. */
module Bytes {

  const TWO_8 := 0x100
  const TWO_16 := 0x1_0000
  const TWO_24 := 0x100_0000
  const TWO_31 := 0x8000_0000
  const TWO_32 := 0x1_0000_0000
  const TWO_64 := 0x1_0000_0000_0000_0000

  type byte = x: int | 0 <= x < 0x100

  /** A raw machine word. */
  type word = x: int | 0 <= x < 0x1_0000_0000_0000_0000

  predicate IsInt8(x: int) { -0x80 <= x < 0x80 }

  predicate IsInt32(x: int) { -TWO_31 <= x < TWO_31 }

  predicate IsUint32(x: int) { 0 <= x < TWO_32 }

  predicate IsWord(x: int) { 0 <= x < TWO_64 }

  /** Two's complement byte. */
  function Le8(x: int): (b: seq<byte>)
    ensures |b| == 1
  {
    [x % TWO_8]
  }

  /** Two's complement doubleword, least significant byte first. */
  function Le32(x: int): (b: seq<byte>)
    ensures |b| == 4
  {
    [x % TWO_8, x / TWO_8 % TWO_8, x / TWO_16 % TWO_8, x / TWO_24 % TWO_8]
  }

  function Le64(x: int): (b: seq<byte>)
    ensures |b| == 8
  {
    Le32(x % TWO_32) + Le32(x / TWO_32)
  }

  function Signed8(b: byte): int { if b < 0x80 then b else b - 0x100 }

  function Unsigned32(b0: byte, b1: byte, b2: byte, b3: byte): nat {
    b0 + TWO_8 * b1 + TWO_16 * b2 + TWO_24 * b3
  }

  function Signed32(b0: byte, b1: byte, b2: byte, b3: byte): int {
    var u := Unsigned32(b0, b1, b2, b3);
    if u < TWO_31 then u else u - TWO_32
  }

  /** Reading back a displacement byte gives the displacement. */
  lemma Signed8Inverts(x: int)
    requires IsInt8(x)
    ensures Signed8(Le8(x)[0]) == x
  {
  }

  lemma Quotients(x: int)
    ensures x / TWO_8 / TWO_8 == x / TWO_16 && x / TWO_16 / TWO_8 == x / TWO_24
  {
  }

  lemma Unsigned32Inverts(x: int)
    ensures var b := Le32(x); Unsigned32(b[0], b[1], b[2], b[3]) == x % TWO_32
  {
    var b := Le32(x);
    var q1, q2, q3 := x / TWO_8, x / TWO_16, x / TWO_24;
    Quotients(x);
    assert x == q1 * TWO_8 + b[0] && q1 == q2 * TWO_8 + b[1];
    assert q2 == q3 * TWO_8 + b[2] && q3 == q3 / TWO_8 * TWO_8 + b[3];
    assert x == q3 / TWO_8 * TWO_32 + Unsigned32(b[0], b[1], b[2], b[3]);
  }

  /** The numbers that fit a displacement are those that its bytes can spell. */
  lemma Int8IsByte(x: int)
    ensures IsInt8(x) <==> exists b: byte :: Signed8(b) == x
  {
    if IsInt8(x) {
      assert Signed8(Le8(x)[0]) == x;
    }
  }

  lemma Int32IsBytes(x: int)
    ensures IsInt32(x) <==> exists b0: byte, b1: byte, b2: byte, b3: byte :: Signed32(b0, b1, b2, b3) == x
  {
    if IsInt32(x) {
      var b := Le32(x);
      Unsigned32Inverts(x);
      assert Signed32(b[0], b[1], b[2], b[3]) == x;
    }
  }
}
