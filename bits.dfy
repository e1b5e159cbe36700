/**
 * JavaScript's 32-bit integer operators, on unbounded integers: `x | y`
 * and `x << k` convert their operands with ToInt32, work on the 32-bit
 * two's-complement patterns and read the result back as a signed number.
 * `(x >> k) & 0xff` is a floor division followed by a remainder that is
 * never negative, which is what Dafny's `/` and `%` compute.
 */
module Bits {

  const Two32 := 0x1_0000_0000
  const Two31 := 0x8000_0000

  /** ToInt32: the signed 32-bit integer with the same low 32 bits as `x`. */
  function Int32(x: int): (r: int)
    ensures -Two31 <= r < Two31
  {
    (x + Two31) % Two32 - Two31
  }

  lemma Int32Small(x: int)
    requires -Two31 <= x < Two31
    ensures Int32(x) == x
  {
    assert 0 <= x + Two31 < Two32;
  }

  /** ToInt32 keeps the bit pattern: both numbers agree modulo 2^32. */
  lemma Int32Pattern(x: int)
    requires 0 <= x < Two32
    ensures Int32(x) % Two32 == x
  {
    if x < Two31 {
      Int32Small(x);
    } else {
      assert Int32(x) == x - Two32;
    }
  }

  /** ToInt32 of a pattern with the sign bit set: the number less 2^32. */
  lemma Int32Wrap(x: int)
    requires Two31 <= x < Two32
    ensures Int32(x) == x - Two32
  {
    assert Two32 <= x + Two31 < 2 * Two32;
  }

  function Pow2(k: nat): (p: nat)
    ensures p >= 1
  {
    if k == 0 then 1 else 2 * Pow2(k - 1)
  }

  /** The shifts by one, two and three bytes. */
  lemma Pow2Bytes()
    ensures Pow2(8) == 0x100 && Pow2(16) == 0x1_0000 && Pow2(24) == 0x100_0000
  {
    assert Pow2(4) == 16;
    assert Pow2(8) == 0x100;
    assert Pow2(12) == 0x1000;
    assert Pow2(16) == 0x1_0000;
    assert Pow2(20) == 0x10_0000;
  }

  /** The bitwise or of two numbers that are not negative, taken bit by bit from the lowest. */
  function BitOr(a: nat, b: nat): (r: nat)
    decreases a + b
  {
    if a == 0 then b
    else if b == 0 then a
    else 2 * BitOr(a / 2, b / 2) + (if a % 2 == 1 || b % 2 == 1 then 1 else 0)
  }

  /** When `b` fits below the low `k` bits of `a * 2^k`, or-ing is adding. */
  lemma {:induction false} BitOrShifted(a: nat, b: nat, k: nat)
    requires b < Pow2(k)
    ensures BitOr(a * Pow2(k), b) == a * Pow2(k) + b
  {
    if k == 0 || a == 0 || b == 0 {
    } else {
      var p := Pow2(k - 1);
      var h := a * p;
      assert a * Pow2(k) == 2 * h;
      assert b / 2 < p;
      BitOrShifted(a, b / 2, k - 1);
      assert (2 * h) / 2 == h && (2 * h) % 2 == 0;
      assert BitOr(2 * h, b) == 2 * BitOr(h, b / 2) + b % 2;
    }
  }

  /** `a | b` on 32-bit integers. */
  function Or32(a: int, b: int): (r: int)
  {
    Int32(BitOr(a % Two32, b % Two32))
  }

  /** `x << k` on 32-bit integers (only the low 32 bits of `x` matter). */
  function Shl(x: int, k: nat): (r: int)
    requires k < 32
  {
    Int32(x * Pow2(k))
  }

  /** `x & 0xff`: the low byte. */
  function LowByte(x: int): (b: int)
    ensures 0 <= b < 256
  {
    x % 256
  }

  lemma LowByteOfByte(x: int)
    requires 0 <= x < 256
    ensures LowByte(x) == x
  {
  }

  /**
   * Or-ing a small number `b` into a word whose low `k` bits are clear adds
   * it, as long as the sum still fits in 32 bits.
   */
  lemma {:induction false} OrIntoClearBits(a: nat, b: nat, k: nat)
    requires b < Pow2(k) && a * Pow2(k) + b < Two32
    ensures Or32(Int32(a * Pow2(k)), b) == Int32(a * Pow2(k) + b)
  {
    var w := a * Pow2(k);
    Int32Pattern(w);
    assert Int32(w) % Two32 == w;
    assert b % Two32 == b;
    BitOrShifted(a, b, k);
    assert BitOr(w, b) == w + b;
  }

  /** Splitting a number into a quotient and a remainder by a byte. */
  lemma DivMod256(q: int, r: int)
    requires 0 <= r < 0x100
    ensures (q * 0x100 + r) / 0x100 == q && (q * 0x100 + r) % 0x100 == r
  {
  }

  /** Splitting a number into a quotient and a remainder by two bytes. */
  lemma DivMod65536(q: int, r: int)
    requires 0 <= r < 0x1_0000
    ensures (q * 0x1_0000 + r) / 0x1_0000 == q && (q * 0x1_0000 + r) % 0x1_0000 == r
  {
  }
}
