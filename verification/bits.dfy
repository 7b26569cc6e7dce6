/**
 Bit operations on non-negative BigInt payloads. On a non-negative value,
 `x & 0xFFFFn` is `x % 2^16` and `x >> 16n` is `x / 2^16`; only `|` needs a
 definition of its own.
 */
module Bits {

  function Pow2(k: nat): (r: nat)
    ensures r >= 1
  {
    if k == 0 then 1 else 2 * Pow2(k - 1)
  }

  /** Width of the low field of every packed payload. */
  const FieldBits: nat := 16
  const FieldSize: nat := 65536

  lemma FieldSizeIsPow2()
    ensures Pow2(FieldBits) == FieldSize
  {
    assert Pow2(1) == 2;
    assert Pow2(2) == 4;
    assert Pow2(3) == 8;
    assert Pow2(4) == 16;
    assert Pow2(5) == 32;
    assert Pow2(6) == 64;
    assert Pow2(7) == 128;
    assert Pow2(8) == 256;
    assert Pow2(9) == 512;
    assert Pow2(10) == 1024;
    assert Pow2(11) == 2048;
    assert Pow2(12) == 4096;
    assert Pow2(13) == 8192;
    assert Pow2(14) == 16384;
    assert Pow2(15) == 32768;
    assert Pow2(16) == 65536;
  }

  /** `a | b` on non-negative integers, bit by bit from the least significant end. */
  function BitOr(a: nat, b: nat): nat
    decreases a + b
  {
    if a == 0 then b
    else if b == 0 then a
    else 2 * BitOr(a / 2, b / 2) + (if a % 2 == 1 || b % 2 == 1 then 1 else 0)
  }

  /** OR-ing a value below 2^k into a multiple of 2^k is addition: the bits do not overlap. */
  lemma {:induction false} BitOrDisjoint(a: nat, b: nat, k: nat)
    requires a < Pow2(k)
    ensures BitOr(a, b * Pow2(k)) == a + b * Pow2(k)
    decreases k
  {
    if a == 0 || b == 0 {
    } else {
      assert k > 0;
      var high := b * Pow2(k - 1);
      assert b * Pow2(k) == 2 * high;
      assert (2 * high) % 2 == 0 && (2 * high) / 2 == high;
      assert a / 2 < Pow2(k - 1);
      BitOrDisjoint(a / 2, b, k - 1);
      assert BitOr(a, 2 * high) == 2 * BitOr(a / 2, high) + a % 2;
    }
  }
}
