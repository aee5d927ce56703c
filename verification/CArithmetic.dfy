/** The C integer types and operators the modelled sources rely on. */
module CArithmetic {
  newtype int32 = x: int | -0x8000_0000 <= x < 0x8000_0000
  newtype uint32 = x: int | 0 <= x < 0x1_0000_0000

  /** C's `/`: the quotient is truncated toward zero. */
  function Quot(a: int, b: int): (q: int)
    requires 0 < b
    ensures q * b + Rem(a, b) == a
  {
    if 0 <= a then a / b else -((-a) / b)
  }

  /** C's `%`: the remainder takes the sign of the dividend. */
  function Rem(a: int, b: int): (r: int)
    requires 0 < b
    ensures -b < r < b
    ensures 0 <= a ==> r == a % b
    ensures a < 0 ==> r <= 0
  {
    if 0 <= a then a % b else -((-a) % b)
  }

  /** Conversion of an unsigned 32-bit value to a signed one. */
  function ToSigned(u: uint32): (s: int32)
    ensures s as int == u as int || s as int == u as int - 0x1_0000_0000
  {
    if u < 0x8000_0000 then u as int32 else (u as int - 0x1_0000_0000) as int32
  }

  /** Conversion of any integer to an unsigned 32-bit value. */
  function ToUnsigned(i: int): (u: uint32)
    ensures 0 <= i < 0x1_0000_0000 ==> u as int == i
  {
    (i % 0x1_0000_0000) as uint32
  }

  function Pow2(n: nat): (p: nat)
    ensures 1 <= p
  {
    if n == 0 then 1 else 2 * Pow2(n - 1)
  }

  /** Bitwise exclusive or of the low `n` bits. */
  function XorBits(a: nat, b: nat, n: nat): (r: nat)
    ensures r < Pow2(n)
  {
    if n == 0 then 0 else 2 * XorBits(a / 2, b / 2, n - 1) + (a + b) % 2
  }

  lemma Pow2Of32()
    ensures Pow2(32) == 0x1_0000_0000
  {
    assert Pow2(8) == 0x100;
    assert Pow2(16) == 0x1_0000;
    assert Pow2(24) == 0x100_0000;
  }

  /** C's `^` on unsigned 32-bit values. */
  function Xor(a: uint32, b: uint32): uint32 {
    Pow2Of32();
    XorBits(a as int, b as int, 32) as uint32
  }

  /** Exclusive or with the same value twice changes nothing. */
  lemma {:induction false} XorBitsTwice(a: nat, b: nat, n: nat)
    requires a < Pow2(n)
    ensures XorBits(XorBits(a, b, n), b, n) == a
  {
    if n > 0 {
      XorBitsTwice(a / 2, b / 2, n - 1);
      var high, low := XorBits(a / 2, b / 2, n - 1), (a + b) % 2;
      DoubleAndBit(high, low);
      Parity(a, b, high);
      assert XorBits(a, b, n) == 2 * high + low;
      assert XorBits(2 * high + low, b, n) == 2 * XorBits(high, b / 2, n - 1) + (2 * high + low + b) % 2;
    }
  }

  lemma DoubleAndBit(high: nat, low: nat)
    requires low < 2
    ensures (2 * high + low) / 2 == high
  {
  }

  lemma Parity(a: nat, b: nat, high: nat)
    ensures (2 * high + (a + b) % 2 + b) % 2 == a % 2
  {
  }

  lemma XorTwice(a: uint32, b: uint32)
    ensures Xor(Xor(a, b), b) == a
  {
    Pow2Of32();
    XorBitsTwice(a as int, b as int, 32);
  }

  /** Exclusive or of all ones with a value is its complement. */
  lemma {:induction false} XorComplement(a: nat, n: nat)
    requires a < Pow2(n)
    ensures XorBits(Pow2(n) - 1, a, n) == Pow2(n) - 1 - a
  {
    if n > 0 {
      var ones := Pow2(n - 1) - 1;
      XorComplement(a / 2, n - 1);
      DoubleAndBit(ones, 1);
      OnesAndBit(ones, a);
      assert Pow2(n) - 1 == 2 * ones + 1;
      assert XorBits(2 * ones + 1, a, n) == 2 * XorBits(ones, a / 2, n - 1) + (2 * ones + 1 + a) % 2;
    }
  }

  lemma OnesAndBit(ones: nat, a: nat)
    ensures (2 * ones + 1 + a) % 2 == 1 - a % 2 && a == 2 * (a / 2) + a % 2
  {
  }
}
