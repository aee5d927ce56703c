/**
 The bloom index's own pseudo-random generator: the minimal-standard
 generator of Park and Miller, evaluated with Schrage's decomposition so
 that no intermediate leaves the signed 32-bit range.
 */
module BloomRandom {
  import opened CArithmetic

  const MODULUS := 0x7fff_ffff
  const MULTIPLIER := 16807

  /** The mathematical generator: multiplication modulo 2^31 - 1. */
  function Successor(x: int): (y: int)
    ensures 0 <= y < MODULUS
  {
    MULTIPLIER * x % MODULUS
  }

  /** The state that seeding leaves, for every 32-bit seed. */
  function SeedState(seed: uint32): (s: int)
    ensures -MODULUS < s < MODULUS
  {
    Rem(ToSigned(seed) as int, MODULUS - 1) + 1
  }

  /** The state in which the generator is the one Park and Miller describe. */
  predicate Proper(x: int) {
    1 <= x < MODULUS
  }

  class Generator {
    var next: int32

    constructor ()
      ensures next == 0
    {
      next := 0;
    }

    /** One draw.  Every operation below is checked to stay within int32. */
    method Rand() returns (r: int32)
      modifies this
      ensures next as int == Successor(old(next) as int)
      ensures r as int == next as int - 1
    {
      var hi := Quot(next as int, 127773) as int32;
      var lo := Rem(next as int, 127773) as int32;
      SchrageBounds(next, hi, lo);
      var x: int32 := 16807 * lo - 2836 * hi;
      SchrageExact(next as int, hi as int, lo as int);
      if x < 0 {
        x := x + 0x7fff_ffff;
      }
      next := x;
      return x - 1;
    }

    method Srand(seed: uint32)
      modifies this
      ensures next as int == SeedState(seed)
    {
      next := ToSigned(seed);
      next := (Rem(next as int, 0x7fff_fffe) + 1) as int32;
    }
  }

  lemma SchrageBounds(next: int32, hi: int32, lo: int32)
    requires hi as int == Quot(next as int, 127773)
    requires lo as int == Rem(next as int, 127773)
    ensures 0 <= next ==> 0 <= hi <= 16807 && 0 <= lo <= 127772
    ensures next < 0 ==> -16807 <= hi <= 0 && -127772 <= lo <= 0
  {
  }

  /** Schrage's identity: the reduced form is congruent to the product. */
  lemma SchrageExact(next: int, hi: int, lo: int)
    requires next == hi * 127773 + lo
    requires -16807 <= hi <= 16807
    ensures var x := 16807 * lo - 2836 * hi;
            -MODULUS < x < MODULUS ==>
              Successor(next) == if x < 0 then x + MODULUS else x
  {
    var x := 16807 * lo - 2836 * hi;
    assert MULTIPLIER * next == hi * MODULUS + x;
    if -MODULUS < x < MODULUS {
      var y := if x < 0 then x + MODULUS else x;
      var k := if x < 0 then hi - 1 else hi;
      assert MULTIPLIER * next == k * MODULUS + y;
      QuotientUnique(MULTIPLIER * next, MODULUS, k, y);
    }
  }

  lemma QuotientUnique(n: int, d: int, k: int, y: int)
    requires 0 < d && 0 <= y < d
    requires n == k * d + y
    ensures n % d == y
  {
    var q := n / d;
    assert n == q * d + n % d;
    assert (q - k) * d == y - n % d;
    assert q - k >= 1 ==> (q - k) * d >= d;
    assert q - k <= -1 ==> (q - k) * d <= -d;
  }

  /** The multiplier is invertible: 16807 * 1407677000 == 1 modulo 2^31 - 1. */
  lemma SuccessorZero(x: int)
    ensures Successor(x) == 0 <==> x % MODULUS == 0
  {
    var q := MULTIPLIER * x / MODULUS;
    if Successor(x) == 0 {
      assert MULTIPLIER * x == q * MODULUS;
      assert x == (1407677000 * q - 11017 * x) * MODULUS;
      QuotientUnique(x, MODULUS, 1407677000 * q - 11017 * x, 0);
    } else if x % MODULUS == 0 {
      var k := x / MODULUS;
      assert MULTIPLIER * x == (MULTIPLIER * k) * MODULUS;
      QuotientUnique(MULTIPLIER * x, MODULUS, MULTIPLIER * k, 0);
    }
  }

  /** From a proper state every later state is proper. */
  lemma ProperForever(x: int)
    requires Proper(x)
    ensures Proper(Successor(x))
  {
    SuccessorZero(x);
  }

  /** The seeds whose generator is stuck: the signed remainder is -1. */
  predicate DegenerateSeed(seed: uint32) {
    seed == 0xFFFF_FFFF || seed == 0x8000_0001
  }

  /**
   The first draw after seeding enters the proper range for every 32-bit seed
   but two, and for those two the state is zero.  The comment at the draw asks
   for a proper state before it; half of all seeds do not give one.
   */
  lemma FirstDrawProper(seed: uint32)
    ensures Proper(Successor(SeedState(seed))) <==> !DegenerateSeed(seed)
    ensures DegenerateSeed(seed) ==> SeedState(seed) == 0
  {
    SuccessorZero(SeedState(seed));
    var s := ToSigned(seed) as int;
    if s >= 0 {
    } else {
      assert Rem(s, MODULUS - 1) == -((-s) % (MODULUS - 1));
      assert SeedState(seed) == 0 <==> (-s) % (MODULUS - 1) == 1;
      assert 0 < -s <= MODULUS + 1;
    }
  }
}
