/**
 * Java longs used as permission masks. A mask is the set of positions of
 * its one bits (0 is the least significant bit, 63 the sign bit), so the
 * bitwise operators become set operations; LongValue gives the signed
 * number that Java compares.
 */
module JavaLong {

  /** A bit position of a 64-bit long. */
  type Bit = i: nat | i < 64

  /** The bit pattern of a long, as the set of positions of its one bits. */
  type Mask = set<Bit>

  const SIGN_BIT: Bit := 63

  /** The pattern with every bit set, the long -1. */
  const ALL_BITS: Mask := set i: nat | i < 64

  /** Java's `~m`. */
  function Not(m: Mask): (r: Mask)
    ensures forall b: Bit :: b in r <==> b !in m
  {
    ALL_BITS - m
  }

  function Pow2(n: nat): (p: int)
    ensures p >= 1
  {
    if n == 0 then 1 else 2 * Pow2(n - 1)
  }

  /** The unsigned value of the bits of m below position n. */
  function LowValue(m: Mask, n: nat): (v: int)
    requires n <= 64
  {
    if n == 0 then 0 else LowValue(m, n - 1) + (if (n - 1) as Bit in m then Pow2(n - 1) else 0)
  }

  /** The bits below n are worth less than bit n alone. */
  lemma {:induction false} LowValueBounds(m: Mask, n: nat)
    requires n <= 64
    ensures 0 <= LowValue(m, n) < Pow2(n)
  {
    if n > 0 {
      LowValueBounds(m, n - 1);
    }
  }

  /** No bit set below n means value 0. */
  lemma {:induction false} LowValueOfEmpty(n: nat)
    requires n <= 64
    ensures LowValue({}, n) == 0
  {
    if n > 0 {
      LowValueOfEmpty(n - 1);
    }
  }

  /**
   * The value of the long with bit pattern m (two's complement): the sign
   * bit counts -2^63, every other bit its usual power of two.
   */
  function LongValue(m: Mask): (v: int)
    ensures -Pow2(63) <= v < Pow2(63)
    ensures v < 0 <==> SIGN_BIT in m
  {
    LowValueBounds(m, 63);
    LowValue(m, 63) - (if SIGN_BIT in m then Pow2(63) else 0)
  }

  /** The long 0 is the empty pattern. */
  lemma ZeroValue()
    ensures LongValue({}) == 0
  {
    LowValueOfEmpty(63);
  }
}
