/** Java's 64-bit `long` arithmetic: results are the exact integer result reduced into the
    two's-complement range, so an overflowing sum or product wraps around silently. */
module JavaLong {

  const Min: int := -0x8000_0000_0000_0000
  const Max: int := 0x7fff_ffff_ffff_ffff
  const Modulus: int := 0x1_0000_0000_0000_0000

  predicate InRange(x: int) {
    Min <= x <= Max
  }

  /** The values a Java `long` can hold. */
  type Long = x: int | InRange(x)

  /** The `long` that Java's arithmetic yields for the exact result `x`. */
  function Wrap(x: int): (r: Long)
    ensures (x - r) % Modulus == 0
    ensures InRange(x) ==> r == x
  {
    (x - Min) % Modulus + Min
  }

  /** Java's `a + b` on `long`. */
  function Plus(a: Long, b: Long): Long {
    Wrap(a + b)
  }

  /** Java's `a * b` on `long`. */
  function Times(a: Long, b: Long): Long {
    Wrap(a * b)
  }

  /** Two `long` values a whole number of 2^64 apart are the same value. */
  lemma LongsApartByMultiple(a: Long, b: Long, k: int)
    requires a - b == Modulus * k
    ensures a == b
  {
    assert InRange(a) && InRange(b);
  }

  /** Wrapping subtracts a whole number of 2^64. */
  lemma WrapSubtractsMultiple(x: int)
    ensures Wrap(x) == x - Modulus * ((x - Min) / Modulus)
  {
  }

  /** Wrapping an intermediate result does not change the wrapped final sum, so a chain of
      `long` additions equals the exact sum wrapped once. */
  lemma WrapInnerSum(x: int, y: int)
    ensures Wrap(x + Wrap(y)) == Wrap(x + y)
  {
    WrapSubtractsMultiple(y);
    WrapSubtractsMultiple(x + Wrap(y));
    WrapSubtractsMultiple(x + y);
    var qy := (y - Min) / Modulus;
    var qa := (x + Wrap(y) - Min) / Modulus;
    var qb := (x + y - Min) / Modulus;
    assert Wrap(x + Wrap(y)) - Wrap(x + y) == Modulus * (qb - qy - qa);
    LongsApartByMultiple(Wrap(x + Wrap(y)), Wrap(x + y), qb - qy - qa);
  }
}
