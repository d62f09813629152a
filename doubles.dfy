/**
 * Java `double` values as far as comparisons see them: a finite value, one of
 * the two infinities, or NaN. Rounding is not modelled; finite values are reals.
 */
module Doubles {

  datatype Double = Finite(value: real) | PositiveInfinity | NegativeInfinity | NaN

  /** Java's `a < b`: false whenever either operand is NaN. */
  predicate Less(a: Double, b: Double)
  {
    match (a, b)
    case (NaN, _) => false
    case (_, NaN) => false
    case (NegativeInfinity, _) => !b.NegativeInfinity?
    case (_, PositiveInfinity) => !a.PositiveInfinity?
    case (Finite(x), Finite(y)) => x < y
    case _ => false
  }

  /** Java's `a == b` on doubles: NaN equals nothing, not even itself. */
  predicate Same(a: Double, b: Double)
  {
    !a.NaN? && a == b
  }

  /** Java's `a > b`. */
  predicate Greater(a: Double, b: Double)
  {
    Less(b, a)
  }

  /** Java's `a >= b`. */
  predicate AtLeast(a: Double, b: Double)
  {
    Less(b, a) || Same(a, b)
  }

  /** Away from NaN, exactly one of `<`, `==`, `>` holds. */
  lemma Trichotomy(a: Double, b: Double)
    requires !a.NaN? && !b.NaN?
    ensures Less(a, b) || Same(a, b) || Greater(a, b)
    ensures !(Less(a, b) && Same(a, b)) && !(Less(a, b) && Greater(a, b)) && !(Same(a, b) && Greater(a, b))
  {
  }

  /** Every comparison with NaN is false, so NaN is never accepted by a guard. */
  lemma NaNComparesFalse(a: Double)
    ensures !Less(a, NaN) && !Less(NaN, a) && !Same(a, NaN) && !AtLeast(a, NaN) && !AtLeast(NaN, a)
  {
  }

  lemma LessTransitive(a: Double, b: Double, c: Double)
    requires Less(a, b) && Less(b, c)
    ensures Less(a, c)
  {
  }

  /** `>` is `>=` minus equality; `>=` is strictly weaker. */
  lemma GreaterIsStrictAtLeast(a: Double, b: Double)
    ensures Greater(a, b) ==> AtLeast(a, b)
    ensures AtLeast(a, b) && !Same(a, b) ==> Greater(a, b)
  {
  }
}
