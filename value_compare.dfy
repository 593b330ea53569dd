/** The tolerant comparator `ValueCompare<T>` (include/fe_utils.h). For a
    floating T two values are compared up to `epsilon` times the larger of
    their magnitudes; for an integral T the comparisons are exact. */
module ValueCompares {
  import opened LinAlg

  /** The constructor's default tolerance, 1e-14. */
  const DefaultEpsilon: real := 0.00000000000001

  function Max(a: real, b: real): real
  {
    if a < b then b else a
  }

  /** `ValueCompare<double>`. The tolerance is fixed when the comparator is
      built (a const member in the source). */
  datatype ValueCompare = ValueCompare(epsilon: real)
  {
    /** The allowed difference: the larger magnitude times epsilon. */
    function Tolerance(a: real, b: real): real
    {
      (if Abs(a) < Abs(b) then Abs(b) else Abs(a)) * epsilon
    }

    predicate LessThan(a: real, b: real)
    {
      b - a > Tolerance(a, b)
    }

    predicate GreaterThan(a: real, b: real)
    {
      a - b > Tolerance(a, b)
    }

    predicate Equal(a: real, b: real)
    {
      Abs(a - b) <= Tolerance(a, b)
    }
  }

  /** `ValueCompare<double>()`. */
  function DefaultCompare(): (c: ValueCompare)
    ensures c.epsilon == 1.0 / 100000000000000.0
  {
    ValueCompare(DefaultEpsilon)
  }

  /** `ValueCompare<T>` for an integral T: `epsilon` is kept but unused. */
  datatype IntCompare = IntCompare(epsilon: int)
  {
    predicate LessThan(a: int, b: int)
    {
      a < b
    }

    predicate GreaterThan(a: int, b: int)
    {
      a > b
    }

    predicate Equal(a: int, b: int)
    {
      a == b
    }
  }

  /** `equal` accepts exactly the pairs within epsilon times the larger
      magnitude. */
  lemma EqualIsRelativeTolerance(c: ValueCompare, a: real, b: real)
    ensures c.Equal(a, b) <==> Abs(a - b) <= Max(Abs(a), Abs(b)) * c.epsilon
  {
  }

  lemma ToleranceNonNegative(c: ValueCompare, a: real, b: real)
    requires c.epsilon >= 0.0
    ensures c.Tolerance(a, b) >= 0.0
    ensures c.Tolerance(a, b) == c.Tolerance(b, a)
  {
    var m := if Abs(a) < Abs(b) then Abs(b) else Abs(a);
    assert m >= 0.0;
    assert m * c.epsilon >= 0.0;
  }

  /** With a non-negative tolerance every value equals itself. */
  lemma EqualReflexive(c: ValueCompare, a: real)
    requires c.epsilon >= 0.0
    ensures c.Equal(a, a)
  {
    ToleranceNonNegative(c, a, a);
  }

  /** `equal` does not depend on the order of its arguments. */
  lemma EqualSymmetric(c: ValueCompare, a: real, b: real)
    ensures c.Equal(a, b) <==> c.Equal(b, a)
  {
    assert c.Tolerance(a, b) == c.Tolerance(b, a);
    assert Abs(a - b) == Abs(b - a);
  }

  /** `lessThan(a, b)` and `greaterThan(b, a)` are the same test. */
  lemma LessThanIsConverseOfGreaterThan(c: ValueCompare, a: real, b: real)
    ensures c.LessThan(a, b) <==> c.GreaterThan(b, a)
  {
    assert c.Tolerance(a, b) == c.Tolerance(b, a);
  }

  /** With a non-negative tolerance exactly one of the three comparisons
      holds for any pair. */
  lemma Trichotomy(c: ValueCompare, a: real, b: real)
    requires c.epsilon >= 0.0
    ensures c.LessThan(a, b) || c.Equal(a, b) || c.GreaterThan(a, b)
    ensures !(c.LessThan(a, b) && c.Equal(a, b))
    ensures !(c.LessThan(a, b) && c.GreaterThan(a, b))
    ensures !(c.Equal(a, b) && c.GreaterThan(a, b))
  {
    ToleranceNonNegative(c, a, b);
  }

  /** With a non-negative tolerance, a tolerant `lessThan` implies the exact
      one: the driver's `lessThan(time, end)` never passes the end time. */
  lemma LessThanImpliesLess(c: ValueCompare, a: real, b: real)
    requires c.epsilon >= 0.0
    ensures c.LessThan(a, b) ==> a < b
    ensures c.GreaterThan(a, b) ==> a > b
  {
    ToleranceNonNegative(c, a, b);
  }

  /** For a tolerance below one, a value is tolerance-equal to zero only if it
      is zero: a first step of non-zero size always differs from the initial
      `dt_0 = 0`. */
  lemma {:induction false} EqualZeroIffZero(c: ValueCompare, a: real)
    requires 0.0 <= c.epsilon < 1.0
    ensures c.Equal(a, 0.0) <==> a == 0.0
  {
    if a != 0.0 {
      var m := Abs(a);
      assert m > 0.0;
      assert c.Tolerance(a, 0.0) == m * c.epsilon;
      assert m * c.epsilon < m * 1.0 by {
        assert m * (1.0 - c.epsilon) > 0.0;
      }
      assert !c.Equal(a, 0.0);
    } else {
      EqualReflexive(c, a);
    }
  }

  /** For integral T the template's exact comparisons are what the floating
      formula gives with the tolerance the default 1e-14 truncates to (zero). */
  lemma IntegralIsZeroTolerance(ic: IntCompare, a: int, b: int)
    requires ic.epsilon == 0
    ensures ic.Equal(a, b) <==> ValueCompare(ic.epsilon as real).Equal(a as real, b as real)
    ensures ic.LessThan(a, b) <==> ValueCompare(ic.epsilon as real).LessThan(a as real, b as real)
    ensures ic.GreaterThan(a, b) <==> ValueCompare(ic.epsilon as real).GreaterThan(a as real, b as real)
  {
  }
}
