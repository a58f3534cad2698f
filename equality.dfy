/** Facts about the tolerant equality of the Complex class: `==` compares the
    parts up to a tolerance, so it is reflexive and symmetric but not
    transitive, and `!=` is its negation. */
module ComplexEquality {
  import opened PyErrors
  import opened ComplexClass

  /** Within any positive tolerance, every value equals itself. */
  lemma EqReflexive(z: Complex, eps: real)
    requires eps > 0.0
    ensures Eq(z, HasParts(z), eps) == Ok(true)
  {
  }

  /** Swapping the operands does not change the answer. */
  lemma EqSymmetric(z: Complex, w: Complex, eps: real)
    ensures Eq(z, HasParts(w), eps) == Eq(w, HasParts(z), eps)
  {
  }

  /** A bare number compares as the same number with imaginary part 0. */
  lemma EqNumberIsEqComplex(z: Complex, x: real, eps: real)
    ensures Eq(z, Num(x), eps) == Eq(z, HasParts(Make(x)), eps)
  {
  }

  /** `!=` answers the opposite of `==` at the default tolerance, and fails
      with the same exception when `==` does. */
  lemma NeIsNotEq(z: Complex, other: Operand)
    ensures Eq(z, other).Ok? <==> Ne(z, other).Ok?
    ensures Eq(z, other).Ok? ==> Ne(z, other).value == !Eq(z, other).value
    ensures Eq(z, other).Err? ==> Ne(z, other) == Eq(z, other)
  {
  }

  /** The tolerance makes `==` intransitive: with tolerance 1, 0 is equal to
      0.6 and 0.6 to 1.2, but 0 is not equal to 1.2. */
  lemma EqNotTransitive()
    ensures Eq(Make(0.0), HasParts(Make(0.6)), 1.0) == Ok(true)
    ensures Eq(Make(0.6), HasParts(Make(1.2)), 1.0) == Ok(true)
    ensures Eq(Make(0.0), HasParts(Make(1.2)), 1.0) == Ok(false)
  {
  }

  /** The default tolerance 1E-14 in action: 1 equals 1 + 5E-15 but not
      1 + 1E-13. */
  lemma DefaultEpsExamples()
    ensures Eq(Make(1.0), Num(1.000000000000005)) == Ok(true)
    ensures Eq(Make(1.0), Num(1.0000000000001)) == Ok(false)
    ensures Ne(Make(1.0), Num(1.0000000000001)) == Ok(true)
  {
  }

  /** Two values are equal within every positive tolerance exactly when
      they are the same value. */
  lemma EqEveryEpsIsIdentity(z: Complex, w: Complex)
    ensures (forall eps: real :: eps > 0.0 ==> Eq(z, HasParts(w), eps) == Ok(true)) <==> z == w
  {
    if z != w {
      var eps := if Abs(z.re - w.re) >= Abs(z.im - w.im) then Abs(z.re - w.re) else Abs(z.im - w.im);
      assert eps > 0.0;
      assert Eq(z, HasParts(w), eps) != Ok(true);
    }
  }

  /** Widening the tolerance keeps equal values equal. */
  lemma EqMonotone(z: Complex, w: Complex, eps: real, eps2: real)
    requires eps <= eps2
    requires Eq(z, HasParts(w), eps) == Ok(true)
    ensures Eq(z, HasParts(w), eps2) == Ok(true)
  {
  }

  /** The short-circuit of `and` in `__eq__`: against an object with
      `real` 5 and no `imag`, Complex(0, 0) compares unequal without looking
      up `imag`, while an object with `real` 0 and no `imag` makes the lookup
      happen and fail. */
  lemma EqShortCircuits()
    ensures Eq(Make(0.0), RealOnly(5.0)) == Ok(false)
    ensures Ne(Make(0.0), RealOnly(5.0)) == Ok(true)
    ensures Eq(Make(0.0), RealOnly(0.0)) == Err(AttributeError)
    ensures Ne(Make(0.0), RealOnly(0.0)) == Err(AttributeError)
  {
  }
}
