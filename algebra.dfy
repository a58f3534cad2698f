/** Algebraic facts about the arithmetic operators of the Complex class, over
    exact real numbers: what each operator computes, the order of the
    reversed operators, and the inverse pairs (negation, division). */
module ComplexAlgebra {
  import opened PyErrors
  import opened ComplexClass

  const Zero := Complex(0.0, 0.0)
  const One := Complex(1.0, 0.0)
  const I := Complex(0.0, 1.0)

  // ---------------------------------------------------------------- addition

  /** Addition commutes: z + w == w + z. */
  lemma AddCommutes(z: Complex, w: Complex)
    ensures Add(z, HasParts(w)) == Add(w, HasParts(z))
  {
  }

  /** `x + z` for a bare number x is answered by `z.__radd__(x)`, and equals
      Complex(x) + z. */
  lemma RAddIsReversedAdd(z: Complex, x: real)
    ensures RAdd(z, Num(x)) == Add(Make(x), HasParts(z))
  {
  }

  /** Addition is associative. */
  lemma AddAssociative(x: Complex, y: Complex, z: Complex)
    ensures Add(Add(x, HasParts(y)).value, HasParts(z)) == Add(x, HasParts(Add(y, HasParts(z)).value))
  {
  }

  /** A bare number adds as the same number with imaginary part 0. */
  lemma AddNumberIsAddComplex(z: Complex, x: real)
    ensures Add(z, Num(x)) == Add(z, HasParts(Make(x)))
    ensures Sub(z, Num(x)) == Sub(z, HasParts(Make(x)))
  {
  }

  // ------------------------------------------------------------- subtraction

  /** Subtraction is addition of the negation. */
  lemma SubIsAddNeg(z: Complex, w: Complex)
    ensures Sub(z, HasParts(w)) == Add(z, HasParts(Neg(w)))
  {
  }

  /** Subtraction undoes addition. */
  lemma SubUndoesAdd(z: Complex, w: Complex)
    ensures Sub(Add(z, HasParts(w)).value, HasParts(w)) == Ok(z)
  {
  }

  /** `x - z` for a bare number x is Complex(x) - z, the negation of z - x,
      and therefore differs from z - x unless z is Complex(x). */
  lemma RSubOrder(z: Complex, x: real)
    ensures RSub(z, Num(x)) == Sub(Make(x), HasParts(z))
    ensures RSub(z, Num(x)) == Ok(Neg(Sub(z, Num(x)).value))
    ensures RSub(z, Num(x)) == Sub(z, Num(x)) <==> z == Make(x)
  {
  }

  /** The reversed subtraction on the values `1 - Complex(1, 2)` and
      `1 - Complex(0, 1)`. */
  lemma RSubExamples()
    ensures RSub(Complex(1.0, 2.0), Num(1.0)) == Ok(Complex(0.0, -2.0))
    ensures RSub(Complex(0.0, 1.0), Num(1.0)) == Ok(Complex(1.0, -1.0))
  {
  }

  // ---------------------------------------------------------------- negation

  /** Negating twice gives the value back. */
  lemma NegInvolution(z: Complex)
    ensures Neg(Neg(z)) == z
  {
  }

  /** The value `-Complex(2, -3)`. */
  lemma NegExample()
    ensures Neg(Complex(2.0, -3.0)) == Complex(-2.0, 3.0)
  {
  }

  // ---------------------------------------------------------- multiplication

  /** `__mul__` on an operand with parts w computes the textbook product. */
  lemma MulParts(z: Complex, w: Complex)
    ensures Mul(z, HasParts(w)) == Ok(Product(z, w))
    ensures Product(z, w) == Complex(z.re * w.re - z.im * w.im, z.im * w.re + z.re * w.im)
  {
  }

  /** Multiplication commutes. */
  lemma MulCommutes(z: Complex, w: Complex)
    ensures Mul(z, HasParts(w)) == Mul(w, HasParts(z))
  {
    MulParts(z, w);
    MulParts(w, z);
    assert z.re * w.re - z.im * w.im == w.re * z.re - w.im * z.im;
    assert z.im * w.re + z.re * w.im == w.im * z.re + w.re * z.im;
  }

  /** Multiplying by the bare number x scales both parts by x. */
  lemma MulByNumber(z: Complex, x: real)
    ensures Mul(z, Num(x)) == Ok(Complex(x * z.re, x * z.im))
  {
    var w := Complex(x, 0.0);
    assert Mul(z, Num(x)) == Mul(z, HasParts(w));
    MulParts(z, w);
    assert Product(z, w) == Complex(z.re * x - z.im * 0.0, z.im * x + z.re * 0.0);
    ScaleParts(z.re, z.im, x);
  }

  /** (a + bi)(x + 0i) == xa + xbi, part by part. */
  lemma ScaleParts(a: real, b: real, x: real)
    ensures a * x - b * 0.0 == x * a
    ensures b * x + a * 0.0 == x * b
  {
  }

  /** Complex(1, 0) is the unit of multiplication, and i * i == -1. */
  lemma MulUnit(z: Complex)
    ensures Mul(z, HasParts(One)) == Ok(z)
    ensures Mul(One, HasParts(z)) == Ok(z)
    ensures Mul(I, HasParts(I)) == Ok(Complex(-1.0, 0.0))
  {
    MulParts(z, One);
    MulParts(One, z);
    MulParts(I, I);
  }

  /** The value `Complex(1, 2) * Complex(1, 2)`. */
  lemma MulExample()
    ensures Mul(Complex(1.0, 2.0), HasParts(Complex(1.0, 2.0))) == Ok(Complex(-3.0, 4.0))
  {
    MulParts(Complex(1.0, 2.0), Complex(1.0, 2.0));
  }

  /** Multiplication is associative. */
  lemma MulAssociative(x: Complex, y: Complex, z: Complex)
    ensures Mul(Mul(x, HasParts(y)).value, HasParts(z)) == Mul(x, HasParts(Mul(y, HasParts(z)).value))
  {
    var p, q := Product(x, y), Product(y, z);
    MulParts(x, y);
    MulParts(y, z);
    MulParts(p, z);
    MulParts(x, q);
    ProductAssociates(x.re, x.im, y.re, y.im, z.re, z.im);
    assert Product(p, z) == Product(x, q);
  }

  /** The two ways of bracketing (a + bi)(c + di)(e + fi) agree, part by part. */
  lemma ProductAssociates(a: real, b: real, c: real, d: real, e: real, f: real)
    ensures (a * c - b * d) * e - (b * c + a * d) * f == a * (c * e - d * f) - b * (d * e + c * f)
    ensures (b * c + a * d) * e + (a * c - b * d) * f == b * (c * e - d * f) + a * (d * e + c * f)
  {
  }

  /** Multiplication distributes over addition. */
  lemma MulDistributes(x: Complex, y: Complex, z: Complex)
    ensures Mul(x, HasParts(Add(y, HasParts(z)).value))
         == Add(Mul(x, HasParts(y)).value, HasParts(Mul(x, HasParts(z)).value))
  {
    var s := Add(y, HasParts(z)).value;
    assert s == Complex(y.re + z.re, y.im + z.im);
    MulParts(x, s);
    var p, q := Product(x, y), Product(x, z);
    MulParts(x, y);
    MulParts(x, z);
    assert p == Complex(x.re * y.re - x.im * y.im, x.im * y.re + x.re * y.im);
    assert q == Complex(x.re * z.re - x.im * z.im, x.im * z.re + x.re * z.im);
    assert Add(p, HasParts(q)) == Ok(Complex(p.re + q.re, p.im + q.im));
    ProductDistributes(x.re, x.im, y.re, y.im, z.re, z.im, s.re, s.im);
    assert Product(x, s).re == p.re + q.re;
    assert Product(x, s).im == p.im + q.im;
    assert Mul(x, HasParts(s)) == Ok(Product(x, s));
  }

  /** (a + bi)(g + hi) == (a + bi)(c + di) + (a + bi)(e + fi) when
      g + hi == (c + e) + (d + f)i, part by part. */
  lemma ProductDistributes(a: real, b: real, c: real, d: real, e: real, f: real, g: real, h: real)
    requires g == c + e && h == d + f
    ensures a * g - b * h == (a * c - b * d) + (a * e - b * f)
    ensures b * g + a * h == (b * c + a * d) + (b * e + a * f)
  {
  }

  /** (ac - bd)**2 + (bc + ad)**2 == (a**2 + b**2)(c**2 + d**2), with each
      side named: g + hi is the product, m, n and k the squared magnitudes. */
  lemma ProductOfSumsOfSquares(a: real, b: real, c: real, d: real, g: real, h: real, m: real, n: real, k: real)
    requires g == a * c - b * d && h == b * c + a * d
    requires m == a * a + b * b && n == c * c + d * d && k == g * g + h * h
    ensures k == m * n
  {
  }

  /** The squared magnitude of a product is the product of the squared
      magnitudes. */
  lemma SquaredAbsOfProduct(z: Complex, w: Complex)
    ensures SquaredAbs(Product(z, w)) == SquaredAbs(z) * SquaredAbs(w)
  {
    var p := Product(z, w);
    assert p.re == z.re * w.re - z.im * w.im;
    assert p.im == z.im * w.re + z.re * w.im;
    ProductOfSumsOfSquares(z.re, z.im, w.re, w.im, p.re, p.im, SquaredAbs(z), SquaredAbs(w), SquaredAbs(p));
  }

  /** A product of two reals is zero only when a factor is. */
  lemma ZeroFactor(m: real, n: real)
    requires m * n == 0.0
    ensures m == 0.0 || n == 0.0
  {
    if n != 0.0 {
      CancelFactor(m, n);
    }
  }

  /** (a * r) / r == a for every non-zero r. */
  lemma CancelFactor(a: real, r: real)
    requires r != 0.0
    ensures (a * r) / r == a
  {
  }

  /** A product is zero exactly when a factor is. */
  lemma NoZeroDivisors(z: Complex, w: Complex)
    ensures Product(z, w) == Zero <==> z == Zero || w == Zero
  {
    if Product(z, w) == Zero {
      ZeroProductHasZeroFactor(z, w);
    } else if z == Zero {
      ZeroTimes(w.re, w.im);
    } else if w == Zero {
      TimesZero(z.re, z.im);
    }
  }

  /** A zero product has a zero factor. */
  lemma ZeroProductHasZeroFactor(z: Complex, w: Complex)
    requires Product(z, w) == Zero
    ensures z == Zero || w == Zero
  {
    ZeroProductEquations(z, w);
    ZeroProductParts(z.re, z.im, w.re, w.im);
    ZeroParts(z, w);
  }

  /** A zero product gives the two part equations ac - bd == 0 and bc + ad == 0. */
  lemma ZeroProductEquations(z: Complex, w: Complex)
    requires Product(z, w) == Zero
    ensures z.re * w.re - z.im * w.im == 0.0 && z.im * w.re + z.re * w.im == 0.0
  {
    var p := Product(z, w);
    assert p.re == z.re * w.re - z.im * w.im;
    assert p.im == z.im * w.re + z.re * w.im;
  }

  /** A value whose two parts are zero is Zero. */
  lemma ZeroParts(z: Complex, w: Complex)
    requires (z.re == 0.0 && z.im == 0.0) || (w.re == 0.0 && w.im == 0.0)
    ensures z == Zero || w == Zero
  {
  }

  /** (ac - bd) + (bc + ad)i == 0 only when a == b == 0 or c == d == 0. */
  lemma ZeroProductParts(a: real, b: real, c: real, d: real)
    requires a * c - b * d == 0.0 && b * c + a * d == 0.0
    ensures (a == 0.0 && b == 0.0) || (c == 0.0 && d == 0.0)
  {
    var m, n := a * a + b * b, c * c + d * d;
    ProductOfSumsOfSquares(a, b, c, d, 0.0, 0.0, m, n, 0.0);
    ZeroFactor(m, n);
    SumOfSquares(a, b);
    SumOfSquares(c, d);
  }

  /** (0 + 0i)(c + di) == 0, part by part. */
  lemma ZeroTimes(c: real, d: real)
    ensures 0.0 * c - 0.0 * d == 0.0 && 0.0 * c + 0.0 * d == 0.0
  {
  }

  /** (a + bi)(0 + 0i) == 0, part by part. */
  lemma TimesZero(a: real, b: real)
    ensures a * 0.0 - b * 0.0 == 0.0 && b * 0.0 + a * 0.0 == 0.0
  {
  }

  // ---------------------------------------------------------------- division

  /** `__div__` on a non-zero operand with parts w computes the textbook
      quotient, dividing by the squared magnitude of w. */
  lemma DivParts(z: Complex, w: Complex)
    requires w != Zero
    ensures Div(z, HasParts(w)) == Ok(Quotient(z, w))
    ensures SquaredAbs(w) == w.re * w.re + w.im * w.im
    ensures SquaredAbs(w) != 0.0
    ensures Quotient(z, w) == Complex(
      (z.re * w.re + z.im * w.im) / SquaredAbs(w),
      (z.im * w.re - z.re * w.im) / SquaredAbs(w))
  {
    SquaredAbsSign(w);
  }

  /** Dividing by a non-zero bare number divides both parts by it. */
  lemma DivByNumber(z: Complex, x: real)
    requires x != 0.0
    ensures Div(z, Num(x)) == Ok(Complex(z.re / x, z.im / x))
  {
    var w := Complex(x, 0.0);
    assert Div(z, Num(x)) == Div(z, HasParts(w));
    DivParts(z, w);
    var q := Quotient(z, w);
    DivideParts(z.re, z.im, w.re, w.im, x, SquaredAbs(w), q.re, q.im);
  }

  /** (a + bi) / (c + di) == a/x + (b/x)i when c + di == x + 0i, part by
      part: r is the squared magnitude of the divisor and u + vi the
      textbook quotient. */
  lemma DivideParts(a: real, b: real, c: real, d: real, x: real, r: real, u: real, v: real)
    requires x != 0.0 && c == x && d == 0.0
    requires r == c * c + d * d
    requires r != 0.0
    requires u == (a * c + b * d) / r && v == (b * c - a * d) / r
    ensures u == a / x && v == b / x
  {
    assert a * c + b * d == a * x;
    assert b * c - a * d == b * x;
    DivideByScaled(a, x, r);
    DivideByScaled(b, x, r);
  }

  /** (ax) / (x**2) == a / x. */
  lemma DivideByScaled(a: real, x: real, r: real)
    requires x != 0.0
    requires r == x * x + 0.0 * 0.0
    requires r != 0.0
    ensures (a * x) / r == a / x
  {
    assert a == (a / x) * x;
    assert a * x == (a / x) * r;
    CancelFactor(a / x, r);
  }

  /** Multiplying the textbook quotient back by the divisor: for
      r = c**2 + d**2 non-zero, ((ac + bd)/r + ((bc - ad)/r)i)(c + di) == a + bi. */
  lemma QuotientTimesDivisor(a: real, b: real, c: real, d: real, r: real, u: real, v: real)
    requires r == c * c + d * d
    requires r != 0.0
    requires u == (a * c + b * d) / r && v == (b * c - a * d) / r
    ensures u * c - v * d == a
    ensures v * c + u * d == b
  {
    DivScale(a * c + b * d, b * c - a * d, c, d, r);
    DivSum(b * c - a * d, a * c + b * d, c, d, r);
    assert (a * c + b * d) * c - (b * c - a * d) * d == a * r;
    assert (b * c - a * d) * c + (a * c + b * d) * d == b * r;
    CancelFactor(a, r);
    CancelFactor(b, r);
  }

  /** (x/r)c - (y/r)d == (xc - yd)/r for every non-zero r. */
  lemma DivScale(x: real, y: real, c: real, d: real, r: real)
    requires r != 0.0
    ensures (x / r) * c - (y / r) * d == (x * c - y * d) / r
  {
  }

  /** (x/r)c + (y/r)d == (xc + yd)/r for every non-zero r. */
  lemma DivSum(x: real, y: real, c: real, d: real, r: real)
    requires r != 0.0
    ensures (x / r) * c + (y / r) * d == (x * c + y * d) / r
  {
  }

  /** (x / y) * y == x for every non-zero y. */
  lemma DivThenMul(x: Complex, y: Complex)
    requires y != Zero
    ensures Div(x, HasParts(y)).Ok?
    ensures Mul(Div(x, HasParts(y)).value, HasParts(y)) == Ok(x)
  {
    DivParts(x, y);
    var q := Quotient(x, y);
    MulParts(q, y);
    QuotientTimesDivisor(x.re, x.im, y.re, y.im, SquaredAbs(y), q.re, q.im);
    assert Product(q, y).re == x.re && Product(q, y).im == x.im;
  }

  /** Dividing the textbook product by a factor: for r = c**2 + d**2
      non-zero, ((ac - bd)c + (bc + ad)d)/r == a and ((bc + ad)c - (ac - bd)d)/r == b. */
  lemma ProductOverDivisor(a: real, b: real, c: real, d: real, r: real, g: real, h: real)
    requires r == c * c + d * d
    requires r != 0.0
    requires g == a * c - b * d && h == b * c + a * d
    ensures (g * c + h * d) / r == a
    ensures (h * c - g * d) / r == b
  {
    assert (a * c - b * d) * c + (b * c + a * d) * d == a * r;
    assert (b * c + a * d) * c - (a * c - b * d) * d == b * r;
    CancelFactor(a, r);
    CancelFactor(b, r);
  }

  /** (x * y) / y == x for every non-zero y. */
  lemma MulThenDiv(x: Complex, y: Complex)
    requires y != Zero
    ensures Mul(x, HasParts(y)).Ok?
    ensures Div(Mul(x, HasParts(y)).value, HasParts(y)) == Ok(x)
  {
    var p := Product(x, y);
    MulParts(x, y);
    DivParts(p, y);
    ProductOverDivisor(x.re, x.im, y.re, y.im, SquaredAbs(y), p.re, p.im);
    assert Quotient(p, y).re == x.re && Quotient(p, y).im == x.im;
  }

  /** Dividing a non-zero value by itself gives Complex(1, 0). */
  lemma DivBySelf(y: Complex)
    requires y != Zero
    ensures Div(y, HasParts(y)) == Ok(One)
  {
    DivParts(y, y);
    SelfOverSelf(y.re, y.im, SquaredAbs(y));
  }

  /** (cc + dd)/r == 1 and (dc - cd)/r == 0 for r = c**2 + d**2 non-zero. */
  lemma SelfOverSelf(c: real, d: real, r: real)
    requires r == c * c + d * d
    requires r != 0.0
    ensures (c * c + d * d) / r == 1.0
    ensures (d * c - c * d) / r == 0.0
  {
    assert d * c - c * d == 0.0;
  }

  // --------------------------------------------------------------- coercion

  /** A bare number x behaves as Complex(x): the embedding of the reals
      commutes with every arithmetic operator. */
  lemma MakeIsEmbedding(x: real, y: real)
    ensures Add(Make(x), Num(y)) == Ok(Make(x + y))
    ensures Sub(Make(x), Num(y)) == Ok(Make(x - y))
    ensures Mul(Make(x), Num(y)) == Ok(Make(x * y))
    ensures y != 0.0 ==> Div(Make(x), Num(y)) == Ok(Make(x / y))
    ensures Neg(Make(x)) == Make(-x)
    ensures Make(x) == Make(y) <==> x == y
  {
    var m := Make(x);
    MulByNumber(m, y);
    ScaleNumber(x, y, m.re, m.im);
    assert Complex(y * m.re, y * m.im) == Make(x * y);
    if y != 0.0 {
      DivByNumber(m, y);
      assert m.im / y == 0.0;
    }
  }

  /** (u + vi) * y == xy + 0i when u + vi == x + 0i. */
  lemma ScaleNumber(x: real, y: real, u: real, v: real)
    requires u == x && v == 0.0
    ensures y * u == x * y && y * v == 0.0
  {
  }
}
