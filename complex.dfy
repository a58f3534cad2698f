/** The Complex value type: a pair (real, imag) and the operators of its class.
    Every operator builds a new value from the parts of its operands and never
    changes the receiver, so each one is a function of its operands. Python's
    exceptions become `Err` results. Floating-point numbers are modelled as
    exact reals. */
module ComplexClass {
  import opened PyErrors

  /** A complex number with real part `re` and imaginary part `im`. */
  datatype Complex = Complex(re: real, im: real)

  /** The tolerance `__eq__` uses when the caller gives none (1E-14). */
  const DefaultEps: real := 0.00000000000001

  /** The right-hand operand of an operator, as Python sees it:
      a bare int or float, any object exposing numeric `real` and `imag`
      attributes (a Complex, Python's own complex, ...), an object exposing a
      numeric `real` but no `imag`, or anything else. An object with `imag`
      but no `real` is `Other`: `__mul__`, `__div__` and `__eq__` look up
      `real` first, `__add__` and `__sub__` need both attributes, and
      `__rsub__` looks up the object's own `__sub__`, which `Other` is taken
      not to have. */
  datatype Operand = Num(n: real) | HasParts(z: Complex) | RealOnly(part: real) | Other {

    /** The operand has both a `real` and an `imag` attribute (a bare
        number has them too). */
    predicate HasBoth() {
      Num? || HasParts?
    }

    /** The operand's (real, imag) parts, or `err` when `real` or `imag` is
        missing. A
        bare number either goes through `Complex(other)` (imag 0.0) or
        answers `other.real`/`other.imag` itself (imag 0): both give (n, 0). */
    function Parts(err: Error): (r: Result<Complex>)
      ensures r.Ok? <==> HasBoth()
      ensures r.Err? ==> r.error == err
      ensures Num? ==> r == Ok(Complex(n, 0.0))
      ensures HasParts? ==> r == Ok(z)
    {
      match this
      case Num(n) => Ok(Make(n))
      case HasParts(z) => Ok(z)
      case _ => Err(err)
    }

    /** The lookup `other.real`: AttributeError for `Other` (an object with
        only `imag` is `Other`, and no operator reaches its `imag`). */
    function RealPart(): (r: Result<real>)
      ensures r.Err? <==> Other?
      ensures r.Err? ==> r.error == AttributeError
      ensures HasBoth() ==> r == Ok(Parts(AttributeError).value.re)
      ensures RealOnly? ==> r == Ok(part)
    {
      match this
      case Num(n) => Ok(n)
      case HasParts(z) => Ok(z.re)
      case RealOnly(x) => Ok(x)
      case Other => Err(AttributeError)
    }

    /** The lookup `other.imag`: AttributeError for `RealOnly` and `Other`
        (an object with only `imag` is `Other`, and no operator reaches its
        `imag`, because `real` is looked up first). */
    function ImagPart(): (r: Result<real>)
      ensures r.Err? <==> !HasBoth()
      ensures r.Err? ==> r.error == AttributeError
      ensures HasBoth() ==> r == Ok(Parts(AttributeError).value.im)
    {
      match this
      case Num(_) => Ok(0.0)
      case HasParts(z) => Ok(z.im)
      case _ => Err(AttributeError)
    }
  }

  /** The constructor `Complex(real, imag=0.0)`. */
  function Make(re: real, im: real := 0.0): Complex {
    Complex(re, im)
  }

  /** Python's built-in `abs` on a real number. */
  function Abs(x: real): (r: real)
    ensures r >= 0.0
    ensures r == x || r == -x
  {
    if x < 0.0 then -x else x
  }

  /** The squared magnitude real**2 + imag**2: what `__abs__` takes the square
      root of and what `__div__` divides by. */
  function SquaredAbs(z: Complex): real {
    z.re * z.re + z.im * z.im
  }

  /** The squared magnitude is never negative and vanishes exactly at zero. */
  lemma SquaredAbsSign(z: Complex)
    ensures SquaredAbs(z) >= 0.0
    ensures SquaredAbs(z) == 0.0 <==> z == Complex(0.0, 0.0)
  {
    SumOfSquares(z.re, z.im);
  }

  /** A sum of two squares is never negative and is zero only at (0, 0). */
  lemma SumOfSquares(a: real, b: real)
    ensures a * a + b * b >= 0.0
    ensures a * a + b * b == 0.0 ==> a == 0.0 && b == 0.0
  {
    if a * a + b * b == 0.0 {
      assert a * a >= 0.0 && b * b >= 0.0;
      SquareZero(a);
      SquareZero(b);
    }
  }

  /** Only zero squares to zero. */
  lemma SquareZero(x: real)
    requires x * x == 0.0
    ensures x == 0.0
  {
    if x != 0.0 {
      Cancel(x);
    }
  }

  /** Dividing x * x by a non-zero x gives x back. */
  lemma Cancel(x: real)
    requires x != 0.0
    ensures (x * x) / x == x
  {
  }

  /** `self + other` (`__add__`). */
  function Add(self: Complex, other: Operand): (r: Result<Complex>)
    ensures r.Err? <==> !other.HasBoth()
    ensures r.Err? ==> r.error == TypeError
    ensures other.Num? ==> r == Ok(Complex(self.re + other.n, self.im))
    ensures other.HasParts? ==> r == Ok(Complex(self.re + other.z.re, self.im + other.z.im))
  {
    var o :- other.Parts(TypeError);
    Ok(Complex(self.re + o.re, self.im + o.im))
  }

  /** `other + self` when `other` cannot add a Complex itself (`__radd__`):
      it delegates to `self + other`, which is the right answer because
      addition commutes. */
  function RAdd(self: Complex, other: Operand): (r: Result<Complex>)
    ensures r.Err? <==> !other.HasBoth()
    ensures r.Err? ==> r.error == TypeError
    ensures other.Num? ==> r == Ok(Complex(other.n + self.re, 0.0 + self.im))
    ensures other.HasParts? ==> r == Ok(Complex(other.z.re + self.re, other.z.im + self.im))
  {
    Add(self, other)
  }

  /** `self - other` (`__sub__`). */
  function Sub(self: Complex, other: Operand): (r: Result<Complex>)
    ensures r.Err? <==> !other.HasBoth()
    ensures r.Err? ==> r.error == TypeError
    ensures other.Num? ==> r == Ok(Complex(self.re - other.n, self.im))
    ensures other.HasParts? ==> r == Ok(Complex(self.re - other.z.re, self.im - other.z.im))
  {
    var o :- other.Parts(TypeError);
    Ok(Complex(self.re - o.re, self.im - o.im))
  }

  /** `other - self` when `other` cannot subtract a Complex itself
      (`__rsub__`): a bare number is first made `Complex(other)`, and then
      `other.__sub__(self)` computes other minus self, in that order. A
      duck-typed operand with both parts is subtracted as a Complex; any
      other operand is taken to have no `__sub__` and raises AttributeError. */
  function RSub(self: Complex, other: Operand): (r: Result<Complex>)
    ensures r.Err? <==> !other.HasBoth()
    ensures r.Err? ==> r.error == AttributeError
    ensures other.Num? ==> r == Ok(Complex(other.n - self.re, 0.0 - self.im))
    ensures other.HasParts? ==> r == Ok(Complex(other.z.re - self.re, other.z.im - self.im))
  {
    match other
    case Num(n) => Sub(Make(n), HasParts(self))
    case HasParts(z) => Sub(z, HasParts(self))
    case _ => Err(AttributeError)
  }

  /** `self * other` (`__mul__`): no coercion and no type check, only the
      attribute lookups `other.real` and `other.imag`. */
  function Mul(self: Complex, other: Operand): (r: Result<Complex>)
    ensures r.Err? <==> !other.HasBoth()
    ensures r.Err? ==> r.error == AttributeError
  {
    var o :- other.Parts(AttributeError);
    Ok(Product(self, o))
  }

  /** The textbook product (ac - bd) + i(bc + ad) of (a + bi) and (c + di). */
  function Product(self: Complex, o: Complex): Complex {
    Complex(self.re * o.re - self.im * o.im, self.im * o.re + self.re * o.im)
  }

  /** `self / other` (`__div__`): no coercion and no type check, only the
      attribute lookups `other.real` and `other.imag`. The float division by
      the divisor's squared magnitude r raises ZeroDivisionError when r is
      zero; r is zero exactly when the divisor is (SquaredAbs), so the test
      is made on the divisor itself. */
  function Div(self: Complex, other: Operand): (r: Result<Complex>)
    ensures !other.HasBoth() ==> r == Err(AttributeError)
    ensures other.Num? ==> (r.Err? <==> other.n == 0.0)
    ensures other.HasParts? ==> (r.Err? <==> other.z == Complex(0.0, 0.0))
    ensures r.Err? && other.HasBoth() ==> r.error == ZeroDivisionError
  {
    var o :- other.Parts(AttributeError);
    if o == Complex(0.0, 0.0) then Err(ZeroDivisionError) else Ok(Quotient(self, o))
  }

  /** The textbook quotient (ac + bd)/r + i(bc - ad)/r of (a + bi) by
      (c + di), where r = c**2 + d**2 is not zero. */
  function Quotient(self: Complex, o: Complex): Complex
    requires o != Complex(0.0, 0.0)
  {
    SquaredAbsSign(o);
    Complex((self.re * o.re + self.im * o.im) / SquaredAbs(o),
            (self.im * o.re - self.re * o.im) / SquaredAbs(o))
  }

  /** `-self` (`__neg__`): the additive inverse of `self`. */
  function Neg(self: Complex): (r: Complex)
    ensures Add(self, HasParts(r)) == Ok(Complex(0.0, 0.0))
    ensures Sub(Complex(0.0, 0.0), HasParts(self)) == Ok(r)
  {
    Complex(-self.re, -self.im)
  }

  /** `self == other` with tolerance `eps` (`__eq__`): true when each part of
      `other` lies strictly within `eps` of the same part of `self`. The `and`
      short-circuits: `other.imag` is looked up only when the real parts are
      within `eps`, so an operand without `imag` can still compare unequal. */
  function Eq(self: Complex, other: Operand, eps: real := DefaultEps): (r: Result<bool>)
    ensures r.Err? <==> other.Other? || (other.RealOnly? && other.part - eps < self.re < other.part + eps)
    ensures r.Err? ==> r.error == AttributeError
    ensures other.RealOnly? && !(other.part - eps < self.re < other.part + eps) ==> r == Ok(false)
    ensures other.HasParts? ==> r == Ok(
      && other.z.re - eps < self.re < other.z.re + eps
      && other.z.im - eps < self.im < other.z.im + eps)
    ensures other.Num? ==> r == Ok(
      && other.n - eps < self.re < other.n + eps
      && -eps < self.im < eps)
  {
    var re :- other.RealPart();
    if !(Abs(self.re - re) < eps) then
      Ok(false)
    else
      var im :- other.ImagPart();
      Ok(Abs(self.im - im) < eps)
  }

  /** `self != other` (`__ne__`): the negation of `__eq__` at the default
      tolerance, i.e. some part differs by at least 1E-14. */
  function Ne(self: Complex, other: Operand): (r: Result<bool>)
    ensures r.Err? <==> other.Other? || (other.RealOnly? && Abs(self.re - other.part) < DefaultEps)
    ensures r.Err? ==> r.error == AttributeError
    ensures other.RealOnly? && Abs(self.re - other.part) >= DefaultEps ==> r == Ok(true)
    ensures other.HasParts? ==> r == Ok(
      || Abs(self.re - other.z.re) >= DefaultEps
      || Abs(self.im - other.z.im) >= DefaultEps)
    ensures other.Num? ==> r == Ok(
      || Abs(self.re - other.n) >= DefaultEps
      || Abs(self.im) >= DefaultEps)
  {
    var e :- Eq(self, other);
    Ok(!e)
  }

  /** `self ** power` (`__pow__`): not implemented, whatever the exponent. */
  function Pow(self: Complex, power: Operand): (r: Result<Complex>)
    ensures r == Err(NotImplementedError)
  {
    Err(NotImplementedError)
  }
}
