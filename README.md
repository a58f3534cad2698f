# Complex numbers as a Python class, modelled in Dafny

`Complex.py` defines a class `Complex` holding a real part and an imaginary
part. Its operators build new `Complex` values from their operands:
`+ - * /` and unary `-`, the reversed `+` and `-` used when a bare number
is on the left, a tolerant `==` and its negation `!=`, and a `**` that
always raises.

The class never changes an object after `__init__`, so the model is
written with values and functions:

- `Complex(re, im)` is a datatype. `Make(re, im := 0.0)` is the
  constructor with its default imaginary part.
- Floats and ints are exact `real`s.
- The right-hand operand is an `Operand`. It is a bare number (`Num`), an
  object with numeric `real` and `imag` attributes (`HasParts`), an object
  with a numeric `real` but no `imag` (`RealOnly`), or anything else
  (`Other`). This stands for the duck typing of the source. An object with
  `imag` but no `real` is `Other`. Every operator except `__rsub__`,
  `__neg__` and `__pow__` looks up `real` before `imag` or needs both, so
  none of them reaches its `imag`. `__rsub__` treats it as `Other` only
  because an `Other` is taken to have no `__sub__` (see "Left out").
- Every exception an operator can raise is a value of `Result`:
  - `TypeError` from the explicit checks in `__add__` and `__sub__`;
  - `AttributeError` when `__mul__`, `__div__` or `__eq__` looks up
    `other.real` or `other.imag` on an object without it (in `__eq__`,
    `other.imag` is looked up only when the real parts are within the
    tolerance);
  - `AttributeError` from `__rsub__` when the left operand has no
    `__sub__` of its own;
  - `ZeroDivisionError` from the float division in `__div__`;
  - `NotImplementedError` from `__pow__`.

Files:

- `errors.dfy` (module `PyErrors`): the exceptions and `Result`.
- `complex.dfy` (module `ComplexClass`): the class and its operators.
- `algebra.dfy` (module `ComplexAlgebra`): laws of the arithmetic
  operators. These cover the order of the reversed operators, negation as
  the inverse of addition, ring laws for the product, and division as the
  inverse of multiplication.
- `equality.dfy` (module `ComplexEquality`): laws of the tolerant `==`
  and of `!=`.

Each nonlinear arithmetic law except `MulCommutes` is proved on reals by a
small helper lemma whose parameters are the parts involved. The lemma about
`Complex` values then connects the operator to that helper. `MulCommutes`
states its two part identities as inline assertions.

## Model

| member | source | states |
|---|---|---|
| ComplexClass.Make | Complex.py:6-8 | no contract: the value with the given parts, imag 0.0 by default; fixed by ComplexAlgebra.MakeIsEmbedding |
| ComplexClass.Operand.HasBoth | Complex.py:17-19 | no contract: the operand has both `real` and `imag` (a bare number or an object with both attributes) |
| ComplexClass.Operand.Parts | Complex.py:17-19 | the (real, imag) view of an operand: (n, 0) for a bare number, the parts for an object with both attributes, and the given exception when `real` or `imag` is missing (`RealOnly` and `Other`) |
| ComplexClass.Operand.RealPart | Complex.py:62 | the lookup `other.real`: the real part of a number, a `HasParts` or a `RealOnly`; AttributeError for `Other` (an object with only `imag` is `Other`, and no operator reaches its `imag`) |
| ComplexClass.Operand.ImagPart | Complex.py:62 | the lookup `other.imag`: 0 for a bare number, the imaginary part for an object with both attributes; AttributeError for `RealOnly` and `Other` (an object with only `imag` is `Other`, and no operator reaches its `imag`) |
| ComplexClass.Add | Complex.py:10-23 | a number is added as Complex(n) (imag 0); an operand with real and imag is added part by part; any other operand raises TypeError, and only then does an error occur |
| ComplexClass.RAdd | Complex.py:25-31 | `other + self` gives other's parts plus self's parts, with the same TypeError case as `__add__` |
| ComplexClass.Sub | Complex.py:33-39 | `self - other` part by part, a number as Complex(n); TypeError exactly for an operand with neither form |
| ComplexClass.RSub | Complex.py:41-44 | `other - self` in that order: a number n gives (n - re, 0 - im); an operand with parts gives its parts minus self's; anything else raises AttributeError |
| ComplexClass.Mul | Complex.py:46-47 | fails, with AttributeError, exactly when the operand lacks `real` or `imag` |
| ComplexClass.Product | Complex.py:47 | no contract: the textbook product (ac - bd) + (bc + ad)i; tied to `__mul__` by ComplexAlgebra.MulParts, ring laws in ComplexAlgebra |
| ComplexClass.Div | Complex.py:49-52 | AttributeError for an operand lacking `real` or `imag`; ZeroDivisionError exactly when the divisor (bare number or parts) is zero; a value otherwise |
| ComplexClass.Quotient | Complex.py:50-52 | no contract (requires a non-zero divisor): the textbook quotient ((ac + bd)/r) + ((bc - ad)/r)i; fixed by ComplexAlgebra.DivParts, DivThenMul and MulThenDiv |
| ComplexClass.SquaredAbs | Complex.py:51 | no contract: real**2 + imag**2, the r of `__div__` and the radicand of `__abs__` (Complex.py:55); its sign is ComplexClass.SquaredAbsSign |
| ComplexClass.Abs | Complex.py:62 | Python's abs on a real: non-negative and equal to x or -x |
| ComplexClass.SquaredAbsSign | Complex.py:54-55 | real**2 + imag**2 is non-negative and zero exactly for Complex(0, 0) |
| ComplexClass.Neg | Complex.py:57-58 | `self + (-self)` is Complex(0, 0), and `-self` equals `Complex(0, 0) - self` |
| ComplexClass.Eq | Complex.py:60-62 | true exactly when both parts of other lie strictly within eps of self's; a number compares with imag 0; an operand without `imag` gives false when its real part is eps or more away and AttributeError otherwise; an operand without `real` gives AttributeError |
| ComplexClass.Ne | Complex.py:64-65 | true exactly when some part differs by at least 1E-14 (for a bare number, the real part from it or the imaginary part from 0); an operand without `imag` gives true when its real part is 1E-14 or more away; the same AttributeError cases as `__eq__` |
| ComplexClass.Pow | Complex.py:77-78 | always raises NotImplementedError |
| ComplexAlgebra.AddCommutes | Complex.py:31 | z + w == w + z, so delegating `__radd__` to `__add__` is correct |
| ComplexAlgebra.RAddIsReversedAdd | Complex.py:25-31 | `x + z` through `__radd__` equals Complex(x) + z |
| ComplexAlgebra.AddAssociative | Complex.py:10-23 | (x + y) + z == x + (y + z) |
| ComplexAlgebra.AddNumberIsAddComplex | Complex.py:17-18 | adding or subtracting a bare number x is the same as adding or subtracting Complex(x) |
| ComplexAlgebra.SubIsAddNeg | Complex.py:33-39 | z - w == z + (-w) |
| ComplexAlgebra.SubUndoesAdd | Complex.py:33-39 | (z + w) - w == z |
| ComplexAlgebra.RSubOrder | Complex.py:41-44 | `x - z` through `__rsub__` is Complex(x) - z; it is the negation of z - x; it equals z - x exactly when z == Complex(x) |
| ComplexAlgebra.RSubExamples | Complex.py:88-91 | 1 - Complex(1, 2) == Complex(0, -2), and 1 - Complex(0, 1) == Complex(1, -1) |
| ComplexAlgebra.NegInvolution | Complex.py:57-58 | -(-z) == z |
| ComplexAlgebra.NegExample | Complex.py:57-58 | -Complex(2, -3) == Complex(-2, 3) |
| ComplexAlgebra.MulParts | Complex.py:46-47 | `__mul__` on an operand with parts w is the textbook product (ac - bd) + (bc + ad)i |
| ComplexAlgebra.MulCommutes | Complex.py:46-47 | z * w == w * z |
| ComplexAlgebra.MulByNumber | Complex.py:46-47 | z * x for a bare number x scales both parts by x |
| ComplexAlgebra.MulUnit | Complex.py:46-47 | Complex(1, 0) is a two-sided unit, and i * i == -1 |
| ComplexAlgebra.MulExample | Complex.py:46-47 | Complex(1, 2) * Complex(1, 2) == Complex(-3, 4) |
| ComplexAlgebra.MulAssociative | Complex.py:46-47 | (x * y) * z == x * (y * z) |
| ComplexAlgebra.MulDistributes | Complex.py:46-47 | x * (y + z) == x * y + x * z |
| ComplexAlgebra.SquaredAbsOfProduct | Complex.py:54-55 | the squared magnitude of a product is the product of the squared magnitudes |
| ComplexAlgebra.NoZeroDivisors | Complex.py:46-47 | a product is zero exactly when one of its factors is zero |
| ComplexAlgebra.ZeroProductHasZeroFactor | Complex.py:46-47 | a zero product has a zero factor |
| ComplexAlgebra.DivParts | Complex.py:49-52 | `__div__` on a non-zero w is the textbook quotient, (ac + bd)/r + ((bc - ad)/r)i with r = c**2 + d**2 non-zero |
| ComplexAlgebra.DivByNumber | Complex.py:49-52 | dividing by a non-zero bare number x divides both parts by x |
| ComplexAlgebra.DivThenMul | Complex.py:46-52 | for every non-zero y, x / y succeeds and (x / y) * y == x |
| ComplexAlgebra.MulThenDiv | Complex.py:46-52 | for every non-zero y, (x * y) / y == x |
| ComplexAlgebra.DivBySelf | Complex.py:49-52 | y / y == Complex(1, 0) for every non-zero y |
| ComplexAlgebra.MakeIsEmbedding | Complex.py:6-8 | Complex(x) with bare numbers commutes with + - * / and unary -, and Complex(x) == Complex(y) exactly when x == y |
| ComplexEquality.EqReflexive | Complex.py:60-62 | every value is `==` to itself for any positive tolerance |
| ComplexEquality.EqSymmetric | Complex.py:60-62 | swapping the operands of `==` does not change the answer |
| ComplexEquality.EqNumberIsEqComplex | Complex.py:60-62 | comparing with a bare number x is comparing with Complex(x) |
| ComplexEquality.NeIsNotEq | Complex.py:64-65 | `!=` succeeds exactly when `==` does, then gives the opposite answer; otherwise it raises the same exception |
| ComplexEquality.EqNotTransitive | Complex.py:60-62 | with tolerance 1, 0 == 0.6 and 0.6 == 1.2, but not 0 == 1.2 |
| ComplexEquality.DefaultEpsExamples | Complex.py:60 | at the default 1E-14, 1 == 1 + 5E-15 holds, while 1 == 1 + 1E-13 fails and 1 != 1 + 1E-13 holds |
| ComplexEquality.EqEveryEpsIsIdentity | Complex.py:60-62 | two values are `==` for every positive tolerance exactly when they are identical |
| ComplexEquality.EqMonotone | Complex.py:60-62 | values equal within eps stay equal within any larger tolerance |
| ComplexEquality.EqShortCircuits | Complex.py:62 | against an object with `real` 5 and no `imag`, Complex(0, 0) `==` is false and `!=` true; with `real` 0 both raise AttributeError |

## Left out

- Floating point: the parts are exact reals. IEEE rounding, overflow, underflow, NaN and infinity are not modelled. For example, a float r = c**2 + d**2 that underflows to 0.0 for a tiny non-zero divisor is not modelled.
- ComplexClass.Div: the source raises ZeroDivisionError when the float r is 0.0. The model tests "divisor is Complex(0, 0)". Over the reals the two tests are the same (ComplexClass.SquaredAbsSign).
- `__abs__` (Complex.py:54-55): it takes a square root, which reals in Dafny do not have. Only the squared magnitude is modelled (`SquaredAbs`).
- `__str__` and `__repr__` (Complex.py:67-75): `%g` formatting of floats is not modelled.
- `__gt__`, `__ge__`, `__lt__`, `__le__` and `_illegal` (Complex.py:80-86): they only print a message and return None.
- The `__main__` demo (Complex.py:88-91): it prints. The value it computes is `ComplexAlgebra.RSubExamples`.
- Python's operator dispatch is not modelled: which of `__op__` or `__rop__` the interpreter calls, `NotImplemented` returns, and Python 3 calling `__truediv__` instead of `__div__`. Each method is modelled as if called directly.
- The class has no `__rmul__` or `__rdiv__`, so `2 * z` and `2 / z` are not answered by it. The model has no member for them.
- ComplexClass.RSub: for a left operand that is not a bare number, the source returns whatever that object's own `__sub__` returns. The model assumes the object subtracts like a Complex when it has real and imag parts. It assumes an AttributeError for any other object, that is, one with no `__sub__`. The first assumption fails for Python's built-in `complex`, the duck-typed operand that `__add__`'s docstring names (Complex.py:11-13). `complex.__sub__` returns `NotImplemented` for a `Complex`, so `__rsub__` returns `NotImplemented` and `(1+2j) - Complex(1, 2)` raises TypeError. The model gives `Ok(Complex(0, 0))` for that call.
- `__init__` (Complex.py:6-8) stores whatever it is given. The model assumes the parts are numbers, and an operand's `real` and `imag` are numbers too.
