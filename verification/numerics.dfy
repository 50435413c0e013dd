/** Numeric building blocks: the math library the renderer calls into, and Python's
    `int()` conversion of a float.

    The model computes over exact `real`s.  `sqrt`, `sin` and `cos` have no definition
    over `real`, so they are fields of a `MathLib` value handed to every operation that
    needs them; `Lawful` states the only facts the model relies on. */
module Numerics {

  /** The library functions `math.sqrt`/`Math.sqrt`, `sin` and `cos`. */
  datatype MathLib = MathLib(sqrt: real -> real, sin: real -> real, cos: real -> real) {

    // Each law is stated at one point by its own predicate, so that a proof instantiates
    // it only where it mentions that predicate.

    /** sqrt is the non-negative square root of a non-negative `x`. */
    ghost predicate SqrtAt(x: real) {
      x >= 0.0 ==> sqrt(x) >= 0.0 && sqrt(x) * sqrt(x) == x
    }

    /** The Pythagorean identity at `t`. */
    ghost predicate PythagorasAt(t: real) {
      sin(t) * sin(t) + cos(t) * cos(t) == 1.0
    }

    /** cos is even and sin is odd at `t`. */
    ghost predicate ParityAt(t: real) {
      cos(-t) == cos(t) && sin(-t) == -sin(t)
    }

    /** The angle-addition formulas at `a` and `b`. */
    ghost predicate AdditionAt(a: real, b: real) {
      && cos(a + b) == cos(a) * cos(b) - sin(a) * sin(b)
      && sin(a + b) == sin(a) * cos(b) + cos(a) * sin(b)
    }

    /** sqrt is the non-negative square root on non-negative arguments, and
        sin and cos satisfy the Pythagorean identity. */
    ghost predicate Lawful() {
      (forall x :: SqrtAt(x)) && (forall t :: PythagorasAt(t))
    }

    /** Parity and angle-addition laws of sin and cos. */
    ghost predicate AngleLaws() {
      (forall t :: ParityAt(t)) && (forall a, b :: AdditionAt(a, b))
    }
  }

  function Abs(x: real): (r: real)
    ensures r >= 0.0 && (r == x || r == -x)
  {
    if x >= 0.0 then x else -x
  }

  /** A product is zero only when one of its factors is. */
  lemma ZeroProduct(a: real, b: real)
    requires a * b == 0.0
    ensures a == 0.0 || b == 0.0
  {
  }

  lemma MulDivCancel(x: real, k: real)
    requires k != 0.0
    ensures (x * k) / k == x
  {
  }

  /** Multiplying by `k` and then by `1 / k` gives back the number. */
  lemma DivMulCancel(x: real, k: real)
    requires k != 0.0
    ensures (x / k) * k == x
  {
  }

  lemma MulReciprocalCancel(x: real, k: real)
    requires k != 0.0
    ensures (x * k) * (1.0 / k) == x
  {
  }

  /** Two non-negative numbers with equal squares are equal. */
  lemma {:induction false} EqualSquares(r: real, a: real)
    requires r >= 0.0 && a >= 0.0 && r * r == a * a
    ensures r == a
  {
    assert (r + a) * (r - a) == r * r - a * a;
    if r + a != 0.0 {
      ZeroProduct(r + a, r - a);
    }
  }

  lemma SqrtZero(m: MathLib)
    requires m.Lawful()
    ensures m.sqrt(0.0) == 0.0
  {
    assert m.SqrtAt(0.0);
    ZeroProduct(m.sqrt(0.0), m.sqrt(0.0));
  }

  /** On non-negative arguments, sqrt vanishes exactly at zero. */
  lemma SqrtZeroIff(m: MathLib, x: real)
    requires m.Lawful() && x >= 0.0
    ensures m.sqrt(x) == 0.0 <==> x == 0.0
  {
    if x == 0.0 {
      SqrtZero(m);
    } else {
      SqrtPositive(m, x);
    }
  }

  /** Everything the model uses about sqrt at one non-negative argument. */
  lemma SqrtLaws(m: MathLib, x: real)
    requires m.Lawful() && x >= 0.0
    ensures m.sqrt(x) >= 0.0 && m.sqrt(x) * m.sqrt(x) == x
    ensures m.sqrt(x) == 0.0 <==> x == 0.0
  {
    assert m.SqrtAt(x);
    SqrtZeroIff(m, x);
  }

  lemma SquareNonNegative(a: real)
    ensures a * a >= 0.0
  {
    if a < 0.0 {
      assert a * a == (-a) * (-a);
    }
  }

  /** A sum of three squares is non-negative and vanishes only when all three do. */
  lemma SumOfSquaresZero(a: real, b: real, c: real)
    ensures a * a + b * b + c * c >= 0.0
    ensures a * a + b * b + c * c == 0.0 <==> a == 0.0 && b == 0.0 && c == 0.0
  {
    SquareNonNegative(a);
    SquareNonNegative(b);
    SquareNonNegative(c);
    if a * a + b * b + c * c == 0.0 {
      ZeroProduct(a, a);
      ZeroProduct(b, b);
      ZeroProduct(c, c);
    }
  }

  /** The four-square analogue, for the norm of a quaternion. */
  lemma SumOfFourSquaresZero(a: real, b: real, c: real, d: real)
    ensures a * a + (b * b + c * c + d * d) >= 0.0
    ensures a * a + (b * b + c * c + d * d) == 0.0 <==> a == 0.0 && b == 0.0 && c == 0.0 && d == 0.0
  {
    SquareNonNegative(a);
    SumOfSquaresZero(b, c, d);
    if a * a + (b * b + c * c + d * d) == 0.0 {
      ZeroProduct(a, a);
    }
  }

  lemma SqrtOne(m: MathLib)
    requires m.Lawful()
    ensures m.sqrt(1.0) == 1.0
  {
    assert m.SqrtAt(1.0);
    EqualSquares(m.sqrt(1.0), 1.0);
  }

  /** The square root of a positive number is positive, so dividing by it is safe. */
  lemma SqrtPositive(m: MathLib, x: real)
    requires m.Lawful() && x > 0.0
    ensures m.sqrt(x) > 0.0
  {
    assert m.SqrtAt(x);
  }

  /** sqrt(s * s) is |s|. */
  lemma SqrtOfSquare(m: MathLib, s: real)
    requires m.Lawful()
    ensures m.sqrt(s * s) == Abs(s)
  {
    assert Abs(s) * Abs(s) == s * s;
    SquareNonNegative(s);
    assert m.SqrtAt(s * s);
    EqualSquares(m.sqrt(s * s), Abs(s));
  }

  /** Python's `int(x)` on a float: truncation toward zero, neither floor nor rounding. */
  function Trunc(x: real): (n: int)
    ensures x >= 0.0 ==> n >= 0 && n as real <= x < n as real + 1.0
    ensures x < 0.0 ==> n <= 0 && n as real - 1.0 < x <= n as real
  {
    if x >= 0.0 then x.Floor else -((-x).Floor)
  }

  /** Truncation is monotone. */
  lemma TruncMonotone(x: real, y: real)
    requires x <= y
    ensures Trunc(x) <= Trunc(y)
  {
  }
}
