/** Immutable 3-D vectors: `Vector3` of Python/math_3d.py and Typescript/src/math/vector.ts.

    Every operation returns a new value.  Division by a zero scalar raises in both
    implementations and yields `Failure(DivisionByZero)` here; `Direction` of the zero
    vector is the zero vector. */
module Vectors {
  import opened Wrappers
  import opened Numerics

  datatype Vector3 = Vector3(x: real, y: real, z: real)

  const Left: Vector3 := Vector3(1.0, 0.0, 0.0)
  const Up: Vector3 := Vector3(0.0, 1.0, 0.0)
  const Forward: Vector3 := Vector3(0.0, 0.0, 1.0)
  const Zero: Vector3 := Vector3(0.0, 0.0, 0.0)
  /** UNIT_SCALING: the scaling that leaves a shape's vertices as they are. */
  const UnitScaling: Vector3 := Vector3(1.0, 1.0, 1.0)

  function Dot(a: Vector3, b: Vector3): real {
    a.x * b.x + a.y * b.y + a.z * b.z
  }

  /** The cross product (orthogonal to both arguments: `VectorLaws.CrossIsOrthogonal`). */
  function Cross(a: Vector3, b: Vector3): Vector3 {
    Vector3(a.y * b.z - a.z * b.y, a.z * b.x - a.x * b.z, a.x * b.y - a.y * b.x)
  }

  /** `hadamard_product` / `elementwiseProduct`. */
  function Hadamard(a: Vector3, b: Vector3): Vector3 {
    Vector3(a.x * b.x, a.y * b.y, a.z * b.z)
  }

  function Add(a: Vector3, b: Vector3): Vector3 {
    Vector3(a.x + b.x, a.y + b.y, a.z + b.z)
  }

  /** `__mul__` / `multiplyByScalar`. */
  function Scale(v: Vector3, k: real): Vector3 {
    Vector3(v.x * k, v.y * k, v.z * k)
  }

  /** `__neg__`: multiplication by -1. */
  function Neg(v: Vector3): Vector3 {
    Scale(v, -1.0)
  }

  /** `__sub__`: adding the negation. */
  function Sub(a: Vector3, b: Vector3): Vector3 {
    Add(a, Neg(b))
  }

  /** `__truediv__` / `divideByScalar`: fails exactly when the divisor is zero, and
      otherwise undoes `Scale` by the same number. */
  function DivideByScalar(v: Vector3, k: real): (r: Result<Vector3>)
    ensures r.Failure? <==> k == 0.0
    ensures r.Failure? ==> r.error == DivisionByZero
    ensures r.Success? ==> Scale(r.value, k) == v
  {
    if k == 0.0 then Failure(DivisionByZero) else Success(Vector3(v.x / k, v.y / k, v.z / k))
  }

  /** The squared length: non-negative, and zero only for the zero vector. */
  function SquareMagnitude(v: Vector3): (r: real)
    ensures r >= 0.0
    ensures r == 0.0 <==> v == Zero
  {
    SquareMagnitudeZero(v);
    Dot(v, v)
  }

  lemma SquareMagnitudeZero(v: Vector3)
    ensures Dot(v, v) >= 0.0
    ensures Dot(v, v) == 0.0 <==> v == Zero
  {
    SumOfSquaresZero(v.x, v.y, v.z);
  }

  /** The length, `sqrt` of the squared length (see `MagnitudeLaws`). */
  function Magnitude(m: MathLib, v: Vector3): real {
    m.sqrt(SquareMagnitude(v))
  }

  /** Under a lawful `sqrt`, the length is non-negative, squares to the squared length,
      and is zero only for the zero vector. */
  lemma MagnitudeLaws(m: MathLib, v: Vector3)
    requires m.Lawful()
    ensures Magnitude(m, v) >= 0.0 && Magnitude(m, v) * Magnitude(m, v) == SquareMagnitude(v)
    ensures Magnitude(m, v) == 0.0 <==> v == Zero
  {
    SqrtLaws(m, SquareMagnitude(v));
  }

  /** The unit vector along `v`; the zero vector (not an error) when `v` is zero. */
  function Direction(m: MathLib, v: Vector3): Vector3 {
    var mag := Magnitude(m, v);
    if mag == 0.0 then Zero else DivideByScalar(v, mag).value
  }

  /** `direction` of the zero vector is the zero vector; any other vector is its
      direction scaled by its (positive) length. */
  lemma DirectionLaws(m: MathLib, v: Vector3)
    requires m.Lawful()
    ensures v == Zero ==> Direction(m, v) == Zero
    ensures v != Zero ==> Magnitude(m, v) > 0.0 && Scale(Direction(m, v), Magnitude(m, v)) == v
  {
    MagnitudeLaws(m, v);
  }
}

/** Algebraic laws of `Vector3`, as promised by the unit tests of vector.ts. */
module VectorLaws {
  import opened Wrappers
  import opened Numerics
  import opened Vectors

  lemma DotCommutes(a: Vector3, b: Vector3)
    ensures Dot(a, b) == Dot(b, a)
  {
  }

  lemma DotWithZero(a: Vector3)
    ensures Dot(a, Zero) == 0.0 && Dot(Zero, a) == 0.0
  {
  }

  /** The cross product is orthogonal to both of its arguments. */
  lemma CrossIsOrthogonal(a: Vector3, b: Vector3)
    ensures Dot(Cross(a, b), a) == 0.0 && Dot(Cross(a, b), b) == 0.0
  {
  }

  lemma CrossAnticommutes(a: Vector3, b: Vector3)
    ensures Cross(a, b) == Neg(Cross(b, a))
  {
  }

  lemma CrossWithSelfOrZero(a: Vector3)
    ensures Cross(a, a) == Zero
    ensures Cross(a, Zero) == Zero && Cross(Zero, a) == Zero
  {
  }

  lemma HadamardLaws(a: Vector3, b: Vector3)
    ensures Hadamard(a, b) == Hadamard(b, a)
    ensures Hadamard(a, Zero) == Zero
    ensures Hadamard(a, Left) == Vector3(a.x, 0.0, 0.0)
    ensures Hadamard(a, UnitScaling) == a
  {
  }

  lemma SquareMagnitudeLaws(a: Vector3)
    ensures SquareMagnitude(a) == Dot(a, a)
    ensures SquareMagnitude(Zero) == 0.0
  {
  }

  lemma ScaleByZero(a: Vector3)
    ensures Scale(a, 0.0) == Zero
  {
  }

  /** Scaling by a non-zero `k` and then dividing by `k` gives back the vector;
      dividing by zero always fails. */
  lemma ScaleThenDivide(a: Vector3, k: real)
    ensures k == 0.0 ==> DivideByScalar(a, k) == Failure(DivisionByZero)
    ensures k != 0.0 ==> DivideByScalar(Scale(a, k), k) == Success(a)
  {
    if k != 0.0 {
      var s := Scale(a, k);
      MulDivCancel(a.x, k);
      MulDivCancel(a.y, k);
      MulDivCancel(a.z, k);
      assert Vector3(s.x / k, s.y / k, s.z / k) == a;
    }
  }

  /** Scaling by a non-zero `k` and then by `1 / k` gives back the vector. */
  lemma ScaleByReciprocal(a: Vector3, k: real)
    requires k != 0.0
    ensures Scale(Scale(a, k), 1.0 / k) == a
  {
    MulReciprocalCancel(a.x, k);
    MulReciprocalCancel(a.y, k);
    MulReciprocalCancel(a.z, k);
  }

  lemma NegComponents(a: Vector3)
    ensures Neg(a) == Vector3(-a.x, -a.y, -a.z)
  {
  }

  /** `__sub__` subtracts componentwise. */
  lemma SubComponents(a: Vector3, b: Vector3)
    ensures Sub(a, b) == Vector3(a.x - b.x, a.y - b.y, a.z - b.z)
  {
    NegComponents(b);
  }

  lemma AddZero(a: Vector3)
    ensures Add(a, Zero) == a && Add(Zero, a) == a
  {
  }

  lemma SubZero(a: Vector3)
    ensures Sub(a, Zero) == a
  {
    SubComponents(a, Zero);
  }

  /** Subtracting and adding back the same vector is the identity. */
  lemma SubThenAdd(a: Vector3, b: Vector3)
    ensures Add(Sub(a, b), b) == a
  {
    SubComponents(a, b);
  }

  lemma AddCommutes(a: Vector3, b: Vector3)
    ensures Add(a, b) == Add(b, a)
  {
  }

  lemma SquareMagnitudeOfScale(a: Vector3, k: real)
    ensures SquareMagnitude(Scale(a, k)) == k * k * SquareMagnitude(a)
  {
  }

  /** `direction` of a non-zero vector has length 1. */
  lemma {:induction false} DirectionIsUnit(m: MathLib, v: Vector3)
    requires m.Lawful() && v != Zero
    ensures SquareMagnitude(Direction(m, v)) == 1.0
  {
    var mag := Magnitude(m, v);
    var d := Direction(m, v);
    DirectionLaws(m, v);
    MagnitudeLaws(m, v);
    SquareMagnitudeOfScale(d, mag);
    assert mag * mag == SquareMagnitude(v);
    assert (mag * mag) * (SquareMagnitude(d) - 1.0) == 0.0;
    ZeroProduct(mag * mag, SquareMagnitude(d) - 1.0);
  }

  /** Lagrange's identity |a|^2 |b|^2 = (a.b)^2 + |a x b|^2. */
  lemma Lagrange(a: Vector3, b: Vector3)
    ensures SquareMagnitude(a) * SquareMagnitude(b) == Dot(a, b) * Dot(a, b) + SquareMagnitude(Cross(a, b))
  {
  }

  /** Cauchy-Schwarz in squared form. */
  lemma CauchySchwarz(a: Vector3, b: Vector3)
    ensures Dot(a, b) * Dot(a, b) <= SquareMagnitude(a) * SquareMagnitude(b)
  {
    Lagrange(a, b);
  }

  /** The cross product distributes over addition on the left. */
  lemma CrossDistributesLeft(a: Vector3, b: Vector3, c: Vector3)
    ensures Cross(Add(a, b), c) == Add(Cross(a, c), Cross(b, c))
  {
  }

  /** The cross product distributes over addition on the right. */
  lemma CrossDistributesRight(a: Vector3, b: Vector3, c: Vector3)
    ensures Cross(a, Add(b, c)) == Add(Cross(a, b), Cross(a, c))
  {
  }

  /** One component of a scaled cross product: `(p k) q - (r k) s = (p q - r s) k`. */
  lemma ScaledMinor(p: real, q: real, r: real, s: real, k: real)
    ensures (p * k) * q - (r * k) * s == (p * q - r * s) * k
    ensures p * (q * k) - r * (s * k) == (p * q - r * s) * k
  {
    assert (p * k) * q == (p * q) * k && p * (q * k) == (p * q) * k;
    assert (r * k) * s == (r * s) * k && r * (s * k) == (r * s) * k;
  }

  /** Scaling the first argument scales the cross product. */
  lemma CrossOfScaleLeft(a: Vector3, b: Vector3, k: real)
    ensures Cross(Scale(a, k), b) == Scale(Cross(a, b), k)
  {
    var l, r := Cross(Scale(a, k), b), Scale(Cross(a, b), k);
    assert l.x == r.x by { ScaledMinor(a.y, b.z, a.z, b.y, k); }
    assert l.y == r.y by { ScaledMinor(a.z, b.x, a.x, b.z, k); }
    assert l.z == r.z by { ScaledMinor(a.x, b.y, a.y, b.x, k); }
  }

  /** Scaling the second argument scales the cross product. */
  lemma CrossOfScaleRight(a: Vector3, b: Vector3, k: real)
    ensures Cross(a, Scale(b, k)) == Scale(Cross(a, b), k)
  {
    var l, r := Cross(a, Scale(b, k)), Scale(Cross(a, b), k);
    assert l.x == r.x by { ScaledMinor(a.y, b.z, a.z, b.y, k); }
    assert l.y == r.y by { ScaledMinor(a.z, b.x, a.x, b.z, k); }
    assert l.z == r.z by { ScaledMinor(a.x, b.y, a.y, b.x, k); }
  }

  /** The cross products of a combination `d = u x + v y` with the two axes:
      `d x y = u (x x y)` and `x x d = v (x x y)`. */
  lemma CrossOfCombination(x: Vector3, y: Vector3, u: real, v: real)
    ensures Cross(Add(Scale(x, u), Scale(y, v)), y) == Scale(Cross(x, y), u)
    ensures Cross(x, Add(Scale(x, u), Scale(y, v))) == Scale(Cross(x, y), v)
  {
    var n := Cross(x, y);
    CrossDistributesLeft(Scale(x, u), Scale(y, v), y);
    CrossDistributesRight(x, Scale(x, u), Scale(y, v));
    CrossOfScaleLeft(x, y, u);
    CrossOfScaleLeft(y, y, v);
    CrossOfScaleRight(x, x, u);
    CrossOfScaleRight(x, y, v);
    CrossWithSelfOrZero(x);
    CrossWithSelfOrZero(y);
    assert Scale(Zero, u) == Zero && Scale(Zero, v) == Zero;
    AddZero(Scale(n, u));
    AddZero(Scale(n, v));
  }
}
