/** Quaternions `(re, vec)`: `Quaternion` of Python/math_3d.py and
    Typescript/src/math/quaternion.ts, and rotation of a vector by conjugation.

    Operations that divide (scalar division, inverse, quaternion division, rotation)
    fail with `DivisionByZero` on a zero divisor instead of producing infinities. */
module Quaternions {
  import opened Wrappers
  import opened Numerics
  import V = Vectors

  datatype Quaternion = Quaternion(re: real, vec: V.Vector3)

  /** `IDENTITY` / `identity`: the real quaternion 1. */
  const Identity: Quaternion := Quaternion(1.0, V.Zero)
  const ZeroQuaternion: Quaternion := Quaternion(0.0, V.Zero)

  /** The pure quaternion `(0, v)` standing for a vector. */
  function Pure(v: V.Vector3): Quaternion {
    Quaternion(0.0, v)
  }

  /** The squared norm `re^2 + |vec|^2` (the real part squared plus `squareMagnitude`): non-negative, zero only for the zero quaternion. */
  function NormSquared(q: Quaternion): (n: real)
    ensures n >= 0.0
    ensures n == 0.0 <==> q == ZeroQuaternion
  {
    SumOfFourSquaresZero(q.re, q.vec.x, q.vec.y, q.vec.z);
    var n := q.re * q.re + (q.vec.x * q.vec.x + q.vec.y * q.vec.y + q.vec.z * q.vec.z);
    assert n == 0.0 <==> q.re == 0.0 && q.vec.x == 0.0 && q.vec.y == 0.0 && q.vec.z == 0.0;
    n
  }

  function Conjugate(q: Quaternion): Quaternion {
    Quaternion(q.re, V.Neg(q.vec))
  }

  function Add(p: Quaternion, q: Quaternion): Quaternion {
    Quaternion(p.re + q.re, V.Add(p.vec, q.vec))
  }

  /** `__add__` with a `Vector3`: the vector is added to the vector part. */
  function AddVector(q: Quaternion, v: V.Vector3): Quaternion {
    Quaternion(q.re, V.Add(q.vec, v))
  }

  /** `__add__` with a number: the number is added to the real part. */
  function AddReal(q: Quaternion, k: real): Quaternion {
    Quaternion(q.re + k, q.vec)
  }

  /** `k - q` for a number `k`, which Python evaluates through `__rsub__` as `-q + k`. */
  function RSubReal(q: Quaternion, k: real): Quaternion {
    AddReal(Neg(q), k)
  }

  function Neg(q: Quaternion): Quaternion {
    Quaternion(-q.re, V.Neg(q.vec))
  }

  /** `subtract` / `__sub__`: adding the negation. */
  function Sub(p: Quaternion, q: Quaternion): Quaternion {
    Add(p, Neg(q))
  }

  /** `multiplyByScalar` / `__mul__` by a number. */
  function Scale(q: Quaternion, k: real): Quaternion {
    Quaternion(q.re * k, V.Scale(q.vec, k))
  }

  /** `divideByScalar` / `__truediv__` by a number: multiplication by `1 / k`, which
      fails exactly when `k` is zero. */
  function DivideByScalar(q: Quaternion, k: real): (r: Result<Quaternion>)
    ensures r.Failure? <==> k == 0.0
    ensures r.Failure? ==> r.error == DivisionByZero
  {
    if k == 0.0 then Failure(DivisionByZero) else Success(Scale(q, 1.0 / k))
  }

  /** The Hamilton product `(r1 r2 - v1.v2, r1 v2 + r2 v1 + v1 x v2)`. */
  function Mul(p: Quaternion, q: Quaternion): Quaternion {
    Quaternion(
      p.re * q.re - V.Dot(p.vec, q.vec),
      V.Add(V.Add(V.Scale(q.vec, p.re), V.Scale(p.vec, q.re)), V.Cross(p.vec, q.vec)))
  }

  /** Python's `Quaternion * Vector3`, written out without building `(0, v)`. */
  function MulVector(q: Quaternion, v: V.Vector3): Quaternion {
    Quaternion(-V.Dot(q.vec, v), V.Add(V.Scale(v, q.re), V.Cross(q.vec, v)))
  }

  /** The conjugate divided by the squared norm; the zero quaternion has no inverse. */
  function Inverse(q: Quaternion): (r: Result<Quaternion>)
    ensures r.Failure? <==> q == ZeroQuaternion
  {
    DivideByScalar(Conjugate(q), NormSquared(q))
  }

  /** `divideBy` / `__truediv__` by a quaternion: multiplication by the inverse. */
  function DivideBy(p: Quaternion, q: Quaternion): (r: Result<Quaternion>)
    ensures r.Failure? <==> q == ZeroQuaternion
  {
    var qi :- Inverse(q);
    Success(Mul(p, qi))
  }

  /** `rotate_by_quaternion`: the vector part of `q * v * q^-1`. */
  function Rotate(v: V.Vector3, q: Quaternion): (r: Result<V.Vector3>)
    ensures r.Failure? <==> q == ZeroQuaternion
  {
    var qi :- Inverse(q);
    Success(Mul(MulVector(q, v), qi).vec)
  }

  /** `rotate_about_axis`: rotation by the quaternion `from_axis_angle` builds. */
  function RotateAboutAxis(m: MathLib, v: V.Vector3, axis: V.Vector3, angle: real): Result<V.Vector3> {
    Rotate(v, FromAxisAngleAsWritten(m, axis, angle))
  }

  /** `from_axis_angle` of math_3d.py as written: real part `cos(angle/2)` and vector part
      the axis direction scaled by `sqrt(1 - cos(angle/2)^2)`, a non-negative number. */
  function FromAxisAngleAsWritten(m: MathLib, axis: V.Vector3, angle: real): (q: Quaternion)
    ensures q.re == m.cos(angle / 2.0)
    ensures m.Lawful() ==> q.vec == V.Scale(V.Direction(m, axis), Abs(m.sin(angle / 2.0)))
  {
    var re := m.cos(angle / 2.0);
    var vecMagnitude := m.sqrt(1.0 - re * re);
    assert m.Lawful() ==> vecMagnitude == Abs(m.sin(angle / 2.0)) by {
      if m.Lawful() {
        var s := m.sin(angle / 2.0);
        assert m.PythagorasAt(angle / 2.0);
        assert 1.0 - re * re == s * s;
        SqrtOfSquare(m, s);
      }
    }
    Quaternion(re, V.Scale(V.Direction(m, axis), vecMagnitude))
  }

  /** `fromAxisAngle` of quaternion.ts as written: the vector part is scaled by
      `|sin(angle/2)|`; it agrees with the Python version under a lawful library. */
  function FromAxisAngleAsWrittenTs(m: MathLib, axis: V.Vector3, angle: real): (q: Quaternion)
    ensures m.Lawful() ==> q == FromAxisAngleAsWritten(m, axis, angle)
  {
    Quaternion(m.cos(angle / 2.0), V.Scale(V.Direction(m, axis), Abs(m.sin(angle / 2.0))))
  }

  /** The rotation by `angle` about `axis` that both implementations intend: the vector
      part keeps the sign of `sin(angle/2)`. */
  function FromAxisAngle(m: MathLib, axis: V.Vector3, angle: real): Quaternion {
    Quaternion(m.cos(angle / 2.0), V.Scale(V.Direction(m, axis), m.sin(angle / 2.0)))
  }

  /** `from_euler` of math_3d.py as written: `q_y * q_x * q_z`, each factor built by the
      as-written `from_axis_angle`. */
  function FromEulerAsWritten(m: MathLib, x: real, y: real, z: real): Quaternion {
    var qx := FromAxisAngleAsWritten(m, V.Left, x);
    var qy := FromAxisAngleAsWritten(m, V.Up, y);
    var qz := FromAxisAngleAsWritten(m, V.Forward, z);
    Mul(Mul(qy, qx), qz)
  }

  /** `fromEuler` of quaternion.ts as written, from the `abs(sin)` construction; under a
      lawful library it is the Python `from_euler`. */
  function FromEulerAsWrittenTs(m: MathLib, x: real, y: real, z: real): (q: Quaternion)
    ensures m.Lawful() ==> q == FromEulerAsWritten(m, x, y, z)
  {
    var qx := FromAxisAngleAsWrittenTs(m, V.Left, x);
    var qy := FromAxisAngleAsWrittenTs(m, V.Up, y);
    var qz := FromAxisAngleAsWrittenTs(m, V.Forward, z);
    Mul(Mul(qy, qx), qz)
  }

  /** The Euler rotation both implementations intend: rotation about z, then x, then y,
      i.e. `q_y * q_x * q_z`, each factor the corrected `FromAxisAngle`. */
  function FromEuler(m: MathLib, x: real, y: real, z: real): Quaternion {
    var qx := FromAxisAngle(m, V.Left, x);
    var qy := FromAxisAngle(m, V.Up, y);
    var qz := FromAxisAngle(m, V.Forward, z);
    Mul(Mul(qy, qx), qz)
  }
}
