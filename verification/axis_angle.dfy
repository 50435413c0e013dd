/** Rotations about an axis: `from_axis_angle` / `fromAxisAngle` as written, the corrected
    construction, and `from_euler` / `fromEuler`. */
module AxisAngleLaws {
  import opened Wrappers
  import opened Numerics
  import V = Vectors
  import VectorLaws
  import opened Quaternions
  import QuaternionLaws

  // Quaternions whose vector parts lie along one unit vector multiply like complex numbers.

  lemma CrossOfParallel(d: V.Vector3, s1: real, s2: real)
    ensures V.Cross(V.Scale(d, s1), V.Scale(d, s2)) == V.Zero
  {
  }

  lemma DotOfParallel(d: V.Vector3, s1: real, s2: real)
    ensures V.Dot(V.Scale(d, s1), V.Scale(d, s2)) == (s1 * s2) * V.Dot(d, d)
  {
  }

  lemma SumOfParallel(d: V.Vector3, c1: real, s1: real, c2: real, s2: real)
    ensures V.Add(V.Add(V.Scale(V.Scale(d, s2), c1), V.Scale(V.Scale(d, s1), c2)), V.Zero)
         == V.Scale(d, c1 * s2 + c2 * s1)
  {
  }

  /** `(c1, s1 d) * (c2, s2 d) = (c1 c2 - s1 s2, (c1 s2 + c2 s1) d)` for a unit vector `d`. */
  lemma MulCoaxial(d: V.Vector3, c1: real, s1: real, c2: real, s2: real)
    requires V.SquareMagnitude(d) == 1.0
    ensures Mul(Quaternion(c1, V.Scale(d, s1)), Quaternion(c2, V.Scale(d, s2)))
         == Quaternion(c1 * c2 - s1 * s2, V.Scale(d, c1 * s2 + c2 * s1))
  {
    CrossOfParallel(d, s1, s2);
    DotOfParallel(d, s1, s2);
    SumOfParallel(d, c1, s1, c2, s2);
  }

  lemma HalfAngles(a: real, b: real)
    ensures (a + b) / 2.0 == a / 2.0 + b / 2.0
    ensures (-a) / 2.0 == -(a / 2.0)
  {
  }

  /** `sin 0 = 0` and `cos 0 = 1` follow from the parity and addition laws. */
  lemma SinCosZero(m: MathLib)
    requires m.Lawful() && m.AngleLaws()
    ensures m.sin(0.0) == 0.0 && m.cos(0.0) == 1.0
  {
    assert m.ParityAt(0.0);
    assert m.AdditionAt(0.0, 0.0);
    assert m.PythagorasAt(0.0);
    assert m.cos(0.0) * (m.cos(0.0) - 1.0) == 0.0;
    ZeroProduct(m.cos(0.0), m.cos(0.0) - 1.0);
  }

  /** The unit vector along a non-zero axis. */
  lemma AxisDirection(m: MathLib, axis: V.Vector3)
    requires m.Lawful() && axis != V.Zero
    ensures V.SquareMagnitude(V.Direction(m, axis)) == 1.0
  {
    VectorLaws.DirectionIsUnit(m, axis);
  }

  /** The rotation by angle 0 is `IDENTITY`. */
  lemma FromAxisAngleOfZero(m: MathLib, axis: V.Vector3)
    requires m.Lawful() && m.AngleLaws()
    ensures FromAxisAngle(m, axis, 0.0) == Identity
    ensures FromAxisAngleAsWritten(m, axis, 0.0) == Identity
  {
    SinCosZero(m);
    assert 0.0 / 2.0 == 0.0;
    assert Abs(0.0) == 0.0;
    VectorLaws.ScaleByZero(V.Direction(m, axis));
  }

  /** The addition laws at half angles, in the form the coaxial product produces. */
  lemma HalfAngleSum(m: MathLib, a: real, b: real)
    requires m.AngleLaws()
    ensures m.cos((a + b) / 2.0) == m.cos(a / 2.0) * m.cos(b / 2.0) - m.sin(a / 2.0) * m.sin(b / 2.0)
    ensures m.sin((a + b) / 2.0) == m.cos(a / 2.0) * m.sin(b / 2.0) + m.cos(b / 2.0) * m.sin(a / 2.0)
  {
    HalfAngles(a, b);
    assert m.AdditionAt(a / 2.0, b / 2.0);
  }

  /** Rotating by `a` and then by `b` about the same non-zero axis is rotating by `a + b`. */
  lemma FromAxisAngleComposes(m: MathLib, axis: V.Vector3, a: real, b: real)
    requires m.Lawful() && m.AngleLaws() && axis != V.Zero
    ensures Mul(FromAxisAngle(m, axis, a), FromAxisAngle(m, axis, b)) == FromAxisAngle(m, axis, a + b)
  {
    var ha, hb, hc := a / 2.0, b / 2.0, (a + b) / 2.0;
    AxisDirection(m, axis);
    HalfAngleSum(m, a, b);
    MulCoaxialSum(V.Direction(m, axis), m.cos(ha), m.sin(ha), m.cos(hb), m.sin(hb), m.cos(hc), m.sin(hc));
  }

  lemma MulCoaxialSum(d: V.Vector3, c1: real, s1: real, c2: real, s2: real, c3: real, s3: real)
    requires V.SquareMagnitude(d) == 1.0
    requires c3 == c1 * c2 - s1 * s2 && s3 == c1 * s2 + c2 * s1
    ensures Mul(Quaternion(c1, V.Scale(d, s1)), Quaternion(c2, V.Scale(d, s2))) == Quaternion(c3, V.Scale(d, s3))
  {
    MulCoaxial(d, c1, s1, c2, s2);
  }

  /** The rotation by `-t` undoes the rotation by `t`. */
  lemma FromAxisAngleOpposite(m: MathLib, axis: V.Vector3, t: real)
    requires m.Lawful() && m.AngleLaws() && axis != V.Zero
    ensures Mul(FromAxisAngle(m, axis, t), FromAxisAngle(m, axis, -t)) == Identity
  {
    FromAxisAngleComposes(m, axis, t, -t);
    assert t + -t == 0.0;
    FromAxisAngleOfZero(m, axis);
  }

  /** About a non-zero axis the construction gives a unit quaternion. */
  lemma FromAxisAngleIsUnit(m: MathLib, axis: V.Vector3, t: real)
    requires m.Lawful() && axis != V.Zero
    ensures NormSquared(FromAxisAngle(m, axis, t)) == 1.0
  {
    var d := V.Direction(m, axis);
    var c, s := m.cos(t / 2.0), m.sin(t / 2.0);
    AxisDirection(m, axis);
    VectorLaws.SquareMagnitudeOfScale(d, s);
    QuaternionLaws.NormSquaredComponents(FromAxisAngle(m, axis, t));
    assert m.PythagorasAt(t / 2.0);
  }

  /** The as-written construction of both languages is a unit quaternion too: dropping
      the sign of `sin(t/2)` does not change the norm. */
  lemma AsWrittenIsUnit(m: MathLib, axis: V.Vector3, t: real)
    requires m.Lawful() && axis != V.Zero
    ensures NormSquared(FromAxisAngleAsWritten(m, axis, t)) == 1.0
    ensures NormSquared(FromAxisAngleAsWrittenTs(m, axis, t)) == 1.0
  {
    var d := V.Direction(m, axis);
    var s := m.sin(t / 2.0);
    var q := FromAxisAngleAsWritten(m, axis, t);
    assert q.vec == V.Scale(d, Abs(s));
    AxisDirection(m, axis);
    VectorLaws.SquareMagnitudeOfScale(d, Abs(s));
    QuaternionLaws.NormSquaredComponents(q);
    assert Abs(s) * Abs(s) == s * s;
    assert m.PythagorasAt(t / 2.0);
  }

  /** As written, the construction cannot tell `t` from `-t`. */
  lemma AsWrittenIgnoresSign(m: MathLib, axis: V.Vector3, t: real)
    requires m.Lawful() && m.AngleLaws()
    ensures FromAxisAngleAsWritten(m, axis, -t) == FromAxisAngleAsWritten(m, axis, t)
  {
    HalfAngles(t, 0.0);
    assert m.ParityAt(t / 2.0);
    var h, nh := t / 2.0, (-t) / 2.0;
    assert m.cos(nh) == m.cos(h);
    assert Abs(m.sin(nh)) == Abs(m.sin(h));
  }

  /** As written, the construction agrees with the intended one exactly when
      `sin(angle/2)` is not negative (for a non-zero axis). */
  lemma AsWrittenAgreesIff(m: MathLib, axis: V.Vector3, t: real)
    requires m.Lawful() && axis != V.Zero
    ensures FromAxisAngleAsWritten(m, axis, t) == FromAxisAngle(m, axis, t) <==> m.sin(t / 2.0) >= 0.0
  {
    var d := V.Direction(m, axis);
    var s := m.sin(t / 2.0);
    assert FromAxisAngleAsWritten(m, axis, t).vec == V.Scale(d, Abs(s));
    assert FromAxisAngle(m, axis, t).vec == V.Scale(d, s);
    if s < 0.0 && V.Scale(d, Abs(s)) == V.Scale(d, s) {
      AxisDirection(m, axis);
      ScaleInjective(d, Abs(s), s);
    }
  }

  /** Scaling a unit vector is injective in the factor. */
  lemma ScaleInjective(d: V.Vector3, a: real, b: real)
    requires V.SquareMagnitude(d) == 1.0 && V.Scale(d, a) == V.Scale(d, b)
    ensures a == b
  {
  }

  /** As written, the rotation by `-t` does not undo the rotation by `t` whenever neither
      `sin(t/2)` nor `cos(t/2)` vanishes (for example `t = -pi/2`). */
  lemma AsWrittenOppositeIsNotInverse(m: MathLib, axis: V.Vector3, t: real)
    requires m.Lawful() && m.AngleLaws() && axis != V.Zero
    requires m.sin(t / 2.0) != 0.0 && m.cos(t / 2.0) != 0.0
    ensures Mul(FromAxisAngleAsWritten(m, axis, t), FromAxisAngleAsWritten(m, axis, -t)) != Identity
  {
    var d := V.Direction(m, axis);
    var c, a := m.cos(t / 2.0), Abs(m.sin(t / 2.0));
    AxisDirection(m, axis);
    AsWrittenIgnoresSign(m, axis, t);
    MulCoaxial(d, c, a, c, a);
    var k := c * a + c * a;
    assert k != 0.0 by {
      assert k == 2.0 * (c * a);
      if c * a == 0.0 {
        ZeroProduct(c, a);
      }
    }
    if V.Scale(d, k) == V.Zero {
      VectorLaws.ScaleByZero(d);
      ScaleInjective(d, k, 0.0);
    }
  }

  /** With the other two angles zero, the corrected Euler rotation is the rotation by `t`
      about `LEFT`, for every `t`. */
  lemma FromEulerAboutX(m: MathLib, t: real)
    requires m.Lawful() && m.AngleLaws()
    ensures FromEuler(m, t, 0.0, 0.0) == FromAxisAngle(m, V.Left, t)
  {
    var q := FromAxisAngle(m, V.Left, t);
    FromAxisAngleOfZero(m, V.Up);
    FromAxisAngleOfZero(m, V.Forward);
    QuaternionLaws.IdentityIsUnit(q);
    assert Mul(Identity, q) == q;
  }

  /** With the other two angles zero, the corrected Euler rotation is the rotation by `t`
      about `UP`. */
  lemma FromEulerAboutY(m: MathLib, t: real)
    requires m.Lawful() && m.AngleLaws()
    ensures FromEuler(m, 0.0, t, 0.0) == FromAxisAngle(m, V.Up, t)
  {
    var q := FromAxisAngle(m, V.Up, t);
    FromAxisAngleOfZero(m, V.Left);
    FromAxisAngleOfZero(m, V.Forward);
    QuaternionLaws.IdentityIsUnit(q);
    assert Mul(q, Identity) == q;
  }

  /** With the other two angles zero, the corrected Euler rotation is the rotation by `t`
      about `FORWARD`. */
  lemma FromEulerAboutZ(m: MathLib, t: real)
    requires m.Lawful() && m.AngleLaws()
    ensures FromEuler(m, 0.0, 0.0, t) == FromAxisAngle(m, V.Forward, t)
  {
    var q := FromAxisAngle(m, V.Forward, t);
    FromAxisAngleOfZero(m, V.Left);
    FromAxisAngleOfZero(m, V.Up);
    QuaternionLaws.IdentityIsUnit(Identity);
    QuaternionLaws.IdentityIsUnit(q);
  }

  /** `from_euler(t, 0, 0)` as written is the as-written rotation by `t` about `LEFT`:
      the two zero angles contribute `IDENTITY`. */
  lemma FromEulerAsWrittenAboutX(m: MathLib, t: real)
    requires m.Lawful() && m.AngleLaws()
    ensures FromEulerAsWritten(m, t, 0.0, 0.0) == FromAxisAngleAsWritten(m, V.Left, t)
    ensures FromEulerAsWrittenTs(m, t, 0.0, 0.0) == FromAxisAngleAsWrittenTs(m, V.Left, t)
  {
    var q := FromAxisAngleAsWritten(m, V.Left, t);
    FromAxisAngleOfZero(m, V.Up);
    FromAxisAngleOfZero(m, V.Forward);
    QuaternionLaws.IdentityIsUnit(q);
    assert Mul(Identity, q) == q;
  }

  /** `from_euler(0, t, 0)` as written is the as-written rotation by `t` about `UP`. */
  lemma FromEulerAsWrittenAboutY(m: MathLib, t: real)
    requires m.Lawful() && m.AngleLaws()
    ensures FromEulerAsWritten(m, 0.0, t, 0.0) == FromAxisAngleAsWritten(m, V.Up, t)
    ensures FromEulerAsWrittenTs(m, 0.0, t, 0.0) == FromAxisAngleAsWrittenTs(m, V.Up, t)
  {
    var q := FromAxisAngleAsWritten(m, V.Up, t);
    FromAxisAngleOfZero(m, V.Left);
    FromAxisAngleOfZero(m, V.Forward);
    QuaternionLaws.IdentityIsUnit(q);
    assert Mul(q, Identity) == q;
  }

  /** `from_euler(0, 0, t)` as written is the as-written rotation by `t` about `FORWARD`. */
  lemma FromEulerAsWrittenAboutZ(m: MathLib, t: real)
    requires m.Lawful() && m.AngleLaws()
    ensures FromEulerAsWritten(m, 0.0, 0.0, t) == FromAxisAngleAsWritten(m, V.Forward, t)
    ensures FromEulerAsWrittenTs(m, 0.0, 0.0, t) == FromAxisAngleAsWrittenTs(m, V.Forward, t)
  {
    var q := FromAxisAngleAsWritten(m, V.Forward, t);
    FromAxisAngleOfZero(m, V.Left);
    FromAxisAngleOfZero(m, V.Up);
    QuaternionLaws.IdentityIsUnit(Identity);
    QuaternionLaws.IdentityIsUnit(q);
  }

  /** As written, `from_euler` is the intended Euler rotation whenever none of the three
      half-angle sines is negative; this covers the angles `0 <= a <= 2 pi`. */
  lemma FromEulerAsWrittenAgrees(m: MathLib, x: real, y: real, z: real)
    requires m.Lawful()
    requires m.sin(x / 2.0) >= 0.0 && m.sin(y / 2.0) >= 0.0 && m.sin(z / 2.0) >= 0.0
    ensures FromEulerAsWritten(m, x, y, z) == FromEuler(m, x, y, z)
  {
    AsWrittenAgreesIff(m, V.Left, x);
    AsWrittenAgreesIff(m, V.Up, y);
    AsWrittenAgreesIff(m, V.Forward, z);
  }

  /** As written, `from_euler(t, 0, 0)` and `fromEuler(t, 0, 0)` are not the intended
      rotation by `t` whenever `sin(t/2) < 0` (for example `t = -pi/2`). */
  lemma FromEulerAsWrittenDiffers(m: MathLib, t: real)
    requires m.Lawful() && m.AngleLaws() && m.sin(t / 2.0) < 0.0
    ensures FromEulerAsWritten(m, t, 0.0, 0.0) != FromEuler(m, t, 0.0, 0.0)
    ensures FromEulerAsWrittenTs(m, t, 0.0, 0.0) != FromEuler(m, t, 0.0, 0.0)
  {
    FromEulerAsWrittenAboutX(m, t);
    FromEulerAboutX(m, t);
    AsWrittenAgreesIff(m, V.Left, t);
  }

  /** `rotate_about_axis` by angle 0 leaves the vector unchanged. */
  lemma RotateAboutAxisByZero(m: MathLib, v: V.Vector3, axis: V.Vector3)
    requires m.Lawful() && m.AngleLaws()
    ensures RotateAboutAxis(m, v, axis, 0.0) == Success(v)
  {
    FromAxisAngleOfZero(m, axis);
    QuaternionLaws.RotateByIdentity(v);
  }
}
