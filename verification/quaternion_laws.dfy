/** Algebraic laws of quaternions and of rotation by conjugation. */
module QuaternionLaws {
  import opened Wrappers
  import opened Numerics
  import V = Vectors
  import VectorLaws
  import opened Quaternions

  /** The vector form of the Hamilton product agrees with the usual component formula
      for `(a1 + b1 i + c1 j + d1 k)(a2 + b2 i + c2 j + d2 k)`. */
  lemma MulComponents(p: Quaternion, q: Quaternion)
    ensures Mul(p, q) == Quaternion(
      p.re * q.re - p.vec.x * q.vec.x - p.vec.y * q.vec.y - p.vec.z * q.vec.z,
      V.Vector3(
        p.re * q.vec.x + p.vec.x * q.re + p.vec.y * q.vec.z - p.vec.z * q.vec.y,
        p.re * q.vec.y - p.vec.x * q.vec.z + p.vec.y * q.re + p.vec.z * q.vec.x,
        p.re * q.vec.z + p.vec.x * q.vec.y - p.vec.y * q.vec.x + p.vec.z * q.re))
  {
  }

  /** `(A, B, C, D)` is the product of the first two quaternions, `(E, F, G, H)` that of
      the last two. */
  ghost predicate Products(a1: real, b1: real, c1: real, d1: real, a2: real, b2: real, c2: real, d2: real,
                           a3: real, b3: real, c3: real, d3: real,
                           A: real, B: real, C: real, D: real, E: real, F: real, G: real, H: real)
  {
    && A == a1 * a2 - b1 * b2 - c1 * c2 - d1 * d2
    && B == a1 * b2 + b1 * a2 + c1 * d2 - d1 * c2
    && C == a1 * c2 - b1 * d2 + c1 * a2 + d1 * b2
    && D == a1 * d2 + b1 * c2 - c1 * b2 + d1 * a2
    && E == a2 * a3 - b2 * b3 - c2 * c3 - d2 * d3
    && F == a2 * b3 + b2 * a3 + c2 * d3 - d2 * c3
    && G == a2 * c3 - b2 * d3 + c2 * a3 + d2 * b3
    && H == a2 * d3 + b2 * c3 - c2 * b3 + d2 * a3
  }

  // Associativity, one component of the Hamilton product at a time.

  lemma AssociativeRe(a1: real, b1: real, c1: real, d1: real, a2: real, b2: real, c2: real, d2: real,
                       a3: real, b3: real, c3: real, d3: real,
                       A: real, B: real, C: real, D: real, E: real, F: real, G: real, H: real)
    requires Products(a1, b1, c1, d1, a2, b2, c2, d2, a3, b3, c3, d3, A, B, C, D, E, F, G, H)
    ensures A * a3 - B * b3 - C * c3 - D * d3 == a1 * E - b1 * F - c1 * G - d1 * H
  {
  }

  lemma AssociativeI(a1: real, b1: real, c1: real, d1: real, a2: real, b2: real, c2: real, d2: real,
                       a3: real, b3: real, c3: real, d3: real,
                       A: real, B: real, C: real, D: real, E: real, F: real, G: real, H: real)
    requires Products(a1, b1, c1, d1, a2, b2, c2, d2, a3, b3, c3, d3, A, B, C, D, E, F, G, H)
    ensures A * b3 + B * a3 + C * d3 - D * c3 == a1 * F + b1 * E + c1 * H - d1 * G
  {
  }

  lemma AssociativeJ(a1: real, b1: real, c1: real, d1: real, a2: real, b2: real, c2: real, d2: real,
                       a3: real, b3: real, c3: real, d3: real,
                       A: real, B: real, C: real, D: real, E: real, F: real, G: real, H: real)
    requires Products(a1, b1, c1, d1, a2, b2, c2, d2, a3, b3, c3, d3, A, B, C, D, E, F, G, H)
    ensures A * c3 - B * d3 + C * a3 + D * b3 == a1 * G - b1 * H + c1 * E + d1 * F
  {
  }

  lemma AssociativeK(a1: real, b1: real, c1: real, d1: real, a2: real, b2: real, c2: real, d2: real,
                       a3: real, b3: real, c3: real, d3: real,
                       A: real, B: real, C: real, D: real, E: real, F: real, G: real, H: real)
    requires Products(a1, b1, c1, d1, a2, b2, c2, d2, a3, b3, c3, d3, A, B, C, D, E, F, G, H)
    ensures A * d3 + B * c3 - C * b3 + D * a3 == a1 * H + b1 * G - c1 * F + d1 * E
  {
  }

  /** The components of `p * q` and `q * r`, as `Products` expects them. */
  lemma ProductsOf(p: Quaternion, q: Quaternion, r: Quaternion)
    ensures Products(p.re, p.vec.x, p.vec.y, p.vec.z, q.re, q.vec.x, q.vec.y, q.vec.z, r.re, r.vec.x, r.vec.y, r.vec.z,
      Mul(p, q).re, Mul(p, q).vec.x, Mul(p, q).vec.y, Mul(p, q).vec.z, Mul(q, r).re, Mul(q, r).vec.x, Mul(q, r).vec.y, Mul(q, r).vec.z)
  {
    MulComponents(p, q);
    MulComponents(q, r);
  }

  lemma AssociativeAtomsRe(p: Quaternion, q: Quaternion, r: Quaternion)
    ensures Mul(p, q).re * r.re - Mul(p, q).vec.x * r.vec.x - Mul(p, q).vec.y * r.vec.y - Mul(p, q).vec.z * r.vec.z
         == p.re * Mul(q, r).re - p.vec.x * Mul(q, r).vec.x - p.vec.y * Mul(q, r).vec.y - p.vec.z * Mul(q, r).vec.z
  {
    var pq, qr := Mul(p, q), Mul(q, r);
    ProductsOf(p, q, r);
    AssociativeRe(p.re, p.vec.x, p.vec.y, p.vec.z, q.re, q.vec.x, q.vec.y, q.vec.z, r.re, r.vec.x, r.vec.y, r.vec.z,
      pq.re, pq.vec.x, pq.vec.y, pq.vec.z, qr.re, qr.vec.x, qr.vec.y, qr.vec.z);
  }

  lemma AssociativeAtomsI(p: Quaternion, q: Quaternion, r: Quaternion)
    ensures Mul(p, q).re * r.vec.x + Mul(p, q).vec.x * r.re + Mul(p, q).vec.y * r.vec.z - Mul(p, q).vec.z * r.vec.y
         == p.re * Mul(q, r).vec.x + p.vec.x * Mul(q, r).re + p.vec.y * Mul(q, r).vec.z - p.vec.z * Mul(q, r).vec.y
  {
    var pq, qr := Mul(p, q), Mul(q, r);
    ProductsOf(p, q, r);
    AssociativeI(p.re, p.vec.x, p.vec.y, p.vec.z, q.re, q.vec.x, q.vec.y, q.vec.z, r.re, r.vec.x, r.vec.y, r.vec.z,
      pq.re, pq.vec.x, pq.vec.y, pq.vec.z, qr.re, qr.vec.x, qr.vec.y, qr.vec.z);
  }

  lemma AssociativeAtomsJ(p: Quaternion, q: Quaternion, r: Quaternion)
    ensures Mul(p, q).re * r.vec.y - Mul(p, q).vec.x * r.vec.z + Mul(p, q).vec.y * r.re + Mul(p, q).vec.z * r.vec.x
         == p.re * Mul(q, r).vec.y - p.vec.x * Mul(q, r).vec.z + p.vec.y * Mul(q, r).re + p.vec.z * Mul(q, r).vec.x
  {
    var pq, qr := Mul(p, q), Mul(q, r);
    ProductsOf(p, q, r);
    AssociativeJ(p.re, p.vec.x, p.vec.y, p.vec.z, q.re, q.vec.x, q.vec.y, q.vec.z, r.re, r.vec.x, r.vec.y, r.vec.z,
      pq.re, pq.vec.x, pq.vec.y, pq.vec.z, qr.re, qr.vec.x, qr.vec.y, qr.vec.z);
  }

  lemma AssociativeAtomsK(p: Quaternion, q: Quaternion, r: Quaternion)
    ensures Mul(p, q).re * r.vec.z + Mul(p, q).vec.x * r.vec.y - Mul(p, q).vec.y * r.vec.x + Mul(p, q).vec.z * r.re
         == p.re * Mul(q, r).vec.z + p.vec.x * Mul(q, r).vec.y - p.vec.y * Mul(q, r).vec.x + p.vec.z * Mul(q, r).re
  {
    var pq, qr := Mul(p, q), Mul(q, r);
    ProductsOf(p, q, r);
    AssociativeK(p.re, p.vec.x, p.vec.y, p.vec.z, q.re, q.vec.x, q.vec.y, q.vec.z, r.re, r.vec.x, r.vec.y, r.vec.z,
      pq.re, pq.vec.x, pq.vec.y, pq.vec.z, qr.re, qr.vec.x, qr.vec.y, qr.vec.z);
  }

  lemma AssociativeRePart(p: Quaternion, q: Quaternion, r: Quaternion)
    ensures Mul(Mul(p, q), r).re == Mul(p, Mul(q, r)).re
  {
    AssociativeAtomsRe(p, q, r);
    MulComponents(Mul(p, q), r);
    MulComponents(p, Mul(q, r));
  }

  lemma AssociativeIPart(p: Quaternion, q: Quaternion, r: Quaternion)
    ensures Mul(Mul(p, q), r).vec.x == Mul(p, Mul(q, r)).vec.x
  {
    AssociativeAtomsI(p, q, r);
    MulComponents(Mul(p, q), r);
    MulComponents(p, Mul(q, r));
  }

  lemma AssociativeJPart(p: Quaternion, q: Quaternion, r: Quaternion)
    ensures Mul(Mul(p, q), r).vec.y == Mul(p, Mul(q, r)).vec.y
  {
    AssociativeAtomsJ(p, q, r);
    MulComponents(Mul(p, q), r);
    MulComponents(p, Mul(q, r));
  }

  lemma AssociativeKPart(p: Quaternion, q: Quaternion, r: Quaternion)
    ensures Mul(Mul(p, q), r).vec.z == Mul(p, Mul(q, r)).vec.z
  {
    AssociativeAtomsK(p, q, r);
    MulComponents(Mul(p, q), r);
    MulComponents(p, Mul(q, r));
  }

  lemma MulAssociative(p: Quaternion, q: Quaternion, r: Quaternion)
    ensures Mul(Mul(p, q), r) == Mul(p, Mul(q, r))
  {
    AssociativeRePart(p, q, r);
    AssociativeIPart(p, q, r);
    AssociativeJPart(p, q, r);
    AssociativeKPart(p, q, r);
  }

  /** Python's `Quaternion * Vector3` is the product with the pure quaternion `(0, v)`. */
  lemma MulVectorIsMulPure(q: Quaternion, v: V.Vector3)
    ensures MulVector(q, v) == Mul(q, Pure(v))
  {
    MulComponents(q, Pure(v));
  }

  /** `IDENTITY` is a two-sided unit. */
  lemma IdentityIsUnit(q: Quaternion)
    ensures Mul(Identity, q) == q && Mul(q, Identity) == q
  {
    MulComponents(Identity, q);
    MulComponents(q, Identity);
  }

  /** A real quaternion `(r, 0)` commutes with every `q`, and the product scales every
      component of `q` by `r`. */
  lemma MulByRealScales(r: real, q: Quaternion)
    ensures Mul(Quaternion(r, V.Zero), q) == Scale(q, r)
    ensures Mul(q, Quaternion(r, V.Zero)) == Scale(q, r)
  {
    var v := q.vec;
    assert V.Scale(V.Zero, q.re) == V.Zero;
    assert V.Cross(V.Zero, v) == V.Zero && V.Cross(v, V.Zero) == V.Zero;
    assert V.Scale(v, r) == V.Vector3(v.x * r, v.y * r, v.z * r);
  }

  /** Scaling either factor by `k` scales the product by `k`. */
  lemma MulScale(p: Quaternion, q: Quaternion, k: real)
    ensures Mul(Scale(p, k), q) == Scale(Mul(p, q), k)
    ensures Mul(p, Scale(q, k)) == Scale(Mul(p, q), k)
  {
    var kq := Quaternion(k, V.Zero);
    MulByRealScales(k, p);
    MulByRealScales(k, q);
    MulByRealScales(k, Mul(p, q));
    MulAssociative(kq, p, q);
    MulAssociative(p, q, kq);
  }

  /** `q` times its conjugate, either way round, is the real quaternion `|q|^2`. */
  lemma MulConjugate(q: Quaternion)
    ensures Mul(q, Conjugate(q)) == Quaternion(NormSquared(q), V.Zero)
    ensures Mul(Conjugate(q), q) == Quaternion(NormSquared(q), V.Zero)
  {
    MulComponents(q, Conjugate(q));
    MulComponents(Conjugate(q), q);
  }

  /** Dividing by a non-zero scalar is multiplying by its reciprocal, and undoes scaling. */
  lemma DivideByScalarLaws(q: Quaternion, k: real)
    ensures k == 0.0 ==> DivideByScalar(q, k) == Failure(DivisionByZero)
    ensures k != 0.0 ==> DivideByScalar(Scale(q, k), k) == Success(q)
  {
    if k != 0.0 {
      MulReciprocalCancel(q.re, k);
      VectorLaws.ScaleByReciprocal(q.vec, k);
      var s := Scale(q, k);
      assert s.vec == V.Scale(q.vec, k);
      var t := Scale(s, 1.0 / k);
      assert t.re == q.re && t.vec == q.vec;
      assert DivideByScalar(s, k) == Success(t);
    }
  }

  /** `negate` negates all four components. */
  lemma NegComponents(q: Quaternion)
    ensures Neg(q) == Quaternion(-q.re, V.Vector3(-q.vec.x, -q.vec.y, -q.vec.z))
  {
    VectorLaws.NegComponents(q.vec);
  }

  /** `subtract` is componentwise subtraction. */
  lemma SubComponents(p: Quaternion, q: Quaternion)
    ensures Sub(p, q) == Quaternion(p.re - q.re, V.Vector3(p.vec.x - q.vec.x, p.vec.y - q.vec.y, p.vec.z - q.vec.z))
  {
    VectorLaws.SubComponents(p.vec, q.vec);
  }

  /** Adding or subtracting the zero quaternion returns `q`. */
  lemma AddSubZero(q: Quaternion)
    ensures Add(q, ZeroQuaternion) == q && Sub(q, ZeroQuaternion) == q
  {
    VectorLaws.AddZero(q.vec);
    VectorLaws.SubZero(q.vec);
  }

  /** Subtracting and adding back the same quaternion is the identity. */
  lemma SubThenAdd(p: Quaternion, q: Quaternion)
    ensures Add(Sub(p, q), q) == p
  {
    VectorLaws.SubThenAdd(p.vec, q.vec);
  }

  /** Adding a vector or a number adds the pure quaternion `(0, v)` or the real quaternion
      `(k, 0)`, and `k - q` is the quaternion difference `(k, 0) - q`. */
  lemma MixedArithmetic(q: Quaternion, v: V.Vector3, k: real)
    ensures AddVector(q, v) == Add(q, Pure(v))
    ensures AddReal(q, k) == Add(q, Quaternion(k, V.Zero))
    ensures RSubReal(q, k) == Sub(Quaternion(k, V.Zero), q)
  {
    VectorLaws.AddZero(q.vec);
    VectorLaws.AddZero(V.Neg(q.vec));
  }

  /** The real quaternion `n` scaled by `1 / n` is `IDENTITY`. */
  lemma ScaleRealByReciprocal(n: real)
    requires n != 0.0
    ensures Scale(Quaternion(n, V.Zero), 1.0 / n) == Identity
  {
    assert n * (1.0 / n) == 1.0;
    assert V.Scale(V.Zero, 1.0 / n) == V.Zero;
  }

  /** If `p * q` is the real number `n != 0`, then `q / n` is a right inverse of `p`. */
  lemma RightInverseByScaling(p: Quaternion, q: Quaternion, n: real)
    requires n != 0.0 && Mul(p, q) == Quaternion(n, V.Zero)
    ensures Mul(p, Scale(q, 1.0 / n)) == Identity
  {
    MulScale(p, q, 1.0 / n);
    ScaleRealByReciprocal(n);
  }

  /** If `p * q` is the real number `n != 0`, then `p / n` is a left inverse of `q`. */
  lemma LeftInverseByScaling(p: Quaternion, q: Quaternion, n: real)
    requires n != 0.0 && Mul(p, q) == Quaternion(n, V.Zero)
    ensures Mul(Scale(p, 1.0 / n), q) == Identity
  {
    MulScale(p, q, 1.0 / n);
    ScaleRealByReciprocal(n);
  }

  /** The inverse of a non-zero quaternion is a two-sided inverse. */
  lemma InverseLaw(q: Quaternion)
    requires q != ZeroQuaternion
    ensures Inverse(q).Success?
    ensures Mul(q, Inverse(q).value) == Identity
    ensures Mul(Inverse(q).value, q) == Identity
  {
    var n := NormSquared(q);
    assert Inverse(q) == Success(Scale(Conjugate(q), 1.0 / n));
    MulConjugate(q);
    RightInverseByScaling(q, Conjugate(q), n);
    LeftInverseByScaling(Conjugate(q), q, n);
  }

  /** Inverses are unique: a left inverse of `q` is its inverse. */
  lemma InverseUnique(q: Quaternion, r: Quaternion)
    requires q != ZeroQuaternion && Mul(r, q) == Identity
    ensures r == Inverse(q).value
  {
    var qi := Inverse(q).value;
    InverseLaw(q);
    IdentityIsUnit(r);
    IdentityIsUnit(qi);
    MulAssociative(r, q, qi);
  }

  /** The inverse of the inverse is the quaternion itself. */
  lemma InverseInvolutive(q: Quaternion)
    requires q != ZeroQuaternion
    ensures Inverse(q).Success? && Inverse(q).value != ZeroQuaternion
    ensures Inverse(Inverse(q).value) == Success(q)
  {
    var qi := Inverse(q).value;
    InverseLaw(q);
    if qi == ZeroQuaternion {
      MulZero(q);
      assert false;
    }
    InverseUnique(qi, q);
  }

  lemma MulZero(q: Quaternion)
    ensures Mul(q, ZeroQuaternion) == ZeroQuaternion
  {
    assert V.Scale(V.Zero, q.re) == V.Zero;
    assert V.Scale(q.vec, 0.0) == V.Zero;
    assert V.Cross(q.vec, V.Zero) == V.Zero;
  }

  /** `divideBy(o)` is multiplication by `o.inverse()`; the unit test's
      `(0, (0, 2, 3)) / (0, (1, 0, 0)) = (0, (0, -3, 2))`. */
  lemma DivideByExample()
    ensures DivideBy(Quaternion(0.0, V.Vector3(0.0, 2.0, 3.0)), Quaternion(0.0, V.Vector3(1.0, 0.0, 0.0)))
         == Success(Quaternion(0.0, V.Vector3(0.0, -3.0, 2.0)))
  {
    InverseOfI();
    MulComponents(Quaternion(0.0, V.Vector3(0.0, 2.0, 3.0)), Quaternion(0.0, V.Vector3(-1.0, 0.0, 0.0)));
  }

  /** The unit quaternion `i` has inverse `-i`. */
  lemma InverseOfI()
    ensures Inverse(Quaternion(0.0, V.Vector3(1.0, 0.0, 0.0))) == Success(Quaternion(0.0, V.Vector3(-1.0, 0.0, 0.0)))
  {
    var i := Quaternion(0.0, V.Vector3(1.0, 0.0, 0.0));
    var ci := Quaternion(0.0, V.Vector3(-1.0, 0.0, 0.0));
    NormSquaredOfI();
    assert Conjugate(i) == ci;
    assert Scale(ci, 1.0 / 1.0) == ci;
  }

  lemma NormSquaredOfI()
    ensures NormSquared(Quaternion(0.0, V.Vector3(1.0, 0.0, 0.0))) == 1.0
  {
    NormSquaredComponents(Quaternion(0.0, V.Vector3(1.0, 0.0, 0.0)));
  }

  lemma NormSquaredComponents(q: Quaternion)
    ensures NormSquared(q) == q.re * q.re + (q.vec.x * q.vec.x + q.vec.y * q.vec.y + q.vec.z * q.vec.z)
  {
  }

  /** `IDENTITY` is its own inverse. */
  lemma InverseOfIdentity()
    ensures Inverse(Identity) == Success(Identity)
  {
    NormSquaredOfIdentity();
    ConjugateOfIdentity();
    ScaleIdentityByOne();
  }

  lemma ConjugateOfIdentity()
    ensures Conjugate(Identity) == Identity
  {
  }

  lemma ScaleIdentityByOne()
    ensures Scale(Identity, 1.0 / 1.0) == Identity
  {
  }

  lemma NormSquaredOfIdentity()
    ensures NormSquared(Identity) == 1.0
  {
    NormSquaredComponents(Identity);
  }

  /** Rotating by `IDENTITY` leaves every vector unchanged. */
  lemma RotateByIdentity(v: V.Vector3)
    ensures Rotate(v, Identity) == Success(v)
  {
    InverseOfIdentity();
    MulVectorIsMulPure(Identity, v);
    IdentityIsUnit(Pure(v));
  }

  lemma ConjugationRe(a: real, b: real, c: real, d: real, x: real, y: real, z: real,
                      A: real, B: real, C: real, D: real)
    requires A == -(b * x) - c * y - d * z
    requires B == a * x + c * z - d * y
    requires C == a * y - b * z + d * x
    requires D == a * z + b * y - c * x
    ensures A * a + B * b + C * c + D * d == 0.0
  {
  }

  /** `q * (0, v)` written in components. */
  lemma MulPureComponents(q: Quaternion, v: V.Vector3)
    ensures Mul(q, Pure(v)).re == -(q.vec.x * v.x) - q.vec.y * v.y - q.vec.z * v.z
    ensures Mul(q, Pure(v)).vec.x == q.re * v.x + q.vec.y * v.z - q.vec.z * v.y
    ensures Mul(q, Pure(v)).vec.y == q.re * v.y - q.vec.x * v.z + q.vec.z * v.x
    ensures Mul(q, Pure(v)).vec.z == q.re * v.z + q.vec.x * v.y - q.vec.y * v.x
  {
    MulComponents(q, Pure(v));
  }

  /** `q * (0, v) * conj(q)` has no real part. */
  lemma ConjugationByConjugateIsPure(q: Quaternion, v: V.Vector3)
    ensures Mul(Mul(q, Pure(v)), Conjugate(q)).re == 0.0
  {
    var w := Mul(q, Pure(v));
    MulPureComponents(q, v);
    ConjugationRe(q.re, q.vec.x, q.vec.y, q.vec.z, v.x, v.y, v.z, w.re, w.vec.x, w.vec.y, w.vec.z);
    MulComponents(w, Conjugate(q));
    assert Conjugate(q) == Quaternion(q.re, V.Vector3(-q.vec.x, -q.vec.y, -q.vec.z));
  }

  /** For non-zero `q`, `q * (0, v) * q^-1` is again a pure quaternion, so `Rotate` keeps
      all of it. */
  lemma ConjugationIsPure(q: Quaternion, v: V.Vector3)
    requires q != ZeroQuaternion
    ensures Inverse(q).Success?
    ensures Mul(Mul(q, Pure(v)), Inverse(q).value) == Pure(Rotate(v, q).value)
  {
    var n := NormSquared(q);
    var w := Mul(q, Pure(v));
    assert Inverse(q) == Success(Scale(Conjugate(q), 1.0 / n));
    MulScale(w, Conjugate(q), 1.0 / n);
    ConjugationByConjugateIsPure(q, v);
    MulVectorIsMulPure(q, v);
  }

  /** Rotating by non-zero `q` and then by `q.inverse()` gives back the vector. */
  lemma RotateRoundTrip(v: V.Vector3, q: Quaternion)
    requires q != ZeroQuaternion
    ensures Rotate(v, q).Success? && Inverse(q).Success?
    ensures Rotate(Rotate(v, q).value, Inverse(q).value) == Success(v)
  {
    var qi := Inverse(q).value;
    InverseLaw(q);
    InverseInvolutive(q);
    var pv := Pure(v);
    var u := Rotate(v, q).value;
    ConjugationIsPure(q, v);
    assert Pure(u) == Mul(Mul(q, pv), qi);
    MulVectorIsMulPure(qi, u);
    assert Rotate(u, qi) == Success(Mul(Mul(qi, Pure(u)), q).vec);
    calc {
      Mul(Mul(qi, Pure(u)), q);
      Mul(Mul(qi, Mul(Mul(q, pv), qi)), q);
      { MulAssociative(qi, Mul(q, pv), qi); }
      Mul(Mul(Mul(qi, Mul(q, pv)), qi), q);
      { MulAssociative(qi, q, pv); }
      Mul(Mul(Mul(Mul(qi, q), pv), qi), q);
      { IdentityIsUnit(pv); }
      Mul(Mul(pv, qi), q);
      { MulAssociative(pv, qi, q); }
      Mul(pv, Mul(qi, q));
      { IdentityIsUnit(pv); }
      pv;
    }
  }
}
