/** Quaternions over the reals: the product, conjugation and rotation used by the IMU frame
    change. */
module QuaternionAlgebra {

  datatype Quat = Quat(w: real, x: real, y: real, z: real)
  datatype Vec = Vec(x: real, y: real, z: real)

  // The product of two quaternions given by their components.
  function Product(aw: real, ax: real, ay: real, az: real, bw: real, bx: real, bj: real, bz: real): Quat {
    Quat(aw * bw - ax * bx - ay * bj - az * bz,
         aw * bx + ax * bw + ay * bz - az * bj,
         aw * bj - ax * bz + ay * bw + az * bx,
         aw * bz + ax * bj - ay * bx + az * bw)
  }

  // The real row of the product, and the row of one imaginary unit; the other two rows are
  // that one with the units taken round in turn.
  function RealRow(aw: real, ax: real, ay: real, az: real, bw: real, bx: real, bj: real, bz: real): real {
    aw * bw - ax * bx - ay * bj - az * bz
  }

  function UnitRow(aw: real, ax: real, ay: real, az: real, bw: real, bx: real, bj: real, bz: real): real {
    aw * bx + ax * bw + ay * bz - az * bj
  }

  lemma ProductRows(aw: real, ax: real, ay: real, az: real, bw: real, bx: real, bj: real, bz: real)
    ensures Product(aw, ax, ay, az, bw, bx, bj, bz)
         == Quat(RealRow(aw, ax, ay, az, bw, bx, bj, bz), UnitRow(aw, ax, ay, az, bw, bx, bj, bz),
                 UnitRow(aw, ay, az, ax, bw, bj, bz, bx), UnitRow(aw, az, ax, ay, bw, bz, bx, bj))
  {
  }

  function Mul(a: Quat, b: Quat): Quat {
    Product(a.w, a.x, a.y, a.z, b.w, b.x, b.y, b.z)
  }

  function Conj(q: Quat): Quat {
    Quat(q.w, -q.x, -q.y, -q.z)
  }

  function NormSq(q: Quat): real {
    q.w * q.w + q.x * q.x + q.y * q.y + q.z * q.z
  }

  function Pure(v: Vec): Quat {
    Quat(0.0, v.x, v.y, v.z)
  }

  function Scale(k: real, q: Quat): Quat {
    Quat(k * q.w, k * q.x, k * q.y, k * q.z)
  }

  // q v q*: rotation of v by q, times the squared norm of q.
  function Sandwich(q: Quat, v: Quat): Quat {
    Mul(Mul(q, v), Conj(q))
  }

  // Replacing a factor by an equal expression, which the solver does not do under a product.
  lemma Subst(x: real, e: real, c: real)
    requires x == e
    ensures x * c == e * c && c * x == c * e
  {
  }

  // Components of (a b) c and a (b c), with p = a b and r = b c.
  lemma AssocReal(a0: real, a1: real, a2: real, a3: real,
                  b0: real, b1: real, b2: real, b3: real,
                  c0: real, c1: real, c2: real, c3: real,
                  p0: real, p1: real, p2: real, p3: real,
                  r0: real, r1: real, r2: real, r3: real)
    requires p0 == RealRow(a0, a1, a2, a3, b0, b1, b2, b3) && p1 == UnitRow(a0, a1, a2, a3, b0, b1, b2, b3)
    requires p2 == UnitRow(a0, a2, a3, a1, b0, b2, b3, b1) && p3 == UnitRow(a0, a3, a1, a2, b0, b3, b1, b2)
    requires r0 == RealRow(b0, b1, b2, b3, c0, c1, c2, c3) && r1 == UnitRow(b0, b1, b2, b3, c0, c1, c2, c3)
    requires r2 == UnitRow(b0, b2, b3, b1, c0, c2, c3, c1) && r3 == UnitRow(b0, b3, b1, b2, c0, c3, c1, c2)
    ensures RealRow(p0, p1, p2, p3, c0, c1, c2, c3) == RealRow(a0, a1, a2, a3, r0, r1, r2, r3)
  {
    Subst(p0, a0 * b0 - a1 * b1 - a2 * b2 - a3 * b3, c0);
    Subst(p1, a0 * b1 + a1 * b0 + a2 * b3 - a3 * b2, c1);
    Subst(p2, a0 * b2 - a1 * b3 + a2 * b0 + a3 * b1, c2);
    Subst(p3, a0 * b3 + a1 * b2 - a2 * b1 + a3 * b0, c3);
    Subst(r0, b0 * c0 - b1 * c1 - b2 * c2 - b3 * c3, a0);
    Subst(r1, b0 * c1 + b1 * c0 + b2 * c3 - b3 * c2, a1);
    Subst(r2, b0 * c2 - b1 * c3 + b2 * c0 + b3 * c1, a2);
    Subst(r3, b0 * c3 + b1 * c2 - b2 * c1 + b3 * c0, a3);
  }

  lemma AssocFirst(a0: real, a1: real, a2: real, a3: real,
                  b0: real, b1: real, b2: real, b3: real,
                  c0: real, c1: real, c2: real, c3: real,
                  p0: real, p1: real, p2: real, p3: real,
                  r0: real, r1: real, r2: real, r3: real)
    requires p0 == RealRow(a0, a1, a2, a3, b0, b1, b2, b3) && p1 == UnitRow(a0, a1, a2, a3, b0, b1, b2, b3)
    requires p2 == UnitRow(a0, a2, a3, a1, b0, b2, b3, b1) && p3 == UnitRow(a0, a3, a1, a2, b0, b3, b1, b2)
    requires r0 == RealRow(b0, b1, b2, b3, c0, c1, c2, c3) && r1 == UnitRow(b0, b1, b2, b3, c0, c1, c2, c3)
    requires r2 == UnitRow(b0, b2, b3, b1, c0, c2, c3, c1) && r3 == UnitRow(b0, b3, b1, b2, c0, c3, c1, c2)
    ensures UnitRow(p0, p1, p2, p3, c0, c1, c2, c3) == UnitRow(a0, a1, a2, a3, r0, r1, r2, r3)
  {
    Subst(p0, a0 * b0 - a1 * b1 - a2 * b2 - a3 * b3, c1);
    Subst(p1, a0 * b1 + a1 * b0 + a2 * b3 - a3 * b2, c0);
    Subst(p2, a0 * b2 - a1 * b3 + a2 * b0 + a3 * b1, c3);
    Subst(p3, a0 * b3 + a1 * b2 - a2 * b1 + a3 * b0, c2);
    Subst(r0, b0 * c0 - b1 * c1 - b2 * c2 - b3 * c3, a1);
    Subst(r1, b0 * c1 + b1 * c0 + b2 * c3 - b3 * c2, a0);
    Subst(r2, b0 * c2 - b1 * c3 + b2 * c0 + b3 * c1, a3);
    Subst(r3, b0 * c3 + b1 * c2 - b2 * c1 + b3 * c0, a2);
  }

  lemma AssocProduct(a: Quat, b: Quat, c: Quat, p: Quat, r: Quat)
    requires p == Mul(a, b) && r == Mul(b, c)
    ensures Mul(p, c) == Mul(a, r)
  {
    ProductRows(a.w, a.x, a.y, a.z, b.w, b.x, b.y, b.z);
    ProductRows(b.w, b.x, b.y, b.z, c.w, c.x, c.y, c.z);
    ProductRows(p.w, p.x, p.y, p.z, c.w, c.x, c.y, c.z);
    ProductRows(a.w, a.x, a.y, a.z, r.w, r.x, r.y, r.z);
    AssocReal(a.w, a.x, a.y, a.z, b.w, b.x, b.y, b.z, c.w, c.x, c.y, c.z, p.w, p.x, p.y, p.z, r.w, r.x, r.y, r.z);
    AssocFirst(a.w, a.x, a.y, a.z, b.w, b.x, b.y, b.z, c.w, c.x, c.y, c.z, p.w, p.x, p.y, p.z, r.w, r.x, r.y, r.z);
    AssocFirst(a.w, a.y, a.z, a.x, b.w, b.y, b.z, b.x, c.w, c.y, c.z, c.x, p.w, p.y, p.z, p.x, r.w, r.y, r.z, r.x);
    AssocFirst(a.w, a.z, a.x, a.y, b.w, b.z, b.x, b.y, c.w, c.z, c.x, c.y, p.w, p.z, p.x, p.y, r.w, r.z, r.x, r.y);
  }

  lemma MulAssoc(a: Quat, b: Quat, c: Quat)
    ensures Mul(Mul(a, b), c) == Mul(a, Mul(b, c))
  {
    AssocProduct(a, b, c, Mul(a, b), Mul(b, c));
  }

  lemma ConjProduct(aw: real, ax: real, ay: real, az: real, bw: real, bx: real, bj: real, bz: real)
    ensures Conj(Product(aw, ax, ay, az, bw, bx, bj, bz)) == Product(bw, -bx, -bj, -bz, aw, -ax, -ay, -az)
  {
  }

  lemma ConjMul(a: Quat, b: Quat)
    ensures Conj(Mul(a, b)) == Mul(Conj(b), Conj(a))
  {
    ConjProduct(a.w, a.x, a.y, a.z, b.w, b.x, b.y, b.z);
  }

  // Moving a common factor out of a row of the product.
  lemma ScaleRow(k: real, p: real, q: real, r: real, s: real, t: real, u: real, v: real, w: real)
    ensures RealRow(p, q, r, s, k * t, k * u, k * v, k * w) == k * RealRow(p, q, r, s, t, u, v, w)
    ensures UnitRow(p, q, r, s, k * t, k * u, k * v, k * w) == k * UnitRow(p, q, r, s, t, u, v, w)
  {
  }

  lemma ScaleProduct(k: real, aw: real, ax: real, ay: real, az: real, bw: real, bx: real, bj: real, bz: real)
    ensures Product(aw, ax, ay, az, k * bw, k * bx, k * bj, k * bz) == Scale(k, Product(aw, ax, ay, az, bw, bx, bj, bz))
  {
    ProductRows(aw, ax, ay, az, bw, bx, bj, bz);
    ProductRows(aw, ax, ay, az, k * bw, k * bx, k * bj, k * bz);
    ScaleRow(k, aw, ax, ay, az, bw, bx, bj, bz);
    ScaleRow(k, aw, ay, az, ax, bw, bj, bz, bx);
    ScaleRow(k, aw, az, ax, ay, bw, bz, bx, bj);
  }

  lemma MulScale(k: real, a: Quat, b: Quat)
    ensures Mul(a, Scale(k, b)) == Scale(k, Mul(a, b))
  {
    ScaleProduct(k, a.w, a.x, a.y, a.z, b.w, b.x, b.y, b.z);
  }

  function Real(n: real): Quat {
    Quat(n, 0.0, 0.0, 0.0)
  }

  lemma TimesConj(q: Quat)
    ensures Mul(q, Conj(q)) == Real(NormSq(q))
  {
    assert Mul(q, Conj(q)) == Product(q.w, q.x, q.y, q.z, q.w, -q.x, -q.y, -q.z);
  }

  lemma RealTimes(n: real, a: Quat)
    ensures Mul(Real(n), a) == Scale(n, a)
  {
    assert Mul(Real(n), a) == Product(n, 0.0, 0.0, 0.0, a.w, a.x, a.y, a.z);
  }

  lemma NormMul(a: Quat, b: Quat)
    ensures NormSq(Mul(a, b)) == NormSq(a) * NormSq(b)
  {
    TimesConj(Mul(a, b));
    ConjMul(a, b);
    MulAssoc(a, b, Mul(Conj(b), Conj(a)));
    MulAssoc(b, Conj(b), Conj(a));
    TimesConj(b);
    RealTimes(NormSq(b), Conj(a));
    MulScale(NormSq(b), a, Conj(a));
    TimesConj(a);
    assert Scale(NormSq(b), Real(NormSq(a))).w == NormSq(b) * NormSq(a);
  }

  lemma NormScale(k: real, q: Quat)
    ensures NormSq(Scale(k, q)) == k * k * NormSq(q)
  {
    assert NormSq(Scale(k, q)) == (k * q.w) * (k * q.w) + (k * q.x) * (k * q.x) + (k * q.y) * (k * q.y) + (k * q.z) * (k * q.z);
  }

  /** Rotating by a product is rotating twice. */
  lemma SandwichMul(a: Quat, b: Quat, v: Quat)
    ensures Sandwich(Mul(a, b), v) == Sandwich(a, Sandwich(b, v))
  {
    ConjMul(a, b);
    MulAssoc(a, b, v);
    MulAssoc(Mul(a, Mul(b, v)), Conj(b), Conj(a));
    MulAssoc(a, Mul(b, v), Conj(b));
  }
}
