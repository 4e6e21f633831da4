/** The IMU frame change: what a corrected quaternion means for a corrected vector. */
module ImuFrameFixClass {
  import opened QuaternionAlgebra

  const TOLERANCE: real := 0.000000001

  function Abs(a: real): real {
    if a < 0.0 then -a else a
  }

  // Init accepts each body sign only within a billionth of +1 or -1.
  predicate NearSign(a: real) {
    Abs(Abs(a) - 1.0) <= TOLERANCE
  }

  predicate NearSigns(s: Vec) {
    NearSign(s.x) && NearSign(s.y) && NearSign(s.z)
  }

  predicate Legal(s: Vec) {
    NearSigns(s) && Det(s) >= 0.0
  }

  function Det(s: Vec): real {
    s.x * s.y * s.z
  }

  // The rotation standing for the body signs.
  function BodyQuat(s: Vec): Quat {
    if s.x > 0.0 && s.y > 0.0 then Quat(1.0, 0.0, 0.0, 0.0)
    else if s.x > 0.0 && s.y < 0.0 then Quat(0.0, 1.0, 0.0, 0.0)
    else if s.x < 0.0 && s.y > 0.0 then Quat(0.0, 0.0, 1.0, 0.0)
    else Quat(0.0, 0.0, 0.0, 1.0)
  }

  // The half turn about (1, 1, 0) that takes NED to ENU; root stands for sqrt(0.5).
  function WorldQuat(zDown: bool, root: real): Quat {
    if zDown then Quat(0.0, root, root, 0.0) else Quat(1.0, 0.0, 0.0, 0.0)
  }

  // ---- what those quaternions mean ----

  function Signed(s: Vec, v: Vec): Vec {
    Vec(v.x * s.x, v.y * s.y, v.z * s.z)
  }

  function Magnitudes(s: Vec): Vec {
    Vec(Abs(s.x), Abs(s.y), Abs(s.z))
  }

  // The change of world axes: north-east-down to east-north-up, or nothing.
  function World(zDown: bool, v: Vec): Vec {
    if zDown then Vec(v.y, v.x, -v.z) else v
  }

  function Rotate(q: Quat, v: Vec): Vec {
    var r := Sandwich(q, Pure(v));
    Vec(r.x, r.y, r.z)
  }

  function Corrected(q: Quat, inverse: bool): Quat {
    if inverse then Conj(q) else q
  }

  function Fixed(qW: Quat, q: Quat, qB: Quat): Quat {
    Mul(Mul(qW, q), qB)
  }

  lemma SignsSplit(s: Vec)
    requires Legal(s)
    ensures s.x != 0.0 && s.y != 0.0 && s.z != 0.0
    ensures s.z > 0.0 <==> (s.x > 0.0 <==> s.y > 0.0)
  {
    ProductSign(s.x, s.y);
    ProductSign(s.x * s.y, s.z);
  }

  lemma ProductSign(a: real, b: real)
    ensures a > 0.0 && b > 0.0 ==> a * b > 0.0
    ensures a < 0.0 && b < 0.0 ==> a * b > 0.0
    ensures a > 0.0 && b < 0.0 ==> a * b < 0.0
    ensures a < 0.0 && b > 0.0 ==> a * b < 0.0
  {
    if a < 0.0 && b < 0.0 {
      assert a * b == (-a) * (-b);
    }
  }

  lemma TwoSteps(q: Quat, v: Quat, m: Quat, r: Quat)
    requires Mul(q, v) == m && Mul(m, Conj(q)) == r
    ensures Sandwich(q, v) == r
  {
  }

  lemma NoTurn(u: Vec)
    ensures Sandwich(Quat(1.0, 0.0, 0.0, 0.0), Pure(u)) == Pure(u)
  {
    NoTurnFirst(u);
    NoTurnSecond(0.0, u.x, u.y, u.z);
    TwoSteps(Quat(1.0, 0.0, 0.0, 0.0), Pure(u), Pure(u), Pure(u));
  }

  lemma NoTurnFirst(u: Vec)
    ensures Mul(Quat(1.0, 0.0, 0.0, 0.0), Pure(u)) == Pure(u)
  {
    assert Mul(Quat(1.0, 0.0, 0.0, 0.0), Pure(u)) == Product(1.0, 0.0, 0.0, 0.0, 0.0, u.x, u.y, u.z);
  }

  lemma NoTurnSecond(w: real, x: real, y: real, z: real)
    ensures Mul(Quat(w, x, y, z), Conj(Quat(1.0, 0.0, 0.0, 0.0))) == Quat(w, x, y, z)
  {
    ProductRows(w, x, y, z, 1.0, 0.0, 0.0, 0.0);
    assert Product(w, x, y, z, 1.0, 0.0, 0.0, 0.0) == Quat(w, x, y, z);
    assert Mul(Quat(w, x, y, z), Conj(Quat(1.0, 0.0, 0.0, 0.0))) == Product(w, x, y, z, 1.0, 0.0, 0.0, 0.0);
  }

  lemma HalfTurnX(u: Vec)
    ensures Sandwich(Quat(0.0, 1.0, 0.0, 0.0), Pure(u)) == Pure(Vec(u.x, -u.y, -u.z))
  {
    HalfTurnXFirst(u);
    HalfTurnXSecond(-u.x, 0.0, -u.z, u.y);
    TwoSteps(Quat(0.0, 1.0, 0.0, 0.0), Pure(u), Quat(-u.x, 0.0, -u.z, u.y), Pure(Vec(u.x, -u.y, -u.z)));
  }

  lemma HalfTurnXFirst(u: Vec)
    ensures Mul(Quat(0.0, 1.0, 0.0, 0.0), Pure(u)) == Quat(-u.x, 0.0, -u.z, u.y)
  {
    assert Mul(Quat(0.0, 1.0, 0.0, 0.0), Pure(u)) == Product(0.0, 1.0, 0.0, 0.0, 0.0, u.x, u.y, u.z);
  }

  lemma HalfTurnXSecond(w: real, x: real, y: real, z: real)
    ensures Mul(Quat(w, x, y, z), Conj(Quat(0.0, 1.0, 0.0, 0.0))) == Quat(x, -w, -z, y)
  {
    assert Mul(Quat(w, x, y, z), Conj(Quat(0.0, 1.0, 0.0, 0.0))) == Product(w, x, y, z, 0.0, -1.0, 0.0, 0.0);
  }

  lemma HalfTurnY(u: Vec)
    ensures Sandwich(Quat(0.0, 0.0, 1.0, 0.0), Pure(u)) == Pure(Vec(-u.x, u.y, -u.z))
  {
    HalfTurnYFirst(u);
    HalfTurnYSecond(-u.y, u.z, 0.0, -u.x);
    TwoSteps(Quat(0.0, 0.0, 1.0, 0.0), Pure(u), Quat(-u.y, u.z, 0.0, -u.x), Pure(Vec(-u.x, u.y, -u.z)));
  }

  lemma HalfTurnYFirst(u: Vec)
    ensures Mul(Quat(0.0, 0.0, 1.0, 0.0), Pure(u)) == Quat(-u.y, u.z, 0.0, -u.x)
  {
    assert Mul(Quat(0.0, 0.0, 1.0, 0.0), Pure(u)) == Product(0.0, 0.0, 1.0, 0.0, 0.0, u.x, u.y, u.z);
  }

  lemma HalfTurnYSecond(w: real, x: real, y: real, z: real)
    ensures Mul(Quat(w, x, y, z), Conj(Quat(0.0, 0.0, 1.0, 0.0))) == Quat(y, z, -w, -x)
  {
    assert Mul(Quat(w, x, y, z), Conj(Quat(0.0, 0.0, 1.0, 0.0))) == Product(w, x, y, z, 0.0, 0.0, -1.0, 0.0);
  }

  lemma HalfTurnZ(u: Vec)
    ensures Sandwich(Quat(0.0, 0.0, 0.0, 1.0), Pure(u)) == Pure(Vec(-u.x, -u.y, u.z))
  {
    HalfTurnZFirst(u);
    HalfTurnZSecond(-u.z, -u.y, u.x, 0.0);
    TwoSteps(Quat(0.0, 0.0, 0.0, 1.0), Pure(u), Quat(-u.z, -u.y, u.x, 0.0), Pure(Vec(-u.x, -u.y, u.z)));
  }

  lemma HalfTurnZFirst(u: Vec)
    ensures Mul(Quat(0.0, 0.0, 0.0, 1.0), Pure(u)) == Quat(-u.z, -u.y, u.x, 0.0)
  {
    assert Mul(Quat(0.0, 0.0, 0.0, 1.0), Pure(u)) == Product(0.0, 0.0, 0.0, 1.0, 0.0, u.x, u.y, u.z);
  }

  lemma HalfTurnZSecond(w: real, x: real, y: real, z: real)
    ensures Mul(Quat(w, x, y, z), Conj(Quat(0.0, 0.0, 0.0, 1.0))) == Quat(z, -y, x, -w)
  {
    assert Mul(Quat(w, x, y, z), Conj(Quat(0.0, 0.0, 0.0, 1.0))) == Product(w, x, y, z, 0.0, 0.0, 0.0, -1.0);
  }

  // u with the components negated where s is negative.
  function Flip(s: Vec, u: Vec): Vec {
    Vec(if s.x > 0.0 then u.x else -u.x, if s.y > 0.0 then u.y else -u.y, if s.z > 0.0 then u.z else -u.z)
  }

  lemma FlipCases(s: Vec, u: Vec, q: Quat, f: Vec)
    requires s.x != 0.0 && s.y != 0.0 && s.z != 0.0
    requires s.z > 0.0 <==> (s.x > 0.0 <==> s.y > 0.0)
    requires q == BodyQuat(s) && f == Flip(s, u)
    ensures || (q == Quat(1.0, 0.0, 0.0, 0.0) && f == u)
            || (q == Quat(0.0, 1.0, 0.0, 0.0) && f == Vec(u.x, -u.y, -u.z))
            || (q == Quat(0.0, 0.0, 1.0, 0.0) && f == Vec(-u.x, u.y, -u.z))
            || (q == Quat(0.0, 0.0, 0.0, 1.0) && f == Vec(-u.x, -u.y, u.z))
  {
  }

  lemma BodyQuatFlips(u: Vec, q: Quat, f: Vec)
    requires || (q == Quat(1.0, 0.0, 0.0, 0.0) && f == u)
             || (q == Quat(0.0, 1.0, 0.0, 0.0) && f == Vec(u.x, -u.y, -u.z))
             || (q == Quat(0.0, 0.0, 1.0, 0.0) && f == Vec(-u.x, u.y, -u.z))
             || (q == Quat(0.0, 0.0, 0.0, 1.0) && f == Vec(-u.x, -u.y, u.z))
    ensures Sandwich(q, Pure(u)) == Pure(f)
  {
    if q == Quat(1.0, 0.0, 0.0, 0.0) && f == u {
      NoTurn(u);
    } else if q == Quat(0.0, 1.0, 0.0, 0.0) && f == Vec(u.x, -u.y, -u.z) {
      HalfTurnX(u);
    } else if q == Quat(0.0, 0.0, 1.0, 0.0) && f == Vec(-u.x, u.y, -u.z) {
      HalfTurnY(u);
    } else {
      HalfTurnZ(u);
    }
  }

  lemma SignMagnitude(a: real, s: real)
    ensures s > 0.0 ==> a * s == a * Abs(s)
    ensures s < 0.0 ==> -(a * s) == a * Abs(s)
  {
  }

  lemma FlipSigned(s: Vec, v: Vec)
    requires s.x != 0.0 && s.y != 0.0 && s.z != 0.0
    ensures Flip(s, Signed(s, v)) == Signed(Magnitudes(s), v)
  {
    SignMagnitude(v.x, s.x);
    SignMagnitude(v.y, s.y);
    SignMagnitude(v.z, s.z);
  }

  /** The body quaternion undoes the body signs, up to their magnitudes. */
  lemma BodyQuatUndoesSigns(s: Vec, v: Vec)
    requires Legal(s)
    ensures Sandwich(BodyQuat(s), Pure(Signed(s, v))) == Pure(Signed(Magnitudes(s), v))
  {
    BodyQuatOf(s, Signed(s, v));
    SignsSplit(s);
    FlipSigned(s, v);
  }

  /** The world quaternion acts as the change of world axes. */
  lemma WorldQuatIsWorld(zDown: bool, root: real, v: Vec)
    requires root * root == 0.5
    ensures Sandwich(WorldQuat(zDown, root), Pure(v)) == Pure(World(zDown, v))
  {
    if zDown {
      HalfTurn(root, v.x, v.y, v.z);
    } else {
      NoTurn(v);
    }
  }

  lemma HalfTurn(root: real, x: real, y: real, z: real)
    requires root * root == 0.5
    ensures Sandwich(Quat(0.0, root, root, 0.0), Pure(Vec(x, y, z))) == Pure(Vec(y, x, -z))
  {
    var a, b, c := root * x, root * y, root * z;
    HalfTurnFirst(root, x, y, z, a, b, c);
    HalfTurnSecond(root, -a - b, c, b - a, root * a, root * b, root * c);
    Halves(root, x, a);
    Halves(root, y, b);
    Halves(root, z, c);
  }

  lemma HalfTurnFirst(root: real, x: real, y: real, z: real, a: real, b: real, c: real)
    requires a == root * x && b == root * y && c == root * z
    ensures Mul(Quat(0.0, root, root, 0.0), Pure(Vec(x, y, z))) == Quat(-a - b, c, -c, b - a)
  {
    assert Mul(Quat(0.0, root, root, 0.0), Pure(Vec(x, y, z))) == Product(0.0, root, root, 0.0, 0.0, x, y, z);
  }

  lemma HalfTurnSecond(root: real, m: real, c: real, d: real, ra: real, rb: real, rc: real)
    requires root * m == -ra - rb && root * c == rc && root * d == rb - ra
    ensures Mul(Quat(m, c, -c, d), Conj(Quat(0.0, root, root, 0.0))) == Quat(0.0, 2.0 * rb, 2.0 * ra, -2.0 * rc)
  {
    assert Mul(Quat(m, c, -c, d), Conj(Quat(0.0, root, root, 0.0))) == Product(m, c, -c, d, 0.0, -root, -root, 0.0);
  }

  lemma Halves(root: real, x: real, a: real)
    requires root * root == 0.5 && a == root * x
    ensures 2.0 * (root * a) == x
  {
    Subst(a, root * x, root);
    Subst(root * root, 0.5, x);
  }

  lemma SandwichStaysPure(q: Quat, v: Vec)
    ensures Sandwich(q, Pure(v)) == Pure(Rotate(q, v))
  {
    var p := Mul(q, Pure(v));
    assert p == Quat(-(q.x * v.x) - q.y * v.y - q.z * v.z, q.w * v.x + q.y * v.z - q.z * v.y,
                     q.w * v.y - q.x * v.z + q.z * v.x, q.w * v.z + q.x * v.y - q.y * v.x);
    RealPartCancels(q, v, p);
  }

  lemma RealPartCancels(q: Quat, v: Vec, p: Quat)
    requires p == Quat(-(q.x * v.x) - q.y * v.y - q.z * v.z, q.w * v.x + q.y * v.z - q.z * v.y,
                       q.w * v.y - q.x * v.z + q.z * v.x, q.w * v.z + q.x * v.y - q.y * v.x)
    ensures Mul(p, Conj(q)).w == 0.0
  {
    Subst(p.w, -(q.x * v.x) - q.y * v.y - q.z * v.z, q.w);
    Subst(p.x, q.w * v.x + q.y * v.z - q.z * v.y, q.x);
    Subst(p.y, q.w * v.y - q.x * v.z + q.z * v.x, q.y);
    Subst(p.z, q.w * v.z + q.x * v.y - q.y * v.x, q.z);
  }

  // The turn by twice the angle whose cosine is w and whose sine is the length of u, about the axis
  // u and right-handed: (w^2 - u.u) v + 2 (u.v) u + 2 w (u x v), written for one axis. The other two
  // take the axes round in turn.
  function TurnedAxis(w: real, x: real, y: real, z: real, a: real, b: real, c: real): real {
    (w * w - x * x - y * y - z * z) * a + 2.0 * (x * a + y * b + z * c) * x + 2.0 * w * (y * c - z * b)
  }

  function RightHandTurn(q: Quat, v: Vec): Vec {
    Vec(TurnedAxis(q.w, q.x, q.y, q.z, v.x, v.y, v.z),
        TurnedAxis(q.w, q.y, q.z, q.x, v.y, v.z, v.x),
        TurnedAxis(q.w, q.z, q.x, q.y, v.z, v.x, v.y))
  }

  lemma TurnedRow(w: real, x: real, y: real, z: real, a: real, b: real, c: real, p0: real, p1: real, p2: real, p3: real)
    requires p0 == -(x * a) - y * b - z * c && p1 == w * a + y * c - z * b
    requires p2 == w * b - x * c + z * a && p3 == w * c + x * b - y * a
    ensures UnitRow(p0, p1, p2, p3, w, -x, -y, -z) == TurnedAxis(w, x, y, z, a, b, c)
  {
    Subst(p0, -(x * a) - y * b - z * c, x);
    Subst(p1, w * a + y * c - z * b, w);
    Subst(p2, w * b - x * c + z * a, z);
    Subst(p3, w * c + x * b - y * a, y);
  }

  // The product of a quaternion and a vector.
  predicate Halfway(q: Quat, v: Vec, p: Quat) {
    && p.w == -(q.x * v.x) - q.y * v.y - q.z * v.z && p.x == q.w * v.x + q.y * v.z - q.z * v.y
    && p.y == q.w * v.y - q.x * v.z + q.z * v.x && p.z == q.w * v.z + q.x * v.y - q.y * v.x
  }

  lemma HalfwayIs(q: Quat, v: Vec)
    ensures Halfway(q, v, Mul(q, Pure(v)))
  {
  }

  lemma RowsTurn(q: Quat, v: Vec, p: Quat)
    requires Halfway(q, v, p)
    ensures UnitRow(p.w, p.x, p.y, p.z, q.w, -q.x, -q.y, -q.z) == TurnedAxis(q.w, q.x, q.y, q.z, v.x, v.y, v.z)
    ensures UnitRow(p.w, p.y, p.z, p.x, q.w, -q.y, -q.z, -q.x) == TurnedAxis(q.w, q.y, q.z, q.x, v.y, v.z, v.x)
    ensures UnitRow(p.w, p.z, p.x, p.y, q.w, -q.z, -q.x, -q.y) == TurnedAxis(q.w, q.z, q.x, q.y, v.z, v.x, v.y)
  {
    hide UnitRow, TurnedAxis;
    TurnedRow(q.w, q.x, q.y, q.z, v.x, v.y, v.z, p.w, p.x, p.y, p.z);
    TurnedRow(q.w, q.y, q.z, q.x, v.y, v.z, v.x, p.w, p.y, p.z, p.x);
    TurnedRow(q.w, q.z, q.x, q.y, v.z, v.x, v.y, p.w, p.z, p.x, p.y);
  }

  /** Rotate is the right-handed turn about the quaternion's axis. */
  lemma RotateIsTurn(q: Quat, v: Vec)
    ensures Rotate(q, v) == RightHandTurn(q, v)
  {
    hide UnitRow, RealRow, Product, TurnedAxis, Halfway;
    var p := Mul(q, Pure(v));
    HalfwayIs(q, v);
    RowsTurn(q, v, p);
    ProductRows(p.w, p.x, p.y, p.z, q.w, -q.x, -q.y, -q.z);
  }

  /** For every accepted body_signs, either world convention and any quaternion: rotating the
      corrected vector by the corrected quaternion is the world change of the original rotated
      vector, with each body axis scaled by the magnitude of its sign. */
  lemma FrameChangeMeaning(s: Vec, zDown: bool, root: real, q: Quat, v: Vec)
    requires Legal(s) && root * root == 0.5
    ensures Rotate(Fixed(WorldQuat(zDown, root), q, BodyQuat(s)), Signed(s, v))
         == World(zDown, Rotate(q, Signed(Magnitudes(s), v)))
  {
    FixedTurns(s, zDown, root, q, Signed(s, v));
    SignsSplit(s);
    FlipSigned(s, v);
  }

  /** The correction keeps the squared norm, so the normalisation of a unit quaternion is the
      identity. */
  lemma FixedKeepsNorm(s: Vec, zDown: bool, root: real, q: Quat, inverse: bool)
    requires root * root == 0.5
    ensures NormSq(Fixed(WorldQuat(zDown, root), Corrected(q, inverse), BodyQuat(s))) == NormSq(q)
  {
    var qW, c, qB := WorldQuat(zDown, root), Corrected(q, inverse), BodyQuat(s);
    PartNorms(s, zDown, root, q, inverse);
    NormMul(Mul(qW, c), qB);
    NormMul(qW, c);
  }

  lemma PartNorms(s: Vec, zDown: bool, root: real, q: Quat, inverse: bool)
    requires root * root == 0.5
    ensures NormSq(WorldQuat(zDown, root)) == 1.0 && NormSq(BodyQuat(s)) == 1.0
    ensures NormSq(Corrected(q, inverse)) == NormSq(q)
  {
    CorrectedNorm(q, inverse);
  }

  // ---- undoing a rotation ----

  lemma ConjTimes(q: Quat)
    ensures Mul(Conj(q), q) == Real(NormSq(q))
  {
    assert Mul(Conj(q), q) == Product(q.w, -q.x, -q.y, -q.z, q.w, q.x, q.y, q.z);
  }

  lemma UnitRotationInverts(q: Quat, v: Vec)
    requires NormSq(q) == 1.0
    ensures Rotate(Conj(q), Rotate(q, v)) == v
  {
    SandwichStaysPure(q, v);
    SandwichMul(Conj(q), q, Pure(v));
    ConjTimes(q);
    NoTurn(v);
  }

  predicate Exact(s: Vec) {
    Magnitudes(s) == Vec(1.0, 1.0, 1.0)
  }

  predicate KeepsMeaning(s: Vec, zDown: bool, root: real, q: Quat, v: Vec) {
    Rotate(Fixed(WorldQuat(zDown, root), q, BodyQuat(s)), Signed(s, v)) == World(zDown, Rotate(q, v))
  }

  /** The tolerance Init allows matters: the corrected pair means exactly the original one, for
      every vector, if and only if the body signs are exactly +1 or -1. */
  lemma MeaningExactIff(s: Vec, zDown: bool, root: real, q: Quat)
    requires Legal(s) && root * root == 0.5 && NormSq(q) == 1.0
    ensures (forall v: Vec :: KeepsMeaning(s, zDown, root, q, v)) <==> Exact(s)
  {
    if Exact(s) {
      forall v: Vec ensures KeepsMeaning(s, zDown, root, q, v) {
        OnesChangeNothing(Magnitudes(s), v);
        FrameChangeMeaning(s, zDown, root, q, v);
      }
    } else {
      var ones := Vec(1.0, 1.0, 1.0);
      FrameChangeMeaning(s, zDown, root, q, ones);
      OnesChangeNothing(ones, Magnitudes(s));
      UnitRotationInverts(q, ones);
      UnitRotationInverts(q, Magnitudes(s));
      assert Signed(Magnitudes(s), ones) == Magnitudes(s);
      assert !KeepsMeaning(s, zDown, root, q, ones);
    }
  }

  lemma OnesChangeNothing(m: Vec, v: Vec)
    requires m == Vec(1.0, 1.0, 1.0)
    ensures Signed(m, v) == v && Signed(v, m) == v
  {
  }

  // ---- signs and a body quaternion that do not belong together ----

  // A quaternion q takes body axes to world axes, or with inverse world axes to body axes: b in the
  // body is w in the world.
  predicate Relates(q: Quat, inverse: bool, b: Vec, w: Vec) {
    if inverse then Rotate(q, w) == b else Rotate(q, b) == w
  }

  /** A corrected unit quaternion takes body axes to world axes, whichever way the sensor's did. */
  lemma CorrectedRelates(q: Quat, inverse: bool, b: Vec, w: Vec)
    requires NormSq(q) == 1.0
    ensures Relates(q, inverse, b, w) <==> w == Rotate(Corrected(q, inverse), b)
  {
    if inverse {
      UnitRotationInverts(q, w);
      assert NormSq(Conj(q)) == 1.0 && Conj(Conj(q)) == q;
      UnitRotationInverts(Conj(q), b);
    }
  }

  // The fixed pair means the world change of the original pair.
  predicate PairMeans(s: Vec, zDown: bool, inverse: bool, qW: Quat, qB: Quat, q: Quat, v: Vec) {
    Relates(q, inverse, Signed(Magnitudes(s), v), World(zDown, Rotate(Fixed(qW, Corrected(q, inverse), qB), Signed(s, v))))
  }

  lemma PairMeansCorrected(s: Vec, zDown: bool, inverse: bool, qW: Quat, qB: Quat, q: Quat, v: Vec)
    requires NormSq(q) == 1.0
    ensures PairMeans(s, zDown, inverse, qW, qB, q, v) <==>
              Rotate(Fixed(qW, Corrected(q, inverse), qB), Signed(s, v))
                == World(zDown, Rotate(Corrected(q, inverse), Signed(Magnitudes(s), v)))
  {
    var r := Rotate(Fixed(qW, Corrected(q, inverse), qB), Signed(s, v));
    CorrectedRelates(q, inverse, Signed(Magnitudes(s), v), World(zDown, r));
    WorldTwice(zDown, r);
    WorldTwice(zDown, Rotate(Corrected(q, inverse), Signed(Magnitudes(s), v)));
  }

  lemma WorldTwice(zDown: bool, v: Vec)
    ensures World(zDown, World(zDown, v)) == v
  {
  }

  // It does so for every unit quaternion and every vector.
  ghost predicate PairsMean(s: Vec, zDown: bool, inverse: bool, qW: Quat, qB: Quat) {
    forall q: Quat, v: Vec :: NormSq(q) == 1.0 ==> PairMeans(s, zDown, inverse, qW, qB, q, v)
  }

  predicate SameSigns(s: Vec, o: Vec) {
    (s.x > 0.0 <==> o.x > 0.0) && (s.y > 0.0 <==> o.y > 0.0) && (s.z > 0.0 <==> o.z > 0.0)
  }

  // What the body quaternion of o makes of a vector u.
  lemma BodyQuatOf(o: Vec, u: Vec)
    requires Legal(o)
    ensures Sandwich(BodyQuat(o), Pure(u)) == Pure(Flip(o, u))
  {
    SignsSplit(o);
    FlipCases(o, u, BodyQuat(o), Flip(o, u));
    BodyQuatFlips(u, BodyQuat(o), Flip(o, u));
  }

  lemma FixedTurns(o: Vec, zDown: bool, root: real, q: Quat, u: Vec)
    requires Legal(o) && root * root == 0.5
    ensures Rotate(Fixed(WorldQuat(zDown, root), q, BodyQuat(o)), u) == World(zDown, Rotate(q, Flip(o, u)))
  {
    var qW, qB := WorldQuat(zDown, root), BodyQuat(o);
    SandwichMul(Mul(qW, q), qB, Pure(u));
    BodyQuatOf(o, u);
    SandwichMul(qW, q, Pure(Flip(o, u)));
    SandwichStaysPure(q, Flip(o, u));
    WorldQuatIsWorld(zDown, root, Rotate(q, Flip(o, u)));
  }

  // A unit quaternion and the world change lose nothing.
  lemma TurnInjective(zDown: bool, q: Quat, u: Vec, w: Vec)
    requires NormSq(q) == 1.0 && World(zDown, Rotate(q, u)) == World(zDown, Rotate(q, w))
    ensures u == w
  {
    assert Rotate(q, u) == Rotate(q, w);
    UnitRotationInverts(q, u);
    UnitRotationInverts(q, w);
  }

  lemma FlipWith(s: Vec, o: Vec, v: Vec)
    requires SameSigns(s, o)
    ensures Flip(o, Signed(s, v)) == Flip(s, Signed(s, v))
  {
  }

  lemma FlipOnes(s: Vec, o: Vec)
    requires NearSigns(s)
    ensures Flip(o, Signed(s, Vec(1.0, 1.0, 1.0))) == Signed(Magnitudes(s), Vec(1.0, 1.0, 1.0)) ==> SameSigns(s, o)
  {
    OnesChangeNothing(Vec(1.0, 1.0, 1.0), s);
    OnesChangeNothing(Vec(1.0, 1.0, 1.0), Magnitudes(s));
  }

  lemma SameSignsMean(s: Vec, o: Vec, zDown: bool, root: real, inverse: bool, q: Quat, v: Vec)
    requires NearSigns(s) && Legal(o) && root * root == 0.5 && SameSigns(s, o) && NormSq(q) == 1.0
    ensures PairMeans(s, zDown, inverse, WorldQuat(zDown, root), BodyQuat(o), q, v)
  {
    PairMeansCorrected(s, zDown, inverse, WorldQuat(zDown, root), BodyQuat(o), q, v);
    FixedTurns(o, zDown, root, Corrected(q, inverse), Signed(s, v));
    FlipWith(s, o, v);
    FlipSigned(s, v);
  }

  lemma OtherSignsDiffer(s: Vec, o: Vec, zDown: bool, root: real, inverse: bool, q: Quat)
    requires NearSigns(s) && Legal(o) && root * root == 0.5 && NormSq(q) == 1.0
    requires PairMeans(s, zDown, inverse, WorldQuat(zDown, root), BodyQuat(o), q, Vec(1.0, 1.0, 1.0))
    ensures SameSigns(s, o)
  {
    var ones, c := Vec(1.0, 1.0, 1.0), Corrected(q, inverse);
    PairMeansCorrected(s, zDown, inverse, WorldQuat(zDown, root), BodyQuat(o), q, ones);
    FixedTurns(o, zDown, root, c, Signed(s, ones));
    FlipOnes(s, o);
    CorrectedNorm(q, inverse);
    TurnInjective(zDown, c, Flip(o, Signed(s, ones)), Signed(Magnitudes(s), ones));
  }

  lemma CorrectedNorm(q: Quat, inverse: bool)
    ensures NormSq(Corrected(q, inverse)) == NormSq(q)
  {
  }

  /** With the body quaternion of other signs the pair means the world change, for every vector
      and any one unit quaternion, if and only if the signs agree axis by axis. */
  lemma PairMeansIff(s: Vec, o: Vec, zDown: bool, root: real, inverse: bool, q: Quat)
    requires NearSigns(s) && Legal(o) && root * root == 0.5 && NormSq(q) == 1.0
    ensures (forall v: Vec :: PairMeans(s, zDown, inverse, WorldQuat(zDown, root), BodyQuat(o), q, v)) <==> SameSigns(s, o)
  {
    if SameSigns(s, o) {
      forall v: Vec ensures PairMeans(s, zDown, inverse, WorldQuat(zDown, root), BodyQuat(o), q, v) {
        SameSignsMean(s, o, zDown, root, inverse, q, v);
      }
    }
    if PairMeans(s, zDown, inverse, WorldQuat(zDown, root), BodyQuat(o), q, Vec(1.0, 1.0, 1.0)) {
      OtherSignsDiffer(s, o, zDown, root, inverse, q);
    }
  }

  lemma PairsMeanIff(s: Vec, o: Vec, zDown: bool, root: real, inverse: bool)
    requires NearSigns(s) && Legal(o) && root * root == 0.5
    ensures PairsMean(s, zDown, inverse, WorldQuat(zDown, root), BodyQuat(o)) <==> SameSigns(s, o)
  {
    forall q: Quat | NormSq(q) == 1.0
      ensures (forall v: Vec :: PairMeans(s, zDown, inverse, WorldQuat(zDown, root), BodyQuat(o), q, v)) <==> SameSigns(s, o)
    {
      PairMeansIff(s, o, zDown, root, inverse, q);
    }
    assert NormSq(Quat(1.0, 0.0, 0.0, 0.0)) == 1.0;
  }

  // A mirror has the signs of no rotation.
  lemma MirrorDiffers(s: Vec, o: Vec)
    requires NearSigns(s) && Legal(o)
    ensures SameSigns(s, o) ==> Det(s) >= 0.0
  {
    SignsSplit(o);
    ProductSign(s.x, s.y);
    ProductSign(s.x * s.y, s.z);
  }

  // ---- the normalisation in ApplyQuat ----

  predicate IsNorm(n: real, q: Quat) {
    n >= 0.0 && n * n == NormSq(q)
  }

  function Normalised(n: real, q: Quat): Quat {
    if n > TOLERANCE then Scale(1.0 / n, q) else q
  }

  /** What ApplyQuat gives is the correction of the normalised input: scaling commutes with it. */
  lemma FixedScales(s: Vec, zDown: bool, root: real, q: Quat, inverse: bool, k: real)
    ensures Scale(k, Fixed(WorldQuat(zDown, root), Corrected(q, inverse), BodyQuat(s)))
         == Fixed(WorldQuat(zDown, root), Corrected(Scale(k, q), inverse), BodyQuat(s))
  {
    var qW, c, qB := WorldQuat(zDown, root), Corrected(q, inverse), BodyQuat(s);
    assert Corrected(Scale(k, q), inverse) == Scale(k, c);
    MulScale(k, qW, c);
    RealTimes(k, Mul(qW, c));
    MulAssoc(Real(k), Mul(qW, c), qB);
    RealTimes(k, Mul(Mul(qW, c), qB));
  }

  lemma NormalisedIsUnit(n: real, q: Quat)
    requires IsNorm(n, q)
    ensures n > TOLERANCE ==> NormSq(Normalised(n, q)) == 1.0
    ensures NormSq(q) == 1.0 ==> n == 1.0 && Normalised(n, q) == q
  {
    if n > TOLERANCE {
      NormScale(1.0 / n, q);
      Inverse(n, NormSq(q));
    }
    if NormSq(q) == 1.0 {
      RootOfOne(n);
      ScaleOne(1.0 / n, q);
    }
  }

  lemma Inverse(n: real, m: real)
    requires n > 0.0 && m == n * n
    ensures (1.0 / n) * (1.0 / n) * m == 1.0
  {
    var k := 1.0 / n;
    assert k * n == 1.0;
    assert k * k * m == (k * n) * (k * n);
  }

  lemma RootOfOne(n: real)
    requires n >= 0.0
    ensures n < 1.0 ==> n * n < 1.0
    ensures n > 1.0 ==> n * n > 1.0
  {
    if n < 1.0 {
      assert n * n <= n;
    } else if n > 1.0 {
      assert n * n >= n;
    }
  }

  lemma ScaleOne(k: real, q: Quat)
    requires k == 1.0
    ensures Scale(k, q) == q
  {
  }

  lemma Divide(x: real, n: real)
    requires n > 0.0
    ensures x / n == (1.0 / n) * x
  {
  }

  class ImuFrameFix {
    const root: real
    var enabled: bool
    var s: Vec
    var worldZDown: bool
    var quatInverse: bool
    var qB: Quat
    var qW: Quat

    ghost predicate Valid()
      reads this
    {
      && root > 0.0 && root * root == 0.5
      && (enabled ==> Legal(s) && qB == BodyQuat(s) && qW == WorldQuat(worldZDown, root))
    }

    // root is the square root of one half.
    constructor (root: real)
      requires root > 0.0 && root * root == 0.5
      ensures Valid() && !enabled && s == Vec(1.0, 1.0, 1.0)
    {
      this.root := root;
      enabled, s, worldZDown, quatInverse := false, Vec(1.0, 1.0, 1.0), false, false;
      qB, qW := Quat(1.0, 0.0, 0.0, 0.0), Quat(1.0, 0.0, 0.0, 0.0);
    }

    /** Init, with its exceptions as a false result. A rejected mirror has already replaced the
        signs: on an object in use the outputs go on meaning the world change of the inputs, for
        all unit quaternions and all vectors, exactly when the call was not such a rejection. */
    method Init(bodySigns: Vec, zDown: bool, inverse: bool) returns (ok: bool)
      requires root > 0.0 && root * root == 0.5
      modifies this
      ensures ok <==> Legal(bodySigns)
      ensures s == if NearSigns(bodySigns) then bodySigns else old(s)
      ensures ok ==> enabled && worldZDown == zDown && quatInverse == inverse
      ensures !ok ==> enabled == old(enabled) && worldZDown == old(worldZDown) && quatInverse == old(quatInverse)
                      && qB == old(qB) && qW == old(qW)
      ensures Valid() <==> ok || !enabled || (old(Valid()) && !NearSigns(bodySigns))
      ensures old(Valid() && enabled) ==> (OutputsMean() <==> !(NearSigns(bodySigns) && Det(bodySigns) < 0.0))
    {
      ghost var inUse := Valid() && enabled;
      if !NearSigns(bodySigns) {
        if inUse {
          ValidMeans();
        }
        return false;
      }
      s := bodySigns;
      var det := Det(s);
      if det < 0.0 {
        if inUse {
          PairsMeanIff(s, old(s), worldZDown, root, quatInverse);
          MirrorDiffers(s, old(s));
        }
        return false;
      }
      if s.x > 0.0 && s.y > 0.0 {
        qB := Quat(1.0, 0.0, 0.0, 0.0);
      } else if s.x > 0.0 && s.y < 0.0 {
        qB := Quat(0.0, 1.0, 0.0, 0.0);
      } else if s.x < 0.0 && s.y > 0.0 {
        qB := Quat(0.0, 0.0, 1.0, 0.0);
      } else {
        qB := Quat(0.0, 0.0, 0.0, 1.0);
      }
      worldZDown := zDown;
      quatInverse := inverse;
      qW := if zDown then Quat(0.0, root, root, 0.0) else Quat(1.0, 0.0, 0.0, 0.0);
      enabled := true;
      ok := true;
      ValidMeans();
    }

    // The outputs for a unit quaternion and a vector mean the world change of the inputs.
    ghost predicate OutputsMean()
      reads this
    {
      PairsMean(s, worldZDown, quatInverse, qW, qB)
    }

    lemma ValidMeans()
      requires Valid() && enabled
      ensures OutputsMean()
    {
      PairsMeanIff(s, s, worldZDown, root, quatInverse);
    }

    method ApplyVec(v: Vec) returns (u: Vec)
      ensures u == if enabled then Signed(s, v) else v
    {
      u := v;
      if enabled {
        u := Vec(u.x * s.x, u.y * s.y, u.z * s.z);
      }
    }

    ghost function Turned(q: Quat): Quat
      reads this
    {
      Fixed(qW, Corrected(q, quatInverse), qB)
    }

    // n is the square root the source takes of the squared norm.
    method ApplyQuat(q: Quat, n: real) returns (o: Quat)
      requires IsNorm(n, Turned(q))
      ensures o == if enabled then Normalised(n, Turned(q)) else q
    {
      if !enabled {
        return q;
      }
      var c := q;
      if quatInverse {
        c := Conj(c);
      }
      o := Mul(Mul(qW, c), qB);
      if n > TOLERANCE {
        Divide(o.w, n);
        Divide(o.x, n);
        Divide(o.y, n);
        Divide(o.z, n);
        o := Quat(o.w / n, o.x / n, o.y / n, o.z / n);
      }
    }

    /** What an enabled object does to a quaternion and a vector together: the pair means the
        world change of the original pair, with the input normalised: where quatInverse is set, the
        input turns the change of the result back into the vector. */
    lemma PairKeepsMeaning(q: Quat, n: real, v: Vec, o: Quat)
      requires Valid() && enabled && o == Normalised(n, Turned(q))
      ensures Rotate(o, Signed(s, v))
           == World(worldZDown, Rotate(Corrected(Normalised(n, q), quatInverse), Signed(Magnitudes(s), v)))
      ensures IsNorm(n, Turned(q)) && n > TOLERANCE ==>
                Relates(Normalised(n, q), quatInverse, Signed(Magnitudes(s), v), World(worldZDown, Rotate(o, Signed(s, v))))
    {
      NormalisedTurned(q, n);
      FrameChangeMeaning(s, worldZDown, root, Corrected(Normalised(n, q), quatInverse), v);
      if IsNorm(n, Turned(q)) && n > TOLERANCE {
        OutputNorm(q, n);
        NormalisedIsUnit(n, q);
        WorldTwice(worldZDown, Rotate(Corrected(Normalised(n, q), quatInverse), Signed(Magnitudes(s), v)));
        CorrectedRelates(Normalised(n, q), quatInverse, Signed(Magnitudes(s), v), World(worldZDown, Rotate(o, Signed(s, v))));
      }
    }

    /** The root taken is the norm of the input; the output is unit unless that is almost zero,
        and a unit input passes the normalisation unchanged. */
    lemma OutputNorm(q: Quat, n: real)
      requires Valid() && enabled && IsNorm(n, Turned(q))
      ensures IsNorm(n, q)
      ensures n > TOLERANCE ==> NormSq(Normalised(n, Turned(q))) == 1.0
      ensures NormSq(q) == 1.0 ==> Normalised(n, Turned(q)) == Turned(q)
    {
      FixedKeepsNorm(s, worldZDown, root, q, quatInverse);
      NormalisedIsUnit(n, Turned(q));
    }

    lemma NormalisedTurned(q: Quat, n: real)
      requires Valid() && enabled
      ensures Normalised(n, Turned(q)) == Turned(Normalised(n, q))
    {
      if n > TOLERANCE {
        FixedScales(s, worldZDown, root, q, quatInverse, 1.0 / n);
      }
    }
  }
}
