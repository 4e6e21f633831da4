/** Stability of the second-order low-pass filter, over exact reals. p stands for wc * ts. */
module FilterAlgebra {

  function Sq(a: real): real {
    a * a
  }

  lemma SqNonneg(a: real)
    ensures Sq(a) >= 0.0
  {
  }

  lemma SqPositive(a: real)
    requires a > 0.0
    ensures Sq(a) > 0.0
  {
    MulPositive(a, a, Sq(a));
  }

  lemma MulPositive(a: real, b: real, c: real)
    requires a > 0.0 && b > 0.0 && c == a * b
    ensures c > 0.0
  {
  }

  function Den(p: real): real {
    2500.0 * Sq(p) + 7071.0 * p + 10000.0
  }

  /** The denominator is positive whatever the cut-off and the period. */
  lemma DenPositive(p: real)
    ensures Den(p) > 0.0
  {
    SqNonneg(p + 1.4142);
    assert Den(p) == 2500.0 * Sq(p + 1.4142) + (10000.0 - 2500.0 * Sq(1.4142));
  }

  datatype Coeffs = Coeffs(in1: real, in2: real, in3: real, out1: real, out2: real)

  // feed, twice and damp stand for 2500 p^2, 5000 p^2 and 7071 p.
  function CoeffsFrom(feed: real, twice: real, damp: real, den: real): Coeffs
    requires den != 0.0
  {
    Coeffs(feed / den, twice / den, feed / den, -(twice - 20000.0) / den, -(feed - damp + 10000.0) / den)
  }

  function Coefficients(p: real): Coeffs {
    DenPositive(p);
    CoeffsFrom(2500.0 * Sq(p), 5000.0 * Sq(p), 7071.0 * p, Den(p))
  }

  // The stored samples: the last two inputs and the last two outputs, newest first.
  datatype Taps = Taps(x0: real, x1: real, y0: real, y1: real)

  function Output(c: Coeffs, t: Taps, x: real): real {
    c.in1 * x + c.in2 * t.x0 + c.in3 * t.x1 + c.out1 * t.y0 + c.out2 * t.y1
  }

  function Push(c: Coeffs, t: Taps, x: real): Taps {
    Taps(x, t.x0, Output(c, t, x), t.y0)
  }

  // n more samples of the constant v.
  function Hold(c: Coeffs, t: Taps, v: real, n: nat): Taps
    decreases n
  {
    if n == 0 then t else Hold(c, Push(c, t, v), v, n - 1)
  }

  lemma Scale(a: real, b: real, c: real, d: real, e: real, den: real)
    requires den != 0.0
    ensures a / den + b / den + c / den + d / den + e / den == (a + b + c + d + e) / den
  {
  }

  /** Unity gain: the five coefficients sum to 1. */
  lemma CoefficientsSumToOne(p: real)
    ensures var c := Coefficients(p); c.in1 + c.in2 + c.in3 + c.out1 + c.out2 == 1.0
  {
    DenPositive(p);
    var q, den := Sq(p), Den(p);
    Scale(2500.0 * q, 5000.0 * q, 2500.0 * q, -(5000.0 * q - 20000.0), -(2500.0 * q - 7071.0 * p + 10000.0), den);
    assert 2500.0 * q + 5000.0 * q + 2500.0 * q - (5000.0 * q - 20000.0) - (2500.0 * q - 7071.0 * p + 10000.0) == den;
  }

  /** After init(v) the filter outputs v for as long as it is fed v. */
  lemma {:induction false} InitIsFixed(p: real, v: real, n: nat)
    ensures Hold(Coefficients(p), Taps(v, v, v, v), v, n) == Taps(v, v, v, v)
    decreases n
  {
    if n > 0 {
      var c := Coefficients(p);
      CoefficientsSumToOne(p);
      assert Output(c, Taps(v, v, v, v), v) == (c.in1 + c.in2 + c.in3 + c.out1 + c.out2) * v == v;
      assert Push(c, Taps(v, v, v, v), v) == Taps(v, v, v, v);
      InitIsFixed(p, v, n - 1);
    }
  }

  // ---- energy of the deviation from a constant input ----

  // q stands for (wc * ts)^2.
  function Energy(q: real, e1: real, e2: real): real {
    EnergyOf(q, e1 + e2, e1 - e2)
  }

  // The same from the sum and the difference of the deviations.
  function EnergyOf(q: real, sum: real, diff: real): real {
    Weighted(q, Sq(sum), Sq(diff))
  }

  function Weighted(q: real, s: real, d: real): real {
    q * s + 4.0 * d
  }

  function TapEnergy(p: real, t: Taps, v: real): real {
    Energy(Sq(p), t.y0 - v, t.y1 - v)
  }

  // The deviations obey the homogeneous recurrence, cleared of its denominator.
  predicate Recurrence(p: real, e: real, e1: real, e2: real) {
    Den(p) * e == (20000.0 - 5000.0 * Sq(p)) * e1 - (2500.0 * Sq(p) - 7071.0 * p + 10000.0) * e2
  }

  lemma DeviationRecurs(p: real, t: Taps, v: real)
    requires t.x0 == v && t.x1 == v
    ensures Recurrence(p, Output(Coefficients(p), t, v) - v, t.y0 - v, t.y1 - v)
  {
    DenPositive(p);
    CoefficientsSumToOne(p);
    var c, den := Coefficients(p), Den(p);
    var e1, e2 := t.y0 - v, t.y1 - v;
    var rest := 1.0 - c.in1 - c.in2 - c.in3;
    assert Output(c, t, v) - v == c.out1 * e1 + c.out2 * e2 + (c.out1 + c.out2 - rest) * v;
    assert Output(c, t, v) - v == c.out1 * e1 + c.out2 * e2;
    Clear(c.out1, -(5000.0 * Sq(p) - 20000.0), den, e1);
    Clear(c.out2, -(2500.0 * Sq(p) - 7071.0 * p + 10000.0), den, e2);
    assert den * (c.out1 * e1 + c.out2 * e2) == den * (c.out1 * e1) + den * (c.out2 * e2);
  }

  lemma Clear(k: real, n: real, den: real, e: real)
    requires den != 0.0 && k == n / den
    ensures den * (k * e) == n * e
  {
    assert den * k == n;
    assert den * (k * e) == (den * k) * e;
  }

  // 2500 times the loss of one step that makes this gap.
  function Loss(p: real, gap: real): real {
    7071.0 * p * Sq(gap)
  }

  /** What one sample takes off the energy. */
  lemma EnergyLoss(p: real, e: real, e1: real, e2: real)
    requires Recurrence(p, e, e1, e2)
    ensures 2500.0 * Energy(Sq(p), e, e1) == 2500.0 * Energy(Sq(p), e1, e2) - Loss(p, e - e2)
  {
    ResidualZero(p, e, e1, e2);
    LossFromResidual(Sq(p), 7071.0 * p, e, e1, e2);
  }

  lemma LossFromResidual(q: real, r: real, e: real, e1: real, e2: real)
    requires Residual(q, r, e, e1, e2) == 0.0
    ensures 2500.0 * Energy(q, e, e1) == 2500.0 * Energy(q, e1, e2) - Product(r, Sq(e - e2))
  {
    ResidualBalance(q, r, e, e1, e2);
    Rearrange(q, Sq(e - e1), Sq(e1 - e2), Sq(e + e1), Sq(e1 + e2), Product(r, Sq(e - e2)));
  }

  // The residual times the gap, as a balance of squares.
  function Balance(q: real, d: real, f: real, s: real, t: real, loss: real): real {
    10000.0 * (d - f) + 2500.0 * q * (s - t) + loss
  }

  lemma ResidualBalance(q: real, r: real, e: real, e1: real, e2: real)
    requires Residual(q, r, e, e1, e2) == 0.0
    ensures Balance(q, Sq(e - e1), Sq(e1 - e2), Sq(e + e1), Sq(e1 + e2), Product(r, Sq(e - e2))) == 0.0
  {
    var g, d, s := e - e2, e - 2.0 * e1 + e2, e + 2.0 * e1 + e2;
    assert g * Residual(q, r, e, e1, e2) == 0.0;
    Spread(g, d, q, s, r);
    Telescopes(e, e1, e2);
  }

  lemma Telescopes(e: real, e1: real, e2: real)
    ensures (e - e2) * (e - 2.0 * e1 + e2) == Sq(e - e1) - Sq(e1 - e2)
    ensures (e - e2) * (e + 2.0 * e1 + e2) == Sq(e + e1) - Sq(e1 + e2)
  {
  }

  lemma Spread(g: real, d: real, q: real, s: real, r: real)
    ensures g * (10000.0 * d + 2500.0 * q * s + r * g) == 10000.0 * (g * d) + 2500.0 * q * (g * s) + r * Sq(g)
  {
  }

  lemma Rearrange(q: real, d: real, f: real, s: real, t: real, loss: real)
    requires Balance(q, d, f, s, t, loss) == 0.0
    ensures 2500.0 * Weighted(q, s, d) == 2500.0 * Weighted(q, t, f) - loss
  {
    assert q * (s - t) == q * s - q * t;
  }

  function Residual(q: real, r: real, e: real, e1: real, e2: real): real {
    10000.0 * (e - 2.0 * e1 + e2) + 2500.0 * q * (e + 2.0 * e1 + e2) + r * (e - e2)
  }

  lemma ResidualZero(p: real, e: real, e1: real, e2: real)
    requires Recurrence(p, e, e1, e2)
    ensures Residual(Sq(p), 7071.0 * p, e, e1, e2) == 0.0
  {
  }

  /** Once both stored inputs equal v, another v never raises the energy of the deviation. */
  lemma EnergyNeverGrows(p: real, t: Taps, v: real)
    requires p > 0.0 && t.x0 == v && t.x1 == v
    ensures TapEnergy(p, Push(Coefficients(p), t, v), v) <= TapEnergy(p, t, v)
  {
    var e, e1, e2 := Output(Coefficients(p), t, v) - v, t.y0 - v, t.y1 - v;
    DeviationRecurs(p, t, v);
    EnergyLoss(p, e, e1, e2);
    LossNonneg(p, e - e2);
  }

  lemma LossNonneg(p: real, gap: real)
    requires p > 0.0
    ensures Loss(p, gap) >= 0.0
  {
    SqNonneg(gap);
    assert p * Sq(gap) >= 0.0;
  }

  // ---- geometric decay over two steps ----

  // Loss coefficients: a = e' - e2 and b = e'' - e1 are the gaps two steps make.
  function SumGain(p: real): real {
    20000.0 - 5000.0 * Sq(p) - Den(p)
  }

  function DiffGain(p: real): real {
    20000.0 - 5000.0 * Sq(p) + Den(p)
  }

  // The gaps a and b determine the sum and the difference of the deviations.
  predicate Pinned(q: real, sum: real, diff: real, sg: real, dg: real, den: real, a: real, b: real) {
    10000.0 * q * sum == sg * a - den * b && 40000.0 * diff == dg * a - den * b
  }

  lemma GapsPinState(p: real, e'': real, e': real, e1: real, e2: real)
    requires Recurrence(p, e', e1, e2) && Recurrence(p, e'', e', e1)
    ensures Pinned(Sq(p), e1 + e2, e1 - e2, SumGain(p), DiffGain(p), Den(p), e' - e2, e'' - e1)
  {
    ResidualZero(p, e', e1, e2);
    ResidualZero(p, e'', e', e1);
  }

  lemma CauchySchwarz(x: real, a: real, y: real, b: real, u: real, s: real, w: real)
    requires u == x * a - y * b && s == Sq(x) + Sq(y) && w == Sq(a) + Sq(b)
    ensures Sq(u) <= s * w
  {
    SqNonneg(x * b + y * a);
    assert s * w - Sq(u) == Sq(x * b + y * a);
  }

  // An upper bound on energy per unit of squared gap.
  function Stiffness(p: real): real
    requires p > 0.0
  {
    SqPositive(p);
    StiffnessOf(Sq(p), SumGain(p), DiffGain(p), Den(p))
  }

  function StiffnessOf(q: real, sg: real, dg: real, den: real): real
    requires q > 0.0
  {
    (Sq(sg) + Sq(den)) / (100000000.0 * q) + (Sq(dg) + Sq(den)) / 400000000.0
  }

  function Stretch(stiff: real, a: real, b: real): real {
    stiff * (Sq(a) + Sq(b))
  }

  lemma StiffnessPositive(p: real)
    requires p > 0.0
    ensures Stiffness(p) > 0.0
  {
    DenPositive(p);
    SqNonneg(SumGain(p));
    SqNonneg(DiffGain(p));
    SqPositive(Den(p));
    SqPositive(p);
    assert (Sq(SumGain(p)) + Sq(Den(p))) / (100000000.0 * Sq(p)) > 0.0;
  }

  lemma EnergyWithinGaps(p: real, e'': real, e': real, e1: real, e2: real)
    requires p > 0.0 && Recurrence(p, e', e1, e2) && Recurrence(p, e'', e', e1)
    ensures Energy(Sq(p), e1, e2) <= Stretch(Stiffness(p), e' - e2, e'' - e1)
  {
    SqPositive(p);
    GapsPinState(p, e'', e', e1, e2);
    BoundFromGaps(Sq(p), e1 + e2, e1 - e2, SumGain(p), DiffGain(p), Den(p), e' - e2, e'' - e1);
  }

  lemma BoundFromGaps(q: real, t: real, f: real, sg: real, dg: real, den: real, a: real, b: real)
    requires q > 0.0
    requires Pinned(q, t, f, sg, dg, den, a, b)
    ensures EnergyOf(q, t, f) <= Stretch(StiffnessOf(q, sg, dg, den), a, b)
  {
    var w, s, d := Sq(a) + Sq(b), Sq(sg) + Sq(den), Sq(dg) + Sq(den);
    CauchySchwarz(sg, a, den, b, 10000.0 * q * t, s, w);
    CauchySchwarz(dg, a, den, b, 40000.0 * f, d, w);
    SumPart(q, t, s * w);
    DiffPart(f, d * w);
    Regroup(s, d, 100000000.0 * q, 400000000.0, w);
  }

  lemma DiffPart(f: real, bound: real)
    requires Sq(40000.0 * f) <= bound
    ensures 4.0 * Sq(f) <= bound / 400000000.0
  {
    assert Sq(40000.0 * f) == 1600000000.0 * Sq(f);
  }

  lemma SumPart(q: real, t: real, bound: real)
    requires q > 0.0 && Sq(10000.0 * q * t) <= bound
    ensures q * Sq(t) <= bound / (100000000.0 * q)
  {
    var m := 100000000.0 * q;
    assert Sq(10000.0 * q * t) == m * (q * Sq(t));
    DivMono(m, q * Sq(t), bound);
  }

  lemma DivMono(m: real, x: real, bound: real)
    requires m > 0.0 && m * x <= bound
    ensures x <= bound / m
  {
    var b := bound / m;
    assert m * b == bound;
    MulCancel(m, x, b);
  }

  lemma MulCancel(m: real, x: real, y: real)
    requires m > 0.0 && m * x <= m * y
    ensures x <= y
  {
  }

  lemma Regroup(s: real, d: real, m: real, n: real, w: real)
    requires m > 0.0 && n > 0.0
    ensures s * w / m + d * w / n == (s / m + d / n) * w
  {
    assert s * w / m == (s / m) * w;
    assert d * w / n == (d / n) * w;
  }

  // The fraction of the energy that two steps are sure to remove.
  function Decay(p: real): real
    requires p > 0.0
  {
    StiffnessPositive(p);
    Share(p, Stiffness(p))
  }

  function Share(p: real, stiff: real): real
    requires stiff > 0.0
  {
    7071.0 * p / (2500.0 * stiff)
  }

  // What is left of e without the fraction k.
  function Kept(k: real, e: real): real {
    (1.0 - k) * e
  }

  lemma TwoStepsLose(p: real, e'': real, e': real, e1: real, e2: real)
    requires p > 0.0 && Recurrence(p, e', e1, e2) && Recurrence(p, e'', e', e1)
    ensures Energy(Sq(p), e'', e') <= Kept(Decay(p), Energy(Sq(p), e1, e2))
  {
    EnergyLoss(p, e', e1, e2);
    EnergyLoss(p, e'', e', e1);
    EnergyWithinGaps(p, e'', e', e1, e2);
    StiffnessPositive(p);
    CombineLosses(p, Stiffness(p), Energy(Sq(p), e1, e2), Energy(Sq(p), e', e1), Energy(Sq(p), e'', e'), e' - e2, e'' - e1);
  }

  lemma CombineLosses(p: real, stiff: real, before: real, between: real, after: real, a: real, b: real)
    requires p > 0.0 && stiff > 0.0 && before <= Stretch(stiff, a, b)
    requires 2500.0 * between == 2500.0 * before - Loss(p, a) && 2500.0 * after == 2500.0 * between - Loss(p, b)
    ensures after <= Kept(Share(p, stiff), before)
  {
    var c, w := 7071.0 * p / 2500.0, Sq(a) + Sq(b);
    assert c / stiff == Share(p, stiff);
    assert after == before - c * w;
    LossAtLeast(c, stiff, w, before);
  }

  lemma LossAtLeast(c: real, stiff: real, w: real, before: real)
    requires c > 0.0 && stiff > 0.0 && before <= stiff * w
    ensures before - c * w <= (1.0 - c / stiff) * before
  {
    var k := c / stiff;
    assert k * stiff == c && k > 0.0;
    assert k * before <= k * (stiff * w);
    assert k * (stiff * w) == c * w;
  }

  lemma EnergyNonneg(q: real, e1: real, e2: real)
    requires q >= 0.0
    ensures Energy(q, e1, e2) >= 0.0
  {
    SqNonneg(e1 + e2);
    SqNonneg(e1 - e2);
  }

  // Every deviation keeps a nonnegative energy, so no more than all of it can be removed.
  lemma DecayIsFraction(p: real)
    requires p > 0.0
    ensures 0.0 < Decay(p) <= 1.0
  {
    StiffnessPositive(p);
    var e' := Next(p, 1.0, 0.0);
    var e'' := Next(p, e', 1.0);
    TwoStepsLose(p, e'', e', 1.0, 0.0);
    SqNonneg(p);
    EnergyNonneg(Sq(p), e'', e');
    FractionAtMostOne(Decay(p), Energy(Sq(p), 1.0, 0.0));
    FractionPositive(7071.0 * p, 2500.0 * Stiffness(p));
  }

  // The deviation that follows e1, e2.
  function Next(p: real, e1: real, e2: real): (e: real)
    ensures Recurrence(p, e, e1, e2)
  {
    DenPositive(p);
    var n := (20000.0 - 5000.0 * Sq(p)) * e1 - (2500.0 * Sq(p) - 7071.0 * p + 10000.0) * e2;
    n / Den(p)
  }

  lemma FractionAtMostOne(k: real, e: real)
    requires e > 0.0 && 0.0 <= (1.0 - k) * e
    ensures k <= 1.0
  {
    MulCancel(e, 0.0, 1.0 - k);
  }

  lemma FractionPositive(n: real, d: real)
    requires n > 0.0 && d > 0.0
    ensures n / d > 0.0
  {
  }

  function Power(x: real, n: nat): real {
    if n == 0 then 1.0 else x * Power(x, n - 1)
  }

  /** Fed a constant, the filter settles on it: every two samples remove at least the fixed
      fraction Decay(p) of the energy of the deviation. */
  lemma {:induction false} Settles(p: real, t: Taps, v: real, n: nat)
    requires p > 0.0 && t.x0 == v && t.x1 == v
    ensures 0.0 < Decay(p) <= 1.0
    ensures TapEnergy(p, Hold(Coefficients(p), t, v, 2 * n), v) <= Power(1.0 - Decay(p), n) * TapEnergy(p, t, v)
    decreases n
  {
    DecayIsFraction(p);
    if n > 0 {
      var c, k := Coefficients(p), 1.0 - Decay(p);
      var t2 := Push(c, Push(c, t, v), v);
      Settles(p, t2, v, n - 1);
      HoldTwo(c, t, v, 2 * n - 2);
      PowerNonneg(k, n - 1);
      PairLoses(p, t, v);
      Chain(Power(k, n - 1), TapEnergy(p, t2, v), Decay(p), TapEnergy(p, t, v));
    }
  }

  lemma HoldTwo(c: Coeffs, t: Taps, v: real, n: nat)
    ensures Hold(c, t, v, n + 2) == Hold(c, Push(c, Push(c, t, v), v), v, n)
  {
    assert Hold(c, t, v, n + 2) == Hold(c, Push(c, t, v), v, n + 1);
  }

  lemma PairLoses(p: real, t: Taps, v: real)
    requires p > 0.0 && t.x0 == v && t.x1 == v
    ensures var t1 := Push(Coefficients(p), t, v); var t2 := Push(Coefficients(p), t1, v);
            TapEnergy(p, t2, v) <= Kept(Decay(p), TapEnergy(p, t, v))
  {
    var t1 := Push(Coefficients(p), t, v);
    DeviationRecurs(p, t, v);
    DeviationRecurs(p, t1, v);
    TwoStepsLose(p, Output(Coefficients(p), t1, v) - v, t1.y0 - v, t.y0 - v, t.y1 - v);
  }

  lemma PowerNonneg(x: real, n: nat)
    requires x >= 0.0
    ensures Power(x, n) >= 0.0
  {
  }

  lemma Chain(m: real, a: real, d: real, b: real)
    requires m >= 0.0 && a <= Kept(d, b)
    ensures m * a <= (1.0 - d) * m * b
  {
    assert m * a <= m * ((1.0 - d) * b);
  }

  // ---- the output converges to the input ----

  function Product(a: real, b: real): real {
    a * b
  }

  lemma ProductOrder(a: real, b: real, c: real)
    requires a >= 0.0
    ensures b <= c ==> Product(a, b) <= Product(a, c)
    ensures a > 0.0 && b < c ==> Product(a, b) < Product(a, c)
  {
  }

  lemma ProductNext(n: nat, d: real)
    ensures Product((n + 1) as real, d) == Product(n as real, d) + d && Product(0.0, d) == 0.0
  {
  }

  lemma {:induction false} HoldFrom(c: Coeffs, t: Taps, v: real, m: nat, n: nat)
    ensures Hold(c, t, v, m + n) == Hold(c, Hold(c, t, v, m), v, n)
    decreases m
  {
    if m > 0 {
      HoldFrom(c, Push(c, t, v), v, m - 1, n);
    }
  }

  // However long the input is held, the energy stays at most what it was.
  lemma {:induction false} HoldLoses(p: real, t: Taps, v: real, n: nat)
    requires p > 0.0 && t.x0 == v && t.x1 == v
    ensures var h := Hold(Coefficients(p), t, v, n); h.x0 == v && h.x1 == v && TapEnergy(p, h, v) <= TapEnergy(p, t, v)
    decreases n
  {
    if n > 0 {
      EnergyNeverGrows(p, t, v);
      HoldLoses(p, Push(Coefficients(p), t, v), v, n - 1);
    }
  }

  // As long as the energy is at least bound, every two samples take a fixed amount off it.
  lemma {:induction false} FallsBelow(p: real, t: Taps, v: real, bound: real, n: nat)
    requires p > 0.0 && t.x0 == v && t.x1 == v && bound > 0.0
    ensures var left := TapEnergy(p, Hold(Coefficients(p), t, v, 2 * n), v);
            left < bound || left <= TapEnergy(p, t, v) - Product(n as real, Product(Decay(p), bound))
    decreases n
  {
    var d := Product(Decay(p), bound);
    if n == 0 {
      ProductNext(0, d);
    } else if TapEnergy(p, t, v) < bound {
      HoldLoses(p, t, v, 2 * n);
    } else {
      var c := Coefficients(p);
      var t2 := Push(c, Push(c, t, v), v);
      PairLoses(p, t, v);
      TakenOff(p, TapEnergy(p, t, v), TapEnergy(p, t2, v), bound);
      FallsBelow(p, t2, v, bound, n - 1);
      HoldTwo(c, t, v, 2 * n - 2);
      ProductNext(n - 1, d);
    }
  }

  lemma TakenOff(p: real, before: real, after: real, bound: real)
    requires p > 0.0 && after <= Kept(Decay(p), before) && before >= bound
    ensures after <= before - Product(Decay(p), bound)
  {
    DecayIsFraction(p);
    ProductOrder(Decay(p), bound, before);
    OneMinus(Decay(p), before);
  }

  lemma OneMinus(k: real, e: real)
    ensures Kept(k, e) == e - Product(k, e)
  {
  }

  // The smaller of the two weights in the energy.
  function Weight(q: real): real {
    if q < 4.0 then q else 4.0
  }

  lemma EnergyBoundsOutput(q: real, e1: real, e2: real)
    requires q > 0.0
    ensures Product(2.0 * Weight(q), Sq(e1)) <= Energy(q, e1, e2)
  {
    var s, d, m := Sq(e1 + e2), Sq(e1 - e2), Weight(q);
    assert s + d == 2.0 * Sq(e1) + 2.0 * Sq(e2);
    SqNonneg(e1 + e2);
    SqNonneg(e1 - e2);
    SqNonneg(e2);
    WeightedSum(q, s, d, Sq(e1));
  }

  lemma WeightedSum(q: real, s: real, d: real, e: real)
    requires q > 0.0 && s >= 0.0 && d >= 0.0 && s + d >= 2.0 * e
    ensures Product(2.0 * Weight(q), e) <= q * s + 4.0 * d
  {
    var m := Weight(q);
    ProductOrder(m, 2.0 * e, s + d);
    assert Product(2.0 * m, e) == Product(m, 2.0 * e);
    ProductOrder(s, m, q);
    ProductOrder(d, m, 4.0);
    assert Product(m, s + d) == Product(s, m) + Product(d, m);
    assert Product(s, q) == q * s && Product(d, 4.0) == 4.0 * d;
  }

  lemma SmallSquare(e: real, eps: real)
    requires eps > 0.0 && Sq(e) < Sq(eps)
    ensures -eps < e < eps
  {
    assert Sq(-e) == Sq(e);
    if e >= eps {
      SquareOrder(eps, e);
    } else if e <= -eps {
      SquareOrder(eps, -e);
    }
  }

  lemma SquareOrder(a: real, b: real)
    requires 0.0 <= a <= b
    ensures Sq(a) <= Sq(b)
  {
    ProductOrder(a, a, b);
    ProductOrder(b, a, b);
    assert Sq(a) == Product(a, a) && Sq(b) == Product(b, b) && Product(a, b) == Product(b, a);
  }

  // From sample n on every output is within eps of v.
  ghost predicate StaysWithin(p: real, t: Taps, v: real, eps: real, n: nat) {
    forall m: nat :: m >= n ==> -eps < Hold(Coefficients(p), t, v, m).y0 - v < eps
  }

  // The samples after which the energy is below a bound.
  function SamplesFor(p: real, t: Taps, v: real, bound: real): (n: nat)
    requires p > 0.0 && bound > 0.0
    ensures Product(n as real / 2.0, Product(Decay(p), bound)) > TapEnergy(p, t, v) && n % 2 == 0
  {
    DecayIsFraction(p);
    MulPositive(Decay(p), bound, Product(Decay(p), bound));
    SqNonneg(p);
    EnergyNonneg(Sq(p), t.y0 - v, t.y1 - v);
    FloorCovers(TapEnergy(p, t, v), Product(Decay(p), bound));
    2 * ((TapEnergy(p, t, v) / Product(Decay(p), bound)).Floor + 1)
  }

  lemma FloorCovers(e: real, d: real)
    requires e >= 0.0 && d > 0.0
    ensures (e / d).Floor >= 0 && Product(((e / d).Floor + 1) as real, d) > e
  {
    var f := e / d;
    assert Product(d, f) == e;
    DivMono(d, 0.0, e);
    ProductOrder(d, f, (f.Floor + 1) as real);
    assert Product((f.Floor + 1) as real, d) == Product(d, (f.Floor + 1) as real);
  }

  /** Fed a constant from any state, the filter's output converges to it: for every eps there is a
      sample from which on every output is within eps of the input. */
  lemma Converges(p: real, t: Taps, v: real, eps: real)
    requires p > 0.0 && t.x0 == v && t.x1 == v && eps > 0.0
    ensures exists n: nat :: StaysWithin(p, t, v, eps, n)
  {
    var bound := Product(2.0 * Weight(Sq(p)), Sq(eps));
    SqPositive(p);
    SqPositive(eps);
    MulPositive(2.0 * Weight(Sq(p)), Sq(eps), bound);
    var n := SamplesFor(p, t, v, bound);
    FallsBelow(p, t, v, bound, n / 2);
    forall m: nat | m >= n ensures -eps < Hold(Coefficients(p), t, v, m).y0 - v < eps {
      EndsWithin(p, t, v, eps, n, m, bound);
    }
    assert StaysWithin(p, t, v, eps, n);
  }

  lemma EndsWithin(p: real, t: Taps, v: real, eps: real, n: nat, m: nat, bound: real)
    requires p > 0.0 && t.x0 == v && t.x1 == v && eps > 0.0 && n % 2 == 0 && m >= n
    requires bound == Product(2.0 * Weight(Sq(p)), Sq(eps)) && bound > 0.0
    requires Product(n as real / 2.0, Product(Decay(p), bound)) > TapEnergy(p, t, v)
    ensures -eps < Hold(Coefficients(p), t, v, m).y0 - v < eps
  {
    var c := Coefficients(p);
    var h := Hold(c, t, v, n);
    FallsBelow(p, t, v, bound, n / 2);
    HoldLoses(p, t, v, n);
    SqPositive(p);
    EnergyNonneg(Sq(p), h.y0 - v, h.y1 - v);
    HoldLoses(p, h, v, m - n);
    HoldFrom(c, t, v, n, m - n);
    var g := Hold(c, t, v, m);
    EnergyBoundsOutput(Sq(p), g.y0 - v, g.y1 - v);
    ProductOrder(2.0 * Weight(Sq(p)), Sq(eps), Sq(g.y0 - v));
    SmallSquare(g.y0 - v, eps);
  }

  // ---- what the filter is ----

  // A second-order low-pass with damping 0.7071, discretised by the bilinear transform: second
  // difference, difference and value of the output against the value of the input.
  predicate Bilinear(p: real, t: Taps, x: real, y: real) {
    10000.0 * (y - 2.0 * t.y0 + t.y1) + 7071.0 * p * (y - t.y1) + 2500.0 * (p * p) * (y + 2.0 * t.y0 + t.y1)
      == 2500.0 * (p * p) * (x + 2.0 * t.x0 + t.x1)
  }

  // The numerators of the coefficients, and what they make of the stored samples.
  function Numerators(p: real): Coeffs {
    Coeffs(2500.0 * Sq(p), 5000.0 * Sq(p), 2500.0 * Sq(p), -(5000.0 * Sq(p) - 20000.0), -(2500.0 * Sq(p) - 7071.0 * p + 10000.0))
  }

  lemma OutputCleared(p: real, t: Taps, x: real)
    ensures Product(Den(p), Output(Coefficients(p), t, x)) == Output(Numerators(p), t, x)
  {
    hide Sq, Den, Output;
    DenPositive(p);
    ScaledOutput(Coefficients(p), Numerators(p), Den(p), t, x);
  }

  lemma ScaledOutput(c: Coeffs, n: Coeffs, den: real, t: Taps, x: real)
    requires den != 0.0 && c == Coeffs(n.in1 / den, n.in2 / den, n.in3 / den, n.out1 / den, n.out2 / den)
    ensures Product(den, Output(c, t, x)) == Output(n, t, x)
  {
    hide Product, Output;
    OutputSums(c, t, x);
    OutputSums(n, t, x);
    Cleared(c.in1, n.in1, den, x);
    Cleared(c.in2, n.in2, den, t.x0);
    Cleared(c.in3, n.in3, den, t.x1);
    Cleared(c.out1, n.out1, den, t.y0);
    Cleared(c.out2, n.out2, den, t.y1);
    Distribute(den, Product(c.in1, x), Product(c.in2, t.x0), Product(c.in3, t.x1), Product(c.out1, t.y0), Product(c.out2, t.y1));
  }

  lemma OutputSums(c: Coeffs, t: Taps, x: real)
    ensures Output(c, t, x)
         == Product(c.in1, x) + Product(c.in2, t.x0) + Product(c.in3, t.x1) + Product(c.out1, t.y0) + Product(c.out2, t.y1)
  {
  }

  lemma Cleared(k: real, n: real, den: real, e: real)
    requires den != 0.0 && k == n / den
    ensures Product(den, Product(k, e)) == Product(n, e)
  {
    Clear(k, n, den, e);
  }

  lemma Distribute(k: real, a: real, b: real, c: real, d: real, e: real)
    ensures Product(k, a + b + c + d + e) == Product(k, a) + Product(k, b) + Product(k, c) + Product(k, d) + Product(k, e)
  {
  }

  // The two sides of Bilinear differ by the denominator times y, less what that product should be.
  lemma BilinearCleared(p: real, t: Taps, x: real, y: real)
    ensures Bilinear(p, t, x, y) <==> Product(Den(p), y) == Output(Numerators(p), t, x)
  {
    var q, r := Sq(p), 7071.0 * p;
    assert 10000.0 * (y - 2.0 * t.y0 + t.y1) + r * (y - t.y1) + 2500.0 * q * (y + 2.0 * t.y0 + t.y1)
        == Product(Den(p), y) - (20000.0 - 5000.0 * q) * t.y0 + (2500.0 * q - r + 10000.0) * t.y1;
    assert 2500.0 * q * (x + 2.0 * t.x0 + t.x1) == 2500.0 * q * x + 5000.0 * q * t.x0 + 2500.0 * q * t.x1;
  }

  /** Whatever is stored and whatever comes in, the output is the one number that obeys the
      bilinear difference equation. */
  lemma OutputIff(p: real, t: Taps, x: real, y: real)
    ensures y == Output(Coefficients(p), t, x) <==> Bilinear(p, t, x, y)
  {
    hide Output, Coefficients, Bilinear;
    DenPositive(p);
    OutputCleared(p, t, x);
    BilinearCleared(p, t, x, y);
    SameProduct(Den(p), y, Output(Coefficients(p), t, x));
  }

  lemma SameProduct(k: real, a: real, b: real)
    requires k > 0.0
    ensures Product(k, a) == Product(k, b) <==> a == b
  {
    ProductOrder(k, a, b);
    ProductOrder(k, b, a);
  }

  // ---- the fastest signal ----

  // n more samples v, -v, v and so on.
  function Alternate(c: Coeffs, t: Taps, v: real, n: nat): Taps
    decreases n
  {
    if n == 0 then t else Alternate(c, Push(c, t, v), -v, n - 1)
  }

  // What the filter would hold had its input been 0.
  function Silent(t: Taps): Taps {
    Taps(0.0, 0.0, t.y0, t.y1)
  }

  lemma AlternatingAddsNothing(p: real, t: Taps, v: real)
    requires t.x0 == -v && t.x1 == v
    ensures Output(Coefficients(p), t, v) == Output(Coefficients(p), Silent(t), 0.0)
  {
    hide Output, Coefficients;
    var y := Output(Coefficients(p), t, v);
    OutputIff(p, t, v, y);
    OutputIff(p, Silent(t), 0.0, y);
    assert v + 2.0 * t.x0 + t.x1 == 0.0;
  }

  /** An alternating input contributes nothing: the outputs are those of an input of 0. */
  lemma {:induction false} AlternateIsSilent(p: real, t: Taps, v: real, n: nat)
    requires t.x0 == -v && t.x1 == v
    ensures Silent(Alternate(Coefficients(p), t, v, n)) == Hold(Coefficients(p), Silent(t), 0.0, n)
    decreases n
  {
    if n > 0 {
      AlternatingAddsNothing(p, t, v);
      AlternateIsSilent(p, Push(Coefficients(p), t, v), -v, n - 1);
    }
  }

  /** So the output of an alternating input, however large, converges to 0 from any state. */
  lemma AlternatingVanishes(p: real, t: Taps, v: real, eps: real)
    requires p > 0.0 && t.x0 == -v && t.x1 == v && eps > 0.0
    ensures exists n: nat :: Vanishes(p, t, v, eps, n)
  {
    Converges(p, Silent(t), 0.0, eps);
    var n: nat :| StaysWithin(p, Silent(t), 0.0, eps, n);
    forall m: nat | m >= n ensures -eps < Alternate(Coefficients(p), t, v, m).y0 < eps {
      AlternateIsSilent(p, t, v, m);
      assert Silent(Alternate(Coefficients(p), t, v, m)).y0 == Hold(Coefficients(p), Silent(t), 0.0, m).y0;
    }
    assert Vanishes(p, t, v, eps, n);
  }

  // From sample n on every output is within eps of 0.
  ghost predicate Vanishes(p: real, t: Taps, v: real, eps: real, n: nat) {
    forall m: nat :: m >= n ==> -eps < Alternate(Coefficients(p), t, v, m).y0 < eps
  }
}
