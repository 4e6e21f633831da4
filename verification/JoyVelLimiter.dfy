/** The joystick rate limiter: a box-constrained quadratic program per update, its solver given
    only as something that returns a minimiser. */
module JoyVelLimiterClass {
  import opened Common

  // ---- one axis ----

  // One axis of the objective, with Hessian entry h and gradient entry g.
  function Cost(h: real, g: real, x: real): real {
    0.5 * h * x * x + g * x
  }

  lemma MulNonNegative(a: real, b: real)
    requires a >= 0.0 && b >= 0.0
    ensures a * b >= 0.0
  {
  }

  lemma MulPositive(a: real, b: real)
    requires a > 0.0 && b > 0.0
    ensures a * b > 0.0
  {
  }

  function Square(a: real): real {
    a * a
  }

  // How far x lies beyond the point c, seen from the unbounded optimum u.
  function Slack(u: real, x: real, c: real): real {
    (x - c) * (c - u)
  }

  function Gap(h: real, square: real, slack: real): real {
    0.5 * h * square + h * slack
  }

  // The unbounded optimum of one axis is u.
  predicate OptimumAt(h: real, g: real, u: real) {
    g == -(h * u)
  }

  lemma NearestSide(u: real, x: real, lo: real, hi: real, c: real)
    requires lo <= x <= hi && c == Clamp(u, lo, hi)
    ensures Slack(u, x, c) >= 0.0
  {
    if u < lo {
      MulNonNegative(x - c, c - u);
    } else if u > hi {
      MulNonNegative(c - x, u - c);
      assert (x - c) * (c - u) == (c - x) * (u - c);
    } else {
      assert c - u == 0.0;
    }
  }

  lemma CostGap(h: real, g: real, u: real, x: real, c: real)
    requires OptimumAt(h, g, u)
    ensures Cost(h, g, x) - Cost(h, g, c) == Gap(h, Square(x - c), Slack(u, x, c))
  {
    assert g * x == -(h * u) * x && g * c == -(h * u) * c;
  }

  lemma GapSign(h: real, square: real, slack: real)
    requires h > 0.0 && square >= 0.0 && slack >= 0.0
    ensures Gap(h, square, slack) >= 0.0
    ensures square > 0.0 ==> Gap(h, square, slack) > 0.0
  {
    MulNonNegative(h, slack);
    MulNonNegative(h, square);
    if square > 0.0 {
      MulPositive(h, square);
    }
  }

  /** Any other point of the box costs strictly more than the clamped one. */
  lemma ClampIsCheapest(h: real, g: real, u: real, x: real, lo: real, hi: real, c: real)
    requires h > 0.0 && OptimumAt(h, g, u) && lo <= x <= hi && c == Clamp(u, lo, hi)
    ensures Cost(h, g, c) <= Cost(h, g, x)
    ensures x != c ==> Cost(h, g, c) < Cost(h, g, x)
  {
    CostGap(h, g, u, x, c);
    NearestSide(u, x, lo, hi, c);
    SquarePositive(x - c);
    GapSign(h, Square(x - c), Slack(u, x, c));
  }

  function Product(a: real, b: real): real {
    a * b
  }

  lemma ProductSign(a: real, b: real)
    ensures a >= 0.0 && b >= 0.0 ==> Product(a, b) >= 0.0
    ensures a > 0.0 && b > 0.0 ==> Product(a, b) > 0.0
  {
  }

  lemma SquarePositive(a: real)
    ensures Square(a) >= 0.0
    ensures a != 0.0 ==> Square(a) > 0.0
  {
    ProductSign(a, a);
    ProductSign(-a, -a);
    assert Square(a) == Product(a, a) == Product(-a, -a);
  }

  // ---- the program over all axes ----

  type Vector = seq<real>

  function Objective(h: real, g: Vector, x: Vector): real
    requires |g| == |x|
  {
    if x == [] then 0.0 else Objective(h, g[..|x| - 1], x[..|x| - 1]) + Cost(h, g[|x| - 1], x[|x| - 1])
  }

  predicate InBox(x: Vector, lb: Vector, ub: Vector) {
    |x| == |lb| == |ub| && forall i :: 0 <= i < |x| ==> lb[i] <= x[i] <= ub[i]
  }

  /** What the solver is asked for. */
  ghost predicate IsMinimiser(h: real, g: Vector, lb: Vector, ub: Vector, x: Vector) {
    && InBox(x, lb, ub) && |g| == |x|
    && forall y: Vector :: InBox(y, lb, ub) ==> Objective(h, g, x) <= Objective(h, g, y)
  }

  lemma {:induction false} ObjectiveChange(h: real, g: Vector, x: Vector, i: nat, c: real)
    requires |g| == |x| && i < |x|
    ensures Objective(h, g, x[i := c]) - Objective(h, g, x) == Cost(h, g[i], c) - Cost(h, g[i], x[i])
  {
    var n := |x| - 1;
    if i == n {
      assert x[i := c][..n] == x[..n];
    } else {
      assert x[i := c][..n] == x[..n][i := c];
      ObjectiveChange(h, g[..n], x[..n], i, c);
    }
  }

  // The gradient the limiter passes, and the point it would go to without bounds.
  function Gradient(state: Vector, target: Vector, dt: real): Vector
    requires |state| == |target|
  {
    seq(|state|, i requires 0 <= i < |state| => (state[i] - target[i]) * dt)
  }

  function Wanted(s: real, t: real, dt: real): real
    requires dt != 0.0
  {
    (t - s) / dt
  }

  lemma GradientAtWanted(s: real, t: real, dt: real, h: real, g: real)
    requires dt != 0.0 && h == Square(dt) && g == (s - t) * dt
    ensures h > 0.0 && OptimumAt(h, g, Wanted(s, t, dt))
  {
    SquarePositive(dt);
    var u := Wanted(s, t, dt);
    assert u * dt == t - s;
    assert dt * dt * u == dt * (u * dt);
  }

  function Velocity(state: Vector, target: Vector, dt: real, lb: Vector, ub: Vector): Vector
    requires |state| == |target| == |lb| == |ub| && dt != 0.0
  {
    seq(|state|, i requires 0 <= i < |state| => Clamp(Wanted(state[i], target[i], dt), lb[i], ub[i]))
  }

  /** Whatever minimiser the solver returns, each axis of it is the wanted velocity clamped. */
  lemma MinimiserIsClamp(state: Vector, target: Vector, dt: real, lb: Vector, ub: Vector, x: Vector)
    requires |state| == |target| == |lb| == |ub| && dt != 0.0
    requires IsMinimiser(Square(dt), Gradient(state, target, dt), lb, ub, x)
    ensures x == Velocity(state, target, dt, lb, ub)
  {
    var g := Gradient(state, target, dt);
    forall i | 0 <= i < |x| ensures x[i] == Clamp(Wanted(state[i], target[i], dt), lb[i], ub[i]) {
      var u := Wanted(state[i], target[i], dt);
      var c := Clamp(u, lb[i], ub[i]);
      GradientAtWanted(state[i], target[i], dt, Square(dt), g[i]);
      ClampIsCheapest(Square(dt), g[i], u, x[i], lb[i], ub[i], c);
      ObjectiveChange(Square(dt), g, x, i, c);
      assert InBox(x[i := c], lb, ub);
    }
  }

  lemma {:induction false} LowerByAxis(h: real, g: Vector, x: Vector, y: Vector)
    requires |g| == |x| == |y|
    requires forall i :: 0 <= i < |x| ==> Cost(h, g[i], x[i]) <= Cost(h, g[i], y[i])
    ensures Objective(h, g, x) <= Objective(h, g, y)
  {
    if x != [] {
      var n := |x| - 1;
      LowerByAxis(h, g[..n], x[..n], y[..n]);
    }
  }

  /** And those clamped velocities are a minimiser whenever the box is not empty. */
  lemma ClampIsMinimiser(state: Vector, target: Vector, dt: real, lb: Vector, ub: Vector)
    requires |state| == |target| == |lb| == |ub| && dt != 0.0
    requires forall i :: 0 <= i < |lb| ==> lb[i] <= ub[i]
    ensures IsMinimiser(Square(dt), Gradient(state, target, dt), lb, ub, Velocity(state, target, dt, lb, ub))
  {
    var g, x := Gradient(state, target, dt), Velocity(state, target, dt, lb, ub);
    forall y: Vector | InBox(y, lb, ub) ensures Objective(Square(dt), g, x) <= Objective(Square(dt), g, y) {
      forall i | 0 <= i < |x| ensures Cost(Square(dt), g[i], x[i]) <= Cost(Square(dt), g[i], y[i]) {
        GradientAtWanted(state[i], target[i], dt, Square(dt), g[i]);
        ClampIsCheapest(Square(dt), g[i], Wanted(state[i], target[i], dt), y[i], lb[i], ub[i], x[i]);
      }
      LowerByAxis(Square(dt), g, x, y);
    }
  }

  // ---- the motion of one axis ----

  // The distance covered at velocity v in one period.
  function Distance(v: real, dt: real): real {
    v * dt
  }

  // One update of an axis whose step is limited to lo..hi.
  function Move(s: real, t: real, lo: real, hi: real): real {
    s + Clamp(t - s, lo, hi)
  }

  lemma DivideBounds(d: real, dt: real, b: real)
    requires dt > 0.0
    ensures d / dt < b <==> d < b * dt
    ensures d / dt > b <==> d > b * dt
  {
    var u := d / dt;
    assert u * dt == d;
    if u < b {
      MulPositive(b - u, dt);
    } else if u > b {
      MulPositive(u - b, dt);
    }
    assert (b - u) * dt == b * dt - d;
  }

  lemma DivideBoundsBelow(d: real, dt: real, b: real)
    requires dt < 0.0
    ensures d / dt < b <==> d > b * dt
    ensures d / dt > b <==> d < b * dt
  {
    var u := d / dt;
    assert u * dt == d;
    if u < b {
      MulPositive(b - u, -dt);
    } else if u > b {
      MulPositive(u - b, -dt);
    }
    assert (b - u) * (-dt) == d - b * dt;
  }

  // The limits of one step: for a negative period the two change places.
  function Lower(lo: real, hi: real, dt: real): real {
    if dt > 0.0 then lo else hi
  }

  // Clamping commutes with taking the distance; x is the wanted velocity and d its distance.
  lemma ClampedDistance(x: real, d: real, dt: real, lo: real, hi: real)
    requires lo <= hi && d == Distance(x, dt)
    requires dt > 0.0 ==> (x < lo <==> d < Distance(lo, dt)) && (x > hi <==> d > Distance(hi, dt))
    requires dt <= 0.0 ==> (x < lo <==> d > Distance(lo, dt)) && (x > hi <==> d < Distance(hi, dt))
    requires Distance(Lower(lo, hi, dt), dt) <= Distance(Lower(hi, lo, dt), dt)
    ensures Distance(Clamp(x, lo, hi), dt) == Clamp(d, Distance(Lower(lo, hi, dt), dt), Distance(Lower(hi, lo, dt), dt))
  {
    hide Distance;
  }

  lemma WantedDistance(s: real, t: real, dt: real)
    requires dt != 0.0
    ensures Distance(Wanted(s, t, dt), dt) == t - s
  {
  }

  // How the wanted velocity and its distance lie to a bound and the distance of that.
  lemma WantedBound(s: real, t: real, dt: real, b: real)
    requires dt != 0.0
    ensures dt > 0.0 ==> (Wanted(s, t, dt) < b <==> t - s < Distance(b, dt)) && (Wanted(s, t, dt) > b <==> t - s > Distance(b, dt))
    ensures dt < 0.0 ==> (Wanted(s, t, dt) < b <==> t - s > Distance(b, dt)) && (Wanted(s, t, dt) > b <==> t - s < Distance(b, dt))
  {
    if dt > 0.0 {
      DivideBounds(t - s, dt, b);
    } else {
      DivideBoundsBelow(t - s, dt, b);
    }
  }

  /** The clamped velocity moves the axis by the clamped distance, whatever the sign of the
      period. */
  lemma VelocityMoves(s: real, t: real, dt: real, lo: real, hi: real)
    requires dt != 0.0 && lo <= hi
    ensures s + Distance(Clamp(Wanted(s, t, dt), lo, hi), dt)
         == Move(s, t, Distance(Lower(lo, hi, dt), dt), Distance(Lower(hi, lo, dt), dt))
  {
    hide Distance, Wanted, Clamp, Lower;
    WantedDistance(s, t, dt);
    WantedBound(s, t, dt, lo);
    WantedBound(s, t, dt, hi);
    DistanceOrder(lo, hi, dt);
    ClampedDistance(Wanted(s, t, dt), t - s, dt, lo, hi);
  }

  lemma DistanceOrder(lo: real, hi: real, dt: real)
    requires lo <= hi
    ensures Distance(Lower(lo, hi, dt), dt) <= Distance(Lower(hi, lo, dt), dt)
  {
    if dt > 0.0 {
      MulNonNegative(hi - lo, dt);
      assert (hi - lo) * dt == hi * dt - lo * dt;
    } else {
      MulNonNegative(hi - lo, -dt);
      assert (hi - lo) * (-dt) == lo * dt - hi * dt;
    }
  }

  function MoveMany(s: real, t: real, lo: real, hi: real, n: nat): real {
    if n == 0 then s else Move(MoveMany(s, t, lo, hi, n - 1), t, lo, hi)
  }

  // Two clamps in a row, the second of what the first left over.
  lemma ClampTwice(d: real, a: real, b: real, lo: real, hi: real)
    requires lo <= 0.0 <= hi && a <= 0.0 <= b
    ensures Clamp(d, a, b) + Clamp(d - Clamp(d, a, b), lo, hi) == Clamp(d, a + lo, b + hi)
  {
  }

  function Times(n: nat, step: real): real {
    n as real * step
  }

  lemma TimesNext(n: nat, step: real)
    ensures Times(0, step) == 0.0 && Times(n + 1, step) == Times(n, step) + step
    ensures step >= 0.0 ==> Times(n, step) >= 0.0
    ensures step <= 0.0 ==> Times(n, step) <= 0.0
  {
    if step >= 0.0 {
      MulNonNegative(n as real, step);
    } else {
      MulNonNegative(n as real, -step);
    }
  }

  /** After n updates with a constant target the axis has gone the whole distance, or n whole
      steps of it. */
  lemma {:induction false} MoveManyIs(s: real, t: real, lo: real, hi: real, n: nat)
    requires lo <= 0.0 <= hi
    ensures MoveMany(s, t, lo, hi, n) == s + Clamp(t - s, Times(n, lo), Times(n, hi))
  {
    if n == 0 {
      TimesNext(0, lo);
      TimesNext(0, hi);
    } else {
      MoveManyIs(s, t, lo, hi, n - 1);
      TimesNext(n - 1, lo);
      TimesNext(n - 1, hi);
      ClampTwice(t - s, Times(n - 1, lo), Times(n - 1, hi), lo, hi);
    }
  }

  /** The target is reached exactly when n limited steps cover the distance, and held from then
      on. */
  lemma ReachedIff(s: real, t: real, lo: real, hi: real, n: nat)
    requires lo <= 0.0 <= hi
    ensures MoveMany(s, t, lo, hi, n) == t <==> Times(n, lo) <= t - s <= Times(n, hi)
    ensures MoveMany(s, t, lo, hi, n) == t ==> MoveMany(s, t, lo, hi, n + 1) == t
  {
    MoveManyIs(s, t, lo, hi, n);
    TimesNext(n, lo);
    TimesNext(n, hi);
  }

  // A number of updates that certainly suffices.
  function Enough(s: real, t: real, lo: real, hi: real): nat
    requires lo < 0.0 < hi
  {
    if t >= s then StepsFor(t - s, hi) else StepsFor(s - t, -lo)
  }

  function StepsFor(d: real, step: real): (n: nat)
    requires step > 0.0 && d >= 0.0
    ensures Times(n, step) >= d
  {
    StepsCover(d, step, (d / step).Floor + 1);
    (d / step).Floor + 1
  }

  lemma StepsCover(d: real, step: real, n: int)
    requires step > 0.0 && d >= 0.0 && n == (d / step).Floor + 1
    ensures n >= 0 && Times(n, step) >= d
  {
    DivideBounds(d, step, 0.0);
    assert d / step * step == d;
    MulNonNegative(n as real - d / step, step);
  }

  lemma TimesMinus(n: nat, step: real)
    ensures Times(n, -step) == -Times(n, step)
  {
  }

  lemma EnoughReaches(s: real, t: real, lo: real, hi: real)
    requires lo < 0.0 < hi
    ensures MoveMany(s, t, lo, hi, Enough(s, t, lo, hi)) == t
  {
    var n := Enough(s, t, lo, hi);
    ReachedIff(s, t, lo, hi, n);
    TimesNext(n, lo);
    TimesNext(n, hi);
    TimesMinus(n, lo);
  }

  /** No update passes the target, and no update moves further than the limits. */
  lemma NeverOvershoots(s: real, t: real, lo: real, hi: real)
    requires lo <= 0.0 <= hi
    ensures s <= t ==> s <= Move(s, t, lo, hi) <= t
    ensures s >= t ==> t <= Move(s, t, lo, hi) <= s
    ensures lo <= Move(s, t, lo, hi) - s <= hi
  {
  }

  // ---- the limiter ----

  // Where one update takes the whole state.
  function Moved(state: Vector, target: Vector, dt: real, lb: Vector, ub: Vector): Vector
    requires |state| == |target| == |lb| == |ub|
  {
    seq(|state|, i requires 0 <= i < |state| => Move(state[i], target[i], Distance(lb[i], dt), Distance(ub[i], dt)))
  }

  function MovedMany(state: Vector, target: Vector, dt: real, lb: Vector, ub: Vector, n: nat): (r: Vector)
    requires |state| == |target| == |lb| == |ub|
    ensures |r| == |state|
  {
    if n == 0 then state else Moved(MovedMany(state, target, dt, lb, ub, n - 1), target, dt, lb, ub)
  }

  lemma {:induction false} MovedByAxis(state: Vector, target: Vector, dt: real, lb: Vector, ub: Vector, n: nat, i: nat)
    requires |state| == |target| == |lb| == |ub| && i < |state|
    ensures MovedMany(state, target, dt, lb, ub, n)[i] == MoveMany(state[i], target[i], Distance(lb[i], dt), Distance(ub[i], dt), n)
  {
    if n > 0 {
      MovedByAxis(state, target, dt, lb, ub, n - 1, i);
    }
  }

  function Most(ns: seq<nat>): (m: nat)
    ensures forall i :: 0 <= i < |ns| ==> ns[i] <= m
  {
    if ns == [] then 0
    else var m := Most(ns[..|ns| - 1]); if ns[|ns| - 1] > m then ns[|ns| - 1] else m
  }

  lemma StepSigns(lo: real, hi: real, dt: real)
    requires dt > 0.0 && lo < 0.0 < hi
    ensures Distance(lo, dt) < 0.0 < Distance(hi, dt)
  {
    MulPositive(hi, dt);
    MulPositive(-lo, dt);
    assert (-lo) * dt == -(lo * dt);
  }

  // The updates that certainly bring every axis to a constant target.
  function EnoughForAll(state: Vector, target: Vector, dt: real, lb: Vector, ub: Vector): nat
    requires |state| == |target| == |lb| == |ub| && dt > 0.0
    requires forall i :: 0 <= i < |lb| ==> lb[i] < 0.0 < ub[i]
  {
    Most(EnoughByAxis(state, target, dt, lb, ub))
  }

  function EnoughByAxis(state: Vector, target: Vector, dt: real, lb: Vector, ub: Vector): (ns: seq<nat>)
    requires |state| == |target| == |lb| == |ub| && dt > 0.0
    requires forall i :: 0 <= i < |lb| ==> lb[i] < 0.0 < ub[i]
    ensures |ns| == |state|
    ensures forall i :: 0 <= i < |ns| ==> ReachedAfter(state[i], target[i], Distance(lb[i], dt), Distance(ub[i], dt), ns[i])
  {
    if state == [] then []
    else
      var k := |state| - 1;
      StepSigns(lb[k], ub[k], dt);
      EnoughReaches(state[k], target[k], Distance(lb[k], dt), Distance(ub[k], dt));
      EnoughByAxis(state[..k], target[..k], dt, lb[..k], ub[..k])
      + [Enough(state[k], target[k], Distance(lb[k], dt), Distance(ub[k], dt))]
  }

  predicate ReachedAfter(s: real, t: real, lo: real, hi: real, n: nat) {
    MoveMany(s, t, lo, hi, n) == t
  }

  lemma {:induction false} StaysReached(s: real, t: real, lo: real, hi: real, n: nat, m: nat)
    requires lo <= 0.0 <= hi && ReachedAfter(s, t, lo, hi, n) && m >= n
    ensures ReachedAfter(s, t, lo, hi, m)
    decreases m
  {
    if m > n {
      StaysReached(s, t, lo, hi, n, m - 1);
      ReachedIff(s, t, lo, hi, m - 1);
    }
  }

  /** With limits on both sides of zero a constant target is reached on every axis after a number
      of updates known beforehand, and never left. */
  lemma TargetReached(state: Vector, target: Vector, dt: real, lb: Vector, ub: Vector, n: nat)
    requires |state| == |target| == |lb| == |ub| && dt > 0.0
    requires forall i :: 0 <= i < |lb| ==> lb[i] < 0.0 < ub[i]
    requires n >= EnoughForAll(state, target, dt, lb, ub)
    ensures MovedMany(state, target, dt, lb, ub, n) == target
  {
    var ns := EnoughByAxis(state, target, dt, lb, ub);
    forall i | 0 <= i < |state| ensures MovedMany(state, target, dt, lb, ub, n)[i] == target[i] {
      MovedByAxis(state, target, dt, lb, ub, n, i);
      StepSigns(lb[i], ub[i], dt);
      StaysReached(state[i], target[i], Distance(lb[i], dt), Distance(ub[i], dt), ns[i], n);
    }
  }

  class JoyVelLimiter {
    const dim: nat
    const dt: real
    const lb: Vector
    const ub: Vector
    var state: Vector

    ghost predicate Valid()
      reads this
    {
      |state| == dim == |lb| == |ub|
    }

    constructor (dim: nat, dt: real, velLimit: real)
      ensures Valid() && this.dim == dim && this.dt == dt
      ensures forall i :: 0 <= i < dim ==> lb[i] == -velLimit && ub[i] == velLimit && state[i] == 0.0
    {
      this.dim, this.dt := dim, dt;
      lb, ub, state := seq(dim, i => -velLimit), seq(dim, i => velLimit), seq(dim, i => 0.0);
    }

    constructor Bounded(dim: nat, dt: real, lb: Vector, ub: Vector)
      requires |lb| == dim == |ub|
      ensures Valid() && this.dim == dim && this.dt == dt && this.lb == lb && this.ub == ub
      ensures forall i :: 0 <= i < dim ==> state[i] == 0.0
    {
      this.dim, this.dt, this.lb, this.ub := dim, dt, lb, ub;
      state := seq(dim, i => 0.0);
    }

    // The constructor with given limits, its exception as a missing result.
    static method Make(dim: nat, dt: real, lb: Vector, ub: Vector) returns (r: Option<JoyVelLimiter>)
      ensures r.None? <==> |lb| != dim || |ub| != dim
      ensures r.Some? ==> fresh(r.value) && r.value.Valid() && r.value.dim == dim && r.value.dt == dt
                          && r.value.lb == lb && r.value.ub == ub
    {
      if |lb| != dim || |ub| != dim {
        return None;
      }
      var limiter := new JoyVelLimiter.Bounded(dim, dt, lb, ub);
      r := Some(limiter);
    }

    method Reset()
      requires Valid()
      modifies this
      ensures Valid() && forall i :: 0 <= i < dim ==> state[i] == 0.0
    {
      state := seq(dim, i => 0.0);
    }

    /** xOpt is whatever the solver returns. */
    method Update(target: Vector, xOpt: Vector) returns (r: Vector)
      requires Valid() && |target| == dim
      requires IsMinimiser(Square(dt), Gradient(state, target, dt), lb, ub, xOpt)
      modifies this
      ensures Valid() && r == state
      ensures dt > 0.0 ==> state == Moved(old(state), target, dt, lb, ub)
      ensures dt < 0.0 ==> state == Moved(old(state), target, dt, ub, lb)
      ensures dt == 0.0 ==> state == old(state)
    {
      if dt != 0.0 {
        MinimiserIsClamp(state, target, dt, lb, ub, xOpt);
      }
      var before := state;
      state := seq(dim, i requires 0 <= i < dim => before[i] + Distance(xOpt[i], dt));
      if dt != 0.0 {
        forall i | 0 <= i < dim
          ensures state[i] == Move(before[i], target[i], Distance(Lower(lb[i], ub[i], dt), dt), Distance(Lower(ub[i], lb[i], dt), dt))
        {
          VelocityMoves(before[i], target[i], dt, lb[i], ub[i]);
        }
      }
      r := state;
    }
  }
}
