/** The octant points of the OLED driver's circle and how far they stray from the radius. */
module CircleGeometry {

  // The decision value, as a function of the point reached.
  function Decision(x: int, y: int, r: int): int {
    2 * x * x + 2 * y * y - 2 * r * r + 8 * x - 6 * y + 4 * r + 3
  }

  // The octant points from (x, y) on.
  function Octant(x: int, y: int, r: int): seq<(int, int)>
    decreases y - x + 1
  {
    if y < x then []
    else [(x, y)] + Octant(x + 1, if Decision(x, y, r) > 0 then y - 1 else y, r)
  }

  /** How the decision value moves; note that it uses the already stepped x and y. */
  lemma DecisionStep(x: int, y: int, r: int)
    ensures Decision(0, r, r) == 3 - 2 * r
    ensures Decision(x + 1, y - 1, r) == Decision(x, y, r) + 4 * ((x + 1) - (y - 1)) + 10
    ensures Decision(x + 1, y, r) == Decision(x, y, r) + 4 * (x + 1) + 6
  {
  }

  // What every visited octant point satisfies.
  predicate Tame(x: int, y: int, r: int) {
    var d := Decision(x, y, r);
    && 0 <= x && y <= r
    && (x == 0 ==> y == r)
    && d >= 3 - 4 * (y - x)
    && (y >= x ==> d <= 4 * x + (if y == r || y >= x + 2 then 6 else if y == x + 1 then 8 else 12))
  }

  lemma TameStep(x: int, y: int, r: int)
    requires y >= x && Tame(x, y, r)
    ensures Tame(x + 1, if Decision(x, y, r) > 0 then y - 1 else y, r)
  {
    DecisionStep(x, y, r);
  }

  predicate InAnnulus(x: int, y: int, r: int) {
    r * r - 3 * r <= x * x + y * y <= r * r + r
  }

  lemma TameInAnnulus(x: int, y: int, r: int)
    requires 0 <= x <= y && Tame(x, y, r)
    ensures InAnnulus(x, y, r)
  {
    var d := Decision(x, y, r);
    assert 2 * (x * x + y * y - r * r) == d - 8 * x + 6 * y - 4 * r - 3;
  }

  lemma {:induction false} OctantInAnnulus(x: int, y: int, r: int, i: nat)
    requires Tame(x, y, r) && i < |Octant(x, y, r)|
    ensures var p := Octant(x, y, r)[i]; 0 <= p.0 <= p.1 <= r && InAnnulus(p.0, p.1, r)
    decreases y - x + 1
  {
    if i == 0 {
      TameInAnnulus(x, y, r);
    } else {
      TameStep(x, y, r);
      OctantInAnnulus(x + 1, if Decision(x, y, r) > 0 then y - 1 else y, r, i - 1);
    }
  }

  /** Every octant point of every circle of radius r >= 0 lies between the squared radii
      r^2 - 3r and r^2 + r. */
  lemma CircleInAnnulus(r: nat, i: nat)
    requires i < |Octant(0, r, r)|
    ensures var p := Octant(0, r, r)[i]; 0 <= p.0 <= p.1 <= r && InAnnulus(p.0, p.1, r)
  {
    OctantInAnnulus(0, r, r, i);
  }

  /** The octant has one point in every column from the top, each at most one row below the one
      before it, down to the diagonal or the point beside it, where its mirror image goes on: so
      the circle has no gaps. */
  lemma {:induction false} OctantConnected(x: int, y: int, r: int, i: nat)
    requires i < |Octant(x, y, r)|
    ensures Octant(x, y, r)[0] == (x, y) && Octant(x, y, r)[i].0 == x + i
    ensures i + 1 < |Octant(x, y, r)| ==> 0 <= Octant(x, y, r)[i].1 - Octant(x, y, r)[i + 1].1 <= 1
    ensures i + 1 == |Octant(x, y, r)| ==> 0 <= Octant(x, y, r)[i].1 - Octant(x, y, r)[i].0 <= 1
    decreases i
  {
    if i > 0 {
      OctantConnected(x + 1, if Decision(x, y, r) > 0 then y - 1 else y, r, i - 1);
    }
  }
}
