/** The points of the OLED driver's line, in closed form, and the error term its loop carries. */
module LineGeometry {
  import Arith

  function Abs(a: int): nat {
    if a < 0 then -a else a
  }

  // n steps from one coordinate towards another.
  function Along(from: int, to: int, n: nat): int {
    if from < to then from + n else from - n
  }

  function Max(a: int, b: int): int {
    if a > b then a else b
  }

  // Steps taken along the shorter axis after k steps along the longer one.
  function Offset(k: nat, minor: nat, major: nat): nat {
    if major == 0 then 0 else (k * minor + (major - 1 - major / 2)) / major
  }

  function Steps(x0: int, y0: int, x1: int, y1: int): nat {
    Max(Abs(x1 - x0), Abs(y1 - y0))
  }

  // The k-th point of the line.
  function LinePoint(x0: int, y0: int, x1: int, y1: int, k: nat): (int, int) {
    var dx, dy := Abs(x1 - x0), Abs(y1 - y0);
    if dx > dy then (Along(x0, x1, k), Along(y0, y1, Offset(k, dy, dx)))
    else (Along(x0, x1, Offset(k, dx, dy)), Along(y0, y1, k))
  }

  /** After k steps along the longer axis the line is within half a pixel of the ideal one. */
  lemma HalfPixel(k: nat, minor: nat, major: nat)
    ensures 2 * Abs(Offset(k, minor, major) * major - k * minor) <= major || major == 0
  {
    if major > 0 {
      var n := k * minor + (major - 1 - major / 2);
      assert n == Offset(k, minor, major) * major + n % major;
    }
  }

  /** Every point of the line, having moved a along x and b along y, is within half a pixel of
      the ideal segment; and the Steps + 1 points are all different. */
  lemma LineNearIdeal(x0: int, y0: int, x1: int, y1: int, k: nat, l: nat)
    requires k <= Steps(x0, y0, x1, y1)
    ensures var p, dx, dy := LinePoint(x0, y0, x1, y1, k), Abs(x1 - x0), Abs(y1 - y0);
            2 * Abs(Abs(p.1 - y0) * dx - Abs(p.0 - x0) * dy) <= Max(dx, dy)
    ensures k != l ==> LinePoint(x0, y0, x1, y1, k) != LinePoint(x0, y0, x1, y1, l)
  {
    var dx, dy := Abs(x1 - x0), Abs(y1 - y0);
    var p := LinePoint(x0, y0, x1, y1, k);
    if dx > dy {
      HalfPixel(k, dy, dx);
      assert Abs(p.0 - x0) == k && Abs(p.1 - y0) == Offset(k, dy, dx);
    } else {
      HalfPixel(k, dx, dy);
      assert Abs(p.1 - y0) == k && Abs(p.0 - x0) == Offset(k, dx, dy);
    }
  }

  lemma OffsetIs(k: nat, minor: nat, major: nat, m: int, rest: nat)
    requires major > 0 && k * minor + (major - 1 - major / 2) == m * major + rest && rest < major
    ensures Offset(k, minor, major) == m
  {
    Arith.DivUnique(k * minor + (major - 1 - major / 2), major, m, rest);
  }

  /** The line starts and ends where it was asked to. */
  lemma LineEnds(x0: int, y0: int, x1: int, y1: int)
    ensures LinePoint(x0, y0, x1, y1, 0) == (x0, y0)
    ensures LinePoint(x0, y0, x1, y1, Steps(x0, y0, x1, y1)) == (x1, y1)
  {
    var dx, dy := Abs(x1 - x0), Abs(y1 - y0);
    if dx > dy {
      OffsetEnds(dy, dx);
    } else {
      OffsetEnds(dx, dy);
    }
  }

  lemma OffsetEnds(minor: nat, major: nat)
    requires major > 0 || minor == 0
    ensures Offset(0, minor, major) == 0
    ensures Offset(major, minor, major) == (if major == 0 then 0 else minor)
  {
    if major > 0 {
      OffsetIs(0, minor, major, 0, major - 1 - major / 2);
      assert major * minor == minor * major;
      OffsetIs(major, minor, major, minor, major - 1 - major / 2);
    }
  }

  function Toward(from: int, to: int): int {
    if from < to then 1 else -1
  }

  /** Consecutive points are neighbours: along the longer axis the line moves one towards its end,
      along the other one towards it or not at all. */
  lemma LineConnected(x0: int, y0: int, x1: int, y1: int, k: nat)
    ensures var p, q := LinePoint(x0, y0, x1, y1, k), LinePoint(x0, y0, x1, y1, k + 1);
            if Abs(x1 - x0) > Abs(y1 - y0)
            then q.0 == p.0 + Toward(x0, x1) && (q.1 == p.1 || q.1 == p.1 + Toward(y0, y1))
            else q.1 == p.1 + Toward(y0, y1) && (q.0 == p.0 || q.0 == p.0 + Toward(x0, x1))
  {
    var dx, dy := Abs(x1 - x0), Abs(y1 - y0);
    if dx > dy {
      OffsetNext(k, dy, dx);
    } else {
      OffsetNext(k, dx, dy);
    }
  }

  lemma OffsetNext(k: nat, minor: nat, major: nat)
    requires minor <= major
    ensures Offset(k, minor, major) <= Offset(k + 1, minor, major) <= Offset(k, minor, major) + 1
  {
    if major > 0 {
      var c := major - 1 - major / 2;
      var n := k * minor + c;
      var m, r := n / major, n % major;
      assert n == m * major + r;
      assert (k + 1) * minor + c == m * major + (r + minor);
      if r + minor < major {
        OffsetIs(k + 1, minor, major, m, r + minor);
      } else {
        assert m * major + (r + minor) == (m + 1) * major + (r + minor - major);
        OffsetIs(k + 1, minor, major, m + 1, r + minor - major);
      }
    }
  }

  // ---- the loop's error term, after a x-steps and b y-steps ----

  predicate ErrorTerm(dx: nat, dy: nat, err: int, a: nat, b: nat) {
    if dx > dy then
      err == dx / 2 - a * dy + b * dx && 0 <= err < dx
    else
      err == -(dy / 2) - a * dy + b * dx && 0 <= err + dy && err <= 0 && (dy > 0 ==> 0 < err + dy)
  }

  // The error term pins the step counts to the closed form.
  lemma ErrorMeans(dx: nat, dy: nat, err: int, a: nat, b: nat)
    requires ErrorTerm(dx, dy, err, a, b) && (dx > 0 || dy > 0)
    ensures if dx > dy then b == Offset(a, dy, dx) else a == Offset(b, dx, dy)
  {
    if dx > dy {
      OffsetIs(a, dy, dx, b, dx - 1 - err);
    } else {
      OffsetIs(b, dx, dy, a, dy - 1 + err);
    }
  }

  lemma ErrorStep(dx: nat, dy: nat, err: int, a: nat, b: nat, err': int, a': nat, b': nat)
    requires ErrorTerm(dx, dy, err, a, b) && (dx > 0 || dy > 0)
    requires err' == err - (if err + dx > 0 then dy else 0) + (if err < dy then dx else 0)
    requires a' == (if err + dx > 0 then a + 1 else a) && b' == (if err < dy then b + 1 else b)
    ensures ErrorTerm(dx, dy, err', a', b') && (if dx > dy then a' == a + 1 else b' == b + 1)
  {
    assert (a + 1) * dy == a * dy + dy;
    assert (b + 1) * dx == b * dx + dx;
  }

  // One turn of the loop, told of the step counts alone.
  lemma CountsStep(dx: nat, dy: nat, err: int, a: nat, b: nat, err': int, a': nat, b': nat)
    requires ErrorTerm(dx, dy, err, a, b) && (dx > 0 || dy > 0)
    requires err' == err - (if err + dx > 0 then dy else 0) + (if err < dy then dx else 0)
    requires a' == (if err + dx > 0 then a + 1 else a) && b' == (if err < dy then b + 1 else b)
    ensures ErrorTerm(dx, dy, err', a', b')
    ensures if dx > dy then a' == a + 1 && b' == Offset(a', dy, dx) else b' == b + 1 && a' == Offset(b', dx, dy)
  {
    ErrorStep(dx, dy, err, a, b, err', a', b');
    ErrorMeans(dx, dy, err', a', b');
  }

  // Where the loop stands after a x-steps and b y-steps, when it has plotted k points.
  predicate LineState(x0: int, y0: int, x1: int, y1: int, x: int, y: int, err: int, a: nat, b: nat, k: nat) {
    var dx, dy := Abs(x1 - x0), Abs(y1 - y0);
    && ErrorTerm(dx, dy, err, a, b)
    && (x, y) == (Along(x0, x1, a), Along(y0, y1, b)) == LinePoint(x0, y0, x1, y1, k)
    && k == (if dx > dy then a else b) <= Steps(x0, y0, x1, y1)
  }

  lemma LineStart(x0: int, y0: int, x1: int, y1: int)
    ensures var dx, dy := Abs(x1 - x0), Abs(y1 - y0);
            LineState(x0, y0, x1, y1, x0, y0, if dx > dy then dx / 2 else -(dy / 2), 0, 0, 0)
  {
    LineEnds(x0, y0, x1, y1);
  }

  // Reaching the far end means every point has been plotted.
  lemma LineDone(x0: int, y0: int, x1: int, y1: int, x: int, y: int, err: int, a: nat, b: nat, k: nat)
    requires LineState(x0, y0, x1, y1, x, y, err, a, b, k)
    ensures (x, y) == (x1, y1) <==> k == Steps(x0, y0, x1, y1)
  {
    LineEnds(x0, y0, x1, y1);
  }

  lemma LineStep(x0: int, y0: int, x1: int, y1: int, x: int, y: int, err: int, a: nat, b: nat, k: nat,
                 x': int, y': int, err': int, a': nat, b': nat)
    requires LineState(x0, y0, x1, y1, x, y, err, a, b, k) && (x, y) != (x1, y1)
    requires var dx, dy := Abs(x1 - x0), Abs(y1 - y0);
             && err' == err - (if err + dx > 0 then dy else 0) + (if err < dy then dx else 0)
             && (if err + dx > 0 then a' == a + 1 && x' == (if x0 < x1 then x + 1 else x - 1) else a' == a && x' == x)
             && (if err < dy then b' == b + 1 && y' == (if y0 < y1 then y + 1 else y - 1) else b' == b && y' == y)
    ensures LineState(x0, y0, x1, y1, x', y', err', a', b', k + 1)
  {
    var dx, dy := Abs(x1 - x0), Abs(y1 - y0);
    LineDone(x0, y0, x1, y1, x, y, err, a, b, k);
    CountsStep(dx, dy, err, a, b, err', a', b');
  }
}
