/** The OLED framebuffer: 1024 packed bytes that stand for a 128 x 64 grid of pixels, and the
    shapes drawn into it. A drawing call is specified by the set of pixels it paints. */
module Framebuffer {
  import opened LineGeometry
  import opened CircleGeometry
  import opened Panel

  const WIDTH: int := 128
  const HEIGHT: int := 64
  const BYTES: nat := 1024

  type Point = (int, int)
  type Shape = iset<Point>

  predicate OnScreen(p: Point) {
    0 <= p.0 < WIDTH && 0 <= p.1 < HEIGHT
  }

  // The lit pixels after painting the part of a shape that is on the screen.
  ghost function Paint(lit: Shape, shape: Shape, on: bool): Shape {
    if on then lit + (iset p | p in shape && OnScreen(p)) else lit - shape
  }

  lemma PaintMore(lit: Shape, a: Shape, b: Shape, on: bool)
    ensures Paint(Paint(lit, a, on), b, on) == Paint(lit, a + b, on)
  {
  }

  lemma PaintNothing(lit: Shape, on: bool)
    ensures Paint(lit, iset{}, on) == lit
  {
  }

  // ---- bytes and bits ----

  function Bit(b: bv8, k: nat): bool
    requires k < 8
  {
    (b >> k) & 1 == 1
  }

  lemma ShiftIsMask(b: bv8, k: nat)
    requires k < 8
    ensures (1 as bv8) << k == Mask(k)
    ensures Bit(b, k) == (b & Mask(k) != 0)
  {
    match k
    case 0 => case 1 => case 2 => case 3 =>
    case 4 => case 5 => case 6 => case _ =>
  }

  lemma MasksDisjoint(j: nat, k: nat)
    requires j < 8 && k < 8
    ensures Mask(k) != 0 && (j != k ==> Mask(k) & Mask(j) == 0)
  {
  }

  lemma OrAnd(b: bv8, m: bv8, n: bv8)
    ensures m != 0 ==> (b | m) & m != 0 && (b & !m) & m == 0
    ensures m & n == 0 ==> (b | m) & n == b & n && (b & !m) & n == b & n
  {
  }

  lemma BitOfSet(b: bv8, k: nat, j: nat)
    requires k < 8 && j < 8
    ensures Bit(b | ((1 as bv8) << k), j) == (j == k || Bit(b, j))
  {
    ShiftIsMask(b, k);
    ShiftIsMask(b, j);
    ShiftIsMask(b | Mask(k), j);
    MasksDisjoint(j, k);
    OrAnd(b, Mask(k), Mask(j));
  }

  lemma BitOfClear(b: bv8, k: nat, j: nat)
    requires k < 8 && j < 8
    ensures Bit(b & !((1 as bv8) << k), j) == (j != k && Bit(b, j))
  {
    ShiftIsMask(b, k);
    ShiftIsMask(b, j);
    ShiftIsMask(b & !Mask(k), j);
    MasksDisjoint(j, k);
    OrAnd(b, Mask(k), Mask(j));
  }

  // Where a pixel's bit lives.
  function Index(p: Point): (i: nat)
    requires OnScreen(p)
    ensures i < BYTES
  {
    (p.1 / 8) * WIDTH + p.0
  }

  // Page p.1 / 8 and column p.0 can be read back from the byte index.
  lemma IndexInjective(p: Point, q: Point)
    requires OnScreen(p) && OnScreen(q)
    ensures Index(p) < BYTES
    ensures Index(p) == Index(q) && p.1 % 8 == q.1 % 8 ==> p == q
  {
  }

  // ---- shapes ----

  predicate InRect(p: Point, x: int, y: int, w: int, h: int) {
    x <= p.0 < x + w && y <= p.1 < y + h
  }

  ghost function Rect(x: int, y: int, w: int, h: int): Shape {
    iset p | InRect(p, x, y, w, h)
  }

  // Distance at most r from the centre; nothing for a negative r.
  predicate InDisc(p: Point, cx: int, cy: int, r: int) {
    r >= 0 && (p.0 - cx) * (p.0 - cx) + (p.1 - cy) * (p.1 - cy) <= r * r
  }

  ghost function Disc(cx: int, cy: int, r: int): Shape {
    iset p | InDisc(p, cx, cy, r)
  }

  // p comes before column cx + x of row cy + y in reading order.
  predicate Before(p: Point, cx: int, cy: int, x: int, y: int) {
    p.1 < cy + y || (p.1 == cy + y && p.0 < cx + x)
  }

  ghost function DiscPart(cx: int, cy: int, r: int, x: int, y: int): Shape {
    iset p | InDisc(p, cx, cy, r) && Before(p, cx, cy, x, y)
  }

  // The first n points of a line.
  ghost predicate OnLine(p: Point, x0: int, y0: int, x1: int, y1: int, n: nat) {
    exists k: nat :: k < n && LinePoint(x0, y0, x1, y1, k) == p
  }

  ghost function Line(x0: int, y0: int, x1: int, y1: int, n: nat): Shape {
    iset p | OnLine(p, x0, y0, x1, y1, n)
  }

  // An octant point and its reflections about the centre.
  function Eight(cx: int, cy: int, q: Point): iset<Point> {
    iset{(cx + q.0, cy + q.1), (cx - q.0, cy + q.1), (cx + q.0, cy - q.1), (cx - q.0, cy - q.1),
         (cx + q.1, cy + q.0), (cx - q.1, cy + q.0), (cx + q.1, cy - q.0), (cx - q.1, cy - q.0)}
  }

  ghost predicate OnCircle(p: Point, cx: int, cy: int, octant: seq<Point>) {
    exists i :: 0 <= i < |octant| && p in Eight(cx, cy, octant[i])
  }

  ghost function Circle(cx: int, cy: int, octant: seq<Point>): Shape {
    iset p | OnCircle(p, cx, cy, octant)
  }

  // ---- the refinement ----

  predicate Lit(bytes: seq<bv8>, p: Point)
    requires |bytes| == BYTES
  {
    OnScreen(p) && Bit(bytes[Index(p)], p.1 % 8)
  }

  ghost function PixelsOf(bytes: seq<bv8>): Shape
    requires |bytes| == BYTES
  {
    iset p | Lit(bytes, p)
  }

  // The byte written by setPixel.
  function WithBit(b: bv8, bit: nat, on: bool): bv8
    requires bit < 8
  {
    if on then b | ((1 as bv8) << bit) else b & !((1 as bv8) << bit)
  }

  lemma LitAfter(bytes: seq<bv8>, p: Point, on: bool, q: Point)
    requires |bytes| == BYTES && OnScreen(p) && OnScreen(q)
    ensures var b := WithBit(bytes[Index(p)], p.1 % 8, on);
            Lit(bytes[Index(p) := b], q) == (if q == p then on else Lit(bytes, q))
  {
    IndexInjective(p, q);
    if Index(p) == Index(q) {
      BitAfter(bytes[Index(p)], p.1 % 8, on, q.1 % 8);
    }
  }

  lemma BitAfter(b: bv8, k: nat, on: bool, j: nat)
    requires k < 8 && j < 8
    ensures Bit(WithBit(b, k, on), j) == (if j == k then on else Bit(b, j))
  {
    BitOfSet(b, k, j);
    BitOfClear(b, k, j);
  }

  /** Writing one bit of one byte changes one pixel and no other. */
  lemma OneBitOnePixel(bytes: seq<bv8>, p: Point, on: bool)
    requires |bytes| == BYTES && OnScreen(p)
    ensures var b := WithBit(bytes[Index(p)], p.1 % 8, on);
            PixelsOf(bytes[Index(p) := b]) == Paint(PixelsOf(bytes), iset{p}, on)
  {
    forall q | OnScreen(q)
      ensures var b := WithBit(bytes[Index(p)], p.1 % 8, on);
              Lit(bytes[Index(p) := b], q) == (if q == p then on else Lit(bytes, q))
    {
      LitAfter(bytes, p, on, q);
    }
  }

  lemma PanelShowsGrid(p: Panel, bytes: seq<bv8>)
    requires |bytes| == BYTES && Holds(p, bytes)
    ensures forall x, y :: OnScreen((x, y)) ==> (Shows(p, x, y) <==> (x, y) in PixelsOf(bytes))
  {
    forall x, y | OnScreen((x, y)) ensures Shows(p, x, y) <==> Lit(bytes, (x, y)) {
      assert p.ram[(x, y / 8)] == bytes[Index((x, y))];
      ShiftIsMask(bytes[Index((x, y))], y % 8);
    }
  }

  class OledDriver {
    const buf: array<bv8>

    ghost predicate Valid() {
      buf.Length == BYTES
    }

    // The grid the bytes stand for.
    ghost function Pixels(): Shape
      requires Valid()
      reads buf
    {
      PixelsOf(buf[..])
    }

    constructor ()
      ensures Valid() && fresh(buf) && Pixels() == iset{}
    {
      buf := new bv8[BYTES](_ => 0);
    }

    method GetPixel(x: int, y: int) returns (b: bool)
      requires Valid()
      ensures b <==> (x, y) in Pixels()
    {
      if x < 0 || x >= WIDTH || y < 0 || y >= HEIGHT {
        return false;
      }
      b := (buf[(y / 8) * WIDTH + x] >> (y % 8)) & 1 == 1;
    }

    /** The whole buffer goes to the panel, which then shows the grid: pixel by pixel, whatever it
        showed before and wherever its window was. */
    method Display(panel: Panel) returns (after: Panel)
      requires Valid()
      ensures forall x, y :: OnScreen((x, y)) ==> (Shows(after, x, y) <==> (x, y) in Pixels())
    {
      after := Told(panel, [0x21, 0x00, 0x7F]);
      after := Told(after, [0x22, 0x00, 0x07]);
      WrittenHolds(after, buf[..]);
      after := Written(after, buf[..]);
      PanelShowsGrid(after, buf[..]);
    }

    method SetPixel(x: int, y: int, on: bool)
      requires Valid()
      modifies buf
      ensures Pixels() == Paint(old(Pixels()), iset{(x, y)}, on)
    {
      if x < 0 || x >= WIDTH || y < 0 || y >= HEIGHT {
        return;
      }
      var idx, bit := (y / 8) * WIDTH + x, y % 8;
      OneBitOnePixel(buf[..], (x, y), on);
      ghost var goal := buf[..][idx := WithBit(buf[idx], bit, on)];
      if on {
        buf[idx] := buf[idx] | ((1 as bv8) << bit);
      } else {
        buf[idx] := buf[idx] & !((1 as bv8) << bit);
      }
      assert buf[..] == goal;
    }

    method DrawHLine(x: int, y: int, w: int, on: bool)
      requires Valid()
      modifies buf
      ensures Pixels() == Paint(old(Pixels()), Rect(x, y, w, 1), on)
    {
      ghost var lit := Pixels();
      var i := 0;
      while i < w
        invariant 0 <= i && (i == 0 || i <= w)
        invariant Pixels() == Paint(lit, Rect(x, y, i, 1), on)
      {
        SetPixel(x + i, y, on);
        PaintMore(lit, Rect(x, y, i, 1), iset{(x + i, y)}, on);
        assert Rect(x, y, i, 1) + iset{(x + i, y)} == Rect(x, y, i + 1, 1);
        i := i + 1;
      }
      assert Rect(x, y, i, 1) == Rect(x, y, w, 1);
    }

    method FillRect(x: int, y: int, w: int, h: int, on: bool)
      requires Valid()
      modifies buf
      ensures Pixels() == Paint(old(Pixels()), Rect(x, y, w, h), on)
    {
      ghost var lit := Pixels();
      var row := 0;
      while row < h
        invariant 0 <= row && (row == 0 || row <= h)
        invariant Pixels() == Paint(lit, Rect(x, y, w, row), on)
      {
        DrawHLine(x, y + row, w, on);
        PaintMore(lit, Rect(x, y, w, row), Rect(x, y + row, w, 1), on);
        assert Rect(x, y, w, row) + Rect(x, y + row, w, 1) == Rect(x, y, w, row + 1);
        row := row + 1;
      }
      assert Rect(x, y, w, row) == Rect(x, y, w, h);
    }

    method FillCircle(cx: int, cy: int, r: int, on: bool)
      requires Valid()
      modifies buf
      ensures Pixels() == Paint(old(Pixels()), Disc(cx, cy, r), on)
    {
      ghost var lit := Pixels();
      DiscStart(cx, cy, r);
      var y := -r;
      while y <= r
        invariant y == -r || -r <= y <= r + 1
        invariant Pixels() == Paint(lit, DiscPart(cx, cy, r, -r, y), on)
      {
        var x := -r;
        while x <= r
          invariant -r <= x <= r + 1
          invariant Pixels() == Paint(lit, DiscPart(cx, cy, r, x, y), on)
        {
          FillPoint(cx, cy, r, x, y, on, lit);
          x := x + 1;
        }
        DiscRowEnd(cx, cy, r, y);
        y := y + 1;
      }
      DiscEnd(cx, cy, r, y);
    }

    method FillPoint(cx: int, cy: int, r: int, x: int, y: int, on: bool, ghost lit: Shape)
      requires Valid() && -r <= x <= r && -r <= y <= r
      requires Pixels() == Paint(lit, DiscPart(cx, cy, r, x, y), on)
      modifies buf
      ensures Pixels() == Paint(lit, DiscPart(cx, cy, r, x + 1, y), on)
    {
      if x * x + y * y <= r * r {
        SetPixel(cx + x, cy + y, on);
        PaintMore(lit, DiscPart(cx, cy, r, x, y), iset{(cx + x, cy + y)}, on);
      }
      DiscNext(cx, cy, r, x, y);
    }

    method DrawLine(x0: int, y0: int, x1: int, y1: int, on: bool)
      requires Valid()
      modifies buf
      ensures Pixels() == Paint(old(Pixels()), Line(x0, y0, x1, y1, Steps(x0, y0, x1, y1) + 1), on)
    {
      ghost var lit, n := Pixels(), Steps(x0, y0, x1, y1);
      var dx: int, dy: int := Abs(x1 - x0), Abs(y1 - y0);
      var err := if dx > dy then dx / 2 else -(dy / 2);
      var x, y := x0, y0;
      ghost var a: nat, b: nat, k: nat := 0, 0, 0;
      LineStart(x0, y0, x1, y1);
      PaintNothing(lit, on);
      assert Line(x0, y0, x1, y1, 0) == iset{};
      while true
        invariant LineState(x0, y0, x1, y1, x, y, err, a, b, k)
        invariant Pixels() == Paint(lit, Line(x0, y0, x1, y1, k), on)
        decreases n - k
      {
        PlotNext(x0, y0, x1, y1, k, x, y, on, lit);
        LineDone(x0, y0, x1, y1, x, y, err, a, b, k);
        if x == x1 && y == y1 {
          break;
        }
        x, y, err, a, b := StepLine(x0, y0, x1, y1, x, y, err, a, b, k);
        k := k + 1;
      }
    }

    // One turn of the loop: from the k-th point of the line to the next.
    method StepLine(x0: int, y0: int, x1: int, y1: int, x: int, y: int, err: int, ghost a: nat, ghost b: nat, ghost k: nat)
      returns (x': int, y': int, err': int, ghost a': nat, ghost b': nat)
      requires LineState(x0, y0, x1, y1, x, y, err, a, b, k) && (x, y) != (x1, y1)
      ensures LineState(x0, y0, x1, y1, x', y', err', a', b', k + 1)
    {
      var dx: int, sx := Abs(x1 - x0), if x0 < x1 then 1 else -1;
      var dy: int, sy := Abs(y1 - y0), if y0 < y1 then 1 else -1;
      x', y', err', a', b' := x, y, err, a, b;
      var e2 := err;
      if e2 > -dx {
        err' := err' - dy;
        x' := x' + sx;
        a' := a' + 1;
      }
      if e2 < dy {
        err' := err' + dx;
        y' := y' + sy;
        b' := b' + 1;
      }
      LineStep(x0, y0, x1, y1, x, y, err, a, b, k, x', y', err', a', b');
    }

    method PlotNext(x0: int, y0: int, x1: int, y1: int, ghost k: nat, x: int, y: int, on: bool, ghost lit: Shape)
      requires Valid() && (x, y) == LinePoint(x0, y0, x1, y1, k)
      requires Pixels() == Paint(lit, Line(x0, y0, x1, y1, k), on)
      modifies buf
      ensures Pixels() == Paint(lit, Line(x0, y0, x1, y1, k + 1), on)
    {
      SetPixel(x, y, on);
      PaintMore(lit, Line(x0, y0, x1, y1, k), iset{(x, y)}, on);
      LineMore(x0, y0, x1, y1, k);
    }

    method SetPair(p: Point, q: Point, on: bool, ghost lit: Shape, ghost so: Shape)
      requires Valid() && Pixels() == Paint(lit, so, on)
      modifies buf
      ensures Pixels() == Paint(lit, so + iset{p, q}, on)
    {
      SetPixel(p.0, p.1, on);
      PaintMore(lit, so, iset{p}, on);
      SetPixel(q.0, q.1, on);
      PaintMore(lit, so + iset{p}, iset{q}, on);
      assert so + iset{p} + iset{q} == so + iset{p, q};
    }

    method Put8(cx: int, cy: int, px: int, py: int, on: bool)
      requires Valid()
      modifies buf
      ensures Pixels() == Paint(old(Pixels()), Eight(cx, cy, (px, py)), on)
    {
      ghost var lit := Pixels();
      PaintNothing(lit, on);
      ghost var s1 := iset{} + iset{(cx + px, cy + py), (cx - px, cy + py)};
      ghost var s2 := s1 + iset{(cx + px, cy - py), (cx - px, cy - py)};
      ghost var s3 := s2 + iset{(cx + py, cy + px), (cx - py, cy + px)};
      SetPair((cx + px, cy + py), (cx - px, cy + py), on, lit, iset{});
      SetPair((cx + px, cy - py), (cx - px, cy - py), on, lit, s1);
      SetPair((cx + py, cy + px), (cx - py, cy + px), on, lit, s2);
      SetPair((cx + py, cy - px), (cx - py, cy - px), on, lit, s3);
      EightIsPairs(cx, cy, px, py);
    }

    method PlotOctant(cx: int, cy: int, x: int, y: int, on: bool, ghost lit: Shape, ghost done: seq<Point>)
      requires Valid() && Pixels() == Paint(lit, Circle(cx, cy, done), on)
      modifies buf
      ensures Pixels() == Paint(lit, Circle(cx, cy, done + [(x, y)]), on)
    {
      Put8(cx, cy, x, y, on);
      PaintMore(lit, Circle(cx, cy, done), Eight(cx, cy, (x, y)), on);
      CircleMore(cx, cy, done, (x, y));
    }

    method DrawCircle(cx: int, cy: int, r: int, on: bool)
      requires Valid()
      modifies buf
      ensures Pixels() == Paint(old(Pixels()), Circle(cx, cy, Octant(0, r, r)), on)
    {
      ghost var lit, goal := Pixels(), Octant(0, r, r);
      ghost var done: seq<Point> := [];
      var x, y, d := 0, r, 3 - 2 * r;
      DecisionStep(0, r, r);
      PaintNothing(lit, on);
      assert Circle(cx, cy, done) == iset{};
      while y >= x
        invariant d == Decision(x, y, r)
        invariant done + Octant(x, y, r) == goal
        invariant Pixels() == Paint(lit, Circle(cx, cy, done), on)
        decreases y - x + 1
      {
        PlotOctant(cx, cy, x, y, on, lit, done);
        ghost var x', y', d' := x, y, d;
        x := x + 1;
        if d > 0 {
          y := y - 1;
          d := d + 4 * (x - y) + 10;
        } else {
          d := d + 4 * x + 6;
        }
        OctantNext(done, x', y', r, d', x, y, d);
        done := done + [(x', y')];
      }
      assert done == goal;
    }
  }

  lemma EightIsPairs(cx: int, cy: int, px: int, py: int)
    ensures iset{} + iset{(cx + px, cy + py), (cx - px, cy + py)} + iset{(cx + px, cy - py), (cx - px, cy - py)}
          + iset{(cx + py, cy + px), (cx - py, cy + px)} + iset{(cx + py, cy - px), (cx - py, cy - px)}
          == Eight(cx, cy, (px, py))
  {
  }

  // One turn of the circle loop, from (x, y, d) to (x', y', d').
  lemma OctantNext(done: seq<Point>, x: int, y: int, r: int, d: int, x': int, y': int, d': int)
    requires y >= x && d == Decision(x, y, r)
    requires x' == x + 1 && y' == (if d > 0 then y - 1 else y)
    requires d' == d + (if d > 0 then 4 * (x' - y') + 10 else 4 * x' + 6)
    ensures d' == Decision(x', y', r)
    ensures done + Octant(x, y, r) == (done + [(x, y)]) + Octant(x', y', r)
  {
    DecisionStep(x, y, r);
  }

  lemma LineMore(x0: int, y0: int, x1: int, y1: int, n: nat)
    ensures Line(x0, y0, x1, y1, n) + iset{LinePoint(x0, y0, x1, y1, n)} == Line(x0, y0, x1, y1, n + 1)
  {
    forall p ensures OnLine(p, x0, y0, x1, y1, n + 1) <==> OnLine(p, x0, y0, x1, y1, n) || p == LinePoint(x0, y0, x1, y1, n) {
      if OnLine(p, x0, y0, x1, y1, n + 1) {
        var k: nat :| k < n + 1 && LinePoint(x0, y0, x1, y1, k) == p;
      }
    }
  }

  lemma CircleMore(cx: int, cy: int, done: seq<Point>, q: Point)
    ensures Circle(cx, cy, done) + Eight(cx, cy, q) == Circle(cx, cy, done + [q])
  {
    var more := done + [q];
    forall p ensures OnCircle(p, cx, cy, more) <==> OnCircle(p, cx, cy, done) || p in Eight(cx, cy, q) {
      if OnCircle(p, cx, cy, done) {
        var i :| 0 <= i < |done| && p in Eight(cx, cy, done[i]);
        assert more[i] == done[i];
      }
      assert more[|done|] == q;
    }
  }

  lemma ReflectionKeepsNorm(cx: int, cy: int, q: Point, p: Point)
    requires p in Eight(cx, cy, q)
    ensures (p.0 - cx) * (p.0 - cx) + (p.1 - cy) * (p.1 - cy) == q.0 * q.0 + q.1 * q.1
  {
    var u, v := p.0 - cx, p.1 - cy;
    assert (-q.0) * (-q.0) == q.0 * q.0 && (-q.1) * (-q.1) == q.1 * q.1;
    assert ((u == q.0 || u == -q.0) && (v == q.1 || v == -q.1)) || ((u == q.1 || u == -q.1) && (v == q.0 || v == -q.0));
    if (u == q.0 || u == -q.0) && (v == q.1 || v == -q.1) {
      assert u * u == q.0 * q.0 && v * v == q.1 * q.1;
    } else {
      assert u * u == q.1 * q.1 && v * v == q.0 * q.0;
    }
  }

  /** Every pixel a circle call paints lies between the squared radii r^2 - 3r and r^2 + r. */
  lemma PaintedCircleInAnnulus(cx: int, cy: int, r: nat, p: Point)
    requires p in Circle(cx, cy, Octant(0, r, r))
    ensures InAnnulus(p.0 - cx, p.1 - cy, r)
  {
    var octant := Octant(0, r, r);
    var i :| 0 <= i < |octant| && p in Eight(cx, cy, octant[i]);
    CircleInAnnulus(r, i);
    ReflectionKeepsNorm(cx, cy, octant[i], p);
  }

  lemma EightReflected(cx: int, cy: int, q: Point, p: Point)
    ensures p in Eight(cx, cy, q) <==> (2 * cx - p.0, p.1) in Eight(cx, cy, q)
    ensures p in Eight(cx, cy, q) <==> (p.0, 2 * cy - p.1) in Eight(cx, cy, q)
    ensures p in Eight(cx, cy, q) <==> (cx + p.1 - cy, cy + p.0 - cx) in Eight(cx, cy, q)
  {
  }

  // Points that belong to the same groups of eight are on the same circles.
  lemma SameCircles(cx: int, cy: int, octant: seq<Point>, p: Point, p': Point)
    requires forall i :: 0 <= i < |octant| ==> (p in Eight(cx, cy, octant[i]) <==> p' in Eight(cx, cy, octant[i]))
    ensures p in Circle(cx, cy, octant) <==> p' in Circle(cx, cy, octant)
  {
  }

  /** A circle is unchanged by reflection in either axis and in the diagonal. */
  lemma CircleSymmetric(cx: int, cy: int, octant: seq<Point>, p: Point)
    ensures var c := Circle(cx, cy, octant);
            (p in c <==> (2 * cx - p.0, p.1) in c) && (p in c <==> (p.0, 2 * cy - p.1) in c)
            && (p in c <==> (cx + p.1 - cy, cy + p.0 - cx) in c)
  {
    hide Eight, Circle;
    forall i | 0 <= i < |octant|
      ensures p in Eight(cx, cy, octant[i]) <==> (2 * cx - p.0, p.1) in Eight(cx, cy, octant[i])
      ensures p in Eight(cx, cy, octant[i]) <==> (p.0, 2 * cy - p.1) in Eight(cx, cy, octant[i])
      ensures p in Eight(cx, cy, octant[i]) <==> (cx + p.1 - cy, cy + p.0 - cx) in Eight(cx, cy, octant[i])
    {
      EightReflected(cx, cy, octant[i], p);
    }
    SameCircles(cx, cy, octant, p, (2 * cx - p.0, p.1));
    SameCircles(cx, cy, octant, p, (p.0, 2 * cy - p.1));
    SameCircles(cx, cy, octant, p, (cx + p.1 - cy, cy + p.0 - cx));
  }

  /** It holds every octant point, the first of which lies at distance r above the centre. */
  lemma CircleHoldsOctant(cx: int, cy: int, r: nat, i: nat)
    requires i < |Octant(0, r, r)|
    ensures var q := Octant(0, r, r)[i]; q.0 == i && (cx + q.0, cy + q.1) in Circle(cx, cy, Octant(0, r, r))
    ensures Octant(0, r, r)[0] == (0, r)
  {
    OctantConnected(0, r, r, i);
    var q := Octant(0, r, r)[i];
    assert (cx + q.0, cy + q.1) in Eight(cx, cy, q);
  }

  // A disc of radius r reaches no further than r in either direction.
  lemma DiscBound(p: Point, cx: int, cy: int, r: int)
    requires InDisc(p, cx, cy, r)
    ensures -r <= p.0 - cx <= r && -r <= p.1 - cy <= r
  {
    SquareBound(p.0 - cx, p.1 - cy, r);
    SquareBound(p.1 - cy, p.0 - cx, r);
  }

  lemma SquareBound(a: int, b: int, r: int)
    requires r >= 0 && a * a + b * b <= r * r
    ensures -r <= a <= r
  {
    if a > r {
      SquareGrows(a, r);
    } else if a < -r {
      SquareGrows(-a, r);
    }
  }

  lemma SquareGrows(a: int, r: int)
    requires a > r >= 0
    ensures a * a > r * r
  {
    assert a * a - r * r == (a - r) * (a + r);
  }

  lemma DiscStart(cx: int, cy: int, r: int)
    ensures DiscPart(cx, cy, r, -r, -r) == iset{}
  {
    forall p | InDisc(p, cx, cy, r) ensures !Before(p, cx, cy, -r, -r) {
      DiscBound(p, cx, cy, r);
    }
  }

  lemma DiscNext(cx: int, cy: int, r: int, x: int, y: int)
    requires -r <= x <= r && -r <= y <= r
    ensures DiscPart(cx, cy, r, x + 1, y)
         == DiscPart(cx, cy, r, x, y) + (if x * x + y * y <= r * r then iset{(cx + x, cy + y)} else iset{})
  {
  }

  lemma DiscRowEnd(cx: int, cy: int, r: int, y: int)
    ensures DiscPart(cx, cy, r, r + 1, y) == DiscPart(cx, cy, r, -r, y + 1)
  {
    forall p | InDisc(p, cx, cy, r)
      ensures Before(p, cx, cy, r + 1, y) <==> Before(p, cx, cy, -r, y + 1)
    {
      DiscBound(p, cx, cy, r);
    }
  }

  lemma DiscEnd(cx: int, cy: int, r: int, y: int)
    requires y > r
    ensures DiscPart(cx, cy, r, -r, y) == Disc(cx, cy, r)
  {
    forall p | InDisc(p, cx, cy, r) ensures Before(p, cx, cy, -r, y) {
      DiscBound(p, cx, cy, r);
    }
  }
}
