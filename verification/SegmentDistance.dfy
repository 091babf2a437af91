/** The distance from a point to a segment, squared, as simplify.py, assemble.py
    and transfer.py compute it, and what it means. */
module SegmentDistance {
  import opened Reals
  import opened Plane

  /** The point a + t (b - a). */
  function Lerp(a: Point, b: Point, t: real): Point {
    Point(a.x + t * (b.x - a.x), a.y + t * (b.y - a.y))
  }

  function Clamp(t: real): (c: real)
    ensures 0.0 <= c <= 1.0
    ensures 0.0 <= t <= 1.0 ==> c == t
  {
    if t < 0.0 then 0.0 else if t > 1.0 then 1.0 else t
  }

  function LenOf(dx: real, dy: real): real {
    Sq(dx) + Sq(dy)
  }

  function Len2(a: Point, b: Point): real {
    LenOf(b.x - a.x, b.y - a.y)
  }

  function DotOf(ux: real, dx: real, uy: real, dy: real): real {
    ux * dx + uy * dy
  }

  function LeastAt(l: real, m: real): (t: real)
    ensures 0.0 <= t <= 1.0
  {
    if l == 0.0 then 0.0 else Clamp(m / l)
  }

  /** The foot of the perpendicular, held inside the segment. */
  function Foot(p: Point, a: Point, b: Point): (t: real)
    ensures 0.0 <= t <= 1.0
  {
    LeastAt(Len2(a, b), Dot(a, p, b))
  }

  /** The square of _offset() and of _point_to_segment(). */
  function Offset2(p: Point, a: Point, b: Point): real {
    Dist2(p, Lerp(a, b, Foot(p, a, b)))
  }

  lemma SquareNonNegative(x: real)
    ensures Sq(x) >= 0.0
  {
  }

  lemma Expand(u: real, d: real, s: real, t: real)
    ensures Sq(u - s * d) - Sq(u - t * d) == (s - t) * (Sq(d) * (s + t) - 2.0 * (u * d))
  {
  }

  /** The squared distance to a point of the segment, by its place. */
  function Gap(ux: real, dx: real, uy: real, dy: real, t: real): real {
    Sq(ux - t * dx) + Sq(uy - t * dy)
  }

  lemma LerpFrom(p: Point, a: Point, b: Point, t: real)
    ensures Dist2(p, Lerp(a, b, t)) == Gap(p.x - a.x, b.x - a.x, p.y - a.y, b.y - a.y, t)
  {
    assert p.x - (a.x + t * (b.x - a.x)) == (p.x - a.x) - t * (b.x - a.x);
    assert p.y - (a.y + t * (b.y - a.y)) == (p.y - a.y) - t * (b.y - a.y);
  }

  function Climb(len2: real, dot: real, s: real, t: real): real {
    (s - t) * (len2 * (s + t) - 2.0 * dot)
  }

  /** Along the segment the squared distance is a parabola. */
  lemma Parabola(ux: real, dx: real, uy: real, dy: real, s: real, t: real)
    ensures Gap(ux, dx, uy, dy, s) - Gap(ux, dx, uy, dy, t) == Climb(LenOf(dx, dy), DotOf(ux, dx, uy, dy), s, t)
  {
    Expand(ux, dx, s, t);
    Expand(uy, dy, s, t);
    Collect(s - t, s + t, Sq(dx), Sq(dy), ux * dx, uy * dy);
  }

  lemma Collect(d: real, m: real, a: real, b: real, u: real, v: real)
    ensures d * (a * m - 2.0 * u) + d * (b * m - 2.0 * v) == d * ((a + b) * m - 2.0 * (u + v))
  {
  }

  lemma PositiveSquare(x: real)
    requires x > 0.0
    ensures Sq(x) > 0.0
  {
    StrictSquare(x, 0.0);
  }

  lemma NonZeroSquare(x: real)
    requires x != 0.0
    ensures Sq(x) > 0.0
  {
    if x > 0.0 {
      PositiveSquare(x);
    } else {
      SqNegated(x);
      PositiveSquare(-x);
    }
  }

  lemma SumOfSquares(x: real, y: real)
    ensures Sq(x) >= 0.0 && Sq(y) >= 0.0
    ensures x != 0.0 || y != 0.0 ==> Sq(x) + Sq(y) > 0.0
  {
    SquareNonNegative(x);
    SquareNonNegative(y);
    if x != 0.0 { NonZeroSquare(x); }
    if y != 0.0 { NonZeroSquare(y); }
  }

  lemma GapIsLeast(ux: real, dx: real, uy: real, dy: real, s: real)
    requires 0.0 <= s <= 1.0
    ensures Gap(ux, dx, uy, dy, LeastAt(LenOf(dx, dy), DotOf(ux, dx, uy, dy))) <= Gap(ux, dx, uy, dy, s)
  {
    var l, m := LenOf(dx, dy), DotOf(ux, dx, uy, dy);
    var t := LeastAt(l, m);
    Parabola(ux, dx, uy, dy, s, t);
    SumOfSquares(dx, dy);
    FootIsBest(l, m, s, t);
  }

  lemma OffsetIs(p: Point, a: Point, b: Point)
    ensures var t := Foot(p, a, b);
      var x, y := a.x + t * (b.x - a.x) - p.x, a.y + t * (b.y - a.y) - p.y;
      Offset2(p, a, b) == x * x + y * y
  {
  }

  lemma OffsetNonNegative(p: Point, a: Point, b: Point)
    ensures Offset2(p, a, b) >= 0.0
  {
    NonNegative(p, Lerp(a, b, Foot(p, a, b)));
  }

  lemma NoDistance(p: Point, q: Point)
    ensures Dist2(p, q) == 0.0 <==> p == q
  {
    SumOfSquares(q.x - p.x, q.y - p.y);
  }

  /** The distance is zero exactly on the segment. */
  lemma OnSegment(p: Point, a: Point, b: Point)
    ensures Offset2(p, a, b) == 0.0 <==> exists t :: 0.0 <= t <= 1.0 && p == Lerp(a, b, t)
  {
    OffsetNonNegative(p, a, b);
    NoDistance(p, Lerp(a, b, Foot(p, a, b)));
    if t :| 0.0 <= t <= 1.0 && p == Lerp(a, b, t) {
      Offset2IsTheDistance(p, a, b, t);
      NoDistance(p, Lerp(a, b, t));
    }
  }

  lemma DotIs(p: Point, a: Point, b: Point)
    ensures Dot(a, p, b) == DotOf(p.x - a.x, b.x - a.x, p.y - a.y, b.y - a.y)
  {
  }

  /** No point of the segment is nearer than the one the code measures to. */
  lemma Offset2IsTheDistance(p: Point, a: Point, b: Point, s: real)
    requires 0.0 <= s <= 1.0
    ensures Offset2(p, a, b) <= Dist2(p, Lerp(a, b, s))
  {
    DotIs(p, a, b);
    LerpFrom(p, a, b, s);
    LerpFrom(p, a, b, Foot(p, a, b));
    GapIsLeast(p.x - a.x, b.x - a.x, p.y - a.y, b.y - a.y, s);
  }

  lemma FootIsBest(l: real, m: real, s: real, t: real)
    requires 0.0 <= s <= 1.0 && l >= 0.0 && (l == 0.0 ==> m == 0.0)
    requires t == LeastAt(l, m)
    ensures Climb(l, m, s, t) >= 0.0
  {
    if l != 0.0 {
      Quotient(m, l);
      FootFactor(l, m / l, s, t);
    }
  }

  lemma FootFactor(l: real, f: real, s: real, t: real)
    requires l > 0.0 && 0.0 <= s <= 1.0 && t == Clamp(f)
    ensures (s - t) * (l * (s + t) - 2.0 * (f * l)) >= 0.0
  {
    assert l * (s + t) - 2.0 * (f * l) == l * (s + t - 2.0 * f);
    if s > t {
      SameSigns(l, s + t - 2.0 * f);
      SameSigns(s - t, l * (s + t - 2.0 * f));
    } else if s < t {
      var k := -(s + t - 2.0 * f);
      SameSigns(l, k);
      assert l * (s + t - 2.0 * f) == -(l * k);
      SameSigns(s - t, l * (s + t - 2.0 * f));
    }
  }

  /** q lies in the box around a b, grown by r on every side. */
  predicate InBox(q: Point, a: Point, b: Point, r: real) {
    && Min(a.x, b.x) - r <= q.x <= Max(a.x, b.x) + r
    && Min(a.y, b.y) - r <= q.y <= Max(a.y, b.y) + r
  }

  lemma FootInBox(a: Point, b: Point, t: real)
    requires 0.0 <= t <= 1.0
    ensures InBox(Lerp(a, b, t), a, b, 0.0)
  {
    Between(a.x, b.x, t);
    Between(a.y, b.y, t);
  }

  lemma NearBox(p: Point, c: Point, a: Point, b: Point, reach: real)
    requires reach >= 0.0 && Dist2(p, c) <= Sq(reach) && InBox(c, a, b, 0.0)
    ensures InBox(p, a, b, reach)
  {
    Legs(p, c, reach);
  }

  /** A point within reach of a segment lies in its box, grown by the reach. */
  lemma WithinBox(p: Point, a: Point, b: Point, reach: real)
    requires reach >= 0.0 && Offset2(p, a, b) <= Sq(reach)
    ensures InBox(p, a, b, reach)
  {
    var c := Lerp(a, b, Foot(p, a, b));
    FootInBox(a, b, Foot(p, a, b));
    NearBox(p, c, a, b, reach);
  }

  lemma Legs(p: Point, c: Point, reach: real)
    requires reach >= 0.0 && Dist2(p, c) <= Sq(reach)
    ensures c.x - reach <= p.x <= c.x + reach && c.y - reach <= p.y <= c.y + reach
  {
    LegBound(p.x - c.x, p.y - c.y, reach);
    LegBound(p.y - c.y, p.x - c.x, reach);
  }

  lemma LegBound(x: real, y: real, r: real)
    requires r >= 0.0 && Sq(x) + Sq(y) <= Sq(r)
    ensures -r <= x <= r
  {
    SquareNonNegative(y);
    if x > r {
      StrictSquare(x, r);
    } else if x < -r {
      SqNegated(x);
      StrictSquare(-x, r);
    }
  }

  function Min(x: real, y: real): real {
    if x <= y then x else y
  }

  function Max(x: real, y: real): real {
    if x <= y then y else x
  }

  lemma Between(a: real, b: real, t: real)
    requires 0.0 <= t <= 1.0
    ensures Min(a, b) <= a + t * (b - a) <= Max(a, b)
  {
    if a <= b {
      SameSigns(t, b - a);
      SameSigns(1.0 - t, b - a);
      assert (1.0 - t) * (b - a) == (b - a) - t * (b - a);
    } else {
      SameSigns(t, a - b);
      SameSigns(1.0 - t, a - b);
      assert (1.0 - t) * (a - b) == (a - b) + t * (b - a);
      assert t * (a - b) == -(t * (b - a));
    }
  }

  lemma SqNegated(x: real)
    ensures Sq(-x) == Sq(x)
  {
  }

  lemma StrictProduct(x: real, r: real)
    requires x > r >= 0.0
    ensures x * x > r * r
  {
    Positive(x - r, x + r);
    assert (x - r) * (x + r) == x * x - r * r;
  }

  lemma StrictSquare(x: real, r: real)
    requires x > r >= 0.0
    ensures Sq(x) > Sq(r)
  {
    StrictProduct(x, r);
  }
}
