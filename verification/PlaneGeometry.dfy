/** Signed areas, and when the other diagonal of a quadrilateral may replace one. */
module PlaneGeometry {
  import opened Plane
  import opened Reals

  /** Twice the signed area of the triangle a, b, c: positive when they turn left. */
  function Cross(a: Point, b: Point, c: Point): real {
    (b.x - a.x) * (c.y - a.y) - (c.x - a.x) * (b.y - a.y)
  }

  lemma CrossRotates(a: Point, b: Point, c: Point)
    ensures Cross(a, b, c) == Cross(b, c, a) == -Cross(a, c, b)
  {
  }

  /** Both diagonals cut a quadrilateral into the same total area. */
  lemma QuadArea(p0: Point, p1: Point, p2: Point, p3: Point)
    ensures Cross(p0, p1, p3) + Cross(p2, p3, p1) == Cross(p0, p1, p2) + Cross(p2, p3, p0)
  {
  }

  /** How ck_flip measures a point against the line through p1 and p2: as
      x = const, y = const or y = slope x + cut. */
  function Offset(p1: Point, p2: Point, q: Point): real {
    if p1.x == p2.x then q.x - p1.x
    else if p1.y == p2.y then q.y - p1.y
    else
      var slope := (p1.y - p2.y) / (p1.x - p2.x);
      var cut := (p1.x * p2.y - p2.x * p1.y) / (p1.x - p2.x);
      q.y - (slope * q.x + cut)
  }

  /** The number whose sign ck_flip tests. */
  function CkSign(p1: Point, p2: Point, p3: Point, p4: Point): real {
    Offset(p1, p2, p3) * Offset(p1, p2, p4)
  }

  function Scale(p1: Point, p2: Point): real {
    if p1.x == p2.x then p1.y - p2.y else p2.x - p1.x
  }

  lemma LineCleared(d: real, slope: real, cut: real, n: real, k: real, x: real, y: real)
    requires slope * d == n && cut * d == k
    ensures -d * (y - (slope * x + cut)) == -d * y + n * x + k
  {
    assert (slope * x) * d == (slope * d) * x;
    assert d * (slope * x + cut) == (slope * x) * d + cut * d;
    assert -d * (y - (slope * x + cut)) == -d * y + d * (slope * x + cut);
  }

  lemma SlopeOffset(p1: Point, p2: Point, q: Point)
    requires p1.x != p2.x && p1.y != p2.y
    ensures Cross(p1, p2, q) == (p2.x - p1.x) * Offset(p1, p2, q)
  {
    var d, n, k := p1.x - p2.x, p1.y - p2.y, p1.x * p2.y - p2.x * p1.y;
    Quotient(n, d);
    Quotient(k, d);
    LineCleared(d, n / d, k / d, n, k, q.x, q.y);
    assert -d == p2.x - p1.x;
    assert Cross(p1, p2, q) == -d * q.y + n * q.x + k;
  }

  lemma OffsetScalesToCross(p1: Point, p2: Point, q: Point)
    ensures Cross(p1, p2, q) == Scale(p1, p2) * Offset(p1, p2, q)
  {
    if p1.x != p2.x && p1.y != p2.y {
      SlopeOffset(p1, p2, q);
    }
  }

  lemma ProductSign(s: real, a: real, b: real)
    requires s != 0.0
    ensures (s * a) * (s * b) < 0.0 <==> a * b < 0.0
  {
    assert (s * a) * (s * b) == (s * s) * (a * b);
    assert s * s > 0.0;
  }

  /** ck_flip's test says exactly that p3 and p4 are strictly on opposite sides
      of the line through p1 and p2. */
  lemma CkSignIsOppositeSides(p1: Point, p2: Point, p3: Point, p4: Point)
    requires p1 != p2
    ensures CkSign(p1, p2, p3, p4) < 0.0 <==> Cross(p1, p2, p3) * Cross(p1, p2, p4) < 0.0
  {
    OffsetScalesToCross(p1, p2, p3);
    OffsetScalesToCross(p1, p2, p4);
    ProductSign(Scale(p1, p2), Offset(p1, p2, p3), Offset(p1, p2, p4));
  }

  lemma SameSignSum(a: real, b: real)
    requires a + b > 0.0
    ensures a * b > 0.0 <==> a > 0.0 && b > 0.0
  {
  }

  /** Two triangles on opposite sides of the diagonal p1 p3, with apexes p0 and
      p2: the test accepts exactly when both replacement triangles keep the same
      turning direction, and the areas always add up. */
  lemma CkSignIsConvexity(p0: Point, p1: Point, p2: Point, p3: Point)
    requires Cross(p0, p1, p3) > 0.0 && Cross(p2, p3, p1) > 0.0
    ensures p0 != p2
    ensures CkSign(p0, p2, p1, p3) < 0.0 <==> Cross(p0, p1, p2) > 0.0 && Cross(p2, p3, p0) > 0.0
    ensures CkSign(p0, p2, p3, p1) < 0.0 <==> Cross(p0, p1, p2) > 0.0 && Cross(p2, p3, p0) > 0.0
  {
    QuadArea(p0, p1, p2, p3);
    var a, b := Cross(p0, p1, p2), Cross(p2, p3, p0);
    assert p0 == p2 ==> Cross(p0, p1, p3) == -Cross(p2, p3, p1);
    CkSignIsOppositeSides(p0, p2, p1, p3);
    CkSignIsOppositeSides(p0, p2, p3, p1);
    CrossRotates(p0, p1, p2);
    CrossRotates(p2, p3, p0);
    CrossRotates(p0, p2, p3);
    assert Cross(p0, p2, p1) == -a && Cross(p0, p2, p3) == b;
    assert (-a) * b == -(a * b) && b * (-a) == -(a * b);
    SameSignSum(a, b);
  }
}
