/** The Delaunay criterion for the two diagonals of a quadrilateral: couplings,
    circumscribed circles, convexity and the lifted surface all tell the same. */
module CircumCircles {
  import opened Plane
  import opened Reals
  import opened PlaneGeometry

  function Half(a: real, b: real): real
    requires b != 0.0
  {
    0.5 * (a / b)
  }

  /** Half the cotangent of the angle at o. */
  function HalfCot(o: Point, a: Point, b: Point): real
    requires Cross(o, a, b) != 0.0
  {
    Half(Dot(o, a, b), Cross(o, a, b))
  }

  function Cleared(a: real, b: real, c: real, d: real): real {
    a * d + c * b
  }

  /** For triangles p0 p1 p3 and p2 p3 p1: the sum of the cotangents at p0 and p2,
      cleared of its denominators. */
  function Bend(p0: Point, p1: Point, p2: Point, p3: Point): real {
    Cleared(Dot(p0, p1, p3), Cross(p0, p1, p3), Dot(p2, p3, p1), Cross(p2, p3, p1))
  }

  lemma Fractions(a: real, b: real, c: real, d: real)
    requires b > 0.0 && d > 0.0
    ensures Half(a, b) + Half(c, d) < 0.0 <==> Cleared(a, b, c, d) < 0.0
  {
    var s, t := a / b, c / d;
    assert a == s * b && c == t * d;
    var bd := b * d;
    assert bd > 0.0;
    assert a * d + c * b == (s + t) * bd by {
      assert a * d == s * bd;
      assert c * b == t * bd;
    }
    assert s + t < 0.0 <==> (s + t) * bd < 0.0;
  }

  lemma CotangentsBend(p0: Point, p1: Point, p2: Point, p3: Point)
    requires Cross(p0, p1, p3) > 0.0 && Cross(p2, p3, p1) > 0.0
    ensures HalfCot(p0, p1, p3) + HalfCot(p2, p3, p1) < 0.0 <==> Bend(p0, p1, p2, p3) < 0.0
  {
    Fractions(Dot(p0, p1, p3), Cross(p0, p1, p3), Dot(p2, p3, p1), Cross(p2, p3, p1));
  }

  lemma BendBothWays(p0: Point, p1: Point, p2: Point, p3: Point)
    ensures Bend(p2, p3, p0, p1) == Bend(p0, p1, p2, p3)
  {
  }

  function Minus(a: Point, b: Point): Point {
    Point(a.x - b.x, a.y - b.y)
  }

  function Inner(v: Point, w: Point): real {
    v.x * w.x + v.y * w.y
  }

  function Outer(v: Point, w: Point): real {
    v.x * w.y - v.y * w.x
  }

  /** Three vectors of the plane are dependent. */
  lemma Planar(u: Point, a: Point, b: Point, g: Point)
    ensures Inner(b, g) * Outer(u, a) + Inner(a, g) * Outer(b, u) == Inner(u, g) * Outer(b, a)
  {
  }

  lemma CrossFrom(o: Point, a: Point, b: Point)
    ensures Cross(a, o, b) == Outer(Minus(b, o), Minus(a, o))
    ensures Cross(a, b, o) == Outer(Minus(a, o), Minus(b, o))
  {
  }

  lemma DotFrom(o: Point, a: Point, b: Point)
    ensures Dot(a, o, b) == Dot(a, b, o) == Inner(Minus(a, o), Minus(a, o)) - Inner(Minus(a, o), Minus(b, o))
    ensures Dist2(o, a) == Inner(Minus(a, o), Minus(a, o))
  {
  }

  function Weighed(d1: real, a: real, d2: real, b: real, d3: real, x: real): real {
    d1 * a + d2 * b - d3 * x
  }

  lemma Apart(x: real, y: real, z: real)
    ensures (x - y) * z == x * z - y * z
  {
  }

  lemma Combine(aa: real, au: real, ua: real, bb: real, bg: real, bu: real, uu: real, ba: real)
    requires bg * ua + au * bu == uu * ba
    ensures Cleared(aa - au, ua, bb - bg, bu) == Weighed(bb, ua, aa, bu, uu, ba)
  {
    Apart(aa, au, bu);
    Apart(bb, bg, ua);
  }

  /** The bend by the distances from p1. */
  lemma BendExpanded(p0: Point, p1: Point, p2: Point, p3: Point)
    ensures Bend(p0, p1, p2, p3)
         == Weighed(Dist2(p1, p2), Cross(p0, p1, p3), Dist2(p1, p0), Cross(p2, p3, p1), Dist2(p1, p3),
             Cross(p0, p1, p2))
  {
    var a, b, u := Minus(p0, p1), Minus(p2, p1), Minus(p3, p1);
    CrossFrom(p1, p0, p3);
    CrossFrom(p1, p2, p3);
    CrossFrom(p1, p0, p2);
    DotFrom(p1, p0, p3);
    DotFrom(p1, p2, p3);
    DotFrom(p1, p3, p3);
    Planar(u, a, b, u);
    Combine(Inner(a, a), Inner(a, u), Outer(u, a), Inner(b, b), Inner(b, u), Outer(b, u), Inner(u, u), Outer(b, a));
  }

  lemma FromCentre(o: Point, c: Point, p: Point)
    ensures Dist2(c, p) == Dist2(c, o) + Inner(Minus(p, o), Minus(p, o)) - 2.0 * Inner(Minus(p, o), Minus(c, o))
  {
  }

  lemma Power(aa: real, ua: real, bb: real, bg: real, bu: real, uu: real, ba: real)
    requires bg * ua + (aa / 2.0) * bu == (uu / 2.0) * ba
    ensures Scaled(bb - 2.0 * bg, ua) == Weighed(bb, ua, aa, bu, uu, ba)
  {
    Apart(bb, 2.0 * bg, ua);
    Halved(aa, bu);
    Halved(uu, ba);
  }

  lemma Halved(x: real, y: real)
    ensures 2.0 * ((x / 2.0) * y) == x * y
  {
  }

  /** The bend by vectors from p1. */
  lemma BendFrom(p0: Point, p1: Point, p2: Point, p3: Point)
    ensures var a, b, u := Minus(p0, p1), Minus(p2, p1), Minus(p3, p1);
      && Cross(p0, p1, p3) == Outer(u, a)
      && Bend(p0, p1, p2, p3) == Weighed(Inner(b, b), Outer(u, a), Inner(a, a), Outer(b, u), Inner(u, u), Outer(b, a))
  {
    BendExpanded(p0, p1, p2, p3);
    CrossFrom(p1, p0, p3);
    CrossFrom(p1, p2, p3);
    CrossFrom(p1, p0, p2);
    DotFrom(p1, p0, p3);
    DotFrom(p1, p2, p3);
    DotFrom(p1, p3, p3);
  }

  lemma SameDistance(o: Point, c: Point, p: Point)
    requires Dist2(c, p) == Dist2(c, o)
    ensures Inner(Minus(p, o), Minus(c, o)) == Inner(Minus(p, o), Minus(p, o)) / 2.0
  {
    FromCentre(o, c, p);
  }

  function Scaled(x: real, y: real): real {
    x * y
  }

  lemma CircleBend(p0: Point, p1: Point, p2: Point, p3: Point, c: Point)
    requires Dist2(c, p0) == Dist2(c, p1) == Dist2(c, p3)
    ensures Scaled(Dist2(c, p2) - Dist2(c, p1), Cross(p0, p1, p3)) == Bend(p0, p1, p2, p3)
  {
    var a, b, u, g := Minus(p0, p1), Minus(p2, p1), Minus(p3, p1), Minus(c, p1);
    SameDistance(p1, c, p0);
    SameDistance(p1, c, p3);
    FromCentre(p1, c, p2);
    Planar(u, a, b, g);
    Power(Inner(a, a), Outer(u, a), Inner(b, b), Inner(b, g), Outer(b, u), Inner(u, u), Outer(b, a));
    BendFrom(p0, p1, p2, p3);
  }

  /** p2 lies strictly inside every circle through p0, p1 and p3 exactly if the
      bend is negative. */
  lemma InsideTheCircle(p0: Point, p1: Point, p2: Point, p3: Point, c: Point)
    requires Cross(p0, p1, p3) > 0.0
    requires Dist2(c, p0) == Dist2(c, p1) == Dist2(c, p3)
    ensures Dist2(c, p2) < Dist2(c, p0) <==> Bend(p0, p1, p2, p3) < 0.0
  {
    CircleBend(p0, p1, p2, p3, c);
    SignOfProduct(Dist2(c, p2) - Dist2(c, p1), Cross(p0, p1, p3));
  }

  lemma Cancel(w: real, a: real, b: real)
    requires w != 0.0
    ensures w * a == w * b ==> a == b
  {
  }

  /** The point on the two bisectors, by Cramer's rule. */
  lemma Cramer(u: Point, a: Point, g: Point, w: real, uu: real, aa: real)
    requires w == 2.0 * Outer(u, a) && g.x * w == uu * a.y - aa * u.y && g.y * w == u.x * aa - a.x * uu
    ensures w * (2.0 * Inner(u, g)) == w * uu && w * (2.0 * Inner(a, g)) == w * aa
  {
    Spread(w, u, g);
    Spread(w, a, g);
    assert u.x * (uu * a.y - aa * u.y) + u.y * (u.x * aa - a.x * uu) == Outer(u, a) * uu;
    assert a.x * (uu * a.y - aa * u.y) + a.y * (u.x * aa - a.x * uu) == Outer(u, a) * aa;
  }

  lemma Spread(w: real, v: Point, g: Point)
    ensures w * (2.0 * Inner(v, g)) == 2.0 * (v.x * (g.x * w) + v.y * (g.y * w))
  {
  }

  lemma Bisectors(u: Point, a: Point) returns (g: Point)
    requires Outer(u, a) != 0.0
    ensures 2.0 * Inner(u, g) == Inner(u, u) && 2.0 * Inner(a, g) == Inner(a, a)
  {
    var w, uu, aa := 2.0 * Outer(u, a), Inner(u, u), Inner(a, a);
    var nx, ny := uu * a.y - aa * u.y, u.x * aa - a.x * uu;
    g := Point(nx / w, ny / w);
    Quotient(nx, w);
    Quotient(ny, w);
    Cramer(u, a, g, w, uu, aa);
    Cancel(w, 2.0 * Inner(u, g), uu);
    Cancel(w, 2.0 * Inner(a, g), aa);
  }

  /** Every proper triangle has a circumscribed circle. */
  lemma CentreOf(p0: Point, p1: Point, p3: Point) returns (c: Point)
    requires Cross(p0, p1, p3) != 0.0
    ensures Dist2(c, p0) == Dist2(c, p1) == Dist2(c, p3)
  {
    CrossFrom(p1, p0, p3);
    var g := Bisectors(Minus(p3, p1), Minus(p0, p1));
    c := Point(p1.x + g.x, p1.y + g.y);
    assert Minus(c, p1) == g;
    FromCentre(p1, c, p0);
    FromCentre(p1, c, p3);
  }

  lemma SignOfProduct(x: real, y: real)
    requires y > 0.0
    ensures Scaled(x, y) < 0.0 <==> x < 0.0
  {
  }

  lemma PositiveWeight(d1: real, a: real, d2: real, b: real, d3: real, x: real)
    requires d1 >= 0.0 && d2 >= 0.0 && d3 >= 0.0 && a > 0.0 && b > 0.0 && Weighed(d1, a, d2, b, d3, x) < 0.0
    ensures x > 0.0
  {
    assert d1 * a >= 0.0 && d2 * b >= 0.0;
    assert x <= 0.0 ==> d3 * x <= 0.0;
  }

  /** Half of the next lemma. */
  lemma BendTurnsLeft(p0: Point, p1: Point, p2: Point, p3: Point)
    requires Cross(p0, p1, p3) > 0.0 && Cross(p2, p3, p1) > 0.0 && Bend(p0, p1, p2, p3) < 0.0
    ensures Cross(p0, p1, p2) > 0.0
  {
    BendExpanded(p0, p1, p2, p3);
    NonNegative(p1, p2);
    NonNegative(p1, p0);
    NonNegative(p1, p3);
    PositiveWeight(
      Dist2(p1, p2), Cross(p0, p1, p3), Dist2(p1, p0), Cross(p2, p3, p1), Dist2(p1, p3), Cross(p0, p1, p2));
  }

  /** A negative bend makes the quadrilateral strictly convex. */
  lemma BendIsConvex(p0: Point, p1: Point, p2: Point, p3: Point)
    requires Cross(p0, p1, p3) > 0.0 && Cross(p2, p3, p1) > 0.0 && Bend(p0, p1, p2, p3) < 0.0
    ensures Cross(p0, p1, p2) > 0.0 && Cross(p2, p3, p0) > 0.0
  {
    BendTurnsLeft(p0, p1, p2, p3);
    BendBothWays(p0, p1, p2, p3);
    BendTurnsLeft(p2, p3, p0, p1);
  }

  function Height(p: Point): real {
    p.x * p.x + p.y * p.y
  }

  function Lifted(c: real, ha: real, hb: real, hc: real): real {
    c * (ha + hb + hc)
  }

  /** Three times the volume between a triangle and the paraboloid over it, up to
      what all triangulations have in common. */
  function Volume(a: Point, b: Point, c: Point): real {
    Lifted(Cross(a, b, c), Height(a), Height(b), Height(c))
  }

  lemma Affine(p0: Point, p1: Point, p2: Point, p3: Point)
    ensures p2.x * Cross(p0, p1, p3) + p0.x * Cross(p2, p3, p1) == p3.x * Cross(p0, p1, p2) + p1.x * Cross(p2, p3, p0)
    ensures p2.y * Cross(p0, p1, p3) + p0.y * Cross(p2, p3, p1) == p3.y * Cross(p0, p1, p2) + p1.y * Cross(p2, p3, p0)
  {
  }

  lemma Distribute(h: real, a: real, b: real, c: real, d: real)
    requires a + b == c + d
    ensures h * a + h * b == h * c + h * d
  {
    assert h * (a + b) == h * (c + d);
  }

  lemma SquareApart(x: real, y: real, c: real)
    ensures Sq(y - x) * c == Sq(y) * c - 2.0 * (x * (y * c)) + Sq(x) * c
  {
  }

  lemma WeighedApart(x0: real, x1: real, x2: real, x3: real, c013: real, c231: real, c012: real)
    ensures Weighed(Sq(x2 - x1), c013, Sq(x0 - x1), c231, Sq(x3 - x1), c012)
         == Weighed(Sq(x2), c013, Sq(x0), c231, Sq(x3), c012)
          - 2.0 * Scaled(x1, x2 * c013 + x0 * c231 - x3 * c012) + Scaled(Sq(x1), c013 + c231 - c012)
  {
    SquareApart(x1, x2, c013);
    SquareApart(x1, x0, c231);
    SquareApart(x1, x3, c012);
    ScaledSum(x1, x2 * c013, x0 * c231, x3 * c012);
    ScaledSum(Sq(x1), c013, c231, c012);
  }

  lemma ScaledSum(x: real, a: real, b: real, c: real)
    ensures Scaled(x, a + b - c) == x * a + x * b - x * c
  {
  }

  lemma ScaledTwice(x: real, c: real)
    ensures Scaled(x, x * c) == Scaled(Sq(x), c) == Sq(x) * c
  {
  }

  lemma SameScale(x: real, a: real, b: real)
    requires a == b
    ensures Scaled(x, a) == Scaled(x, b)
  {
  }

  lemma WeighedLine(x0: real, x1: real, x2: real, x3: real, c013: real, c231: real, c012: real, c230: real)
    requires c012 + c230 == c013 + c231 && x2 * c013 + x0 * c231 == x3 * c012 + x1 * c230
    ensures Weighed(Sq(x2 - x1), c013, Sq(x0 - x1), c231, Sq(x3 - x1), c012)
         == Weighed(Sq(x2), c013, Sq(x0), c231, Sq(x3), c012) - Scaled(Sq(x1), c230)
  {
    WeighedApart(x0, x1, x2, x3, c013, c231, c012);
    SameScale(x1, x2 * c013 + x0 * c231 - x3 * c012, x1 * c230);
    SameScale(Sq(x1), c013 + c231 - c012, c230);
    ScaledTwice(x1, c230);
  }

  /** The next lemma in one coordinate. */
  lemma OneCoordinate(x0: real, x1: real, x2: real, x3: real, c013: real, c231: real, c012: real, c230: real)
    requires c012 + c230 == c013 + c231 && x2 * c013 + x0 * c231 == x3 * c012 + x1 * c230
    ensures Lifted(c012, Sq(x0), Sq(x1), Sq(x2)) + Lifted(c230, Sq(x2), Sq(x3), Sq(x0))
          - Lifted(c013, Sq(x0), Sq(x1), Sq(x3)) - Lifted(c231, Sq(x2), Sq(x3), Sq(x1))
         == Weighed(Sq(x2 - x1), c013, Sq(x0 - x1), c231, Sq(x3 - x1), c012)
  {
    WeighedLine(x0, x1, x2, x3, c013, c231, c012, c230);
    Totals(Sq(x0), Sq(x1), Sq(x2), Sq(x3), c013, c231, c012, c230);
  }

  lemma LiftedSplits(c: real, a: real, b: real, d: real, a': real, b': real, d': real)
    ensures Lifted(c, a + a', b + b', d + d') == Lifted(c, a, b, d) + Lifted(c, a', b', d')
  {
  }

  lemma WeighedSplits(d1: real, d2: real, d3: real, e1: real, e2: real, e3: real, a: real, b: real, x: real)
    ensures Weighed(d1 + e1, a, d2 + e2, b, d3 + e3, x) == Weighed(d1, a, d2, b, d3, x) + Weighed(e1, a, e2, b, e3, x)
  {
  }

  lemma HeightSplits(p: Point)
    ensures Height(p) == Sq(p.x) + Sq(p.y)
  {
  }

  lemma DistanceSplits(p: Point, q: Point)
    ensures Dist2(p, q) == Sq(q.x - p.x) + Sq(q.y - p.y)
  {
  }

  /** The next lemma with numbers for the four areas. */
  lemma Surfaces(p0: Point, p1: Point, p2: Point, p3: Point, c013: real, c231: real, c012: real, c230: real)
    requires c012 + c230 == c013 + c231
    requires p2.x * c013 + p0.x * c231 == p3.x * c012 + p1.x * c230
    requires p2.y * c013 + p0.y * c231 == p3.y * c012 + p1.y * c230
    ensures Lifted(c012, Height(p0), Height(p1), Height(p2)) + Lifted(c230, Height(p2), Height(p3), Height(p0))
          - Lifted(c013, Height(p0), Height(p1), Height(p3)) - Lifted(c231, Height(p2), Height(p3), Height(p1))
         == Weighed(Dist2(p1, p2), c013, Dist2(p1, p0), c231, Dist2(p1, p3), c012)
  {
    OneCoordinate(p0.x, p1.x, p2.x, p3.x, c013, c231, c012, c230);
    OneCoordinate(p0.y, p1.y, p2.y, p3.y, c013, c231, c012, c230);
    HeightSplits(p0); HeightSplits(p1); HeightSplits(p2); HeightSplits(p3);
    DistanceSplits(p1, p2); DistanceSplits(p1, p0); DistanceSplits(p1, p3);
    LiftedSplits(c012, Sq(p0.x), Sq(p1.x), Sq(p2.x), Sq(p0.y), Sq(p1.y), Sq(p2.y));
    LiftedSplits(c230, Sq(p2.x), Sq(p3.x), Sq(p0.x), Sq(p2.y), Sq(p3.y), Sq(p0.y));
    LiftedSplits(c013, Sq(p0.x), Sq(p1.x), Sq(p3.x), Sq(p0.y), Sq(p1.y), Sq(p3.y));
    LiftedSplits(c231, Sq(p2.x), Sq(p3.x), Sq(p1.x), Sq(p2.y), Sq(p3.y), Sq(p1.y));
    WeighedSplits(Sq(p2.x - p1.x), Sq(p0.x - p1.x), Sq(p3.x - p1.x), Sq(p2.y - p1.y), Sq(p0.y - p1.y), Sq(p3.y - p1.y),
                  c013, c231, c012);
  }

  lemma Totals(h0: real, h1: real, h2: real, h3: real, c013: real, c231: real, c012: real, c230: real)
    requires c012 + c230 == c013 + c231
    ensures Lifted(c012, h0, h1, h2) + Lifted(c230, h2, h3, h0) - Lifted(c013, h0, h1, h3) - Lifted(c231, h2, h3, h1)
         == Weighed(h2, c013, h0, c231, h3, c012) - Scaled(h1, c230)
  {
    Distribute(h0, c012, c230, c013, c231);
    Distribute(h1, c012, c230, c013, c231);
    Distribute(h2, c012, c230, c013, c231);
    Distribute(h3, c012, c230, c013, c231);
  }

  /** Changing the diagonal changes the lifted surface by exactly the bend. */
  lemma VolumeChange(p0: Point, p1: Point, p2: Point, p3: Point)
    ensures Volume(p0, p1, p2) + Volume(p2, p3, p0) == Volume(p0, p1, p3) + Volume(p2, p3, p1) + Bend(p0, p1, p2, p3)
  {
    BendExpanded(p0, p1, p2, p3);
    Affine(p0, p1, p2, p3);
    QuadArea(p0, p1, p2, p3);
    Surfaces(p0, p1, p2, p3, Cross(p0, p1, p3), Cross(p2, p3, p1), Cross(p0, p1, p2), Cross(p2, p3, p0));
  }

  // ------------------------------------------------------ circles along a walk

  /** The power of a point with respect to the circle around c through o. */
  function Power2(c: Point, o: Point, x: Point): real {
    Dist2(c, x) - Dist2(c, o)
  }

  lemma PowerFrom(o: Point, c: Point, x: Point)
    ensures Power2(c, o, x) == Inner(Minus(x, o), Minus(x, o)) - 2.0 * Inner(Minus(x, o), Minus(c, o))
  {
    FromCentre(o, c, x);
  }

  lemma InnerMinus(v: Point, c: Point, d: Point, o: Point)
    ensures Inner(v, Minus(c, o)) - Inner(v, Minus(d, o)) == Inner(v, Minus(c, d))
  {
  }

  lemma SameSide(fx: real, fy: real, x: real, y: real)
    requires fx * y + fy * x == 0.0 && x > 0.0 && y < 0.0 && fy <= 0.0
    ensures fx <= 0.0
  {
    assert fx > 0.0 ==> fx * y < 0.0;
    assert fy * x <= 0.0;
  }

  lemma PowerGap(o: Point, c: Point, d: Point, x: Point)
    ensures Power2(d, o, x) - Power2(c, o, x) == 2.0 * Inner(Minus(x, o), Minus(c, d))
  {
    PowerFrom(o, c, x);
    PowerFrom(o, d, x);
    InnerMinus(Minus(x, o), c, d, o);
  }

  /** Two circles through p1 and p3: if p2, on the second one, is not inside the
      first, then beyond the line p1 p3, on the side of p2, every point has at
      least as much power with respect to the first as to the second. */
  lemma PowerBeyond(c: Point, d: Point, p1: Point, p3: Point, p2: Point, x: Point)
    requires Dist2(c, p1) == Dist2(c, p3) && Dist2(d, p1) == Dist2(d, p3) == Dist2(d, p2)
    requires Cross(p1, p3, p2) < 0.0 && Cross(p1, p3, x) < 0.0 && Power2(c, p1, p2) >= 0.0
    ensures Power2(c, p1, x) >= Power2(d, p1, x)
  {
    var u, a, b, g := Minus(p3, p1), Minus(p2, p1), Minus(x, p1), Minus(c, d);
    PowerGap(p1, c, d, p2);
    PowerGap(p1, c, d, x);
    PowerGap(p1, c, d, p3);
    CrossIs(p1, p3, p2);
    CrossIs(p1, p3, x);
    Planar(u, a, b, g);
    ZeroTimes(Inner(u, g), Outer(b, a));
    OuterTurns(u, b);
    SameSide(Inner(b, g), Inner(a, g), Outer(b, u), Outer(u, a));
  }

  lemma ZeroTimes(z: real, x: real)
    requires z == 0.0
    ensures z * x == 0.0
  {
  }

  lemma OuterTurns(v: Point, w: Point)
    ensures Outer(w, v) == -Outer(v, w)
  {
  }

  lemma CrossIs(o: Point, a: Point, b: Point)
    ensures Cross(o, a, b) == Outer(Minus(a, o), Minus(b, o))
  {
  }
}
