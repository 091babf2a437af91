/** dbase/grid_upd.c: the largest part of a time step that turns no element over. */
module BackPedal {
  import opened Reals
  import opened Options

  const TOL: real := 0.05

  datatype Vec = Vec(x: real, y: real)

  /** A grid point with its velocity. */
  datatype Moving = Moving(at: Vec, vel: Vec)

  datatype Mode = TWOD | ONED

  /** `point(vertex(ie, 0..2))`; the third is not used in one dimension. */
  datatype Triangle = Triangle(p0: nat, p1: nat, p2: nat)

  predicate Indexed(pts: seq<Moving>, e: Triangle) {
    e.p0 < |pts| && e.p1 < |pts| && e.p2 < |pts|
  }

  function Minus(p: Vec, q: Vec): Vec {
    Vec(p.x - q.x, p.y - q.y)
  }

  function Scaled(t: real, v: Vec): Vec {
    Vec(t * v.x, t * v.y)
  }

  /** p + t v */
  function Along(p: Vec, t: real, v: Vec): Vec {
    Vec(p.x + t * v.x, p.y + t * v.y)
  }

  function At(m: Moving, t: real): Vec {
    Along(m.at, t, m.vel)
  }

  function Cross(p: Vec, q: Vec): real {
    p.x * q.y - p.y * q.x
  }

  /** The size of an element after time t: its doubled area, or its length. */
  function SizeAt(mode: Mode, pts: seq<Moving>, e: Triangle, t: real): real
    requires Indexed(pts, e)
  {
    var a, b, c := pts[e.p0], pts[e.p1], pts[e.p2];
    if mode == ONED then At(a, t).x - At(b, t).x
    else Cross(Minus(At(b, t), At(a, t)), Minus(At(c, t), At(a, t)))
  }

  /** In coordinates: twice the area of the moved triangle, positive if its corners
      turn left, or the way from its second point to its first. */
  lemma SizeSays(pts: seq<Moving>, e: Triangle, t: real)
    requires Indexed(pts, e)
    ensures var a, b, c := pts[e.p0], pts[e.p1], pts[e.p2];
      var ax, ay, bx, by_ := a.at.x + t * a.vel.x, a.at.y + t * a.vel.y, b.at.x + t * b.vel.x, b.at.y + t * b.vel.y;
      var cx, cy := c.at.x + t * c.vel.x, c.at.y + t * c.vel.y;
      && SizeAt(TWOD, pts, e, t) == (bx - ax) * (cy - ay) - (by_ - ay) * (cx - ax)
      && SizeAt(ONED, pts, e, t) == ax - bx
  {
  }

  /** After part u of the step dt the element has at least a share TOL of its size. */
  predicate Keeps(mode: Mode, pts: seq<Moving>, e: Triangle, dt: real, u: real)
    requires Indexed(pts, e)
  {
    SizeAt(mode, pts, e, u * dt) >= TOL * SizeAt(mode, pts, e, 0.0)
  }

  ghost predicate KeepsUpTo(mode: Mode, pts: seq<Moving>, e: Triangle, dt: real, s: real)
    requires Indexed(pts, e)
  {
    forall u :: 0.0 <= u <= s ==> Keeps(mode, pts, e, dt, u)
  }

  ghost predicate AllKeep(mode: Mode, pts: seq<Moving>, es: seq<Triangle>, dt: real, s: real)
    requires forall e <- es :: Indexed(pts, e)
  {
    forall e <- es :: KeepsUpTo(mode, pts, e, dt, s)
  }

  // --------------------------------------------------- one quadratic, one root

  /** The margin of an element as a function of the part of the step. */
  function Margin(pA: real, pB: real, pC: real, u: real): real {
    pC + u * pB + u * u * pA
  }

  /** Some margin is missing after r and no later than s. */
  ghost predicate Lost(pA: real, pB: real, pC: real, r: real, s: real) {
    exists u :: r < u <= s && Margin(pA, pB, pC, u) < 0.0
  }

  /** No margin is missing up to r, and right after r some is, if r is inside
      the step. */
  ghost predicate FirstLoss(pA: real, pB: real, pC: real, r: real) {
    && r > 0.0
    && (forall u :: 0.0 <= u <= r && u <= 1.0 ==> Margin(pA, pB, pC, u) >= 0.0)
    && (r < 1.0 ==> forall s :: r < s ==> Lost(pA, pB, pC, r, s))
  }

  function LinearRoot(pB: real, pC: real): real
    requires pB != 0.0
  {
    -pC / pB
  }

  lemma LinearRootAt(pB: real, pC: real, u: real)
    requires pB != 0.0
    ensures Margin(0.0, pB, pC, u) == pB * (u - LinearRoot(pB, pC))
  {
    var r := LinearRoot(pB, pC);
    assert r * pB == -pC;
    assert u * pB - r * pB == pB * (u - r);
  }

  lemma LinearLoss(pB: real, pC: real)
    requires pC > 0.0
    ensures pB < 0.0 ==> FirstLoss(0.0, pB, pC, LinearRoot(pB, pC))
    ensures pB >= 0.0 ==> FirstLoss(0.0, pB, pC, 1.0)
  {
    if pB < 0.0 {
      var r := LinearRoot(pB, pC);
      forall u ensures Margin(0.0, pB, pC, u) == pB * (u - r)
        ensures u < r ==> Margin(0.0, pB, pC, u) > 0.0
        ensures u == r ==> Margin(0.0, pB, pC, u) == 0.0
        ensures u > r ==> Margin(0.0, pB, pC, u) < 0.0
      {
        LinearRootAt(pB, pC, u);
        Products(pB, u - r);
      }
      assert Margin(0.0, pB, pC, 0.0) == pC;
      forall s | r < s ensures Lost(0.0, pB, pC, r, s) {
        assert r < s <= s && Margin(0.0, pB, pC, s) < 0.0;
      }
    } else {
      forall u | 0.0 <= u <= 1.0 ensures Margin(0.0, pB, pC, u) >= 0.0 {
        Products(u, pB);
      }
    }
  }

  /** Twice the leading coefficient times the argument, shifted. */
  lemma Squares(pA: real, pB: real, pC: real, u: real)
    ensures 4.0 * pA * Margin(pA, pB, pC, u)
         == (2.0 * pA * u + pB) * (2.0 * pA * u + pB) - (pB * pB - 4.0 * pA * pC)
  {
    var v := 2.0 * pA * u;
    assert (v + pB) * (v + pB) == v * v + 2.0 * (v * pB) + pB * pB;
    assert v * v == 4.0 * pA * (u * u * pA);
    assert 2.0 * (v * pB) == 4.0 * pA * (u * pB);
    assert 4.0 * pA * Margin(pA, pB, pC, u) == 4.0 * pA * pC + 4.0 * pA * (u * pB) + 4.0 * pA * (u * u * pA);
  }

  lemma Square(x: real)
    ensures x * x >= 0.0
  {
  }

  /** Without a positive discriminant there is no loss. */
  lemma NoRoots(pA: real, pB: real, pC: real)
    requires pA != 0.0 && pC > 0.0 && pB * pB - 4.0 * pA * pC <= 0.0
    ensures FirstLoss(pA, pB, pC, 1.0)
  {
    Square(pB);
    Products(pA, pC);
    assert 4.0 * pA * pC == 4.0 * (pA * pC);
    assert pA > 0.0;
    forall u ensures Margin(pA, pB, pC, u) >= 0.0 {
      Squares(pA, pB, pC, u);
      Square(2.0 * pA * u + pB);
      Products(4.0 * pA, Margin(pA, pB, pC, u));
    }
  }

  /** `root1` with d the root of the discriminant, `root2` with its negative. */
  function Root(pA: real, pB: real, d: real): real
    requires pA != 0.0
  {
    (-pB + d) / (2.0 * pA)
  }

  lemma RootAt(pA: real, pB: real, d: real, u: real)
    requires pA != 0.0
    ensures 2.0 * pA * u + pB - d == 2.0 * pA * (u - Root(pA, pB, d))
  {
    var r := Root(pA, pB, d);
    assert r * (2.0 * pA) == -pB + d;
    assert 2.0 * pA * (u - r) == 2.0 * pA * u - r * (2.0 * pA);
  }

  lemma DifferenceOfSquares(x: real, d: real)
    ensures x * x - d * d == (x - d) * (x + d)
  {
  }

  lemma Regroup(a: real, x: real, y: real)
    ensures (2.0 * a * x) * (2.0 * a * y) == 4.0 * a * (a * (x * y))
  {
  }

  lemma CancelFactor(a: real, x: real, y: real)
    requires a != 0.0 && a * x == a * y
    ensures x == y
  {
  }

  lemma Factored(pA: real, pB: real, pC: real, d: real, u: real)
    requires pA != 0.0 && d * d == pB * pB - 4.0 * pA * pC
    ensures Margin(pA, pB, pC, u) == pA * ((u - Root(pA, pB, d)) * (u - Root(pA, pB, -d)))
  {
    var x, r1, r2 := 2.0 * pA * u + pB, Root(pA, pB, d), Root(pA, pB, -d);
    Squares(pA, pB, pC, u);
    DifferenceOfSquares(x, d);
    RootAt(pA, pB, d, u);
    RootAt(pA, pB, -d, u);
    assert x - d == 2.0 * pA * (u - r1) && x + d == 2.0 * pA * (u - r2);
    Regroup(pA, u - r1, u - r2);
    CancelFactor(4.0 * pA, Margin(pA, pB, pC, u), pA * ((u - r1) * (u - r2)));
  }

  lemma RootOrder(pA: real, pB: real, d: real)
    requires pA != 0.0 && d > 0.0
    ensures pA > 0.0 ==> Root(pA, pB, -d) < Root(pA, pB, d)
    ensures pA < 0.0 ==> Root(pA, pB, d) < Root(pA, pB, -d)
  {
    var r1, r2 := Root(pA, pB, d), Root(pA, pB, -d);
    assert r1 * (2.0 * pA) == -pB + d && r2 * (2.0 * pA) == -pB - d;
    assert (r1 - r2) * (2.0 * pA) == 2.0 * d;
    Products(r1 - r2, 2.0 * pA);
  }

  /** The smallest positive root inside the step, or the whole step. */
  function Smallest(root1: real, root2: real): real {
    var m := if root1 > 0.0 && root1 < 1.0 then root1 else 1.0;
    if root2 > 0.0 && root2 < m then root2 else m
  }

  lemma TwoRoots(pA: real, pB: real, pC: real, d: real)
    requires pA != 0.0 && pC > 0.0 && d > 0.0 && d * d == pB * pB - 4.0 * pA * pC
    ensures FirstLoss(pA, pB, pC, Smallest(Root(pA, pB, d), Root(pA, pB, -d)))
  {
    var r1, r2 := Root(pA, pB, d), Root(pA, pB, -d);
    RootOrder(pA, pB, d);
    var lo, hi := if pA > 0.0 then r2 else r1, if pA > 0.0 then r1 else r2;
    forall u ensures Margin(pA, pB, pC, u) == pA * ((u - lo) * (u - hi)) {
      Factored(pA, pB, pC, d, u);
      assert (u - r1) * (u - r2) == (u - r2) * (u - r1);
    }
    if pA > 0.0 {
      Upward(pA, pB, pC, lo, hi);
    } else {
      Downward(pA, pB, pC, lo, hi);
    }
  }

  ghost predicate HasRoots(pA: real, pB: real, pC: real, lo: real, hi: real) {
    forall u :: Margin(pA, pB, pC, u) == pA * ((u - lo) * (u - hi))
  }

  /** The sign of the margin, by the side of the roots. */
  lemma MarginSign(pA: real, pB: real, pC: real, lo: real, hi: real, u: real)
    requires HasRoots(pA, pB, pC, lo, hi) && lo < hi && pA != 0.0
    ensures u < lo || hi < u ==>
        (Margin(pA, pB, pC, u) > 0.0 <==> pA > 0.0) && (Margin(pA, pB, pC, u) < 0.0 <==> pA < 0.0)
    ensures lo < u < hi ==> (Margin(pA, pB, pC, u) < 0.0 <==> pA > 0.0)
    ensures u == lo || u == hi ==> Margin(pA, pB, pC, u) == 0.0
  {
    Products(u - lo, u - hi);
    Products(pA, (u - lo) * (u - hi));
  }

  /** The margin dips below zero exactly between the roots. */
  lemma Upward(pA: real, pB: real, pC: real, lo: real, hi: real)
    requires pA > 0.0 && pC > 0.0 && lo < hi && HasRoots(pA, pB, pC, lo, hi)
    ensures FirstLoss(pA, pB, pC, Smallest(hi, lo))
  {
    assert Margin(pA, pB, pC, 0.0) == pC;
    MarginSign(pA, pB, pC, lo, hi, 0.0);
    forall u ensures Margin(pA, pB, pC, u) >= 0.0 <==> u <= lo || hi <= u {
      MarginSign(pA, pB, pC, lo, hi, u);
    }
    forall s | lo < s ensures Lost(pA, pB, pC, lo, s) {
      var mid := (lo + hi) / 2.0;
      var u := if s < mid then s else mid;
      assert lo < u <= s && Margin(pA, pB, pC, u) < 0.0;
    }
  }

  /** The margin is lost for good at the larger root. */
  lemma Downward(pA: real, pB: real, pC: real, lo: real, hi: real)
    requires pA < 0.0 && pC > 0.0 && lo < hi && HasRoots(pA, pB, pC, lo, hi)
    ensures FirstLoss(pA, pB, pC, Smallest(lo, hi))
  {
    assert Margin(pA, pB, pC, 0.0) == pC;
    MarginSign(pA, pB, pC, lo, hi, 0.0);
    forall u ensures Margin(pA, pB, pC, u) >= 0.0 <==> lo <= u <= hi {
      MarginSign(pA, pB, pC, lo, hi, u);
    }
    forall s | hi < s ensures Lost(pA, pB, pC, hi, s) {
      assert hi < s <= s && Margin(pA, pB, pC, s) < 0.0;
    }
  }

  // --------------------------------------------------------------- an element

  /** The cross product of two vectors that grow linearly. */
  lemma CrossGrows(p: Vec, q: Vec, dp: Vec, dq: Vec, u: real)
    ensures Cross(Along(p, u, dp), Along(q, u, dq))
         == Cross(p, q) + u * (Cross(p, dq) + Cross(dp, q)) + u * u * Cross(dp, dq)
  {
    Bilinear(p.x, q.y, dp.x, dq.y, u);
    Bilinear(p.y, q.x, dp.y, dq.x, u);
  }

  lemma Bilinear(a: real, b: real, da: real, db: real, u: real)
    ensures (a + u * da) * (b + u * db) == a * b + u * (a * db + da * b) + u * u * (da * db)
  {
  }

  lemma Moves(a: Moving, b: Moving, u: real, dt: real)
    ensures Minus(At(b, u * dt), At(a, u * dt)) == Along(Minus(b.at, a.at), u, Scaled(dt, Minus(b.vel, a.vel)))
  {
    assert At(b, u * dt).x - At(a, u * dt).x == Along(Minus(b.at, a.at), u, Scaled(dt, Minus(b.vel, a.vel))).x by {
      Travel(a.at.x, b.at.x, a.vel.x, b.vel.x, u, dt);
    }
    assert At(b, u * dt).y - At(a, u * dt).y == Along(Minus(b.at, a.at), u, Scaled(dt, Minus(b.vel, a.vel))).y by {
      Travel(a.at.y, b.at.y, a.vel.y, b.vel.y, u, dt);
    }
  }

  lemma Travel(x0: real, x1: real, v0: real, v1: real, u: real, dt: real)
    ensures (x1 + (u * dt) * v1) - (x0 + (u * dt) * v0) == (x1 - x0) + u * (dt * (v1 - v0))
  {
  }

  /** The sides p and q of a triangle, and their displacements over the step. */
  function SideP(pts: seq<Moving>, e: Triangle): Vec
    requires Indexed(pts, e)
  {
    Minus(pts[e.p1].at, pts[e.p0].at)
  }

  function SideQ(pts: seq<Moving>, e: Triangle): Vec
    requires Indexed(pts, e)
  {
    Minus(pts[e.p2].at, pts[e.p0].at)
  }

  function ShiftP(pts: seq<Moving>, e: Triangle, dt: real): Vec
    requires Indexed(pts, e)
  {
    Scaled(dt, Minus(pts[e.p1].vel, pts[e.p0].vel))
  }

  function ShiftQ(pts: seq<Moving>, e: Triangle, dt: real): Vec
    requires Indexed(pts, e)
  {
    Scaled(dt, Minus(pts[e.p2].vel, pts[e.p0].vel))
  }

  /** The coefficients the code forms for a triangle: pxq, pB and pA. */
  function Pxq(pts: seq<Moving>, e: Triangle): real
    requires Indexed(pts, e)
  {
    Cross(SideP(pts, e), SideQ(pts, e))
  }

  function Slope(pts: seq<Moving>, e: Triangle, dt: real): real
    requires Indexed(pts, e)
  {
    Cross(SideP(pts, e), ShiftQ(pts, e, dt)) + Cross(ShiftP(pts, e, dt), SideQ(pts, e))
  }

  function Bend(pts: seq<Moving>, e: Triangle, dt: real): real
    requires Indexed(pts, e)
  {
    Cross(ShiftP(pts, e, dt), ShiftQ(pts, e, dt))
  }

  lemma TriangleSize(pts: seq<Moving>, e: Triangle, dt: real, u: real)
    requires Indexed(pts, e)
    ensures SizeAt(TWOD, pts, e, u * dt) == Pxq(pts, e) + u * Slope(pts, e, dt) + u * u * Bend(pts, e, dt)
  {
    Moves(pts[e.p0], pts[e.p1], u, dt);
    Moves(pts[e.p0], pts[e.p2], u, dt);
    CrossGrows(SideP(pts, e), SideQ(pts, e), ShiftP(pts, e, dt), ShiftQ(pts, e, dt), u);
  }

  /** The margin is what the element has beyond its share. */
  lemma TriangleMargin(pts: seq<Moving>, e: Triangle, dt: real, u: real)
    requires Indexed(pts, e)
    ensures SizeAt(TWOD, pts, e, 0.0) == Pxq(pts, e)
    ensures SizeAt(TWOD, pts, e, u * dt) - TOL * SizeAt(TWOD, pts, e, 0.0)
         == Margin(Bend(pts, e, dt), Slope(pts, e, dt), (1.0 - TOL) * Pxq(pts, e), u)
  {
    var pxq, slope, bend := Pxq(pts, e), Slope(pts, e, dt), Bend(pts, e, dt);
    TriangleSize(pts, e, dt, u);
    Still(pts, e);
    Share(pxq, slope, bend, u);
  }

  lemma Still(pts: seq<Moving>, e: Triangle)
    requires Indexed(pts, e)
    ensures SizeAt(TWOD, pts, e, 0.0) == Pxq(pts, e)
  {
    forall m: Moving ensures At(m, 0.0) == m.at {}
  }

  lemma Share(pxq: real, pB: real, pA: real, u: real)
    ensures pxq + u * pB + u * u * pA - TOL * pxq == Margin(pA, pB, (1.0 - TOL) * pxq, u)
  {
  }

  function Gap(pts: seq<Moving>, e: Triangle): real
    requires Indexed(pts, e)
  {
    pts[e.p0].at.x - pts[e.p1].at.x
  }

  function Opening(pts: seq<Moving>, e: Triangle, dt: real): real
    requires Indexed(pts, e)
  {
    dt * (pts[e.p0].vel.x - pts[e.p1].vel.x)
  }

  lemma LengthMargin(pts: seq<Moving>, e: Triangle, dt: real, u: real)
    requires Indexed(pts, e)
    ensures SizeAt(ONED, pts, e, 0.0) == Gap(pts, e)
    ensures SizeAt(ONED, pts, e, u * dt) - TOL * SizeAt(ONED, pts, e, 0.0)
         == Margin(0.0, Opening(pts, e, dt), (1.0 - TOL) * Gap(pts, e), u)
  {
    Moves(pts[e.p1], pts[e.p0], u, dt);
    Share(Gap(pts, e), Opening(pts, e, dt), 0.0, u);
  }

  /** m is the part of the step after which this element starts to lose too
      much, when it is inside the step; otherwise the whole step is safe. */
  ghost predicate CutOf(mode: Mode, pts: seq<Moving>, e: Triangle, dt: real, m: real)
    requires Indexed(pts, e)
  {
    && m > 0.0
    && (forall u :: 0.0 <= u <= m && u <= 1.0 ==> Keeps(mode, pts, e, dt, u))
    && (m < 1.0 ==> forall s :: m < s ==> !KeepsUpTo(mode, pts, e, dt, s))
  }

  ghost predicate Measures(mode: Mode, pts: seq<Moving>, e: Triangle, dt: real, pA: real, pB: real, pC: real)
    requires Indexed(pts, e)
  {
    forall u :: Keeps(mode, pts, e, dt, u) <==> Margin(pA, pB, pC, u) >= 0.0
  }

  lemma CutFromLoss(mode: Mode, pts: seq<Moving>, e: Triangle, dt: real, pA: real, pB: real, pC: real, m: real)
    requires Indexed(pts, e) && Measures(mode, pts, e, dt, pA, pB, pC) && FirstLoss(pA, pB, pC, m)
    ensures CutOf(mode, pts, e, dt, m)
  {
    if m < 1.0 {
      forall s | m < s ensures !KeepsUpTo(mode, pts, e, dt, s) {
        assert Lost(pA, pB, pC, m, s);
        var u :| m < u <= s && Margin(pA, pB, pC, u) < 0.0;
        assert !Keeps(mode, pts, e, dt, u);
      }
    }
  }

  ghost predicate IsSqrt(sqrt: real -> real) {
    forall d :: d > 0.0 ==> sqrt(d) > 0.0 && sqrt(d) * sqrt(d) == d
  }

  /** The body of the two-dimensional loop.  The assertion on pxq is the error. */
  method TriangleCut(pts: seq<Moving>, e: Triangle, dt: real, sqrt: real -> real) returns (r: Result<real>)
    requires Indexed(pts, e) && IsSqrt(sqrt)
    ensures r.Error? <==> SizeAt(TWOD, pts, e, 0.0) <= 0.0
    ensures r.Ok? ==> CutOf(TWOD, pts, e, dt, r.value)
  {
    var p, q := Minus(pts[e.p1].at, pts[e.p0].at), Minus(pts[e.p2].at, pts[e.p0].at);
    var dp, dq := Scaled(dt, Minus(pts[e.p1].vel, pts[e.p0].vel)), Scaled(dt, Minus(pts[e.p2].vel, pts[e.p0].vel));
    var pxq, pxdq, dpxq, dpxdq := Cross(p, q), Cross(p, dq), Cross(dp, q), Cross(dp, dq);
    TriangleMargin(pts, e, dt, 0.0);
    if !(pxq > 0.0) { return Error; }
    var pA, pB, pC := dpxdq, pxdq + dpxq, (1.0 - TOL) * pxq;
    assert pA == Bend(pts, e, dt) && pB == Slope(pts, e, dt) && pxq == Pxq(pts, e);
    var minRoot := Cutback(pA, pB, pC, sqrt);
    forall u ensures Keeps(TWOD, pts, e, dt, u) <==> Margin(pA, pB, pC, u) >= 0.0 {
      TriangleMargin(pts, e, dt, u);
    }
    CutFromLoss(TWOD, pts, e, dt, pA, pB, pC, minRoot);
    r := Ok(minRoot);
  }

  /** The linear and the quadratic case. */
  method Cutback(pA: real, pB: real, pC: real, sqrt: real -> real) returns (minRoot: real)
    requires pC > 0.0 && IsSqrt(sqrt)
    ensures FirstLoss(pA, pB, pC, minRoot)
  {
    minRoot := 1.0;
    if pA == 0.0 {
      LinearLoss(pB, pC);
      if pB < 0.0 {
        minRoot := -pC / pB;
      }
    } else {
      var discrim := pB * pB - 4.0 * pA * pC;
      if discrim > 0.0 {
        var d := sqrt(discrim);
        TwoRoots(pA, pB, pC, d);
        var root1 := (-pB + d) / (2.0 * pA);
        if root1 > 0.0 && root1 < minRoot { minRoot := root1; }
        var root2 := (-pB - d) / (2.0 * pA);
        if root2 > 0.0 && root2 < minRoot { minRoot := root2; }
      } else {
        NoRoots(pA, pB, pC);
      }
    }
  }

  /** The body of the one-dimensional loop. */
  method LengthCut(pts: seq<Moving>, e: Triangle, dt: real) returns (r: Result<real>)
    requires Indexed(pts, e)
    ensures r.Error? <==> SizeAt(ONED, pts, e, 0.0) <= 0.0
    ensures r.Ok? ==> CutOf(ONED, pts, e, dt, r.value)
  {
    var pxq := pts[e.p0].at.x - pts[e.p1].at.x;
    var dp := dt * (pts[e.p0].vel.x - pts[e.p1].vel.x);
    LengthMargin(pts, e, dt, 0.0);
    if !(pxq > 0.0) { return Error; }
    var pC, pB := (1.0 - TOL) * pxq, dp;
    assert pxq == Gap(pts, e) && pB == Opening(pts, e, dt);
    var minRoot := 1.0;
    LinearLoss(pB, pC);
    if pC + pB < 0.0 {
      minRoot := -pC / pB;
    } else if pB < 0.0 {
      LateRoot(pB, pC);
    }
    forall u ensures Keeps(ONED, pts, e, dt, u) <==> Margin(0.0, pB, pC, u) >= 0.0 {
      LengthMargin(pts, e, dt, u);
    }
    CutFromLoss(ONED, pts, e, dt, 0.0, pB, pC, minRoot);
    r := Ok(minRoot);
  }

  /** A root after the step is as good as none. */
  lemma LateRoot(pB: real, pC: real)
    requires pC > 0.0 && pB < 0.0 && pC + pB >= 0.0
    ensures FirstLoss(0.0, pB, pC, 1.0)
  {
    forall u | 0.0 <= u <= 1.0 ensures Margin(0.0, pB, pC, u) >= 0.0 {
      Products(1.0 - u, pB);
      assert (1.0 - u) * pB == pB - u * pB;
      Products(u * u, 0.0);
    }
  }

  // ------------------------------------------------------------- the whole mesh

  predicate AllIndexed(pts: seq<Moving>, es: seq<Triangle>) {
    forall e <- es :: Indexed(pts, e)
  }

  /** Element e allows no more than part w of the step. */
  ghost predicate Stops(mode: Mode, pts: seq<Moving>, e: Triangle, dt: real, w: real)
    requires Indexed(pts, e)
  {
    forall s :: w < s ==> !KeepsUpTo(mode, pts, e, dt, s)
  }

  ghost predicate Worst(mode: Mode, pts: seq<Moving>, es: seq<Triangle>, dt: real, w: real)
    requires AllIndexed(pts, es)
  {
    && 0.0 < w <= 1.0 && AllKeep(mode, pts, es, dt, w)
    && (w < 1.0 ==> exists e <- es :: Stops(mode, pts, e, dt, w))
  }

  /** `worst` after one more element. */
  lemma WorstMore(mode: Mode, pts: seq<Moving>, es: seq<Triangle>, dt: real, w: real, e: Triangle, m: real)
    requires AllIndexed(pts, es) && Worst(mode, pts, es, dt, w) && Indexed(pts, e) && CutOf(mode, pts, e, dt, m)
    ensures Worst(mode, pts, es + [e], dt, if m < w then m else w)
  {
    var w' := if m < w then m else w;
    forall f <- es + [e] ensures KeepsUpTo(mode, pts, f, dt, w') {
      if f in es {
        assert KeepsUpTo(mode, pts, f, dt, w);
      }
    }
    if m < w {
      assert e in es + [e] && Stops(mode, pts, e, dt, m);
    } else if w < 1.0 {
      var f :| f in es && Stops(mode, pts, f, dt, w);
      assert f in es + [e];
    }
  }

  /** back_pedal().  The result is the largest part of the step over which every
      element keeps its share all along, and the step cut to that part. */
  method Run(mode: Mode, pts: seq<Moving>, es: seq<Triangle>, dt: real, sqrt: real -> real)
    returns (r: Result<real>, worst: real)
    requires AllIndexed(pts, es) && IsSqrt(sqrt)
    ensures r.Error? <==> exists e <- es :: SizeAt(mode, pts, e, 0.0) <= 0.0
    ensures r.Ok? ==> r.value == worst * dt && 0.0 < worst <= 1.0
    ensures r.Ok? ==> AllKeep(mode, pts, es, dt, worst) && forall s :: worst < s <= 1.0 ==>
        !AllKeep(mode, pts, es, dt, s)
  {
    worst := 1.0;
    for i := 0 to |es|
      invariant Worst(mode, pts, es[..i], dt, worst)
      invariant forall e <- es[..i] :: SizeAt(mode, pts, e, 0.0) > 0.0
    {
      assert es[i] in es;
      var cut;
      if mode == TWOD {
        cut := TriangleCut(pts, es[i], dt, sqrt);
      } else {
        cut := LengthCut(pts, es[i], dt);
      }
      if cut.Error? { return Error, worst; }
      WorstMore(mode, pts, es[..i], dt, worst, es[i], cut.value);
      assert es[..i] + [es[i]] == es[..i + 1];
      if cut.value < worst { worst := cut.value; }
    }
    assert es[..|es|] == es;
    LargestPart(mode, pts, es, dt, worst);
    if worst < 1.0 {
      return Ok(worst * dt), worst;
    }
    assert worst == 1.0 && 1.0 * dt == dt;
    return Ok(dt), worst;
  }

  lemma LargestPart(mode: Mode, pts: seq<Moving>, es: seq<Triangle>, dt: real, w: real)
    requires AllIndexed(pts, es) && Worst(mode, pts, es, dt, w)
    ensures forall s :: w < s <= 1.0 ==> !AllKeep(mode, pts, es, dt, s)
  {
    forall s | w < s <= 1.0 ensures !AllKeep(mode, pts, es, dt, s) {
      var e :| e in es && Stops(mode, pts, e, dt, w);
      assert !KeepsUpTo(mode, pts, e, dt, s);
    }
  }

  lemma PartOf(t: real, dt: real, worst: real) returns (u: real)
    requires dt > 0.0 && 0.0 <= t <= worst * dt
    ensures 0.0 <= u <= worst && u * dt == t
  {
    u := t / dt;
    assert u * dt == t;
    Products(u, dt);
    Products(worst - u, dt);
    assert (worst - u) * dt == worst * dt - u * dt;
  }

  /** At no time of the cut step is an element turned over, or flat. */
  lemma NothingTurnsOver(mode: Mode, pts: seq<Moving>, es: seq<Triangle>, dt: real, worst: real, e: Triangle, t: real)
    requires AllIndexed(pts, es) && AllKeep(mode, pts, es, dt, worst) && e in es && worst > 0.0
    requires SizeAt(mode, pts, e, 0.0) > 0.0 && dt > 0.0 && 0.0 <= t <= worst * dt
    ensures SizeAt(mode, pts, e, t) >= 0.05 * SizeAt(mode, pts, e, 0.0) > 0.0
  {
    var u := PartOf(t, dt, worst);
    assert KeepsUpTo(mode, pts, e, dt, worst);
    assert Keeps(mode, pts, e, dt, u);
  }
}
