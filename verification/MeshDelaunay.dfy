/** What the flips are for: the coupling along an edge is negative exactly where
    the triangulation is not Delaunay, and each flip brings it nearer. */
module MeshDelaunay {
  import opened Plane
  import opened PlaneGeometry
  import opened CircumCircles
  import opened MeshTables
  import opened MeshFlip
  import opened MeshFlipSound
  import opened MeshFlipTheorems

  // -------------------------------------------------------------- couplings

  /** tri_geom(): the denominator the code forms, and half a cotangent. */
  function Denominator(a: Point, b: Point, c: Point): real {
    (c.x - a.x) * (b.y - c.y) - (c.y - a.y) * (b.x - c.x)
  }

  function Ehed(a: Point, b: Point, c: Point, j: nat): real
    requires j < 3 && Denominator(a, b, c) != 0.0
  {
    var half := 0.5 / Denominator(a, b, c);
    if j == 0 then ((c.x - a.x) * (a.x - b.x) + (c.y - a.y) * (a.y - b.y)) * half
    else if j == 1 then ((a.x - b.x) * (b.x - c.x) + (a.y - b.y) * (b.y - c.y)) * half
    else ((b.x - c.x) * (c.x - a.x) + (b.y - c.y) * (c.y - a.y)) * half
  }

  lemma Opposite(s: real, t: real, d: real, c: real)
    requires d != 0.0 && s == -t && d == -c
    ensures s * (0.5 / d) == Half(t, c)
  {
    assert (0.5 / d) * d == 0.5;
    var h, r := 0.5 / d, t / c;
    assert h * c == -0.5 && r * c == t;
    assert (s * h) * c == s * (h * c) == (0.5 * r) * c;
    Cancel(c, s * h, 0.5 * r);
  }

  lemma DenominatorIs(a: Point, b: Point, c: Point)
    ensures Denominator(a, b, c) == -Cross(a, b, c)
    ensures Cross(a, b, c) == Cross(b, c, a) == Cross(c, a, b)
  {
  }

  /** The three numbers are the half cotangents at the three corners. */
  lemma EhedIsHalfCot(a: Point, b: Point, c: Point)
    requires Cross(a, b, c) != 0.0
    ensures Denominator(a, b, c) != 0.0 && Cross(b, c, a) != 0.0 && Cross(c, a, b) != 0.0
    ensures Ehed(a, b, c, 0) == HalfCot(a, b, c)
    ensures Ehed(a, b, c, 1) == HalfCot(b, c, a)
    ensures Ehed(a, b, c, 2) == HalfCot(c, a, b)
  {
    DenominatorIs(a, b, c);
    var d := Denominator(a, b, c);
    Opposite((c.x - a.x) * (a.x - b.x) + (c.y - a.y) * (a.y - b.y), Dot(a, b, c), d, Cross(a, b, c));
    Opposite((a.x - b.x) * (b.x - c.x) + (a.y - b.y) * (b.y - c.y), Dot(b, c, a), d, Cross(b, c, a));
    Opposite((b.x - c.x) * (c.x - a.x) + (b.y - c.y) * (c.y - a.y), Dot(c, a, b), d, Cross(c, a, b));
  }

  /** ehed_tri(): the coupling triangle t adds to its edge e. */
  ghost function TriCoupling(m: Mesh, t: int, e: int): real
    requires Sound(m) && 0 <= t < |m.tri|
  {
    var x := m.tri[t];
    assert TriShaped(m, x) && TriOk(m, t);
    var a, b, c := At(m, x.nd[0]), At(m, x.nd[1]), At(m, x.nd[2]);
    DenominatorIs(a, b, c);
    if e in x.edg then Ehed(a, b, c, Slot(x.edg, e)) else 0.0
  }

  ghost function SumCoupling(m: Mesh, ele: seq<int>, e: int): real
    requires Sound(m) && forall k :: 0 <= k < |ele| ==> 0 <= ele[k] < |m.tri|
  {
    if ele == [] then 0.0
    else SumCoupling(m, ele[..|ele| - 1], e) + TriCoupling(m, ele[|ele| - 1], e)
  }

  predicate Faces(m: Mesh, t: int, e: int) {
    0 <= t < |m.tri| && TriShaped(m, m.tri[t]) && e in m.tri[t].edg
  }

  lemma ElementsOf(m: Mesh, e: int)
    requires Sound(m) && 0 <= e < |m.edg|
    ensures forall k :: 0 <= k < |m.edg[e].ele| ==> Faces(m, m.edg[e].ele[k], e)
  {
    assert EdgeOk(m, e);
    forall k | 0 <= k < |m.edg[e].ele| ensures Faces(m, m.edg[e].ele[k], e) {
      assert m.edg[e].ele[k] in m.edg[e].ele;
    }
  }

  /** gimme_ehed() */
  ghost function Coupling(m: Mesh, e: int): real
    requires Sound(m) && 0 <= e < |m.edg|
  {
    ElementsOf(m, e);
    SumCoupling(m, m.edg[e].ele, e)
  }

  lemma CouplingOfTwo(m: Mesh, e: int, t: int, u: int)
    requires Sound(m) && Joins(m, e, t, u)
    ensures 0 <= t < |m.tri| && 0 <= u < |m.tri| && Coupling(m, e) == TriCoupling(m, t, e) + TriCoupling(m, u, e)
  {
    ElementsOf(m, e);
    var ele := m.edg[e].ele;
    assert Faces(m, ele[0], e) && Faces(m, ele[1], e);
    assert ele[..1] == [t] && [t][..0] == [];
    assert SumCoupling(m, [t], e) == SumCoupling(m, [], e) + TriCoupling(m, t, e);
  }

  /** The corner of triangle t opposite its edge e. */
  function Apex(m: Mesh, t: int, e: int): int
    requires 0 <= t < |m.tri| && |m.tri[t].nd| == |m.tri[t].edg| == 3 && e in m.tri[t].edg
  {
    m.tri[t].nd[Slot(m.tri[t].edg, e)]
  }

  /** A side of a triangle, the corner opposite it, and its coupling. */
  lemma SideCoupling(m: Mesh, t: int, s: Side)
    requires Sound(m) && 0 <= t < |m.tri| && TriShaped(m, m.tri[t]) && Has(m.tri[t], s)
    ensures s.edge in m.tri[t].edg && 0 <= s.from < |m.nd| && 0 <= s.to < |m.nd| && 0 <= Apex(m, t, s.edge) < |m.nd|
    ensures Apex(m, t, s.edge) != s.from && Apex(m, t, s.edge) != s.to
    ensures var a, b, c := At(m, Apex(m, t, s.edge)), At(m, s.from), At(m, s.to);
            Cross(a, b, c) > 0.0 && TriCoupling(m, t, s.edge) == HalfCot(a, b, c)
  {
    EdgesDiffer(m, t);
    var x := m.tri[t];
    assert TriOk(m, t);
    EhedIsHalfCot(At(m, x.nd[0]), At(m, x.nd[1]), At(m, x.nd[2]));
    DenominatorIs(At(m, x.nd[0]), At(m, x.nd[1]), At(m, x.nd[2]));
  }

  /** The bend of the quadrilateral, in the direction its triangles turn. */
  function QuadBend(m: Mesh, q: Quad, ccw: bool): real
    requires Shaped(m) && QuadInRange(m, q)
  {
    var p0, p1, p2, p3 := At(m, q.s0), At(m, q.s1), At(m, q.s2), At(m, q.s3);
    if ccw then Bend(p0, p1, p2, p3) else Bend(p0, p3, p2, p1)
  }

  /** The two apexes are the ends of the other diagonal. */
  lemma ApexesOf(m: Mesh, q: Quad, ccw: bool, it: int, tp: int, tq: int)
    requires Before(m, q, ccw, it, tp, tq)
    ensures TriShaped(m, m.tri[tp]) && TriShaped(m, m.tri[tq]) && it in m.tri[tp].edg && it in m.tri[tq].edg
    ensures Apex(m, tp, it) == q.s0 && Apex(m, tq, it) == q.s2
  {
    assert TriShaped(m, m.tri[tp]) && TriShaped(m, m.tri[tq]);
    CornersOf(m, q, ccw, it, tp, tq);
    SideCoupling(m, tp, Dir(ccw, it, tq, q.s1, q.s3));
    SideCoupling(m, tq, Dir(ccw, it, tp, q.s3, q.s1));
    assert Apex(m, tp, it) in m.tri[tp].nd && Apex(m, tq, it) in m.tri[tq].nd;
  }

  lemma CouplingBends(m: Mesh, q: Quad, ccw: bool, it: int, tp: int, tq: int)
    requires Before(m, q, ccw, it, tp, tq) && Joins(m, it, tp, tq)
    ensures Coupling(m, it) < 0.0 <==> QuadBend(m, q, ccw) < 0.0
  {
    var p0, p1, p2, p3 := At(m, q.s0), At(m, q.s1), At(m, q.s2), At(m, q.s3);
    ApexesOf(m, q, ccw, it, tp, tq);
    SideCoupling(m, tp, Dir(ccw, it, tq, q.s1, q.s3));
    SideCoupling(m, tq, Dir(ccw, it, tp, q.s3, q.s1));
    CouplingOfTwo(m, it, tp, tq);
    if ccw {
      CotangentsBend(p0, p1, p2, p3);
    } else {
      CotangentsBend(p0, p3, p2, p1);
    }
  }

  // ------------------------------------------------------ what is not Delaunay

  /** The tests flip() makes before it asks ck_flip. */
  ghost predicate Wanted(m: Mesh, e: int)
    requires Sound(m)
  {
    && 0 <= e < |m.edg| && |m.edg[e].ele| == 2
    && SameRegion(m, m.edg[e].ele[0], m.edg[e].ele[1]) && Coupling(m, e) < 0.0
  }

  predicate SameRegion(m: Mesh, t: int, u: int) {
    0 <= t < |m.tri| && 0 <= u < |m.tri| && m.tri[t].reg == m.tri[u].reg
  }

  /** ck_flip never refuses what flip() asks it: where the coupling is negative the
      quadrilateral is convex. */
  lemma CkFlipNeverRefuses(m: Mesh, it: int, tp: int, tq: int)
    requires Sound(m) && Joins(m, it, tp, tq) && Coupling(m, it) < 0.0
    ensures SlotsFound(m, it, tp, tq) && CkFlip(m, it, tp, tq)
  {
    var ccw := QuadFacts(m, it, tp, tq);
    var q := QuadOf(m, it, tp, tq);
    CouplingBends(m, q, ccw, it, tp, tq);
    CkFlipIsConvexity(m, q, ccw, it, tp, tq);
    var p0, p1, p2, p3 := At(m, q.s0), At(m, q.s1), At(m, q.s2), At(m, q.s3);
    if ccw {
      BendIsConvex(p0, p1, p2, p3);
    } else {
      BendIsConvex(p0, p3, p2, p1);
      CrossRotates(p0, p3, p2);
      CrossRotates(p2, p1, p0);
      CrossRotates(p2, p0, p3);
      CrossRotates(p0, p2, p1);
    }
  }

  ghost predicate Circumscribed(m: Mesh, t: int, c: Point)
    requires Shaped(m) && 0 <= t < |m.tri|
  {
    var x := m.tri[t];
    && TriShaped(m, x)
    && Dist2(c, At(m, x.nd[0])) == Dist2(c, At(m, x.nd[1])) == Dist2(c, At(m, x.nd[2]))
  }

  /** Node n does not lie strictly inside the circle around triangle t. */
  ghost predicate Outside(m: Mesh, t: int, n: int)
    requires Shaped(m) && 0 <= t < |m.tri| && 0 <= n < |m.nd|
  {
    forall c :: Circumscribed(m, t, c) ==> Dist2(c, At(m, n)) >= Dist2(c, At(m, m.tri[t].nd[0]))
  }

  /** Of two triangles of one region neither has the other's apex inside its
      circle. */
  ghost predicate LocallyDelaunay(m: Mesh, e: int)
    requires Sound(m) && 0 <= e < |m.edg|
  {
    |m.edg[e].ele| == 2 ==>
      var t, u := m.edg[e].ele[0], m.edg[e].ele[1];
      && Faces(m, t, e) && Faces(m, u, e)
      && (SameRegion(m, t, u) ==> Outside(m, t, Apex(m, u, e)) && Outside(m, u, Apex(m, t, e)))
  }

  /** One of the two circles. */
  lemma OutsideMeansNoBend(m: Mesh, t: int, p0: Point, p1: Point, p2: Point, p3: Point, n: int)
    requires Shaped(m) && 0 <= t < |m.tri| && TriShaped(m, m.tri[t]) && 0 <= n < |m.nd| && At(m, n) == p2
    requires Cross(p0, p1, p3) > 0.0
    requires forall k :: 0 <= k < 3 ==> At(m, m.tri[t].nd[k]) in {p0, p1, p3}
    requires exists k :: 0 <= k < 3 && At(m, m.tri[t].nd[k]) == p0
    requires exists k :: 0 <= k < 3 && At(m, m.tri[t].nd[k]) == p1
    requires exists k :: 0 <= k < 3 && At(m, m.tri[t].nd[k]) == p3
    ensures Outside(m, t, n) <==> Bend(p0, p1, p2, p3) >= 0.0
  {
    forall c | Circumscribed(m, t, c)
      ensures Dist2(c, p2) >= Dist2(c, At(m, m.tri[t].nd[0])) <==> Bend(p0, p1, p2, p3) >= 0.0
    {
      InsideTheCircle(p0, p1, p2, p3, c);
    }
    var c := CentreOf(p0, p1, p3);
    assert Circumscribed(m, t, c);
  }

  /** flip() wants to turn exactly the edges that are not Delaunay. */
  lemma WantedIsNotDelaunay(m: Mesh, e: int)
    requires Sound(m) && 0 <= e < |m.edg|
    ensures Wanted(m, e) <==> !LocallyDelaunay(m, e)
  {
    if |m.edg[e].ele| == 2 {
      var tp, tq := m.edg[e].ele[0], m.edg[e].ele[1];
      assert Joins(m, e, tp, tq);
      var ccw := QuadFacts(m, e, tp, tq);
      var q := QuadOf(m, e, tp, tq);
      CouplingBends(m, q, ccw, e, tp, tq);
      ApexesOf(m, q, ccw, e, tp, tq);
      CirclesOf(m, q, ccw, e, tp, tq);
    }
  }

  lemma CirclesOf(m: Mesh, q: Quad, ccw: bool, it: int, tp: int, tq: int)
    requires Before(m, q, ccw, it, tp, tq)
    ensures Outside(m, tp, q.s2) <==> QuadBend(m, q, ccw) >= 0.0
    ensures Outside(m, tq, q.s0) <==> QuadBend(m, q, ccw) >= 0.0
  {
    var p0, p1, p2, p3 := At(m, q.s0), At(m, q.s1), At(m, q.s2), At(m, q.s3);
    CornersOf(m, q, ccw, it, tp, tq);
    assert TriShaped(m, m.tri[tp]) && TriShaped(m, m.tri[tq]);
    assert q.s0 in m.tri[tp].nd && q.s1 in m.tri[tp].nd && q.s3 in m.tri[tp].nd;
    assert q.s2 in m.tri[tq].nd && q.s1 in m.tri[tq].nd && q.s3 in m.tri[tq].nd;
    forall k | 0 <= k < 3 ensures At(m, m.tri[tp].nd[k]) in {p0, p1, p3} && At(m, m.tri[tq].nd[k]) in {p2, p1, p3} {
      assert m.tri[tp].nd[k] in m.tri[tp].nd && m.tri[tq].nd[k] in m.tri[tq].nd;
    }
    if ccw {
      BendBothWays(p0, p1, p2, p3);
      OutsideMeansNoBend(m, tp, p0, p1, p2, p3, q.s2);
      OutsideMeansNoBend(m, tq, p2, p3, p0, p1, q.s0);
    } else {
      BendBothWays(p0, p3, p2, p1);
      OutsideMeansNoBend(m, tp, p0, p3, p2, p1, q.s2);
      OutsideMeansNoBend(m, tq, p2, p1, p0, p3, q.s0);
    }
  }

  // ------------------------------------------------------- the lifted surface

  function TriVolume(m: Mesh, t: int): real
    requires Shaped(m) && 0 <= t < |m.tri|
  {
    var x := m.tri[t];
    assert TriShaped(m, x);
    Volume(At(m, x.nd[0]), At(m, x.nd[1]), At(m, x.nd[2]))
  }

  function Volumes(m: Mesh): (v: seq<real>)
    requires Shaped(m)
    ensures |v| == |m.tri| && forall t :: 0 <= t < |v| ==> v[t] == TriVolume(m, t)
  {
    seq(|m.tri|, t requires 0 <= t < |m.tri| => TriVolume(m, t))
  }

  function Sum(v: seq<real>): real {
    if v == [] then 0.0 else Sum(v[..|v| - 1]) + v[|v| - 1]
  }

  /** The surface of the triangles lifted onto a paraboloid. */
  function Energy(m: Mesh): real
    requires Shaped(m)
  {
    Sum(Volumes(m))
  }

  lemma {:induction false} SumSet(v: seq<real>, t: nat, x: real)
    requires t < |v|
    ensures Sum(v[t := x]) == Sum(v) - v[t] + x
  {
    var n := |v| - 1;
    if t < n {
      SumSet(v[..n], t, x);
      assert v[t := x][..n] == v[..n][t := x];
    } else {
      assert v[t := x][..n] == v[..n];
    }
  }

  lemma SumShift(v: seq<real>, v': seq<real>, tp: nat, tq: nat)
    requires |v| == |v'| && tp < |v| && tq < |v| && tp != tq
    requires forall t :: 0 <= t < |v| && t != tp && t != tq ==> v'[t] == v[t]
    ensures Sum(v') == Sum(v) + (v'[tp] + v'[tq]) - (v[tp] + v[tq])
  {
    SumSet(v, tp, v'[tp]);
    SumSet(v[tp := v'[tp]], tq, v'[tq]);
    assert v' == v[tp := v'[tp]][tq := v'[tq]];
  }

  lemma VolumeRotates(a: Point, b: Point, c: Point)
    ensures Volume(a, b, c) == Volume(b, c, a)
  {
    CrossRotates(a, b, c);
  }

  lemma SideVolume(m: Mesh, t: int, s: Side)
    requires Sound(m) && 0 <= t < |m.tri| && TriShaped(m, m.tri[t]) && Has(m.tri[t], s)
    ensures s.edge in m.tri[t].edg && 0 <= s.from < |m.nd| && 0 <= s.to < |m.nd| && 0 <= Apex(m, t, s.edge) < |m.nd|
    ensures TriVolume(m, t) == Volume(At(m, Apex(m, t, s.edge)), At(m, s.from), At(m, s.to))
  {
    EdgesDiffer(m, t);
    var x := m.tri[t];
    VolumeRotates(At(m, x.nd[0]), At(m, x.nd[1]), At(m, x.nd[2]));
    VolumeRotates(At(m, x.nd[1]), At(m, x.nd[2]), At(m, x.nd[0]));
  }

  lemma VolumesAfter(m: Mesh, m': Mesh, q: Quad, ccw: bool, it: int, tp: int, tq: int)
    requires Before(m, q, ccw, it, tp, tq) && After(m, m', q, ccw, it, tp, tq) && Shaped(m')
    ensures TriVolume(m', tp) + TriVolume(m', tq) == TriVolume(m, tp) + TriVolume(m, tq) + QuadBend(m, q, ccw)
  {
    var p0, p1, p2, p3 := At(m, q.s0), At(m, q.s1), At(m, q.s2), At(m, q.s3);
    ApexesOf(m, q, ccw, it, tp, tq);
    SideVolume(m, tp, Dir(ccw, it, tq, q.s1, q.s3));
    SideVolume(m, tq, Dir(ccw, it, tp, q.s3, q.s1));
    if ccw {
      VolumeChange(p0, p1, p2, p3);
    } else {
      VolumeChange(p0, p3, p2, p1);
      VolumeRotates(p0, p2, p1);
      VolumeRotates(p2, p0, p3);
    }
  }

  lemma OtherVolumes(m: Mesh, m': Mesh, q: Quad, ccw: bool, it: int, tp: int, tq: int, t: int)
    requires Before(m, q, ccw, it, tp, tq) && After(m, m', q, ccw, it, tp, tq) && Shaped(m')
    requires 0 <= t < |m.tri| && t != tp && t != tq
    ensures TriVolume(m', t) == TriVolume(m, t)
  {
    assert TriShaped(m, m.tri[t]) && TriShaped(m', m'.tri[t]) && Patched(m, m', q, tp, tq, t);
  }

  /** Every flip lowers the lifted surface, so no arrangement of the triangles
      comes back. */
  lemma FlipLowers(m: Mesh, it: int, tp: int, tq: int)
    requires Sound(m) && Joins(m, it, tp, tq) && Coupling(m, it) < 0.0
    ensures SlotsFound(m, it, tp, tq) && Sound(Flip(m, it, tp, tq))
    ensures Energy(Flip(m, it, tp, tq)) < Energy(m)
  {
    CkFlipNeverRefuses(m, it, tp, tq);
    FlipIsSoundExactlyWhenChecked(m, it, tp, tq);
    var ccw := QuadFacts(m, it, tp, tq);
    var q := QuadOf(m, it, tp, tq);
    var m' := Flip(m, it, tp, tq);
    CkFlipIsConvexity(m, q, ccw, it, tp, tq);
    FlipTriView(m, q, ccw, it, tp, tq, m');
    FlipEdgView(m, q, ccw, it, tp, tq, m');
    FlipNdView(m, q, ccw, it, tp, tq, m');
    CouplingBends(m, q, ccw, it, tp, tq);
    VolumesAfter(m, m', q, ccw, it, tp, tq);
    forall t | 0 <= t < |m.tri| && t != tp && t != tq ensures Volumes(m')[t] == Volumes(m)[t] {
      OtherVolumes(m, m', q, ccw, it, tp, tq, t);
    }
    SumShift(Volumes(m), Volumes(m'), tp, tq);
  }
}
