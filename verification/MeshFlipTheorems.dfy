/** The theorems about one edge flip: ck_flip is its exact guard, and an allowed
    flip inside a region moves no area. */
module MeshFlipTheorems {
  import opened PlaneGeometry
  import opened MeshTables
  import opened MeshFlip
  import opened MeshFlipSound

  // ---------------------------------------------------------- main theorems

  /** Without any geometry: the two triangles are rewritten as planned. */
  lemma FlipInner(m: Mesh, q: Quad, ccw: bool, it: int, tp: int, tq: int)
    requires Before(m, q, ccw, it, tp, tq)
    ensures q.n12 != tp && q.n12 != tq && q.n30 != tp && q.n30 != tq
  {
    assert TriShaped(m, m.tri[tp]) && TriShaped(m, m.tri[tq]);
    assert TriOk(m, tp) && TriOk(m, tq);
    SideEnds(m, tp, Dir(ccw, q.e30, q.n30, q.s3, q.s0));
    SideEnds(m, tq, Dir(ccw, q.e12, q.n12, q.s1, q.s2));
  }

  /** The rewritten triangles, each turned the way its area says. */
  lemma FlipMakes(m: Mesh, q: Quad, ccw: bool, it: int, tp: int, tq: int, m': Mesh)
    requires Before(m, q, ccw, it, tp, tq) && Sound(m')
    requires m'.tri == FlipTri(m, q, it, tp, tq) && m'.nd == FlipNd(m, q, it, tp, tq) && m'.pt == m.pt
    ensures var a, b := Cross(At(m, q.s0), At(m, q.s1), At(m, q.s2)), Cross(At(m, q.s2), At(m, q.s3), At(m, q.s0));
            && a != 0.0 && b != 0.0
            && Made(m'.tri[tp], a > 0.0, q.s0, q.s1, q.s2, q.e12, q.n12, it, tq, q.e01, q.n01)
            && Made(m'.tri[tq], b > 0.0, q.s2, q.s3, q.s0, q.e30, q.n30, it, tp, q.e23, q.n23)
            && m'.nd[q.s0].pt == m.nd[q.s0].pt && m'.nd[q.s2].pt == m.nd[q.s2].pt
  {
    FlipInner(m, q, ccw, it, tp, tq);
    FlipTriInner(m, q, it, tp, tq);
    QuadDistinct(m, q, ccw, it, tp, tq);
    FlipNdEntries(m, q, it, tp, tq);
    TurnedMakes(m, m', tp, m.tri[tp].reg, q.s0, q.s1, q.s2, q.e12, q.n12, it, tq, q.e01, q.n01);
    TurnedMakes(m, m', tq, m.tri[tq].reg, q.s2, q.s3, q.s0, q.e30, q.n30, it, tp, q.e23, q.n23);
  }

  lemma TurnedMakes(
    m: Mesh, m': Mesh, t: int, reg: int, a: int, b: int, c: int, e0: int, n0: int, e1: int, n1: int, e2: int, n2: int)
    requires Shaped(m) && Sound(m') && 0 <= t < |m'.tri| && |m'.nd| == |m.nd| && m'.pt == m.pt
    requires 0 <= a < |m.nd| && 0 <= b < |m.nd| && 0 <= c < |m.nd| && e0 != e1 && e1 != e2 && e0 != e2
    requires m'.nd[a].pt == m.nd[a].pt && m'.nd[b].pt == m.nd[b].pt && m'.nd[c].pt == m.nd[c].pt
    requires m'.tri[t] == Clockwise(Tri([a, b, c], [n0, n1, n2], [e0, e1, e2], reg), At(m, a), At(m, b), At(m, c))
    ensures var area := Cross(At(m, a), At(m, b), At(m, c));
            area != 0.0 && Made(m'.tri[t], area > 0.0, a, b, c, e0, n0, e1, n1, e2, n2)
  {
    assert TriShaped(m', m'.tri[t]) && TriOk(m', t);
    FlatStaysFlat(m, m', a, b, c, m'.tri[t]);
    CrossRotates(At(m, a), At(m, b), At(m, c));
    ClockwiseMakes(m, Cross(At(m, a), At(m, b), At(m, c)) > 0.0, reg, a, b, c, e0, n0, e1, n1, e2, n2);
  }

  /** Two triangles that run through their common side in the same direction
      cannot be part of a sound mesh. */
  lemma SameTurn(m': Mesh, q: Quad, c1: bool, c2: bool, it: int, tp: int, tq: int)
    requires Sound(m') && 0 <= tp < |m'.tri| && 0 <= tq < |m'.tri| && tp != tq
    requires Made(m'.tri[tp], c1, q.s0, q.s1, q.s2, q.e12, q.n12, it, tq, q.e01, q.n01)
    requires Made(m'.tri[tq], c2, q.s2, q.s3, q.s0, q.e30, q.n30, it, tp, q.e23, q.n23)
    requires 0 <= q.s0 < |m'.nd| && 0 <= q.s2 < |m'.nd| && m'.nd[q.s0].pt != m'.nd[q.s2].pt
    ensures c1 == c2
  {
    assert TriShaped(m', m'.tri[tp]) && TriShaped(m', m'.tri[tq]) && TriOk(m', tq);
    var s := Dir(c1, it, tq, q.s2, q.s0);
    SideEnds(m', tp, s);
    var j := MirrorSlot(m', tp, s);
    PointsBack(m'.tri[tq], c2, q.s2, q.s3, q.s0, q.e30, q.n30, it, tp, q.e23, q.n23, j);
  }

  /** The only side of a made triangle that points at n1 is the middle one. */
  lemma PointsBack(
    x: Tri, ccw: bool, a: int, b: int, c: int, e0: int, n0: int, e1: int, n1: int, e2: int, n2: int, j: nat)
    requires Made(x, ccw, a, b, c, e0, n0, e1, n1, e2, n2) && DistinctNb(x) && n1 >= 0
    requires j < 3 && SideAt(x, j).nb == n1
    ensures SideAt(x, j) == Dir(ccw, e1, n1, c, a)
  {
  }

  lemma SoundFlipIsConvex(m: Mesh, q: Quad, ccw: bool, it: int, tp: int, tq: int, m': Mesh)
    requires Before(m, q, ccw, it, tp, tq) && Sound(m')
    requires m'.tri == FlipTri(m, q, it, tp, tq) && m'.nd == FlipNd(m, q, it, tp, tq) && m'.pt == m.pt
    ensures Convex(m, q, ccw)
  {
    var p0, p1, p2, p3 := At(m, q.s0), At(m, q.s1), At(m, q.s2), At(m, q.s3);
    FlipMakes(m, q, ccw, it, tp, tq, m');
    CkFlipIsConvexity(m, q, ccw, it, tp, tq);
    var a, b := Cross(p0, p1, p2), Cross(p2, p3, p0);
    SameTurn(m', q, a > 0.0, b > 0.0, it, tp, tq);
    QuadArea(p0, p1, p2, p3);
    CrossRotates(p0, p1, p3); CrossRotates(p2, p3, p1); CrossRotates(p2, p1, p3); CrossRotates(p0, p3, p1);
    CrossRotates(p0, p1, p2); CrossRotates(p2, p3, p0); CrossRotates(p2, p0, p3);
  }

  lemma FlatStaysFlat(m: Mesh, m': Mesh, a: int, b: int, c: int, x: Tri)
    requires Shaped(m) && Shaped(m') && TriShaped(m', x) && |m'.nd| == |m.nd| && m'.pt == m.pt
    requires 0 <= a < |m.nd| && 0 <= b < |m.nd| && 0 <= c < |m.nd|
    requires m'.nd[a].pt == m.nd[a].pt && m'.nd[b].pt == m.nd[b].pt && m'.nd[c].pt == m.nd[c].pt
    requires x.nd == [a, b, c] || x.nd == [a, c, b]
    ensures Cross(At(m, a), At(m, b), At(m, c)) == 0.0 ==> Area2(m', x) == 0.0
  {
    CrossRotates(At(m, a), At(m, b), At(m, c));
  }

  /** ck_flip is the exact guard of tri_flip: on a sound mesh the flip leaves the
      tables sound if and only if ck_flip returns 1. */
  lemma FlipIsSoundExactlyWhenChecked(m: Mesh, it: int, tp: int, tq: int)
    requires Sound(m) && Joins(m, it, tp, tq)
    ensures SlotsFound(m, it, tp, tq)
    ensures Sound(Flip(m, it, tp, tq)) <==> CkFlip(m, it, tp, tq)
  {
    var ccw := QuadFacts(m, it, tp, tq);
    var q := QuadOf(m, it, tp, tq);
    var m' := Flip(m, it, tp, tq);
    CkFlipIsConvexity(m, q, ccw, it, tp, tq);
    if Convex(m, q, ccw) {
      FlipTriView(m, q, ccw, it, tp, tq, m');
      FlipEdgView(m, q, ccw, it, tp, tq, m');
      FlipNdView(m, q, ccw, it, tp, tq, m');
      AfterIsSound(m, m', q, ccw, it, tp, tq);
    }
    if Sound(m') {
      SoundFlipIsConvex(m, q, ccw, it, tp, tq, m');
    }
  }

  function Areas(m: Mesh): (a: seq<real>)
    requires Shaped(m)
    ensures |a| == |m.tri| && forall t :: 0 <= t < |a| ==> TriShaped(m, m.tri[t]) && a[t] == Area2(m, m.tri[t])
  {
    seq(|m.tri|, t requires 0 <= t < |m.tri| => assert TriShaped(m, m.tri[t]); Area2(m, m.tri[t]))
  }

  function RegionSum(tri: seq<Tri>, a: seq<real>, k: nat, reg: int): real
    requires k <= |tri| == |a|
  {
    if k == 0 then 0.0 else RegionSum(tri, a, k - 1, reg) + (if tri[k-1].reg == reg then a[k-1] else 0.0)
  }

  /** Twice the area of the triangles of a region. */
  function RegionArea(m: Mesh, reg: int): real
    requires Shaped(m)
  {
    RegionSum(m.tri, Areas(m), |m.tri|, reg)
  }

  /** What one allowed flip leaves alone. */
  ghost predicate Preserves(m: Mesh, m': Mesh)
    requires Shaped(m) && Shaped(m')
  {
    && |m'.tri| == |m.tri| && |m'.edg| == |m.edg| && |m'.nd| == |m.nd| && m'.pt == m.pt
    && (forall t :: 0 <= t < |m.tri| ==> m'.tri[t].reg == m.tri[t].reg)
    && (forall n :: 0 <= n < |m.nd| ==> m'.nd[n].pt == m.nd[n].pt)
    && (forall reg :: RegionArea(m', reg) == RegionArea(m, reg))
  }

  lemma {:induction false} RegionSumShift(
    tri: seq<Tri>, tri': seq<Tri>, a: seq<real>, a': seq<real>, tp: int, tq: int, k: nat, reg: int)
    requires k <= |tri| == |tri'| == |a| == |a'| && 0 <= tp < |tri| && 0 <= tq < |tri| && tp != tq
    requires forall t :: 0 <= t < |tri| ==> tri'[t].reg == tri[t].reg
    requires forall t :: 0 <= t < |tri| && t != tp && t != tq ==> a'[t] == a[t]
    ensures RegionSum(tri', a', k, reg) - RegionSum(tri, a, k, reg)
         == (if tp < k && tri[tp].reg == reg then a'[tp] - a[tp] else 0.0)
          + (if tq < k && tri[tq].reg == reg then a'[tq] - a[tq] else 0.0)
  {
    if k > 0 {
      RegionSumShift(tri, tri', a, a', tp, tq, k - 1, reg);
    }
  }

  lemma OthersKeep(m: Mesh, m': Mesh, q: Quad, ccw: bool, it: int, tp: int, tq: int, t: int)
    requires Before(m, q, ccw, it, tp, tq) && Shaped(m')
    requires AfterTri(m, m', q, ccw, it, tp, tq) && AfterNd(m, m', q, it, tp, tq)
    requires 0 <= t < |m.tri|
    ensures m'.tri[t].reg == m.tri[t].reg && TriShaped(m, m.tri[t]) && TriShaped(m', m'.tri[t])
    ensures t != tp && t != tq ==> Area2(m', m'.tri[t]) == Area2(m, m.tri[t])
  {
    assert TriShaped(m, m.tri[t]) && TriShaped(m', m'.tri[t]);
    if t != tp && t != tq {
      assert Patched(m, m', q, tp, tq, t);
    }
  }

  /** An allowed flip inside one region keeps that region's area, and every count. */
  lemma FlipPreserves(m: Mesh, it: int, tp: int, tq: int)
    requires Sound(m) && Joins(m, it, tp, tq)
    requires SlotsFound(m, it, tp, tq) && CkFlip(m, it, tp, tq) && m.tri[tp].reg == m.tri[tq].reg
    ensures Sound(Flip(m, it, tp, tq)) && Preserves(m, Flip(m, it, tp, tq))
  {
    FlipIsSoundExactlyWhenChecked(m, it, tp, tq);
    var ccw := QuadFacts(m, it, tp, tq);
    var q := QuadOf(m, it, tp, tq);
    var m' := Flip(m, it, tp, tq);
    CkFlipIsConvexity(m, q, ccw, it, tp, tq);
    FlipTriView(m, q, ccw, it, tp, tq, m');
    FlipNdView(m, q, ccw, it, tp, tq, m');
    AfterPreserves(m, m', q, ccw, it, tp, tq);
  }

  lemma AfterPreserves(m: Mesh, m': Mesh, q: Quad, ccw: bool, it: int, tp: int, tq: int)
    requires Before(m, q, ccw, it, tp, tq) && Shaped(m') && |m'.edg| == |m.edg|
    requires AfterTri(m, m', q, ccw, it, tp, tq) && AfterNd(m, m', q, it, tp, tq)
    requires m.tri[tp].reg == m.tri[tq].reg
    ensures Preserves(m, m')
  {
    forall t | 0 <= t < |m.tri|
      ensures m'.tri[t].reg == m.tri[t].reg && (t != tp && t != tq ==> Areas(m')[t] == Areas(m)[t])
    {
      OthersKeep(m, m', q, ccw, it, tp, tq, t);
    }
    FlipAreas(m, m', q, ccw, it, tp, tq);
    SumsKeep(m, m', tp, tq);
  }

  lemma SumsKeep(m: Mesh, m': Mesh, tp: int, tq: int)
    requires Shaped(m) && Shaped(m') && |m'.tri| == |m.tri| && 0 <= tp < |m.tri| && 0 <= tq < |m.tri| && tp != tq
    requires forall t :: 0 <= t < |m.tri| ==> m'.tri[t].reg == m.tri[t].reg
    requires forall t :: 0 <= t < |m.tri| && t != tp && t != tq ==> Areas(m')[t] == Areas(m)[t]
    requires Areas(m')[tp] + Areas(m')[tq] == Areas(m)[tp] + Areas(m)[tq] && m.tri[tp].reg == m.tri[tq].reg
    ensures forall reg :: RegionArea(m', reg) == RegionArea(m, reg)
  {
    forall reg ensures RegionArea(m', reg) == RegionArea(m, reg) {
      RegionSumShift(m.tri, m'.tri, Areas(m), Areas(m'), tp, tq, |m.tri|, reg);
    }
  }

  lemma FlipAreas(m: Mesh, m': Mesh, q: Quad, ccw: bool, it: int, tp: int, tq: int)
    requires Before(m, q, ccw, it, tp, tq) && Shaped(m')
    requires AfterTri(m, m', q, ccw, it, tp, tq) && AfterNd(m, m', q, it, tp, tq)
    ensures Area2(m', m'.tri[tp]) + Area2(m', m'.tri[tq]) == Area2(m, m.tri[tp]) + Area2(m, m.tri[tq])
  {
    var p0, p1, p2, p3 := At(m, q.s0), At(m, q.s1), At(m, q.s2), At(m, q.s3);
    if ccw {
      QuadArea(p0, p1, p2, p3);
    } else {
      QuadArea(p0, p3, p2, p1);
      CrossRotates(p0, p3, p2); CrossRotates(p2, p1, p0); CrossRotates(p2, p0, p3); CrossRotates(p0, p2, p1);
    }
    OldArea(m, tp, Dir(ccw, it, tq, q.s1, q.s3), Dir(ccw, q.e30, q.n30, q.s3, q.s0));
    OldArea(m, tq, Dir(ccw, it, tp, q.s3, q.s1), Dir(ccw, q.e12, q.n12, q.s1, q.s2));
    CrossRotates(p0, p1, p3); CrossRotates(p2, p3, p1); CrossRotates(p2, p1, p3); CrossRotates(p0, p3, p1);
  }

  /** The area of a triangle from two of its sides. */
  lemma OldArea(m: Mesh, t: int, a: Side, b: Side)
    requires Shaped(m) && 0 <= t < |m.tri| && TriShaped(m, m.tri[t]) && Has(m.tri[t], a) && Has(m.tri[t], b)
    requires a.edge != b.edge
    ensures 0 <= a.from < |m.nd| && 0 <= a.to < |m.nd| && 0 <= b.from < |m.nd| && 0 <= b.to < |m.nd|
    ensures (a.to == b.from && Area2(m, m.tri[t]) == Cross(At(m, a.from), At(m, a.to), At(m, b.to)))
         || (b.to == a.from && Area2(m, m.tri[t]) == Cross(At(m, b.from), At(m, b.to), At(m, a.to)))
  {
    var x := m.tri[t];
    var j := if a == SideAt(x, 0) then 0 else if a == SideAt(x, 1) then 1 else 2;
    var k := if b == SideAt(x, 0) then 0 else if b == SideAt(x, 1) then 1 else 2;
    TwoSlots(m, x, j, k);
  }
}
