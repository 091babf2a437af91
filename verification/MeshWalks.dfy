/** From edge to edge: in a mesh whose edges are all Delaunay no corner that can be
    walked to lies inside the circle around a triangle. */
module MeshWalks {
  import opened Plane
  import opened PlaneGeometry
  import opened CircumCircles
  import opened MeshTables
  import opened MeshFlip
  import opened MeshDelaunay
  import opened MeshFlipRuns

  /** Edge e, inside one region, leads from triangle t to triangle u. */
  ghost predicate Leads(m: Mesh, t: int, e: int, u: int) {
    && 0 <= e < |m.edg| && (m.edg[e].ele == [t, u] || m.edg[e].ele == [u, t])
    && Faces(m, t, e) && Faces(m, u, e) && SameRegion(m, t, u)
  }

  /** The point lies strictly beyond edge e of triangle t. */
  ghost predicate Beyond(m: Mesh, t: int, e: int, x: Point)
    requires Faces(m, t, e) && Shaped(m)
  {
    var s := SideAt(m.tri[t], Slot(m.tri[t].edg, e));
    Cross(At(m, s.from), At(m, s.to), x) < 0.0
  }

  /** A walk from triangle to triangle in which every step is towards x. */
  ghost predicate Walks(m: Mesh, ts: seq<int>, es: seq<int>, x: Point)
    requires Shaped(m)
  {
    && |ts| == |es| + 1
    && forall i :: 0 <= i < |es| ==> Leads(m, ts[i], es[i], ts[i + 1]) && Beyond(m, ts[i], es[i], x)
  }

  /** x does not lie strictly inside the circle around triangle t. */
  ghost predicate PointOutside(m: Mesh, t: int, x: Point)
    requires Shaped(m) && 0 <= t < |m.tri|
  {
    forall c :: Circumscribed(m, t, c) ==> Dist2(c, x) >= Dist2(c, At(m, m.tri[t].nd[0]))
  }

  lemma OnCircle(m: Mesh, t: int, c: Point, k: nat)
    requires Shaped(m) && 0 <= t < |m.tri| && Circumscribed(m, t, c) && k < 3
    ensures Dist2(c, At(m, m.tri[t].nd[k])) == Dist2(c, At(m, m.tri[t].nd[0]))
  {
  }

  /** The two triangles at an edge, and the two ends of the edge. */
  lemma Across(m: Mesh, t: int, e: int, u: int) returns (j: nat, k: nat)
    requires Sound(m) && Leads(m, t, e, u)
    ensures j < 3 && k < 3 && j == Slot(m.tri[t].edg, e) && k == Slot(m.tri[u].edg, e)
    ensures m.tri[u].nd[(k + 1) % 3] == m.tri[t].nd[(j + 2) % 3] && m.tri[u].nd[(k + 2) % 3] == m.tri[t].nd[(j + 1) % 3]
    ensures Apex(m, u, e) == m.tri[u].nd[k]
  {
    if m.edg[e].ele == [t, u] {
      j, k := Meet(m, e, t, u);
    } else {
      k, j := Meet(m, e, u, t);
    }
    EdgesDiffer(m, t);
    EdgesDiffer(m, u);
  }

  /** One step towards x: outside the next circle means outside this one. */
  lemma StepOutside(m: Mesh, t: int, e: int, u: int, x: Point)
    requires Sound(m) && Leads(m, t, e, u) && LocallyDelaunay(m, e) && Beyond(m, t, e, x) && PointOutside(m, u, x)
    ensures PointOutside(m, t, x)
  {
    var j, k := Across(m, t, e, u);
    assert TriOk(m, u) && TriShaped(m, m.tri[u]) && TriShaped(m, m.tri[t]);
    var p1, p3, p2 := At(m, m.tri[t].nd[(j + 1) % 3]), At(m, m.tri[t].nd[(j + 2) % 3]), At(m, m.tri[u].nd[k]);
    SideOfTriangle(m, m.tri[u], k);
    CrossRotates(p2, p3, p1);
    CrossRotates(p3, p1, p2);
    var d := CentreOf(p2, p3, p1);
    assert Circumscribed(m, u, d) by {
      assert k == 0 || k == 1 || k == 2;
    }
    assert Outside(m, t, Apex(m, u, e));
    forall c | Circumscribed(m, t, c) ensures Dist2(c, x) >= Dist2(c, At(m, m.tri[t].nd[0])) {
      OnCircle(m, t, c, (j + 1) % 3);
      OnCircle(m, t, c, (j + 2) % 3);
      OnCircle(m, u, d, (k + 2) % 3);
      PowerBeyond(c, d, p1, p3, p2, x);
    }
  }

  /** Where every edge is Delaunay, a corner at the end of a walk towards it lies
      outside, or on, the circle around the triangle the walk starts from. */
  lemma {:induction false} NoneInside(m: Mesh, ts: seq<int>, es: seq<int>, n: int)
    requires Sound(m) && AllDelaunay(m) && 0 <= n < |m.nd| && Walks(m, ts, es, At(m, n))
    requires var t := ts[|ts| - 1]; 0 <= t < |m.tri| && n in m.tri[t].nd
    ensures 0 <= ts[0] < |m.tri| && Outside(m, ts[0], n)
    decreases |es|
  {
    var x := At(m, n);
    if es == [] {
      forall c | Circumscribed(m, ts[0], c) ensures Dist2(c, x) >= Dist2(c, At(m, m.tri[ts[0]].nd[0])) {
        assert TriShaped(m, m.tri[ts[0]]);
        var k: nat :| k < 3 && m.tri[ts[0]].nd[k] == n;
        OnCircle(m, ts[0], c, k);
      }
    } else {
      assert Leads(m, ts[0], es[0], ts[0 + 1]) && Beyond(m, ts[0], es[0], x);
      forall i | 0 <= i < |es| - 1
        ensures Leads(m, ts[1..][i], es[1..][i], ts[1..][i + 1]) && Beyond(m, ts[1..][i], es[1..][i], x)
      {
        assert Leads(m, ts[i + 1], es[i + 1], ts[i + 1 + 1]);
      }
      NoneInside(m, ts[1..], es[1..], n);
      assert PointOutside(m, ts[1], x);
      assert LocallyDelaunay(m, es[0]);
      StepOutside(m, ts[0], es[0], ts[1], x);
    }
  }
}
