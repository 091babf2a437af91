/** tri_flip keeps the tables sound exactly when ck_flip allows the flip. */
module MeshFlip {
  import opened Plane
  import opened PlaneGeometry
  import opened MeshTables

  predicate Has(x: Tri, s: Side)
    requires |x.nd| == |x.nb| == |x.edg| == 3
  {
    s == SideAt(x, 0) || s == SideAt(x, 1) || s == SideAt(x, 2)
  }

  /** A side of the quadrilateral, in the direction the triangles run. */
  function Dir(ccw: bool, edge: int, nb: int, a: int, b: int): Side {
    if ccw then Side(edge, nb, a, b) else Side(edge, nb, b, a)
  }

  /** x has the three sides, and they meet at its corners. */
  predicate Sides(x: Tri, a: Side, b: Side, c: Side)
    requires |x.nd| == |x.nb| == |x.edg| == 3
  {
    Has(x, a) && Has(x, b) && Has(x, c) && a.edge != b.edge && b.edge != c.edge && a.edge != c.edge
  }

  lemma SidesAreAll(x: Tri, a: Side, b: Side, c: Side, s: Side)
    requires |x.nd| == |x.nb| == |x.edg| == 3
    requires Sides(x, a, b, c) && Has(x, s)
    ensures s == a || s == b || s == c
  {
  }

  /** Everything the proofs use about the two triangles before the flip. */
  ghost predicate Before(m: Mesh, q: Quad, ccw: bool, it: int, tp: int, tq: int) {
    && Sound(m) && QuadInRange(m, q) && 0 <= it < |m.edg|
    && (forall u :: u in m.edg[it].ele <==> u == tp || u == tq)
    && 0 <= tp < |m.tri| && 0 <= tq < |m.tri| && tp != tq
    && SameEnds(m.edg[it], q.s1, q.s3)
    && Sides(m.tri[tp], Dir(ccw, it, tq, q.s1, q.s3), Dir(ccw, q.e30, q.n30, q.s3, q.s0),
        Dir(ccw, q.e01, q.n01, q.s0, q.s1))
    && Sides(m.tri[tq], Dir(ccw, it, tp, q.s3, q.s1), Dir(ccw, q.e12, q.n12, q.s1, q.s2),
        Dir(ccw, q.e23, q.n23, q.s2, q.s3))
    && var p0, p1, p2, p3 := At(m, q.s0), At(m, q.s1), At(m, q.s2), At(m, q.s3);
       if ccw then Cross(p0, p1, p3) > 0.0 && Cross(p2, p3, p1) > 0.0
       else Cross(p0, p3, p1) > 0.0 && Cross(p2, p1, p3) > 0.0
  }

  /** The corner opposite a side, and the area, of a triangle with that side. */
  lemma SideOfTriangle(m: Mesh, x: Tri, j: nat)
    requires Shaped(m) && TriShaped(m, x) && j < 3
    ensures var s := SideAt(x, j); Area2(m, x) == Cross(At(m, x.nd[j]), At(m, s.from), At(m, s.to))
  {
    CrossRotates(At(m, x.nd[0]), At(m, x.nd[1]), At(m, x.nd[2]));
    CrossRotates(At(m, x.nd[1]), At(m, x.nd[2]), At(m, x.nd[0]));
  }

  /** The slot of the shared edge, in one of its two triangles. */
  lemma SharedSlot(m: Mesh, it: int, t: int, u: int) returns (j: nat)
    requires Sound(m) && 0 <= it < |m.edg| && t != u
    requires t in m.edg[it].ele && u in m.edg[it].ele
    ensures j < 3 && 0 <= t < |m.tri|
    ensures m.tri[t].edg[j] == it && m.tri[t].nb[j] == u && u in m.tri[t].nb && Slot(m.tri[t].nb, u) == j
    ensures SameEnds(m.edg[it], m.tri[t].nd[(j + 1) % 3], m.tri[t].nd[(j + 2) % 3])
  {
    assert EdgeOk(m, it);
    assert TriOk(m, t) && TriShaped(m, m.tri[t]);
    var x := m.tri[t];
    j := if x.edg[0] == it then 0 else if x.edg[1] == it then 1 else 2;
    assert it in x.edg;
    assert SideOk(m, t, SideAt(x, j));
    assert TriOk(m, u);
  }

  lemma EndsDiffer(m: Mesh, t: int, j: nat)
    requires Sound(m) && 0 <= t < |m.tri| && j < 3
    ensures TriShaped(m, m.tri[t])
    ensures var s := SideAt(m.tri[t], j);
            && 0 <= s.from < |m.nd| && 0 <= s.to < |m.nd| && At(m, s.from) != At(m, s.to)
  {
    assert TriShaped(m, m.tri[t]) && TriOk(m, t);
    SideOfTriangle(m, m.tri[t], j);
    var s := SideAt(m.tri[t], j);
    Degenerate(At(m, m.tri[t].nd[j]), At(m, s.from), At(m, s.to));
  }

  lemma Degenerate(a: Point, b: Point, c: Point)
    requires Cross(a, b, c) != 0.0
    ensures a != b && b != c && a != c
  {
  }

  /** The side facing side j of t, when it is known to lie in slot k of u. */
  lemma FacingSlot(m: Mesh, t: int, j: nat, u: int, k: nat)
    requires Sound(m) && 0 <= t < |m.tri| && 0 <= u < |m.tri| && j < 3 && k < 3
    requires TriShaped(m, m.tri[t]) && TriShaped(m, m.tri[u])
    requires m.tri[t].nb[j] == u && m.tri[u].nb[k] == t
    ensures Mirrors(m, t, SideAt(m.tri[t], j), SideAt(m.tri[u], k))
  {
    assert TriOk(m, t) && TriOk(m, u);
    var s := SideAt(m.tri[t], j);
    assert SideOk(m, t, s);
    assert Faced(m, t, s);
  }

  /** Across a shared edge the two triangles run in opposite directions. */
  lemma Opposed(m: Mesh, tp: int, tq: int, jp: nat, jq: nat)
    requires Sound(m) && 0 <= tp < |m.tri| && 0 <= tq < |m.tri| && tp != tq && jp < 3 && jq < 3
    requires TriShaped(m, m.tri[tp]) && TriShaped(m, m.tri[tq])
    requires var x, y := m.tri[tp], m.tri[tq];
             x.nb[jp] == tq && y.nb[jq] == tp && x.edg[jp] == y.edg[jq]
    ensures var r, s := SideAt(m.tri[tp], jp), SideAt(m.tri[tq], jq); s.from == r.to && s.to == r.from
  {
    FacingSlot(m, tp, jp, tq, jq);
    EndsDiffer(m, tp, jp);
    var r, s := SideAt(m.tri[tp], jp), SideAt(m.tri[tq], jq);
    assert SameEnds(m.edg[r.edge], r.from, r.to) by { assert TriOk(m, tp) && SideOk(m, tp, r); }
    assert SameEnds(m.edg[r.edge], s.from, s.to) by { assert TriOk(m, tq) && SideOk(m, tq, s); }
  }

  /** The two triangles of an edge, with the slots in which they meet. */
  lemma Meet(m: Mesh, it: int, tp: int, tq: int) returns (jp: nat, jq: nat)
    requires Sound(m) && Joins(m, it, tp, tq)
    ensures SlotsFound(m, it, tp, tq) && tp != tq && jp < 3 && jq < 3
    ensures TriShaped(m, m.tri[tp]) && TriShaped(m, m.tri[tq])
    ensures var x, y := m.tri[tp], m.tri[tq];
            && x.edg[jp] == y.edg[jq] == it && x.nb[jp] == tq && y.nb[jq] == tp
            && Slot(x.nb, tq) == jp && Slot(y.nb, tp) == jq
            && y.nd[(jq + 1) % 3] == x.nd[(jp + 2) % 3] && y.nd[(jq + 2) % 3] == x.nd[(jp + 1) % 3]
            && SameEnds(m.edg[it], x.nd[(jp + 1) % 3], x.nd[(jp + 2) % 3])
  {
    assert EdgeOk(m, it) && EdgeShaped(m, m.edg[it]);
    var ele := m.edg[it].ele;
    assert ele[0] == tp && ele[1] == tq;
    assert tp in ele && tq in ele && tp != tq;
    jp := SharedSlot(m, it, tp, tq);
    jq := SharedSlot(m, it, tq, tp);
    assert TriShaped(m, m.tri[tp]) && TriShaped(m, m.tri[tq]);
    Opposed(m, tp, tq, jp, jq);
    var x, y := m.tri[tp], m.tri[tq];
    assert x.nd[(jp + 1) % 3] in x.nd && x.nd[(jp + 2) % 3] in x.nd;
    assert y.nd[(jq + 1) % 3] in y.nd && y.nd[(jq + 2) % 3] in y.nd;
  }

  /** A triangle written from the slot j that lies opposite corner z: its sides
      are a b, b z and z a. */
  lemma SidesFromSlot(x: Tri, j: nat, a: int, b: int)
    requires |x.nd| == |x.nb| == |x.edg| == 3 && j < 3
    requires x.nd[0] != x.nd[1] && x.nd[1] != x.nd[2] && x.nd[0] != x.nd[2]
    requires x.nd[(j + 1) % 3] == a && x.nd[(j + 2) % 3] == b
    ensures Slot(x.nd, a) == (j + 1) % 3 && Slot(x.nd, b) == (j + 2) % 3
    ensures Has(x, Side(x.edg[j], x.nb[j], a, b))
    ensures Has(x, Side(x.edg[Slot(x.nd, a)], x.nb[Slot(x.nd, a)], b, x.nd[j]))
    ensures Has(x, Side(x.edg[Slot(x.nd, b)], x.nb[Slot(x.nd, b)], x.nd[j], a))
  {
  }

  /** The edges of a triangle are three. */
  lemma EdgesDiffer(m: Mesh, t: int)
    requires Sound(m) && 0 <= t < |m.tri|
    ensures var x := m.tri[t];
            |x.edg| == 3 && x.edg[0] != x.edg[1] && x.edg[1] != x.edg[2] && x.edg[0] != x.edg[2]
  {
    assert TriShaped(m, m.tri[t]) && TriOk(m, t);
  }

  lemma TriangleFacts(m: Mesh, t: int, j: nat, a: int, b: int)
    requires Sound(m) && 0 <= t < |m.tri| && j < 3 && TriShaped(m, m.tri[t])
    requires var x := m.tri[t]; x.nd[(j + 1) % 3] == a && x.nd[(j + 2) % 3] == b
    ensures var x := m.tri[t]; var ja, jb := Slot(x.nd, a), Slot(x.nd, b);
            && ja < 3 && jb < 3
            && Sides(x, Side(x.edg[j], x.nb[j], a, b), Side(x.edg[ja], x.nb[ja], b, x.nd[j]),
                Side(x.edg[jb], x.nb[jb], x.nd[j], a))
            && Cross(At(m, x.nd[j]), At(m, a), At(m, b)) > 0.0
  {
    var x := m.tri[t];
    SidesFromSlot(x, j, a, b);
    EdgesDiffer(m, t);
    SideOfTriangle(m, x, j);
    assert TriOk(m, t);
  }

  lemma QuadFacts(m: Mesh, it: int, tp: int, tq: int) returns (ccw: bool)
    requires Sound(m) && Joins(m, it, tp, tq)
    ensures SlotsFound(m, it, tp, tq)
    ensures Before(m, QuadOf(m, it, tp, tq), ccw, it, tp, tq)
  {
    var jp, jq := Meet(m, it, tp, tq);
    QuadOfInRange(m, it, tp, tq);
    var q := QuadOf(m, it, tp, tq);
    ccw := m.tri[tp].nd[(jp + 1) % 3] == q.s1;
    if ccw {
      TriangleFacts(m, tp, jp, q.s1, q.s3);
      TriangleFacts(m, tq, jq, q.s3, q.s1);
    } else {
      TriangleFacts(m, tp, jp, q.s3, q.s1);
      TriangleFacts(m, tq, jq, q.s1, q.s3);
    }
    assert m.edg[it].ele == [tp, tq];
  }

  // ------------------------------------------- what the geometry rules out

  ghost predicate Convex(m: Mesh, q: Quad, ccw: bool)
    requires Shaped(m) && QuadInRange(m, q)
  {
    var p0, p1, p2, p3 := At(m, q.s0), At(m, q.s1), At(m, q.s2), At(m, q.s3);
    if ccw then Cross(p0, p1, p2) > 0.0 && Cross(p2, p3, p0) > 0.0
    else Cross(p0, p2, p1) > 0.0 && Cross(p2, p0, p3) > 0.0
  }

  lemma CkFlipIsConvexity(m: Mesh, q: Quad, ccw: bool, it: int, tp: int, tq: int)
    requires Before(m, q, ccw, it, tp, tq)
    ensures CkSign(At(m, q.s0), At(m, q.s2), At(m, q.s1), At(m, q.s3)) < 0.0 <==> Convex(m, q, ccw)
    ensures At(m, q.s0) != At(m, q.s2)
  {
    var p0, p1, p2, p3 := At(m, q.s0), At(m, q.s1), At(m, q.s2), At(m, q.s3);
    if ccw {
      CkSignIsConvexity(p0, p1, p2, p3);
    } else {
      CkSignIsConvexity(p0, p3, p2, p1);
      CrossRotates(p0, p3, p2);
      CrossRotates(p2, p1, p0);
      CrossRotates(p2, p0, p3);
      CrossRotates(p0, p2, p1);
    }
  }

  /** The four corners and the five edges of the quadrilateral are different. */
  lemma QuadDistinct(m: Mesh, q: Quad, ccw: bool, it: int, tp: int, tq: int)
    requires Before(m, q, ccw, it, tp, tq)
    ensures q.s0 != q.s1 && q.s0 != q.s2 && q.s0 != q.s3 && q.s1 != q.s2 && q.s1 != q.s3 && q.s2 != q.s3
    ensures it != q.e01 && it != q.e12 && it != q.e23 && it != q.e30
    ensures q.e01 != q.e12 && q.e01 != q.e23 && q.e01 != q.e30 && q.e12 != q.e23 && q.e12 != q.e30 && q.e23 != q.e30
    ensures SameEnds(m.edg[q.e01], q.s0, q.s1) && SameEnds(m.edg[q.e12], q.s1, q.s2)
    ensures SameEnds(m.edg[q.e23], q.s2, q.s3) && SameEnds(m.edg[q.e30], q.s3, q.s0)
  {
    CkFlipIsConvexity(m, q, ccw, it, tp, tq);
    assert TriShaped(m, m.tri[tp]) && TriShaped(m, m.tri[tq]);
    assert EdgeShaped(m, m.edg[it]) && EdgeShaped(m, m.edg[q.e01]) && EdgeShaped(m, m.edg[q.e12])
        && EdgeShaped(m, m.edg[q.e23]) && EdgeShaped(m, m.edg[q.e30]);
    SideEnds(m, tp, Dir(ccw, q.e01, q.n01, q.s0, q.s1));
    SideEnds(m, tp, Dir(ccw, q.e30, q.n30, q.s3, q.s0));
    SideEnds(m, tq, Dir(ccw, q.e12, q.n12, q.s1, q.s2));
    SideEnds(m, tq, Dir(ccw, q.e23, q.n23, q.s2, q.s3));
    if ccw {
      Degenerate(At(m, q.s0), At(m, q.s1), At(m, q.s3));
      Degenerate(At(m, q.s2), At(m, q.s3), At(m, q.s1));
    } else {
      Degenerate(At(m, q.s0), At(m, q.s3), At(m, q.s1));
      Degenerate(At(m, q.s2), At(m, q.s1), At(m, q.s3));
    }
  }

  lemma SideEnds(m: Mesh, t: int, s: Side)
    requires Sound(m) && 0 <= t < |m.tri| && TriShaped(m, m.tri[t]) && Has(m.tri[t], s)
    ensures SideOk(m, t, s)
  {
    assert TriOk(m, t);
  }

  /** A triangle two of whose sides face sides s of t and r of u. */
  lemma TwoSides(m: Mesh, v: int, t: int, s: Side, u: int, r: Side)
    requires Sound(m) && 0 <= v < |m.tri| && t != u
    requires 0 <= t < |m.tri| && TriShaped(m, m.tri[t]) && Has(m.tri[t], s) && s.nb == v
    requires 0 <= u < |m.tri| && TriShaped(m, m.tri[u]) && Has(m.tri[u], r) && r.nb == v
    ensures SideOk(m, t, s) && SideOk(m, u, r)
    ensures 0 <= s.from < |m.nd| && 0 <= s.to < |m.nd| && 0 <= r.from < |m.nd| && 0 <= r.to < |m.nd|
    ensures || (At(m, r.to) == At(m, s.from) && Cross(At(m, s.to), At(m, s.from), At(m, r.from)) > 0.0)
            || (At(m, r.from) == At(m, s.to) && Cross(At(m, r.to), At(m, r.from), At(m, s.from)) > 0.0)
  {
    SideEnds(m, t, s);
    SideEnds(m, u, r);
    assert TriShaped(m, m.tri[v]) && TriOk(m, v);
    var x := m.tri[v];
    var j := MirrorSlot(m, t, s);
    var k := MirrorSlot(m, u, r);
    TwoSlots(m, x, j, k);
  }

  /** Two different sides of a triangle follow each other one way or the other. */
  lemma TwoSlots(m: Mesh, x: Tri, j: nat, k: nat)
    requires Shaped(m) && TriShaped(m, x) && j < 3 && k < 3 && j != k
    ensures var a, b := SideAt(x, j), SideAt(x, k);
            || (a.to == b.from && Area2(m, x) == Cross(At(m, a.from), At(m, a.to), At(m, b.to)))
            || (b.to == a.from && Area2(m, x) == Cross(At(m, b.from), At(m, b.to), At(m, a.to)))
  {
    if k == (j + 1) % 3 {
      Consecutive(m, x, j);
    } else {
      assert j == (k + 1) % 3;
      Consecutive(m, x, k);
    }
  }

  /** The next side starts where this one ends. */
  lemma Consecutive(m: Mesh, x: Tri, j: nat)
    requires Shaped(m) && TriShaped(m, x) && j < 3
    ensures var a, b := SideAt(x, j), SideAt(x, (j + 1) % 3);
            a.to == b.from && Area2(m, x) == Cross(At(m, a.from), At(m, a.to), At(m, b.to))
  {
    SideOfTriangle(m, x, j);
    var a := SideAt(x, j);
    CrossRotates(At(m, x.nd[j]), At(m, a.from), At(m, a.to));
  }

  lemma MirrorSlot(m: Mesh, t: int, s: Side) returns (j: nat)
    requires Shaped(m) && SideOk(m, t, s) && s.nb >= 0
    ensures j < 3 && s.nb < |m.tri| && TriShaped(m, m.tri[s.nb]) && Mirrors(m, t, s, SideAt(m.tri[s.nb], j))
    ensures var a := SideAt(m.tri[s.nb], j);
            && 0 <= a.from < |m.nd| && 0 <= a.to < |m.nd| && 0 <= s.from < |m.nd| && 0 <= s.to < |m.nd|
            && At(m, a.from) == At(m, s.to) && At(m, a.to) == At(m, s.from) && a.nb == t
  {
    assert TriShaped(m, m.tri[s.nb]);
    j := if Mirrors(m, t, s, SideAt(m.tri[s.nb], 0)) then 0 else if Mirrors(m, t, s,
        SideAt(m.tri[s.nb], 1)) then 1 else 2;
  }

  /** In a convex quadrilateral no outside triangle touches both halves. */
  lemma NoCommonNeighbour(m: Mesh, q: Quad, ccw: bool, it: int, tp: int, tq: int, v: int)
    requires Before(m, q, ccw, it, tp, tq) && Convex(m, q, ccw) && v >= 0
    ensures !(v == q.n01 || v == q.n30) || !(v == q.n12 || v == q.n23)
  {
    if (v == q.n01 || v == q.n30) && (v == q.n12 || v == q.n23) {
      assert TriShaped(m, m.tri[tp]) && TriShaped(m, m.tri[tq]);
      var s := if v == q.n01 then Dir(ccw, q.e01, q.n01, q.s0, q.s1) else Dir(ccw, q.e30, q.n30, q.s3, q.s0);
      var r := if v == q.n12 then Dir(ccw, q.e12, q.n12, q.s1, q.s2) else Dir(ccw, q.e23, q.n23, q.s2, q.s3);
      TwoSides(m, v, tp, s, tq, r);
      var p0, p1, p2, p3 := At(m, q.s0), At(m, q.s1), At(m, q.s2), At(m, q.s3);
      QuadContradiction(p0, p1, p2, p3, ccw);
      assert false;
    }
  }

  lemma QuadContradiction(p0: Point, p1: Point, p2: Point, p3: Point, ccw: bool)
    requires ccw ==> Cross(p0, p1, p3) > 0.0 && Cross(p2, p3, p1) > 0.0
    requires ccw ==> Cross(p0, p1, p2) > 0.0 && Cross(p2, p3, p0) > 0.0
    requires !ccw ==> Cross(p0, p3, p1) > 0.0 && Cross(p2, p1, p3) > 0.0
    requires !ccw ==> Cross(p0, p2, p1) > 0.0 && Cross(p2, p0, p3) > 0.0
    ensures p0 != p1 && p0 != p2 && p0 != p3 && p1 != p2 && p1 != p3 && p2 != p3
    ensures ccw ==> Cross(p1, p0, p2) <= 0.0 && Cross(p2, p1, p0) <= 0.0
    ensures ccw ==> Cross(p0, p3, p2) <= 0.0 && Cross(p3, p2, p0) <= 0.0
    ensures !ccw ==> Cross(p0, p1, p2) <= 0.0 && Cross(p1, p2, p0) <= 0.0
    ensures !ccw ==> Cross(p3, p0, p2) <= 0.0 && Cross(p2, p3, p0) <= 0.0
  {
    CrossRotates(p0, p1, p2); CrossRotates(p1, p0, p2); CrossRotates(p2, p1, p0);
    CrossRotates(p0, p3, p2); CrossRotates(p3, p2, p0); CrossRotates(p2, p3, p0);
    CrossRotates(p3, p0, p2); CrossRotates(p2, p0, p3); CrossRotates(p0, p2, p1);
  }
}
