/** From the two triangles before the flip to the tables after it. */
module MeshFlipSound {
  import opened PlaneGeometry
  import opened MeshTables
  import opened MeshFlip

  /** The same quadrilateral with the roles of the two triangles exchanged. */
  function Turn(q: Quad): Quad {
    Quad(q.s2, q.s3, q.s0, q.s1, q.n23, q.n30, q.n01, q.n12, q.e23, q.e30, q.e01, q.e12)
  }

  lemma BeforeTurned(m: Mesh, q: Quad, ccw: bool, it: int, tp: int, tq: int)
    requires Before(m, q, ccw, it, tp, tq)
    ensures Before(m, Turn(q), ccw, it, tq, tp)
    ensures Convex(m, q, ccw) ==> Convex(m, Turn(q), ccw)
  {
    CrossRotates(At(m, q.s2), At(m, q.s0), At(m, q.s3));
    CrossRotates(At(m, q.s0), At(m, q.s2), At(m, q.s1));
  }

  /** The neighbour number v in triangle t, after the outer links are patched. */
  function OuterNb(q: Quad, tp: int, tq: int, t: int, v: int): int {
    if t == q.n12 && v == tq then tp else if t == q.n30 && v == tp then tq else v
  }

  /** A triangle with corners a b c and the sides b c, c a, a b. */
  ghost predicate Made(
    x: Tri, ccw: bool, a: int, b: int, c: int, e0: int, n0: int, e1: int, n1: int, e2: int, n2: int)
  {
    && |x.nd| == |x.nb| == |x.edg| == 3
    && Sides(x, Dir(ccw, e0, n0, b, c), Dir(ccw, e1, n1, c, a), Dir(ccw, e2, n2, a, b))
    && x.nd == (if ccw then [a, b, c] else [a, c, b])
    && x.edg == (if ccw then [e0, e1, e2] else [e0, e2, e1])
    && x.nb == (if ccw then [n0, n1, n2] else [n0, n2, n1])
  }

  /** The triangle table after the flip, triangle by triangle. */
  ghost predicate AfterTri(m: Mesh, m': Mesh, q: Quad, ccw: bool, it: int, tp: int, tq: int)
    requires 0 <= tp < |m.tri| && 0 <= tq < |m.tri| && Shaped(m)
  {
    && |m'.tri| == |m.tri|
    && Made(m'.tri[tp], ccw, q.s0, q.s1, q.s2, q.e12, q.n12, it, tq, q.e01, q.n01) && m'.tri[tp].reg == m.tri[tp].reg
    && Made(m'.tri[tq], ccw, q.s2, q.s3, q.s0, q.e30, q.n30, it, tp, q.e23, q.n23) && m'.tri[tq].reg == m.tri[tq].reg
    && forall t :: 0 <= t < |m.tri| && t != tp && t != tq ==> Patched(m, m', q, tp, tq, t)
  }

  ghost predicate Patched(m: Mesh, m': Mesh, q: Quad, tp: int, tq: int, t: int)
    requires 0 <= t < |m.tri| == |m'.tri| && Shaped(m)
  {
    var x, y := m.tri[t], m'.tri[t];
    && TriShaped(m, x)
    && y.nd == x.nd && y.edg == x.edg && y.reg == x.reg && |y.nb| == 3
    && y.nb[0] == OuterNb(q, tp, tq, t, x.nb[0])
    && y.nb[1] == OuterNb(q, tp, tq, t, x.nb[1])
    && y.nb[2] == OuterNb(q, tp, tq, t, x.nb[2])
  }

  /** The edge table after the flip. */
  ghost predicate AfterEdg(m: Mesh, m': Mesh, q: Quad, it: int, tp: int, tq: int)
    requires 0 <= it < |m.edg|
  {
    && |m'.edg| == |m.edg|
    && |m'.edg[it].nd| == 2 && SameEnds(m'.edg[it], q.s0, q.s2)
    && (forall e :: 0 <= e < |m.edg| && e != it ==> m'.edg[e].nd == m.edg[e].nd)
    && (forall e :: 0 <= e < |m.edg| ==> NoDup(m'.edg[e].ele))
    && (forall e, t :: 0 <= e < |m.edg| ==>
          (t in m'.edg[e].ele <==>
            if e == q.e12 then (t in m.edg[e].ele && t != tq) || t == tp
            else if e == q.e30 then (t in m.edg[e].ele && t != tp) || t == tq
            else t in m.edg[e].ele))
  }

  /** The node table after the flip. */
  ghost predicate AfterNd(m: Mesh, m': Mesh, q: Quad, it: int, tp: int, tq: int) {
    && |m'.nd| == |m.nd| && m'.pt == m.pt
    && (forall n :: 0 <= n < |m.nd| ==> m'.nd[n].pt == m.nd[n].pt && NoDup(m'.nd[n].tri) && NoDup(m'.nd[n].edg))
    && (forall n, e :: 0 <= n < |m.nd| ==>
          (e in m'.nd[n].edg <==>
            if n == q.s1 || n == q.s3 then e in m.nd[n].edg && e != it
            else if n == q.s0 || n == q.s2 then e in m.nd[n].edg || e == it
            else e in m.nd[n].edg))
    && (forall n, t :: 0 <= n < |m.nd| ==>
          (t in m'.nd[n].tri <==>
            if n == q.s1 then t in m.nd[n].tri && t != tq
            else if n == q.s3 then t in m.nd[n].tri && t != tp
            else if n == q.s0 then t in m.nd[n].tri || t == tq
            else if n == q.s2 then t in m.nd[n].tri || t == tp
            else t in m.nd[n].tri))
  }

  ghost predicate After(m: Mesh, m': Mesh, q: Quad, ccw: bool, it: int, tp: int, tq: int)
    requires 0 <= tp < |m.tri| && 0 <= tq < |m.tri| && 0 <= it < |m.edg| && Shaped(m)
  {
    AfterTri(m, m', q, ccw, it, tp, tq) && AfterEdg(m, m', q, it, tp, tq) && AfterNd(m, m', q, it, tp, tq)
  }

  // ---------------------------------------------------- the tables do change so

  /** sclk_tri turns a triangle the way its points run and carries the slots along. */
  lemma ClockwiseMakes(
    m: Mesh, ccw: bool, reg: int, a: int, b: int, c: int, e0: int, n0: int, e1: int, n1: int, e2: int, n2: int)
    requires Shaped(m) && 0 <= a < |m.nd| && 0 <= b < |m.nd| && 0 <= c < |m.nd|
    requires e0 != e1 && e1 != e2 && e0 != e2
    requires if ccw then Cross(At(m, a), At(m, b), At(m, c)) > 0.0 else Cross(At(m, a), At(m, c), At(m, b)) > 0.0
    ensures var x := Clockwise(Tri([a, b, c], [n0, n1, n2], [e0, e1, e2], reg), At(m, a), At(m, b), At(m, c));
            Made(x, ccw, a, b, c, e0, n0, e1, n1, e2, n2) && x.reg == reg
  {
    var p, q, r := At(m, a), At(m, b), At(m, c);
    CrossRotates(p, q, r);
    assert (r.x - p.x) * (q.y - r.y) - (r.y - p.y) * (q.x - r.x) == -Cross(p, q, r);
  }

  /** Which neighbours of the quadrilateral can coincide. */
  ghost predicate Separate(q: Quad, tp: int, tq: int) {
    && (q.n01 >= 0 ==> q.n01 != tp && q.n01 != tq && q.n01 != q.n30 && q.n01 != q.n12 && q.n01 != q.n23)
    && (q.n12 >= 0 ==> q.n12 != tp && q.n12 != tq && q.n12 != q.n23 && q.n12 != q.n30)
    && (q.n23 >= 0 ==> q.n23 != tp && q.n23 != tq && q.n23 != q.n30)
    && (q.n30 >= 0 ==> q.n30 != tp && q.n30 != tq)
  }

  lemma OuterAreOthers(m: Mesh, q: Quad, ccw: bool, it: int, tp: int, tq: int)
    requires Before(m, q, ccw, it, tp, tq)
    ensures q.n01 >= 0 ==> q.n01 != tp && q.n01 != tq && q.n01 != q.n30
    ensures q.n30 >= 0 ==> q.n30 != tp && q.n30 != tq
  {
    assert TriShaped(m, m.tri[tp]) && TriOk(m, tp);
    SideEnds(m, tp, Dir(ccw, q.e01, q.n01, q.s0, q.s1));
    SideEnds(m, tp, Dir(ccw, q.e30, q.n30, q.s3, q.s0));
  }

  lemma QuadSeparate(m: Mesh, q: Quad, ccw: bool, it: int, tp: int, tq: int)
    requires Before(m, q, ccw, it, tp, tq) && Convex(m, q, ccw)
    ensures Separate(q, tp, tq)
  {
    OuterAreOthers(m, q, ccw, it, tp, tq);
    BeforeTurned(m, q, ccw, it, tp, tq);
    OuterAreOthers(m, Turn(q), ccw, it, tq, tp);
    if q.n01 >= 0 { NoCommonNeighbour(m, q, ccw, it, tp, tq, q.n01); }
    if q.n30 >= 0 { NoCommonNeighbour(m, q, ccw, it, tp, tq, q.n30); }
  }

  lemma LinkedInner(m: Mesh, q: Quad, it: int, tp: int, tq: int)
    requires Shaped(m) && QuadInRange(m, q) && 0 <= tp < |m.tri| && 0 <= tq < |m.tri| && tp != tq
    requires q.n12 != tp && q.n12 != tq && q.n30 != tp && q.n30 != tq
    ensures var r := Linked(m, q, it, tp, tq);
            r[tp] == NewP(q, it, tq, m.tri[tp].reg) && r[tq] == NewQ(q, it, tp, m.tri[tq].reg)
  {
  }

  lemma FlipTriInner(m: Mesh, q: Quad, it: int, tp: int, tq: int)
    requires Shaped(m) && QuadInRange(m, q) && 0 <= tp < |m.tri| && 0 <= tq < |m.tri| && tp != tq
    requires q.n12 != tp && q.n12 != tq && q.n30 != tp && q.n30 != tq
    ensures var r := FlipTri(m, q, it, tp, tq);
            && r[tp] == Clockwise(NewP(q, it, tq, m.tri[tp].reg), At(m, q.s0), At(m, q.s1), At(m, q.s2))
            && r[tq] == Clockwise(NewQ(q, it, tp, m.tri[tq].reg), At(m, q.s2), At(m, q.s3), At(m, q.s0))
  {
    LinkedInner(m, q, it, tp, tq);
  }

  lemma FlipTriOuter(m: Mesh, q: Quad, it: int, tp: int, tq: int, t: int)
    requires Shaped(m) && QuadInRange(m, q) && 0 <= tp < |m.tri| && 0 <= tq < |m.tri|
    requires 0 <= t < |m.tri| && t != tp && t != tq
    ensures TriShaped(m, m.tri[t]) && FlipTri(m, q, it, tp, tq)[t] == Outer(q, tp, tq, t, m.tri[t])
  {
    assert TriShaped(m, m.tri[t]);
  }

  lemma FlipTriView(m: Mesh, q: Quad, ccw: bool, it: int, tp: int, tq: int, m': Mesh)
    requires Before(m, q, ccw, it, tp, tq) && Convex(m, q, ccw)
    requires m'.tri == FlipTri(m, q, it, tp, tq)
    ensures AfterTri(m, m', q, ccw, it, tp, tq)
  {
    QuadSeparate(m, q, ccw, it, tp, tq);
    QuadDistinct(m, q, ccw, it, tp, tq);
    FlipTriInner(m, q, it, tp, tq);
    CrossRotates(At(m, q.s2), At(m, q.s0), At(m, q.s3));
    ClockwiseMakes(m, ccw, m.tri[tp].reg, q.s0, q.s1, q.s2, q.e12, q.n12, it, tq, q.e01, q.n01);
    ClockwiseMakes(m, ccw, m.tri[tq].reg, q.s2, q.s3, q.s0, q.e30, q.n30, it, tp, q.e23, q.n23);
    forall t | 0 <= t < |m.tri| && t != tp && t != tq ensures Patched(m, m', q, tp, tq, t) {
      FlipTriOuter(m, q, it, tp, tq, t);
      OuterIsPatched(m, m', q, tp, tq, t);
    }
  }

  lemma OuterIsPatched(m: Mesh, m': Mesh, q: Quad, tp: int, tq: int, t: int)
    requires 0 <= t < |m.tri| == |m'.tri| && Shaped(m) && TriShaped(m, m.tri[t]) && tp != tq
    requires Separate(q, tp, tq) && m'.tri[t] == Outer(q, tp, tq, t, m.tri[t])
    ensures Patched(m, m', q, tp, tq, t)
  {
  }

  /** The triangles of the two edges that change owner. */
  lemma OwnersDiffer(m: Mesh, q: Quad, ccw: bool, it: int, tp: int, tq: int)
    requires Before(m, q, ccw, it, tp, tq)
    ensures q.e12 != q.e30 && it != q.e12 && it != q.e30
    ensures tq !in m.edg[q.e30].ele && tp !in m.edg[q.e12].ele
    ensures NoDup(m.edg[q.e30].ele) && NoDup(m.edg[q.e12].ele)
  {
    QuadDistinct(m, q, ccw, it, tp, tq);
    EdgeOfOne(m, q, ccw, it, tp, tq);
    assert EdgeOk(m, q.e30) && EdgeOk(m, q.e12);
  }

  lemma Reowned(was: seq<int>, gone: int, new_: int)
    requires NoDup(was) && new_ !in was
    ensures NoDup(RemoveFirst(was, gone) + [new_])
    ensures forall t :: t in RemoveFirst(was, gone) + [new_] <==> (t in was && t != gone) || t == new_
  {
    RemoveFirstKeeps(was, gone);
    AppendKeeps(RemoveFirst(was, gone), new_);
  }

  lemma FlipEdgView(m: Mesh, q: Quad, ccw: bool, it: int, tp: int, tq: int, m': Mesh)
    requires Before(m, q, ccw, it, tp, tq)
    requires m'.edg == FlipEdg(m, q, it, tp, tq)
    ensures AfterEdg(m, m', q, it, tp, tq)
  {
    OwnersDiffer(m, q, ccw, it, tp, tq);
    ListsHaveNoDup(m);
    Reowned(m.edg[q.e30].ele, tp, tq);
    Reowned(m.edg[q.e12].ele, tq, tp);
    FlipEdgEntries(m, q, it, tp, tq);
  }

  lemma FlipEdgEntries(m: Mesh, q: Quad, it: int, tp: int, tq: int)
    requires QuadInRange(m, q) && 0 <= it < |m.edg| && q.e12 != q.e30 && it != q.e12 && it != q.e30
    ensures var r := FlipEdg(m, q, it, tp, tq);
      && r[it] == Edge([q.s0, q.s2], m.edg[it].ele)
      && r[q.e30] == Edge(m.edg[q.e30].nd, RemoveFirst(m.edg[q.e30].ele, tp) + [tq])
      && r[q.e12] == Edge(m.edg[q.e12].nd, RemoveFirst(m.edg[q.e12].ele, tq) + [tp])
      && forall e :: 0 <= e < |m.edg| && e != it && e != q.e30 && e != q.e12 ==> r[e] == m.edg[e]
  {
  }

  /** The edges and corners of a triangle, from its three sides. */
  lemma FromSides(x: Tri, a: Side, b: Side, c: Side)
    requires |x.nd| == |x.nb| == |x.edg| == 3 && Sides(x, a, b, c)
    ensures forall e :: e in x.edg <==> e == a.edge || e == b.edge || e == c.edge
    ensures forall n :: n in x.nd <==> n == a.from || n == b.from || n == c.from
  {
    assert x.edg == [x.edg[0], x.edg[1], x.edg[2]] && x.nd == [x.nd[0], x.nd[1], x.nd[2]];
  }

  /** tp and tq share no edge but `it`. */
  lemma EdgeOfOne(m: Mesh, q: Quad, ccw: bool, it: int, tp: int, tq: int)
    requires Before(m, q, ccw, it, tp, tq)
    ensures |m.tri[tp].edg| == |m.tri[tq].edg| == 3
    ensures forall e :: e in m.tri[tp].edg <==> e == it || e == q.e30 || e == q.e01
    ensures forall e :: e in m.tri[tq].edg <==> e == it || e == q.e12 || e == q.e23
    ensures q.e30 !in m.tri[tq].edg && q.e12 !in m.tri[tp].edg && q.e01 !in m.tri[tq].edg && q.e23 !in m.tri[tp].edg
  {
    QuadDistinct(m, q, ccw, it, tp, tq);
    assert TriShaped(m, m.tri[tp]) && TriShaped(m, m.tri[tq]);
    FromSides(
      m.tri[tp], Dir(ccw, it, tq, q.s1, q.s3), Dir(ccw, q.e30, q.n30, q.s3, q.s0), Dir(ccw, q.e01, q.n01, q.s0, q.s1));
    FromSides(
      m.tri[tq], Dir(ccw, it, tp, q.s3, q.s1), Dir(ccw, q.e12, q.n12, q.s1, q.s2), Dir(ccw, q.e23, q.n23, q.s2, q.s3));
  }

  lemma CornersOf(m: Mesh, q: Quad, ccw: bool, it: int, tp: int, tq: int)
    requires Before(m, q, ccw, it, tp, tq)
    ensures |m.tri[tp].nd| == |m.tri[tq].nd| == 3
    ensures forall n :: n in m.tri[tp].nd <==> n == q.s0 || n == q.s1 || n == q.s3
    ensures forall n :: n in m.tri[tq].nd <==> n == q.s1 || n == q.s2 || n == q.s3
  {
    assert TriShaped(m, m.tri[tp]) && TriShaped(m, m.tri[tq]);
    FromSides(
      m.tri[tp], Dir(ccw, it, tq, q.s1, q.s3), Dir(ccw, q.e30, q.n30, q.s3, q.s0), Dir(ccw, q.e01, q.n01, q.s0, q.s1));
    FromSides(
      m.tri[tq], Dir(ccw, it, tp, q.s3, q.s1), Dir(ccw, q.e12, q.n12, q.s1, q.s2), Dir(ccw, q.e23, q.n23, q.s2, q.s3));
  }

  lemma FlipNdEntries(m: Mesh, q: Quad, it: int, tp: int, tq: int)
    requires QuadInRange(m, q)
    requires q.s0 != q.s1 && q.s0 != q.s2 && q.s0 != q.s3 && q.s1 != q.s2 && q.s1 != q.s3 && q.s2 != q.s3
    ensures var r := FlipNd(m, q, it, tp, tq);
            var n0, n1, n2, n3 := m.nd[q.s0], m.nd[q.s1], m.nd[q.s2], m.nd[q.s3];
            && r[q.s0] == n0.(tri := n0.tri + [tq], edg := n0.edg + [it])
            && r[q.s2] == n2.(tri := n2.tri + [tp], edg := n2.edg + [it])
            && r[q.s1] == n1.(tri := RemoveFirst(n1.tri, tq), edg := RemoveFirst(n1.edg, it))
            && r[q.s3] == n3.(tri := RemoveFirst(n3.tri, tp), edg := RemoveFirst(n3.edg, it))
            && forall n :: 0 <= n < |m.nd| && n != q.s0 && n != q.s1 && n != q.s2 && n != q.s3 ==> r[n] == m.nd[n]
  {
  }

  lemma ListsHaveNoDup(m: Mesh)
    requires Sound(m)
    ensures forall n :: 0 <= n < |m.nd| ==> NoDup(m.nd[n].tri) && NoDup(m.nd[n].edg)
    ensures forall e :: 0 <= e < |m.edg| ==> NoDup(m.edg[e].ele)
  {
    forall n | 0 <= n < |m.nd| ensures NoDup(m.nd[n].tri) && NoDup(m.nd[n].edg) { assert NodeOk(m, n); }
    forall e | 0 <= e < |m.edg| ensures NoDup(m.edg[e].ele) { assert EdgeOk(m, e); }
  }

  lemma FlipNdLists(m: Mesh, q: Quad, ccw: bool, it: int, tp: int, tq: int)
    requires Before(m, q, ccw, it, tp, tq)
    ensures it !in m.nd[q.s0].edg && tq !in m.nd[q.s0].tri && it !in m.nd[q.s2].edg && tp !in m.nd[q.s2].tri
  {
    QuadDistinct(m, q, ccw, it, tp, tq);
    CornersOf(m, q, ccw, it, tp, tq);
    NotAnEnd(m, it, q.s1, q.s3, q.s0);
    NotAnEnd(m, it, q.s1, q.s3, q.s2);
    assert NodeOk(m, q.s0) && NodeOk(m, q.s2);
  }

  lemma NotAnEnd(m: Mesh, it: int, a: int, b: int, n: int)
    requires Shaped(m) && 0 <= it < |m.edg| && SameEnds(m.edg[it], a, b) && n != a && n != b
    ensures n !in m.edg[it].nd
  {
    assert EdgeShaped(m, m.edg[it]);
  }

  lemma FlipNdView(m: Mesh, q: Quad, ccw: bool, it: int, tp: int, tq: int, m': Mesh)
    requires Before(m, q, ccw, it, tp, tq)
    requires m'.nd == FlipNd(m, q, it, tp, tq) && m'.pt == m.pt
    ensures AfterNd(m, m', q, it, tp, tq)
  {
    QuadDistinct(m, q, ccw, it, tp, tq);
    ListsHaveNoDup(m);
    FlipNdLists(m, q, ccw, it, tp, tq);
    FlipNdEntries(m, q, it, tp, tq);
    var n0, n1, n2, n3 := m.nd[q.s0], m.nd[q.s1], m.nd[q.s2], m.nd[q.s3];
    AppendKeeps(n0.tri, tq); AppendKeeps(n0.edg, it);
    AppendKeeps(n2.tri, tp); AppendKeeps(n2.edg, it);
    RemoveFirstKeeps(n1.tri, tq); RemoveFirstKeeps(n1.edg, it);
    RemoveFirstKeeps(n3.tri, tp); RemoveFirstKeeps(n3.edg, it);
  }

  // ------------------------------------------------------ soundness afterwards

  lemma TriTurned(m: Mesh, m': Mesh, q: Quad, ccw: bool, it: int, tp: int, tq: int)
    requires 0 <= tp < |m.tri| && 0 <= tq < |m.tri| && tp != tq && Shaped(m) && Separate(q, tp, tq)
    requires AfterTri(m, m', q, ccw, it, tp, tq)
    ensures AfterTri(m, m', Turn(q), ccw, it, tq, tp)
  {
    forall t | 0 <= t < |m.tri| && t != tp && t != tq ensures Patched(m, m', Turn(q), tq, tp, t) {
      assert Patched(m, m', q, tp, tq, t);
    }
  }

  lemma EdgTurned(m: Mesh, m': Mesh, q: Quad, it: int, tp: int, tq: int)
    requires 0 <= it < |m.edg| && q.e12 != q.e30 && AfterEdg(m, m', q, it, tp, tq)
    ensures AfterEdg(m, m', Turn(q), it, tq, tp)
  {
  }

  lemma NdTurned(m: Mesh, m': Mesh, q: Quad, it: int, tp: int, tq: int)
    requires q.s0 != q.s1 && q.s0 != q.s2 && q.s0 != q.s3 && q.s1 != q.s2 && q.s1 != q.s3 && q.s2 != q.s3
    requires AfterNd(m, m', q, it, tp, tq)
    ensures AfterNd(m, m', Turn(q), it, tq, tp)
  {
  }

  lemma AfterTurned(m: Mesh, m': Mesh, q: Quad, ccw: bool, it: int, tp: int, tq: int)
    requires Before(m, q, ccw, it, tp, tq) && Convex(m, q, ccw) && After(m, m', q, ccw, it, tp, tq)
    ensures After(m, m', Turn(q), ccw, it, tq, tp)
  {
    QuadSeparate(m, q, ccw, it, tp, tq);
    QuadDistinct(m, q, ccw, it, tp, tq);
    TriTurned(m, m', q, ccw, it, tp, tq);
    EdgTurned(m, m', q, it, tp, tq);
    NdTurned(m, m', q, it, tp, tq);
  }

  lemma MadeShaped(
    m: Mesh, m': Mesh, x: Tri, ccw: bool, a: int, b: int, c: int, e0: int, n0: int, e1: int, n1: int, e2: int, n2: int)
    requires Made(x, ccw, a, b, c, e0, n0, e1, n1, e2, n2)
    requires 0 <= a < |m'.nd| && 0 <= b < |m'.nd| && 0 <= c < |m'.nd| && a != b && b != c && a != c
    requires 0 <= e0 < |m'.edg| && 0 <= e1 < |m'.edg| && 0 <= e2 < |m'.edg|
    requires n0 < |m'.tri| && n1 < |m'.tri| && n2 < |m'.tri|
    ensures TriShaped(m', x)
  {
  }

  lemma PatchedShaped(m: Mesh, m': Mesh, q: Quad, tp: int, tq: int, t: int)
    requires 0 <= t < |m.tri| == |m'.tri| && Shaped(m) && |m'.nd| == |m.nd| && |m'.edg| == |m.edg|
    requires 0 <= tp < |m.tri| && 0 <= tq < |m.tri|
    requires Patched(m, m', q, tp, tq, t)
    ensures TriShaped(m', m'.tri[t])
  {
  }

  lemma AfterEdgesShaped(m: Mesh, m': Mesh, q: Quad, it: int, tp: int, tq: int)
    requires Shaped(m) && QuadInRange(m, q) && q.s0 != q.s2 && 0 <= it < |m.edg| && |m'.nd| == |m.nd|
    requires AfterEdg(m, m', q, it, tp, tq)
    ensures forall e :: 0 <= e < |m'.edg| ==> EdgeShaped(m', m'.edg[e])
  {
    forall e | 0 <= e < |m'.edg| ensures EdgeShaped(m', m'.edg[e]) {
      assert EdgeShaped(m, m.edg[e]);
    }
  }

  lemma AfterShaped(m: Mesh, m': Mesh, q: Quad, ccw: bool, it: int, tp: int, tq: int)
    requires Before(m, q, ccw, it, tp, tq) && Convex(m, q, ccw) && After(m, m', q, ccw, it, tp, tq)
    ensures Shaped(m')
  {
    QuadDistinct(m, q, ccw, it, tp, tq);
    AfterEdgesShaped(m, m', q, it, tp, tq);
    forall t | 0 <= t < |m'.tri| ensures TriShaped(m', m'.tri[t]) {
      if t == tp {
        MadeShaped(m, m', m'.tri[tp], ccw, q.s0, q.s1, q.s2, q.e12, q.n12, it, tq, q.e01, q.n01);
      } else if t == tq {
        MadeShaped(m, m', m'.tri[tq], ccw, q.s2, q.s3, q.s0, q.e30, q.n30, it, tp, q.e23, q.n23);
      } else {
        PatchedShaped(m, m', q, tp, tq, t);
      }
    }
  }

  lemma AfterEdgeTris(m: Mesh, m': Mesh, q: Quad, ccw: bool, it: int, tp: int, tq: int, e: int, t: int)
    requires Before(m, q, ccw, it, tp, tq) && After(m, m', q, ccw, it, tp, tq) && 0 <= e < |m.edg|
    ensures t in m'.edg[e].ele <==> 0 <= t < |m'.tri| && e in m'.tri[t].edg
  {
    EdgeOfOne(m, q, ccw, it, tp, tq);
    QuadDistinct(m, q, ccw, it, tp, tq);
    assert EdgeOk(m, e);
    MadeCorners(m'.tri[tp], ccw, q.s0, q.s1, q.s2, q.e12, q.n12, it, tq, q.e01, q.n01);
    MadeCorners(m'.tri[tq], ccw, q.s2, q.s3, q.s0, q.e30, q.n30, it, tp, q.e23, q.n23);
    if t == tp {
      assert e in m'.tri[tp].edg <==> e == q.e12 || e == it || e == q.e01;
    } else if t == tq {
      assert e in m'.tri[tq].edg <==> e == q.e30 || e == it || e == q.e23;
    } else if 0 <= t < |m.tri| {
      assert Patched(m, m', q, tp, tq, t);
    }
  }

  lemma AfterEdgeOk(m: Mesh, m': Mesh, q: Quad, ccw: bool, it: int, tp: int, tq: int, e: int)
    requires Before(m, q, ccw, it, tp, tq) && Convex(m, q, ccw) && After(m, m', q, ccw, it, tp, tq)
    requires 0 <= e < |m.edg|
    ensures EdgeOk(m', e)
  {
    forall t ensures t in m'.edg[e].ele <==> 0 <= t < |m'.tri| && e in m'.tri[t].edg {
      AfterEdgeTris(m, m', q, ccw, it, tp, tq, e, t);
    }
  }

  lemma MadeCorners(x: Tri, ccw: bool, a: int, b: int, c: int, e0: int, n0: int, e1: int, n1: int, e2: int, n2: int)
    requires Made(x, ccw, a, b, c, e0, n0, e1, n1, e2, n2)
    ensures forall n :: n in x.nd <==> n == a || n == b || n == c
    ensures forall e :: e in x.edg <==> e == e0 || e == e1 || e == e2
  {
  }

  lemma AfterNodeTris(m: Mesh, m': Mesh, q: Quad, ccw: bool, it: int, tp: int, tq: int, n: int, t: int)
    requires Before(m, q, ccw, it, tp, tq) && AfterTri(m, m', q, ccw, it, tp, tq) && AfterNd(m, m', q, it, tp, tq)
    requires 0 <= n < |m.nd|
    ensures t in m'.nd[n].tri <==> 0 <= t < |m'.tri| && n in m'.tri[t].nd
  {
    QuadDistinct(m, q, ccw, it, tp, tq);
    CornersOf(m, q, ccw, it, tp, tq);
    assert NodeOk(m, n);
    MadeCorners(m'.tri[tp], ccw, q.s0, q.s1, q.s2, q.e12, q.n12, it, tq, q.e01, q.n01);
    MadeCorners(m'.tri[tq], ccw, q.s2, q.s3, q.s0, q.e30, q.n30, it, tp, q.e23, q.n23);
    if 0 <= t < |m.tri| && t != tp && t != tq { assert Patched(m, m', q, tp, tq, t); }
  }

  lemma AfterNodeEdges(m: Mesh, m': Mesh, q: Quad, it: int, tp: int, tq: int, n: int, e: int)
    requires 0 <= it < |m.edg| && 0 <= n < |m.nd| && EdgeShaped(m, m.edg[it]) && SameEnds(m.edg[it], q.s1, q.s3)
    requires AfterEdg(m, m', q, it, tp, tq) && AfterNd(m, m', q, it, tp, tq)
    requires q.s0 != q.s1 && q.s0 != q.s2 && q.s0 != q.s3 && q.s1 != q.s2 && q.s1 != q.s3 && q.s2 != q.s3
    requires e in m.nd[n].edg <==> 0 <= e < |m.edg| && n in m.edg[e].nd
    ensures e in m'.nd[n].edg <==> 0 <= e < |m'.edg| && n in m'.edg[e].nd
  {
    if e == it {
      assert n in m.edg[it].nd <==> n == q.s1 || n == q.s3;
      assert n in m'.edg[it].nd <==> n == q.s0 || n == q.s2;
    }
  }

  lemma AfterNodeOk(m: Mesh, m': Mesh, q: Quad, ccw: bool, it: int, tp: int, tq: int, n: int)
    requires Before(m, q, ccw, it, tp, tq) && After(m, m', q, ccw, it, tp, tq)
    requires 0 <= n < |m.nd|
    ensures NodeOk(m', n)
  {
    QuadDistinct(m, q, ccw, it, tp, tq);
    assert NodeOk(m, n) && EdgeShaped(m, m.edg[it]);
    forall t ensures t in m'.nd[n].tri <==> 0 <= t < |m'.tri| && n in m'.tri[t].nd {
      AfterNodeTris(m, m', q, ccw, it, tp, tq, n, t);
    }
    forall e ensures e in m'.nd[n].edg <==> 0 <= e < |m'.edg| && n in m'.edg[e].nd {
      AfterNodeEdges(m, m', q, it, tp, tq, n, e);
    }
  }

  // ---- the triangle tp; tq is the same with the quadrilateral turned

  /** A patched neighbour still shows the side it showed before. */
  lemma StillMirrored(m: Mesh, m': Mesh, q: Quad, ccw: bool, it: int, tp: int, tq: int, t: int, s: Side, from: int)
    requires Before(m, q, ccw, it, tp, tq) && After(m, m', q, ccw, it, tp, tq) && Shaped(m')
    requires SideOk(m, from, s) && s.nb >= 0 && s.nb != tp && s.nb != tq
    requires OuterNb(q, tp, tq, s.nb, from) == t && t != s.nb
    ensures Faced(m', t, s)
  {
    var j := MirrorSlot(m, from, s);
    assert Patched(m, m', q, tp, tq, s.nb);
    PatchedMirror(m, m', q, tp, tq, t, s, from, j);
  }

  lemma PatchedMirror(m: Mesh, m': Mesh, q: Quad, tp: int, tq: int, t: int, s: Side, from: int, j: nat)
    requires Shaped(m) && Shaped(m') && |m.tri| == |m'.tri| && |m.nd| == |m'.nd|
    requires forall n :: 0 <= n < |m.nd| ==> m'.nd[n].pt == m.nd[n].pt
    requires 0 <= s.nb < |m.tri| && j < 3 && TriShaped(m, m.tri[s.nb]) && Mirrors(m, from, s, SideAt(m.tri[s.nb], j))
    requires Patched(m, m', q, tp, tq, s.nb)
    requires OuterNb(q, tp, tq, s.nb, from) == t && t != s.nb
    ensures Faced(m', t, s)
  {
    assert TriShaped(m', m'.tri[s.nb]);
    var r, r' := SideAt(m.tri[s.nb], j), SideAt(m'.tri[s.nb], j);
    assert r' == r.(nb := t);
    assert Mirrors(m', t, s, r');
  }

  lemma NewTriSide12(m: Mesh, m': Mesh, q: Quad, ccw: bool, it: int, tp: int, tq: int)
    requires Before(m, q, ccw, it, tp, tq) && After(m, m', q, ccw, it, tp, tq) && Shaped(m') && Separate(q, tp, tq)
    ensures SideOk(m', tp, Dir(ccw, q.e12, q.n12, q.s1, q.s2))
  {
    var s := Dir(ccw, q.e12, q.n12, q.s1, q.s2);
    assert TriShaped(m, m.tri[tq]);
    SideEnds(m, tq, s);
    QuadDistinct(m, q, ccw, it, tp, tq);
    if q.n12 >= 0 { StillMirrored(m, m', q, ccw, it, tp, tq, tp, s, tq); }
  }

  lemma NewTriSide01(m: Mesh, m': Mesh, q: Quad, ccw: bool, it: int, tp: int, tq: int)
    requires Before(m, q, ccw, it, tp, tq) && After(m, m', q, ccw, it, tp, tq) && Shaped(m') && Separate(q, tp, tq)
    ensures SideOk(m', tp, Dir(ccw, q.e01, q.n01, q.s0, q.s1))
  {
    var s := Dir(ccw, q.e01, q.n01, q.s0, q.s1);
    assert TriShaped(m, m.tri[tp]);
    SideEnds(m, tp, s);
    QuadDistinct(m, q, ccw, it, tp, tq);
    if q.n01 >= 0 { StillMirrored(m, m', q, ccw, it, tp, tq, tp, s, tp); }
  }

  lemma NewTriSideIt(m: Mesh, m': Mesh, q: Quad, ccw: bool, it: int, tp: int, tq: int)
    requires Before(m, q, ccw, it, tp, tq) && After(m, m', q, ccw, it, tp, tq) && Shaped(m')
    ensures SideOk(m', tp, Dir(ccw, it, tq, q.s2, q.s0))
  {
    var s, r := Dir(ccw, it, tq, q.s2, q.s0), Dir(ccw, it, tp, q.s0, q.s2);
    QuadDistinct(m, q, ccw, it, tp, tq);
    assert Mirrors(m', tp, s, r);
    assert Has(m'.tri[tq], r);
  }

  lemma AfterTriOkNew(m: Mesh, m': Mesh, q: Quad, ccw: bool, it: int, tp: int, tq: int)
    requires Before(m, q, ccw, it, tp, tq) && Convex(m, q, ccw) && After(m, m', q, ccw, it, tp, tq) && Shaped(m')
    ensures TriOk(m', tp)
  {
    QuadSeparate(m, q, ccw, it, tp, tq);
    NewTriSide12(m, m', q, ccw, it, tp, tq);
    NewTriSide01(m, m', q, ccw, it, tp, tq);
    NewTriSideIt(m, m', q, ccw, it, tp, tq);
    var x := m'.tri[tp];
    assert TriShaped(m', x);
    assert Area2(m', x) > 0.0;
    assert DistinctNb(x);
  }

  // ---- the triangles outside

  /** Only the two outer neighbours point at tp. */
  lemma WhoPointsAtP(m: Mesh, q: Quad, ccw: bool, it: int, tp: int, tq: int, t: int, s: Side) returns (r: Side)
    requires Before(m, q, ccw, it, tp, tq) && 0 <= t < |m.tri| && t != tp && t != tq
    requires SideOk(m, t, s) && s.nb == tp
    ensures r == Dir(ccw, q.e30, q.n30, q.s3, q.s0) || r == Dir(ccw, q.e01, q.n01, q.s0, q.s1)
    ensures r.nb == t && Mirrors(m, t, s, r)
  {
    var j := MirrorSlot(m, t, s);
    r := SideAt(m.tri[tp], j);
    SidesAreAll(
      m.tri[tp], Dir(ccw, it, tq, q.s1, q.s3), Dir(ccw, q.e30, q.n30, q.s3, q.s0), Dir(ccw, q.e01, q.n01, q.s0, q.s1),
      r);
  }

  lemma OuterFaced(m: Mesh, m': Mesh, q: Quad, ccw: bool, it: int, tp: int, tq: int, t: int, s: Side)
    requires Before(m, q, ccw, it, tp, tq) && After(m, m', q, ccw, it, tp, tq) && Shaped(m') && Separate(q, tp, tq)
    requires 0 <= t < |m.tri| && t != tp && t != tq && SideOk(m, t, s)
    ensures Faced(m', t, s.(nb := OuterNb(q, tp, tq, t, s.nb)))
  {
    var s' := s.(nb := OuterNb(q, tp, tq, t, s.nb));
    if s.nb == tp {
      var r := WhoPointsAtP(m, q, ccw, it, tp, tq, t, s);
      assert Has(m'.tri[s'.nb], r) && Mirrors(m', t, s', r);
    } else if s.nb == tq {
      BeforeTurned(m, q, ccw, it, tp, tq);
      var r := WhoPointsAtP(m, Turn(q), ccw, it, tq, tp, t, s);
      assert Has(m'.tri[s'.nb], r) && Mirrors(m', t, s', r);
    } else if s.nb >= 0 {
      StillMirrored(m, m', q, ccw, it, tp, tq, t, s, t);
    }
  }

  /** An edge of an outside triangle that touches the quadrilateral. */
  lemma OuterEdge(m: Mesh, q: Quad, ccw: bool, it: int, tp: int, tq: int, t: int, s: Side)
    requires Before(m, q, ccw, it, tp, tq) && 0 <= t < |m.tri| && t != tp && t != tq
    requires TriShaped(m, m.tri[t]) && Has(m.tri[t], s)
    ensures s.edge != it
    ensures s.edge == q.e12 ==> t == q.n12 && s.nb == tq
    ensures s.edge == q.e30 ==> t == q.n30 && s.nb == tp
    ensures s.edge == q.e01 ==> t == q.n01 && s.nb == tp
    ensures s.edge == q.e23 ==> t == q.n23 && s.nb == tq
    ensures t in m.edg[s.edge].ele
  {
    SideEnds(m, t, s);
    assert EdgeOk(m, s.edge);
    assert s.edge in m.tri[t].edg;
    assert TriShaped(m, m.tri[tp]) && TriShaped(m, m.tri[tq]);
    EdgeOfOne(m, q, ccw, it, tp, tq);
    SideEnds(m, tq, Dir(ccw, q.e12, q.n12, q.s1, q.s2));
    SideEnds(m, tp, Dir(ccw, q.e30, q.n30, q.s3, q.s0));
    SideEnds(m, tp, Dir(ccw, q.e01, q.n01, q.s0, q.s1));
    SideEnds(m, tq, Dir(ccw, q.e23, q.n23, q.s2, q.s3));
  }

  lemma OuterEdgeLinks(m: Mesh, m': Mesh, q: Quad, ccw: bool, it: int, tp: int, tq: int, t: int, s: Side)
    requires Before(m, q, ccw, it, tp, tq) && After(m, m', q, ccw, it, tp, tq) && Shaped(m') && Separate(q, tp, tq)
    requires 0 <= t < |m.tri| && t != tp && t != tq && TriShaped(m, m.tri[t]) && Has(m.tri[t], s)
    ensures EdgeLinks(m', t, s.(nb := OuterNb(q, tp, tq, t, s.nb)))
  {
    SideEnds(m, t, s);
    OuterEdge(m, q, ccw, it, tp, tq, t, s);
    EdgeOfOne(m, q, ccw, it, tp, tq);
    assert EdgeOk(m, s.edge);
    QuadDistinct(m, q, ccw, it, tp, tq);
    forall u | u in m'.edg[s.edge].ele && u != t ensures OuterNb(q, tp, tq, t, s.nb) == u {
    }
  }

  lemma OuterSideOk(m: Mesh, m': Mesh, q: Quad, ccw: bool, it: int, tp: int, tq: int, t: int, s: Side)
    requires Before(m, q, ccw, it, tp, tq) && After(m, m', q, ccw, it, tp, tq) && Shaped(m') && Separate(q, tp, tq)
    requires 0 <= t < |m.tri| && t != tp && t != tq && TriShaped(m, m.tri[t]) && Has(m.tri[t], s)
    ensures SideOk(m', t, s.(nb := OuterNb(q, tp, tq, t, s.nb)))
  {
    SideEnds(m, t, s);
    OuterEdgeLinks(m, m', q, ccw, it, tp, tq, t, s);
    OuterFaced(m, m', q, ccw, it, tp, tq, t, s);
    OuterEdge(m, q, ccw, it, tp, tq, t, s);
  }

  lemma PointersAtP(m: Mesh, q: Quad, ccw: bool, it: int, tp: int, tq: int, t: int)
    requires Before(m, q, ccw, it, tp, tq) && 0 <= t < |m.tri| && t != tp && t != tq
    ensures TriShaped(m, m.tri[t]) && (tp in m.tri[t].nb ==> t == q.n01 || t == q.n30)
  {
    var x := m.tri[t];
    assert TriShaped(m, x) && TriOk(m, t);
    if tp in x.nb {
      var r := WhoPointsAtP(m, q, ccw, it, tp, tq, t, SideAt(x, Slot(x.nb, tp)));
    }
  }

  lemma PatchedDistinct(m: Mesh, m': Mesh, q: Quad, tp: int, tq: int, t: int)
    requires Shaped(m) && 0 <= t < |m.tri| == |m'.tri| && Patched(m, m', q, tp, tq, t) && DistinctNb(m.tri[t])
    requires Separate(q, tp, tq) && tp >= 0 && tq >= 0
    requires tp in m.tri[t].nb ==> t == q.n01 || t == q.n30
    requires tq in m.tri[t].nb ==> t == q.n23 || t == q.n12
    ensures DistinctNb(m'.tri[t])
  {
  }

  lemma OuterDistinct(m: Mesh, m': Mesh, q: Quad, ccw: bool, it: int, tp: int, tq: int, t: int)
    requires Before(m, q, ccw, it, tp, tq) && Separate(q, tp, tq)
    requires 0 <= t < |m.tri| == |m'.tri| && t != tp && t != tq && Patched(m, m', q, tp, tq, t)
    ensures DistinctNb(m'.tri[t])
  {
    PointersAtP(m, q, ccw, it, tp, tq, t);
    BeforeTurned(m, q, ccw, it, tp, tq);
    PointersAtP(m, Turn(q), ccw, it, tq, tp, t);
    assert TriOk(m, t);
    PatchedDistinct(m, m', q, tp, tq, t);
  }

  lemma OuterArea(m: Mesh, m': Mesh, q: Quad, tp: int, tq: int, t: int)
    requires Shaped(m) && Shaped(m') && |m'.nd| == |m.nd| && m'.pt == m.pt
    requires forall n :: 0 <= n < |m.nd| ==> m'.nd[n].pt == m.nd[n].pt
    requires 0 <= t < |m.tri| == |m'.tri| && Patched(m, m', q, tp, tq, t)
    ensures TriShaped(m', m'.tri[t]) && Area2(m', m'.tri[t]) == Area2(m, m.tri[t])
  {
    assert TriShaped(m', m'.tri[t]);
  }

  lemma AfterTriOkOuter(m: Mesh, m': Mesh, q: Quad, ccw: bool, it: int, tp: int, tq: int, t: int)
    requires Before(m, q, ccw, it, tp, tq) && Convex(m, q, ccw) && After(m, m', q, ccw, it, tp, tq) && Shaped(m')
    requires 0 <= t < |m.tri| && t != tp && t != tq
    ensures TriOk(m', t)
  {
    QuadSeparate(m, q, ccw, it, tp, tq);
    OuterSides(m, m', q, ccw, it, tp, tq, t);
    OuterDistinct(m, m', q, ccw, it, tp, tq, t);
    assert TriOk(m, t);
    OuterArea(m, m', q, tp, tq, t);
  }

  lemma OuterSides(m: Mesh, m': Mesh, q: Quad, ccw: bool, it: int, tp: int, tq: int, t: int)
    requires Before(m, q, ccw, it, tp, tq) && After(m, m', q, ccw, it, tp, tq) && Shaped(m') && Separate(q, tp, tq)
    requires 0 <= t < |m.tri| && t != tp && t != tq
    ensures Patched(m, m', q, tp, tq, t) && TriShaped(m', m'.tri[t])
    ensures SideOk(m', t, SideAt(m'.tri[t], 0)) && SideOk(m', t, SideAt(m'.tri[t], 1))
    ensures SideOk(m', t, SideAt(m'.tri[t], 2))
  {
    assert Patched(m, m', q, tp, tq, t) && TriShaped(m', m'.tri[t]);
    var x := m.tri[t];
    OuterSideOk(m, m', q, ccw, it, tp, tq, t, SideAt(x, 0));
    OuterSideOk(m, m', q, ccw, it, tp, tq, t, SideAt(x, 1));
    OuterSideOk(m, m', q, ccw, it, tp, tq, t, SideAt(x, 2));
  }

  lemma AfterIsSound(m: Mesh, m': Mesh, q: Quad, ccw: bool, it: int, tp: int, tq: int)
    requires Before(m, q, ccw, it, tp, tq) && Convex(m, q, ccw) && After(m, m', q, ccw, it, tp, tq)
    ensures Sound(m')
  {
    AfterShaped(m, m', q, ccw, it, tp, tq);
    AfterTriOkNew(m, m', q, ccw, it, tp, tq);
    BeforeTurned(m, q, ccw, it, tp, tq);
    AfterTurned(m, m', q, ccw, it, tp, tq);
    AfterTriOkNew(m, m', Turn(q), ccw, it, tq, tp);
    forall t | 0 <= t < |m'.tri| ensures TriOk(m', t) {
      if t != tp && t != tq { AfterTriOkOuter(m, m', q, ccw, it, tp, tq, t); }
    }
    forall e | 0 <= e < |m'.edg| ensures EdgeOk(m', e) {
      AfterEdgeOk(m, m', q, ccw, it, tp, tq, e);
    }
    forall n | 0 <= n < |m'.nd| ensures NodeOk(m', n) {
      AfterNodeOk(m, m', q, ccw, it, tp, tq, n);
    }
  }
}
