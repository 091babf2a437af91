/** What one flip leaves alone, and why the pass over the edges may skip the
    edges it has not marked. */
module MeshFlipRuns {
  import opened MeshTables
  import opened MeshFlip
  import opened MeshFlipSound
  import opened MeshFlipTheorems
  import opened MeshDelaunay

  /** Nothing is left to flip. */
  ghost predicate AllDelaunay(m: Mesh)
    requires Sound(m)
  {
    forall e :: 0 <= e < |m.edg| ==> LocallyDelaunay(m, e)
  }

  ghost predicate SameTriangle(m: Mesh, m': Mesh, t: int) {
    && 0 <= t < |m.tri| && t < |m'.tri|
    && m'.tri[t].nd == m.tri[t].nd && m'.tri[t].edg == m.tri[t].edg && m'.tri[t].reg == m.tri[t].reg
  }

  /** Edge e, its triangles and their corners are the same in both meshes. */
  ghost predicate SameAround(m: Mesh, m': Mesh, e: int) {
    && 0 <= e < |m.edg| && e < |m'.edg| && m'.edg[e] == m.edg[e]
    && (forall t :: t in m.edg[e].ele ==> SameTriangle(m, m', t))
    && |m'.nd| == |m.nd| && m'.pt == m.pt
    && (forall n :: 0 <= n < |m.nd| ==> m'.nd[n].pt == m.nd[n].pt)
  }

  ghost predicate EndsAt(m: Mesh, e: int, n: int)
    requires 0 <= e < |m.edg|
  {
    n in m.edg[e].nd
  }

  /** e has an end in common with edge `it`. */
  ghost predicate Touches(m: Mesh, it: int, e: int)
    requires 0 <= it < |m.edg| && 0 <= e < |m.edg| && |m.edg[it].nd| == 2
  {
    EndsAt(m, e, m.edg[it].nd[0]) || EndsAt(m, e, m.edg[it].nd[1])
  }

  lemma SameTriCoupling(m: Mesh, m': Mesh, e: int, t: int)
    requires Sound(m) && Sound(m') && SameAround(m, m', e) && SameTriangle(m, m', t)
    ensures TriCoupling(m', t, e) == TriCoupling(m, t, e)
  {
    assert TriShaped(m, m.tri[t]) && TriShaped(m', m'.tri[t]);
    var x := m.tri[t];
    assert forall k :: 0 <= k < 3 ==> At(m', x.nd[k]) == At(m, x.nd[k]);
  }

  /** Whether an edge is wanted depends on its surroundings only. */
  lemma WantedSame(m: Mesh, m': Mesh, e: int)
    requires Sound(m) && Sound(m') && SameAround(m, m', e)
    ensures Wanted(m', e) <==> Wanted(m, e)
  {
    if |m.edg[e].ele| == 2 {
      var t, u := m.edg[e].ele[0], m.edg[e].ele[1];
      assert t in m.edg[e].ele && u in m.edg[e].ele;
      assert SameTriangle(m, m', t) && SameTriangle(m, m', u);
      assert Joins(m, e, t, u) && Joins(m', e, t, u);
      CouplingOfTwo(m, e, t, u);
      CouplingOfTwo(m', e, t, u);
      SameTriCoupling(m, m', e, t);
      SameTriCoupling(m, m', e, u);
    }
  }

  /** The ends of the sides of the quadrilateral: each outer side ends at one of
      the two apexes, which are the ends of the turned edge. */
  lemma OuterSidesEndAtApexes(m: Mesh, q: Quad, ccw: bool, it: int, tp: int, tq: int)
    requires Before(m, q, ccw, it, tp, tq)
    ensures EndsAt(m, q.e01, q.s0) && EndsAt(m, q.e30, q.s0) && EndsAt(m, q.e12, q.s2) && EndsAt(m, q.e23, q.s2)
  {
    assert TriShaped(m, m.tri[tp]) && TriShaped(m, m.tri[tq]);
    SideEnds(m, tp, Dir(ccw, q.e30, q.n30, q.s3, q.s0));
    SideEnds(m, tp, Dir(ccw, q.e01, q.n01, q.s0, q.s1));
    SideEnds(m, tq, Dir(ccw, q.e12, q.n12, q.s1, q.s2));
    SideEnds(m, tq, Dir(ccw, q.e23, q.n23, q.s2, q.s3));
  }

  lemma OutsideTriangle(m: Mesh, m': Mesh, q: Quad, ccw: bool, it: int, tp: int, tq: int, e: int, t: int)
    requires Before(m, q, ccw, it, tp, tq) && AfterTri(m, m', q, ccw, it, tp, tq)
    requires 0 <= e < |m.edg| && e != it && e != q.e01 && e != q.e12 && e != q.e23 && e != q.e30
    requires t in m.edg[e].ele
    ensures SameTriangle(m, m', t)
  {
    EdgeOfOne(m, q, ccw, it, tp, tq);
    assert EdgeOk(m, e);
    assert Patched(m, m', q, tp, tq, t);
  }

  /** An edge that is no side of the quadrilateral stays as it is. */
  lemma OutsideStays(m: Mesh, m': Mesh, q: Quad, ccw: bool, it: int, tp: int, tq: int, e: int)
    requires Before(m, q, ccw, it, tp, tq) && After(m, m', q, ccw, it, tp, tq)
    requires m'.edg == FlipEdg(m, q, it, tp, tq)
    requires 0 <= e < |m.edg| && e != it && e != q.e01 && e != q.e12 && e != q.e23 && e != q.e30
    ensures SameAround(m, m', e)
  {
    OwnersDiffer(m, q, ccw, it, tp, tq);
    FlipEdgEntries(m, q, it, tp, tq);
    forall t | t in m.edg[e].ele ensures SameTriangle(m, m', t) {
      OutsideTriangle(m, m', q, ccw, it, tp, tq, e, t);
    }
  }

  /** A flip leaves every edge alone that has no end in common with the turned
      edge: marking the edges at its two ends is enough. */
  lemma FlipTouchesOnlyNear(m: Mesh, it: int, tp: int, tq: int, e: int)
    requires Sound(m) && Joins(m, it, tp, tq) && SlotsFound(m, it, tp, tq) && CkFlip(m, it, tp, tq)
    requires 0 <= e < |m.edg|
    ensures var m' := Flip(m, it, tp, tq);
            |m'.edg| == |m.edg| && |m'.edg[it].nd| == 2 && (Touches(m', it, e) || SameAround(m, m', e))
  {
    var ccw := QuadFacts(m, it, tp, tq);
    var q := QuadOf(m, it, tp, tq);
    var m' := Flip(m, it, tp, tq);
    CkFlipIsConvexity(m, q, ccw, it, tp, tq);
    FlipTriView(m, q, ccw, it, tp, tq, m');
    FlipEdgView(m, q, ccw, it, tp, tq, m');
    FlipNdView(m, q, ccw, it, tp, tq, m');
    OuterSidesEndAtApexes(m, q, ccw, it, tp, tq);
    if e != it && e != q.e01 && e != q.e12 && e != q.e23 && e != q.e30 {
      OutsideStays(m, m', q, ccw, it, tp, tq, e);
    }
  }

  /** So an edge that was not wanted and is not next to the flip is still not
      wanted. */
  lemma StillUnwanted(m: Mesh, it: int, tp: int, tq: int, e: int, m': Mesh)
    requires Sound(m) && Joins(m, it, tp, tq) && SlotsFound(m, it, tp, tq) && CkFlip(m, it, tp, tq)
    requires 0 <= e < |m.edg| && !Wanted(m, e) && m' == Flip(m, it, tp, tq)
    ensures Sound(m') && |m'.edg| == |m.edg| && |m'.edg[it].nd| == 2
    ensures Touches(m', it, e) || !Wanted(m', e)
  {
    FlipIsSoundExactlyWhenChecked(m, it, tp, tq);
    FlipTouchesOnlyNear(m, it, tp, tq, e);
    if !Touches(m', it, e) {
      WantedSame(m, m', e);
    }
  }

  // ------------------------------------------------------------ whole passes

  /** flip() may pass over the edges it has not marked. */
  ghost predicate Skippable(m: Mesh, todo: seq<bool>)
    requires Sound(m)
  {
    |todo| == |m.edg| && forall e :: 0 <= e < |m.edg| ==> todo[e] || !Wanted(m, e)
  }

  ghost predicate NoneMarked(todo: seq<bool>) {
    forall e :: 0 <= e < |todo| ==> !todo[e]
  }

  /** In the middle of a pass, before edge `it`. */
  ghost predicate Cleared(m: Mesh, todo: seq<bool>, done: seq<bool>, it: int)
    requires Sound(m)
  {
    && |todo| == |done| == |m.edg|
    && forall e :: 0 <= e < |m.edg| ==> todo[e] || (!done[e] && it <= e) || !Wanted(m, e)
  }

  /** What becomes of the tables when edge `it` is tried. */
  ghost predicate Turned(m: Mesh, m': Mesh, it: int, flipped: bool)
    requires Shaped(m) && 0 <= it < |m.edg| && |m.edg[it].ele| == 2
  {
    var t, u := m.edg[it].ele[0], m.edg[it].ele[1];
    SlotsFound(m, it, t, u) && m' == if flipped then Flip(m, it, t, u) else m
  }

  /** After a flip the edges with an end on the turned edge are marked, too. */
  ghost predicate Marked(m: Mesh, todo: seq<bool>, todo': seq<bool>, it: int, flipped: bool)
    requires 0 <= it < |m.edg| && |m.edg[it].nd| == 2
  {
    && |todo'| == |todo| == |m.edg|
    && forall e :: 0 <= e < |m.edg| ==> (todo'[e] <==> todo[e] || (flipped && Touches(m, it, e)))
  }

  lemma ClearedSkip(m: Mesh, todo: seq<bool>, done: seq<bool>, it: int)
    requires Sound(m) && 0 <= it < |m.edg| && Cleared(m, todo, done, it)
    requires done[it] || !Wanted(m, it)
    ensures Cleared(m, todo, done, it + 1)
  {
  }

  lemma Unmarked(m: Mesh, todo: seq<bool>, todo': seq<bool>, it: int, e: int)
    requires 0 <= it < |m.edg| && |m.edg[it].nd| == 2 && Marked(m, todo, todo', it, true)
    requires 0 <= e < |m.edg| && !todo'[e]
    ensures !todo[e] && !Touches(m, it, e) && e != it
  {
    assert EndsAt(m, it, m.edg[it].nd[0]);
  }

  lemma TurnedLeaves(m: Mesh, m': Mesh, it: int, t: int, u: int, e: int)
    requires Sound(m) && Joins(m, it, t, u) && Coupling(m, it) < 0.0
    requires SlotsFound(m, it, t, u) && m' == Flip(m, it, t, u)
    requires 0 <= e < |m.edg| && !Wanted(m, e)
    ensures Sound(m') && |m'.edg| == |m.edg| && |m'.edg[it].nd| == 2
    ensures Touches(m', it, e) || !Wanted(m', e)
  {
    CkFlipNeverRefuses(m, it, t, u);
    StillUnwanted(m, it, t, u, e, m');
  }

  /** One edge that is not marked after edge `it` was flipped. */
  lemma ClearedOne(m: Mesh, m': Mesh, todo: seq<bool>, todo': seq<bool>, done: seq<bool>, it: int, e: int)
    requires Sound(m) && Sound(m') && 0 <= it < |m.edg| == |m'.edg| && |m.edg[it].ele| == 2 && |m'.edg[it].nd| == 2
    requires Wanted(m, it) && Turned(m, m', it, true)
    requires Cleared(m, todo, done, it) && Marked(m', todo, todo', it, true)
    requires 0 <= e < |m.edg| && !todo'[e] && (done[e] || e < it + 1)
    ensures !Wanted(m', e)
  {
    Unmarked(m', todo, todo', it, e);
    TurnedLeaves(m, m', it, m.edg[it].ele[0], m.edg[it].ele[1], e);
  }

  lemma ClearedNext(m: Mesh, m': Mesh, todo: seq<bool>, todo': seq<bool>, done: seq<bool>, it: int)
    requires Sound(m) && Sound(m')
    requires 0 <= it < |m.edg| == |m'.edg| && |m.edg[it].ele| == 2 && |m'.edg[it].nd| == 2
    requires Cleared(m, todo, done, it)
    requires Turned(m, m', it, Wanted(m, it)) && Marked(m', todo, todo', it, Wanted(m, it))
    ensures Cleared(m', todo', done, it + 1)
  {
    forall e | 0 <= e < |m.edg| && !todo'[e] && (done[e] || e < it + 1) ensures !Wanted(m', e) {
      if Wanted(m, it) {
        ClearedOne(m, m', todo, todo', done, it, e);
      }
    }
  }

  lemma ClearedAtEnd(m: Mesh, todo: seq<bool>, done: seq<bool>)
    requires Sound(m) && Cleared(m, todo, done, |m.edg|)
    ensures Skippable(m, todo) && (NoneMarked(todo) ==> AllDelaunay(m))
  {
    if NoneMarked(todo) {
      forall e | 0 <= e < |m.edg| ensures LocallyDelaunay(m, e) {
        WantedIsNotDelaunay(m, e);
      }
    }
  }

  /** Where only marked edges may be wanted, the mesh is Delaunay exactly if no
      marked edge is. */
  lemma MarksDecide(m: Mesh, todo: seq<bool>)
    requires Sound(m) && Skippable(m, todo)
    ensures AllDelaunay(m) <==> forall e :: 0 <= e < |m.edg| && todo[e] ==> !Wanted(m, e)
  {
    forall e | 0 <= e < |m.edg| ensures Wanted(m, e) <==> !LocallyDelaunay(m, e) {
      WantedIsNotDelaunay(m, e);
    }
  }

  /** What a number of flips leaves of the mesh. */
  ghost predicate Improved(m: Mesh, m': Mesh, flips: nat)
    requires Shaped(m) && Shaped(m')
  {
    Preserves(m, m') && if flips == 0 then m' == m else Energy(m') < Energy(m)
  }

  lemma ImprovedChain(a: Mesh, b: Mesh, c: Mesh, k: nat, n: nat)
    requires Shaped(a) && Shaped(b) && Shaped(c) && Improved(a, b, k) && Improved(b, c, n)
    ensures Improved(a, c, k + n)
  {
  }
}
