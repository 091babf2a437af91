/** remesh/simplify.py: which closed parts of the boundary keep a point.  The code
    promises to hold one point of every closed ring without fixed points, but
    does so only when there is no fixed point anywhere, and then for one ring. */
module BoundaryIslands {
  import opened Options
  import opened Plane
  import opened StrModel
  import opened BoundarySegments
  import opened RegionLoops
  import opened BoundaryChains
  import opened SimplifyBoundary

  /** A group of points that no side leaves. */
  ghost predicate Island(g: Graph, island: set<int>) {
    forall p, n :: p in island && Adjacent(g, p, n) ==> n in island
  }

  lemma {:induction false} StaysOnIsland(g: Graph, island: set<int>, to: set<int>, p: int, path: seq<int>)
    requires Island(g, island) && p in island && Way(g, to, p, path)
    ensures exists q :: q in island && q in to
    decreases |path|
  {
    if |path| == 1 {
      assert p in to;
    } else {
      assert Adjacent(g, path[0], path[0 + 1]);
      forall i | 0 <= i < |path| - 2 ensures Adjacent(g, path[1..][i], path[1..][i + 1]) {
        assert Adjacent(g, path[i + 1], path[i + 1 + 1]);
      }
      StaysOnIsland(g, island, to, path[1], path[1..]);
    }
  }

  /** An island of the boundary keeps a point exactly if it has an anchor. */
  lemma IslandVanishesExactlyWhen(
    g: Graph, fixed: set<int>, coords: seq<Point>, tolerance: real, keep: set<int>, island: set<int>)
    requires Simplified(g, fixed, coords, tolerance, keep) && Island(g, island)
    ensures island !! keep <==> island !! Anchors(g, fixed)
  {
    if island !! Anchors(g, fixed) {
      forall p | p in island && p in keep ensures false {
        var path :| Way(g, Anchors(g, fixed), p, path);
        StaysOnIsland(g, island, Anchors(g, fixed), p, path);
      }
    }
  }

  /** So an island without fixed points, of which one point was promised, keeps
      one exactly if there is no fixed point at all, the island holds the least
      point, and this does not lead back to itself. */
  lemma PromiseKeptExactlyWhen(
    g: Graph, fixed: set<int>, coords: seq<Point>, tolerance: real, keep: set<int>, island: set<int>)
    requires Simplified(g, fixed, coords, tolerance, keep) && Island(g, island) && island != {} && island <= g.Keys
    requires island !! fixed
    ensures !(island !! keep) <==>
      fixed == {} && Least(g.Keys) in island && !Adjacent(g, Least(g.Keys), Least(g.Keys))
  {
    IslandVanishesExactlyWhen(g, fixed, coords, tolerance, keep, island);
  }

  // ------------------------------------------------------ a structure that loses

  lemma {:induction false} KeyIsUsed(segs: seq<Segment>, a: int, b: int, j: nat)
    requires j < |segs| && SideKey(segs[j].a, segs[j].b) == SideKey(a, b)
    ensures KeyUses(segs, a, b) >= 1
  {
    if j < |segs| - 1 {
      KeyIsUsed(segs[..|segs| - 1], a, b, j);
    }
  }

  ghost predicate KeptSide(s: Structure, h: Half, p: int, n: int) {
    IsHalf(s, h) && Constrained(s, h) && KeyOf(s, h) == SideKey(p, n)
  }

  lemma SideIsUsed(s: Structure, segs: seq<Segment>, from: seq<Half>, p: int, n: int, h: Half)
    requires Collected(s, segs, from, |s.elements|, 0) && KeptSide(s, h, p, n)
    ensures KeyUses(segs, p, n) >= 1
  {
    assert BoundarySegments.Taken(s, from, h) by {
      assert Visited(h, |s.elements|, 0);
    }
    var j: nat :| j < |from| && IsHalf(s, from[j]) && KeyOf(s, from[j]) == KeyOf(s, h);
    SegmentKey(s, segs, from, j);
    KeyIsUsed(segs, p, n, j);
  }

  lemma UsedIsSide(s: Structure, segs: seq<Segment>, from: seq<Half>, p: int, n: int) returns (h: Half)
    requires Collected(s, segs, from, |s.elements|, 0) && KeyUses(segs, p, n) != 0
    ensures KeptSide(s, h, p, n) && KeyUses(segs, p, n) == 1
  {
    CollectedKeys(s, segs, from);
    DistinctKeysCount(segs, p, n);
    var j: nat :| j < |segs| && SideKey(segs[j].a, segs[j].b) == SideKey(p, n);
    h := from[j];
    SegmentKey(s, segs, from, j);
  }

  /** Two points are joined once if a constrained side runs between them, and
      not at all otherwise. */
  lemma SidesOfNeighbours(s: Structure, segs: seq<Segment>, from: seq<Half>, p: int, n: int)
    requires Collected(s, segs, from, |s.elements|, 0) && p != n
    ensures Count(Neighbours(segs), p, n) == if exists h :: KeptSide(s, h, p, n) then 1 else 0
  {
    NeighboursCount(segs, p, n);
    if KeyUses(segs, p, n) != 0 {
      var h := UsedIsSide(s, segs, from, p, n);
    } else if h :| KeptSide(s, h, p, n) {
      SideIsUsed(s, segs, from, p, n, h);
    }
  }

  lemma {:induction false} NoSideToItself(segs: seq<Segment>, p: int)
    requires forall j :: 0 <= j < |segs| ==> segs[j].a != segs[j].b
    ensures Count(Neighbours(segs), p, p) == 0
  {
    if segs != [] {
      var rest, s := segs[..|segs| - 1], segs[|segs| - 1];
      NoSideToItself(rest, p);
      AddSideCount(Neighbours(rest), s.a, s.b, p, p);
    }
  }

  function Outer(id: int, a: int): Element {
    Element(id, 1, [a, a + 1, a + 2], [-1, -1, -1], [-1, -1])
  }

  /** Two triangles of one region that do not touch. */
  const TWO_TRIANGLES: Structure := Structure(2, 3, 3, [
      Coordinate(1, 0.0, 0.0), Coordinate(2, 4.0, 0.0), Coordinate(3, 0.0, 4.0),
      Coordinate(4, 6.0, 0.0), Coordinate(5, 10.0, 0.0), Coordinate(6, 6.0, 4.0)],
    [Region(1, 3)], [Outer(1, 0), Outer(2, 3)], [])

  predicate Joined(p: int, n: int) {
    0 <= p < 6 && 0 <= n < 6 && p / 3 == n / 3 && p != n
  }

  lemma HalvesJoin(h: Half)
    requires IsHalf(TWO_TRIANGLES, h)
    ensures Constrained(TWO_TRIANGLES, h) && Joined(Tail(TWO_TRIANGLES, h), Head(TWO_TRIANGLES, h))
    ensures SignatureOf(SegmentOf(TWO_TRIANGLES, h)) == (1, None, -1)
  {
    var e := TWO_TRIANGLES.elements[h.t];
    assert e == Outer(h.t + 1, 3 * h.t);
  }

  lemma JoinedBySide(p: int, n: int)
    ensures Joined(p, n) <==> exists h :: KeptSide(TWO_TRIANGLES, h, p, n)
  {
    var s := TWO_TRIANGLES;
    if Joined(p, n) {
      var h := Half(p / 3, 3 - p % 3 - n % 3);
      assert s.elements[h.t] == Outer(h.t + 1, 3 * h.t);
      HalvesJoin(h);
      assert KeptSide(s, h, p, n);
    }
    if h :| KeptSide(s, h, p, n) {
      HalvesJoin(h);
    }
  }

  /** What simplify_boundary() works on, whatever the order of the segments. */
  lemma TwoRings(segs: seq<Segment>, from: seq<Half>, p: int, n: int)
    requires Collected(TWO_TRIANGLES, segs, from, 2, 0)
    ensures Count(Neighbours(segs), p, n) == if Joined(p, n) then 1 else 0
    ensures Adjacent(Neighbours(segs), p, n) <==> Joined(p, n)
  {
    forall j | 0 <= j < |segs| ensures segs[j].a != segs[j].b {
      HalvesJoin(from[j]);
    }
    if p == n {
      NoSideToItself(segs, p);
    } else {
      SidesOfNeighbours(TWO_TRIANGLES, segs, from, p, n);
      JoinedBySide(p, n);
    }
  }

  function Next(p: int): int {
    if p == 2 then 0 else if p == 5 then 3 else p + 1
  }

  lemma JoinedToTwo(p: int, n: int)
    requires 0 <= p < 6
    ensures Joined(p, n) <==> n == Next(p) || n == Next(Next(p))
    ensures Next(p) != Next(Next(p))
  {
  }

  lemma TwoEntries(s: seq<int>, x: int, y: int)
    requires x != y && forall n :: multiset(s)[n] == if n == x || n == y then 1 else 0
    ensures |s| == 2
  {
    var m := multiset{x, y};
    assert forall n :: m[n] == if n == x || n == y then 1 else 0;
    assert forall n :: multiset(s)[n] == m[n];
    assert multiset(s) == m && |multiset(s)| == |s|;
  }

  lemma TwoSidesEach(segs: seq<Segment>, from: seq<Half>, p: int)
    requires Collected(TWO_TRIANGLES, segs, from, 2, 0)
    ensures p in Neighbours(segs) <==> 0 <= p < 6
    ensures p in Neighbours(segs) ==> Degree(Neighbours(segs), p) == 2
  {
    var g := Neighbours(segs);
    if 0 <= p < 6 {
      var x, y := Next(p), Next(Next(p));
      forall n ensures multiset(Entries(g, p))[n] == if n == x || n == y then 1 else 0 {
        TwoRings(segs, from, p, n);
        JoinedToTwo(p, n);
      }
      JoinedToTwo(p, x);
      TwoEntries(Entries(g, p), x, y);
    } else if p in g {
      NeighboursUndirected(segs);
      TwoRings(segs, from, p, g[p][0]);
    }
  }

  lemma NothingFixed(segs: seq<Segment>, from: seq<Half>)
    requires Collected(TWO_TRIANGLES, segs, from, 2, 0)
    ensures FixedOf(segs) == {}
  {
    forall s <- segs ensures SignatureOf(s) == (1, None, -1) {
      var j :| 0 <= j < |segs| && segs[j] == s;
      HalvesJoin(from[j]);
    }
    forall p | p in Neighbours(segs) ensures !MustStay(segs, p) {
      TwoSidesEach(segs, from, p);
    }
  }

  lemma AnchorIsZero(segs: seq<Segment>, from: seq<Half>)
    requires Collected(TWO_TRIANGLES, segs, from, 2, 0)
    ensures Anchors(Neighbours(segs), {}) == {0}
  {
    var g := Neighbours(segs);
    TwoSidesEach(segs, from, 0);
    TwoRings(segs, from, 0, 0);
    forall p <- g.Keys ensures 0 <= p {
      TwoSidesEach(segs, from, p);
    }
    LeastIs(g.Keys, 0);
  }

  predicate InSecond(p: int) {
    3 <= p < 6
  }

  lemma StaysInRing(p: int, n: int)
    requires Joined(p, n) && InSecond(p)
    ensures InSecond(n)
  {
  }

  lemma RingStep(segs: seq<Segment>, from: seq<Half>, p: int, n: int)
    requires Collected(TWO_TRIANGLES, segs, from, 2, 0)
    ensures InSecond(p) && Adjacent(Neighbours(segs), p, n) ==> InSecond(n)
  {
    TwoRings(segs, from, p, n);
    if Joined(p, n) && InSecond(p) {
      StaysInRing(p, n);
    }
  }

  lemma RingIsIsland(segs: seq<Segment>, from: seq<Half>, ring: set<int>)
    requires Collected(TWO_TRIANGLES, segs, from, 2, 0) && forall p :: p in ring <==> InSecond(p)
    ensures Island(Neighbours(segs), ring)
  {
    forall p, n ensures p in ring && Adjacent(Neighbours(segs), p, n) ==> n in ring {
      RingStep(segs, from, p, n);
    }
  }

  lemma SecondRingIsLost(segs: seq<Segment>, from: seq<Half>, coords: seq<Point>, tolerance: real, keep: set<int>)
    requires Collected(TWO_TRIANGLES, segs, from, 2, 0)
    requires Simplified(Neighbours(segs), FixedOf(segs), coords, tolerance, keep)
    ensures 0 in keep && forall p :: InSecond(p) ==> p !in keep
  {
    var ring := set p | 3 <= p < 6 && InSecond(p);
    assert forall p :: p in ring <==> InSecond(p);
    assert 0 !in ring;
    NothingFixed(segs, from);
    AnchorIsZero(segs, from);
    RingIsIsland(segs, from, ring);
    IslandVanishesExactlyWhen(Neighbours(segs), {}, coords, tolerance, keep, ring);
  }

  lemma TwoTrianglesFit()
    ensures AllTriangular(TWO_TRIANGLES) && Vertices(TWO_TRIANGLES) && Is2D(TWO_TRIANGLES)
  {
    assert forall e <- TWO_TRIANGLES.elements :: e == Outer(1, 0) || e == Outer(2, 3);
  }

  lemma LeastIs(s: set<int>, m: int)
    requires IsLeast(s, m)
    ensures Least(s) == m
  {
  }

  /** simplify_boundary() on this structure loses the second ring, whatever the
      tolerance. */
  method LoseSecondRing(tolerance: real) returns (keep: set<int>)
    requires tolerance > 0.0
    ensures 0 in keep && forall p :: InSecond(p) ==> p !in keep
  {
    TwoTrianglesFit();
    var r;
    ghost var segs, from;
    r, segs, from := Run(TWO_TRIANGLES, tolerance);
    keep := r.value;
    SecondRingIsLost(segs, from, Points(TWO_TRIANGLES), tolerance, keep);
  }
}
