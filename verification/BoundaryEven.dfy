/** On a mesh with reciprocal neighbour slots every boundary point has even
    degree, so region_loops never fails. */
module BoundaryEven {
  import opened Options
  import opened StrModel
  import opened BoundarySegments
  import opened RegionLoops
  import opened BoundaryLoops

  // --------------------------------------------------------- finite counting

  /** A pairing without fixed points needs an even number of elements. */
  lemma {:induction false} PairedSetsAreEven(s: set<Half>, f: map<Half, Half>)
    requires forall x <- s :: x in f && f[x] in s && f[x] != x && f[x] in f && f[f[x]] == x
    ensures |s| % 2 == 0
    decreases |s|
  {
    if s != {} {
      var x :| x in s;
      var s' := s - {x} - {f[x]};
      assert |s| == |s'| + 2;
      forall y <- s' ensures f[y] in s' {
        assert f[f[y]] == y;
      }
      PairedSetsAreEven(s', f);
    }
  }

  lemma {:induction false} ImageSize(s: set<Half>, f: map<Half, nat>, t: set<nat>)
    requires forall x <- s :: x in f
    requires forall x <- s, y <- s :: f[x] == f[y] ==> x == y
    requires t == set x | x in s :: f[x]
    ensures |t| == |s|
    decreases |s|
  {
    if s != {} {
      var x :| x in s;
      var s', t' := s - {x}, t - {f[x]};
      assert t' == set y | y in s' :: f[y];
      ImageSize(s', f, t');
    }
  }

  // ------------------------------------------------------------ valid meshes

  predicate Corners(e: Element) {
    Triangular(e) && e.vertices[0] != e.vertices[1] && e.vertices[1] != e.vertices[2] && e.vertices[0] != e.vertices[2]
  }

  /** A neighbour code leads to a triangle that owns the same side and points back. */
  ghost predicate Answered(s: Structure, h: Half) {
    IsHalf(s, h) && s.elements[h.t].neighbors[h.i] >= 0 ==> exists g :: Twins(s, h, g)
  }

  /** Two owners of a side are each other's neighbours. */
  predicate Paired(s: Structure, h: Half, g: Half) {
    IsHalf(s, h) && IsHalf(s, g) && h != g && KeyOf(s, h) == KeyOf(s, g) ==> Twins(s, h, g)
  }

  /** A triangle mesh with reciprocal neighbour slots. */
  ghost predicate Reciprocal(s: Structure) {
    && AllTriangular(s)
    && (forall e <- s.elements :: Corners(e))
    && (forall h :: Answered(s, h))
    && (forall h, g :: Paired(s, h, g))
  }

  /** h and g are the two sides of one edge. */
  predicate Twins(s: Structure, h: Half, g: Half) {
    && IsHalf(s, h) && IsHalf(s, g) && h != g && KeyOf(s, h) == KeyOf(s, g)
    && Across(s, h) == Some(g.t) && Across(s, g) == Some(h.t)
  }

  predicate EndsAt(s: Structure, h: Half, p: int)
    requires IsHalf(s, h)
  {
    Tail(s, h) == p || Head(s, h) == p
  }

  /** The half-sides of a region that end at p. */
  function HalvesAt(s: Structure, region: int, p: int): set<Half>
    requires AllTriangular(s)
  {
    set t, i | 0 <= t < |s.elements| && 0 <= i < 3 && IsHalf(s, Half(t, i))
               && s.elements[t].regionId == region && EndsAt(s, Half(t, i), p) :: Half(t, i)
  }

  lemma DistinctCorners(s: Structure, h: Half)
    requires Reciprocal(s) && IsHalf(s, h)
    ensures Corners(s.elements[h.t])
  {
    assert s.elements[h.t] in s.elements;
  }

  /** The other side of the same triangle at p. */
  function Beside(s: Structure, h: Half, p: int): Half
    requires IsHalf(s, h)
  {
    if Tail(s, h) == p then Half(h.t, (h.i + 2) % 3) else Half(h.t, (h.i + 1) % 3)
  }

  lemma BesidePairs(s: Structure, h: Half, p: int)
    requires Reciprocal(s) && IsHalf(s, h) && EndsAt(s, h, p)
    ensures var g := Beside(s, h, p); IsHalf(s, g) && EndsAt(s, g, p) && g != h && Beside(s, g, p) == h
  {
    DistinctCorners(s, h);
  }

  lemma HalvesAreEven(s: Structure, region: int, p: int)
    requires Reciprocal(s)
    ensures |HalvesAt(s, region, p)| % 2 == 0
  {
    var hs := HalvesAt(s, region, p);
    var f := map h | h in hs :: Beside(s, h, p);
    forall h <- hs ensures f[h] in hs && f[h] != h && f[f[h]] == h {
      BesidePairs(s, h, p);
    }
    PairedSetsAreEven(hs, f);
  }

  /** The half-sides there that lie inside the region. */
  function InnerAt(s: Structure, region: int, p: int): set<Half>
    requires AllTriangular(s)
  {
    set h | h in HalvesAt(s, region, p) && !Constrained(s, h)
  }

  function BorderAt(s: Structure, region: int, p: int): set<Half>
    requires AllTriangular(s)
  {
    set h | h in HalvesAt(s, region, p) && Constrained(s, h)
  }

  lemma InnerTwin(s: Structure, h: Half) returns (g: Half)
    requires Reciprocal(s) && IsHalf(s, h) && !Constrained(s, h)
    ensures Twins(s, h, g) && !Constrained(s, g) && s.elements[g.t].regionId == s.elements[h.t].regionId
    ensures forall p :: EndsAt(s, h, p) <==> EndsAt(s, g, p)
    ensures forall k :: Twins(s, h, k) ==> k == g
  {
    assert Answered(s, h);
    g :| Twins(s, h, g);
    forall k | Twins(s, h, k) ensures k == g {
      SlotsDiffer(s, k, g);
    }
  }

  lemma SlotsDiffer(s: Structure, h: Half, g: Half)
    requires Reciprocal(s) && IsHalf(s, h) && IsHalf(s, g) && h.t == g.t && KeyOf(s, h) == KeyOf(s, g)
    ensures h == g
  {
    DistinctCorners(s, h);
    KeysDiffer(s.elements[h.t].vertices, h.i, g.i);
  }

  lemma KeysDiffer(v: seq<int>, i: nat, j: nat)
    requires |v| == 3 && v[0] != v[1] && v[1] != v[2] && v[0] != v[2] && i < 3 && j < 3
    requires SideKey(v[(i + 1) % 3], v[(i + 2) % 3]) == SideKey(v[(j + 1) % 3], v[(j + 2) % 3])
    ensures i == j
  {
  }

  ghost function TwinOf(s: Structure, h: Half): (g: Half)
    requires Reciprocal(s) && IsHalf(s, h) && !Constrained(s, h)
    ensures Twins(s, h, g)
  {
    assert Answered(s, h);
    var g :| Twins(s, h, g);
    g
  }

  lemma InnersAreEven(s: Structure, region: int, p: int)
    requires Reciprocal(s)
    ensures |InnerAt(s, region, p)| % 2 == 0
  {
    var hs := InnerAt(s, region, p);
    var f := map h | h in hs :: TwinOf(s, h);
    forall h <- hs ensures f[h] in hs && f[h] != h && f[f[h]] == h {
      var g := InnerTwin(s, h);
      var k := InnerTwin(s, g);
      assert Twins(s, g, h);
      assert g in HalvesAt(s, region, p);
    }
    PairedSetsAreEven(hs, f);
  }

  lemma BordersAreEven(s: Structure, region: int, p: int)
    requires Reciprocal(s)
    ensures |BorderAt(s, region, p)| % 2 == 0
  {
    HalvesAreEven(s, region, p);
    InnersAreEven(s, region, p);
    SplitSize(HalvesAt(s, region, p), InnerAt(s, region, p), BorderAt(s, region, p));
    EvenRest(|HalvesAt(s, region, p)|, |InnerAt(s, region, p)|, |BorderAt(s, region, p)|);
  }

  lemma EvenRest(a: nat, b: nat, c: nat)
    requires a == b + c && a % 2 == 0 && b % 2 == 0
    ensures c % 2 == 0
  {
  }

  lemma SplitSize(a: set<Half>, b: set<Half>, c: set<Half>)
    requires b <= a && c == a - b
    ensures |a| == |b| + |c|
  {
    assert a == b + c;
  }

  // ------------------------------------------- half-sides against the graph

  /** The segments of a region that end at p, by number. */
  function SegsAt(segs: seq<Segment>, region: int, p: int): set<nat> {
    set j: nat | j < |segs| && Meets(segs[j], region, p)
  }

  /** Segments join two different points and two different regions. */
  predicate Proper(segs: seq<Segment>) {
    forall s <- segs :: s.a != s.b && s.right != Some(s.left)
  }

  lemma {:induction false} DegreeCountsSegments(segs: seq<Segment>, region: int, p: int)
    requires Proper(segs)
    ensures Degree(BoundaryGraph(segs, region), p) == |SegsAt(segs, region, p)|
  {
    if segs == [] {
      assert SegsAt(segs, region, p) == {};
    } else {
      var n := |segs| - 1;
      var rest, s := segs[..n], segs[n];
      assert s in segs;
      DegreeCountsSegments(rest, region, p);
      BoundaryDegree(segs, region, p);
      SegsAtGrows(segs, region, p);
    }
  }

  predicate Meets(s: Segment, region: int, p: int) {
    Touches(s, region) && (s.a == p || s.b == p)
  }

  lemma SegsAtGrows(segs: seq<Segment>, region: int, p: int)
    requires |segs| > 0
    ensures var n := |segs| - 1;
            |SegsAt(segs, region, p)| == |SegsAt(segs[..n], region, p)| + (if Meets(segs[n], region, p) then 1 else 0)
  {
    var n := |segs| - 1;
    var was, now := SegsAt(segs[..n], region, p), SegsAt(segs, region, p);
    var last: set<nat> := if Meets(segs[n], region, p) then {n} else {};
    forall j: nat ensures j in now <==> j in was + last {
      if j < n { assert segs[..n][j] == segs[j]; }
    }
    assert now == was + last;
  }

  lemma CollectedAreProper(s: Structure, segs: seq<Segment>, from: seq<Half>)
    requires Reciprocal(s) && Collected(s, segs, from, |s.elements|, 0)
    ensures Proper(segs)
  {
    forall j | 0 <= j < |segs| ensures segs[j].a != segs[j].b && segs[j].right != Some(segs[j].left) {
      SegmentKey(s, segs, from, j);
      SideIsProper(s, from[j]);
    }
  }

  lemma SideIsProper(s: Structure, h: Half)
    requires Reciprocal(s) && IsHalf(s, h) && Constrained(s, h)
    ensures var seg := SegmentOf(s, h); seg.a != seg.b && seg.right != Some(seg.left)
  {
    DistinctCorners(s, h);
    SideEndsDiffer(s.elements[h.t].vertices, h.i);
  }

  lemma SideEndsDiffer(v: seq<int>, i: nat)
    requires |v| == 3 && v[0] != v[1] && v[1] != v[2] && v[0] != v[2] && i < 3
    ensures v[(i + 1) % 3] != v[(i + 2) % 3]
  {
  }

  /** A segment written for one side of an edge serves the other side too. */
  lemma SegmentServesTwin(s: Structure, g: Half, h: Half)
    requires Reciprocal(s) && IsHalf(s, g) && IsHalf(s, h) && Constrained(s, g) && KeyOf(s, g) == KeyOf(s, h)
    ensures Touches(SegmentOf(s, g), s.elements[h.t].regionId)
    ensures forall p :: EndsAt(s, h, p) <==> SegmentOf(s, g).a == p || SegmentOf(s, g).b == p
  {
    assert Paired(s, g, h);
  }

  /** The segment that stands for a constrained half-side. */
  lemma SegmentFor(s: Structure, segs: seq<Segment>, from: seq<Half>, h: Half) returns (j: nat)
    requires Reciprocal(s) && Collected(s, segs, from, |s.elements|, 0)
    requires IsHalf(s, h) && Constrained(s, h)
    ensures j < |segs| && KeyOf(s, from[j]) == KeyOf(s, h) && Touches(segs[j], s.elements[h.t].regionId)
    ensures forall p :: EndsAt(s, h, p) <==> segs[j].a == p || segs[j].b == p
  {
    assert BoundarySegments.Taken(s, from, h) by { assert Visited(h, |s.elements|, 0); }
    j :| 0 <= j < |from| && IsHalf(s, from[j]) && KeyOf(s, from[j]) == KeyOf(s, h);
    SegmentServesTwin(s, from[j], h);
  }

  /** The half-side of a region that a segment of the region stands for. */
  lemma HalfFor(s: Structure, segs: seq<Segment>, from: seq<Half>, j: nat, region: int) returns (h: Half)
    requires Reciprocal(s) && Collected(s, segs, from, |s.elements|, 0)
    requires j < |segs| && Touches(segs[j], region)
    ensures IsHalf(s, h) && Constrained(s, h) && s.elements[h.t].regionId == region && KeyOf(s, h) == KeyOf(s, from[j])
    ensures forall p :: EndsAt(s, h, p) <==> segs[j].a == p || segs[j].b == p
  {
    var g := from[j];
    if segs[j].left == region {
      h := g;
    } else {
      h := TwinAcross(s, g);
    }
  }

  lemma TwinAcross(s: Structure, g: Half) returns (h: Half)
    requires Reciprocal(s) && IsHalf(s, g) && Constrained(s, g) && Across(s, g).Some?
    ensures IsHalf(s, h) && Constrained(s, h) && KeyOf(s, h) == KeyOf(s, g) && Across(s, g) == Some(h.t)
    ensures forall p :: EndsAt(s, h, p) <==> EndsAt(s, g, p)
  {
    assert Answered(s, g);
    h :| Twins(s, g, h);
  }

  /** Two half-sides of one region on the same edge are not constrained. */
  lemma OneHalfPerRegion(s: Structure, h: Half, g: Half)
    requires Reciprocal(s) && IsHalf(s, h) && IsHalf(s, g) && Constrained(s, h)
    requires KeyOf(s, h) == KeyOf(s, g) && s.elements[h.t].regionId == s.elements[g.t].regionId
    ensures h == g
  {
    assert Paired(s, h, g);
  }

  /** Segment j stands for the half-side h at p. */
  predicate Stands(s: Structure, segs: seq<Segment>, from: seq<Half>, region: int, p: int, h: Half, j: nat)
    requires |from| == |segs|
  {
    && j < |segs| && IsHalf(s, h) && IsHalf(s, from[j]) && KeyOf(s, from[j]) == KeyOf(s, h)
    && Meets(segs[j], region, p)
  }

  /** ... and no other segment does. */
  ghost predicate OnlyStands(s: Structure, segs: seq<Segment>, from: seq<Half>, region: int, p: int, h: Half, j: nat)
    requires |from| == |segs|
  {
    Stands(s, segs, from, region, p, h, j) && forall k: nat :: Stands(s, segs, from, region, p, h, k) ==> k == j
  }

  lemma BorderStands(s: Structure, segs: seq<Segment>, from: seq<Half>, region: int, p: int, h: Half) returns (j: nat)
    requires Reciprocal(s) && Collected(s, segs, from, |s.elements|, 0) && h in BorderAt(s, region, p)
    ensures Stands(s, segs, from, region, p, h, j)
    ensures forall k: nat :: Stands(s, segs, from, region, p, h, k) ==> k == j
  {
    j := SegmentFor(s, segs, from, h);
  }

  lemma SegmentStands(s: Structure, segs: seq<Segment>, from: seq<Half>, region: int, p: int, j: nat) returns (h: Half)
    requires Reciprocal(s) && Collected(s, segs, from, |s.elements|, 0) && j in SegsAt(segs, region, p)
    ensures Stands(s, segs, from, region, p, h, j) && h in BorderAt(s, region, p)
  {
    h := HalfFor(s, segs, from, j, region);
    InBorder(s, region, p, h);
  }

  lemma InBorder(s: Structure, region: int, p: int, h: Half)
    requires AllTriangular(s)
    ensures h in BorderAt(s, region, p) <==>
              IsHalf(s, h) && Constrained(s, h) && s.elements[h.t].regionId == region && EndsAt(s, h, p)
  {
    assert h == Half(h.t, h.i);
  }

  ghost predicate HasSegment(s: Structure, segs: seq<Segment>, from: seq<Half>, region: int, p: int, h: Half)
    requires |from| == |segs|
  {
    exists j: nat :: OnlyStands(s, segs, from, region, p, h, j)
  }

  lemma StandsOnce(s: Structure, segs: seq<Segment>, from: seq<Half>, region: int, p: int, h: Half)
    requires Reciprocal(s) && Collected(s, segs, from, |s.elements|, 0) && h in BorderAt(s, region, p)
    ensures HasSegment(s, segs, from, region, p, h)
  {
    var j := BorderStands(s, segs, from, region, p, h);
    assert OnlyStands(s, segs, from, region, p, h, j);
  }

  lemma {:induction false} NamesOf(
    s: Structure, segs: seq<Segment>, from: seq<Half>, region: int, p: int, hs: set<Half>)
    returns (f: map<Half, nat>)
    requires |from| == |segs| && forall h <- hs :: HasSegment(s, segs, from, region, p, h)
    ensures f.Keys == hs && forall h <- f :: OnlyStands(s, segs, from, region, p, h, f[h])
  {
    f := map[];
    if hs != {} {
      var h :| h in hs;
      f := NamesOf(s, segs, from, region, p, hs - {h});
      var j: nat :| OnlyStands(s, segs, from, region, p, h, j);
      f := f[h := j];
    }
  }

  lemma SegmentMap(s: Structure, segs: seq<Segment>, from: seq<Half>, region: int, p: int) returns (f: map<Half, nat>)
    requires Reciprocal(s) && Collected(s, segs, from, |s.elements|, 0)
    ensures Names(s, segs, from, region, p, f)
  {
    forall h <- BorderAt(s, region, p) ensures HasSegment(s, segs, from, region, p, h) {
      StandsOnce(s, segs, from, region, p, h);
    }
    f := NamesOf(s, segs, from, region, p, BorderAt(s, region, p));
  }

  /** f names for each half-side its segment. */
  ghost predicate Names(s: Structure, segs: seq<Segment>, from: seq<Half>, region: int, p: int, f: map<Half, nat>)
    requires AllTriangular(s) && |from| == |segs|
  {
    && f.Keys == BorderAt(s, region, p)
    && forall h <- f :: OnlyStands(s, segs, from, region, p, h, f[h])
  }

  lemma NamesHit(
    s: Structure, segs: seq<Segment>, from: seq<Half>, region: int, p: int, f: map<Half, nat>, j: nat) returns (h: Half)
    requires Reciprocal(s) && Collected(s, segs, from, |s.elements|, 0) && Names(s, segs, from, region, p, f)
    requires j in SegsAt(segs, region, p)
    ensures h in f && f[h] == j
  {
    h := SegmentStands(s, segs, from, region, p, j);
    assert OnlyStands(s, segs, from, region, p, h, f[h]);
  }

  lemma ImageIs(f: map<Half, nat>, t: set<nat>)
    requires forall h <- f :: f[h] in t
    requires forall j <- t :: exists h :: h in f && f[h] == j
    ensures t == set h | h in f.Keys :: f[h]
  {
  }

  lemma NamesDiffer(
    s: Structure, segs: seq<Segment>, from: seq<Half>, region: int, p: int, f: map<Half, nat>, h: Half, g: Half)
    requires Reciprocal(s) && |from| == |segs| && Names(s, segs, from, region, p, f)
    requires h in f && g in f && f[h] == f[g]
    ensures h == g
  {
    assert OnlyStands(s, segs, from, region, p, h, f[h]) && OnlyStands(s, segs, from, region, p, g, f[g]);
    InBorder(s, region, p, h);
    InBorder(s, region, p, g);
    OneHalfPerRegion(s, h, g);
  }

  lemma BordersCountSegments(s: Structure, segs: seq<Segment>, from: seq<Half>, region: int, p: int)
    requires Reciprocal(s) && Collected(s, segs, from, |s.elements|, 0)
    ensures |SegsAt(segs, region, p)| == |BorderAt(s, region, p)|
  {
    var f := SegmentMap(s, segs, from, region, p);
    forall h <- f ensures f[h] in SegsAt(segs, region, p) {
      assert OnlyStands(s, segs, from, region, p, h, f[h]);
    }
    forall j <- SegsAt(segs, region, p) ensures exists h :: h in f && f[h] == j {
      var h := NamesHit(s, segs, from, region, p, f, j);
    }
    ImageIs(f, SegsAt(segs, region, p));
    forall h, g | h in f.Keys && g in f.Keys && f[h] == f[g] ensures h == g {
      NamesDiffer(s, segs, from, region, p, f, h, g);
    }
    ImageSize(f.Keys, f, SegsAt(segs, region, p));
  }

  /** Double counting: at every point of a valid mesh an even number of boundary
      segments of each region meet. */
  lemma ValidMeshesHaveEvenBoundaries(s: Structure, segs: seq<Segment>, from: seq<Half>, region: int)
    requires Reciprocal(s) && Collected(s, segs, from, |s.elements|, 0)
    ensures EvenAt(segs, region)
  {
    CollectedAreProper(s, segs, from);
    forall p ensures Degree(BoundaryGraph(segs, region), p) % 2 == 0 {
      DegreeCountsSegments(segs, region, p);
      BordersCountSegments(s, segs, from, region, p);
      BordersAreEven(s, region, p);
    }
  }

  /** region_loops() on a valid mesh: it answers, and the loops of every region use
      each of its boundary segments exactly once. */
  method RegionLoopsOfMesh(s: Structure) returns (loops: map<int, seq<seq<int>>>)
    requires Reciprocal(s) && Is2D(s)
    ensures AreLoopsOf(s, loops)
  {
    var r, segs, from := RegionLoopsOf(s);
    forall region ensures EvenAt(segs, region) {
      ValidMeshesHaveEvenBoundaries(s, segs, from, region);
    }
    loops := r.value;
  }
}
