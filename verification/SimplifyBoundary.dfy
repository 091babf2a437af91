/** remesh/simplify.py: dropping boundary points that carry no shape. */
module SimplifyBoundary {
  import opened Options
  import opened Plane
  import opened StrModel
  import opened FiniteSets
  import opened BoundarySegments
  import opened RegionLoops
  import opened BoundaryChains
  import opened SegmentDistance
  import opened DouglasPeucker
  import BoundaryLoops

  // ------------------------------------------------------------- the tables

  type Signature = (int, Option<int>, int)

  function SignatureOf(s: Segment): Signature {
    (s.left, s.right, s.bc)
  }

  /** The dict `neighbours`. */
  function Neighbours(segs: seq<Segment>): Graph {
    if segs == [] then map[]
    else BoundaryLoops.AddSide(Neighbours(segs[..|segs|-1]), segs[|segs|-1].a, segs[|segs|-1].b)
  }

  predicate Touches(s: Segment, p: int) {
    s.a == p || s.b == p
  }

  /** The set `kinds[p]`. */
  function Signatures(segs: seq<Segment>, p: int): set<Signature> {
    set s | s in segs && Touches(s, p) :: SignatureOf(s)
  }

  predicate DistinctKeys(segs: seq<Segment>) {
    forall i, j :: 0 <= i < j < |segs| ==> SideKey(segs[i].a, segs[i].b) != SideKey(segs[j].a, segs[j].b)
  }

  function KeyUses(segs: seq<Segment>, a: int, b: int): nat {
    if segs == [] then 0
    else
      var s := segs[|segs|-1];
      KeyUses(segs[..|segs|-1], a, b) + if SideKey(s.a, s.b) == SideKey(a, b) then 1 else 0
  }

  lemma {:induction false} NeighboursUndirected(segs: seq<Segment>)
    ensures Undirected(Neighbours(segs))
  {
    if segs != [] {
      NeighboursUndirected(segs[..|segs|-1]);
      BoundaryLoops.AddSideKeeps(Neighbours(segs[..|segs|-1]), segs[|segs|-1].a, segs[|segs|-1].b);
    }
  }

  lemma AddSideCount(g: Graph, a: int, b: int, x: int, y: int)
    ensures Count(BoundaryLoops.AddSide(g, a, b), x, y) == Count(g, x, y) + Along(a, b, x, y) + Along(b, a, x, y)
  {
    BoundaryLoops.AddSideOneMore(g, a, b);
    var g1 := g[a := Entries(g, a) + [b]];
    assert Count(g1, x, y) == Count(g, x, y) + Along(a, b, x, y);
  }

  lemma {:induction false} NeighboursCount(segs: seq<Segment>, a: int, b: int)
    requires a != b
    ensures Count(Neighbours(segs), a, b) == KeyUses(segs, a, b)
  {
    if segs != [] {
      var rest, s := segs[..|segs|-1], segs[|segs|-1];
      NeighboursCount(rest, a, b);
      AddSideCount(Neighbours(rest), s.a, s.b, a, b);
    }
  }

  lemma {:induction false} DistinctKeysCount(segs: seq<Segment>, a: int, b: int)
    requires DistinctKeys(segs)
    ensures KeyUses(segs, a, b) <= 1
    ensures KeyUses(segs, a, b) == 0 || exists i :: 0 <= i < |segs| && SideKey(segs[i].a, segs[i].b) == SideKey(a, b)
  {
    if segs != [] {
      var rest := segs[..|segs|-1];
      DistinctKeysCount(rest, a, b);
      if KeyUses(rest, a, b) != 0 {
        var i :| 0 <= i < |rest| && SideKey(rest[i].a, rest[i].b) == SideKey(a, b);
        assert segs[i] == rest[i];
      } else {
        assert segs[|rest|] == segs[|segs|-1];
      }
    }
  }

  lemma NeighboursPlain(segs: seq<Segment>)
    requires DistinctKeys(segs)
    ensures Plain(Neighbours(segs))
  {
    NeighboursUndirected(segs);
    forall a, b | a != b ensures Count(Neighbours(segs), a, b) <= 1 {
      NeighboursCount(segs, a, b);
      DistinctKeysCount(segs, a, b);
    }
  }

  lemma CollectedKeys(s: Structure, segs: seq<Segment>, from: seq<Half>)
    requires Collected(s, segs, from, |s.elements|, 0)
    ensures DistinctKeys(segs)
  {
    forall i, j | 0 <= i < j < |segs| ensures SideKey(segs[i].a, segs[i].b) != SideKey(segs[j].a, segs[j].b) {
      KeysApart(s, segs, from, i, j);
    }
  }

  /** A point the doc comment promises to keep: not exactly two sides meet
      there, or two sides of different kinds do. */
  ghost predicate MustStay(segs: seq<Segment>, p: int) {
    p in Neighbours(segs) && (Degree(Neighbours(segs), p) != 2 || TwoKinds(segs, p))
  }

  ghost function FixedOf(segs: seq<Segment>): set<int> {
    set p | p in Neighbours(segs) && MustStay(segs, p)
  }

  ghost predicate TwoKinds(segs: seq<Segment>, p: int) {
    exists s <- segs, t <- segs :: Touches(s, p) && Touches(t, p) && SignatureOf(s) != SignatureOf(t)
  }

  lemma MoreThanOne(segs: seq<Segment>, p: int)
    ensures |Signatures(segs, p)| > 1 <==> TwoKinds(segs, p)
  {
    var k := Signatures(segs, p);
    if |k| > 1 {
      var x :| x in k;
      assert |k - {x}| > 0;
      var y :| y in k - {x};
      var s :| s in segs && Touches(s, p) && SignatureOf(s) == x;
      var t :| t in segs && Touches(t, p) && SignatureOf(t) == y;
    }
    if TwoKinds(segs, p) {
      var s, t :| s in segs && t in segs && Touches(s, p) && Touches(t, p) && SignatureOf(s) != SignatureOf(t);
      assert SignatureOf(s) in k;
      assert SignatureOf(t) in k - {SignatureOf(s)};
      assert |k - {SignatureOf(s)}| >= 1;
    }
  }

  type Kinds = map<int, set<Signature>>

  function KindsAt(kinds: Kinds, p: int): set<Signature> {
    if p in kinds then kinds[p] else {}
  }

  ghost predicate Tabled(segs: seq<Segment>, neighbours: Graph, kinds: Kinds) {
    neighbours == Neighbours(segs) && forall p :: KindsAt(kinds, p) == Signatures(segs, p)
  }

  function AddKind(kinds: Kinds, p: int, k: Signature): Kinds {
    kinds[p := KindsAt(kinds, p) + {k}]
  }

  lemma SignaturesMore(segs: seq<Segment>, s: Segment, p: int)
    ensures Signatures(segs + [s], p) == Signatures(segs, p) + if Touches(s, p) then {SignatureOf(s)} else {}
  {
    assert forall t :: t in segs + [s] <==> t in segs || t == s;
  }

  lemma TabledMore(segs: seq<Segment>, neighbours: Graph, kinds: Kinds, s: Segment)
    requires Tabled(segs, neighbours, kinds)
    ensures Tabled(segs + [s], BoundaryLoops.AddSide(neighbours, s.a, s.b),
                   AddKind(AddKind(kinds, s.a, SignatureOf(s)), s.b, SignatureOf(s)))
  {
    var segs' := segs + [s];
    assert segs'[..|segs|] == segs && segs'[|segs|] == s;
    forall p ensures Signatures(segs', p) == Signatures(segs, p) + if Touches(s, p) then {SignatureOf(s)} else {} {
      SignaturesMore(segs, s, p);
    }
  }

  /** The loop over the segments. */
  method Tables(segs: seq<Segment>) returns (neighbours: Graph, kinds: Kinds)
    ensures Tabled(segs, neighbours, kinds)
  {
    neighbours, kinds := map[], map[];
    for i := 0 to |segs|
      invariant Tabled(segs[..i], neighbours, kinds)
    {
      var s := segs[i];
      TabledMore(segs[..i], neighbours, kinds, s);
      assert segs[..i] + [s] == segs[..i + 1];
      neighbours := BoundaryLoops.AddSide(neighbours, s.a, s.b);
      kinds := AddKind(AddKind(kinds, s.a, SignatureOf(s)), s.b, SignatureOf(s));
    }
    assert segs[..|segs|] == segs;
  }

  // ------------------------------------------- fixed points, from the structure

  predicate Joins(t: Segment, p: int, q: int) {
    (t.a == p && t.b == q) || (t.a == q && t.b == p)
  }

  lemma AddSideAdjacent(g: Graph, a: int, b: int, p: int, q: int)
    ensures var g' := BoundaryLoops.AddSide(g, a, b);
      && (Adjacent(g', p, q) <==> Adjacent(g, p, q) || (a == p && b == q) || (a == q && b == p))
      && (p in g' <==> p in g || a == p || b == p)
  {
    assert q in Entries(g, a) + [b] <==> q in Entries(g, a) || q == b;
  }

  lemma {:induction false} NeighboursJoin(segs: seq<Segment>, p: int, q: int)
    ensures Adjacent(Neighbours(segs), p, q) <==> exists t <- segs :: Joins(t, p, q)
    ensures p in Neighbours(segs) <==> exists t <- segs :: Touches(t, p)
  {
    if segs != [] {
      var rest, last := segs[..|segs|-1], segs[|segs|-1];
      NeighboursJoin(rest, p, q);
      AddSideAdjacent(Neighbours(rest), last.a, last.b, p, q);
      assert segs == rest + [last];
      assert last in segs && forall t :: t in segs <==> t in rest || t == last;
    }
  }

  /** p is an end of the side. */
  predicate EndOf(s: Structure, h: Half, p: int)
    requires IsHalf(s, h)
  {
    s.elements[h.t].vertices[(h.i + 1) % 3] == p || s.elements[h.t].vertices[(h.i + 2) % 3] == p
  }

  /** The sides tell the same: outer ones of one region with one code, or inner
      ones with one region on this side and one across. */
  predicate SameKind(s: Structure, h: Half, g: Half)
    requires IsHalf(s, h) && IsHalf(s, g) && Constrained(s, h) && Constrained(s, g)
  {
    var e, f := s.elements[h.t], s.elements[g.t];
    && e.regionId == f.regionId
    && (e.neighbors[h.i] < 0 || f.neighbors[g.i] < 0 ==> e.neighbors[h.i] == f.neighbors[g.i])
    && (e.neighbors[h.i] >= 0 && f.neighbors[g.i] >= 0 ==>
          s.elements[Across(s, h).value].regionId == s.elements[Across(s, g).value].regionId)
  }

  /** Two sides that tell different things meet at p. */
  ghost predicate Meet(s: Structure, h: Half, g: Half, p: int) {
    First(s, h) && First(s, g) && EndOf(s, h, p) && EndOf(s, g, p) && !SameKind(s, h, g)
  }

  lemma SameSignature(s: Structure, h: Half, g: Half)
    requires IsHalf(s, h) && IsHalf(s, g) && Constrained(s, h) && Constrained(s, g)
    ensures SignatureOf(SegmentOf(s, h)) == SignatureOf(SegmentOf(s, g)) <==> SameKind(s, h, g)
  {
  }

  lemma SegmentTouches(s: Structure, segs: seq<Segment>, from: seq<Half>, j: nat, p: int)
    requires Collected(s, segs, from, |s.elements|, 0) && j < |segs|
    ensures IsHalf(s, from[j]) && Constrained(s, from[j]) && First(s, from[j])
    ensures segs[j] == SegmentOf(s, from[j]) && (Touches(segs[j], p) <==> EndOf(s, from[j], p))
  {
    SegmentKey(s, segs, from, j);
    TakenIsFirst(s, segs, from, j);
  }

  lemma MeetingIsTwoKinds(s: Structure, segs: seq<Segment>, from: seq<Half>, h: Half, g: Half, p: int)
    requires Collected(s, segs, from, |s.elements|, 0) && Meet(s, h, g, p)
    ensures TwoKinds(segs, p) && p in FixedOf(segs)
  {
    FirstIsTaken(s, segs, from, h);
    FirstIsTaken(s, segs, from, g);
    var j :| 0 <= j < |from| && from[j] == h;
    var k :| 0 <= k < |from| && from[k] == g;
    SegmentTouches(s, segs, from, j, p);
    SegmentTouches(s, segs, from, k, p);
    SameSignature(s, h, g);
    assert segs[j] in segs && segs[k] in segs;
    NeighboursJoin(segs, p, p);
  }

  /** Two kinds are listed at a point exactly if two different sides meet there. */
  lemma TwoKindsExactlyWhen(s: Structure, segs: seq<Segment>, from: seq<Half>, p: int)
    requires Collected(s, segs, from, |s.elements|, 0)
    ensures TwoKinds(segs, p) <==> exists h, g :: Meet(s, h, g, p)
  {
    if TwoKinds(segs, p) {
      var a, b :| a in segs && b in segs && Touches(a, p) && Touches(b, p) && SignatureOf(a) != SignatureOf(b);
      var j :| 0 <= j < |segs| && segs[j] == a;
      var k :| 0 <= k < |segs| && segs[k] == b;
      SegmentTouches(s, segs, from, j, p);
      SegmentTouches(s, segs, from, k, p);
      SameSignature(s, from[j], from[k]);
      assert Meet(s, from[j], from[k], p);
    }
    if h, g :| Meet(s, h, g, p) {
      MeetingIsTwoKinds(s, segs, from, h, g, p);
    }
  }

  /** A constrained side joins p and q. */
  ghost predicate SideBetween(s: Structure, p: int, q: int) {
    exists h :: IsHalf(s, h) && Constrained(s, h) && KeyOf(s, h) == SideKey(p, q)
  }

  lemma AdjacentExactlyWhen(s: Structure, segs: seq<Segment>, from: seq<Half>, p: int, q: int)
    requires Collected(s, segs, from, |s.elements|, 0)
    ensures Adjacent(Neighbours(segs), p, q) <==> SideBetween(s, p, q)
  {
    NeighboursJoin(segs, p, q);
    if t :| t in segs && Joins(t, p, q) {
      ListedIsSide(s, segs, from, t, p, q);
    }
    if SideBetween(s, p, q) {
      SideIsListed(s, segs, from, p, q);
    }
  }

  lemma ListedIsSide(s: Structure, segs: seq<Segment>, from: seq<Half>, t: Segment, p: int, q: int)
    requires Collected(s, segs, from, |s.elements|, 0) && t in segs && Joins(t, p, q)
    ensures SideBetween(s, p, q)
  {
    var j :| 0 <= j < |segs| && segs[j] == t;
    SegmentKey(s, segs, from, j);
    KeyEnds(t.a, t.b, p, q);
  }

  lemma SideIsListed(s: Structure, segs: seq<Segment>, from: seq<Half>, p: int, q: int)
    requires Collected(s, segs, from, |s.elements|, 0) && SideBetween(s, p, q)
    ensures exists t <- segs :: Joins(t, p, q)
  {
    var h :| IsHalf(s, h) && Constrained(s, h) && KeyOf(s, h) == SideKey(p, q);
    var j := HasFirst(s, segs, from, h);
    SegmentKey(s, segs, from, j);
    KeyEnds(segs[j].a, segs[j].b, p, q);
    assert segs[j] in segs && Joins(segs[j], p, q);
  }

  /** A point with a constrained side. */
  ghost predicate OnBoundary(s: Structure, p: int) {
    exists h :: IsHalf(s, h) && Constrained(s, h) && EndOf(s, h, p)
  }

  lemma BoundaryPoints(s: Structure, segs: seq<Segment>, from: seq<Half>, p: int)
    requires Collected(s, segs, from, |s.elements|, 0)
    ensures p in Neighbours(segs) <==> OnBoundary(s, p)
  {
    NeighboursJoin(segs, p, p);
    if t :| t in segs && Touches(t, p) {
      var j :| 0 <= j < |segs| && segs[j] == t;
      SegmentTouches(s, segs, from, j, p);
    }
    if h :| IsHalf(s, h) && Constrained(s, h) && EndOf(s, h, p) {
      var j := HasFirst(s, segs, from, h);
      SegmentEnds(s, segs, from, j, h);
      assert segs[j] in segs;
    }
  }

  /** The points a constrained side joins to p. */
  ghost function JoinedTo(s: Structure, p: int): set<int> {
    set e, q | e in s.elements && q in e.vertices && SideBetween(s, p, q) :: q
  }

  lemma JoinedIs(s: Structure, p: int, q: int)
    ensures q in JoinedTo(s, p) <==> SideBetween(s, p, q)
  {
    if SideBetween(s, p, q) {
      var h :| IsHalf(s, h) && Constrained(s, h) && KeyOf(s, h) == SideKey(p, q);
      KeyEnds(Tail(s, h), Head(s, h), p, q);
      var e := s.elements[h.t];
      assert e in s.elements && Tail(s, h) in e.vertices && Head(s, h) in e.vertices;
    }
  }

  lemma EntriesAreJoined(s: Structure, segs: seq<Segment>, from: seq<Half>, p: int)
    requires Collected(s, segs, from, |s.elements|, 0)
    ensures (set q | q in Entries(Neighbours(segs), p)) == JoinedTo(s, p)
  {
    forall q ensures q in Entries(Neighbours(segs), p) <==> q in JoinedTo(s, p) {
      AdjacentExactlyWhen(s, segs, from, p, q);
      JoinedIs(s, p, q);
    }
  }

  lemma TwiceListed(c: seq<int>, i: nat, j: nat)
    requires i < j < |c| && c[i] == c[j]
    ensures multiset(c)[c[i]] >= 2
  {
    assert c == c[..i] + [c[i]] + c[i + 1..];
    assert c[j] in c[i + 1..];
    assert multiset(c) == multiset(c[..i]) + multiset{c[i]} + multiset(c[i + 1..]);
    assert multiset(c[i + 1..])[c[j]] >= 1;
  }

  lemma DegreeIs(s: Structure, segs: seq<Segment>, from: seq<Half>, p: int)
    requires Collected(s, segs, from, |s.elements|, 0) && !SideBetween(s, p, p)
    ensures Degree(Neighbours(segs), p) == |JoinedTo(s, p)|
  {
    var c := Entries(Neighbours(segs), p);
    CollectedKeys(s, segs, from);
    NeighboursPlain(segs);
    AdjacentExactlyWhen(s, segs, from, p, p);
    forall i, j | 0 <= i < j < |c| ensures c[i] != c[j] {
      assert Adjacent(Neighbours(segs), p, c[i]) && Count(Neighbours(segs), p, c[i]) <= 1;
      if c[i] == c[j] {
        TwiceListed(c, i, j);
      }
    }
    DistinctSize(c);
    EntriesAreJoined(s, segs, from, p);
  }

  /** The points that simplify.py fixes: not two boundary points are joined to
      them, or two different sides meet there. */
  lemma FixedExactlyWhen(s: Structure, segs: seq<Segment>, from: seq<Half>, p: int)
    requires Collected(s, segs, from, |s.elements|, 0) && !SideBetween(s, p, p)
    ensures p in FixedOf(segs) <==>
      OnBoundary(s, p) && (|JoinedTo(s, p)| != 2 || exists h, g :: Meet(s, h, g, p))
  {
    BoundaryPoints(s, segs, from, p);
    DegreeIs(s, segs, from, p);
    TwoKindsExactlyWhen(s, segs, from, p);
  }

  // ---------------------------------------------------- what is kept, and why

  ghost predicate Route(g: Graph, path: seq<int>) {
    && |path| >= 1
    && (forall i :: 0 <= i < |path| - 1 ==> Adjacent(g, path[i], path[i + 1]))
    && (forall i :: 0 < i < |path| - 1 ==> !TurnsBack(path, i))
  }

  predicate Locates(coords: seq<Point>, g: Graph) {
    forall p <- g :: 0 <= p < |coords|
  }

  /** A stretch of the boundary whose ends are kept and whose inner points are
      dropped, all within tolerance of the segment that joins the ends. */
  ghost predicate Replaced(g: Graph, coords: seq<Point>, tolerance: real, keep: set<int>, path: seq<int>) {
    && Route(g, path) && Indexed(path, coords) && Flat(path, coords, tolerance, 0, |path| - 1)
    && path[0] in keep && path[|path| - 1] in keep && Interior(path) !! keep
  }

  ghost predicate Supported(g: Graph, coords: seq<Point>, tolerance: real, keep: set<int>, p: int) {
    exists path :: Replaced(g, coords, tolerance, keep, path) && p in Interior(path)
  }

  /** p is the farthest point of some stretch between kept points, and beyond
      tolerance of the segment that joins them. */
  ghost predicate Earned(g: Graph, coords: seq<Point>, tolerance: real, keep: set<int>, p: int) {
    exists path, k: nat ::
      && Route(g, path) && Indexed(path, coords) && Far(path, coords, tolerance, 0, k, |path| - 1)
      && path[k] == p && path[0] in keep && path[|path| - 1] in keep
  }

  ghost predicate Way(g: Graph, to: set<int>, p: int, path: seq<int>) {
    && |path| >= 1 && path[0] == p && path[|path| - 1] in to
    && forall i :: 0 <= i < |path| - 1 ==> Adjacent(g, path[i], path[i + 1])
  }

  ghost predicate Reaches(g: Graph, to: set<int>, p: int) {
    exists path :: Way(g, to, p, path)
  }

  /** The fixed points; where there are none the least point, unless its only
      side leads back to itself. */
  function Anchors(g: Graph, fixed: set<int>): set<int> {
    if fixed != {} || g.Keys == {} then fixed
    else if Adjacent(g, Least(g.Keys), Least(g.Keys)) then {}
    else {Least(g.Keys)}
  }

  /** What simplify_boundary() achieves.  A dropped point is supported exactly if
      the boundary leads from it to an anchor; no other point is kept. */
  ghost predicate Simplified(g: Graph, fixed: set<int>, coords: seq<Point>, tolerance: real, keep: set<int>) {
    && fixed <= keep <= g.Keys && Anchors(g, fixed) <= keep
    && (forall p <- g.Keys :: p !in keep ==>
        (Supported(g, coords, tolerance, keep, p) <==> Reaches(g, Anchors(g, fixed), p)))
    && (forall p <- keep :: Reaches(g, Anchors(g, fixed), p))
    && (forall p <- keep :: p in Anchors(g, fixed) || Earned(g, coords, tolerance, keep, p))
  }

  // ---------------------------------------------------------- thinning chains

  ghost predicate AllThinned(chains: seq<seq<int>>, coords: seq<Point>, tolerance: real, kepts: seq<Kept>) {
    |kepts| == |chains| &&
    forall k: nat :: k < |chains| ==>
      Indexed(chains[k], coords) && Bounded(chains[k], coords, tolerance, kepts[k])
          && Needed(chains[k], coords, tolerance, kepts[k])
  }

  ghost predicate KeptOn(chains: seq<seq<int>>, kepts: seq<Kept>, p: int)
    requires |kepts| == |chains|
  {
    exists k: nat :: k < |chains| && p in Ids(chains[k], kepts[k])
  }

  ghost predicate Gathered(fixed: set<int>, chains: seq<seq<int>>, kepts: seq<Kept>, keep: set<int>)
    requires |kepts| == |chains|
  {
    forall p :: p in keep <==> p in fixed || KeptOn(chains, kepts, p)
  }

  lemma GatheredMore(fixed: set<int>, chains: seq<seq<int>>, kepts: seq<Kept>, keep: set<int>, c: seq<int>, kept: Kept)
    requires |kepts| == |chains| && Gathered(fixed, chains, kepts, keep)
    ensures Gathered(fixed, chains + [c], kepts + [kept], keep + Ids(c, kept))
  {
    var chains', kepts' := chains + [c], kepts + [kept];
    forall p ensures KeptOn(chains', kepts', p) <==> KeptOn(chains, kepts, p) || p in Ids(c, kept) {
      if KeptOn(chains, kepts, p) {
        var k: nat :| k < |chains| && p in Ids(chains[k], kepts[k]);
        assert p in Ids(chains'[k], kepts'[k]);
      } else if p in Ids(c, kept) {
        assert p in Ids(chains'[|chains|], kepts'[|chains|]);
      }
    }
  }

  /** The loop over the chains. */
  method ThinAll(chains: seq<seq<int>>, fixed: set<int>, coords: seq<Point>, tolerance: real)
    returns (keep: set<int>, ghost kepts: seq<Kept>)
    requires tolerance >= 0.0 && forall c <- chains :: |c| >= 2 && Indexed(c, coords)
    ensures AllThinned(chains, coords, tolerance, kepts) && Gathered(fixed, chains, kepts, keep)
  {
    keep, kepts := fixed, [];
    for i := 0 to |chains|
      invariant AllThinned(chains[..i], coords, tolerance, kepts) && Gathered(fixed, chains[..i], kepts, keep)
    {
      assert chains[i] in chains;
      ghost var kept;
      var more;
      more, kept := Thin(chains[i], coords, tolerance);
      GatheredMore(fixed, chains[..i], kepts, keep, chains[i], kept);
      assert chains[..i] + [chains[i]] == chains[..i + 1];
      keep := keep + more;
      kepts := kepts + [kept];
    }
    assert chains[..|chains|] == chains;
  }

  // ------------------------------------------------------ from chains to points

  /** The kept positions on both sides of a dropped one. */
  lemma Around(kept: Kept, n: nat, i: nat) returns (lo: nat, hi: nat)
    requires 0 in kept && n - 1 in kept && i < n && i !in kept
    ensures lo < i < hi < n && DouglasPeucker.Neighbours(kept, lo, hi)
  {
    lo, hi := i, i;
    while lo !in kept
      invariant lo <= i && forall k :: lo < k <= i ==> k !in kept
      decreases lo
    {
      lo := lo - 1;
    }
    while hi !in kept
      invariant i <= hi < n && forall k :: i <= k < hi ==> k !in kept
      decreases n - hi
    {
      hi := hi + 1;
    }
  }

  /** A part of a chain is a route. */
  lemma Part(g: Graph, cut: set<int>, c: seq<int>, coords: seq<Point>, lo: nat, hi: nat)
    requires Chain(g, cut, c) && Indexed(c, coords) && lo < hi < |c|
    ensures Route(g, c[lo..hi + 1]) && Indexed(c[lo..hi + 1], coords)
  {
    var path := c[lo..hi + 1];
    forall i | 0 <= i < |path| - 1 ensures Adjacent(g, path[i], path[i + 1]) {
      assert Adjacent(g, c[lo + i], c[lo + i + 1]);
    }
    forall i | 0 < i < |path| - 1 ensures !TurnsBack(path, i) {
      assert !TurnsBack(c, lo + i);
    }
  }

  lemma PartFlat(c: seq<int>, coords: seq<Point>, tolerance: real, lo: nat, hi: nat)
    requires lo < hi < |c| && Indexed(c, coords) && Indexed(c[lo..hi + 1], coords) && Flat(c, coords, tolerance, lo, hi)
    ensures Flat(c[lo..hi + 1], coords, tolerance, 0, hi - lo)
  {
    var path, n := c[lo..hi + 1], hi - lo;
    forall j | 0 < j < n ensures Offset(path, coords, j, 0, n) <= Sq(tolerance) {
      assert Offset(c, coords, lo + j, lo, hi) <= Sq(tolerance);
    }
  }

  lemma PartFar(c: seq<int>, coords: seq<Point>, tolerance: real, lo: nat, m: nat, hi: nat)
    requires lo < m < hi < |c| && Indexed(c, coords) && Indexed(c[lo..hi + 1], coords)
    requires Far(c, coords, tolerance, lo, m, hi)
    ensures Far(c[lo..hi + 1], coords, tolerance, 0, m - lo, hi - lo)
  {
    var path, n, k := c[lo..hi + 1], hi - lo, m - lo;
    assert Offset(path, coords, k, 0, n) == Offset(c, coords, m, lo, hi);
    forall j | 0 < j < n ensures Offset(path, coords, j, 0, n) <= Offset(path, coords, k, 0, n) {
      assert Offset(c, coords, lo + j, lo, hi) <= Offset(c, coords, m, lo, hi);
    }
  }

  /** The inner points of a chain that it drops. */
  function DroppedOn(c: seq<int>, kept: Kept): set<int> {
    set j: nat | 0 < j < |c| - 1 && j !in kept :: c[j]
  }

  /** Around a dropped point of a chain lies a flat part of it with kept ends. */
  lemma FlatPart(
    g: Graph, cut: set<int>, c: seq<int>, coords: seq<Point>, tolerance: real, kept: Kept, p: int)
    returns (path: seq<int>)
    requires Chain(g, cut, c) && Indexed(c, coords) && Bounded(c, coords, tolerance, kept) && p in DroppedOn(c, kept)
    ensures Route(g, path) && Indexed(path, coords) && Flat(path, coords, tolerance, 0, |path| - 1)
    ensures path[0] in Ids(c, kept) && path[|path| - 1] in Ids(c, kept)
    ensures p in Interior(path) && Interior(path) <= DroppedOn(c, kept)
  {
    var i: nat :| 0 < i < |c| - 1 && i !in kept && c[i] == p;
    var lo, hi := FlatAround(c, coords, tolerance, kept, i);
    path := c[lo..hi + 1];
    Part(g, cut, c, coords, lo, hi);
    PartFlat(c, coords, tolerance, lo, hi);
    PartDrops(c, kept, lo, i, hi);
  }

  lemma FlatAround(c: seq<int>, coords: seq<Point>, tolerance: real, kept: Kept, i: nat) returns (lo: nat, hi: nat)
    requires Indexed(c, coords) && Bounded(c, coords, tolerance, kept) && 0 < i < |c| - 1 && i !in kept
    ensures lo < i < hi < |c| && DouglasPeucker.Neighbours(kept, lo, hi) && Flat(c, coords, tolerance, lo, hi)
  {
    lo, hi := Around(kept, |c|, i);
  }

  lemma PartDrops(c: seq<int>, kept: Kept, lo: nat, i: nat, hi: nat)
    requires lo < i < hi < |c| && DouglasPeucker.Neighbours(kept, lo, hi)
    ensures var path := c[lo..hi + 1];
      && path[0] in Ids(c, kept) && path[|path| - 1] in Ids(c, kept)
      && c[i] in Interior(path) && Interior(path) <= DroppedOn(c, kept)
  {
    var path := c[lo..hi + 1];
    assert path[0] == c[lo] && path[|path| - 1] == c[hi] && path[i - lo] == c[i];
    forall q | q in Interior(path) ensures q in DroppedOn(c, kept) {
      var j: nat :| 0 < j < |path| - 1 && path[j] == q;
      assert c[lo + j] == q && lo + j !in kept;
    }
  }

  lemma FarEnds(c: seq<int>, coords: seq<Point>, tolerance: real, kept: Kept, m: nat) returns (lo: nat, hi: nat)
    requires Indexed(c, coords) && Needed(c, coords, tolerance, kept) && m in kept && 0 < m < |c| - 1
    ensures lo in kept && hi in kept && Far(c, coords, tolerance, lo, m, hi)
  {
    assert FarFrom(c, coords, tolerance, kept, m);
    lo, hi :| lo in kept && hi in kept && Far(c, coords, tolerance, lo, m, hi);
  }

  /** The part of a chain that makes one of its points stay. */
  lemma EarnedOnChain(
    g: Graph, cut: set<int>, c: seq<int>, coords: seq<Point>, tolerance: real, keep: set<int>, lo: nat, m: nat,
    hi: nat)
    requires Chain(g, cut, c) && Indexed(c, coords) && Far(c, coords, tolerance, lo, m, hi) && c[lo] in keep
    requires c[hi] in keep
    ensures Earned(g, coords, tolerance, keep, c[m])
  {
    var path, k := c[lo..hi + 1], m - lo;
    Part(g, cut, c, coords, lo, hi);
    PartFar(c, coords, tolerance, lo, m, hi);
    assert path[0] == c[lo] && path[|path| - 1] == c[hi] && path[k] == c[m];
  }

  lemma OnlyPosition(g: Graph, cut: set<int>, c: seq<int>, i: nat, m: nat)
    requires Chain(g, cut, c) && 0 < i < |c| - 1 && m < |c| && c[m] == c[i]
    ensures m == i
  {
    assert Free(g, cut, c[i]);
  }

  /** What one chain drops, no chain keeps. */
  lemma DroppedForGood(
    g: Graph, cut: set<int>, chains: seq<seq<int>>, covered: set<int>, kepts: seq<Kept>, k: nat, p: int)
    requires Found(g, cut, chains, covered) && |kepts| == |chains| && k < |chains|
    requires p in DroppedOn(chains[k], kepts[k])
    ensures !KeptOn(chains, kepts, p) && p !in cut
  {
    assert chains[k] in chains;
    DroppedIsFree(g, cut, chains[k], kepts[k], p);
    forall l: nat | l < |chains| ensures p !in Ids(chains[l], kepts[l]) {
      assert chains[l] in chains;
      if l != k {
        assert p !in Interior(chains[l]) by {
          assert k < l ==> Interior(chains[k]) !! Interior(chains[l]);
          assert l < k ==> Interior(chains[l]) !! Interior(chains[k]);
        }
        NotKept(g, cut, chains[l], kepts[l], p);
      }
    }
  }

  lemma DroppedIsFree(g: Graph, cut: set<int>, c: seq<int>, kept: Kept, p: int)
    requires Chain(g, cut, c) && p in DroppedOn(c, kept)
    ensures p in Interior(c) && p !in cut && p !in Ids(c, kept)
  {
    var i: nat :| 0 < i < |c| - 1 && i !in kept && c[i] == p;
    assert Free(g, cut, c[i]);
    forall m: nat | m in kept && m < |c| ensures c[m] != p {
      if c[m] == p {
        OnlyPosition(g, cut, c, i, m);
        assert false;
      }
    }
  }

  lemma NotKept(g: Graph, cut: set<int>, c: seq<int>, kept: Kept, p: int)
    requires Chain(g, cut, c) && p !in cut && p !in Interior(c)
    ensures p !in Ids(c, kept)
  {
    forall m: nat | m < |c| ensures c[m] != p {
      assert 0 < m < |c| - 1 ==> c[m] in Interior(c);
    }
  }

  lemma DroppedIsSupported(g: Graph, cut: set<int>, chains: seq<seq<int>>, covered: set<int>, coords: seq<Point>,
      tolerance: real,
                           kepts: seq<Kept>, fixed: set<int>, keep: set<int>, p: int)
    requires Found(g, cut, chains, covered) && AllThinned(chains, coords, tolerance, kepts)
    requires Gathered(fixed, chains, kepts, keep) && fixed <= cut
    requires p in covered && p !in keep
    ensures Supported(g, coords, tolerance, keep, p)
  {
    assert Inside(chains, p);
    var k: nat :| k < |chains| && p in Interior(chains[k]);
    assert chains[k] in chains;
    assert !KeptOn(chains, kepts, p);
    assert p !in Ids(chains[k], kepts[k]);
    var path := FlatPart(g, cut, chains[k], coords, tolerance, kepts[k], p);
    assert KeptOn(chains, kepts, path[0]) && KeptOn(chains, kepts, path[|path| - 1]);
    forall q | q in Interior(path) ensures q !in keep {
      DroppedForGood(g, cut, chains, covered, kepts, k, q);
    }
    assert Replaced(g, coords, tolerance, keep, path);
  }

  lemma KeptIsEarned(g: Graph, cut: set<int>, chains: seq<seq<int>>, covered: set<int>, coords: seq<Point>,
      tolerance: real,
                     kepts: seq<Kept>, fixed: set<int>, keep: set<int>, p: int)
    requires Found(g, cut, chains, covered) && AllThinned(chains, coords, tolerance, kepts)
    requires Gathered(fixed, chains, kepts, keep) && fixed <= cut
    requires p in keep && p !in cut
    ensures p in covered && Earned(g, coords, tolerance, keep, p)
  {
    var l, m := KeptAt(g, cut, chains, covered, kepts, p);
    assert KeptOn(chains, kepts, p);
    assert p in Interior(chains[l]);
    var lo, hi := FarEnds(chains[l], coords, tolerance, kepts[l], m);
    assert chains[l][lo] in Ids(chains[l], kepts[l]) && chains[l][hi] in Ids(chains[l], kepts[l]);
    assert KeptOn(chains, kepts, chains[l][lo]) && KeptOn(chains, kepts, chains[l][hi]);
    EarnedOnChain(g, cut, chains[l], coords, tolerance, keep, lo, m, hi);
  }

  lemma KeptAt(
    g: Graph, cut: set<int>, chains: seq<seq<int>>, covered: set<int>, kepts: seq<Kept>, p: int)
    returns (l: nat, m: nat)
    requires Found(g, cut, chains, covered) && |kepts| == |chains| && KeptOn(chains, kepts, p) && p !in cut
    ensures l < |chains| && Chain(g, cut, chains[l]) && m in kepts[l] && 0 < m < |chains[l]| - 1 && chains[l][m] == p
  {
    l :| l < |chains| && p in Ids(chains[l], kepts[l]);
    m :| m in kepts[l] && m < |chains[l]| && chains[l][m] == p;
    assert chains[l] in chains;
  }

  lemma CoveredReaches(g: Graph, cut: set<int>, chains: seq<seq<int>>, covered: set<int>, p: int)
    requires Found(g, cut, chains, covered) && p in covered
    ensures Reaches(g, cut, p)
  {
    assert Inside(chains, p);
    var k: nat :| k < |chains| && p in Interior(chains[k]);
    assert chains[k] in chains;
    ChainReaches(g, cut, chains[k], p);
  }

  lemma ChainReaches(g: Graph, cut: set<int>, c: seq<int>, p: int)
    requires Chain(g, cut, c) && p in Interior(c)
    ensures Reaches(g, cut, p)
  {
    var i: nat :| 0 < i < |c| - 1 && c[i] == p;
    var path := c[i..];
    forall j | 0 <= j < |path| - 1 ensures Adjacent(g, path[j], path[j + 1]) {
      assert Adjacent(g, c[i + j], c[i + j + 1]);
    }
    assert Way(g, cut, p, path);
  }

  /** A path that starts at a point neither fixed nor covered stays at such points. */
  lemma {:induction false} Stranded(g: Graph, cut: set<int>, covered: set<int>, path: seq<int>)
    requires Ready(g, cut) && Swept(g, cut, covered) && |path| >= 1
    requires path[0] !in cut && path[0] !in covered
    requires forall i :: 0 <= i < |path| - 1 ==> Adjacent(g, path[i], path[i + 1])
    ensures path[|path| - 1] !in cut && path[|path| - 1] !in covered
  {
    if |path| > 1 {
      assert Adjacent(g, path[0], path[0 + 1]);
      AdjacentBothWays(g, path[0], path[1]);
      var rest := path[1..];
      forall i | 0 <= i < |rest| - 1 ensures Adjacent(g, rest[i], rest[i + 1]) {
        assert Adjacent(g, path[i + 1], path[i + 1 + 1]);
      }
      Stranded(g, cut, covered, rest);
    }
  }

  lemma UncoveredIsLost(
    g: Graph, cut: set<int>, covered: set<int>, coords: seq<Point>, tolerance: real, keep: set<int>, p: int)
    requires Ready(g, cut) && Swept(g, cut, covered) && keep <= cut + covered
    requires p !in cut && p !in covered
    ensures !Reaches(g, cut, p) && !Supported(g, coords, tolerance, keep, p)
  {
    forall path ensures !Way(g, cut, p, path) {
      if Way(g, cut, p, path) {
        Stranded(g, cut, covered, path);
        assert false;
      }
    }
    forall path ensures !(Replaced(g, coords, tolerance, keep, path) && p in Interior(path)) {
      if Replaced(g, coords, tolerance, keep, path) && p in Interior(path) {
        var i: nat :| 0 < i < |path| - 1 && path[i] == p;
        StrandedFrom(g, cut, covered, path, i);
        assert false;
      }
    }
  }

  lemma StrandedFrom(g: Graph, cut: set<int>, covered: set<int>, path: seq<int>, i: nat)
    requires Ready(g, cut) && Swept(g, cut, covered) && Route(g, path)
    requires i < |path| && path[i] !in cut && path[i] !in covered
    ensures path[|path| - 1] !in cut && path[|path| - 1] !in covered
  {
    var rest := path[i..];
    forall j | 0 <= j < |rest| - 1 ensures Adjacent(g, rest[j], rest[j + 1]) {
      assert Adjacent(g, path[i + j], path[i + j + 1]);
    }
    Stranded(g, cut, covered, rest);
  }

  // -------------------------------------------------------------- the whole

  ghost predicate Outcome(g: Graph, fixed: set<int>, coords: seq<Point>, tolerance: real, keep: set<int>,
                          chains: seq<seq<int>>, covered: set<int>, kepts: seq<Kept>) {
    && Ready(g, fixed) && Ready(g, Cuts(g, fixed))
    && Found(g, Cuts(g, fixed), chains, covered) && Swept(g, Cuts(g, fixed), covered)
    && AllThinned(chains, coords, tolerance, kepts) && Gathered(fixed, chains, kepts, keep)
  }

  lemma KeptInRange(g: Graph, fixed: set<int>, coords: seq<Point>, tolerance: real, keep: set<int>,
                    chains: seq<seq<int>>, covered: set<int>, kepts: seq<Kept>)
    requires Outcome(g, fixed, coords, tolerance, keep, chains, covered, kepts)
    ensures fixed <= keep <= Cuts(g, fixed) + covered && keep <= g.Keys
  {
    var cut := Cuts(g, fixed);
    forall p <- fixed ensures p in keep {}
    forall p <- keep ensures p in cut + covered && p in g {
      if p !in cut {
        KeptIsEarned(g, cut, chains, covered, coords, tolerance, kepts, fixed, keep, p);
      }
    }
  }

  /** With no fixed point anywhere, the least point starts a chain of its own ... */
  lemma LeastStarts(g: Graph, fixed: set<int>, coords: seq<Point>, tolerance: real, keep: set<int>,
                    chains: seq<seq<int>>, covered: set<int>, kepts: seq<Kept>)
    requires Outcome(g, fixed, coords, tolerance, keep, chains, covered, kepts)
    requires fixed == {} && g.Keys != {} && !Adjacent(g, Least(g.Keys), Least(g.Keys))
    ensures Least(g.Keys) in keep
  {
    var least := Least(g.Keys);
    assert Cuts(g, fixed) == {least};
    var k := StartChain(g, chains, covered, least);
    assert 0 in kepts[k];
    assert least in Ids(chains[k], kepts[k]);
    assert KeptOn(chains, kepts, least);
  }

  lemma StartChain(g: Graph, chains: seq<seq<int>>, covered: set<int>, least: int) returns (k: nat)
    requires NoEmpty(g) && least in g && !Adjacent(g, least, least)
    requires Found(g, {least}, chains, covered) && Swept(g, {least}, covered)
    ensures k < |chains| && |chains[k]| > 2 && chains[k][0] == least
  {
    var n := g[least][0];
    assert Adjacent(g, least, n);
    assert Inside(chains, n);
    k :| k < |chains| && n in Interior(chains[k]);
    assert chains[k] in chains;
  }

  /** ... unless its only side leads back to itself. */
  lemma NothingStarts(g: Graph, fixed: set<int>, coords: seq<Point>, tolerance: real, keep: set<int>,
                      chains: seq<seq<int>>, covered: set<int>, kepts: seq<Kept>)
    requires Outcome(g, fixed, coords, tolerance, keep, chains, covered, kepts)
    requires fixed == {} && g.Keys != {} && Adjacent(g, Least(g.Keys), Least(g.Keys))
    ensures keep == {}
  {
    var least := Least(g.Keys);
    var cut := Cuts(g, fixed);
    OnlyItself(g, least);
    forall c ensures c !in chains {
      assert |c| > 2 && c[0] == least && Adjacent(g, c[0], c[0 + 1]) ==> c[1] == least;
    }
    assert forall k: nat :: k < |chains| ==> chains[k] in chains;
    forall p ensures p !in keep {
      assert !KeptOn(chains, kepts, p);
    }
  }

  lemma OnlyItself(g: Graph, p: int)
    requires Plain(g) && Degree(g, p) == 2 && Adjacent(g, p, p)
    ensures forall n :: Adjacent(g, p, n) ==> n == p
  {
    var s := Entries(g, p);
    assert s == [s[0], s[1]];
    assert multiset(s) == multiset{s[0], s[1]};
    assert Count(g, p, p) % 2 == 0;
  }

  lemma OutcomeIsSimplified(g: Graph, fixed: set<int>, coords: seq<Point>, tolerance: real, keep: set<int>,
                            chains: seq<seq<int>>, covered: set<int>, kepts: seq<Kept>)
    requires Outcome(g, fixed, coords, tolerance, keep, chains, covered, kepts)
    ensures Simplified(g, fixed, coords, tolerance, keep)
  {
    var cut, anchors := Cuts(g, fixed), Anchors(g, fixed);
    KeptInRange(g, fixed, coords, tolerance, keep, chains, covered, kepts);
    if fixed == {} && g.Keys != {} {
      if Adjacent(g, Least(g.Keys), Least(g.Keys)) {
        NothingStarts(g, fixed, coords, tolerance, keep, chains, covered, kepts);
      } else {
        LeastStarts(g, fixed, coords, tolerance, keep, chains, covered, kepts);
      }
    }
    if cut == anchors {
      assert cut <= keep;
      forall p <- g.Keys
        ensures p !in keep ==> (Supported(g, coords, tolerance, keep, p) <==> Reaches(g, anchors, p))
        ensures p in keep ==> Reaches(g, anchors, p)
        ensures p in keep ==> p in anchors || Earned(g, coords, tolerance, keep, p)
      {
        PointOutcome(g, fixed, coords, tolerance, keep, chains, covered, kepts, p);
      }
    } else {
      assert keep == {} && anchors == {};
      forall p ensures !Supported(g, coords, tolerance, keep, p) && !Reaches(g, anchors, p) {}
    }
  }

  lemma PointOutcome(g: Graph, fixed: set<int>, coords: seq<Point>, tolerance: real, keep: set<int>,
                     chains: seq<seq<int>>, covered: set<int>, kepts: seq<Kept>, p: int)
    requires Outcome(g, fixed, coords, tolerance, keep, chains, covered, kepts)
    requires var cut := Cuts(g, fixed); cut <= keep <= cut + covered
    ensures var cut := Cuts(g, fixed);
      && (p !in keep ==> (Supported(g, coords, tolerance, keep, p) <==> Reaches(g, cut, p)))
      && (p in keep ==> Reaches(g, cut, p))
      && (p in keep ==> p in cut || Earned(g, coords, tolerance, keep, p))
  {
    var cut := Cuts(g, fixed);
    if p in cut {
      assert Way(g, cut, p, [p]);
    } else if p in covered {
      CoveredReaches(g, cut, chains, covered, p);
      if p in keep {
        KeptIsEarned(g, cut, chains, covered, coords, tolerance, kepts, fixed, keep, p);
      } else {
        DroppedIsSupported(g, cut, chains, covered, coords, tolerance, kepts, fixed, keep, p);
      }
    } else {
      UncoveredIsLost(g, cut, covered, coords, tolerance, keep, p);
    }
  }

  lemma {:induction false} NeighboursWithin(segs: seq<Segment>, n: nat)
    requires forall j :: 0 <= j < |segs| ==> 0 <= segs[j].a < n && 0 <= segs[j].b < n
    ensures forall p <- Neighbours(segs) :: 0 <= p < n
  {
    if segs != [] {
      NeighboursWithin(segs[..|segs|-1], n);
    }
  }

  lemma ChainsWithin(g: Graph, fixed: set<int>, chains: seq<seq<int>>, coords: seq<Point>)
    requires Plain(g) && Locates(coords, g) && forall c <- chains :: Chain(g, fixed, c)
    ensures forall c <- chains :: Indexed(c, coords)
  {
    forall c <- chains, i | 0 <= i < |c| ensures 0 <= c[i] < |coords| {
      var j := if i == |c| - 1 then i - 1 else i;
      assert Adjacent(g, c[j], c[j + 1]);
      AdjacentBothWays(g, c[j], c[j + 1]);
    }
  }

  /** simplify_boundary(), past the tables. */
  method Simplify(g: Graph, fixed: set<int>, coords: seq<Point>, tolerance: real) returns (keep: set<int>)
    requires Ready(g, fixed) && Locates(coords, g) && tolerance > 0.0
    ensures Simplified(g, fixed, coords, tolerance, keep)
  {
    var chains;
    ghost var covered, kepts;
    chains, covered := Chains(g, fixed);
    ChainsWithin(g, Cuts(g, fixed), chains, coords);
    keep, kepts := ThinAll(chains, fixed, coords, tolerance);
    OutcomeIsSimplified(g, fixed, coords, tolerance, keep, chains, covered, kepts);
  }

  /** q is no farther than the tolerance from the point t of the way from a to b. */
  predicate NearTo(q: Point, a: Point, b: Point, t: real, tolerance: real) {
    var x, y := a.x + t * (b.x - a.x) - q.x, a.y + t * (b.y - a.y) - q.y;
    x * x + y * y <= tolerance * tolerance
  }

  lemma FlatIsNear(path: seq<int>, coords: seq<Point>, tolerance: real, k: nat) returns (t: real)
    requires 0 < k < |path| - 1 && Indexed(path, coords) && Flat(path, coords, tolerance, 0, |path| - 1)
    ensures 0.0 <= t <= 1.0
    ensures NearTo(coords[path[k]], coords[path[0]], coords[path[|path| - 1]], t, tolerance)
  {
    var a, b := coords[path[0]], coords[path[|path| - 1]];
    t := Foot(coords[path[k]], a, b);
    OffsetIs(coords[path[k]], a, b);
    assert Offset(path, coords, k, 0, |path| - 1) <= Sq(tolerance);
  }

  /** A dropped point on the way to a fixed one is no farther than the tolerance
      from some point of a segment between two kept points. */
  lemma DroppedIsNear(g: Graph, fixed: set<int>, coords: seq<Point>, tolerance: real, keep: set<int>, p: int)
    returns (a: int, b: int, t: real)
    requires Simplified(g, fixed, coords, tolerance, keep) && Locates(coords, g)
    requires p in g && p !in keep && Reaches(g, Anchors(g, fixed), p)
    ensures a in keep && b in keep && 0.0 <= t <= 1.0 && a in g && b in g
    ensures NearTo(coords[p], coords[a], coords[b], t, tolerance)
  {
    var path :| Replaced(g, coords, tolerance, keep, path) && p in Interior(path);
    var k: nat :| 0 < k < |path| - 1 && path[k] == p;
    a, b := path[0], path[|path| - 1];
    t := FlatIsNear(path, coords, tolerance, k);
  }

  lemma FixedIs(segs: seq<Segment>, g: Graph, kinds: Kinds, fixed: set<int>)
    requires Tabled(segs, g, kinds)
    requires fixed == set p | p in g && (|g[p]| != 2 || |KindsAt(kinds, p)| > 1)
    ensures fixed == FixedOf(segs)
  {
    forall p ensures p in fixed <==> p in FixedOf(segs) {
      MoreThanOne(segs, p);
    }
  }

  lemma FixedReady(s: Structure, segs: seq<Segment>, from: seq<Half>, g: Graph, kinds: Kinds, fixed: set<int>)
    requires Collected(s, segs, from, |s.elements|, 0) && Tabled(segs, g, kinds)
    requires fixed == set p | p in g && (|g[p]| != 2 || |KindsAt(kinds, p)| > 1)
    ensures fixed == FixedOf(segs) && Ready(g, fixed)
  {
    FixedIs(segs, g, kinds, fixed);
    CollectedKeys(s, segs, from);
    NeighboursPlain(segs);
  }

  lemma AllMeetings(s: Structure, segs: seq<Segment>, from: seq<Half>)
    requires Collected(s, segs, from, |s.elements|, 0)
    ensures forall h, g, p :: Meet(s, h, g, p) ==> p in FixedOf(segs) && p in Neighbours(segs)
    ensures forall p :: p in Neighbours(segs) <==> OnBoundary(s, p)
  {
    forall h, g, p | Meet(s, h, g, p) ensures p in FixedOf(segs) && p in Neighbours(segs) {
      MeetingIsTwoKinds(s, segs, from, h, g, p);
    }
    forall p ensures p in Neighbours(segs) <==> OnBoundary(s, p) {
      BoundaryPoints(s, segs, from, p);
    }
  }

  /** simplify_boundary(). */
  method Run(
    s: Structure, tolerance: real) returns (r: Result<set<int>>, ghost segs: seq<Segment>, ghost from: seq<Half>)
    requires AllTriangular(s) && Vertices(s)
    ensures r.Error? <==> !Is2D(s)
    ensures r.Ok? ==> Collected(s, segs, from, |s.elements|, 0)
    ensures r.Ok? && tolerance <= 0.0 ==> r.value == Neighbours(segs).Keys
    ensures r.Ok? && tolerance > 0.0 ==>
      Simplified(Neighbours(segs), FixedOf(segs), Points(s), tolerance, r.value)
    ensures r.Ok? ==> forall h, g, p :: Meet(s, h, g, p) ==> p in r.value
    ensures r.Ok? && tolerance <= 0.0 ==> forall p :: p in r.value <==> OnBoundary(s, p)
  {
    var found;
    found, from := ConstrainedSegments(s);
    segs := [];
    if found.Error? { return Error, segs, from; }
    segs := found.value;
    AllMeetings(s, segs, from);
    var g, kinds := Tables(found.value);
    if tolerance <= 0.0 { return Ok(g.Keys), segs, from; }
    var fixed := set p | p in g && (|g[p]| != 2 || |KindsAt(kinds, p)| > 1);
    FixedReady(s, segs, from, g, kinds, fixed);
    SegmentsWithin(s, segs, from);
    NeighboursWithin(segs, |s.coordinates|);
    var keep := Simplify(g, fixed, Points(s), tolerance);
    r := Ok(keep);
  }
}
