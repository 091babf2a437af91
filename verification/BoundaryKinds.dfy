/** remesh/simplify.py: where regions or boundary conditions change, the point stays. */
module BoundaryKinds {
  import opened Options
  import opened StrModel
  import opened BoundarySegments
  import opened BoundaryEven
  import opened SimplifyBoundary

  /** The region across an inner side. */
  function OtherRegion(s: Structure, h: Half): int
    requires IsHalf(s, h) && Across(s, h).Some?
  {
    s.elements[Across(s, h).value].regionId
  }

  /** Different codes on the outer boundary, outer boundary and interface, or
      interfaces of different pairs of regions. */
  predicate Change(s: Structure, h: Half, g: Half)
    requires IsHalf(s, h) && IsHalf(s, g) && Constrained(s, h) && Constrained(s, g)
  {
    var e, f := s.elements[h.t], s.elements[g.t];
    var c, d := e.neighbors[h.i], f.neighbors[g.i];
    if c < 0 || d < 0 then c != d
    else
      var x, y := OtherRegion(s, h), OtherRegion(s, g);
      !(e.regionId == f.regionId && x == y) && !(e.regionId == y && x == f.regionId)
  }

  /** The first half-side of a side is h itself, or its twin. */
  lemma FirstOrTwin(s: Structure, segs: seq<Segment>, from: seq<Half>, h: Half) returns (f: Half)
    requires Reciprocal(s) && Collected(s, segs, from, |s.elements|, 0) && IsHalf(s, h) && Constrained(s, h)
    ensures First(s, f) && KeyOf(s, f) == KeyOf(s, h) && (f == h || Twins(s, h, f))
  {
    var j := HasFirst(s, segs, from, h);
    f := from[j];
    assert Paired(s, h, f);
  }

  lemma SameEndOf(s: Structure, h: Half, f: Half, p: int)
    requires IsHalf(s, h) && IsHalf(s, f) && KeyOf(s, f) == KeyOf(s, h) && EndOf(s, h, p)
    ensures EndOf(s, f, p)
  {
    KeyEnds(Tail(s, f), Head(s, f), Tail(s, h), Head(s, h));
  }

  lemma ChangeOfFirsts(s: Structure, h: Half, g: Half, h': Half, g': Half)
    requires First(s, h') && First(s, g') && IsHalf(s, h) && IsHalf(s, g) && Constrained(s, h) && Constrained(s, g)
    requires (h' == h || Twins(s, h, h')) && (g' == g || Twins(s, g, g')) && Change(s, h, g)
    ensures !SameKind(s, h', g')
  {
  }

  /** On a mesh with reciprocal slots a point where two constrained sides change
      kind is in every set that holds the points where first half-sides meet, as
      the result of simplify_boundary() does for any tolerance. */
  lemma ChangesStay(
    s: Structure, segs: seq<Segment>, from: seq<Half>, keep: set<int>, h: Half, g: Half, p: int)
    requires Reciprocal(s) && Collected(s, segs, from, |s.elements|, 0)
    requires forall a, b, q :: Meet(s, a, b, q) ==> q in keep
    requires IsHalf(s, h) && IsHalf(s, g) && Constrained(s, h) && Constrained(s, g)
    requires EndOf(s, h, p) && EndOf(s, g, p) && Change(s, h, g)
    ensures p in keep
  {
    var h' := FirstOrTwin(s, segs, from, h);
    var g' := FirstOrTwin(s, segs, from, g);
    SameEndOf(s, h, h', p);
    SameEndOf(s, g, g', p);
    ChangeOfFirsts(s, h, g, h', g');
    assert Meet(s, h', g', p);
  }
}
