/** remesh/geometry.py: the sides a new mesh must keep. */
module BoundarySegments {
  import opened Options
  import opened Plane
  import opened StrModel

  /** `right` is None on the outer boundary, where `bc` is its negative code. */
  datatype Segment = Segment(a: int, b: int, left: int, right: Option<int>, bc: int)

  type Key = (int, int)

  function SideKey(a: int, b: int): Key {
    if a <= b then (a, b) else (b, a)
  }

  predicate Triangular(e: Element) {
    |e.vertices| == 3 && |e.neighbors| == 3
  }

  /** What the indexing of the loop asks of every element. */
  predicate AllTriangular(s: Structure) {
    forall e <- s.elements :: Triangular(e)
  }

  predicate Is2D(s: Structure) {
    s.dimension == 2 && s.verticesPerElement == 3
  }

  // ------------------------------------------------------- neighbour lookup

  /** The dict `{e.id: e}`: a later element with the same id wins. */
  function ById(es: seq<Element>): (m: map<int, nat>)
    ensures forall id :: id in m ==> m[id] < |es| && es[m[id]].id == id
  {
    if es == [] then map[] else ById(es[..|es|-1])[es[|es|-1].id := |es| - 1]
  }

  /** _element_at(): the index of the element a neighbour code means. */
  function ElementAt(s: Structure, code: int): (r: Option<nat>)
    ensures r.Some? ==> r.value < |s.elements| && s.elements[r.value].id == code + 1
  {
    if 0 <= code < |s.elements| && s.elements[code].id == code + 1 then Some(code)
    else if code + 1 in ById(s.elements) then Some(ById(s.elements)[code + 1])
    else None
  }

  // ------------------------------------------------------------ half-sides

  /** Slot i of element t. */
  datatype Half = Half(t: nat, i: nat)

  predicate IsHalf(s: Structure, h: Half) {
    h.t < |s.elements| && h.i < 3 && Triangular(s.elements[h.t])
  }

  function Tail(s: Structure, h: Half): int
    requires IsHalf(s, h)
  {
    s.elements[h.t].vertices[(h.i + 1) % 3]
  }

  function Head(s: Structure, h: Half): int
    requires IsHalf(s, h)
  {
    s.elements[h.t].vertices[(h.i + 2) % 3]
  }

  function KeyOf(s: Structure, h: Half): Key
    requires IsHalf(s, h)
  {
    SideKey(Tail(s, h), Head(s, h))
  }

  function Across(s: Structure, h: Half): Option<nat>
    requires IsHalf(s, h)
  {
    var code := s.elements[h.t].neighbors[h.i];
    if code < 0 then None else ElementAt(s, code)
  }

  /** The side is on the outer boundary, or another region lies across it. */
  predicate Constrained(s: Structure, h: Half)
    requires IsHalf(s, h)
  {
    s.elements[h.t].neighbors[h.i] < 0
    || (Across(s, h).Some? && s.elements[Across(s, h).value].regionId != s.elements[h.t].regionId)
  }

  function SegmentOf(s: Structure, h: Half): Segment
    requires IsHalf(s, h) && Constrained(s, h)
  {
    var e := s.elements[h.t];
    if e.neighbors[h.i] < 0 then Segment(Tail(s, h), Head(s, h), e.regionId, None, e.neighbors[h.i])
    else Segment(Tail(s, h), Head(s, h), e.regionId, Some(s.elements[Across(s, h).value].regionId), 0)
  }

  /** h comes no later than (t, i) in the order of the two loops. */
  predicate Visited(h: Half, t: nat, i: nat) {
    h.t < t || (h.t == t && h.i < i)
  }

  /** The key of g is already taken, by a half-side visited no later than g. */
  ghost predicate Taken(s: Structure, from: seq<Half>, g: Half)
    requires IsHalf(s, g)
  {
    exists j :: 0 <= j < |from| && IsHalf(s, from[j]) && KeyOf(s, from[j]) == KeyOf(s, g)
        && !Visited(g, from[j].t, from[j].i)
  }

  /** The segments are those of the constrained half-sides visited so far, one
      for each key, the first one visited. */
  ghost predicate Collected(s: Structure, out: seq<Segment>, from: seq<Half>, t: nat, i: nat) {
    && |out| == |from|
    && (forall j :: 0 <= j < |out| ==>
          IsHalf(s, from[j]) && Visited(from[j], t, i) && Constrained(s, from[j]) && out[j] == SegmentOf(s, from[j]))
    && (forall j, k :: 0 <= j < k < |out| ==> KeyOf(s, from[j]) != KeyOf(s, from[k]))
    && (forall h :: IsHalf(s, h) && Visited(h, t, i) && Constrained(s, h) ==> Taken(s, from, h))
  }

  ghost predicate KeysOf(s: Structure, from: seq<Half>, seen: set<Key>) {
    && (forall j :: 0 <= j < |from| ==> IsHalf(s, from[j]) && KeyOf(s, from[j]) in seen)
    && (forall key <- seen :: exists j :: 0 <= j < |from| && IsHalf(s, from[j]) && KeyOf(s, from[j]) == key)
  }

  /** The body of the inner loop, past the `seen` test. */
  method Consider(s: Structure, t: nat, i: nat) returns (r: Option<Segment>)
    requires IsHalf(s, Half(t, i))
    ensures r == if Constrained(s, Half(t, i)) then Some(SegmentOf(s, Half(t, i))) else None
  {
    var e := s.elements[t];
    var a, b := e.vertices[(i + 1) % 3], e.vertices[(i + 2) % 3];
    var code := e.neighbors[i];
    if code < 0 {
      return Some(Segment(a, b, e.regionId, None, code));
    }
    var other := ElementAt(s, code);
    if other.None? || s.elements[other.value].regionId == e.regionId {
      return None;
    }
    return Some(Segment(a, b, e.regionId, Some(s.elements[other.value].regionId), 0));
  }

  /** constrained_segments().  `from` names the half-side each segment is from. */
  method ConstrainedSegments(s: Structure) returns (r: Result<seq<Segment>>, ghost from: seq<Half>)
    requires AllTriangular(s)
    ensures r.Error? <==> !Is2D(s)
    ensures r.Ok? ==> Collected(s, r.value, from, |s.elements|, 0)
  {
    from := [];
    if !Is2D(s) { return Error, from; }
    var seen: set<Key> := {};
    var out: seq<Segment> := [];
    for t := 0 to |s.elements|
      invariant Collected(s, out, from, t, 0) && KeysOf(s, from, seen)
    {
      assert s.elements[t] in s.elements;
      for i := 0 to 3
        invariant Collected(s, out, from, t, i) && KeysOf(s, from, seen)
      {
        var key := SideKey(s.elements[t].vertices[(i + 1) % 3], s.elements[t].vertices[(i + 2) % 3]);
        ghost var h := Half(t, i);
        assert key == KeyOf(s, h);
        if key in seen {
          CollectSkip(s, out, from, h);
        } else {
          var seg := Consider(s, t, i);
          if seg.Some? {
            CollectAdd(s, out, from, h);
            KeysGrow(s, from, seen, h);
            out, from, seen := out + [seg.value], from + [h], seen + {key};
          } else {
            CollectSkip(s, out, from, h);
          }
        }
      }
      NextElement(s, out, from, t);
    }
    r := Ok(out);
  }

  lemma KeysGrow(s: Structure, from: seq<Half>, seen: set<Key>, h: Half)
    requires KeysOf(s, from, seen) && IsHalf(s, h)
    ensures KeysOf(s, from + [h], seen + {KeyOf(s, h)})
  {
    var from' := from + [h];
    forall key | key in seen + {KeyOf(s, h)}
      ensures exists j :: 0 <= j < |from'| && IsHalf(s, from'[j]) && KeyOf(s, from'[j]) == key
    {
      if key in seen {
        var j :| 0 <= j < |from| && IsHalf(s, from[j]) && KeyOf(s, from[j]) == key;
        assert from'[j] == from[j];
      } else {
        assert from'[|from|] == h;
      }
    }
  }

  lemma TakenBefore(s: Structure, out: seq<Segment>, from: seq<Half>, h: Half)
    requires IsHalf(s, h) && Collected(s, out, from, h.t, h.i)
    requires exists j :: 0 <= j < |from| && KeyOf(s, from[j]) == KeyOf(s, h)
    ensures Taken(s, from, h)
  {
    var j :| 0 <= j < |from| && KeyOf(s, from[j]) == KeyOf(s, h);
    assert Visited(from[j], h.t, h.i);
  }

  lemma CollectSkip(s: Structure, out: seq<Segment>, from: seq<Half>, h: Half)
    requires IsHalf(s, h) && Collected(s, out, from, h.t, h.i)
    requires !Constrained(s, h) || exists j :: 0 <= j < |from| && KeyOf(s, from[j]) == KeyOf(s, h)
    ensures Collected(s, out, from, h.t, h.i + 1)
  {
    if Constrained(s, h) {
      TakenBefore(s, out, from, h);
    }
    forall g | IsHalf(s, g) && Visited(g, h.t, h.i + 1) && Constrained(s, g) ensures Taken(s, from, g) {
      LastVisited(g, h);
    }
    StillVisited(s, out, from, h);
  }

  lemma LastVisited(g: Half, h: Half)
    ensures Visited(g, h.t, h.i + 1) <==> Visited(g, h.t, h.i) || g == h
  {
  }

  lemma StillVisited(s: Structure, out: seq<Segment>, from: seq<Half>, h: Half)
    requires Collected(s, out, from, h.t, h.i)
    ensures forall j :: 0 <= j < |out| ==>
      IsHalf(s, from[j]) && Visited(from[j], h.t, h.i + 1) && Constrained(s, from[j]) && out[j] == SegmentOf(s, from[j])
  {
    forall j | 0 <= j < |out| ensures Visited(from[j], h.t, h.i + 1) {
      LastVisited(from[j], h);
    }
  }

  lemma TakenSnoc(s: Structure, from: seq<Half>, h: Half, g: Half)
    requires IsHalf(s, g) && (Taken(s, from, g) || (IsHalf(s, h) && h == g))
    ensures Taken(s, from + [h], g)
  {
    if Taken(s, from, g) {
      var j :| 0 <= j < |from| && IsHalf(s, from[j]) && KeyOf(s, from[j]) == KeyOf(s, g)
          && !Visited(g, from[j].t, from[j].i);
      assert (from + [h])[j] == from[j];
    } else {
      assert (from + [h])[|from|] == h;
    }
  }

  lemma TakenAfter(s: Structure, out: seq<Segment>, from: seq<Half>, h: Half, g: Half)
    requires IsHalf(s, h) && Collected(s, out, from, h.t, h.i)
    requires IsHalf(s, g) && Visited(g, h.t, h.i + 1) && Constrained(s, g)
    ensures Taken(s, from + [h], g)
  {
    LastVisited(g, h);
    TakenSnoc(s, from, h, g);
  }

  lemma AddedFrom(s: Structure, out: seq<Segment>, from: seq<Half>, h: Half, j: nat)
    requires IsHalf(s, h) && Collected(s, out, from, h.t, h.i) && Constrained(s, h) && j <= |from|
    ensures var g := (from + [h])[j];
      IsHalf(s, g) && Visited(g, h.t, h.i + 1) && Constrained(s, g) && (out + [SegmentOf(s, h)])[j] == SegmentOf(s, g)
  {
    LastVisited((from + [h])[j], h);
    if j < |from| {
      assert Visited(from[j], h.t, h.i);
    }
  }

  lemma AddedApart(s: Structure, out: seq<Segment>, from: seq<Half>, h: Half, j: nat, k: nat)
    requires IsHalf(s, h) && Collected(s, out, from, h.t, h.i) && j < k <= |from|
    requires forall i :: 0 <= i < |from| ==> KeyOf(s, from[i]) != KeyOf(s, h)
    ensures IsHalf(s, from[j]) && IsHalf(s, (from + [h])[k]) && KeyOf(s, from[j]) != KeyOf(s, (from + [h])[k])
  {
  }

  lemma CollectAdd(s: Structure, out: seq<Segment>, from: seq<Half>, h: Half)
    requires IsHalf(s, h) && Collected(s, out, from, h.t, h.i) && Constrained(s, h)
    requires forall j :: 0 <= j < |from| ==> KeyOf(s, from[j]) != KeyOf(s, h)
    ensures Collected(s, out + [SegmentOf(s, h)], from + [h], h.t, h.i + 1)
  {
    var out', from' := out + [SegmentOf(s, h)], from + [h];
    forall g | IsHalf(s, g) && Visited(g, h.t, h.i + 1) && Constrained(s, g) ensures Taken(s, from', g) {
      TakenAfter(s, out, from, h, g);
    }
    forall j | 0 <= j < |out'|
      ensures IsHalf(s, from'[j]) && Visited(from'[j], h.t, h.i + 1) && Constrained(s, from'[j])
      ensures out'[j] == SegmentOf(s, from'[j])
    {
      AddedFrom(s, out, from, h, j);
    }
    forall j, k | 0 <= j < k < |out'| ensures KeyOf(s, from'[j]) != KeyOf(s, from'[k]) {
      AddedApart(s, out, from, h, j, k);
    }
  }

  lemma NextElement(s: Structure, out: seq<Segment>, from: seq<Half>, t: nat)
    requires Collected(s, out, from, t, 3)
    ensures Collected(s, out, from, t + 1, 0)
  {
    forall g | IsHalf(s, g) && Visited(g, t + 1, 0) && Constrained(s, g) ensures Taken(s, from, g) {
      assert Visited(g, t, 3);
    }
  }

  // --------------------------------------------- the segments and the structure

  lemma {:induction false} ByIdFinds(es: seq<Element>, id: int)
    ensures id in ById(es) <==> exists k :: 0 <= k < |es| && es[k].id == id
    ensures id in ById(es) ==> forall k :: ById(es)[id] < k < |es| ==> es[k].id != id
  {
    if es != [] {
      ByIdFinds(es[..|es|-1], id);
      assert es == es[..|es|-1] + [es[|es|-1]];
      if es[|es|-1].id == id { assert es[|es|-1].id == id; }
    }
  }

  /** A neighbour code means the element whose id is one more, if there is one. */
  lemma ElementAtMeans(s: Structure, code: int)
    ensures ElementAt(s, code).None? <==> forall k :: 0 <= k < |s.elements| ==> s.elements[k].id != code + 1
  {
    ByIdFinds(s.elements, code + 1);
  }

  /** No constrained half-side of the same side is visited before h. */
  ghost predicate First(s: Structure, h: Half) {
    && IsHalf(s, h) && Constrained(s, h)
    && forall g :: IsHalf(s, g) && Constrained(s, g) && KeyOf(s, g) == KeyOf(s, h) ==> !Visited(g, h.t, h.i)
  }

  /** The segments come from exactly the first half-side of each constrained side. */
  lemma FirstsAreTaken(s: Structure, segs: seq<Segment>, from: seq<Half>, h: Half)
    requires Collected(s, segs, from, |s.elements|, 0)
    ensures First(s, h) <==> h in from
  {
    if h in from {
      var j :| 0 <= j < |from| && from[j] == h;
      TakenIsFirst(s, segs, from, j);
    }
    if First(s, h) {
      FirstIsTaken(s, segs, from, h);
    }
  }

  lemma FirstIsTaken(s: Structure, segs: seq<Segment>, from: seq<Half>, h: Half)
    requires Collected(s, segs, from, |s.elements|, 0) && First(s, h)
    ensures h in from
  {
    var j := TakenAs(s, segs, from, h);
    SegmentKey(s, segs, from, j);
    OneOfTwo(from[j], h);
  }

  lemma OneOfTwo(g: Half, h: Half)
    requires !Visited(g, h.t, h.i) && !Visited(h, g.t, g.i)
    ensures g == h
  {
  }

  lemma TakenAs(s: Structure, segs: seq<Segment>, from: seq<Half>, h: Half) returns (j: nat)
    requires Collected(s, segs, from, |s.elements|, 0) && IsHalf(s, h) && Constrained(s, h)
    ensures j < |from| && IsHalf(s, from[j]) && KeyOf(s, from[j]) == KeyOf(s, h) && !Visited(h, from[j].t, from[j].i)
  {
    assert Visited(h, |s.elements|, 0);
    assert Taken(s, from, h);
    j :| 0 <= j < |from| && IsHalf(s, from[j]) && KeyOf(s, from[j]) == KeyOf(s, h) && !Visited(h, from[j].t, from[j].i);
  }

  lemma OnlyOnce(s: Structure, segs: seq<Segment>, from: seq<Half>, j: nat, k: nat)
    requires Collected(s, segs, from, |s.elements|, 0) && j < |from| && k < |from|
    requires IsHalf(s, from[j]) && IsHalf(s, from[k]) && KeyOf(s, from[j]) == KeyOf(s, from[k])
    ensures j == k
  {
  }

  lemma TakenIsFirst(s: Structure, segs: seq<Segment>, from: seq<Half>, j: nat)
    requires Collected(s, segs, from, |s.elements|, 0) && j < |from|
    ensures First(s, from[j])
  {
    SegmentKey(s, segs, from, j);
    forall g | IsHalf(s, g) && Constrained(s, g) && KeyOf(s, g) == KeyOf(s, from[j])
      ensures !Visited(g, from[j].t, from[j].i)
    {
      var k := TakenAs(s, segs, from, g);
      OnlyOnce(s, segs, from, j, k);
    }
  }

  /** Every constrained side has a first half-side. */
  lemma HasFirst(s: Structure, segs: seq<Segment>, from: seq<Half>, h: Half) returns (j: nat)
    requires Collected(s, segs, from, |s.elements|, 0) && IsHalf(s, h) && Constrained(s, h)
    ensures j < |from| && First(s, from[j]) && KeyOf(s, from[j]) == KeyOf(s, h)
  {
    j := TakenAs(s, segs, from, h);
    TakenIsFirst(s, segs, from, j);
  }

  lemma KeyEnds(a: int, b: int, c: int, d: int)
    ensures SideKey(a, b) == SideKey(c, d) <==> (a == c && b == d) || (a == d && b == c)
  {
  }

  /** What each segment says, read off the structure: its ends and its left region
      from the element it comes from, its code from the slot of that element, or
      its right region from the element that slot names. */
  lemma SegmentSays(s: Structure, segs: seq<Segment>, from: seq<Half>, j: nat)
    requires Collected(s, segs, from, |s.elements|, 0) && j < |segs|
    ensures var h := from[j];
      h.t < |s.elements| && h.i < 3 && |s.elements[h.t].vertices| == 3 && |s.elements[h.t].neighbors| == 3
    ensures var e, i := s.elements[from[j].t], from[j].i;
      && segs[j].a == e.vertices[(i + 1) % 3] && segs[j].b == e.vertices[(i + 2) % 3] && segs[j].left == e.regionId
      && (e.neighbors[i] < 0 ==> segs[j].right == None && segs[j].bc == e.neighbors[i])
      && (e.neighbors[i] >= 0 ==> segs[j].bc == 0 && segs[j].right.Some? && segs[j].right.value != e.regionId)
      && (e.neighbors[i] >= 0 ==>
            exists u :: 0 <= u < |s.elements| && s.elements[u].id == e.neighbors[i] + 1
                        && segs[j].right == Some(s.elements[u].regionId))
  {
    var h := from[j];
    assert segs[j] == SegmentOf(s, h);
    if s.elements[h.t].neighbors[h.i] >= 0 {
      var u := Across(s, h).value;
      assert s.elements[u].id == s.elements[h.t].neighbors[h.i] + 1;
    }
  }

  /** Every half-side of the side of h is on the outer boundary. */
  ghost predicate OuterOnly(s: Structure, h: Half) {
    IsHalf(s, h) && forall g :: IsHalf(s, g) && KeyOf(s, g) == KeyOf(s, h) ==> s.elements[g.t].neighbors[g.i] < 0
  }

  lemma SegmentEnds(s: Structure, segs: seq<Segment>, from: seq<Half>, j: nat, h: Half)
    requires Collected(s, segs, from, |s.elements|, 0) && j < |segs|
    requires IsHalf(s, h) && IsHalf(s, from[j]) && KeyOf(s, from[j]) == KeyOf(s, h)
    ensures (segs[j].a == Tail(s, h) && segs[j].b == Head(s, h)) || (segs[j].b == Tail(s, h) && segs[j].a == Head(s, h))
  {
    SegmentKey(s, segs, from, j);
    KeyEnds(segs[j].a, segs[j].b, Tail(s, h), Head(s, h));
  }

  lemma OuterFirst(s: Structure, segs: seq<Segment>, from: seq<Half>, j: nat)
    requires Collected(s, segs, from, |s.elements|, 0) && j < |segs| && OuterOnly(s, from[j])
    ensures var e := s.elements[from[j].t];
      segs[j].right == None && segs[j].bc == e.neighbors[from[j].i] && segs[j].left == e.regionId
  {
    SegmentKey(s, segs, from, j);
  }

  /** Every outer side comes out, with its two ends, and with the code and the
      region of one of its half-sides: its own, if it has no other. */
  lemma OuterSideComesOut(s: Structure, segs: seq<Segment>, from: seq<Half>, h: Half) returns (j: nat)
    requires Collected(s, segs, from, |s.elements|, 0) && OuterOnly(s, h)
    ensures j < |segs| && IsHalf(s, from[j]) && KeyOf(s, from[j]) == KeyOf(s, h)
    ensures (segs[j].a == Tail(s, h) && segs[j].b == Head(s, h)) || (segs[j].b == Tail(s, h) && segs[j].a == Head(s, h))
    ensures var e := s.elements[from[j].t];
      segs[j].right == None && segs[j].bc == e.neighbors[from[j].i] && segs[j].left == e.regionId
  {
    j := HasFirst(s, segs, from, h);
    SegmentEnds(s, segs, from, j, h);
    OuterFirst(s, segs, from, j);
  }

  // ------------------------------------------------------- where the ends are

  ghost predicate Vertices(s: Structure) {
    forall e <- s.elements, v <- e.vertices :: 0 <= v < |s.coordinates|
  }

  function Points(s: Structure): seq<Point> {
    seq(|s.coordinates|, i requires 0 <= i < |s.coordinates| => Point(s.coordinates[i].x, s.coordinates[i].y))
  }

  lemma SegmentsWithin(s: Structure, segs: seq<Segment>, from: seq<Half>)
    requires Vertices(s) && Collected(s, segs, from, |s.elements|, 0)
    ensures forall j :: 0 <= j < |segs| ==> 0 <= segs[j].a < |s.coordinates| && 0 <= segs[j].b < |s.coordinates|
  {
    forall j | 0 <= j < |segs| ensures 0 <= segs[j].a < |s.coordinates| && 0 <= segs[j].b < |s.coordinates| {
      HalfWithin(s, from[j]);
    }
  }

  lemma HalfWithin(s: Structure, h: Half)
    requires Vertices(s) && IsHalf(s, h)
    ensures 0 <= Tail(s, h) < |s.coordinates| && 0 <= Head(s, h) < |s.coordinates|
  {
    var e := s.elements[h.t];
    assert e in s.elements && Tail(s, h) in e.vertices && Head(s, h) in e.vertices;
  }

  lemma SegmentKey(s: Structure, segs: seq<Segment>, from: seq<Half>, j: nat)
    requires Collected(s, segs, from, |s.elements|, 0) && j < |segs|
    ensures IsHalf(s, from[j]) && Constrained(s, from[j])
    ensures segs[j] == SegmentOf(s, from[j]) && SideKey(segs[j].a, segs[j].b) == KeyOf(s, from[j])
  {
    assert segs[j] == SegmentOf(s, from[j]);
  }

  lemma KeysApart(s: Structure, segs: seq<Segment>, from: seq<Half>, i: nat, j: nat)
    requires Collected(s, segs, from, |s.elements|, 0) && i < j < |segs|
    ensures SideKey(segs[i].a, segs[i].b) != SideKey(segs[j].a, segs[j].b)
  {
    SegmentKey(s, segs, from, i);
    SegmentKey(s, segs, from, j);
    assert KeyOf(s, from[i]) != KeyOf(s, from[j]);
  }
}
