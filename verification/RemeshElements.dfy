/** remesh/assemble.py: neighbour slots of a new triangle list. */
module RemeshElements {
  import opened Options
  import opened Plane
  import opened StrModel
  import opened SegmentDistance
  import opened BoundarySegments
  import opened BoundaryIndexes
  import opened BoundaryEven

  datatype MeshTri = MeshTri(vertices: seq<int>, regionId: int)
  datatype Mesh = Mesh(points: seq<Point>, triangles: seq<MeshTri>)

  /** The old outer boundary, and how far a new side may lie from it. */
  datatype Outline = Outline(seg: seq<OldSeg>, reach: real)

  predicate MeshOk(mesh: Mesh) {
    forall tri <- mesh.triangles ::
      && |tri.vertices| == 3
      && tri.vertices[0] != tri.vertices[1] && tri.vertices[1] != tri.vertices[2] && tri.vertices[0] != tri.vertices[2]
      && forall v <- tri.vertices :: 0 <= v < |mesh.points|
  }

  predicate Side(mesh: Mesh, h: Half) {
    h.t < |mesh.triangles| && h.i < 3 && |mesh.triangles[h.t].vertices| == 3
  }

  function SideKeyOf(mesh: Mesh, h: Half): Key
    requires Side(mesh, h)
  {
    var v := mesh.triangles[h.t].vertices;
    SideKey(v[(h.i + 1) % 3], v[(h.i + 2) % 3])
  }

  function Midpoint(mesh: Mesh, h: Half): Point
    requires MeshOk(mesh) && Side(mesh, h)
  {
    var v := mesh.triangles[h.t].vertices;
    assert mesh.triangles[h.t] in mesh.triangles;
    assert v[(h.i + 1) % 3] in v && v[(h.i + 2) % 3] in v;
    var a, b := mesh.points[v[(h.i + 1) % 3]], mesh.points[v[(h.i + 2) % 3]];
    Point((a.x + b.x) / 2.0, (a.y + b.y) / 2.0)
  }

  /** Another triangle with the same side. */
  predicate Shares(mesh: Mesh, h: Half, g: Half) {
    Side(mesh, h) && Side(mesh, g) && g.t != h.t && SideKeyOf(mesh, g) == SideKeyOf(mesh, h)
  }

  ghost predicate Alone(mesh: Mesh, h: Half) {
    forall g :: !Shares(mesh, h, g)
  }

  type Owners = map<Key, seq<Half>>

  function OwnersOf(o: Owners, key: Key): seq<Half> {
    if key in o then o[key] else []
  }

  /** The owner lists hold the sides visited before (t, i), in that order. */
  ghost predicate Registered(mesh: Mesh, o: Owners, t: nat, i: nat) {
    && (forall key, h :: h in OwnersOf(o, key) <==> Side(mesh, h) && Visited(h, t, i) && SideKeyOf(mesh, h) == key)
    && InOrder(o)
  }

  ghost predicate InOrder(o: Owners) {
    forall key, j, k :: 0 <= j < k < |OwnersOf(o, key)| ==> OwnersOf(o, key)[j].t <= OwnersOf(o, key)[k].t
  }

  /** The first loop of _elements. */
  method Register(mesh: Mesh) returns (o: Owners)
    requires MeshOk(mesh)
    ensures Registered(mesh, o, |mesh.triangles|, 0)
  {
    o := map[];
    for t := 0 to |mesh.triangles|
      invariant Registered(mesh, o, t, 0)
    {
      assert mesh.triangles[t] in mesh.triangles;
      for i := 0 to 3
        invariant Registered(mesh, o, t, i)
      {
        var h := Half(t, i);
        var key := SideKeyOf(mesh, h);
        RegisterOne(mesh, o, h);
        o := o[key := OwnersOf(o, key) + [h]];
      }
      NextTriangle(mesh, o, t);
    }
  }

  lemma RegisterOne(mesh: Mesh, o: Owners, h: Half)
    requires Side(mesh, h) && Registered(mesh, o, h.t, h.i)
    ensures var key := SideKeyOf(mesh, h); Registered(mesh, o[key := OwnersOf(o, key) + [h]], h.t, h.i + 1)
  {
    var key := SideKeyOf(mesh, h);
    var o' := o[key := OwnersOf(o, key) + [h]];
    forall k, g ensures g in OwnersOf(o', k) <==> Side(mesh, g) && Visited(g, h.t, h.i + 1) && SideKeyOf(mesh, g) == k {
      OwnersMore(mesh, o, h, k, g);
    }
    forall k, a, b | 0 <= a < b < |OwnersOf(o', k)| ensures OwnersOf(o', k)[a].t <= OwnersOf(o', k)[b].t {
      StillInOrder(mesh, o, h, k, a, b);
    }
  }

  lemma OwnersMore(mesh: Mesh, o: Owners, h: Half, k: Key, g: Half)
    requires Side(mesh, h) && Registered(mesh, o, h.t, h.i)
    ensures var key := SideKeyOf(mesh, h); var o' := o[key := OwnersOf(o, key) + [h]];
      g in OwnersOf(o', k) <==> Side(mesh, g) && Visited(g, h.t, h.i + 1) && SideKeyOf(mesh, g) == k
  {
    var key := SideKeyOf(mesh, h);
    var o' := o[key := OwnersOf(o, key) + [h]];
    LastVisited(g, h);
    assert g in OwnersOf(o', k) <==> g in OwnersOf(o, k) || (k == key && g == h);
    assert g in OwnersOf(o, k) <==> Side(mesh, g) && Visited(g, h.t, h.i) && SideKeyOf(mesh, g) == k;
  }

  lemma StillInOrder(mesh: Mesh, o: Owners, h: Half, k: Key, a: nat, b: nat)
    requires Side(mesh, h) && Registered(mesh, o, h.t, h.i)
    requires var l := if k == SideKeyOf(mesh, h) then OwnersOf(o, k) + [h] else OwnersOf(o, k); a < b < |l|
    ensures var l := if k == SideKeyOf(mesh, h) then OwnersOf(o, k) + [h] else OwnersOf(o, k); l[a].t <= l[b].t
  {
    var l := OwnersOf(o, k);
    assert l[a] in OwnersOf(o, k);
    assert Visited(l[a], h.t, h.i);
    if b < |l| {
      assert l[a].t <= l[b].t;
    }
  }

  lemma NextTriangle(mesh: Mesh, o: Owners, t: nat)
    requires Registered(mesh, o, t, 3)
    ensures Registered(mesh, o, t + 1, 0)
  {
    forall key, h
      ensures h in OwnersOf(o, key) <==> Side(mesh, h) && Visited(h, t + 1, 0) && SideKeyOf(mesh, h) == key
    {
      assert h in OwnersOf(o, key) <==> Side(mesh, h) && Visited(h, t, 3) && SideKeyOf(mesh, h) == key;
      if Side(mesh, h) {
        TriangleVisited(h, t);
      }
    }
  }

  lemma TriangleVisited(h: Half, t: nat)
    requires h.i < 3
    ensures Visited(h, t, 3) <==> Visited(h, t + 1, 0)
  {
  }

  /** The neighbour written into slot i: the first other owner of the side, or the
      code of a nearest segment of the old boundary. */
  ghost predicate Neighbour(mesh: Mesh, was: Outline, h: Half, code: int)
    requires MeshOk(mesh) && Side(mesh, h)
  {
    if Alone(mesh, h) then Nearest(was.seg, was.reach, Midpoint(mesh, h), code) else FirstSharer(mesh, h, code)
  }

  ghost predicate FirstSharer(mesh: Mesh, h: Half, t: int)
    requires Side(mesh, h)
  {
    t >= 0 && (exists g :: Shares(mesh, h, g) && g.t == t) && forall g :: Shares(mesh, h, g) ==> t <= g.t
  }

  /** `other[0][0]`, when there is another owner. */
  method FirstOther(mesh: Mesh, o: Owners, h: Half) returns (r: Option<nat>)
    requires Side(mesh, h) && Registered(mesh, o, |mesh.triangles|, 0)
    ensures r.None? <==> Alone(mesh, h)
    ensures r.Some? ==> FirstSharer(mesh, h, r.value)
  {
    var sharers := OwnersOf(o, SideKeyOf(mesh, h));
    forall g ensures g in sharers <==> Side(mesh, g) && SideKeyOf(mesh, g) == SideKeyOf(mesh, h) {
      assert Side(mesh, g) ==> Visited(g, |mesh.triangles|, 0);
    }
    for k := 0 to |sharers|
      invariant forall j :: 0 <= j < k ==> sharers[j].t == h.t
    {
      if sharers[k].t != h.t {
        assert Shares(mesh, h, sharers[k]) by { assert sharers[k] in sharers; }
        forall g | Shares(mesh, h, g) ensures sharers[k].t <= g.t {
          assert g in sharers;
        }
        return Some(sharers[k].t);
      }
    }
    forall g ensures !Shares(mesh, h, g) {
      assert Shares(mesh, h, g) ==> g in sharers;
    }
    return None;
  }

  ghost predicate ElementFor(mesh: Mesh, was: Outline, t: nat, e: Element)
    requires MeshOk(mesh)
  {
    && t < |mesh.triangles| && Side(mesh, Half(t, 0))
    && e.id == t + 1 && e.regionId == mesh.triangles[t].regionId && e.vertices == mesh.triangles[t].vertices
    && |e.neighbors| == 3 && e.extra == [-1, -1]
    && forall i: nat :: i < 3 ==> SlotIs(mesh, was, Half(t, i), e.neighbors[i])
  }

  ghost predicate ElementsFor(mesh: Mesh, was: Outline, n: nat, es: seq<Element>)
    requires MeshOk(mesh)
  {
    |es| == n && forall t: nat :: t < n ==> ElementFor(mesh, was, t, es[t])
  }

  /** The second loop of _elements: Error where code_at raises. */
  method Elements(mesh: Mesh, index: BoundaryIndex) returns (r: Result<seq<Element>>)
    requires MeshOk(mesh) && index.Valid()
    ensures r.Ok? ==> ElementsFor(mesh, Outline(index.seg, index.reach), |mesh.triangles|, r.value)
    ensures r.Error? <==> exists h :: Uncoded(mesh, Outline(index.seg, index.reach), h)
  {
    var owner := Register(mesh);
    ghost var was := Outline(index.seg, index.reach);
    var out: seq<Element> := [];
    for t := 0 to |mesh.triangles|
      invariant ElementsFor(mesh, was, t, out)
      invariant forall h :: Side(mesh, h) && h.t < t ==> !Uncoded(mesh, was, h)
    {
      assert mesh.triangles[t] in mesh.triangles;
      var neighbors := Slots(mesh, index, owner, t);
      if neighbors.Error? { return Error; }
      out := out + [Element(t + 1, mesh.triangles[t].regionId, mesh.triangles[t].vertices, neighbors.value, [-1, -1])];
    }
    return Ok(out);
  }

  /** The first n slots of triangle t have their neighbours, and each has one. */
  ghost predicate SlotsFilled(mesh: Mesh, was: Outline, t: nat, n: nat, neighbors: seq<int>)
    requires MeshOk(mesh)
  {
    && |neighbors| == n <= 3 && (forall i: nat :: i < n ==> SlotIs(mesh, was, Half(t, i), neighbors[i]))
    && forall h :: Side(mesh, h) && h.t == t && h.i < n ==> !Uncoded(mesh, was, h)
  }

  ghost predicate SlotIs(mesh: Mesh, was: Outline, h: Half, code: int)
    requires MeshOk(mesh)
  {
    Side(mesh, h) && Neighbour(mesh, was, h, code)
  }

  lemma SlotFilled(mesh: Mesh, was: Outline, t: nat, n: nat, neighbors: seq<int>, code: int)
    requires MeshOk(mesh) && n < 3 && SlotsFilled(mesh, was, t, n, neighbors)
    requires SlotIs(mesh, was, Half(t, n), code) && !Uncoded(mesh, was, Half(t, n))
    ensures SlotsFilled(mesh, was, t, n + 1, neighbors + [code])
  {
    forall h | Side(mesh, h) && h.t == t && h.i < n + 1 ensures !Uncoded(mesh, was, h) {
      assert h.i < n || h == Half(t, n);
    }
  }

  /** The inner loop: the three neighbour slots of one triangle. */
  method Slots(mesh: Mesh, index: BoundaryIndex, owner: Owners, t: nat) returns (r: Result<seq<int>>)
    requires MeshOk(mesh) && index.Valid() && Side(mesh, Half(t, 0))
    requires Registered(mesh, owner, |mesh.triangles|, 0)
    ensures var was := Outline(index.seg, index.reach);
      && (r.Ok? ==> SlotsFilled(mesh, was, t, 3, r.value))
      && (r.Error? ==> exists h :: Uncoded(mesh, was, h))
  {
    var neighbors: seq<int> := [];
    ghost var was := Outline(index.seg, index.reach);
    for i := 0 to 3
      invariant SlotsFilled(mesh, was, t, i, neighbors)
    {
      var h := Half(t, i);
      var other := FirstOther(mesh, owner, h);
      if other.Some? {
        SlotFilled(mesh, was, t, i, neighbors, other.value);
        neighbors := neighbors + [other.value];
      } else {
        var code := index.CodeAt(Midpoint(mesh, h));
        if code.None? {
          assert Uncoded(mesh, was, h);
          return Error;
        }
        SlotFilled(mesh, was, t, i, neighbors, code.value);
        neighbors := neighbors + [code.value];
      }
    }
    return Ok(neighbors);
  }

  /** A side without a second owner that lies out of reach of the old boundary. */
  ghost predicate Uncoded(mesh: Mesh, was: Outline, h: Half)
    requires MeshOk(mesh)
  {
    Side(mesh, h) && Alone(mesh, h) && OutOfReach(was, Midpoint(mesh, h))
  }

  ghost predicate OutOfReach(was: Outline, mid: Point) {
    forall i: nat :: i < |was.seg| ==> D2(was.seg[i], mid) > Sq(was.reach)
  }

  // --------------------------------------------------------- the old boundary

  predicate InRange(segs: seq<Segment>, n: nat) {
    forall j :: 0 <= j < |segs| ==> 0 <= segs[j].a < n && 0 <= segs[j].b < n
  }

  /** The outer segments, with their ends in place of their vertex numbers. */
  function OuterOf(segs: seq<Segment>, points: seq<Point>): seq<OldSeg>
    requires InRange(segs, |points|)
  {
    if segs == [] then []
    else
      var last := segs[|segs| - 1];
      OuterOf(segs[..|segs| - 1], points)
      + if last.right.None? then [OldSeg(points[last.a], points[last.b], last.bc)] else []
  }

  lemma {:induction false} OuterCodes(segs: seq<Segment>, points: seq<Point>)
    requires InRange(segs, |points|) && forall s <- segs :: s.right.None? ==> s.bc < 0
    ensures forall o <- OuterOf(segs, points) :: o.bc < 0
  {
    if segs != [] {
      OuterCodes(segs[..|segs| - 1], points);
    }
  }

  ghost predicate OutlineFrom(before: Structure, segs: seq<Segment>, from: seq<Half>, seg: seq<OldSeg>) {
    Collected(before, segs, from, |before.elements|, 0)
      && InRange(segs, |before.coordinates|) && seg == OuterOf(segs, Points(before))
  }

  /** `seg` are the outer sides of the old structure with their codes. */
  ghost predicate IsOutlineOf(before: Structure, seg: seq<OldSeg>) {
    exists segs, from :: OutlineFrom(before, segs, from, seg)
  }

  lemma OutlineCodes(before: Structure, seg: seq<OldSeg>)
    requires IsOutlineOf(before, seg)
    ensures forall o <- seg :: o.bc < 0
  {
    var segs, from :| OutlineFrom(before, segs, from, seg);
    forall s: Segment | s in segs ensures s.right.None? ==> s.bc < 0 {
      var j :| 0 <= j < |segs| && segs[j] == s;
      assert s == SegmentOf(before, from[j]);
    }
    OuterCodes(segs, Points(before));
  }

  /** _elements(): Error where it raises. */
  method Rebuild(before: Structure, mesh: Mesh, within: real, size: real)
    returns (r: Result<seq<Element>>, ghost outline: Outline)
    requires AllTriangular(before) && Vertices(before) && MeshOk(mesh) && within >= 0.0 && size > 0.0
    ensures Is2D(before) ==> IsOutlineOf(before, outline.seg) && outline.reach == within
    ensures Is2D(before) ==> forall o <- outline.seg :: o.bc < 0
    ensures r.Ok? ==> Is2D(before) && ElementsFor(mesh, outline, |mesh.triangles|, r.value)
    ensures r.Error? <==> !Is2D(before) || exists h :: Uncoded(mesh, outline, h)
  {
    outline := Outline([], within);
    var found;
    ghost var from;
    found, from := ConstrainedSegments(before);
    if found.Error? { return Error, outline; }
    SegmentsWithin(before, found.value, from);
    var index := new BoundaryIndex(OuterOf(found.value, Points(before)), size, within);
    outline := Outline(index.seg, within);
    assert OutlineFrom(before, found.value, from, index.seg);
    OutlineCodes(before, index.seg);
    r := Elements(mesh, index);
  }

  // ---------------------------------------------------------------- theorems

  /** The elements of a structure are those built for a mesh. */
  ghost predicate BuiltFrom(s: Structure, mesh: Mesh, was: Outline) {
    && MeshOk(mesh) && (forall o <- was.seg :: o.bc < 0)
    && ElementsFor(mesh, was, |mesh.triangles|, s.elements)
  }

  predicate Trio(mesh: Mesh, h: Half, g: Half, k: Half) {
    && Side(mesh, h) && Side(mesh, g) && Side(mesh, k) && h != g && g != k && h != k
    && SideKeyOf(mesh, h) == SideKeyOf(mesh, g) == SideKeyOf(mesh, k)
  }

  /** Every side belongs to at most two triangles. */
  ghost predicate AtMostTwo(mesh: Mesh) {
    forall h, g, k :: !Trio(mesh, h, g, k)
  }

  lemma BuiltHalf(s: Structure, mesh: Mesh, was: Outline, h: Half)
    requires BuiltFrom(s, mesh, was)
    ensures IsHalf(s, h) <==> Side(mesh, h)
    ensures IsHalf(s, h) ==> Corners(s.elements[h.t]) && KeyOf(s, h) == SideKeyOf(mesh, h)
    ensures IsHalf(s, h) ==> Neighbour(mesh, was, h, s.elements[h.t].neighbors[h.i])
    ensures IsHalf(s, h) ==> Across(s, h) == (if Alone(mesh, h) then None else Some(s.elements[h.t].neighbors[h.i]))
  {
    if h.t < |mesh.triangles| {
      assert ElementFor(mesh, was, h.t, s.elements[h.t]);
      assert mesh.triangles[h.t] in mesh.triangles;
      if h.i < 3 {
        assert SlotIs(mesh, was, Half(h.t, h.i), s.elements[h.t].neighbors[h.i]);
        var code := s.elements[h.t].neighbors[h.i];
        if code >= 0 {
          var g :| Shares(mesh, h, g) && g.t == code;
          assert ElementFor(mesh, was, code, s.elements[code]);
        }
      }
    }
  }

  lemma FirstOwner(s: Structure, mesh: Mesh, was: Outline, h: Half, g: Half) returns (a: Half)
    requires BuiltFrom(s, mesh, was) && Shares(mesh, h, g)
    ensures IsHalf(s, h) && KeyOf(s, h) == SideKeyOf(mesh, h)
    ensures Shares(mesh, h, a) && Across(s, h) == Some(a.t)
  {
    BuiltHalf(s, mesh, was, h);
    a :| Shares(mesh, h, a) && a.t == s.elements[h.t].neighbors[h.i];
  }

  lemma SharersAreTwins(s: Structure, mesh: Mesh, was: Outline, h: Half, g: Half)
    requires BuiltFrom(s, mesh, was) && AtMostTwo(mesh) && Shares(mesh, h, g)
    ensures Twins(s, h, g)
  {
    assert Shares(mesh, g, h);
    var a := FirstOwner(s, mesh, was, h, g);
    var b := FirstOwner(s, mesh, was, g, h);
    assert !Trio(mesh, h, g, a) && !Trio(mesh, g, h, b);
  }

  lemma SameTriangle(s: Structure, mesh: Mesh, was: Outline, h: Half, g: Half)
    requires BuiltFrom(s, mesh, was) && Side(mesh, h) && Side(mesh, g) && h.t == g.t
    requires SideKeyOf(mesh, h) == SideKeyOf(mesh, g)
    ensures h == g
  {
    assert mesh.triangles[h.t] in mesh.triangles;
    KeysDiffer(mesh.triangles[h.t].vertices, h.i, g.i);
  }

  /** The rebuilt slots are reciprocal exactly when no side has three owners. */
  lemma ElementsAreReciprocal(s: Structure, mesh: Mesh, was: Outline)
    requires BuiltFrom(s, mesh, was)
    ensures Reciprocal(s) <==> AtMostTwo(mesh)
  {
    BuiltCorners(s, mesh, was);
    if AtMostTwo(mesh) {
      forall h ensures Answered(s, h) {
        BuiltHalf(s, mesh, was, h);
        if IsHalf(s, h) && s.elements[h.t].neighbors[h.i] >= 0 {
          var g :| Shares(mesh, h, g);
          SharersAreTwins(s, mesh, was, h, g);
        }
      }
      forall h, g ensures Paired(s, h, g) {
        BuiltHalf(s, mesh, was, h);
        BuiltHalf(s, mesh, was, g);
        if IsHalf(s, h) && IsHalf(s, g) && h != g && KeyOf(s, h) == KeyOf(s, g) {
          if h.t == g.t { SameTriangle(s, mesh, was, h, g); }
          SharersAreTwins(s, mesh, was, h, g);
        }
      }
    }
    if Reciprocal(s) {
      forall h, g, k ensures !Trio(mesh, h, g, k) {
        if Trio(mesh, h, g, k) {
          BuiltHalf(s, mesh, was, h); BuiltHalf(s, mesh, was, g); BuiltHalf(s, mesh, was, k);
          assert Paired(s, h, g) && Paired(s, h, k);
          SameTriangle(s, mesh, was, g, k);
        }
      }
    }
  }

  lemma BuiltCorners(s: Structure, mesh: Mesh, was: Outline)
    requires BuiltFrom(s, mesh, was)
    ensures AllTriangular(s) && forall e <- s.elements :: Corners(e)
  {
    forall e <- s.elements ensures Corners(e) {
      var t :| 0 <= t < |s.elements| && s.elements[t] == e;
      assert ElementFor(mesh, was, t, e);
      assert mesh.triangles[t] in mesh.triangles;
    }
  }

  /** The new elements count from one and keep corners and region. */
  lemma RebuiltSays(s: Structure, mesh: Mesh, was: Outline, t: nat)
    requires BuiltFrom(s, mesh, was) && t < |mesh.triangles|
    ensures |s.elements| == |mesh.triangles|
    ensures var e, tri := s.elements[t], mesh.triangles[t];
      && e.id == t + 1 && e.regionId == tri.regionId && e.vertices == tri.vertices
      && |e.neighbors| == 3 && e.extra == [-1, -1]
  {
    assert ElementFor(mesh, was, t, s.elements[t]);
  }

  /** Another triangle with these two corners. */
  predicate Holds(mesh: Mesh, t: nat, u: int, a: int, b: int) {
    0 <= u < |mesh.triangles| && u != t && a in mesh.triangles[u].vertices && b in mesh.triangles[u].vertices
  }

  lemma SharersHold(mesh: Mesh, h: Half, u: int)
    requires MeshOk(mesh) && Side(mesh, h)
    ensures var v := mesh.triangles[h.t].vertices;
      Holds(mesh, h.t, u, v[(h.i + 1) % 3], v[(h.i + 2) % 3]) <==> exists g :: Shares(mesh, h, g) && g.t == u
  {
    var v := mesh.triangles[h.t].vertices;
    var a, b := v[(h.i + 1) % 3], v[(h.i + 2) % 3];
    assert mesh.triangles[h.t] in mesh.triangles && a != b;
    if Holds(mesh, h.t, u, a, b) {
      var g := SideOfTwo(mesh, u, a, b);
      assert Shares(mesh, h, g);
    }
    if g :| Shares(mesh, h, g) && g.t == u {
      var w := mesh.triangles[u].vertices;
      KeyEnds(w[(g.i + 1) % 3], w[(g.i + 2) % 3], a, b);
      assert w[(g.i + 1) % 3] in w && w[(g.i + 2) % 3] in w;
    }
  }

  lemma SideOfTwo(mesh: Mesh, u: nat, a: int, b: int) returns (g: Half)
    requires MeshOk(mesh) && u < |mesh.triangles| && a != b
    requires a in mesh.triangles[u].vertices && b in mesh.triangles[u].vertices
    ensures Side(mesh, g) && g.t == u && SideKeyOf(mesh, g) == SideKey(a, b)
  {
    var w := mesh.triangles[u].vertices;
    assert mesh.triangles[u] in mesh.triangles;
    assert w == [w[0], w[1], w[2]];
    g := Half(u, if w[0] != a && w[0] != b then 0 else if w[1] != a && w[1] != b then 1 else 2);
    KeyEnds(w[(g.i + 1) % 3], w[(g.i + 2) % 3], a, b);
  }

  /** Slot i names the first other triangle with both corners opposite corner i; it
      holds a code exactly if there is none. */
  lemma SlotSays(s: Structure, mesh: Mesh, was: Outline, t: nat, i: nat, a: int, b: int)
    requires BuiltFrom(s, mesh, was) && t < |mesh.triangles| && i < 3 && |mesh.triangles[t].vertices| == 3
    requires a == mesh.triangles[t].vertices[(i + 1) % 3] && b == mesh.triangles[t].vertices[(i + 2) % 3]
    ensures t < |s.elements| && |s.elements[t].neighbors| == 3
    ensures var slot := s.elements[t].neighbors[i];
      (slot >= 0 ==> Holds(mesh, t, slot, a, b)) && (forall u :: Holds(mesh, t, u, a, b) ==> 0 <= slot <= u)
  {
    var h, slot := Half(t, i), s.elements[t].neighbors[i];
    RebuiltSays(s, mesh, was, t);
    assert ElementFor(mesh, was, t, s.elements[t]) && SlotIs(mesh, was, h, slot);
    SharersHold(mesh, h, slot);
    forall u | Holds(mesh, t, u, a, b) ensures 0 <= slot <= u {
      SharersHold(mesh, h, u);
    }
  }

  /** The side is shared with a triangle of another region. */
  ghost predicate OtherRegionAcross(mesh: Mesh, h: Half) {
    exists g :: Shares(mesh, h, g) && mesh.triangles[g.t].regionId != mesh.triangles[h.t].regionId
  }

  /** The sides the rebuilt structure keeps: those with one owner, and those whose
      two owners lie in different regions. */
  lemma ConstrainedOfRebuilt(s: Structure, mesh: Mesh, was: Outline, h: Half)
    requires BuiltFrom(s, mesh, was) && AtMostTwo(mesh) && Side(mesh, h)
    ensures IsHalf(s, h)
    ensures Constrained(s, h) <==> Alone(mesh, h) || OtherRegionAcross(mesh, h)
    ensures s.elements[h.t].neighbors[h.i] < 0 <==> Alone(mesh, h)
  {
    BuiltHalf(s, mesh, was, h);
    assert ElementFor(mesh, was, h.t, s.elements[h.t]);
    if !Alone(mesh, h) {
      var a :| Shares(mesh, h, a) && a.t == s.elements[h.t].neighbors[h.i];
      assert ElementFor(mesh, was, a.t, s.elements[a.t]);
      forall g | Shares(mesh, h, g) ensures g == a {
        assert !Trio(mesh, h, g, a);
      }
    }
  }

  /** A new outer side carries the code of an old outer side nearest to its
      midpoint; if it lies on the old boundary where that has one code, it has
      this code. */
  lemma OuterSidesInherit(s: Structure, mesh: Mesh, was: Outline, h: Half)
    requires BuiltFrom(s, mesh, was) && Side(mesh, h) && Alone(mesh, h)
    ensures IsHalf(s, h) && Nearest(was.seg, was.reach, Midpoint(mesh, h), s.elements[h.t].neighbors[h.i])
    ensures forall c :: LiesOn(was, Midpoint(mesh, h), c) ==> s.elements[h.t].neighbors[h.i] == c
  {
    BuiltHalf(s, mesh, was, h);
    var mid, code := Midpoint(mesh, h), s.elements[h.t].neighbors[h.i];
    assert Nearest(was.seg, was.reach, mid, code);
    var i: nat :| i < |was.seg| && was.seg[i].bc == code && NoneNearer(was.seg, was.reach, mid, i);
    OffsetNonNegative(mid, was.seg[i].a, was.seg[i].b);
    forall c | LiesOn(was, mid, c) ensures code == c {
      var k: nat :| k < |was.seg| && Through(was, mid, k);
      assert D2(was.seg[i], mid) <= D2(was.seg[k], mid);
      assert Through(was, mid, i);
    }
  }

  /** Segment k goes through the point. */
  predicate Through(was: Outline, mid: Point, k: nat)
    requires k < |was.seg|
  {
    D2(was.seg[k], mid) == 0.0
  }

  /** The point lies on the old boundary, where it has code c. */
  ghost predicate LiesOn(was: Outline, mid: Point, c: int) {
    && (exists k: nat :: k < |was.seg| && Through(was, mid, k))
    && forall k: nat :: k < |was.seg| && Through(was, mid, k) ==> was.seg[k].bc == c
  }

  // ------------------------------------------- from the old structure to the new

  lemma {:induction false} OuterOfHas(segs: seq<Segment>, points: seq<Point>, o: OldSeg)
    requires InRange(segs, |points|)
    ensures o in OuterOf(segs, points) <==>
      exists j :: 0 <= j < |segs| && segs[j].right == None
                  && o == OldSeg(points[segs[j].a], points[segs[j].b], segs[j].bc)
  {
    if segs != [] {
      var rest := segs[..|segs| - 1];
      OuterOfHas(rest, points, o);
      if o in OuterOf(rest, points) {
        var j :| 0 <= j < |rest| && rest[j].right == None
                 && o == OldSeg(points[rest[j].a], points[rest[j].b], rest[j].bc);
        assert segs[j] == rest[j];
      }
    }
  }

  function EndPoint(s: Structure, v: int): Point
    requires 0 <= v < |s.coordinates|
  {
    Point(s.coordinates[v].x, s.coordinates[v].y)
  }

  /** An outer side of the structure, as constrained_segments() finds it. */
  ghost predicate OldOuter(s: Structure, k: Half) {
    First(s, k) && s.elements[k.t].neighbors[k.i] < 0
  }

  /** p is a point of the side. */
  ghost predicate OnSide(s: Structure, k: Half, p: Point)
    requires Vertices(s) && IsHalf(s, k)
  {
    HalfWithin(s, k);
    exists t :: 0.0 <= t <= 1.0 && p == Lerp(EndPoint(s, Tail(s, k)), EndPoint(s, Head(s, k)), t)
  }

  /** The outer side k in the outline. */
  lemma InOutline(before: Structure, segs: seq<Segment>, from: seq<Half>, k: Half) returns (o: OldSeg)
    requires Vertices(before) && Collected(before, segs, from, |before.elements|, 0) && OldOuter(before, k)
    requires InRange(segs, |before.coordinates|)
    ensures o in OuterOf(segs, Points(before)) && o.bc == before.elements[k.t].neighbors[k.i]
    ensures forall p :: D2(o, p) == 0.0 <==> OnSide(before, k, p)
  {
    FirstIsTaken(before, segs, from, k);
    var j :| 0 <= j < |from| && from[j] == k;
    SegmentKey(before, segs, from, j);
    o := OldSeg(Points(before)[segs[j].a], Points(before)[segs[j].b], segs[j].bc);
    OuterOfHas(segs, Points(before), o);
    SideOf(before, k, o);
  }

  lemma SideOf(before: Structure, k: Half, o: OldSeg)
    requires Vertices(before) && IsHalf(before, k)
    requires (HalfWithin(before, k);
      o.a == EndPoint(before, Tail(before, k)) && o.b == EndPoint(before, Head(before, k)))
    ensures forall p :: D2(o, p) == 0.0 <==> OnSide(before, k, p)
  {
    forall p ensures D2(o, p) == 0.0 <==> OnSide(before, k, p) {
      OnSegment(p, o.a, o.b);
    }
  }

  /** The outer side an entry of the outline stands for. */
  lemma OfOutline(before: Structure, segs: seq<Segment>, from: seq<Half>, o: OldSeg) returns (k: Half)
    requires Vertices(before) && Collected(before, segs, from, |before.elements|, 0)
    requires InRange(segs, |before.coordinates|) && o in OuterOf(segs, Points(before))
    ensures OldOuter(before, k) && o.bc == before.elements[k.t].neighbors[k.i]
    ensures forall p :: D2(o, p) == 0.0 <==> OnSide(before, k, p)
  {
    OuterOfHas(segs, Points(before), o);
    var j :| 0 <= j < |segs| && segs[j].right == None
             && o == OldSeg(Points(before)[segs[j].a], Points(before)[segs[j].b], segs[j].bc);
    k := from[j];
    SegmentKey(before, segs, from, j);
    TakenIsFirst(before, segs, from, j);
    SideOf(before, k, o);
  }

  /** p lies on an outer side, and all outer sides it lies on have code c. */
  ghost predicate OneCode(before: Structure, p: Point, c: int)
    requires Vertices(before)
  {
    && (exists k :: OldOuter(before, k) && OnSide(before, k, p))
    && forall k :: OldOuter(before, k) && OnSide(before, k, p) ==> before.elements[k.t].neighbors[k.i] == c
  }

  lemma ThroughSome(before: Structure, segs: seq<Segment>, from: seq<Half>, was: Outline, p: Point, k: Half)
    returns (i: nat)
    requires Vertices(before) && OutlineFrom(before, segs, from, was.seg) && OldOuter(before, k) && OnSide(before, k, p)
    ensures i < |was.seg| && Through(was, p, i)
  {
    var o := InOutline(before, segs, from, k);
    i :| i < |was.seg| && was.seg[i] == o;
  }

  lemma ThroughOnly(before: Structure, segs: seq<Segment>, from: seq<Half>, was: Outline, p: Point, j: nat)
    returns (k: Half)
    requires Vertices(before) && OutlineFrom(before, segs, from, was.seg) && j < |was.seg| && Through(was, p, j)
    ensures OldOuter(before, k) && OnSide(before, k, p) && was.seg[j].bc == before.elements[k.t].neighbors[k.i]
  {
    k := OfOutline(before, segs, from, was.seg[j]);
  }

  lemma OneCodeInOutline(before: Structure, was: Outline, p: Point, c: int)
    requires Vertices(before) && IsOutlineOf(before, was.seg) && OneCode(before, p, c)
    ensures LiesOn(was, p, c)
  {
    var segs, from :| OutlineFrom(before, segs, from, was.seg);
    var k :| OldOuter(before, k) && OnSide(before, k, p);
    var i := ThroughSome(before, segs, from, was, p, k);
    forall j: nat | j < |was.seg| && Through(was, p, j) ensures was.seg[j].bc == c {
      var g := ThroughOnly(before, segs, from, was, p, j);
    }
  }

  lemma HalfwayIs(mesh: Mesh, h: Half, mid: Point)
    requires MeshOk(mesh) && Side(mesh, h) && Halfway(mesh, h, mid)
    ensures mid == Midpoint(mesh, h)
  {
  }

  /** From structure to structure: a new outer side whose midpoint lies on an old
      outer side, and on none whose slot has another code than c, has code c. */
  lemma CodeIsInherited(before: Structure, s: Structure, mesh: Mesh, was: Outline, h: Half, mid: Point, c: int)
    requires Vertices(before) && IsOutlineOf(before, was.seg) && BuiltFrom(s, mesh, was)
    requires Side(mesh, h) && Alone(mesh, h) && Halfway(mesh, h, mid) && OneCode(before, mid, c)
    ensures IsHalf(s, h) && s.elements[h.t].neighbors[h.i] == c
  {
    HalfwayIs(mesh, h, mid);
    OneCodeInOutline(before, was, mid, c);
    OuterSidesInherit(s, mesh, was, h);
  }

  /** mid is as far from the vertex after slot h.i as from the one before it. */
  predicate Halfway(mesh: Mesh, h: Half, mid: Point)
    requires MeshOk(mesh) && Side(mesh, h)
  {
    var v := mesh.triangles[h.t].vertices;
    assert mesh.triangles[h.t] in mesh.triangles && v[(h.i + 1) % 3] in v && v[(h.i + 2) % 3] in v;
    var a, b := mesh.points[v[(h.i + 1) % 3]], mesh.points[v[(h.i + 2) % 3]];
    mid.x - a.x == b.x - mid.x && mid.y - a.y == b.y - mid.y
  }
}
