/** devsim/mesh.py: the flat mesh handed to the device solver, and reading it back. */
module DeviceMesh {
  import opened Options
  import opened FiniteSets
  import opened StrModel
  import opened BoundarySegments

  const EDGE: int := 1
  const TRIANGLE: int := 2
  const UM_TO_CM: real := 0.0001

  // --------------------------------------------------------- the flat elements

  /** One record: its kind, physical index and nodes. */
  datatype Record = Record(kind: int, physical: int, nodes: seq<int>)

  function NodeCount(kind: int): nat {
    if kind == EDGE then 2 else 3
  }

  predicate WellFormed(r: Record) {
    |r.nodes| == NodeCount(r.kind)
  }

  function Encode(rs: seq<Record>): seq<int> {
    if rs == [] then []
    else Encode(rs[..|rs|-1]) + [rs[|rs|-1].kind, rs[|rs|-1].physical] + rs[|rs|-1].nodes
  }

  /** The records from `index` on; an index error where a record has no second
      entry.  A slice past the end is cut short, as in Python. */
  function DecodeFrom(flat: seq<int>, index: nat): Result<seq<Record>>
    decreases |flat| - index
  {
    if index >= |flat| then Ok([])
    else if index + 1 >= |flat| then Error
    else
      var kind, physical, count := flat[index], flat[index + 1], NodeCount(flat[index]);
      var end := if index + 2 + count <= |flat| then index + 2 + count else |flat|;
      var rest := DecodeFrom(flat, index + 2 + count);
      if rest.Error? then Error else Ok([Record(kind, physical, flat[index + 2..end])] + rest.value)
  }

  /** What `out` and the rest of the reading come to. */
  function Then(out: seq<Record>, rest: Result<seq<Record>>): Result<seq<Record>> {
    if rest.Error? then Error else Ok(out + rest.value)
  }

  /** The first record: 1 is an edge with two nodes, anything else has three; a
      record that is cut short has the nodes that are left. */
  lemma DecodeSays(flat: seq<int>)
    ensures |flat| == 0 ==> DecodeFrom(flat, 0) == Ok([])
    ensures |flat| == 1 ==> DecodeFrom(flat, 0) == Error
    ensures |flat| >= 2 ==>
      var n := if flat[0] == 1 then 4 else 5;
      DecodeFrom(flat, 0) ==
        if |flat| <= n then Ok([Record(flat[0], flat[1], flat[2..])])
        else Then([Record(flat[0], flat[1], flat[2..n])], DecodeFrom(flat, n))
  {
    if |flat| >= 2 {
      var n := if flat[0] == 1 then 4 else 5;
      assert n == 2 + NodeCount(flat[0]);
      var one := [Record(flat[0], flat[1], flat[2..if n <= |flat| then n else |flat|])];
      if |flat| <= n {
        assert flat[2..|flat|] == flat[2..] && DecodeFrom(flat, n) == Ok([]);
        assert one + [] == one;
      }
    }
  }

  function RecordAt(flat: seq<int>, index: nat): Record
    requires index + 1 < |flat|
  {
    var end := index + 2 + NodeCount(flat[index]);
    Record(flat[index], flat[index + 1], flat[index + 2..if end <= |flat| then end else |flat|])
  }

  lemma ThenNext(flat: seq<int>, index: nat, out: seq<Record>)
    requires index + 1 < |flat|
    ensures Then(out, DecodeFrom(flat, index))
         == Then(out + [RecordAt(flat, index)], DecodeFrom(flat, index + 2 + NodeCount(flat[index])))
  {
    var rest := DecodeFrom(flat, index + 2 + NodeCount(flat[index]));
    if rest.Ok? {
      assert out + ([RecordAt(flat, index)] + rest.value) == (out + [RecordAt(flat, index)]) + rest.value;
    }
  }

  /** iter_elements() */
  method IterElements(flat: seq<int>) returns (r: Result<seq<Record>>)
    ensures r == DecodeFrom(flat, 0)
  {
    var index: nat := 0;
    var out: seq<Record> := [];
    assert Then([], DecodeFrom(flat, 0)) == DecodeFrom(flat, 0) by {
      if DecodeFrom(flat, 0).Ok? { assert [] + DecodeFrom(flat, 0).value == DecodeFrom(flat, 0).value; }
    }
    while index < |flat|
      invariant DecodeFrom(flat, 0) == Then(out, DecodeFrom(flat, index))
      decreases |flat| - index
    {
      if index + 1 >= |flat| { return Error; }
      ThenNext(flat, index, out);
      var kind, physical := flat[index], flat[index + 1];
      var count := if kind == EDGE then 2 else 3;
      var end := if index + 2 + count <= |flat| then index + 2 + count else |flat|;
      out := out + [Record(kind, physical, flat[index + 2..end])];
      index := index + 2 + count;
    }
    assert out + [] == out;
    r := Ok(out);
  }

  function Words(r: Record): seq<int> {
    [r.kind, r.physical] + r.nodes
  }

  lemma {:induction false} EncodeCons(r: Record, rs: seq<Record>)
    ensures Encode([r] + rs) == Words(r) + Encode(rs)
  {
    var all := [r] + rs;
    if rs == [] {
      assert all[..0] == [];
    } else {
      assert all[..|all|-1] == [r] + rs[..|rs|-1];
      EncodeCons(r, rs[..|rs|-1]);
    }
  }

  /** Reading what was written from `index` on gives the records back. */
  lemma {:induction false} DecodeEncoded(flat: seq<int>, index: nat, rs: seq<Record>)
    requires index <= |flat| && flat[index..] == Encode(rs) && forall r <- rs :: WellFormed(r)
    ensures DecodeFrom(flat, index) == Ok(rs)
    decreases |rs|
  {
    if rs != [] {
      var r, rest := rs[0], rs[1..];
      assert rs == [r] + rest && r in rs;
      EncodeCons(r, rest);
      var n := |Words(r)|;
      assert |flat| - index == n + |Encode(rest)|;
      assert flat[index..][..n] == Words(r) && flat[index..][n..] == Encode(rest);
      assert flat[index..][n..] == flat[index + n..];
      assert flat[index] == Words(r)[0] && flat[index + 1] == Words(r)[1];
      assert flat[index + 2..index + n] == flat[index..][2..n] == Words(r)[2..] == r.nodes;
      forall q <- rest ensures WellFormed(q) { assert q in rs; }
      DecodeEncoded(flat, index + n, rest);
      assert [r] + rest == rs;
    }
  }

  /** A list of records survives the flat form. */
  lemma RoundTrip(rs: seq<Record>)
    requires forall r <- rs :: WellFormed(r)
    ensures DecodeFrom(Encode(rs), 0) == Ok(rs)
  {
    assert Encode(rs)[0..] == Encode(rs);
    DecodeEncoded(Encode(rs), 0, rs);
  }

  /** And a flat form that reads back into complete records is their encoding. */
  lemma DecodedHead(flat: seq<int>, index: nat, rs: seq<Record>)
    requires index < |flat| && DecodeFrom(flat, index) == Ok(rs) && forall r <- rs :: WellFormed(r)
    ensures rs != [] && index + 2 + NodeCount(flat[index]) <= |flat|
    ensures var end := index + 2 + NodeCount(flat[index]);
      rs[0] == Record(flat[index], flat[index + 1], flat[index + 2..end]) && DecodeFrom(flat, end) == Ok(rs[1..])
  {
    assert rs[0] in rs;
  }

  lemma Sliced(flat: seq<int>, index: nat, end: nat)
    requires index + 2 <= end <= |flat|
    ensures flat[index..] == [flat[index], flat[index + 1]] + flat[index + 2..end] + flat[end..]
  {
  }

  lemma {:induction false} DecodedEncodes(flat: seq<int>, index: nat, rs: seq<Record>)
    requires index <= |flat| && DecodeFrom(flat, index) == Ok(rs) && forall r <- rs :: WellFormed(r)
    ensures Encode(rs) == flat[index..]
    decreases |flat| - index
  {
    if index < |flat| {
      DecodedHead(flat, index, rs);
      var r, rest, end := rs[0], rs[1..], index + 2 + NodeCount(flat[index]);
      assert rs == [r] + rest;
      forall q <- rest ensures WellFormed(q) { assert q in rs; }
      DecodedEncodes(flat, end, rest);
      EncodeCons(r, rest);
      Sliced(flat, index, end);
    }
  }

  // --------------------------------------------------------------- the points

  /** Elements of a region that is kept. */
  function KeptOf(es: seq<Element>, regions: map<int, string>): seq<Element> {
    if es == [] then []
    else KeptOf(es[..|es|-1], regions) + if es[|es|-1].regionId in regions then [es[|es|-1]] else []
  }

  lemma {:induction false} KeptMembers(es: seq<Element>, regions: map<int, string>, e: Element)
    ensures e in KeptOf(es, regions) <==> e in es && e.regionId in regions
  {
    if es != [] {
      KeptMembers(es[..|es|-1], regions, e);
      assert es == es[..|es|-1] + [es[|es|-1]];
    }
  }

  type PointMap = map<int, nat>

  /** The keys are numbered 0 to n - 1, each number once. */
  ghost predicate Numbered(pm: PointMap) {
    && (forall v <- pm :: pm[v] < |pm|)
    && (forall v <- pm, w <- pm :: pm[v] == pm[w] ==> v == w)
    && (forall k: nat :: k < |pm| ==> Used(pm, k))
  }

  ghost predicate Used(pm: PointMap, k: nat) {
    exists v :: v in pm && pm[v] == k
  }

  /** v is a corner of some element before (t, i). */
  ghost predicate Cornered(es: seq<Element>, t: nat, i: nat, v: int) {
    exists e, j :: 0 <= e < |es| && 0 <= j < |es[e].vertices| && (e < t || (e == t && j < i)) && es[e].vertices[j] == v
  }

  ghost predicate CornerKeys(es: seq<Element>, t: nat, i: nat, pm: PointMap) {
    forall v :: v in pm <==> Cornered(es, t, i, v)
  }

  lemma InNumber(pm: PointMap, v: int)
    requires Numbered(pm) && v in pm
    ensures pm[v] < |pm|
  {
  }

  lemma NumberMore(pm: PointMap, v: int)
    requires Numbered(pm) && v !in pm
    ensures Numbered(pm[v := |pm|]) && |pm[v := |pm|]| == |pm| + 1
  {
    var pm' := pm[v := |pm|];
    assert pm'.Keys == pm.Keys + {v};
    assert |pm'| == |pm'.Keys| && |pm| == |pm.Keys|;
    forall k: nat | k < |pm'| ensures Used(pm', k) {
      if k < |pm| {
        assert Used(pm, k);
        var w :| w in pm && pm[w] == k;
        assert w in pm' && pm'[w] == k;
      } else {
        assert v in pm' && pm'[v] == k;
      }
    }
  }

  lemma CornerNext(es: seq<Element>, t: nat, i: nat, pm: PointMap, pm': PointMap)
    requires t < |es| && i < |es[t].vertices| && CornerKeys(es, t, i, pm)
    requires pm'.Keys == pm.Keys + {es[t].vertices[i]}
    ensures CornerKeys(es, t, i + 1, pm')
  {
    var v := es[t].vertices[i];
    forall w ensures w in pm' <==> Cornered(es, t, i + 1, w) {
      if w in pm {
        var e, j :| 0 <= e < |es| && 0 <= j < |es[e].vertices| && (e < t || (e == t && j < i))
            && es[e].vertices[j] == w;
        assert e < t || (e == t && j < i + 1);
      }
      if w == v {
        assert es[t].vertices[i] == w;
      }
      if Cornered(es, t, i + 1, w) && w != v {
        var e, j :| 0 <= e < |es| && 0 <= j < |es[e].vertices| && (e < t || (e == t && j < i + 1))
            && es[e].vertices[j] == w;
        assert e < t || (e == t && j < i);
        assert Cornered(es, t, i, w);
      }
    }
  }

  lemma CornerTurn(es: seq<Element>, t: nat, pm: PointMap)
    requires t < |es| && CornerKeys(es, t, |es[t].vertices|, pm)
    ensures CornerKeys(es, t + 1, 0, pm)
  {
    forall w ensures Cornered(es, t, |es[t].vertices|, w) <==> Cornered(es, t + 1, 0, w) {
      if Cornered(es, t, |es[t].vertices|, w) {
        var e, j :| 0 <= e < |es| && 0 <= j < |es[e].vertices| && (e < t || (e == t && j < |es[t].vertices|))
            && es[e].vertices[j] == w;
        assert e < t + 1 || (e == t + 1 && j < 0);
      }
      if Cornered(es, t + 1, 0, w) {
        var e, j :| 0 <= e < |es| && 0 <= j < |es[e].vertices| && (e < t + 1 || (e == t + 1 && j < 0))
            && es[e].vertices[j] == w;
        assert e < t || (e == t && j < |es[t].vertices|);
      }
    }
  }

  /** The loop that fills point_map. */
  method NumberPoints(es: seq<Element>) returns (pm: PointMap)
    ensures Numbered(pm) && CornerKeys(es, |es|, 0, pm)
  {
    pm := map[];
    for t := 0 to |es|
      invariant Numbered(pm) && CornerKeys(es, t, 0, pm)
    {
      for i := 0 to |es[t].vertices|
        invariant Numbered(pm) && CornerKeys(es, t, i, pm)
      {
        var v := es[t].vertices[i];
        if v !in pm {
          NumberMore(pm, v);
          CornerNext(es, t, i, pm, pm[v := |pm|]);
          pm := pm[v := |pm|];
        } else {
          assert pm.Keys == pm.Keys + {v};
          CornerNext(es, t, i, pm, pm);
        }
      }
      CornerTurn(es, t, pm);
    }
  }

  /** The numbering of exactly the corners of the kept elements. */
  ghost predicate Numbers(es: seq<Element>, pm: PointMap) {
    Numbered(pm) && forall v :: v in pm <==> IsCorner(es, v)
  }

  ghost predicate IsCorner(es: seq<Element>, v: int) {
    exists e <- es :: v in e.vertices
  }

  lemma NumbersCorners(es: seq<Element>, pm: PointMap)
    requires Numbered(pm) && CornerKeys(es, |es|, 0, pm)
    ensures Numbers(es, pm)
  {
    forall v ensures v in pm <==> IsCorner(es, v) {
      if v in pm {
        var e, j :| 0 <= e < |es| && 0 <= j < |es[e].vertices| && (e < |es| || (e == |es| && j < 0))
            && es[e].vertices[j] == v;
        assert es[e] in es && v in es[e].vertices;
      }
      if e0 :| e0 in es && v in e0.vertices {
        var e :| 0 <= e < |es| && es[e] == e0;
        var j :| 0 <= j < |es[e].vertices| && es[e].vertices[j] == v;
        assert Cornered(es, |es|, 0, v);
      }
    }
  }

  // ---------------------------------------------------------- the coordinates

  predicate Located(s: Structure, pm: PointMap) {
    forall v <- pm :: 0 <= v < |s.coordinates|
  }

  /** Point v is at its number, in centimetres, with y turned up. */
  predicate PlacedAt(s: Structure, coords: seq<real>, v: int, k: nat)
    requires 0 <= v < |s.coordinates|
  {
    && 3 * k + 2 < |coords| && coords[3 * k] == s.coordinates[v].x * UM_TO_CM
    && coords[3 * k + 1] == -s.coordinates[v].y * UM_TO_CM && coords[3 * k + 2] == 0.0
  }

  ghost predicate Placed(s: Structure, coords: seq<real>, pm: PointMap, done: set<int>)
    requires Located(s, pm)
  {
    |coords| == 3 * |pm| && forall v <- done :: v in pm ==> PlacedAt(s, coords, v, pm[v])
  }

  lemma PlaceMore(s: Structure, coords: seq<real>, coords': seq<real>, pm: PointMap, done: set<int>, v: int)
    requires Located(s, pm) && Numbered(pm) && Placed(s, coords, pm, done) && v in pm && done <= pm.Keys
    requires |coords'| == |coords| && PlacedAt(s, coords', v, pm[v])
    requires forall i :: 0 <= i < |coords| && i != 3 * pm[v] && i != 3 * pm[v] + 1 && i != 3 * pm[v] + 2 ==>
        coords'[i] == coords[i]
    ensures Placed(s, coords', pm, done + {v})
  {
    forall w | w in done && w != v ensures PlacedAt(s, coords', w, pm[w]) {
      assert pm[w] != pm[v] && PlacedAt(s, coords, w, pm[w]);
    }
  }

  /** The loop that fills `coordinates`. */
  method PlacePoints(s: Structure, pm: PointMap) returns (coords: seq<real>)
    requires Numbered(pm) && Located(s, pm)
    ensures Placed(s, coords, pm, pm.Keys)
  {
    var buffer := new real[3 * |pm|](_ => 0.0);
    var todo := pm.Keys;
    assert pm.Keys - todo == {};
    while todo != {}
      invariant todo <= pm.Keys && Placed(s, buffer[..], pm, pm.Keys - todo)
      decreases |todo|
    {
      HasMember(todo);
      var source :| source in todo;
      var target, point := pm[source], s.coordinates[source];
      ghost var was := buffer[..];
      buffer[target * 3] := point.x * UM_TO_CM;
      buffer[target * 3 + 1] := -point.y * UM_TO_CM;
      buffer[target * 3 + 2] := 0.0;
      PlaceMore(s, was, buffer[..], pm, pm.Keys - todo, source);
      assert pm.Keys - (todo - {source}) == pm.Keys - todo + {source};
      todo := todo - {source};
    }
    assert pm.Keys - todo == pm.Keys;
    coords := buffer[..];
  }

  /** _area() */
  function Area(coords: seq<real>, a: nat, b: nat, c: nat): real
    requires 3 * a + 1 < |coords| && 3 * b + 1 < |coords| && 3 * c + 1 < |coords|
  {
    var (ax, ay, bx) := (coords[3 * a], coords[3 * a + 1], coords[3 * b]);
    var (by_, cx, cy) := (coords[3 * b + 1], coords[3 * c], coords[3 * c + 1]);
    0.5 * ((bx - ax) * (cy - ay) - (cx - ax) * (by_ - ay))
  }

  lemma Turned(coords: seq<real>, a: nat, b: nat, c: nat)
    requires 3 * a + 1 < |coords| && 3 * b + 1 < |coords| && 3 * c + 1 < |coords|
    ensures Area(coords, a, c, b) == -Area(coords, a, b, c)
  {
  }

  // --------------------------------------------------------- physical names

  /** The closure physical() with the two tables it fills. */
  class PhysicalNames {
    var names: seq<string>
    var indexOf: map<string, nat>

    ghost predicate Valid()
      reads this
    {
      && (forall n <- indexOf :: indexOf[n] < |names| && names[indexOf[n]] == n)
      && (forall k: nat :: k < |names| ==> names[k] in indexOf && indexOf[names[k]] == k)
    }

    constructor ()
      ensures Valid() && names == []
    {
      names, indexOf := [], map[];
    }

    /** The index of the name, new or old; indices given before stay good. */
    method Physical(name: string) returns (k: nat)
      requires Valid()
      modifies this
      ensures Valid() && k < |names| && names[k] == name
      ensures names == if name in old(names) then old(names) else old(names) + [name]
    {
      if name !in indexOf {
        indexOf := indexOf[name := |names|];
        names := names + [name];
      }
      k := indexOf[name];
    }
  }

  // -------------------------------------------------------------- the records

  /** Three corners of a kept element, numbered, turned so that the area is not
      negative, under the name of the region. */
  predicate TriangleFor(
    r: Record, e: Element, pm: PointMap, coords: seq<real>, names: seq<string>, regions: map<int, string>)
    requires MappedElement(e, pm, regions)
  {
    && r.kind == TRIANGLE && |r.nodes| == 3
    && r.nodes[0] == pm[e.vertices[0]]
    && ((r.nodes[1] == pm[e.vertices[1]] && r.nodes[2] == pm[e.vertices[2]])
        || (r.nodes[1] == pm[e.vertices[2]] && r.nodes[2] == pm[e.vertices[1]]))
    && Node(r.nodes[0], coords) && Node(r.nodes[1], coords) && Node(r.nodes[2], coords)
    && Area(coords, r.nodes[0], r.nodes[1], r.nodes[2]) >= 0.0
    && 0 <= r.physical < |names| && names[r.physical] == regions[e.regionId]
  }

  predicate Node(n: int, coords: seq<real>) {
    0 <= n && 3 * n + 1 < |coords|
  }

  predicate MappedElement(e: Element, pm: PointMap, regions: map<int, string>) {
    && |e.vertices| == 3 && e.vertices[0] in pm && e.vertices[1] in pm && e.vertices[2] in pm
    && e.regionId in regions
  }

  /** A side to be handed over, with the name it goes under. */
  datatype Wire = Wire(name: string, a: int, b: int)

  predicate EdgeFor(r: Record, w: Wire, pm: PointMap, names: seq<string>)
    requires w.a in pm && w.b in pm
  {
    && r.kind == EDGE && r.nodes == [pm[w.a] as int, pm[w.b] as int]
    && 0 <= r.physical < |names| && names[r.physical] == w.name
  }

  ghost predicate Mapped(es: seq<Element>, pm: PointMap, regions: map<int, string>) {
    forall i :: 0 <= i < |es| ==> MappedElement(es[i], pm, regions)
  }

  ghost predicate Wired(ws: seq<Wire>, pm: PointMap) {
    forall w <- ws :: w.a in pm && w.b in pm
  }

  ghost predicate Triangles(
    rs: seq<Record>, es: seq<Element>, pm: PointMap, coords: seq<real>, names: seq<string>, regions: map<int, string>)
    requires Mapped(es, pm, regions)
  {
    |rs| == |es| && forall i :: 0 <= i < |rs| ==> TriangleFor(rs[i], es[i], pm, coords, names, regions)
  }

  ghost predicate Edges(rs: seq<Record>, ws: seq<Wire>, pm: PointMap, names: seq<string>)
    requires Wired(ws, pm)
  {
    |rs| == |ws| && forall i :: 0 <= i < |rs| ==> EdgeFor(rs[i], ws[i], pm, names)
  }

  ghost predicate AllWellFormed(rs: seq<Record>) {
    forall r <- rs :: WellFormed(r)
  }

  lemma EncodeSnoc(rs: seq<Record>, r: Record)
    ensures Encode(rs + [r]) == Encode(rs) + [r.kind, r.physical] + r.nodes
    ensures AllWellFormed(rs) && WellFormed(r) ==> AllWellFormed(rs + [r])
  {
    assert (rs + [r])[..|rs|] == rs;
  }

  lemma TrianglesGrow(rs: seq<Record>, es: seq<Element>, pm: PointMap, coords: seq<real>, names: seq<string>,
      names': seq<string>,
                      regions: map<int, string>)
    requires Mapped(es, pm, regions) && Triangles(rs, es, pm, coords, names, regions) && names <= names'
    ensures Triangles(rs, es, pm, coords, names', regions)
  {
    forall i | 0 <= i < |rs| ensures TriangleFor(rs[i], es[i], pm, coords, names', regions) {
      assert TriangleFor(rs[i], es[i], pm, coords, names, regions);
    }
  }

  lemma TrianglesMore(rs: seq<Record>, es: seq<Element>, pm: PointMap, coords: seq<real>, names: seq<string>,
      names': seq<string>,
                      regions: map<int, string>, r: Record, e: Element)
    requires Mapped(es, pm, regions) && Triangles(rs, es, pm, coords, names, regions) && names <= names'
    requires MappedElement(e, pm, regions) && TriangleFor(r, e, pm, coords, names', regions)
    ensures Mapped(es + [e], pm, regions) && Triangles(rs + [r], es + [e], pm, coords, names', regions)
  {
    TrianglesGrow(rs, es, pm, coords, names, names', regions);
    forall i | 0 <= i < |rs + [r]| ensures TriangleFor((rs + [r])[i], (es + [e])[i], pm, coords, names', regions) {
      if i < |rs| {
        assert TriangleFor(rs[i], es[i], pm, coords, names', regions);
      }
    }
  }

  lemma OneTriangle(flat: seq<int>, k: int, a: int, b: int, c: int)
    ensures flat + [TRIANGLE, k, a, b, c] == flat + [TRIANGLE, k] + [a, b, c]
  {
  }

  predicate NodesAt(e: Element, pm: PointMap, coords: seq<real>)
    requires |e.vertices| == 3 && e.vertices[0] in pm && e.vertices[1] in pm && e.vertices[2] in pm
  {
    Node(pm[e.vertices[0]], coords) && Node(pm[e.vertices[1]], coords) && Node(pm[e.vertices[2]], coords)
  }

  /** One triangle. */
  method EmitTriangle(e: Element, pm: PointMap, coords: seq<real>, regions: map<int, string>, tables: PhysicalNames,
                      flat0: seq<int>, ghost rs0: seq<Record>)
    returns (flat: seq<int>, ghost r: Record)
    requires tables.Valid() && MappedElement(e, pm, regions) && NodesAt(e, pm, coords)
    requires flat0 == Encode(rs0) && AllWellFormed(rs0)
    modifies tables
    ensures tables.Valid() && old(tables.names) <= tables.names
    ensures flat == Encode(rs0 + [r]) && AllWellFormed(rs0 + [r])
    ensures TriangleFor(r, e, pm, coords, tables.names, regions)
  {
    var a, b, c := pm[e.vertices[0]], pm[e.vertices[1]], pm[e.vertices[2]];
    Turned(coords, a, b, c);
    if Area(coords, a, b, c) < 0.0 {
      b, c := c, b;
    }
    var k := tables.Physical(regions[e.regionId]);
    r := Record(TRIANGLE, k, [a, b, c]);
    OneTriangle(flat0, k, a, b, c);
    EncodeSnoc(rs0, r);
    flat := flat0 + [TRIANGLE, k, a, b, c];
  }

  /** The element can be emitted: its corners are numbered and have coordinates. */
  predicate Ready(e: Element, pm: PointMap, coords: seq<real>, regions: map<int, string>) {
    MappedElement(e, pm, regions) && NodesAt(e, pm, coords)
  }

  lemma NodesInRange(es: seq<Element>, pm: PointMap, coords: seq<real>, regions: map<int, string>)
    requires Mapped(es, pm, regions) && Numbered(pm) && |coords| == 3 * |pm|
    ensures forall i :: 0 <= i < |es| ==> Ready(es[i], pm, coords, regions)
  {
    forall i | 0 <= i < |es| ensures Ready(es[i], pm, coords, regions) {
      var e := es[i];
      assert MappedElement(e, pm, regions);
      InNumber(pm, e.vertices[0]);
      InNumber(pm, e.vertices[1]);
      InNumber(pm, e.vertices[2]);
    }
  }

  ghost predicate TrianglesDone(es: seq<Element>, pm: PointMap, coords: seq<real>, regions: map<int, string>,
      names: seq<string>,
                                flat: seq<int>, rs: seq<Record>)
  {
    && flat == Encode(rs) && AllWellFormed(rs)
    && Mapped(es, pm, regions) && Triangles(rs, es, pm, coords, names, regions)
  }

  lemma TriangleStep(es: seq<Element>, pm: PointMap, coords: seq<real>, regions: map<int, string>, names: seq<string>,
      names': seq<string>,
                     flat: seq<int>, flat': seq<int>, rs: seq<Record>, e: Element, r: Record)
    requires TrianglesDone(es, pm, coords, regions, names, flat, rs) && names <= names' && MappedElement(e, pm, regions)
    requires TriangleFor(r, e, pm, coords, names', regions) && flat' == Encode(rs + [r]) && AllWellFormed(rs + [r])
    ensures TrianglesDone(es + [e], pm, coords, regions, names', flat', rs + [r])
  {
    TrianglesMore(rs, es, pm, coords, names, names', regions, r, e);
  }

  /** The body of the loop over the kept elements, after those in `done`. */
  method EmitNext(e: Element, pm: PointMap, coords: seq<real>, regions: map<int, string>, tables: PhysicalNames,
                  flat0: seq<int>, ghost done: seq<Element>, ghost rs0: seq<Record>)
    returns (flat: seq<int>, ghost rs: seq<Record>)
    requires tables.Valid() && Ready(e, pm, coords, regions)
    requires TrianglesDone(done, pm, coords, regions, tables.names, flat0, rs0)
    modifies tables
    ensures tables.Valid() && old(tables.names) <= tables.names
    ensures TrianglesDone(done + [e], pm, coords, regions, tables.names, flat, rs)
  {
    ghost var r;
    flat, r := EmitTriangle(e, pm, coords, regions, tables, flat0, rs0);
    TriangleStep(done, pm, coords, regions, old(tables.names), tables.names, flat0, flat, rs0, e, r);
    rs := rs0 + [r];
  }

  /** The loop over the kept elements. */
  method EmitTriangles(
    es: seq<Element>, pm: PointMap, coords: seq<real>, regions: map<int, string>, tables: PhysicalNames)
    returns (flat: seq<int>, ghost rs: seq<Record>)
    requires tables.Valid() && forall i :: 0 <= i < |es| ==> Ready(es[i], pm, coords, regions)
    modifies tables
    ensures tables.Valid() && old(tables.names) <= tables.names
    ensures TrianglesDone(es, pm, coords, regions, tables.names, flat, rs)
  {
    flat, rs := [], [];
    ghost var done := [];
    for t := 0 to |es|
      invariant tables.Valid() && old(tables.names) <= tables.names && done == es[..t]
      invariant TrianglesDone(done, pm, coords, regions, tables.names, flat, rs)
    {
      flat, rs := EmitNext(es[t], pm, coords, regions, tables, flat, done, rs);
      done := done + [es[t]];
    }
    assert done == es;
  }

  /** One side; shared by the two loops over sides. */
  method EmitEdge(w: Wire, pm: PointMap, tables: PhysicalNames, flat0: seq<int>, ghost rs0: seq<Record>)
    returns (flat: seq<int>, ghost r: Record)
    requires tables.Valid() && w.a in pm && w.b in pm && flat0 == Encode(rs0) && AllWellFormed(rs0)
    modifies tables
    ensures tables.Valid() && old(tables.names) <= tables.names
    ensures flat == Encode(rs0 + [r]) && AllWellFormed(rs0 + [r]) && EdgeFor(r, w, pm, tables.names)
  {
    var k := tables.Physical(w.name);
    r := Record(EDGE, k, [pm[w.a], pm[w.b]]);
    EncodeSnoc(rs0, r);
    flat := flat0 + [EDGE, k, pm[w.a], pm[w.b]];
    assert flat == Encode(rs0) + [r.kind, r.physical] + r.nodes;
  }

  type Pair = (int, int)

  /** Both sides of the segment are kept. */
  predicate Inner(g: Segment, regions: map<int, string>) {
    g.right.Some? && g.left in regions && g.right.value in regions
  }

  function PairOf(g: Segment): Pair
    requires g.right.Some?
  {
    if g.left <= g.right.value then (g.left, g.right.value) else (g.right.value, g.left)
  }

  function InnerWires(segs: seq<Segment>, regions: map<int, string>, nameOf: Pair -> string): seq<Wire> {
    if segs == [] then []
    else
      var g := segs[|segs|-1];
      InnerWires(segs[..|segs|-1], regions, nameOf)
          + if Inner(g, regions) then [Wire(nameOf(PairOf(g)), g.a, g.b)] else []
  }

  /** An edge of an electrode, with the contact it belongs to. */
  datatype ContactEdge = ContactEdge(region: int, contact: string, a: int, b: int)

  function ContactWires(cs: seq<ContactEdge>, regions: map<int, string>): seq<Wire> {
    if cs == [] then []
    else
      var c := cs[|cs|-1];
      ContactWires(cs[..|cs|-1], regions) + if c.region in regions then [Wire(c.contact, c.a, c.b)] else []
  }

  /** Each pair of touching regions once. */
  ghost predicate Interfaces(pairs: seq<Pair>, segs: seq<Segment>, regions: map<int, string>) {
    && (forall i, j :: 0 <= i < j < |pairs| ==> pairs[i] != pairs[j])
    && (forall p :: p in pairs <==> exists g <- segs :: Inner(g, regions) && PairOf(g) == p)
  }

  lemma InterfacesMore(pairs: seq<Pair>, segs: seq<Segment>, regions: map<int, string>, g: Segment)
    requires Interfaces(pairs, segs, regions)
    ensures Interfaces(if Inner(g, regions)
        && PairOf(g) !in pairs then pairs + [PairOf(g)] else pairs, segs + [g], regions)
  {
    var pairs' := if Inner(g, regions) && PairOf(g) !in pairs then pairs + [PairOf(g)] else pairs;
    forall p ensures p in pairs' <==> exists h <- segs + [g] :: Inner(h, regions) && PairOf(h) == p {
      if p in pairs' {
        if p in pairs {
          var h :| h in segs && Inner(h, regions) && PairOf(h) == p;
          assert h in segs + [g];
        } else {
          assert g in segs + [g];
        }
      }
      if h :| h in segs + [g] && Inner(h, regions) && PairOf(h) == p {
        assert h in segs || h == g;
      }
    }
  }

  lemma EdgesMore(
    rs: seq<Record>, ws: seq<Wire>, pm: PointMap, names: seq<string>, names': seq<string>, r: Record, w: Wire)
    requires Wired(ws, pm) && Edges(rs, ws, pm, names) && names <= names'
    requires w.a in pm && w.b in pm && EdgeFor(r, w, pm, names')
    ensures Wired(ws + [w], pm) && Edges(rs + [r], ws + [w], pm, names')
  {
  }

  /** What the loop over the segments has come to. */
  ghost predicate InnerDone(segs: seq<Segment>, pm: PointMap, regions: map<int, string>, nameOf: Pair -> string,
      names: seq<string>,
                            flat: seq<int>, rs0: seq<Record>, rs: seq<Record>, pairs: seq<Pair>)
  {
    && flat == Encode(rs0 + rs) && AllWellFormed(rs0 + rs) && Interfaces(pairs, segs, regions)
    && Wired(InnerWires(segs, regions, nameOf), pm) && Edges(rs, InnerWires(segs, regions, nameOf), pm, names)
  }

  lemma InnerSkip(segs: seq<Segment>, pm: PointMap, regions: map<int, string>, nameOf: Pair -> string,
      names: seq<string>,
                  flat: seq<int>, rs0: seq<Record>, rs: seq<Record>, pairs: seq<Pair>, g: Segment)
    requires InnerDone(segs, pm, regions, nameOf, names, flat, rs0, rs, pairs) && !Inner(g, regions)
    ensures InnerDone(segs + [g], pm, regions, nameOf, names, flat, rs0, rs, pairs)
  {
    InterfacesMore(pairs, segs, regions, g);
    assert (segs + [g])[..|segs|] == segs;
  }

  lemma InnerStep(segs: seq<Segment>, pm: PointMap, regions: map<int, string>, nameOf: Pair -> string,
      names: seq<string>, names': seq<string>,
                  flat: seq<int>, flat': seq<int>, rs0: seq<Record>, rs: seq<Record>, pairs: seq<Pair>, g: Segment,
                      r: Record)
    requires InnerDone(segs, pm, regions, nameOf, names, flat, rs0, rs, pairs) && Inner(g, regions) && names <= names'
    requires g.a in pm && g.b in pm && EdgeFor(r, Wire(nameOf(PairOf(g)), g.a, g.b), pm, names')
    requires flat' == Encode(rs0 + rs + [r]) && AllWellFormed(rs0 + rs + [r])
    ensures InnerDone(segs + [g], pm, regions, nameOf, names', flat', rs0, rs + [r],
                      if PairOf(g) in pairs then pairs else pairs + [PairOf(g)])
  {
    InterfacesMore(pairs, segs, regions, g);
    assert (segs + [g])[..|segs|] == segs;
    assert rs0 + rs + [r] == rs0 + (rs + [r]);
    EdgesMore(rs, InnerWires(segs, regions, nameOf), pm, names, names', r, Wire(nameOf(PairOf(g)), g.a, g.b));
  }

  ghost predicate InnerMapped(segs: seq<Segment>, pm: PointMap, regions: map<int, string>) {
    forall j :: 0 <= j < |segs| && Inner(segs[j], regions) ==> segs[j].a in pm && segs[j].b in pm
  }

  /** The loop over the constrained segments. */
  method EmitInterfaces(segs: seq<Segment>, pm: PointMap, regions: map<int, string>, nameOf: Pair -> string,
      tables: PhysicalNames,
                        flat0: seq<int>, ghost rs0: seq<Record>)
    returns (flat: seq<int>, pairs: seq<Pair>, ghost rs: seq<Record>)
    requires tables.Valid() && InnerMapped(segs, pm, regions) && flat0 == Encode(rs0) && AllWellFormed(rs0)
    modifies tables
    ensures tables.Valid() && old(tables.names) <= tables.names
    ensures InnerDone(segs, pm, regions, nameOf, tables.names, flat, rs0, rs, pairs)
  {
    flat, pairs, rs := flat0, [], [];
    assert rs0 + [] == rs0;
    for k := 0 to |segs|
      invariant tables.Valid() && old(tables.names) <= tables.names
      invariant InnerDone(segs[..k], pm, regions, nameOf, tables.names, flat, rs0, rs, pairs)
    {
      var g := segs[k];
      assert segs[..k] + [g] == segs[..k + 1];
      if g.right.None? || g.left !in regions || g.right.value !in regions {
        InnerSkip(segs[..k], pm, regions, nameOf, tables.names, flat, rs0, rs, pairs, g);
        continue;
      }
      var key := PairOf(g);
      ghost var r;
      ghost var before, flatBefore := tables.names, flat;
      flat, r := EmitEdge(Wire(nameOf(key), g.a, g.b), pm, tables, flat, rs0 + rs);
      InnerStep(segs[..k], pm, regions, nameOf, before, tables.names, flatBefore, flat, rs0, rs, pairs, g, r);
      if key !in pairs {
        pairs := pairs + [key];
      }
      rs := rs + [r];
    }
    assert segs[..|segs|] == segs;
  }

  ghost predicate ContactsDone(cs: seq<ContactEdge>, pm: PointMap, regions: map<int, string>, names: seq<string>,
                               flat: seq<int>, rs0: seq<Record>, rs: seq<Record>)
  {
    && flat == Encode(rs0 + rs) && AllWellFormed(rs0 + rs)
    && Wired(ContactWires(cs, regions), pm) && Edges(rs, ContactWires(cs, regions), pm, names)
  }

  lemma ContactSkip(cs: seq<ContactEdge>, pm: PointMap, regions: map<int, string>, names: seq<string>,
                    flat: seq<int>, rs0: seq<Record>, rs: seq<Record>, c: ContactEdge)
    requires ContactsDone(cs, pm, regions, names, flat, rs0, rs) && c.region !in regions
    ensures ContactsDone(cs + [c], pm, regions, names, flat, rs0, rs)
  {
    assert (cs + [c])[..|cs|] == cs;
  }

  lemma ContactStep(cs: seq<ContactEdge>, pm: PointMap, regions: map<int, string>, names: seq<string>,
      names': seq<string>,
                    flat: seq<int>, flat': seq<int>, rs0: seq<Record>, rs: seq<Record>, c: ContactEdge, r: Record)
    requires ContactsDone(cs, pm, regions, names, flat, rs0, rs) && c.region in regions && names <= names'
    requires c.a in pm && c.b in pm && EdgeFor(r, Wire(c.contact, c.a, c.b), pm, names')
    requires flat' == Encode(rs0 + rs + [r]) && AllWellFormed(rs0 + rs + [r])
    ensures ContactsDone(cs + [c], pm, regions, names', flat', rs0, rs + [r])
  {
    assert (cs + [c])[..|cs|] == cs;
    assert rs0 + rs + [r] == rs0 + (rs + [r]);
    EdgesMore(rs, ContactWires(cs, regions), pm, names, names', r, Wire(c.contact, c.a, c.b));
  }

  ghost predicate ContactsMapped(cs: seq<ContactEdge>, pm: PointMap, regions: map<int, string>) {
    forall j :: 0 <= j < |cs| && cs[j].region in regions ==> cs[j].a in pm && cs[j].b in pm
  }

  /** The loop over the edges of the electrodes. */
  method EmitContacts(cs: seq<ContactEdge>, pm: PointMap, regions: map<int, string>, tables: PhysicalNames,
                      flat0: seq<int>, ghost rs0: seq<Record>)
    returns (flat: seq<int>, ghost rs: seq<Record>)
    requires tables.Valid() && ContactsMapped(cs, pm, regions) && flat0 == Encode(rs0) && AllWellFormed(rs0)
    modifies tables
    ensures tables.Valid() && old(tables.names) <= tables.names
    ensures ContactsDone(cs, pm, regions, tables.names, flat, rs0, rs)
  {
    flat, rs := flat0, [];
    assert rs0 + [] == rs0;
    for k := 0 to |cs|
      invariant tables.Valid() && old(tables.names) <= tables.names
      invariant ContactsDone(cs[..k], pm, regions, tables.names, flat, rs0, rs)
    {
      var c := cs[k];
      assert cs[..k] + [c] == cs[..k + 1];
      if c.region !in regions {
        ContactSkip(cs[..k], pm, regions, tables.names, flat, rs0, rs, c);
        continue;
      }
      ghost var r;
      ghost var before, flatBefore := tables.names, flat;
      flat, r := EmitEdge(Wire(c.contact, c.a, c.b), pm, tables, flat, rs0 + rs);
      ContactStep(cs[..k], pm, regions, before, tables.names, flatBefore, flat, rs0, rs, c, r);
      rs := rs + [r];
    }
    assert cs[..|cs|] == cs;
  }

  // ------------------------------------------------------------------ the mesh

  datatype Mesh = Mesh(coordinates: seq<real>, elements: seq<int>, names: seq<string>, interfaces: seq<Pair>,
      pointMap: PointMap)

  /** What a device mesh is made of: triangles for the kept elements, sides where
      two kept regions touch, and sides of the contacts, in this order. */
  ghost predicate Describes(s: Structure, regions: map<int, string>, segs: seq<Segment>, nameOf: Pair -> string,
                            contacts: seq<ContactEdge>, m: Mesh, ts: seq<Record>, js: seq<Record>, cs: seq<Record>)
  {
    var kept := KeptOf(s.elements, regions);
    && Numbers(kept, m.pointMap) && Located(s, m.pointMap) && Placed(s, m.coordinates, m.pointMap, m.pointMap.Keys)
    && Mapped(kept, m.pointMap, regions) && Triangles(ts, kept, m.pointMap, m.coordinates, m.names, regions)
    && Wired(InnerWires(segs, regions, nameOf), m.pointMap)
    && Edges(js, InnerWires(segs, regions, nameOf), m.pointMap, m.names) && Interfaces(m.interfaces, segs, regions)
    && Wired(ContactWires(contacts, regions), m.pointMap)
    && Edges(cs, ContactWires(contacts, regions), m.pointMap, m.names)
    && DecodeFrom(m.elements, 0) == Ok(ts + js + cs)
  }

  /** Corners of elements are coordinates. */
  ghost predicate Grounded(s: Structure) {
    forall e <- s.elements, v <- e.vertices :: 0 <= v < |s.coordinates|
  }

  /** The ends of a contact edge are corners of elements of its region. */
  ghost predicate Touching(s: Structure, contacts: seq<ContactEdge>) {
    forall c <- contacts :: Corner(s, c.region, c.a) && Corner(s, c.region, c.b)
  }

  ghost predicate Corner(s: Structure, region: int, v: int) {
    exists e <- s.elements :: e.regionId == region && v in e.vertices
  }

  lemma CornerMapped(s: Structure, regions: map<int, string>, pm: PointMap, region: int, v: int)
    requires Numbers(KeptOf(s.elements, regions), pm) && Corner(s, region, v) && region in regions
    ensures v in pm
  {
    var e :| e in s.elements && e.regionId == region && v in e.vertices;
    KeptMembers(s.elements, regions, e);
    assert IsCorner(KeptOf(s.elements, regions), v);
  }

  lemma KeptElement(s: Structure, regions: map<int, string>, pm: PointMap, e: Element)
    requires AllTriangular(s) && Numbers(KeptOf(s.elements, regions), pm) && e in KeptOf(s.elements, regions)
    ensures MappedElement(e, pm, regions)
  {
    var kept := KeptOf(s.elements, regions);
    KeptMembers(s.elements, regions, e);
    assert Triangular(e);
    CornerOfKept(kept, pm, e, 0);
    CornerOfKept(kept, pm, e, 1);
    CornerOfKept(kept, pm, e, 2);
  }

  lemma KeptPoint(s: Structure, regions: map<int, string>, pm: PointMap, v: int)
    requires Grounded(s) && Numbers(KeptOf(s.elements, regions), pm) && v in pm
    ensures 0 <= v < |s.coordinates|
  {
    assert IsCorner(KeptOf(s.elements, regions), v);
    var e :| e in KeptOf(s.elements, regions) && v in e.vertices;
    KeptMembers(s.elements, regions, e);
  }

  lemma KeptMapped(s: Structure, regions: map<int, string>, pm: PointMap, kept: seq<Element>)
    requires AllTriangular(s) && kept == KeptOf(s.elements, regions) && Numbers(kept, pm)
    ensures Mapped(kept, pm, regions)
  {
    forall i | 0 <= i < |kept| ensures MappedElement(kept[i], pm, regions) {
      assert kept[i] in kept;
      KeptElement(s, regions, pm, kept[i]);
    }
  }

  lemma KeptLocated(s: Structure, regions: map<int, string>, pm: PointMap, kept: seq<Element>)
    requires Grounded(s) && kept == KeptOf(s.elements, regions) && Numbers(kept, pm)
    ensures Located(s, pm)
  {
    forall v | v in pm ensures 0 <= v < |s.coordinates| {
      KeptPoint(s, regions, pm, v);
    }
  }

  lemma CornerOfKept(es: seq<Element>, pm: PointMap, e: Element, i: nat)
    requires Numbers(es, pm) && e in es && i < |e.vertices|
    ensures e.vertices[i] in pm
  {
    assert e.vertices[i] in e.vertices;
    assert IsCorner(es, e.vertices[i]);
  }

  lemma SegmentCorners(s: Structure, h: Half)
    requires IsHalf(s, h) && Constrained(s, h)
    ensures var g := SegmentOf(s, h); Corner(s, g.left, g.a) && Corner(s, g.left, g.b)
  {
    var e := s.elements[h.t];
    assert e in s.elements && Tail(s, h) in e.vertices && Head(s, h) in e.vertices;
  }

  lemma SegmentsMapped(s: Structure, regions: map<int, string>, pm: PointMap, segs: seq<Segment>)
    requires Numbers(KeptOf(s.elements, regions), pm)
    requires forall j :: 0 <= j < |segs| ==> Corner(s, segs[j].left, segs[j].a) && Corner(s, segs[j].left, segs[j].b)
    ensures InnerMapped(segs, pm, regions)
  {
    forall j | 0 <= j < |segs| && Inner(segs[j], regions) ensures segs[j].a in pm && segs[j].b in pm {
      CornerMapped(s, regions, pm, segs[j].left, segs[j].a);
      CornerMapped(s, regions, pm, segs[j].left, segs[j].b);
    }
  }

  lemma ContactCorners(s: Structure, regions: map<int, string>, pm: PointMap, cs: seq<ContactEdge>)
    requires Numbers(KeptOf(s.elements, regions), pm) && Touching(s, cs)
    ensures ContactsMapped(cs, pm, regions)
  {
    forall j | 0 <= j < |cs| && cs[j].region in regions ensures cs[j].a in pm && cs[j].b in pm {
      assert cs[j] in cs;
      CornerMapped(s, regions, pm, cs[j].region, cs[j].a);
      CornerMapped(s, regions, pm, cs[j].region, cs[j].b);
    }
  }

  lemma CollectedCorners(s: Structure, segs: seq<Segment>, from: seq<Half>)
    requires Collected(s, segs, from, |s.elements|, 0)
    ensures forall j :: 0 <= j < |segs| ==> Corner(s, segs[j].left, segs[j].a) && Corner(s, segs[j].left, segs[j].b)
  {
    forall j | 0 <= j < |segs| ensures Corner(s, segs[j].left, segs[j].a) && Corner(s, segs[j].left, segs[j].b) {
      SegmentCorners(s, from[j]);
    }
  }

  /** The three loops that fill `elements`. */
  method EmitAll(kept: seq<Element>, pm: PointMap, coords: seq<real>, regions: map<int, string>, segs: seq<Segment>,
                 contacts: seq<ContactEdge>, nameOf: Pair -> string)
    returns (
      flat: seq<int>, names: seq<string>, pairs: seq<Pair>, ghost ts: seq<Record>, ghost js: seq<Record>,
      ghost cs: seq<Record>)
    requires Mapped(kept, pm, regions) && Numbered(pm) && |coords| == 3 * |pm|
    requires InnerMapped(segs, pm, regions) && ContactsMapped(contacts, pm, regions)
    ensures Triangles(ts, kept, pm, coords, names, regions)
    ensures Wired(InnerWires(segs, regions, nameOf), pm) && Edges(js, InnerWires(segs, regions, nameOf), pm, names)
    ensures Wired(ContactWires(contacts, regions), pm) && Edges(cs, ContactWires(contacts, regions), pm, names)
    ensures Interfaces(pairs, segs, regions)
    ensures DecodeFrom(flat, 0) == Ok(ts + js + cs)
  {
    var tables := new PhysicalNames();
    NodesInRange(kept, pm, coords, regions);
    flat, ts := EmitTriangles(kept, pm, coords, regions, tables);
    ghost var afterTriangles := tables.names;
    flat, pairs, js := EmitInterfaces(segs, pm, regions, nameOf, tables, flat, ts);
    ghost var afterInterfaces := tables.names;
    flat, cs := EmitContacts(contacts, pm, regions, tables, flat, ts + js);
    names := tables.names;
    TrianglesGrow(ts, kept, pm, coords, afterTriangles, names, regions);
    EdgesGrow(js, InnerWires(segs, regions, nameOf), pm, afterInterfaces, names);
    RoundTrip(ts + js + cs);
  }

  lemma EdgesGrow(rs: seq<Record>, ws: seq<Wire>, pm: PointMap, names: seq<string>, names': seq<string>)
    requires Wired(ws, pm) && Edges(rs, ws, pm, names) && names <= names'
    ensures Edges(rs, ws, pm, names')
  {
  }

  /** build_device_mesh(), for the regions kept and the names they go under. */
  method Build(s: Structure, regions: map<int, string>, contacts: seq<ContactEdge>, nameOf: Pair -> string)
    returns (
      r: Result<Mesh>, ghost segs: seq<Segment>, ghost from: seq<Half>, ghost ts: seq<Record>, ghost js: seq<Record>,
      ghost cs: seq<Record>)
    requires AllTriangular(s) && Grounded(s) && Touching(s, contacts)
    ensures r.Error? <==> !Is2D(s) || regions == map[]
    ensures r.Ok? ==> Collected(s, segs, from, |s.elements|, 0)
    ensures r.Ok? ==> Describes(s, regions, segs, nameOf, contacts, r.value, ts, js, cs)
  {
    segs, from, ts, js, cs := [], [], [], [], [];
    if regions == map[] { return Error, segs, from, ts, js, cs; }
    var found;
    found, from := ConstrainedSegments(s);
    if found.Error? { return Error, segs, from, ts, js, cs; }
    segs := found.value;
    var kept := KeptOf(s.elements, regions);
    var pm := NumberPoints(kept);
    NumbersCorners(kept, pm);
    KeptMapped(s, regions, pm, kept);
    KeptLocated(s, regions, pm, kept);
    var coords := PlacePoints(s, pm);
    CollectedCorners(s, segs, from);
    SegmentsMapped(s, regions, pm, segs);
    ContactCorners(s, regions, pm, contacts);
    var flat, names, pairs;
    flat, names, pairs, ts, js, cs := EmitAll(kept, pm, coords, regions, found.value, contacts, nameOf);
    r := Ok(Mesh(coords, flat, names, pairs, pm));
  }

  lemma TriangleInRange(
    r: Record, e: Element, pm: PointMap, coords: seq<real>, names: seq<string>, regions: map<int, string>, n: int)
    requires MappedElement(e, pm, regions) && TriangleFor(r, e, pm, coords, names, regions) && Numbered(pm)
    requires n in r.nodes
    ensures 0 <= r.physical < |names| && 0 <= n < |pm|
  {
    InNumber(pm, e.vertices[0]);
    InNumber(pm, e.vertices[1]);
    InNumber(pm, e.vertices[2]);
  }

  lemma EdgeInRange(rs: seq<Record>, ws: seq<Wire>, pm: PointMap, names: seq<string>, r: Record, n: int)
    requires Wired(ws, pm) && Edges(rs, ws, pm, names) && Numbered(pm) && r in rs && n in r.nodes
    ensures 0 <= r.physical < |names| && 0 <= n < |pm|
  {
    var i :| 0 <= i < |rs| && rs[i] == r;
    assert EdgeFor(rs[i], ws[i], pm, names);
    assert ws[i] in ws;
    InNumber(pm, ws[i].a);
    InNumber(pm, ws[i].b);
  }

  lemma ReadTriangle(s: Structure, regions: map<int, string>, m: Mesh, ts: seq<Record>, r: Record, n: int)
    requires var kept := KeptOf(s.elements, regions);
      && Numbered(m.pointMap) && Mapped(kept, m.pointMap, regions)
      && Triangles(ts, kept, m.pointMap, m.coordinates, m.names, regions)
    requires r in ts && n in r.nodes
    ensures 0 <= r.physical < |m.names| && 0 <= n < |m.pointMap|
  {
    var kept := KeptOf(s.elements, regions);
    var i :| 0 <= i < |ts| && ts[i] == r;
    assert kept[i] in kept;
    TriangleInRange(r, kept[i], m.pointMap, m.coordinates, m.names, regions, n);
  }

  /** The record is a triangle, an edge between regions or an edge of a contact. */
  lemma ReadIsOne(ts: seq<Record>, js: seq<Record>, cs: seq<Record>, r: Record)
    requires r in ts + js + cs
    ensures r in ts || r in js || r in cs
  {
  }

  /** Every node and every physical index that is read back is in range. */
  lemma ReadBackInRange(
    s: Structure, regions: map<int, string>, segs: seq<Segment>, nameOf: Pair -> string,
    contacts: seq<ContactEdge>, m: Mesh, ts: seq<Record>, js: seq<Record>, cs: seq<Record>, r: Record, n: int)
    requires Describes(s, regions, segs, nameOf, contacts, m, ts, js, cs)
    requires r in DecodeFrom(m.elements, 0).value && n in r.nodes
    ensures 0 <= r.physical < |m.names| && 0 <= n < |m.pointMap|
  {
    ReadIsOne(ts, js, cs, r);
    if r in ts {
      ReadTriangle(s, regions, m, ts, r, n);
    } else if r in js {
      EdgeInRange(js, InnerWires(segs, regions, nameOf), m.pointMap, m.names, r, n);
    } else {
      EdgeInRange(cs, ContactWires(contacts, regions), m.pointMap, m.names, r, n);
    }
  }
}
