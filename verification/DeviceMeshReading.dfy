/** devsim/mesh.py: what a device mesh says of the structure it was built from. */
module DeviceMeshReading {
  import opened Options
  import opened StrModel
  import opened BoundarySegments
  import opened DeviceMesh

  /** Micrometres become centimetres, and y is turned: down is up. */
  lemma PointSays(s: Structure, coords: seq<real>, pm: PointMap, v: int)
    requires Located(s, pm) && Placed(s, coords, pm, pm.Keys) && v in pm
    ensures 0 <= v < |s.coordinates| && 3 * pm[v] + 2 < |coords|
    ensures coords[3 * pm[v]] == s.coordinates[v].x * 0.0001
    ensures coords[3 * pm[v] + 1] == -s.coordinates[v].y * 0.0001 && coords[3 * pm[v] + 2] == 0.0
  {
    assert PlacedAt(s, coords, v, pm[v]);
  }

  /** A triangle record has kind 2, the three corners of its element, in an order
      that turns left, and the name of its region. */
  lemma TriangleSays(
    r: Record, e: Element, pm: PointMap, coords: seq<real>, names: seq<string>, regions: map<int, string>)
    requires MappedElement(e, pm, regions) && TriangleFor(r, e, pm, coords, names, regions)
    ensures r.kind == 2 && |r.nodes| == 3
    ensures multiset(r.nodes) == multiset{pm[e.vertices[0]] as int, pm[e.vertices[1]] as int, pm[e.vertices[2]] as int}
    ensures 0 <= r.physical < |names| && names[r.physical] == regions[e.regionId]
    ensures var a, b, c := r.nodes[0], r.nodes[1], r.nodes[2];
      && 0 <= 3 * a < |coords| - 1 && 0 <= 3 * b < |coords| - 1 && 0 <= 3 * c < |coords| - 1
      &&
      (coords[3 * b] - coords[3 * a]) * (coords[3 * c + 1] - coords[3 * a + 1])
      - (coords[3 * c] - coords[3 * a]) * (coords[3 * b + 1] - coords[3 * a + 1]) >= 0.0
  {
    assert r.nodes == [r.nodes[0], r.nodes[1], r.nodes[2]];
    var a, b, c := r.nodes[0], r.nodes[1], r.nodes[2];
    DoubledArea(coords[3 * a], coords[3 * a + 1], coords[3 * b], coords[3 * b + 1], coords[3 * c], coords[3 * c + 1]);
  }

  lemma DoubledArea(ax: real, ay: real, bx: real, by_: real, cx: real, cy: real)
    requires 0.5 * ((bx - ax) * (cy - ay) - (cx - ax) * (by_ - ay)) >= 0.0
    ensures (bx - ax) * (cy - ay) - (cx - ax) * (by_ - ay) >= 0.0
  {
  }

  /** w is the side of segment g between two kept regions, under the name of the
      pair, smaller number first. */
  predicate SideFor(w: Wire, g: Segment, regions: map<int, string>, nameOf: Pair -> string) {
    && g.right.Some? && g.left in regions && g.right.value in regions && w.a == g.a && w.b == g.b
    && w.name == nameOf(if g.left <= g.right.value then (g.left, g.right.value) else (g.right.value, g.left))
  }

  lemma {:induction false} InnerWiresAre(segs: seq<Segment>, regions: map<int, string>, nameOf: Pair -> string, w: Wire)
    ensures w in InnerWires(segs, regions, nameOf) <==> exists g <- segs :: SideFor(w, g, regions, nameOf)
  {
    if segs != [] {
      var rest, last := segs[..|segs|-1], segs[|segs|-1];
      InnerWiresAre(rest, regions, nameOf, w);
      assert segs == rest + [last];
      assert last in segs && forall g :: g in segs <==> g in rest || g == last;
    }
  }

  lemma {:induction false} ContactWiresAre(cs: seq<ContactEdge>, regions: map<int, string>, w: Wire)
    ensures w in ContactWires(cs, regions) <==>
      exists c <- cs :: c.region in regions && w == Wire(c.contact, c.a, c.b)
  {
    if cs != [] {
      var rest, last := cs[..|cs|-1], cs[|cs|-1];
      ContactWiresAre(rest, regions, w);
      assert cs == rest + [last];
      assert last in cs && forall c :: c in cs <==> c in rest || c == last;
    }
  }

  /** The record is an edge of kind 1 from a to b under this name. */
  predicate EdgeSays(r: Record, m: Mesh, name: string, a: int, b: int) {
    && a in m.pointMap && b in m.pointMap && r.kind == 1 && r.nodes == [m.pointMap[a] as int, m.pointMap[b] as int]
    && 0 <= r.physical < |m.names| && m.names[r.physical] == name
  }

  lemma WireHasEdge(rs: seq<Record>, ws: seq<Wire>, m: Mesh, w: Wire) returns (r: Record)
    requires Wired(ws, m.pointMap) && Edges(rs, ws, m.pointMap, m.names) && w in ws
    ensures r in rs && EdgeSays(r, m, w.name, w.a, w.b)
  {
    var i :| 0 <= i < |ws| && ws[i] == w;
    assert EdgeFor(rs[i], ws[i], m.pointMap, m.names);
    r := rs[i];
  }

  lemma EdgeHasWire(rs: seq<Record>, ws: seq<Wire>, m: Mesh, r: Record) returns (w: Wire)
    requires Wired(ws, m.pointMap) && Edges(rs, ws, m.pointMap, m.names) && r in rs
    ensures w in ws && EdgeSays(r, m, w.name, w.a, w.b)
  {
    var i :| 0 <= i < |rs| && rs[i] == r;
    assert EdgeFor(rs[i], ws[i], m.pointMap, m.names);
    w := ws[i];
    assert w in ws;
  }

  /** Read back, the flat array holds an edge for every segment between two kept
      regions, with its ends in order and the name of the pair. */
  lemma InterfacesAreThere(
    s: Structure, regions: map<int, string>, segs: seq<Segment>, nameOf: Pair -> string, contacts: seq<ContactEdge>,
    m: Mesh, ts: seq<Record>, js: seq<Record>, cs: seq<Record>, g: Segment)
    returns (r: Record)
    requires Describes(s, regions, segs, nameOf, contacts, m, ts, js, cs)
    requires g in segs && g.right.Some? && g.left in regions && g.right.value in regions
    ensures DecodeFrom(m.elements, 0) == Ok(ts + js + cs) && r in js
    ensures g.left <= g.right.value ==> EdgeSays(r, m, nameOf((g.left, g.right.value)), g.a, g.b)
    ensures g.left >= g.right.value ==> EdgeSays(r, m, nameOf((g.right.value, g.left)), g.a, g.b)
  {
    var pair := if g.left <= g.right.value then (g.left, g.right.value) else (g.right.value, g.left);
    var w := Wire(nameOf(pair), g.a, g.b);
    assert SideFor(w, g, regions, nameOf);
    InnerWiresAre(segs, regions, nameOf, w);
    r := WireHasEdge(js, InnerWires(segs, regions, nameOf), m, w);
  }

  /** And every edge in that part of the array is one of these. */
  lemma OnlyInterfacesAreThere(
    s: Structure, regions: map<int, string>, segs: seq<Segment>, nameOf: Pair -> string, contacts: seq<ContactEdge>,
    m: Mesh, ts: seq<Record>, js: seq<Record>, cs: seq<Record>, r: Record)
    returns (g: Segment)
    requires Describes(s, regions, segs, nameOf, contacts, m, ts, js, cs) && r in js
    ensures g in segs && g.right.Some? && g.left in regions && g.right.value in regions
    ensures exists name :: EdgeSays(r, m, name, g.a, g.b)
  {
    var w := EdgeHasWire(js, InnerWires(segs, regions, nameOf), m, r);
    InnerWiresAre(segs, regions, nameOf, w);
    g :| g in segs && SideFor(w, g, regions, nameOf);
  }

  predicate Separates(g: Segment, x: int, y: int) {
    (g.left == x && g.right == Some(y)) || (g.left == y && g.right == Some(x))
  }

  /** Every pair of kept regions that touch is listed once, smaller number first. */
  lemma PairsOnce(
    s: Structure, regions: map<int, string>, segs: seq<Segment>, nameOf: Pair -> string, contacts: seq<ContactEdge>,
    m: Mesh, ts: seq<Record>, js: seq<Record>, cs: seq<Record>, x: int, y: int)
    requires Describes(s, regions, segs, nameOf, contacts, m, ts, js, cs)
    ensures forall i, j :: 0 <= i < j < |m.interfaces| ==> m.interfaces[i] != m.interfaces[j]
    ensures (x, y) in m.interfaces <==>
      x <= y && x in regions && y in regions && exists g <- segs :: Separates(g, x, y)
  {
    if (x, y) in m.interfaces {
      var g :| g in segs && Inner(g, regions) && PairOf(g) == (x, y);
    }
    if x <= y && x in regions && y in regions {
      if g :| g in segs && Separates(g, x, y) {
        assert Inner(g, regions) && PairOf(g) == (x, y);
      }
    }
  }

  /** The same of the edges of the contacts. */
  lemma ContactsAreThere(
    s: Structure, regions: map<int, string>, segs: seq<Segment>, nameOf: Pair -> string, contacts: seq<ContactEdge>,
    m: Mesh, ts: seq<Record>, js: seq<Record>, cs: seq<Record>, c: ContactEdge)
    returns (r: Record)
    requires Describes(s, regions, segs, nameOf, contacts, m, ts, js, cs) && c in contacts && c.region in regions
    ensures DecodeFrom(m.elements, 0) == Ok(ts + js + cs) && r in cs && EdgeSays(r, m, c.contact, c.a, c.b)
  {
    var w := Wire(c.contact, c.a, c.b);
    ContactWiresAre(contacts, regions, w);
    r := WireHasEdge(cs, ContactWires(contacts, regions), m, w);
  }
}
