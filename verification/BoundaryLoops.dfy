/** remesh/geometry.py: every region boundary of a triangle mesh closes. */
module BoundaryLoops {
  import opened Options
  import opened FiniteSets
  import opened StrModel
  import opened BoundarySegments
  import opened RegionLoops

  // ------------------------------------------------------ the boundary graph

  function AddSide(g: Graph, a: int, b: int): Graph {
    var g1 := g[a := Entries(g, a) + [b]];
    g1[b := Entries(g1, b) + [a]]
  }

  /** The boundary graph of a region, one segment after another. */
  function BoundaryGraph(segs: seq<Segment>, region: int): Graph {
    if segs == [] then map[]
    else
      var g := BoundaryGraph(segs[..|segs|-1], region);
      var s := segs[|segs|-1];
      var g1 := if s.left == region then AddSide(g, s.a, s.b) else g;
      if s.right == Some(region) then AddSide(g1, s.a, s.b) else g1
  }

  lemma AddSideOneMore(g: Graph, a: int, b: int)
    ensures var g1 := g[a := Entries(g, a) + [b]]; OneMore(g1, g, a, b) && OneMore(AddSide(g, a, b), g1, b, a)
    ensures NoEmpty(g) ==> NoEmpty(AddSide(g, a, b))
  {
    var g1 := g[a := Entries(g, a) + [b]];
    Listed(g, g1, a, b);
    Listed(g1, AddSide(g, a, b), b, a);
  }

  lemma Listed(g: Graph, g1: Graph, a: int, b: int)
    requires g1 == g[a := Entries(g, a) + [b]]
    ensures OneMore(g1, g, a, b)
  {
    var s := Entries(g, a);
    PutEntries(g1, a, s);
    PutOneMore(g1, a, b, s);
    SameEntries(g, Put(g1, a, s), g1, a, b);
  }

  lemma SameEntries(g: Graph, h: Graph, g1: Graph, a: int, b: int)
    requires (forall q :: Entries(g, q) == Entries(h, q)) && OneMore(g1, h, a, b)
    ensures OneMore(g1, g, a, b)
  {
    forall x, y ensures Count(g1, x, y) == Count(g, x, y) + Along(a, b, x, y) {
      assert Count(h, x, y) == Count(g, x, y);
    }
    forall p ensures Degree(g1, p) == Degree(g, p) + (if p == a then 1 else 0) {
      assert Degree(h, p) == Degree(g, p);
    }
  }

  lemma AddSideAt(g: Graph, a: int, b: int, x: int, y: int)
    requires Undirected(g)
    ensures var g2 := AddSide(g, a, b);
            && Count(g2, x, y) == Count(g2, y, x) && Count(g2, x, x) % 2 == 0
            && Degree(g2, x) == Degree(g, x) + Ends(x, a, b)
  {
    var g1, g2 := g[a := Entries(g, a) + [b]], AddSide(g, a, b);
    AddSideOneMore(g, a, b);
    TwoStepsAt(g2, g1, g, b, a, x, y);
    TwoStepsAt(g2, g1, g, b, a, y, x);
    TwoStepsAt(g2, g1, g, b, a, x, x);
    assert Count(g, x, y) == Count(g, y, x) && Count(g, x, x) % 2 == 0;
    assert Along(a, b, x, y) == Along(b, a, y, x) && Along(b, a, x, y) == Along(a, b, y, x);
    SameParity(Count(g2, x, x), Count(g, x, x), Along(a, b, x, x));
  }

  lemma AddSideKeeps(g: Graph, a: int, b: int)
    requires Undirected(g)
    ensures Undirected(AddSide(g, a, b))
    ensures forall p :: Degree(AddSide(g, a, b), p) == Degree(g, p) + Ends(p, a, b)
  {
    AddSideOneMore(g, a, b);
    forall x, y
      ensures Count(AddSide(g, a, b), x, y) == Count(AddSide(g, a, b), y, x)
    {
      AddSideAt(g, a, b, x, y);
    }
    forall x
      ensures Count(AddSide(g, a, b), x, x) % 2 == 0 && Degree(AddSide(g, a, b), x) == Degree(g, x) + Ends(x, a, b)
    {
      AddSideAt(g, a, b, x, x);
    }
  }

  lemma {:induction false} BoundaryGraphUndirected(segs: seq<Segment>, region: int)
    ensures Undirected(BoundaryGraph(segs, region))
  {
    if segs != [] {
      var rest, s := segs[..|segs|-1], segs[|segs|-1];
      BoundaryGraphUndirected(rest, region);
      var g := BoundaryGraph(rest, region);
      AddSideKeeps(g, s.a, s.b);
      AddSideKeeps(AddSide(g, s.a, s.b), s.a, s.b);
    }
  }

  lemma AddSideEntries(g: Graph, a: int, b: int, p: int, q: int)
    ensures q in Entries(AddSide(g, a, b), p) <==> q in Entries(g, p) || (a == p && b == q) || (a == q && b == p)
  {
    assert q in Entries(g, a) + [b] <==> q in Entries(g, a) || q == b;
  }

  /** The segment joins p and q and has the region on one of its sides. */
  predicate Borders(t: Segment, region: int, p: int, q: int) {
    ((t.a == p && t.b == q) || (t.a == q && t.b == p)) && (t.left == region || t.right == Some(region))
  }

  lemma OneMoreBorder(g: Graph, t: Segment, region: int, p: int, q: int)
    ensures var g1 := if t.left == region then AddSide(g, t.a, t.b) else g;
      var g2 := if t.right == Some(region) then AddSide(g1, t.a, t.b) else g1;
      q in Entries(g2, p) <==> q in Entries(g, p) || Borders(t, region, p, q)
  {
    AddSideEntries(g, t.a, t.b, p, q);
    AddSideEntries(AddSide(g, t.a, t.b), t.a, t.b, p, q);
  }

  /** In the graph of a region two points are joined exactly by its own sides. */
  lemma {:induction false} BoundaryGraphHas(segs: seq<Segment>, region: int, p: int, q: int)
    ensures q in Entries(BoundaryGraph(segs, region), p) <==> exists t <- segs :: Borders(t, region, p, q)
  {
    if segs != [] {
      var rest, last := segs[..|segs|-1], segs[|segs|-1];
      BoundaryGraphHas(rest, region, p, q);
      OneMoreBorder(BoundaryGraph(rest, region), last, region, p, q);
      BordersMore(rest, last, region, p, q);
      assert segs == rest + [last];
    }
  }

  lemma BordersMore(segs: seq<Segment>, last: Segment, region: int, p: int, q: int)
    ensures (exists t <- segs + [last] :: Borders(t, region, p, q))
        <==> (exists t <- segs :: Borders(t, region, p, q)) || Borders(last, region, p, q)
  {
    assert last in segs + [last] && forall t :: t in segs + [last] <==> t in segs || t == last;
  }

  /** How often p is an end of a boundary segment of the region. */
  function EndCount(s: Segment, region: int, p: int): nat {
    (if s.left == region then Ends(p, s.a, s.b) else 0) + (if s.right == Some(region) then Ends(p, s.a, s.b) else 0)
  }

  lemma {:induction false} BoundaryDegree(segs: seq<Segment>, region: int, p: int)
    requires |segs| > 0
    ensures Degree(BoundaryGraph(segs, region), p)
         == Degree(BoundaryGraph(segs[..|segs|-1], region), p) + EndCount(segs[|segs|-1], region, p)
  {
    var rest, s := segs[..|segs|-1], segs[|segs|-1];
    var g := BoundaryGraph(rest, region);
    BoundaryGraphUndirected(rest, region);
    AddSideKeeps(g, s.a, s.b);
    AddSideKeeps(AddSide(g, s.a, s.b), s.a, s.b);
  }

  // ------------------------------------------------------------- region_loops

  predicate Touches(s: Segment, region: int) {
    s.left == region || s.right == Some(region)
  }

  function At(incident: map<int, Graph>, region: int): Graph {
    if region in incident then incident[region] else map[]
  }

  ghost predicate Bounded(segs: seq<Segment>, region: int) {
    exists j :: 0 <= j < |segs| && Touches(segs[j], region)
  }

  lemma BoundedSnoc(segs: seq<Segment>, k: nat, region: int)
    requires k < |segs|
    ensures Bounded(segs[..k+1], region) <==> Bounded(segs[..k], region) || Touches(segs[k], region)
    ensures BoundaryGraph(segs[..k+1], region)
         == (var g := BoundaryGraph(segs[..k], region);
             var g1 := if segs[k].left == region then AddSide(g, segs[k].a, segs[k].b) else g;
             if segs[k].right == Some(region) then AddSide(g1, segs[k].a, segs[k].b) else g1)
  {
    var l, r := segs[..k], segs[..k+1];
    assert r[..|r|-1] == l && r[|r|-1] == segs[k];
    if Bounded(l, region) {
      var j :| 0 <= j < |l| && Touches(l[j], region);
      assert Touches(r[j], region);
    }
    if Touches(segs[k], region) { assert Touches(r[k], region); }
    if Bounded(r, region) {
      var j :| 0 <= j < |r| && Touches(r[j], region);
      assert j < k ==> Touches(l[j], region);
    }
  }

  /** The first loop of region_loops: all boundary graphs at once. */
  method Incident(segs: seq<Segment>) returns (incident: map<int, Graph>)
    ensures forall region :: At(incident, region) == BoundaryGraph(segs, region)
    ensures forall region :: region in incident <==> Bounded(segs, region)
  {
    incident := map[];
    for k := 0 to |segs|
      invariant forall region :: At(incident, region) == BoundaryGraph(segs[..k], region)
      invariant forall region :: region in incident <==> Bounded(segs[..k], region)
    {
      var s := segs[k];
      ghost var was := incident;
      incident := incident[s.left := AddSide(At(incident, s.left), s.a, s.b)];
      if s.right.Some? {
        incident := incident[s.right.value := AddSide(At(incident, s.right.value), s.a, s.b)];
      }
      forall region
        ensures At(incident, region) == BoundaryGraph(segs[..k+1], region)
        ensures region in incident <==> Bounded(segs[..k+1], region)
      {
        BoundedSnoc(segs, k, region);
        assert At(was, region) == BoundaryGraph(segs[..k], region);
      }
    }
    assert segs[..|segs|] == segs;
  }

  /** The last line of region_loops: every boundary graph is walked. */
  method WalkAll(incident: map<int, Graph>) returns (r: Result<map<int, seq<seq<int>>>>)
    requires forall region <- incident :: Undirected(incident[region])
    ensures r.Ok? <==> forall region <- incident :: AllEven(incident[region])
    ensures r.Ok? ==> r.value.Keys == incident.Keys
    ensures r.Ok? ==> forall region <- incident :: Covers(r.value[region], incident[region])
  {
    var todo := incident.Keys;
    var out: map<int, seq<seq<int>>> := map[];
    while todo != {}
      invariant todo <= incident.Keys && out.Keys == incident.Keys - todo
      invariant forall region <- out :: Covers(out[region], incident[region]) && AllEven(incident[region])
    {
      HasMember(todo);
      var region :| region in todo;
      var l := Loops(incident[region]);
      if l.Error? { return Error; }
      out := out[region := l.value];
      todo := todo - {region};
    }
    return Ok(out);
  }

  /** Loops around every region with a boundary, and around no other, that use
      each side of it once. */
  ghost predicate AreLoopsOf(s: Structure, loops: map<int, seq<seq<int>>>) {
    exists segs, from :: Collected(s, segs, from, |s.elements|, 0) && AreLoopsIn(segs, loops)
  }

  ghost predicate AreLoopsIn(segs: seq<Segment>, loops: map<int, seq<seq<int>>>) {
    && (forall region :: region in loops <==> Bounded(segs, region))
    && forall region <- loops :: Covers(loops[region], BoundaryGraph(segs, region))
  }

  /** region_loops() */
  method RegionLoopsOf(s: Structure)
    returns (r: Result<map<int, seq<seq<int>>>>, ghost segs: seq<Segment>, ghost from: seq<Half>)
    requires AllTriangular(s)
    ensures Is2D(s) ==> Collected(s, segs, from, |s.elements|, 0)
    ensures r.Ok? <==> Is2D(s) && forall region :: EvenAt(segs, region)
    ensures r.Ok? ==> AreLoopsIn(segs, r.value) && AreLoopsOf(s, r.value)
  {
    var c;
    c, from := ConstrainedSegments(s);
    segs := [];
    if c.Error? { return Error, segs, from; }
    segs := c.value;
    var incident := Incident(c.value);
    GraphsUndirected(segs, incident);
    r := WalkAll(incident);
    EvenEverywhere(segs, incident);
    if r.Ok? {
      LoopsOfGraphs(segs, incident, r.value);
    }
  }

  lemma GraphsUndirected(segs: seq<Segment>, incident: map<int, Graph>)
    requires forall region :: At(incident, region) == BoundaryGraph(segs, region)
    ensures forall region <- incident :: Undirected(incident[region])
  {
    forall region <- incident ensures Undirected(incident[region]) {
      BoundaryGraphUndirected(segs, region);
      assert At(incident, region) == BoundaryGraph(segs, region);
    }
  }

  lemma LoopsOfGraphs(segs: seq<Segment>, incident: map<int, Graph>, loops: map<int, seq<seq<int>>>)
    requires forall region :: At(incident, region) == BoundaryGraph(segs, region)
    requires forall region :: region in incident <==> Bounded(segs, region)
    requires loops.Keys == incident.Keys && forall region <- incident :: Covers(loops[region], incident[region])
    ensures AreLoopsIn(segs, loops)
  {
    forall region <- loops ensures Covers(loops[region], BoundaryGraph(segs, region)) {
      assert At(incident, region) == BoundaryGraph(segs, region);
    }
  }

  ghost predicate EvenAt(segs: seq<Segment>, region: int) {
    AllEven(BoundaryGraph(segs, region))
  }

  lemma EvenEverywhere(segs: seq<Segment>, incident: map<int, Graph>)
    requires forall region :: At(incident, region) == BoundaryGraph(segs, region)
    ensures (forall region <- incident :: AllEven(incident[region])) <==> forall region :: EvenAt(segs, region)
  {
    forall region
      ensures region in incident ==> (AllEven(incident[region]) <==> EvenAt(segs, region))
      ensures region !in incident ==> EvenAt(segs, region)
    {
      assert At(incident, region) == BoundaryGraph(segs, region);
    }
  }
}
