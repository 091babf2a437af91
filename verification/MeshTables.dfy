/** The cross-linked tables of the process-simulator mesh (geom.h), what it means
    for them to agree, and the edge flip as a function on them. */
module MeshTables {
  import opened Plane
  import opened PlaneGeometry

  /** Slot j of `nb` and `edg` lies opposite corner j; a negative `nb` is a
      boundary code. */
  datatype Tri = Tri(nd: seq<int>, nb: seq<int>, edg: seq<int>, reg: int)
  datatype Edge = Edge(nd: seq<int>, ele: seq<int>)
  datatype Node = Node(pt: int, tri: seq<int>, edg: seq<int>)
  datatype Mesh = Mesh(tri: seq<Tri>, edg: seq<Edge>, nd: seq<Node>, pt: seq<Point>)

  // ------------------------------------------------------------------ lists

  predicate NoDup(s: seq<int>) {
    forall i, j :: 0 <= i < j < |s| ==> s[i] != s[j]
  }

  /** sub_list() */
  function RemoveFirst(s: seq<int>, x: int): seq<int> {
    if s == [] then [] else if s[0] == x then s[1..] else [s[0]] + RemoveFirst(s[1..], x)
  }

  lemma {:induction false} RemoveFirstKeeps(s: seq<int>, x: int)
    requires NoDup(s)
    ensures NoDup(RemoveFirst(s, x))
    ensures forall y :: y in RemoveFirst(s, x) <==> y in s && y != x
  {
    if s != [] {
      var rest := RemoveFirst(s[1..], x);
      RemoveFirstKeeps(s[1..], x);
      assert s == [s[0]] + s[1..];
      if s[0] != x {
        forall i, j | 0 <= i < j < |rest| + 1 ensures ([s[0]] + rest)[i] != ([s[0]] + rest)[j] {
          assert rest[j-1] in rest;
          if i > 0 { assert rest[i-1] != rest[j-1]; }
        }
      }
    }
  }

  lemma AppendKeeps(s: seq<int>, x: int)
    requires NoDup(s) && x !in s
    ensures NoDup(s + [x])
    ensures forall y :: y in s + [x] <==> y in s || y == x
  {
  }

  /** twhich(), nwhich(), ewhich(): the first slot holding x, 3 if there is none. */
  function Slot(s: seq<int>, x: int): (j: nat)
    requires |s| == 3
    ensures j <= 3 && (j < 3 ==> s[j] == x) && (j == 3 <==> x !in s)
  {
    if s[0] == x then 0 else if s[1] == x then 1 else if s[2] == x then 2 else 3
  }

  // ------------------------------------------------------------ consistency

  /** One side of a triangle, in the direction the triangle runs through it. */
  datatype Side = Side(edge: int, nb: int, from: int, to: int)

  function SideAt(x: Tri, j: nat): Side
    requires j < 3 && |x.nd| == |x.nb| == |x.edg| == 3
  {
    Side(x.edg[j], x.nb[j], x.nd[(j + 1) % 3], x.nd[(j + 2) % 3])
  }

  predicate TriShaped(m: Mesh, x: Tri) {
    && |x.nd| == |x.nb| == |x.edg| == 3
    && (forall j :: 0 <= j < 3 ==> 0 <= x.nd[j] < |m.nd| && 0 <= x.edg[j] < |m.edg| && x.nb[j] < |m.tri|)
    && x.nd[0] != x.nd[1] && x.nd[1] != x.nd[2] && x.nd[0] != x.nd[2]
  }

  predicate EdgeShaped(m: Mesh, e: Edge) {
    |e.nd| == 2 && 0 <= e.nd[0] < |m.nd| && 0 <= e.nd[1] < |m.nd| && e.nd[0] != e.nd[1]
  }

  ghost predicate Shaped(m: Mesh) {
    && (forall t :: 0 <= t < |m.tri| ==> TriShaped(m, m.tri[t]))
    && (forall e :: 0 <= e < |m.edg| ==> EdgeShaped(m, m.edg[e]))
    && (forall n :: 0 <= n < |m.nd| ==> 0 <= m.nd[n].pt < |m.pt|)
  }

  predicate SameEnds(e: Edge, a: int, b: int)
    requires |e.nd| == 2
  {
    (e.nd[0] == a && e.nd[1] == b) || (e.nd[0] == b && e.nd[1] == a)
  }

  /** `r` is side `s` seen from the triangle across it, whose neighbour is `t`. */
  predicate Mirrors(m: Mesh, t: int, s: Side, r: Side) {
    && 0 <= s.from < |m.nd| && 0 <= s.to < |m.nd| && 0 <= r.from < |m.nd| && 0 <= r.to < |m.nd|
    && r.nb == t && m.nd[r.from].pt == m.nd[s.to].pt && m.nd[r.to].pt == m.nd[s.from].pt
  }

  /** The neighbour across a side has that side too, running the other way and
      pointing back. */
  predicate Faced(m: Mesh, t: int, s: Side)
    requires Shaped(m)
  {
    s.nb >= 0 ==>
      && s.nb < |m.tri| && s.nb != t
      && (|| Mirrors(m, t, s, SideAt(m.tri[s.nb], 0))
          || Mirrors(m, t, s, SideAt(m.tri[s.nb], 1))
          || Mirrors(m, t, s, SideAt(m.tri[s.nb], 2)))
  }

  /** The other triangles of the side's edge are its neighbour. */
  ghost predicate EdgeLinks(m: Mesh, t: int, s: Side) {
    0 <= s.edge < |m.edg| && forall u :: u in m.edg[s.edge].ele && u != t ==> s.nb == u
  }

  ghost predicate SideOk(m: Mesh, t: int, s: Side)
    requires Shaped(m)
  {
    EdgeLinks(m, t, s) && SameEnds(m.edg[s.edge], s.from, s.to) && Faced(m, t, s)
  }

  function At(m: Mesh, n: int): Point
    requires 0 <= n < |m.nd| && 0 <= m.nd[n].pt < |m.pt|
  {
    m.pt[m.nd[n].pt]
  }

  function Area2(m: Mesh, x: Tri): real
    requires Shaped(m) && TriShaped(m, x)
  {
    Cross(At(m, x.nd[0]), At(m, x.nd[1]), At(m, x.nd[2]))
  }

  predicate DistinctNb(x: Tri)
    requires |x.nb| == 3
  {
    && (x.nb[0] >= 0 ==> x.nb[0] != x.nb[1] && x.nb[0] != x.nb[2])
    && (x.nb[1] >= 0 ==> x.nb[1] != x.nb[2])
  }

  ghost predicate TriOk(m: Mesh, t: int)
    requires Shaped(m) && 0 <= t < |m.tri|
  {
    var x := m.tri[t];
    && SideOk(m, t, SideAt(x, 0)) && SideOk(m, t, SideAt(x, 1)) && SideOk(m, t, SideAt(x, 2))
    && DistinctNb(x) && Area2(m, x) > 0.0
  }

  ghost predicate EdgeOk(m: Mesh, e: int)
    requires 0 <= e < |m.edg|
  {
    && NoDup(m.edg[e].ele)
    && forall t :: t in m.edg[e].ele <==> 0 <= t < |m.tri| && e in m.tri[t].edg
  }

  ghost predicate NodeOk(m: Mesh, n: int)
    requires 0 <= n < |m.nd|
  {
    && NoDup(m.nd[n].tri) && NoDup(m.nd[n].edg)
    && (forall t :: t in m.nd[n].tri <==> 0 <= t < |m.tri| && n in m.tri[t].nd)
    && (forall e :: e in m.nd[n].edg <==> 0 <= e < |m.edg| && n in m.edg[e].nd)
  }

  /** What mtest2() checks and more: the six tables describe one mesh of
      positively oriented triangles. */
  ghost predicate Sound(m: Mesh) {
    && Shaped(m)
    && (forall t :: 0 <= t < |m.tri| ==> TriOk(m, t))
    && (forall e :: 0 <= e < |m.edg| ==> EdgeOk(m, e))
    && (forall n :: 0 <= n < |m.nd| ==> NodeOk(m, n))
  }

  // --------------------------------------------------------------- the flip

  /** The quadrilateral around edge `it`: corners s0..s3 in order, and across
      each outer side the neighbour n.. and the edge e.. */
  datatype Quad = Quad(s0: int, s1: int, s2: int, s3: int,
                       n01: int, n12: int, n23: int, n30: int,
                       e01: int, e12: int, e23: int, e30: int)

  /** `it` joins exactly tp and tq, in that order. */
  ghost predicate Joins(m: Mesh, it: int, tp: int, tq: int) {
    0 <= it < |m.edg| && m.edg[it].ele == [tp, tq]
  }

  /** The slot searches of tri_flip all succeed. */
  predicate SlotsFound(m: Mesh, it: int, tp: int, tq: int) {
    && 0 <= it < |m.edg| && |m.edg[it].nd| == 2
    && 0 <= tp < |m.tri| && 0 <= tq < |m.tri|
    && var p, q, s1, s3 := m.tri[tp], m.tri[tq], m.edg[it].nd[0], m.edg[it].nd[1];
    && |p.nd| == |p.nb| == |p.edg| == 3 && |q.nd| == |q.nb| == |q.edg| == 3
    && tq in p.nb && tp in q.nb && s1 in p.nd && s3 in p.nd && s1 in q.nd && s3 in q.nd
  }

  function QuadOf(m: Mesh, it: int, tp: int, tq: int): Quad
    requires SlotsFound(m, it, tp, tq)
  {
    var p, q, s1, s3 := m.tri[tp], m.tri[tq], m.edg[it].nd[0], m.edg[it].nd[1];
    var p1, p3, q1, q3 := Slot(p.nd, s1), Slot(p.nd, s3), Slot(q.nd, s1), Slot(q.nd, s3);
    Quad(p.nd[Slot(p.nb, tq)], s1, q.nd[Slot(q.nb, tp)], s3,
         p.nb[p3], q.nb[q3], q.nb[q1], p.nb[p1],
         p.edg[p3], q.edg[q3], q.edg[q1], p.edg[p1])
  }

  /** sclk_tri(): swap slots 1 and 2 of a triangle that turns the wrong way. */
  function Clockwise(x: Tri, a: Point, b: Point, c: Point): Tri
    requires |x.nd| == |x.nb| == |x.edg| == 3
  {
    var den := (c.x - a.x) * (b.y - c.y) - (c.y - a.y) * (b.x - c.x);
    if -0.5 * den < 0.0 then
      x.(nd := [x.nd[0], x.nd[2], x.nd[1]], nb := [x.nb[0], x.nb[2], x.nb[1]], edg := [x.edg[0], x.edg[2], x.edg[1]])
    else x
  }

  function Retarget(x: Tri, from: int, to: int): Tri
    requires |x.nb| == 3
  {
    x.(nb := seq(3, j requires 0 <= j < 3 => if x.nb[j] == from then to else x.nb[j]))
  }

  /** The triangles tri_flip writes, before sclk_tri. */
  function NewP(q: Quad, it: int, tq: int, reg: int): Tri {
    Tri([q.s0, q.s1, q.s2], [q.n12, tq, q.n01], [q.e12, it, q.e01], reg)
  }

  function NewQ(q: Quad, it: int, tp: int, reg: int): Tri {
    Tri([q.s2, q.s3, q.s0], [q.n30, tp, q.n23], [q.e30, it, q.e23], reg)
  }

  predicate QuadInRange(m: Mesh, q: Quad) {
    && 0 <= q.s0 < |m.nd| && 0 <= q.s1 < |m.nd| && 0 <= q.s2 < |m.nd| && 0 <= q.s3 < |m.nd|
    && q.n01 < |m.tri| && q.n12 < |m.tri| && q.n23 < |m.tri| && q.n30 < |m.tri|
    && 0 <= q.e01 < |m.edg| && 0 <= q.e12 < |m.edg| && 0 <= q.e23 < |m.edg| && 0 <= q.e30 < |m.edg|
  }

  lemma QuadOfInRange(m: Mesh, it: int, tp: int, tq: int)
    requires Shaped(m) && SlotsFound(m, it, tp, tq)
    ensures QuadInRange(m, QuadOf(m, it, tp, tq))
  {
    assert TriShaped(m, m.tri[tp]) && TriShaped(m, m.tri[tq]);
  }

  /** What happens to a triangle outside the quadrilateral. */
  function Outer(q: Quad, tp: int, tq: int, t: int, x: Tri): Tri
    requires |x.nb| == 3
  {
    var y := if t == q.n12 then Retarget(x, tq, tp) else x;
    if t == q.n30 then Retarget(y, tp, tq) else y
  }

  /** The triangle table after both triangles are rewritten. */
  function Written(m: Mesh, q: Quad, it: int, tp: int, tq: int): (r: seq<Tri>)
    requires 0 <= tp < |m.tri| && 0 <= tq < |m.tri|
    ensures |r| == |m.tri|
  {
    m.tri[tp := NewP(q, it, tq, m.tri[tp].reg)][tq := NewQ(q, it, tp, m.tri[tq].reg)]
  }

  /** ... and after the outer neighbours are pointed at their new triangle. */
  function Linked(m: Mesh, q: Quad, it: int, tp: int, tq: int): (r: seq<Tri>)
    requires Shaped(m) && QuadInRange(m, q) && 0 <= tp < |m.tri| && 0 <= tq < |m.tri|
    ensures |r| == |m.tri| && forall t :: 0 <= t < |r| ==> |r[t].nd| == |r[t].nb| == |r[t].edg| == 3
  {
    assert forall t :: 0 <= t < |m.tri| ==> TriShaped(m, m.tri[t]);
    var b := Written(m, q, it, tp, tq);
    var c := if q.n12 < 0 then b else b[q.n12 := Retarget(b[q.n12], tq, tp)];
    if q.n30 < 0 then c else c[q.n30 := Retarget(c[q.n30], tp, tq)]
  }

  /** The triangle table after tri_flip. */
  function FlipTri(m: Mesh, q: Quad, it: int, tp: int, tq: int): (r: seq<Tri>)
    requires Shaped(m) && QuadInRange(m, q) && 0 <= tp < |m.tri| && 0 <= tq < |m.tri|
    ensures |r| == |m.tri|
  {
    var p0, p1, p2, p3 := At(m, q.s0), At(m, q.s1), At(m, q.s2), At(m, q.s3);
    var d := Linked(m, q, it, tp, tq);
    var e := d[tp := Clockwise(d[tp], p0, p1, p2)];
    e[tq := Clockwise(e[tq], p2, p3, p0)]
  }

  function SubEle(s: seq<Edge>, e: int, t: int): (r: seq<Edge>)
    requires 0 <= e < |s|
    ensures |r| == |s|
  {
    s[e := s[e].(ele := RemoveFirst(s[e].ele, t))]
  }

  function AddEle(s: seq<Edge>, e: int, t: int): (r: seq<Edge>)
    requires 0 <= e < |s|
    ensures |r| == |s|
  {
    s[e := s[e].(ele := s[e].ele + [t])]
  }

  /** The edge table after tri_flip. */
  function FlipEdg(m: Mesh, q: Quad, it: int, tp: int, tq: int): (r: seq<Edge>)
    requires QuadInRange(m, q) && 0 <= it < |m.edg|
    ensures |r| == |m.edg|
  {
    var a := m.edg[it := m.edg[it].(nd := [q.s0, q.s2])];
    AddEle(AddEle(SubEle(SubEle(a, q.e30, tp), q.e12, tq), q.e12, tp), q.e30, tq)
  }

  function SubTri(s: seq<Node>, n: int, t: int): (r: seq<Node>)
    requires 0 <= n < |s|
    ensures |r| == |s|
  {
    s[n := s[n].(tri := RemoveFirst(s[n].tri, t))]
  }

  function AddTri(s: seq<Node>, n: int, t: int): (r: seq<Node>)
    requires 0 <= n < |s|
    ensures |r| == |s|
  {
    s[n := s[n].(tri := s[n].tri + [t])]
  }

  function SubEdg(s: seq<Node>, n: int, e: int): (r: seq<Node>)
    requires 0 <= n < |s|
    ensures |r| == |s|
  {
    s[n := s[n].(edg := RemoveFirst(s[n].edg, e))]
  }

  function AddEdg(s: seq<Node>, n: int, e: int): (r: seq<Node>)
    requires 0 <= n < |s|
    ensures |r| == |s|
  {
    s[n := s[n].(edg := s[n].edg + [e])]
  }

  /** The node table after tri_flip. */
  function FlipNd(m: Mesh, q: Quad, it: int, tp: int, tq: int): (r: seq<Node>)
    requires QuadInRange(m, q)
    ensures |r| == |m.nd|
  {
    var a := AddEdg(AddEdg(SubEdg(SubEdg(m.nd, q.s1, it), q.s3, it), q.s0, it), q.s2, it);
    SubTri(SubTri(AddTri(AddTri(a, q.s0, tq), q.s2, tp), q.s1, tq), q.s3, tp)
  }

  /** tri_flip() on the tables. */
  function Flip(m: Mesh, it: int, tp: int, tq: int): Mesh
    requires Shaped(m) && SlotsFound(m, it, tp, tq)
  {
    QuadOfInRange(m, it, tp, tq);
    var q := QuadOf(m, it, tp, tq);
    Mesh(FlipTri(m, q, it, tp, tq), FlipEdg(m, q, it, tp, tq), FlipNd(m, q, it, tp, tq), m.pt)
  }

  /** ck_flip() == 1 */
  predicate CkFlip(m: Mesh, it: int, tp: int, tq: int)
    requires Shaped(m) && SlotsFound(m, it, tp, tq)
  {
    QuadOfInRange(m, it, tp, tq);
    var q := QuadOf(m, it, tp, tq);
    CkSign(At(m, q.s0), At(m, q.s2), At(m, q.s1), At(m, q.s3)) < 0.0
  }
}
