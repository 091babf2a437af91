/** remesh/transfer.py: reading old values at a new point. */
module Samplers {
  import opened Options
  import opened Plane
  import opened Reals
  import opened StrModel
  import opened SegmentDistance

  // ------------------------------------------------- barycentric coordinates

  datatype Weights = Weights(a: real, b: real, c: real)

  const INSIDE_TOL: real := 0.000000001

  function Den(a: Point, b: Point, c: Point): real {
    (b.y - c.y) * (a.x - c.x) + (c.x - b.x) * (a.y - c.y)
  }

  function NumA(p: Point, b: Point, c: Point): real {
    (b.y - c.y) * (p.x - c.x) + (c.x - b.x) * (p.y - c.y)
  }

  function NumB(p: Point, a: Point, c: Point): real {
    (c.y - a.y) * (p.x - c.x) + (a.x - c.x) * (p.y - c.y)
  }

  /** _barycentric() without clamping. */
  function Barycentric(p: Point, a: Point, b: Point, c: Point): Option<Weights> {
    var den := Den(a, b, c);
    if den == 0.0 then None
    else
      var wa := NumA(p, b, c) / den;
      var wb := NumB(p, a, c) / den;
      var wc := 1.0 - wa - wb;
      if wa < -INSIDE_TOL || wb < -INSIDE_TOL || wc < -INSIDE_TOL then None else Some(Weights(wa, wb, wc))
  }

  function Mix(w: Weights, x: real, y: real, z: real): real {
    w.a * x + w.b * y + w.c * z
  }

  /** p is the mean of the corners with these weights. */
  predicate Balances(w: Weights, p: Point, a: Point, b: Point, c: Point) {
    w.a + w.b + w.c == 1.0 && p.x == Mix(w, a.x, b.x, c.x) && p.y == Mix(w, a.y, b.y, c.y)
  }

  predicate Inside(w: Weights) {
    w.a >= 0.0 && w.b >= 0.0 && w.c >= 0.0
  }

  lemma CrossTerm(u: real, v: real, x: real, y: real, s: real, t: real)
    ensures t * (u * x + v * s) - s * (u * y + v * t) == u * (t * x - s * y)
  {
  }

  lemma Ratio(n: real, u: real, d: real)
    requires d != 0.0 && n == u * d
    ensures n / d == u
  {
    Cancel(u, d);
  }

  lemma Cancel(u: real, d: real)
    requires d != 0.0
    ensures (u * d) / d == u
  {
  }

  /** The weights of a point are the only ones that balance it. */
  lemma WeightsAreUnique(w: Weights, p: Point, a: Point, b: Point, c: Point)
    requires Balances(w, p, a, b, c) && Inside(w) && Den(a, b, c) != 0.0
    ensures Barycentric(p, a, b, c) == Some(w)
  {
    var ex, ey, fx, fy := a.x - c.x, a.y - c.y, b.x - c.x, b.y - c.y;
    FromCorner(w, a.x, b.x, c.x);
    FromCorner(w, a.y, b.y, c.y);
    CrossTerm(w.a, w.b, ex, ey, fx, fy);
    CrossTerm(w.b, w.a, fx, fy, ex, ey);
    assert p.x - c.x == w.a * ex + w.b * fx && p.y - c.y == w.a * ey + w.b * fy;
    var den := Den(a, b, c);
    assert den == fy * ex - fx * ey;
    assert NumA(p, b, c) == w.a * den;
    OtherNumerator(w.a, w.b, ex, ey, fx, fy);
    assert NumB(p, a, c) == w.b * den;
    Ratio(NumA(p, b, c), w.a, den);
    Ratio(NumB(p, a, c), w.b, den);
  }

  lemma OtherNumerator(u: real, v: real, ex: real, ey: real, fx: real, fy: real)
    ensures -ey * (u * ex + v * fx) + ex * (u * ey + v * fy) == v * (fy * ex - fx * ey)
  {
  }

  lemma FromCorner(w: Weights, x: real, y: real, z: real)
    requires w.a + w.b + w.c == 1.0
    ensures Mix(w, x, y, z) - z == w.a * (x - z) + w.b * (y - z)
  {
    assert w.c == 1.0 - w.a - w.b;
    assert w.c * z == z - w.a * z - w.b * z;
  }

  lemma Solve(px: real, py: real, ex: real, ey: real, fx: real, fy: real, wa: real, wb: real, den: real)
    requires den == fy * ex - fx * ey && den != 0.0
    requires wa * den == fy * px - fx * py && wb * den == ex * py - ey * px
    ensures wa * ex + wb * fx == px && wa * ey + wb * fy == py
  {
    assert (wa * den) * ex + (wb * den) * fx == px * den by {
      Expand1(px, py, ex, ey, fx, fy);
    }
    assert (wa * den) * ey + (wb * den) * fy == py * den by {
      Expand2(px, py, ex, ey, fx, fy);
    }
    Factor(wa, wb, den, ex, fx);
    Factor(wa, wb, den, ey, fy);
    SameProduct(wa * ex + wb * fx, px, den);
    SameProduct(wa * ey + wb * fy, py, den);
  }

  lemma Expand1(px: real, py: real, ex: real, ey: real, fx: real, fy: real)
    ensures (fy * px - fx * py) * ex + (ex * py - ey * px) * fx == px * (fy * ex - fx * ey)
  {
  }

  lemma Expand2(px: real, py: real, ex: real, ey: real, fx: real, fy: real)
    ensures (fy * px - fx * py) * ey + (ex * py - ey * px) * fy == py * (fy * ex - fx * ey)
  {
  }

  lemma Factor(wa: real, wb: real, den: real, x: real, y: real)
    ensures (wa * den) * x + (wb * den) * y == (wa * x + wb * y) * den
  {
  }

  lemma SameProduct(x: real, y: real, d: real)
    requires d != 0.0 && x * d == y * d
    ensures x == y
  {
    Cancel(x, d);
    Cancel(y, d);
  }

  /** The weights the code finds balance the point. */
  lemma WeightsBalance(p: Point, a: Point, b: Point, c: Point)
    requires Barycentric(p, a, b, c).Some?
    ensures Balances(Barycentric(p, a, b, c).value, p, a, b, c)
  {
    var w, den := Barycentric(p, a, b, c).value, Den(a, b, c);
    var ex, ey, fx, fy := a.x - c.x, a.y - c.y, b.x - c.x, b.y - c.y;
    Quotient(NumA(p, b, c), den);
    Quotient(NumB(p, a, c), den);
    Solve(p.x - c.x, p.y - c.y, ex, ey, fx, fy, w.a, w.b, den);
    FromCorner(w, a.x, b.x, c.x);
    FromCorner(w, a.y, b.y, c.y);
  }

  function Least3(x: real, y: real, z: real): real {
    Min(x, Min(y, z))
  }

  function Most3(x: real, y: real, z: real): real {
    Max(x, Max(y, z))
  }

  /** A mean whose weights are at least -tol leaves the range of the corner values
      by no more than 2 tol times its width; with tol = 0 it stays inside. */
  lemma MixStaysNear(w: Weights, x: real, y: real, z: real, tol: real)
    requires tol >= 0.0 && w.a + w.b + w.c == 1.0 && w.a >= -tol && w.b >= -tol && w.c >= -tol
    ensures var lo, hi := Least3(x, y, z), Most3(x, y, z);
      lo - 2.0 * (tol * (hi - lo)) <= Mix(w, x, y, z) <= hi + 2.0 * (tol * (hi - lo))
  {
    var lo, hi := Least3(x, y, z), Most3(x, y, z);
    Shift(w, x, y, z, lo);
    Shift(w, x, y, z, hi);
    Slack(w.a, x - lo, tol, hi - lo);
    Slack(w.b, y - lo, tol, hi - lo);
    Slack(w.c, z - lo, tol, hi - lo);
    Slack(w.a, hi - x, tol, hi - lo);
    Slack(w.b, hi - y, tol, hi - lo);
    Slack(w.c, hi - z, tol, hi - lo);
    assert w.a * (x - hi) == -(w.a * (hi - x)) && w.b * (y - hi) == -(w.b * (hi - y))
        && w.c * (z - hi) == -(w.c * (hi - z));
  }

  lemma Shift(w: Weights, x: real, y: real, z: real, o: real)
    requires w.a + w.b + w.c == 1.0
    ensures Mix(w, x, y, z) - o == w.a * (x - o) + w.b * (y - o) + w.c * (z - o)
  {
    assert w.c == 1.0 - w.a - w.b;
    assert w.a * o + w.b * o + w.c * o == o;
  }

  lemma Slack(w: real, d: real, tol: real, width: real)
    requires w >= -tol && tol >= 0.0 && 0.0 <= d <= width
    ensures w * d >= -(tol * width)
    ensures d == 0.0 ==> w * d == 0.0
  {
    SameSigns(w + tol, d);
    SameSigns(tol, width - d);
    assert (w + tol) * d == w * d + tol * d && tol * (width - d) == tol * width - tol * d;
  }

  // ---------------------------------------------------------------- the grid

  datatype Grid = Grid(x0: real, y0: real, dx: real, dy: real, n: int)

  predicate Usable(g: Grid) {
    g.dx > 0.0 && g.dy > 0.0 && g.n >= 1
  }

  /** _cell_x() and _cell_y(). */
  function Cell(v: real, from: real, size: real, n: int): (c: int)
    requires size > 0.0 && n >= 1
    ensures 0 <= c < n
  {
    var f := ((v - from) / size).Floor;
    if f < 0 then 0 else if f > n - 1 then n - 1 else f
  }

  lemma CellMonotone(u: real, v: real, from: real, size: real, n: int)
    requires size > 0.0 && n >= 1 && u <= v
    ensures Cell(u, from, size, n) <= Cell(v, from, size, n)
  {
    Divide(u - from, v - from, size);
  }

  lemma Divide(u: real, v: real, c: real)
    requires c > 0.0 && u <= v
    ensures u / c <= v / c
  {
  }

  function Lowest(xs: seq<real>): (m: real)
    requires |xs| > 0
    ensures m in xs && forall x <- xs :: m <= x
  {
    if |xs| == 1 then xs[0]
    else
      assert forall x <- xs :: x == xs[0] || x in xs[1..];
      Min(xs[0], Lowest(xs[1..]))
  }

  function Highest(xs: seq<real>): (m: real)
    requires |xs| > 0
    ensures m in xs && forall x <- xs :: x <= m
  {
    if |xs| == 1 then xs[0]
    else
      assert forall x <- xs :: x == xs[0] || x in xs[1..];
      Max(xs[0], Highest(xs[1..]))
  }

  // -------------------------------------------------------------- the tables

  type Rows = map<(int, int), seq<real>>

  /** `{(coordinate, material): values}`: a later row wins. */
  function RowsOf(ns: seq<NodeSolution>): Rows {
    if ns == [] then map[]
    else RowsOf(ns[..|ns|-1])[(ns[|ns|-1].coordinateIndex, ns[|ns|-1].materialId) := ns[|ns|-1].values]
  }

  predicate Triangles(s: Structure) {
    forall e <- s.elements :: |e.vertices| == 3 && forall v <- e.vertices :: 0 <= v < |s.coordinates|
  }

  function PointAt(s: Structure, v: int): Point
    requires 0 <= v < |s.coordinates|
  {
    Point(s.coordinates[v].x, s.coordinates[v].y)
  }

  function Corner(s: Structure, t: nat, i: nat): Point
    requires Triangles(s) && t < |s.elements| && i < 3
  {
    var e := s.elements[t];
    assert e in s.elements && e.vertices[i] in e.vertices;
    PointAt(s, e.vertices[i])
  }

  predicate OfMaterial(s: Structure, t: nat, material: int)
    requires t < |s.elements|
  {
    s.elements[t].regionId in MaterialOf(s.regions) && MaterialOf(s.regions)[s.elements[t].regionId] == material
  }

  predicate HasValues(rows: Rows, vertices: seq<int>, material: int)
    requires |vertices| == 3
  {
    (vertices[0], material) in rows && (vertices[1], material) in rows && (vertices[2], material) in rows
  }

  function Shortest(a: nat, b: nat, c: nat): (m: nat)
    ensures m <= a && m <= b && m <= c
  {
    if a <= b && a <= c then a else if b <= c then b else c
  }

  /** One value a species; the shortest row decides how many. */
  function Blended(rows: Rows, vertices: seq<int>, material: int, w: Weights): (r: seq<real>)
    requires |vertices| == 3 && HasValues(rows, vertices, material)
  {
    var va, vb, vc := rows[(vertices[0], material)], rows[(vertices[1], material)], rows[(vertices[2], material)];
    seq(Shortest(|va|, |vb|, |vc|), i requires 0 <= i < Shortest(|va|, |vb|, |vc|) => Mix(w, va[i], vb[i], vc[i]))
  }

  /** _blend(). */
  function Blend(rows: Rows, vertices: seq<int>, material: int, w: Weights): Option<seq<real>>
    requires |vertices| == 3
  {
    if HasValues(rows, vertices, material) then Some(Blended(rows, vertices, material, w)) else None
  }

  /** p lies in triangle t, its sides included: some balance of the corners with
      no negative weight. */
  ghost predicate Contains(s: Structure, t: nat, p: Point)
    requires Triangles(s) && t < |s.elements|
  {
    exists w :: Inside(w) && Balances(w, p, Corner(s, t, 0), Corner(s, t, 1), Corner(s, t, 2))
  }

  predicate Flat(s: Structure, t: nat)
    requires Triangles(s) && t < |s.elements|
  {
    Den(Corner(s, t, 0), Corner(s, t, 1), Corner(s, t, 2)) == 0.0
  }

  /** Triangle t answers for p with these values. */
  predicate Answers(s: Structure, t: nat, p: Point, material: int, values: seq<real>)
    requires Triangles(s)
  {
    && t < |s.elements| && OfMaterial(s, t, material)
    && var w := Barycentric(p, Corner(s, t, 0), Corner(s, t, 1), Corner(s, t, 2));
       w.Some? && Blend(RowsOf(s.solutions), s.elements[t].vertices, material, w.value) == Some(values)
  }

  /** Triangle t contains p and has a value of the material at each corner. */
  ghost predicate Eligible(s: Structure, t: nat, p: Point, material: int)
    requires Triangles(s)
  {
    && t < |s.elements| && OfMaterial(s, t, material) && !Flat(s, t) && Contains(s, t, p)
    && HasValues(RowsOf(s.solutions), s.elements[t].vertices, material)
  }

  /** r leaves the range of x, y and z by at most 2 tol times its width. */
  predicate Near(r: real, x: real, y: real, z: real, tol: real) {
    var lo, hi := Least3(x, y, z), Most3(x, y, z);
    lo - 2.0 * (tol * (hi - lo)) <= r <= hi + 2.0 * (tol * (hi - lo))
  }

  /** Every value is near the range of the three corner values of its species. */
  predicate AllNear(values: seq<real>, va: seq<real>, vb: seq<real>, vc: seq<real>, tol: real) {
    && |values| == Shortest(|va|, |vb|, |vc|)
    && forall i :: 0 <= i < |values| ==> Near(values[i], va[i], vb[i], vc[i], tol)
  }

  lemma BlendedStaysNear(rows: Rows, v: seq<int>, material: int, w: Weights, tol: real)
    requires |v| == 3 && HasValues(rows, v, material)
    requires tol >= 0.0 && w.a + w.b + w.c == 1.0 && w.a >= -tol && w.b >= -tol && w.c >= -tol
    ensures AllNear(Blended(rows, v, material, w), rows[(v[0], material)], rows[(v[1], material)],
        rows[(v[2], material)], tol)
  {
    var values, va, vb, vc := Blended(rows, v, material, w), rows[(v[0], material)], rows[(v[1], material)],
        rows[(v[2], material)];
    forall i | 0 <= i < |values| ensures Near(values[i], va[i], vb[i], vc[i], tol) {
      MixStaysNear(w, va[i], vb[i], vc[i], tol);
    }
  }

  /** The values of an answer lie between those of the corners, but for the slack
      of the inside test; for a point that really is inside there is no slack. */
  lemma AnswersStayNear(s: Structure, t: nat, p: Point, material: int, values: seq<real>)
    requires Triangles(s) && Answers(s, t, p, material, values)
    ensures var v, rows := s.elements[t].vertices, RowsOf(s.solutions);
      && HasValues(rows, v, material)
      && AllNear(values, rows[(v[0], material)], rows[(v[1], material)], rows[(v[2], material)],
                 if Contains(s, t, p) then 0.0 else 0.000000001)
  {
    var v, rows := s.elements[t].vertices, RowsOf(s.solutions);
    var a, b, c := Corner(s, t, 0), Corner(s, t, 1), Corner(s, t, 2);
    var w := Barycentric(p, a, b, c).value;
    if Contains(s, t, p) {
      var u :| Inside(u) && Balances(u, p, a, b, c);
      WeightsAreUnique(u, p, a, b, c);
      BlendedStaysNear(rows, v, material, w, 0.0);
    } else {
      BlendedStaysNear(rows, v, material, w, INSIDE_TOL);
    }
  }

  // ------------------------------------------------------- what the values are

  /** Row k is the last one of this point and material. */
  predicate LastRow(ns: seq<NodeSolution>, k: nat, v: int, material: int) {
    && k < |ns| && ns[k].coordinateIndex == v && ns[k].materialId == material
    && forall j :: k < j < |ns| ==> !(ns[j].coordinateIndex == v && ns[j].materialId == material)
  }

  /** A point has the values of its last row in the file. */
  lemma {:induction false} RowsAre(ns: seq<NodeSolution>, v: int, material: int)
    ensures (v, material) in RowsOf(ns) <==> exists k: nat :: LastRow(ns, k, v, material)
    ensures forall k: nat :: LastRow(ns, k, v, material) ==> RowsOf(ns)[(v, material)] == ns[k].values
  {
    if ns != [] {
      var rest, last := ns[..|ns|-1], ns[|ns|-1];
      RowsAre(rest, v, material);
      if last.coordinateIndex == v && last.materialId == material {
        assert LastRow(ns, |rest|, v, material);
      } else {
        forall k: nat ensures LastRow(ns, k, v, material) <==> LastRow(rest, k, v, material) {
          StillLast(ns, k, v, material);
        }
      }
    }
  }

  lemma StillLast(ns: seq<NodeSolution>, k: nat, v: int, material: int)
    requires |ns| > 0 && !(ns[|ns|-1].coordinateIndex == v && ns[|ns|-1].materialId == material)
    ensures LastRow(ns, k, v, material) <==> LastRow(ns[..|ns|-1], k, v, material)
  {
    if LastRow(ns, k, v, material) {
      assert ns[..|ns|-1][k] == ns[k];
    }
  }

  function Affine(k: real, m: real, n: real, p: Point): real {
    k + m * p.x + n * p.y
  }

  lemma MixIsAffine(w: Weights, k: real, m: real, n: real, p: Point, a: Point, b: Point, c: Point)
    requires Balances(w, p, a, b, c)
    ensures Mix(w, Affine(k, m, n, a), Affine(k, m, n, b), Affine(k, m, n, c)) == k + m * p.x + n * p.y
  {
    Gather(w, k, m, n, a, b, c);
    assert k * (w.a + w.b + w.c) == k;
  }

  lemma Gather(w: Weights, k: real, m: real, n: real, a: Point, b: Point, c: Point)
    ensures w.a * Affine(k, m, n, a) + w.b * Affine(k, m, n, b) + w.c * Affine(k, m, n, c)
         == k * (w.a + w.b + w.c) + m * (w.a * a.x + w.b * b.x + w.c * c.x) + n * (w.a * a.y + w.b * b.y + w.c * c.y)
  {
    Spread(w.a, k, m, n, a);
    Spread(w.b, k, m, n, b);
    Spread(w.c, k, m, n, c);
    assert k * (w.a + w.b + w.c) == k * w.a + k * w.b + k * w.c;
    Times3(m, w.a * a.x, w.b * b.x, w.c * c.x);
    Times3(n, w.a * a.y, w.b * b.y, w.c * c.y);
  }

  lemma Spread(u: real, k: real, m: real, n: real, p: Point)
    ensures u * Affine(k, m, n, p) == k * u + m * (u * p.x) + n * (u * p.y)
  {
  }

  lemma Times3(m: real, x: real, y: real, z: real)
    ensures m * (x + y + z) == m * x + m * y + m * z
  {
  }

  /** The value of species i at corner j of triangle t. */
  function CornerValue(s: Structure, t: nat, material: int, j: nat, i: nat): real
    requires Triangles(s) && t < |s.elements| && j < 3
    requires s.elements[t] in s.elements && (s.elements[t].vertices[j], material) in RowsOf(s.solutions)
    requires i < |RowsOf(s.solutions)[(s.elements[t].vertices[j], material)]|
  {
    RowsOf(s.solutions)[(s.elements[t].vertices[j], material)][i]
  }

  /** An answer has the species all three corners have, and each weight goes with
      the value of its own corner. */
  lemma AnswerMixes(s: Structure, t: nat, p: Point, material: int, values: seq<real>) returns (w: Weights)
    requires Triangles(s) && Answers(s, t, p, material, values)
    ensures s.elements[t] in s.elements && HasValues(RowsOf(s.solutions), s.elements[t].vertices, material)
    ensures var v, rows := s.elements[t].vertices, RowsOf(s.solutions);
      var la, lb, lc := |rows[(v[0], material)]|, |rows[(v[1], material)]|, |rows[(v[2], material)]|;
      |values| <= la && |values| <= lb && |values| <= lc && |values| in {la, lb, lc}
    ensures forall i: nat :: i < |values| ==>
      values[i]
      == Mix(w, CornerValue(s, t, material, 0, i), CornerValue(s, t, material, 1, i), CornerValue(s, t, material, 2, i))
    ensures Balances(w, p, Corner(s, t, 0), Corner(s, t, 1), Corner(s, t, 2))
    ensures forall u :: Inside(u) && Balances(u, p, Corner(s, t, 0), Corner(s, t, 1), Corner(s, t, 2)) ==> u == w
  {
    var a, b, c := Corner(s, t, 0), Corner(s, t, 1), Corner(s, t, 2);
    w := Barycentric(p, a, b, c).value;
    WeightsBalance(p, a, b, c);
    forall u | Inside(u) && Balances(u, p, a, b, c) ensures u == w {
      WeightsAreUnique(u, p, a, b, c);
    }
  }

  /** The values of species i are k + m x + n y at the points of the material. */
  ghost predicate Linear(s: Structure, material: int, i: nat, k: real, m: real, n: real) {
    forall j: nat, v: int :: LastRow(s.solutions, j, v, material) ==> LinearRow(s, j, v, i, k, m, n)
  }

  predicate LinearRow(s: Structure, j: nat, v: int, i: nat, k: real, m: real, n: real)
    requires j < |s.solutions|
  {
    0 <= v < |s.coordinates| && i < |s.solutions[j].values| ==>
      s.solutions[j].values[i] == k + m * s.coordinates[v].x + n * s.coordinates[v].y
  }

  /** The sampler reproduces every linear field: if the values of a species are
      k + m x + n y at the points of the material, so is the answer at p. */
  lemma LinearFieldsAreKept(
    s: Structure, t: nat, p: Point, material: int, values: seq<real>, i: nat, k: real, m: real, n: real)
    requires Triangles(s) && Answers(s, t, p, material, values) && i < |values|
    requires Linear(s, material, i, k, m, n)
    ensures values[i] == k + m * p.x + n * p.y
  {
    var w := AnswerMixes(s, t, p, material, values);
    CornerRow(s, t, material, 0, i, k, m, n);
    CornerRow(s, t, material, 1, i, k, m, n);
    CornerRow(s, t, material, 2, i, k, m, n);
    MixIsAffine(w, k, m, n, p, Corner(s, t, 0), Corner(s, t, 1), Corner(s, t, 2));
  }

  lemma CornerRow(s: Structure, t: nat, material: int, j: nat, i: nat, k: real, m: real, n: real)
    requires Triangles(s) && t < |s.elements| && j < 3
    requires s.elements[t] in s.elements && (s.elements[t].vertices[j], material) in RowsOf(s.solutions)
    requires i < |RowsOf(s.solutions)[(s.elements[t].vertices[j], material)]|
    requires Linear(s, material, i, k, m, n)
    ensures CornerValue(s, t, material, j, i) == Affine(k, m, n, Corner(s, t, j))
  {
    var v := s.elements[t].vertices[j];
    RowsAre(s.solutions, v, material);
    var l: nat :| LastRow(s.solutions, l, v, material);
    assert v in s.elements[t].vertices;
  }

  /** Only a triangle answers whose region has the material asked for. */
  lemma AnswersAreOfTheMaterial(s: Structure, t: nat, p: Point, material: int, values: seq<real>)
    requires Triangles(s) && Answers(s, t, p, material, values)
    ensures t < |s.elements|
    ensures exists k: nat :: LastRegion(s.regions, k, s.elements[t].regionId) && s.regions[k].materialId == material
  {
    MaterialOfIs(s.regions, s.elements[t].regionId);
  }

  /** At a corner of the answering triangle the answer is that corner's own value. */
  lemma CornersKeepTheirValues(
    s: Structure, t: nat, p: Point, material: int, values: seq<real>, j: nat, i: nat)
    requires Triangles(s) && Answers(s, t, p, material, values) && i < |values|
    requires j < 3 && p == Corner(s, t, j)
    ensures (s.elements[t].vertices[j], material) in RowsOf(s.solutions)
    ensures i < |RowsOf(s.solutions)[(s.elements[t].vertices[j], material)]|
    ensures values[i] == RowsOf(s.solutions)[(s.elements[t].vertices[j], material)][i]
  {
    var w := AnswerMixes(s, t, p, material, values);
    var u := Weights(if j == 0 then 1.0 else 0.0, if j == 1 then 1.0 else 0.0, if j == 2 then 1.0 else 0.0);
    assert Inside(u) && Balances(u, p, Corner(s, t, 0), Corner(s, t, 1), Corner(s, t, 2));
    assert u == w;
  }

  // -------------------------------------------------------------- the buckets

  type Buckets = map<(int, int, int), seq<nat>>

  function Bucket(b: Buckets, material: int, gx: int, gy: int): seq<nat> {
    if (material, gx, gy) in b then b[(material, gx, gy)] else []
  }

  function Xs(s: Structure, t: nat): seq<real>
    requires Triangles(s) && t < |s.elements|
  {
    [Corner(s, t, 0).x, Corner(s, t, 1).x, Corner(s, t, 2).x]
  }

  function Ys(s: Structure, t: nat): seq<real>
    requires Triangles(s) && t < |s.elements|
  {
    [Corner(s, t, 0).y, Corner(s, t, 1).y, Corner(s, t, 2).y]
  }

  /** The cells triangle t is entered in. */
  predicate Spans(s: Structure, g: Grid, t: nat, gx: int, gy: int)
    requires Triangles(s) && t < |s.elements| && Usable(g)
  {
    && Cell(Lowest(Xs(s, t)), g.x0, g.dx, g.n) <= gx <= Cell(Highest(Xs(s, t)), g.x0, g.dx, g.n)
    && Cell(Lowest(Ys(s, t)), g.y0, g.dy, g.n) <= gy <= Cell(Highest(Ys(s, t)), g.y0, g.dy, g.n)
  }

  /** Only triangles of the material are in its buckets. */
  ghost predicate Sorted(s: Structure, b: Buckets)
    requires Triangles(s)
  {
    forall c <- b :: forall t <- b[c] :: t < |s.elements| && OfMaterial(s, t, c.0)
  }

  /** Every triangle before k is in all the cells it spans. */
  ghost predicate Complete(s: Structure, g: Grid, b: Buckets, k: nat)
    requires Triangles(s) && Usable(g)
  {
    forall t: nat, m, gx, gy :: t < k && t < |s.elements| && OfMaterial(s, t, m) && Spans(s, g, t, gx, gy) ==>
      t in Bucket(b, m, gx, gy)
  }

  ghost predicate Entered(s: Structure, g: Grid, b: Buckets, k: nat)
    requires Triangles(s) && Usable(g)
  {
    Sorted(s, b) && Complete(s, g, b, k)
  }

  lemma InRange(w: Weights, x: real, y: real, z: real)
    requires Inside(w) && w.a + w.b + w.c == 1.0
    ensures Lowest([x, y, z]) <= Mix(w, x, y, z) <= Highest([x, y, z])
  {
    MixStaysNear(w, x, y, z, 0.0);
    assert [x, y, z][1..] == [y, z] && [y, z][1..] == [z];
  }

  /** The cell of a point is among those of every triangle that contains it. */
  lemma CellOfContained(s: Structure, g: Grid, t: nat, p: Point)
    requires Triangles(s) && Usable(g) && t < |s.elements| && Contains(s, t, p)
    ensures Spans(s, g, t, Cell(p.x, g.x0, g.dx, g.n), Cell(p.y, g.y0, g.dy, g.n))
  {
    var a, b, c := Corner(s, t, 0), Corner(s, t, 1), Corner(s, t, 2);
    var w :| Inside(w) && Balances(w, p, a, b, c);
    InRange(w, a.x, b.x, c.x);
    InRange(w, a.y, b.y, c.y);
    CellMonotone(Lowest(Xs(s, t)), p.x, g.x0, g.dx, g.n);
    CellMonotone(p.x, Highest(Xs(s, t)), g.x0, g.dx, g.n);
    CellMonotone(Lowest(Ys(s, t)), p.y, g.y0, g.dy, g.n);
    CellMonotone(p.y, Highest(Ys(s, t)), g.y0, g.dy, g.n);
  }

  function Push(b: Buckets, m: int, gx: int, gy: int, t: nat): Buckets {
    b[(m, gx, gy) := Bucket(b, m, gx, gy) + [t]]
  }

  lemma PushGrows(b: Buckets, m: int, gx: int, gy: int, k: nat)
    ensures k in Bucket(Push(b, m, gx, gy, k), m, gx, gy)
    ensures forall n, cx, cy, t: nat :: t in Bucket(b, n, cx, cy) ==> t in Bucket(Push(b, m, gx, gy, k), n, cx, cy)
  {
  }

  lemma PushSorted(s: Structure, b: Buckets, k: nat, m: int, gx: int, gy: int)
    requires Triangles(s) && Sorted(s, b) && k < |s.elements| && OfMaterial(s, k, m)
    ensures Sorted(s, Push(b, m, gx, gy, k))
  {
    var b' := Push(b, m, gx, gy, k);
    forall c <- b', t <- b'[c] ensures t < |s.elements| && OfMaterial(s, t, c.0) {
      if c == (m, gx, gy) {
        assert t in Bucket(b, m, gx, gy) || t == k;
      } else {
        assert c in b && t in b[c];
      }
    }
  }

  lemma Pushed(s: Structure, g: Grid, b: Buckets, k: nat, m: int, gx: int, gy: int)
    requires Triangles(s) && Usable(g) && Entered(s, g, b, k) && k < |s.elements| && OfMaterial(s, k, m)
    ensures Entered(s, g, Push(b, m, gx, gy, k), k) && k in Bucket(Push(b, m, gx, gy, k), m, gx, gy)
    ensures forall cx, cy :: k in Bucket(b, m, cx, cy) ==> k in Bucket(Push(b, m, gx, gy, k), m, cx, cy)
  {
    PushGrows(b, m, gx, gy, k);
    PushSorted(s, b, k, m, gx, gy);
  }

  /** The two ranges of __init__ for one element. */
  method EnterElement(s: Structure, g: Grid, b0: Buckets, t: nat, m: int) returns (b: Buckets)
    requires Triangles(s) && Usable(g) && Entered(s, g, b0, t) && t < |s.elements| && OfMaterial(s, t, m)
    ensures Entered(s, g, b, t) && forall gx, gy :: Spans(s, g, t, gx, gy) ==> t in Bucket(b, m, gx, gy)
  {
    b := b0;
    var xs, ys := Xs(s, t), Ys(s, t);
    var x0, x1 := Cell(Lowest(xs), g.x0, g.dx, g.n), Cell(Highest(xs), g.x0, g.dx, g.n);
    var y0, y1 := Cell(Lowest(ys), g.y0, g.dy, g.n), Cell(Highest(ys), g.y0, g.dy, g.n);
    var gx := x0;
    while gx <= x1
      invariant Entered(s, g, b, t)
      invariant forall cx, cy :: x0 <= cx < gx && cx <= x1 && y0 <= cy <= y1 ==> t in Bucket(b, m, cx, cy)
      decreases x1 + 1 - gx
    {
      var gy := y0;
      while gy <= y1
        invariant Entered(s, g, b, t)
        invariant forall cx, cy :: x0 <= cx < gx && cx <= x1 && y0 <= cy <= y1 ==> t in Bucket(b, m, cx, cy)
        invariant forall cy :: y0 <= cy < gy && cy <= y1 ==> t in Bucket(b, m, gx, cy)
        decreases y1 + 1 - gy
      {
        Pushed(s, g, b, t, m, gx, gy);
        b := Push(b, m, gx, gy, t);
        gy := gy + 1;
      }
      gx := gx + 1;
    }
  }

  lemma EnteredNext(s: Structure, g: Grid, b: Buckets, t: nat)
    requires Triangles(s) && Usable(g) && Entered(s, g, b, t) && t < |s.elements|
    requires forall m, gx, gy :: OfMaterial(s, t, m) && Spans(s, g, t, gx, gy) ==> t in Bucket(b, m, gx, gy)
    ensures Entered(s, g, b, t + 1)
  {
  }

  /** The loop over the elements. */
  method FillBuckets(s: Structure, g: Grid) returns (b: Buckets)
    requires Triangles(s) && Usable(g)
    ensures Entered(s, g, b, |s.elements|)
  {
    b := map[];
    var materialOf := MaterialOf(s.regions);
    for t := 0 to |s.elements|
      invariant Entered(s, g, b, t)
    {
      var region := s.elements[t].regionId;
      if region in materialOf {
        b := EnterElement(s, g, b, t, materialOf[region]);
      }
      EnteredNext(s, g, b, t);
    }
  }

  /** The value of a new point in the old structure. */
  class Sampler {
    const s: Structure
    const rows: Rows
    const grid: Grid
    const buckets: Buckets

    ghost predicate Valid() {
      Triangles(s) && Usable(grid) && rows == RowsOf(s.solutions) && Entered(s, grid, buckets, |s.elements|)
    }

    /** `side` is the cell count the code takes from a square root; any positive
        count gives the same answers. */
    constructor (structure: Structure, side: int)
      requires Triangles(structure) && |structure.coordinates| > 0 && side >= 1
      ensures Valid() && s == structure
    {
      var xs := seq(|structure.coordinates|, i requires 0 <= i < |structure.coordinates| => structure.coordinates[i].x);
      var ys := seq(|structure.coordinates|, i requires 0 <= i < |structure.coordinates| => structure.coordinates[i].y);
      var x0, x1, y0, y1 := Lowest(xs), Highest(xs), Lowest(ys), Highest(ys);
      var tiny := 1.0 / 1000000000000000000000000000000.0;
      var g := Grid(x0, y0, Max((x1 - x0) / side as real, tiny), Max((y1 - y0) / side as real, tiny), side);
      var filled := FillBuckets(structure, g);
      s := structure;
      rows := RowsOf(structure.solutions);
      grid := g;
      buckets := filled;
    }

    /** at() without reach: only a triangle near the point answers, and one does
        whenever an eligible triangle exists. */
    method At(p: Point, material: int) returns (r: Option<seq<real>>)
      requires Valid()
      ensures r.Some? ==> exists t: nat :: Answers(s, t, p, material, r.value)
      ensures r.None? ==> forall t: nat :: !Eligible(s, t, p, material)
    {
      var gx, gy := Cell(p.x, grid.x0, grid.dx, grid.n), Cell(p.y, grid.y0, grid.dy, grid.n);
      var candidates := Bucket(buckets, material, gx, gy);
      for k := 0 to |candidates|
        invariant forall j :: 0 <= j < k ==> !Eligible(s, candidates[j], p, material)
      {
        var t := candidates[k];
        assert t in candidates && candidates == buckets[(material, gx, gy)];
        var w := Barycentric(p, Corner(s, t, 0), Corner(s, t, 1), Corner(s, t, 2));
        var blended := if w.Some? then Blend(rows, s.elements[t].vertices, material, w.value) else None;
        if blended.Some? {
          assert Answers(s, t, p, material, blended.value);
          return blended;
        }
        NotEligible(s, t, p, material);
      }
      forall t: nat ensures !Eligible(s, t, p, material) {
        if Eligible(s, t, p, material) {
          CellOfContained(s, grid, t, p);
          assert false;
        }
      }
      r := None;
    }
  }

  lemma NotEligible(s: Structure, t: nat, p: Point, material: int)
    requires Triangles(s) && t < |s.elements|
    requires var w := Barycentric(p, Corner(s, t, 0), Corner(s, t, 1), Corner(s, t, 2));
      w.None? || Blend(RowsOf(s.solutions), s.elements[t].vertices, material, w.value).None?
    ensures !Eligible(s, t, p, material)
  {
    var a, b, c := Corner(s, t, 0), Corner(s, t, 1), Corner(s, t, 2);
    if Contains(s, t, p) && !Flat(s, t) {
      var w :| Inside(w) && Balances(w, p, a, b, c);
      WeightsAreUnique(w, p, a, b, c);
    }
  }
}
