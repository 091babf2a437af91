/** remesh/assemble.py: the bucket grid over the old outer boundary answers as a
    scan over all its segments would. */
module BoundaryIndexes {
  import opened Options
  import opened Plane
  import opened SegmentDistance

  datatype OldSeg = OldSeg(a: Point, b: Point, bc: int)

  /** _g(): the grid cell of a coordinate. */
  function Cell(v: real, cell: real): int
    requires cell > 0.0
  {
    (v / cell).Floor
  }

  lemma CellMonotone(u: real, v: real, cell: real)
    requires cell > 0.0 && u <= v
    ensures Cell(u, cell) <= Cell(v, cell)
  {
    DivideMonotone(u, v, cell);
  }

  lemma DivideMonotone(u: real, v: real, c: real)
    requires c > 0.0 && u <= v
    ensures u / c <= v / c
  {
  }

  /** The cells a segment is entered in. */
  predicate Covers(s: OldSeg, reach: real, cell: real, gx: int, gy: int)
    requires cell > 0.0
  {
    && Cell(Min(s.a.x, s.b.x) - reach, cell) <= gx <= Cell(Max(s.a.x, s.b.x) + reach, cell)
    && Cell(Min(s.a.y, s.b.y) - reach, cell) <= gy <= Cell(Max(s.a.y, s.b.y) + reach, cell)
  }

  function D2(s: OldSeg, mid: Point): real {
    Offset2(mid, s.a, s.b)
  }

  type Buckets = map<(int, int), seq<nat>>

  function Bucket(b: Buckets, gx: int, gy: int): seq<nat> {
    if (gx, gy) in b then b[(gx, gy)] else []
  }

  /** best is the code of a nearest segment among those seen, if any is in reach. */
  ghost predicate Best(seg: seq<OldSeg>, reach: real, mid: Point, seen: set<nat>, best: Option<int>, d: real) {
    && (best.None? ==> d == Sq(reach))
    && (best.Some? ==> d <= Sq(reach) && exists i: nat :: i < |seg| && seg[i].bc == best.value && D2(seg[i], mid) == d)
    && (forall i <- seen :: i < |seg| && D2(seg[i], mid) >= d && (best.None? ==> D2(seg[i], mid) > d))
  }

  /** `code` is that of a segment within reach, and none is nearer. */
  ghost predicate Nearest(seg: seq<OldSeg>, reach: real, mid: Point, code: int) {
    exists i: nat :: i < |seg| && seg[i].bc == code && NoneNearer(seg, reach, mid, i)
  }

  ghost predicate NoneNearer(seg: seq<OldSeg>, reach: real, mid: Point, i: nat)
    requires i < |seg|
  {
    D2(seg[i], mid) <= Sq(reach) && forall j: nat :: j < |seg| ==> D2(seg[i], mid) <= D2(seg[j], mid)
  }

  class BoundaryIndex {
    const reach: real
    const cell: real
    const seg: seq<OldSeg>
    const buckets: Buckets

    ghost predicate Valid() {
      && cell > 0.0 && reach >= 0.0
      && (forall k <- buckets :: forall i <- buckets[k] :: i < |seg|)
      && (forall i: nat, gx, gy :: i < |seg| && Covers(seg[i], reach, cell, gx, gy) ==> i in Bucket(buckets, gx, gy))
    }

    /** The cell size only steers how many candidates a query meets: any positive
        size gives the same answers. */
    constructor (outer: seq<OldSeg>, size: real, within: real)
      requires within >= 0.0 && size > 0.0
      ensures Valid() && seg == outer && reach == within
    {
      reach := within;
      seg := outer;
      if outer == [] {
        cell := 1.0;
        buckets := map[];
      } else {
        cell := size;
        var filled := FillBuckets(outer, size, within);
        buckets := filled;
      }
    }

    /** code_at(): None where the code raises. */
    method CodeAt(mid: Point) returns (r: Option<int>)
      requires Valid()
      ensures r.None? <==> forall i: nat :: i < |seg| ==> D2(seg[i], mid) > Sq(reach)
      ensures r.Some? ==> Nearest(seg, reach, mid, r.value)
    {
      var gx, gy := Cell(mid.x, cell), Cell(mid.y, cell);
      var best: Option<int>, d := None, Sq(reach);
      ghost var seen: set<nat> := {};
      for dx := -1 to 2
        invariant Best(seg, reach, mid, seen, best, d)
        invariant dx > 0 ==> forall i <- Bucket(buckets, gx, gy) :: i in seen
      {
        for dy := -1 to 2
          invariant Best(seg, reach, mid, seen, best, d)
          invariant dx > 0 || (dx == 0 && dy > 0) ==> forall i <- Bucket(buckets, gx, gy) :: i in seen
        {
          best, d, seen := Scan(Bucket(buckets, gx + dx, gy + dy), mid, best, d, seen);
        }
      }
      forall i: nat | i < |seg| && i !in seen ensures D2(seg[i], mid) > Sq(reach) {
        if D2(seg[i], mid) <= Sq(reach) {
          InItsCell(seg[i], reach, cell, mid);
          assert false;
        }
      }
      r := best;
      if best.Some? {
        var i: nat :| i < |seg| && seg[i].bc == best.value && D2(seg[i], mid) == d;
        assert NoneNearer(seg, reach, mid, i);
      }
    }

    method Scan(bucket: seq<nat>, mid: Point, best0: Option<int>, d0: real, ghost seen0: set<nat>)
      returns (best: Option<int>, d: real, ghost seen: set<nat>)
      requires Valid() && (forall i <- bucket :: i < |seg|) && Best(seg, reach, mid, seen0, best0, d0)
      ensures Best(seg, reach, mid, seen, best, d) && seen0 <= seen && forall i <- bucket :: i in seen
    {
      best, d, seen := best0, d0, seen0;
      for k := 0 to |bucket|
        invariant Best(seg, reach, mid, seen, best, d) && seen0 <= seen && forall i <- bucket[..k] :: i in seen
      {
        var i := bucket[k];
        assert i in bucket;
        var dist := D2(seg[i], mid);
        if dist <= d {
          d, best := dist, Some(seg[i].bc);
        }
        seen := seen + {i};
      }
    }
  }

  lemma InItsCell(s: OldSeg, reach: real, cell: real, mid: Point)
    requires cell > 0.0 && reach >= 0.0 && D2(s, mid) <= Sq(reach)
    ensures Covers(s, reach, cell, Cell(mid.x, cell), Cell(mid.y, cell))
  {
    WithinBox(mid, s.a, s.b, reach);
    CellMonotone(Min(s.a.x, s.b.x) - reach, mid.x, cell);
    CellMonotone(mid.x, Max(s.a.x, s.b.x) + reach, cell);
    CellMonotone(Min(s.a.y, s.b.y) - reach, mid.y, cell);
    CellMonotone(mid.y, Max(s.a.y, s.b.y) + reach, cell);
  }

  /** Entries are segment numbers, and every segment before k is in its cells. */
  ghost predicate Filled(b: Buckets, outer: seq<OldSeg>, cell: real, reach: real, k: nat)
    requires cell > 0.0
  {
    && (forall c <- b :: forall i <- b[c] :: i < |outer|)
    && (forall i: nat, gx, gy :: i < k && i < |outer| && Covers(outer[i], reach, cell, gx, gy) ==>
        i in Bucket(b, gx, gy))
  }

  lemma BucketGrows(b: Buckets, gx: int, gy: int, k: nat)
    ensures var b' := b[(gx, gy) := Bucket(b, gx, gy) + [k]];
            && k in Bucket(b', gx, gy)
            && forall cx, cy, i: nat :: i in Bucket(b, cx, cy) ==> i in Bucket(b', cx, cy)
  {
  }

  /** Segment k is in the cells of these columns and rows. */
  ghost predicate Entered(b: Buckets, k: nat, x0: int, x1: int, y0: int, y1: int) {
    forall cx, cy :: EnteredAt(b, k, x0, x1, y0, y1, cx, cy)
  }

  predicate EnteredAt(b: Buckets, k: nat, x0: int, x1: int, y0: int, y1: int, cx: int, cy: int) {
    x0 <= cx < x1 && y0 <= cy < y1 ==> k in Bucket(b, cx, cy)
  }

  lemma EnteredMore(
    b: Buckets, outer: seq<OldSeg>, cell: real, reach: real, k: nat, x0: int, gx: int, next: int, y0: int, gy: int,
        up: int, y1: int)
    requires cell > 0.0 && k < |outer| && Filled(b, outer, cell, reach, k) && next == gx + 1 && up == gy + 1
    requires Entered(b, k, x0, gx, y0, y1) && Entered(b, k, gx, next, y0, gy)
    ensures var b' := b[(gx, gy) := Bucket(b, gx, gy) + [k]];
      && Filled(b', outer, cell, reach, k)
      && Entered(b', k, x0, gx, y0, y1) && Entered(b', k, gx, next, y0, up)
  {
    BucketGrows(b, gx, gy, k);
    var b' := b[(gx, gy) := Bucket(b, gx, gy) + [k]];
    forall cx, cy ensures EnteredAt(b', k, x0, gx, y0, y1, cx, cy) && EnteredAt(b', k, gx, next, y0, up, cx, cy) {
      assert EnteredAt(b, k, x0, gx, y0, y1, cx, cy) && EnteredAt(b, k, gx, next, y0, gy, cx, cy);
    }
  }

  lemma ColumnEntered(b: Buckets, k: nat, x0: int, gx: int, next: int, y0: int, y1: int)
    requires next == gx + 1 && Entered(b, k, x0, gx, y0, y1) && Entered(b, k, gx, next, y0, y1)
    ensures Entered(b, k, x0, next, y0, y1)
  {
    forall cx, cy ensures EnteredAt(b, k, x0, next, y0, y1, cx, cy) {
      assert EnteredAt(b, k, x0, gx, y0, y1, cx, cy) && EnteredAt(b, k, gx, next, y0, y1, cx, cy);
    }
  }

  lemma SegmentEntered(
    b: Buckets, outer: seq<OldSeg>, cell: real, reach: real, k: nat, x0: int, x1: int, y0: int, y1: int)
    requires cell > 0.0 && k < |outer| && Filled(b, outer, cell, reach, k) && Entered(b, k, x0, x1 + 1, y0, y1 + 1)
    requires var s := outer[k];
      && x0 == Cell(Min(s.a.x, s.b.x) - reach, cell) && x1 == Cell(Max(s.a.x, s.b.x) + reach, cell)
      && y0 == Cell(Min(s.a.y, s.b.y) - reach, cell) && y1 == Cell(Max(s.a.y, s.b.y) + reach, cell)
    ensures Filled(b, outer, cell, reach, k + 1)
  {
    forall gx, gy | Covers(outer[k], reach, cell, gx, gy) ensures k in Bucket(b, gx, gy) {
      assert EnteredAt(b, k, x0, x1 + 1, y0, y1 + 1, gx, gy);
    }
  }

  /** The loops of __init__. */
  method FillBuckets(outer: seq<OldSeg>, cell: real, reach: real) returns (b: Buckets)
    requires cell > 0.0
    ensures Filled(b, outer, cell, reach, |outer|)
  {
    b := map[];
    for k := 0 to |outer|
      invariant Filled(b, outer, cell, reach, k)
    {
      var s := outer[k];
      var x0, x1 := Cell(Min(s.a.x, s.b.x) - reach, cell), Cell(Max(s.a.x, s.b.x) + reach, cell);
      var y0, y1 := Cell(Min(s.a.y, s.b.y) - reach, cell), Cell(Max(s.a.y, s.b.y) + reach, cell);
      b := EnterSegment(b, outer, cell, reach, k, x0, x1, y0, y1);
      SegmentEntered(b, outer, cell, reach, k, x0, x1, y0, y1);
    }
  }

  /** The two nested ranges. */
  method EnterSegment(
    b0: Buckets, ghost outer: seq<OldSeg>, ghost cell: real, ghost reach: real, k: nat, x0: int, x1: int, y0: int,
        y1: int)
    returns (b: Buckets)
    requires cell > 0.0 && k < |outer| && Filled(b0, outer, cell, reach, k)
    ensures Filled(b, outer, cell, reach, k) && Entered(b, k, x0, x1 + 1, y0, y1 + 1)
  {
    b := b0;
    var gx := x0;
    while gx <= x1
      invariant Filled(b, outer, cell, reach, k) && Entered(b, k, x0, gx, y0, y1 + 1)
      decreases x1 + 1 - gx
    {
      var gy := y0;
      ghost var next := gx + 1;
      while gy <= y1
        invariant Filled(b, outer, cell, reach, k) && Entered(b, k, x0, gx, y0, y1 + 1)
        invariant Entered(b, k, gx, next, y0, gy)
        decreases y1 + 1 - gy
      {
        EnteredMore(b, outer, cell, reach, k, x0, gx, next, y0, gy, gy + 1, y1 + 1);
        b := b[(gx, gy) := Bucket(b, gx, gy) + [k]];
        gy := gy + 1;
      }
      EmptyRows(b, k, gx, next, y0, gy, y1 + 1);
      ColumnEntered(b, k, x0, gx, next, y0, y1 + 1);
      gx := gx + 1;
    }
    EmptyColumns(b, k, x0, gx, x1 + 1, y0, y1 + 1);
  }

  lemma EmptyRows(b: Buckets, k: nat, gx: int, next: int, y0: int, gy: int, y1: int)
    requires Entered(b, k, gx, next, y0, gy) && gy >= y1
    ensures Entered(b, k, gx, next, y0, y1)
  {
    forall cx, cy ensures EnteredAt(b, k, gx, next, y0, y1, cx, cy) {
      assert EnteredAt(b, k, gx, next, y0, gy, cx, cy);
    }
  }

  lemma EmptyColumns(b: Buckets, k: nat, x0: int, gx: int, x1: int, y0: int, y1: int)
    requires Entered(b, k, x0, gx, y0, y1) && gx >= x1
    ensures Entered(b, k, x0, x1, y0, y1)
  {
    forall cx, cy ensures EnteredAt(b, k, x0, x1, y0, y1, cx, cy) {
      assert EnteredAt(b, k, x0, gx, y0, y1, cx, cy);
    }
  }
}
