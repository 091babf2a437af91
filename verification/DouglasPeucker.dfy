/** remesh/simplify.py: thinning one chain with an explicit work stack. */
module DouglasPeucker {
  import opened Plane
  import opened SegmentDistance

  /** Positions of the chain that stay. */
  type Kept = set<nat>

  /** lo and hi are kept, and nothing between them is. */
  ghost predicate Neighbours(kept: Kept, lo: nat, hi: nat) {
    lo < hi && lo in kept && hi in kept && forall k :: lo < k < hi ==> k !in kept
  }

  function At(chain: seq<int>, coords: seq<Point>, k: nat): Point
    requires k < |chain| && 0 <= chain[k] < |coords|
  {
    coords[chain[k]]
  }

  /** The squared distance of point k to the segment lo hi. */
  function Offset(chain: seq<int>, coords: seq<Point>, k: nat, lo: nat, hi: nat): real
    requires Indexed(chain, coords) && k < |chain| && lo < |chain| && hi < |chain|
  {
    Offset2(At(chain, coords, k), At(chain, coords, lo), At(chain, coords, hi))
  }

  predicate Indexed(chain: seq<int>, coords: seq<Point>) {
    forall k :: 0 <= k < |chain| ==> 0 <= chain[k] < |coords|
  }

  /** Every point between lo and hi is within tolerance of the segment lo hi. */
  ghost predicate Flat(chain: seq<int>, coords: seq<Point>, tolerance: real, lo: nat, hi: nat)
    requires Indexed(chain, coords)
  {
    lo < hi < |chain| &&
    forall k :: lo < k < hi ==> Offset(chain, coords, k, lo, hi) <= Sq(tolerance)
  }

  /** k is the farthest point from the segment lo hi, and beyond tolerance. */
  ghost predicate Far(chain: seq<int>, coords: seq<Point>, tolerance: real, lo: nat, k: nat, hi: nat)
    requires Indexed(chain, coords)
  {
    && lo < k < hi < |chain|
    && Offset(chain, coords, k, lo, hi) > Sq(tolerance)
    && forall j :: lo < j < hi ==> Offset(chain, coords, j, lo, hi) <= Offset(chain, coords, k, lo, hi)
  }

  ghost predicate FarFrom(chain: seq<int>, coords: seq<Point>, tolerance: real, kept: Kept, k: nat)
    requires Indexed(chain, coords)
  {
    exists lo: nat, hi: nat :: lo in kept && hi in kept && Far(chain, coords, tolerance, lo, k, hi)
  }

  /** No point is kept without need: each one between the ends is the farthest
      from some segment between kept points, and farther than tolerance. */
  ghost predicate Needed(chain: seq<int>, coords: seq<Point>, tolerance: real, kept: Kept)
    requires Indexed(chain, coords)
  {
    forall k <- kept :: 0 < k < |chain| - 1 ==> FarFrom(chain, coords, tolerance, kept, k)
  }

  /** Both ends are kept, and every dropped point is within tolerance of the
      segment that joins the kept points next to it. */
  ghost predicate Bounded(chain: seq<int>, coords: seq<Point>, tolerance: real, kept: Kept)
    requires Indexed(chain, coords)
  {
    && |chain| >= 2 && 0 in kept && |chain| - 1 in kept && (forall k <- kept :: k < |chain|)
    && forall lo: nat, hi: nat :: Neighbours(kept, lo, hi) ==> Flat(chain, coords, tolerance, lo, hi)
  }

  /** Work in progress: the intervals that are not flat yet are on the stack. */
  ghost predicate Pending(chain: seq<int>, coords: seq<Point>, tolerance: real, kept: Kept, stack: seq<(nat, nat)>)
    requires Indexed(chain, coords)
  {
    && 0 in kept && |chain| - 1 in kept && (forall k <- kept :: k < |chain|)
    && (forall j <- stack :: Neighbours(kept, j.0, j.1))
    && (forall i, j :: 0 <= i < j < |stack| ==> stack[i] != stack[j])
    && forall lo: nat, hi: nat :: Neighbours(kept, lo, hi) && (lo, hi) !in stack ==>
        Flat(chain, coords, tolerance, lo, hi)
  }

  function Ids(chain: seq<int>, kept: Kept): set<int> {
    set k | k in kept && k < |chain| :: chain[k]
  }

  /** The farthest point strictly between lo and hi. */
  method Worst(chain: seq<int>, coords: seq<Point>, lo: nat, hi: nat) returns (worst: real, at: nat)
    requires Indexed(chain, coords) && hi - lo >= 2 && hi < |chain|
    ensures lo < at < hi && worst == Offset(chain, coords, at, lo, hi)
    ensures forall k :: lo < k < hi ==> Offset(chain, coords, k, lo, hi) <= worst
  {
    var a, b := coords[chain[lo]], coords[chain[hi]];
    worst, at := -1.0, 0;
    for k := lo + 1 to hi
      invariant forall j :: lo < j < k ==> Offset(chain, coords, j, lo, hi) <= worst
      invariant k == lo + 1 ==> worst == -1.0
      invariant k > lo + 1 ==> lo < at < k && worst == Offset(chain, coords, at, lo, hi)
    {
      var d := Offset2(coords[chain[k]], a, b);
      OffsetNonNegative(coords[chain[k]], a, b);
      if d > worst {
        worst, at := d, k;
      }
    }
  }

  lemma OffsetNonNegative(p: Point, a: Point, b: Point)
    ensures Offset2(p, a, b) >= 0.0
  {
    var c := Lerp(a, b, Foot(p, a, b));
    SumOfSquares(p.x - c.x, p.y - c.y);
  }

  /** One turn of the loop, for the interval popped last: nothing, or the point
      to keep and to split at. */
  method Judge(
    chain: seq<int>, coords: seq<Point>, tolerance: real, ghost kept: Kept, ghost stack: seq<(nat, nat)>, lo: nat,
    hi: nat)
    returns (at: nat)
    requires Indexed(chain, coords) && tolerance >= 0.0
    requires Pending(chain, coords, tolerance, kept, stack + [(lo, hi)]) && Needed(chain, coords, tolerance, kept)
    ensures at == 0 ==> Pending(chain, coords, tolerance, kept, stack)
    ensures at != 0 ==> lo < at < hi < |chain| && at !in kept
    ensures at != 0 ==> Pending(chain, coords, tolerance, kept + {at}, stack + [(lo, at)] + [(at, hi)])
    ensures at != 0 ==> Needed(chain, coords, tolerance, kept + {at})
  {
    assert (stack + [(lo, hi)])[|stack|] == (lo, hi);
    if hi - lo < 2 {
      PopFlat(chain, coords, tolerance, kept, stack, lo, hi);
      return 0;
    }
    var worst;
    worst, at := Worst(chain, coords, lo, hi);
    if worst > Sq(tolerance) {
      Split(chain, coords, tolerance, kept, stack, lo, hi, at);
      StillNeeded(chain, coords, tolerance, kept, lo, hi, at);
    } else {
      PopFlat(chain, coords, tolerance, kept, stack, lo, hi);
      at := 0;
    }
  }

  /** `keep` are the points at some positions that bound the error and are needed. */
  ghost predicate Thinned(chain: seq<int>, coords: seq<Point>, tolerance: real, keep: set<int>)
    requires |chain| >= 2 && Indexed(chain, coords) && tolerance >= 0.0
  {
    exists kept :: Bounded(chain, coords, tolerance, kept) && Needed(chain, coords, tolerance, kept)
        && keep == Ids(chain, kept)
  }

  /** _douglas_peucker(); `kept` names the positions behind the returned points. */
  method Thin(chain: seq<int>, coords: seq<Point>, tolerance: real) returns (keep: set<int>, ghost kept: Kept)
    requires |chain| >= 2 && Indexed(chain, coords) && tolerance >= 0.0
    ensures Bounded(chain, coords, tolerance, kept) && Needed(chain, coords, tolerance, kept)
    ensures keep == Ids(chain, kept)
    ensures Thinned(chain, coords, tolerance, keep)
  {
    keep := {chain[0], chain[|chain|-1]};
    kept := {0, |chain|-1};
    var stack: seq<(nat, nat)> := [(0, |chain|-1)];
    Start(chain, coords, tolerance);
    while stack != []
      invariant Working(chain, coords, tolerance, keep, kept, stack)
      decreases |chain| - |kept|, |stack|
    {
      keep, kept, stack := Turn(chain, coords, tolerance, keep, kept, stack);
    }
  }

  ghost predicate Working(
    chain: seq<int>, coords: seq<Point>, tolerance: real, keep: set<int>, kept: Kept, stack: seq<(nat, nat)>)
    requires Indexed(chain, coords)
  {
    && Pending(chain, coords, tolerance, kept, stack) && Needed(chain, coords, tolerance, kept)
    && keep == Ids(chain, kept)
  }

  lemma Start(chain: seq<int>, coords: seq<Point>, tolerance: real)
    requires |chain| >= 2 && Indexed(chain, coords)
    ensures Working(chain, coords, tolerance, {chain[0], chain[|chain|-1]}, {0, |chain|-1}, [(0, |chain|-1)])
  {
    IdsOfEnds(chain);
    var stack: seq<(nat, nat)> := [(0, |chain|-1)];
    assert stack[0] == (0, |chain|-1);
  }

  /** The body of the loop. */
  method Turn(
    chain: seq<int>, coords: seq<Point>, tolerance: real, keep0: set<int>, ghost kept0: Kept, stack0: seq<(nat, nat)>)
    returns (keep: set<int>, ghost kept: Kept, stack: seq<(nat, nat)>)
    requires Indexed(chain, coords) && tolerance >= 0.0 && stack0 != []
    requires Working(chain, coords, tolerance, keep0, kept0, stack0)
    ensures Working(chain, coords, tolerance, keep, kept, stack)
    ensures |kept0| <= |kept| <= |chain| && (|kept| == |kept0| ==> |stack| < |stack0|)
  {
    var (lo, hi) := stack0[|stack0|-1];
    assert stack0 == stack0[..|stack0|-1] + [(lo, hi)];
    keep, kept, stack := keep0, kept0, stack0[..|stack0|-1];
    KeptFew(kept, |chain|);
    var at := Judge(chain, coords, tolerance, kept, stack, lo, hi);
    if at != 0 {
      KeptFew(kept + {at}, |chain|);
      IdsGrow(chain, kept, at);
      keep := keep + {chain[at]};
      kept := kept + {at};
      stack := stack + [(lo, at)] + [(at, hi)];
    }
  }

  lemma IdsOfEnds(chain: seq<int>)
    requires |chain| >= 2
    ensures Ids(chain, {0, |chain| - 1}) == {chain[0], chain[|chain| - 1]}
  {
    var kept: Kept := {0, |chain| - 1};
    assert 0 in kept && |chain| - 1 in kept;
  }

  lemma IdsGrow(chain: seq<int>, kept: Kept, at: nat)
    requires at < |chain|
    ensures Ids(chain, kept + {at}) == Ids(chain, kept) + {chain[at]}
  {
    forall x | x in Ids(chain, kept) + {chain[at]} ensures x in Ids(chain, kept + {at}) {
      if x in Ids(chain, kept) {
        var k :| k in kept && k < |chain| && chain[k] == x;
        assert k in kept + {at};
      } else {
        assert at in kept + {at};
      }
    }
  }

  lemma {:induction false} KeptFew(kept: Kept, n: nat)
    requires forall k <- kept :: k < n
    ensures |kept| <= n
  {
    if n == 0 {
      assert kept == {};
    } else {
      KeptFew(kept - {n - 1}, n - 1);
    }
  }

  lemma StillNeeded(chain: seq<int>, coords: seq<Point>, tolerance: real, kept: Kept, lo: nat, hi: nat, at: nat)
    requires Indexed(chain, coords) && Needed(chain, coords, tolerance, kept)
    requires lo in kept && hi in kept && Far(chain, coords, tolerance, lo, at, hi)
    ensures Needed(chain, coords, tolerance, kept + {at})
  {
    var kept' := kept + {at};
    forall k <- kept' | 0 < k < |chain| - 1 ensures FarFrom(chain, coords, tolerance, kept', k) {
      if k != at {
        var l: nat, h: nat :| l in kept && h in kept && Far(chain, coords, tolerance, l, k, h);
        assert l in kept' && h in kept';
      } else {
        assert lo in kept' && hi in kept';
      }
    }
  }

  lemma PopFlat(
    chain: seq<int>, coords: seq<Point>, tolerance: real, kept: Kept, stack: seq<(nat, nat)>, lo: nat, hi: nat)
    requires Indexed(chain, coords) && Pending(chain, coords, tolerance, kept, stack + [(lo, hi)])
    requires Flat(chain, coords, tolerance, lo, hi)
    ensures Pending(chain, coords, tolerance, kept, stack)
  {
    var was := stack + [(lo, hi)];
    forall j <- stack ensures Neighbours(kept, j.0, j.1) {
      assert j in was;
    }
    forall i, j | 0 <= i < j < |stack| ensures stack[i] != stack[j] {
      assert was[i] != was[j];
    }
  }

  lemma Split(
    chain: seq<int>, coords: seq<Point>, tolerance: real, kept: Kept, stack: seq<(nat, nat)>, lo: nat, hi: nat,
    at: nat)
    requires Indexed(chain, coords) && Pending(chain, coords, tolerance, kept, stack + [(lo, hi)])
    requires lo < at < hi < |chain|
    ensures at !in kept
    ensures Pending(chain, coords, tolerance, kept + {at}, stack + [(lo, at)] + [(at, hi)])
  {
    var was := stack + [(lo, hi)];
    assert was[|stack|] == (lo, hi);
    var kept', stack' := kept + {at}, stack + [(lo, at)] + [(at, hi)];
    forall i | 0 <= i < |stack| ensures Neighbours(kept', stack[i].0, stack[i].1) && at != stack[i].0
        && at != stack[i].1 {
      assert was[i] != was[|stack|] && was[i] in was;
      assert !(stack[i].0 < at < stack[i].1);
    }
    forall i, j | 0 <= i < j < |stack'| ensures stack'[i] != stack'[j] {
      if j < |stack| {
        assert was[i] != was[j];
      }
    }
    forall l: nat, h: nat | Neighbours(kept', l, h) && (l, h) !in stack' ensures Flat(chain, coords, tolerance, l, h) {
      assert stack'[|stack|] == (lo, at) && stack'[|stack| + 1] == (at, hi);
      SplitNeighbours(kept, lo, hi, at, l, h);
    }
  }

  lemma SplitNeighbours(kept: Kept, lo: nat, hi: nat, at: nat, l: nat, h: nat)
    requires Neighbours(kept, lo, hi) && lo < at < hi && Neighbours(kept + {at}, l, h)
    ensures (l, h) == (lo, at) || (l, h) == (at, hi) || (Neighbours(kept, l, h) && (l, h) != (lo, hi))
  {
    assert at in kept + {at} && lo in kept + {at} && hi in kept + {at};
  }
}
