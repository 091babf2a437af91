/** remesh/geometry.py: walking a boundary graph into closed loops. */
module RegionLoops {
  import opened Options

  /** Point -> neighbouring points, one entry for each boundary side at it. */
  type Graph = map<int, seq<int>>

  function Entries(g: Graph, p: int): seq<int> {
    if p in g then g[p] else []
  }

  function Degree(g: Graph, p: int): nat {
    |Entries(g, p)|
  }

  /** How often b is listed at a. */
  function Count(g: Graph, a: int, b: int): nat {
    multiset(Entries(g, a))[b]
  }

  /** An undirected graph: every side is listed at both ends (a side from a point
      to itself is listed there twice), and no list is empty. */
  ghost predicate Undirected(g: Graph) {
    && (forall a, b :: Count(g, a, b) == Count(g, b, a))
    && (forall a :: Count(g, a, a) % 2 == 0)
    && NoEmpty(g)
  }

  ghost predicate AllEven(g: Graph) {
    forall p :: Degree(g, p) % 2 == 0
  }

  /** How often a walk runs along the side a b, in either direction. */
  function Uses(loop: seq<int>, a: int, b: int): nat {
    if |loop| < 2 then 0
    else
      var (u, v) := (loop[|loop|-2], loop[|loop|-1]);
      Uses(loop[..|loop|-1], a, b) + Along(u, v, a, b) + Along(v, u, a, b)
  }

  function UsesAll(loops: seq<seq<int>>, a: int, b: int): nat {
    if loops == [] then 0 else UsesAll(loops[..|loops|-1], a, b) + Uses(loops[|loops|-1], a, b)
  }

  predicate Closed(loop: seq<int>) {
    |loop| >= 2 && loop[0] == loop[|loop|-1]
  }

  /** Closed loops that use every side of the graph exactly as often as it is there. */
  ghost predicate Covers(loops: seq<seq<int>>, g: Graph) {
    && (forall l <- loops :: Closed(l))
    && forall a, b :: UsesAll(loops, a, b) == Count(g, a, b)
  }

  // ---------------------------------------------------------------- deletion

  function RemoveOne(s: seq<int>, x: int): (r: seq<int>)
    ensures x in s ==> |r| == |s| - 1 && multiset(r) == multiset(s) - multiset{x}
    ensures x !in s ==> r == s
  {
    if s == [] then []
    else if s[0] == x then
      assert s == [x] + s[1..];
      s[1..]
    else
      assert s == [s[0]] + s[1..];
      [s[0]] + RemoveOne(s[1..], x)
  }

  /** The list at p becomes s; an empty list is deleted. */
  function Put(g: Graph, p: int, s: seq<int>): Graph {
    if s == [] then g - {p} else g[p := s]
  }

  lemma PutEntries(g: Graph, p: int, s: seq<int>)
    ensures forall q :: Entries(Put(g, p, s), q) == if q == p then s else Entries(g, q)
    ensures NoEmpty(g) ==> NoEmpty(Put(g, p, s))
  {
  }

  /** One step of the walk: the last entry at `current`, and its counterpart. */
  function StepGraph(g: Graph, current: int): Graph
    requires Degree(g, current) > 0
  {
    var o := g[current];
    var next := o[|o|-1];
    var g1 := Put(g, current, o[..|o|-1]);
    if next in g1 && current in g1[next] then Put(g1, next, RemoveOne(g1[next], current)) else g1
  }

  /** The entry popped at `current`. */
  function NextPoint(g: Graph, current: int): int
    requires Degree(g, current) > 0
  {
    g[current][|g[current]|-1]
  }

  /** 1 when the step u v runs from a to b. */
  function Along(u: int, v: int, a: int, b: int): nat {
    if u == a && v == b then 1 else 0
  }

  predicate NoEmpty(g: Graph) {
    forall p <- g :: g[p] != []
  }

  /** g lists b at a once more than g', and is otherwise the same. */
  ghost predicate OneMore(g: Graph, g': Graph, a: int, b: int) {
    && (forall x, y :: Count(g, x, y) == Count(g', x, y) + Along(a, b, x, y))
    && (forall p :: Degree(g, p) == Degree(g', p) + (if p == a then 1 else 0))
  }

  lemma PutOneMore(g: Graph, a: int, b: int, s: seq<int>)
    requires multiset(Entries(g, a)) == multiset(s) + multiset{b}
    ensures OneMore(g, Put(g, a, s), a, b)
  {
    var g' := Put(g, a, s);
    PutEntries(g, a, s);
    assert |Entries(g, a)| == |multiset(Entries(g, a))| == |s| + 1 by { assert |multiset(s)| == |s|; }
    forall x, y ensures Count(g, x, y) == Count(g', x, y) + Along(a, b, x, y) {
    }
  }

  lemma PopCounts(g: Graph, current: int)
    requires NoEmpty(g) && Degree(g, current) > 0
    ensures var g1 := Put(g, current, g[current][..|g[current]|-1]);
            NoEmpty(g1) && OneMore(g, g1, current, NextPoint(g, current))
  {
    var o, next := g[current], NextPoint(g, current);
    assert o == o[..|o|-1] + [next];
    PutEntries(g, current, o[..|o|-1]);
    PutOneMore(g, current, next, o[..|o|-1]);
  }

  lemma DropCounts(g1: Graph, next: int, current: int)
    requires NoEmpty(g1) && Count(g1, next, current) > 0
    ensures next in g1 && current in g1[next]
    ensures var g' := Put(g1, next, RemoveOne(g1[next], current)); NoEmpty(g') && OneMore(g1, g', next, current)
  {
    assert next in g1 && current in g1[next];
    var s := RemoveOne(g1[next], current);
    PutEntries(g1, next, s);
    assert multiset(g1[next]) == multiset(s) + multiset{current};
    PutOneMore(g1, next, current, s);
  }

  /** How many of the two points u and v are p. */
  function Ends(p: int, u: int, v: int): nat {
    (if p == u then 1 else 0) + (if p == v then 1 else 0)
  }

  /** A step takes the side u v out of the graph, at both its ends. */
  ghost predicate Taken(g: Graph, g': Graph, u: int, v: int) {
    && (forall a, b :: Count(g, a, b) == Count(g', a, b) + Along(u, v, a, b) + Along(v, u, a, b))
    && (forall p :: Degree(g, p) == Degree(g', p) + Ends(p, u, v))
  }

  lemma StepCounts(g: Graph, current: int)
    requires Undirected(g) && Degree(g, current) > 0
    ensures Undirected(StepGraph(g, current)) && Taken(g, StepGraph(g, current), current, NextPoint(g, current))
  {
    var o, next := g[current], NextPoint(g, current);
    var g1 := Put(g, current, o[..|o|-1]);
    PopCounts(g, current);
    StillListed(g, g1, current, next);
    DropCounts(g1, next, current);
    TwoSteps(g, g1, Put(g1, next, RemoveOne(g1[next], current)), current, next);
  }

  lemma StillListed(g: Graph, g1: Graph, current: int, next: int)
    requires Undirected(g) && Degree(g, current) > 0 && next == NextPoint(g, current) && OneMore(g, g1, current, next)
    ensures Count(g1, next, current) > 0
  {
    assert next in g[current];
    assert Count(g, current, next) == Count(g, next, current) > 0;
    assert Count(g, next, current) == Count(g1, next, current) + Along(current, next, next, current);
    assert Count(g, current, current) % 2 == 0;
  }

  lemma TwoStepsAt(g: Graph, g1: Graph, g': Graph, u: int, v: int, a: int, b: int)
    requires OneMore(g, g1, u, v) && OneMore(g1, g', v, u)
    ensures Count(g, a, b) == Count(g', a, b) + Along(u, v, a, b) + Along(v, u, a, b)
    ensures Degree(g, a) == Degree(g', a) + Ends(a, u, v)
  {
  }

  lemma SymmetricAfter(x: nat, y: nat, x': nat, y': nat, u: int, v: int, a: int, b: int)
    requires x == y
    requires x == x' + Along(u, v, a, b) + Along(v, u, a, b) && y == y' + Along(u, v, b, a) + Along(v, u, b, a)
    ensures x' == y'
    ensures a == b && x % 2 == 0 ==> x' % 2 == 0
  {
    assert Along(u, v, a, b) == Along(v, u, b, a) && Along(v, u, a, b) == Along(u, v, b, a);
  }

  lemma TwoStepsAll(g: Graph, g1: Graph, g': Graph, u: int, v: int, a: int, b: int)
    requires OneMore(g, g1, u, v) && OneMore(g1, g', v, u)
    requires Count(g, a, b) == Count(g, b, a) && Count(g, a, a) % 2 == 0
    ensures Count(g, a, b) == Count(g', a, b) + Along(u, v, a, b) + Along(v, u, a, b)
    ensures Degree(g, a) == Degree(g', a) + Ends(a, u, v)
    ensures Count(g', a, b) == Count(g', b, a) && Count(g', a, a) % 2 == 0
  {
    TwoStepsAt(g, g1, g', u, v, a, b);
    TwoStepsAt(g, g1, g', u, v, b, a);
    TwoStepsAt(g, g1, g', u, v, a, a);
    SymmetricAfter(Count(g, a, b), Count(g, b, a), Count(g', a, b), Count(g', b, a), u, v, a, b);
    SymmetricAfter(Count(g, a, a), Count(g, a, a), Count(g', a, a), Count(g', a, a), u, v, a, a);
  }

  lemma TwoSteps(g: Graph, g1: Graph, g': Graph, current: int, next: int)
    requires Undirected(g) && OneMore(g, g1, current, next) && OneMore(g1, g', next, current) && NoEmpty(g')
    ensures Undirected(g') && Taken(g, g', current, next)
  {
    forall a, b
      ensures Count(g, a, b) == Count(g', a, b) + Along(current, next, a, b) + Along(next, current, a, b)
      ensures Count(g', a, b) == Count(g', b, a)
    {
      TwoStepsAll(g, g1, g', current, next, a, b);
    }
    forall a ensures Count(g', a, a) % 2 == 0 && Degree(g, a) == Degree(g', a) + Ends(a, current, next) {
      TwoStepsAll(g, g1, g', current, next, a, a);
    }
  }

  // ------------------------------------------------- termination of the walk

  lemma HasKey(g: Graph)
    requires |g| != 0
    ensures exists p :: p in g
  {
    if forall p :: p !in g {
      assert false;
    }
  }

  /** The sides of a graph as one multiset, to count them. */
  lemma SidesOf(g: Graph) returns (m: multiset<(int, int)>)
    ensures forall a, b :: m[(a, b)] == Count(g, a, b)
    decreases |g|
  {
    if |g| == 0 {
      m := multiset{};
    } else {
      HasKey(g);
      var p :| p in g;
      var rest := SidesOf(g - {p});
      var here := PairsOf(p, g[p]);
      m := rest + here;
      forall a, b ensures m[(a, b)] == Count(g, a, b) {
        assert Entries(g - {p}, a) == if a == p then [] else Entries(g, a);
      }
    }
  }

  lemma PairsOf(p: int, s: seq<int>) returns (m: multiset<(int, int)>)
    ensures forall a, b :: m[(a, b)] == if a == p then multiset(s)[b] else 0
  {
    if s == [] {
      m := multiset{};
    } else {
      var rest := PairsOf(p, s[1..]);
      assert s == [s[0]] + s[1..];
      m := rest + multiset{(p, s[0])};
    }
  }

  // ---------------------------------------------------------------- the walk

  /** The parity that the walk keeps: only its two ends may be out of step. */
  ghost predicate InStep(side: Graph, rem: Graph, start: int, current: int) {
    forall p :: (Degree(side, p) + Degree(rem, p) + Ends(p, start, current)) % 2 == 0
  }

  lemma SameParity(x: nat, y: nat, k: nat)
    requires x == y + 2 * k
    ensures x % 2 == y % 2
  {
  }

  lemma StepParity(side: Graph, rem: Graph, rem': Graph, start: int, current: int, next: int)
    requires Taken(rem, rem', current, next) && InStep(side, rem, start, current)
    ensures InStep(side, rem', start, next)
  {
    forall p ensures (Degree(side, p) + Degree(rem', p) + Ends(p, start, next)) % 2 == 0 {
      StepParityAt(side, rem, rem', start, current, next, p);
    }
  }

  lemma StepParityAt(side: Graph, rem: Graph, rem': Graph, start: int, current: int, next: int, p: int)
    requires Degree(rem, p) == Degree(rem', p) + Ends(p, current, next)
    requires (Degree(side, p) + Degree(rem, p) + Ends(p, start, current)) % 2 == 0
    ensures (Degree(side, p) + Degree(rem', p) + Ends(p, start, next)) % 2 == 0
  {
    var x := Degree(side, p) + Degree(rem, p) + Ends(p, start, current);
    var y := Degree(side, p) + Degree(rem', p) + Ends(p, start, next);
    SameParity(x, y, if p == current then 1 else 0);
  }

  lemma UsesSnoc(loop: seq<int>, next: int, a: int, b: int)
    requires |loop| > 0
    ensures Uses(loop + [next], a, b)
         == Uses(loop, a, b) + Along(loop[|loop|-1], next, a, b) + Along(next, loop[|loop|-1], a, b)
  {
    assert (loop + [next])[..|loop|] == loop;
  }

  /** The sides walked so far and the sides that remain make up the graph. */
  ghost predicate Split(side: Graph, rem: Graph, loops: seq<seq<int>>, loop: seq<int>) {
    forall a, b :: Count(side, a, b) == Count(rem, a, b) + UsesAll(loops, a, b) + Uses(loop, a, b)
  }

  lemma StepSplit(side: Graph, rem: Graph, loops: seq<seq<int>>, loop: seq<int>)
    requires |loop| > 0 && Undirected(rem) && Degree(rem, loop[|loop|-1]) > 0 && Split(side, rem, loops, loop)
    ensures var current := loop[|loop|-1]; var next := NextPoint(rem, current);
            Split(side, StepGraph(rem, current), loops, loop + [next])
  {
    var current := loop[|loop|-1];
    var next := NextPoint(rem, current);
    StepCounts(rem, current);
    forall a, b
      ensures Count(side, a, b)
          == Count(StepGraph(rem, current), a, b) + UsesAll(loops, a, b) + Uses(loop + [next], a, b)
    {
      UsesSnoc(loop, next, a, b);
    }
  }

  ghost predicate Measures(size: multiset<(int, int)>, g: Graph) {
    forall a, b :: size[(a, b)] == Count(g, a, b)
  }

  /** One step on the dict, as the loop body does it. */
  method TakeStep(g: Graph, current: int) returns (g': Graph, next: int)
    requires Undirected(g) && Degree(g, current) > 0
    ensures g' == StepGraph(g, current) && next == NextPoint(g, current)
  {
    var options := g[current];
    next := options[|options|-1];
    g' := Put(g, current, options[..|options|-1]);
    if next in g' && current in g'[next] {
      g' := Put(g', next, RemoveOne(g'[next], current));
    }
  }

  /** The state of a walk from `start` that has reached the end of `loop`. */
  ghost predicate Walking(
    side: Graph, rem: Graph, start: int, loops: seq<seq<int>>, loop: seq<int>, left: multiset<(int, int)>)
  {
    && |loop| > 0 && loop[0] == start
    && Undirected(rem) && Split(side, rem, loops, loop) && InStep(side, rem, start, loop[|loop|-1])
    && Measures(left, rem)
  }

  lemma WalkStarts(side: Graph, rem: Graph, start: int, loops: seq<seq<int>>, size: multiset<(int, int)>)
    requires Undirected(rem) && Measures(size, rem) && Split(side, rem, loops, []) && InStep(side, rem, start, start)
    ensures Walking(side, rem, start, loops, [start], size)
  {
    assert forall a, b :: Uses([start], a, b) == 0 == Uses([], a, b);
  }

  lemma WalkStep(side: Graph, rem: Graph, start: int, loops: seq<seq<int>>, loop: seq<int>, left: multiset<(int, int)>)
    returns (now: multiset<(int, int)>)
    requires Walking(side, rem, start, loops, loop, left) && Degree(rem, loop[|loop|-1]) > 0
    ensures var current := loop[|loop|-1];
            Walking(side, StepGraph(rem, current), start, loops, loop + [NextPoint(rem, current)], now)
                && |now| < |left|
  {
    var current := loop[|loop|-1];
    var next, rem' := NextPoint(rem, current), StepGraph(rem, current);
    StepCounts(rem, current);
    StepSplit(side, rem, loops, loop);
    StepParity(side, rem, rem', start, current, next);
    now := SidesOf(rem');
    forall a, b ensures left[(a, b)] == now[(a, b)] + Along(current, next, a, b) + Along(next, current, a, b) {
      assert Count(rem, a, b) == Count(rem', a, b) + Along(current, next, a, b) + Along(next, current, a, b);
    }
    Shrinks(left, now, current, next);
  }

  lemma StuckIsOdd(side: Graph, rem: Graph, start: int, current: int)
    requires InStep(side, rem, start, current) && Degree(rem, current) == 0 && current != start
    ensures !AllEven(side)
  {
    assert (Degree(side, current) + Degree(rem, current) + Ends(current, start, current)) % 2 == 0;
    assert Degree(side, current) % 2 == 1;
  }

  /** The first step can always be taken. */
  lemma NewStart(remaining: Graph, start: int, rem: Graph, loop: seq<int>)
    requires Undirected(remaining) && start in remaining && |loop| > 0 && (|loop| == 1 ==> rem == remaining)
    ensures |loop| == 1 ==> start in rem && rem[start] != []
  {
  }

  /** The inner loop: from `start` along the remaining sides back to `start`. */
  method Walk(side: Graph, remaining: Graph, start: int, ghost loops: seq<seq<int>>, ghost size: multiset<(int, int)>)
    returns (r: Result<seq<int>>, rem: Graph, ghost left: multiset<(int, int)>)
    requires Undirected(remaining) && start in remaining && Measures(size, remaining)
    requires Split(side, remaining, loops, []) && InStep(side, remaining, start, start)
    ensures r.Error? ==> !AllEven(side)
    ensures r.Ok? ==> Closed(r.value) && Undirected(rem) && InStep(side, rem, start, start)
    ensures r.Ok? ==> Split(side, rem, loops, r.value) && Measures(left, rem) && |left| < |size|
  {
    var loop := [start];
    rem, left := remaining, size;
    WalkStarts(side, remaining, start, loops, size);
    var current := start;
    var open := true;
    while open
      invariant Walking(side, rem, start, loops, loop, left)
      invariant current == loop[|loop|-1] && (open <==> current != start || |loop| == 1)
      invariant |loop| == 1 ==> rem == remaining && left == size
      invariant |loop| > 1 ==> |left| < |size|
      decreases open, |left|
    {
      if current !in rem || rem[current] == [] {
        NewStart(remaining, start, rem, loop);
        StuckIsOdd(side, rem, start, current);
        return Error, rem, left;
      }
      left := WalkStep(side, rem, start, loops, loop, left);
      var next;
      rem, next := TakeStep(rem, current);
      loop := loop + [next];
      current := next;
      open := next != start;
    }
    return Ok(loop), rem, left;
  }

  /** _loops(): it closes every walk exactly when every point has even degree, and
      then the loops use every side exactly once. */
  method Loops(side: Graph) returns (r: Result<seq<seq<int>>>)
    requires Undirected(side)
    ensures r.Ok? <==> AllEven(side)
    ensures r.Ok? ==> Covers(r.value, side)
  {
    var remaining := side;
    var loops: seq<seq<int>> := [];
    ghost var size := SidesOf(remaining);
    NoLoopsYet(side);
    while |remaining| != 0
      invariant Undirected(remaining) && Looping(side, remaining, loops) && Measures(size, remaining)
      decreases |size|
    {
      HasKey(remaining);
      var start :| start in remaining;
      SameEnds(side, remaining, start);
      var loop;
      loop, remaining, size := Walk(side, remaining, start, loops, size);
      if loop.Error? { return Error; }
      OneLoopMore(side, remaining, loops, start, loop.value);
      loops := loops + [loop.value];
    }
    AllLooped(side, remaining, loops);
    return Ok(loops);
  }

  ghost predicate SameParities(side: Graph, rem: Graph) {
    forall p :: (Degree(side, p) + Degree(rem, p)) % 2 == 0
  }

  /** The closed loops so far and the sides that remain make up the graph. */
  ghost predicate Looping(side: Graph, rem: Graph, loops: seq<seq<int>>) {
    Split(side, rem, loops, []) && SameParities(side, rem) && forall l <- loops :: Closed(l)
  }

  lemma NoLoopsYet(side: Graph)
    ensures Looping(side, side, [])
  {
  }

  lemma OneLoopMore(side: Graph, rem: Graph, loops: seq<seq<int>>, start: int, loop: seq<int>)
    requires InStep(side, rem, start, start) && Split(side, rem, loops, loop) && Closed(loop)
    requires forall l <- loops :: Closed(l)
    ensures Looping(side, rem, loops + [loop])
  {
    SameEnds(side, rem, start);
    CloseLoop(side, rem, loops, loop);
  }

  lemma AllLooped(side: Graph, rem: Graph, loops: seq<seq<int>>)
    requires Looping(side, rem, loops) && |rem| == 0
    ensures AllEven(side) && Covers(loops, side)
  {
    assert forall a, b :: Uses([], a, b) == 0;
    assert rem == map[];
    forall p ensures Degree(side, p) % 2 == 0 {
      assert Degree(rem, p) == 0;
    }
  }

  lemma SameEnds(side: Graph, rem: Graph, start: int)
    ensures InStep(side, rem, start, start) <==> SameParities(side, rem)
  {
    forall p ensures (Degree(side, p) + Degree(rem, p) + Ends(p, start, start)) % 2
        == (Degree(side, p) + Degree(rem, p)) % 2 {
      SameParity(
        Degree(side, p) + Degree(rem, p) + Ends(p, start, start), Degree(side, p) + Degree(rem, p),
        if p == start then 1 else 0);
    }
  }

  lemma Shrinks(size: multiset<(int, int)>, now: multiset<(int, int)>, current: int, next: int)
    requires forall a, b :: size[(a, b)] == now[(a, b)] + Along(current, next, a, b) + Along(next, current, a, b)
    ensures |now| < |size|
  {
    forall x: (int, int) ensures size[x] == (now + multiset{(current, next), (next, current)})[x] {
      var (a, b) := x;
      assert size[(a, b)] == now[(a, b)] + Along(current, next, a, b) + Along(next, current, a, b);
    }
    assert size == now + multiset{(current, next), (next, current)};
  }

  lemma CloseLoop(side: Graph, rem: Graph, loops: seq<seq<int>>, loop: seq<int>)
    requires Split(side, rem, loops, loop)
    ensures Split(side, rem, loops + [loop], [])
  {
    assert (loops + [loop])[..|loops|] == loops;
    forall a, b ensures UsesAll(loops + [loop], a, b) == UsesAll(loops, a, b) + Uses(loop, a, b) {
    }
  }
}
