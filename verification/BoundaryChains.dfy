/** remesh/simplify.py: the stretches of boundary between fixed points. */
module BoundaryChains {
  import opened FiniteSets
  import opened RegionLoops

  type Step = (int, int)

  predicate Adjacent(g: Graph, u: int, v: int) {
    v in Entries(g, u)
  }

  /** An undirected graph in which no two points are joined twice. */
  ghost predicate Plain(g: Graph) {
    Undirected(g) && forall a, b :: a != b ==> Count(g, a, b) <= 1
  }

  /** Every point that is not fixed has two sides. */
  ghost predicate Ready(g: Graph, fixed: set<int>) {
    Plain(g) && fixed <= g.Keys && forall p <- g :: p !in fixed ==> Degree(g, p) == 2
  }

  predicate Free(g: Graph, fixed: set<int>, p: int) {
    p in g && p !in fixed
  }

  lemma AdjacentBothWays(g: Graph, u: int, v: int)
    requires Plain(g)
    ensures Adjacent(g, u, v) <==> Adjacent(g, v, u)
    ensures Adjacent(g, u, v) ==> u in g && v in g
  {
    assert Count(g, u, v) == Count(g, v, u);
    assert Adjacent(g, u, v) <==> Count(g, u, v) > 0;
    assert Adjacent(g, v, u) <==> Count(g, v, u) > 0;
  }

  /** `[n for n in neighbours[current] if n != previous]` */
  function Without(s: seq<int>, x: int): (r: seq<int>)
    ensures forall y :: y in r <==> y in s && y != x
    ensures |r| <= |s|
  {
    if s == [] then [] else if s[0] == x then Without(s[1..], x) else [s[0]] + Without(s[1..], x)
  }

  /** A free point that has been entered from another one has two different
      neighbours, and neither is the point itself. */
  lemma TwoWays(g: Graph, fixed: set<int>, p: int, from: int)
    requires Ready(g, fixed) && Free(g, fixed, p) && Adjacent(g, p, from) && p != from
    ensures |g[p]| == 2 && g[p][0] != g[p][1] && g[p][0] != p && g[p][1] != p
    ensures |Without(g[p], from)| == 1
  {
    var s := g[p];
    assert s == Entries(g, p) && |s| == Degree(g, p) == 2;
    assert s == [s[0], s[1]];
    assert multiset(s) == multiset{s[0], s[1]};
    assert Count(g, p, p) % 2 == 0;
    assert Count(g, p, from) <= 1;
    assert s[1..] == [s[1]] && s[1..][1..] == [];
  }

  predicate TurnsBack(c: seq<int>, i: nat)
    requires 0 < i < |c| - 1
  {
    c[i - 1] == c[i + 1]
  }

  /** A walk from a fixed point that passes free points only, never turns back
      and meets no point twice. */
  ghost predicate Trail(g: Graph, fixed: set<int>, c: seq<int>) {
    && |c| >= 2 && c[0] in fixed
    && (forall i :: 0 <= i < |c| - 1 ==> Adjacent(g, c[i], c[i + 1]))
    && (forall i :: 0 < i < |c| - 1 ==> Free(g, fixed, c[i]))
    && (forall i :: 0 < i < |c| - 1 ==> !TurnsBack(c, i))
    && (forall i, j :: 0 < i < j < |c| ==> c[i] != c[j])
  }

  /** A trail that has come to a fixed point. */
  ghost predicate Chain(g: Graph, fixed: set<int>, c: seq<int>) {
    Trail(g, fixed, c) && c[|c| - 1] in fixed
  }

  function Hop(c: seq<int>, i: nat): Step
    requires i < |c| - 1
  {
    (c[i], c[i + 1])
  }

  function Reverse(s: Step): Step {
    (s.1, s.0)
  }

  /** The steps of a walk, in both directions. */
  function Steps(c: seq<int>): set<Step> {
    (set i: nat | i < |c| - 1 :: Hop(c, i)) + (set i: nat | i < |c| - 1 :: Reverse(Hop(c, i)))
  }

  lemma StepsSnoc(c: seq<int>, x: int)
    requires |c| > 0
    ensures Steps(c + [x]) == Steps(c) + {(c[|c| - 1], x), (x, c[|c| - 1])}
  {
    var c' := c + [x];
    assert Hop(c', |c| - 1) == (c[|c| - 1], x);
    forall i: nat | i < |c| - 1 ensures Hop(c', i) == Hop(c, i) {}
    forall s | s in Steps(c) ensures s in Steps(c') {
      var i: nat :| i < |c| - 1 && (s == Hop(c, i) || s == Reverse(Hop(c, i)));
      assert Hop(c', i) == Hop(c, i);
    }
    forall s | s in Steps(c') ensures s in Steps(c) + {(c[|c| - 1], x), (x, c[|c| - 1])} {
      var i: nat :| i < |c'| - 1 && (s == Hop(c', i) || s == Reverse(Hop(c', i)));
      if i < |c| - 1 {
        assert Hop(c', i) == Hop(c, i);
      }
    }
  }

  // ------------------------------------------------- the steps walked so far

  ghost predicate Walked(g: Graph, fixed: set<int>, seen: set<Step>, covered: set<int>, s: Step) {
    Adjacent(g, s.0, s.1) && (s.1, s.0) in seen && (s.1 !in fixed ==> s.1 in covered)
  }

  ghost predicate Done(g: Graph, seen: set<Step>, p: int) {
    forall n :: Adjacent(g, p, n) ==> (p, n) in seen
  }

  /** `covered` holds the free points passed so far; all their sides are seen. */
  ghost predicate Marked(g: Graph, fixed: set<int>, seen: set<Step>, covered: set<int>) {
    && (forall s <- seen :: Walked(g, fixed, seen, covered, s))
    && (forall p <- covered :: Free(g, fixed, p) && Done(g, seen, p))
  }

  ghost predicate Avoids(c: seq<int>, covered: set<int>) {
    forall i :: 0 < i < |c| ==> c[i] !in covered
  }

  lemma NewNeighbour(g: Graph, fixed: set<int>, seen: set<Step>, covered: set<int>, p: int, n: int)
    requires Ready(g, fixed) && Marked(g, fixed, seen, covered) && Adjacent(g, p, n)
    requires p in fixed ==> (p, n) !in seen
    requires p !in fixed ==> p !in covered
    ensures n !in covered
  {
    AdjacentBothWays(g, p, n);
    assert n in covered ==> Done(g, seen, n);
    assert (n, p) in seen ==> Walked(g, fixed, seen, covered, (n, p));
  }

  /** The walk goes on to a point it has not met. */
  lemma Onward(g: Graph, fixed: set<int>, c: seq<int>, next: int)
    requires Ready(g, fixed) && Trail(g, fixed, c) && Free(g, fixed, c[|c| - 1])
    requires Adjacent(g, c[|c| - 1], next) && next != c[|c| - 2] && next != c[|c| - 1]
    ensures Trail(g, fixed, c + [next])
  {
    var c' := c + [next];
    var n := |c|;
    forall i | 0 <= i < n ensures Adjacent(g, c'[i], c'[i + 1]) {
      if i < n - 1 { assert Adjacent(g, c[i], c[i + 1]); }
    }
    forall i | 0 < i < n ensures Free(g, fixed, c'[i]) {}
    forall i | 0 < i < n ensures !TurnsBack(c', i) {
      if i < n - 1 { assert !TurnsBack(c, i); }
    }
    forall j | 0 < j < n ensures c[j] != next {
      if c[j] == next {
        Returning(g, fixed, c, j);
      }
    }
  }

  /** The last point of a trail has no side to an earlier one but the one before. */
  lemma Returning(g: Graph, fixed: set<int>, c: seq<int>, j: nat)
    requires Ready(g, fixed) && Trail(g, fixed, c) && Free(g, fixed, c[|c| - 1])
    requires 0 < j < |c| - 2
    ensures !Adjacent(g, c[|c| - 1], c[j])
  {
    var p, q := c[|c| - 1], c[j];
    AdjacentBothWays(g, p, q);
    AdjacentBothWays(g, c[j - 1], q);
    assert Adjacent(g, q, c[j + 1]) && Adjacent(g, q, c[j - 1]) && !TurnsBack(c, j);
    assert Free(g, fixed, q);
    assert q != c[j + 1];
    TwoWays(g, fixed, q, c[j + 1]);
    assert p != c[j + 1];
    assert p != c[j - 1];
  }

  lemma TrailFits(g: Graph, fixed: set<int>, c: seq<int>)
    requires Ready(g, fixed) && Trail(g, fixed, c)
    ensures |c| <= |g.Keys| + 1
  {
    forall i | 0 < i < |c| ensures c[i] in g {
      assert Adjacent(g, c[i - 1], c[i - 1 + 1]);
      AdjacentBothWays(g, c[i - 1], c[i]);
    }
    DistinctFit(c[1..], g.Keys);
  }

  /** A walk on its way: `current` is still to be appended. */
  ghost predicate Walking(g: Graph, fixed: set<int>, covered: set<int>, chain: seq<int>, current: int) {
    |chain| >= 1 && current in g && Trail(g, fixed, chain + [current]) && Avoids(chain + [current], covered)
  }

  /** A walk that has come to a free point goes on, to a point it has not met. */
  lemma Further(g: Graph, fixed: set<int>, seen: set<Step>, covered: set<int>, chain: seq<int>, current: int)
    requires Ready(g, fixed) && Marked(g, fixed, seen, covered)
    requires Walking(g, fixed, covered, chain, current) && current !in fixed
    ensures var nxt := Without(g[current], chain[|chain| - 1]);
      |nxt| == 1 && Walking(g, fixed, covered, chain + [current], nxt[0])
  {
    var c := chain + [current];
    var n, previous := |chain|, chain[|chain| - 1];
    assert c[n] == current && c[n - 1] == previous;
    assert Adjacent(g, c[n - 1], c[n - 1 + 1]);
    AdjacentBothWays(g, previous, current);
    assert previous != current by {
      assert n > 1 ==> c[n - 1] != c[n];
    }
    TwoWays(g, fixed, current, previous);
    var next := Without(g[current], previous)[0];
    assert next in Without(g[current], previous);
    Onward(g, fixed, c, next);
    NewNeighbour(g, fixed, seen, covered, current, next);
    AdjacentBothWays(g, current, next);
  }

  /** The inner loop of _chains(): from a fixed point to the next one. */
  method WalkChain(g: Graph, fixed: set<int>, start: int, first: int, seen0: set<Step>, ghost covered: set<int>)
    returns (chain: seq<int>, seen: set<Step>)
    requires Ready(g, fixed) && Marked(g, fixed, seen0, covered)
    requires start in fixed && Adjacent(g, start, first) && (start, first) !in seen0
    ensures Chain(g, fixed, chain) && chain[0] == start && chain[1] == first && Avoids(chain, covered)
    ensures seen == seen0 + Steps(chain)
  {
    chain, seen := [start], seen0;
    var previous, current := start, first;
    NewNeighbour(g, fixed, seen0, covered, start, first);
    AdjacentBothWays(g, start, first);
    while true
      invariant Walking(g, fixed, covered, chain, current)
      invariant chain[0] == start && previous == chain[|chain| - 1] && (chain + [current])[1] == first
      invariant seen == seen0 + Steps(chain)
      decreases |g.Keys| + 1 - |chain|
    {
      TrailFits(g, fixed, chain + [current]);
      StepsSnoc(chain, current);
      if current !in fixed {
        Further(g, fixed, seen0, covered, chain, current);
      }
      seen := seen + {(previous, current), (current, previous)};
      chain := chain + [current];
      if current in fixed {
        return;
      }
      var nxt := Without(g[current], previous);
      if |nxt| != 1 {
        assert false;
      }
      previous, current := current, nxt[0];
    }
  }

  // ------------------------------------------------------------- all chains

  function Interior(c: seq<int>): set<int> {
    set i: nat | 0 < i < |c| - 1 :: c[i]
  }

  lemma AfterWalk(g: Graph, fixed: set<int>, seen: set<Step>, covered: set<int>, c: seq<int>)
    requires Ready(g, fixed) && Marked(g, fixed, seen, covered) && Chain(g, fixed, c)
    ensures Marked(g, fixed, seen + Steps(c), covered + Interior(c))
  {
    var seen', covered' := seen + Steps(c), covered + Interior(c);
    forall s | s in seen' ensures Walked(g, fixed, seen', covered', s) {
      if s in seen {
        assert Walked(g, fixed, seen, covered, s);
      } else {
        ChainSteps(g, fixed, c, s);
      }
    }
    forall p | p in covered' ensures Free(g, fixed, p) && Done(g, seen', p) {
      if p in covered {
        assert Done(g, seen, p);
      } else {
        InteriorDone(g, fixed, c, p);
      }
    }
  }

  lemma ChainSteps(g: Graph, fixed: set<int>, c: seq<int>, s: Step)
    requires Ready(g, fixed) && Chain(g, fixed, c) && s in Steps(c)
    ensures Adjacent(g, s.0, s.1) && (s.1, s.0) in Steps(c) && (s.1 !in fixed ==> s.1 in Interior(c))
  {
    var i: nat :| i < |c| - 1 && (s == Hop(c, i) || s == Reverse(Hop(c, i)));
    assert Adjacent(g, c[i], c[i + 1]);
    AdjacentBothWays(g, c[i], c[i + 1]);
    assert Hop(c, i) in Steps(c) && Reverse(Hop(c, i)) in Steps(c);
    if s.1 !in fixed {
      var j := if s == Hop(c, i) then i + 1 else i;
      assert c[j] == s.1 && 0 < j < |c| - 1;
    }
  }

  lemma InteriorDone(g: Graph, fixed: set<int>, c: seq<int>, p: int)
    requires Ready(g, fixed) && Chain(g, fixed, c) && p in Interior(c)
    ensures Free(g, fixed, p)
    ensures forall n :: Adjacent(g, p, n) ==> (p, n) in Steps(c)
  {
    var i: nat :| 0 < i < |c| - 1 && c[i] == p;
    Beside(g, fixed, c, i);
    assert Hop(c, i) in Steps(c) && Reverse(Hop(c, i - 1)) in Steps(c);
  }

  /** The neighbours of an inner point of a chain are those in the chain. */
  lemma Beside(g: Graph, fixed: set<int>, c: seq<int>, i: nat)
    requires Ready(g, fixed) && Chain(g, fixed, c) && 0 < i < |c| - 1
    ensures c[i] != c[i - 1] && c[i] != c[i + 1] && c[i - 1] != c[i + 1]
    ensures forall n :: Adjacent(g, c[i], n) <==> n == c[i - 1] || n == c[i + 1]
  {
    assert Adjacent(g, c[i - 1], c[i - 1 + 1]) && Adjacent(g, c[i], c[i + 1]);
    AdjacentBothWays(g, c[i - 1], c[i]);
    assert !TurnsBack(c, i) && Free(g, fixed, c[i]);
    assert c[i] != c[i + 1];
    TwoWays(g, fixed, c[i], c[i + 1]);
  }

  /** No side lies twice on a chain with a point inside. */
  lemma ChainsRepeatNoSide(g: Graph, fixed: set<int>, c: seq<int>, i: nat, j: nat)
    requires Ready(g, fixed) && Chain(g, fixed, c) && |c| > 2 && i < j < |c| - 1
    ensures Hop(c, i) != Hop(c, j) && Hop(c, i) != Reverse(Hop(c, j))
  {
    if 0 < i {
      Beside(g, fixed, c, i);
    } else {
      Beside(g, fixed, c, 1);
    }
  }

  ghost predicate Inside(chains: seq<seq<int>>, p: int) {
    exists k: nat :: k < |chains| && p in Interior(chains[k])
  }

  /** The chains found so far have inner points, no two share one, and together
      they hold the covered points. */
  ghost predicate Found(g: Graph, fixed: set<int>, chains: seq<seq<int>>, covered: set<int>) {
    && (forall c <- chains :: Chain(g, fixed, c) && |c| > 2)
    && (forall k: nat, l: nat :: k < l < |chains| ==> Interior(chains[k]) !! Interior(chains[l]))
    && (forall k: nat :: k < |chains| ==> Interior(chains[k]) <= covered)
    && (forall p <- covered :: Inside(chains, p))
  }

  /** Whatever is next to a fixed or covered point is fixed or covered. */
  ghost predicate Swept(g: Graph, fixed: set<int>, covered: set<int>) {
    && (forall p <- covered :: Free(g, fixed, p))
    && forall p, n :: Adjacent(g, p, n) && (p in fixed || p in covered) ==> n in fixed || n in covered
  }

  ghost predicate AllChains(g: Graph, fixed: set<int>, chains: seq<seq<int>>) {
    exists covered :: Found(g, fixed, chains, covered) && Swept(g, fixed, covered)
  }

  lemma FoundMore(g: Graph, fixed: set<int>, chains: seq<seq<int>>, covered: set<int>, c: seq<int>)
    requires Found(g, fixed, chains, covered) && Chain(g, fixed, c) && |c| > 2 && Avoids(c, covered)
    ensures Found(g, fixed, chains + [c], covered + Interior(c))
  {
    var chains' := chains + [c];
    assert Interior(c) !! covered;
    forall p | p in covered + Interior(c) ensures Inside(chains', p) {
      if p in covered {
        var k: nat :| k < |chains| && p in Interior(chains[k]);
        assert p in Interior(chains'[k]);
      } else {
        assert p in Interior(chains'[|chains|]);
      }
    }
  }

  ghost predicate AllSeen(g: Graph, seen: set<Step>, ps: set<int>) {
    forall p <- ps :: Done(g, seen, p)
  }

  lemma SeenGrows(g: Graph, seen: set<Step>, seen': set<Step>, ps: set<int>, p: int)
    requires AllSeen(g, seen, ps) && seen <= seen' && Done(g, seen', p)
    ensures AllSeen(g, seen', ps + {p})
  {
    forall q <- ps ensures Done(g, seen', q) {
      assert Done(g, seen, q);
    }
  }

  lemma SweptAtEnd(g: Graph, fixed: set<int>, seen: set<Step>, covered: set<int>)
    requires Marked(g, fixed, seen, covered) && AllSeen(g, seen, fixed)
    ensures Swept(g, fixed, covered)
  {
    forall p, n | Adjacent(g, p, n) && (p in fixed || p in covered) ensures n in fixed || n in covered {
      assert Done(g, seen, p);
      assert Walked(g, fixed, seen, covered, (p, n));
    }
  }

  predicate IsLeast(s: set<int>, m: int) {
    m in s && forall x <- s :: m <= x
  }

  lemma {:induction false} HasLeast(s: set<int>)
    requires s != {}
    ensures exists m :: IsLeast(s, m)
  {
    HasMember(s);
    var x :| x in s;
    if s == {x} {
      assert IsLeast(s, x);
    } else {
      HasLeast(s - {x});
      var m :| IsLeast(s - {x}, m);
      assert s == (s - {x}) + {x};
      assert IsLeast(s, if m < x then m else x);
    }
  }

  /** The head of the sorted list. */
  function Least(s: set<int>): (m: int)
    requires s != {}
    ensures IsLeast(s, m)
  {
    HasLeast(s);
    var m :| m in s && IsLeast(s, m);
    m
  }

  /** Where chains are cut: at the fixed points, or else at the least point. */
  function Cuts(g: Graph, fixed: set<int>): set<int> {
    if fixed != {} || g.Keys == {} then fixed else {Least(g.Keys)}
  }

  /** _chains(). */
  method Chains(g: Graph, fixed0: set<int>) returns (chains: seq<seq<int>>, ghost covered: set<int>)
    requires Ready(g, fixed0)
    ensures Ready(g, Cuts(g, fixed0))
    ensures Found(g, Cuts(g, fixed0), chains, covered) && Swept(g, Cuts(g, fixed0), covered)
    ensures AllChains(g, Cuts(g, fixed0), chains)
  {
    var fixed := Cuts(g, fixed0);
    chains, covered := [], {};
    var seen: set<Step> := {};
    var starts := fixed;
    while starts != {}
      invariant starts <= fixed
      invariant Progress(g, fixed, chains, seen, covered)
      invariant AllSeen(g, seen, fixed - starts)
      decreases starts
    {
      var start := Least(starts);
      ghost var before := seen;
      chains, seen, covered := ChainsFrom(g, fixed, start, chains, seen, covered);
      SeenGrows(g, before, seen, fixed - starts, start);
      starts := starts - {start};
      assert fixed - starts <= fixed - (starts + {start}) + {start};
    }
    SweptAtEnd(g, fixed, seen, covered);
  }

  ghost predicate Progress(g: Graph, fixed: set<int>, chains: seq<seq<int>>, seen: set<Step>, covered: set<int>) {
    Marked(g, fixed, seen, covered) && Found(g, fixed, chains, covered)
  }

  /** The body of the loop over the starting points. */
  method ChainsFrom(
    g: Graph, fixed: set<int>, start: int, chains0: seq<seq<int>>, seen0: set<Step>, ghost covered0: set<int>)
    returns (chains: seq<seq<int>>, seen: set<Step>, ghost covered: set<int>)
    requires Ready(g, fixed) && start in fixed && Progress(g, fixed, chains0, seen0, covered0)
    ensures Progress(g, fixed, chains, seen, covered)
    ensures seen0 <= seen && Done(g, seen, start)
  {
    chains, seen, covered := chains0, seen0, covered0;
    for j := 0 to |g[start]|
      invariant Progress(g, fixed, chains, seen, covered)
      invariant seen0 <= seen && SeenFrom(g, seen, start, j)
    {
      ghost var before := seen;
      chains, seen, covered := ChainVia(g, fixed, start, g[start][j], chains, seen, covered);
      SeenOneMore(g, before, seen, start, j);
    }
    SeenAll(g, seen, start);
  }

  /** The first j sides of a point are seen. */
  ghost predicate SeenFrom(g: Graph, seen: set<Step>, start: int, j: nat) {
    start in g && j <= |g[start]| && forall i: nat :: i < j ==> (start, g[start][i]) in seen
  }

  lemma SeenOneMore(g: Graph, seen: set<Step>, seen': set<Step>, start: int, j: nat)
    requires SeenFrom(g, seen, start, j) && j < |g[start]| && seen <= seen' && (start, g[start][j]) in seen'
    ensures SeenFrom(g, seen', start, j + 1)
  {
  }

  lemma SeenAll(g: Graph, seen: set<Step>, start: int)
    requires start in g && SeenFrom(g, seen, start, |g[start]|)
    ensures Done(g, seen, start)
  {
  }

  method ChainVia(
    g: Graph, fixed: set<int>, start: int, first: int, chains0: seq<seq<int>>, seen0: set<Step>,
    ghost covered0: set<int>)
    returns (chains: seq<seq<int>>, seen: set<Step>, ghost covered: set<int>)
    requires Ready(g, fixed) && start in fixed && Adjacent(g, start, first)
    requires Progress(g, fixed, chains0, seen0, covered0)
    ensures Progress(g, fixed, chains, seen, covered)
    ensures seen0 <= seen && (start, first) in seen
  {
    chains, seen, covered := chains0, seen0, covered0;
    if (start, first) in seen { return; }
    var chain;
    chain, seen := WalkChain(g, fixed, start, first, seen, covered);
    assert Hop(chain, 0) in Steps(chain);
    AfterWalk(g, fixed, seen0, covered, chain);
    if |chain| > 2 {
      FoundMore(g, fixed, chains, covered, chain);
      chains := chains + [chain];
    } else {
      assert Interior(chain) == {};
    }
    covered := covered + Interior(chain);
  }
}
