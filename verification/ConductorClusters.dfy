/** devsim/electrodes.py: conductor_clusters() finds the connected pieces of metal. */
module ConductorClusters {
  import opened FiniteSets
  import opened StrModel

  predicate IsConductor(s: Structure, metals: set<int>, i: nat)
    requires i < |s.elements|
  {
    var region := s.elements[i].regionId;
    region in MaterialOf(s.regions) && MaterialOf(s.regions)[region] in metals
  }

  /** Every neighbour code that is no boundary code names an element. */
  predicate Addressed(s: Structure) {
    forall e <- s.elements, n <- e.neighbors :: n < |s.elements|
  }

  /** b is listed as a neighbour of a, and both conduct. */
  predicate Linked(s: Structure, metals: set<int>, a: nat, b: nat) {
    && a < |s.elements| && b < |s.elements|
    && IsConductor(s, metals, a) && IsConductor(s, metals, b) && b in s.elements[a].neighbors
  }

  /** An element conducts exactly if its region has a metal as material, and is
      linked to the conductors its neighbour slots name. */
  lemma LinkedMeans(s: Structure, metals: set<int>, a: nat, b: nat)
    ensures a < |s.elements| ==> (IsConductor(s, metals, a) <==>
      exists k: nat :: LastRegion(s.regions, k, s.elements[a].regionId) && s.regions[k].materialId in metals)
    ensures Linked(s, metals, a, b) <==>
      a < |s.elements| && b < |s.elements| && IsConductor(s, metals, a) && IsConductor(s, metals, b)
      && exists i :: 0 <= i < |s.elements[a].neighbors| && s.elements[a].neighbors[i] == b
  {
    if a < |s.elements| {
      MaterialOfIs(s.regions, s.elements[a].regionId);
    }
  }

  ghost predicate Symmetric(s: Structure, metals: set<int>) {
    forall a: nat, b: nat :: Linked(s, metals, a, b) ==> Linked(s, metals, b, a)
  }

  ghost predicate Path(s: Structure, metals: set<int>, a: nat, b: nat, p: seq<nat>) {
    && |p| > 0 && p[0] == a && p[|p| - 1] == b && a < |s.elements| && IsConductor(s, metals, a)
    && forall i :: 0 <= i < |p| - 1 ==> Linked(s, metals, p[i], p[i + 1])
  }

  /** A path of conductor elements leads from a to b. */
  ghost predicate Joined(s: Structure, metals: set<int>, a: nat, b: nat) {
    exists p :: Path(s, metals, a, b, p)
  }

  lemma JoinedItself(s: Structure, metals: set<int>, a: nat)
    requires a < |s.elements| && IsConductor(s, metals, a)
    ensures Joined(s, metals, a, a)
  {
    assert Path(s, metals, a, a, [a]);
  }

  lemma JoinedOn(s: Structure, metals: set<int>, a: nat, b: nat, c: nat)
    requires Joined(s, metals, a, b) && Linked(s, metals, b, c)
    ensures Joined(s, metals, a, c)
  {
    var p :| Path(s, metals, a, b, p);
    var q := p + [c];
    forall i | 0 <= i < |q| - 1 ensures Linked(s, metals, q[i], q[i + 1]) {
      assert i < |p| - 1 ==> Linked(s, metals, p[i], p[i + 1]);
    }
    assert Path(s, metals, a, c, q);
  }

  lemma {:induction false} JoinedJoins(s: Structure, metals: set<int>, a: nat, b: nat, c: nat, q: seq<nat>)
    requires Joined(s, metals, a, b) && Path(s, metals, b, c, q)
    ensures Joined(s, metals, a, c)
    decreases |q|
  {
    if |q| > 1 {
      var r := q[..|q| - 1];
      forall i | 0 <= i < |r| - 1 ensures Linked(s, metals, r[i], r[i + 1]) {
        assert Linked(s, metals, q[i], q[i + 1]);
      }
      JoinedJoins(s, metals, a, b, r[|r| - 1], r);
      assert Linked(s, metals, q[|q| - 2], q[|q| - 2 + 1]);
      JoinedOn(s, metals, a, r[|r| - 1], c);
    }
  }

  lemma {:induction false} JoinedBack(s: Structure, metals: set<int>, a: nat, b: nat, p: seq<nat>)
    requires Symmetric(s, metals) && Path(s, metals, a, b, p)
    ensures Joined(s, metals, b, a)
    decreases |p|
  {
    if |p| == 1 {
      JoinedItself(s, metals, a);
    } else {
      var r := p[..|p| - 1];
      forall i | 0 <= i < |r| - 1 ensures Linked(s, metals, r[i], r[i + 1]) {
        assert Linked(s, metals, p[i], p[i + 1]);
      }
      var x := r[|r| - 1];
      JoinedBack(s, metals, a, x, r);
      assert Linked(s, metals, p[|p| - 2], p[|p| - 2 + 1]);
      assert Linked(s, metals, b, x);
      JoinedItself(s, metals, b);
      JoinedOn(s, metals, b, b, x);
      var q :| Path(s, metals, x, a, q);
      JoinedJoins(s, metals, b, x, a, q);
    }
  }

  // ------------------------------------------------------------------ one piece

  function Members(c: seq<nat>): set<nat> {
    set i | i in c
  }

  predicate Distinct(c: seq<nat>) {
    forall i, j :: 0 <= i < j < |c| ==> c[i] != c[j]
  }

  lemma DistinctBelow(c: seq<nat>, n: nat)
    requires Distinct(c) && forall i <- c :: i < n
    ensures |c| <= n
  {
    forall i | 0 <= i < |c| ensures c[i] in Below(n) { assert c[i] in c; }
    DistinctFit(c, Below(n));
  }

  /** Everything a conductor in `from` is linked to is in `into`. */
  ghost predicate Leads(s: Structure, metals: set<int>, from: set<nat>, into: set<nat>) {
    forall a: nat, b: nat :: a in from && Linked(s, metals, a, b) ==> b in into
  }

  /** The flags mark exactly the elements of the set. */
  ghost predicate Flags(seen: array<bool>, marked: set<nat>)
    reads seen
  {
    (forall i: nat :: i < seen.Length ==> (seen[i] <==> i in marked)) && forall i <- marked :: i < seen.Length
  }

  /** Work in progress: `before` was marked before, the group is finished, and the
      queue is marked and still to be looked at. */
  ghost predicate Flooding(
    s: Structure, metals: set<int>, start: nat, before: set<nat>, group: seq<nat>, queue: seq<nat>)
  {
    && Distinct(group + queue) && (forall i <- group + queue :: Reached(s, metals, start, before, i))
    && Leads(s, metals, Members(group), before + Members(group) + Members(queue))
  }

  ghost predicate Reached(s: Structure, metals: set<int>, start: nat, before: set<nat>, i: nat) {
    && i < |s.elements| && IsConductor(s, metals, i) && i !in before && Joined(s, metals, start, i)
  }

  /** The state inside the loop over the neighbours of `index`: those before k are marked. */
  ghost predicate Looking(
    s: Structure, metals: set<int>, start: nat, before: set<nat>, group: seq<nat>, queue: seq<nat>, index: nat, k: nat)
    requires index < |s.elements| && k <= |s.elements[index].neighbors|
  {
    && Distinct(group + [index] + queue)
        && (forall i <- group + [index] + queue :: Reached(s, metals, start, before, i))
    && Leads(s, metals, Members(group), before + Members(group + [index] + queue))
    && forall b: nat :: b in s.elements[index].neighbors[..k] && Linked(s, metals, index, b) ==>
        b in before + Members(group + [index] + queue)
  }

  lemma Popped(s: Structure, metals: set<int>, start: nat, before: set<nat>, group: seq<nat>, queue: seq<nat>)
    requires queue != [] && Flooding(s, metals, start, before, group, queue)
    ensures queue[0] < |s.elements| && Looking(s, metals, start, before, group, queue[1..], queue[0], 0)
    ensures Members(group + [queue[0]] + queue[1..]) == Members(group) + Members(queue)
  {
    assert group + [queue[0]] + queue[1..] == group + queue;
    assert queue[0] in group + queue;
  }

  lemma Found(
    s: Structure, metals: set<int>, start: nat, before: set<nat>, group: seq<nat>, queue: seq<nat>, index: nat,
    k: nat, b: nat)
    requires index < |s.elements| && k < |s.elements[index].neighbors| && s.elements[index].neighbors[k] == b
    requires Looking(s, metals, start, before, group, queue, index, k) && Linked(s, metals, index, b)
    requires b !in before && b !in Members(group + [index] + queue)
    ensures Looking(s, metals, start, before, group, queue + [b], index, k + 1)
  {
    var all := group + [index] + queue;
    assert group + [index] + (queue + [b]) == all + [b];
    assert index in all;
    JoinedOn(s, metals, start, index, b);
    assert s.elements[index].neighbors[..k + 1] == s.elements[index].neighbors[..k] + [b];
  }

  lemma Passed(
    s: Structure, metals: set<int>, start: nat, before: set<nat>, group: seq<nat>, queue: seq<nat>, index: nat, k: nat)
    requires index < |s.elements| && k < |s.elements[index].neighbors|
    requires Looking(s, metals, start, before, group, queue, index, k)
    requires var n := s.elements[index].neighbors[k];
      n < 0 || !Linked(s, metals, index, n) || n in before + Members(group + [index] + queue)
    ensures Looking(s, metals, start, before, group, queue, index, k + 1)
  {
    assert s.elements[index].neighbors[..k + 1] == s.elements[index].neighbors[..k] + [s.elements[index].neighbors[k]];
  }

  lemma LookedAll(
    s: Structure, metals: set<int>, start: nat, before: set<nat>, group: seq<nat>, queue: seq<nat>, index: nat)
    requires index < |s.elements|
    requires Looking(s, metals, start, before, group, queue, index, |s.elements[index].neighbors|)
    ensures Flooding(s, metals, start, before, group + [index], queue)
    ensures Members(group + [index]) + Members(queue) == Members(group + [index] + queue)
  {
    var ns := s.elements[index].neighbors;
    assert ns[..|ns|] == ns;
  }

  /** The loop over the neighbours of one element. */
  method Look(s: Structure, metals: set<int>, isConductor: seq<bool>, seen: array<bool>, index: nat, queue0: seq<nat>,
              ghost start: nat, ghost before: set<nat>, ghost group: seq<nat>)
    returns (queue: seq<nat>)
    requires Addressed(s) && index < |s.elements| == seen.Length == |isConductor|
    requires forall i: nat :: i < |s.elements| ==> isConductor[i] == IsConductor(s, metals, i)
    requires Looking(s, metals, start, before, group, queue0, index, 0)
    requires Flags(seen, before + Members(group + [index] + queue0))
    modifies seen
    ensures Flooding(s, metals, start, before, group + [index], queue)
    ensures Flags(seen, before + Members(group + [index]) + Members(queue)) && queue0 <= queue
  {
    queue := queue0;
    var ns := s.elements[index].neighbors;
    assert s.elements[index] in s.elements;
    assert index in group + [index] + queue;
    for k := 0 to |ns|
      invariant Looking(s, metals, start, before, group, queue, index, k)
      invariant Flags(seen, before + Members(group + [index] + queue)) && queue0 <= queue
    {
      var neighbor := ns[k];
      assert neighbor in ns;
      if neighbor < 0 || seen[neighbor] || !isConductor[neighbor] {
        Passed(s, metals, start, before, group, queue, index, k);
        continue;
      }
      assert index in group + [index] + queue;
      Found(s, metals, start, before, group, queue, index, k, neighbor);
      assert Members(group + [index] + (queue + [neighbor])) == Members(group + [index] + queue) + {neighbor};
      seen[neighbor] := true;
      queue := queue + [neighbor];
    }
    LookedAll(s, metals, start, before, group, queue, index);
  }

  /** The inner loop: everything that can be reached from `start` past what was
      marked before. */
  method Flood(
    s: Structure, metals: set<int>, isConductor: seq<bool>, seen: array<bool>, start: nat, ghost before: set<nat>)
    returns (group: seq<nat>)
    requires Addressed(s) && start < |s.elements| == seen.Length == |isConductor|
    requires forall i: nat :: i < |s.elements| ==> isConductor[i] == IsConductor(s, metals, i)
    requires Flags(seen, before) && IsConductor(s, metals, start) && start !in before
    modifies seen
    ensures Flooding(s, metals, start, before, group, []) && start in group
    ensures Flags(seen, before + Members(group))
  {
    group := [];
    var queue := [start];
    seen[start] := true;
    JoinedItself(s, metals, start);
    assert group + queue == [start];
    while queue != []
      invariant Flooding(s, metals, start, before, group, queue) && start in group + queue
      invariant Flags(seen, before + Members(group) + Members(queue))
      decreases |s.elements| - |group|
    {
      var index := queue[0];
      Popped(s, metals, start, before, group, queue);
      DistinctBelow(group + queue, |s.elements|);
      var rest := Look(s, metals, isConductor, seen, index, queue[1..], start, before, group);
      assert group + queue == group + [index] + queue[1..];
      group := group + [index];
      queue := rest;
    }
  }

  // ------------------------------------------------------------------ all pieces

  function Insert(x: nat, c: seq<nat>): seq<nat> {
    if c == [] then [x] else if x <= c[0] then [x] + c else [c[0]] + Insert(x, c[1..])
  }

  /** sorted() */
  function Sorted(c: seq<nat>): seq<nat> {
    if c == [] then [] else Insert(c[0], Sorted(c[1..]))
  }

  predicate Rising(c: seq<nat>) {
    forall i, j :: 0 <= i < j < |c| ==> c[i] < c[j]
  }

  lemma {:induction false} InsertIs(x: nat, c: seq<nat>)
    requires Rising(c) && x !in c
    ensures Rising(Insert(x, c)) && forall y :: y in Insert(x, c) <==> y == x || y in c
  {
    if c != [] && x > c[0] {
      InsertIs(x, c[1..]);
      var t := Insert(x, c[1..]);
      forall j | 0 <= j < |t| ensures c[0] < t[j] {
        assert t[j] in t;
      }
      assert c == [c[0]] + c[1..];
    }
  }

  lemma {:induction false} SortedIs(c: seq<nat>)
    requires Distinct(c)
    ensures Rising(Sorted(c)) && forall y :: y in Sorted(c) <==> y in c
  {
    if c != [] {
      SortedIs(c[1..]);
      InsertIs(c[0], Sorted(c[1..]));
      assert c == [c[0]] + c[1..];
    }
  }

  /** A cluster is a rising list of conductors, all reached from one of them. */
  ghost predicate Piece(s: Structure, metals: set<int>, c: seq<nat>) {
    Rising(c) && (forall m <- c :: m < |s.elements| && IsConductor(s, metals, m))
        && exists start :: Centre(s, metals, c, start)
  }

  ghost predicate Centre(s: Structure, metals: set<int>, c: seq<nat>, start: nat) {
    start in c && forall m <- c :: Joined(s, metals, start, m)
  }

  ghost predicate Held(clusters: seq<seq<nat>>, i: nat) {
    exists k: nat :: k < |clusters| && i in clusters[k]
  }

  ghost predicate Disjoint(clusters: seq<seq<nat>>) {
    forall k: nat, l: nat :: k < l < |clusters| ==> Members(clusters[k]) !! Members(clusters[l])
  }

  ghost predicate Pieces(s: Structure, metals: set<int>, clusters: seq<seq<nat>>, marked: set<nat>) {
    forall k: nat :: k < |clusters| ==> Piece(s, metals, clusters[k]) && Members(clusters[k]) <= marked
  }

  /** Every conductor is in exactly one cluster, and nothing else is in any. */
  ghost predicate Partition(s: Structure, metals: set<int>, clusters: seq<seq<nat>>) {
    && (forall k: nat :: k < |clusters| ==> Piece(s, metals, clusters[k]))
    && Disjoint(clusters)
    && (forall i: nat :: i < |s.elements| ==> (Held(clusters, i) <==> IsConductor(s, metals, i)))
  }

  ghost predicate Sealed(s: Structure, metals: set<int>, clusters: seq<seq<nat>>) {
    forall k: nat :: k < |clusters| ==> Leads(s, metals, Members(clusters[k]), Members(clusters[k]))
  }

  /** The state of the outer loop at element i. */
  ghost predicate Settled(s: Structure, metals: set<int>, clusters: seq<seq<nat>>, marked: set<nat>, i: nat) {
    && Pieces(s, metals, clusters, marked)
    && Disjoint(clusters)
    && (forall m <- marked :: Held(clusters, m))
    && (forall j: nat :: j < i && j < |s.elements| && IsConductor(s, metals, j) ==> j in marked)
    && (Symmetric(s, metals) ==> Sealed(s, metals, clusters))
  }

  lemma NewPiece(s: Structure, metals: set<int>, start: nat, before: set<nat>, group: seq<nat>)
    requires Flooding(s, metals, start, before, group, []) && start in group
    ensures Piece(s, metals, Sorted(group)) && Members(Sorted(group)) == Members(group) && Members(group) !! before
  {
    assert group + [] == group;
    SortedIs(group);
    forall m <- Sorted(group) ensures m < |s.elements| && IsConductor(s, metals, m) && Joined(s, metals, start, m) {
      assert m in group + [];
      assert Reached(s, metals, start, before, m);
    }
    forall m <- group ensures m !in before {
      assert m in group + [];
      assert Reached(s, metals, start, before, m);
    }
    assert Centre(s, metals, Sorted(group), start);
  }

  lemma NewSealed(
    s: Structure, metals: set<int>, clusters: seq<seq<nat>>, start: nat, before: set<nat>, group: seq<nat>)
    requires Symmetric(s, metals) && Sealed(s, metals, clusters)
    requires Flooding(s, metals, start, before, group, []) && Members(group) !! before
    requires (forall m <- before :: Held(clusters, m))
    requires forall k: nat :: k < |clusters| ==> Members(clusters[k]) <= before
    ensures Leads(s, metals, Members(group), Members(group))
  {
    forall a: nat, b: nat | a in Members(group) && Linked(s, metals, a, b) ensures b in Members(group) {
      assert b in before ==> Held(clusters, b);
    }
  }

  lemma SettledMore(s: Structure, metals: set<int>, clusters: seq<seq<nat>>, before: set<nat>, i: nat, group: seq<nat>)
    requires Settled(s, metals, clusters, before, i)
    requires Flooding(s, metals, i, before, group, []) && i in group
    ensures Settled(s, metals, clusters + [Sorted(group)], before + Members(group), i + 1)
  {
    NewPiece(s, metals, i, before, group);
    HeldMore(clusters, before, group);
    PiecesMore(s, metals, clusters, before, Sorted(group));
    if Symmetric(s, metals) {
      NewSealed(s, metals, clusters, i, before, group);
      SealedMore(s, metals, clusters, group);
    }
  }

  lemma PiecesMore(s: Structure, metals: set<int>, clusters: seq<seq<nat>>, before: set<nat>, c: seq<nat>)
    requires Pieces(s, metals, clusters, before) && Disjoint(clusters)
    requires Piece(s, metals, c) && Members(c) !! before
    ensures Pieces(s, metals, clusters + [c], before + Members(c)) && Disjoint(clusters + [c])
  {
  }

  lemma SealedMore(s: Structure, metals: set<int>, clusters: seq<seq<nat>>, group: seq<nat>)
    requires Sealed(s, metals, clusters) && Leads(s, metals, Members(group), Members(group))
    requires Members(Sorted(group)) == Members(group)
    ensures Sealed(s, metals, clusters + [Sorted(group)])
  {
  }

  lemma HeldMore(clusters: seq<seq<nat>>, before: set<nat>, group: seq<nat>)
    requires (forall m <- before :: Held(clusters, m)) && Members(Sorted(group)) == Members(group)
    ensures forall m <- before + Members(group) :: Held(clusters + [Sorted(group)], m)
  {
    var clusters' := clusters + [Sorted(group)];
    forall m <- before + Members(group) ensures Held(clusters', m) {
      if m in before {
        var k: nat :| k < |clusters| && m in clusters[k];
        assert m in clusters'[k];
      } else {
        assert m in Members(Sorted(group));
        assert m in clusters'[|clusters|];
      }
    }
  }

  /** conductor_clusters(): the conductors fall into pieces, one cluster each; and
      if neighbours list each other, two conductors share a cluster exactly when a
      conductor path joins them. */
  method Clusters(s: Structure, metals: set<int>) returns (clusters: seq<seq<nat>>)
    requires Addressed(s)
    ensures Partition(s, metals, clusters)
    ensures Symmetric(s, metals) ==> Sealed(s, metals, clusters)
  {
    var n := |s.elements|;
    var isConductor := seq(n, i requires 0 <= i < n => IsConductor(s, metals, i));
    var seen := new bool[n](_ => false);
    clusters := [];
    ghost var marked: set<nat> := {};
    for start := 0 to n
      invariant Settled(s, metals, clusters, marked, start) && Flags(seen, marked)
    {
      if seen[start] || !isConductor[start] {
        continue;
      }
      var group := Flood(s, metals, isConductor, seen, start, marked);
      SettledMore(s, metals, clusters, marked, start, group);
      clusters := clusters + [Sorted(group)];
      marked := marked + Members(group);
    }
    AtEnd(s, metals, clusters, marked);
  }

  lemma AtEnd(s: Structure, metals: set<int>, clusters: seq<seq<nat>>, marked: set<nat>)
    requires Settled(s, metals, clusters, marked, |s.elements|)
    ensures Partition(s, metals, clusters)
  {
    forall i: nat | i < |s.elements| ensures Held(clusters, i) <==> IsConductor(s, metals, i) {
      if Held(clusters, i) {
        var k: nat :| k < |clusters| && i in clusters[k];
        assert Piece(s, metals, clusters[k]);
      }
    }
  }

  ghost predicate Together(clusters: seq<seq<nat>>, a: nat, b: nat) {
    exists k: nat :: k < |clusters| && a in clusters[k] && b in clusters[k]
  }

  lemma {:induction false} PathStaysIn(s: Structure, metals: set<int>, c: seq<nat>, a: nat, b: nat, p: seq<nat>)
    requires Leads(s, metals, Members(c), Members(c)) && a in c && Path(s, metals, a, b, p)
    ensures b in c
    decreases |p|
  {
    if |p| > 1 {
      var r := p[..|p| - 1];
      forall i | 0 <= i < |r| - 1 ensures Linked(s, metals, r[i], r[i + 1]) {
        assert Linked(s, metals, p[i], p[i + 1]);
      }
      PathStaysIn(s, metals, c, a, r[|r| - 1], r);
      assert Linked(s, metals, p[|p| - 2], p[|p| - 2 + 1]);
      assert r[|r| - 1] in Members(c);
      assert b in Members(c);
    }
  }

  lemma PieceIsJoined(s: Structure, metals: set<int>, c: seq<nat>, a: nat, b: nat)
    requires Symmetric(s, metals) && Piece(s, metals, c) && a in c && b in c
    ensures Joined(s, metals, a, b)
  {
    var start :| Centre(s, metals, c, start);
    var p :| Path(s, metals, start, a, p);
    JoinedBack(s, metals, start, a, p);
    var q :| Path(s, metals, start, b, q);
    JoinedJoins(s, metals, a, start, b, q);
  }

  /** The clusters are the connected components. */
  lemma TogetherMeansJoined(s: Structure, metals: set<int>, clusters: seq<seq<nat>>, a: nat, b: nat)
    requires Symmetric(s, metals) && Partition(s, metals, clusters) && Sealed(s, metals, clusters)
    requires a < |s.elements| && IsConductor(s, metals, a)
    ensures Together(clusters, a, b) <==> Joined(s, metals, a, b)
  {
    if Together(clusters, a, b) {
      var k: nat :| k < |clusters| && a in clusters[k] && b in clusters[k];
      PieceIsJoined(s, metals, clusters[k], a, b);
    }
    if Joined(s, metals, a, b) {
      assert Held(clusters, a);
      var k: nat :| k < |clusters| && a in clusters[k];
      var p :| Path(s, metals, a, b, p);
      PathStaysIn(s, metals, clusters[k], a, b, p);
    }
  }
}
