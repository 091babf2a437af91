/** flip() as a whole: what its loops over the edges and its passes make of a mesh. */
module MeshFlipPasses {
  import opened Folding
  import opened MeshTables
  import opened MeshFlip
  import opened MeshFlipTheorems
  import opened MeshDelaunay
  import opened MeshFlipRuns

  /** flip() gives up after so many passes. */
  const MAX_PASSES := 30

  /** The mesh, the edges marked for the next pass, and the flips made so far. */
  datatype Sweep = Sweep(m: Mesh, todo: seq<bool>, flips: nat)

  /** The mesh at the end, the edges left marked, and the flips of each pass. */
  datatype Run = Run(m: Mesh, todo: seq<bool>, passes: seq<nat>)

  /** The tables agree and edge `it` is there. */
  ghost predicate Ready(s: Sweep, it: int) {
    Sound(s.m) && 0 <= it < |s.todo| == |s.m.edg|
  }

  ghost function TurnEdge(m: Mesh, it: int): (m': Mesh)
    requires Sound(m) && Wanted(m, it)
    ensures Sound(m') && |m'.edg| == |m.edg| && |m'.edg[it].nd| == 2
    ensures Turned(m, m', it, true) && Improved(m, m', 1)
  {
    var t, u := m.edg[it].ele[0], m.edg[it].ele[1];
    assert Joins(m, it, t, u);
    CkFlipNeverRefuses(m, it, t, u);
    FlipPreserves(m, it, t, u);
    FlipLowers(m, it, t, u);
    assert EdgeShaped(Flip(m, it, t, u), Flip(m, it, t, u).edg[it]);
    Flip(m, it, t, u)
  }

  ghost function Marks(m: Mesh, todo: seq<bool>, it: int): (r: seq<bool>)
    requires 0 <= it < |m.edg| == |todo| && |m.edg[it].nd| == 2
    ensures Marked(m, todo, r, it, true)
  {
    seq(|todo|, e requires 0 <= e < |todo| => todo[e] || Touches(m, it, e))
  }

  ghost function Flipped(s: Sweep, it: int): Sweep
    requires Ready(s, it) && Wanted(s.m, it)
  {
    var m' := TurnEdge(s.m, it);
    Sweep(m', Marks(m', s.todo, it), s.flips + 1)
  }

  /** The body of the loop over the edges, on sound tables. */
  ghost function Tried(s: Sweep, done: seq<bool>, it: int): Sweep {
    if Ready(s, it) && it < |done| && !done[it] && Wanted(s.m, it) then Flipped(s, it) else s
  }

  /** The loop over the edges from `it` on. */
  ghost function Swept(s: Sweep, done: seq<bool>, it: int): Sweep {
    Loop((t, k) => Tried(t, done, k), s, it, |done|)
  }

  function NoMarks(n: nat): (todo: seq<bool>)
    ensures |todo| == n && NoneMarked(todo)
  {
    seq(n, _ => false)
  }

  function Others(todo: seq<bool>): (done: seq<bool>)
    ensures |done| == |todo| && forall e :: 0 <= e < |todo| ==> done[e] == !todo[e]
  {
    seq(|todo|, e requires 0 <= e < |todo| => !todo[e])
  }

  ghost function PassOf(m: Mesh, todo: seq<bool>): Sweep {
    Swept(Sweep(m, NoMarks(|todo|), 0), Others(todo), 0)
  }

  /** At most `left` passes, the last one if it changes nothing. */
  ghost function Passes(m: Mesh, todo: seq<bool>, left: nat): Run
    requires left > 0
    decreases left
  {
    var p := PassOf(m, todo);
    if p.flips == 0 || left == 1 then Run(p.m, p.todo, [p.flips])
    else
      var r := Passes(p.m, p.todo, left - 1);
      Run(r.m, r.todo, [p.flips] + r.passes)
  }

  function AllMarked(n: nat): seq<bool> {
    seq(n, _ => true)
  }

  ghost function FlipRun(m: Mesh): Run {
    Passes(m, AllMarked(|m.edg|), MAX_PASSES)
  }

  function Total(passes: seq<nat>): nat {
    if passes == [] then 0 else passes[0] + Total(passes[1..])
  }

  // ---------------------------------------------------------------- one pass

  /** Before edge `it` of a pass that began with mesh m. */
  ghost predicate InPass(m: Mesh, done: seq<bool>, s: Sweep, it: int) {
    && Sound(m) && Sound(s.m) && 0 <= it <= |done| && Cleared(s.m, s.todo, done, it)
    && Improved(m, s.m, s.flips) && if s.flips == 0 then NoneMarked(s.todo) else !AllDelaunay(m)
  }

  lemma FlippedClears(s: Sweep, done: seq<bool>, it: int)
    requires Ready(s, it) && Cleared(s.m, s.todo, done, it) && Wanted(s.m, it)
    ensures var r := Flipped(s, it); Sound(r.m) && Cleared(r.m, r.todo, done, it + 1)
  {
    var m' := TurnEdge(s.m, it);
    ClearedNext(s.m, m', s.todo, Marks(m', s.todo, it), done, it);
  }

  lemma FlippedImproves(m: Mesh, s: Sweep, it: int)
    requires Sound(m) && Ready(s, it) && Wanted(s.m, it) && Improved(m, s.m, s.flips)
    requires s.flips > 0 ==> !AllDelaunay(m)
    ensures var r := Flipped(s, it);
      Sound(r.m) && r.flips == s.flips + 1 && Improved(m, r.m, r.flips) && !AllDelaunay(m)
  {
    ImprovedChain(m, s.m, TurnEdge(s.m, it), s.flips, 1);
    WantedIsNotDelaunay(s.m, it);
  }

  lemma FlippedKeeps(m: Mesh, done: seq<bool>, s: Sweep, it: int)
    requires InPass(m, done, s, it) && it < |done| && Wanted(s.m, it)
    ensures InPass(m, done, Flipped(s, it), it + 1)
  {
    FlippedClears(s, done, it);
    FlippedImproves(m, s, it);
  }

  lemma TriedKeeps(m: Mesh, done: seq<bool>, s: Sweep, it: int)
    requires InPass(m, done, s, it) && it < |done|
    ensures InPass(m, done, Tried(s, done, it), it + 1)
  {
    if done[it] || !Wanted(s.m, it) {
      ClearedSkip(s.m, s.todo, done, it);
    } else {
      FlippedKeeps(m, done, s, it);
    }
  }

  /** Before edge `it` of the pass over the edges marked in mesh m. */
  ghost predicate OnTrack(m: Mesh, todo: seq<bool>, s: Sweep, it: int) {
    Sound(s.m) && |s.todo| == |todo| == |s.m.edg| && Swept(s, Others(todo), it) == PassOf(m, todo)
  }

  lemma OnTrackNext(m: Mesh, todo: seq<bool>, s: Sweep, it: int)
    requires OnTrack(m, todo, s, it) && 0 <= it < |todo|
    ensures OnTrack(m, todo, Tried(s, Others(todo), it), it + 1)
  {
  }

  lemma SweptKeeps(m: Mesh, done: seq<bool>, s: Sweep)
    requires InPass(m, done, s, 0)
    ensures InPass(m, done, Swept(s, done, 0), |done|)
  {
    var step := (t, k) => Tried(t, done, k);
    var inv := (t, k) => InPass(m, done, t, k);
    forall t, k | 0 <= k < |done| && inv(t, k) ensures inv(step(t, k), k + 1) {
      TriedKeeps(m, done, t, k);
    }
    LoopKeeps(step, inv, s, 0, |done|);
  }

  /** A pass flips nothing exactly on a Delaunay mesh, although it looks at marked
      edges only. */
  ghost predicate Passed(m: Mesh, p: Sweep) {
    && Sound(m) && Sound(p.m) && Skippable(p.m, p.todo) && Improved(m, p.m, p.flips)
    && (p.flips == 0 <==> AllDelaunay(m))
  }

  lemma PassDecides(m: Mesh, todo: seq<bool>)
    requires Sound(m) && Skippable(m, todo)
    ensures Passed(m, PassOf(m, todo))
  {
    SweptKeeps(m, Others(todo), Sweep(m, NoMarks(|todo|), 0));
    var p := PassOf(m, todo);
    ClearedAtEnd(p.m, p.todo, Others(todo));
  }

  /** An edge marked during a pass has an end on an edge as the pass turned it. */
  lemma MarkedIsTouched(m: Mesh, todo: seq<bool>, e: int) returns (b: Sweep, k: int)
    requires 0 <= e < |PassOf(m, todo).todo| && PassOf(m, todo).todo[e]
    ensures 0 <= k < |todo| && Ready(b, k) && todo[k] && Wanted(b.m, k)
    ensures 0 <= e < |b.todo| && Touches(TurnEdge(b.m, k), k, e) && Swept(b, Others(todo), k) == PassOf(m, todo)
  {
    var done := Others(todo);
    var step := (t, k) => Tried(t, done, k);
    var marked := (t: Sweep) => 0 <= e < |t.todo| && t.todo[e];
    b, k := LoopTurns(step, marked, Sweep(m, NoMarks(|todo|), 0), 0, |done|);
  }

  // -------------------------------------------------------------- whole runs

  /** Every pass but the last one flipped something, and the last one only if it
      was the last one allowed. */
  predicate Stopped(passes: seq<nat>, left: nat) {
    && 0 < |passes| <= left && (forall i :: 0 <= i < |passes| - 1 ==> passes[i] > 0)
    && (passes[|passes| - 1] > 0 ==> |passes| == left)
  }

  predicate AllFlipped(passes: seq<nat>, left: nat) {
    |passes| == left && forall i :: 0 <= i < left ==> passes[i] > 0
  }

  /** The run that had these passes and goes on from here. */
  ghost function Later(before: seq<nat>, m: Mesh, todo: seq<bool>, left: nat): Run {
    if left == 0 then Run(m, todo, before)
    else
      var r := Passes(m, todo, left);
      Run(r.m, r.todo, before + r.passes)
  }

  lemma LaterStep(before: seq<nat>, m: Mesh, todo: seq<bool>, left: nat)
    requires left > 0
    ensures var p := PassOf(m, todo);
      Later(before, m, todo, left) == Later(before + [p.flips], p.m, p.todo, if p.flips == 0 then 0 else left - 1)
  {
    var p := PassOf(m, todo);
    if p.flips != 0 && left > 1 {
      var r := Passes(p.m, p.todo, left - 1);
      assert before + [p.flips] + r.passes == before + ([p.flips] + r.passes);
    }
  }

  /** The run on mesh m has come to these tables, with `left` passes to go. */
  ghost predicate Underway(m: Mesh, before: seq<nat>, m': Mesh, todo: seq<bool>, left: nat) {
    Sound(m') && Skippable(m', todo) && FlipRun(m) == Later(before, m', todo, left)
  }

  lemma UnderwayStarts(m: Mesh)
    requires Sound(m)
    ensures Underway(m, [], m, AllMarked(|m.edg|), MAX_PASSES)
  {
  }

  lemma UnderwayEnds(m: Mesh, before: seq<nat>, m': Mesh, todo: seq<bool>)
    requires Underway(m, before, m', todo, 0)
    ensures FlipRun(m) == Run(m', todo, before)
  {
  }

  lemma UnderwayNext(m: Mesh, before: seq<nat>, m': Mesh, todo: seq<bool>, left: nat)
    requires Underway(m, before, m', todo, left) && left > 0
    ensures var p := PassOf(m', todo);
      Underway(m, before + [p.flips], p.m, p.todo, if p.flips == 0 then 0 else left - 1)
  {
    PassDecides(m', todo);
    LaterStep(before, m', todo, left);
  }

  lemma {:induction false} TotalAppend(passes: seq<nat>, n: nat)
    ensures Total(passes + [n]) == Total(passes) + n
  {
    if passes == [] {
      assert Total([n]) == n;
    } else {
      assert (passes + [n])[1..] == passes[1..] + [n];
      TotalAppend(passes[1..], n);
    }
  }

  /** What a run of at most `left` passes ends with. */
  ghost predicate Ended(m: Mesh, r: Run, left: nat) {
    && Sound(m) && Sound(r.m) && Skippable(r.m, r.todo)
    && Stopped(r.passes, left) && Improved(m, r.m, Total(r.passes))
    && (Total(r.passes) == 0 <==> AllDelaunay(m)) && (AllDelaunay(r.m) || AllFlipped(r.passes, left))
  }

  lemma OnePass(m: Mesh, p: Sweep, left: nat)
    requires Passed(m, p) && (p.flips == 0 || left == 1) && left > 0
    ensures Ended(m, Run(p.m, p.todo, [p.flips]), left)
  {
    assert Total([p.flips]) == p.flips;
  }

  lemma OneMore(m: Mesh, p: Sweep, r: Run, left: nat)
    requires Passed(m, p) && p.flips > 0
    requires Ended(p.m, r, left)
    ensures Ended(m, Run(r.m, r.todo, [p.flips] + r.passes), left + 1)
  {
    var passes := [p.flips] + r.passes;
    assert passes[1..] == r.passes && passes[|passes| - 1] == r.passes[|r.passes| - 1];
    ImprovedChain(m, p.m, r.m, p.flips, Total(r.passes));
  }

  lemma {:induction false} PassesEnd(m: Mesh, todo: seq<bool>, left: nat)
    requires Sound(m) && Skippable(m, todo) && left > 0
    ensures Ended(m, Passes(m, todo, left), left)
    decreases left
  {
    var p := PassOf(m, todo);
    PassDecides(m, todo);
    if p.flips == 0 || left == 1 {
      OnePass(m, p, left);
    } else {
      PassesEnd(p.m, p.todo, left - 1);
      OneMore(m, p, Passes(p.m, p.todo, left - 1), left - 1);
    }
  }

  /** A run ends with a Delaunay mesh, or after 30 passes that all flipped. */
  lemma FlipRunEnds(m: Mesh)
    requires Sound(m)
    ensures Ended(m, FlipRun(m), 30)
  {
    PassesEnd(m, AllMarked(|m.edg|), MAX_PASSES);
  }

  /** Delaunay or not, exactly the edges left marked decide it. */
  lemma FlipRunIsDelaunay(m: Mesh)
    requires Sound(m)
    ensures var r := FlipRun(m);
      Sound(r.m) && |r.todo| == |r.m.edg| &&
      (AllDelaunay(r.m) <==> forall e :: 0 <= e < |r.m.edg| && r.todo[e] ==> !Wanted(r.m, e))
  {
    FlipRunEnds(m);
    MarksDecide(FlipRun(m).m, FlipRun(m).todo);
  }
}
