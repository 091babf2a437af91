/** docker/devsim/run.py: walking a bias to its target against any simulator. */
module BiasSolver {
  import opened Options

  const MAX_BIAS_STEP: real := 0.25
  const MAX_BISECTIONS: nat := 3
  const TINY: real := 0.000000000001

  /** What one call of the simulator comes to. */
  datatype Outcome = Raised | Solved(converged: bool, iterations: nat)

  predicate Converges(oracle: nat -> Outcome, n: nat) {
    oracle(n).Solved? && oracle(n).converged
  }

  /** Whether solve() succeeds when its first call is the n-th. */
  predicate Answer(oracle: nat -> Outcome, n: nat) {
    Converges(oracle, n) || Converges(oracle, n + 1)
  }

  /** The calls it makes. */
  function Cost(oracle: nat -> Outcome, n: nat): nat {
    if Converges(oracle, n) then 1 else 2
  }

  function Abs(x: real): real {
    if x < 0.0 then -x else x
  }

  function Ceil(x: real): int {
    -((-x).Floor)
  }

  // ------------------------------------------------- voltages at the contacts

  type Groups = map<string, seq<string>>
  type Voltages = map<string, real>

  /** _set(): every contact of the group gets the value. */
  function Put(device: Voltages, contacts: seq<string>, value: real): Voltages {
    if contacts == [] then device else Put(device, contacts[..|contacts|-1], value)[contacts[|contacts|-1] := value]
  }

  lemma {:induction false} PutAt(device: Voltages, contacts: seq<string>, value: real, c: string)
    ensures c in contacts ==> c in Put(device, contacts, value) && Put(device, contacts, value)[c] == value
    ensures c !in contacts ==> (c in Put(device, contacts, value) <==> c in device)
    ensures c !in contacts && c in device ==> Put(device, contacts, value)[c] == device[c]
  {
    if contacts != [] {
      PutAt(device, contacts[..|contacts|-1], value, c);
      assert contacts == contacts[..|contacts|-1] + [contacts[|contacts|-1]];
    }
  }

  /** No contact belongs to two biases. */
  ghost predicate Apart(groups: Groups) {
    forall a <- groups, b <- groups, c :: c in groups[a] && c in groups[b] ==> a == b
  }

  ghost predicate InStep(groups: Groups, applied: Voltages, device: Voltages, b: string)
    requires b in groups && b in applied
  {
    forall c <- groups[b] :: c in device && device[c] == applied[b]
  }

  /** Every contact of every bias carries the applied voltage. */
  ghost predicate Synced(groups: Groups, applied: Voltages, device: Voltages) {
    applied.Keys == groups.Keys && forall b <- groups :: InStep(groups, applied, device, b)
  }

  lemma SyncedPut(groups: Groups, applied: Voltages, device: Voltages, b: string, v: real)
    requires Apart(groups) && Synced(groups, applied, device) && b in groups
    ensures Synced(groups, applied[b := v], Put(device, groups[b], v))
  {
    var device' := Put(device, groups[b], v);
    forall a <- groups ensures InStep(groups, applied[b := v], device', a) {
      forall c <- groups[a] ensures c in device' && device'[c] == applied[b := v][a] {
        PutAt(device, groups[b], v, c);
        assert InStep(groups, applied, device, a);
      }
    }
  }

  /** Setting back what was applied undoes a try. */
  lemma SyncedBack(groups: Groups, applied: Voltages, device: Voltages, b: string, v: real)
    requires Apart(groups) && Synced(groups, applied, device) && b in groups
    ensures Synced(groups, applied, Put(Put(device, groups[b], v), groups[b], applied[b]))
  {
    SyncedPut(groups, applied, device, b, v);
    SyncedPut(groups, applied[b := v], Put(device, groups[b], v), b, applied[b]);
    assert applied[b := v][b := applied[b]] == applied;
  }

  // -------------------------------------------------------- one walk, recorded

  /** One bias is to go from `start` to `target`; `first` is the number of the
      next call of the simulator. */
  datatype Walk = Walk(oracle: nat -> Outcome, bias: string, start: real, target: real, first: nat)

  /** `call` is the number of the first call of the simulator this attempt made. */
  datatype Attempt = Attempt(bias: string, from: real, value: real, call: nat, ok: bool)

  /** Where a walk stands after these attempts: at the last one that succeeded. */
  function Position(steps: seq<Attempt>, start: real): real {
    if steps == [] then start
    else if steps[|steps|-1].ok then steps[|steps|-1].value
    else Position(steps[..|steps|-1], start)
  }

  function Fails(steps: seq<Attempt>): nat {
    if steps == [] then 0 else Fails(steps[..|steps|-1]) + if steps[|steps|-1].ok then 0 else 1
  }

  function Hits(steps: seq<Attempt>): real {
    if steps == [] then 0.0 else Hits(steps[..|steps|-1]) + if steps[|steps|-1].ok then 1.0 else 0.0
  }

  /** The number of the call after these attempts. */
  function NextCall(w: Walk, steps: seq<Attempt>): nat {
    if steps == [] then w.first
    else var n := steps[|steps|-1].call; n + Cost(w.oracle, n)
  }

  lemma {:induction false} HitsAndFails(steps: seq<Attempt>)
    ensures Hits(steps) == (|steps| - Fails(steps)) as real
  {
    if steps != [] {
      HitsAndFails(steps[..|steps|-1]);
    }
  }

  function Reach(rem: real, step: real): real {
    if rem < step then rem else step
  }

  /** A quarter of a volt at most, halved at every failure, and never past the
      target. */
  function NextValue(p: real, target: real, fails: nat): real {
    p + Reach(Abs(target - p), StepAfter(fails)) * (if target - p > 0.0 then 1.0 else -1.0)
  }

  /** The attempt the code makes after these, and what the simulator says to it. */
  function Next(w: Walk, steps: seq<Attempt>): Attempt {
    var p, n := Position(steps, w.start), NextCall(w, steps);
    Attempt(w.bias, p, NextValue(p, w.target, Fails(steps)), n, Answer(w.oracle, n))
  }

  predicate Arrived(w: Walk, steps: seq<Attempt>) {
    Abs(w.target - Position(steps, w.start)) <= TINY
  }

  predicate Onward(w: Walk, steps: seq<Attempt>, i: nat)
    requires i < |steps|
  {
    steps[i] == Next(w, steps[..i]) && !Arrived(w, steps[..i]) && Fails(steps[..i]) <= MAX_BISECTIONS
  }

  /** Every attempt is the one due after those before it, with the answer the
      simulator gave. */
  ghost predicate Climb(w: Walk, steps: seq<Attempt>) {
    forall i: nat :: i < |steps| ==> Onward(w, steps, i)
  }

  lemma Snoc(w: Walk, steps: seq<Attempt>, a: Attempt)
    ensures Position(steps + [a], w.start) == if a.ok then a.value else Position(steps, w.start)
    ensures Fails(steps + [a]) == Fails(steps) + if a.ok then 0 else 1
    ensures Hits(steps + [a]) == Hits(steps) + if a.ok then 1.0 else 0.0
    ensures NextCall(w, steps + [a]) == a.call + Cost(w.oracle, a.call)
  {
    assert (steps + [a])[..|steps|] == steps;
  }

  lemma ClimbSnoc(w: Walk, steps: seq<Attempt>)
    requires Climb(w, steps) && !Arrived(w, steps) && Fails(steps) <= MAX_BISECTIONS
    ensures Climb(w, steps + [Next(w, steps)])
  {
    var steps' := steps + [Next(w, steps)];
    forall i: nat | i < |steps'| ensures Onward(w, steps', i) {
      assert steps'[..i] == steps[..i];
      if i == |steps| {
        assert steps[..i] == steps;
      } else {
        assert Onward(w, steps, i);
      }
    }
  }

  lemma ClimbPrefix(w: Walk, steps: seq<Attempt>, k: nat)
    requires Climb(w, steps) && k <= |steps|
    ensures Climb(w, steps[..k])
  {
    forall i: nat | i < k ensures Onward(w, steps[..k], i) {
      assert Onward(w, steps, i) && steps[..k][..i] == steps[..i];
    }
  }

  /** v lies strictly beyond p on the way to the target, and not past it. */
  predicate Towards(p: real, v: real, target: real) {
    p < v <= target || target <= v < p
  }

  /** p lies between the start and the target. */
  predicate Between(start: real, p: real, target: real) {
    start <= p <= target || target <= p <= start
  }

  /** Every attempt goes on towards the target by a quarter of a volt at most. */
  lemma OneStep(p: real, target: real, fails: nat)
    requires p != target
    ensures var value := NextValue(p, target, fails);
      && Towards(p, value, target) && Abs(value - p) <= MAX_BIAS_STEP
      && Abs(target - value) == Abs(target - p) - Reach(Abs(target - p), StepAfter(fails))
  {
  }

  /** A step after f refusals: a quarter of a volt halved f times, or less if that
      reaches the target. */
  predicate StepOf(p: real, v: real, target: real, f: nat) {
    var size := if f == 0 then 0.25 else if f == 1 then 0.125 else if f == 2 then 0.0625 else 0.03125;
    v == if p - size <= target <= p + size then target else if p < target then p + size else p - size
  }

  /** What each attempt of a walk is, in numbers, and that it succeeded exactly if
      one of its two calls converged. */
  lemma AttemptSays(w: Walk, steps: seq<Attempt>, i: nat)
    requires Climb(w, steps) && i < |steps|
    ensures var a, p, f := steps[i], Position(steps[..i], w.start), Fails(steps[..i]);
      && f <= 3 && a.bias == w.bias && a.from == p && StepOf(p, a.value, w.target, f)
      && !(p - 0.000000000001 <= w.target <= p + 0.000000000001)
    ensures var a := steps[i];
      a.ok <==> (w.oracle(a.call).Solved? && w.oracle(a.call).converged)
                || (w.oracle(a.call + 1).Solved? && w.oracle(a.call + 1).converged)
    ensures i == 0 ==> steps[i].call == w.first
    ensures i + 1 < |steps| ==> var n := steps[i].call;
      steps[i + 1].call == if w.oracle(n).Solved? && w.oracle(n).converged then n + 1 else n + 2
  {
    assert Onward(w, steps, i);
    if i + 1 < |steps| {
      assert Onward(w, steps, i + 1);
    }
    var f := Fails(steps[..i]);
    assert StepAfter(1) == 0.125 && StepAfter(2) == 0.0625 && StepAfter(3) == 0.03125;
    assert f == 0 || f == 1 || f == 2 || f == 3;
  }

  lemma OneOnward(w: Walk, steps: seq<Attempt>, k: nat, j: nat)
    requires Climb(w, steps) && j == k + 1 <= |steps|
    requires Between(w.start, Position(steps[..k], w.start), w.target)
    ensures Between(w.start, Position(steps[..j], w.start), w.target)
    ensures Between(Position(steps[..k], w.start), Position(steps[..j], w.start), w.target)
  {
    assert Onward(w, steps, k);
    assert steps[..j] == steps[..k] + [steps[k]];
    Snoc(w, steps[..k], steps[k]);
    OneStep(Position(steps[..k], w.start), w.target, Fails(steps[..k]));
  }

  /** A climb never leaves the way from start to target, and never goes back. */
  lemma {:induction false} ClimbStaysBetween(w: Walk, steps: seq<Attempt>, i: nat, j: nat)
    requires Climb(w, steps) && i <= j <= |steps|
    ensures Between(w.start, Position(steps[..i], w.start), w.target)
    ensures Between(Position(steps[..i], w.start), Position(steps[..j], w.start), w.target)
    decreases j
  {
    if j > 0 {
      ClimbStaysBetween(w, steps, if i == j then j - 1 else i, j - 1);
      OneOnward(w, steps, j - 1, j);
    }
  }

  /** An attempt makes one call of the simulator, or two. */
  lemma {:induction false} CallsOfClimb(w: Walk, steps: seq<Attempt>)
    requires Climb(w, steps)
    ensures w.first + |steps| <= NextCall(w, steps) <= w.first + 2 * |steps|
  {
    if steps != [] {
      var k := |steps| - 1;
      ClimbPrefix(w, steps, k);
      CallsOfClimb(w, steps[..k]);
      assert Onward(w, steps, k);
    }
  }

  lemma {:induction false} SamePrefix(w: Walk, a: seq<Attempt>, b: seq<Attempt>, k: nat)
    requires Climb(w, a) && Climb(w, b) && k <= |a| && k <= |b|
    ensures a[..k] == b[..k]
  {
    if k > 0 {
      SamePrefix(w, a, b, k - 1);
      assert Onward(w, a, k - 1) && Onward(w, b, k - 1);
      assert a[..k] == a[..k - 1] + [a[k - 1]] && b[..k] == b[..k - 1] + [b[k - 1]];
    }
  }

  /** The simulator alone decides how a walk goes and where it ends. */
  lemma EndsOnce(w: Walk, a: seq<Attempt>, b: seq<Attempt>)
    requires Ends(w, a) && Ends(w, b)
    ensures a == b
  {
    NotLonger(w, a, b);
    NotLonger(w, b, a);
    SamePrefix(w, a, b, |a|);
    assert a[..|a|] == a && b[..|b|] == b;
  }

  lemma StillClimbing(w: Walk, steps: seq<Attempt>, k: nat)
    requires Climb(w, steps) && k < |steps|
    ensures !Arrived(w, steps[..k]) && Fails(steps[..k]) <= MAX_BISECTIONS
  {
    assert Onward(w, steps, k);
  }

  lemma NotLonger(w: Walk, a: seq<Attempt>, b: seq<Attempt>)
    requires Ends(w, a) && Climb(w, b)
    ensures |b| <= |a|
  {
    if |a| < |b| {
      SamePrefix(w, a, b, |a|);
      assert a[..|a|] == a;
      StillClimbing(w, b, |a|);
    }
  }

  // ---------------------------------------------------------------- the solver

  class Solver {
    const groups: Groups
    /** The answer of the simulator to its n-th call, whatever it is. */
    const oracle: nat -> Outcome
    var applied: Voltages
    /** The bias parameter of every contact inside the simulator. */
    var device: Voltages
    var calls: nat
    var relaxed: nat
    var solves: nat
    var newton: nat
    ghost var trail: seq<Attempt>

    ghost predicate Valid()
      reads this
    {
      Apart(groups) && Synced(groups, applied, device)
    }

    constructor (contacts: Groups, simulator: nat -> Outcome, parameters: Voltages)
      requires Apart(contacts)
      requires forall b <- contacts :: forall c <- contacts[b] :: c in parameters && parameters[c] == 0.0
      ensures Valid() && groups == contacts && oracle == simulator && trail == [] && calls == 0
      ensures forall b <- groups :: applied[b] == 0.0
    {
      groups, oracle := contacts, simulator;
      applied := map b | b in contacts :: 0.0;
      device := parameters;
      calls, relaxed, solves, newton := 0, 0, 0, 0;
      trail := [];
    }

    /** _set() */
    method Set(bias: string, value: real)
      requires bias in groups
      modifies this`device
      ensures device == Put(old(device), groups[bias], value)
    {
      var contacts := groups[bias];
      for k := 0 to |contacts|
        invariant device == Put(old(device), contacts[..k], value)
      {
        device := device[contacts[k] := value];
        assert contacts[..k + 1][..k] == contacts[..k];
      }
      assert contacts[..|contacts|] == contacts;
    }

    /** _solve_once(): a call that raises is not counted. */
    method SolveOnce() returns (ok: bool)
      modifies this`calls, this`solves, this`newton
      ensures calls == old(calls) + 1
      ensures ok == (oracle(old(calls)).Solved? && oracle(old(calls)).converged)
      ensures oracle(old(calls)).Solved? ==>
        solves == old(solves) + 1 && newton == old(newton) + oracle(old(calls)).iterations
      ensures oracle(old(calls)).Raised? ==> solves == old(solves) && newton == old(newton)
    {
      var info := oracle(calls);
      calls := calls + 1;
      if info.Raised? { return false; }
      solves := solves + 1;
      newton := newton + info.iterations;
      ok := info.converged;
    }

    /** solve(): strict first, then relaxed; false where the code raises.  Only a
        rescue by the relaxed criteria is counted as such. */
    method Solve() returns (ok: bool)
      modifies this`calls, this`solves, this`newton, this`relaxed
      ensures ok == Answer(oracle, old(calls)) && calls == old(calls) + Cost(oracle, old(calls))
      ensures relaxed == old(relaxed) + if ok && !Converges(oracle, old(calls)) then 1 else 0
      ensures newton >= old(newton)
    {
      ok := SolveOnce();
      if ok { return; }
      ok := SolveOnce();
      if ok { relaxed := relaxed + 1; }
    }

    /** _try(): one step, undone if it fails. */
    method Try(bias: string, value: real) returns (ok: bool)
      requires Valid() && bias in groups
      modifies this
      ensures Valid()
      ensures ok == Answer(oracle, old(calls)) && calls == old(calls) + Cost(oracle, old(calls))
      ensures applied == if ok then old(applied)[bias := value] else old(applied)
      ensures trail == old(trail) + [Attempt(bias, old(applied)[bias], value, old(calls), ok)]
      ensures newton >= old(newton)
    {
      SyncedPut(groups, applied, device, bias, value);
      SyncedBack(groups, applied, device, bias, value);
      Set(bias, value);
      ghost var call := calls;
      ok := Solve();
      trail := trail + [Attempt(bias, applied[bias], value, call, ok)];
      if !ok {
        Set(bias, applied[bias]);
        return;
      }
      applied := applied[bias := value];
    }

    ghost function Now(): State
      reads this
    {
      State(applied, calls)
    }

    /** One turn of the loop in reached(), before `shrinks` is looked at. */
    method Advance(target: real, step: real, ghost w: Walk, bias: string, ghost steps: seq<Attempt>, ghost shrinks: nat)
      returns (ok: bool)
      requires Valid() && bias in groups && applied[bias] == Position(steps, w.start) && calls == NextCall(w, steps)
      requires w.oracle == oracle && w.bias == bias && w.target == target && !Arrived(w, steps)
      requires OnTheWay(w, steps, shrinks) && step == StepAfter(shrinks)
      modifies this
      ensures Valid() && newton >= old(newton) && ok == Next(w, steps).ok
      ensures var steps' := steps + [Next(w, steps)];
        && applied == old(applied)[bias := Position(steps', w.start)] && trail == old(trail) + [Next(w, steps)]
        && calls == NextCall(w, steps')
        && if ok then OnTheWay(w, steps', shrinks) else FellShort(w, steps', shrinks + 1)
    {
      var remaining := target - applied[bias];
      var reach := Reach(Abs(remaining), step);
      var value := applied[bias] + reach * (if remaining > 0.0 then 1.0 else -1.0);
      ok := Try(bias, value);
      Snoc(w, steps, Next(w, steps));
      if ok {
        NextGood(w, steps, shrinks);
      } else {
        NextBad(w, steps, shrinks);
      }
    }

    /** reached(): as far as the simulator allows.  `steps` are the attempts made. */
    method Reached(bias: string, target: real) returns (landed: real, ghost steps: seq<Attempt>)
      requires Valid() && bias in groups
      modifies this
      ensures Valid() && newton >= old(newton)
      ensures var w := WalkFrom(oracle, old(Now()), bias, target); Ends(w, steps) && calls == NextCall(w, steps)
      ensures old(calls) + |steps| <= calls <= old(calls) + 2 * |steps|
      ensures applied == old(applied)[bias := landed] && landed == Position(steps, old(applied)[bias])
      ensures trail == old(trail) + steps
    {
      steps := [];
      ghost var w, applied0, trail0 := WalkFrom(oracle, Now(), bias, target), applied, trail;
      var span := target - applied[bias];
      Departure(w);
      EndsNear(w, steps, 0);
      if span == 0.0 {
        return applied[bias], steps;
      }
      var step := MAX_BIAS_STEP;
      var shrinks := 0;
      while true
        invariant Valid() && newton >= old(newton)
        invariant applied == applied0[bias := Position(steps, w.start)] && trail == trail0 + steps
        invariant calls == NextCall(w, steps)
        invariant OnTheWay(w, steps, shrinks) && step == StepAfter(shrinks)
        decreases Budget(w) + 4 - |steps|
      {
        var remaining := target - applied[bias];
        EndsNear(w, steps, shrinks);
        if Abs(remaining) <= TINY {
          return applied[bias], steps;
        }
        BoundSoFar(w, steps, shrinks);
        var ok := Advance(target, step, w, bias, steps, shrinks);
        steps := steps + [Next(w, steps)];
        if ok {
          continue;
        }
        EndsShort(w, steps, shrinks);
        if shrinks >= MAX_BISECTIONS {
          return applied[bias], steps;
        }
        step := step / 2.0;
        shrinks := shrinks + 1;
      }
    }

    /** ramp_to(): all the way, or back.  `steps` are the attempts made. */
    method RampTo(bias: string, target: real) returns (r: Result<()>, ghost steps: seq<Attempt>)
      requires Valid()
      modifies this
      ensures Valid() && newton >= old(newton) && trail == old(trail) + steps
      ensures bias !in groups ==> r.Error? && Now() == old(Now()) && steps == []
      ensures bias in groups ==>
        var w := WalkFrom(oracle, old(Now()), bias, target);
        && Ends(w, steps) && calls == NextCall(w, steps) && (r.Ok? <==> Arrived(w, steps))
        && applied == if r.Ok? then old(applied)[bias := Position(steps, w.start)] else old(applied)
      ensures r.Ok? ==> bias in applied && -0.000000000001 <= applied[bias] - target <= 0.000000000001
      ensures r.Error? && bias in groups ==> Fails(steps) == 4
      ensures (r.Ok?, Now()) == Ramps(oracle, old(Now()), bias, target)
    {
      steps := [];
      if bias !in groups { return Error, steps; }
      var current := applied[bias];
      var landed;
      ghost var was := Now();
      landed, steps := Reached(bias, target);
      ReachesIs(oracle, was, bias, target, steps);
      if Abs(landed - target) > TINY {
        SyncedPut(groups, applied, device, bias, current);
        Set(bias, current);
        applied := applied[bias := current];
        assert applied == was.applied;
        return Error, steps;
      }
      r := Ok(());
    }

    /** reset_to(): all voltages at once, to a state taken before. */
    method ResetTo(saved: Voltages)
      requires Valid() && saved.Keys == groups.Keys
      modifies this`applied, this`device
      ensures Valid() && applied == saved
    {
      var todo := saved.Keys;
      ghost var mixed := applied;
      while todo != {}
        invariant todo <= saved.Keys && Synced(groups, mixed, device)
        invariant Copied(saved, mixed, saved.Keys - todo)
        decreases |todo|
      {
        var bias :| bias in todo;
        SyncedPut(groups, mixed, device, bias, saved[bias]);
        Set(bias, saved[bias]);
        CopiedMore(saved, mixed, saved.Keys - todo, bias);
        assert saved.Keys - (todo - {bias}) == saved.Keys - todo + {bias};
        mixed := mixed[bias := saved[bias]];
        todo := todo - {bias};
      }
      AllCopied(saved, mixed);
      applied := saved;
    }
  }

  /** `mixed` has the saved voltages at the contacts done so far. */
  ghost predicate Copied(saved: Voltages, mixed: Voltages, done: set<string>) {
    mixed.Keys == saved.Keys && forall b <- done :: b in saved ==> mixed[b] == saved[b]
  }

  lemma CopiedMore(saved: Voltages, mixed: Voltages, done: set<string>, bias: string)
    requires Copied(saved, mixed, done) && bias in saved
    ensures Copied(saved, mixed[bias := saved[bias]], done + {bias})
  {
  }

  lemma AllCopied(saved: Voltages, mixed: Voltages)
    requires Copied(saved, mixed, saved.Keys - {})
    ensures mixed == saved
  {
  }

  // -------------------------------------------------------------- the step count

  function StepAfter(shrinks: nat): (step: real)
    ensures 0.0 < step <= MAX_BIAS_STEP
  {
    if shrinks == 0 then MAX_BIAS_STEP else StepAfter(shrinks - 1) / 2.0
  }

  lemma StepsAreLarge(shrinks: nat)
    requires shrinks <= MAX_BISECTIONS
    ensures 0.03125 <= StepAfter(shrinks) <= MAX_BIAS_STEP
  {
    assert StepAfter(1) == 0.125 && StepAfter(2) == 0.0625 && StepAfter(3) == 0.03125;
  }

  lemma BelowCeil(n: int, x: real)
    requires n as real < x + 1.0
    ensures n <= Ceil(x)
  {
  }

  /** n steps have brought the distance from d down to rem, each by 1/32 at
      least, but for a last one that lands on the target. */
  predicate Paced(n: real, d: real, rem: real) {
    0.0 <= rem <= d && n < 32.0 * d + 1.0 && (rem > 0.0 ==> n <= 32.0 * (d - rem))
  }

  lemma PacedStep(n: real, d: real, rem: real, step: real)
    requires Paced(n, d, rem) && rem > 0.0 && 0.03125 <= step
    ensures Paced(n + 1.0, d, rem - Reach(rem, step))
  {
  }

  /** The state of the loop in reached(), as far as the attempts tell it. */
  ghost predicate OnTheWay(w: Walk, steps: seq<Attempt>, shrinks: nat) {
    && Climb(w, steps) && Fails(steps) == shrinks <= MAX_BISECTIONS
    && Paced(Hits(steps), Abs(w.target - w.start), Abs(w.target - Position(steps, w.start)))
  }

  ghost function Budget(w: Walk): int {
    Ceil(32.0 * Abs(w.target - w.start))
  }

  lemma BoundSoFar(w: Walk, steps: seq<Attempt>, shrinks: nat)
    requires OnTheWay(w, steps, shrinks)
    ensures |steps| <= Budget(w) + shrinks
  {
    HitsAndFails(steps);
    BelowCeil(|steps| - shrinks, 32.0 * Abs(w.target - w.start));
  }

  /** What a walk has come to when it is over: at the target, or the simulator has
      refused four attempts, after no more than 32 attempts a volt and four, of one
      call or two each. */
  ghost predicate Ends(w: Walk, steps: seq<Attempt>) {
    && Climb(w, steps) && Fails(steps) <= MAX_BISECTIONS + 1
    && (Arrived(w, steps) || Fails(steps) == MAX_BISECTIONS + 1)
    && |steps| <= Budget(w) + 4
    && w.first + |steps| <= NextCall(w, steps) <= w.first + 2 * |steps|
  }

  /** In numbers: fewer than 32 attempts a volt and five. */
  lemma FewAttempts(w: Walk, steps: seq<Attempt>)
    requires Ends(w, steps)
    ensures var d := w.target - w.start;
      |steps| as real < 32.0 * (if d < 0.0 then -d else d) + 5.0
  {
    var d := Abs(w.target - w.start);
    assert Ceil(32.0 * d) as real < 32.0 * d + 1.0;
  }

  lemma EndsNear(w: Walk, steps: seq<Attempt>, shrinks: nat)
    requires OnTheWay(w, steps, shrinks)
    ensures Arrived(w, steps) ==> Ends(w, steps)
  {
    BoundSoFar(w, steps, shrinks);
    CallsOfClimb(w, steps);
  }

  lemma EndsShort(w: Walk, steps: seq<Attempt>, shrinks: nat)
    requires FellShort(w, steps, shrinks + 1)
    ensures shrinks == MAX_BISECTIONS ==> Ends(w, steps)
    ensures shrinks < MAX_BISECTIONS ==> OnTheWay(w, steps, shrinks + 1)
    ensures StepAfter(shrinks + 1) == StepAfter(shrinks) / 2.0
  {
    CallsOfClimb(w, steps);
  }

  lemma Departure(w: Walk)
    ensures OnTheWay(w, [], 0)
  {
    assert Hits([]) == 0.0;
  }

  lemma NextPaced(hits: real, d: real, rem: real, rem': real, shrinks: nat)
    requires Paced(hits, d, rem) && rem > 0.0 && rem' == rem - Reach(rem, StepAfter(shrinks))
    requires shrinks <= MAX_BISECTIONS
    ensures Paced(hits + 1.0, d, rem')
  {
    StepsAreLarge(shrinks);
    PacedStep(hits, d, rem, StepAfter(shrinks));
  }

  lemma NextGood(w: Walk, steps: seq<Attempt>, shrinks: nat)
    requires OnTheWay(w, steps, shrinks) && !Arrived(w, steps) && Next(w, steps).ok
    ensures OnTheWay(w, steps + [Next(w, steps)], shrinks)
  {
    var p, a := Position(steps, w.start), Next(w, steps);
    Snoc(w, steps, a);
    ClimbSnoc(w, steps);
    OneStep(p, w.target, shrinks);
    NextPaced(Hits(steps), Abs(w.target - w.start), Abs(w.target - p), Abs(w.target - a.value), shrinks);
  }

  /** The state after a refused attempt: the walk stays where it was. */
  ghost predicate FellShort(w: Walk, steps: seq<Attempt>, fails: nat) {
    && Climb(w, steps) && Fails(steps) == fails
    && |steps| <= Budget(w) + fails
    && (fails <= MAX_BISECTIONS ==> OnTheWay(w, steps, fails))
  }

  lemma NextBad(w: Walk, steps: seq<Attempt>, shrinks: nat)
    requires OnTheWay(w, steps, shrinks) && !Arrived(w, steps) && !Next(w, steps).ok
    ensures FellShort(w, steps + [Next(w, steps)], shrinks + 1)
  {
    BoundSoFar(w, steps, shrinks);
    Snoc(w, steps, Next(w, steps));
    ClimbSnoc(w, steps);
  }

  // ------------------------------------------------- what the simulator decides

  lemma {:induction false} GoesOn(w: Walk, steps: seq<Attempt>, shrinks: nat) returns (all: seq<Attempt>)
    requires OnTheWay(w, steps, shrinks)
    ensures Ends(w, all)
    decreases Budget(w) + 4 - |steps|
  {
    EndsNear(w, steps, shrinks);
    BoundSoFar(w, steps, shrinks);
    if Arrived(w, steps) { return steps; }
    var steps' := steps + [Next(w, steps)];
    if Next(w, steps).ok {
      NextGood(w, steps, shrinks);
      all := GoesOn(w, steps', shrinks);
    } else {
      NextBad(w, steps, shrinks);
      EndsShort(w, steps', shrinks);
      if shrinks == MAX_BISECTIONS { return steps'; }
      all := GoesOn(w, steps', shrinks + 1);
    }
  }

  lemma EveryWalkEnds(w: Walk)
    ensures exists steps :: Ends(w, steps)
  {
    Departure(w);
    var steps := GoesOn(w, [], 0);
  }

  /** The whole walk. */
  ghost function WholeWalk(w: Walk): (steps: seq<Attempt>)
    ensures Ends(w, steps)
  {
    EveryWalkEnds(w);
    var steps :| Ends(w, steps);
    steps
  }

  /** What of the solver the course of a run depends on. */
  datatype State = State(applied: Voltages, calls: nat)

  ghost function WalkFrom(oracle: nat -> Outcome, s: State, bias: string, target: real): Walk
    requires bias in s.applied
  {
    Walk(oracle, bias, s.applied[bias], target, s.calls)
  }

  /** After reached(): the bias is where the walk ended. */
  ghost function Reaches(oracle: nat -> Outcome, s: State, bias: string, target: real): (r: State)
    requires bias in s.applied
    ensures r.applied.Keys == s.applied.Keys
  {
    var w := WalkFrom(oracle, s, bias, target);
    State(s.applied[bias := Position(WholeWalk(w), w.start)], NextCall(w, WholeWalk(w)))
  }

  lemma ReachesIs(oracle: nat -> Outcome, s: State, bias: string, target: real, steps: seq<Attempt>)
    requires bias in s.applied && Ends(WalkFrom(oracle, s, bias, target), steps)
    ensures var w := WalkFrom(oracle, s, bias, target);
      Reaches(oracle, s, bias, target) == State(s.applied[bias := Position(steps, w.start)], NextCall(w, steps))
  {
    var w := WalkFrom(oracle, s, bias, target);
    EndsOnce(w, steps, WholeWalk(w));
  }

  predicate Near(applied: Voltages, name: string, value: real) {
    name in applied && Abs(applied[name] - value) <= TINY
  }

  /** After ramp_to(): there, or back. */
  ghost function Ramps(oracle: nat -> Outcome, s: State, bias: string, target: real): (r: (bool, State))
    ensures r.1.applied.Keys == s.applied.Keys && (r.0 ==> Near(r.1.applied, bias, target))
    ensures !r.0 ==> r.1.applied == s.applied
    ensures forall b <- s.applied :: b != bias ==> r.1.applied[b] == s.applied[b]
  {
    if bias !in s.applied then (false, s)
    else
      var t := Reaches(oracle, s, bias, target);
      if Near(t.applied, bias, target) then (true, t) else (false, s.(calls := t.calls))
  }

  lemma {:induction false} NoneRefused(w: Walk, steps: seq<Attempt>)
    requires Climb(w, steps) && forall n :: Answer(w.oracle, n)
    ensures Fails(steps) == 0
  {
    if steps != [] {
      var k := |steps| - 1;
      ClimbPrefix(w, steps, k);
      NoneRefused(w, steps[..k]);
      assert Onward(w, steps, k);
      assert Answer(w.oracle, steps[k].call);
    }
  }

  /** A simulator that refuses no attempt takes every bias everywhere. */
  lemma AlwaysArrives(oracle: nat -> Outcome, s: State, bias: string, target: real)
    requires bias in s.applied && forall n :: Answer(oracle, n)
    ensures Near(Reaches(oracle, s, bias, target).applied, bias, target) && Ramps(oracle, s, bias, target).0
  {
    var w := WalkFrom(oracle, s, bias, target);
    NoneRefused(w, WholeWalk(w));
  }
}
