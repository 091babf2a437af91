/** docker/devsim/run.py, past the setup, and devsim/progress.py: every bias point
    ends as one row or one failure, and the progress counts them. */
module DeviceRun {
  import opened Options
  import opened BiasSolver

  // ---------------------------------------------------------- the order walked

  function Insert(x: real, s: seq<real>): seq<real> {
    if s == [] then [x] else if x <= s[0] then [x] + s else [s[0]] + Insert(x, s[1..])
  }

  /** sorted() */
  function Sorted(s: seq<real>): seq<real> {
    if s == [] then [] else Insert(s[0], Sorted(s[1..]))
  }

  function Reversed(s: seq<real>): seq<real> {
    if s == [] then [] else Reversed(s[1..]) + [s[0]]
  }

  predicate Rising(s: seq<real>) {
    forall i, j :: 0 <= i < j < |s| ==> s[i] <= s[j]
  }

  predicate Falling(s: seq<real>) {
    forall i, j :: 0 <= i < j < |s| ==> s[i] >= s[j]
  }

  function AtLeast(s: seq<real>, warm: real): seq<real> {
    if s == [] then [] else if s[0] >= warm then [s[0]] + AtLeast(s[1..], warm) else AtLeast(s[1..], warm)
  }

  function Under(s: seq<real>, warm: real): seq<real> {
    if s == [] then [] else if s[0] < warm then [s[0]] + Under(s[1..], warm) else Under(s[1..], warm)
  }

  lemma {:induction false} InsertBag(x: real, s: seq<real>)
    ensures multiset(Insert(x, s)) == multiset(s) + multiset{x}
  {
    if s != [] && x > s[0] {
      InsertBag(x, s[1..]);
      assert s == [s[0]] + s[1..];
    }
  }

  lemma {:induction false} InsertMembers(x: real, s: seq<real>, y: real)
    ensures y in Insert(x, s) <==> y == x || y in s
  {
    if s != [] && x > s[0] {
      InsertMembers(x, s[1..], y);
      assert s == [s[0]] + s[1..];
    }
  }

  lemma RisingCons(a: real, t: seq<real>)
    requires Rising(t) && forall v <- t :: a <= v
    ensures Rising([a] + t)
  {
    forall j | 0 <= j < |t| ensures a <= t[j] {
      assert t[j] in t;
    }
  }

  lemma {:induction false} InsertRising(x: real, s: seq<real>)
    requires Rising(s)
    ensures Rising(Insert(x, s))
  {
    if s != [] && x > s[0] {
      var t := Insert(x, s[1..]);
      InsertRising(x, s[1..]);
      forall v <- t ensures s[0] <= v {
        InsertMembers(x, s[1..], v);
      }
      RisingCons(s[0], t);
    }
  }

  lemma {:induction false} SortedIs(s: seq<real>)
    ensures Rising(Sorted(s)) && multiset(Sorted(s)) == multiset(s)
  {
    if s != [] {
      SortedIs(s[1..]);
      InsertBag(s[0], Sorted(s[1..]));
      InsertRising(s[0], Sorted(s[1..]));
      assert s == [s[0]] + s[1..];
    }
  }

  lemma {:induction false} ReversedIs(s: seq<real>)
    ensures |Reversed(s)| == |s| && multiset(Reversed(s)) == multiset(s)
    ensures forall i :: 0 <= i < |s| ==> Reversed(s)[i] == s[|s| - 1 - i]
  {
    if s != [] {
      ReversedIs(s[1..]);
      assert s == [s[0]] + s[1..];
    }
  }

  lemma BagCons(x: real, a: seq<real>)
    ensures multiset([x] + a) == multiset{x} + multiset(a)
  {
  }

  lemma {:induction false} SplitByWarm(s: seq<real>, warm: real)
    ensures multiset(AtLeast(s, warm)) + multiset(Under(s, warm)) == multiset(s)
    ensures (forall v <- AtLeast(s, warm) :: v >= warm) && forall v <- Under(s, warm) :: v < warm
  {
    if s != [] {
      var x, rest := s[0], s[1..];
      SplitByWarm(rest, warm);
      BagCons(x, rest);
      assert s == [x] + rest;
      if x >= warm {
        BagCons(x, AtLeast(rest, warm));
      } else {
        BagCons(x, Under(rest, warm));
      }
    }
  }

  /** `walk` and `turn`. */
  function WalkOf(values: seq<real>, warm: Option<real>): (seq<real>, nat) {
    if warm.None? then (values, 0)
    else
      var upper := Sorted(AtLeast(values, warm.value));
      var lower := Reversed(Sorted(Under(values, warm.value)));
      (upper + lower, |upper|)
  }

  /** The walk visits every sweep value, each as often as it is listed. */
  lemma WalkIsAPermutation(values: seq<real>, warm: Option<real>)
    ensures multiset(WalkOf(values, warm).0) == multiset(values)
    ensures warm.None? ==> WalkOf(values, warm) == (values, 0)
  {
    if warm.Some? {
      var up, down := AtLeast(values, warm.value), Under(values, warm.value);
      SplitByWarm(values, warm.value);
      SortedIs(up);
      SortedIs(down);
      ReversedIs(Sorted(down));
    }
  }

  lemma WalkParts(values: seq<real>, warm: real)
    ensures var (walk, turn) := WalkOf(values, Some(warm));
      && turn <= |walk| && Rising(walk[..turn]) && Falling(walk[turn..])
      && (forall v <- walk[..turn] :: v >= warm) && forall v <- walk[turn..] :: v < warm
  {
    var up, down := AtLeast(values, warm), Under(values, warm);
    SplitByWarm(values, warm);
    SortedIs(up);
    SortedIs(down);
    ReversedIs(Sorted(down));
    var (walk, turn) := WalkOf(values, Some(warm));
    assert walk[..turn] == Sorted(up) && walk[turn..] == Reversed(Sorted(down));
    forall v <- walk[..turn] ensures v >= warm { assert v in multiset(Sorted(up)); assert v in up; }
    forall v <- walk[turn..] ensures v < warm { assert v in multiset(Reversed(Sorted(down))); assert v in down; }
  }

  /** From the warm point it climbs, and after the turn it descends. */
  lemma WalkClimbsThenDescends(values: seq<real>, warm: real, i: nat, j: nat)
    requires i <= j < |WalkOf(values, Some(warm)).0|
    ensures var (walk, turn) := WalkOf(values, Some(warm));
      && turn <= |walk| && (j < turn ==> warm <= walk[i] <= walk[j]) && (turn <= i ==> warm > walk[i] >= walk[j])
      && (i < turn <= j ==> walk[i] >= warm > walk[j])
  {
    WalkParts(values, warm);
    var (walk, turn) := WalkOf(values, Some(warm));
    if i < turn { assert walk[..turn][i] == walk[i] && walk[i] in walk[..turn]; }
    if j < turn { assert walk[..turn][j] == walk[j]; }
    if turn <= i { assert walk[turn..][i - turn] == walk[i] && walk[i] in walk[turn..]; }
    if turn <= j { assert walk[turn..][j - turn] == walk[j] && walk[j] in walk[turn..]; }
  }

  // ------------------------------------------------------------ what is recorded

  /** A step combination, `dict.items()` in order. */
  type Combination = seq<(string, real)>

  /** A bias point of the plan. */
  datatype Point = Point(steps: Combination, sweep: real)

  /** A row, with the voltages the currents were read at. */
  datatype Row = Row(point: Point, applied: Voltages)

  /** A point without a row: the walk stuck short of it, or its curve could not
      be started at all. */
  datatype Failure = Failure(point: Point, stuckAt: Option<real>)

  /** A line of iv.jsonl. */
  datatype Line = Moving(steps: Combination) | Done(point: Point, ok: bool)

  function Points(rows: seq<Row>): seq<Point> {
    seq(|rows|, i requires 0 <= i < |rows| => rows[i].point)
  }

  function Missed(failures: seq<Failure>): seq<Point> {
    seq(|failures|, i requires 0 <= i < |failures| => failures[i].point)
  }

  /** One curve of the plan, as a multiset. */
  function Curve(c: Combination, values: seq<real>): multiset<Point> {
    if values == [] then multiset{} else Curve(c, values[..|values|-1]) + multiset{Point(c, values[|values|-1])}
  }

  /** The whole plan. */
  function Plan(steps: seq<Combination>, values: seq<real>): multiset<Point> {
    if steps == [] then multiset{} else Plan(steps[..|steps|-1], values) + Curve(steps[|steps|-1], values)
  }

  lemma {:induction false} CurveCounts(c: Combination, values: seq<real>, p: Point)
    ensures Curve(c, values)[p] == if p.steps == c then multiset(values)[p.sweep] else 0
    ensures |Curve(c, values)| == |values|
  {
    if values != [] {
      CurveCounts(c, values[..|values|-1], p);
      assert values == values[..|values|-1] + [values[|values|-1]];
    }
  }

  lemma CurveInAnyOrder(c: Combination, values: seq<real>, walk: seq<real>)
    requires multiset(walk) == multiset(values)
    ensures Curve(c, walk) == Curve(c, values)
  {
    forall p ensures Curve(c, walk)[p] == Curve(c, values)[p] {
      CurveCounts(c, values, p);
      CurveCounts(c, walk, p);
    }
  }

  lemma {:induction false} PlanSize(steps: seq<Combination>, values: seq<real>)
    ensures |Plan(steps, values)| == |steps| * |values|
  {
    if steps != [] {
      PlanSize(steps[..|steps|-1], values);
      CurveCounts(steps[|steps|-1], values, Point([], 0.0));
      assert |steps| * |values| == (|steps| - 1) * |values| + |values|;
    }
  }

  /** The lists and the file a run fills. */
  datatype Log = Log(rows: seq<Row>, failures: seq<Failure>, stream: seq<Line>)

  /** The points of the lines that say ok, or of those that do not. */
  function Lines(stream: seq<Line>, ok: bool): seq<Point> {
    if stream == [] then []
    else
      var last := stream[|stream|-1];
      Lines(stream[..|stream|-1], ok) + if last.Done? && last.ok == ok then [last.point] else []
  }

  /** A failure is recorded for a reason. */
  predicate Justified(f: Failure) {
    f.stuckAt.Some? ==> Abs(f.stuckAt.value - f.point.sweep) > TINY
  }

  /** The rows and failures are the part `done` of the plan. */
  predicate Tallied(log: Log, done: multiset<Point>) {
    multiset(Points(log.rows)) + multiset(Missed(log.failures)) == done
  }

  /** The stream tells the same in the same order. */
  predicate Told(log: Log) {
    Lines(log.stream, true) == Points(log.rows) && Lines(log.stream, false) == Missed(log.failures)
  }

  /** What has been recorded so far: every row was read where it says, and every
      failure has its reason. */
  ghost predicate Recorded(log: Log, sweepName: string, done: multiset<Point>) {
    && Tallied(log, done) && Told(log)
    && (forall r <- log.rows :: ReadThere(r, sweepName)) && forall f <- log.failures :: Justified(f)
  }

  /** No bias twice in the combination, and not the swept one. */
  predicate Separate(c: Combination, sweepName: string) {
    && (forall i, j :: 0 <= i < j < |c| ==> c[i].0 != c[j].0)
    && (forall i :: 0 <= i < |c| ==> c[i].0 != sweepName)
  }

  ghost predicate Holds(applied: Voltages, c: Combination) {
    forall i :: 0 <= i < |c| ==> Near(applied, c[i].0, c[i].1)
  }

  /** The currents of a row belong to its own bias point. */
  ghost predicate ReadThere(r: Row, sweepName: string) {
    && Near(r.applied, sweepName, r.point.sweep)
    && (Separate(r.point.steps, sweepName) ==> Holds(r.applied, r.point.steps))
  }

  lemma LinesSnoc(stream: seq<Line>, l: Line, ok: bool)
    ensures var more := if l.Done? && l.ok == ok then [l.point] else [];
      Lines(stream + [l], ok) == Lines(stream, ok) + more
  {
    assert (stream + [l])[..|stream|] == stream;
  }

  lemma BagSnoc<T>(a: seq<T>, b: seq<T>, x: T)
    ensures multiset(a) + multiset(b + [x]) == multiset(a) + multiset(b) + multiset{x}
    ensures multiset(b + [x]) + multiset(a) == multiset(b) + multiset(a) + multiset{x}
  {
  }

  function LogRow(log: Log, r: Row): Log {
    Log(log.rows + [r], log.failures, log.stream + [Done(r.point, true)])
  }

  /** give_up() */
  function LogFailure(log: Log, f: Failure): Log {
    Log(log.rows, log.failures + [f], log.stream + [Done(f.point, false)])
  }

  function LogMoving(log: Log, c: Combination): Log {
    log.(stream := log.stream + [Moving(c)])
  }

  lemma TalliedMore(log: Log, done: multiset<Point>, r: Row, f: Failure)
    requires Tallied(log, done)
    ensures Tallied(LogRow(log, r), done + multiset{r.point})
    ensures Tallied(LogFailure(log, f), done + multiset{f.point})
  {
    assert Points(log.rows + [r]) == Points(log.rows) + [r.point];
    assert Missed(log.failures + [f]) == Missed(log.failures) + [f.point];
    BagSnoc(Missed(log.failures), Points(log.rows), r.point);
    BagSnoc(Points(log.rows), Missed(log.failures), f.point);
  }

  lemma ToldMore(log: Log, r: Row, f: Failure)
    requires Told(log)
    ensures Told(LogRow(log, r)) && Told(LogFailure(log, f))
  {
    LinesSnoc(log.stream, Done(r.point, true), true);
    LinesSnoc(log.stream, Done(r.point, true), false);
    LinesSnoc(log.stream, Done(f.point, false), true);
    LinesSnoc(log.stream, Done(f.point, false), false);
  }

  lemma FailureRecorded(log: Log, sweepName: string, done: multiset<Point>, f: Failure)
    requires Recorded(log, sweepName, done) && Justified(f)
    ensures Recorded(LogFailure(log, f), sweepName, done + multiset{f.point})
  {
    var r := Row(f.point, map[]);
    TalliedMore(log, done, r, f);
    ToldMore(log, r, f);
  }

  lemma RowRecorded(log: Log, sweepName: string, done: multiset<Point>, r: Row)
    requires Recorded(log, sweepName, done) && ReadThere(r, sweepName)
    ensures Recorded(LogRow(log, r), sweepName, done + multiset{r.point})
  {
    var f := Failure(r.point, None);
    TalliedMore(log, done, r, f);
    ToldMore(log, r, f);
  }

  lemma MovingRecorded(log: Log, sweepName: string, done: multiset<Point>, c: Combination)
    requires Recorded(log, sweepName, done)
    ensures Recorded(LogMoving(log, c), sweepName, done)
  {
    LinesSnoc(log.stream, Moving(c), true);
    LinesSnoc(log.stream, Moving(c), false);
  }

  // ------------------------------------------- what the simulator makes of a plan

  /** What a run is given: the simulator, and the swept bias. */
  datatype Bench = Bench(oracle: nat -> Outcome, sweepName: string)

  /** The biases of the combination, in order, until one cannot be reached. */
  ghost function SetUp(b: Bench, s: State, c: Combination): (r: (bool, State))
    ensures r.1.applied.Keys == s.applied.Keys
  {
    if c == [] then (true, s)
    else
      var k := |c| - 1;
      var t := SetUp(b, s, c[..k]);
      if t.0 then Ramps(b.oracle, t.1, c[k].0, c[k].1) else t
  }

  /** To the start of a curve; an empty sweep has none. */
  ghost function Started(
    b: Bench, s: State, start: Option<Voltages>, c: Combination, walk: seq<real>): (r: (bool, State))
    ensures r.0 ==> b.sweepName in r.1.applied
  {
    var t := SetUp(b, if start.Some? then s.(applied := start.value) else s, c);
    if !t.0 || walk == [] then (false, t.1) else Ramps(b.oracle, t.1, b.sweepName, walk[0])
  }

  /** One point of a curve. */
  ghost function Visit(b: Bench, s: State, c: Combination, value: real, log: Log): (r: (State, Log))
    requires b.sweepName in s.applied
    ensures r.0.applied.Keys == s.applied.Keys
  {
    var t, p := Reaches(b.oracle, s, b.sweepName, value), Point(c, value);
    (t, if Near(t.applied, b.sweepName, value) then LogRow(log, Row(p, t.applied))
        else LogFailure(log, Failure(p, Some(t.applied[b.sweepName]))))
  }

  /** At the turn the walk goes back to its start. */
  function TurnedBack(start: State, s: State, turn: nat, index: nat): State {
    if turn != 0 && index == turn then s.(applied := start.applied) else s
  }

  /** The first k points of a curve. */
  ghost function Visited(
    b: Bench, s: State, c: Combination, walk: seq<real>, turn: nat, log: Log, k: nat): (r: (State, Log))
    requires b.sweepName in s.applied && k <= |walk|
    ensures r.0.applied.Keys == s.applied.Keys
  {
    if k == 0 then (s, log)
    else
      var t := Visited(b, s, c, walk, turn, log, k - 1);
      var from := TurnedBack(s, t.0, turn, k - 1);
      Visit(b, from, c, walk[k - 1], t.1)
  }

  /** Every point of a curve that could not be started. */
  function GivenUp(c: Combination, values: seq<real>, log: Log): Log {
    if values == [] then log
    else
      var k := |values| - 1;
      LogFailure(GivenUp(c, values[..k], log), Failure(Point(c, values[k]), None))
  }

  /** Between two combinations: the solver, where the last curve started, the log. */
  datatype Course = Course(s: State, start: Option<Voltages>, log: Log)

  ghost function OneCurve(
    b: Bench, at: Course, c: Combination, values: seq<real>, warm: Option<real>, baseline: Voltages): Course
  {
    var (walk, turn) := WalkOf(values, warm);
    var log := if c != [] || at.start.Some? then LogMoving(at.log, c) else at.log;
    var t := Started(b, at.s, at.start, c, walk);
    if !t.0 then Course(t.1.(applied := baseline), None, GivenUp(c, values, log))
    else
      var v := Visited(b, t.1, c, walk, turn, log, |walk|);
      Course(v.0, Some(t.1.applied), v.1)
  }

  ghost function Curves(b: Bench, s: State, steps: seq<Combination>, values: seq<real>, warm: Option<real>): Course {
    if steps == [] then Course(s, None, Log([], [], []))
    else
      var k := |steps| - 1;
      OneCurve(b, Curves(b, s, steps[..k], values, warm), steps[k], values, warm, s.applied)
  }

  // ------------------------------------------------------- every point, only once

  lemma HoldsMore(applied: Voltages, c: Combination, k: nat)
    requires k < |c| && Holds(applied, c[..k]) && Near(applied, c[k].0, c[k].1)
    ensures Holds(applied, c[..k + 1])
  {
  }

  /** What one ramp leaves of the others. */
  lemma HoldsAfter(s: State, t: State, c: Combination, bias: string)
    requires Holds(s.applied, c) && (forall i :: 0 <= i < |c| ==> c[i].0 != bias)
    requires t.applied.Keys == s.applied.Keys && forall b <- s.applied :: b != bias ==> t.applied[b] == s.applied[b]
    ensures Holds(t.applied, c)
  {
    forall i | 0 <= i < |c| ensures Near(t.applied, c[i].0, c[i].1) {
      assert Near(s.applied, c[i].0, c[i].1);
    }
  }

  lemma {:induction false} SetUpHolds(b: Bench, s: State, c: Combination)
    requires SetUp(b, s, c).0 && Separate(c, b.sweepName)
    ensures Holds(SetUp(b, s, c).1.applied, c)
  {
    if c != [] {
      var k := |c| - 1;
      var t := SetUp(b, s, c[..k]).1;
      SetUpHolds(b, s, c[..k]);
      HoldsAfter(t, SetUp(b, s, c).1, c[..k], c[k].0);
      HoldsMore(SetUp(b, s, c).1.applied, c, k);
      assert c[..k + 1] == c;
    }
  }

  lemma StartedHolds(b: Bench, s: State, start: Option<Voltages>, c: Combination, walk: seq<real>)
    requires Started(b, s, start, c, walk).0
    ensures Separate(c, b.sweepName) ==> Holds(Started(b, s, start, c, walk).1.applied, c)
  {
    var s0 := if start.Some? then s.(applied := start.value) else s;
    if Separate(c, b.sweepName) {
      SetUpHolds(b, s0, c);
      HoldsAfter(SetUp(b, s0, c).1, Started(b, s, start, c, walk).1, c, b.sweepName);
    }
  }

  lemma VisitRecorded(b: Bench, s: State, c: Combination, value: real, log: Log, done: multiset<Point>)
    requires b.sweepName in s.applied && Recorded(log, b.sweepName, done)
    requires Separate(c, b.sweepName) ==> Holds(s.applied, c)
    ensures var r := Visit(b, s, c, value, log);
      && Recorded(r.1, b.sweepName, done + multiset{Point(c, value)})
      && (Separate(c, b.sweepName) ==> Holds(r.0.applied, c))
  {
    var t, p := Reaches(b.oracle, s, b.sweepName, value), Point(c, value);
    if Separate(c, b.sweepName) {
      HoldsAfter(s, t, c, b.sweepName);
    }
    if Near(t.applied, b.sweepName, value) {
      RowRecorded(log, b.sweepName, done, Row(p, t.applied));
    } else {
      FailureRecorded(log, b.sweepName, done, Failure(p, Some(t.applied[b.sweepName])));
    }
  }

  /** A point fails exactly if the simulator refuses four attempts short of it; the
      failure says where the walk stands then, between its start and the point. */
  lemma StuckWhereTheWalkEnds(b: Bench, s: State, c: Combination, value: real, log: Log)
    requires b.sweepName in s.applied
    ensures var w := WalkFrom(b.oracle, s, b.sweepName, value);
      var at, r := Position(WholeWalk(w), w.start), Visit(b, s, c, value, log);
      && Between(s.applied[b.sweepName], at, value)
      && r.0.applied == s.applied[b.sweepName := at] && r.0.calls == NextCall(w, WholeWalk(w))
      && (Abs(value - at) <= TINY ==>
            r.1.failures == log.failures && r.1.rows == log.rows + [Row(Point(c, value), r.0.applied)])
      && (Abs(value - at) > TINY ==>
            Fails(WholeWalk(w)) == 4 && r.1.rows == log.rows
            && r.1.failures == log.failures + [Failure(Point(c, value), Some(at))])
  {
    var w := WalkFrom(b.oracle, s, b.sweepName, value);
    var steps := WholeWalk(w);
    ClimbStaysBetween(w, steps, 0, |steps|);
    assert steps[..|steps|] == steps;
  }

  /** Each point is walked to from where the one before it ended, but the first one
      after the turn from where the curve began. */
  lemma LegStarts(b: Bench, s: State, c: Combination, walk: seq<real>, turn: nat, log: Log, k: nat)
    requires b.sweepName in s.applied && k < |walk|
    ensures var before := Visited(b, s, c, walk, turn, log, k);
      Visited(b, s, c, walk, turn, log, k + 1)
      == if turn > 0 && k == turn then Visit(b, State(s.applied, before.0.calls), c, walk[k], before.1)
         else Visit(b, before.0, c, walk[k], before.1)
  {
  }

  lemma CurveMore(c: Combination, walk: seq<real>, k: nat, done: multiset<Point>)
    requires 0 < k <= |walk|
    ensures done + Curve(c, walk[..k - 1]) + multiset{Point(c, walk[k - 1])} == done + Curve(c, walk[..k])
  {
    assert walk[..k][..k - 1] == walk[..k - 1];
  }

  /** Each point of a curve ends as one row or as one failure. */
  lemma {:induction false} VisitedRecorded(
    b: Bench, s: State, c: Combination, walk: seq<real>, turn: nat, log: Log, k: nat, done: multiset<Point>)
    requires b.sweepName in s.applied && k <= |walk| && Recorded(log, b.sweepName, done)
    requires Separate(c, b.sweepName) ==> Holds(s.applied, c)
    ensures var r := Visited(b, s, c, walk, turn, log, k);
      && Recorded(r.1, b.sweepName, done + Curve(c, walk[..k]))
      && (Separate(c, b.sweepName) ==> Holds(r.0.applied, c))
    decreases k
  {
    if k == 0 {
      assert done + Curve(c, walk[..0]) == done;
    } else {
      var t := Visited(b, s, c, walk, turn, log, k - 1);
      var from := TurnedBack(s, t.0, turn, k - 1);
      VisitedRecorded(b, s, c, walk, turn, log, k - 1, done);
      VisitRecorded(b, from, c, walk[k - 1], t.1, done + Curve(c, walk[..k - 1]));
      CurveMore(c, walk, k, done);
    }
  }

  lemma {:induction false} GivenUpRecorded(
    c: Combination, values: seq<real>, log: Log, sweepName: string, done: multiset<Point>)
    requires Recorded(log, sweepName, done)
    ensures Recorded(GivenUp(c, values, log), sweepName, done + Curve(c, values))
  {
    if values == [] {
      assert done + Curve(c, values) == done;
    } else {
      var k := |values| - 1;
      GivenUpRecorded(c, values[..k], log, sweepName, done);
      FailureRecorded(GivenUp(c, values[..k], log), sweepName, done + Curve(c, values[..k]),
        Failure(Point(c, values[k]), None));
      assert values[..|values|] == values;
      CurveMore(c, values, |values|, done);
    }
  }

  lemma OneCurveRecorded(
    b: Bench, at: Course, c: Combination, values: seq<real>, warm: Option<real>, baseline: Voltages,
    done: multiset<Point>)
    requires Recorded(at.log, b.sweepName, done)
    ensures Recorded(OneCurve(b, at, c, values, warm, baseline).log, b.sweepName, done + Curve(c, values))
  {
    var (walk, turn) := WalkOf(values, warm);
    var log := if c != [] || at.start.Some? then LogMoving(at.log, c) else at.log;
    var t := Started(b, at.s, at.start, c, walk);
    MovingRecorded(at.log, b.sweepName, done, c);
    if !t.0 {
      GivenUpRecorded(c, values, log, b.sweepName, done);
    } else {
      StartedHolds(b, at.s, at.start, c, walk);
      VisitedRecorded(b, t.1, c, walk, turn, log, |walk|, done);
      WalkIsAPermutation(values, warm);
      CurveInAnyOrder(c, values, walk);
      assert walk[..|walk|] == walk;
    }
  }

  /** Whatever the simulator does, every point of the plan is recorded once. */
  lemma {:induction false} CurvesRecorded(
    b: Bench, s: State, steps: seq<Combination>, values: seq<real>, warm: Option<real>)
    ensures Recorded(Curves(b, s, steps, values, warm).log, b.sweepName, Plan(steps, values))
  {
    if steps != [] {
      var k := |steps| - 1;
      CurvesRecorded(b, s, steps[..k], values, warm);
      OneCurveRecorded(b, Curves(b, s, steps[..k], values, warm), steps[k], values, warm, s.applied,
        Plan(steps[..k], values));
    }
  }

  /** A curve begins at the voltages kept from the start of the one before, if any,
      and its biases are set one after the other, as long as they can be reached. */
  lemma CurveBegins(b: Bench, s: State, start: Option<Voltages>, c: Combination, x: (string, real), walk: seq<real>)
    ensures start.Some? ==> Started(b, s, start, c, walk) == Started(b, State(start.value, s.calls), None, c, walk)
    ensures SetUp(b, s, []) == (true, s)
    ensures SetUp(b, s, c + [x])
         == if SetUp(b, s, c).0 then Ramps(b.oracle, SetUp(b, s, c).1, x.0, x.1) else SetUp(b, s, c)
  {
    assert (c + [x])[..|c|] == c;
  }

  /** A failure without a voltage for every value. */
  function AllLost(c: Combination, values: seq<real>): seq<Failure> {
    seq(|values|, i requires 0 <= i < |values| => Failure(Point(c, values[i]), None))
  }

  lemma {:induction false} GivenUpSays(c: Combination, values: seq<real>, log: Log)
    ensures GivenUp(c, values, log).rows == log.rows
    ensures GivenUp(c, values, log).failures == log.failures + AllLost(c, values)
  {
    if values != [] {
      GivenUpSays(c, values[..|values| - 1], log);
    }
  }

  /** A curve that cannot be started loses all its points, and the solver goes back
      to the baseline; one that can leaves its start for the next. */
  lemma CurveEnds(
    b: Bench, at: Course, c: Combination, values: seq<real>, warm: Option<real>, baseline: Voltages, walk: seq<real>)
    requires walk == WalkOf(values, warm).0
    ensures var t, r := Started(b, at.s, at.start, c, walk), OneCurve(b, at, c, values, warm, baseline);
      && (t.0 ==> r.start == Some(t.1.applied))
      && (!t.0 ==> r.start == None && r.s.applied == baseline && r.log.rows == at.log.rows)
      && (!t.0 ==> r.log.failures == at.log.failures + AllLost(c, values))
  {
    GivenUpSays(c, values, at.log);
    GivenUpSays(c, values, LogMoving(at.log, c));
  }

  lemma AllAccounted(log: Log, sweepName: string, steps: seq<Combination>, values: seq<real>)
    requires Recorded(log, sweepName, Plan(steps, values))
    ensures |log.rows| + |log.failures| == |values| * |steps|
    ensures |Lines(log.stream, true)| + |Lines(log.stream, false)| == |values| * |steps|
  {
    PlanSize(steps, values);
    assert |multiset(Points(log.rows)) + multiset(Missed(log.failures))| == |log.rows| + |log.failures|;
  }

  // ---------------------------------------------------- nothing lost without need

  /** Every bias of the plan is there. */
  predicate Known(applied: Voltages, c: Combination) {
    forall i :: 0 <= i < |c| ==> c[i].0 in applied
  }

  lemma {:induction false} SetUpArrives(b: Bench, s: State, c: Combination)
    requires (forall n :: Answer(b.oracle, n)) && Known(s.applied, c)
    ensures SetUp(b, s, c).0
  {
    if c != [] {
      var k := |c| - 1;
      assert forall i :: 0 <= i < k ==> c[..k][i] == c[i];
      SetUpArrives(b, s, c[..k]);
      AlwaysArrives(b.oracle, SetUp(b, s, c[..k]).1, c[k].0, c[k].1);
    }
  }

  lemma {:induction false} VisitedKeepsFailures(
    b: Bench, s: State, c: Combination, walk: seq<real>, turn: nat, log: Log, k: nat)
    requires b.sweepName in s.applied && k <= |walk| && forall n :: Answer(b.oracle, n)
    ensures Visited(b, s, c, walk, turn, log, k).1.failures == log.failures
    decreases k
  {
    if k > 0 {
      var t := Visited(b, s, c, walk, turn, log, k - 1);
      var from := TurnedBack(s, t.0, turn, k - 1);
      VisitedKeepsFailures(b, s, c, walk, turn, log, k - 1);
      AlwaysArrives(b.oracle, from, b.sweepName, walk[k - 1]);
    }
  }

  ghost predicate OnCourse(at: Course, keys: set<string>) {
    at.s.applied.Keys == keys && (at.start.Some? ==> at.start.value.Keys == keys) && at.log.failures == []
  }

  lemma OneCurveLosesNothing(
    b: Bench, at: Course, c: Combination, values: seq<real>, warm: Option<real>, baseline: Voltages)
    requires (forall n :: Answer(b.oracle, n)) && OnCourse(at, baseline.Keys)
    requires b.sweepName in baseline && Known(baseline, c)
    ensures OnCourse(OneCurve(b, at, c, values, warm, baseline), baseline.Keys)
  {
    var (walk, turn) := WalkOf(values, warm);
    var log := if c != [] || at.start.Some? then LogMoving(at.log, c) else at.log;
    var s := if at.start.Some? then at.s.(applied := at.start.value) else at.s;
    SetUpArrives(b, s, c);
    WalkIsAPermutation(values, warm);
    if walk == [] {
      assert |multiset(values)| == 0;
    } else {
      AlwaysArrives(b.oracle, SetUp(b, s, c).1, b.sweepName, walk[0]);
      VisitedKeepsFailures(b, Started(b, at.s, at.start, c, walk).1, c, walk, turn, log, |walk|);
    }
  }

  /** A simulator that refuses no attempt leaves no failure, if it knows the biases. */
  lemma {:induction false} NothingLost(
    b: Bench, s: State, steps: seq<Combination>, values: seq<real>, warm: Option<real>)
    requires (forall n :: Answer(b.oracle, n)) && b.sweepName in s.applied
    requires forall c <- steps :: Known(s.applied, c)
    ensures OnCourse(Curves(b, s, steps, values, warm), s.applied.Keys)
  {
    if steps != [] {
      var k := |steps| - 1;
      NothingLost(b, s, steps[..k], values, warm);
      OneCurveLosesNothing(b, Curves(b, s, steps[..k], values, warm), steps[k], values, warm, s.applied);
    }
  }

  // -------------------------------------------------------------------- the run

  /** The try block: to the start of the next curve. */
  method ToCurve(solver: Solver, start: Option<Voltages>, c: Combination, sweepName: string, walk: seq<real>)
    returns (ok: bool)
    requires solver.Valid() && (start.Some? ==> start.value.Keys == solver.groups.Keys)
    modifies solver
    ensures solver.Valid()
    ensures (ok, solver.Now()) == Started(Bench(solver.oracle, sweepName), old(solver.Now()), start, c, walk)
  {
    ghost var b := Bench(solver.oracle, sweepName);
    if start.Some? {
      solver.ResetTo(start.value);
    }
    ghost var s := solver.Now();
    for i := 0 to |c|
      invariant solver.Valid() && SetUp(b, s, c[..i]) == (true, solver.Now())
    {
      assert c[..i + 1][..i] == c[..i];
      var r, _ := solver.RampTo(c[i].0, c[i].1);
      if r.Error? {
        SetUpStops(b, s, c, i + 1);
        return false;
      }
    }
    assert c[..|c|] == c;
    if |walk| == 0 { return false; }
    var r, _ := solver.RampTo(sweepName, walk[0]);
    ok := r.Ok?;
  }

  lemma {:induction false} SetUpStops(b: Bench, s: State, c: Combination, k: nat)
    requires k <= |c| && !SetUp(b, s, c[..k]).0
    ensures SetUp(b, s, c) == SetUp(b, s, c[..k])
    decreases |c|
  {
    if k < |c| {
      assert c[..|c| - 1][..k] == c[..k];
      SetUpStops(b, s, c[..|c| - 1], k);
    } else {
      assert c[..k] == c;
    }
  }

  /** The body of the loop over one curve, past the turn. */
  method WalkPoint(solver: Solver, c: Combination, sweepName: string, value: real, log0: Log) returns (log: Log)
    requires solver.Valid() && sweepName in solver.groups
    modifies solver
    ensures solver.Valid()
    ensures (solver.Now(), log) == Visit(Bench(solver.oracle, sweepName), old(solver.Now()), c, value, log0)
  {
    ghost var s := solver.Now();
    var landed;
    ghost var steps;
    landed, steps := solver.Reached(sweepName, value);
    ReachesIs(solver.oracle, s, sweepName, value, steps);
    if Abs(landed - value) > TINY {
      return LogFailure(log0, Failure(Point(c, value), Some(landed)));
    }
    log := LogRow(log0, Row(Point(c, value), solver.applied));
  }

  /** The loop over one curve. */
  method WalkCurve(solver: Solver, c: Combination, sweepName: string, walk: seq<real>, turn: nat, log0: Log)
    returns (log: Log)
    requires solver.Valid() && sweepName in solver.groups
    modifies solver
    ensures solver.Valid()
    ensures var b := Bench(solver.oracle, sweepName);
      (solver.Now(), log) == Visited(b, old(solver.Now()), c, walk, turn, log0, |walk|)
  {
    log := log0;
    var start := solver.applied;
    ghost var b, s := Bench(solver.oracle, sweepName), solver.Now();
    for index := 0 to |walk|
      invariant solver.Valid() && (solver.Now(), log) == Visited(b, s, c, walk, turn, log0, index)
    {
      if turn != 0 && index == turn {
        solver.ResetTo(start);
      }
      assert solver.Now() == TurnedBack(s, Visited(b, s, c, walk, turn, log0, index).0, turn, index);
      log := WalkPoint(solver, c, sweepName, walk[index], log);
    }
  }

  /** give_up() for every point of a curve that could not be started. */
  method GiveUpCurve(c: Combination, values: seq<real>, log0: Log) returns (log: Log)
    ensures log == GivenUp(c, values, log0)
  {
    log := log0;
    for k := 0 to |values|
      invariant log == GivenUp(c, values[..k], log0)
    {
      assert values[..k + 1][..k] == values[..k];
      log := LogFailure(log, Failure(Point(c, values[k]), None));
    }
    assert values[..|values|] == values;
  }

  /** The body of the outer loop: one combination. */
  method RunCurve(
    solver: Solver, start0: Option<Voltages>, log0: Log, c: Combination, sweepName: string, values: seq<real>,
    warm: Option<real>, baseline: Voltages)
    returns (start: Option<Voltages>, log: Log)
    requires solver.Valid() && baseline.Keys == solver.groups.Keys
    requires start0.Some? ==> start0.value.Keys == solver.groups.Keys
    modifies solver
    ensures solver.Valid() && (start.Some? ==> start.value.Keys == solver.groups.Keys)
    ensures var b := Bench(solver.oracle, sweepName);
      Course(solver.Now(), start, log)
      == OneCurve(b, Course(old(solver.Now()), start0, log0), c, values, warm, baseline)
  {
    var (walk, turn) := WalkOf(values, warm);
    log := if c != [] || start0.Some? then LogMoving(log0, c) else log0;
    ghost var b, s := Bench(solver.oracle, sweepName), solver.Now();
    var ok := ToCurve(solver, start0, c, sweepName, walk);
    if !ok {
      solver.ResetTo(baseline);
      log := GiveUpCurve(c, values, log);
      return None, log;
    }
    start := Some(solver.applied);
    log := WalkCurve(solver, c, sweepName, walk, turn, log);
  }

  /** run(), from the order of the walk on: whatever the simulator does, every
      point of the plan is recorded once, as a row or as a failure, and as the
      simulator answered. */
  method Run(solver: Solver, steps: seq<Combination>, sweepName: string, values: seq<real>, warm: Option<real>)
    returns (log: Log)
    requires solver.Valid()
    modifies solver
    ensures log == Curves(Bench(solver.oracle, sweepName), old(solver.Now()), steps, values, warm).log
    ensures Recorded(log, sweepName, Plan(steps, values))
    ensures |log.rows| + |log.failures| == |values| * |steps|
  {
    var baseline := solver.applied;
    var start: Option<Voltages> := None;
    log := Log([], [], []);
    ghost var b, s := Bench(solver.oracle, sweepName), solver.Now();
    for i := 0 to |steps|
      invariant solver.Valid() && baseline.Keys == solver.groups.Keys
      invariant start.Some? ==> start.value.Keys == solver.groups.Keys
      invariant Course(solver.Now(), start, log) == Curves(b, s, steps[..i], values, warm)
    {
      assert steps[..i + 1][..i] == steps[..i];
      start, log := RunCurve(solver, start, log, steps[i], sweepName, values, warm, baseline);
    }
    assert steps[..|steps|] == steps;
    CurvesRecorded(b, s, steps, values, warm);
    AllAccounted(log, sweepName, steps, values);
  }

  // --------------------------------------------------------------- the progress

  /** A line as the reader meets it: it may be empty, or cut off in the middle. */
  datatype Text = Blank | Broken | Whole(line: Line)

  datatype Latest = MovingTo(steps: Combination) | Skipped(point: Point) | PointSolved(point: Point)

  datatype Progress = Progress(done: nat, total: int, latest: Option<Latest>)

  function CountDone(lines: seq<Text>): nat {
    if lines == [] then 0
    else
      var last := lines[|lines|-1];
      CountDone(lines[..|lines|-1]) + if last.Whole? && last.line.Done? then 1 else 0
  }

  function Describe(l: Line): Latest {
    match l
    case Moving(c) => MovingTo(c)
    case Done(p, ok) => if ok then PointSolved(p) else Skipped(p)
  }

  function LatestOf(lines: seq<Text>): Option<Latest> {
    if lines == [] then None
    else if lines[|lines|-1].Whole? then Some(Describe(lines[|lines|-1].line))
    else LatestOf(lines[..|lines|-1])
  }

  lemma {:induction false} CountIs(lines: seq<Text>)
    ensures CountDone(lines) == |set i | 0 <= i < |lines| && lines[i].Whole? && lines[i].line.Done?|
  {
    if lines != [] {
      var k := |lines| - 1;
      CountIs(lines[..k]);
      var before := set i | 0 <= i < k && lines[..k][i].Whole? && lines[..k][i].line.Done?;
      var all := set i | 0 <= i < |lines| && lines[i].Whole? && lines[i].line.Done?;
      assert all == if lines[k].Whole? && lines[k].line.Done? then before + {k} else before;
    }
  }

  /** The last whole line is the one described. */
  lemma {:induction false} LatestIs(lines: seq<Text>, k: nat)
    requires k < |lines| && lines[k].Whole? && forall i :: k < i < |lines| ==> !lines[i].Whole?
    ensures var l := lines[k].line;
      && (l.Moving? ==> LatestOf(lines) == Some(MovingTo(l.steps)))
      && (l.Done? && l.ok ==> LatestOf(lines) == Some(PointSolved(l.point)))
      && (l.Done? && !l.ok ==> LatestOf(lines) == Some(Skipped(l.point)))
  {
    if k < |lines| - 1 {
      LatestIs(lines[..|lines| - 1], k);
    }
  }

  /** scan_devsim_progress(), on the lines of the file. */
  method Scan(lines: seq<Text>, total: int) returns (r: Option<Progress>)
    ensures r.None? <==> total <= 0
    ensures r.Some? ==> r.value == Progress(CountDone(lines), total, LatestOf(lines))
  {
    if total <= 0 { return None; }
    var done, latest: Option<Latest> := 0, None;
    for i := 0 to |lines|
      invariant done == CountDone(lines[..i]) && latest == LatestOf(lines[..i])
    {
      assert lines[..i + 1][..i] == lines[..i];
      var line := lines[i];
      if !line.Whole? { continue; }
      if line.line.Moving? {
        latest := Some(MovingTo(line.line.steps));
        continue;
      }
      done := done + 1;
      latest := Some(if line.line.ok then PointSolved(line.line.point) else Skipped(line.line.point));
    }
    assert lines[..|lines|] == lines;
    r := Some(Progress(done, total, latest));
  }

  /** The file while the run is under way: the first k lines, and perhaps the
      beginning of the next one. */
  function FileAt(stream: seq<Line>, k: nat, cut: bool): seq<Text>
    requires k <= |stream|
  {
    seq(k, i requires 0 <= i < k => Whole(stream[i])) + if cut then [Broken] else []
  }

  lemma {:induction false} CountIsLines(stream: seq<Line>, k: nat, cut: bool)
    requires k <= |stream|
    ensures CountDone(FileAt(stream, k, cut)) == |Lines(stream[..k], true)| + |Lines(stream[..k], false)|
  {
    var whole := FileAt(stream, k, false);
    if cut {
      assert FileAt(stream, k, true)[..k] == whole;
      CountIsLines(stream, k, false);
    } else if k > 0 {
      assert whole[..k - 1] == FileAt(stream, k - 1, false);
      assert stream[..k][..k - 1] == stream[..k - 1];
      CountIsLines(stream, k - 1, false);
    }
  }

  lemma {:induction false} LinesGrow(stream: seq<Line>, k: nat, ok: bool)
    requires k <= |stream|
    ensures |Lines(stream[..k], ok)| <= |Lines(stream, ok)|
    decreases |stream|
  {
    if k < |stream| {
      LinesGrow(stream[..|stream|-1], k, ok);
      assert stream[..|stream|-1][..k] == stream[..k];
    } else {
      assert stream[..k] == stream;
    }
  }

  /** Whenever the file is read, the count is at most the number of points, and
      when the run is over it is that number. */
  lemma ProgressIsTrue(
    log: Log, sweepName: string, steps: seq<Combination>, values: seq<real>, k: nat, cut: bool)
    requires Recorded(log, sweepName, Plan(steps, values)) && k <= |log.stream|
    ensures CountDone(FileAt(log.stream, k, cut)) <= |values| * |steps|
    ensures CountDone(FileAt(log.stream, |log.stream|, false)) == |values| * |steps|
  {
    AllAccounted(log, sweepName, steps, values);
    CountIsLines(log.stream, k, cut);
    CountIsLines(log.stream, |log.stream|, false);
    LinesGrow(log.stream, k, true);
    LinesGrow(log.stream, k, false);
    assert log.stream[..|log.stream|] == log.stream;
  }
}
