/** jobs/queue.py: the job table as a queue. */
module JobQueues {
  import opened Options
  import opened FiniteSets

  datatype Status = QUEUED | RUNNING | SUCCEEDED | FAILED | TIMED_OUT | CANCELLED

  predicate IsTerminal(s: Status) {
    s != QUEUED && s != RUNNING
  }

  datatype Job = Job(
    owner: int,
    workdir: string,
    status: Status,
    createdAt: int,
    startedAt: Option<int>,
    finishedAt: Option<int>,
    log: Option<string>,
    exitCode: Option<int>)

  type Rows = map<int, Job>

  function NewJob(owner: int, workdir: string, now: int): Job {
    Job(owner, workdir, QUEUED, now, None, None, None, None)
  }

  function WithStatus(rows: Rows, s: Status): set<int> {
    set id | id in rows && rows[id].status == s
  }

  function Running(rows: Rows): set<int> {
    WithStatus(rows, RUNNING)
  }

  /** `order_by(created_at, id)` */
  predicate Before(rows: Rows, a: int, b: int)
    requires a in rows && b in rows
  {
    rows[a].createdAt < rows[b].createdAt || (rows[a].createdAt == rows[b].createdAt && a <= b)
  }

  /** The first queued job. */
  predicate IsFirst(rows: Rows, id: int) {
    id in WithStatus(rows, QUEUED) && forall j <- WithStatus(rows, QUEUED) :: Before(rows, id, j)
  }

  lemma {:induction false} HasFirst(rows: Rows, s: set<int>)
    requires s != {} && forall id <- s :: id in rows
    ensures exists id <- s :: forall j <- s :: Before(rows, id, j)
  {
    HasMember(s);
    var x :| x in s;
    if s == {x} {
      assert forall j <- s :: Before(rows, x, j);
    } else {
      HasFirst(rows, s - {x});
      var m :| m in s - {x} && forall j <- s - {x} :: Before(rows, m, j);
      var id := if Before(rows, x, m) then x else m;
      assert s == (s - {x}) + {x};
      assert id in s && forall j <- s :: Before(rows, id, j);
    }
  }

  // ---------------------------------------- the statements sent to the database

  function Enqueued(rows: Rows, id: int, job: Job): Rows {
    rows[id := job]
  }

  /** The guarded UPDATE of claim_next(). */
  function Claimed(rows: Rows, id: int, now: int): Rows {
    if id in rows && rows[id].status == QUEUED
    then rows[id := rows[id].(status := RUNNING, startedAt := Some(now))] else rows
  }

  /** The guarded UPDATE of mark_finished(). */
  function Finished(rows: Rows, id: int, status: Status, log: string, exitCode: Option<int>, now: int): Rows {
    if id in rows && rows[id].status == RUNNING
    then rows[id := rows[id].(status := status, log := Some(log), exitCode := exitCode,
        finishedAt := Some(now))] else rows
  }

  /** The guarded UPDATE of cancel(). */
  function Withdrawn(rows: Rows, id: int, now: int): Rows {
    if id in rows && !IsTerminal(rows[id].status)
    then rows[id := rows[id].(status := CANCELLED, finishedAt := Some(now))] else rows
  }

  predicate IsStale(job: Job, cutoff: int) {
    job.status == RUNNING && job.startedAt.Some? && job.startedAt.value < cutoff
  }

  function Stale(rows: Rows, cutoff: int): set<int> {
    set id | id in rows && IsStale(rows[id], cutoff)
  }

  /** The UPDATE of requeue_stale(). */
  function Requeued(rows: Rows, cutoff: int): Rows {
    map id | id in rows ::
      if IsStale(rows[id], cutoff) then rows[id].(status := QUEUED, startedAt := None) else rows[id]
  }

  // --------------------------------------------------------------- the object

  /** Each database statement is one step; the steps of one call are only run
      back to back when nobody else is at work. */
  class JobQueue {
    var rows: Rows
    const maxConcurrent: int

    constructor (max: int)
      ensures rows == map[] && maxConcurrent == max
    {
      rows := map[];
      maxConcurrent := max;
    }

    /** enqueue(); the database hands out an id not in use. */
    method Enqueue(id: int, owner: int, workdir: string, now: int)
      requires id !in rows
      modifies this
      ensures rows == old(rows)[id := Job(owner, workdir, QUEUED, now, None, None, None, None)]
    {
      rows := rows[id := Job(owner, workdir, QUEUED, now, None, None, None, None)];
    }

    method RunningCount() returns (n: nat)
      ensures n == |Running(rows)|
    {
      n := |WithStatus(rows, RUNNING)|;
    }

    /** The SELECT of claim_next(). */
    method Candidate() returns (r: Option<int>)
      ensures r.None? <==> WithStatus(rows, QUEUED) == {}
      ensures r.Some? ==> IsFirst(rows, r.value)
      ensures r.Some? ==> r.value in rows && rows[r.value].status == QUEUED && forall j <- rows ::
        rows[j].status == QUEUED ==> var a, b := rows[r.value].createdAt, rows[j].createdAt;
          a < b || (a == b && r.value <= j)
    {
      var queued := WithStatus(rows, QUEUED);
      if queued == {} { return None; }
      HasFirst(rows, queued);
      var id :| id in queued && forall j <- queued :: Before(rows, id, j);
      FirstIsOldest(rows, id);
      r := Some(id);
    }

    /** The UPDATE of claim_next(), with its row count. */
    method Take(id: int, now: int) returns (hit: bool)
      modifies this
      ensures rows == Claimed(old(rows), id, now)
      ensures hit <==> id in old(rows) && old(rows)[id].status == QUEUED
      ensures hit ==>
        var was := old(rows)[id]; rows == old(rows)[id := was.(status := RUNNING, startedAt := Some(now))]
      ensures !hit ==> rows == old(rows)
    {
      hit := id in rows && rows[id].status == QUEUED;
      if hit {
        rows := rows[id := rows[id].(status := RUNNING, startedAt := Some(now))];
      }
    }

    /** claim_next() when nothing comes in between: the oldest queued job starts,
        unless the cap is reached; the cap is kept. */
    method ClaimNext(now: int) returns (r: Option<int>)
      modifies this
      ensures r.None? <==> |Running(old(rows))| >= maxConcurrent || WithStatus(old(rows), QUEUED) == {}
      ensures r.None? ==> rows == old(rows)
      ensures r.Some? ==> IsFirst(old(rows), r.value) && rows == Claimed(old(rows), r.value, now)
      ensures r.Some? ==> forall j <- old(rows) :: old(rows)[j].status == QUEUED ==>
        var a, b := old(rows)[r.value].createdAt, old(rows)[j].createdAt; a < b || (a == b && r.value <= j)
      ensures r.Some? ==> Running(rows) == Running(old(rows)) + {r.value} && |Running(rows)| <= maxConcurrent
    {
      var n := RunningCount();
      if n >= maxConcurrent { return None; }
      var candidate := Candidate();
      if candidate.None? { return None; }
      ClaimGrows(rows, candidate.value, now);
      var hit := Take(candidate.value, now);
      if !hit { assert false; }
      r := candidate;
    }

    /** mark_finished(): only a running job ends here. */
    method MarkFinished(id: int, status: Status, log: string, exitCode: Option<int>, now: int) returns (r: Result<()>)
      modifies this
      ensures r.Error? <==> status == QUEUED || status == RUNNING
      ensures r.Error? ==> rows == old(rows)
      ensures r.Ok? ==> rows == Finished(old(rows), id, status, log, exitCode, now)
      ensures r.Ok? && id in old(rows) && old(rows)[id].status == RUNNING ==>
        var was := old(rows)[id]; rows == old(rows)[id :=
          was.(status := status, log := Some(log), exitCode := exitCode, finishedAt := Some(now))]
      ensures !(id in old(rows) && old(rows)[id].status == RUNNING) ==> rows == old(rows)
    {
      if !IsTerminal(status) { return Error; }
      if id in rows && rows[id].status == RUNNING {
        rows := rows[id := rows[id].(status := status, log := Some(log), exitCode := exitCode,
            finishedAt := Some(now))];
      }
      r := Ok(());
    }

    /** cancel() when nothing comes in between: the job as it was. */
    method Cancel(id: int, now: int) returns (r: Option<Job>)
      modifies this
      ensures r == (if id in old(rows) && !IsTerminal(old(rows)[id].status) then Some(old(rows)[id]) else None)
      ensures rows == Withdrawn(old(rows), id, now)
      ensures r.Some? ==>
        var was := old(rows)[id]; rows == old(rows)[id := was.(status := CANCELLED, finishedAt := Some(now))]
      ensures r.None? ==> rows == old(rows)
    {
      if id !in rows || IsTerminal(rows[id].status) { return None; }
      var before := rows[id];
      rows := rows[id := rows[id].(status := CANCELLED, finishedAt := Some(now))];
      r := Some(before);
    }

    /** requeue_stale(): the number of jobs put back. */
    method RequeueStale(now: int, maxRuntime: int) returns (n: nat)
      modifies this
      ensures rows == Requeued(old(rows), now - maxRuntime) && n == |Stale(old(rows), now - maxRuntime)|
      ensures Running(rows) == Running(old(rows)) - Stale(old(rows), now - maxRuntime)
      ensures rows.Keys == old(rows).Keys
      ensures forall id <- rows :: var was := old(rows)[id];
        rows[id] ==
          if was.status == RUNNING && was.startedAt.Some? && was.startedAt.value < now - maxRuntime
          then was.(status := QUEUED, startedAt := None) else was
    {
      var cutoff := now - maxRuntime;
      n := |Stale(rows, cutoff)|;
      rows := Requeued(rows, cutoff);
    }
  }

  lemma FirstIsOldest(rows: Rows, id: int)
    requires IsFirst(rows, id)
    ensures id in rows && rows[id].status == QUEUED && forall j <- rows ::
      rows[j].status == QUEUED ==> var a, b := rows[id].createdAt, rows[j].createdAt;
        a < b || (a == b && id <= j)
  {
    forall j <- rows | rows[j].status == QUEUED ensures Before(rows, id, j) {
      assert j in WithStatus(rows, QUEUED);
    }
  }

  lemma ClaimGrows(rows: Rows, id: int, now: int)
    requires id in WithStatus(rows, QUEUED)
    ensures Running(Claimed(rows, id, now)) == Running(rows) + {id} && id !in Running(rows)
    ensures |Running(Claimed(rows, id, now))| == |Running(rows)| + 1
  {
    assert Running(Claimed(rows, id, now)) == Running(rows) + {id};
  }

  // ------------------------------------------------------------ interleavings

  /** Where a call of claim_next() stands between its statements. */
  datatype Phase = Counted | Chosen(id: int)

  /** The table, the calls of claim_next() in flight, and the calls of cancel()
      in flight with the job each one read. */
  datatype World = World(rows: Rows, claims: map<int, Phase>, cancels: map<int, (int, Job)>)

  datatype Event =
    | Enqueue(id: int, owner: int, workdir: string, now: int)
    | Count(claimer: int)
    | Choose(claimer: int, choice: Option<int>)
    | Take(claimer: int, now: int)
    | Finish(id: int, status: Status, log: string, exitCode: Option<int>, now: int)
    | ReadToCancel(caller: int, id: int)
    | WriteCancel(caller: int, now: int)
    | Requeue(cutoff: int)

  predicate Enabled(w: World, e: Event) {
    match e
    case Enqueue(id, _, _, _) => id !in w.rows
    case Count(c) => c !in w.claims
    case Choose(c, choice) =>
      && c in w.claims && w.claims[c] == Counted
      && (if choice.Some? then IsFirst(w.rows, choice.value) else WithStatus(w.rows, QUEUED) == {})
    case Take(c, _) => c in w.claims && w.claims[c].Chosen?
    case Finish(_, status, _, _, _) => IsTerminal(status)
    case ReadToCancel(k, _) => k !in w.cancels
    case WriteCancel(k, _) => k in w.cancels
    case Requeue(_) => true
  }

  function Apply(max: int, w: World, e: Event): World
    requires Enabled(w, e)
  {
    match e
    case Enqueue(id, owner, workdir, now) => w.(rows := Enqueued(w.rows, id, NewJob(owner, workdir, now)))
    case Count(c) => if |Running(w.rows)| >= max then w else w.(claims := w.claims[c := Counted])
    case Choose(c, choice) =>
      if choice.Some? then w.(claims := w.claims[c := Chosen(choice.value)]) else w.(claims := w.claims - {c})
    case Take(c, now) => w.(rows := Claimed(w.rows, w.claims[c].id, now), claims := w.claims - {c})
    case Finish(id, status, log, exitCode, now) => w.(rows := Finished(w.rows, id, status, log, exitCode, now))
    case ReadToCancel(k, id) =>
      if id in w.rows && !IsTerminal(w.rows[id].status) then w.(cancels := w.cancels[k := (id, w.rows[id])]) else w
    case WriteCancel(k, now) => w.(rows := Withdrawn(w.rows, w.cancels[k].0, now), cancels := w.cancels - {k})
    case Requeue(cutoff) => w.(rows := Requeued(w.rows, cutoff))
  }

  const EMPTY: World := World(map[], map[], map[])

  /** Event i leads from world i to the next. */
  predicate Stepped(max: int, ws: seq<World>, es: seq<Event>, i: nat)
    requires |ws| == |es| + 1 && i < |es|
  {
    Enabled(ws[i], es[i]) && ws[i + 1] == Apply(max, ws[i], es[i])
  }

  /** ws are the worlds that the events es lead through, from an empty table. */
  ghost predicate Run(max: int, ws: seq<World>, es: seq<Event>) {
    |ws| == |es| + 1 && ws[0] == EMPTY && forall i :: 0 <= i < |es| ==> Stepped(max, ws, es, i)
  }

  function StatusOf(w: World, id: int): Option<Status> {
    if id in w.rows then Some(w.rows[id].status) else None
  }

  // ------------------------------------------------ what becomes of a row, and why

  /** A claim, a result, a cancel and a put-back that hit job id. */
  predicate Starts(w: World, e: Event, id: int) {
    e.Take? && e.claimer in w.claims && w.claims[e.claimer] == Chosen(id) && StatusOf(w, id) == Some(QUEUED)
  }

  predicate Ends(w: World, e: Event, id: int) {
    e.Finish? && e.id == id && StatusOf(w, id) == Some(RUNNING)
  }

  predicate Cancels(w: World, e: Event, id: int) {
    e.WriteCancel? && e.caller in w.cancels && w.cancels[e.caller].0 == id
    && (StatusOf(w, id) == Some(QUEUED) || StatusOf(w, id) == Some(RUNNING))
  }

  predicate Overdue(w: World, e: Event, id: int) {
    e.Requeue? && StatusOf(w, id) == Some(RUNNING)
    && w.rows[id].startedAt.Some? && w.rows[id].startedAt.value < e.cutoff
  }

  /** One event and the row of one job, field by field. */
  lemma RowAfter(max: int, w: World, e: Event, id: int)
    requires Enabled(w, e) && id in w.rows
    ensures id in Apply(max, w, e).rows
    ensures var row, was := Apply(max, w, e).rows[id], w.rows[id];
      && (Starts(w, e, id) ==> row == was.(status := RUNNING, startedAt := Some(e.now)))
      && (Ends(w, e, id) ==>
            row == was.(status := e.status, log := Some(e.log), exitCode := e.exitCode, finishedAt := Some(e.now)))
      && (Cancels(w, e, id) ==> row == was.(status := CANCELLED, finishedAt := Some(e.now)))
      && (Overdue(w, e, id) ==> row == was.(status := QUEUED, startedAt := None))
      && (!Starts(w, e, id) && !Ends(w, e, id) && !Cancels(w, e, id) && !Overdue(w, e, id) ==> row == was)
  {
  }

  /** A row appears by being enqueued, and only so. */
  lemma NewRow(max: int, w: World, e: Event, id: int)
    requires Enabled(w, e) && id !in w.rows
    ensures id in Apply(max, w, e).rows <==> e.Enqueue? && e.id == id
    ensures e.Enqueue? && e.id == id ==>
      Apply(max, w, e).rows[id] == Job(e.owner, e.workdir, QUEUED, e.now, None, None, None, None)
  {
  }

  /** Every job was enqueued once, and its owner, its directory and its time of
      creation are still those. */
  lemma {:induction false} EnqueuedOnce(max: int, ws: seq<World>, es: seq<Event>, j: nat, id: int) returns (i: nat)
    requires Run(max, ws, es) && j < |ws| && id in ws[j].rows
    ensures i < j && es[i].Enqueue? && es[i].id == id
    ensures var row := ws[j].rows[id];
      row.owner == es[i].owner && row.workdir == es[i].workdir && row.createdAt == es[i].now
    ensures forall k :: 0 <= k < |es| && es[k].Enqueue? && es[k].id == id ==> k == i
    decreases j
  {
    i := j - 1;
    assert Stepped(max, ws, es, i);
    if id in ws[i].rows {
      RowAfter(max, ws[i], es[i], id);
      i := EnqueuedOnce(max, ws, es, i, id);
    } else {
      NewRow(max, ws[i], es[i], id);
      forall k | 0 <= k < |es| && es[k].Enqueue? && es[k].id == id ensures k == i {
        NotTwice(max, ws, es, i, k, id);
      }
    }
  }

  lemma NotTwice(max: int, ws: seq<World>, es: seq<Event>, i: nat, k: nat, id: int)
    requires Run(max, ws, es) && i < |es| && k < |es| && id !in ws[i].rows && id in ws[i + 1].rows
    requires es[k].Enqueue? && es[k].id == id
    ensures k == i
  {
    assert Stepped(max, ws, es, k);
    if k < i {
      RowsStay(max, ws, es, k + 1, i, id);
    } else if i < k {
      RowsStay(max, ws, es, i + 1, k, id);
    }
  }

  /** A running job was started by the claim whose time it carries, and has been
      running since. */
  lemma {:induction false} RunningSince(max: int, ws: seq<World>, es: seq<Event>, j: nat, id: int) returns (i: nat)
    requires Run(max, ws, es) && j < |ws| && StatusOf(ws[j], id) == Some(RUNNING)
    ensures i < j && Starts(ws[i], es[i], id) && ws[j].rows[id].startedAt == Some(es[i].now)
    ensures forall k :: i < k <= j ==> StatusOf(ws[k], id) == Some(RUNNING)
    decreases j
  {
    i := j - 1;
    assert Stepped(max, ws, es, i);
    if id !in ws[i].rows {
      NewRow(max, ws[i], es[i], id);
    } else {
      RowAfter(max, ws[i], es[i], id);
      if !Starts(ws[i], es[i], id) {
        i := RunningSince(max, ws, es, i, id);
      }
    }
  }

  /** requeue_stale() puts a running job back exactly if it was started before the
      cutoff. */
  lemma PutBackExactlyWhen(max: int, ws: seq<World>, es: seq<Event>, k: nat, id: int) returns (i: nat)
    requires Run(max, ws, es) && k < |es| && es[k].Requeue? && StatusOf(ws[k], id) == Some(RUNNING)
    ensures i < k && Starts(ws[i], es[i], id)
    ensures StatusOf(ws[k + 1], id) == Some(if es[i].now < es[k].cutoff then QUEUED else RUNNING)
  {
    i := RunningSince(max, ws, es, k, id);
    assert Stepped(max, ws, es, k);
    RowAfter(max, ws[k], es[k], id);
  }

  /** The event of number i ended job id: it was unfinished before. */
  predicate EndsHere(ws: seq<World>, i: nat, id: int)
    requires i + 1 < |ws|
  {
    && id in ws[i].rows && !IsTerminal(ws[i].rows[id].status)
    && id in ws[i + 1].rows && IsTerminal(ws[i + 1].rows[id].status)
  }

  /** A job that has ended was ended by exactly one event, a result of its run or a
      cancel, and has its status, log, exit code and time from that event. */
  lemma {:induction false} EndedOnce(max: int, ws: seq<World>, es: seq<Event>, j: nat, id: int) returns (i: nat)
    requires Run(max, ws, es) && j < |ws| && id in ws[j].rows && IsTerminal(ws[j].rows[id].status)
    ensures i < j && id in ws[i].rows && (Ends(ws[i], es[i], id) || Cancels(ws[i], es[i], id))
    ensures var e, was, row := es[i], ws[i].rows[id], ws[j].rows[id];
      && (e.Finish? ==>
            row == was.(status := e.status, log := Some(e.log), exitCode := e.exitCode, finishedAt := Some(e.now)))
      && (e.WriteCancel? ==> row == was.(status := CANCELLED, finishedAt := Some(e.now)))
    ensures forall k :: 0 <= k < |es| ==> (EndsHere(ws, k, id) <==> k == i)
    decreases j
  {
    i := j - 1;
    assert Stepped(max, ws, es, i);
    if id !in ws[i].rows {
      NewRow(max, ws[i], es[i], id);
    } else {
      RowAfter(max, ws[i], es[i], id);
      if IsTerminal(ws[i].rows[id].status) {
        i := EndedOnce(max, ws, es, i, id);
      } else {
        forall k | 0 <= k < |es| ensures EndsHere(ws, k, id) <==> k == i {
          EndsOnce(max, ws, es, i, k, id);
        }
      }
    }
  }

  lemma EndsOnce(max: int, ws: seq<World>, es: seq<Event>, i: nat, k: nat, id: int)
    requires Run(max, ws, es) && i < |es| && k < |es| && EndsHere(ws, i, id)
    ensures EndsHere(ws, k, id) <==> k == i
  {
    if EndsHere(ws, k, id) {
      if k < i {
        TerminalForever(max, ws, es, k + 1, i, id);
      } else if i < k {
        TerminalForever(max, ws, es, i + 1, k, id);
      }
    }
  }

  // -------------------------------------------------------- what is done is done

  lemma TerminalStep(max: int, w: World, e: Event, id: int)
    requires Enabled(w, e) && id in w.rows && IsTerminal(w.rows[id].status)
    ensures id in Apply(max, w, e).rows && Apply(max, w, e).rows[id] == w.rows[id]
  {
  }

  /** From the moment a job ends, its row never changes again. */
  lemma {:induction false} TerminalForever(max: int, ws: seq<World>, es: seq<Event>, i: nat, j: nat, id: int)
    requires Run(max, ws, es) && i <= j < |ws| && id in ws[i].rows && IsTerminal(ws[i].rows[id].status)
    ensures id in ws[j].rows && ws[j].rows[id] == ws[i].rows[id]
    decreases j
  {
    if i < j {
      TerminalForever(max, ws, es, i, j - 1, id);
      assert Stepped(max, ws, es, j - 1);
      TerminalStep(max, ws[j - 1], es[j - 1], id);
    }
  }

  /** The claim of `claimer` on job id succeeds with this event. */
  predicate Wins(w: World, e: Event, claimer: int, id: int) {
    e.Take? && e.claimer == claimer && claimer in w.claims && w.claims[claimer] == Chosen(id)
    && StatusOf(w, id) == Some(QUEUED)
  }

  /** A job starts running exactly when some claim on it succeeds, and then it is
      the claim of one claimer only. */
  lemma OneClaimerPerStart(max: int, w: World, e: Event, id: int)
    requires Enabled(w, e)
    ensures StatusOf(w, id) != Some(RUNNING) && StatusOf(Apply(max, w, e), id) == Some(RUNNING)
       <==> exists c :: Wins(w, e, c, id)
    ensures forall c, d :: Wins(w, e, c, id) && Wins(w, e, d, id) ==> c == d
  {
    if StatusOf(w, id) != Some(RUNNING) && StatusOf(Apply(max, w, e), id) == Some(RUNNING) {
      assert Wins(w, e, e.claimer, id);
    }
  }

  /** The event puts a stale job back. */
  predicate PutsBack(w: World, e: Event, id: int) {
    e.Requeue? && id in Stale(w.rows, e.cutoff)
  }

  lemma {:induction false} BackInQueue(
    max: int, ws: seq<World>, es: seq<Event>, i: nat, j: nat, id: int) returns (k: nat)
    requires Run(max, ws, es) && i <= j < |ws|
    requires StatusOf(ws[i], id) == Some(RUNNING) && StatusOf(ws[j], id) == Some(QUEUED)
    ensures i <= k < j && PutsBack(ws[k], es[k], id)
    decreases j
  {
    k := j - 1;
    assert Stepped(max, ws, es, k);
    if !PutsBack(ws[k], es[k], id) {
      KeepsQueue(max, ws, es, i, k, id);
      k := BackInQueue(max, ws, es, i, k, id);
    }
  }

  lemma KeepsQueue(max: int, ws: seq<World>, es: seq<Event>, i: nat, k: nat, id: int)
    requires Run(max, ws, es) && i <= k < |es| && StatusOf(ws[i], id) == Some(RUNNING)
    requires StatusOf(ws[k + 1], id) == Some(QUEUED) && !PutsBack(ws[k], es[k], id)
    ensures StatusOf(ws[k], id) == Some(QUEUED)
  {
    RowsStay(max, ws, es, i, k, id);
    assert Stepped(max, ws, es, k);
  }

  lemma {:induction false} RowsStay(max: int, ws: seq<World>, es: seq<Event>, i: nat, j: nat, id: int)
    requires Run(max, ws, es) && i <= j < |ws| && id in ws[i].rows
    ensures id in ws[j].rows
    decreases j
  {
    if i < j {
      RowsStay(max, ws, es, i, j - 1, id);
      assert Stepped(max, ws, es, j - 1);
    }
  }

  /** No job is started twice unless it was put back as stale in between. */
  lemma StartedOnce(max: int, ws: seq<World>, es: seq<Event>, i: nat, j: nat, c: int, d: int, id: int) returns (k: nat)
    requires Run(max, ws, es) && i < j < |es| && Wins(ws[i], es[i], c, id) && Wins(ws[j], es[j], d, id)
    ensures i < k < j && PutsBack(ws[k], es[k], id)
  {
    assert Stepped(max, ws, es, i);
    k := BackInQueue(max, ws, es, i + 1, j, id);
  }

  lemma NoneQueued(rows: Rows)
    ensures WithStatus(rows, QUEUED) == {} <==> forall j <- rows :: rows[j].status != QUEUED
  {
    var queued := WithStatus(rows, QUEUED);
    if queued == {} {
      forall j <- rows ensures rows[j].status != QUEUED {
        assert j !in queued;
      }
    } else {
      HasMember(queued);
      var j :| j in queued;
      assert j in rows && rows[j].status == QUEUED;
    }
  }

  /** The statements of one claim, back to back, are claim_next(): nothing happens
      at the cap or with no job queued, and otherwise the first job starts. */
  lemma ClaimInOneGo(max: int, w: World, c: int, id: int, now: int)
    requires c !in w.claims
    ensures Enabled(w, Count(c))
    ensures |Running(w.rows)| >= max ==> Apply(max, w, Count(c)) == w
    ensures |Running(w.rows)| < max ==>
      var w1 := Apply(max, w, Count(c));
      && w1.rows == w.rows
      && (Enabled(w1, Choose(c, None)) <==> forall j <- w.rows :: w.rows[j].status != QUEUED)
      && (Enabled(w1, Choose(c, None)) ==> Apply(max, w1, Choose(c, None)) == w)
      && (Enabled(w1, Choose(c, Some(id))) <==> IsFirst(w.rows, id))
      && (IsFirst(w.rows, id) ==>
            var w2 := Apply(max, w1, Choose(c, Some(id)));
            && Enabled(w2, Take(c, now))
            && Apply(max, w2, Take(c, now)) ==
               w.(rows := w.rows[id := w.rows[id].(status := RUNNING, startedAt := Some(now))]))
  {
    if |Running(w.rows)| < max {
      var w1 := Apply(max, w, Count(c));
      assert w1.claims - {c} == w.claims;
      NoneQueued(w.rows);
      var w2 := w1.(claims := w1.claims[c := Chosen(id)]);
      assert w2.claims - {c} == w.claims;
    }
  }

  // ---------------------------------------------------------------- the cap

  /** What the number of running jobs can grow to with W claims in flight. */
  function Bound(max: int, flight: nat): int {
    if max <= 0 then 0 else max + flight - 1
  }

  ghost predicate Capped(max: int, flight: nat, w: World) {
    |Running(w.rows)| + |w.claims| <= Bound(max, flight)
  }

  lemma ClaimsSize<V>(m: map<int, V>, k: int, v: V)
    ensures |m[k := v]| == if k in m then |m| else |m| + 1
    ensures |m - {k}| == if k in m then |m| - 1 else |m|
  {
    assert m[k := v].Keys == m.Keys + {k};
    assert (m - {k}).Keys == m.Keys - {k};
    assert |m| == |m.Keys| && |m[k := v]| == |m[k := v].Keys| && |m - {k}| == |(m - {k}).Keys|;
  }

  /** Only a successful claim adds a running job. */
  lemma RunningShrinks(max: int, w: World, e: Event)
    requires Enabled(w, e) && !e.Take?
    ensures Running(Apply(max, w, e).rows) <= Running(w.rows)
    ensures |Running(Apply(max, w, e).rows)| <= |Running(w.rows)|
  {
    SubsetSize(Running(Apply(max, w, e).rows), Running(w.rows));
  }

  lemma CappedStep(max: int, flight: nat, w: World, e: Event)
    requires Enabled(w, e) && Capped(max, flight, w) && |Apply(max, w, e).claims| <= flight
    ensures Capped(max, flight, Apply(max, w, e))
  {
    var w' := Apply(max, w, e);
    if e.Take? {
      var id := w.claims[e.claimer].id;
      ClaimsSize(w.claims, e.claimer, Counted);
      if id in WithStatus(w.rows, QUEUED) {
        ClaimGrows(w.rows, id, e.now);
      }
    } else {
      RunningShrinks(max, w, e);
      if e.Choose? {
        ClaimsSize(w.claims, e.claimer, if e.choice.Some? then Chosen(e.choice.value) else Counted);
      }
    }
  }

  /** With never more than `flight` claims in flight at once, the jobs running
      never exceed the cap by more than flight - 1; one claim at a time keeps it. */
  lemma {:induction false} CapPlusClaimsInFlight(max: int, flight: nat, ws: seq<World>, es: seq<Event>, n: nat)
    requires Run(max, ws, es) && n < |ws| && forall w <- ws :: |w.claims| <= flight
    ensures Capped(max, flight, ws[n])
    ensures |Running(ws[n].rows)| <= if max <= 0 then 0 else max + flight - 1
  {
    if n > 0 {
      CapPlusClaimsInFlight(max, flight, ws, es, n - 1);
      assert Stepped(max, ws, es, n - 1) && ws[n] in ws;
      CappedStep(max, flight, ws[n - 1], es[n - 1]);
    } else {
      assert Running(EMPTY.rows) == {};
    }
  }

  // ------------------------------------------------------- the bound is reached

  /** n jobs, of which the first r run; the claimers from lo to hi have counted. */
  function Stage(n: nat, r: nat, lo: nat, hi: nat): World {
    World(Table(n, r), Waiting(lo, hi), map[])
  }

  function RunningJob(): Job {
    NewJob(0, "", 0).(status := RUNNING, startedAt := Some(0))
  }

  function Table(n: nat, r: nat): Rows {
    map id | id in Below(n) :: if id < r then RunningJob() else NewJob(0, "", 0)
  }

  function Waiting(lo: nat, hi: nat): map<int, Phase> {
    map c | c in Below(hi) && lo <= c :: Counted
  }

  lemma TableRunning(n: nat, r: nat)
    requires r <= n
    ensures |Running(Table(n, r))| == r
  {
    assert Running(Table(n, r)) == Below(r);
  }

  lemma TableFirst(n: nat, r: nat)
    requires r < n
    ensures IsFirst(Table(n, r), r)
  {
    assert r in Below(n);
    forall j <- WithStatus(Table(n, r), QUEUED) ensures Before(Table(n, r), r, j) {
      assert j in Below(n);
    }
  }

  lemma {:induction false} WaitingSize(lo: nat, hi: nat)
    requires lo <= hi
    ensures |Waiting(lo, hi)| == hi - lo
    decreases hi - lo
  {
    if lo < hi {
      var h := hi - 1;
      WaitingSize(lo, h);
      WaitingMore(lo, h, hi);
      ClaimsSize(Waiting(lo, h), h, Counted);
    } else {
      assert Waiting(lo, hi) == map[];
    }
  }

  /** A run and the world it ends in, with at most `flight` claims in flight. */
  datatype Trace = Trace(ws: seq<World>, es: seq<Event>)

  ghost predicate Leads(max: int, flight: nat, t: Trace, w: World) {
    Run(max, t.ws, t.es) && t.ws[|t.es|] == w && forall v <- t.ws :: |v.claims| <= flight
  }

  lemma Onward(max: int, flight: nat, t: Trace, w: World, e: Event, w': World) returns (t': Trace)
    requires Leads(max, flight, t, w) && Enabled(w, e) && w' == Apply(max, w, e) && |w'.claims| <= flight
    ensures Leads(max, flight, t', w')
  {
    t' := Trace(t.ws + [w'], t.es + [e]);
    forall i | 0 <= i < |t'.es| ensures Stepped(max, t'.ws, t'.es, i) {
      assert i < |t.es| ==> Stepped(max, t.ws, t.es, i);
    }
  }

  lemma EnqueueStep(max: int, n: nat)
    ensures n !in Table(n, 0) && Apply(max, Stage(n, 0, 0, 0), Enqueue(n, 0, "", 0)) == Stage(n + 1, 0, 0, 0)
    ensures Stage(0, 0, 0, 0) == EMPTY && |Waiting(0, 0)| == 0
  {
    assert n !in Below(n);
    assert Table(n, 0)[n := NewJob(0, "", 0)] == Table(n + 1, 0);
    assert Waiting(0, 0) == map[];
    assert Table(0, 0) == map[];
  }

  lemma CountStep(max: int, n: nat, r: nat, lo: nat, hi: nat, hi': nat)
    requires r <= n && r < max && lo <= hi && hi' == hi + 1
    ensures hi !in Waiting(lo, hi) && Apply(max, Stage(n, r, lo, hi), Count(hi)) == Stage(n, r, lo, hi')
    ensures |Waiting(lo, hi')| == hi' - lo
  {
    TableRunning(n, r);
    WaitingMore(lo, hi, hi');
    WaitingSize(lo, hi');
  }

  lemma WaitingMore(lo: nat, hi: nat, hi': nat)
    requires lo <= hi && hi' == hi + 1
    ensures hi !in Waiting(lo, hi) && Waiting(lo, hi)[hi := Counted] == Waiting(lo, hi')
  {
  }

  function Choosing(n: nat, r: nat, lo: nat, hi: nat): World {
    World(Table(n, r), Waiting(lo, hi)[lo := Chosen(r)], map[])
  }

  lemma ChooseStep(max: int, n: nat, r: nat, lo: nat, hi: nat)
    requires r < n && lo < hi
    ensures Enabled(Stage(n, r, lo, hi), Choose(lo, Some(r)))
    ensures Apply(max, Stage(n, r, lo, hi), Choose(lo, Some(r))) == Choosing(n, r, lo, hi)
    ensures |Choosing(n, r, lo, hi).claims| == hi - lo
  {
    TableFirst(n, r);
    assert lo in Below(hi);
    WaitingSize(lo, hi);
    ClaimsSize(Waiting(lo, hi), lo, Chosen(r));
  }

  lemma TakeStep(max: int, n: nat, r: nat, lo: nat, hi: nat, r': nat, lo': nat)
    requires r < n && lo < hi && r' == r + 1 && lo' == lo + 1
    ensures Enabled(Choosing(n, r, lo, hi), Take(lo, 0))
    ensures Apply(max, Choosing(n, r, lo, hi), Take(lo, 0)) == Stage(n, r', lo', hi)
    ensures |Waiting(lo', hi)| == hi - lo'
  {
    TableTaken(n, r, r');
    assert Waiting(lo, hi)[lo := Chosen(r)] - {lo} == Waiting(lo', hi);
    WaitingSize(lo', hi);
  }

  lemma TableTaken(n: nat, r: nat, r': nat)
    requires r < n && r' == r + 1
    ensures r in Table(n, r) && Claimed(Table(n, r), r, 0) == Table(n, r')
  {
    assert r in Below(n);
  }

  lemma {:induction false} AllEnqueued(max: int, flight: nat, n: nat) returns (t: Trace)
    ensures Leads(max, flight, t, Stage(n, 0, 0, 0))
  {
    EnqueueStep(max, if n == 0 then 0 else n - 1);
    if n == 0 {
      t := Trace([EMPTY], []);
    } else {
      t := AllEnqueued(max, flight, n - 1);
      t := Onward(max, flight, t, Stage(n - 1, 0, 0, 0), Enqueue(n - 1, 0, "", 0), Stage(n, 0, 0, 0));
    }
  }

  /** A claimer that has counted chooses job r and takes it. */
  lemma OneMoreRuns(
    max: int, flight: nat, n: nat, r: nat, lo: nat, hi: nat, r': nat, lo': nat, t: Trace) returns (t': Trace)
    requires r < n && lo < hi && hi - lo <= flight && Leads(max, flight, t, Stage(n, r, lo, hi))
    requires r' == r + 1 && lo' == lo + 1
    ensures Leads(max, flight, t', Stage(n, r', lo', hi))
  {
    ChooseStep(max, n, r, lo, hi);
    t' := Onward(max, flight, t, Stage(n, r, lo, hi), Choose(lo, Some(r)), Choosing(n, r, lo, hi));
    TakeStep(max, n, r, lo, hi, r', lo');
    t' := Onward(max, flight, t', Choosing(n, r, lo, hi), Take(lo, 0), Stage(n, r', lo', hi));
  }

  lemma OneMoreCounts(max: int, flight: nat, n: nat, r: nat, lo: nat, hi: nat, hi': nat, t: Trace) returns (t': Trace)
    requires r <= n && r < max && lo <= hi && hi' == hi + 1 && hi' - lo <= flight
    requires Leads(max, flight, t, Stage(n, r, lo, hi))
    ensures Leads(max, flight, t', Stage(n, r, lo, hi'))
  {
    CountStep(max, n, r, lo, hi, hi');
    t' := Onward(max, flight, t, Stage(n, r, lo, hi), Count(hi), Stage(n, r, lo, hi'));
  }

  /** r claims, one after the other. */
  lemma {:induction false} InTurn(max: int, flight: nat, n: nat, r: nat) returns (t: Trace)
    requires r < max && r <= n && flight >= 1
    ensures Leads(max, flight, t, Stage(n, r, r, r))
  {
    if r == 0 {
      t := AllEnqueued(max, flight, n);
    } else {
      var q := r - 1;
      t := InTurn(max, flight, n, q);
      t := OneMoreCounts(max, flight, n, q, q, q, r, t);
      t := OneMoreRuns(max, flight, n, q, q, r, r, r, t);
    }
  }

  /** Claimers r to hi count. */
  lemma {:induction false} AllCount(max: int, flight: nat, n: nat, r: nat, hi: nat) returns (t: Trace)
    requires r < max && r <= n && flight >= 1 && r <= hi <= r + flight
    ensures Leads(max, flight, t, Stage(n, r, r, hi))
    decreases hi
  {
    if hi == r {
      t := InTurn(max, flight, n, r);
    } else {
      var h := hi - 1;
      t := AllCount(max, flight, n, r, h);
      t := OneMoreCounts(max, flight, n, r, r, h, hi, t);
    }
  }

  /** Those up to s take their jobs. */
  lemma {:induction false} AllTake(max: int, flight: nat, n: nat, r: nat, hi: nat, s: nat) returns (t: Trace)
    requires r < max && flight >= 1 && hi == r + flight && r <= s <= hi && s <= n
    ensures Leads(max, flight, t, Stage(n, s, s, hi))
    decreases s
  {
    if s == r {
      t := AllCount(max, flight, n, r, hi);
    } else {
      var q := s - 1;
      t := AllTake(max, flight, n, r, hi, q);
      t := OneMoreRuns(max, flight, n, q, q, hi, s, s, t);
    }
  }

  /** Whatever the cap, `flight` claims in flight at once can pass it by
      flight - 1: the cap is kept for sure exactly when claims do not overlap. */
  lemma CapIsPassed(max: int, flight: nat) returns (ws: seq<World>, es: seq<Event>)
    requires max >= 1 && flight >= 1
    ensures Run(max, ws, es) && (forall w <- ws :: |w.claims| <= flight)
    ensures |Running(ws[|es|].rows)| == max + flight - 1
  {
    var n := max + flight - 1;
    var t := AllTake(max, flight, n, max - 1, n, n);
    TableRunning(n, n);
    ws, es := t.ws, t.es;
  }

  // ------------------------------------------------------------- a late cancel

  /** The status a successful cancel reports need not be the one it ended: a
      claim between its two statements starts the job, and the caller is told
      that it was still queued. */
  lemma CancelCanReportTheWrongStatus() returns (ws: seq<World>, es: seq<Event>)
    ensures Run(1, ws, es) && |es| == 6 && es[5].WriteCancel? && 7 in ws[5].cancels && ws[5].cancels[7].0 == 0
    ensures ws[5].cancels[7].1.status == QUEUED && StatusOf(ws[5], 0) == Some(RUNNING)
    ensures StatusOf(ws[6], 0) == Some(CANCELLED)
    ensures IsCancel(ws, es, 3, 5, 7, 0) && Answer(ws[5], 7) != Promised(ws[5], 0)
  {
    es := [Enqueue(0, 0, "", 0), Count(1), Choose(1, Some(0)), ReadToCancel(7, 0), Take(1, 0), WriteCancel(7, 0)];
    var w1 := Apply(1, EMPTY, es[0]);
    assert Running(w1.rows) == {};
    var w2 := Apply(1, w1, es[1]);
    assert IsFirst(w2.rows, 0);
    var w3 := Apply(1, w2, es[2]);
    var w4 := Apply(1, w3, es[3]);
    var w5 := Apply(1, w4, es[4]);
    var w6 := Apply(1, w5, es[5]);
    ws := [EMPTY, w1, w2, w3, w4, w5, w6];
    assert Stepped(1, ws, es, 0) && Stepped(1, ws, es, 1) && Stepped(1, ws, es, 2);
    assert Stepped(1, ws, es, 3) && Stepped(1, ws, es, 4) && Stepped(1, ws, es, 5);
  }

  /** What cancel() copies into its answer (the id, which it was given, apart). */
  datatype Report = Report(owner: int, workdir: string, status: Status)

  function ReportOf(job: Job): Report {
    Report(job.owner, job.workdir, job.status)
  }

  predicate Unfinished(w: World, id: int) {
    id in w.rows && !IsTerminal(w.rows[id].status)
  }

  /** The answer of a cancel whose UPDATE comes now: what it read before, if the
      UPDATE hits the row. */
  function Answer(w: World, caller: int): Option<Report>
    requires caller in w.cancels
  {
    var (id, read) := w.cancels[caller];
    if Unfinished(w, id) then Some(ReportOf(read)) else None
  }

  /** The promised answer: the job as it is just before the UPDATE. */
  function Promised(w: World, id: int): Option<Report> {
    if Unfinished(w, id) then Some(ReportOf(w.rows[id])) else None
  }

  /** Events i and j are the two statements of one cancel of job id. */
  predicate IsCancel(ws: seq<World>, es: seq<Event>, i: nat, j: nat, caller: int, id: int)
    requires |ws| == |es| + 1
  {
    && i < j < |es| && es[i] == ReadToCancel(caller, id) && Unfinished(ws[i], id)
    && Writes(es[j], caller) && forall m :: i < m < j ==> !Writes(es[m], caller)
  }

  predicate Writes(e: Event, caller: int) {
    e.WriteCancel? && e.caller == caller
  }

  /** The event starts job id or puts it back. */
  predicate Moves(w: World, e: Event, id: int) {
    PutsBack(w, e, id) || (e.Take? && Wins(w, e, e.claimer, id))
  }

  /** How often job id is started or put back from world i to world j. */
  function MovesBetween(ws: seq<World>, es: seq<Event>, i: nat, j: nat, id: int): nat
    requires |ws| == |es| + 1 && i <= j < |ws|
    decreases j
  {
    if i == j then 0 else MovesBetween(ws, es, i, j - 1, id) + if Moves(ws[j - 1], es[j - 1], id) then 1 else 0
  }

  /** What a cancel has read stays with it until it writes. */
  lemma {:induction false} ReadIsKept(
    max: int, ws: seq<World>, es: seq<Event>, i: nat, m: nat, j: nat, caller: int, id: int)
    requires Run(max, ws, es) && IsCancel(ws, es, i, j, caller, id) && i < m <= j
    ensures caller in ws[m].cancels && ws[m].cancels[caller] == (id, ws[i].rows[id])
    decreases m
  {
    assert Stepped(max, ws, es, m - 1);
    if i + 1 < m {
      ReadIsKept(max, ws, es, i, m - 1, j, caller, id);
      assert !Writes(es[m - 1], caller);
    }
  }

  /** One event on a job that is unfinished before and after it. */
  lemma MoveFlips(max: int, w: World, e: Event, id: int)
    requires Enabled(w, e) && Unfinished(w, id) && Unfinished(Apply(max, w, e), id)
    ensures var before, after := ReportOf(w.rows[id]), ReportOf(Apply(max, w, e).rows[id]);
      && after.owner == before.owner && after.workdir == before.workdir
      && (after.status == before.status <==> !Moves(w, e, id))
  {
  }

  /** An unfinished job changes between queued and running with every move, and
      in nothing else that is reported. */
  lemma {:induction false} StatusIsParity(max: int, ws: seq<World>, es: seq<Event>, i: nat, j: nat, id: int)
    requires Run(max, ws, es) && i <= j < |ws| && Unfinished(ws[i], id) && Unfinished(ws[j], id)
    ensures var before, after := ReportOf(ws[i].rows[id]), ReportOf(ws[j].rows[id]);
      && after.owner == before.owner && after.workdir == before.workdir
      && (after.status == before.status <==> MovesBetween(ws, es, i, j, id) % 2 == 0)
    decreases j
  {
    if i < j {
      assert Stepped(max, ws, es, j - 1);
      RowsStay(max, ws, es, i, j - 1, id);
      if IsTerminal(ws[j - 1].rows[id].status) {
        TerminalStep(max, ws[j - 1], es[j - 1], id);
      } else {
        StatusIsParity(max, ws, es, i, j - 1, id);
        MoveFlips(max, ws[j - 1], es[j - 1], id);
      }
    }
  }

  /** The promise of cancel(), exactly: its answer is the job just before the
      UPDATE if and only if the job has ended in between, or was started and put
      back an even number of times in all. */
  lemma CancelReportsRightExactlyWhen(max: int, ws: seq<World>, es: seq<Event>, i: nat, j: nat, caller: int, id: int)
    requires Run(max, ws, es) && IsCancel(ws, es, i, j, caller, id)
    ensures caller in ws[j].cancels && ws[j].cancels[caller] == (id, ws[i].rows[id])
    ensures Answer(ws[j], caller) == Promised(ws[j], id)
       <==> !Unfinished(ws[j], id) || MovesBetween(ws, es, i, j, id) % 2 == 0
    ensures Unfinished(ws[j], id) ==> StatusOf(ws[j + 1], id) == Some(CANCELLED)
  {
    ReadIsKept(max, ws, es, i, j, j, caller, id);
    assert Stepped(max, ws, es, j);
    if Unfinished(ws[j], id) {
      StatusIsParity(max, ws, es, i, j, id);
    }
  }
}
