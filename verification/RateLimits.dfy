/** api/rate_limit.py: the pruned and swept log answers as the whole log would. */
module RateLimits {
  import opened Options

  type Log = seq<real>

  /** Hits after the cutoff. */
  function After(log: Log, cutoff: real): Log {
    if log == [] then [] else After(log[..|log|-1], cutoff) + if log[|log|-1] > cutoff then [log[|log|-1]] else []
  }

  /** Hits up to and including t. */
  function UpTo(log: Log, t: real): Log {
    if log == [] then [] else UpTo(log[..|log|-1], t) + if log[|log|-1] <= t then [log[|log|-1]] else []
  }

  predicate AtMost(log: Log, t: real) {
    forall i :: 0 <= i < |log| ==> log[i] <= t
  }

  predicate Beyond(log: Log, t: real) {
    forall i :: 0 <= i < |log| ==> log[i] > t
  }

  predicate InOrder(log: Log, i: nat, j: nat)
    requires i < |log| && j < |log|
  {
    log[i] <= log[j]
  }

  predicate Rising(log: Log) {
    forall i: nat, j: nat :: i < j < |log| ==> InOrder(log, i, j)
  }

  lemma RisingPart(log: Log, lo: nat, hi: nat)
    requires Rising(log) && lo <= hi <= |log|
    ensures Rising(log[lo..hi])
  {
    forall i: nat, j: nat | i < j < hi - lo ensures InOrder(log[lo..hi], i, j) {
      assert InOrder(log, lo + i, lo + j);
    }
  }

  lemma RisingSnoc(log: Log, x: real)
    requires Rising(log) && AtMost(log, x)
    ensures Rising(log + [x])
  {
    forall i: nat, j: nat | i < j < |log| + 1 ensures InOrder(log + [x], i, j) {
      if j < |log| { assert InOrder(log, i, j); }
    }
  }

  lemma LastIsLargest(log: Log)
    requires Rising(log) && log != []
    ensures AtMost(log, log[|log|-1])
  {
    forall i | 0 <= i < |log| ensures log[i] <= log[|log|-1] {
      if i < |log| - 1 { assert InOrder(log, i, |log| - 1); }
    }
  }

  lemma FirstIsLeast(log: Log, cutoff: real)
    requires Rising(log) && (log == [] || log[0] > cutoff)
    ensures Beyond(log, cutoff)
  {
    forall i | 0 <= i < |log| ensures log[i] > cutoff {
      if i > 0 { assert InOrder(log, 0, i); }
    }
  }

  lemma AfterSnoc(log: Log, x: real, cutoff: real)
    ensures After(log + [x], cutoff) == After(log, cutoff) + if x > cutoff then [x] else []
  {
    assert (log + [x])[..|log|] == log;
  }

  lemma UpToSnoc(log: Log, x: real, t: real)
    ensures UpTo(log + [x], t) == UpTo(log, t) + if x <= t then [x] else []
  {
    assert (log + [x])[..|log|] == log;
  }

  /** A log, taken apart at its end. */
  lemma Ends(log: Log) returns (rest: Log, x: real)
    requires log != []
    ensures log == rest + [x] && rest == log[..|log|-1] && x == log[|log|-1]
  {
    rest, x := log[..|log|-1], log[|log|-1];
  }

  lemma {:induction false} AfterNone(log: Log, cutoff: real)
    requires AtMost(log, cutoff)
    ensures After(log, cutoff) == []
  {
    if log != [] {
      var rest, x := Ends(log);
      AfterNone(rest, cutoff);
    }
  }

  lemma {:induction false} AfterAll(log: Log, cutoff: real)
    requires Beyond(log, cutoff)
    ensures After(log, cutoff) == log
  {
    if log != [] {
      var rest, x := Ends(log);
      AfterAll(rest, cutoff);
    }
  }

  lemma {:induction false} AfterAppend(a: Log, b: Log, cutoff: real)
    ensures After(a + b, cutoff) == After(a, cutoff) + After(b, cutoff)
  {
    if b == [] {
      assert a + b == a;
      assert After(a, cutoff) + [] == After(a, cutoff);
    } else {
      var rest, x := Ends(b);
      AfterAppend(a, rest, cutoff);
      assert a + b == (a + rest) + [x];
      AfterSnoc(a + rest, x, cutoff);
      AfterSnoc(rest, x, cutoff);
    }
  }

  /** A later cutoff leaves no more. */
  lemma {:induction false} AfterShrinks(log: Log, c: real, d: real)
    requires c <= d
    ensures |After(log, d)| <= |After(log, c)|
  {
    if log != [] {
      var rest, x := Ends(log);
      AfterShrinks(rest, c, d);
      AfterSnoc(rest, x, c);
      AfterSnoc(rest, x, d);
    }
  }

  lemma {:induction false} AfterTwice(log: Log, c: real, d: real)
    requires c <= d
    ensures After(After(log, c), d) == After(log, d)
  {
    if log != [] {
      var rest, x := Ends(log);
      AfterTwice(rest, c, d);
      AfterSnoc(rest, x, c);
      AfterSnoc(rest, x, d);
      AfterSnoc(After(rest, c), x, d);
      assert After(rest, c) + [] == After(rest, c) && After(rest, d) + [] == After(rest, d);
    }
  }

  lemma {:induction false} AfterIsBeyond(log: Log, cutoff: real)
    ensures Beyond(After(log, cutoff), cutoff)
  {
    if log != [] {
      var rest, x := Ends(log);
      AfterIsBeyond(rest, cutoff);
      AfterSnoc(rest, x, cutoff);
    }
  }

  // --------------------------------------------------------------- the limiter

  type Hits = map<string, Log>

  function Entry(hits: Hits, key: string): Log {
    if key in hits then hits[key] else []
  }

  ghost predicate EndsWith(whole: Log, dropped: Log, kept: Log, cutoff: real) {
    whole == dropped + kept && AtMost(dropped, cutoff)
  }

  /** What is kept for a key is the end of its whole log, and the rest had left
      the window by the given time. */
  ghost predicate KeptEnd(kept: Log, whole: Log, cutoff: real) {
    Rising(whole) && exists dropped :: EndsWith(whole, dropped, kept, cutoff)
  }

  lemma KeptSame(kept: Log, whole: Log, cutoff: real, later: real)
    requires KeptEnd(kept, whole, cutoff) && cutoff <= later
    ensures KeptEnd(kept, whole, later)
  {
    var dropped :| EndsWith(whole, dropped, kept, cutoff);
    assert EndsWith(whole, dropped, kept, later);
  }

  lemma KeptPruned(kept: Log, whole: Log, cutoff: real, m: nat)
    requires KeptEnd(kept, whole, cutoff) && m <= |kept|
    requires AtMost(kept[..m], cutoff) && (m < |kept| ==> kept[m] > cutoff)
    ensures KeptEnd(kept[m..], whole, cutoff) && kept[m..] == After(whole, cutoff)
  {
    var dropped :| EndsWith(whole, dropped, kept, cutoff);
    var gone, left := dropped + kept[..m], kept[m..];
    assert whole == gone + left;
    assert EndsWith(whole, gone, left, cutoff);
    RisingPart(whole, |gone|, |whole|);
    assert left == whole[|gone|..|whole|];
    FirstIsLeast(left, cutoff);
    AfterAppend(gone, left, cutoff);
    AfterNone(gone, cutoff);
    AfterAll(left, cutoff);
  }

  lemma KeptMore(kept: Log, whole: Log, cutoff: real, now: real)
    requires KeptEnd(kept, whole, cutoff) && AtMost(whole, now)
    ensures KeptEnd(kept + [now], whole + [now], cutoff)
  {
    var dropped :| EndsWith(whole, dropped, kept, cutoff);
    RisingSnoc(whole, now);
    assert EndsWith(whole + [now], dropped, kept + [now], cutoff);
  }

  lemma KeptNothing(kept: Log, whole: Log, cutoff: real)
    requires KeptEnd(kept, whole, cutoff) && StaleAt(kept, cutoff)
    ensures KeptEnd([], whole, cutoff)
  {
    var dropped :| EndsWith(whole, dropped, kept, cutoff);
    if whole != [] {
      LastIsLargest(whole);
      assert kept != [] ==> whole[|whole|-1] == kept[|kept|-1];
      assert kept == [] ==> whole == dropped;
    }
    assert AtMost(whole, cutoff);
    assert EndsWith(whole, whole, [], cutoff);
  }

  predicate StaleAt(log: Log, cutoff: real) {
    log == [] || log[|log|-1] <= cutoff
  }

  /** What is kept for one key, at the time of the last call. */
  ghost predicate Fine(kept: Log, whole: Log, window: real, clock: real) {
    KeptEnd(kept, whole, clock - window) && AtMost(whole, clock)
  }

  ghost predicate AllFine(hits: Hits, whole: Hits, window: real, clock: real) {
    forall key :: Fine(Entry(hits, key), Entry(whole, key), window, clock)
  }

  lemma FineNothing(window: real, clock: real)
    ensures AllFine(map[], map[], window, clock)
  {
    forall key ensures Fine(Entry(map[], key), Entry(map[], key), window, clock) {
      assert EndsWith(Entry(map[], key), [], Entry(map[], key), clock - window);
    }
  }

  lemma FineLater(hits: Hits, whole: Hits, window: real, clock: real, now: real)
    requires AllFine(hits, whole, window, clock) && clock <= now
    ensures AllFine(hits, whole, window, now)
  {
    forall key ensures Fine(Entry(hits, key), Entry(whole, key), window, now) {
      assert Fine(Entry(hits, key), Entry(whole, key), window, clock);
      KeptSame(Entry(hits, key), Entry(whole, key), clock - window, now - window);
    }
  }

  /** Only the entry of one key changes. */
  lemma FineChanged(hits: Hits, hits': Hits, whole: Hits, whole': Hits, window: real, now: real, key: string)
    requires AllFine(hits, whole, window, now) && Fine(Entry(hits', key), Entry(whole', key), window, now)
    requires forall k :: k != key ==> Entry(hits', k) == Entry(hits, k) && Entry(whole', k) == Entry(whole, k)
    ensures AllFine(hits', whole', window, now)
  {
    forall k ensures Fine(Entry(hits', k), Entry(whole', k), window, now) {
      assert Fine(Entry(hits, k), Entry(whole, k), window, now);
    }
  }

  lemma FineForgotten(hits: Hits, whole: Hits, window: real, now: real, key: string)
    requires AllFine(hits, whole, window, now) && StaleAt(Entry(hits, key), now - window)
    ensures AllFine(hits - {key}, whole, window, now)
  {
    assert Fine(Entry(hits, key), Entry(whole, key), window, now);
    KeptNothing(Entry(hits, key), Entry(whole, key), now - window);
    FineChanged(hits, hits - {key}, whole, whole, window, now, key);
  }

  /** The stale keys are those in the set. */
  ghost predicate AllStale(hits: Hits, stale: set<string>, cutoff: real) {
    stale <= hits.Keys && forall k <- hits :: StaleAt(hits[k], cutoff) <==> k in stale
  }

  /** The first m hits, none of them after the cutoff, are gone. */
  ghost predicate Popped(kept: Log, left: Log, m: nat, cutoff: real) {
    m <= |kept| && left == kept[m..] && AtMost(kept[..m], cutoff)
  }

  lemma PoppedMore(kept: Log, left: Log, m: nat, cutoff: real)
    requires Popped(kept, left, m, cutoff) && left != [] && left[0] <= cutoff
    ensures Popped(kept, left[1..], m + 1, cutoff)
  {
    assert kept[..m + 1] == kept[..m] + [left[0]];
  }

  lemma PoppedAll(kept: Log, left: Log, m: nat, cutoff: real)
    requires Popped(kept, left, m, cutoff) && (left == [] || left[0] > cutoff)
    ensures m <= |kept| && left == kept[m..] && AtMost(kept[..m], cutoff) && (m < |kept| ==> kept[m] > cutoff)
  {
  }

  class RateLimiter {
    const limit: int
    const window: real
    var hits: Hits
    /** Every hit ever recorded, and the time of the last call. */
    ghost var whole: Hits
    ghost var clock: real

    ghost predicate Valid()
      reads this
    {
      AllFine(hits, whole, window, clock)
    }

    /** The hits of the key in the last window, in the whole log. */
    ghost function Live(key: string, now: real): Log
      reads this
    {
      After(Entry(whole, key), now - window)
    }

    constructor (allowed: int, seconds: real, start: real)
      ensures Valid() && limit == allowed && window == seconds && whole == map[] && hits == map[] && clock == start
    {
      limit, window, hits, whole, clock := allowed, seconds, map[], map[], start;
      FineNothing(seconds, start);
    }

    /** _prune(): what is left is the last window of the whole log. */
    method Prune(key: string, now: real) returns (left: Log)
      requires Valid() && now >= clock
      modifies this
      ensures Valid() && whole == old(whole) && clock == now
      ensures left == Live(key, now) && Fine(left, Entry(whole, key), window, now)
      ensures hits == if key in old(hits) then old(hits)[key := left] else old(hits)
    {
      FineLater(hits, whole, window, clock, now);
      clock := now;
      assert Fine(Entry(hits, key), Entry(whole, key), window, now);
      left := PopOld(Entry(hits, key), now - window, Entry(whole, key));
      if key in hits {
        FineChanged(hits, hits[key := left], whole, whole, window, now, key);
        hits := hits[key := left];
      }
    }

    /** The loop of _prune(). */
    static method PopOld(entries: Log, cutoff: real, ghost log: Log) returns (left: Log)
      requires KeptEnd(entries, log, cutoff)
      ensures KeptEnd(left, log, cutoff) && left == After(log, cutoff)
    {
      left := entries;
      ghost var m: nat := 0;
      while left != [] && left[0] <= cutoff
        invariant Popped(entries, left, m, cutoff)
        decreases |left|
      {
        PoppedMore(entries, left, m, cutoff);
        left := left[1..];
        m := m + 1;
      }
      PoppedAll(entries, left, m, cutoff);
      KeptPruned(entries, log, cutoff, m);
    }

    /** blocked(): exactly if the last window holds `limit` hits; nothing is recorded. */
    method Blocked(key: string, now: real) returns (r: bool)
      requires Valid() && now >= clock
      modifies this
      ensures Valid() && whole == old(whole) && clock == now
      ensures r <==> |Live(key, now)| >= limit
    {
      var left := Prune(key, now);
      r := |left| >= limit;
    }

    /** record(): one more hit; and no key stays whose last hit has left the window. */
    method Record(key: string, now: real)
      requires Valid() && now >= clock
      modifies this
      ensures Valid() && clock == now
      ensures whole == old(whole)[key := Entry(old(whole), key) + [now]]
      ensures forall k <- hits :: !StaleAt(hits[k], now - window)
    {
      var left := Prune(key, now);
      KeptMore(left, Entry(whole, key), now - window, now);
      ghost var whole' := whole[key := Entry(whole, key) + [now]];
      FineChanged(hits, hits[key := left + [now]], whole, whole', window, now, key);
      hits := hits[key := left + [now]];
      whole := whole';
      CollectGarbage(now);
    }

    /** _collect_garbage(): what it forgets had left the window. */
    method CollectGarbage(now: real)
      requires Valid() && now == clock
      modifies this`hits
      ensures Valid()
      ensures forall k <- hits :: !StaleAt(hits[k], now - window)
    {
      var cutoff := now - window;
      var stale := set k | k in hits && StaleAt(hits[k], cutoff);
      while stale != {}
        invariant Valid() && AllStale(hits, stale, cutoff)
        decreases |stale|
      {
        var key :| key in stale;
        FineForgotten(hits, whole, window, now, key);
        hits := hits - {key};
        stale := stale - {key};
      }
    }

    /** allow(): a hit is recorded exactly if the key was not blocked. */
    method Allow(key: string, asked: real, recorded: real) returns (r: bool)
      requires Valid() && clock <= asked <= recorded
      modifies this
      ensures Valid() && clock == if r then recorded else asked
      ensures r <==> |After(Entry(old(whole), key), asked - window)| < limit
      ensures whole == if r then old(whole)[key := Entry(old(whole), key) + [recorded]] else old(whole)
      ensures OnlyAllowed(Entry(old(whole), key), limit, window) ==> OnlyAllowed(Entry(whole, key), limit, window)
    {
      var stop := Blocked(key, asked);
      if stop { return false; }
      ghost var log := Entry(whole, key);
      AfterShrinks(log, asked - window, recorded - window);
      assert Fine(Entry(hits, key), log, window, asked);
      if OnlyAllowed(log, limit, window) {
        AllowedMore(log, limit, window, recorded);
      }
      Record(key, recorded);
      r := true;
    }

    /** retry_after(); an index error if the limit lets nothing through and there
        is no hit to wait for. */
    method RetryAfter(key: string, now: real) returns (r: Result<real>)
      requires Valid() && now >= clock
      modifies this
      ensures Valid() && whole == old(whole) && clock == now
      ensures r.Error? <==> limit <= 0 && Live(key, now) == []
      ensures r.Ok? ==> r.value >= 0.0 && (r.value == 0.0 <==> |Live(key, now)| < limit)
      ensures r.Ok? && r.value > 0.0 ==> Live(key, now) != [] && r.value == Live(key, now)[0] + window - now
    {
      var left := Prune(key, now);
      AfterIsBeyond(Entry(whole, key), now - window);
      if |left| < limit { return Ok(0.0); }
      if left == [] { return Error; }
      var wait := left[0] + window - now;
      return Ok(if wait > 0.0 then wait else 0.0);
    }
  }

  // ------------------------------------------------------------ the limit holds

  ghost predicate RoomAt(log: Log, limit: int, window: real, i: nat)
    requires i < |log|
  {
    |After(log[..i], log[i] - window)| < limit
  }

  /** At each hit fewer than `limit` earlier hits were still in the window. */
  ghost predicate OnlyAllowed(log: Log, limit: int, window: real) {
    Rising(log) && forall i: nat :: i < |log| ==> RoomAt(log, limit, window, i)
  }

  lemma AllowedMore(log: Log, limit: int, window: real, now: real)
    requires OnlyAllowed(log, limit, window) && |After(log, now - window)| < limit && AtMost(log, now)
    ensures OnlyAllowed(log + [now], limit, window)
  {
    var log' := log + [now];
    RisingSnoc(log, now);
    forall i: nat | i < |log'| ensures RoomAt(log', limit, window, i) {
      assert log'[..i] == log[..i];
      if i < |log| {
        assert RoomAt(log, limit, window, i);
      } else {
        assert log[..i] == log;
      }
    }
  }

  lemma AllowedBefore(rest: Log, x: real, limit: int, window: real)
    requires OnlyAllowed(rest + [x], limit, window)
    ensures OnlyAllowed(rest, limit, window) && |After(rest, x - window)| < limit
  {
    var log := rest + [x];
    assert log[0..|rest|] == rest;
    RisingPart(log, 0, |rest|);
    forall i: nat | i < |rest| ensures RoomAt(rest, limit, window, i) {
      assert RoomAt(log, limit, window, i) && log[..i] == rest[..i];
    }
    assert RoomAt(log, limit, window, |rest|) && log[..|rest|] == rest;
  }

  lemma {:induction false} AllUpTo(log: Log, t: real)
    requires AtMost(log, t)
    ensures UpTo(log, t) == log
  {
    if log != [] {
      var rest, x := Ends(log);
      AllUpTo(rest, t);
    }
  }

  /** No window, wherever it lies, holds more than `limit` hits of a key that was
      only driven by allow(). */
  lemma {:induction false} WindowHoldsLimit(log: Log, limit: int, window: real, t: real)
    requires OnlyAllowed(log, limit, window) && limit >= 0
    ensures |After(UpTo(log, t), t - window)| <= limit
    decreases |log|
  {
    if log != [] {
      var rest, x := Ends(log);
      AllowedBefore(rest, x, limit, window);
      if x <= t {
        LastIsLargest(log);
        AllUpTo(log, t);
        AfterSnoc(rest, x, t - window);
        AfterShrinks(rest, x - window, t - window);
      } else {
        UpToSnoc(rest, x, t);
        assert UpTo(rest, t) + [] == UpTo(rest, t);
        WindowHoldsLimit(rest, limit, window, t);
      }
    }
  }

  // --------------------------------------------------------- waiting as told

  lemma {:induction false} AfterOrUpTo(log: Log, t: real)
    ensures |After(log, t)| + |UpTo(log, t)| == |log|
  {
    if log != [] {
      var rest, x := Ends(log);
      AfterOrUpTo(rest, t);
    }
  }

  /** Who waits as long as told is let through exactly if the hits in the window
      now, less those no later than the first of them, are below the limit. */
  lemma WaitingHelpsExactlyWhen(log: Log, limit: int, window: real, now: real)
    requires After(log, now - window) != []
    ensures var live := After(log, now - window); var later := live[0] + window;
      |After(log, later - window)| < limit <==> |live| - |UpTo(live, live[0])| < limit
  {
    var live := After(log, now - window);
    AfterIsBeyond(log, now - window);
    AfterTwice(log, now - window, live[0]);
    assert live[0] + window - window == live[0];
    AfterOrUpTo(live, live[0]);
  }

  lemma {:induction false} FirstIsUpTo(live: Log, t: real)
    requires live != [] && live[0] == t
    ensures UpTo(live, t) != []
  {
    if |live| > 1 {
      FirstIsUpTo(live[..|live| - 1], t);
    }
  }

  /** For a key driven by allow() only, waiting always helps. */
  lemma WaitingHelpsAllowed(log: Log, limit: int, window: real, now: real)
    requires OnlyAllowed(log, limit, window) && limit >= 0 && After(log, now - window) != [] && AtMost(log, now)
    ensures var later := After(log, now - window)[0] + window; |After(log, later - window)| < limit
  {
    var live := After(log, now - window);
    WindowHoldsLimit(log, limit, window, now);
    AllUpTo(log, now);
    FirstIsUpTo(live, live[0]);
    WaitingHelpsExactlyWhen(log, limit, window, now);
  }

  /** For hits recorded regardless it may not: with a limit of one, hits at 0 and
      at 1 and a window of ten, who asks at 2 is told to wait 8 and is blocked at 10. */
  lemma WaitingMayNotHelp()
    ensures var log: Log := [0.0, 1.0];
      var live := After(log, 2.0 - 10.0); |live| >= 1 && |After(log, live[0] + 10.0 - 10.0)| >= 1
  {
    var log: Log := [0.0, 1.0];
    AfterAll(log, 2.0 - 10.0);
    assert log == [0.0] + [1.0];
    AfterAppend([0.0], [1.0], 0.0);
    AfterAll([1.0], 0.0);
    AfterNone([0.0], 0.0);
  }
}
