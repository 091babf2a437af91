/** devsim/spec.py: which bias points a device run has to solve. */
module SweepPlans {
  import opened Reals

  function SweepValue(start: real, span: real, index: real, gaps: real): real
    requires gaps != 0.0
  {
    start + span * index / gaps
  }

  /** sweep_values() */
  function SweepValues(start: real, stop: real, points: int): seq<real> {
    if points <= 0 then []
    else if points == 1 || start == stop then [start]
    else seq(points, i => SweepValue(start, stop - start, i as real, (points - 1) as real))
  }

  lemma Cancels(x: real, d: real)
    requires d != 0.0
    ensures x * d / d == x
  {
  }

  lemma Scale(x: real, y: real, d: real)
    requires d > 0.0 && x < y
    ensures x / d < y / d
  {
  }

  lemma Times(s: real, x: real, y: real)
    requires x < y
    ensures s > 0.0 ==> s * x < s * y
    ensures s < 0.0 ==> s * x > s * y
  {
    Positive(s, y - x);
    Positive(-s, y - x);
    assert s * (y - x) == s * y - s * x && (-s) * (y - x) == s * x - s * y;
  }

  lemma SweepValueOrder(start: real, span: real, i: real, j: real, gaps: real)
    requires gaps > 0.0 && i < j
    ensures span > 0.0 ==> SweepValue(start, span, i, gaps) < SweepValue(start, span, j, gaps)
    ensures span < 0.0 ==> SweepValue(start, span, i, gaps) > SweepValue(start, span, j, gaps)
  {
    Times(span, i, j);
    if span > 0.0 {
      Scale(span * i, span * j, gaps);
    } else if span < 0.0 {
      Scale(span * j, span * i, gaps);
    }
  }

  lemma SweepValueEnds(start: real, span: real, gaps: real)
    requires gaps != 0.0
    ensures SweepValue(start, span, 0.0, gaps) == start && SweepValue(start, span, gaps, gaps) == start + span
  {
    assert span * 0.0 == 0.0;
    Cancels(span, gaps);
  }

  /** Both ends are swept, and between them the values run strictly one way. */
  lemma SweepHasBothEnds(start: real, stop: real, points: int)
    requires points >= 2 && start != stop
    ensures var v := SweepValues(start, stop, points);
      && |v| == points && v[0] == start && v[points - 1] == stop
      && (forall i, j :: 0 <= i < j < points ==> if start < stop then v[i] < v[j] else v[i] > v[j])
  {
    var v, gaps := SweepValues(start, stop, points), (points - 1) as real;
    SweepValueEnds(start, stop - start, gaps);
    forall i, j | 0 <= i < j < points ensures if start < stop then v[i] < v[j] else v[i] > v[j] {
      SweepValueOrder(start, stop - start, i as real, j as real, gaps);
    }
  }

  /** The gaps are equal: after i of them, i parts of the whole way are done. */
  lemma SweepIsEven(start: real, stop: real, points: int, i: int)
    requires points >= 2 && start != stop && 0 <= i < points
    ensures var v := SweepValues(start, stop, points);
      |v| == points && (v[i] - start) * (points - 1) as real == (stop - start) * i as real
  {
    Quotient((stop - start) * i as real, (points - 1) as real);
  }

  /** No points, no values; one point, or no way to go, and the start is all. */
  lemma ShortSweeps(start: real, stop: real, points: int)
    ensures points <= 0 ==> SweepValues(start, stop, points) == []
    ensures points >= 1 && (points == 1 || start == stop) ==> SweepValues(start, stop, points) == [start]
  {
  }

  // ------------------------------------------------------------ combinations

  /** itertools.product(): the last list varies fastest. */
  function Product(lists: seq<seq<real>>): seq<seq<real>> {
    if lists == [] then [[]] else Prefixed(lists[0], Product(lists[1..]))
  }

  function Prefixed(firsts: seq<real>, rests: seq<seq<real>>): seq<seq<real>> {
    if firsts == [] then [] else Each(firsts[0], rests) + Prefixed(firsts[1..], rests)
  }

  function Each(x: real, rests: seq<seq<real>>): seq<seq<real>> {
    if rests == [] then [] else [[x] + rests[0]] + Each(x, rests[1..])
  }

  function Choices(lists: seq<seq<real>>): nat {
    if lists == [] then 1 else |lists[0]| * Choices(lists[1..])
  }

  /** One value from each list. */
  predicate Chooses(c: seq<real>, lists: seq<seq<real>>) {
    |c| == |lists| && forall i :: 0 <= i < |c| ==> c[i] in lists[i]
  }

  predicate NoRepeats<T(==)>(s: seq<T>) {
    forall i, j :: 0 <= i < j < |s| ==> s[i] != s[j]
  }

  lemma {:induction false} EachIs(x: real, rests: seq<seq<real>>)
    ensures |Each(x, rests)| == |rests| && forall i :: 0 <= i < |rests| ==> Each(x, rests)[i] == [x] + rests[i]
  {
    if rests != [] {
      EachIs(x, rests[1..]);
    }
  }

  lemma {:induction false} PrefixedIs(firsts: seq<real>, rests: seq<seq<real>>, c: seq<real>)
    ensures |Prefixed(firsts, rests)| == |firsts| * |rests|
    ensures c in Prefixed(firsts, rests) <==> |c| > 0 && c[0] in firsts && c[1..] in rests
  {
    if firsts != [] {
      EachIs(firsts[0], rests);
      PrefixedIs(firsts[1..], rests, c);
      var a, b := Each(firsts[0], rests), Prefixed(firsts[1..], rests);
      assert c in a + b <==> c in a || c in b;
      assert c in a <==> |c| > 0 && c[0] == firsts[0] && c[1..] in rests by {
        InEach(firsts[0], rests, c);
      }
      assert firsts == [firsts[0]] + firsts[1..];
      assert |firsts| * |rests| == |rests| + |firsts[1..]| * |rests|;
    }
  }

  lemma InEach(x: real, rests: seq<seq<real>>, c: seq<real>)
    ensures c in Each(x, rests) <==> |c| > 0 && c[0] == x && c[1..] in rests
  {
    EachIs(x, rests);
    if c in Each(x, rests) {
      var i :| 0 <= i < |rests| && Each(x, rests)[i] == c;
      assert c[1..] == rests[i];
    }
    if |c| > 0 && c[0] == x && c[1..] in rests {
      var i :| 0 <= i < |rests| && rests[i] == c[1..];
      assert Each(x, rests)[i] == [x] + c[1..] == c;
    }
  }

  lemma {:induction false} PrefixedAt(firsts: seq<real>, rests: seq<seq<real>>, i: nat, k: nat)
    requires i < |firsts| && k < |rests|
    ensures i * |rests| + k < |Prefixed(firsts, rests)|
    ensures Prefixed(firsts, rests)[i * |rests| + k] == [firsts[i]] + rests[k]
  {
    EachIs(firsts[0], rests);
    if i > 0 {
      PrefixedAt(firsts[1..], rests, i - 1, k);
      assert i * |rests| == |rests| + (i - 1) * |rests|;
    }
  }

  /** The first list varies slowest: value i of it comes with all choices from the
      other lists, in their order, before value i + 1. */
  lemma ProductOrder(lists: seq<seq<real>>, i: nat, k: nat)
    requires lists != [] && i < |lists[0]| && k < |Product(lists[1..])|
    ensures var rests := Product(lists[1..]);
      && i * |rests| + k < |Product(lists)|
      && Product(lists)[i * |rests| + k] == [lists[0][i]] + rests[k]
  {
    PrefixedAt(lists[0], Product(lists[1..]), i, k);
  }

  /** Every choice comes up, and nothing else; how many there are. */
  lemma {:induction false} ProductIsAllChoices(lists: seq<seq<real>>, c: seq<real>)
    ensures |Product(lists)| == Choices(lists)
    ensures c in Product(lists) <==> Chooses(c, lists)
  {
    if lists == [] {
      assert Product(lists) == [[]];
      assert c in Product(lists) <==> c == [];
    } else {
      var rest := if |c| > 0 then c[1..] else [];
      ProductIsAllChoices(lists[1..], rest);
      PrefixedIs(lists[0], Product(lists[1..]), c);
      if |c| > 0 && c[0] in lists[0] && Chooses(rest, lists[1..]) {
        assert Chooses(c, lists) by {
          forall i | 0 <= i < |c| ensures c[i] in lists[i] {
            if i > 0 { assert rest[i - 1] in lists[1..][i - 1]; }
          }
        }
      }
      if Chooses(c, lists) {
        assert c[0] in lists[0];
        forall i | 0 <= i < |rest| ensures rest[i] in lists[1..][i] {
          assert c[i + 1] in lists[i + 1];
        }
      }
    }
  }

  lemma {:induction false} PrefixedNoRepeats(firsts: seq<real>, rests: seq<seq<real>>)
    requires NoRepeats(firsts) && NoRepeats(rests)
    ensures NoRepeats(Prefixed(firsts, rests))
  {
    if firsts != [] {
      PrefixedNoRepeats(firsts[1..], rests);
      EachIs(firsts[0], rests);
      var a, b := Each(firsts[0], rests), Prefixed(firsts[1..], rests);
      forall i, j | 0 <= i < j < |a + b| ensures (a + b)[i] != (a + b)[j] {
        if j < |a| {
          assert rests[i] != rests[j];
          assert a[i][1..] == rests[i] && a[j][1..] == rests[j];
        } else if i < |a| {
          PrefixedIs(firsts[1..], rests, (a + b)[j]);
          assert (a + b)[j] == b[j - |a|] && b[j - |a|] in b;
          assert (a + b)[i][0] == firsts[0];
        } else {
          assert b[i - |a|] != b[j - |a|];
        }
      }
    }
  }

  /** No combination comes up twice, if no list repeats a value. */
  lemma {:induction false} ProductNoRepeats(lists: seq<seq<real>>)
    requires forall l <- lists :: NoRepeats(l)
    ensures NoRepeats(Product(lists))
  {
    if lists != [] {
      assert lists[0] in lists;
      forall l <- lists[1..] ensures NoRepeats(l) {
        assert l in lists;
      }
      ProductNoRepeats(lists[1..]);
      PrefixedNoRepeats(lists[0], Product(lists[1..]));
    }
  }

  /** total_points(): without a stepped bias there is one, empty, combination. */
  function TotalPoints(sweep: seq<real>, steps: seq<seq<real>>): nat {
    |sweep| * |Product(steps)|
  }

  lemma {:induction false} TotalIsAProduct(sweep: seq<real>, steps: seq<seq<real>>)
    ensures TotalPoints(sweep, steps) == |sweep| * Choices(steps)
    ensures steps == [] ==> TotalPoints(sweep, steps) == |sweep|
  {
    ProductIsAllChoices(steps, []);
  }
}
