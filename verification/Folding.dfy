/** Steps that may fail, taken one after the other. */
module Folding {
  import opened Options

  function Fold<A, L>(step: (A, L) -> Result<A>, a: A, lines: seq<L>): Result<A>
    decreases |lines|
  {
    if lines == [] then Ok(a)
    else
      var next := step(a, lines[0]);
      if next.Error? then Error else Fold(step, next.value, lines[1..])
  }

  function Mapped<T, L>(line: T -> L, items: seq<T>): seq<L> {
    if items == [] then [] else [line(items[0])] + Mapped(line, items[1..])
  }

  lemma {:induction false} FoldAppend<A, L>(step: (A, L) -> Result<A>, a: A, xs: seq<L>, ys: seq<L>)
    ensures Fold(step, a, xs + ys) == match Fold(step, a, xs)
      case Ok(b) => Fold(step, b, ys)
      case Error => Error
    decreases |xs|
  {
    if xs == [] {
      assert xs + ys == ys;
    } else {
      assert (xs + ys)[1..] == xs[1..] + ys;
      var next := step(a, xs[0]);
      if next.Ok? {
        FoldAppend(step, next.value, xs[1..], ys);
      }
    }
  }

  lemma FoldOne<A, L>(step: (A, L) -> Result<A>, a: A, line: L)
    ensures Fold(step, a, [line]) == step(a, line)
  {
    assert [line][1..] == [];
    var next := step(a, line);
    if next.Ok? {
      assert Fold(step, next.value, []) == Ok(next.value);
    }
  }

  function Filter<L>(keep: L -> bool, lines: seq<L>): seq<L> {
    if lines == [] then [] else (if keep(lines[0]) then [lines[0]] else []) + Filter(keep, lines[1..])
  }

  lemma {:induction false} FilterAppend<L>(keep: L -> bool, xs: seq<L>, ys: seq<L>)
    ensures Filter(keep, xs + ys) == Filter(keep, xs) + Filter(keep, ys)
  {
    if xs == [] {
      assert xs + ys == ys;
    } else {
      var first := if keep(xs[0]) then [xs[0]] else [];
      FilterAppend(keep, xs[1..], ys);
      Regroup(first, Filter(keep, xs[1..]), Filter(keep, ys));
      assert (xs + ys)[0] == xs[0] && (xs + ys)[1..] == xs[1..] + ys;
    }
  }

  lemma Regroup<L>(a: seq<L>, b: seq<L>, c: seq<L>)
    ensures a + (b + c) == a + b + c
  {
  }

  lemma FilterOne<L>(keep: L -> bool, line: L)
    ensures Filter(keep, [line]) == if keep(line) then [line] else []
  {
    assert [line][1..] == [];
  }

  /** Taking the lines made from some items is the same as taking the items, if
      each line does what its item does. */
  lemma {:induction false} FoldMapped<A(!new), L, T(!new)>(
    step: (A, L) -> Result<A>, line: T -> L, one: (A, T) -> Result<A>, a: A, items: seq<T>)
    requires forall b: A, t: T :: t in items ==> step(b, line(t)) == one(b, t)
    ensures Fold(step, a, Mapped(line, items)) == Fold(one, a, items)
    decreases |items|
  {
    if items != [] {
      assert items[0] in items;
      assert Mapped(line, items)[1..] == Mapped(line, items[1..]);
      assert step(a, line(items[0])) == one(a, items[0]);
      var next := one(a, items[0]);
      if next.Ok? {
        FoldMapped(step, line, one, next.value, items[1..]);
      }
    }
  }

  // ------------------------------------------------------------------- loops

  /** `for k := i to n { s := step(s, k); }` */
  ghost function Loop<S>(step: (S, int) -> S, s: S, i: int, n: int): S
    decreases n - i
  {
    if i >= n then s else Loop(step, step(s, i), i + 1, n)
  }

  lemma {:induction false} LoopKeeps<S(!new)>(step: (S, int) -> S, inv: (S, int) -> bool, s: S, i: int, n: int)
    requires i <= n && inv(s, i)
    requires forall t, k :: i <= k < n && inv(t, k) ==> inv(step(t, k), k + 1)
    ensures inv(Loop(step, s, i, n), n)
    decreases n - i
  {
    if i < n {
      LoopKeeps(step, inv, step(s, i), i + 1, n);
    }
  }

  /** What holds after a loop and not before it became true in one turn. */
  lemma {:induction false} LoopTurns<S>(step: (S, int) -> S, q: S -> bool, s: S, i: int, n: int) returns (b: S, k: int)
    requires !q(s) && q(Loop(step, s, i, n))
    ensures i <= k < n && !q(b) && q(step(b, k)) && Loop(step, b, k, n) == Loop(step, s, i, n)
    decreases n - i
  {
    if q(step(s, i)) {
      b, k := s, i;
    } else {
      b, k := LoopTurns(step, q, step(s, i), i + 1, n);
    }
  }
}
