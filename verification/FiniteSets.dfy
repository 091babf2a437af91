/** Small facts about finite sets of numbers. */
module FiniteSets {
  lemma HasMember(s: set<int>)
    requires s != {}
    ensures exists x :: x in s
  {
    if forall x :: x !in s { assert false; }
  }

  lemma {:induction false} SubsetSize(a: set<int>, b: set<int>)
    requires a <= b
    ensures |a| <= |b|
  {
    if a != {} {
      HasMember(a);
      var x :| x in a;
      SubsetSize(a - {x}, b - {x});
    }
  }

  lemma {:induction false} DistinctFit(c: seq<int>, all: set<int>)
    requires forall i :: 0 <= i < |c| ==> c[i] in all
    requires forall i, j :: 0 <= i < j < |c| ==> c[i] != c[j]
    ensures |c| <= |all|
  {
    if c != [] {
      var last := c[|c| - 1];
      DistinctFit(c[..|c| - 1], all - {last});
    }
  }

  function Below(n: nat): (s: set<int>)
    ensures |s| == n && forall i :: i in s <==> 0 <= i < n
  {
    if n == 0 then {} else Below(n - 1) + {n - 1}
  }

  lemma {:induction false} DistinctSize(c: seq<int>)
    requires forall i, j :: 0 <= i < j < |c| ==> c[i] != c[j]
    ensures |set x | x in c| == |c|
  {
    if c != [] {
      var rest, last := c[..|c| - 1], c[|c| - 1];
      DistinctSize(rest);
      assert (set x | x in c) == (set x | x in rest) + {last};
    }
  }
}
