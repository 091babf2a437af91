/** The mesh database of flip.c, clktri.c, locate.c and list.c, with its tables
    rewritten in place. */
module MeshDb {
  import opened Plane
  import opened PlaneGeometry
  import opened MeshTables
  import opened MeshFlip
  import opened MeshFlipSound
  import opened MeshFlipTheorems
  import opened MeshDelaunay
  import opened MeshFlipRuns
  import opened MeshFlipPasses

  /** `struct list_str`: a growable array with spare room at its end. */
  class IntList {
    var num: nat
    var list: array<int>

    ghost predicate Valid()
      reads this
    {
      num <= list.Length
    }

    ghost function Contents(): seq<int>
      requires Valid()
      reads this, list
    {
      list[..num]
    }

    constructor ()
      ensures Valid() && Contents() == [] && fresh(list)
    {
      num := 0;
      list := new int[0];
    }

    method AddList(item: int)
      requires Valid()
      modifies this, list
      ensures Valid() && Contents() == old(Contents()) + [item]
      ensures list == old(list) || fresh(list)
    {
      if num >= list.Length {
        var grown := new int[list.Length + 10];
        var i := 0;
        while i < num
          invariant 0 <= i <= num == old(num) && list == old(list) && list.Length == old(list.Length)
          invariant list[..num] == old(list[..num])
          invariant grown[..i] == list[..i]
        {
          grown[i] := list[i];
          i := i + 1;
        }
        list := grown;
      }
      list[num] := item;
      num := num + 1;
    }

    /** Panics when the item is missing, so callers owe its presence. */
    method SubList(item: int)
      requires Valid() && item in Contents()
      modifies this`num, list
      ensures Valid() && Contents() == RemoveFirst(old(Contents()), item)
    {
      ghost var was := Contents();
      var i := Find(item);
      RemoveAt(was, i, item);
      CloseGap(i);
    }

    method Find(item: int) returns (i: nat)
      requires Valid() && item in Contents()
      ensures i < num && list[i] == item && item !in Contents()[..i]
    {
      i := 0;
      while i < num && list[i] != item
        invariant i <= num && item !in Contents()[..i]
      {
        i := i + 1;
      }
      assert Contents()[..num] == Contents();
    }

    /** The loop that moves the rest up. */
    method CloseGap(i: nat)
      requires Valid() && i < num
      modifies this`num, list
      ensures Valid() && Contents() == old(Contents())[..i] + old(Contents())[i + 1..]
    {
      ghost var was := Contents();
      var j := i;
      ShiftEnds(was, i);
      while j < num - 1
        invariant i <= j < num == |was| && list == old(list) && Valid()
        invariant Contents() == Shifted(was, i, j)
      {
        ShiftNext(was, i, j);
        assert list[j + 1] == Contents()[j + 1];
        list[j] := list[j + 1];
        j := j + 1;
      }
      num := num - 1;
    }
  }

  /** The list when the items between i and j have moved up. */
  function Shifted(was: seq<int>, i: nat, j: nat): (r: seq<int>)
    requires i <= j < |was|
    ensures |r| == |was|
  {
    was[..i] + was[i + 1..j + 1] + was[j..]
  }

  lemma ShiftEnds(was: seq<int>, i: nat)
    requires i < |was|
    ensures Shifted(was, i, i) == was
    ensures Shifted(was, i, |was| - 1)[..|was| - 1] == was[..i] + was[i + 1..]
  {
  }

  lemma ShiftNext(was: seq<int>, i: nat, j: nat)
    requires i <= j < |was| - 1
    ensures Shifted(was, i, j)[j + 1] == was[j + 1]
    ensures Shifted(was, i, j + 1) == Shifted(was, i, j)[j := was[j + 1]]
  {
  }

  lemma {:induction false} RemoveAt(s: seq<int>, i: nat, x: int)
    requires i < |s| && s[i] == x && x !in s[..i]
    ensures RemoveFirst(s, x) == s[..i] + s[i+1..]
  {
    if i > 0 {
      assert s[0] in s[..i];
      assert s[1..][..i-1] == s[..i][1..];
      RemoveAt(s[1..], i - 1, x);
      assert s[..i] == [s[0]] + s[1..][..i-1];
    }
  }

  class Database {
    var tri: seq<Tri>
    var edg: seq<Edge>
    var nd: seq<Node>
    const pt: seq<Point>

    constructor (m: Mesh)
      ensures State() == m
    {
      tri, edg, nd, pt := m.tri, m.edg, m.nd, m.pt;
    }

    function State(): Mesh
      reads this
    {
      Mesh(tri, edg, nd, pt)
    }

    /** The search loop of twhich, nwhich and ewhich. */
    static method Which(slots: seq<int>, wanted: int) returns (j: nat)
      requires |slots| == 3
      ensures j == Slot(slots, wanted)
    {
      j := 0;
      while j < 3 && slots[j] != wanted
        invariant j <= 3 && wanted !in slots[..j]
      {
        j := j + 1;
      }
      assert slots[..3] == slots;
    }

    method SubEleEdg(e: int, t: int)
      requires 0 <= e < |edg| && t in edg[e].ele
      modifies this`edg
      ensures edg == SubEle(old(edg), e, t)
    {
      edg := edg[e := edg[e].(ele := RemoveFirst(edg[e].ele, t))];
    }

    method AddEleEdg(e: int, t: int)
      requires 0 <= e < |edg|
      modifies this`edg
      ensures edg == AddEle(old(edg), e, t)
    {
      edg := edg[e := edg[e].(ele := edg[e].ele + [t])];
    }

    method SubTriNd(n: int, t: int)
      requires 0 <= n < |nd| && t in nd[n].tri
      modifies this`nd
      ensures nd == SubTri(old(nd), n, t)
    {
      nd := nd[n := nd[n].(tri := RemoveFirst(nd[n].tri, t))];
    }

    method AddTriNd(n: int, t: int)
      requires 0 <= n < |nd|
      modifies this`nd
      ensures nd == AddTri(old(nd), n, t)
    {
      nd := nd[n := nd[n].(tri := nd[n].tri + [t])];
    }

    method SubEdgeNd(n: int, e: int)
      requires 0 <= n < |nd| && e in nd[n].edg
      modifies this`nd
      ensures nd == SubEdg(old(nd), n, e)
    {
      nd := nd[n := nd[n].(edg := RemoveFirst(nd[n].edg, e))];
    }

    method AddEdgeNd(n: int, e: int)
      requires 0 <= n < |nd|
      modifies this`nd
      ensures nd == AddEdg(old(nd), n, e)
    {
      nd := nd[n := nd[n].(edg := nd[n].edg + [e])];
    }

    /** sclk_tri() in two dimensions. */
    method SclkTri(ie: int)
      requires 0 <= ie < |tri| && |tri[ie].nd| == |tri[ie].nb| == |tri[ie].edg| == 3
      requires forall j :: 0 <= j < 3 ==> 0 <= tri[ie].nd[j] < |nd| && 0 <= nd[tri[ie].nd[j]].pt < |pt|
      modifies this`tri
      ensures var x := old(tri)[ie];
              tri == old(tri)[ie := Clockwise(x, pt[nd[x.nd[0]].pt], pt[nd[x.nd[1]].pt], pt[nd[x.nd[2]].pt])]
    {
      var x := tri[ie];
      var a, b, c := pt[nd[x.nd[0]].pt], pt[nd[x.nd[1]].pt], pt[nd[x.nd[2]].pt];
      var den := (c.x - a.x) * (b.y - c.y) - (c.y - a.y) * (b.x - c.x);
      var s := -0.5 * den;
      if s < 0.0 {
        tri := tri[ie := x.(nd := [x.nd[0], x.nd[2], x.nd[1]],
                            nb := [x.nb[0], x.nb[2], x.nb[1]],
                            edg := [x.edg[0], x.edg[2], x.edg[1]])];
      }
    }

    /** The inner loop that redirects an outer neighbour. */
    method Redirect(fixme: int, from: int, to: int)
      requires 0 <= fixme < |tri| && |tri[fixme].nb| == 3 && from != to
      modifies this`tri
      ensures tri == old(tri)[fixme := Retarget(old(tri)[fixme], from, to)]
    {
      ghost var was := tri[fixme];
      var i := 0;
      while i < 3
        invariant 0 <= i <= 3 && |tri| == |old(tri)|
        invariant |tri[fixme].nb| == 3 && tri == old(tri)[fixme := was.(nb := tri[fixme].nb)]
        invariant forall j :: 0 <= j < i ==> tri[fixme].nb[j] == (if was.nb[j] == from then to else was.nb[j])
        invariant forall j :: i <= j < 3 ==> tri[fixme].nb[j] == was.nb[j]
      {
        if tri[fixme].nb[i] == from {
          tri := tri[fixme := tri[fixme].(nb := tri[fixme].nb[i := to])];
        }
        i := i + 1;
      }
      assert tri[fixme].nb == Retarget(was, from, to).nb;
    }

    /** ck_flip(): 1 when the flip is allowed. */
    method CheckFlip(we: int) returns (r: int)
      requires Sound(State()) && 0 <= we < |edg| && |edg[we].ele| == 2
      ensures SlotsFound(State(), we, edg[we].ele[0], edg[we].ele[1])
      ensures r == 1 <==> CkFlip(State(), we, edg[we].ele[0], edg[we].ele[1])
    {
      var t1, t2 := edg[we].ele[0], edg[we].ele[1];
      ghost var jp, jq := Meet(State(), we, t1, t2);
      EdgesDiffer(State(), t1);
      EdgesDiffer(State(), t2);
      QuadOfInRange(State(), we, t1, t2);
      var ix1 := Which(tri[t1].edg, we);
      var ix2 := Which(tri[t2].edg, we);
      var p1, p2 := pt[nd[tri[t1].nd[ix1]].pt], pt[nd[tri[t2].nd[ix2]].pt];
      var p3, p4 := pt[nd[edg[we].nd[0]].pt], pt[nd[edg[we].nd[1]].pt];
      var sgn := SideProduct(p1, p2, p3, p4);
      r := if sgn < 0.0 then 1 else 0;
    }

    /** On which sides of the line through p1 and p2 the points p3 and p4 lie. */
    static method SideProduct(p1: Point, p2: Point, p3: Point, p4: Point) returns (sgn: real)
      ensures sgn == CkSign(p1, p2, p3, p4)
    {
      var sgn1, sgn2;
      if p1.x == p2.x {
        sgn1, sgn2 := p3.x - p1.x, p4.x - p1.x;
      } else if p1.y == p2.y {
        sgn1, sgn2 := p3.y - p1.y, p4.y - p1.y;
      } else {
        var slope := (p1.y - p2.y) / (p1.x - p2.x);
        var cut := (p1.x * p2.y - p2.x * p1.y) / (p1.x - p2.x);
        sgn1, sgn2 := p3.y - (slope * p3.x + cut), p4.y - (slope * p4.x + cut);
      }
      sgn := sgn1 * sgn2;
    }

    /** tri_flip() */
    method TriFlip(it: int, tp: int, tq: int)
      requires Sound(State()) && Joins(State(), it, tp, tq)
      modifies this
      ensures SlotsFound(old(State()), it, tp, tq)
      ensures State() == Flip(old(State()), it, tp, tq)
    {
      ghost var q := FlipPlan(State(), it, tp, tq);
      var jp := Which(tri[tp].nb, tq);
      var jq := Which(tri[tq].nb, tp);
      var sp := [tri[tp].nd[jp], edg[it].nd[0], tri[tq].nd[jq], edg[it].nd[1]];
      assert sp == [q.s0, q.s1, q.s2, q.s3];
      FlipBySteps(it, tp, tq, sp, q);
    }

    method FlipBySteps(it: int, tp: int, tq: int, sp: seq<int>, ghost q: Quad)
      requires Planned(State(), it, tp, tq, q) && sp == [q.s0, q.s1, q.s2, q.s3]
      modifies this
      ensures State() == Flip(old(State()), it, tp, tq)
    {
      ghost var m := State();
      RewriteTables(it, tp, tq, sp, q);
      RepairLinks(it, tp, tq, sp, m, q);
    }

    /** flip(): no flipping in one dimension. */
    method FlipAll(twoD: bool) returns (flips: nat)
      requires Sound(State())
      modifies this
      ensures !twoD ==> State() == old(State()) && flips == 0
      ensures twoD ==> State() == FlipRun(old(State())).m && flips == Total(FlipRun(old(State())).passes)
      ensures twoD ==> Ended(old(State()), FlipRun(old(State())), 30)
    {
      flips := 0;
      if !twoD { return; }
      ghost var m := State();
      flips := RunPasses();
      FlipRunEnds(m);
    }

    /** Passes over the edges until one changes nothing, at most 30. */
    method RunPasses() returns (flips: nat)
      requires Sound(State())
      modifies this
      ensures State() == FlipRun(old(State())).m && flips == Total(FlipRun(old(State())).passes)
    {
      ghost var m, passes := State(), [];
      var todo, done := new bool[|edg|](_ => true), new bool[|edg|];
      assert todo[..] == AllMarked(|edg|);
      UnderwayStarts(m);
      flips := 0;
      var count, allDone := 0, false;
      while !allDone && count < MAX_PASSES
        invariant todo.Length == done.Length == |edg| && fresh(todo) && fresh(done) && todo != done
        invariant 0 <= count <= MAX_PASSES && flips == Total(passes)
        invariant Underway(m, passes, State(), todo[..], if allDone then 0 else MAX_PASSES - count)
        decreases MAX_PASSES - count
      {
        UnderwayNext(m, passes, State(), todo[..], MAX_PASSES - count);
        var n := Pass(todo, done);
        TotalAppend(passes, n);
        passes := passes + [n];
        flips := flips + n;
        allDone := n == 0;
        count := count + 1;
      }
      UnderwayEnds(m, passes, State(), todo[..]);
    }

    /** One pass over the edges marked in `todo`; flips mark edges for the next. */
    method Pass(todo: array<bool>, done: array<bool>) returns (flips: nat)
      requires Sound(State()) && todo != done && todo.Length == done.Length == |edg|
      modifies this, todo, done
      ensures Sweep(State(), todo[..], flips) == PassOf(old(State()), old(todo[..]))
    {
      ghost var m, marked := State(), todo[..];
      Rearm(todo, done);
      flips := TryEdges(todo, done, m, marked);
    }

    /** The loop over the edges. */
    method TryEdges(todo: array<bool>, done: array<bool>, ghost m: Mesh, ghost marked: seq<bool>) returns (flips: nat)
      requires todo != done && todo.Length == done.Length == |edg| == |marked| && done[..] == Others(marked)
      requires OnTrack(m, marked, Sweep(State(), todo[..], 0), 0)
      modifies this, todo
      ensures todo.Length == |edg| && OnTrack(m, marked, Sweep(State(), todo[..], flips), |marked|)
    {
      flips := 0;
      var it := 0;
      while it < |edg|
        invariant todo.Length == done.Length == |edg| == |marked| && 0 <= it <= |edg|
        invariant OnTrack(m, marked, Sweep(State(), todo[..], flips), it)
      {
        OnTrackNext(m, marked, Sweep(State(), todo[..], flips), it);
        flips := TryEdge(it, todo, done, flips);
        it := it + 1;
      }
    }

    /** The start of a pass: the marks become the edges to look at. */
    method Rearm(todo: array<bool>, done: array<bool>)
      requires Sound(State()) && todo != done && todo.Length == done.Length == |edg|
      modifies todo, done
      ensures State() == old(State())
      ensures todo[..] == NoMarks(|edg|) && done[..] == Others(old(todo[..]))
    {
      forall it | 0 <= it < |edg| { done[it] := !todo[it]; }
      forall it | 0 <= it < |edg| { todo[it] := false; }
    }

    /** The body of the loop over the edges. */
    method TryEdge(it: int, todo: array<bool>, done: array<bool>, flips: nat) returns (n: nat)
      requires Sound(State()) && todo != done && todo.Length == done.Length == |edg| && 0 <= it < |edg|
      modifies this, todo
      ensures Sweep(State(), todo[..], n) == Tried(Sweep(old(State()), old(todo[..]), flips), done[..], it)
    {
      n := flips;
      if !done[it] && |edg[it].ele| == 2 {
        n := FlipAndMark(it, todo, flips);
      }
    }

    method FlipAndMark(it: int, todo: array<bool>, flips: nat) returns (n: nat)
      requires Sound(State()) && todo.Length == |edg| && 0 <= it < |edg| && |edg[it].ele| == 2
      modifies this, todo
      ensures var was := Sweep(old(State()), old(todo[..]), flips);
        Sweep(State(), todo[..], n) == if Wanted(was.m, it) then Flipped(was, it) else was
    {
      n := flips;
      ghost var m := State();
      var flipped := FlipEdge(it);
      if flipped {
        n := n + 1;
        MarkAround(it, todo);
        assert State() == TurnEdge(m, it);
      }
    }

    /** One edge with two triangles: flipped when both lie in one region and the
        coupling is negative; ck_flip is asked, and agrees. */
    method FlipEdge(it: int) returns (flipped: bool)
      requires Sound(State()) && 0 <= it < |edg| && |edg[it].ele| == 2
      modifies this
      ensures flipped <==> Wanted(old(State()), it)
      ensures State() == if flipped then TurnEdge(old(State()), it) else old(State())
    {
      ghost var m := State();
      var t1, t2 := edg[it].ele[0], edg[it].ele[1];
      assert Joins(m, it, t1, t2);
      ghost var q := FlipPlan(m, it, t1, t2);
      if tri[t1].reg != tri[t2].reg { return false; }
      var along := GimmeEhed(it);
      if along >= 0.0 { return false; }
      CkFlipNeverRefuses(m, it, t1, t2);
      var yes := CheckFlip(it);
      if yes != 1 {
        assert false;
      }
      TriFlip(it, t1, t2);
      return true;
    }

    /** gimme_ehed() */
    method GimmeEhed(it: int) returns (l: real)
      requires Sound(State()) && 0 <= it < |edg|
      ensures l == Coupling(State(), it)
    {
      var ele := edg[it].ele;
      ElementsOf(State(), it);
      l := 0.0;
      for t := 0 to |ele|
        invariant l == SumCoupling(State(), ele[..t], it)
      {
        assert Faces(State(), ele[t], it);
        var e := Which(tri[ele[t]].edg, it);
        var ehed := TriGeom(ele[t]);
        l := l + ehed[e];
        assert ele[..t + 1][..t] == ele[..t];
      }
      assert ele[..|ele|] == ele;
    }

    /** The couplings tri_geom() computes; on a sound mesh it does not panic. */
    method TriGeom(ie: int) returns (ehed: seq<real>)
      requires Sound(State()) && 0 <= ie < |tri|
      ensures |ehed| == 3 && forall e :: e in tri[ie].edg ==> ehed[Slot(tri[ie].edg, e)] == TriCoupling(State(), ie, e)
    {
      assert TriShaped(State(), tri[ie]) && TriOk(State(), ie);
      var i, j, k := tri[ie].nd[0], tri[ie].nd[1], tri[ie].nd[2];
      var a, b, c := pt[nd[i].pt], pt[nd[j].pt], pt[nd[k].pt];
      var xij, xjk, xki := a.x - b.x, b.x - c.x, c.x - a.x;
      var yij, yjk, yki := a.y - b.y, b.y - c.y, c.y - a.y;
      var den := xki * yjk - yki * xjk;
      DenominatorIs(a, b, c);
      if den == 0.0 || -0.5 * den < 0.0 {
        assert false;
      }
      den := 0.5 / den;
      ehed := [(xki * xij + yki * yij) * den, (xij * xjk + yij * yjk) * den, (xjk * xki + yjk * yki) * den];
      assert forall s: nat :: s < 3 ==> ehed[s] == Ehed(a, b, c, s);
    }

    /** The edges at both ends of a flipped edge are to be checked again. */
    method MarkAround(it: int, todo: array<bool>)
      requires Sound(State()) && 0 <= it < |edg| == todo.Length
      modifies todo
      ensures State() == old(State())
      ensures |edg[it].nd| == 2 && todo[..] == Marks(State(), old(todo[..]), it)
    {
      assert EdgeShaped(State(), edg[it]);
      MarkNode(edg[it].nd[0], todo);
      MarkNode(edg[it].nd[1], todo);
    }

    method MarkNode(n: int, todo: array<bool>)
      requires Sound(State()) && 0 <= n < |nd| && todo.Length == |edg|
      modifies todo
      ensures forall e :: 0 <= e < |edg| ==> (todo[e] <==> old(todo[e]) || EndsAt(State(), e, n))
    {
      assert NodeOk(State(), n);
      for j := 0 to |nd[n].edg|
        invariant forall e :: 0 <= e < |edg| ==> (todo[e] <==> old(todo[e]) || e in nd[n].edg[..j])
      {
        assert nd[n].edg[j] in nd[n].edg;
        assert nd[n].edg[..j + 1] == nd[n].edg[..j] + [nd[n].edg[j]];
        todo[nd[n].edg[j]] := true;
      }
      assert nd[n].edg[..|nd[n].edg|] == nd[n].edg;
    }

    /** The first half of tri_flip: the edge, the two triangles, the edge lists. */
    method RewriteTables(it: int, tp: int, tq: int, sp: seq<int>, ghost q: Quad)
      requires Planned(State(), it, tp, tq, q) && sp == [q.s0, q.s1, q.s2, q.s3]
      modifies this
      ensures var m := old(State());
              && tri == Written(m, q, it, tp, tq)
              && edg == FlipEdg(m, q, it, tp, tq)
              && nd == AddEdg(AddEdg(SubEdg(SubEdg(m.nd, q.s1, it), q.s3, it), q.s0, it), q.s2, it)
    {
      ghost var m := State();
      assert m.edg[it].nd == [q.s1, q.s3];
      MoveEdge(it, sp[0], sp[2]);
      RewriteTriangles(it, tp, tq, sp, q);
      MoveElements(tp, tq, tri[tp].edg[0], tri[tq].edg[0]);
    }

    /** The second half: outer neighbours, node lists, orientation. */
    method RepairLinks(it: int, tp: int, tq: int, sp: seq<int>, ghost m: Mesh, ghost q: Quad)
      requires Planned(m, it, tp, tq, q) && sp == [q.s0, q.s1, q.s2, q.s3] && m.pt == pt
      requires tri == Written(m, q, it, tp, tq)
      requires nd == AddEdg(AddEdg(SubEdg(SubEdg(m.nd, q.s1, it), q.s3, it), q.s0, it), q.s2, it)
      modifies this`tri, this`nd
      ensures tri == FlipTri(m, q, it, tp, tq) && nd == FlipNd(m, q, it, tp, tq)
    {
      FixNeighbours(it, tp, tq, m, q);
      LinkedInner(m, q, it, tp, tq);
      MoveTriangles(tp, tq, sp[0], sp[2]);
      PointsStay(m, q, it, tp, tq);
      TurnBoth(it, tp, tq, m, q);
    }

    method TurnBoth(ghost it: int, tp: int, tq: int, ghost m: Mesh, ghost q: Quad)
      requires Shaped(m) && QuadInRange(m, q) && 0 <= tp < |m.tri| && 0 <= tq < |m.tri| && tp != tq && m.pt == pt
      requires tri == Linked(m, q, it, tp, tq) && |nd| == |m.nd|
      requires forall n :: 0 <= n < |m.nd| ==> nd[n].pt == m.nd[n].pt
      requires tri[tp].nd == [q.s0, q.s1, q.s2] && tri[tq].nd == [q.s2, q.s3, q.s0]
      modifies this`tri
      ensures tri == FlipTri(m, q, it, tp, tq)
    {
      SclkTri(tp);
      SclkTri(tq);
    }

    /** The flipped edge leaves its old end nodes and joins the two apexes. */
    method MoveEdge(it: int, n1: int, n2: int)
      requires 0 <= it < |edg| && |edg[it].nd| == 2 && edg[it].nd[0] != edg[it].nd[1]
      requires 0 <= edg[it].nd[0] < |nd| && 0 <= edg[it].nd[1] < |nd| && 0 <= n1 < |nd| && 0 <= n2 < |nd|
      requires it in nd[edg[it].nd[0]].edg && it in nd[edg[it].nd[1]].edg
      modifies this`edg, this`nd
      ensures edg == old(edg)[it := old(edg)[it].(nd := [n1, n2])]
      ensures var s := old(edg)[it].nd;
              nd == AddEdg(AddEdg(SubEdg(SubEdg(old(nd), s[0], it), s[1], it), n1, it), n2, it)
    {
      SubEdgeNd(edg[it].nd[0], it);
      SubEdgeNd(edg[it].nd[1], it);
      edg := edg[it := edg[it].(nd := edg[it].nd[0 := n1])];
      AddEdgeNd(n1, it);
      edg := edg[it := edg[it].(nd := edg[it].nd[1 := n2])];
      AddEdgeNd(n2, it);
      assert old(edg)[it].nd[0 := n1][1 := n2] == [n1, n2];
    }

    /** Reads neighbours and edges around the quadrilateral, then writes both
        triangles. */
    method RewriteTriangles(it: int, tp: int, tq: int, sp: seq<int>, ghost q: Quad)
      requires 0 <= tp < |tri| && 0 <= tq < |tri| && tp != tq && sp == [q.s0, q.s1, q.s2, q.s3]
      requires |tri[tp].nd| == |tri[tp].nb| == |tri[tp].edg| == 3 && |tri[tq].nd| == |tri[tq].nb| == |tri[tq].edg| == 3
      requires sp[1] in tri[tp].nd && sp[3] in tri[tp].nd && sp[1] in tri[tq].nd && sp[3] in tri[tq].nd
      requires var x, y := tri[tp], tri[tq];
               var p1, p3, q1, q3 := Slot(x.nd, sp[1]), Slot(x.nd, sp[3]), Slot(y.nd, sp[1]), Slot(y.nd, sp[3]);
               && q.n01 == x.nb[p3] && q.n12 == y.nb[q3] && q.n23 == y.nb[q1] && q.n30 == x.nb[p1]
               && q.e01 == x.edg[p3] && q.e12 == y.edg[q3] && q.e23 == y.edg[q1] && q.e30 == x.edg[p1]
      modifies this`tri
      ensures tri == old(tri)[tp := NewP(q, it, tq, old(tri)[tp].reg)][tq := NewQ(q, it, tp, old(tri)[tq].reg)]
    {
      var q3 := Which(tri[tq].nd, sp[3]);
      var p3 := Which(tri[tp].nd, sp[3]);
      var p1 := Which(tri[tp].nd, sp[1]);
      var q1 := Which(tri[tq].nd, sp[1]);
      var sn := [tri[tq].nb[q3], tq, tri[tp].nb[p3], tri[tp].nb[p1], tp, tri[tq].nb[q1]];
      var se := [tri[tq].edg[q3], it, tri[tp].edg[p3], tri[tp].edg[p1], it, tri[tq].edg[q1]];
      tri := tri[tp := Tri([sp[0], sp[1], sp[2]], [sn[0], sn[1], sn[2]], [se[0], se[1], se[2]], tri[tp].reg)];
      tri := tri[tq := Tri([sp[2], sp[3], sp[0]], [sn[3], sn[4], sn[5]], [se[3], se[4], se[5]], tri[tq].reg)];
    }

    /** Two outer edges change their triangle. */
    method MoveElements(tp: int, tq: int, e0: int, e3: int)
      requires 0 <= e0 < |edg| && 0 <= e3 < |edg| && e0 != e3 && tp in edg[e3].ele && tq in edg[e0].ele
      modifies this`edg
      ensures edg == AddEle(AddEle(SubEle(SubEle(old(edg), e3, tp), e0, tq), e0, tp), e3, tq)
    {
      SubEleEdg(e3, tp);
      SubEleEdg(e0, tq);
      AddEleEdg(e0, tp);
      AddEleEdg(e3, tq);
    }

    /** The neighbours across those edges are pointed at their new triangle. */
    method FixNeighbours(ghost it: int, tp: int, tq: int, ghost m: Mesh, ghost q: Quad)
      requires Shaped(m) && QuadInRange(m, q) && 0 <= tp < |m.tri| && 0 <= tq < |m.tri| && tp != tq
      requires q.n12 != tp && q.n12 != tq && q.n30 != tp && q.n30 != tq
      requires tri == Written(m, q, it, tp, tq)
      modifies this`tri
      ensures tri == Linked(m, q, it, tp, tq)
    {
      assert forall t :: 0 <= t < |m.tri| ==> TriShaped(m, m.tri[t]);
      var fixme := tri[tp].nb[0];
      if fixme >= 0 { Redirect(fixme, tq, tp); }
      fixme := tri[tq].nb[0];
      if fixme >= 0 { Redirect(fixme, tp, tq); }
    }

    /** The apexes gain a triangle, the old end nodes lose one. */
    method MoveTriangles(tp: int, tq: int, n1: int, n2: int)
      requires 0 <= tp < |tri| && 0 <= tq < |tri| && 0 <= n1 < |nd| && 0 <= n2 < |nd|
      requires |tri[tp].nb| == |tri[tp].nd| == 3 && |tri[tq].nb| == |tri[tq].nd| == 3 && tq in tri[tp].nb
      requires tp in tri[tq].nb
      requires var s1, s3 := tri[tp].nd[Slot(tri[tp].nb, tq)], tri[tq].nd[Slot(tri[tq].nb, tp)];
               && 0 <= s1 < |nd| && 0 <= s3 < |nd| && tq in nd[s1].tri && tp in nd[s3].tri
               && n1 != s1 && n1 != s3 && n2 != s1 && n2 != s3 && s1 != s3
      modifies this`nd
      ensures var s1, s3 := tri[tp].nd[Slot(tri[tp].nb, tq)], tri[tq].nd[Slot(tri[tq].nb, tp)];
              nd == SubTri(SubTri(AddTri(AddTri(old(nd), n1, tq), n2, tp), s1, tq), s3, tp)
    {
      AddTriNd(n1, tq);
      AddTriNd(n2, tp);
      var fp := Which(tri[tp].nb, tq);
      SubTriNd(tri[tp].nd[fp], tq);
      var fq := Which(tri[tq].nb, tp);
      SubTriNd(tri[tq].nd[fq], tp);
    }
  }

  /** What tri_flip relies on when it starts: the slot searches succeed, the
      corners and edges are different, and every item that sub_list is asked to
      remove is there. */
  ghost predicate Planned(m: Mesh, it: int, tp: int, tq: int, q: Quad) {
    && Shaped(m) && SlotsFound(m, it, tp, tq) && QuadInRange(m, q) && q == QuadOf(m, it, tp, tq)
    && tp != tq && q.n12 != tp && q.n12 != tq && q.n30 != tp && q.n30 != tq
    && q.s0 != q.s1 && q.s0 != q.s2 && q.s0 != q.s3 && q.s1 != q.s2 && q.s1 != q.s3 && q.s2 != q.s3
    && it != q.e12 && it != q.e30 && q.e12 != q.e30
    && it in m.nd[q.s1].edg && it in m.nd[q.s3].edg
    && tp in m.edg[q.e30].ele && tq in m.edg[q.e12].ele
    && tq in m.nd[q.s1].tri && tp in m.nd[q.s3].tri
  }

  lemma FlipPlan(m: Mesh, it: int, tp: int, tq: int) returns (q: Quad)
    requires Sound(m) && Joins(m, it, tp, tq)
    ensures Planned(m, it, tp, tq, q)
  {
    var ccw := QuadFacts(m, it, tp, tq);
    QuadOfInRange(m, it, tp, tq);
    q := QuadOf(m, it, tp, tq);
    FlipInner(m, q, ccw, it, tp, tq);
    QuadDistinct(m, q, ccw, it, tp, tq);
    CornersOf(m, q, ccw, it, tp, tq);
    EdgeOfOne(m, q, ccw, it, tp, tq);
    assert NodeOk(m, q.s1) && NodeOk(m, q.s3) && EdgeOk(m, q.e30) && EdgeOk(m, q.e12);
  }

  lemma PointsStay(m: Mesh, q: Quad, it: int, tp: int, tq: int)
    requires QuadInRange(m, q)
    ensures var r := FlipNd(m, q, it, tp, tq); forall n :: 0 <= n < |m.nd| ==> r[n].pt == m.nd[n].pt
  {
  }
}
