/** str_parser/parser.py: what one record says, in the numbers its words stand for. */
module StrRecords {
  import opened Options
  import opened StrModel
  import opened StrText
  import opened StrFile

  /** The line is this tag, these words after gaps of blanks, and blanks. */
  ghost predicate IsRecord(line: string, tag: string, gaps: seq<string>, words: seq<string>, trail: string) {
    Solid(tag) && Spaced(gaps, words) && Blanks(trail) && line == tag + Glue(gaps, words) + trail
  }

  predicate AreInts(f: Numbers, words: seq<string>, ns: seq<int>) {
    |words| == |ns| && forall i :: 0 <= i < |words| ==> f.ToInt(words[i]) == Some(ns[i])
  }

  predicate AreReals(f: Numbers, words: seq<string>, xs: seq<real>) {
    |words| == |xs| && forall i :: 0 <= i < |words| ==> f.ToReal(words[i]) == Some(xs[i])
  }

  lemma {:induction false} IntsAre(f: Numbers, words: seq<string>, ns: seq<int>)
    requires AreInts(f, words, ns)
    ensures Ints(f, words) == Some(ns)
  {
    if words != [] {
      IntsAre(f, words[1..], ns[1..]);
      assert [ns[0]] + ns[1..] == ns;
    }
  }

  lemma {:induction false} RealsAre(f: Numbers, words: seq<string>, xs: seq<real>)
    requires AreReals(f, words, xs)
    ensures Reals(f, words) == Some(xs)
  {
    if words != [] {
      RealsAre(f, words[1..], xs[1..]);
      assert [xs[0]] + xs[1..] == xs;
    }
  }

  /** `D mode nvrt nedg ...` */
  lemma DimensionRecord(
    f: Numbers, a: Accumulator, line: string, gaps: seq<string>, words: seq<string>, trail: string, ns: seq<int>)
    requires IsRecord(line, "D", gaps, words, trail) && AreInts(f, words, ns)
    ensures ReadLine(f, a, line) ==
      if |ns| < 3 then Error
      else Ok(a.(head := a.head.(dimension := ns[0], verticesPerElement := ns[1], neighborsPerElement := ns[2])))
  {
    SpacedLine(f, a, line, "D", gaps, words, trail);
  }

  /** `M x temperature ...`: the first word is not looked at. */
  lemma TemperatureRecord(
    f: Numbers, a: Accumulator, line: string, gaps: seq<string>, words: seq<string>, trail: string)
    requires IsRecord(line, "M", gaps, words, trail)
    ensures ReadLine(f, a, line) ==
      if |words| < 2 || f.ToReal(words[1]).None? then Error
      else Ok(a.(head := a.head.(temperature := f.ToReal(words[1]))))
  {
    SpacedLine(f, a, line, "M", gaps, words, trail);
  }

  /** `s count code ...`: as many codes as declared, or an error. */
  lemma SpeciesRecord(
    f: Numbers, a: Accumulator, line: string, gaps: seq<string>, words: seq<string>, trail: string, ns: seq<int>)
    requires IsRecord(line, "s", gaps, words, trail) && AreInts(f, words, ns)
    ensures ReadLine(f, a, line) ==
      if ns == [] || ns[0] != |ns| - 1 then Error else Ok(a.(head := a.head.(table := Some(ns[1..]))))
  {
    SpacedLine(f, a, line, "s", gaps, words, trail);
    if ns != [] {
      IntsAre(f, words[1..], ns[1..]);
    }
  }

  /** The version is the words; of an interface record nothing is kept. */
  lemma OtherHeadRecords(
    f: Numbers, a: Accumulator, line: string, gaps: seq<string>, words: seq<string>, trail: string)
    ensures IsRecord(line, "v", gaps, words, trail) ==>
      ReadLine(f, a, line) == Ok(a.(head := a.head.(version := words)))
    ensures IsRecord(line, "I", gaps, words, trail) ==> ReadLine(f, a, line) == Ok(a)
  {
    if IsRecord(line, "v", gaps, words, trail) { SpacedLine(f, a, line, "v", gaps, words, trail); }
    if IsRecord(line, "I", gaps, words, trail) { SpacedLine(f, a, line, "I", gaps, words, trail); }
  }

  /** `c id x flag` or `c id x y flag`. */
  lemma CoordinateRecord(
    f: Numbers, a: Accumulator, line: string, gaps: seq<string>, words: seq<string>, trail: string,
    id: int, x: real, y: real)
    requires IsRecord(line, "c", gaps, words, trail)
    requires |words| > 0 ==> f.ToInt(words[0]) == Some(id)
    requires |words| > 1 ==> f.ToReal(words[1]) == Some(x)
    requires |words| > 2 ==> f.ToReal(words[2]) == Some(y)
    ensures ReadLine(f, a, line) ==
      if |words| == 3 then Ok(a.(body := a.body.(coordinates := a.body.coordinates + [Coordinate(id, x, 0.0)])))
      else if |words| == 4 then Ok(a.(body := a.body.(coordinates := a.body.coordinates + [Coordinate(id, x, y)])))
      else Error
  {
    SpacedLine(f, a, line, "c", gaps, words, trail);
  }

  /** `r id material ...` */
  lemma RegionRecord(
    f: Numbers, a: Accumulator, line: string, gaps: seq<string>, words: seq<string>, trail: string, ns: seq<int>)
    requires IsRecord(line, "r", gaps, words, trail) && AreInts(f, words, ns)
    ensures ReadLine(f, a, line) ==
      if |ns| < 2 then Error
      else Ok(a.(body := a.body.(regions := a.body.regions + [Region(ns[0], ns[1])])))
  {
    SpacedLine(f, a, line, "r", gaps, words, trail);
  }

  /** The numbers of a t record: corners counted from one, then neighbours, where
      a positive one is an element counted from one and the others are codes. */
  predicate ElementSays(e: Element, ns: seq<int>, nvrt: nat, nedg: nat)
    requires |ns| == 2 + nvrt + nedg + 2
  {
    && e.id == ns[0] && e.regionId == ns[1] && |e.vertices| == nvrt && |e.neighbors| == nedg
    && (forall i :: 0 <= i < nvrt ==> e.vertices[i] == ns[2 + i] - 1)
    && (forall i :: 0 <= i < nedg ==>
          var n := ns[2 + nvrt + i]; e.neighbors[i] == if n > 0 then n - 1 else n)
    && e.extra == [ns[2 + nvrt + nedg], ns[2 + nvrt + nedg + 1]]
  }

  /** `t id region corners neighbours and two more`, as the D record counts them. */
  lemma ElementRecord(
    f: Numbers, a: Accumulator, line: string, gaps: seq<string>, words: seq<string>, trail: string, ns: seq<int>,
    nvrt: nat, nedg: nat)
    returns (e: Element)
    requires IsRecord(line, "t", gaps, words, trail) && AreInts(f, words, ns)
    requires nvrt == a.head.verticesPerElement && nedg == a.head.neighborsPerElement
    ensures |ns| != 2 + nvrt + nedg + 2 ==> ReadLine(f, a, line) == Error
    ensures |ns| == 2 + nvrt + nedg + 2 ==>
      && ElementSays(e, ns, nvrt, nedg)
      && ReadLine(f, a, line) == Ok(a.(body := a.body.(elements := a.body.elements + [e])))
  {
    SpacedLine(f, a, line, "t", gaps, words, trail);
    IntsAre(f, words, ns);
    e := Element(0, 0, [], [], []);
    if |ns| == 2 + nvrt + nedg + 2 {
      e := Dealt(ns, nvrt, nedg);
    }
  }

  /** `n point material values`, one value for every species declared. */
  lemma NodeRecord(
    f: Numbers, a: Accumulator, line: string, gaps: seq<string>, words: seq<string>, trail: string,
    point: int, material: int, xs: seq<real>)
    requires IsRecord(line, "n", gaps, words, trail) && |words| >= 2
    requires f.ToInt(words[0]) == Some(point) && f.ToInt(words[1]) == Some(material) && AreReals(f, words[2..], xs)
    ensures ReadLine(f, a, line) ==
      if a.head.table.None? || |a.head.table.value| != |xs| then Error
      else Ok(a.(body := a.body.(solutions := a.body.solutions + [NodeSolution(point, material, xs)])))
  {
    SpacedLine(f, a, line, "n", gaps, words, trail);
    RealsAre(f, words[2..], xs);
  }

  /** The words of a written element: id and region, then the corners counted from
      one, then the neighbours, elements counted from one and codes as they are, then
      the rest. */
  predicate Spells(f: Numbers, words: seq<string>, e: Element) {
    var a, b := 2 + |e.vertices|, 2 + |e.vertices| + |e.neighbors|;
    && |words| == b + |e.extra| && words[0] == f.I(e.id) && words[1] == f.I(e.regionId)
    && (forall i :: 0 <= i < |e.vertices| ==> words[2 + i] == f.I(e.vertices[i] + 1))
    && (forall i :: 0 <= i < |e.neighbors| ==>
          words[a + i] == f.I(if e.neighbors[i] < 0 then e.neighbors[i] else e.neighbors[i] + 1))
    && (forall i :: 0 <= i < |e.extra| ==> words[b + i] == f.I(e.extra[i]))
  }

  lemma ElementIsWritten(f: Numbers, e: Element) returns (words: seq<string>)
    ensures Spells(f, words, e) && ElementLine(f, e) == "t " + Joined(" ", words) + " "
  {
    words := ElementWords(f, e);
  }

  /** A coordinate is written with as many axes as there are dimensions. */
  lemma CoordinateIsWritten(f: Numbers, c: Coordinate)
    ensures CoordinateLine(f, c, 1) == "c " + f.I(c.id) + " " + f.G(c.x) + "  0"
    ensures CoordinateLine(f, c, 2) == "c " + f.I(c.id) + " " + f.G(c.x) + " " + f.G(c.y) + "  0"
  {
    var x, y := f.G(c.x), f.G(c.y);
    assert Prefixed(Each([c.x], f.G)) == [" " + x];
    assert Prefixed(Each([c.x, c.y], f.G)) == [" " + x, " " + y];
    ConcatShort(" " + x, " " + y);
    Spaces("c " + f.I(c.id), x, y);
  }

  lemma ConcatShort(x: string, y: string)
    ensures Concat([x]) == x && Concat([x, y]) == x + y
  {
    assert [x][1..] == [] && [x, y][1..] == [y] && [y][1..] == [];
    assert Concat([y]) == y;
  }

  lemma Spaces(head: string, x: string, y: string)
    ensures head + (" " + x) + "  0" == head + " " + x + "  0"
    ensures head + ((" " + x) + (" " + y)) + "  0" == head + " " + x + " " + y + "  0"
  {
  }
}
