/** str_parser/parser.py and str_parser/writer.py: reading back what was written. */
module StrFile {
  import opened Options
  import opened Folding
  import opened StrModel
  import opened StrText

  // ------------------------------------------------------------------- numbers

  /** How numbers are printed (str, `%g`, `%e`) and read (int, float). */
  datatype Numbers = Numbers(
    I: int -> string,
    G: real -> string,
    E: real -> string,
    ToInt: string -> Option<int>,
    ToReal: string -> Option<real>)

  predicate IntSurvives(f: Numbers, n: int) {
    Solid(f.I(n)) && f.ToInt(f.I(n)) == Some(n)
  }

  predicate GSurvives(f: Numbers, x: real) {
    Solid(f.G(x)) && f.ToReal(f.G(x)) == Some(x)
  }

  predicate ESurvives(f: Numbers, x: real) {
    Solid(f.E(x)) && f.ToReal(f.E(x)) == Some(x)
  }

  // ---------------------------------------------------------------- the reader

  /** What the records v, D, M and s say. */
  datatype Head = Head(
    version: seq<string>,
    dimension: int,
    verticesPerElement: int,
    neighborsPerElement: int,
    temperature: Option<real>,
    table: Option<seq<int>>)

  /** What the records c, r, t and n say. */
  datatype Body = Body(
    coordinates: seq<Coordinate>,
    regions: seq<Region>,
    elements: seq<Element>,
    solutions: seq<NodeSolution>)

  datatype Accumulator = Accumulator(head: Head, body: Body)

  const NO_HEAD: Head := Head([], 1, 2, 2, None, None)
  const NO_BODY: Body := Body([], [], [], [])

  function Ints(f: Numbers, fields: seq<string>): Option<seq<int>> {
    if fields == [] then Some([])
    else
      var first, rest := f.ToInt(fields[0]), Ints(f, fields[1..]);
      if first.Some? && rest.Some? then Some([first.value] + rest.value) else None
  }

  function Reals(f: Numbers, fields: seq<string>): Option<seq<real>> {
    if fields == [] then Some([])
    else
      var first, rest := f.ToReal(fields[0]), Reals(f, fields[1..]);
      if first.Some? && rest.Some? then Some([first.value] + rest.value) else None
  }

  function ReadDimension(f: Numbers, h: Head, fields: seq<string>): Result<Head> {
    if |fields| < 3 then Error
    else
      var a, b, c := f.ToInt(fields[0]), f.ToInt(fields[1]), f.ToInt(fields[2]);
      if a.Some? && b.Some? && c.Some? then
        Ok(h.(dimension := a.value, verticesPerElement := b.value, neighborsPerElement := c.value))
      else Error
  }

  function ReadTemperature(f: Numbers, h: Head, fields: seq<string>): Result<Head> {
    if |fields| < 2 || f.ToReal(fields[1]).None? then Error else Ok(h.(temperature := f.ToReal(fields[1])))
  }

  function ReadSpecies(f: Numbers, h: Head, fields: seq<string>): Result<Head> {
    if fields == [] then Error
    else
      var declared, codes := f.ToInt(fields[0]), Ints(f, fields[1..]);
      if declared.Some? && codes.Some? && declared.value == |codes.value| then Ok(h.(table := codes)) else Error
  }

  predicate IsHeadTag(tag: string) {
    tag == "v" || tag == "D" || tag == "M" || tag == "s" || tag == "I"
  }

  function ReadHead(f: Numbers, h: Head, tag: string, fields: seq<string>): Result<Head>
    requires IsHeadTag(tag)
  {
    if tag == "v" then Ok(h.(version := fields))
    else if tag == "D" then ReadDimension(f, h, fields)
    else if tag == "M" then ReadTemperature(f, h, fields)
    else if tag == "s" then ReadSpecies(f, h, fields)
    else Ok(h)
  }

  function ReadCoordinate(f: Numbers, fields: seq<string>): Result<Coordinate> {
    if |fields| == 4 && f.ToInt(fields[0]).Some? && f.ToReal(fields[1]).Some? && f.ToReal(fields[2]).Some? then
      Ok(Coordinate(f.ToInt(fields[0]).value, f.ToReal(fields[1]).value, f.ToReal(fields[2]).value))
    else if |fields| == 3 && f.ToInt(fields[0]).Some? && f.ToReal(fields[1]).Some? then
      Ok(Coordinate(f.ToInt(fields[0]).value, f.ToReal(fields[1]).value, 0.0))
    else Error
  }

  function ReadRegion(f: Numbers, fields: seq<string>): Result<Region> {
    if |fields| >= 2 && f.ToInt(fields[0]).Some? && f.ToInt(fields[1]).Some? then
      Ok(Region(f.ToInt(fields[0]).value, f.ToInt(fields[1]).value))
    else Error
  }

  function Vertex(v: int): int {
    v - 1
  }

  function Neighbor(n: int): int {
    if n > 0 then n - 1 else n
  }

  function Each<T, U>(s: seq<T>, g: T -> U): (r: seq<U>)
    ensures |r| == |s| && forall i :: 0 <= i < |s| ==> r[i] == g(s[i])
  {
    seq(|s|, i requires 0 <= i < |s| => g(s[i]))
  }

  /** The numbers of an element, dealt out by the counts of the D record. */
  function Dealt(v: seq<int>, nvrt: nat, nedg: nat): Element
    requires |v| >= 2 + nvrt + nedg
  {
    var edges, rest := 2 + nvrt, 2 + nvrt + nedg;
    Element(v[0], v[1], Each(v[2..edges], Vertex), Each(v[edges..rest], Neighbor), v[rest..])
  }

  /** With counts from the D record; they are not negative in any file. */
  function ReadElement(f: Numbers, h: Head, fields: seq<string>): Result<Element> {
    var nvrt, nedg := h.verticesPerElement, h.neighborsPerElement;
    if nvrt < 0 || nedg < 0 || |fields| != 2 + nvrt + nedg + 2 then Error
    else
      IntsLength(f, fields);
      var values := Ints(f, fields);
      if values.None? then Error else Ok(Dealt(values.value, nvrt, nedg))
  }

  lemma {:induction false} IntsLength(f: Numbers, fields: seq<string>)
    ensures Ints(f, fields).Some? ==> |Ints(f, fields).value| == |fields|
  {
    if fields != [] {
      IntsLength(f, fields[1..]);
    }
  }

  function ReadNode(f: Numbers, h: Head, fields: seq<string>): Result<NodeSolution> {
    if h.table.None? || |fields| < 2 then Error
    else
      var values, point, material := Reals(f, fields[2..]), f.ToInt(fields[0]), f.ToInt(fields[1]);
      if values.Some? && |values.value| == |h.table.value| && point.Some? && material.Some? then
        Ok(NodeSolution(point.value, material.value, values.value))
      else Error
  }

  /** _consume_line() on a line that is split already; unknown tags are passed over. */
  function Consume(f: Numbers, a: Accumulator, tag: string, fields: seq<string>): Result<Accumulator> {
    var b := a.body;
    if IsHeadTag(tag) then
      var h := ReadHead(f, a.head, tag, fields);
      if h.Error? then Error else Ok(a.(head := h.value))
    else if tag == "c" then
      var c := ReadCoordinate(f, fields);
      if c.Error? then Error else Ok(a.(body := b.(coordinates := b.coordinates + [c.value])))
    else if tag == "r" then
      var r := ReadRegion(f, fields);
      if r.Error? then Error else Ok(a.(body := b.(regions := b.regions + [r.value])))
    else if tag == "t" then
      var e := ReadElement(f, a.head, fields);
      if e.Error? then Error else Ok(a.(body := b.(elements := b.elements + [e.value])))
    else if tag == "n" then
      var n := ReadNode(f, a.head, fields);
      if n.Error? then Error else Ok(a.(body := b.(solutions := b.solutions + [n.value])))
    else Ok(a)
  }

  /** One line of the file: strip, skip if empty, take off the tag, split. */
  function ReadLine(f: Numbers, a: Accumulator, raw: string): Result<Accumulator> {
    var line := Strip(raw);
    if line == "" then Ok(a) else Consume(f, a, Tag(line), Split(Rest(line)))
  }

  function Reading(f: Numbers): (Accumulator, string) -> Result<Accumulator> {
    (a, raw) => ReadLine(f, a, raw)
  }

  function ReadLines(f: Numbers, a: Accumulator, lines: seq<string>): Result<Accumulator> {
    Fold(Reading(f), a, lines)
  }

  /** parse_structure(), on the lines of the text; without an s record it fails. */
  function Parse(f: Numbers, lines: seq<string>): Result<Accumulator> {
    var r := ReadLines(f, Accumulator(NO_HEAD, NO_BODY), lines);
    if r.Error? || r.value.head.table.None? then Error else r
  }

  /** The mutable accumulator of the parser, and the loop that fills it. */
  class Reader {
    var state: Accumulator

    constructor ()
      ensures state == Accumulator(NO_HEAD, NO_BODY)
      ensures state == Accumulator(Head([], 1, 2, 2, None, None), Body([], [], [], []))
    {
      state := Accumulator(NO_HEAD, NO_BODY);
    }

    /** One turn of the loop; false where the code raises. */
    method TakeLine(f: Numbers, raw: string) returns (ok: bool)
      modifies this
      ensures ok == ReadLine(f, old(state), raw).Ok?
      ensures state == if ok then ReadLine(f, old(state), raw).value else old(state)
    {
      var line := Strip(raw);
      if line == "" { return true; }
      var next := Consume(f, state, Tag(line), Split(Rest(line)));
      if next.Error? { return false; }
      state := next.value;
      ok := true;
    }
  }

  method ParseStructure(f: Numbers, lines: seq<string>) returns (r: Result<Accumulator>)
    ensures r == Parse(f, lines)
  {
    var reader := new Reader();
    for i := 0 to |lines|
      invariant ReadLines(f, Accumulator(NO_HEAD, NO_BODY), lines) == ReadLines(f, reader.state, lines[i..])
    {
      assert lines[i..][1..] == lines[i + 1..];
      var ok := reader.TakeLine(f, lines[i]);
      if !ok { return Error; }
    }
    if reader.state.head.table.None? { return Error; }
    r := Ok(reader.state);
  }

  // ---------------------------------------------------------------- the writer

  function Concat(parts: seq<string>): string {
    if parts == [] then "" else parts[0] + Concat(parts[1..])
  }

  function Joined(sep: string, words: seq<string>): string {
    if words == [] then "" else if |words| == 1 then words[0] else words[0] + sep + Joined(sep, words[1..])
  }

  function Prefixed(words: seq<string>): (r: seq<string>)
    ensures |r| == |words|
  {
    seq(|words|, i requires 0 <= i < |words| => " " + words[i])
  }

  /** `(c.x, c.y)[:dimension]` for one and two dimensions. */
  function Axes(c: Coordinate, dimension: int): seq<real> {
    if dimension == 1 then [c.x] else [c.x, c.y]
  }

  function CoordinateLine(f: Numbers, c: Coordinate, dimension: int): string {
    "c " + f.I(c.id) + Concat(Prefixed(Each(Axes(c, dimension), f.G))) + "  0"
  }

  function RegionLine(f: Numbers, r: Region): string {
    "r " + f.I(r.id) + "   " + f.I(r.materialId)
  }

  function Code(n: int): int {
    if n >= 0 then n + 1 else n
  }

  function ElementWords(f: Numbers, e: Element): seq<string> {
    [f.I(e.id), f.I(e.regionId)] + Each(Each(e.vertices, v => v + 1), f.I) + Each(Each(e.neighbors, Code), f.I)
        + Each(e.extra, f.I)
  }

  function ElementLine(f: Numbers, e: Element): string {
    "t " + Joined(" ", ElementWords(f, e)) + " "
  }

  function NodeLine(f: Numbers, n: NodeSolution): string {
    var head := "n " + f.I(n.coordinateIndex) + "   " + f.I(n.materialId) + "  ";
    head + Concat(Prefixed(Each(n.values, f.E)))
  }

  function CoordinateLines(f: Numbers, cs: seq<Coordinate>, dimension: int): seq<string> {
    Mapped(c => CoordinateLine(f, c, dimension), cs)
  }

  function RegionLines(f: Numbers, rs: seq<Region>): seq<string> {
    Mapped(r => RegionLine(f, r), rs)
  }

  function ElementLines(f: Numbers, es: seq<Element>): seq<string> {
    Mapped(e => ElementLine(f, e), es)
  }

  function NodeLines(f: Numbers, ns: seq<NodeSolution>): seq<string> {
    Mapped(n => NodeLine(f, n), ns)
  }

  /** `line.split(" ", 1)[0]` of a raw line. */
  function RawTag(line: string): string {
    line[..BlankAt(line)]
  }

  function Copied(tag: string): string -> bool {
    raw => RawTag(raw) == tag
  }

  /** _kept_lines(), for one tag. */
  function KeptLines(source: seq<string>, tag: string): seq<string> {
    Filter(Copied(tag), source)
  }

  /** write_structure(), as the list of its lines: copied records, and those made
      from the structure, in the order v D c r t M s n I. */
  function Written(f: Numbers, s: Structure, source: seq<string>): seq<string> {
    KeptLines(source, "v") + KeptLines(source, "D")
    + CoordinateLines(f, s.coordinates, s.dimension) + RegionLines(f, s.regions)
    + ElementLines(f, s.elements)
    + KeptLines(source, "M") + KeptLines(source, "s") + NodeLines(f, s.solutions) + KeptLines(source, "I")
  }

  /** The copied records alone. */
  function HeadLines(source: seq<string>): seq<string> {
    KeptLines(source, "v") + KeptLines(source, "D") + KeptLines(source, "M") + KeptLines(source, "s")
        + KeptLines(source, "I")
  }

  type Kept = map<string, seq<string>>

  function KeptAt(kept: Kept, tag: string): seq<string> {
    if tag in kept then kept[tag] else []
  }

  /** Records made from the structure. */
  predicate Owned(tag: string) {
    tag == "c" || tag == "r" || tag == "t" || tag == "n"
  }

  lemma KeptAppend(xs: seq<string>, ys: seq<string>, tag: string)
    ensures KeptLines(xs + ys, tag) == KeptLines(xs, tag) + KeptLines(ys, tag)
  {
    FilterAppend(Copied(tag), xs, ys);
  }

  lemma KeptOne(line: string, tag: string)
    ensures KeptLines([line], tag) == if RawTag(line) == tag then [line] else []
  {
    FilterOne(Copied(tag), line);
  }

  /** Copied lines are in the table under their tag. */
  ghost predicate KeptTable(kept: Kept, source: seq<string>) {
    forall tag :: KeptAt(kept, tag) == if tag != "" && !Owned(tag) then KeptLines(source, tag) else []
  }

  function AddLine(kept: Kept, line: string): Kept {
    var tag := RawTag(line);
    if tag != "" && !Owned(tag) then kept[tag := KeptAt(kept, tag) + [line]] else kept
  }

  lemma KeptTableMore(kept: Kept, source: seq<string>, line: string)
    requires KeptTable(kept, source)
    ensures KeptTable(AddLine(kept, line), source + [line])
  {
    var kept', source' := AddLine(kept, line), source + [line];
    forall tag ensures KeptAt(kept', tag) == if tag != "" && !Owned(tag) then KeptLines(source', tag) else [] {
      KeptAppend(source, [line], tag);
      KeptOne(line, tag);
      assert KeptAt(kept, tag) == if tag != "" && !Owned(tag) then KeptLines(source, tag) else [];
    }
  }

  /** _kept_lines() */
  method Keep(source: seq<string>) returns (kept: Kept)
    ensures KeptTable(kept, source)
  {
    kept := map[];
    for i := 0 to |source|
      invariant KeptTable(kept, source[..i])
    {
      KeptTableMore(kept, source[..i], source[i]);
      assert source[..i] + [source[i]] == source[..i + 1];
      var tag := RawTag(source[i]);
      if tag != "" && !Owned(tag) {
        kept := kept[tag := KeptAt(kept, tag) + [source[i]]];
      }
    }
    assert source[..|source|] == source;
  }

  lemma KeptUnder(kept: Kept, source: seq<string>, tag: string)
    requires KeptTable(kept, source) && tag != "" && !Owned(tag)
    ensures KeptAt(kept, tag) == KeptLines(source, tag)
  {
  }

  /** write_structure(); the loop over the nine tags is written out. */
  method WriteStructure(f: Numbers, s: Structure, source: seq<string>) returns (out: seq<string>)
    ensures out == Written(f, s, source)
  {
    var kept := Keep(source);
    KeptUnder(kept, source, "v");
    KeptUnder(kept, source, "D");
    KeptUnder(kept, source, "M");
    KeptUnder(kept, source, "s");
    KeptUnder(kept, source, "I");
    out := KeptAt(kept, "v") + KeptAt(kept, "D");
    out := out + CoordinateLines(f, s.coordinates, s.dimension);
    out := out + RegionLines(f, s.regions);
    out := out + ElementLines(f, s.elements);
    out := out + KeptAt(kept, "M") + KeptAt(kept, "s");
    out := out + NodeLines(f, s.solutions);
    out := out + KeptAt(kept, "I");
  }

  // ---------------------------------------------------- each written line read

  function Ones(n: nat): (g: seq<string>)
    ensures |g| == n && forall i :: 0 <= i < n ==> g[i] == " "
  {
    seq(n, _ => " ")
  }

  lemma {:induction false} ConcatGlue(words: seq<string>)
    ensures Concat(Prefixed(words)) == Glue(Ones(|words|), words)
  {
    if words != [] {
      ConcatGlue(words[1..]);
      assert Prefixed(words)[1..] == Prefixed(words[1..]);
      assert Ones(|words|)[1..] == Ones(|words| - 1);
    }
  }

  lemma {:induction false} JoinedGlue(words: seq<string>)
    requires words != []
    ensures " " + Joined(" ", words) == Glue(Ones(|words|), words)
  {
    assert Ones(|words|)[1..] == Ones(|words| - 1);
    if |words| == 1 {
      assert words[1..] == [];
      assert " " + words[0] + "" == " " + words[0];
    } else {
      JoinedGlue(words[1..]);
      assert " " + (words[0] + " " + Joined(" ", words[1..])) == " " + words[0] + (" " + Joined(" ", words[1..]));
    }
  }

  lemma GlueCons(g: string, gaps: seq<string>, w: string, words: seq<string>)
    requires |gaps| == |words|
    ensures Glue([g] + gaps, [w] + words) == g + w + Glue(gaps, words)
  {
    assert ([g] + gaps)[1..] == gaps && ([w] + words)[1..] == words;
  }

  lemma {:induction false} GlueSnoc(gaps: seq<string>, words: seq<string>, g: string, w: string)
    requires |gaps| == |words|
    ensures Glue(gaps + [g], words + [w]) == Glue(gaps, words) + g + w
  {
    if words == [] {
      assert ([] + [g])[1..] == [] && ([] + [w])[1..] == [];
    } else {
      GlueSnoc(gaps[1..], words[1..], g, w);
      assert (gaps + [g])[1..] == gaps[1..] + [g] && (words + [w])[1..] == words[1..] + [w];
      assert gaps[0] + words[0] + (Glue(gaps[1..], words[1..]) + g + w)
          == gaps[0] + words[0] + Glue(gaps[1..], words[1..]) + g + w;
    }
  }

  /** Reading a line made of a tag, spaced words and blanks. */
  lemma SpacedLine(
    f: Numbers, a: Accumulator, line: string, tag: string, gaps: seq<string>, words: seq<string>, trail: string)
    requires Solid(tag) && Spaced(gaps, words) && Blanks(trail) && line == tag + Glue(gaps, words) + trail
    ensures ReadLine(f, a, line) == Consume(f, a, tag, words)
  {
    LineRead(tag, gaps, words, trail);
  }

  predicate CoordinatePrints(f: Numbers, c: Coordinate) {
    IntSurvives(f, c.id) && GSurvives(f, c.x) && GSurvives(f, c.y) && Solid("0")
  }

  /** The coordinate that comes back: in one dimension y is not written. */
  function CoordinateBack(c: Coordinate, dimension: int): Coordinate {
    if dimension == 1 then c.(y := 0.0) else c
  }

  lemma CoordinateText(f: Numbers, c: Coordinate, dimension: int)
    ensures var axes := Each(Axes(c, dimension), f.G);
      CoordinateLine(f, c, dimension) == "c" + Glue([" "] + Ones(|axes|) + ["  "], [f.I(c.id)] + axes + ["0"]) + ""
  {
    var axes := Each(Axes(c, dimension), f.G);
    var id := f.I(c.id);
    ConcatGlue(axes);
    GlueCons(" ", Ones(|axes|), id, axes);
    GlueSnoc([" "] + Ones(|axes|), [id] + axes, "  ", "0");
    var glued := Glue(Ones(|axes|), axes);
    assert "c " + id + glued + "  0" == "c" + (" " + id + glued + "  " + "0") + "";
  }

  lemma CoordinateWords(f: Numbers, c: Coordinate, dimension: int)
    requires CoordinatePrints(f, c) && 1 <= dimension <= 2
    ensures var axes := Each(Axes(c, dimension), f.G);
      && Spaced([" "] + Ones(|axes|) + ["  "], [f.I(c.id)] + axes + ["0"])
      && [f.I(c.id)] + axes + ["0"]
          == (if dimension == 1 then [f.I(c.id), f.G(c.x), "0"] else [f.I(c.id), f.G(c.x), f.G(c.y), "0"])
  {
  }

  lemma ReadsCoordinate(f: Numbers, a: Accumulator, c: Coordinate, dimension: int)
    requires CoordinatePrints(f, c) && 1 <= dimension <= 2
    ensures ReadLine(f, a, CoordinateLine(f, c, dimension))
         == Ok(a.(body := a.body.(coordinates := a.body.coordinates + [CoordinateBack(c, dimension)])))
  {
    var axes := Each(Axes(c, dimension), f.G);
    var words, gaps := [f.I(c.id)] + axes + ["0"], [" "] + Ones(|axes|) + ["  "];
    CoordinateText(f, c, dimension);
    CoordinateWords(f, c, dimension);
    SpacedLine(f, a, CoordinateLine(f, c, dimension), "c", gaps, words, "");
  }

  lemma TwoWords(g: string, p: string, h: string, m: string)
    ensures Glue([g, h], [p, m]) == g + p + h + m
  {
    GlueSnoc([g], [p], h, m);
    assert [g] + [h] == [g, h] && [p] + [m] == [p, m];
    GlueSnoc([], [], g, p);
    assert [] + [g] == [g] && [] + [p] == [p];
    assert "" + g + p == g + p;
  }

  lemma ReadsRegion(f: Numbers, a: Accumulator, r: Region)
    requires IntSurvives(f, r.id) && IntSurvives(f, r.materialId)
    ensures ReadLine(f, a, RegionLine(f, r)) == Ok(a.(body := a.body.(regions := a.body.regions + [r])))
  {
    var p, m := f.I(r.id), f.I(r.materialId);
    var words, gaps := [p, m], [" ", "   "];
    TwoWords(" ", p, "   ", m);
    assert RegionLine(f, r) == "r" + (" " + p + "   " + m) + "";
    SpacedLine(f, a, RegionLine(f, r), "r", gaps, words, "");
  }

  predicate ElementPrints(f: Numbers, e: Element) {
    && IntSurvives(f, e.id) && IntSurvives(f, e.regionId)
    && (forall v <- e.vertices :: IntSurvives(f, v + 1)) && (forall n <- e.neighbors :: IntSurvives(f, Code(n)))
    && forall x <- e.extra :: IntSurvives(f, x)
  }

  /** The numbers in an element line. */
  function ElementCodes(e: Element): seq<int> {
    [e.id, e.regionId] + Each(e.vertices, v => v + 1) + Each(e.neighbors, Code) + e.extra
  }

  lemma {:induction false} IntsBack(f: Numbers, ns: seq<int>)
    requires forall n <- ns :: IntSurvives(f, n)
    ensures Ints(f, Each(ns, f.I)) == Some(ns)
  {
    if ns != [] {
      assert Each(ns, f.I)[1..] == Each(ns[1..], f.I);
      assert ns[0] in ns && IntSurvives(f, ns[0]);
      assert Each(ns, f.I)[0] == f.I(ns[0]);
      assert f.ToInt(Each(ns, f.I)[0]) == Some(ns[0]);
      IntsBack(f, ns[1..]);
      assert [ns[0]] + ns[1..] == ns;
    }
  }

  /** The element that comes back: the codes are dealt out by the counts of the D record. */
  function ElementBack(h: Head, e: Element): Result<Element> {
    var nvrt, nedg, v := h.verticesPerElement, h.neighborsPerElement, ElementCodes(e);
    if nvrt < 0 || nedg < 0 || |v| != 2 + nvrt + nedg + 2 then Error
    else Ok(Dealt(v, nvrt, nedg))
  }

  lemma CodesPrint(f: Numbers, e: Element)
    requires ElementPrints(f, e)
    ensures forall n <- ElementCodes(e) :: IntSurvives(f, n)
    ensures ElementWords(f, e) == Each(ElementCodes(e), f.I)
  {
    forall n <- ElementCodes(e) ensures IntSurvives(f, n) {
      var i :| 0 <= i < |ElementCodes(e)| && ElementCodes(e)[i] == n;
      var a, b := 2 + |e.vertices|, 2 + |e.vertices| + |e.neighbors|;
      if 2 <= i < a {
        assert e.vertices[i - 2] in e.vertices;
      } else if a <= i < b {
        assert e.neighbors[i - a] in e.neighbors;
      } else if b <= i {
        assert e.extra[i - b] in e.extra;
      }
    }
  }

  lemma ReadsElement(f: Numbers, a: Accumulator, e: Element)
    requires ElementPrints(f, e)
    ensures ReadLine(f, a, ElementLine(f, e)) == match ElementBack(a.head, e)
      case Ok(b) => Ok(a.(body := a.body.(elements := a.body.elements + [b])))
      case Error => Error
  {
    CodesPrint(f, e);
    var words := ElementWords(f, e);
    IntsBack(f, ElementCodes(e));
    JoinedGlue(words);
    assert ElementLine(f, e) == "t" + Glue(Ones(|words|), words) + " " by {
      assert "t " + Joined(" ", words) + " " == "t" + (" " + Joined(" ", words)) + " ";
    }
    forall i | 0 <= i < |words| ensures Solid(words[i]) {
      assert ElementCodes(e)[i] in ElementCodes(e);
      assert IntSurvives(f, ElementCodes(e)[i]);
      assert words[i] == f.I(ElementCodes(e)[i]);
    }
    SpacedLine(f, a, ElementLine(f, e), "t", Ones(|words|), words, " ");
  }

  /** An element comes back as it was exactly if it has the counts of the D record. */
  predicate ElementFits(h: Head, e: Element) {
    |e.vertices| == h.verticesPerElement && |e.neighbors| == h.neighborsPerElement && |e.extra| == 2
  }

  lemma ElementComesBack(h: Head, e: Element)
    ensures ElementBack(h, e) == Ok(e) <==> ElementFits(h, e)
  {
    var v := ElementCodes(e);
    if ElementFits(h, e) {
      var a, b := 2 + |e.vertices|, 2 + |e.vertices| + |e.neighbors|;
      assert Each(v[2..a], Vertex) == e.vertices;
      assert Each(v[a..b], Neighbor) == e.neighbors;
      assert v[b..] == e.extra;
    }
  }

  predicate NodePrints(f: Numbers, n: NodeSolution) {
    IntSurvives(f, n.coordinateIndex) && IntSurvives(f, n.materialId) && forall v <- n.values :: ESurvives(f, v)
  }

  lemma {:induction false} RealsBack(f: Numbers, xs: seq<real>)
    requires forall x <- xs :: ESurvives(f, x)
    ensures Reals(f, Each(xs, f.E)) == Some(xs)
  {
    if xs != [] {
      assert Each(xs, f.E)[1..] == Each(xs[1..], f.E);
      assert xs[0] in xs && ESurvives(f, xs[0]);
      assert Each(xs, f.E)[0] == f.E(xs[0]);
      assert f.ToReal(Each(xs, f.E)[0]) == Some(xs[0]);
      RealsBack(f, xs[1..]);
      assert [xs[0]] + xs[1..] == xs;
    }
  }

  predicate NodeFits(h: Head, n: NodeSolution) {
    h.table.Some? && |n.values| == |h.table.value|
  }

  function NodeHead(f: Numbers, n: NodeSolution): string {
    "n " + f.I(n.coordinateIndex) + "   " + f.I(n.materialId) + "  "
  }

  lemma ThreeWords(
    g: string, p: string, h: string, m: string, k: string, first: string, gaps: seq<string>, more: seq<string>)
    requires |gaps| == |more|
    ensures Glue([g, h, k] + gaps, [p, m, first] + more) == g + p + (h + m + (k + first + Glue(gaps, more)))
  {
    GlueCons(k, gaps, first, more);
    GlueCons(h, [k] + gaps, m, [first] + more);
    GlueCons(g, [h] + ([k] + gaps), p, [m] + ([first] + more));
    assert [g, h, k] + gaps == [g] + ([h] + ([k] + gaps));
    assert [p, m, first] + more == [p] + ([m] + ([first] + more));
  }

  lemma ConcatFirst(vs: seq<string>)
    requires vs != []
    ensures Concat(Prefixed(vs)) == " " + vs[0] + Glue(Ones(|vs| - 1), vs[1..])
  {
    ConcatGlue(vs);
    assert Ones(|vs|)[1..] == Ones(|vs| - 1);
  }

  lemma NodeWithValues(f: Numbers, n: NodeSolution, first: string, more: seq<string>, tail: string)
    requires tail == " " + first + Glue(Ones(|more|), more)
    ensures NodeHead(f, n) + tail
         == "n" + Glue([" ", "   ", "   "] + Ones(|more|), [f.I(n.coordinateIndex), f.I(n.materialId), first] + more)
             + ""
  {
    var p, m, rest := f.I(n.coordinateIndex), f.I(n.materialId), Glue(Ones(|more|), more);
    var glued := Glue([" ", "   ", "   "] + Ones(|more|), [p, m, first] + more);
    assert glued == " " + p + ("   " + m + ("   " + first + rest)) by {
      ThreeWords(" ", p, "   ", m, "   ", first, Ones(|more|), more);
    }
    assert NodeHead(f, n) + tail == "n" + glued + "" by {
      NodeText(p, m, first, rest);
    }
  }

  lemma NodeText(p: string, m: string, first: string, rest: string)
    ensures "n " + p + "   " + m + "  " + (" " + first + rest)
        == "n" + (" " + p + ("   " + m + ("   " + first + rest))) + ""
  {
    var l, r := "n " + p + "   " + m + "  " + (" " + first + rest), "n"
        + (" " + p + ("   " + m + ("   " + first + rest))) + "";
    assert "  " + (" " + first + rest) == "   " + first + rest;
    assert l == "n " + p + "   " + m + ("  " + (" " + first + rest));
    assert r == "n" + " " + p + "   " + m + ("   " + first + rest);
  }

  lemma NodeWithoutValues(f: Numbers, n: NodeSolution)
    ensures NodeHead(f, n) + "" == "n" + Glue([" ", "   "], [f.I(n.coordinateIndex), f.I(n.materialId)]) + "  "
  {
    TwoWords(" ", f.I(n.coordinateIndex), "   ", f.I(n.materialId));
  }

  lemma NodeWords(f: Numbers, n: NodeSolution) returns (gaps: seq<string>, words: seq<string>, trail: string)
    requires NodePrints(f, n)
    ensures Spaced(gaps, words) && Blanks(trail) && NodeLine(f, n) == "n" + Glue(gaps, words) + trail
    ensures words == [f.I(n.coordinateIndex), f.I(n.materialId)] + Each(n.values, f.E)
  {
    var vs := Each(n.values, f.E);
    words := [f.I(n.coordinateIndex), f.I(n.materialId)] + vs;
    forall i | 0 <= i < |vs| ensures Solid(vs[i]) {
      assert n.values[i] in n.values;
      assert ESurvives(f, n.values[i]);
      assert vs[i] == f.E(n.values[i]);
    }
    if vs == [] {
      gaps, trail := [" ", "   "], "  ";
      NodeWithoutValues(f, n);
      assert words == [f.I(n.coordinateIndex), f.I(n.materialId)];
    } else {
      gaps, trail := [" ", "   ", "   "] + Ones(|vs| - 1), "";
      ConcatFirst(vs);
      NodeWithValues(f, n, vs[0], vs[1..], Concat(Prefixed(vs)));
      assert words == [f.I(n.coordinateIndex), f.I(n.materialId), vs[0]] + vs[1..];
    }
  }

  lemma ReadsNode(f: Numbers, a: Accumulator, n: NodeSolution)
    requires NodePrints(f, n)
    ensures ReadLine(f, a, NodeLine(f, n)) ==
      if NodeFits(a.head, n) then Ok(a.(body := a.body.(solutions := a.body.solutions + [n]))) else Error
  {
    var gaps, words, trail := NodeWords(f, n);
    SpacedLine(f, a, NodeLine(f, n), "n", gaps, words, trail);
    assert words[2..] == Each(n.values, f.E);
    RealsBack(f, n.values);
  }

  // -------------------------------------------------------------- whole sections

  function CoordinatesBack(cs: seq<Coordinate>, dimension: int): (r: seq<Coordinate>) {
    if cs == [] then [] else [CoordinateBack(cs[0], dimension)] + CoordinatesBack(cs[1..], dimension)
  }

  function AddCoordinates(a: Accumulator, cs: seq<Coordinate>): Accumulator {
    a.(body := a.body.(coordinates := a.body.coordinates + cs))
  }

  function TakeCoordinate(dimension: int): (Accumulator, Coordinate) -> Result<Accumulator> {
    (a, c) => Ok(AddCoordinates(a, [CoordinateBack(c, dimension)]))
  }

  lemma {:induction false} TakeCoordinates(a: Accumulator, cs: seq<Coordinate>, dimension: int)
    ensures Fold(TakeCoordinate(dimension), a, cs) == Ok(AddCoordinates(a, CoordinatesBack(cs, dimension)))
    decreases |cs|
  {
    var before := a.body.coordinates;
    if cs == [] {
      assert before + [] == before;
    } else {
      var first := CoordinateBack(cs[0], dimension);
      TakeCoordinates(AddCoordinates(a, [first]), cs[1..], dimension);
      assert before + [first] + CoordinatesBack(cs[1..], dimension) == before + CoordinatesBack(cs, dimension);
    }
  }

  lemma ReadsCoordinates(f: Numbers, a: Accumulator, cs: seq<Coordinate>, dimension: int)
    requires 1 <= dimension <= 2 && forall c <- cs :: CoordinatePrints(f, c)
    ensures ReadLines(f, a, CoordinateLines(f, cs, dimension)) == Ok(AddCoordinates(a, CoordinatesBack(cs, dimension)))
  {
    forall b: Accumulator, c | c in cs ensures Reading(f)(b, CoordinateLine(f, c, dimension))
        == TakeCoordinate(dimension)(b, c) {
      ReadsCoordinate(f, b, c, dimension);
    }
    FoldMapped(Reading(f), c => CoordinateLine(f, c, dimension), TakeCoordinate(dimension), a, cs);
    TakeCoordinates(a, cs, dimension);
  }

  function AddRegions(a: Accumulator, rs: seq<Region>): Accumulator {
    a.(body := a.body.(regions := a.body.regions + rs))
  }

  function TakeRegion(): (Accumulator, Region) -> Result<Accumulator> {
    (a, r) => Ok(AddRegions(a, [r]))
  }

  lemma {:induction false} TakeRegions(a: Accumulator, rs: seq<Region>)
    ensures Fold(TakeRegion(), a, rs) == Ok(AddRegions(a, rs))
    decreases |rs|
  {
    var before := a.body.regions;
    if rs == [] {
      assert before + [] == before;
    } else {
      TakeRegions(AddRegions(a, [rs[0]]), rs[1..]);
      assert before + [rs[0]] + rs[1..] == before + rs;
    }
  }

  lemma ReadsRegions(f: Numbers, a: Accumulator, rs: seq<Region>)
    requires forall r <- rs :: IntSurvives(f, r.id) && IntSurvives(f, r.materialId)
    ensures ReadLines(f, a, RegionLines(f, rs)) == Ok(AddRegions(a, rs))
  {
    forall b: Accumulator, r | r in rs ensures Reading(f)(b, RegionLine(f, r)) == TakeRegion()(b, r) {
      ReadsRegion(f, b, r);
    }
    FoldMapped(Reading(f), r => RegionLine(f, r), TakeRegion(), a, rs);
    TakeRegions(a, rs);
  }

  /** The elements that come back, if all lines are accepted. */
  function ElementsBack(h: Head, es: seq<Element>): Result<seq<Element>> {
    if es == [] then Ok([])
    else
      var first, rest := ElementBack(h, es[0]), ElementsBack(h, es[1..]);
      if first.Ok? && rest.Ok? then Ok([first.value] + rest.value) else Error
  }

  function AddElements(a: Accumulator, es: seq<Element>): Accumulator {
    a.(body := a.body.(elements := a.body.elements + es))
  }

  function TakeElement(): (Accumulator, Element) -> Result<Accumulator> {
    (a: Accumulator, e: Element) => match ElementBack(a.head,
        e) case Ok(b) => Ok(AddElements(a, [b])) case Error => Error
  }

  lemma {:induction false} TakeElements(a: Accumulator, es: seq<Element>)
    ensures Fold(TakeElement(), a, es) == match ElementsBack(a.head, es)
      case Ok(bs) => Ok(AddElements(a, bs))
      case Error => Error
    decreases |es|
  {
    var before := a.body.elements;
    if es == [] {
      assert before + [] == before;
    } else {
      var first, more := ElementBack(a.head, es[0]), ElementsBack(a.head, es[1..]);
      if first.Ok? {
        TakeElements(AddElements(a, [first.value]), es[1..]);
        if more.Ok? {
          assert before + [first.value] + more.value == before + ([first.value] + more.value);
        }
      }
    }
  }

  lemma ReadsElements(f: Numbers, a: Accumulator, es: seq<Element>)
    requires forall e <- es :: ElementPrints(f, e)
    ensures ReadLines(f, a, ElementLines(f, es)) == match ElementsBack(a.head, es)
      case Ok(bs) => Ok(AddElements(a, bs))
      case Error => Error
  {
    forall b: Accumulator, e | e in es ensures Reading(f)(b, ElementLine(f, e)) == TakeElement()(b, e) {
      ReadsElement(f, b, e);
    }
    FoldMapped(Reading(f), e => ElementLine(f, e), TakeElement(), a, es);
    TakeElements(a, es);
  }

  lemma {:induction false} ElementsComeBack(h: Head, es: seq<Element>)
    ensures ElementsBack(h, es) == Ok(es) <==> forall e <- es :: ElementFits(h, e)
  {
    if es != [] {
      ElementComesBack(h, es[0]);
      ElementsComeBack(h, es[1..]);
      assert es == [es[0]] + es[1..];
      if ElementsBack(h, es) == Ok(es) {
        assert ([ElementBack(h, es[0]).value] + ElementsBack(h, es[1..]).value)[0] == es[0];
        assert ([ElementBack(h, es[0]).value] + ElementsBack(h, es[1..]).value)[1..] == es[1..];
      }
    }
  }

  predicate NodesFit(h: Head, ns: seq<NodeSolution>) {
    ns == [] || (NodeFits(h, ns[0]) && NodesFit(h, ns[1..]))
  }

  lemma {:induction false} NodesFitAll(h: Head, ns: seq<NodeSolution>)
    ensures NodesFit(h, ns) <==> forall n <- ns :: NodeFits(h, n)
  {
    if ns != [] {
      NodesFitAll(h, ns[1..]);
      assert ns == [ns[0]] + ns[1..];
    }
  }

  function AddNodes(a: Accumulator, ns: seq<NodeSolution>): Accumulator {
    a.(body := a.body.(solutions := a.body.solutions + ns))
  }

  function TakeNode(): (Accumulator, NodeSolution) -> Result<Accumulator> {
    (a: Accumulator, n: NodeSolution) => if NodeFits(a.head, n) then Ok(AddNodes(a, [n])) else Error
  }

  lemma {:induction false} TakeNodes(a: Accumulator, ns: seq<NodeSolution>)
    ensures Fold(TakeNode(), a, ns) == if NodesFit(a.head, ns) then Ok(AddNodes(a, ns)) else Error
    decreases |ns|
  {
    var before := a.body.solutions;
    if ns == [] {
      assert before + [] == before;
    } else if NodeFits(a.head, ns[0]) {
      TakeNodes(AddNodes(a, [ns[0]]), ns[1..]);
      assert before + [ns[0]] + ns[1..] == before + ns;
    }
  }

  lemma ReadsNodes(f: Numbers, a: Accumulator, ns: seq<NodeSolution>)
    requires forall n <- ns :: NodePrints(f, n)
    ensures ReadLines(f, a, NodeLines(f, ns)) == if NodesFit(a.head, ns) then Ok(AddNodes(a, ns)) else Error
  {
    forall b: Accumulator, n | n in ns ensures Reading(f)(b, NodeLine(f, n)) == TakeNode()(b, n) {
      ReadsNode(f, b, n);
    }
    FoldMapped(Reading(f), n => NodeLine(f, n), TakeNode(), a, ns);
    TakeNodes(a, ns);
  }

  // --------------------------------------------------------- the copied records

  /** The tag the parser sees; empty for an empty line. */
  function SeenTag(raw: string): string {
    if Strip(raw) == "" then "" else Tag(Strip(raw))
  }

  function HeadStep(f: Numbers, h: Head, raw: string): Result<Head> {
    if IsHeadTag(SeenTag(raw)) then ReadHead(f, h, SeenTag(raw), Split(Rest(Strip(raw)))) else Ok(h)
  }

  function Heading(f: Numbers): (Head, string) -> Result<Head> {
    (h, raw) => HeadStep(f, h, raw)
  }

  /** What the head records among the lines make of the head. */
  function ReadHeads(f: Numbers, h: Head, lines: seq<string>): Result<Head> {
    Fold(Heading(f), h, lines)
  }

  /** The head after reading lines of all kinds. */
  lemma {:induction false} HeadOfLines(f: Numbers, a: Accumulator, lines: seq<string>)
    ensures ReadLines(f, a, lines).Ok? ==> ReadHeads(f, a.head, lines) == Ok(ReadLines(f, a, lines).value.head)
    decreases |lines|
  {
    if lines != [] {
      var next := ReadLine(f, a, lines[0]);
      if next.Ok? {
        HeadOfLines(f, next.value, lines[1..]);
      }
    }
  }

  ghost predicate AllTagged(lines: seq<string>, tag: string) {
    forall i :: 0 <= i < |lines| ==> SeenTag(lines[i]) == tag
  }

  /** Lines of head records leave the body alone. */
  lemma {:induction false} HeadsOnly(f: Numbers, a: Accumulator, lines: seq<string>, tag: string)
    requires AllTagged(lines, tag) && IsHeadTag(tag)
    ensures ReadLines(f, a, lines) == match ReadHeads(f, a.head, lines)
      case Ok(h) => Ok(a.(head := h))
      case Error => Error
    decreases |lines|
  {
    if lines != [] {
      var next := ReadLine(f, a, lines[0]);
      assert SeenTag(lines[0]) == tag;
      if next.Ok? {
        HeadsOnly(f, next.value, lines[1..], tag);
      }
    }
  }

  lemma {:induction false} StripKeepsWord(s: string, n: nat)
    requires 0 < n <= |s| && !IsSpace(s[n - 1])
    ensures n <= |StripRight(s)| <= |s| && StripRight(s) == s[..|StripRight(s)|]
    decreases |s|
  {
    if IsSpace(s[|s|-1]) {
      StripKeepsWord(s[..|s|-1], n);
    }
  }

  /** A line that begins with the tag and a blank, or is just the tag, is seen with that tag. */
  lemma RawTagSeen(raw: string, tag: string)
    requires RawTag(raw) == tag && Solid(tag)
    ensures SeenTag(raw) == tag
  {
    assert raw[0] == tag[0] && raw[|tag| - 1] == tag[|tag| - 1];
    assert StripLeft(raw) == raw;
    StripKeepsWord(raw, |tag|);
    var s := Strip(raw);
    forall i | 0 <= i < |tag| ensures s[i] != ' ' {
      assert s[i] == tag[i];
    }
    assert |tag| < |s| ==> s[|tag|] == raw[|tag|] == ' ';
    assert BlankAt(s) == |tag|;
  }

  lemma {:induction false} KeptTagged(source: seq<string>, tag: string)
    requires Solid(tag)
    ensures AllTagged(KeptLines(source, tag), tag)
  {
    if source != [] {
      KeptTagged(source[1..], tag);
      if RawTag(source[0]) == tag {
        RawTagSeen(source[0], tag);
      }
    }
  }

  /** What a record of this kind can change. */
  function Only(g: Head, h: Head, tag: string): Head {
    if tag == "v" then g.(version := h.version)
    else if tag == "D" then
      g.(dimension := h.dimension, verticesPerElement := h.verticesPerElement,
          neighborsPerElement := h.neighborsPerElement)
    else if tag == "M" then g.(temperature := h.temperature)
    else if tag == "s" then g.(table := h.table)
    else g
  }

  lemma ReadHeadOnly(f: Numbers, g: Head, h: Head, tag: string, fields: seq<string>)
    requires IsHeadTag(tag)
    ensures ReadHead(f, g, tag, fields).Ok? <==> ReadHead(f, h, tag, fields).Ok?
    ensures ReadHead(f, h, tag, fields).Ok? ==>
      && ReadHead(f, h, tag, fields).value == Only(h, ReadHead(f, h, tag, fields).value, tag)
      && ReadHead(f, g, tag, fields).value == Only(g, ReadHead(f, h, tag, fields).value, tag)
  {
  }

  lemma {:induction false} TaggedOnly(f: Numbers, g: Head, lines: seq<string>, tag: string)
    requires AllTagged(lines, tag) && IsHeadTag(tag)
    ensures ReadHeads(f, g, lines).Ok? ==> ReadHeads(f, g, lines).value == Only(g, ReadHeads(f, g, lines).value, tag)
    decreases |lines|
  {
    if lines != [] {
      assert SeenTag(lines[0]) == tag;
      var fields := Split(Rest(Strip(lines[0])));
      ReadHeadOnly(f, g, g, tag, fields);
      var next := HeadStep(f, g, lines[0]);
      if next.Ok? {
        TaggedOnly(f, next.value, lines[1..], tag);
      }
    }
  }

  lemma ReadAppend(f: Numbers, a: Accumulator, xs: seq<string>, ys: seq<string>)
    ensures ReadLines(f, a, xs + ys) == match ReadLines(f, a, xs)
      case Ok(b) => ReadLines(f, b, ys)
      case Error => Error
  {
    FoldAppend(Reading(f), a, xs, ys);
  }

  lemma HeadsAppend(f: Numbers, h: Head, xs: seq<string>, ys: seq<string>)
    ensures ReadHeads(f, h, xs + ys) == match ReadHeads(f, h, xs)
      case Ok(g) => ReadHeads(f, g, ys)
      case Error => Error
  {
    FoldAppend(Heading(f), h, xs, ys);
  }

  lemma {:induction false} InterfaceLines(f: Numbers, h: Head, lines: seq<string>)
    requires AllTagged(lines, "I")
    ensures ReadHeads(f, h, lines) == Ok(h)
    decreases |lines|
  {
    if lines != [] {
      assert SeenTag(lines[0]) == "I";
      InterfaceLines(f, h, lines[1..]);
    }
  }

  // -------------------------------------------------------------- the round trip

  ghost predicate Prints(f: Numbers, s: Structure) {
    && (forall c <- s.coordinates :: CoordinatePrints(f, c))
    && (forall r <- s.regions :: IntSurvives(f, r.id) && IntSurvives(f, r.materialId))
    && (forall e <- s.elements :: ElementPrints(f, e)) && (forall n <- s.solutions :: NodePrints(f, n))
  }

  function BodyOf(s: Structure): Body {
    Body(s.coordinates, s.regions, s.elements, s.solutions)
  }

  /** The structure goes with the copied records: no y in one dimension, the
      counts of the D record, one value a species. */
  ghost predicate Fits(h: Head, s: Structure) {
    && (s.dimension == 1 ==> forall c <- s.coordinates :: c.y == 0.0)
    && (forall e <- s.elements :: ElementFits(h, e)) && forall n <- s.solutions :: NodeFits(h, n)
  }

  lemma {:induction false} CoordinatesComeBack(cs: seq<Coordinate>, dimension: int)
    ensures CoordinatesBack(cs, dimension) == cs <==> (dimension == 1 ==> forall c <- cs :: c.y == 0.0)
  {
    if cs != [] {
      CoordinatesComeBack(cs[1..], dimension);
      assert cs == [cs[0]] + cs[1..];
      assert CoordinatesBack(cs, dimension)[0] == CoordinateBack(cs[0], dimension);
      assert CoordinatesBack(cs, dimension)[1..] == CoordinatesBack(cs[1..], dimension);
    }
  }

  function Front(source: seq<string>): seq<string> {
    KeptLines(source, "v") + KeptLines(source, "D")
  }

  const EMPTY: Accumulator := Accumulator(NO_HEAD, NO_BODY)

  lemma KeptHeads(f: Numbers, a: Accumulator, source: seq<string>, tag: string)
    requires IsHeadTag(tag) && Solid(tag)
    ensures AllTagged(KeptLines(source, tag), tag)
    ensures ReadLines(f, a, KeptLines(source, tag)) == match ReadHeads(f, a.head, KeptLines(source, tag))
      case Ok(h) => Ok(a.(head := h))
      case Error => Error
    ensures ReadHeads(f, a.head, KeptLines(source, tag)).Ok? ==>
      ReadHeads(f, a.head, KeptLines(source, tag)).value
          == Only(a.head, ReadHeads(f, a.head, KeptLines(source, tag)).value, tag)
  {
    KeptTagged(source, tag);
    HeadsOnly(f, a, KeptLines(source, tag), tag);
    TaggedOnly(f, a.head, KeptLines(source, tag), tag);
  }

  /** v and D. */
  lemma Stage1(f: Numbers, source: seq<string>)
    ensures ReadLines(f, EMPTY, Front(source)) == match ReadHeads(f, NO_HEAD, Front(source))
      case Ok(h) => Ok(Accumulator(h, NO_BODY))
      case Error => Error
  {
    var v, d := KeptLines(source, "v"), KeptLines(source, "D");
    KeptHeads(f, EMPTY, source, "v");
    ReadAppend(f, EMPTY, v, d);
    HeadsAppend(f, NO_HEAD, v, d);
    var r := ReadHeads(f, NO_HEAD, v);
    if r.Ok? {
      KeptHeads(f, Accumulator(r.value, NO_BODY), source, "D");
    }
  }

  /** c and r. */
  lemma Stage2(f: Numbers, s: Structure, source: seq<string>, h: Head)
    requires Prints(f, s) && 1 <= s.dimension <= 2 && ReadHeads(f, NO_HEAD, Front(source)) == Ok(h)
    ensures ReadLines(f, EMPTY, Front(source) + CoordinateLines(f, s.coordinates, s.dimension)
        + RegionLines(f, s.regions))
         == Ok(Accumulator(h, Body(CoordinatesBack(s.coordinates, s.dimension), s.regions, [], [])))
  {
    var cl, rl := CoordinateLines(f, s.coordinates, s.dimension), RegionLines(f, s.regions);
    Stage1(f, source);
    ReadAppend(f, EMPTY, Front(source), cl);
    ReadsCoordinates(f, Accumulator(h, NO_BODY), s.coordinates, s.dimension);
    ReadAppend(f, EMPTY, Front(source) + cl, rl);
    var a := Accumulator(h, Body(CoordinatesBack(s.coordinates, s.dimension), [], [], []));
    assert [] + CoordinatesBack(s.coordinates, s.dimension) == CoordinatesBack(s.coordinates, s.dimension);
    ReadsRegions(f, a, s.regions);
    assert [] + s.regions == s.regions;
  }

  function Meshed(f: Numbers, s: Structure, source: seq<string>): seq<string> {
    Front(source) + CoordinateLines(f, s.coordinates, s.dimension) + RegionLines(f, s.regions)
        + ElementLines(f, s.elements)
  }

  /** t */
  lemma Stage3(f: Numbers, s: Structure, source: seq<string>, h: Head)
    requires Prints(f, s) && 1 <= s.dimension <= 2 && ReadHeads(f, NO_HEAD, Front(source)) == Ok(h)
    ensures ReadLines(f, EMPTY, Meshed(f, s, source)) == match ElementsBack(h, s.elements)
      case Ok(es) => Ok(Accumulator(h, Body(CoordinatesBack(s.coordinates, s.dimension), s.regions, es, [])))
      case Error => Error
  {
    Stage2(f, s, source, h);
    var a := Accumulator(h, Body(CoordinatesBack(s.coordinates, s.dimension), s.regions, [], []));
    ReadAppend(
      f, EMPTY, Front(source) + CoordinateLines(f, s.coordinates, s.dimension) + RegionLines(f, s.regions),
      ElementLines(f, s.elements));
    ReadsElements(f, a, s.elements);
    var r := ElementsBack(h, s.elements);
    if r.Ok? {
      assert [] + r.value == r.value;
    }
  }

  function Middle(source: seq<string>): seq<string> {
    KeptLines(source, "M") + KeptLines(source, "s")
  }

  /** M and s leave the counts of the D record. */
  lemma Stage4(f: Numbers, a: Accumulator, source: seq<string>)
    ensures ReadLines(f, a, Middle(source)) == match ReadHeads(f, a.head, Middle(source))
      case Ok(h) => Ok(a.(head := h))
      case Error => Error
    ensures ReadHeads(f, a.head, Middle(source)).Ok? ==>
      var h := ReadHeads(f, a.head, Middle(source)).value;
      h.verticesPerElement == a.head.verticesPerElement && h.neighborsPerElement == a.head.neighborsPerElement
  {
    var m, t := KeptLines(source, "M"), KeptLines(source, "s");
    KeptHeads(f, a, source, "M");
    ReadAppend(f, a, m, t);
    HeadsAppend(f, a.head, m, t);
    var r := ReadHeads(f, a.head, m);
    if r.Ok? {
      KeptHeads(f, a.(head := r.value), source, "s");
    }
  }

  lemma WrittenParts(f: Numbers, s: Structure, source: seq<string>)
    ensures Written(f, s, source)
        == Meshed(f, s, source) + Middle(source) + NodeLines(f, s.solutions) + KeptLines(source, "I")
    ensures HeadLines(source) == Front(source) + Middle(source) + KeptLines(source, "I")
  {
  }

  /** n and I, on top of what has been read so far. */
  lemma Stage5(f: Numbers, s: Structure, source: seq<string>, a: Accumulator)
    requires Prints(f, s) && a.body.solutions == []
    ensures ReadLines(f, a, NodeLines(f, s.solutions) + KeptLines(source, "I"))
         == if NodesFit(a.head, s.solutions) then Ok(a.(body := a.body.(solutions := s.solutions))) else Error
    ensures ReadHeads(f, a.head, KeptLines(source, "I")) == Ok(a.head)
  {
    ReadsNodes(f, a, s.solutions);
    ReadAppend(f, a, NodeLines(f, s.solutions), KeptLines(source, "I"));
    assert [] + s.solutions == s.solutions;
    KeptTagged(source, "I");
    InterfaceLines(f, a.head, KeptLines(source, "I"));
    var b := AddNodes(a, s.solutions);
    InterfaceLines(f, b.head, KeptLines(source, "I"));
    HeadsOnly(f, b, KeptLines(source, "I"), "I");
  }

  /** The head of the written file. */
  function HeadWritten(f: Numbers, source: seq<string>): Result<Head> {
    ReadHeads(f, NO_HEAD, HeadLines(source))
  }

  /** What the parser makes of the written file, step by step. */
  function Reread(f: Numbers, s: Structure, source: seq<string>): Result<Accumulator> {
    match ReadHeads(f, NO_HEAD, Front(source))
    case Error => Error
    case Ok(h) =>
      match ElementsBack(h, s.elements)
      case Error => Error
      case Ok(es) =>
        match ReadHeads(f, h, Middle(source))
        case Error => Error
        case Ok(g) =>
          if NodesFit(g, s.solutions)
          then Ok(Accumulator(g, Body(CoordinatesBack(s.coordinates, s.dimension), s.regions, es, s.solutions)))
          else Error
  }

  lemma WrittenIsReread(f: Numbers, s: Structure, source: seq<string>)
    requires Prints(f, s) && 1 <= s.dimension <= 2
    ensures ReadLines(f, EMPTY, Written(f, s, source)) == Reread(f, s, source)
  {
    WrittenParts(f, s, source);
    var mesh, mid, nodes, last := Meshed(f, s, source), Middle(source), NodeLines(f, s.solutions),
        KeptLines(source, "I");
    assert mesh + mid + nodes + last == (mesh + mid) + (nodes + last);
    ReadAppend(f, EMPTY, mesh + mid, nodes + last);
    ReadAppend(f, EMPTY, mesh, mid);
    Stage1(f, source);
    match ReadHeads(f, NO_HEAD, Front(source))
    case Error => MeshFails(f, s, source);
    case Ok(h) =>
      Stage3(f, s, source, h);
      match ElementsBack(h, s.elements)
      case Error =>
      case Ok(es) =>
        var a := Accumulator(h, Body(CoordinatesBack(s.coordinates, s.dimension), s.regions, es, []));
        Stage4(f, a, source);
        match ReadHeads(f, h, mid)
        case Error =>
        case Ok(g) => Stage5(f, s, source, a.(head := g));
  }

  lemma MeshFails(f: Numbers, s: Structure, source: seq<string>)
    requires ReadLines(f, EMPTY, Front(source)).Error?
    ensures ReadLines(f, EMPTY, Meshed(f, s, source)).Error?
  {
    var cl, rl, el := CoordinateLines(f, s.coordinates, s.dimension), RegionLines(f, s.regions),
        ElementLines(f, s.elements);
    ReadAppend(f, EMPTY, Front(source), cl);
    ReadAppend(f, EMPTY, Front(source) + cl, rl);
    ReadAppend(f, EMPTY, Front(source) + cl + rl, el);
  }

  lemma HeadWrittenIs(f: Numbers, s: Structure, source: seq<string>)
    ensures HeadWritten(f, source) == match ReadHeads(f, NO_HEAD, Front(source))
      case Ok(h) => ReadHeads(f, h, Middle(source))
      case Error => Error
  {
    WrittenParts(f, s, source);
    var last := KeptLines(source, "I");
    HeadsAppend(f, NO_HEAD, Front(source) + Middle(source), last);
    HeadsAppend(f, NO_HEAD, Front(source), Middle(source));
    KeptTagged(source, "I");
    var r := ReadHeads(f, NO_HEAD, Front(source) + Middle(source));
    if r.Ok? {
      InterfaceLines(f, r.value, last);
    }
  }

  /** Parsing what was written gives the mesh and its values back exactly if the
      copied records can be read, declare the species, and go with the structure;
      the rest of the result is what those records say. */
  lemma WriteThenParse(f: Numbers, s: Structure, source: seq<string>)
    requires Prints(f, s) && 1 <= s.dimension <= 2
    ensures var r, h := Parse(f, Written(f, s, source)), HeadWritten(f, source);
      && (r.Ok? && r.value.body == BodyOf(s) <==> h.Ok? && h.value.table.Some? && Fits(h.value, s))
      && (r.Ok? ==> h == Ok(r.value.head))
  {
    WrittenIsReread(f, s, source);
    HeadWrittenIs(f, s, source);
    CoordinatesComeBack(s.coordinates, s.dimension);
    match ReadHeads(f, NO_HEAD, Front(source))
    case Error =>
    case Ok(h) =>
      ElementsComeBack(h, s.elements);
      Stage4(f, Accumulator(h, NO_BODY), source);
      match ReadHeads(f, h, Middle(source))
      case Error =>
      case Ok(g) =>
        NodesFitAll(g, s.solutions);
        SameCounts(h, g, s.elements);
  }

  lemma SameCounts(h: Head, g: Head, es: seq<Element>)
    requires h.verticesPerElement == g.verticesPerElement && h.neighborsPerElement == g.neighborsPerElement
    ensures (forall e <- es :: ElementFits(h, e)) <==> forall e <- es :: ElementFits(g, e)
  {
    forall e <- es ensures ElementFits(h, e) <==> ElementFits(g, e) {}
  }

  // ------------------------------------------------ the head of the source survives

  function Seen(tag: string): string -> bool {
    raw => SeenTag(raw) == tag
  }

  /** The records the parser sees under a tag; KeptLines are those the writer copies. */
  function SeenLines(source: seq<string>, tag: string): seq<string> {
    Filter(Seen(tag), source)
  }

  lemma SeenAppend(xs: seq<string>, ys: seq<string>, tag: string)
    ensures SeenLines(xs + ys, tag) == SeenLines(xs, tag) + SeenLines(ys, tag)
  {
    FilterAppend(Seen(tag), xs, ys);
  }

  lemma {:induction false} SeenAll(lines: seq<string>, t: string, tag: string)
    requires AllTagged(lines, t)
    ensures SeenLines(lines, tag) == if t == tag then lines else []
  {
    if lines != [] {
      assert SeenTag(lines[0]) == t;
      SeenAll(lines[1..], t, tag);
    }
  }

  /** What one record says about the part of the head its tag is for. */
  function Says(f: Numbers, raw: string, tag: string): Head {
    var r := HeadStep(f, NO_HEAD, raw);
    if r.Ok? then Only(NO_HEAD, r.value, tag) else NO_HEAD
  }

  /** The last record counts; without one the part keeps its default. */
  function Said(f: Numbers, records: seq<string>, tag: string): Head {
    if records == [] then NO_HEAD else Says(f, records[|records| - 1], tag)
  }

  lemma HeadStepSays(f: Numbers, h: Head, raw: string, tag: string)
    requires IsHeadTag(tag) && HeadStep(f, h, raw).Ok?
    ensures Only(NO_HEAD, HeadStep(f, h, raw).value, tag) == if SeenTag(raw)
        == tag then Says(f, raw, tag) else Only(NO_HEAD, h, tag)
  {
    var seen := SeenTag(raw);
    if IsHeadTag(seen) {
      ReadHeadOnly(f, NO_HEAD, h, seen, Split(Rest(Strip(raw))));
    }
  }

  lemma SaidSnoc(f: Numbers, records: seq<string>, raw: string, tag: string)
    ensures Said(f, records + [raw], tag) == Says(f, raw, tag)
  {
  }

  lemma SeenSnoc(source: seq<string>, raw: string, tag: string)
    ensures SeenLines(source + [raw], tag) == SeenLines(source, tag) + if SeenTag(raw) == tag then [raw] else []
  {
    SeenAppend(source, [raw], tag);
    FilterOne(Seen(tag), raw);
  }

  lemma HeadSnoc(f: Numbers, rest: seq<string>, raw: string)
    ensures ReadHeads(f, NO_HEAD, rest + [raw]) == match ReadHeads(f, NO_HEAD, rest)
      case Ok(h) => HeadStep(f, h, raw)
      case Error => Error
  {
    HeadsAppend(f, NO_HEAD, rest, [raw]);
    var r := ReadHeads(f, NO_HEAD, rest);
    if r.Ok? {
      FoldOne(Heading(f), r.value, raw);
    }
  }

  /** Each part of the head is what the last record of its kind says. */
  lemma {:induction false} HeadIsSaid(f: Numbers, source: seq<string>, tag: string)
    requires ReadHeads(f, NO_HEAD, source).Ok? && IsHeadTag(tag)
    ensures Only(NO_HEAD, ReadHeads(f, NO_HEAD, source).value, tag) == Said(f, SeenLines(source, tag), tag)
  {
    if source != [] {
      var rest, raw := source[..|source| - 1], source[|source| - 1];
      assert source == rest + [raw];
      HeadSnoc(f, rest, raw);
      HeadIsSaid(f, rest, tag);
      SeenSnoc(rest, raw, tag);
      SaidSnoc(f, SeenLines(rest, tag), raw, tag);
      HeadStepSays(f, ReadHeads(f, NO_HEAD, rest).value, raw, tag);
    }
  }

  predicate Readable(f: Numbers, raw: string) {
    HeadStep(f, NO_HEAD, raw).Ok?
  }

  /** Whether a head record can be read does not depend on the head so far. */
  lemma {:induction false} ReadableAll(f: Numbers, g: Head, lines: seq<string>)
    ensures ReadHeads(f, g, lines).Ok? <==> forall raw <- lines :: Readable(f, raw)
    decreases |lines|
  {
    if lines != [] {
      var raw := lines[0];
      assert lines == [raw] + lines[1..];
      if IsHeadTag(SeenTag(raw)) {
        ReadHeadOnly(f, NO_HEAD, g, SeenTag(raw), Split(Rest(Strip(raw))));
      }
      var next := HeadStep(f, g, raw);
      assert next.Ok? <==> Readable(f, raw);
      if next.Ok? {
        ReadableAll(f, next.value, lines[1..]);
      } else {
        assert raw in lines;
      }
    }
  }

  lemma {:induction false} KeptAreSource(source: seq<string>, tag: string)
    ensures forall raw <- KeptLines(source, tag) :: raw in source
  {
    if source != [] {
      KeptAreSource(source[1..], tag);
      assert source == [source[0]] + source[1..];
    }
  }

  lemma KeptSeen(source: seq<string>, t: string, tag: string)
    requires Solid(t)
    ensures SeenLines(KeptLines(source, t), tag) == If(tag == t, KeptLines(source, t))
  {
    KeptTagged(source, t);
    SeenAll(KeptLines(source, t), t, tag);
  }

  lemma TagsDiffer()
    ensures "v" != "D" && "v" != "M" && "v" != "s" && "v" != "I" && "D" != "M" && "D" != "s" && "D" != "I"
    ensures "M" != "s" && "M" != "I" && "s" != "I"
  {
  }

  function If(c: bool, lines: seq<string>): seq<string> {
    if c then lines else []
  }

  /** Of the copied records, those of one kind. */
  lemma SeenInHead(source: seq<string>, tag: string)
    requires IsHeadTag(tag)
    ensures SeenLines(HeadLines(source), tag) == KeptLines(source, tag)
  {
    var v, d, m := KeptLines(source, "v"), KeptLines(source, "D"), KeptLines(source, "M");
    var t, i := KeptLines(source, "s"), KeptLines(source, "I");
    KeptSeen(source, "v", tag);
    KeptSeen(source, "D", tag);
    KeptSeen(source, "M", tag);
    KeptSeen(source, "s", tag);
    KeptSeen(source, "I", tag);
    SeenFive(v, d, m, t, i, tag);
    TagsDiffer();
    OneOfFive(v, d, m, t, i, tag == "v", tag == "D", tag == "M", tag == "s");
  }

  lemma OneOfFive(
    v: seq<string>, d: seq<string>, m: seq<string>, t: seq<string>, i: seq<string>, a: bool, b: bool, c: bool, e: bool)
    requires !(a && b) && !(a && c) && !(a && e) && !(b && c) && !(b && e) && !(c && e)
    ensures If(a, v) + If(b, d) + If(c, m) + If(e, t) + If(!a && !b && !c && !e, i)
         == if a then v else if b then d else if c then m else if e then t else i
  {
  }

  lemma SeenFive(v: seq<string>, d: seq<string>, m: seq<string>, t: seq<string>, i: seq<string>, tag: string)
    ensures SeenLines(v + d + m + t + i, tag)
         == SeenLines(v, tag) + SeenLines(d, tag) + SeenLines(m, tag) + SeenLines(t, tag) + SeenLines(i, tag)
  {
    SeenAppend(v, d, tag);
    SeenAppend(v + d, m, tag);
    SeenAppend(v + d + m, t, tag);
    SeenAppend(v + d + m + t, i, tag);
  }

  lemma CopiesAreReadable(f: Numbers, source: seq<string>)
    requires ReadHeads(f, NO_HEAD, source).Ok?
    ensures HeadWritten(f, source).Ok?
  {
    ReadableAll(f, NO_HEAD, source);
    KeptAreSource(source, "v");
    KeptAreSource(source, "D");
    KeptAreSource(source, "M");
    KeptAreSource(source, "s");
    KeptAreSource(source, "I");
    ReadableAll(f, NO_HEAD, HeadLines(source));
  }

  /** The last record of a kind that the parser sees says what the last one that
      the writer copies says. */
  predicate CopyAgrees(f: Numbers, source: seq<string>, tag: string) {
    Said(f, KeptLines(source, tag), tag) == Said(f, SeenLines(source, tag), tag)
  }

  predicate CopiesAgree(f: Numbers, source: seq<string>) {
    CopyAgrees(f, source, "v") && CopyAgrees(f, source, "D") && CopyAgrees(f, source, "M") && CopyAgrees(f, source, "s")
  }

  lemma SameParts(g: Head, h: Head)
    ensures g == h <==>
      && Only(NO_HEAD, g, "v") == Only(NO_HEAD, h, "v") && Only(NO_HEAD, g, "D") == Only(NO_HEAD, h, "D")
      && Only(NO_HEAD, g, "M") == Only(NO_HEAD, h, "M") && Only(NO_HEAD, g, "s") == Only(NO_HEAD, h, "s")
  {
  }

  /** The written file has the head of the source exactly if for every kind of
      record the last one seen and the last one copied say the same. */
  lemma HeadSurvivesExactlyWhen(f: Numbers, source: seq<string>)
    requires ReadHeads(f, NO_HEAD, source).Ok?
    ensures HeadWritten(f, source).Ok?
    ensures forall tag :: IsHeadTag(tag) ==>
      var g, h := HeadWritten(f, source).value, ReadHeads(f, NO_HEAD, source).value;
      (Only(NO_HEAD, g, tag) == Only(NO_HEAD, h, tag) <==> CopyAgrees(f, source, tag))
    ensures HeadWritten(f, source) == ReadHeads(f, NO_HEAD, source) <==> CopiesAgree(f, source)
  {
    CopiesAreReadable(f, source);
    forall tag | IsHeadTag(tag)
      ensures Only(NO_HEAD, HeadWritten(f, source).value, tag) == Said(f, KeptLines(source, tag), tag)
      ensures Only(NO_HEAD, ReadHeads(f, NO_HEAD, source).value, tag) == Said(f, SeenLines(source, tag), tag)
    {
      HeadIsSaid(f, source, tag);
      HeadIsSaid(f, HeadLines(source), tag);
      SeenInHead(source, tag);
    }
    SameParts(HeadWritten(f, source).value, ReadHeads(f, NO_HEAD, source).value);
  }

  /** The copying loop and the parser see the same tag. */
  predicate Flush(raw: string) {
    Strip(raw) == "" || RawTag(raw) == SeenTag(raw)
  }

  lemma {:induction false} FlushIsCopied(source: seq<string>, tag: string)
    requires (forall raw <- source :: Flush(raw)) && IsHeadTag(tag) && Solid(tag)
    ensures KeptLines(source, tag) == SeenLines(source, tag)
  {
    if source != [] {
      assert source[0] in source;
      if RawTag(source[0]) == tag {
        RawTagSeen(source[0], tag);
      }
      forall raw <- source[1..] ensures Flush(raw) { assert raw in source; }
      FlushIsCopied(source[1..], tag);
    }
  }

  /** In particular if no line of the source has its tag off the margin. */
  lemma HeadSurvives(f: Numbers, source: seq<string>)
    requires (forall raw <- source :: Flush(raw)) && ReadHeads(f, NO_HEAD, source).Ok?
    ensures CopiesAgree(f, source) && HeadWritten(f, source) == ReadHeads(f, NO_HEAD, source)
  {
    FlushIsCopied(source, "v");
    FlushIsCopied(source, "D");
    FlushIsCopied(source, "M");
    FlushIsCopied(source, "s");
    HeadSurvivesExactlyWhen(f, source);
  }

  /** The structure of a file that was read. */
  function StructureOf(a: Accumulator): Structure {
    Structure(a.head.dimension, a.head.verticesPerElement, a.head.neighborsPerElement,
              a.body.coordinates, a.body.regions, a.body.elements, a.body.solutions)
  }

  /** Reading any file, writing it and reading it again changes nothing exactly if
      its last records of each kind are copied, or say what the copied ones say,
      and its records go with each other. */
  lemma RewriteChangesNothing(f: Numbers, source: seq<string>, s: Structure)
    requires Parse(f, source).Ok?
    requires var h := Parse(f, source).value.head;
      && s.dimension == h.dimension && s.verticesPerElement == h.verticesPerElement
      && s.neighborsPerElement == h.neighborsPerElement
    requires var b := Parse(f, source).value.body;
      s.coordinates == b.coordinates && s.regions == b.regions && s.elements == b.elements && s.solutions == b.solutions
    requires Prints(f, s) && 1 <= s.dimension <= 2
    ensures var a := Parse(f, source).value;
      Parse(f, Written(f, s, source)) == Ok(a) <==> CopiesAgree(f, source) && Fits(a.head, s)
  {
    assert s == StructureOf(Parse(f, source).value);
    HeadOfLines(f, EMPTY, source);
    HeadSurvivesExactlyWhen(f, source);
    WriteThenParse(f, s, source);
  }

  // -------------------------------------------------------- records that are lost

  /** A record off the margin, which the parser reads wherever it stands, leaves
      no trace in the written file. */
  lemma IndentedRecordIsLost(f: Numbers, s: Structure, xs: seq<string>, raw: string, ys: seq<string>)
    requires !Flush(raw)
    ensures Written(f, s, xs + [raw] + ys) == Written(f, s, xs + ys)
  {
    assert Solid("v") && Solid("D") && Solid("M") && Solid("s") && Solid("I");
    forall tag | IsHeadTag(tag) ensures KeptLines(xs + [raw] + ys, tag) == KeptLines(xs + ys, tag) {
      if RawTag(raw) == tag {
        RawTagSeen(raw, tag);
      }
      KeptOne(raw, tag);
      KeptAppend(xs + [raw], ys, tag);
      KeptAppend(xs, [raw], tag);
      KeptAppend(xs, ys, tag);
    }
  }

  function WithTable(a: Accumulator, table: seq<int>): Accumulator {
    a.(head := a.head.(table := Some(table)))
  }

  lemma NoSpecies(f: Numbers, a: Accumulator, zero: string)
    requires Solid(zero) && f.ToInt(zero) == Some(0)
    ensures RawTag("s " + zero) == "s" && ReadLine(f, a, "s " + zero) == Ok(WithTable(a, []))
  {
    var line, gaps, words := "s " + zero, [" "], [zero];
    assert gaps[1..] == [] && words[1..] == [];
    assert line == "s" + (" " + zero) == "s" + Glue(gaps, words) + "";
    SpacedLine(f, a, line, "s", gaps, words, "");
    BlankAfter("s", " " + zero);
    assert Ints(f, words[1..]) == Some([]);
  }

  lemma OneSpecies(f: Numbers, a: Accumulator, one: string, code: string, c: int)
    requires Solid(one) && f.ToInt(one) == Some(1) && Solid(code) && f.ToInt(code) == Some(c)
    ensures ReadLine(f, a, "s " + one + " " + code) == Ok(WithTable(a, [c]))
  {
    var gaps, words := [" ", " "], [one, code];
    assert gaps[1..] == [" "] && words[1..] == [code] && [" "][1..] == [] && [code][1..] == [];
    assert Glue([" "], [code]) == " " + code;
    assert "s " + one + " " + code == "s" + (" " + one + (" " + code)) + "";
    SpacedLine(f, a, "s " + one + " " + code, "s", gaps, words, "");
    assert Ints(f, []) == Some([]) && [c] + [] == [c];
    assert Ints(f, [code]) == Some([c]);
  }

  lemma Indented(f: Numbers, a: Accumulator, line: string)
    ensures ReadLine(f, a, " " + line) == ReadLine(f, a, line) && RawTag(" " + line) == ""
  {
    var raw := " " + line;
    assert raw[1..] == line;
    assert Strip(raw) == Strip(line);
  }

  /** A file that is read without complaint and comes back changed: the indented
      second s record is read, but only the first one is copied. */
  lemma RewriteCanChangeTheFile(f: Numbers, zero: string, one: string, code: string, c: int)
    requires Solid(zero) && f.ToInt(zero) == Some(0)
    requires Solid(one) && f.ToInt(one) == Some(1) && Solid(code) && f.ToInt(code) == Some(c)
    ensures var source := ["s " + zero, " " + ("s " + one + " " + code)];
      && Parse(f, source) == Ok(WithTable(EMPTY, [c]))
      && Parse(f, Written(f, StructureOf(WithTable(EMPTY, [c])), source)) == Ok(WithTable(EMPTY, []))
  {
    var first, line := "s " + zero, "s " + one + " " + code;
    var second := " " + line;
    NoSpecies(f, EMPTY, zero);
    OneSpecies(f, WithTable(EMPTY, []), one, code, c);
    Indented(f, WithTable(EMPTY, []), line);
    ReadAppend(f, EMPTY, [first], [second]);
    assert [first] + [second] == [first, second];
    FoldOne(Reading(f), EMPTY, first);
    FoldOne(Reading(f), WithTable(EMPTY, []), second);
    OnlyFirstCopied(f, WithTable(EMPTY, [c]), first, second);
  }

  lemma OnlyFirstCopied(f: Numbers, a: Accumulator, first: string, second: string)
    requires RawTag(first) == "s" && RawTag(second) == "" && a.body == NO_BODY
    ensures Written(f, StructureOf(a), [first, second]) == [first]
  {
    var source := [first, second];
    forall tag | IsHeadTag(tag) ensures KeptLines(source, tag) == if tag == "s" then [first] else [] {
      assert source == [first] + [second];
      KeptAppend([first], [second], tag);
      KeptOne(first, tag);
      KeptOne(second, tag);
    }
  }
}
