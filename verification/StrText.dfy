/** The text operations str_parser uses on one line: strip, partition and split. */
module StrText {
  predicate IsSpace(c: char) {
    c == ' ' || c == '\t' || c == '\r'
  }

  /** A word: not empty, and no white space in it. */
  predicate Solid(w: string) {
    w != "" && forall i :: 0 <= i < |w| ==> !IsSpace(w[i])
  }

  /** Only blanks. */
  predicate Blanks(g: string) {
    forall i :: 0 <= i < |g| ==> g[i] == ' '
  }

  predicate Gap(g: string) {
    g != "" && Blanks(g)
  }

  /** Characters before the first white space. */
  function WordLength(s: string): (n: nat)
    ensures n <= |s| && (forall i :: 0 <= i < n ==> !IsSpace(s[i])) && (n < |s| ==> IsSpace(s[n]))
  {
    if s == "" || IsSpace(s[0]) then 0 else 1 + WordLength(s[1..])
  }

  /** split() */
  function Split(s: string): seq<string>
    decreases |s|
  {
    if s == "" then []
    else if IsSpace(s[0]) then Split(s[1..])
    else [s[..WordLength(s)]] + Split(s[WordLength(s)..])
  }

  /** lstrip() */
  function StripLeft(s: string): string {
    if s != "" && IsSpace(s[0]) then StripLeft(s[1..]) else s
  }

  /** rstrip() */
  function StripRight(s: string): string {
    if s != "" && IsSpace(s[|s|-1]) then StripRight(s[..|s|-1]) else s
  }

  function Strip(s: string): string {
    StripRight(StripLeft(s))
  }

  /** The place of the first blank, or the end. */
  function BlankAt(s: string): (n: nat)
    ensures n <= |s| && (forall i :: 0 <= i < n ==> s[i] != ' ') && (n < |s| ==> s[n] == ' ')
  {
    if s == "" || s[0] == ' ' then 0 else 1 + BlankAt(s[1..])
  }

  /** `partition(" ")`: the part before the first blank, and the part after it. */
  function Tag(s: string): string {
    s[..BlankAt(s)]
  }

  function Rest(s: string): string {
    if BlankAt(s) < |s| then s[BlankAt(s) + 1..] else ""
  }

  // ------------------------------------------------------------- words and gaps

  /** Each word after its gap. */
  function Glue(gaps: seq<string>, words: seq<string>): string
    requires |gaps| == |words|
  {
    if words == [] then "" else gaps[0] + words[0] + Glue(gaps[1..], words[1..])
  }

  ghost predicate Spaced(gaps: seq<string>, words: seq<string>) {
    |gaps| == |words| && (forall i :: 0 <= i < |gaps| ==> Gap(gaps[i])) && forall i :: 0 <= i < |words| ==>
        Solid(words[i])
  }

  lemma WordLengthOf(w: string, rest: string)
    requires Solid(w) && (rest == "" || IsSpace(rest[0]))
    ensures WordLength(w + rest) == |w|
  {
    var s, n := w + rest, WordLength(w + rest);
    forall i | 0 <= i < |w| ensures !IsSpace(s[i]) {}
    assert rest != "" ==> s[|w|] == rest[0];
  }

  lemma SplitWord(w: string, rest: string)
    requires Solid(w) && (rest == "" || IsSpace(rest[0]))
    ensures Split(w + rest) == [w] + Split(rest)
  {
    WordLengthOf(w, rest);
    var s := w + rest;
    assert s[0] == w[0];
    assert s[..|w|] == w && s[|w|..] == rest;
  }

  lemma {:induction false} SplitGap(g: string, rest: string)
    requires Blanks(g)
    ensures Split(g + rest) == Split(rest)
  {
    if g == "" {
      assert g + rest == rest;
    } else {
      SplitGap(g[1..], rest);
      assert (g + rest)[1..] == g[1..] + rest;
    }
  }

  lemma GapFirst(g: string, s: string)
    requires Gap(g)
    ensures g + s != "" && IsSpace((g + s)[0])
  {
    assert (g + s)[0] == g[0];
  }

  /** Splitting takes off all gaps, those at the end too. */
  lemma {:induction false} SplitGlued(gaps: seq<string>, words: seq<string>, trail: string)
    requires Spaced(gaps, words) && Blanks(trail)
    ensures Split(Glue(gaps, words) + trail) == words
  {
    if words == [] {
      SplitGap(trail, "");
      assert "" + trail == trail == trail + "";
    } else {
      var g, w, tail := gaps[0], words[0], Glue(gaps[1..], words[1..]) + trail;
      assert Spaced(gaps[1..], words[1..]);
      SplitGlued(gaps[1..], words[1..], trail);
      TailOpens(gaps[1..], words[1..], trail);
      SplitWord(w, tail);
      SplitGap(g, w + tail);
      assert Glue(gaps, words) + trail == g + (w + tail);
      assert words == [w] + words[1..];
    }
  }

  lemma TailOpens(gaps: seq<string>, words: seq<string>, trail: string)
    requires Spaced(gaps, words) && Blanks(trail)
    ensures var s := Glue(gaps, words) + trail; s == "" || IsSpace(s[0])
  {
    if words != [] {
      GapFirst(gaps[0], words[0] + Glue(gaps[1..], words[1..]) + trail);
      assert Glue(gaps, words) + trail == gaps[0] + (words[0] + Glue(gaps[1..], words[1..]) + trail);
    }
  }

  // -------------------------------------------------------------------- a line

  /** strip() leaves a line that starts with a word as it is, but for blanks at the end. */
  lemma {:induction false} StripRightEnd(s: string, trail: string)
    requires Blanks(trail) && (s == "" || !IsSpace(s[|s|-1]))
    ensures StripRight(s + trail) == s
    decreases |trail|
  {
    if trail == "" {
      assert s + trail == s;
    } else {
      var line := s + trail;
      assert line[|line|-1] == ' ' && line[..|line|-1] == s + trail[..|trail|-1];
      StripRightEnd(s, trail[..|trail|-1]);
    }
  }

  lemma {:induction false} GlueEnds(gaps: seq<string>, words: seq<string>)
    requires Spaced(gaps, words) && words != []
    ensures var s := Glue(gaps, words); s != "" && !IsSpace(s[|s|-1])
  {
    var w := words[|words|-1];
    if |words| == 1 {
      assert gaps[1..] == [] && words[1..] == [];
      assert Glue(gaps, words) == gaps[0] + words[0];
    } else {
      assert Spaced(gaps[1..], words[1..]);
      GlueEnds(gaps[1..], words[1..]);
    }
  }

  /** A line made of a tag, words with gaps and blanks at the end is read as that
      tag and those words. */
  lemma LineRead(tag: string, gaps: seq<string>, words: seq<string>, trail: string)
    requires Solid(tag) && Spaced(gaps, words) && Blanks(trail)
    ensures var s := Strip(tag + Glue(gaps, words) + trail);
      s != "" && Tag(s) == tag && Split(Rest(s)) == words
  {
    var glued := Glue(gaps, words);
    var body := tag + glued;
    assert body[0] == tag[0] && (body + trail)[0] == tag[0];
    assert StripLeft(body + trail) == body + trail;
    if words == [] {
      assert body == tag;
    } else {
      GlueEnds(gaps, words);
      assert body[|body|-1] == glued[|glued|-1];
    }
    StripRightEnd(body, trail);
    assert Strip(body + trail) == body;
    BlankAfter(tag, glued);
    if words == [] {
      assert BlankAt(body) == |body|;
      assert Rest(body) == "";
      assert body[..|body|] == tag;
    } else {
      TailOpens(gaps, words, "");
      assert glued + "" == glued;
      var g := gaps[0];
      assert glued[0] == g[0];
      assert BlankAt(body) == |tag| && body[..|tag|] == tag;
      assert Rest(body) == glued[1..];
      SplitGlued(gaps, words, "");
      assert Split(glued) == Split(glued[1..]);
    }
  }

  lemma BlankAfter(tag: string, glued: string)
    requires Solid(tag) && (glued == "" || glued[0] == ' ')
    ensures BlankAt(tag + glued) == |tag|
  {
    var s, n := tag + glued, BlankAt(tag + glued);
    forall i | 0 <= i < |tag| ensures s[i] != ' ' {}
    assert glued != "" ==> s[|tag|] == glued[0];
  }
}
