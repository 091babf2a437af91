/** The grammar as the comments of reduce.c and parse.c write it, ambiguous, and what
    the parser accepts of it. */
module ExprComment {
  import opened Options
  import opened ExprSyntax
  import opened ExprMachine
  import opened ExprSoundness
  import opened ExprParser

  /** One constructor a line of the comments, with `^` beside the other binary
      operators.  The line for two headed functions is a function applied to a
      comma expression in parentheses. */
  datatype Phrase =
    | Single(tok: Token)
    | Bracket(inner: Phrase)
    | Applied(f: Token, operand: Phrase)
    | Signed(op: Token, operand: Phrase)
    | Two(l: Phrase, op: Token, r: Phrase)

  predicate IsInfix(op: Token) {
    IsLexical(op) && (IsBinaryOp(op) || op.Com?)
  }

  predicate Legal(p: Phrase) {
    match p
    case Single(t) => IsLexical(t) && IsLeafToken(t)
    case Bracket(q) => Legal(q)
    case Applied(f, q) => IsFunction(f) && Legal(q)
    case Signed(op, q) => IsLexical(op) && op.Op1? && Legal(q)
    case Two(l, op, r) => IsInfix(op) && Legal(l) && Legal(r)
  }

  function Tokens(p: Phrase): seq<Token> {
    match p
    case Single(t) => [t]
    case Bracket(q) => [LPar] + Tokens(q) + [RPar]
    case Applied(f, q) => [f] + Tokens(q)
    case Signed(op, q) => [op] + Tokens(q)
    case Two(l, op, r) => Tokens(l) + [op] + Tokens(r)
  }

  // ------------------------------------------ from phrases to derivations

  /** `op` and one more operand after a sentence. */
  function Append(c: Cst, op: Token, u: Cst): (r: Cst)
    requires Wide(c) && IsInfix(op) && Wide(u) && Level(u) <= 1
    ensures Wide(r) && Yield(r) == Yield(c) + [op] + Yield(u)
    ensures r.Bin? && Level(r) == if Level(c) <= OpLevel(op) then OpLevel(op) else Level(c)
  {
    if Level(c) <= OpLevel(op) then Bin(c, op, u)
    else
      Concat4(Yield(c.l) + [c.op], Yield(c.r), [op], Yield(u));
      Bin(c.l, c.op, Append(c.r, op, u))
  }

  /** Two sentences with `op` between them. */
  function Join(c: Cst, op: Token, d: Cst): (r: Cst)
    requires Wide(c) && IsInfix(op) && Wide(d)
    ensures Wide(r) && Yield(r) == Yield(c) + [op] + Yield(d)
    decreases d
  {
    if d.Bin? then
      Concat4(Yield(c) + [op], Yield(d.l), [d.op], Yield(d.r));
      Join(Join(c, op, d.l), d.op, d.r)
    else Append(c, op, d)
  }

  lemma CallOfList(f: Token, a: Cst, b: Cst)
    ensures Yield(Call2(f, a, b)) == [f] + ([LPar] + (Yield(a) + [Com] + Yield(b)) + [RPar])
    ensures Yield(Paren(Bin(a, Com, b))) == [LPar] + (Yield(a) + [Com] + Yield(b)) + [RPar]
  {
    assert Yield(Bin(a, Com, b)) == Yield(a) + [Com] + Yield(b);
  }

  /** A function in front of a sentence in parentheses. */
  function Call(f: Token, s: Cst): (r: Cst)
    requires Wide(s) && IsFunction(f)
    ensures Wide(r) && Level(r) == 0 && Yield(r) == [f] + Yield(Paren(s))
  {
    if Level(s) <= 4 then Call1(f, s)
    else
      CallOfList(f, s.l, s.r);
      Call2(f, s.l, s.r)
  }

  /** A sign or a function in front binds to the first operand. */
  function Prefix(t: Token, c: Cst): (r: Cst)
    requires Wide(c) && ((IsLexical(t) && t.Op1?) || IsFunction(t))
    ensures Wide(r) && Yield(r) == [t] + Yield(c)
    ensures if c.Bin? then r.Bin? && Level(r) == Level(c) else Level(r) <= 1
  {
    if c.Bin? then
      Concat4([t], Yield(c.l), [c.op], Yield(c.r));
      Bin(Prefix(t, c.l), c.op, c.r)
    else if t.Op1? then Sign(t, c)
    else if c.Paren? then Call(t, c.inner)
    else Bare(t, c)
  }

  /** The derivation of a phrase. */
  function Derived(p: Phrase): (c: Cst)
    requires Legal(p)
    ensures Wide(c) && Yield(c) == Tokens(p)
  {
    match p
    case Single(t) => Leaf(t)
    case Bracket(q) => Paren(Derived(q))
    case Applied(f, q) => Prefix(f, Derived(q))
    case Signed(op, q) => Prefix(op, Derived(q))
    case Two(l, op, r) => Join(Derived(l), op, Derived(r))
  }

  /** The phrase of a derivation. */
  function PhraseOf(c: Cst): (p: Phrase)
    requires Wide(c)
    ensures Legal(p) && Tokens(p) == Yield(c)
  {
    match c
    case Leaf(t) => Single(t)
    case Paren(s) => Bracket(PhraseOf(s))
    case Call1(f, a) => Applied(f, Bracket(PhraseOf(a)))
    case Call2(f, a, b) =>
      CallOfList(f, a, b);
      var list := Two(PhraseOf(a), Com, PhraseOf(b));
      assert Tokens(Bracket(list)) == [LPar] + Tokens(list) + [RPar];
      Applied(f, Bracket(list))
    case Sign(op, u) => Signed(op, PhraseOf(u))
    case Bare(f, u) => Applied(f, PhraseOf(u))
    case Bin(l, op, r) => Two(PhraseOf(l), op, PhraseOf(r))
  }

  // ---------------------------------------------------------- main theorems

  /** The comments' grammar and the stratified one have the same sentences. */
  lemma SameSentences(toks: seq<Token>)
    ensures (exists p :: Legal(p) && Tokens(p) == toks) <==> (exists c :: Wide(c) && Yield(c) == toks)
  {
    if p :| Legal(p) && Tokens(p) == toks {
      assert Wide(Derived(p)) && Yield(Derived(p)) == toks;
    }
    if c :| Wide(c) && Yield(c) == toks {
      assert Tokens(PhraseOf(c)) == toks;
      assert exists p :: Legal(p) && Tokens(p) == toks;
    }
  }

  /** Whatever way the comments derive a sentence, it is accepted exactly if its
      derivation is narrow. */
  lemma CommentIsKeptExactlyWhen(p: Phrase)
    requires Legal(p)
    ensures AllLexical(Tokens(p)) && (Parse(Tokens(p)).Some? <==> Narrow(Derived(p)))
  {
    PromisedIsAcceptedExactlyWhen(Derived(p));
  }

  /** f 1 is a promised sentence and rejected. */
  lemma BareFunctionIsRejected(f: Token, one: Token)
    requires IsFunction(f) && one.RConst?
    ensures var p := Applied(f, Single(one));
      Legal(p) && Tokens(p) == [f, one] && Parse([f, one]).None?
  {
    CommentIsKeptExactlyWhen(Applied(f, Single(one)));
  }

  /** 1, 2 is a promised sentence and rejected. */
  lemma LooseCommaIsRejected(one: Token, two: Token)
    requires one.RConst? && two.RConst?
    ensures var p := Two(Single(one), Com, Single(two));
      Legal(p) && Tokens(p) == [one, Com, two] && Parse([one, Com, two]).None?
  {
    CommentIsKeptExactlyWhen(Two(Single(one), Com, Single(two)));
  }

  /** f(1 * 2, 3) is a promised sentence and rejected. */
  lemma ProductAsFirstArgumentIsRejected(f: Token, one: Token, two: Token, three: Token)
    requires IsFunction(f) && one.RConst? && two.RConst? && three.RConst?
    ensures var p := Applied(f, Bracket(Two(Two(Single(one), Op2('*'), Single(two)), Com, Single(three))));
      Legal(p) && Tokens(p) == [f, LPar, one, Op2('*'), two, Com, three, RPar] && Parse(Tokens(p)).None?
  {
    var product := Two(Single(one), Op2('*'), Single(two));
    assert Legal(Single(one)) && Legal(Single(two)) && Legal(product);
    assert Derived(product) == Bin(Leaf(one), Op2('*'), Leaf(two));
    var arguments := Two(product, Com, Single(three));
    assert Derived(arguments) == Bin(Derived(product), Com, Leaf(three));
    assert Legal(Bracket(arguments));
    CommentIsKeptExactlyWhen(Applied(f, Bracket(arguments)));
  }
}
