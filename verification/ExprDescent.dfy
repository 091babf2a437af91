/** Recursive descent over the tokens, by the precedence of the stratified grammar:
    what it makes of a sentence is up to an algebra. */
module ExprDescent {
  import opened Options
  import opened ExprSyntax

  /** What to make of each form of sentence. */
  datatype Algebra<!A> = Algebra(
    leaf: Token -> A,
    paren: A -> A,
    call1: (Token, A) -> A,
    call2: (Token, A, A) -> A,
    sign: (Token, A) -> A,
    bare: (Token, A) -> A,
    bin: (A, Token, A) -> A)

  function Made<A>(alg: Algebra<A>, c: Cst): A {
    match c
    case Leaf(t) => alg.leaf(t)
    case Paren(s) => alg.paren(Made(alg, s))
    case Call1(f, a) => alg.call1(f, Made(alg, a))
    case Call2(f, a, b) => alg.call2(f, Made(alg, a), Made(alg, b))
    case Sign(op, u) => alg.sign(op, Made(alg, u))
    case Bare(f, u) => alg.bare(f, Made(alg, u))
    case Bin(l, op, r) => alg.bin(Made(alg, l), op, Made(alg, r))
  }

  /** What was made of a sentence, and the tokens still unread. */
  type Step<A> = Option<(A, seq<Token>)>

  function Atom<A>(alg: Algebra<A>, toks: seq<Token>): (s: Step<A>)
    ensures s.Some? ==> |s.value.1| < |toks|
    decreases |toks|, 0
  {
    if toks == [] then None
    else if IsLeafToken(toks[0]) then Some((alg.leaf(toks[0]), toks[1..]))
    else if toks[0].LPar? then
      var s := List(alg, toks[1..]);
      if s.Some? && s.value.1 != [] && s.value.1[0].RPar? then Some((alg.paren(s.value.0), s.value.1[1..])) else None
    else None
  }

  /** The arguments of a call, after its opening parenthesis. */
  function Arguments<A>(alg: Algebra<A>, f: Token, toks: seq<Token>): (s: Step<A>)
    ensures s.Some? ==> |s.value.1| < |toks|
    decreases |toks|, 9
  {
    var s := Sum(alg, toks);
    if s.None? || s.value.1 == [] then None
    else if s.value.1[0].RPar? then Some((alg.call1(f, s.value.0), s.value.1[1..]))
    else if s.value.1[0].Com? then LastArgument(alg, f, s.value.0, s.value.1[1..])
    else None
  }

  /** `v` was made of the arguments so far. */
  function LastArgument<A>(alg: Algebra<A>, f: Token, v: A, toks: seq<Token>): (s: Step<A>)
    ensures s.Some? ==> |s.value.1| < |toks|
    decreases |toks|, 9
  {
    var s := Sum(alg, toks);
    if s.None? || s.value.1 == [] then None
    else if s.value.1[0].RPar? then Some((alg.call2(f, v, s.value.0), s.value.1[1..]))
    else if s.value.1[0].Com? then LastArgument(alg, f, alg.bin(v, Com, s.value.0), s.value.1[1..])
    else None
  }

  function Unary<A>(alg: Algebra<A>, toks: seq<Token>): (s: Step<A>)
    ensures s.Some? ==> |s.value.1| < |toks|
    decreases |toks|, 1
  {
    if toks != [] && toks[0].Op1? then
      var s := Unary(alg, toks[1..]);
      if s.Some? then Some((alg.sign(toks[0], s.value.0), s.value.1)) else None
    else if |toks| > 1 && IsFunction(toks[0]) && toks[1].LPar? then Arguments(alg, toks[0], toks[2..])
    else if toks != [] && IsFunction(toks[0]) then
      var s := Unary(alg, toks[1..]);
      if s.Some? then Some((alg.bare(toks[0], s.value.0), s.value.1)) else None
    else Atom(alg, toks)
  }

  function Power<A>(alg: Algebra<A>, toks: seq<Token>): (s: Step<A>)
    ensures s.Some? ==> |s.value.1| < |toks|
    decreases |toks|, 2
  {
    var s := Unary(alg, toks);
    if s.Some? then PowerTail(alg, s.value.0, s.value.1) else None
  }

  function PowerTail<A>(alg: Algebra<A>, v: A, toks: seq<Token>): (s: Step<A>)
    ensures s.Some? ==> |s.value.1| <= |toks|
    decreases |toks|, 3
  {
    if toks != [] && toks[0].Op3? then
      var s := Unary(alg, toks[1..]);
      if s.Some? then PowerTail(alg, alg.bin(v, toks[0], s.value.0), s.value.1) else None
    else Some((v, toks))
  }

  function Product<A>(alg: Algebra<A>, toks: seq<Token>): (s: Step<A>)
    ensures s.Some? ==> |s.value.1| < |toks|
    decreases |toks|, 4
  {
    var s := Power(alg, toks);
    if s.Some? then ProductTail(alg, s.value.0, s.value.1) else None
  }

  function ProductTail<A>(alg: Algebra<A>, v: A, toks: seq<Token>): (s: Step<A>)
    ensures s.Some? ==> |s.value.1| <= |toks|
    decreases |toks|, 5
  {
    if toks != [] && toks[0].Op2? then
      var s := Power(alg, toks[1..]);
      if s.Some? then ProductTail(alg, alg.bin(v, toks[0], s.value.0), s.value.1) else None
    else Some((v, toks))
  }

  function Sum<A>(alg: Algebra<A>, toks: seq<Token>): (s: Step<A>)
    ensures s.Some? ==> |s.value.1| < |toks|
    decreases |toks|, 6
  {
    var s := Product(alg, toks);
    if s.Some? then SumTail(alg, s.value.0, s.value.1) else None
  }

  function SumTail<A>(alg: Algebra<A>, v: A, toks: seq<Token>): (s: Step<A>)
    ensures s.Some? ==> |s.value.1| <= |toks|
    decreases |toks|, 7
  {
    if toks != [] && toks[0].Op1? then
      var s := Product(alg, toks[1..]);
      if s.Some? then SumTail(alg, alg.bin(v, toks[0], s.value.0), s.value.1) else None
    else Some((v, toks))
  }

  function List<A>(alg: Algebra<A>, toks: seq<Token>): (s: Step<A>)
    ensures s.Some? ==> |s.value.1| < |toks|
    decreases |toks|, 8
  {
    var s := Sum(alg, toks);
    if s.Some? then ListTail(alg, s.value.0, s.value.1) else None
  }

  function ListTail<A>(alg: Algebra<A>, v: A, toks: seq<Token>): (s: Step<A>)
    ensures s.Some? ==> |s.value.1| <= |toks|
    decreases |toks|, 9
  {
    if toks != [] && toks[0].Com? then
      var s := Sum(alg, toks[1..]);
      if s.Some? then ListTail(alg, alg.bin(v, toks[0], s.value.0), s.value.1) else None
    else Some((v, toks))
  }

  // ----------------------------------------------- every sentence is read as built

  /** The next token does not continue a product. */
  predicate Stops(rest: seq<Token>) {
    rest != [] ==> !rest[0].Op2? && !rest[0].Op3?
  }

  /** An opening parenthesis starts exactly the sentences in parentheses. */
  lemma StartOf(c: Cst)
    requires Wide(c) && Level(c) <= 1
    ensures Yield(c)[0].LPar? <==> c.Paren?
  {
  }

  lemma {:induction false} UnaryReads<A>(alg: Algebra<A>, c: Cst, rest: seq<Token>)
    requires Wide(c) && Level(c) <= 1
    ensures Unary(alg, Yield(c) + rest) == Some((Made(alg, c), rest))
    decreases c, 1
  {
    match c
    case Leaf(t) =>
    case Sign(op, u) =>
      UnaryReads(alg, u, rest);
      Prefixed(alg, op, Yield(u), rest);
    case Bare(f, u) =>
      StartOf(u);
      UnaryReads(alg, u, rest);
      Prefixed(alg, f, Yield(u), rest);
    case Paren(s) =>
      var after := Yield(s) + ([RPar] + rest);
      assert Yield(c) + rest == [LPar] + after;
      ListReads(alg, s, [RPar] + rest);
      ParenAtom(alg, after, Made(alg, s), rest);
    case Call1(f, a) =>
      var after := Yield(a) + ([RPar] + rest);
      assert Yield(c) + rest == [f, LPar] + after;
      CallAtom(alg, f, after);
      BracketReads(alg, a, RPar, rest);
    case Call2(f, a, b) =>
      Call2Reads(alg, f, a, b, rest);
  }

  lemma {:induction false} Call2Reads<A>(alg: Algebra<A>, f: Token, a: Cst, b: Cst, rest: seq<Token>)
    requires Wide(Call2(f, a, b))
    ensures Unary(alg, Yield(Call2(f, a, b)) + rest) == Some((Made(alg, Call2(f, a, b)), rest))
    decreases Call2(f, a, b), 0
  {
    var tail := Yield(b) + ([RPar] + rest);
    var after := Yield(a) + ([Com] + tail);
    assert Yield(Call2(f, a, b)) + rest == [f, LPar] + after;
    CallAtom(alg, f, after);
    ArgumentsRead(alg, f, a, tail);
    BracketReads(alg, b, RPar, rest);
  }

  lemma Prefixed<A>(alg: Algebra<A>, t: Token, u: seq<Token>, rest: seq<Token>)
    requires t.Op1? || (IsFunction(t) && u != [] && !u[0].LPar?)
    requires Unary(alg, u + rest).Some?
    ensures var r := Unary(alg, u + rest).value;
      Unary(alg, [t] + u + rest) == Some((if t.Op1? then alg.sign(t, r.0) else alg.bare(t, r.0), r.1))
  {
    assert ([t] + u + rest)[1..] == u + rest;
  }

  lemma CallAtom<A>(alg: Algebra<A>, f: Token, after: seq<Token>)
    requires IsFunction(f)
    ensures Unary(alg, [f, LPar] + after) == Arguments(alg, f, after)
  {
    assert ([f, LPar] + after)[2..] == after;
  }

  lemma ParenAtom<A>(alg: Algebra<A>, after: seq<Token>, v: A, rest: seq<Token>)
    requires List(alg, after) == Some((v, [RPar] + rest))
    ensures Unary(alg, [LPar] + after) == Some((alg.paren(v), rest))
  {
    assert ([LPar] + after)[1..] == after;
  }

  /** All arguments up to a comma are read before the one after it. */
  lemma {:induction false} ArgumentsRead<A>(alg: Algebra<A>, f: Token, a: Cst, tail: seq<Token>)
    requires Wide(a)
    ensures Arguments(alg, f, Yield(a) + ([Com] + tail)) == LastArgument(alg, f, Made(alg, a), tail)
    decreases a, 6
  {
    if Level(a) <= 4 {
      BracketReads(alg, a, Com, tail);
    } else {
      YieldOfBin(a, [Com] + tail);
      ArgumentsRead(alg, f, a.l, Yield(a.r) + ([Com] + tail));
      BracketReads(alg, a.r, Com, tail);
    }
  }

  lemma {:induction false} BracketReads<A>(alg: Algebra<A>, c: Cst, close: Token, rest: seq<Token>)
    requires Wide(c) && Level(c) <= 4 && !IsBinaryOp(close)
    ensures Sum(alg, Yield(c) + ([close] + rest)) == Some((Made(alg, c), [close] + rest))
    ensures ([close] + rest)[1..] == rest
    decreases c, 5
  {
    SumReads(alg, c, [close] + rest);
  }

  lemma YieldOfBin(c: Cst, rest: seq<Token>)
    requires c.Bin?
    ensures Yield(c) + rest == Yield(c.l) + ([c.op] + (Yield(c.r) + rest))
    ensures ([c.op] + (Yield(c.r) + rest))[1..] == Yield(c.r) + rest
  {
  }

  lemma {:induction false} PowerReads<A>(alg: Algebra<A>, c: Cst, rest: seq<Token>)
    requires Wide(c) && Level(c) <= 2
    ensures Power(alg, Yield(c) + rest) == PowerTail(alg, Made(alg, c), rest)
    decreases c, 2
  {
    if Level(c) <= 1 {
      UnaryReads(alg, c, rest);
    } else {
      var after := [c.op] + (Yield(c.r) + rest);
      YieldOfBin(c, rest);
      PowerReads(alg, c.l, after);
      UnaryReads(alg, c.r, rest);
    }
  }

  lemma {:induction false} ProductReads<A>(alg: Algebra<A>, c: Cst, rest: seq<Token>)
    requires Wide(c) && Level(c) <= 3 && (rest != [] ==> !rest[0].Op3?)
    ensures Product(alg, Yield(c) + rest) == ProductTail(alg, Made(alg, c), rest)
    decreases c, 3
  {
    if Level(c) <= 2 {
      PowerReads(alg, c, rest);
    } else {
      var after := [c.op] + (Yield(c.r) + rest);
      YieldOfBin(c, rest);
      ProductReads(alg, c.l, after);
      PowerReads(alg, c.r, rest);
    }
  }

  lemma {:induction false} SumReads<A>(alg: Algebra<A>, c: Cst, rest: seq<Token>)
    requires Wide(c) && Level(c) <= 4 && Stops(rest)
    ensures Sum(alg, Yield(c) + rest) == SumTail(alg, Made(alg, c), rest)
    decreases c, 4
  {
    if Level(c) <= 3 {
      ProductReads(alg, c, rest);
    } else {
      var after := [c.op] + (Yield(c.r) + rest);
      YieldOfBin(c, rest);
      SumReads(alg, c.l, after);
      ProductReads(alg, c.r, rest);
    }
  }

  lemma {:induction false} ListReads<A>(alg: Algebra<A>, c: Cst, rest: seq<Token>)
    requires Wide(c) && (rest != [] ==> !IsBinaryOp(rest[0]))
    ensures List(alg, Yield(c) + rest) == ListTail(alg, Made(alg, c), rest)
    decreases c, 5
  {
    if Level(c) <= 4 {
      SumReads(alg, c, rest);
    } else {
      var after := [c.op] + (Yield(c.r) + rest);
      YieldOfBin(c, rest);
      ListReads(alg, c.l, after);
      SumReads(alg, c.r, rest);
    }
  }

  // --------------------------------------------------------------- one derivation

  /** The derivation itself. */
  function Derivation(): Algebra<Cst> {
    Algebra(t => Leaf(t), s => Paren(s), (f, a) => Call1(f, a), (f, a, b) => Call2(f, a, b),
            (op, u) => Sign(op, u), (f, u) => Bare(f, u), (l, op, r) => Bin(l, op, r))
  }

  lemma {:induction false} DerivationMadeIsItself(c: Cst)
    ensures Made(Derivation(), c) == c
  {
    match c
    case Leaf(_) =>
    case Paren(s) => DerivationMadeIsItself(s);
    case Call1(_, a) => DerivationMadeIsItself(a);
    case Call2(_, a, b) => DerivationMadeIsItself(a); DerivationMadeIsItself(b);
    case Sign(_, u) => DerivationMadeIsItself(u);
    case Bare(_, u) => DerivationMadeIsItself(u);
    case Bin(l, _, r) => DerivationMadeIsItself(l); DerivationMadeIsItself(r);
  }

  /** The promised grammar, functions without parentheses and calls of any
      arguments included, gives every sentence one derivation. */
  lemma OneDerivation(c: Cst, d: Cst)
    requires Wide(c) && Wide(d) && Yield(c) == Yield(d)
    ensures c == d
  {
    ListReads(Derivation(), c, []);
    ListReads(Derivation(), d, []);
    assert Yield(c) + [] == Yield(d) + [];
    DerivationMadeIsItself(c);
    DerivationMadeIsItself(d);
  }
}
