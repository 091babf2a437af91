/** Whatever the machine accepts is a sentence of the grammar, with its tree.

    The stack is shadowed by `Item`s: an expression token is replaced by the
    derivation it stands for.  `Inv` constrains windows of at most four items
    and is kept by every reduction; the yields of stack and input token always
    spell exactly the tokens read so far. */
module ExprSoundness {
  import opened Options
  import opened ExprSyntax
  import opened ExprMachine
  import opened ExprCompleteness

  datatype Item = Tok(t: Token) | Ex(c: Cst)

  function Conc(x: Item): Token {
    match x
    case Tok(t) => t
    case Ex(c) => Expr(Ast(c))
  }

  function ConcAll(items: seq<Item>): (st: Stack)
    ensures |st| == |items|
  {
    seq(|items|, i requires 0 <= i < |items| => Conc(items[i]))
  }

  function ItemYield(x: Item): seq<Token> {
    match x
    case Tok(t) => if t.TopStk? then [] else [t]
    case Ex(c) => Yield(c)
  }

  function YieldAll(items: seq<Item>): seq<Token> {
    if items == [] then [] else YieldAll(items[..|items|-1]) + ItemYield(items[|items|-1])
  }

  // ------------------------------------------------------ window invariants

  predicate ItemOk(x: Item) {
    match x
    case Tok(t) => IsLexical(t) || t.TopStk? || t.Eoi?
    case Ex(c) => WF(c)
  }

  predicate Pair(x: Item, y: Item) {
    && (x.Ex? && y.Tok? && y.t.Op2? ==> Level(x.c) <= 3)
    && (x.Ex? && y.Tok? && (y.t.Op3? || y.t.Com?) ==> Level(x.c) <= 2)
    && (x.Tok? && x.t.Com? && y.Ex? ==> !LeadSign(y.c))
  }

  predicate Triple(x: Item, y: Item, z: Item) {
    && (x.Ex? && y.Tok? && IsBinaryOp(y.t) && z.Ex? ==> !y.t.Op3? && Level(z.c) < OpLevel(y.t))
    && (x.Tok? && BeforeSign(x.t) && y.Tok? && y.t.Op1? ==> z.Tok?)
  }

  predicate Quad(w: Item, x: Item, y: Item, z: Item) {
    w.Ex? && x.Tok? && (x.t.Op1? || x.t.Op2?) && y.Ex? && z.Tok? ==>
      !z.t.Op1? && (x.t.Op2? ==> !z.t.Op2?)
  }

  predicate Window(s: seq<Item>, i: nat)
    requires i < |s|
  {
    && ItemOk(s[i])
    && (i + 1 < |s| ==> Pair(s[i], s[i+1]))
    && (i + 2 < |s| ==> Triple(s[i], s[i+1], s[i+2]))
    && (i + 3 < |s| ==> Quad(s[i], s[i+1], s[i+2], s[i+3]))
  }

  ghost predicate Inv(s: seq<Item>) {
    && StackOk(ConcAll(s))
    && forall i :: 0 <= i < |s| ==> Window(s, i)
  }

  /** `y` may be pushed: every window it completes is fine. */
  predicate Fits(s: seq<Item>, y: Item) {
    var n := |s|;
    && ItemOk(y)
    && (n >= 1 ==> Pair(s[n-1], y))
    && (n >= 2 ==> Triple(s[n-2], s[n-1], y))
    && (n >= 3 ==> Quad(s[n-3], s[n-2], s[n-1], y))
  }

  lemma InvPush(s: seq<Item>, y: Item)
    requires Inv(s) && Fits(s, y) && !Conc(y).TopStk?
    ensures Inv(s + [y])
  {
    var s' := s + [y];
    assert ConcAll(s') == ConcAll(s) + [Conc(y)];
    forall i | 0 <= i < |s'| ensures Window(s', i) {
      if i < |s| { assert Window(s, i); }
    }
  }

  lemma InvPrefix(s: seq<Item>, k: nat)
    requires Inv(s) && 0 < k <= |s|
    ensures Inv(s[..k]) && ConcAll(s[..k]) == ConcAll(s)[..k]
  {
    assert ConcAll(s[..k]) == ConcAll(s)[..k];
    forall i | 0 <= i < k ensures Window(s[..k], i) {
      assert Window(s, i);
    }
  }

  /** What holds of the input token while it is being reduced. */
  predicate InputOk(s: seq<Item>, x: Item)
    requires |s| > 0
  {
    var n := |s|;
    && ItemOk(x) && !Conc(x).TopStk?
    && (x.Tok? ==> Pair(s[n-1], x))
    && (x.Ex? ==>
          && Level(x.c) <= 2
          && (s[n-1] == Tok(Com) ==> !LeadSign(x.c))
          && (Level(x.c) == 2 ==> Quiet(ConcAll(s))))
  }

  // -------------------------------------------------------- one reduction

  lemma YieldAllPush(s: seq<Item>, y: Item)
    ensures YieldAll(s + [y]) == YieldAll(s) + ItemYield(y)
  {
    assert (s + [y])[..|s|] == s;
  }

  lemma Concat3(y: seq<Token>, a: seq<Token>, b: seq<Token>)
    ensures y + (a + b) == y + a + b
  {
  }

  lemma Concat4(y: seq<Token>, a: seq<Token>, b: seq<Token>, c: seq<Token>)
    ensures y + (a + b + c) == y + a + b + c
  {
  }

  lemma YieldAllPush2(s: seq<Item>, a: Item, b: Item)
    ensures YieldAll(s + [a, b]) == YieldAll(s) + ItemYield(a) + ItemYield(b)
  {
    YieldAllPush(s, a);
    YieldAllPush(s + [a], b);
    assert s + [a] + [b] == s + [a, b];
  }

  lemma YieldAllPush3(s: seq<Item>, a: Item, b: Item, c: Item)
    ensures YieldAll(s + [a, b, c]) == YieldAll(s) + ItemYield(a) + ItemYield(b) + ItemYield(c)
  {
    YieldAllPush2(s, a, b);
    YieldAllPush(s + [a, b], c);
    assert s + [a, b] + [c] == s + [a, b, c];
  }

  /** Expression tokens on the stack are exactly the shadowed derivations. */
  lemma Shape(s: seq<Item>, i: int)
    requires Inv(s) && 0 <= i < |s|
    ensures Conc(s[i]).Expr? <==> s[i].Ex?
  {
    assert Window(s, i);
  }

  ghost predicate StepOk(s: seq<Item>, x: Item, s': seq<Item>, x': Item)
    requires |s| > 0
  {
    && Inv(s') && InputOk(s', x')
    && Reduce(ConcAll(s), Conc(x)) == Some((ConcAll(s'), Conc(x')))
    && YieldAll(s') + ItemYield(x') == YieldAll(s) + ItemYield(x)
  }

  lemma LeafStep(s: seq<Item>, x: Item) returns (x': Item)
    requires Inv(s) && InputOk(s, x) && x.Tok? && IsLeafToken(x.t)
    ensures StepOk(s, x, s, x')
  {
    x' := Ex(Leaf(x.t));
  }

  lemma SignItemStep(s: seq<Item>, x: Item) returns (s': seq<Item>, x': Item)
    requires Inv(s) && InputOk(s, x) && x.Ex? && |s| > 1
    requires Conc(s[|s|-1]).Op1? && BeforeSign(Conc(s[|s|-2]))
    ensures StepOk(s, x, s', x')
  {
    var n := |s|;
    assert Window(s, n-1) && Window(s, n-2);
    InvPrefix(s, n-1);
    s', x' := s[..n-1], Ex(Sign(s[n-1].t, x.c));
    Concat3(YieldAll(s'), [s[n-1].t], Yield(x.c));
  }

  lemma LastTwo(s: seq<Item>, n: nat)
    requires n == |s| > 1
    ensures YieldAll(s) == YieldAll(s[..n-2]) + ItemYield(s[n-2]) + ItemYield(s[n-1])
  {
    assert s[..n-1][..n-2] == s[..n-2];
  }

  lemma PowItemStep(s: seq<Item>, x: Item) returns (s': seq<Item>, x': Item)
    requires Inv(s) && InputOk(s, x) && x.Ex? && |s| > 1
    requires Conc(s[|s|-1]).Op3? && Conc(s[|s|-2]).Expr?
    ensures StepOk(s, x, s', x')
  {
    var n := |s|;
    assert Window(s, n-1) && Window(s, n-2);
    InvPrefix(s, n-2);
    s', x' := s[..n-2], Ex(Bin(s[n-2].c, s[n-1].t, x.c));
    LastTwo(s, n);
    Concat4(YieldAll(s'), Yield(s[n-2].c), [s[n-1].t], Yield(x.c));
    PowItemFits(s, n, x.c);
  }

  lemma PowItemFits(s: seq<Item>, n: nat, c: Cst)
    requires Inv(s) && n == |s| > 2 && InputOk(s, Ex(c)) && s[n-2].Ex? && s[n-1].Tok? && s[n-1].t.Op3?
    ensures InputOk(s[..n-2], Ex(Bin(s[n-2].c, s[n-1].t, c)))
  {
    assert Window(s, n-1) && Window(s, n-2) && Window(s, n-3);
    if n > 3 { assert Window(s, n-4); }
  }

  lemma BinItemFits(s: seq<Item>, x: Token) returns (c: Cst)
    requires Inv(s) && |s| > 3
    requires var n := |s|; s[n-1].Ex? && s[n-3].Ex? && s[n-2].Tok? && (s[n-2].t.Op1? || s[n-2].t.Op2?)
    requires x.RPar? || x.Eoi? || x.Op1? || (x.Op2? && s[|s|-2].t.Op2?)
    ensures c == Bin(s[|s|-3].c, s[|s|-2].t, s[|s|-1].c)
    ensures Fits(s[..|s|-3], Ex(c))
  {
    var n := |s|;
    assert Window(s, n-1) && Window(s, n-2) && Window(s, n-3) && Window(s, n-4);
    if n > 4 { assert Window(s, n-5); }
    c := Bin(s[n-3].c, s[n-2].t, s[n-1].c);
  }

  lemma BinItemYield(s: seq<Item>, a: Cst, op: Token, b: Cst)
    requires IsBinaryOp(op)
    ensures YieldAll(s + [Ex(a), Tok(op), Ex(b)]) == YieldAll(s + [Ex(Bin(a, op, b))])
  {
    YieldAllPush(s, Ex(Bin(a, op, b)));
    YieldAllPush3(s, Ex(a), Tok(op), Ex(b));
    Concat4(YieldAll(s), Yield(a), [op], Yield(b));
  }

  lemma BinItemStep(s: seq<Item>, x: Item) returns (s': seq<Item>)
    requires Inv(s) && InputOk(s, x) && |s| > 3
    requires var n := |s|; s[n-1].Ex? && s[n-3].Ex? && s[n-2].Tok? && (s[n-2].t.Op1? || s[n-2].t.Op2?)
    requires x.Tok? && (x.t.RPar? || x.t.Eoi? || x.t.Op1? || (x.t.Op2? && s[|s|-2].t.Op2?))
    ensures StepOk(s, x, s', x)
  {
    var n := |s|;
    var base := s[..n-3];
    var c := BinItemFits(s, x.t);
    InvPrefix(s, n-3);
    InvPush(base, Ex(c));
    s' := base + [Ex(c)];
    assert Reduce(ConcAll(s), x.t) == Some((ConcAll(s'), x.t)) by {
      Shape(s, n-1); Shape(s, n-3);
      assert ConcAll(s') == ConcAll(s)[..n-3] + [Expr(Ast(c))];
    }
    assert YieldAll(s') == YieldAll(s) by {
      assert s == base + [Ex(c.l), Tok(c.op), Ex(c.r)];
      BinItemYield(base, c.l, c.op, c.r);
    }
  }

  lemma ParenYield(s: seq<Item>, a: Cst)
    ensures YieldAll(s + [Tok(LPar), Ex(a)]) + [RPar] == YieldAll(s) + Yield(Paren(a))
  {
    YieldAllPush2(s, Tok(LPar), Ex(a));
    Concat4(YieldAll(s), [LPar], Yield(a), [RPar]);
  }

  lemma Call1Yield(s: seq<Item>, f: Token, a: Cst)
    requires IsFunction(f)
    ensures YieldAll(s + [Tok(f), Tok(LPar), Ex(a)]) + [RPar] == YieldAll(s) + Yield(Call1(f, a))
  {
    YieldAllPush3(s, Tok(f), Tok(LPar), Ex(a));
    Concat3(YieldAll(s), [f], [LPar]);
    assert [f] + [LPar] == [f, LPar];
    Concat4(YieldAll(s), [f, LPar], Yield(a), [RPar]);
  }

  lemma Call2Yield(s: seq<Item>, f: Token, a: Cst, b: Cst)
    requires IsFunction(f)
    ensures YieldAll(s + [Tok(f), Tok(LPar)] + [Ex(a), Tok(Com), Ex(b)]) + [RPar]
         == YieldAll(s) + Yield(Call2(f, a, b))
  {
    var head, y, ya, yb := s + [Tok(f), Tok(LPar)], YieldAll(s), Yield(a), Yield(b);
    YieldAllPush2(s, Tok(f), Tok(LPar));
    Concat3(y, [f], [LPar]);
    assert [f] + [LPar] == [f, LPar];
    YieldAllPush3(head, Ex(a), Tok(Com), Ex(b));
    Concat4(y, [f, LPar], ya, [Com]);
    Concat4(y, [f, LPar] + ya + [Com], yb, [RPar]);
  }

  lemma ParenItemStep(s: seq<Item>) returns (s': seq<Item>, x': Item)
    requires Inv(s) && |s| > 2
    requires var n := |s|; s[n-1].Ex? && s[n-2] == Tok(LPar) && !IsFunction(Conc(s[n-3]))
    ensures StepOk(s, Tok(RPar), s', x')
  {
    var n := |s|;
    assert Window(s, n-1);
    InvPrefix(s, n-2);
    s', x' := s[..n-2], Ex(Paren(s[n-1].c));
    assert s == s' + [Tok(LPar), Ex(s[n-1].c)];
    ParenYield(s', s[n-1].c);
  }

  lemma Call1ItemStep(s: seq<Item>) returns (s': seq<Item>, x': Item)
    requires Inv(s) && |s| > 3
    requires var n := |s|; s[n-1].Ex? && s[n-2] == Tok(LPar) && IsFunction(Conc(s[n-3]))
    ensures StepOk(s, Tok(RPar), s', x')
  {
    var n := |s|;
    assert Window(s, n-1) && Window(s, n-3);
    InvPrefix(s, n-3);
    s', x' := s[..n-3], Ex(Call1(s[n-3].t, s[n-1].c));
    assert YieldAll(s') + ItemYield(x') == YieldAll(s) + [RPar] by {
      assert s == s' + [Tok(s[n-3].t), Tok(LPar), Ex(s[n-1].c)];
      Call1Yield(s', s[n-3].t, s[n-1].c);
    }
  }

  lemma Call2ItemStep(s: seq<Item>) returns (s': seq<Item>, x': Item)
    requires Inv(s) && |s| > 5
    requires var n := |s|; s[n-1].Ex? && s[n-2] == Tok(Com) && s[n-3].Ex? && s[n-4] == Tok(LPar)
                           && IsFunction(Conc(s[n-5]))
    ensures StepOk(s, Tok(RPar), s', x')
  {
    var n := |s|;
    assert Window(s, n-1) && Window(s, n-2) && Window(s, n-3) && Window(s, n-5);
    InvPrefix(s, n-5);
    s', x' := s[..n-5], Ex(Call2(s[n-5].t, s[n-3].c, s[n-1].c));
    Call2Parts(s, n);
    Call2Reduces(s, n);
    Call2Yield(s', s[n-5].t, s[n-3].c, s[n-1].c);
  }

  lemma Call2Reduces(s: seq<Item>, n: nat)
    requires Inv(s) && n == |s| > 5 && s[n-1].Ex? && s[n-2] == Tok(Com) && s[n-3].Ex? && s[n-4] == Tok(LPar)
    requires IsFunction(Conc(s[n-5])) && s[n-5].Tok?
    ensures Reduce(ConcAll(s), RPar) == Some((ConcAll(s)[..n-5], Conc(Ex(Call2(s[n-5].t, s[n-3].c, s[n-1].c)))))
  {
  }

  lemma Call2Parts(s: seq<Item>, n: nat)
    requires n == |s| > 5 && s[n-1].Ex? && s[n-2] == Tok(Com) && s[n-3].Ex? && s[n-4] == Tok(LPar) && s[n-5].Tok?
    ensures s == s[..n-5] + [Tok(s[n-5].t), Tok(LPar)] + [Ex(s[n-3].c), Tok(Com), Ex(s[n-1].c)]
  {
  }

  /** Every reduction keeps the window invariant and the tokens spelled. */
  lemma ReduceSound(s: seq<Item>, x: Item) returns (s': seq<Item>, x': Item)
    requires Inv(s) && InputOk(s, x)
    requires Reduce(ConcAll(s), Conc(x)).Some?
    ensures StepOk(s, x, s', x')
  {
    var n := |s|;
    var top := s[n-1];
    assert StackOk(ConcAll(s));
    Shape(s, n-1);
    if n > 1 { Shape(s, n-2); }
    if n > 2 { Shape(s, n-3); }
    s', x' := s, x;
    if x.Ex? {
      if Conc(top).Op1? {
        s', x' := SignItemStep(s, x);
      } else {
        s', x' := PowItemStep(s, x);
      }
    } else if IsLeafToken(x.t) {
      x' := LeafStep(s, x);
    } else if Conc(s[n-2]).Op1? || Conc(s[n-2]).Op2? {
      s' := BinItemStep(s, x);
    } else if Conc(s[n-2]).Com? {
      s', x' := Call2ItemStep(s);
    } else if IsFunction(Conc(s[n-3])) {
      s', x' := Call1ItemStep(s);
    } else {
      s', x' := ParenItemStep(s);
    }
  }

  // -------------------------------------------------------------- whole runs

  /** At the start of a driver turn an expression on top is a power or tighter. */
  predicate TopTight(s: seq<Item>)
    requires |s| > 0
  {
    s[|s|-1].Ex? ==> Level(s[|s|-1].c) <= 2
  }

  lemma {:induction false} FeedSound(s: seq<Item>, x: Item) returns (s': seq<Item>)
    requires Inv(s) && InputOk(s, x)
    ensures Inv(s') && TopTight(s')
    ensures Feed(ConcAll(s), Conc(x)) == ConcAll(s')
    ensures YieldAll(s') == YieldAll(s) + ItemYield(x)
    decreases |s|, if x.Ex? then 0 else 1
  {
    if Reduce(ConcAll(s), Conc(x)).None? {
      s' := s + [x];
      assert Fits(s, x);
      InvPush(s, x);
      YieldAllPush(s, x);
      assert ConcAll(s') == ConcAll(s) + [Conc(x)];
    } else {
      var s1, x1 := ReduceSound(s, x);
      FeedStep(ConcAll(s), Conc(x), ConcAll(s1), Conc(x1));
      s' := FeedSound(s1, x1);
    }
  }

  lemma {:induction false} RunSound(s: seq<Item>, toks: seq<Token>) returns (s': seq<Item>)
    requires Inv(s) && TopTight(s)
    requires forall t <- toks :: IsLexical(t) || t.Eoi?
    ensures NoBottom(toks)
    ensures Inv(s') && ConcAll(s') == Run(ConcAll(s), toks)
    ensures YieldAll(s') == YieldAll(s) + toks
    decreases |toks|
  {
    if toks == [] {
      s' := s;
    } else {
      var rest := toks[1..];
      assert toks[0] in toks;
      assert InputOk(s, Tok(toks[0]));
      var s1 := FeedSound(s, Tok(toks[0]));
      s' := RunSound(s1, rest);
      Concat3(YieldAll(s), [toks[0]], rest);
      assert [toks[0]] + rest == toks;
    }
  }

  /** An accepting stack holds one derivation that spells the whole input. */
  lemma AcceptedYield(s: seq<Item>, toks: seq<Token>) returns (c: Cst)
    requires Inv(s) && YieldAll(s) == toks + [Eoi] && Accept(ConcAll(s)).Some?
    ensures WF(c) && Yield(c) == toks && Accept(ConcAll(s)) == Some(Ast(c))
  {
    Shape(s, 1);
    assert Window(s, 1);
    c := s[1].c;
    assert s == [] + [s[0], s[1], s[2]];
    YieldAllPush3([], s[0], s[1], s[2]);
    SameFront(toks, Yield(c), Eoi);
  }

  lemma SameFront(a: seq<Token>, b: seq<Token>, t: Token)
    requires a + [t] == b + [t]
    ensures a == b
  {
    assert |a + [t]| == |b + [t]|;
    assert (a + [t])[..|a|] == a && (b + [t])[..|b|] == b;
  }

  /** Soundness: an accepted token sequence is a sentence with that tree. */
  lemma ParserIsSound(toks: seq<Token>) returns (c: Cst)
    requires AllLexical(toks) && Parse(toks).Some?
    ensures WF(c) && Yield(c) == toks && Parse(toks) == Some(Ast(c))
  {
    var s0 := [Tok(TopStk)];
    assert ConcAll(s0) == [TopStk];
    YieldAllPush([], s0[0]);
    assert Inv(s0);
    var s := RunSound(s0, toks + [Eoi]);
    c := AcceptedYield(s, toks);
  }
}
