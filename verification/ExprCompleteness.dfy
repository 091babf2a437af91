/** Every sentence of the grammar is accepted, with its own tree. */
module ExprCompleteness {
  import opened Options
  import opened ExprSyntax
  import opened ExprMachine

  function Top(st: Stack): Token
    requires |st| > 0
  {
    st[|st|-1]
  }

  /** An operand may start on this stack; `lead` says it starts with a sign. */
  predicate OperandCtx(st: Stack, lead: bool) {
    StackOk(st) &&
    var t := Top(st);
    t.Op1? || t.Op2? || t.Op3? || t.TopStk? || t.LPar? || (t.Com? && !lead)
  }

  /** A finished expression on this stack is pushed, not reduced further. */
  predicate Quiet(st: Stack)
    requires |st| > 0
  {
    var n := |st|;
    && !(Top(st).Op1? && n > 1 && BeforeSign(st[n-2]))
    && !(Top(st).Op3? && n > 1 && st[n-2].Expr?)
  }

  /** A derivation of this level may start here and wait for its closing token. */
  predicate SumCtx(st: Stack, c: Cst) {
    && OperandCtx(st, LeadSign(c))
    && Quiet(st)
    && !Top(st).Op2? && !Top(st).Op3?
    && (Level(c) == 4 ==> !Top(st).Op1?)
  }

  /** What a derivation leaves on the stack before the next token reduces it. */
  function Pend(c: Cst): seq<Token> {
    if c.Bin? && c.op.Op2? then [Expr(Ast(c.l)), c.op, Expr(Ast(c.r))]
    else if c.Bin? && c.op.Op1? then [Expr(Ast(c.l)), c.op] + Pend(c.r)
    else [Expr(Ast(c))]
  }

  lemma FeedStep(st: Stack, inp: Token, st': Stack, inp': Token)
    requires StackOk(st) && !inp.TopStk?
    requires Reduce(st, inp) == Some((st', inp'))
    ensures StackOk(st') && !inp'.TopStk?
    ensures Feed(st, inp) == Feed(st', inp')
  {
    ReduceKeepsStackOk(st, inp);
  }

  lemma RunOne(st: Stack, t: Token)
    requires StackOk(st) && !t.TopStk?
    ensures Run(st, [t]) == Feed(st, t)
  {
    assert Run(Feed(st, t), [t][1..]) == Feed(st, t);
  }

  lemma YieldNoBottom(c: Cst)
    requires WF(c)
    ensures NoBottom(Yield(c))
  {
    WellFormedIsNarrow(c);
    YieldIsLexical(c);
  }

  /** A token that no rule looks at is pushed. */
  lemma FeedPush(st: Stack, t: Token)
    requires StackOk(st) && !t.TopStk? && Reduce(st, t).None?
    ensures Feed(st, t) == st + [t]
  {
  }

  /** Two summands or factors on top of the stack become one expression. */
  lemma BinStep(st: Stack, l: Tree, op: Token, r: Tree, inp: Token)
    requires StackOk(st) && !inp.TopStk?
    requires op.Op1? || op.Op2?
    requires inp.RPar? || inp.Eoi? || inp.Op1? || (inp.Op2? && op.Op2?)
    ensures StackOk(st + [Expr(l), op, Expr(r)]) && StackOk(st + [Expr(Node(op, l, r))])
    ensures Feed(st + [Expr(l), op, Expr(r)], inp) == Feed(st + [Expr(Node(op, l, r))], inp)
  {
    var s := st + [Expr(l), op, Expr(r)];
    assert s[..|st|] == st;
    assert Reduce(s, inp) == Some((st + [Expr(Node(op, l, r))], inp));
    FeedStep(s, inp, st + [Expr(Node(op, l, r))], inp);
  }

  lemma PowStep(st: Stack, l: Tree, op: Token, r: Tree)
    requires StackOk(st) && op.Op3?
    ensures StackOk(st + [Expr(l), op])
    ensures Feed(st + [Expr(l), op], Expr(r)) == Feed(st, Expr(Node(op, l, r)))
  {
    var s := st + [Expr(l), op];
    assert s[..|st|] == st;
    assert Reduce(s, Expr(r)) == Some((st, Expr(Node(op, l, r))));
    FeedStep(s, Expr(r), st, Expr(Node(op, l, r)));
  }

  lemma SignStep(st: Stack, op: Token, u: Tree)
    requires StackOk(st) && op.Op1? && BeforeSign(Top(st))
    ensures StackOk(st + [op])
    ensures Feed(st + [op], Expr(u)) == Feed(st, Expr(Node(op, Null, u)))
  {
    var s := st + [op];
    assert s[..|st|] == st;
    assert Reduce(s, Expr(u)) == Some((st, Expr(Node(op, Null, u))));
    FeedStep(s, Expr(u), st, Expr(Node(op, Null, u)));
  }

  lemma ParenStep(st: Stack, t: Tree)
    requires StackOk(st) && !IsFunction(Top(st))
    ensures StackOk(st + [LPar] + [Expr(t)])
    ensures Feed(st + [LPar] + [Expr(t)], RPar) == Feed(st, Expr(t))
  {
    var s := st + [LPar] + [Expr(t)];
    assert s[..|st|] == st;
    assert Reduce(s, RPar) == Some((st, Expr(t)));
    FeedStep(s, RPar, st, Expr(t));
  }

  lemma Call1Step(st: Stack, f: Token, t: Tree)
    requires StackOk(st) && IsFunction(f)
    ensures StackOk(st + [f, LPar] + [Expr(t)])
    ensures Feed(st + [f, LPar] + [Expr(t)], RPar) == Feed(st, Expr(Node(f, Null, t)))
  {
    var s := st + [f, LPar] + [Expr(t)];
    assert s[..|st|] == st;
    assert Reduce(s, RPar) == Some((st, Expr(Node(f, Null, t))));
    FeedStep(s, RPar, st, Expr(Node(f, Null, t)));
  }

  lemma Call2Step(st: Stack, f: Token, t: Tree, u: Tree)
    requires StackOk(st) && IsFunction(f)
    ensures StackOk(st + [f, LPar, Expr(t), Com] + [Expr(u)])
    ensures Feed(st + [f, LPar, Expr(t), Com] + [Expr(u)], RPar) == Feed(st, Expr(Node(f, t, u)))
  {
    var s := st + [f, LPar, Expr(t), Com] + [Expr(u)];
    assert s[..|st|] == st;
    assert Reduce(s, RPar) == Some((st, Expr(Node(f, t, u))));
    FeedStep(s, RPar, st, Expr(Node(f, t, u)));
  }

  /** `head` is pushed token by token, then the rest runs on top of it. */
  lemma RunHead(st: Stack, head: seq<Token>, rest: seq<Token>, all: seq<Token>)
    requires StackOk(st) && NoBottom(head) && NoBottom(rest) && all == head + rest
    requires Run(st, head) == st + head
    ensures NoBottom(all) && StackOk(st + head) && Run(st, all) == Run(st + head, rest)
  {
    RunAppend(st, head, rest);
  }

  /** An atom or a signed atom arrives at the stack as one expression token. */
  lemma {:induction false} UnaryRuns(st: Stack, c: Cst)
    requires WF(c) && Level(c) <= 1 && OperandCtx(st, LeadSign(c))
    ensures NoBottom(Yield(c))
    ensures Run(st, Yield(c)) == Feed(st, Expr(Ast(c)))
    decreases c, 1
  {
    YieldNoBottom(c);
    match c
    case Leaf(t) =>
      RunOne(st, t);
      FeedStep(st, t, st, Expr(Ast(c)));
    case Sign(op, u) =>
      FeedPush(st, op);
      RunOne(st, op);
      YieldNoBottom(u);
      RunHead(st, [op], Yield(u), Yield(c));
      UnaryRuns(st + [op], u);
      SignStep(st, op, Ast(u));
    case Paren(s) =>
      FeedPush(st, LPar);
      RunOne(st, LPar);
      BracketRuns(st + [LPar], s);
      assert Yield(c) == [LPar] + (Yield(s) + [RPar]);
      RunHead(st, [LPar], Yield(s) + [RPar], Yield(c));
      ParenStep(st, Ast(s));
    case Call1(f, a) =>
      PushCallHead(st, f);
      BracketRuns(st + [f, LPar], a);
      assert Yield(c) == [f, LPar] + (Yield(a) + [RPar]);
      RunHead(st, [f, LPar], Yield(a) + [RPar], Yield(c));
      Call1Step(st, f, Ast(a));
    case Call2(f, a, b) =>
      Call2Runs(st, f, a, b);
  }

  lemma {:induction false} Call2Runs(st: Stack, f: Token, a: Cst, b: Cst)
    requires var c := Call2(f, a, b); WF(c) && OperandCtx(st, false)
    ensures NoBottom(Yield(Call2(f, a, b)))
    ensures Run(st, Yield(Call2(f, a, b))) == Feed(st, Expr(Node(f, Ast(a), Ast(b))))
    decreases Call2(f, a, b), 0
  {
    var c := Call2(f, a, b);
    PushCallHead(st, f);
    PowerRuns(st + [f, LPar], a);
    var head := st + [f, LPar, Expr(Ast(a)), Com];
    var tail := Yield(b) + [RPar];
    BracketRuns(head, b);
    FirstArgument(st, f, a, tail);
    YieldOfCall2(f, a, b);
    Call2Step(st, f, Ast(a), Ast(b));
  }

  lemma YieldOfCall2(f: Token, a: Cst, b: Cst)
    ensures Yield(Call2(f, a, b)) == [f, LPar] + (Yield(a) + ([Com] + (Yield(b) + [RPar])))
  {
  }

  /** The first argument, once it is one expression, is closed by the comma. */
  lemma FirstArgument(st: Stack, f: Token, a: Cst, tail: seq<Token>)
    requires StackOk(st) && IsFunction(f) && WF(a) && NoBottom(tail)
    requires Run(st, [f, LPar]) == st + [f, LPar]
    requires StackOk(st + [f, LPar]) && NoBottom(Yield(a))
    requires Run(st + [f, LPar], Yield(a)) == st + [f, LPar] + [Expr(Ast(a))]
    ensures NoBottom([f, LPar] + (Yield(a) + ([Com] + tail)))
    ensures StackOk(st + [f, LPar, Expr(Ast(a)), Com])
    ensures Run(st, [f, LPar] + (Yield(a) + ([Com] + tail))) == Run(st + [f, LPar, Expr(Ast(a)), Com], tail)
  {
    var st1 := st + [f, LPar];
    var st2 := st1 + [Expr(Ast(a))];
    FeedPush(st2, Com);
    RunOne(st2, Com);
    assert st2 + [Com] == st + [f, LPar, Expr(Ast(a)), Com];
    RunAppend(st2, [Com], tail);
    RunAppend(st1, Yield(a), [Com] + tail);
    RunAppend(st, [f, LPar], Yield(a) + ([Com] + tail));
  }

  lemma PushCallHead(st: Stack, f: Token)
    requires StackOk(st) && IsFunction(f)
    ensures StackOk(st + [f, LPar])
    ensures Run(st, [f, LPar]) == st + [f, LPar]
  {
    FeedPush(st, f);
    FeedPush(st + [f], LPar);
    RunOne(st, f);
    RunOne(st + [f], LPar);
    RunAppend(st, [f], [LPar]);
    assert [f] + [LPar] == [f, LPar];
    assert st + [f] + [LPar] == st + [f, LPar];
  }

  /** A bracketed derivation, up to the point where the closing parenthesis
      meets it fully reduced. */
  lemma {:induction false} BracketRuns(st: Stack, s: Cst)
    requires WF(s) && StackOk(st) && (Top(st).LPar? || (Top(st).Com? && !LeadSign(s)))
    ensures NoBottom(Yield(s) + [RPar])
    ensures StackOk(st + [Expr(Ast(s))])
    ensures Run(st, Yield(s) + [RPar]) == Feed(st + [Expr(Ast(s))], RPar)
    decreases s, 4
  {
    YieldNoBottom(s);
    SumRuns(st, s);
    Collapse(st, s, RPar);
    RunAppend(st, Yield(s), [RPar]);
    RunOne(st + Pend(s), RPar);
  }

  lemma {:induction false} BinYield(st: Stack, c: Cst, st1: Stack, st2: Stack)
    requires WF(c) && c.Bin? && StackOk(st) && StackOk(st1)
    requires NoBottom(Yield(c.l)) && NoBottom(Yield(c.r))
    requires Run(st, Yield(c.l)) == st1 && Feed(st1, c.op) == st2
    ensures StackOk(st2) && NoBottom(Yield(c)) && Run(st, Yield(c)) == Run(st2, Yield(c.r))
  {
    RunOne(st1, c.op);
    RunAppend(st1, [c.op], Yield(c.r));
    RunAppend(st, Yield(c.l), [c.op] + Yield(c.r));
    YieldOfBin(c);
  }

  lemma YieldOfBin(c: Cst)
    requires c.Bin?
    ensures Yield(c) == Yield(c.l) + ([c.op] + Yield(c.r))
  {
  }

  /** A power is reduced as soon as its last operand is complete. */
  lemma {:induction false} PowerRuns(st: Stack, c: Cst)
    requires WF(c) && Level(c) <= 2 && OperandCtx(st, LeadSign(c)) && Quiet(st)
    ensures NoBottom(Yield(c))
    ensures Run(st, Yield(c)) == st + [Expr(Ast(c))]
    decreases c, 2
  {
    YieldNoBottom(c);
    if Level(c) <= 1 {
      UnaryRuns(st, c);
      FeedPush(st, Expr(Ast(c)));
    } else {
      var Bin(l, op, r) := c;
      PowerRuns(st, l);
      var st1 := st + [Expr(Ast(l))];
      FeedPush(st1, op);
      BinYield(st, c, st1, st1 + [op]);
      UnaryRuns(st1 + [op], r);
      assert st1 + [op] == st + [Expr(Ast(l)), op];
      PowStep(st, Ast(l), op, Ast(r));
      FeedPush(st, Expr(Ast(c)));
    }
  }

  /** A product or sum stays open until a weaker token arrives. */
  lemma {:induction false} SumRuns(st: Stack, c: Cst)
    requires WF(c) && SumCtx(st, c)
    ensures NoBottom(Yield(c))
    ensures StackOk(st + Pend(c)) && Run(st, Yield(c)) == st + Pend(c)
    decreases c, 3
  {
    YieldNoBottom(c);
    if Level(c) <= 2 {
      PowerRuns(st, c);
    } else if c.op.Op2? {
      ProductRuns(st, c);
    } else {
      SumRuns(st, c.l);
      OpenSum(st, c);
      SumRuns(st + [Expr(Ast(c.l)), c.op], c.r);
    }
  }

  /** The left side of a sum has been read. */
  lemma OpenSum(st: Stack, c: Cst)
    requires WF(c) && SumCtx(st, c) && Level(c) == 4 && StackOk(st + Pend(c.l))
    requires NoBottom(Yield(c.l)) && Run(st, Yield(c.l)) == st + Pend(c.l)
    ensures var st2 := st + [Expr(Ast(c.l)), c.op];
      SumCtx(st2, c.r) && NoBottom(Yield(c)) && NoBottom(Yield(c.r)) &&
      Run(st, Yield(c)) == Run(st2, Yield(c.r)) && st + Pend(c) == st2 + Pend(c.r)
  {
    Collapse(st, c.l, c.op);
    FeedPush(st + [Expr(Ast(c.l))], c.op);
    OpenOperand(st, c);
    assert st + Pend(c) == st + [Expr(Ast(c.l)), c.op] + Pend(c.r);
  }

  lemma {:induction false} ProductRuns(st: Stack, c: Cst)
    requires WF(c) && SumCtx(st, c) && Level(c) == 3
    ensures NoBottom(Yield(c))
    ensures StackOk(st + Pend(c)) && Run(st, Yield(c)) == st + Pend(c)
    decreases c, 2
  {
    SumRuns(st, c.l);
    CollapseProduct(st, c.l, c.op);
    FeedPush(st + [Expr(Ast(c.l))], c.op);
    OpenOperand(st, c);
    PowerRuns(st + [Expr(Ast(c.l)), c.op], c.r);
    assert st + Pend(c) == st + [Expr(Ast(c.l)), c.op] + [Expr(Ast(c.r))];
  }

  /** The operator of an open product or sum has just been pushed. */
  lemma OpenOperand(st: Stack, c: Cst)
    requires WF(c) && c.Bin? && StackOk(st) && StackOk(st + Pend(c.l))
    requires NoBottom(Yield(c.l)) && Run(st, Yield(c.l)) == st + Pend(c.l)
    requires Feed(st + Pend(c.l), c.op) == st + [Expr(Ast(c.l))] + [c.op]
    ensures StackOk(st + [Expr(Ast(c.l)), c.op])
    ensures NoBottom(Yield(c.r)) && NoBottom(Yield(c))
    ensures Run(st, Yield(c)) == Run(st + [Expr(Ast(c.l)), c.op], Yield(c.r))
  {
    YieldNoBottom(c.r);
    assert st + [Expr(Ast(c.l))] + [c.op] == st + [Expr(Ast(c.l)), c.op];
    BinYield(st, c, st + Pend(c.l), st + [Expr(Ast(c.l)), c.op]);
  }

  /** An incoming `*` or `/` finishes a product that is waiting. */
  lemma CollapseProduct(st: Stack, c: Cst, inp: Token)
    requires WF(c) && SumCtx(st, c) && Level(c) <= 3 && inp.Op2?
    ensures StackOk(st + Pend(c)) && StackOk(st + [Expr(Ast(c))])
    ensures Feed(st + Pend(c), inp) == Feed(st + [Expr(Ast(c))], inp)
  {
    if Level(c) == 3 {
      BinStep(st, Ast(c.l), c.op, Ast(c.r), inp);
    }
  }

  /** An incoming sign, closing parenthesis or end of input finishes it all. */
  lemma {:induction false} Collapse(st: Stack, c: Cst, inp: Token)
    requires WF(c) && SumCtx(st, c) && (inp.Op1? || inp.RPar? || inp.Eoi?)
    ensures StackOk(st + Pend(c)) && StackOk(st + [Expr(Ast(c))])
    ensures Feed(st + Pend(c), inp) == Feed(st + [Expr(Ast(c))], inp)
    decreases c, 1
  {
    if Level(c) == 3 {
      BinStep(st, Ast(c.l), c.op, Ast(c.r), inp);
    } else if Level(c) == 4 {
      Collapse(st + [Expr(Ast(c.l)), c.op], c.r, inp);
      CollapseSum(st, c, inp);
    }
  }

  lemma CollapseSum(st: Stack, c: Cst, inp: Token)
    requires WF(c) && Level(c) == 4 && StackOk(st) && (inp.Op1? || inp.RPar? || inp.Eoi?)
    requires var st2 := st + [Expr(Ast(c.l)), c.op];
      && StackOk(st2 + Pend(c.r)) && StackOk(st2 + [Expr(Ast(c.r))])
      && Feed(st2 + Pend(c.r), inp) == Feed(st2 + [Expr(Ast(c.r))], inp)
    ensures StackOk(st + Pend(c)) && StackOk(st + [Expr(Ast(c))])
    ensures Feed(st + Pend(c), inp) == Feed(st + [Expr(Ast(c))], inp)
  {
    var st2 := st + [Expr(Ast(c.l)), c.op];
    assert st + Pend(c) == st2 + Pend(c.r);
    BinStep(st, Ast(c.l), c.op, Ast(c.r), inp);
    assert st2 + [Expr(Ast(c.r))] == st + [Expr(Ast(c.l)), c.op, Expr(Ast(c.r))];
  }

  /** Completeness: a sentence of the grammar is accepted with its own tree. */
  lemma ParserIsComplete(c: Cst)
    requires WF(c)
    ensures AllLexical(Yield(c)) && Parse(Yield(c)) == Some(Ast(c))
  {
    WellFormedIsNarrow(c);
    YieldIsLexical(c);
    var st := [TopStk];
    SumRuns(st, c);
    Collapse(st, c, Eoi);
    RunAppend(st, Yield(c), [Eoi]);
    RunOne(st + Pend(c), Eoi);
    FeedPush(st + [Expr(Ast(c))], Eoi);
  }
}
