/** reduce.c and parse.c in their own form: a fixed token array, a stack pointer
    and an input token that reduce() overwrites in place. */
module ExprParser {
  import opened Options
  import opened ExprSyntax
  import opened ExprMachine
  import opened ExprSoundness
  import opened ExprCompleteness
  import opened ExprDescent

  const STACK_DEPTH: nat := 100

  /** `Overrun` stands for the push past stack[99], which the C code does not
      check for. */
  datatype Result = Accepted(tree: Tree) | Rejected | Overrun

  class Parser {
    const stack: array<Token>
    var stPnt: nat
    var inputToken: Token

    ghost predicate Valid()
      reads this, stack
    {
      stack.Length == STACK_DEPTH && stPnt < stack.Length && StackOk(Contents()) && !inputToken.TopStk?
    }

    ghost function Contents(): (st: Stack)
      requires stPnt < stack.Length
      reads this, stack
      ensures |st| == stPnt + 1
    {
      stack[..stPnt+1]
    }

    constructor ()
      ensures Valid() && Contents() == [TopStk] && fresh(stack)
    {
      stack := new Token[STACK_DEPTH](_ => TopStk);
      stPnt := 0;
      inputToken := Eoi;
    }

    /** One reduction of the stack top and the input token, in place. */
    method ReduceOnce() returns (more: bool)
      requires Valid()
      modifies this, stack
      ensures Valid()
      ensures Stepped(more, old(Contents()), old(inputToken))
    {
      match inputToken {
        case Str(_) => inputToken := ExprReduce(inputToken, Nil, Nil); return true;
        case RConst(_) => inputToken := ExprReduce(inputToken, Nil, Nil); return true;
        case SolVal(_) => inputToken := ExprReduce(inputToken, Nil, Nil); return true;
        case Expr(_) => more := ReduceOperand();
        case Op2(_) =>
          if stack[stPnt].Expr? && stack[stPnt-1].Op2? && stack[stPnt-2].Expr? {
            FoldTop();
            return true;
          }
          return false;
        case Eoi => more := ReduceSumTop();
        case Op1(_) => more := ReduceSumTop();
        case RPar => more := ReduceClose();
        case _ => return false;
      }
    }

    /** The state is what one call of Reduce makes of `st` and `inp`. */
    ghost predicate Stepped(more: bool, st: Stack, inp: Token)
      requires stPnt < stack.Length && |st| > 0
      reads this, stack
    {
      var r := Reduce(st, inp);
      if more then r == Some((Contents(), inputToken)) else r.None? && Contents() == st && inputToken == inp
    }

    /** Drops the top of the stack. */
    method Pop(k: nat)
      requires Valid() && k <= stPnt
      modifies this`stPnt
      ensures Valid() && stPnt == old(stPnt) - k && Contents() == old(Contents())[..stPnt+1]
    {
      stPnt := stPnt - k;
    }

    /** An expression has arrived: unary signs and powers are reduced at once. */
    method ReduceOperand() returns (more: bool)
      requires Valid() && inputToken.Expr?
      modifies this, stack
      ensures Valid()
      ensures Stepped(more, old(Contents()), old(inputToken))
    {
      var top := stack[stPnt];
      if top.Op1? {
        if BeforeSign(stack[stPnt-1]) {
          inputToken := ExprReduce(top, At(inputToken), Nil);
          Pop(1);
          return true;
        }
      } else if top.Op3? {
        if stack[stPnt-1].Expr? {
          inputToken := ExprReduce(stack[stPnt-1], At(top), At(inputToken));
          Pop(2);
          return true;
        }
      }
      return false;
    }

    /** A closing parenthesis has arrived. */
    method ReduceClose() returns (more: bool)
      requires Valid() && inputToken.RPar?
      modifies this, stack
      ensures Valid()
      ensures Stepped(more, old(Contents()), old(inputToken))
    {
      var top := stack[stPnt];
      if top.Expr? {
        var prev := stack[stPnt-1];
        if (prev.Op2? || prev.Op1?) && stack[stPnt-2].Expr? {
          FoldTop();
          return true;
        }
        if prev.Com? && stack[stPnt-2].Expr? && stack[stPnt-3].LPar? && IsFunction(stack[stPnt-4]) {
          inputToken := ExprReduce(stack[stPnt-4], At(stack[stPnt-2]), At(top));
          Pop(5);
          return true;
        }
        if prev.LPar? && IsFunction(stack[stPnt-2]) {
          inputToken := ExprReduce(stack[stPnt-2], At(top), Nil);
          Pop(3);
          return true;
        }
        if prev.LPar? {
          inputToken := top;
          Pop(2);
          return true;
        }
      }
      return false;
    }

    /** The rule shared by end of input and an incoming sign. */
    method ReduceSumTop() returns (more: bool)
      requires Valid() && (inputToken.Eoi? || inputToken.Op1?)
      modifies this`stPnt, stack
      ensures Valid()
      ensures Stepped(more, old(Contents()), inputToken)
    {
      if stack[stPnt].Expr? && (stack[stPnt-1].Op1? || stack[stPnt-1].Op2?) && stack[stPnt-2].Expr? {
        FoldTop();
        return true;
      }
      return false;
    }

    /** expr_reduce(old, prev, top, old) and the two pops after it. */
    method FoldTop()
      requires Valid() && stPnt > 2
      requires stack[stPnt-2].Expr?
      modifies this`stPnt, stack
      ensures Valid()
      ensures var st := old(Contents()); var n := |st|;
              Contents() == st[..n-3] + [ExprReduce(st[n-3], At(st[n-2]), At(st[n-1]))]
    {
      ghost var st := Contents();
      stack[stPnt-2] := ExprReduce(stack[stPnt-2], At(stack[stPnt-1]), At(stack[stPnt]));
      stPnt := stPnt - 2;
      assert Contents() == st[..|st|-3] + [stack[stPnt]];
    }

    /** parse_expr on the tokens lexical() reads from one string. */
    method ParseExpr(toks: seq<Token>) returns (result: Result)
      requires Valid() && AllLexical(toks)
      modifies this, stack
      ensures Valid()
      ensures result.Overrun? ==> Deep(toks)
      ensures !result.Overrun? ==> result == (match Parse(toks) case Some(t) => Accepted(t) case None => Rejected)
    {
      stPnt := 0;
      stack[0] := TopStk;
      assert Contents() == [TopStk];
      var completed := Drive(toks);
      if !completed {
        return Overrun;
      }
      if stPnt != 2 || !stack[0].TopStk? || !stack[1].Expr? || !stack[2].Eoi? {
        return Rejected;
      }
      return Accepted(stack[1].tree);
    }

    /** The do-while loop: tokens are taken until the end marker is pushed. */
    method Drive(toks: seq<Token>) returns (completed: bool)
      requires Valid() && AllLexical(toks) && Contents() == [TopStk]
      modifies this, stack
      ensures Valid()
      ensures completed ==> Contents() == Run([TopStk], toks + [Eoi])
      ensures !completed ==> Deep(toks)
    {
      ghost var input := toks + [Eoi];
      var i := 0;
      var more := true;
      assert input[..0] == [];
      while more
        invariant Valid() && 0 <= i <= |input| && (more <==> i < |input|)
        invariant NoBottom(input[..i]) && Contents() == Run([TopStk], input[..i])
        decreases |input| - i
      {
        var tok := if i < |toks| then toks[i] else Eoi;
        assert tok == input[i] && !tok.TopStk? && (tok.Eoi? <==> i == |toks|) by {
          if i < |toks| { assert toks[i] in toks; }
        }
        RunSnoc(input, i);
        var taken := TakeToken(tok);
        i := i + 1;
        if !taken {
          return false;
        }
        more := !inputToken.Eoi?;
      }
      assert input[..i] == input;
      return true;
    }

    /** One turn of the driver loop: check, reduce as far as possible, push. */
    method TakeToken(tok: Token) returns (taken: bool)
      requires Valid() && !tok.TopStk?
      modifies this, stack
      ensures Valid()
      ensures taken ==> Contents() == Feed(old(Contents()), tok) && (inputToken.Eoi? <==> tok.Eoi?)
      ensures !taken ==> |Feed(old(Contents()), tok)| > STACK_DEPTH
    {
      FeedIsReduceAllThenPush(Contents(), tok);
      inputToken := tok;
      var bad := HasError();
      if bad {
        return false;
      }
      ReduceFully();
      if stPnt + 1 >= STACK_DEPTH {
        return false;
      }
      Push();
      return true;
    }

    /** detect_error() on the current state: it never reports anything. */
    method HasError() returns (bad: bool)
      requires Valid()
      ensures !bad
    {
      var below := if stPnt > 0 then At(stack[stPnt-1]) else Nil;
      DetectErrorNeverFires(stack[stPnt], below, inputToken);
      bad := DetectError(stack[stPnt], below, inputToken);
    }

    /** `stack[ ++st_pnt ] = input_token` */
    method Push()
      requires Valid() && stPnt + 1 < STACK_DEPTH
      modifies this`stPnt, stack
      ensures Valid() && stPnt == old(stPnt) + 1 && Contents() == old(Contents()) + [inputToken]
    {
      ghost var st := Contents();
      stPnt := stPnt + 1;
      stack[stPnt] := inputToken;
      assert Contents() == st + [inputToken];
    }

    /** `while( reduce() );` */
    method ReduceFully()
      requires Valid()
      modifies this, stack
      ensures Valid()
      ensures (Contents(), inputToken) == ReduceAll(old(Contents()), old(inputToken))
    {
      var more := true;
      while more
        invariant Valid()
        invariant ReduceAll(Contents(), inputToken) == ReduceAll(old(Contents()), old(inputToken))
        invariant !more ==> Reduce(Contents(), inputToken).None?
        decreases more, stPnt, if inputToken.Expr? then 0 else 1
      {
        more := ReduceOnce();
      }
    }
  }

  /** The run over a prefix grows by one turn of the driver loop. */
  lemma RunSnoc(input: seq<Token>, i: nat)
    requires i < |input| && NoBottom(input[..i]) && !input[i].TopStk?
    ensures NoBottom(input[..i+1])
    ensures Run([TopStk], input[..i+1]) == Feed(Run([TopStk], input[..i]), input[i])
  {
    assert input[..i+1] == input[..i] + [input[i]];
    RunAppend([TopStk], input[..i], [input[i]]);
    RunOne(Run([TopStk], input[..i]), input[i]);
  }

  /** Some prefix of the input needs more than STACK_DEPTH stack slots. */
  ghost predicate Deep(toks: seq<Token>)
    requires AllLexical(toks)
  {
    exists k :: 0 <= k <= |toks| + 1 && NoBottom((toks + [Eoi])[..k])
             && |Run([TopStk], (toks + [Eoi])[..k])| > STACK_DEPTH
  }

  // ---------------------------------------------------------- main theorems

  lemma {:induction false} FeedGrowsByOne(st: Stack, inp: Token)
    requires StackOk(st) && !inp.TopStk?
    ensures |Feed(st, inp)| <= |st| + 1
    decreases |st|, if inp.Expr? then 0 else 1
  {
    var r := Reduce(st, inp);
    if r.Some? {
      ReduceKeepsStackOk(st, inp);
      FeedGrowsByOne(r.value.0, r.value.1);
    }
  }

  lemma {:induction false} RunGrowth(st: Stack, toks: seq<Token>)
    requires StackOk(st) && NoBottom(toks)
    ensures |Run(st, toks)| <= |st| + |toks|
    decreases |toks|
  {
    if toks != [] {
      FeedGrowsByOne(st, toks[0]);
      RunGrowth(Feed(st, toks[0]), toks[1..]);
    }
  }

  /** An input of at most 98 tokens never leaves the 100-slot stack. */
  lemma ShortInputsFit(toks: seq<Token>)
    requires AllLexical(toks) && |toks| <= 98
    ensures !Deep(toks)
  {
    forall k | 0 <= k <= |toks| + 1 && NoBottom((toks + [Eoi])[..k])
      ensures |Run([TopStk], (toks + [Eoi])[..k])| <= STACK_DEPTH
    {
      RunGrowth([TopStk], (toks + [Eoi])[..k]);
    }
  }

  /** The parser accepts exactly the sentences of the stratified grammar, and
      answers with the tree of the derivation. */
  lemma ParserIsExact(toks: seq<Token>)
    requires AllLexical(toks)
    ensures Parse(toks).Some? <==> exists c :: WF(c) && Yield(c) == toks
    ensures forall c :: WF(c) && Yield(c) == toks ==> Parse(toks) == Some(Ast(c))
  {
    if Parse(toks).Some? {
      var c := ParserIsSound(toks);
    }
    forall c | WF(c) && Yield(c) == toks ensures Parse(toks) == Some(Ast(c)) {
      ParserIsComplete(c);
    }
  }

  /** The rules the file calls ambiguous give every sentence one tree. */
  lemma GrammarIsUnambiguous(c: Cst, d: Cst)
    requires WF(c) && WF(d) && Yield(c) == Yield(d)
    ensures Ast(c) == Ast(d)
  {
    ParserIsComplete(c);
    ParserIsComplete(d);
  }

  /** A promised sentence is accepted exactly if its derivation is narrow. */
  lemma PromisedIsAcceptedExactlyWhen(c: Cst)
    requires Wide(c)
    ensures AllLexical(Yield(c)) && (Parse(Yield(c)).Some? <==> Narrow(c))
  {
    YieldIsLexical(c);
    WellFormedIsNarrow(c);
    if Parse(Yield(c)).Some? {
      var d := ParserIsSound(Yield(c));
      WellFormedIsNarrow(d);
      OneDerivation(c, d);
    }
    if Narrow(c) {
      ParserIsComplete(c);
    }
  }

  // ------------------------------------------------- printing and re-parsing

  /** Trees that some input can produce. */
  predicate Printable(t: Tree) {
    t.Node? && IsLexical(t.head) &&
    if t.right.Null? then t.left.Null? && IsLeafToken(t.head)
    else if t.left.Null? then (IsFunction(t.head) || t.head.Op1?) && Printable(t.right)
    else (IsFunction(t.head) || IsBinaryOp(t.head)) && Printable(t.left) && Printable(t.right)
  }

  /** The derivation with the fewest parentheses: `max` is the loosest level the
      place allows, `sign` whether it may start with a sign. */
  function Derive(t: Tree, max: nat, sign: bool): (c: Cst)
    requires Printable(t)
    ensures WF(c) && Level(c) <= max && (!sign ==> !LeadSign(c)) && Ast(c) == t
    decreases t
  {
    match t
    case Node(h, l, r) =>
      if r.Null? then Leaf(h)
      else if IsFunction(h) then
        if l.Null? then Call1(h, Derive(r, 4, true)) else Call2(h, Derive(l, 2, true), Derive(r, 4, false))
      else
        var bare :=
          if l.Null? then Sign(h, Derive(r, 1, true))
          else Bin(Derive(l, OpLevel(h), sign), h, Derive(r, OpLevel(h) - 1, true));
        if Level(bare) <= max && (sign || !LeadSign(bare)) then bare
        else
          var inside :=
            if l.Null? then bare else Bin(Derive(l, OpLevel(h), true), h, Derive(r, OpLevel(h) - 1, true));
          Paren(inside)
  }

  function Print(t: Tree): seq<Token>
    requires Printable(t)
  {
    Yield(Derive(t, 4, true))
  }

  /** Printing a tree with minimal parentheses and parsing it gives it back. */
  lemma PrintThenParse(t: Tree)
    requires Printable(t)
    ensures AllLexical(Print(t)) && Parse(Print(t)) == Some(t)
  {
    ParserIsComplete(Derive(t, 4, true));
  }

  lemma {:induction false} AstIsPrintable(c: Cst)
    requires WF(c)
    ensures Printable(Ast(c))
  {
    match c
    case Leaf(_) =>
    case Paren(s) => AstIsPrintable(s);
    case Call1(_, a) => AstIsPrintable(a);
    case Call2(_, a, b) => AstIsPrintable(a); AstIsPrintable(b);
    case Sign(_, u) => AstIsPrintable(u);
    case Bin(l, _, r) => AstIsPrintable(l); AstIsPrintable(r);
  }

  /** The printable trees are exactly the trees the parser can return. */
  lemma ParsedTreesArePrintable(t: Tree)
    ensures Printable(t) <==> exists toks :: AllLexical(toks) && Parse(toks) == Some(t)
  {
    if Printable(t) {
      PrintThenParse(t);
    }
    forall toks | AllLexical(toks) && Parse(toks) == Some(t) ensures Printable(t) {
      var c := ParserIsSound(toks);
      AstIsPrintable(c);
    }
  }
}
