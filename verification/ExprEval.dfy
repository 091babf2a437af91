/** eval_real against an evaluator that reads the tokens directly, by recursive descent.

    Arithmetic is a parameter: nothing here depends on how numbers are rounded,
    or on what the library functions compute. */
module ExprEval {
  import opened Options
  import opened ExprSyntax
  import opened ExprMachine
  import opened ExprCompleteness
  import opened ExprSoundness
  import opened ExprDescent

  datatype Arith<!V> = Arith(
    lit: real -> V,
    neg: V -> V,
    add: (V, V) -> V,
    sub: (V, V) -> V,
    mul: (V, V) -> V,
    div: (V, V) -> V,
    pow: (V, V) -> V,
    positive: V -> bool,
    negative: V -> bool,
    call: (int, V) -> V,
    interp: (int, V, V) -> V)

  /** `Undefined` marks an operator node without its operand, where the C code
      would read an uninitialised local (see ParsedIsDefined). */
  datatype EvalError = NeedsTwoArguments | VectorIllegal | StringIllegal | Undefined

  datatype Outcome<V> = Val(val: V) | Err(err: EvalError)

  /** expr.h:67-73: the functions that read the solution at a point. */
  predicate IsInterp(code: int) {
    code == -2 || code == -3 || code == -10
  }

  /** The inner switch: ABS and SIGN are worked out here, the others called. */
  function Called<V>(ar: Arith<V>, code: int, v: V): V {
    if code == 6 then if ar.positive(v) then v else ar.neg(v)
    else if code == 8 then ar.lit(if ar.positive(v) then 1.0 else if ar.negative(v) then -1.0 else 0.0)
    else ar.call(code, v)
  }

  /** The switch of eval_real, after both children were evaluated; an absent
      child is None.  The error of a left child wins over one of the right. */
  function Apply<V>(ar: Arith<V>, head: Token, l: Option<Outcome<V>>, r: Option<Outcome<V>>): Outcome<V> {
    if l.Some? && l.value.Err? then l.value
    else if r.Some? && r.value.Err? then r.value
    else
      match head
      case Op1(c) =>
        if r.None? then Err(Undefined)
        else if l.None? then Val(if c == '+' then r.value.val else ar.neg(r.value.val))
        else Val(if c == '+' then ar.add(l.value.val, r.value.val) else ar.sub(l.value.val, r.value.val))
      case Op2(c) =>
        if l.None? || r.None? then Err(Undefined)
        else Val(if c == '*' then ar.mul(l.value.val, r.value.val) else ar.div(l.value.val, r.value.val))
      case Op3(_) =>
        if l.None? || r.None? then Err(Undefined) else Val(ar.pow(l.value.val, r.value.val))
      case Fn(code) =>
        if IsInterp(code) then
          if l.None? || r.None? then Err(NeedsTwoArguments)
          else Val(ar.interp(code, l.value.val, r.value.val))
        else if r.None? then Err(Undefined)
        else Val(Called(ar, code, r.value.val))
      case RConst(v) => Val(ar.lit(v))
      case Str(_) => Err(StringIllegal)
      case _ => Err(VectorIllegal)
  }

  function EvalReal<V>(ar: Arith<V>, t: Tree): Outcome<V>
    requires t.Node?
  {
    Apply(ar, t.head,
          if t.left.Null? then None else Some(EvalReal(ar, t.left)),
          if t.right.Null? then None else Some(EvalReal(ar, t.right)))
  }

  // ------------------------------------------- evaluation without any tree

  function Map<V>(v: Outcome<V>, g: V -> V): Outcome<V> {
    if v.Err? then v else Val(g(v.val))
  }

  function Both<V>(v: Outcome<V>, w: Outcome<V>, g: (V, V) -> V): Outcome<V> {
    if v.Err? then v else Map(w, x => g(v.val, x))
  }

  function Constant<V>(ar: Arith<V>, t: Token): Outcome<V> {
    match t
    case RConst(v) => Val(ar.lit(v))
    case Str(_) => Err(StringIllegal)
    case _ => Err(VectorIllegal)
  }

  function Infix<V>(ar: Arith<V>, v: Outcome<V>, op: Token, w: Outcome<V>): Outcome<V> {
    if op == Op1('+') then Both(v, w, ar.add)
    else if op == Op1('-') then Both(v, w, ar.sub)
    else if op == Op2('*') then Both(v, w, ar.mul)
    else if op == Op2('/') then Both(v, w, ar.div)
    else if op == Op3('^') then Both(v, w, ar.pow)
    else Err(VectorIllegal)
  }

  function Library<V>(ar: Arith<V>, f: Token, v: V): Outcome<V> {
    if f.Vfn? then Err(VectorIllegal)
    else if f == Fn(6) then Val(if ar.positive(v) then v else ar.neg(v))
    else if f == Fn(8) && ar.positive(v) then Val(ar.lit(1.0))
    else if f == Fn(8) then Val(ar.lit(if ar.negative(v) then -1.0 else 0.0))
    else if f.Fn? then Val(ar.call(f.code, v))
    else Err(VectorIllegal)
  }

  function OneArgument<V>(ar: Arith<V>, f: Token, v: Outcome<V>): Outcome<V> {
    if v.Err? then v
    else if f == Fn(-2) || f == Fn(-3) || f == Fn(-10) then Err(NeedsTwoArguments)
    else Library(ar, f, v.val)
  }

  /** Of two arguments a function that does not read the solution ignores the first. */
  function TwoArguments<V>(ar: Arith<V>, f: Token, v: Outcome<V>, w: Outcome<V>): Outcome<V> {
    if v.Err? then v
    else if w.Err? then w
    else if f == Fn(-2) || f == Fn(-3) || f == Fn(-10) then Val(ar.interp(f.code, v.val, w.val))
    else Library(ar, f, w.val)
  }

  /** What the forms of a sentence mean, each in terms of the meaning of its parts. */
  function Evaluation<V>(ar: Arith<V>): Algebra<Outcome<V>> {
    Algebra(t => Constant(ar, t), v => v, (f, v) => OneArgument(ar, f, v), (f, v, w) => TwoArguments(ar, f, v, w),
            (op, v) => if op == Op1('-') then Map(v, ar.neg) else v, (f, v) => OneArgument(ar, f, v),
            (v, op, w) => Infix(ar, v, op, w))
  }

  /** The value of a sentence, computed while reading it, and the tokens left over. */
  function EvalTokens<V>(ar: Arith<V>, toks: seq<Token>): Step<Outcome<V>> {
    Sum(Evaluation(ar), toks)
  }

  // ------------------------------------------------------------ equivalence

  lemma SignValue<V>(ar: Arith<V>, op: Token, t: Tree)
    requires t.Node? && op.Op1? && IsLexical(op)
    ensures EvalReal(ar, Node(op, Null, t)) == Evaluation(ar).sign(op, EvalReal(ar, t))
  {
    assert op == Op1('+') || op == Op1('-');
  }

  lemma InfixValue<V>(ar: Arith<V>, l: Tree, op: Token, r: Tree)
    requires l.Node? && r.Node? && IsBinaryOp(op) && IsLexical(op)
    ensures EvalReal(ar, Node(op, l, r)) == Infix(ar, EvalReal(ar, l), op, EvalReal(ar, r))
  {
    assert op in {Op1('+'), Op1('-'), Op2('*'), Op2('/'), Op3('^')};
  }

  lemma CallValue<V>(ar: Arith<V>, f: Token, l: Tree, r: Tree)
    requires r.Node? && IsFunction(f)
    ensures EvalReal(ar, Node(f, Null, r)) == OneArgument(ar, f, EvalReal(ar, r))
    ensures l.Node? ==> EvalReal(ar, Node(f, l, r)) == TwoArguments(ar, f, EvalReal(ar, l), EvalReal(ar, r))
  {
  }

  lemma {:induction false} TreeValue<V>(ar: Arith<V>, c: Cst)
    requires WF(c)
    ensures Made(Evaluation(ar), c) == EvalReal(ar, Ast(c))
  {
    match c
    case Leaf(_) =>
    case Paren(s) => TreeValue(ar, s);
    case Call1(f, a) => TreeValue(ar, a); CallValue(ar, f, Null, Ast(a));
    case Call2(f, a, b) => TreeValue(ar, a); TreeValue(ar, b); CallValue(ar, f, Ast(a), Ast(b));
    case Sign(op, u) => TreeValue(ar, u); SignValue(ar, op, Ast(u));
    case Bin(l, op, r) => TreeValue(ar, l); TreeValue(ar, r); InfixValue(ar, Ast(l), op, Ast(r));
  }

  /** On everything the parser accepts, evaluating its tree and evaluating the
      tokens by precedence give the same value or the same error. */
  lemma EvalMatchesTokens<V>(ar: Arith<V>, toks: seq<Token>)
    requires AllLexical(toks) && Parse(toks).Some?
    ensures Parse(toks).value.Node?
    ensures EvalTokens(ar, toks) == Some((EvalReal(ar, Parse(toks).value), []))
  {
    var c := ParserIsSound(toks);
    WellFormedIsNarrow(c);
    SumReads(Evaluation(ar), c, []);
    TreeValue(ar, c);
    assert Yield(c) + [] == toks;
  }

  lemma {:induction false} DerivedIsDefined<V>(ar: Arith<V>, c: Cst)
    requires WF(c)
    ensures EvalReal(ar, Ast(c)) != Err(Undefined)
  {
    match c
    case Leaf(_) =>
    case Paren(s) => DerivedIsDefined(ar, s);
    case Call1(_, a) => DerivedIsDefined(ar, a);
    case Call2(_, a, b) => DerivedIsDefined(ar, a); DerivedIsDefined(ar, b);
    case Sign(_, u) => DerivedIsDefined(ar, u);
    case Bin(l, _, r) => DerivedIsDefined(ar, l); DerivedIsDefined(ar, r);
  }

  /** No tree the parser returns makes eval_real read a local it never set. */
  lemma ParsedIsDefined<V>(ar: Arith<V>, toks: seq<Token>)
    requires AllLexical(toks) && Parse(toks).Some?
    ensures Parse(toks).value.Node? && EvalReal(ar, Parse(toks).value) != Err(Undefined)
  {
    var c := ParserIsSound(toks);
    DerivedIsDefined(ar, c);
  }

  // -------------------------------------------------- what each operator stands for

  /** These tokens are accepted and have this value. */
  predicate Evaluates<V(==)>(ar: Arith<V>, toks: seq<Token>, v: V) {
    AllLexical(toks) && Parse(toks).Some? && Parse(toks).value.Node? && EvalReal(ar, Parse(toks).value) == Val(v)
  }

  lemma ValueOfDerivation<V>(ar: Arith<V>, c: Cst, v: V)
    requires WF(c)
    ensures Evaluates(ar, Yield(c), v) <==> EvalReal(ar, Ast(c)) == Val(v)
  {
    ParserIsComplete(c);
  }

  lemma OneInfix<V>(ar: Arith<V>, l: Cst, op: Token, r: Cst, v: V, w: V, x: V)
    requires WF(Bin(l, op, r)) && Evaluates(ar, Yield(l), v) && Evaluates(ar, Yield(r), w)
    requires Infix(ar, Val(v), op, Val(w)) == Val(x)
    ensures Evaluates(ar, Yield(l) + [op] + Yield(r), x)
  {
    ValueOfDerivation(ar, l, v);
    ValueOfDerivation(ar, r, w);
    InfixValue(ar, Ast(l), op, Ast(r));
    ValueOfDerivation(ar, Bin(l, op, r), x);
  }

  lemma SumsMean<V>(ar: Arith<V>, l: Cst, r: Cst, v: V, w: V)
    requires WF(l) && WF(r) && Level(r) < 4
    requires Evaluates(ar, Yield(l), v) && Evaluates(ar, Yield(r), w)
    ensures Evaluates(ar, Yield(l) + [Op1('+')] + Yield(r), ar.add(v, w))
    ensures Evaluates(ar, Yield(l) + [Op1('-')] + Yield(r), ar.sub(v, w))
  {
    WellFormedIsNarrow(l);
    OneInfix(ar, l, Op1('+'), r, v, w, ar.add(v, w));
    OneInfix(ar, l, Op1('-'), r, v, w, ar.sub(v, w));
  }

  lemma ProductsMean<V>(ar: Arith<V>, l: Cst, r: Cst, v: V, w: V)
    requires WF(l) && WF(r) && Level(l) <= 3 && Level(r) < 3
    requires Evaluates(ar, Yield(l), v) && Evaluates(ar, Yield(r), w)
    ensures Evaluates(ar, Yield(l) + [Op2('*')] + Yield(r), ar.mul(v, w))
    ensures Evaluates(ar, Yield(l) + [Op2('/')] + Yield(r), ar.div(v, w))
  {
    OneInfix(ar, l, Op2('*'), r, v, w, ar.mul(v, w));
    OneInfix(ar, l, Op2('/'), r, v, w, ar.div(v, w));
  }

  lemma PowersMean<V>(ar: Arith<V>, l: Cst, r: Cst, v: V, w: V)
    requires WF(l) && WF(r) && Level(l) <= 2 && Level(r) < 2
    requires Evaluates(ar, Yield(l), v) && Evaluates(ar, Yield(r), w)
    ensures Evaluates(ar, Yield(l) + [Op3('^')] + Yield(r), ar.pow(v, w))
  {
    OneInfix(ar, l, Op3('^'), r, v, w, ar.pow(v, w));
  }

  lemma PrefixMeans<V>(ar: Arith<V>, x: real, u: Cst, v: V)
    requires WF(u) && Evaluates(ar, Yield(u), v)
    ensures Evaluates(ar, [RConst(x)], ar.lit(x)) && Evaluates(ar, [LPar] + Yield(u) + [RPar], v)
    ensures Level(u) <= 1 ==>
      Evaluates(ar, [Op1('+')] + Yield(u), v) && Evaluates(ar, [Op1('-')] + Yield(u), ar.neg(v))
  {
    ValueOfDerivation(ar, u, v);
    ValueOfDerivation(ar, Leaf(RConst(x)), ar.lit(x));
    ValueOfDerivation(ar, Paren(u), v);
    if Level(u) <= 1 {
      ValueOfDerivation(ar, Sign(Op1('+'), u), v);
      ValueOfDerivation(ar, Sign(Op1('-'), u), ar.neg(v));
    }
  }

  /** 6 is the absolute value and 8 the sign; the rest is called by its number. */
  lemma CallMeans<V>(ar: Arith<V>, code: int, a: Cst, v: V)
    requires WF(a) && Evaluates(ar, Yield(a), v) && code !in {-2, -3, -10}
    ensures var toks := [Fn(code), LPar] + Yield(a) + [RPar];
      && (code !in {6, 8} ==> Evaluates(ar, toks, ar.call(code, v)))
      && (code == 6 ==> Evaluates(ar, toks, if ar.positive(v) then v else ar.neg(v)))
      && (code == 8 && ar.positive(v) ==> Evaluates(ar, toks, ar.lit(1.0)))
      && (code == 8 && !ar.positive(v) && ar.negative(v) ==> Evaluates(ar, toks, ar.lit(-1.0)))
      && (code == 8 && !ar.positive(v) && !ar.negative(v) ==> Evaluates(ar, toks, ar.lit(0.0)))
  {
    ValueOfDerivation(ar, a, v);
    ValueOfDerivation(ar, Call1(Fn(code), a), Called(ar, code, v));
  }

  /** x, y and z read the solution at the point the two arguments name, in order. */
  lemma CallOfTwoMeans<V>(ar: Arith<V>, code: int, a: Cst, b: Cst, v: V, w: V)
    requires WF(Call2(Fn(code), a, b)) && Evaluates(ar, Yield(a), v) && Evaluates(ar, Yield(b), w)
    ensures var toks := [Fn(code), LPar] + Yield(a) + [Com] + Yield(b) + [RPar];
      && (code in {-2, -3, -10} ==> Evaluates(ar, toks, ar.interp(code, v, w)))
      && (code !in {-2, -3, -10, 6, 8} ==> Evaluates(ar, toks, ar.call(code, w)))
  {
    ValueOfDerivation(ar, a, v);
    ValueOfDerivation(ar, b, w);
    var value := if IsInterp(code) then ar.interp(code, v, w) else Called(ar, code, w);
    ValueOfDerivation(ar, Call2(Fn(code), a, b), value);
  }

  /** The errors: a vector or a string anywhere, or x, y or z of one argument. */
  lemma ErrorsMean<V>(ar: Arith<V>, code: int, name: string, a: Cst, v: V)
    requires WF(a) && Evaluates(ar, Yield(a), v)
    ensures EvalReal(ar, Ast(Leaf(SolVal(code)))) == Err(VectorIllegal)
    ensures EvalReal(ar, Ast(Leaf(Str(name)))) == Err(StringIllegal)
    ensures EvalReal(ar, Ast(Call1(Vfn(code), a))) == Err(VectorIllegal)
    ensures code in {-2, -3, -10} ==> EvalReal(ar, Ast(Call1(Fn(code), a))) == Err(NeedsTwoArguments)
  {
    ValueOfDerivation(ar, a, v);
  }
}
