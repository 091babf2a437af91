/** Tokens, parse trees and the stratified grammar of the expression language.

    `Token` is `struct tok_str` and `Tree` is `struct vec_str` (expr.h).  A tree
    node is never changed after it is built, so trees are values; `Null` is the
    null child pointer that eval_real tests for.

    `Cst` is the reference side: the derivation trees of the grammar in which
    function names and unary signs bind tightest, then `^`, then `*` `/`, then
    binary `+` `-`, then the comma, all binary levels associating to the left. */
module ExprSyntax {
  datatype Token =
    | Expr(tree: Tree)
    | Op1(op: char)
    | Op2(op: char)
    | Op3(op: char)
    | Fn(code: int)
    | Vfn(code: int)
    | LPar
    | RPar
    | RConst(val: real)
    | SolVal(code: int)
    | TopStk
    | Eoi
    | Com
    | Str(text: string)

  datatype Tree = Null | Node(head: Token, left: Tree, right: Tree)

  /** What lexical() delivers before the end of the input. */
  predicate IsLexical(t: Token) {
    match t
    case Expr(_) => false
    case TopStk => false
    case Eoi => false
    case Op1(c) => c == '+' || c == '-'
    case Op2(c) => c == '*' || c == '/'
    case Op3(c) => c == '^'
    case _ => true
  }

  predicate AllLexical(toks: seq<Token>) {
    forall t <- toks :: IsLexical(t)
  }

  predicate IsLeafToken(t: Token) {
    t.RConst? || t.SolVal? || t.Str?
  }

  predicate IsFunction(t: Token) {
    t.Fn? || t.Vfn?
  }

  predicate IsBinaryOp(t: Token) {
    t.Op1? || t.Op2? || t.Op3?
  }

  // ---------------------------------------------------------------- grammar

  datatype Cst =
    | Leaf(tok: Token)
    | Paren(inner: Cst)
    | Call1(f: Token, arg: Cst)
    | Call2(f: Token, first: Cst, second: Cst)
    | Sign(op: Token, operand: Cst)
    | Bare(f: Token, operand: Cst)
    | Bin(l: Cst, op: Token, r: Cst)

  /** Binding strength: 0 atom, 1 unary, 2 power, 3 product, 4 sum, 5 list. */
  function OpLevel(op: Token): nat {
    if op.Op3? then 2 else if op.Op2? then 3 else if op.Com? then 5 else 4
  }

  function Level(c: Cst): nat {
    match c
    case Sign(_, _) => 1
    case Bare(_, _) => 1
    case Bin(_, op, _) => OpLevel(op)
    case _ => 0
  }

  function Yield(c: Cst): (toks: seq<Token>)
    ensures |toks| > 0
  {
    match c
    case Leaf(t) => [t]
    case Paren(s) => [LPar] + Yield(s) + [RPar]
    case Call1(f, a) => [f, LPar] + Yield(a) + [RPar]
    case Call2(f, a, b) => [f, LPar] + Yield(a) + [Com] + Yield(b) + [RPar]
    case Sign(op, u) => [op] + Yield(u)
    case Bare(f, u) => [f] + Yield(u)
    case Bin(l, op, r) => Yield(l) + [op] + Yield(r)
  }

  /** The sentence starts with a sign. */
  predicate LeadSign(c: Cst) {
    match c
    case Sign(_, _) => true
    case Bin(l, _, _) => LeadSign(l)
    case _ => false
  }

  /** Derivations of everything the grammar comments promise: a function applied
      with or without parentheses, to any list of arguments, and the comma as an
      operator.  A call of several arguments splits them at the last comma. */
  predicate Wide(c: Cst) {
    match c
    case Leaf(t) => IsLexical(t) && IsLeafToken(t)
    case Paren(s) => Wide(s)
    case Call1(f, a) => IsFunction(f) && Wide(a) && Level(a) <= 4
    case Call2(f, a, b) => IsFunction(f) && Wide(a) && Wide(b) && Level(b) <= 4
    case Sign(op, u) => IsLexical(op) && op.Op1? && Wide(u) && Level(u) <= 1
    case Bare(f, u) => IsFunction(f) && Wide(u) && Level(u) <= 1 && !u.Paren?
    case Bin(l, op, r) =>
      IsLexical(op) && (IsBinaryOp(op) || op.Com?) && Wide(l) && Wide(r) &&
      Level(l) <= OpLevel(op) && Level(r) < OpLevel(op)
  }

  /** Derivations of the grammar the parser recognises. */
  predicate WF(c: Cst) {
    match c
    case Leaf(t) => IsLexical(t) && IsLeafToken(t)
    case Paren(s) => WF(s)
    case Call1(f, a) => IsFunction(f) && WF(a)
    case Call2(f, a, b) => IsFunction(f) && WF(a) && Level(a) <= 2 && WF(b) && !LeadSign(b)
    case Sign(op, u) => IsLexical(op) && op.Op1? && WF(u) && Level(u) <= 1
    case Bare(_, _) => false
    case Bin(l, op, r) =>
      IsLexical(op) && IsBinaryOp(op) && WF(l) && WF(r) && Level(l) <= OpLevel(op) && Level(r) < OpLevel(op)
  }

  /** No function stands without parentheses, no comma outside a call of two
      arguments; of these the first has no `*`, `/` or binary sign outside
      parentheses, and the second no leading sign. */
  predicate Narrow(c: Cst) {
    match c
    case Leaf(_) => true
    case Paren(s) => Narrow(s)
    case Call1(_, a) => Narrow(a)
    case Call2(_, a, b) => Narrow(a) && Level(a) <= 2 && Narrow(b) && !LeadSign(b)
    case Sign(_, u) => Narrow(u)
    case Bare(_, _) => false
    case Bin(l, op, r) => !op.Com? && Narrow(l) && Narrow(r)
  }

  /** The parse tree a derivation stands for: parentheses leave no trace. */
  function Ast(c: Cst): (t: Tree)
    ensures t.Node?
  {
    match c
    case Leaf(t) => Node(t, Null, Null)
    case Paren(s) => Ast(s)
    case Call1(f, a) => Node(f, Null, Ast(a))
    case Call2(f, a, b) => Node(f, Ast(a), Ast(b))
    case Sign(op, u) => Node(op, Null, Ast(u))
    case Bare(f, u) => Node(f, Null, Ast(u))
    case Bin(l, op, r) => Node(op, Ast(l), Ast(r))
  }

  /** What the parser recognises is the narrow part of what is promised. */
  lemma {:induction false} WellFormedIsNarrow(c: Cst)
    ensures WF(c) <==> Wide(c) && Narrow(c)
    ensures WF(c) ==> Level(c) <= 4
  {
    match c
    case Leaf(_) =>
    case Paren(s) => WellFormedIsNarrow(s);
    case Call1(_, a) => WellFormedIsNarrow(a);
    case Call2(_, a, b) => WellFormedIsNarrow(a); WellFormedIsNarrow(b);
    case Sign(_, u) => WellFormedIsNarrow(u);
    case Bare(_, _) =>
    case Bin(l, _, r) => WellFormedIsNarrow(l); WellFormedIsNarrow(r);
  }

  lemma {:induction false} YieldIsLexical(c: Cst)
    requires Wide(c)
    ensures AllLexical(Yield(c))
  {
    match c
    case Leaf(_) =>
    case Paren(s) => YieldIsLexical(s);
    case Call1(_, a) => YieldIsLexical(a);
    case Call2(_, a, b) => YieldIsLexical(a); YieldIsLexical(b);
    case Sign(_, u) => YieldIsLexical(u);
    case Bare(_, u) => YieldIsLexical(u);
    case Bin(l, _, r) => YieldIsLexical(l); YieldIsLexical(r);
  }
}
