/** The shift-reduce machine of reduce.c and parse.c as functions on the stack
    contents `stack[0..st_pnt]` and the input token. */
module ExprMachine {
  import opened Options
  import opened ExprSyntax

  type Stack = seq<Token>

  /** A `struct tok_str *` argument of expr_reduce: possibly NULL. */
  datatype Ref = Nil | At(tok: Token)

  /** `->value.bval` */
  function Bval(r: Ref): Tree {
    if r.At? && r.tok.Expr? then r.tok.tree else Null
  }

  function ExprReduce(a: Token, b: Ref, c: Ref): Token {
    match a
    case Fn(_) => Expr(if c.At? then Node(a, Bval(b), Bval(c)) else Node(a, Null, Bval(b)))
    case Vfn(_) => Expr(if c.At? then Node(a, Bval(b), Bval(c)) else Node(a, Null, Bval(b)))
    case Op1(_) => Expr(Node(a, Null, Bval(b)))
    case Expr(t) => Expr(Node(if b.At? then b.tok else TopStk, t, Bval(c)))
    case _ => Expr(Node(a, Null, Null))
  }

  /** The mask at reduce.c:136: what may stand in front of a unary sign. */
  predicate BeforeSign(t: Token) {
    t.Op1? || t.Op2? || t.Op3? || t.TopStk? || t.Fn? || t.Vfn? || t.LPar?
  }

  /** One call of reduce(): the new stack and input token, or None when it
      returns FALSE. */
  function Reduce(st: Stack, inp: Token): (r: Option<(Stack, Token)>)
    requires |st| > 0
    ensures r.Some? ==> |r.value.0| <= |st|
    ensures r.Some? && |r.value.0| == |st| ==> !inp.Expr? && r.value.1.Expr?
  {
    var n := |st|;
    var top := st[n-1];
    match inp
    case Str(_) => Some((st, ExprReduce(inp, Nil, Nil)))
    case RConst(_) => Some((st, ExprReduce(inp, Nil, Nil)))
    case SolVal(_) => Some((st, ExprReduce(inp, Nil, Nil)))
    case Expr(_) =>
      if top.Op1? && n > 1 && BeforeSign(st[n-2]) then
        Some((st[..n-1], ExprReduce(top, At(inp), Nil)))
      else if top.Op3? && n > 1 && st[n-2].Expr? then
        Some((st[..n-2], ExprReduce(st[n-2], At(top), At(inp))))
      else None
    case Op2(_) =>
      if top.Expr? && n > 2 && st[n-2].Op2? && st[n-3].Expr? then
        Some((st[..n-3] + [ExprReduce(st[n-3], At(st[n-2]), At(top))], inp))
      else None
    case Eoi => ReduceSum(st, inp)
    case Op1(_) => ReduceSum(st, inp)
    case RPar =>
      if !top.Expr? then None
      else if n > 2 && (st[n-2].Op1? || st[n-2].Op2?) && st[n-3].Expr? then
        Some((st[..n-3] + [ExprReduce(st[n-3], At(st[n-2]), At(top))], inp))
      else if n > 4 && st[n-2].Com? && st[n-3].Expr? && st[n-4].LPar? && IsFunction(st[n-5]) then
        Some((st[..n-5], ExprReduce(st[n-5], At(st[n-3]), At(top))))
      else if n > 2 && st[n-2].LPar? && IsFunction(st[n-3]) then
        Some((st[..n-3], ExprReduce(st[n-3], At(top), Nil)))
      else if n > 2 && st[n-2].LPar? then
        Some((st[..n-2], top))
      else None
    case _ => None
  }

  /** The shared rule for end of input and for an incoming sign. */
  function ReduceSum(st: Stack, inp: Token): (r: Option<(Stack, Token)>)
    requires |st| > 0
  {
    var n := |st|;
    if st[n-1].Expr? && n > 2 && (st[n-2].Op1? || st[n-2].Op2?) && st[n-3].Expr? then
      Some((st[..n-3] + [ExprReduce(st[n-3], At(st[n-2]), At(st[n-1]))], inp))
    else None
  }

  /** The bottom marker is there, and only there. */
  predicate StackOk(st: Stack) {
    |st| > 0 && st[0].TopStk? && forall i :: 0 < i < |st| ==> !st[i].TopStk?
  }

  lemma ReduceKeepsStackOk(st: Stack, inp: Token)
    requires StackOk(st) && Reduce(st, inp).Some?
    ensures StackOk(Reduce(st, inp).value.0)
    ensures inp.Eoi? <==> Reduce(st, inp).value.1.Eoi?
    ensures !inp.TopStk? && !Reduce(st, inp).value.1.TopStk?
  {
  }

  /** `while( reduce() );` */
  function ReduceAll(st: Stack, inp: Token): (Stack, Token)
    requires StackOk(st)
    decreases |st|, if inp.Expr? then 0 else 1
  {
    var r := Reduce(st, inp);
    if r.None? then (st, inp)
    else
      ReduceKeepsStackOk(st, inp);
      ReduceAll(r.value.0, r.value.1)
  }

  /** One turn of the driver loop: reduce, then push the input token. */
  function Feed(st: Stack, inp: Token): (st': Stack)
    requires StackOk(st) && !inp.TopStk?
    ensures StackOk(st')
    decreases |st|, if inp.Expr? then 0 else 1
  {
    var r := Reduce(st, inp);
    if r.None? then st + [inp]
    else
      ReduceKeepsStackOk(st, inp);
      Feed(r.value.0, r.value.1)
  }

  lemma {:induction false} FeedIsReduceAllThenPush(st: Stack, inp: Token)
    requires StackOk(st) && !inp.TopStk?
    ensures var (s, i) := ReduceAll(st, inp);
            Feed(st, inp) == s + [i] && (i.Eoi? <==> inp.Eoi?)
    decreases |st|, if inp.Expr? then 0 else 1
  {
    var r := Reduce(st, inp);
    if r.Some? {
      ReduceKeepsStackOk(st, inp);
      FeedIsReduceAllThenPush(r.value.0, r.value.1);
    }
  }

  predicate NoBottom(toks: seq<Token>) {
    forall t <- toks :: !t.TopStk?
  }

  /** The driver loop over a token sequence. */
  function Run(st: Stack, toks: seq<Token>): (st': Stack)
    requires StackOk(st) && NoBottom(toks)
    ensures StackOk(st')
    decreases |toks|
  {
    if toks == [] then st else Run(Feed(st, toks[0]), toks[1..])
  }

  lemma {:induction false} RunAppend(st: Stack, a: seq<Token>, b: seq<Token>)
    requires StackOk(st) && NoBottom(a) && NoBottom(b)
    ensures Run(st, a + b) == Run(Run(st, a), b)
    decreases |a|
  {
    if a == [] {
      assert a + b == b;
    } else {
      assert (a + b)[1..] == a[1..] + b;
      RunAppend(Feed(st, a[0]), a[1..], b);
    }
  }

  /** The acceptance test at the end of parse_expr. */
  function Accept(st: Stack): Option<Tree> {
    if |st| == 3 && st[0].TopStk? && st[1].Expr? && st[2].Eoi? then Some(st[1].tree) else None
  }

  /** parse_expr on the tokens of one string. */
  function Parse(toks: seq<Token>): Option<Tree>
    requires AllLexical(toks)
  {
    Accept(Run([TopStk], toks + [Eoi]))
  }

  // ----------------------------------------------------------- detect_error

  /** expr.h:33-46 */
  function TypeCode(t: Token): bv16 {
    match t
    case Expr(_) => 0x0001
    case Op1(_) => 0x0002
    case Op2(_) => 0x0004
    case Fn(_) => 0x0008
    case Vfn(_) => 0x0010
    case LPar => 0x0020
    case RPar => 0x0040
    case RConst(_) => 0x0080
    case SolVal(_) => 0x0100
    case TopStk => 0x0200
    case Eoi => 0x0400
    case Op3(_) => 0x0800
    case Com => 0x1000
    case Str(_) => 0x2000
  }

  /** C's `!` on an int. */
  function Not(x: bv16): (r: bv16)
    ensures r == 1 <==> x == 0
    ensures r == 0 <==> x != 0
  {
    if x == 0 then 1 else 0
  }

  /** detect_error(): `! input_token.type & mask` groups as `(! type) & mask`. */
  predicate DetectError(top: Token, below: Ref, inp: Token) {
    var code := Not(TypeCode(inp));
    match top
    case Op1(_) =>
      (code & 0x01b8) != 0 && (if inp.Op1? then !(below.At? && below.tok.Expr?) else true)
    case TopStk => (code & 0x01ba) != 0
    case Op3(_) => (code & 0x01ba) != 0
    case Op2(_) => (code & 0x01ba) != 0
    case Com => (code & 0x01ba) != 0
    case LPar => (code & 0x01ba) != 0
    case Vfn(_) => (code & 0x01ba) != 0
    case Fn(_) => (code & 0x01ba) != 0
    case Expr(_) => (code & 0x0c46) != 0
    case RConst(_) => (code & 0x0c46) != 0
    case SolVal(_) => (code & 0x0c46) != 0
    case Str(_) => (code & 0x0c46) != 0
    case RPar => (code & 0x0c46) != 0
    case Eoi => false
  }

  /** The early error test never rejects anything. */
  lemma DetectErrorNeverFires(top: Token, below: Ref, inp: Token)
    ensures !DetectError(top, below, inp)
  {
    assert TypeCode(inp) != 0;
  }
}
