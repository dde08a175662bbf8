/** Source expressions with their parentheses: how they are written (`Yield`), which
    of them the level grammar admits (`Fits`), and which tree stands for them. */
module Syntax {
  import opened Outcomes
  import opened Tokens
  import opened Nodes
  import opened Operators

  datatype Literal = StringLit | IntLit | FloatLit | BoolLit {
    function TokenKind(): Kind {
      match this
      case StringLit => LitString
      case IntLit => LitInt
      case FloatLit => LitFloat
      case BoolLit => LitBool
    }

    function NodeKind(): NodeKind {
      match this
      case StringLit => ConstString
      case IntLit => ConstInt
      case FloatLit => ConstFloat
      case BoolLit => ConstBool
    }
  }

  datatype Expr =
    | Lit(lit: Literal, value: Value)
    | Var(name: string)
    | Member(name: string, tail: Expr)
    | Index(name: string, indices: Exprs)
    | StructLit(items: Exprs)
    | ArrayLit(items: Exprs)
    | Paren(inner: Expr)
    | Call0(name: string)
    | CallN(name: string, args: Exprs)
    | Neg(operand: Expr)
    | Bin(op: BinOp, l: Expr, r: Expr)
    | NotE(operand: Expr)
    // Two shapes the parser accepts that no complete program contains: a name after
    // a dot that stops before a bracket, and a minus at the end of the tokens.
    | Cut(name: string)
    | BareMinus

  /** Non-empty comma-separated (or bracketed, for indices) sequences. */
  datatype Exprs = Last(head: Expr) | More(head: Expr, rest: Exprs)

  // ----- tokens

  function Yield(e: Expr): (s: seq<Token>)
    ensures |s| > 0
  {
    match e
    case Lit(lit, v) => [Token(lit.TokenKind(), v)]
    case Var(x) => [Name(x)]
    case Member(x, t) => [Name(x), Sym(Dot)] + Yield(t)
    case Index(x, es) => [Name(x)] + YieldIndices(es)
    case StructLit(es) => [Sym(LCurly)] + (YieldList(es) + [Sym(RCurly)])
    case ArrayLit(es) => [Sym(LBrack)] + (YieldList(es) + [Sym(RBrack)])
    case Paren(e1) => [Sym(LParen)] + (Yield(e1) + [Sym(RParen)])
    case Call0(x) => [Name(x), Sym(LParen), Sym(RParen)]
    case CallN(x, es) => [Name(x), Sym(LParen)] + (YieldList(es) + [Sym(RParen)])
    case Neg(e1) => [Sym(Minus)] + Yield(e1)
    case Bin(op, l, r) => Yield(l) + (OpTokens(op) + Yield(r))
    case NotE(e1) => [Sym(Exclam)] + Yield(e1)
    case Cut(x) => [Name(x)]
    case BareMinus => [Sym(Minus)]
  }

  function YieldList(es: Exprs): (s: seq<Token>)
    ensures |s| > 0
  {
    match es
    case Last(e) => Yield(e)
    case More(e, rest) => Yield(e) + ([Sym(Comma)] + YieldList(rest))
  }

  function YieldIndices(es: Exprs): (s: seq<Token>)
    ensures |s| > 0
  {
    match es
    case Last(e) => [Sym(LBrack)] + (Yield(e) + [Sym(RBrack)])
    case More(e, rest) => [Sym(LBrack)] + (Yield(e) + ([Sym(RBrack)] + YieldIndices(rest)))
  }

  // ----- the level grammar

  /** The right-recursive level grammar: a binary operator takes a left operand one
      level tighter and a right operand of its own level. `dotted` says that the
      expression stands directly after a dot, where an array access is not recognised. */
  predicate Fits(e: Expr, lv: nat, dotted: bool) {
    match e
    case Lit(_, _) => true
    case Var(_) => true
    case Member(_, t) => Fits(t, FACTOR, true)
    case Index(_, es) => !dotted && FitsAll(es)
    case StructLit(es) => FitsAll(es)
    case ArrayLit(es) => FitsAll(es)
    case Paren(e1) => Fits(e1, OR, false) && !OpenEnd(e1)
    case Call0(_) => lv >= CALL
    case CallN(_, es) => lv >= CALL && FitsAll(es)
    case Neg(e1) => lv >= NEGATE && Fits(e1, CALL, false)
    case Bin(op, l, r) =>
      lv >= OpLevel(op) && Fits(l, OpLevel(op) - 1, dotted) && !OpenEnd(l) && Fits(r, OpLevel(op), false)
    case NotE(e1) => lv >= NOT && Fits(e1, COMPARE, false)
    case Cut(_) => dotted
    case BareMinus => lv >= NEGATE
  }

  predicate FitsAll(es: Exprs) {
    Fits(es.head, OR, false) && !OpenEnd(es.head) && (es.More? ==> FitsAll(es.rest))
  }

  /** The expression ends in one of the two incomplete shapes. */
  predicate OpenEnd(e: Expr) {
    match e
    case Member(_, t) => OpenEnd(t)
    case Neg(e1) => OpenEnd(e1)
    case Bin(_, _, r) => OpenEnd(r)
    case NotE(e1) => OpenEnd(e1)
    case Cut(_) => true
    case BareMinus => true
    case _ => false
  }

  /** The token kinds that may follow the last factor of `e`: they decide whether a
      name is a variable, a call, a member access or an array access. */
  predicate EndOk(e: Expr, factor: bool, k: Kind) {
    match e
    case Var(_) => k != Dot && k != LBrack && (factor || k != LParen)
    case Member(_, t) => EndOk(t, true, k)
    case Index(_, _) => k != LBrack
    case Neg(e1) => EndOk(e1, false, k)
    case Bin(_, _, r) => EndOk(r, false, k)
    case NotE(e1) => EndOk(e1, false, k)
    case Cut(_) => k == LBrack
    case BareMinus => k == Eof
    case _ => true
  }

  /** No operator of level `lv` or tighter stands at `i`. */
  predicate NoOperator(lv: nat, ts: seq<Token>, i: nat) {
    forall l :: MULTIPLICATIVE <= l <= lv ==> OperatorAt(l, ts, i) == Ok(None)
  }

  /** What follows at `j` ends the expression `e` at level `lv`. */
  predicate Follows(e: Expr, lv: nat, ts: seq<Token>, j: nat) {
    EndOk(e, lv == FACTOR, Look(ts, j)) && NoOperator(lv, ts, j)
  }

  // ----- trees

  /** The tree the parser makes. It differs from `Tree` in one place: a negation has
      no operand. */
  function Build(e: Expr): Node {
    match e
    case Lit(lit, v) => Leaf(lit.NodeKind(), v)
    case Var(x) => Leaf(ConstVarname, Str(x))
    case Member(x, t) => Mk(ExprMemberAccess, Leaf(ConstVarname, Str(x)), Build(t))
    case Index(x, es) => Mk(ExprArrayAccess, Leaf(ConstVarname, Str(x)), BuildIndices(es))
    case StructLit(es) => Mk(ConstStruct, BuildList(es), Null)
    case ArrayLit(es) => Mk(ConstArray, BuildList(es), Null)
    case Paren(e1) => Build(e1)
    case Call0(x) => Mk(ExprCall, Leaf(ConstVarname, Str(x)), Null)
    case CallN(x, es) => Mk(ExprCall, Leaf(ConstVarname, Str(x)), BuildList(es))
    case Neg(_) => Mk(ExprNegate, Null, Null)
    case Bin(op, l, r) => Mk(ExprBinary(op), Build(l), Build(r))
    case NotE(e1) => Mk(ExprNot, Build(e1), Null)
    case Cut(x) => Mk(ExprMemberAccess, Leaf(ConstVarname, Str(x)), Null)
    case BareMinus => Mk(ExprNegate, Null, Null)
  }

  function BuildList(es: Exprs): Node {
    Mk(ExprList, Build(es.head), if es.More? then BuildList(es.rest) else Null)
  }

  function BuildIndices(es: Exprs): Node {
    Mk(ExprArrayIndex, Build(es.head), if es.More? then BuildIndices(es.rest) else Null)
  }

  /** No `&&` or `||`. */
  predicate NoLogic(e: Expr) {
    match e
    case Member(_, t) => NoLogic(t)
    case Index(_, es) => NoLogicAll(es)
    case StructLit(es) => NoLogicAll(es)
    case ArrayLit(es) => NoLogicAll(es)
    case Paren(e1) => NoLogic(e1)
    case CallN(_, es) => NoLogicAll(es)
    case Neg(e1) => NoLogic(e1)
    case Bin(op, l, r) => op != LogicAnd && op != LogicOr && NoLogic(l) && NoLogic(r)
    case NotE(e1) => NoLogic(e1)
    case _ => true
  }

  predicate NoLogicAll(es: Exprs) {
    NoLogic(es.head) && (es.More? ==> NoLogicAll(es.rest))
  }

  /** No negation of an operand. */
  predicate NoNeg(e: Expr) {
    match e
    case Member(_, t) => NoNeg(t)
    case Index(_, es) => NoNegAll(es)
    case StructLit(es) => NoNegAll(es)
    case ArrayLit(es) => NoNegAll(es)
    case Paren(e1) => NoNeg(e1)
    case CallN(_, es) => NoNegAll(es)
    case Neg(_) => false
    case Bin(_, l, r) => NoNeg(l) && NoNeg(r)
    case NotE(e1) => NoNeg(e1)
    case _ => true
  }

  predicate NoNegAll(es: Exprs) {
    NoNeg(es.head) && (es.More? ==> NoNegAll(es.rest))
  }
}
