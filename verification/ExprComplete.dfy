/** Completeness of every level: a written expression that the level grammar admits,
    followed by something that does not continue it, is parsed to its tree with the
    cursor exactly behind it. */
module ExprComplete {
  import opened Outcomes
  import opened Tokens
  import opened Nodes
  import opened Operators
  import opened Syntax
  import opened ExprParser
  import opened ExprCases
  import opened ExprShapes
  import opened ExprParts

  lemma {:induction false} Complete(e: Expr, lv: nat, ts: seq<Token>, i: nat, n: Node, j: nat)
    requires lv <= OR && !LooksBehindStart(ts, i) && Accounts(e, lv, ts, i, n, j) && j < |ts|
    ensures Level(lv, ts, i) == Ok(Parsed(n, j))
    decreases e, lv + 2
  {
    if e.Bin? && OpLevel(e.op) == lv {
      CompleteBin(e, ts, i, n, j);
    } else if e.NotE? && lv == NOT {
      CompletePrefix(false, e, ts, i, n, j);
    } else if (e.Neg? || e.BareMinus?) && lv == NEGATE {
      CompletePrefix(true, e, ts, i, n, j);
    } else if (e.Call0? || e.CallN?) && lv == CALL {
      CompleteCall(e, ts, i, n, j);
    } else if lv == FACTOR {
      CompleteFactor(e, ts, i, n, j);
    } else {
      hide Level, Accounts, OperatorAt;
      Tighten(e, lv, ts, i, n, j);
      Complete(e, lv - 1, ts, i, n, j);
      Descend(lv, ts, i, Parsed(n, j));
    }
  }

  /** A level that finds nothing of its own returns what the tighter level returned. */
  lemma Descend(lv: nat, ts: seq<Token>, i: nat, p: Parsed)
    requires 0 < lv <= OR && Level(lv - 1, ts, i) == Ok(p)
    requires i < |ts| && Starter(ts[i].kind, lv - 1)
    requires lv >= MULTIPLICATIVE ==> OperatorAt(lv, ts, p.next) == Ok(None)
    requires lv == CALL ==> !(i + 1 < |ts| && ts[i].kind == Ident && ts[i + 1].kind == LParen)
    ensures Level(lv, ts, i) == Ok(p)
  {
    hide OperatorAt, Factor;
    if lv == CALL {
      assert Call(ts, i) == Ok(p);
    } else if lv == NEGATE {
      assert Negate(ts, i) == Ok(p);
    } else if lv == NOT {
      assert Not(ts, i) == Ok(p);
    } else {
      assert Binary(lv, ts, i) == Ok(p);
    }
  }

  lemma {:induction false} CompleteBin(e: Expr, ts: seq<Token>, i: nat, n: Node, j: nat)
    requires e.Bin? && !LooksBehindStart(ts, i) && Accounts(e, OpLevel(e.op), ts, i, n, j) && j < |ts|
    ensures Level(OpLevel(e.op), ts, i) == Ok(Parsed(n, j))
    decreases e, 0
  {
    hide Accounts, Level, OpLevel, OperatorAt, Width, Yield, Build;
    var lv := OpLevel(e.op);
    var k := i + |Yield(e.l)|;
    BinLeft(e.l, e.op, e.r, ts, i, n, j);
    BinRight(e.l, e.op, e.r, ts, i, n, j);
    LeftFollowed(e, ts, k);
    Complete(e.l, lv - 1, ts, i, Build(e.l), k);
    Complete(e.r, lv, ts, k + Width(e.op), Build(e.r), j);
    BuildIsThere(e.r);
    BinaryStep(lv, ts, i, Parsed(Build(e.l), k), e.op, Parsed(Build(e.r), j));
  }

  lemma LeftFollowed(e: Expr, ts: seq<Token>, k: nat)
    requires e.Bin? && OperatorAt(OpLevel(e.op), ts, k) == Ok(Some(e.op))
    ensures k < |ts| && MULTIPLICATIVE <= OpLevel(e.op) <= OR && OpLevel(e.op) != NOT
  {
  }

  lemma BuildIsThere(e: Expr)
    ensures Build(e) != Null
  {
  }

  lemma BinaryStep(lv: nat, ts: seq<Token>, i: nat, lhs: Parsed, op: BinOp, rhs: Parsed)
    requires MULTIPLICATIVE <= lv <= OR && lv != NOT && Level(lv - 1, ts, i) == Ok(lhs)
    requires OperatorAt(lv, ts, lhs.next) == Ok(Some(op))
    requires Level(lv, ts, lhs.next + Width(op)) == Ok(rhs) && rhs.node != Null
    ensures Level(lv, ts, i) == Ok(Parsed(Mk(ExprBinary(op), lhs.node, rhs.node), rhs.next))
  {
    hide OperatorAt, OpTokens, Width;
    assert Level(lv, ts, i) == Binary(lv, ts, i);
  }

  lemma {:induction false} CompletePrefix(minus: bool, e: Expr, ts: seq<Token>, i: nat, n: Node, j: nat)
    requires if minus then e.Neg? || e.BareMinus? else e.NotE?
    requires !LooksBehindStart(ts, i) && Accounts(e, if minus then NEGATE else NOT, ts, i, n, j) && j < |ts|
    ensures Level(if minus then NEGATE else NOT, ts, i) == Ok(Parsed(n, j))
    decreases e, 0
  {
    if e.BareMinus? {
      AtOne(ts, i, Sym(Minus));
      BareMinusStep(ts, i);
    } else {
      PrefixParts(minus, e.operand, ts, i, n, j);
      hide Accounts;
      Complete(e.operand, if minus then CALL else COMPARE, ts, i + 1, Build(e.operand), j);
      BuildIsThere(e.operand);
      PrefixStep(minus, ts, i, Parsed(Build(e.operand), j));
    }
  }

  lemma BareMinusStep(ts: seq<Token>, i: nat)
    requires i + 1 < |ts| && ts[i] == Sym(Minus) && ts[i + 1].kind == Eof
    ensures Level(NEGATE, ts, i) == Ok(Parsed(Mk(ExprNegate, Null, Null), i + 1))
  {
    assert Factor(ts, i + 1) == Ok(Parsed(Null, i + 1));
    assert Call(ts, i + 1) == Ok(Parsed(Null, i + 1));
    assert Negate(ts, i) == Ok(Parsed(Mk(ExprNegate, Null, Null), i + 1));
  }

  lemma PrefixStep(minus: bool, ts: seq<Token>, i: nat, p: Parsed)
    requires i < |ts| && ts[i] == Sym(if minus then Minus else Exclam)
    requires Level(if minus then CALL else COMPARE, ts, i + 1) == Ok(p) && p.node != Null
    requires Look(ts, i + 1) != Equal
    ensures minus ==> Level(NEGATE, ts, i) == Ok(Parsed(Mk(ExprNegate, Null, Null), p.next))
    ensures !minus ==> Level(NOT, ts, i) == Ok(Parsed(Mk(ExprNot, p.node, Null), p.next))
  {
    if minus {
      assert Level(NEGATE, ts, i) == Negate(ts, i);
    } else {
      assert Level(NOT, ts, i) == Not(ts, i);
    }
  }

  lemma {:induction false} CompleteCall(e: Expr, ts: seq<Token>, i: nat, n: Node, j: nat)
    requires (e.Call0? || e.CallN?) && !LooksBehindStart(ts, i) && Accounts(e, CALL, ts, i, n, j) && j < |ts|
    ensures Level(CALL, ts, i) == Ok(Parsed(n, j))
    decreases e, 0
  {
    hide Level, List, Call, AccountsList;
    CallLevel(ts, i);
    if e.Call0? {
      AtThree(ts, i, Name(e.name), Sym(LParen), Sym(RParen));
    } else {
      CallParts(e.name, e.args, ts, i, n, j);
      CompleteList(e.args, ts, i + 2, BuildList(e.args), j - 1);
    }
    CallCases(ts, i);
  }

  lemma {:induction false} CompleteFactor(e: Expr, ts: seq<Token>, i: nat, n: Node, j: nat)
    requires !LooksBehindStart(ts, i) && Accounts(e, FACTOR, ts, i, n, j) && j < |ts|
    ensures Level(FACTOR, ts, i) == Ok(Parsed(n, j))
    decreases e, 1
  {
    hide *;
    FactorLevel(ts, i);
    match e
    case Paren(e1) => CompleteParen(e1, ts, i, n, j);
    case StructLit(es) => CompleteLiteral(false, es, ts, i, n, j);
    case ArrayLit(es) => CompleteLiteral(true, es, ts, i, n, j);
    case Lit(_, _) => CompleteLeaf(e, ts, i, n, j);
    case Var(_) => CompleteLeaf(e, ts, i, n, j);
    case Member(_, _) => CompleteMember(e, ts, i, n, j);
    case Index(_, _) => CompleteMember(e, ts, i, n, j);
    case Cut(_) => CompleteMember(e, ts, i, n, j);
    case _ => NotAFactor(e, ts, i, n, j);
  }

  lemma {:induction false} CompleteParen(e: Expr, ts: seq<Token>, i: nat, n: Node, j: nat)
    requires !LooksBehindStart(ts, i) && Accounts(Paren(e), FACTOR, ts, i, n, j) && j < |ts|
    ensures Factor(ts, i) == Ok(Parsed(n, j))
    decreases e, OR + 3
  {
    hide Level, Accounts, Factor;
    ParenParts(e, ts, i, n, j);
    Complete(e, OR, ts, i + 1, n, j - 1);
    ParenStep(ts, i, Parsed(n, j - 1));
  }

  lemma {:induction false} CompleteLiteral(isArray: bool, es: Exprs, ts: seq<Token>, i: nat, n: Node, j: nat)
    requires !LooksBehindStart(ts, i) && Accounts(if isArray then ArrayLit(es) else StructLit(es), FACTOR, ts, i, n, j)
             && j < |ts|
    ensures Factor(ts, i) == Ok(Parsed(n, j))
    decreases es, 1
  {
    hide Accounts, AccountsList, Factor, List, BuildList;
    LiteralParts(isArray, es, ts, i, n, j);
    CompleteList(es, ts, i + 1, BuildList(es), j - 1);
    LiteralStep(isArray, ts, i, Parsed(BuildList(es), j - 1));
    LiteralNode(es, ts, i, n, j);
  }

  lemma NotAFactor(e: Expr, ts: seq<Token>, i: nat, n: Node, j: nat)
    requires Accounts(e, FACTOR, ts, i, n, j)
    ensures !e.Call0? && !e.CallN? && !e.Neg? && !e.BareMinus? && !e.Bin? && !e.NotE?
  {
  }

  lemma ParenStep(ts: seq<Token>, i: nat, p: Parsed)
    requires i < |ts| && ts[i] == Sym(LParen) && Level(OR, ts, i + 1) == Ok(p) && Look(ts, p.next) == RParen
    ensures Factor(ts, i) == Ok(Parsed(p.node, p.next + 1))
  {
    hide Level;
  }

  lemma LiteralStep(isArray: bool, ts: seq<Token>, i: nat, p: Parsed)
    requires i < |ts| && ts[i] == Sym(if isArray then LBrack else LCurly) && List(ts, i + 1) == Ok(p)
    requires Look(ts, p.next) == if isArray then RBrack else RCurly
    ensures Factor(ts, i) == Ok(Parsed(Mk(if isArray then ConstArray else ConstStruct, p.node, Null), p.next + 1))
  {
    hide List;
  }

  lemma LiteralNode(es: Exprs, ts: seq<Token>, i: nat, n: Node, j: nat)
    ensures Accounts(StructLit(es), FACTOR, ts, i, n, j) ==> n == Mk(ConstStruct, BuildList(es), Null)
    ensures Accounts(ArrayLit(es), FACTOR, ts, i, n, j) ==> n == Mk(ConstArray, BuildList(es), Null)
  {
  }

  lemma CompleteLeaf(e: Expr, ts: seq<Token>, i: nat, n: Node, j: nat)
    requires (e.Lit? || e.Var?) && Accounts(e, FACTOR, ts, i, n, j)
    ensures Factor(ts, i) == Ok(Parsed(n, j))
  {
    AtOne(ts, i, Yield(e)[0]);
  }

  lemma {:induction false} CompleteMember(e: Expr, ts: seq<Token>, i: nat, n: Node, j: nat)
    requires e.Member? || e.Index? || e.Cut?
    requires !LooksBehindStart(ts, i) && Accounts(e, FACTOR, ts, i, n, j) && j < |ts|
    ensures Factor(ts, i) == Ok(Parsed(n, j))
    decreases e, 0
  {
    hide Level, ArrayIndex;
    match e
    case Member(x, t) =>
      MemberParts(x, t, ts, i, n, j);
      AtTwo(ts, i, Name(x), Sym(Dot));
      Complete(t, FACTOR, ts, i + 2, Build(t), j);
      BuildIsThere(t);
    case Index(x, es) =>
      IndexParts(x, es, ts, i, n, j);
      CompleteIndices(es, ts, i + 1, BuildIndices(es), j);
    case Cut(x) =>
      AtOne(ts, i, Name(x));
  }

  lemma {:induction false} CompleteIndices(es: Exprs, ts: seq<Token>, i: nat, n: Node, j: nat)
    requires AccountsIndices(es, ts, i, n, j) && Look(ts, j) != LBrack && j < |ts|
    ensures ArrayIndex(ts, i) == Ok(Parsed(n, j))
    decreases es, 0
  {
    hide Level, Accounts, AccountsIndices, ArrayIndex, Yield;
    IndicesParts(es, ts, i, n, j);
    var k := i + 1 + |Yield(es.head)|;
    Complete(es.head, OR, ts, i + 1, Build(es.head), k);
    if es.More? {
      CompleteIndices(es.rest, ts, k + 1, BuildIndices(es.rest), j);
    }
    ArrayIndexCases(ts, j);
    ArrayIndexCases(ts, i);
  }

  lemma {:induction false} CompleteList(es: Exprs, ts: seq<Token>, i: nat, n: Node, j: nat)
    requires !LooksBehindStart(ts, i) && AccountsList(es, ts, i, n, j) && !Dotted(ts, i)
    requires Look(ts, j) in {RParen, RBrack, RCurly} && j < |ts|
    ensures List(ts, i) == Ok(Parsed(n, j))
    decreases es, 0
  {
    hide Level, Accounts, AccountsList, List, Yield;
    ListParts(es, ts, i, n, j);
    var k := i + |Yield(es.head)|;
    Complete(es.head, OR, ts, i, Build(es.head), k);
    if es.More? {
      CompleteList(es.rest, ts, k + 1, BuildList(es.rest), j);
    }
    ListCases(ts, i);
  }
}
