/** How the account of an expression is put together from the accounts of its parts.
    `Accounts(e, lv, ts, i, n, j)` says that `e` explains a level that went from `i` to
    `j` and returned `n`. Nothing here mentions the parser. */
module ExprShapes {
  import opened Outcomes
  import opened Tokens
  import opened Nodes
  import opened Operators
  import opened Syntax

  predicate Dotted(ts: seq<Token>, i: nat) {
    0 < i <= |ts| && ts[i - 1].kind == Dot
  }

  /** An array access as the very first tokens: the look-behind for a dot then reads
      the token before the first one. */
  predicate LooksBehindStart(ts: seq<Token>, i: nat) {
    i == 0 && |ts| > 1 && ts[0].kind == Ident && ts[1].kind == LBrack
  }

  predicate Accounts(e: Expr, lv: nat, ts: seq<Token>, i: nat, n: Node, j: nat) {
    && Fits(e, lv, Dotted(ts, i))
    && At(ts, i, Yield(e))
    && j == i + |Yield(e)|
    && Build(e) == n
    && Follows(e, lv, ts, j)
    && NoLogic(e)
  }

  predicate AccountsList(es: Exprs, ts: seq<Token>, i: nat, n: Node, j: nat) {
    && FitsAll(es)
    && At(ts, i, YieldList(es))
    && j == i + |YieldList(es)|
    && BuildList(es) == n
    && NoLogicAll(es)
  }

  predicate AccountsIndices(es: Exprs, ts: seq<Token>, i: nat, n: Node, j: nat) {
    && FitsAll(es)
    && At(ts, i, YieldIndices(es))
    && j == i + |YieldIndices(es)|
    && BuildIndices(es) == n
    && NoLogicAll(es)
  }

  lemma {:induction false} FitsMonotone(e: Expr, lv: nat, lv': nat, dotted: bool)
    requires lv <= lv' && Fits(e, lv, dotted)
    ensures Fits(e, lv', dotted)
  {
  }

  /** The incomplete shapes are only met before `[` and at the end of the tokens. */
  lemma OpenNeeds(e: Expr, factor: bool, k: Kind)
    requires EndOk(e, factor, k) && k != LBrack && k != Eof
    ensures !OpenEnd(e)
  {
  }

  lemma Loosen(e: Expr, lv: nat, ts: seq<Token>, i: nat, n: Node, j: nat)
    requires 0 < lv && Accounts(e, lv - 1, ts, i, n, j)
    requires MULTIPLICATIVE <= lv ==> OperatorAt(lv, ts, j) == Ok(None)
    requires lv == CALL ==> EndOk(e, false, Look(ts, j))
    ensures Accounts(e, lv, ts, i, n, j)
  {
    FitsMonotone(e, lv - 1, lv, Dotted(ts, i));
    forall l | MULTIPLICATIVE <= l <= lv ensures OperatorAt(l, ts, j) == Ok(None) {
    }
  }

  /** Gluing an opening, a middle and a closing symbol. */
  lemma Enclosed(ts: seq<Token>, i: nat, open: seq<Token>, mid: seq<Token>, close: Kind)
    requires At(ts, i, open) && At(ts, i + |open|, mid)
    requires i + |open| + |mid| < |ts| && ts[i + |open| + |mid|] == Sym(close)
    ensures At(ts, i, open + (mid + [Sym(close)]))
  {
    var j := i + |open| + |mid|;
    AtOne(ts, j, Sym(close));
    AtSplit(ts, i + |open|, mid, [Sym(close)]);
    AtSplit(ts, i, open, mid + [Sym(close)]);
  }

  lemma BinAccounts(l: Expr, op: BinOp, r: Expr, lv: nat, ts: seq<Token>, i: nat, nl: Node, j: nat, nr: Node, k: nat)
    requires MULTIPLICATIVE <= lv <= OR && lv == OpLevel(op) && op != LogicAnd && op != LogicOr
    requires Accounts(l, lv - 1, ts, i, nl, j) && At(ts, j, OpTokens(op))
    requires Accounts(r, lv, ts, j + Width(op), nr, k)
    ensures Accounts(Bin(op, l, r), lv, ts, i, Mk(ExprBinary(op), nl, nr), k)
  {
    hide At, OpTokens, OpLevel, OperatorAt, NoOperator, Width, Fits, NoLogic, OpenEnd, EndOk, Build, Yield;
    OperatorBetween(op, ts, j);
    AtSplit(ts, j, OpTokens(op), Yield(r));
    AtSplit(ts, i, Yield(l), OpTokens(op) + Yield(r));
    OpenNeeds(l, false, ts[j].kind);
    BinUnfolds(l, op, r, lv, Dotted(ts, i), Look(ts, k));
  }

  lemma BinUnfolds(l: Expr, op: BinOp, r: Expr, lv: nat, dotted: bool, k: Kind)
    requires lv == OpLevel(op) && op != LogicAnd && op != LogicOr
    ensures Fits(Bin(op, l, r), lv, dotted) <==> Fits(l, lv - 1, dotted) && !OpenEnd(l) && Fits(r, lv, false)
    ensures Yield(Bin(op, l, r)) == Yield(l) + (OpTokens(op) + Yield(r))
            && Build(Bin(op, l, r)) == Mk(ExprBinary(op), Build(l), Build(r))
    ensures NoLogic(Bin(op, l, r)) <==> NoLogic(l) && NoLogic(r)
    ensures EndOk(Bin(op, l, r), false, k) <==> EndOk(r, false, k)
  {
    hide OpTokens, OpLevel;
  }

  /** What an operator in its place means for its neighbours. */
  lemma OperatorBetween(op: BinOp, ts: seq<Token>, j: nat)
    requires At(ts, j, OpTokens(op))
    ensures Width(op) == |OpTokens(op)| && j + Width(op) <= |ts| && j < |ts| && !Dotted(ts, j + Width(op))
    ensures Look(ts, j) !in {Dot, LBrack, LParen, Eof}
  {
    assert ts[j] == OpTokens(op)[0] && ts[j + Width(op) - 1] == OpTokens(op)[Width(op) - 1];
  }

  lemma PrefixAccounts(minus: bool, e1: Expr, ts: seq<Token>, i: nat, n: Node, j: nat)
    requires Accounts(e1, if minus then CALL else COMPARE, ts, i + 1, n, j)
    requires i < |ts| && ts[i] == Sym(if minus then Minus else Exclam)
    ensures minus ==> Accounts(Neg(e1), NEGATE, ts, i, Mk(ExprNegate, Null, Null), j)
    ensures !minus && OperatorAt(NOT, ts, j) == Ok(None) ==> Accounts(NotE(e1), NOT, ts, i, Mk(ExprNot, n, Null), j)
  {
    AtOne(ts, i, ts[i]);
    AtSplit(ts, i, [ts[i]], Yield(e1));
    assert !Dotted(ts, i + 1);
    if !minus && OperatorAt(NOT, ts, j) == Ok(None) {
      forall l | MULTIPLICATIVE <= l <= NOT ensures OperatorAt(l, ts, j) == Ok(None) {
      }
    }
  }

  lemma CallAccounts(x: string, es: Exprs, ts: seq<Token>, i: nat, n: Node, j: nat)
    requires At(ts, i, [Name(x), Sym(LParen)]) && AccountsList(es, ts, i + 2, n, j)
    requires j < |ts| && ts[j] == Sym(RParen)
    ensures Accounts(CallN(x, es), CALL, ts, i, Mk(ExprCall, Leaf(ConstVarname, Str(x)), n), j + 1)
  {
    Enclosed(ts, i, [Name(x), Sym(LParen)], YieldList(es), RParen);
  }

  lemma LiteralAccounts(isArray: bool, es: Exprs, ts: seq<Token>, i: nat, n: Node, j: nat)
    requires i < j < |ts| && AccountsList(es, ts, i + 1, n, j)
    requires ts[i] == Sym(if isArray then LBrack else LCurly) && ts[j] == Sym(if isArray then RBrack else RCurly)
    ensures isArray ==> Accounts(ArrayLit(es), FACTOR, ts, i, Mk(ConstArray, n, Null), j + 1)
    ensures !isArray ==> Accounts(StructLit(es), FACTOR, ts, i, Mk(ConstStruct, n, Null), j + 1)
  {
    AtOne(ts, i, ts[i]);
    Enclosed(ts, i, [ts[i]], YieldList(es), if isArray then RBrack else RCurly);
  }

  lemma ParenAccounts(e1: Expr, ts: seq<Token>, i: nat, n: Node, j: nat)
    requires i < j < |ts| && Accounts(e1, OR, ts, i + 1, n, j)
    requires ts[i] == Sym(LParen) && ts[j] == Sym(RParen)
    ensures Accounts(Paren(e1), FACTOR, ts, i, n, j + 1)
  {
    AtOne(ts, i, ts[i]);
    Enclosed(ts, i, [ts[i]], Yield(e1), RParen);
    OpenNeeds(e1, false, RParen);
    assert !Dotted(ts, i + 1);
  }

  lemma MemberAccounts(x: string, t: Expr, ts: seq<Token>, i: nat, n: Node, j: nat)
    requires At(ts, i, [Name(x), Sym(Dot)]) && Accounts(t, FACTOR, ts, i + 2, n, j)
    ensures Accounts(Member(x, t), FACTOR, ts, i, Mk(ExprMemberAccess, Leaf(ConstVarname, Str(x)), n), j)
  {
    AtSplit(ts, i, [Name(x), Sym(Dot)], Yield(t));
    AtTwo(ts, i, Name(x), Sym(Dot));
    assert Dotted(ts, i + 2);
  }

  lemma IndexAccounts(x: string, es: Exprs, ts: seq<Token>, i: nat, n: Node, j: nat)
    requires i < |ts| && ts[i] == Name(x) && AccountsIndices(es, ts, i + 1, n, j)
    requires !Dotted(ts, i) && Look(ts, j) != LBrack
    ensures Accounts(Index(x, es), FACTOR, ts, i, Mk(ExprArrayAccess, Leaf(ConstVarname, Str(x)), n), j)
  {
    AtOne(ts, i, ts[i]);
    AtSplit(ts, i, [Name(x)], YieldIndices(es));
  }

  lemma LastIndexAccounts(e: Expr, ts: seq<Token>, i: nat, n: Node, j: nat)
    requires i < j < |ts| && Accounts(e, OR, ts, i + 1, n, j)
    requires ts[i] == Sym(LBrack) && ts[j] == Sym(RBrack)
    ensures AccountsIndices(Last(e), ts, i, Mk(ExprArrayIndex, n, Null), j + 1)
  {
    AtOne(ts, i, ts[i]);
    Enclosed(ts, i, [ts[i]], Yield(e), RBrack);
    OpenNeeds(e, false, RBrack);
    assert !Dotted(ts, i + 1);
  }

  lemma MoreIndicesAccounts(e: Expr, es: Exprs, ts: seq<Token>, i: nat, n: Node, j: nat, m: Node, k: nat)
    requires AccountsIndices(Last(e), ts, i, Mk(ExprArrayIndex, n, Null), j)
    requires AccountsIndices(es, ts, j, m, k)
    ensures AccountsIndices(More(e, es), ts, i, Mk(ExprArrayIndex, n, m), k)
  {
    AtSplit(ts, i, YieldIndices(Last(e)), YieldIndices(es));
    assert YieldIndices(Last(e)) + YieldIndices(es) == YieldIndices(More(e, es));
  }

  lemma LastItemAccounts(e: Expr, ts: seq<Token>, i: nat, n: Node, j: nat)
    requires Accounts(e, OR, ts, i, n, j) && !Dotted(ts, i) && Look(ts, j) != LBrack && Look(ts, j) != Eof
    ensures AccountsList(Last(e), ts, i, Mk(ExprList, n, Null), j)
  {
    OpenNeeds(e, false, Look(ts, j));
  }

  lemma MoreItemsAccounts(e: Expr, es: Exprs, ts: seq<Token>, i: nat, n: Node, j: nat, m: Node, k: nat)
    requires AccountsList(Last(e), ts, i, Mk(ExprList, n, Null), j)
    requires j < |ts| && ts[j] == Sym(Comma) && AccountsList(es, ts, j + 1, m, k)
    ensures AccountsList(More(e, es), ts, i, Mk(ExprList, n, m), k)
  {
    AtOne(ts, j, Sym(Comma));
    AtSplit(ts, j, [Sym(Comma)], YieldList(es));
    AtSplit(ts, i, Yield(e), [Sym(Comma)] + YieldList(es));
  }
}
