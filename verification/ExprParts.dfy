/** How the account of an expression falls apart into the accounts of its parts. This
    is where two tokens of lookahead matter: an operator must not be mistaken for one
    of a tighter level. */
module ExprParts {
  import opened Outcomes
  import opened Tokens
  import opened Nodes
  import opened Operators
  import opened Syntax
  import opened ExprShapes

  /** The kinds an expression of level `lv` can begin with. */
  predicate Starter(k: Kind, lv: nat) {
    || k in {LitInt, LitFloat, LitBool, LitString, Ident, LCurly, LBrack, LParen}
    || (k == Minus && lv >= NEGATE)
    || (k == Exclam && lv >= NOT)
  }

  lemma {:induction false} YieldStarts(e: Expr, lv: nat, dotted: bool)
    requires Fits(e, lv, dotted)
    ensures Starter(Yield(e)[0].kind, lv)
  {
    if e.Bin? {
      YieldStarts(e.l, OpLevel(e.op) - 1, dotted);
    }
  }

  lemma EndsBefore(e: Expr, factor: bool, k: Kind)
    requires !OpenEnd(e) && k != Dot && k != LBrack && k != LParen
    ensures EndOk(e, factor, k)
  {
  }

  lemma EndsAtFactor(e: Expr, k: Kind)
    requires EndOk(e, false, k)
    ensures EndOk(e, true, k)
  {
  }

  lemma EnclosedParts(ts: seq<Token>, i: nat, open: seq<Token>, mid: seq<Token>, close: Kind)
    requires At(ts, i, open + (mid + [Sym(close)]))
    ensures At(ts, i, open) && At(ts, i + |open|, mid)
    ensures i + |open| + |mid| < |ts| && ts[i + |open| + |mid|] == Sym(close)
  {
    AtSplit(ts, i, open, mid + [Sym(close)]);
    AtSplit(ts, i + |open|, mid, [Sym(close)]);
    AtOne(ts, i + |open| + |mid|, Sym(close));
  }

  /** Seen with its second symbol, or with the first token of its right operand, an
      operator is nothing to the tighter levels. */
  lemma NoTighterOperator(op: BinOp, lv: nat, k1: Kind)
    requires op != LogicAnd && op != LogicOr && lv < OpLevel(op)
    requires if Width(op) == 2 then k1 == OpTokens(op)[1].kind else Starter(k1, OpLevel(op))
    ensures OperatorOf(lv, OpTokens(op)[0].kind, k1) == None
    ensures !ReadsAhead(lv, OpTokens(op)[0].kind) ==> OperatorOf(lv, OpTokens(op)[0].kind, Eof) == None
  {
  }

  lemma OwnOperator(op: BinOp, k1: Kind)
    requires if Width(op) == 2 then k1 == OpTokens(op)[1].kind else Starter(k1, OpLevel(op))
    ensures var k0 := OpTokens(op)[0].kind;
            OperatorOf(OpLevel(op), k0, if ReadsAhead(OpLevel(op), k0) then k1 else Eof) == Some(op)
  {
  }

  lemma OperatorPosition(op: BinOp, r: Expr, ts: seq<Token>, j: nat)
    requires At(ts, j, OpTokens(op) + Yield(r)) && Fits(r, OpLevel(op), false)
    requires op != LogicAnd && op != LogicOr
    ensures OperatorAt(OpLevel(op), ts, j) == Ok(Some(op))
    ensures NoOperator(OpLevel(op) - 1, ts, j)
  {
    var w := OpTokens(op) + Yield(r);
    YieldStarts(r, OpLevel(op), false);
    assert ts[j] == w[0] && ts[j + 1] == w[1] by {
      AtIndex(ts, j, w, 0);
      AtIndex(ts, j, w, 1);
    }
    OwnOperator(op, ts[j + 1].kind);
    forall l | MULTIPLICATIVE <= l <= OpLevel(op) - 1 ensures OperatorAt(l, ts, j) == Ok(None) {
      NoTighterOperator(op, l, ts[j + 1].kind);
    }
  }

  lemma BinUnpack(l: Expr, op: BinOp, r: Expr, ts: seq<Token>, i: nat, n: Node, k: nat)
    requires Accounts(Bin(op, l, r), OpLevel(op), ts, i, n, k)
    ensures At(ts, i, Yield(l) + (OpTokens(op) + Yield(r))) && k == i + |Yield(l)| + |OpTokens(op)| + |Yield(r)|
    ensures op != LogicAnd && op != LogicOr && !OpenEnd(l)
    ensures Fits(l, OpLevel(op) - 1, Dotted(ts, i)) && NoLogic(l) && Fits(r, OpLevel(op), false) && NoLogic(r)
    ensures n == Mk(ExprBinary(op), Build(l), Build(r)) && Follows(r, OpLevel(op), ts, k)
  {
    hide At, OpTokens, OpLevel, OperatorAt;
  }

  lemma BinLeft(l: Expr, op: BinOp, r: Expr, ts: seq<Token>, i: nat, n: Node, k: nat)
    requires Accounts(Bin(op, l, r), OpLevel(op), ts, i, n, k)
    ensures var j := i + |Yield(l)|;
            Accounts(l, OpLevel(op) - 1, ts, i, Build(l), j) && OperatorAt(OpLevel(op), ts, j) == Ok(Some(op))
  {
    hide At, OpTokens, OpLevel, OperatorAt, Yield, Build, Width, Fits, NoLogic, NoOperator, OpenEnd, EndOk, Look;
    BinUnpack(l, op, r, ts, i, n, k);
    var j := i + |Yield(l)|;
    AtSplit(ts, i, Yield(l), OpTokens(op) + Yield(r));
    AtSplit(ts, j, OpTokens(op), Yield(r));
    OperatorPosition(op, r, ts, j);
    OperatorBetween(op, ts, j);
    EndsBefore(l, false, Look(ts, j));
  }

  lemma BinRight(l: Expr, op: BinOp, r: Expr, ts: seq<Token>, i: nat, n: Node, k: nat)
    requires Accounts(Bin(op, l, r), OpLevel(op), ts, i, n, k)
    ensures n == Mk(ExprBinary(op), Build(l), Build(r))
    ensures Accounts(r, OpLevel(op), ts, i + |Yield(l)| + Width(op), Build(r), k)
  {
    hide At, OpTokens, OpLevel, OperatorAt, Yield, Build, Fits, NoLogic, Follows, OpenEnd, Width;
    BinUnpack(l, op, r, ts, i, n, k);
    var j := i + |Yield(l)|;
    AtSplit(ts, i, Yield(l), OpTokens(op) + Yield(r));
    AtSplit(ts, j, OpTokens(op), Yield(r));
    OperatorBetween(op, ts, j);
  }

  /** An expression that does not use the level's own construct belongs to the next
      tighter level, and the level finds nothing of its own there. */
  lemma Tighten(e: Expr, lv: nat, ts: seq<Token>, i: nat, n: Node, j: nat)
    requires 0 < lv <= OR && Accounts(e, lv, ts, i, n, j)
    requires e.Bin? ==> OpLevel(e.op) != lv
    requires e.NotE? ==> lv != NOT
    requires e.Neg? || e.BareMinus? ==> lv != NEGATE
    requires e.Call0? || e.CallN? ==> lv != CALL
    ensures Accounts(e, lv - 1, ts, i, n, j)
    ensures i < |ts| && Starter(ts[i].kind, lv - 1)
    ensures lv >= MULTIPLICATIVE ==> OperatorAt(lv, ts, j) == Ok(None)
    ensures lv == CALL ==> !(i + 1 < |ts| && ts[i].kind == Ident && ts[i + 1].kind == LParen)
  {
    hide Fits, At, Yield, Build, EndOk, Starter;
    FitsTighter(e, lv, Dotted(ts, i));
    EndsAtFactor(e, Look(ts, j));
    YieldStarts(e, lv - 1, Dotted(ts, i));
    AtFirst(ts, i, Yield(e));
    if |Yield(e)| > 1 {
      AtIndex(ts, i, Yield(e), 1);
    }
    if lv == CALL {
      NoCallStart(e, ts, i, n, j);
    }
  }

  lemma FitsTighter(e: Expr, lv: nat, dotted: bool)
    requires 0 < lv <= OR && Fits(e, lv, dotted)
    requires (e.Bin? ==> OpLevel(e.op) != lv) && (e.NotE? ==> lv != NOT)
    requires (e.Neg? || e.BareMinus? ==> lv != NEGATE) && (e.Call0? || e.CallN? ==> lv != CALL)
    ensures Fits(e, lv - 1, dotted)
  {
  }

  lemma NoCallStart(e: Expr, ts: seq<Token>, i: nat, n: Node, j: nat)
    requires Accounts(e, CALL, ts, i, n, j) && !e.Call0? && !e.CallN? && i < |ts|
    requires ts[i] == Yield(e)[0]
    requires |Yield(e)| > 1 ==> i + 1 < |ts| && ts[i + 1] == Yield(e)[1]
    ensures !(i + 1 < |ts| && ts[i].kind == Ident && ts[i + 1].kind == LParen)
  {
    match e
    case Member(x, t) => assert Yield(e)[1] == Sym(Dot);
    case Index(x, es) => IndicesStart(es); assert Yield(e)[1] == YieldIndices(es)[0];
    case _ =>
  }

  lemma IndicesStart(es: Exprs)
    ensures YieldIndices(es)[0] == Sym(LBrack)
  {
  }

  lemma PrefixParts(minus: bool, e1: Expr, ts: seq<Token>, i: nat, n: Node, j: nat)
    requires if minus then Accounts(Neg(e1), NEGATE, ts, i, n, j) else Accounts(NotE(e1), NOT, ts, i, n, j)
    ensures i < |ts| && ts[i] == Sym(if minus then Minus else Exclam)
    ensures Accounts(e1, if minus then CALL else COMPARE, ts, i + 1, Build(e1), j)
    ensures Starter(Look(ts, i + 1), COMPARE)
  {
    var s := Sym(if minus then Minus else Exclam);
    AtSplit(ts, i, [s], Yield(e1));
    AtOne(ts, i, s);
    assert !Dotted(ts, i + 1);
    YieldStarts(e1, if minus then CALL else COMPARE, false);
    AtFirst(ts, i + 1, Yield(e1));
  }

  lemma ParenParts(e1: Expr, ts: seq<Token>, i: nat, n: Node, j: nat)
    requires Accounts(Paren(e1), FACTOR, ts, i, n, j)
    ensures i < j - 1 < |ts| && ts[i] == Sym(LParen) && ts[j - 1] == Sym(RParen)
    ensures Accounts(e1, OR, ts, i + 1, n, j - 1)
  {
    EnclosedParts(ts, i, [Sym(LParen)], Yield(e1), RParen);
    AtOne(ts, i, Sym(LParen));
    assert !Dotted(ts, i + 1);
    EndsBefore(e1, false, RParen);
    NoOperatorAtClose(ts, j - 1);
  }

  /** Closing symbols, commas and semicolons are operators of no level. */
  lemma NoOperatorAtClose(ts: seq<Token>, j: nat)
    requires j < |ts| && ts[j].kind in {RParen, RBrack, RCurly, Comma, Semicolon, Eof}
    ensures NoOperator(OR, ts, j)
  {
  }

  lemma MemberParts(x: string, t: Expr, ts: seq<Token>, i: nat, n: Node, j: nat)
    requires Accounts(Member(x, t), FACTOR, ts, i, n, j)
    ensures At(ts, i, [Name(x), Sym(Dot)]) && Accounts(t, FACTOR, ts, i + 2, Build(t), j)
  {
    AtSplit(ts, i, [Name(x), Sym(Dot)], Yield(t));
    AtTwo(ts, i, Name(x), Sym(Dot));
    assert Dotted(ts, i + 2);
  }

  lemma IndexParts(x: string, es: Exprs, ts: seq<Token>, i: nat, n: Node, j: nat)
    requires Accounts(Index(x, es), FACTOR, ts, i, n, j)
    ensures i + 1 < |ts| && ts[i] == Name(x) && ts[i + 1] == Sym(LBrack) && !Dotted(ts, i)
    ensures AccountsIndices(es, ts, i + 1, BuildIndices(es), j) && Look(ts, j) != LBrack
  {
    AtSplit(ts, i, [Name(x)], YieldIndices(es));
    AtOne(ts, i, Name(x));
    IndicesStart(es);
    AtFirst(ts, i + 1, YieldIndices(es));
  }

  lemma LiteralParts(isArray: bool, es: Exprs, ts: seq<Token>, i: nat, n: Node, j: nat)
    requires Accounts(if isArray then ArrayLit(es) else StructLit(es), FACTOR, ts, i, n, j)
    ensures i < j - 1 < |ts| && ts[i] == Sym(if isArray then LBrack else LCurly)
    ensures ts[j - 1] == Sym(if isArray then RBrack else RCurly)
    ensures AccountsList(es, ts, i + 1, BuildList(es), j - 1)
  {
    var open := Sym(if isArray then LBrack else LCurly);
    EnclosedParts(ts, i, [open], YieldList(es), if isArray then RBrack else RCurly);
    AtOne(ts, i, open);
  }

  lemma CallParts(x: string, es: Exprs, ts: seq<Token>, i: nat, n: Node, j: nat)
    requires Accounts(CallN(x, es), CALL, ts, i, n, j)
    ensures i + 2 < j - 1 < |ts| && ts[i] == Name(x) && ts[i + 1] == Sym(LParen) && ts[j - 1] == Sym(RParen)
    ensures AccountsList(es, ts, i + 2, BuildList(es), j - 1) && Starter(ts[i + 2].kind, OR)
  {
    EnclosedParts(ts, i, [Name(x), Sym(LParen)], YieldList(es), RParen);
    AtTwo(ts, i, Name(x), Sym(LParen));
    assert FitsAll(es);
    YieldStarts(es.head, OR, false);
    AtFirst(ts, i + 2, YieldList(es));
  }

  lemma IndicesParts(es: Exprs, ts: seq<Token>, i: nat, n: Node, j: nat)
    requires AccountsIndices(es, ts, i, n, j)
    ensures var k := i + 1 + |Yield(es.head)|;
            && i < |ts| && ts[i] == Sym(LBrack) && k < |ts| && ts[k] == Sym(RBrack)
            && Accounts(es.head, OR, ts, i + 1, Build(es.head), k)
            && (es.More? ==> AccountsIndices(es.rest, ts, k + 1, BuildIndices(es.rest), j))
            && (es.Last? ==> j == k + 1) && n == BuildIndices(es)
  {
    hide At, Yield, Build, Fits, NoLogic, NoOperator, OpenEnd, EndOk;
    var e := es.head;
    var first := [Sym(LBrack)] + (Yield(e) + [Sym(RBrack)]);
    if es.More? {
      assert YieldIndices(es) == first + YieldIndices(es.rest);
      AtSplit(ts, i, first, YieldIndices(es.rest));
    }
    EnclosedParts(ts, i, [Sym(LBrack)], Yield(e), RBrack);
    AtOne(ts, i, Sym(LBrack));
    assert !Dotted(ts, i + 1);
    EndsBefore(e, false, RBrack);
    NoOperatorAtClose(ts, i + 1 + |Yield(e)|);
  }

  lemma ListParts(es: Exprs, ts: seq<Token>, i: nat, n: Node, j: nat)
    requires AccountsList(es, ts, i, n, j) && !Dotted(ts, i)
    requires Look(ts, j) in {RParen, RBrack, RCurly} && j < |ts|
    ensures var k := i + |Yield(es.head)|;
            && Accounts(es.head, OR, ts, i, Build(es.head), k)
            && i < |ts| && ts[i].kind != Eof
            && k < |ts|
            && (es.More? ==>
                  && ts[k] == Sym(Comma) && !Dotted(ts, k + 1)
                  && AccountsList(es.rest, ts, k + 1, BuildList(es.rest), j))
            && (es.Last? ==> j == k) && n == BuildList(es)
  {
    hide At, Yield, Build, Fits, NoLogic, NoOperator, OpenEnd, EndOk, Starter;
    var e := es.head;
    var k := i + |Yield(e)|;
    if es.More? {
      AtSplit(ts, i, Yield(e), [Sym(Comma)] + YieldList(es.rest));
      AtSplit(ts, k, [Sym(Comma)], YieldList(es.rest));
      AtOne(ts, k, Sym(Comma));
    }
    EndsBefore(e, false, ts[k].kind);
    NoOperatorAtClose(ts, k);
    YieldStarts(e, OR, false);
    AtFirst(ts, i, Yield(e));
  }
}
