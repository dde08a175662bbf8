/** What becomes of expressions with `&&` or `||`: every level that comes to one refuses the
    whole expression, wherever inside it the operator stands. */
module ExprRefused {
  import opened Outcomes
  import opened Tokens
  import opened Nodes
  import opened Operators
  import opened Syntax
  import opened Printer
  import opened ExprParser
  import opened ExprCases
  import opened ExprShapes
  import opened ExprParts
  import opened ExprComplete
  import opened ExprTheorems

  predicate Refused(r: Result<Parsed>) {
    r == SyntaxError("Invalid Token")
  }

  lemma RefusedToo(r: Result<Parsed>, all: Result<Parsed>)
    requires Refused(r) && SameFailure(r, all)
    ensures Refused(all)
  {
  }

  /** A level that finds nothing of its own refuses what the tighter level refuses. */
  lemma RefusedUp(lv: nat, ts: seq<Token>, i: nat)
    requires 0 < lv <= OR && Refused(Level(lv - 1, ts, i))
    requires i < |ts| && Starter(ts[i].kind, lv - 1)
    requires lv == CALL ==> !(i + 1 < |ts| && ts[i].kind == Ident && ts[i + 1].kind == LParen)
    ensures Refused(Level(lv, ts, i))
  {
    hide OperatorAt, Factor;
    if lv == CALL {
      assert Call(ts, i) == Level(FACTOR, ts, i);
    } else if lv == NEGATE {
      assert Negate(ts, i) == Level(CALL, ts, i);
    } else if lv == NOT {
      assert Not(ts, i) == Level(COMPARE, ts, i);
    } else {
      BinaryLeft(lv, ts, i);
    }
  }

  lemma {:induction false} RefusedUpTo(from: nat, lv: nat, ts: seq<Token>, i: nat)
    requires CALL <= from <= lv <= OR && Refused(Level(from, ts, i)) && i < |ts| && Starter(ts[i].kind, from)
    ensures Refused(Level(lv, ts, i))
    decreases lv - from
  {
    hide Level, Refused;
    if from < lv {
      RefusedUp(from + 1, ts, i);
      RefusedUpTo(from + 1, lv, ts, i);
    }
  }

  lemma FitsAt(e: Expr, lv: nat, m: nat, dotted: bool)
    requires Fits(e, lv, dotted) && OwnLevel(e) <= m
    ensures Fits(e, m, dotted)
  {
  }

  // ----- an operand in front of a doubled symbol

  predicate DoubledAt(ts: seq<Token>, j: nat) {
    j + 1 < |ts| && ts[j].kind == ts[j + 1].kind && (ts[j].kind == Ampersand || ts[j].kind == Obelisk)
  }

  lemma NoTightOperator(ts: seq<Token>, j: nat)
    requires DoubledAt(ts, j)
    ensures NoOperator(MODULUS, ts, j)
  {
  }

  /** The left operand of an operator that is not doubled is parsed. */
  lemma LeftDone(l: Expr, op: BinOp, r: Expr, ts: seq<Token>, i: nat)
    requires op != LogicAnd && op != LogicOr && Fits(l, OpLevel(op) - 1, Dotted(ts, i)) && !OpenEnd(l) && NoLogic(l)
    requires Fits(r, OpLevel(op), false) && At(ts, i, Yield(l) + (OpTokens(op) + Yield(r))) && !LooksBehindStart(ts, i)
    ensures var k := i + |Yield(l)|;
            && Level(OpLevel(op) - 1, ts, i) == Ok(Parsed(Build(l), k))
            && OperatorAt(OpLevel(op), ts, k) == Ok(Some(op))
            && At(ts, k + Width(op), Yield(r)) && !Dotted(ts, k + Width(op)) && 0 < k + Width(op)
  {
    hide Level, At, OpTokens, OpLevel, OperatorAt, Yield, Build, Fits, NoLogic, NoOperator, OpenEnd, EndOk, Width, Look,
         LooksBehindStart;
    var k := i + |Yield(l)|;
    AtSplit(ts, i, Yield(l), OpTokens(op) + Yield(r));
    AtSplit(ts, k, OpTokens(op), Yield(r));
    OperatorPosition(op, r, ts, k);
    OperatorBetween(op, ts, k);
    EndsBefore(l, false, Look(ts, k));
    EndsBefore(l, true, Look(ts, k));
    Complete(l, OpLevel(op) - 1, ts, i, Build(l), k);
  }

  /** In front of a doubled symbol no operand is parsed by the levels from bitwise on. */
  lemma {:induction false} DoubledBehind(e: Expr, lv: nat, ts: seq<Token>, i: nat)
    requires BITWISE <= lv <= OR && Fits(e, lv, Dotted(ts, i)) && !OpenEnd(e) && NoLogic(e) && At(ts, i, Yield(e))
    requires !LooksBehindStart(ts, i) && DoubledAt(ts, i + |Yield(e)|)
    ensures Refused(Level(lv, ts, i))
    decreases e
  {
    hide Level, Refused, At, OpTokens, OperatorAt, Build, NoLogic, LooksBehindStart, DoubledAt;
    if OwnLevel(e) <= MODULUS {
      ModulusDoubled(e, lv, ts, i);
    } else {
      YieldStarts(e, OwnLevel(e), Dotted(ts, i));
      AtFirst(ts, i, Yield(e));
      if e.Bin? {
        BinDoubled(e, ts, i);
      } else {
        NotDoubled(e, ts, i);
      }
      RefusedUpTo(OwnLevel(e), lv, ts, i);
    }
  }

  lemma ModulusDoubled(e: Expr, lv: nat, ts: seq<Token>, i: nat)
    requires BITWISE <= lv <= OR && Fits(e, lv, Dotted(ts, i)) && !OpenEnd(e) && NoLogic(e) && At(ts, i, Yield(e))
    requires !LooksBehindStart(ts, i) && DoubledAt(ts, i + |Yield(e)|) && OwnLevel(e) <= MODULUS
    ensures Refused(Level(lv, ts, i))
  {
    hide Level, At, Yield, Build, Fits, NoLogic, NoOperator, OpenEnd, EndOk, LooksBehindStart;
    var j := i + |Yield(e)|;
    FitsAt(e, lv, MODULUS, Dotted(ts, i));
    NoTightOperator(ts, j);
    EndsBefore(e, false, Look(ts, j));
    Complete(e, MODULUS, ts, i, Build(e), j);
    DoubledSymbolRefused(lv, ts, i);
  }

  lemma {:induction false} BinDoubled(e: Expr, ts: seq<Token>, i: nat)
    requires e.Bin? && BITWISE <= OpLevel(e.op) && Fits(e, OpLevel(e.op), Dotted(ts, i)) && !OpenEnd(e) && NoLogic(e)
    requires At(ts, i, Yield(e)) && !LooksBehindStart(ts, i) && DoubledAt(ts, i + |Yield(e)|)
    ensures Refused(Level(OpLevel(e.op), ts, i))
    decreases e, 0
  {
    hide Level, Refused, At, OpTokens, OperatorAt, Build, LooksBehindStart, DoubledAt;
    var lv, k := OpLevel(e.op), i + |Yield(e.l)|;
    LeftDone(e.l, e.op, e.r, ts, i);
    WidthIs(e.op);
    LaterStart(ts, k + Width(e.op));
    DoubledBehind(e.r, lv, ts, k + Width(e.op));
    BinaryRight(lv, ts, i, e.op);
    RefusedToo(Level(lv, ts, k + Width(e.op)), Level(lv, ts, i));
  }

  lemma WidthIs(op: BinOp)
    ensures Width(op) == |OpTokens(op)|
  {
  }

  lemma {:induction false} NotDoubled(e: Expr, ts: seq<Token>, i: nat)
    requires e.NotE? && Fits(e, NOT, Dotted(ts, i)) && !OpenEnd(e) && NoLogic(e)
    requires At(ts, i, Yield(e)) && DoubledAt(ts, i + |Yield(e)|)
    ensures Refused(Level(NOT, ts, i))
    decreases e, 0
  {
    hide Level, Refused, At, LooksBehindStart, DoubledAt;
    NotBegins(e.operand, ts, i);
    DoubledBehind(e.operand, COMPARE, ts, i + 1);
    NotLevel(ts, i);
    NotCases(ts, i);
    RefusedToo(Level(COMPARE, ts, i + 1), Level(NOT, ts, i));
  }

  lemma NotBegins(e1: Expr, ts: seq<Token>, i: nat)
    requires Fits(e1, COMPARE, false) && At(ts, i, [Sym(Exclam)] + Yield(e1))
    ensures i + 1 < |ts| && ts[i].kind == Exclam && ts[i + 1].kind != Equal
    ensures At(ts, i + 1, Yield(e1)) && !Dotted(ts, i + 1) && !LooksBehindStart(ts, i + 1)
  {
    hide At, Yield;
    AtSplit(ts, i, [Sym(Exclam)], Yield(e1));
    AtOne(ts, i, Sym(Exclam));
    YieldStarts(e1, COMPARE, false);
    AtFirst(ts, i + 1, Yield(e1));
  }

  // ----- an expression with a doubled symbol inside

  /** Every level refuses a grammatical expression that has `&&` or `||` anywhere in it. */
  lemma {:induction false} LogicFails(e: Expr, lv: nat, ts: seq<Token>, i: nat)
    requires lv <= OR && Fits(e, lv, Dotted(ts, i)) && !NoLogic(e) && At(ts, i, Yield(e)) && !LooksBehindStart(ts, i)
    ensures Refused(Level(lv, ts, i))
    decreases e, lv + 2
  {
    hide Level, Refused, At, LooksBehindStart, Yield, Dotted, NoLogic;
    if e.Bin? && OpLevel(e.op) == lv {
      BinFails(e, ts, i);
    } else if e.NotE? && lv == NOT {
      NotFails(e, ts, i);
    } else if e.Neg? && lv == NEGATE {
      NegFails(e, ts, i);
    } else if e.CallN? && lv == CALL {
      CallFails(e, ts, i);
    } else if lv == FACTOR {
      FactorFails(e, ts, i);
    } else {
      HasParts(e);
      FitsTighter(e, lv, Dotted(ts, i));
      LogicFails(e, lv - 1, ts, i);
      YieldStarts(e, lv - 1, Dotted(ts, i));
      AtFirst(ts, i, Yield(e));
      if lv == CALL {
        NotCallStart(e, ts, i);
      }
      RefusedUp(lv, ts, i);
    }
  }

  lemma HasParts(e: Expr)
    requires !NoLogic(e)
    ensures !e.Lit? && !e.Var? && !e.Call0? && !e.Cut? && !e.BareMinus?
  {
  }

  lemma NotCallStart(e: Expr, ts: seq<Token>, i: nat)
    requires At(ts, i, Yield(e)) && Fits(e, FACTOR, Dotted(ts, i)) && !NoLogic(e)
    ensures !(i + 1 < |ts| && ts[i].kind == Ident && ts[i + 1].kind == LParen)
  {
    AtFirst(ts, i, Yield(e));
    if |Yield(e)| > 1 {
      AtIndex(ts, i, Yield(e), 1);
    }
    match e
    case Member(x, t) => assert Yield(e)[1] == Sym(Dot);
    case Index(x, es) => IndicesStart(es); assert Yield(e)[1] == YieldIndices(es)[0];
    case _ =>
  }

  lemma {:induction false} BinFails(e: Expr, ts: seq<Token>, i: nat)
    requires e.Bin? && Fits(e, OpLevel(e.op), Dotted(ts, i)) && !NoLogic(e) && At(ts, i, Yield(e))
             && !LooksBehindStart(ts, i)
    ensures Refused(Level(OpLevel(e.op), ts, i))
    decreases e, 0
  {
    hide Level, Refused, At, OpTokens, OperatorAt, Build, LooksBehindStart;
    var op, l, r := e.op, e.l, e.r;
    var lv, k := OpLevel(op), i + |Yield(l)|;
    AtSplit(ts, i, Yield(l), OpTokens(op) + Yield(r));
    if !NoLogic(l) {
      LogicFails(l, lv - 1, ts, i);
      BinaryLeft(lv, ts, i);
      RefusedToo(Level(lv - 1, ts, i), Level(lv, ts, i));
    } else if op == LogicAnd || op == LogicOr {
      AtSplit(ts, k, OpTokens(op), Yield(r));
      LogicIsDoubled(op, ts, k);
      DoubledBehind(l, lv - 1, ts, i);
      BinaryLeft(lv, ts, i);
      RefusedToo(Level(lv - 1, ts, i), Level(lv, ts, i));
    } else {
      LeftDone(l, op, r, ts, i);
      LaterStart(ts, k + Width(op));
      LogicFails(r, lv, ts, k + Width(op));
      BinaryRight(lv, ts, i, op);
      RefusedToo(Level(lv, ts, k + Width(op)), Level(lv, ts, i));
    }
  }

  lemma LaterStart(ts: seq<Token>, i: nat)
    requires 0 < i
    ensures !LooksBehindStart(ts, i)
  {
  }

  lemma LogicIsDoubled(op: BinOp, ts: seq<Token>, k: nat)
    requires (op == LogicAnd || op == LogicOr) && At(ts, k, OpTokens(op))
    ensures DoubledAt(ts, k) && BITWISE <= OpLevel(op) - 1
  {
    AtTwo(ts, k, OpTokens(op)[0], OpTokens(op)[1]);
  }

  lemma {:induction false} NotFails(e: Expr, ts: seq<Token>, i: nat)
    requires e.NotE? && Fits(e, NOT, Dotted(ts, i)) && !NoLogic(e) && At(ts, i, Yield(e))
    ensures Refused(Level(NOT, ts, i))
    decreases e, 0
  {
    hide Level, Refused, At, LooksBehindStart;
    NotBegins(e.operand, ts, i);
    LogicFails(e.operand, COMPARE, ts, i + 1);
    NotLevel(ts, i);
    NotCases(ts, i);
    RefusedToo(Level(COMPARE, ts, i + 1), Level(NOT, ts, i));
  }

  lemma {:induction false} NegFails(e: Expr, ts: seq<Token>, i: nat)
    requires e.Neg? && Fits(e, NEGATE, Dotted(ts, i)) && !NoLogic(e) && At(ts, i, Yield(e))
    ensures Refused(Level(NEGATE, ts, i))
    decreases e, 0
  {
    hide Level, At, Refused;
    AtSplit(ts, i, [Sym(Minus)], Yield(e.operand));
    AtOne(ts, i, Sym(Minus));
    LaterStart(ts, i + 1);
    LogicFails(e.operand, CALL, ts, i + 1);
    NegateOperand(ts, i);
  }

  lemma NegateOperand(ts: seq<Token>, i: nat)
    requires i < |ts| && ts[i].kind == Minus && Refused(Level(CALL, ts, i + 1))
    ensures Refused(Level(NEGATE, ts, i))
  {
    assert Level(NEGATE, ts, i) == Negate(ts, i);
  }

  lemma {:induction false} CallFails(e: Expr, ts: seq<Token>, i: nat)
    requires e.CallN? && Fits(e, CALL, Dotted(ts, i)) && !NoLogic(e) && At(ts, i, Yield(e))
    ensures Refused(Level(CALL, ts, i))
    decreases e, 0
  {
    hide Level, List, Call, At, YieldList, Refused;
    var es := e.args;
    EnclosedParts(ts, i, [Name(e.name), Sym(LParen)], YieldList(es), RParen);
    AtTwo(ts, i, Name(e.name), Sym(LParen));
    ListStarts(es, ts, i + 2);
    ListFails(es, ts, i + 2);
    CallLevel(ts, i);
    CallCases(ts, i);
    RefusedToo(List(ts, i + 2), Level(CALL, ts, i));
  }

  lemma ListStarts(es: Exprs, ts: seq<Token>, i: nat)
    requires FitsAll(es) && At(ts, i, YieldList(es))
    ensures i < |ts| && Starter(ts[i].kind, OR)
  {
    YieldStarts(es.head, OR, false);
    AtFirst(ts, i, YieldList(es));
  }

  lemma {:induction false} FactorFails(e: Expr, ts: seq<Token>, i: nat)
    requires Fits(e, FACTOR, Dotted(ts, i)) && !NoLogic(e) && At(ts, i, Yield(e)) && !LooksBehindStart(ts, i)
    ensures Refused(Level(FACTOR, ts, i))
    decreases e, 1
  {
    hide Level, Factor, At, Refused, LooksBehindStart, YieldList, YieldIndices;
    FactorLevel(ts, i);
    match e
    case Paren(e1) => ParenFails(e1, ts, i);
    case StructLit(es) => LiteralFails(false, es, ts, i);
    case ArrayLit(es) => LiteralFails(true, es, ts, i);
    case Member(x, t) => MemberFails(x, t, ts, i);
    case Index(x, es) => IndexFails(x, es, ts, i);
    case _ =>
  }

  lemma {:induction false} ParenFails(e: Expr, ts: seq<Token>, i: nat)
    requires Fits(e, OR, false) && !NoLogic(e) && At(ts, i, [Sym(LParen)] + (Yield(e) + [Sym(RParen)]))
    ensures Refused(Factor(ts, i))
    decreases e, OR + 3
  {
    hide Level, At, Yield, Fits, NoLogic;
    EnclosedParts(ts, i, [Sym(LParen)], Yield(e), RParen);
    AtOne(ts, i, Sym(LParen));
    LaterStart(ts, i + 1);
    LogicFails(e, OR, ts, i + 1);
  }

  lemma {:induction false} LiteralFails(isArray: bool, es: Exprs, ts: seq<Token>, i: nat)
    requires FitsAll(es) && !NoLogicAll(es)
    requires var open, close := if isArray then LBrack else LCurly, if isArray then RBrack else RCurly;
             At(ts, i, [Sym(open)] + (YieldList(es) + [Sym(close)]))
    ensures Refused(Factor(ts, i))
    decreases es, 2
  {
    hide List, At, YieldList, FitsAll, NoLogicAll;
    var open, close := if isArray then LBrack else LCurly, if isArray then RBrack else RCurly;
    EnclosedParts(ts, i, [Sym(open)], YieldList(es), close);
    AtOne(ts, i, Sym(open));
    ListFails(es, ts, i + 1);
  }

  lemma {:induction false} MemberFails(x: string, t: Expr, ts: seq<Token>, i: nat)
    requires Fits(t, FACTOR, true) && !NoLogic(t) && At(ts, i, [Name(x), Sym(Dot)] + Yield(t))
    ensures Refused(Factor(ts, i)) && Refused(MemberAccess(ts, i))
    decreases t, 3
  {
    hide Level, List, At, Yield;
    AtSplit(ts, i, [Name(x), Sym(Dot)], Yield(t));
    AtTwo(ts, i, Name(x), Sym(Dot));
    LogicFails(t, FACTOR, ts, i + 2);
    assert Refused(MemberAccess(ts, i));
  }

  lemma {:induction false} IndexFails(x: string, es: Exprs, ts: seq<Token>, i: nat)
    requires FitsAll(es) && !NoLogicAll(es) && At(ts, i, [Name(x)] + YieldIndices(es)) && !Dotted(ts, i)
             && !LooksBehindStart(ts, i)
    ensures Refused(Factor(ts, i))
    decreases es, 2
  {
    hide Level, List, ArrayIndex, At, YieldIndices;
    AtSplit(ts, i, [Name(x)], YieldIndices(es));
    AtOne(ts, i, Name(x));
    IndicesStart(es);
    AtFirst(ts, i + 1, YieldIndices(es));
    IndicesFail(es, ts, i + 1);
    assert Refused(MemberAccess(ts, i));
  }

  lemma {:induction false} IndicesFail(es: Exprs, ts: seq<Token>, i: nat)
    requires FitsAll(es) && !NoLogicAll(es) && At(ts, i, YieldIndices(es))
    ensures Refused(ArrayIndex(ts, i))
    decreases es, 1
  {
    hide Level, ArrayIndex, At, Yield, Refused, Fits, NoLogic, OpenEnd, LooksBehindStart;
    var e := es.head;
    var first := [Sym(LBrack)] + (Yield(e) + [Sym(RBrack)]);
    if es.More? {
      assert YieldIndices(es) == first + YieldIndices(es.rest);
      AtSplit(ts, i, first, YieldIndices(es.rest));
    }
    EnclosedParts(ts, i, [Sym(LBrack)], Yield(e), RBrack);
    AtOne(ts, i, Sym(LBrack));
    LaterStart(ts, i + 1);
    ArrayIndexCases(ts, i);
    if !NoLogic(e) {
      LogicFails(e, OR, ts, i + 1);
      RefusedToo(Level(OR, ts, i + 1), ArrayIndex(ts, i));
    } else {
      ItemDone(e, RBrack, ts, i + 1);
      IndicesFail(es.rest, ts, i + |first|);
      RefusedToo(ArrayIndex(ts, i + |first|), ArrayIndex(ts, i));
    }
  }

  /** An item without a doubled symbol is parsed. */
  lemma ItemDone(e: Expr, close: Kind, ts: seq<Token>, i: nat)
    requires Fits(e, OR, false) && !OpenEnd(e) && NoLogic(e) && At(ts, i, Yield(e)) && !Dotted(ts, i)
             && !LooksBehindStart(ts, i)
    requires i + |Yield(e)| < |ts| && ts[i + |Yield(e)|].kind == close && close in {RBrack, Comma, RParen, Semicolon}
    ensures Level(OR, ts, i) == Ok(Parsed(Build(e), i + |Yield(e)|))
  {
    hide Level, At, Yield, Build, Fits, NoLogic, OpenEnd, EndOk, LooksBehindStart, NoOperator;
    EndsBefore(e, false, close);
    NoOperatorAtClose(ts, i + |Yield(e)|);
    Complete(e, OR, ts, i, Build(e), i + |Yield(e)|);
  }

  lemma {:induction false} ListFails(es: Exprs, ts: seq<Token>, i: nat)
    requires FitsAll(es) && !NoLogicAll(es) && At(ts, i, YieldList(es)) && !Dotted(ts, i) && 0 < i
    ensures Refused(List(ts, i))
    decreases es, 1
  {
    hide Level, List, At, Yield, Refused;
    var e, k := es.head, i + |Yield(es.head)|;
    if es.More? {
      AtSplit(ts, i, Yield(e), [Sym(Comma)] + YieldList(es.rest));
      AtSplit(ts, k, [Sym(Comma)], YieldList(es.rest));
      AtOne(ts, k, Sym(Comma));
    }
    ListStarts(es, ts, i);
    ListCases(ts, i);
    LaterStart(ts, i);
    if !NoLogic(e) {
      LogicFails(e, OR, ts, i);
      RefusedToo(Level(OR, ts, i), List(ts, i));
    } else {
      ItemDone(e, Comma, ts, i);
      ListFails(es.rest, ts, k + 1);
      RefusedToo(List(ts, k + 1), List(ts, i));
    }
  }
}
