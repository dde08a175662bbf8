/** Soundness of every level: what it consumes is the writing of a source expression
    that the level grammar admits, and the tree it returns is the tree of that
    expression. */
module ExprSound {
  import opened Outcomes
  import opened Tokens
  import opened Nodes
  import opened Operators
  import opened Syntax
  import opened ExprParser
  import opened ExprCases
  import opened ExprShapes

  lemma {:induction false} Sound(lv: nat, ts: seq<Token>, i: nat) returns (e: Expr)
    requires lv <= OR && Proper(ts)
    requires Level(lv, ts, i).Ok? && Level(lv, ts, i).value.node != Null
    ensures var p := Level(lv, ts, i).value; Accounts(e, lv, ts, i, p.node, p.next)
    decreases |ts| - i, lv, 2
  {
    if lv == FACTOR {
      e := SoundFactor(ts, i);
    } else if lv == CALL {
      e := SoundCall(ts, i);
    } else if lv == NEGATE {
      e := SoundNegate(ts, i);
    } else if lv == NOT {
      e := SoundNot(ts, i);
    } else {
      e := SoundBinary(lv, ts, i);
    }
  }

  lemma {:induction false} SoundBinary(lv: nat, ts: seq<Token>, i: nat) returns (e: Expr)
    requires MULTIPLICATIVE <= lv <= OR && lv != NOT && Proper(ts)
    requires Binary(lv, ts, i).Ok? && Binary(lv, ts, i).value.node != Null
    ensures var p := Binary(lv, ts, i).value; Accounts(e, lv, ts, i, p.node, p.next)
    decreases |ts| - i, lv, 1
  {
    hide Level, Binary, Accounts, OperatorAt, OpTokens, Proper, Dotted;
    BinaryLevel(lv, ts, i);
    BinaryLeft(lv, ts, i);
    BinaryOperator(lv, ts, i);
    var lhs := Level(lv - 1, ts, i).value;
    var found := OperatorAt(lv, ts, lhs.next).value;
    var l := Sound(lv - 1, ts, i);
    if found == None {
      e := l;
      Loosen(e, lv, ts, i, lhs.node, lhs.next);
    } else {
      var op := found.value;
      BinaryRight(lv, ts, i, op);
      OperatorFound(lv, ts, lhs.next);
      NotLogic(l, lv, ts, i, lhs.node, lhs.next);
      var rhs := Level(lv, ts, lhs.next + Width(op)).value;
      var r := Sound(lv, ts, lhs.next + Width(op));
      e := Bin(op, l, r);
      BinAccounts(l, op, r, lv, ts, i, lhs.node, lhs.next, rhs.node, rhs.next);
    }
  }

  lemma NotLogic(l: Expr, lv: nat, ts: seq<Token>, i: nat, n: Node, j: nat)
    requires MULTIPLICATIVE <= lv && Accounts(l, lv - 1, ts, i, n, j)
    requires OperatorAt(lv, ts, j).Ok? && OperatorAt(lv, ts, j).value.Some?
    ensures lv != AND && lv != OR
  {
    if lv == AND || lv == OR {
      assert OperatorAt(BITWISE, ts, j) == Ok(None);
      LogicNeverFound(lv, ts, j);
    }
  }

  lemma {:induction false} SoundNot(ts: seq<Token>, i: nat) returns (e: Expr)
    requires Proper(ts)
    requires Not(ts, i).Ok? && Not(ts, i).value.node != Null
    ensures var p := Not(ts, i).value; Accounts(e, NOT, ts, i, p.node, p.next)
    decreases |ts| - i, NOT, 1
  {
    hide Level, Accounts;
    var p := Not(ts, i).value;
    assert OperatorAt(NOT, ts, p.next) == Ok(None);
    if ts[i].kind == Exclam && ts[i + 1].kind != Equal {
      var e1 := Sound(COMPARE, ts, i + 1);
      e := NotE(e1);
      assert ProperToken(ts[i]);
      PrefixAccounts(false, e1, ts, i, p.node.left, p.next);
    } else {
      e := Sound(COMPARE, ts, i);
      Loosen(e, NOT, ts, i, p.node, p.next);
    }
  }

  lemma {:induction false} SoundNegate(ts: seq<Token>, i: nat) returns (e: Expr)
    requires Proper(ts)
    requires Negate(ts, i).Ok? && Negate(ts, i).value.node != Null
    ensures var p := Negate(ts, i).value; Accounts(e, NEGATE, ts, i, p.node, p.next)
    decreases |ts| - i, NEGATE, 1
  {
    hide Level;
    var p := Negate(ts, i).value;
    if ts[i].kind == Minus {
      assert ProperToken(ts[i]);
      var operand := Level(CALL, ts, i + 1).value;
      if operand.node == Null {
        e := BareMinus;
        AtOne(ts, i, Sym(Minus));
      } else {
        hide Accounts;
        var e1 := Sound(CALL, ts, i + 1);
        e := Neg(e1);
        PrefixAccounts(true, e1, ts, i, operand.node, p.next);
      }
    } else {
      hide Accounts;
      e := Sound(CALL, ts, i);
      Loosen(e, NEGATE, ts, i, p.node, p.next);
    }
  }

  lemma {:induction false} SoundCall(ts: seq<Token>, i: nat) returns (e: Expr)
    requires Proper(ts)
    requires Call(ts, i).Ok? && Call(ts, i).value.node != Null
    ensures var p := Call(ts, i).value; Accounts(e, CALL, ts, i, p.node, p.next)
    decreases |ts| - i, CALL, 1
  {
    hide Level, Call, Accounts;
    if i + 1 < |ts| && ts[i].kind == Ident && ts[i + 1].kind == LParen {
      e := SoundArguments(ts, i);
    } else {
      var p := Call(ts, i).value;
      FactorIsCall(ts, i);
      e := Sound(FACTOR, ts, i);
      FactorIsNoCall(e, ts, i, p.node, p.next);
      Loosen(e, CALL, ts, i, p.node, p.next);
    }
  }

  lemma {:induction false} SoundArguments(ts: seq<Token>, i: nat) returns (e: Expr)
    requires i + 1 < |ts| && Proper(ts) && ts[i].kind == Ident && ts[i + 1].kind == LParen
    requires Call(ts, i).Ok?
    ensures var p := Call(ts, i).value; Accounts(e, CALL, ts, i, p.node, p.next)
    decreases |ts| - i, CALL, 0
  {
    hide Level, List, Call;
    CallCases(ts, i);
    assert ProperToken(ts[i]) && ProperToken(ts[i + 1]) && ProperToken(ts[i + 2]);
    var x := ts[i].value.s;
    assert At(ts, i, [Name(x), Sym(LParen)]);
    if ts[i + 2].kind == RParen {
      e := Call0(x);
      assert At(ts, i, Yield(e));
    } else {
      hide Accounts, AccountsList, At;
      var args := List(ts, i + 2).value;
      var es := SoundList(ts, i + 2, RParen);
      e := CallN(x, es);
      assert ProperToken(ts[args.next]);
      CallAccounts(x, es, ts, i, args.node, args.next);
    }
  }

  lemma FactorIsNoCall(e: Expr, ts: seq<Token>, i: nat, n: Node, j: nat)
    requires Accounts(e, FACTOR, ts, i, n, j)
    requires !(i + 1 < |ts| && ts[i].kind == Ident && ts[i + 1].kind == LParen)
    ensures EndOk(e, false, Look(ts, j))
  {
    if e.Var? {
      AtOne(ts, i, Name(e.name));
    }
  }

  lemma {:induction false} SoundFactor(ts: seq<Token>, i: nat) returns (e: Expr)
    requires Proper(ts)
    requires Factor(ts, i).Ok? && Factor(ts, i).value.node != Null
    ensures var p := Factor(ts, i).value; Accounts(e, FACTOR, ts, i, p.node, p.next)
    decreases |ts| - i, FACTOR, 1
  {
    hide Level, List, MemberAccess, Accounts, Proper;
    var k := ts[i].kind;
    if k == LCurly || k == LBrack {
      e := SoundLiteral(ts, i);
    } else if k == LParen {
      e := SoundParen(ts, i);
    } else if k == Ident && i + 1 < |ts| && (ts[i + 1].kind == Dot || ts[i + 1].kind == LBrack) {
      e := SoundMemberAccess(ts, i);
    } else {
      e := SoundLeaf(ts, i);
    }
  }

  lemma {:induction false} SoundLiteral(ts: seq<Token>, i: nat) returns (e: Expr)
    requires Proper(ts) && i < |ts| && (ts[i].kind == LCurly || ts[i].kind == LBrack) && Factor(ts, i).Ok?
    ensures var p := Factor(ts, i).value; Accounts(e, FACTOR, ts, i, p.node, p.next)
    decreases |ts| - i, FACTOR, 0
  {
    hide Level, List, Accounts, AccountsList;
    var k := ts[i].kind;
    var items := List(ts, i + 1).value;
    var es := SoundList(ts, i + 1, if k == LCurly then RCurly else RBrack);
    e := if k == LCurly then StructLit(es) else ArrayLit(es);
    assert ProperToken(ts[i]) && ProperToken(ts[items.next]);
    LiteralAccounts(k == LBrack, es, ts, i, items.node, items.next);
  }

  lemma {:induction false} SoundParen(ts: seq<Token>, i: nat) returns (e: Expr)
    requires Proper(ts) && i < |ts| && ts[i].kind == LParen && Factor(ts, i).Ok?
    ensures var p := Factor(ts, i).value; Accounts(e, FACTOR, ts, i, p.node, p.next)
    decreases |ts| - i, FACTOR, 0
  {
    hide Level, Accounts;
    var p := Level(OR, ts, i + 1).value;
    var e1 := Sound(OR, ts, i + 1);
    e := Paren(e1);
    assert ProperToken(ts[i]) && ProperToken(ts[p.next]);
    ParenAccounts(e1, ts, i, p.node, p.next);
  }

  lemma SoundLeaf(ts: seq<Token>, i: nat) returns (e: Expr)
    requires Proper(ts) && Factor(ts, i).Ok?
    requires i < |ts|
    requires ts[i].kind in {LitInt, LitFloat, LitBool, LitString}
             || (ts[i].kind == Ident && !(i + 1 < |ts| && (ts[i + 1].kind == Dot || ts[i + 1].kind == LBrack)))
    ensures var p := Factor(ts, i).value; Accounts(e, FACTOR, ts, i, p.node, p.next)
  {
    hide Level, List, MemberAccess;
    AtOne(ts, i, ts[i]);
    assert ProperToken(ts[i]);
    match ts[i].kind {
      case LitInt => e := Lit(IntLit, ts[i].value);
      case LitFloat => e := Lit(FloatLit, ts[i].value);
      case LitBool => e := Lit(BoolLit, ts[i].value);
      case LitString => e := Lit(StringLit, ts[i].value);
      case Ident => e := Var(ts[i].value.s);
    }
  }

  lemma {:induction false} SoundMemberAccess(ts: seq<Token>, i: nat) returns (e: Expr)
    requires i + 1 < |ts| && Proper(ts)
    requires ts[i].kind == Ident && (ts[i + 1].kind == Dot || ts[i + 1].kind == LBrack)
    requires MemberAccess(ts, i).Ok?
    ensures var p := MemberAccess(ts, i).value; Accounts(e, FACTOR, ts, i, p.node, p.next)
    decreases |ts| - i, FACTOR, 0
  {
    hide Level, ArrayIndex;
    assert ProperToken(ts[i]) && ProperToken(ts[i + 1]);
    var x := ts[i].value.s;
    if ts[i + 1].kind == Dot {
      hide Accounts;
      var p := Level(FACTOR, ts, i + 2).value;
      var t := Sound(FACTOR, ts, i + 2);
      e := Member(x, t);
      assert At(ts, i, [Name(x), Sym(Dot)]);
      MemberAccounts(x, t, ts, i, p.node, p.next);
    } else if i > 0 && ts[i - 1].kind == Dot {
      e := Cut(x);
      AtOne(ts, i, Name(x));
    } else {
      hide Accounts;
      var p := ArrayIndex(ts, i + 1).value;
      var es := SoundIndices(ts, i + 1);
      e := Index(x, es);
      IndexAccounts(x, es, ts, i, p.node, p.next);
    }
  }

  lemma {:induction false} SoundIndices(ts: seq<Token>, i: nat) returns (es: Exprs)
    requires i < |ts| && Proper(ts) && ts[i].kind == LBrack
    requires ArrayIndex(ts, i).Ok?
    ensures var p := ArrayIndex(ts, i).value;
            AccountsIndices(es, ts, i, p.node, p.next) && Look(ts, p.next) != LBrack
    decreases |ts| - i, FACTOR, 0
  {
    hide Level, Accounts, AccountsIndices;
    var p := Level(OR, ts, i + 1).value;
    var e := Sound(OR, ts, i + 1);
    assert ProperToken(ts[i]) && ProperToken(ts[p.next]);
    LastIndexAccounts(e, ts, i, p.node, p.next);
    if ts[p.next + 1].kind == LBrack {
      var q := ArrayIndex(ts, p.next + 1).value;
      var rest := SoundIndices(ts, p.next + 1);
      es := More(e, rest);
      MoreIndicesAccounts(e, rest, ts, i, p.node, p.next + 1, q.node, q.next);
    } else {
      es := Last(e);
    }
  }

  lemma BehindComma(ts: seq<Token>, k: nat)
    requires Proper(ts) && k < |ts| && ts[k].kind == Comma
    ensures ts[k] == Sym(Comma) && !Dotted(ts, k + 1)
  {
    assert ProperToken(ts[k]);
  }

  lemma {:induction false} SoundList(ts: seq<Token>, i: nat, close: Kind) returns (es: Exprs)
    requires Proper(ts)
    requires List(ts, i).Ok? && ts[List(ts, i).value.next].kind == close
    requires close == RParen || close == RBrack || close == RCurly
    requires !Dotted(ts, i)
    ensures var p := List(ts, i).value; AccountsList(es, ts, i, p.node, p.next)
    decreases |ts| - i, OR + 1, 0
  {
    hide Level, Accounts, AccountsList, List, Proper, Dotted;
    ListCases(ts, i);
    var p := Level(OR, ts, i).value;
    var e := Sound(OR, ts, i);
    LastItemAccounts(e, ts, i, p.node, p.next);
    if ts[p.next].kind == Comma {
      BehindComma(ts, p.next);
      var q := List(ts, p.next + 1).value;
      var rest := SoundList(ts, p.next + 1, close);
      es := More(e, rest);
      MoreItemsAccounts(e, rest, ts, i, p.node, p.next, q.node, q.next);
    } else {
      es := Last(e);
    }
  }
}
