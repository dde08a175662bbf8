/** Precedence without levels: how a chain of operators groups, by a table of the operators
    alone. */
module Precedence {
  import opened Outcomes
  import opened Tokens
  import opened Nodes
  import opened Operators
  import opened Syntax
  import opened Printer
  import opened ExprParser
  import opened ExprShapes
  import opened ExprParts
  import opened ExprComplete
  import opened ExprRefused
  import opened ProgramParts

  // ----- the operators, as they are written and by how loosely they bind

  function Rank(op: BinOp): nat {
    match op
    case Multiply => 1
    case Divide => 1
    case Add => 2
    case Subtract => 2
    case Modulus => 3
    case Shl => 4
    case Shr => 4
    case Xor => 4
    case BitOr => 4
    case BitAnd => 4
    case CmpEq => 5
    case CmpNe => 5
    case CmpGte => 5
    case CmpLte => 5
    case CmpGt => 5
    case CmpLt => 5
    case LogicAnd => 6
    case LogicOr => 7
  }

  function Symbols(op: BinOp): seq<Kind> {
    match op
    case Multiply => [Asterisk]
    case Divide => [Slash]
    case Add => [Plus]
    case Subtract => [Minus]
    case Modulus => [Percent]
    case Shl => [LowerThan, LowerThan]
    case Shr => [GreaterThan, GreaterThan]
    case Xor => [Caret]
    case BitOr => [Obelisk]
    case BitAnd => [Ampersand]
    case CmpEq => [Equal, Equal]
    case CmpNe => [Exclam, Equal]
    case CmpGte => [GreaterThan, Equal]
    case CmpLte => [LowerThan, Equal]
    case CmpGt => [GreaterThan]
    case CmpLt => [LowerThan]
    case LogicAnd => [Ampersand, Ampersand]
    case LogicOr => [Obelisk, Obelisk]
  }

  function Written(op: BinOp): seq<Token> {
    if |Symbols(op)| == 1 then [Sym(Symbols(op)[0])] else [Sym(Symbols(op)[0]), Sym(Symbols(op)[1])]
  }

  predicate Logic(op: BinOp) {
    op == LogicAnd || op == LogicOr
  }

  // ----- chains of operators

  /** What can stand between two operators without parentheses around it. */
  predicate Operand(e: Expr) {
    Source(e) && Fits(e, NEGATE, false) && NoLogic(e)
  }

  predicate IsChain(es: seq<Expr>, ops: seq<BinOp>) {
    |es| == |ops| + 1 && forall k :: 0 <= k < |es| ==> Operand(es[k])
  }

  function ChainTokens(es: seq<Expr>, ops: seq<BinOp>): seq<Token>
    requires |es| == |ops| + 1
  {
    if ops == [] then Yield(es[0]) else Yield(es[0]) + (Written(ops[0]) + ChainTokens(es[1..], ops[1..]))
  }

  /** The first of the operators that bind most loosely. */
  function Loosest(ops: seq<BinOp>): (k: nat)
    requires ops != []
    ensures k < |ops|
    ensures forall l :: 0 <= l < k ==> Rank(ops[l]) < Rank(ops[k])
    ensures forall l :: k <= l < |ops| ==> Rank(ops[l]) <= Rank(ops[k])
  {
    if |ops| == 1 then 0
    else
      var k := Loosest(ops[1..]) + 1;
      assert forall l :: 0 <= l < |ops| - 1 ==> ops[1..][l] == ops[l + 1];
      assert forall l :: 1 <= l < |ops| ==> ops[l] == ops[1..][l - 1];
      if Rank(ops[0]) < Rank(ops[k]) then k else 0
  }

  /** The tree of a chain: it is split at the first of the loosest operators, so that a
      tighter operator groups before a looser one, and equal ones group to the right. */
  function Grouped(es: seq<Expr>, ops: seq<BinOp>): Node
    requires |es| == |ops| + 1
    decreases |ops|
  {
    if ops == [] then Build(es[0])
    else
      var k := Loosest(ops);
      Mk(ExprBinary(ops[k]), Grouped(es[..k + 1], ops[..k]), Grouped(es[k + 1..], ops[k + 1..]))
  }

  /** The expression that is written so. */
  function Chained(es: seq<Expr>, ops: seq<BinOp>): Expr
    requires |es| == |ops| + 1
    decreases |ops|
  {
    if ops == [] then es[0]
    else
      var k := Loosest(ops);
      Bin(ops[k], Chained(es[..k + 1], ops[..k]), Chained(es[k + 1..], ops[k + 1..]))
  }

  lemma {:induction false} ChainedTree(es: seq<Expr>, ops: seq<BinOp>)
    requires |es| == |ops| + 1
    ensures Build(Chained(es, ops)) == Grouped(es, ops)
    decreases |ops|
  {
    hide Loosest;
    if ops != [] {
      var k := Loosest(ops);
      ChainedTree(es[..k + 1], ops[..k]);
      ChainedTree(es[k + 1..], ops[k + 1..]);
    }
  }

  lemma WrittenSo(op: BinOp)
    ensures Written(op) == OpTokens(op)
  {
  }

  lemma {:induction false} TokensSplit(es: seq<Expr>, ops: seq<BinOp>, k: nat)
    requires |es| == |ops| + 1 && k < |ops|
    ensures ChainTokens(es, ops)
            == ChainTokens(es[..k + 1], ops[..k]) + (Written(ops[k]) + ChainTokens(es[k + 1..], ops[k + 1..]))
    decreases k
  {
    hide Yield, Written;
    if k == 0 {
      assert es[..1] == [es[0]];
    } else {
      TokensSplit(es[1..], ops[1..], k - 1);
      assert es[1..][..k] == es[..k + 1][1..] && ops[1..][..k - 1] == ops[..k][1..];
      assert es[1..][k..] == es[k + 1..] && ops[1..][k..] == ops[k + 1..];
    }
  }

  lemma {:induction false} ChainedTokens(es: seq<Expr>, ops: seq<BinOp>)
    requires |es| == |ops| + 1
    ensures Yield(Chained(es, ops)) == ChainTokens(es, ops)
    decreases |ops|
  {
    if ops != [] {
      hide ChainTokens, Written, OpTokens;
      var k := Loosest(ops);
      ChainedTokens(es[..k + 1], ops[..k]);
      ChainedTokens(es[k + 1..], ops[k + 1..]);
      TokensSplit(es, ops, k);
      WrittenSo(ops[k]);
    }
  }

  lemma RankIsLevel(op: BinOp, op': BinOp)
    ensures Rank(op) < Rank(op') <==> OpLevel(op) < OpLevel(op')
  {
  }

  predicate Within(ops: seq<BinOp>, lv: int) {
    forall k :: 0 <= k < |ops| ==> OpLevel(ops[k]) <= lv
  }

  predicate NoLogicIn(ops: seq<BinOp>) {
    forall k :: 0 <= k < |ops| ==> !Logic(ops[k])
  }

  /** The parts of a chain on the two sides of its loosest operator. */
  lemma Sides(es: seq<Expr>, ops: seq<BinOp>)
    requires IsChain(es, ops) && ops != []
    ensures var k := Loosest(ops);
            && IsChain(es[..k + 1], ops[..k]) && Within(ops[..k], OpLevel(ops[k]) - 1)
            && IsChain(es[k + 1..], ops[k + 1..]) && Within(ops[k + 1..], OpLevel(ops[k]))
            && (NoLogicIn(ops) <==> !Logic(ops[k]) && NoLogicIn(ops[..k]) && NoLogicIn(ops[k + 1..]))
  {
    hide Rank, OpLevel, Operand, Logic;
    var k := Loosest(ops);
    forall l | 0 <= l < |ops| ensures OpLevel(ops[l]) <= OpLevel(ops[k])
      ensures l < k ==> OpLevel(ops[l]) < OpLevel(ops[k])
    {
      RankIsLevel(ops[l], ops[k]);
      RankIsLevel(ops[k], ops[l]);
    }
    SidesLogic(ops, k);
  }

  lemma SidesLogic(ops: seq<BinOp>, k: nat)
    requires k < |ops|
    ensures NoLogicIn(ops) <==> !Logic(ops[k]) && NoLogicIn(ops[..k]) && NoLogicIn(ops[k + 1..])
  {
    hide Logic;
    assert ops == ops[..k] + [ops[k]] + ops[k + 1..];
  }

  lemma {:induction false} ChainedFits(es: seq<Expr>, ops: seq<BinOp>, lv: nat)
    requires IsChain(es, ops) && lv >= NEGATE && Within(ops, lv)
    ensures Fits(Chained(es, ops), lv, false) && Source(Chained(es, ops))
    ensures NoLogic(Chained(es, ops)) <==> NoLogicIn(ops)
    decreases |ops|
  {
    if ops == [] {
      FitsMonotone(es[0], NEGATE, lv, false);
    } else {
      hide OpLevel, Fits, Source, NoLogic, IsChain, Within, NoLogicIn, Logic;
      var k := Loosest(ops);
      assert OpLevel(ops[k]) <= lv by { WithinAt(ops, lv, k); }
      Sides(es, ops);
      ChainedFits(es[..k + 1], ops[..k], OpLevel(ops[k]) - 1);
      ChainedFits(es[k + 1..], ops[k + 1..], OpLevel(ops[k]));
      BinFits(ops[k], Chained(es[..k + 1], ops[..k]), Chained(es[k + 1..], ops[k + 1..]), lv);
    }
  }

  lemma WithinAt(ops: seq<BinOp>, lv: int, k: nat)
    requires Within(ops, lv) && k < |ops|
    ensures OpLevel(ops[k]) <= lv
  {
  }

  lemma BinFits(op: BinOp, l: Expr, r: Expr, lv: nat)
    requires OpLevel(op) <= lv && Fits(l, OpLevel(op) - 1, false) && Fits(r, OpLevel(op), false)
    requires Source(l) && Source(r)
    ensures Fits(Bin(op, l, r), lv, false) && Source(Bin(op, l, r))
    ensures NoLogic(Bin(op, l, r)) <==> !Logic(op) && NoLogic(l) && NoLogic(r)
  {
    SourceIsClosed(l);
  }

  /** A chain of any length, written anywhere but at the very start with an array access,
      and closed by a symbol that ends expressions: it comes back grouped by the table, or
      is refused if one of its operators is `&&` or `||`. */
  lemma {:induction false} ChainGroups(es: seq<Expr>, ops: seq<BinOp>, ts: seq<Token>, i: nat)
    requires IsChain(es, ops) && At(ts, i, ChainTokens(es, ops)) && !Dotted(ts, i) && !LooksBehindStart(ts, i)
    requires var j := i + |ChainTokens(es, ops)|;
             j < |ts| && ts[j].kind in {RParen, RBrack, RCurly, Comma, Semicolon, Eof}
    ensures Level(OR, ts, i)
            == if NoLogicIn(ops) then Ok(Parsed(Grouped(es, ops), i + |ChainTokens(es, ops)|))
               else SyntaxError("Invalid Token")
  {
    var e, j := Chained(es, ops), i + |ChainTokens(es, ops)|;
    ChainedTokens(es, ops);
    assert Within(ops, OR);
    ChainedFits(es, ops, OR);
    if NoLogic(e) {
      ChainedTree(es, ops);
      hide Level, NoOperator, Grouped, Chained, ChainTokens, IsChain, NoLogicIn;
      NoOperatorAtClose(ts, j);
      SourceIsClosed(e);
      EndsBefore(e, false, ts[j].kind);
      Complete(e, OR, ts, i, Build(e), j);
    } else {
      hide Level, Grouped, Chained, ChainTokens, IsChain, NoLogicIn;
      LogicFails(e, OR, ts, i);
    }
  }

  /** With a `!` in front, the whole chain of operators up to the comparisons is negated. */
  lemma {:induction false} NotIsLoosest(es: seq<Expr>, ops: seq<BinOp>, ts: seq<Token>, i: nat)
    requires IsChain(es, ops) && NoLogicIn(ops)
    requires At(ts, i, [Sym(Exclam)] + ChainTokens(es, ops)) && !Dotted(ts, i)
    requires var j := i + 1 + |ChainTokens(es, ops)|;
             j < |ts| && ts[j].kind in {RParen, RBrack, RCurly, Comma, Semicolon, Eof}
    ensures Level(OR, ts, i)
            == Ok(Parsed(Mk(ExprNot, Grouped(es, ops), Null), i + 1 + |ChainTokens(es, ops)|))
  {
    var e, j := Chained(es, ops), i + 1 + |ChainTokens(es, ops)|;
    ChainedTokens(es, ops);
    ChainedTree(es, ops);
    BelowNot(ops);
    ChainedFits(es, ops, COMPARE);
    hide Level, OperatorAt, Grouped, Chained, ChainTokens, IsChain, NoLogicIn;
    NotDone(e, ts, i, j);
  }

  lemma BelowNot(ops: seq<BinOp>)
    requires NoLogicIn(ops)
    ensures Within(ops, COMPARE)
  {
    forall k | 0 <= k < |ops| ensures OpLevel(ops[k]) <= COMPARE {
      assert !Logic(ops[k]);
    }
  }

  lemma NotDone(e: Expr, ts: seq<Token>, i: nat, j: nat)
    requires Source(e) && Fits(e, COMPARE, false) && NoLogic(e) && At(ts, i, [Sym(Exclam)] + Yield(e))
    requires j == i + 1 + |Yield(e)| && j < |ts| && !Dotted(ts, i)
    requires ts[j].kind in {RParen, RBrack, RCurly, Comma, Semicolon, Eof}
    ensures Level(OR, ts, i) == Ok(Parsed(Mk(ExprNot, Build(e), Null), j))
  {
    hide Level, NoOperator, At, Fits, Source, OpenEnd, EndOk, NoLogic;
    AtFirst(ts, i, [Sym(Exclam)] + Yield(e));
    NoOperatorAtClose(ts, j);
    SourceIsClosed(e);
    EndsBefore(e, false, ts[j].kind);
    NotAccounts(e, ts, i, j);
    Complete(NotE(e), OR, ts, i, Mk(ExprNot, Build(e), Null), j);
  }

  lemma NotAccounts(e: Expr, ts: seq<Token>, i: nat, j: nat)
    requires Fits(e, COMPARE, false) && NoLogic(e) && At(ts, i, [Sym(Exclam)] + Yield(e)) && !Dotted(ts, i)
    requires j == i + 1 + |Yield(e)| && EndOk(e, false, Look(ts, j)) && NoOperator(OR, ts, j)
    ensures Accounts(NotE(e), OR, ts, i, Mk(ExprNot, Build(e), Null), j)
  {
    hide NoOperator, At;
  }

  /** Three operands: the tighter operator groups first, and equal ones to the right. */
  lemma {:induction false} Triple(a: Expr, op: BinOp, b: Expr, op': BinOp, c: Expr, ts: seq<Token>, i: nat)
    requires Operand(a) && Operand(b) && Operand(c) && !Logic(op) && !Logic(op')
    requires !Dotted(ts, i) && !LooksBehindStart(ts, i)
    requires var y := Yield(a) + (Written(op) + (Yield(b) + (Written(op') + Yield(c))));
             && At(ts, i, y) && i + |y| < |ts|
             && ts[i + |y|].kind in {RParen, RBrack, RCurly, Comma, Semicolon, Eof}
    ensures var y := Yield(a) + (Written(op) + (Yield(b) + (Written(op') + Yield(c))));
            Level(OR, ts, i)
            == Ok(Parsed(if Rank(op) < Rank(op')
                         then Mk(ExprBinary(op'), Mk(ExprBinary(op), Build(a), Build(b)), Build(c))
                         else Mk(ExprBinary(op), Build(a), Mk(ExprBinary(op'), Build(b), Build(c))), i + |y|))
  {
    var es, ops := [a, b, c], [op, op'];
    hide Level, Written, Yield, Operand, Logic, Build;
    assert ops[1..] == [op'] && es[1..] == [b, c] && es[1..][1..] == [c];
    assert ChainTokens([c], []) == Yield(c);
    assert ChainTokens([b, c], [op']) == Yield(b) + (Written(op') + Yield(c));
    assert ops[..1] == [op] && es[..2] == [a, b] && es[..1] == [a] && es[2..] == [c];
    ChainGroups(es, ops, ts, i);
    assert Loosest(ops) == if Rank(op) < Rank(op') then 1 else 0;
    assert Grouped([a, b], [op]) == Mk(ExprBinary(op), Build(a), Build(b));
    assert Grouped([b, c], [op']) == Mk(ExprBinary(op'), Build(b), Build(c));
  }
}
