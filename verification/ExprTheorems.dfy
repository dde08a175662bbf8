/** The main results about expressions. */
module ExprTheorems {
  import opened Outcomes
  import opened Tokens
  import opened Nodes
  import opened Operators
  import opened Syntax
  import opened CursorSafety
  import opened ExprParser
  import opened ExprShapes
  import opened ExprSound
  import opened ExprComplete
  import opened Printer

  // ----- exact characterisation

  /** A level returns the tree `n` and stops at `j` exactly when some source expression
      that the level grammar admits is written between `i` and `j`, has the tree `n`, and
      is not continued by what stands at `j`, and the tokens do not begin with an array
      access at `i`. */
  lemma LevelCharacterised(lv: nat, ts: seq<Token>, i: nat, n: Node, j: nat)
    requires lv <= OR && Proper(ts) && j < |ts| && n != Null
    ensures Level(lv, ts, i) == Ok(Parsed(n, j))
            <==> !LooksBehindStart(ts, i) && exists e :: Accounts(e, lv, ts, i, n, j)
  {
    hide Level, Accounts, LooksBehindStart;
    if LooksBehindStart(ts, i) {
      LooksBehindFails(lv, ts, i);
    } else {
      if Level(lv, ts, i) == Ok(Parsed(n, j)) {
        var e := Sound(lv, ts, i);
        assert Accounts(e, lv, ts, i, n, j);
      }
      if e :| Accounts(e, lv, ts, i, n, j) {
        Complete(e, lv, ts, i, n, j);
      }
    }
  }

  // ----- maximal munch

  /** Where a level stops, no operator of that level or a tighter one stands. */
  lemma {:induction false} MaximalMunch(lv: nat, ts: seq<Token>, i: nat)
    requires lv <= OR && Level(lv, ts, i).Ok?
    ensures NoOperator(lv, ts, Level(lv, ts, i).value.next)
    decreases |ts| - i, lv
  {
    hide OperatorAt, Width;
    if lv >= MULTIPLICATIVE {
      if lv == NOT {
        MunchNot(ts, i);
      } else {
        var lhs := Level(lv - 1, ts, i).value;
        var found := OperatorAt(lv, ts, lhs.next).value;
        if found == None {
          MaximalMunch(lv - 1, ts, i);
        } else {
          MaximalMunch(lv, ts, lhs.next + Width(found.value));
        }
      }
    }
  }

  lemma {:induction false} MunchNot(ts: seq<Token>, i: nat)
    requires Level(NOT, ts, i).Ok?
    ensures NoOperator(NOT, ts, Level(NOT, ts, i).value.next)
    decreases |ts| - i, NOT, 0
  {
    hide OperatorAt;
    var j := Level(NOT, ts, i).value.next;
    NotIsNoBinary(ts, j);
    if ts[i].kind == Eof {
      NothingAtEof(ts, i);
    } else if ts[i].kind == Exclam && ts[i + 1].kind != Equal {
      MaximalMunch(COMPARE, ts, i + 1);
    } else {
      MaximalMunch(COMPARE, ts, i);
    }
  }

  lemma NotIsNoBinary(ts: seq<Token>, j: nat)
    requires j < |ts|
    ensures OperatorAt(NOT, ts, j) == Ok(None)
  {
  }

  lemma NothingAtEof(ts: seq<Token>, j: nat)
    requires j < |ts| && ts[j].kind == Eof
    ensures NoOperator(OR, ts, j)
  {
  }

  // ----- the doubled symbols

  /** The symbols that no operand begins with. */
  predicate BeginsNothing(k: Kind) {
    k == Ampersand || k == Obelisk || k == Exclam
  }

  lemma {:induction false} NoOperand(lv: nat, ts: seq<Token>, i: nat)
    requires lv < NOT && i < |ts| && BeginsNothing(ts[i].kind)
    ensures Level(lv, ts, i) == SyntaxError("Invalid Token")
    decreases lv
  {
    hide OperatorAt;
    if lv == FACTOR {
      assert Factor(ts, i) == SyntaxError("Invalid Token");
    } else {
      NoOperand(lv - 1, ts, i);
      if lv == CALL {
        assert Call(ts, i) == Level(FACTOR, ts, i);
      } else if lv == NEGATE {
        assert Negate(ts, i) == Level(CALL, ts, i);
      } else {
        assert Binary(lv, ts, i) == Level(lv - 1, ts, i);
      }
    }
  }

  /** Behind any operand, `&&` and `||` end the parse at every level that could take them
      up: the bitwise level takes the first symbol and finds no operand at the second. */
  lemma {:induction false} DoubledSymbolRefused(lv: nat, ts: seq<Token>, i: nat)
    requires BITWISE <= lv <= OR && Level(MODULUS, ts, i).Ok?
    requires var j := Level(MODULUS, ts, i).value.next;
             j + 1 < |ts| && ts[j].kind == ts[j + 1].kind && (ts[j].kind == Ampersand || ts[j].kind == Obelisk)
    ensures Level(lv, ts, i) == SyntaxError("Invalid Token")
  {
    if lv == BITWISE {
      DoubledAtBitwise(ts, i);
    } else {
      DoubledSymbolRefused(lv - 1, ts, i);
      if lv == NOT {
        NoNot(ts, i);
      } else {
        hide OperatorAt, Width;
        assert Binary(lv, ts, i) == SyntaxError("Invalid Token");
      }
    }
  }

  lemma DoubledAtBitwise(ts: seq<Token>, i: nat)
    requires Level(MODULUS, ts, i).Ok?
    requires var j := Level(MODULUS, ts, i).value.next;
             j + 1 < |ts| && ts[j].kind == ts[j + 1].kind && (ts[j].kind == Ampersand || ts[j].kind == Obelisk)
    ensures Level(BITWISE, ts, i) == SyntaxError("Invalid Token")
  {
    var j := Level(MODULUS, ts, i).value.next;
    NoOperand(BITWISE, ts, j + 1);
    assert OperatorAt(BITWISE, ts, j) == Ok(Some(if ts[j].kind == Ampersand then BitAnd else BitOr));
    hide OperatorAt;
    assert Binary(BITWISE, ts, i) == SyntaxError("Invalid Token");
  }

  lemma NoNot(ts: seq<Token>, i: nat)
    requires Level(MODULUS, ts, i).Ok?
    ensures Level(NOT, ts, i) == Level(COMPARE, ts, i)
  {
    if ts[i].kind == Exclam {
      NoOperand(MODULUS, ts, i);
    } else if ts[i].kind == Eof {
      NothingToParse(COMPARE, ts, i);
    }
    hide OperatorAt, Binary;
    assert Not(ts, i) == Level(COMPARE, ts, i);
  }

  lemma {:induction false} NothingToParse(lv: nat, ts: seq<Token>, i: nat)
    requires lv < NOT && i < |ts| && ts[i].kind == Eof
    ensures Level(lv, ts, i) == Ok(Parsed(Null, i))
    decreases lv
  {
    if lv == FACTOR {
      assert Factor(ts, i) == Ok(Parsed(Null, i));
    } else {
      NothingToParse(lv - 1, ts, i);
      if lv == CALL {
        assert Call(ts, i) == Level(FACTOR, ts, i);
      } else if lv == NEGATE {
        assert Negate(ts, i) == Ok(Parsed(Null, i));
      } else {
        assert OperatorAt(lv, ts, i) == Ok(None);
        hide OperatorAt;
        assert Binary(lv, ts, i) == Level(lv - 1, ts, i);
      }
    }
  }

  // ----- round trip

  /** The tree the source stands for: unlike `Build`, a negation keeps its operand. */
  function Tree(e: Expr): Node {
    match e
    case Member(x, t) => Mk(ExprMemberAccess, Leaf(ConstVarname, Str(x)), Tree(t))
    case Index(x, es) => Mk(ExprArrayAccess, Leaf(ConstVarname, Str(x)), TreeList(ExprArrayIndex, es))
    case StructLit(es) => Mk(ConstStruct, TreeList(ExprList, es), Null)
    case ArrayLit(es) => Mk(ConstArray, TreeList(ExprList, es), Null)
    case Paren(e1) => Tree(e1)
    case CallN(x, es) => Mk(ExprCall, Leaf(ConstVarname, Str(x)), TreeList(ExprList, es))
    case Neg(e1) => Mk(ExprNegate, Tree(e1), Null)
    case Bin(op, l, r) => Mk(ExprBinary(op), Tree(l), Tree(r))
    case NotE(e1) => Mk(ExprNot, Tree(e1), Null)
    case _ => Build(e)
  }

  function TreeList(k: NodeKind, es: Exprs): Node
    decreases es
  {
    Mk(k, Tree(es.head), if es.More? then TreeList(k, es.rest) else Null)
  }

  /** What every tree the parser makes has in common: no logical operator, and nothing
      below a negation. */
  predicate Plain(n: Node) {
    || n == Null
    || (&& n.kind != ExprBinary(LogicAnd) && n.kind != ExprBinary(LogicOr)
        && (n.kind == ExprNegate ==> n.left == Null)
        && Plain(n.left) && Plain(n.right))
  }

  lemma LeafPlain(k: NodeKind, v: Value)
    requires k != ExprNegate && !k.ExprBinary?
    ensures Plain(Leaf(k, v))
  {
  }

  lemma PlainNode(k: NodeKind, l: Node, r: Node)
    ensures Plain(Mk(k, l, r)) <==> k != ExprBinary(LogicAnd) && k != ExprBinary(LogicOr)
                                    && (k == ExprNegate ==> l == Null) && Plain(l) && Plain(r)
    ensures Plain(Null)
  {
  }

  lemma {:induction false} TreePlain(e: Expr)
    requires Source(e)
    ensures Plain(Tree(e)) <==> NoLogic(e) && NoNeg(e)
    ensures Tree(e) != Null && (NoNeg(e) ==> Tree(e) == Build(e))
  {
    hide Plain;
    match e
    case Lit(lit, v) => LeafPlain(lit.NodeKind(), v);
    case Var(x) => LeafPlain(ConstVarname, Str(x));
    case Member(x, t) =>
      TreePlain(t);
      LeafPlain(ConstVarname, Str(x));
      PlainNode(ExprMemberAccess, Leaf(ConstVarname, Str(x)), Tree(t));
    case Index(x, es) =>
      TreeListPlain(ExprArrayIndex, es);
      LeafPlain(ConstVarname, Str(x));
      PlainNode(ExprArrayAccess, Leaf(ConstVarname, Str(x)), TreeList(ExprArrayIndex, es));
    case StructLit(es) => TreeListPlain(ExprList, es); PlainNode(ConstStruct, TreeList(ExprList, es), Null);
    case ArrayLit(es) => TreeListPlain(ExprList, es); PlainNode(ConstArray, TreeList(ExprList, es), Null);
    case Paren(e1) => TreePlain(e1);
    case Call0(x) => LeafPlain(ConstVarname, Str(x)); PlainNode(ExprCall, Leaf(ConstVarname, Str(x)), Null);
    case CallN(x, es) =>
      TreeListPlain(ExprList, es);
      LeafPlain(ConstVarname, Str(x));
      PlainNode(ExprCall, Leaf(ConstVarname, Str(x)), TreeList(ExprList, es));
    case Neg(e1) => TreePlain(e1); PlainNode(ExprNegate, Tree(e1), Null);
    case Bin(op, l, r) => TreePlain(l); TreePlain(r); PlainNode(ExprBinary(op), Tree(l), Tree(r));
    case NotE(e1) => TreePlain(e1); PlainNode(ExprNot, Tree(e1), Null);
  }

  lemma {:induction false} TreeListPlain(k: NodeKind, es: Exprs)
    requires SourceAll(es) && (k == ExprList || k == ExprArrayIndex)
    ensures Plain(TreeList(k, es)) <==> NoLogicAll(es) && NoNegAll(es)
    ensures NoNegAll(es) ==> TreeList(k, es) == if k == ExprList then BuildList(es) else BuildIndices(es)
    decreases es
  {
    hide Plain;
    TreePlain(es.head);
    PlainNode(k, Tree(es.head), if es.More? then TreeList(k, es.rest) else Null);
    if es.More? {
      TreeListPlain(k, es.rest);
    }
  }

  lemma {:induction false} BuildPlain(e: Expr)
    requires NoLogic(e)
    ensures Plain(Build(e))
  {
    match e
    case Lit(lit, v) => LeafPlain(lit.NodeKind(), v);
    case Var(x) => LeafPlain(ConstVarname, Str(x));
    case Member(x, t) => BuildPlain(t); LeafPlain(ConstVarname, Str(x));
    case Index(x, es) => BuildListPlain(es); LeafPlain(ConstVarname, Str(x));
    case StructLit(es) => BuildListPlain(es);
    case ArrayLit(es) => BuildListPlain(es);
    case Paren(e1) => BuildPlain(e1);
    case Call0(x) => LeafPlain(ConstVarname, Str(x)); PlainNode(ExprCall, Leaf(ConstVarname, Str(x)), Null);
    case CallN(x, es) => BuildListPlain(es); LeafPlain(ConstVarname, Str(x));
    case Neg(e1) => PlainNode(ExprNegate, Null, Null);
    case Bin(op, l, r) => BuildPlain(l); BuildPlain(r);
    case NotE(e1) => BuildPlain(e1);
    case Cut(x) => LeafPlain(ConstVarname, Str(x)); PlainNode(ExprMemberAccess, Leaf(ConstVarname, Str(x)), Null);
    case BareMinus => PlainNode(ExprNegate, Null, Null);
  }

  lemma {:induction false} BuildListPlain(es: Exprs)
    requires NoLogicAll(es)
    ensures Plain(BuildList(es)) && Plain(BuildIndices(es))
  {
    BuildPlain(es.head);
    if es.More? {
      BuildListPlain(es.rest);
    }
  }

  /** `w` is written at `i` and what follows does not continue it at level `lv`. */
  predicate Written(w: Expr, lv: nat, ts: seq<Token>, i: nat) {
    var j := i + |Yield(w)|;
    && !Dotted(ts, i) && At(ts, i, Yield(w)) && j < |ts| && Follows(w, lv, ts, j)
  }

  /** Level round trip. Print any tree for any level with the fewest parentheses and
      parse it back: the cursor ends exactly behind it and the tree comes back if and
      only if it contains no negation (whose operand the parser drops) and no `&&` or
      `||` (whose first symbol the bitwise level takes for itself), and the tokens do not
      begin with an array access. With negations, what comes back is the tree without
      their operands. */
  lemma {:induction false} RoundTrip(e: Expr, lv: nat, ts: seq<Token>, i: nat)
    requires lv <= OR && Source(e) && Proper(ts) && Written(Fit(e, lv, false), lv, ts, i)
    ensures var j, starts := i + |Yield(Fit(e, lv, false))|, LooksBehindStart(ts, i);
            && (Level(lv, ts, i) == Ok(Parsed(Tree(e), j)) <==> NoLogic(e) && NoNeg(e) && !starts)
            && (NoLogic(e) && !starts ==> Level(lv, ts, i) == Ok(Parsed(Build(e), j)))
  {
    hide Level, Tree, Plain, Fit, Yield, Build, Strip, NoLogic, NoNeg, Source, Fits, OpenEnd, Follows, At, Proper,
         LooksBehindStart;
    if LooksBehindStart(ts, i) {
      LooksBehindFails(lv, ts, i);
      return;
    }
    var w := Fit(e, lv, false);
    var j := i + |Yield(w)|;
    FitFits(e, lv, false);
    FitStrips(e, lv, false);
    SameTree(w, e);
    TreePlain(e);
    if NoLogic(e) {
      Complete(w, lv, ts, i, Build(e), j);
    }
    if Level(lv, ts, i) == Ok(Parsed(Tree(e), j)) {
      var d := Sound(lv, ts, i);
      BuildPlain(d);
    }
  }

  /** Expressions that differ in parentheses only have the same tree. */
  lemma SameTree(a: Expr, b: Expr)
    requires Strip(a) == Strip(b)
    ensures Build(a) == Build(b) && (NoLogic(a) <==> NoLogic(b))
  {
    StripKeepsTree(a);
    StripKeepsTree(b);
  }

  /** Parentheses do not matter: wherever they stand, the print with the fewest
      parentheses and the print with parentheses around every operand both parse to the
      tree, and so to the same one, unless the tokens begin with an array access. */
  lemma {:induction false} ParenthesesDoNotMatter(e: Expr, ts: seq<Token>, i: nat, ts': seq<Token>, i': nat)
    requires Source(e) && NoLogic(e)
    requires Written(Fit(e, OR, false), OR, ts, i) && Written(Full(e), OR, ts', i')
    ensures Level(OR, ts, i).Ok? <==> !LooksBehindStart(ts, i)
    ensures Level(OR, ts', i').Ok? <==> !LooksBehindStart(ts', i')
    ensures Level(OR, ts, i).Ok? && Level(OR, ts', i').Ok?
            ==> Level(OR, ts, i).value.node == Level(OR, ts', i').value.node
  {
    hide Level, Fit, Full, Yield, Build, Strip, NoLogic, Source, Fits, OpenEnd, Follows, At, LooksBehindStart;
    FitFits(e, OR, false);
    FitStrips(e, OR, false);
    FullFits(e);
    FullStrips(e);
    SameTree(Fit(e, OR, false), e);
    SameTree(Full(e), e);
    if LooksBehindStart(ts, i) {
      LooksBehindFails(OR, ts, i);
    } else {
      Complete(Fit(e, OR, false), OR, ts, i, Build(e), i + |Yield(Fit(e, OR, false))|);
    }
    if LooksBehindStart(ts', i') {
      LooksBehindFails(OR, ts', i');
    } else {
      Complete(Full(e), OR, ts', i', Build(e), i' + |Yield(Full(e))|);
    }
  }
}
