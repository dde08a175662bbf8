/** One input each for what the parser and the lexer do not do as intended. Exactly when
    they do is stated, for all inputs, in the theorems the comments name. */
module Examples {
  import opened Outcomes
  import opened Tokens
  import opened Nodes
  import opened Operators
  import opened Syntax
  import opened ExprParser
  import opened ExprParts
  import opened ExprComplete
  import opened CursorSafety
  import opened ExprTheorems
  import opened Leaves
  import opened StmtParser
  import opened StmtCases
  import opened Programs
  import opened ProgramParts
  import opened ProgramSafety
  import Precedence
  import opened LexerSpec
  import LexerTheorems

  function X(): Token {
    Token(Ident, Str("x"))
  }

  function Seven(): Token {
    Token(LitInt, Int(7))
  }

  /** A tree found at a tight level is the tree of every looser one, when no operator
      follows it. */
  lemma {:induction false} DescendTo(from: nat, lv: nat, ts: seq<Token>, i: nat, p: Parsed)
    requires from <= lv <= OR && Level(from, ts, i) == Ok(p)
    requires i + 1 < |ts| && Starter(ts[i].kind, from) && !(ts[i].kind == Ident && ts[i + 1].kind == LParen)
    requires NoOperator(lv, ts, p.next)
    ensures Level(lv, ts, i) == Ok(p)
    decreases lv - from
  {
    hide Level, OperatorAt;
    if from < lv {
      Descend(from + 1, ts, i, p);
      DescendTo(from + 1, lv, ts, i, p);
    }
  }

  lemma SevenIs(ts: seq<Token>, i: nat)
    requires i < |ts| && ts[i] == Seven()
    ensures Level(FACTOR, ts, i) == Ok(Parsed(Leaf(ConstInt, Int(7)), i + 1))
  {
    assert Factor(ts, i) == Ok(Parsed(Leaf(ConstInt, Int(7)), i + 1));
  }

  /** `-7` becomes a negation of nothing, which loses the literal. `ExprTheorems.RoundTrip`
      and `Leaves.LeafConservation`. */
  lemma {:induction false} NegationLosesOperand()
    ensures var ts := [Sym(Minus), Seven(), Sym(Eof)];
            && Level(OR, ts, 0) == Ok(Parsed(Mk(ExprNegate, Null, Null), 2))
            && NodeLeaves(Mk(ExprNegate, Null, Null)) == [] && LeafTokens(ts[0..2]) == [Seven()]
  {
    var ts := [Sym(Minus), Seven(), Sym(Eof)];
    assert ts[0..2] == [Sym(Minus)] + [Seven()];
    LeafTokensConcat([Sym(Minus)], [Seven()]);
    NothingAtEof(ts, 2);
    SevenIs(ts, 1);
    DescendTo(FACTOR, CALL, ts, 1, Parsed(Leaf(ConstInt, Int(7)), 2));
    assert Negate(ts, 0) == Ok(Parsed(Mk(ExprNegate, Null, Null), 2));
    DescendTo(NEGATE, OR, ts, 0, Parsed(Mk(ExprNegate, Null, Null), 2));
  }

  /** `7 && 7` is refused. `ExprTheorems.DoubledSymbolRefused`. */
  lemma {:induction false} LogicRefused()
    ensures Level(OR, [Seven(), Sym(Ampersand), Sym(Ampersand), Seven(), Sym(Eof)], 0) == SyntaxError("Invalid Token")
  {
    var ts := [Seven(), Sym(Ampersand), Sym(Ampersand), Seven(), Sym(Eof)];
    SevenIs(ts, 0);
    assert forall l :: MULTIPLICATIVE <= l <= MODULUS ==> OperatorAt(l, ts, 1) == Ok(None);
    DescendTo(FACTOR, MODULUS, ts, 0, Parsed(Leaf(ConstInt, Int(7)), 1));
    DoubledSymbolRefused(OR, ts, 0);
  }

  /** `7 + 7 % 7` is the remainder of a sum, `7 - 7 - 7` has its second minus first.
      `Precedence.ChainGroups`. */
  lemma {:induction false} RemainderOfSum()
    ensures var n := Leaf(ConstInt, Int(7));
            && Level(OR, [Seven(), Sym(Plus), Seven(), Sym(Percent), Seven(), Sym(Eof)], 0)
               == Ok(Parsed(Mk(ExprBinary(Modulus), Mk(ExprBinary(Add), n, n), n), 5))
            && Level(OR, [Seven(), Sym(Minus), Seven(), Sym(Minus), Seven(), Sym(Eof)], 0)
               == Ok(Parsed(Mk(ExprBinary(Subtract), n, Mk(ExprBinary(Subtract), n, n)), 5))
  {
    Sevens(Add, Plus, Modulus, Percent);
    Sevens(Subtract, Minus, Subtract, Minus);
  }

  lemma Sevens(op: BinOp, k: Kind, op': BinOp, k': Kind)
    requires !Precedence.Logic(op) && !Precedence.Logic(op')
    requires Precedence.Symbols(op) == [k] && Precedence.Symbols(op') == [k']
    ensures var ts := [Seven(), Sym(k), Seven(), Sym(k'), Seven(), Sym(Eof)];
            var n := Leaf(ConstInt, Int(7));
            Level(OR, ts, 0)
            == Ok(Parsed(if Precedence.Rank(op) < Precedence.Rank(op')
                         then Mk(ExprBinary(op'), Mk(ExprBinary(op), n, n), n)
                         else Mk(ExprBinary(op), n, Mk(ExprBinary(op'), n, n)), 5))
  {
    hide Level;
    var ts := [Seven(), Sym(k), Seven(), Sym(k'), Seven(), Sym(Eof)];
    var e := Lit(IntLit, Int(7));
    assert Yield(e) == [Seven()] && Build(e) == Leaf(ConstInt, Int(7)) && Precedence.Operand(e);
    var y := Yield(e) + (Precedence.Written(op) + (Yield(e) + (Precedence.Written(op') + Yield(e))));
    assert y == ts[0..5];
    Precedence.Triple(e, op, e, op', e, ts, 0);
  }

  /** `x.x[7]` ends before the bracket. `ExprTheorems.LevelCharacterised`, where a name
      behind a dot can only be the whole rest of the access. */
  lemma AccessStopsAtBracket()
    ensures var x := Leaf(ConstVarname, Str("x"));
            Level(FACTOR, [X(), Sym(Dot), X(), Sym(LBrack), Seven(), Sym(RBrack), Sym(Eof)], 0)
            == Ok(Parsed(Mk(ExprMemberAccess, x, Mk(ExprMemberAccess, x, Null)), 3))
  {
    var ts := [X(), Sym(Dot), X(), Sym(LBrack), Seven(), Sym(RBrack), Sym(Eof)];
    assert MemberAccess(ts, 2) == Ok(Parsed(Mk(ExprMemberAccess, Varname(ts, 2).node, Null), 3));
    assert Factor(ts, 2) == MemberAccess(ts, 2);
    assert Factor(ts, 0) == MemberAccess(ts, 0);
  }

  /** `x = 7;` as a whole program reads in front of the tokens.
      `ProgramTheorems.ProgramRoundTrip` and `CursorSafety.OutOfBoundsExactly`. */
  lemma AssignmentAtStart()
    ensures Program([X(), Sym(Equal), Seven(), Sym(Semicolon), Sym(Eof)]) == OutOfBounds
  {
    var ts := [X(), Sym(Equal), Seven(), Sym(Semicolon), Sym(Eof)];
    assert MemberAccess(ts, 0) == OutOfBounds;
    assert Assign(ts, 0) == OutOfBounds;
    assert StmtParser.Statement(ts, 0, NoBlock) == OutOfBounds;
  }

  /** `int[(7)]` and then nothing is taken for the beginning of a function, whose name is
      looked for behind the end. `ProgramSafety.OutsideExactly`. */
  lemma {:induction false} FunctionWithoutName()
    ensures Program([Sym(WordInt), Sym(LBrack), Sym(LParen), Seven(), Sym(RParen), Sym(RBrack)] + [Sym(Eof)])
            == OutOfBounds
  {
    hide *;
    var t := SizedInt();
    NamelessSized(t);
    OpenedIsOutside(Nameless(t));
  }

  /** So is `void x() { int[(7)]`, with the body still open. */
  lemma {:induction false} FunctionWithoutNameInBody()
    ensures var sized := [Sym(WordInt), Sym(LBrack), Sym(LParen), Seven(), Sym(RParen), Sym(RBrack)];
            Program(([Sym(WordVoid), X(), Sym(LParen), Sym(RParen), Sym(LCurly)] + sized) + [Sym(Eof)]) == OutOfBounds
  {
    hide *;
    var t := SizedInt();
    NamelessSized(t);
    var o := VoidBody(Nameless(t));
    OpenedIsOutside(o);
  }

  /** `int[(7)]`. */
  lemma SizedInt() returns (t: Type)
    ensures GoodType(t) && EveryInType(t, NoLogic)
    ensures YieldType(t) == [Sym(WordInt), Sym(LBrack), Sym(LParen), Seven(), Sym(RParen), Sym(RBrack)]
  {
    t := SizedOf(Base(IntType), Paren(Lit(IntLit, Int(7))));
  }

  lemma NamelessSized(t: Type)
    requires GoodType(t) && EveryInType(t, NoLogic)
    requires YieldType(t) == [Sym(WordInt), Sym(LBrack), Sym(LParen), Seven(), Sym(RParen), Sym(RBrack)]
    ensures YieldOpened(Nameless(t)) == YieldType(t) && !Nameless(t).Behind?
    ensures forall b :: OkOpened(Nameless(t), b)
  {
    hide YieldType, GoodType, EveryInType;
  }

  /** `void x() {` and more. */
  lemma VoidBody(body: Opened) returns (o: Opened)
    requires OkOpened(body, FuncBlock)
    ensures OkOpened(o, NoBlock) && !o.Behind?
    ensures YieldOpened(o) == [Sym(WordVoid), X(), Sym(LParen), Sym(RParen), Sym(LCurly)] + YieldOpened(body)
  {
    hide OkOpened, YieldOpened, GoodType, GoodDecls, EveryInType, EveryInDecls, FunctionAhead, YieldSignature;
    VoidHead();
    InFunctionOk(Base(VoidType), X(), NoDecls, false, body, NoBlock);
    o := InFunction(Base(VoidType), X(), NoDecls, false, body);
  }

  lemma VoidHead()
    ensures GoodType(Base(VoidType)) && EveryInType(Base(VoidType), NoLogic) && FunctionAhead(Base(VoidType), X())
    ensures GoodDecls(NoDecls) && EveryInDecls(NoDecls, NoLogic)
    ensures YieldSignature(Base(VoidType), X(), NoDecls, false) == [Sym(WordVoid), X(), Sym(LParen), Sym(RParen)]
  {
    assert YieldType(Base(VoidType)) + [X(), Sym(LParen)] == [Sym(WordVoid), X(), Sym(LParen)];
  }

  /** `int 7()` is a function named by a literal. The name's kind is not looked at. */
  lemma FunctionNamedByLiteral()
    ensures TypeVarname([Sym(WordInt), Seven(), Sym(LParen)], 0)
            == Ok(Parsed(Mk(DeclTypeVarnamePair, Mk(TypeInt, Null, Null), Leaf(ConstVarname, Int(7))), 2))
  {
    var ts := [Sym(WordInt), Seven(), Sym(LParen)];
    assert PlainType(ts, 0) == Ok(Parsed(Mk(TypeInt, Null, Null), 1));
    assert TypeName(ts, 0) == Ok(Parsed(Mk(TypeInt, Null, Null), 1));
  }

  /** `int[] x;` is not recognised as a declaration. `ProgramTheorems.LookaheadClassifies`. */
  lemma ArrayVariableMissed()
    ensures StmtParser.Statement([Sym(WordInt), Sym(LBrack), Sym(RBrack), X(), Sym(Semicolon), Sym(Eof)], 0, FuncBlock)
            == Ok(Parsed(Null, 0))
  {
    var ts := [Sym(WordInt), Sym(LBrack), Sym(RBrack), X(), Sym(Semicolon), Sym(Eof)];
    hide StmtParser.Statement;
    StatementIsNone(ts, 0, FuncBlock);
  }

  /** `if7` is the word `if` and a literal. `LexerTheorems.NameReadExactly`. */
  lemma {:induction false} KeywordInsideName()
    ensures ScanOne("if7") == Lexeme(Sym(WordIf), 2)
  {
    hide ScanOne;
    LexerTheorems.ScanKeyword(WordIf, "7");
    assert "if" + "7" == "if7";
  }

  /** In `1.` and `a` on the next line, the numeral takes the line break, and `a` is
      counted to the first line. `LexerCoverage.LinesExactly`. */
  lemma {:induction false} BreakBehindDot()
    ensures Lex("1.\na ", 1) == Ok([Located(Token(LitFloat, Float("1.\n")), 1), Located(Name("a"), 1)])
    ensures LexerTheorems.NewLines("1.\n") == 1
  {
    hide ScanOne, FirstKeyword;
    LexerTheorems.FirstKeywordNone(KEYWORDS, "a");
    hide KEYWORDS;
    LexerTheorems.ScanFloat("1.\n", "a ");
    assert "1.\n" + "a " == "1.\na ";
    LexerTheorems.LexOne("1.\n", "a ", Token(LitFloat, Float("1.\n")), 1);
    LexerTheorems.ScanName("a", " ");
    LexerTheorems.LexOne("a", " ", Name("a"), 1);
    LexerTheorems.LexBlanks(" ", "", 1);
    assert " " + "" == " " && "a" + " " == "a ";
    assert Lex(" ", 1) == Ok([]);
    assert [Located(Name("a"), 1)] + [] == [Located(Name("a"), 1)];
    var first := Located(Token(LitFloat, Float("1.\n")), 1);
    assert [first] + [Located(Name("a"), 1)] == [first, Located(Name("a"), 1)];
  }
}
