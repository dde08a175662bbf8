/** Every form of the language with its tokens and its tree spelled out: which symbols and
    words it is written with, and which nodes the parser makes of it. */
module Forms {
  import opened Outcomes
  import opened Tokens
  import opened Nodes
  import opened Operators
  import opened Syntax
  import opened Printer
  import opened ExprParser
  import opened ExprShapes
  import opened ExprParts
  import opened StmtParser
  import opened Programs
  import opened ProgramParts
  import opened ProgramComplete
  import opened Kept

  // ----- expressions

  /** The expression `e` is written as `y`, and is parsed to `n` wherever it stands behind
      something else and before a closing symbol. */
  ghost predicate ReadAs(e: Expr, y: seq<Token>, n: Node) {
    Yield(e) == y && forall ts, i: nat :: Standing(ts, i, y) ==> Level(OR, ts, i) == Ok(Parsed(n, i + |y|))
  }

  predicate Standing(ts: seq<Token>, i: nat, y: seq<Token>) {
    0 < i && !Dotted(ts, i) && At(ts, i, y) && Look(ts, i + |y|) in {RParen, RBrack, RCurly, Comma, Semicolon}
  }

  /** What can be parsed to a tree at all. */
  predicate Fine(e: Expr) {
    GoodExpr(e) && NoLogic(e)
  }

  lemma ReadAsBuilt(e: Expr)
    requires Fine(e)
    ensures ReadAs(e, Yield(e), Build(e))
  {
    hide Level, Yield, Build, GoodExpr, NoLogic, At;
    forall ts, i: nat | Standing(ts, i, Yield(e)) ensures Level(OR, ts, i) == Ok(Parsed(Build(e), i + |Yield(e)|)) {
      ExprDone(e, ts, i);
    }
  }

  lemma LiteralForms(v: Value)
    ensures ReadAs(Lit(IntLit, v), [Token(LitInt, v)], Leaf(ConstInt, v))
    ensures ReadAs(Lit(FloatLit, v), [Token(LitFloat, v)], Leaf(ConstFloat, v))
    ensures ReadAs(Lit(BoolLit, v), [Token(LitBool, v)], Leaf(ConstBool, v))
    ensures ReadAs(Lit(StringLit, v), [Token(LitString, v)], Leaf(ConstString, v))
  {
    hide ReadAs;
    ReadAsBuilt(Lit(IntLit, v));
    ReadAsBuilt(Lit(FloatLit, v));
    ReadAsBuilt(Lit(BoolLit, v));
    ReadAsBuilt(Lit(StringLit, v));
  }

  function V(x: string): Node {
    Leaf(ConstVarname, Str(x))
  }

  lemma NameForms(x: string, y: string, z: string)
    ensures ReadAs(Var(x), [Name(x)], V(x))
    ensures ReadAs(Call0(x), [Name(x), Sym(LParen), Sym(RParen)], Mk(ExprCall, V(x), Null))
    ensures ReadAs(Member(x, Member(y, Var(z))), [Name(x), Sym(Dot)] + ([Name(y), Sym(Dot)] + [Name(z)]),
                   Mk(ExprMemberAccess, V(x), Mk(ExprMemberAccess, V(y), V(z))))
  {
    hide ReadAs;
    ReadAsBuilt(Var(x));
    ReadAsBuilt(Call0(x));
    var t := Member(y, Var(z));
    assert Fits(Var(z), FACTOR, true) && Source(Var(z)) && NoLogic(Var(z)) && Yield(Var(z)) == [Name(z)];
    assert Source(t) && Fits(t, FACTOR, true) && NoLogic(t) && Yield(t) == [Name(y), Sym(Dot)] + [Name(z)];
    assert Build(t) == Mk(ExprMemberAccess, V(y), V(z));
    ReadAsBuilt(Member(x, t));
  }

  lemma Pair(a: Expr, b: Expr)
    requires Fine(a) && Fine(b)
    ensures var es := More(a, Last(b));
            && SourceAll(es) && FitsAll(es) && NoLogicAll(es)
            && YieldList(es) == Yield(a) + ([Sym(Comma)] + Yield(b))
            && BuildList(es) == Mk(ExprList, Build(a), Mk(ExprList, Build(b), Null))
            && YieldIndices(es)
               == [Sym(LBrack)] + (Yield(a) + ([Sym(RBrack)] + ([Sym(LBrack)] + (Yield(b) + [Sym(RBrack)]))))
            && BuildIndices(es) == Mk(ExprArrayIndex, Build(a), Mk(ExprArrayIndex, Build(b), Null))
  {
    hide Yield, Build, Fits, Source, NoLogic, OpenEnd;
    SourceIsClosed(a);
    SourceIsClosed(b);
    var es, l := More(a, Last(b)), Last(b);
    assert SourceAll(l) && FitsAll(l) && NoLogicAll(l) && YieldList(l) == Yield(b);
    assert BuildList(l) == Mk(ExprList, Build(b), Null) && BuildIndices(l) == Mk(ExprArrayIndex, Build(b), Null);
    assert YieldIndices(l) == [Sym(LBrack)] + (Yield(b) + [Sym(RBrack)]);
  }

  lemma BracketForms(x: string, a: Expr, b: Expr)
    requires Fine(a) && Fine(b)
    ensures ReadAs(Paren(a), [Sym(LParen)] + (Yield(a) + [Sym(RParen)]), Build(a))
    ensures ReadAs(Index(x, More(a, Last(b))),
                   [Name(x)] + ([Sym(LBrack)] + (Yield(a) + ([Sym(RBrack)]
                   + ([Sym(LBrack)] + (Yield(b) + [Sym(RBrack)]))))),
                   Mk(ExprArrayAccess, V(x), Mk(ExprArrayIndex, Build(a), Mk(ExprArrayIndex, Build(b), Null))))
  {
    hide ReadAs;
    SourceIsClosed(a);
    Pair(a, b);
    ReadAsBuilt(Paren(a));
    ReadAsBuilt(Index(x, More(a, Last(b))));
  }

  lemma ListForms(x: string, a: Expr, b: Expr)
    requires Fine(a) && Fine(b)
    ensures var list := Mk(ExprList, Build(a), Mk(ExprList, Build(b), Null));
            var items := Yield(a) + ([Sym(Comma)] + Yield(b));
            && ReadAs(CallN(x, More(a, Last(b))), [Name(x), Sym(LParen)] + (items + [Sym(RParen)]),
                      Mk(ExprCall, V(x), list))
            && ReadAs(StructLit(More(a, Last(b))), [Sym(LCurly)] + (items + [Sym(RCurly)]), Mk(ConstStruct, list, Null))
            && ReadAs(ArrayLit(More(a, Last(b))), [Sym(LBrack)] + (items + [Sym(RBrack)]), Mk(ConstArray, list, Null))
  {
    hide ReadAs;
    Pair(a, b);
    ReadAsBuilt(CallN(x, More(a, Last(b))));
    ReadAsBuilt(StructLit(More(a, Last(b))));
    ReadAsBuilt(ArrayLit(More(a, Last(b))));
  }

  lemma PrefixForms(x: string)
    ensures ReadAs(Neg(Var(x)), [Sym(Minus)] + [Name(x)], Mk(ExprNegate, Null, Null))
    ensures ReadAs(NotE(Var(x)), [Sym(Exclam)] + [Name(x)], Mk(ExprNot, V(x), Null))
  {
    hide ReadAs;
    var e := Var(x);
    assert Source(e) && Fits(e, CALL, false) && Fits(e, COMPARE, false) && NoLogic(e) && Yield(e) == [Name(x)];
    assert Build(e) == V(x);
    ReadAsBuilt(Neg(e));
    ReadAsBuilt(NotE(e));
  }

  // ----- types and declarations

  /** A plain word or name before something that is no bracket. */
  lemma BasicForms(ts: seq<Token>, i: nat)
    requires i + 1 < |ts| && ts[i + 1].kind != LBrack
    ensures ts[i] == Sym(WordInt) ==> TypeName(ts, i) == Ok(Parsed(Mk(TypeInt, Null, Null), i + 1))
    ensures ts[i] == Sym(WordFloat) ==> TypeName(ts, i) == Ok(Parsed(Mk(TypeFloat, Null, Null), i + 1))
    ensures ts[i] == Sym(WordBool) ==> TypeName(ts, i) == Ok(Parsed(Mk(TypeBool, Null, Null), i + 1))
    ensures ts[i] == Sym(WordVoid) ==> TypeName(ts, i) == Ok(Parsed(Mk(TypeVoid, Null, Null), i + 1))
    ensures ts[i].kind == Ident ==>
              TypeName(ts, i) == Ok(Parsed(Mk(TypeUser, Leaf(ConstVarname, ts[i].value), Null), i + 1))
  {
  }

  /** The type `t` is written as `y`, and is parsed to `n` before a name. */
  ghost predicate TypeReadAs(t: Type, y: seq<Token>, n: Node) {
    YieldType(t) == y && forall ts, i: nat :: TypeStanding(ts, i, y) ==> TypeName(ts, i) == Ok(Parsed(n, i + |y|))
  }

  predicate TypeStanding(ts: seq<Token>, i: nat, y: seq<Token>) {
    At(ts, i, y) && i + |y| < |ts| && ts[i + |y|].kind == Ident
  }

  predicate FineType(t: Type) {
    GoodType(t) && EveryInType(t, NoLogic)
  }

  lemma TypeReadAsBuilt(t: Type)
    requires FineType(t)
    ensures TypeReadAs(t, YieldType(t), BuildType(t))
  {
    hide TypeName, YieldType, BuildType, GoodType, EveryInType, At;
    forall ts, i: nat | TypeStanding(ts, i, YieldType(t))
      ensures TypeName(ts, i) == Ok(Parsed(BuildType(t), i + |YieldType(t)|))
    {
      TypeDone(t, ts, i);
    }
  }

  lemma PrefixedTypes(t: Type)
    requires FineType(t)
    ensures TypeReadAs(RefTo(t), [Sym(WordRef)] + YieldType(t), Mk(DeclReference, BuildType(t), Null))
    ensures TypeReadAs(ConstOf(t), [Sym(WordConst)] + YieldType(t), Mk(DeclConst, BuildType(t), Null))
  {
    hide TypeReadAs;
    TypeReadAsBuilt(RefTo(t));
    TypeReadAsBuilt(ConstOf(t));
  }

  /** A suffix belongs to the innermost type that has none. */
  lemma SuffixedTypes(t: Type, e: Expr)
    requires FineType(t) && (t.Base? || t.User?) && Fine(e)
    ensures TypeReadAs(ArrayOf(t), YieldType(t) + [Sym(LBrack), Sym(RBrack)],
                       Mk(DeclVarNosizedArray, BuildType(t), Null))
    ensures TypeReadAs(SizedOf(t, e), YieldType(t) + ([Sym(LBrack)] + (Yield(e) + [Sym(RBrack)])),
                       Mk(DeclVarSizedArray, BuildType(t), Build(e)))
  {
    hide TypeReadAs, GoodExpr, NoLogic, Yield, Build;
    TypeReadAsBuilt(ArrayOf(t));
    TypeReadAsBuilt(SizedOf(t, e));
  }

  // ----- statements

  /** The tokens `y` at `i` are a statement of the block, with the tree `n`. */
  predicate StatementIs(ts: seq<Token>, i: nat, b: Block, y: seq<Token>, n: Node) {
    StmtParser.Statement(ts, i, b) == Ok(Parsed(Mk(Stmt, n, Null), i + |y|))
  }

  /** No statement begins at `i`. */
  predicate NoStatement(ts: seq<Token>, i: nat, b: Block) {
    StmtParser.Statement(ts, i, b) == Ok(Parsed(Null, i))
  }

  lemma StatementDone(s: Statement, ts: seq<Token>, i: nat, b: Block)
    requires 0 < i && !Dotted(ts, i) && Accepted(s, b) && EveryInStmt(s, NoLogic) && At(ts, i, YieldStmt(s))
    requires s.SIf? ==> NoElseAt(ts, i + |YieldStmt(s)|)
    ensures StatementIs(ts, i, b, YieldStmt(s), BuildStmt(s))
  {
    hide StmtParser.Statement, Accepted, EveryInStmt, YieldStmt, BuildStmt;
    StmtDone(s, ts, i, b);
  }

  /** `break` and `continue` stand in loops only. */
  lemma JumpForms(ts: seq<Token>, i: nat, b: Block)
    requires 0 < i && !Dotted(ts, i)
    ensures At(ts, i, [Sym(WordBreak), Sym(Semicolon)]) ==>
              if b == LoopBlock then StatementIs(ts, i, b, [Sym(WordBreak), Sym(Semicolon)], Mk(StmtBreak, Null, Null))
              else NoStatement(ts, i, b)
    ensures At(ts, i, [Sym(WordContinue), Sym(Semicolon)]) ==>
              if b == LoopBlock
              then StatementIs(ts, i, b, [Sym(WordContinue), Sym(Semicolon)], Mk(StmtContinue, Null, Null))
              else NoStatement(ts, i, b)
  {
    hide StmtParser.Statement, StatementIs, NoStatement, At;
    if At(ts, i, [Sym(WordBreak), Sym(Semicolon)]) {
      JumpForm(SBreak, ts, i, b);
    }
    if At(ts, i, [Sym(WordContinue), Sym(Semicolon)]) {
      JumpForm(SContinue, ts, i, b);
    }
  }

  lemma JumpForm(s: Statement, ts: seq<Token>, i: nat, b: Block)
    requires 0 < i && !Dotted(ts, i) && (s.SBreak? || s.SContinue?) && At(ts, i, YieldStmt(s))
    ensures if b == LoopBlock then StatementIs(ts, i, b, YieldStmt(s), BuildStmt(s)) else NoStatement(ts, i, b)
  {
    hide StatementIs, NoStatement, At;
    AtFirst(ts, i, YieldStmt(s));
    if b == LoopBlock {
      StatementDone(s, ts, i, b);
    } else {
      Elsewhere(ts, i, b);
    }
  }

  /** `return` stands in functions, but in no loop. */
  lemma ReturnForm(e: Expr, ts: seq<Token>, i: nat, b: Block)
    requires 0 < i && !Dotted(ts, i) && Fine(e) && At(ts, i, [Sym(WordReturn)] + (Yield(e) + [Sym(Semicolon)]))
    ensures if b == FuncBlock
            then StatementIs(ts, i, b, YieldStmt(SReturn(e)), Mk(StmtReturn, Build(e), Null))
            else NoStatement(ts, i, b)
  {
    hide GoodExpr, NoLogic, Yield, Build, At;
    AtFirst(ts, i, [Sym(WordReturn)] + (Yield(e) + [Sym(Semicolon)]));
    if b == FuncBlock {
      StatementDone(SReturn(e), ts, i, b);
    } else {
      Elsewhere(ts, i, b);
    }
  }

  /** A word that begins statements in other blocks. */
  lemma Elsewhere(ts: seq<Token>, i: nat, b: Block)
    requires i < |ts|
    requires match ts[i].kind
      case WordReturn => b != FuncBlock
      case WordBreak => b != LoopBlock
      case WordContinue => b != LoopBlock
      case WordWhile => b == NoBlock
      case WordIf => b == NoBlock
      case WordStruct => b != NoBlock
      case _ => false
    ensures NoStatement(ts, i, b)
  {
    hide If, While, Function, VarDecl, Struct, Return, Assign, MemberAssign;
  }

  function InParentheses(c: Expr): seq<Token> {
    [Sym(LParen)] + (Yield(c) + [Sym(RParen)])
  }

  function InBraces(body: Statements): seq<Token> {
    [Sym(LCurly)] + (YieldStmts(body) + [Sym(RCurly)])
  }

  function WhileTokens(c: Expr, body: Statements): (y: seq<Token>)
    ensures y != [] && y[0] == Sym(WordWhile)
  {
    [Sym(WordWhile)] + (InParentheses(c) + InBraces(body))
  }

  function IfTokens(c: Expr, body: Statements, other: Statements): (y: seq<Token>)
    ensures y != [] && y[0] == Sym(WordIf)
  {
    [Sym(WordIf)] + (InParentheses(c) + (InBraces(body) + ([Sym(WordElse)] + InBraces(other))))
  }

  lemma BranchTokens(c: Expr, body: Statements, other: Statements)
    ensures YieldStmt(SWhile(c, body)) == WhileTokens(c, body)
    ensures YieldStmt(SIf(Guarded(c, body, ElseBlock(other)))) == IfTokens(c, body, other)
  {
    hide Yield, YieldStmts;
    assert YieldBlock(body) == InBraces(body) && YieldBlock(other) == InBraces(other);
    assert YieldElse(ElseBlock(other)) == [Sym(WordElse)] + YieldBlock(other);
    var g := Guarded(c, body, ElseBlock(other));
    assert YieldGuarded(g) == YieldCondition(c) + (YieldBlock(body) + YieldElse(g.alt));
  }

  /** `while` stands in functions and loops; its body is a loop's. */
  lemma WhileForm(c: Expr, body: Statements, ts: seq<Token>, i: nat, b: Block)
    requires 0 < i && !Dotted(ts, i) && Fine(c) && AcceptedAll(body, LoopBlock) && EveryIn(body, NoLogic)
    requires At(ts, i, WhileTokens(c, body))
    ensures if b == NoBlock then NoStatement(ts, i, b)
            else StatementIs(ts, i, b, WhileTokens(c, body), Mk(StmtWhile, Build(c), BuildStmts(body)))
  {
    hide GoodExpr, NoLogic, Build, At, AcceptedAll, EveryIn, YieldStmt, WhileTokens, BuildStmts, StatementIs;
    BranchTokens(c, body, body);
    AtFirst(ts, i, WhileTokens(c, body));
    if b == NoBlock {
      Elsewhere(ts, i, b);
    } else {
      StatementDone(SWhile(c, body), ts, i, b);
    }
  }

  /** `if` stands in functions and loops; its bodies are of the block it stands in. */
  lemma IfForm(c: Expr, body: Statements, other: Statements, ts: seq<Token>, i: nat, b: Block)
    requires 0 < i && !Dotted(ts, i) && Fine(c) && AcceptedAll(body, b) && EveryIn(body, NoLogic)
    requires AcceptedAll(other, b) && EveryIn(other, NoLogic) && At(ts, i, IfTokens(c, body, other))
    ensures if b == NoBlock then NoStatement(ts, i, b)
            else StatementIs(ts, i, b, IfTokens(c, body, other),
                             Mk(StmtIf, Build(c), RightTree(body, ElseBlock(other))))
  {
    hide GoodExpr, NoLogic, Build, At, AcceptedAll, EveryIn, YieldStmt, IfTokens, BuildStmts, RightTree, HangElse,
         StatementIs;
    BranchTokens(c, body, other);
    AtFirst(ts, i, IfTokens(c, body, other));
    if b == NoBlock {
      Elsewhere(ts, i, b);
    } else {
      var g := Guarded(c, body, ElseBlock(other));
      GuardedAccepted(g, b);
      NotOpen(SIf(g), ts, i, b);
      IfTree(StmtIf, c, body, ElseBlock(other));
      assert BuildStmt(SIf(g)) == BuildGuarded(StmtIf, g);
    }
  }

  lemma GuardedAccepted(g: Guarded, b: Block)
    requires Fine(g.cond) && AcceptedAll(g.body, b) && EveryIn(g.body, NoLogic) && b != NoBlock
    requires g.alt.ElseBlock? && AcceptedAll(g.alt.body, b) && EveryIn(g.alt.body, NoLogic)
    ensures Accepted(SIf(g), b) && EveryInStmt(SIf(g), NoLogic)
  {
    hide GoodExpr, NoLogic, AcceptedAll, EveryIn;
    assert AcceptedElse(g.alt, b) && EveryInElse(g.alt, NoLogic);
    assert AcceptedGuarded(g, b) && EveryInGuarded(g, NoLogic);
  }

  lemma NotOpen(s: Statement, ts: seq<Token>, i: nat, b: Block)
    requires 0 < i && !Dotted(ts, i) && Accepted(s, b) && EveryInStmt(s, NoLogic) && At(ts, i, YieldStmt(s))
    requires s.SIf? && s.guarded.alt.ElseBlock?
    ensures StatementIs(ts, i, b, YieldStmt(s), BuildStmt(s))
  {
    hide StmtParser.Statement, Accepted, EveryInStmt, YieldStmt, BuildStmt;
    StmtDone(s, ts, i, b);
  }

  /** Assignments stand anywhere. */
  lemma AssignForms(x: string, y: string, e: Expr, ts: seq<Token>, i: nat, b: Block)
    requires 0 < i && !Dotted(ts, i) && Fine(e)
    ensures var w := [Name(x), Sym(Equal)] + (Yield(e) + [Sym(Semicolon)]);
            At(ts, i, w) ==> StatementIs(ts, i, b, w, Mk(StmtAssign, V(x), Build(e)))
    ensures var w := [Name(x), Sym(Dot)] + ([Name(y)] + ([Sym(Equal)] + (Yield(e) + [Sym(Semicolon)])));
            At(ts, i, w) ==> StatementIs(ts, i, b, w, Mk(StmtAssign, Mk(ExprMemberAccess, V(x), V(y)), Build(e)))
  {
    hide GoodExpr, NoLogic, At, StatementIs;
    NameIsFine(x, y);
    if At(ts, i, [Name(x), Sym(Equal)] + (Yield(e) + [Sym(Semicolon)])) {
      StatementDone(SAssign(x, e), ts, i, b);
    }
    if At(ts, i, [Name(x), Sym(Dot)] + ([Name(y)] + ([Sym(Equal)] + (Yield(e) + [Sym(Semicolon)])))) {
      StatementDone(SMember(x, Var(y), e), ts, i, b);
    }
  }

  lemma NameIsFine(x: string, y: string)
    ensures Source(Var(y)) && Fits(Var(y), FACTOR, true) && NoLogic(Var(y)) && Yield(Var(y)) == [Name(y)]
    ensures Build(Member(x, Var(y))) == Mk(ExprMemberAccess, V(x), V(y))
  {
    assert Build(Var(y)) == V(y);
  }

  /** So do variables, with a value or without. */
  lemma VariableForms(t: Type, x: string, e: Expr, ts: seq<Token>, i: nat, b: Block)
    requires 0 < i && !Dotted(ts, i) && (t.Base? || t.User?) && Fine(e)
    ensures var w := (YieldType(t) + ([Name(x)] + [])) + [Sym(Semicolon)];
            At(ts, i, w) ==> StatementIs(ts, i, b, w, Mk(DeclVar, BuildType(t), V(x)))
    ensures var w := (YieldType(t) + ([Name(x)] + ([Sym(Equal)] + Yield(e)))) + [Sym(Semicolon)];
            At(ts, i, w) ==> StatementIs(ts, i, b, w, Mk(DeclVar, BuildType(t), Mk(StmtAssign, V(x), Build(e))))
  {
    hide GoodExpr, NoLogic, At, StatementIs, Yield, Build;
    if At(ts, i, (YieldType(t) + ([Name(x)] + [])) + [Sym(Semicolon)]) {
      StatementDone(SVar(Decl(t, x, None)), ts, i, b);
    }
    if At(ts, i, (YieldType(t) + ([Name(x)] + ([Sym(Equal)] + Yield(e)))) + [Sym(Semicolon)]) {
      StatementDone(SVar(Decl(t, x, Some(e))), ts, i, b);
    }
  }

  /** A declaration without a value, as in lists. */
  function Plain(t: Type, x: string): seq<Token> {
    YieldType(t) + ([Name(x)] + [])
  }

  /** `struct` stands outside functions only; here with two members. */
  lemma StructForm(x: string, t: Type, a: string, u: Type, c: string, ts: seq<Token>, i: nat, b: Block)
    requires 0 < i && !Dotted(ts, i) && FineType(t) && FineType(u)
    requires At(ts, i, [Sym(WordStruct), Name(x), Sym(LCurly)]
                       + ((Plain(t, a) + ([Sym(Semicolon)] + (Plain(u, c) + ([Sym(Semicolon)] + [])))) + [Sym(RCurly)]))
    ensures var first, second := Mk(DeclVar, BuildType(t), V(a)), Mk(DeclVar, BuildType(u), V(c));
            var ms := Decls(Decl(t, a, None), Decls(Decl(u, c, None), NoDecls));
            if b != NoBlock then NoStatement(ts, i, b)
            else StatementIs(ts, i, b, YieldStmt(SStruct(x, ms, false)),
                             Mk(DeclStruct, V(x), Mk(DeclMemberList, first, Mk(DeclMemberList, second, Null))))
  {
    hide GoodType, EveryInType, YieldType, BuildType, At;
    var d, e := Decl(t, a, None), Decl(u, c, None);
    TwoDecls(d, e);
    var ms := Decls(d, Decls(e, NoDecls));
    AtFirst(ts, i, YieldStmt(SStruct(x, ms, false)));
    if b == NoBlock {
      StatementDone(SStruct(x, ms, false), ts, i, b);
    } else {
      Elsewhere(ts, i, b);
    }
  }

  lemma TwoDecls(d: Decl, e: Decl)
    requires d.init == None && e.init == None && FineType(d.ty) && FineType(e.ty)
    ensures var ds := Decls(d, Decls(e, NoDecls));
            && GoodDecls(ds) && EveryInDecls(ds, NoLogic)
            && YieldMembers(ds, false)
               == Plain(d.ty, d.name) + ([Sym(Semicolon)] + (Plain(e.ty, e.name) + ([Sym(Semicolon)] + [])))
            && YieldParams(ds, false) == Plain(d.ty, d.name) + ([Sym(Comma)] + Plain(e.ty, e.name))
            && (forall k :: BuildDecls(k, ds)
                            == Mk(k, Mk(DeclVar, BuildType(d.ty), V(d.name)),
                                  Mk(k, Mk(DeclVar, BuildType(e.ty), V(e.name)), Null)))
  {
    hide GoodType, EveryInType, YieldType, BuildType;
    var es := Decls(e, NoDecls);
    assert GoodDecl(d) && GoodDecl(e) && EveryInDecl(e, NoLogic) && EveryInDecl(d, NoLogic);
    Consed(e, NoDecls);
    Consed(d, es);
    assert YieldMembers(es, false) == Plain(e.ty, e.name) + ([Sym(Semicolon)] + []);
    assert YieldParams(es, false) == Plain(e.ty, e.name);
    assert forall k :: BuildDecls(k, es) == Mk(k, Mk(DeclVar, BuildType(e.ty), V(e.name)), Null);
  }

  lemma Consed(d: Decl, ds: Decls)
    requires GoodDecl(d) && EveryInDecl(d, NoLogic)
    requires ds == NoDecls || (GoodDecls(ds) && EveryInDecls(ds, NoLogic))
    ensures GoodDecls(Decls(d, ds)) && EveryInDecls(Decls(d, ds), NoLogic)
  {
    hide GoodDecl, EveryInDecl;
  }

  /** Functions stand anywhere, also in one another; here with two parameters. The body is a
      function's. */
  lemma FunctionForm(t: Type, x: string, u: Type, a: string, v: Type, c: string, body: Statements,
                     ts: seq<Token>, i: nat, b: Block)
    requires 0 < i && !Dotted(ts, i) && (t.Base? || t.User?) && FineType(u) && FineType(v)
    requires AcceptedAll(body, FuncBlock) && EveryIn(body, NoLogic)
    requires At(ts, i, YieldType(t)
                       + ([Name(x), Sym(LParen)]
                          + ((Plain(u, a) + ([Sym(Comma)] + Plain(v, c)))
                             + ([Sym(RParen)] + ([Sym(LCurly)] + (YieldStmts(body) + [Sym(RCurly)]))))))
    ensures var first, second := Mk(DeclVar, BuildType(u), V(a)), Mk(DeclVar, BuildType(v), V(c));
            var ps := Decls(Decl(u, a, None), Decls(Decl(v, c, None), NoDecls));
            var signature := Mk(DeclFunctionSignature, Mk(DeclTypeVarnamePair, BuildType(t), V(x)),
                                Mk(DeclVarList, first, Mk(DeclVarList, second, Null)));
            StatementIs(ts, i, b, YieldStmt(SFunc(t, Name(x), ps, false, body)),
                        Mk(DeclFunction, signature, BuildStmts(body)))
  {
    hide EveryInType, BuildType, At, AcceptedAll, EveryIn, YieldStmts, BuildStmts, StatementIs;
    var d, e := Decl(u, a, None), Decl(v, c, None);
    TwoDecls(d, e);
    var f := SFunc(t, Name(x), Decls(d, Decls(e, NoDecls)), false, body);
    SimpleAhead(t, x);
    hide GoodType, YieldType, GoodDecls, EveryInDecls, YieldParams, BuildDecls, FunctionAhead;
    assert YieldBlock(body) == [Sym(LCurly)] + (YieldStmts(body) + [Sym(RCurly)]);
    StatementDone(f, ts, i, b);
  }

  lemma SimpleAhead(t: Type, x: string)
    requires t.Base? || t.User?
    ensures FunctionAhead(t, Name(x)) && GoodType(t) && EveryInType(t, NoLogic)
  {
    assert |YieldType(t)| == 1;
  }

  // ----- what is missing

  /** A closing symbol other than the one that is due is named by the message. */
  lemma CloserMissing(e: Expr, ts: seq<Token>, i: nat)
    requires 0 < i && Fine(e) && At(ts, i + 1, Yield(e)) && i < |ts|
    requires Look(ts, i + 1 + |Yield(e)|) in {RParen, RBrack, RCurly, Semicolon}
    ensures var k := Look(ts, i + 1 + |Yield(e)|);
            && (ts[i].kind == LParen && k != RParen ==> Level(FACTOR, ts, i) == SyntaxError("Missing )"))
            && (ts[i].kind == LBrack && k != RBrack ==> Level(FACTOR, ts, i) == SyntaxError("Missing ]"))
            && (ts[i].kind == LCurly && k != RCurly ==> Level(FACTOR, ts, i) == SyntaxError("Missing }"))
  {
    hide Level, Factor, Yield, Build, GoodExpr, NoLogic, At, List;
    if ts[i].kind in {LParen, LBrack, LCurly} {
      var p := Parsed(Build(e), i + 1 + |Yield(e)|);
      ExprDone(e, ts, i + 1);
      OneItem(ts, i + 1, p);
      AtFactor(ts, i);
      FactorFails(ts, i, p);
    }
  }

  lemma AtFactor(ts: seq<Token>, i: nat)
    ensures Level(FACTOR, ts, i) == Factor(ts, i)
  {
    hide Factor;
  }

  lemma FactorFails(ts: seq<Token>, i: nat, e: Parsed)
    requires i + 1 < |ts| && e.next < |ts| && Level(OR, ts, i + 1) == Ok(e)
    requires List(ts, i + 1) == Ok(Parsed(Mk(ExprList, e.node, Null), e.next))
    ensures ts[i].kind == LParen && ts[e.next].kind != RParen ==> Factor(ts, i) == SyntaxError("Missing )")
    ensures ts[i].kind == LBrack && ts[e.next].kind != RBrack ==> Factor(ts, i) == SyntaxError("Missing ]")
    ensures ts[i].kind == LCurly && ts[e.next].kind != RCurly ==> Factor(ts, i) == SyntaxError("Missing }")
  {
    hide Level, List, MemberAccess;
  }

  lemma OneItem(ts: seq<Token>, i: nat, e: Parsed)
    requires Level(OR, ts, i) == Ok(e) && i < |ts| && Starter(ts[i].kind, OR) && ts[e.next].kind != Comma
    ensures List(ts, i) == Ok(Parsed(Mk(ExprList, e.node, Null), e.next))
  {
    hide Level;
  }

  /** What closes something else. */
  predicate WrongEnd(k: Kind) {
    k in {RParen, RBrack, RCurly, Comma}
  }

  /** Nothing but a semicolon ends these statements. */
  lemma SemicolonMissing(x: string, e: Expr, ts: seq<Token>, i: nat, b: Block)
    requires 0 < i && !Dotted(ts, i) && Fine(e)
    ensures At(ts, i, [Name(x), Sym(Equal)] + Yield(e)) && WrongEnd(Look(ts, i + 2 + |Yield(e)|))
            ==> StmtParser.Statement(ts, i, b) == SyntaxError("Missing ;")
    ensures b == FuncBlock && At(ts, i, [Sym(WordReturn)] + Yield(e)) && WrongEnd(Look(ts, i + 1 + |Yield(e)|))
            ==> StmtParser.Statement(ts, i, b) == SyntaxError("Missing ;")
    ensures b == LoopBlock && i + 1 < |ts| && ts[i].kind in {WordBreak, WordContinue} && ts[i + 1].kind != Semicolon
            ==> StmtParser.Statement(ts, i, b) == SyntaxError("Missing ;")
  {
    hide StmtParser.Statement, Level, Yield, Build, GoodExpr, NoLogic, At, WrongEnd;
    if At(ts, i, [Name(x), Sym(Equal)] + Yield(e)) && WrongEnd(Look(ts, i + 2 + |Yield(e)|)) {
      AtSplit(ts, i, [Name(x), Sym(Equal)], Yield(e));
      AtTwo(ts, i, Name(x), Sym(Equal));
      CloserIsWrong(Look(ts, i + 2 + |Yield(e)|));
      ExprDone(e, ts, i + 2);
      AssignOpen(ts, i, b);
    }
    if At(ts, i, [Sym(WordReturn)] + Yield(e)) && WrongEnd(Look(ts, i + 1 + |Yield(e)|)) {
      AtSplit(ts, i, [Sym(WordReturn)], Yield(e));
      AtOne(ts, i, Sym(WordReturn));
      CloserIsWrong(Look(ts, i + 1 + |Yield(e)|));
      ExprDone(e, ts, i + 1);
      ReturnOpen(ts, i);
    }
    if i + 1 < |ts| && ts[i].kind in {WordBreak, WordContinue} && ts[i + 1].kind != Semicolon {
      JumpOpen(ts, i);
    }
  }

  lemma CloserIsWrong(k: Kind)
    requires WrongEnd(k)
    ensures Closer(k) && k != Semicolon
  {
  }

  lemma AssignOpen(ts: seq<Token>, i: nat, b: Block)
    requires 0 < i && !Dotted(ts, i) && i + 1 < |ts| && ts[i].kind == Ident && ts[i + 1].kind == Equal
    requires var r := Level(OR, ts, i + 2); r.Ok? && ts[r.value.next].kind != Semicolon
    ensures StmtParser.Statement(ts, i, b) == SyntaxError("Missing ;")
  {
    hide Level, MemberAccess;
    TargetIs(ts, i);
  }

  lemma ReturnOpen(ts: seq<Token>, i: nat)
    requires i < |ts| && ts[i].kind == WordReturn
    requires var r := Level(OR, ts, i + 1); r.Ok? && ts[r.value.next].kind != Semicolon
    ensures StmtParser.Statement(ts, i, FuncBlock) == SyntaxError("Missing ;")
  {
    hide Level;
  }

  lemma JumpOpen(ts: seq<Token>, i: nat)
    requires i + 1 < |ts| && ts[i].kind in {WordBreak, WordContinue} && ts[i + 1].kind != Semicolon
    ensures StmtParser.Statement(ts, i, LoopBlock) == SyntaxError("Missing ;")
  {
  }

  lemma TargetIs(ts: seq<Token>, i: nat)
    requires 0 < i && !Dotted(ts, i) && i + 1 < |ts| && ts[i].kind == Ident && ts[i + 1].kind == Equal
    ensures MemberAccess(ts, i) == Ok(Varname(ts, i))
  {
    hide Level, ArrayIndex;
  }

  /** A condition is in parentheses, and a body in braces. */
  lemma EnclosureMissing(c: Expr, ts: seq<Token>, i: nat, b: Block)
    requires b != NoBlock && i + 1 < |ts| && ts[i].kind in {WordIf, WordWhile}
    ensures ts[i + 1].kind != LParen ==> StmtParser.Statement(ts, i, b) == SyntaxError("Missing (")
    ensures Fine(c) && ts[i + 1].kind == LParen && At(ts, i + 2, Yield(c)) ==>
              var k := i + 2 + |Yield(c)|;
              && (Look(ts, k) in {RBrack, RCurly, Comma, Semicolon}
                  ==> StmtParser.Statement(ts, i, b) == SyntaxError("Missing )"))
              && (Look(ts, k) == RParen && k + 1 < |ts| && ts[k + 1].kind != LCurly
                  ==> StmtParser.Statement(ts, i, b) == SyntaxError("Missing {"))
  {
    hide StmtParser.Statement, Level, Yield, Build, GoodExpr, NoLogic, At, Condition, BlockOf;
    if ts[i + 1].kind != LParen {
      ConditionFails(ts, i);
      HeadFails(ts, i, b, "Missing (");
    }
    if Fine(c) && ts[i + 1].kind == LParen && At(ts, i + 2, Yield(c)) {
      var k := i + 2 + |Yield(c)|;
      if Look(ts, k) in {RBrack, RCurly, Comma, Semicolon} {
        ExprDone(c, ts, i + 2);
        ConditionFails(ts, i);
        HeadFails(ts, i, b, "Missing )");
      } else if Look(ts, k) == RParen && k + 1 < |ts| && ts[k + 1].kind != LCurly {
        ExprDone(c, ts, i + 2);
        ConditionFails(ts, i);
        NoBrace(ts, k + 1);
        HeadFails(ts, i, b, "Missing {");
      }
    }
  }

  lemma ConditionFails(ts: seq<Token>, i: nat)
    requires i + 1 < |ts|
    ensures ts[i + 1].kind != LParen ==> Condition(ts, i) == SyntaxError("Missing (")
    ensures ts[i + 1].kind == LParen && Level(OR, ts, i + 2).Ok? ==>
              var e := Level(OR, ts, i + 2).value;
              Condition(ts, i)
              == if ts[e.next].kind == RParen then Ok(Parsed(e.node, e.next + 1)) else SyntaxError("Missing )")
  {
    hide Level;
  }

  lemma NoBrace(ts: seq<Token>, i: nat)
    requires i < |ts| && ts[i].kind != LCurly
    ensures forall b :: BlockOf(ts, i, b) == SyntaxError("Missing {")
  {
    hide Sequence;
  }

  lemma HeadFails(ts: seq<Token>, i: nat, b: Block, m: string)
    requires b != NoBlock && i < |ts| && ts[i].kind in {WordIf, WordWhile}
    requires Condition(ts, i) == SyntaxError(m)
             || (Condition(ts, i).Ok? && forall b' :: BlockOf(ts, Condition(ts, i).value.next, b') == SyntaxError(m))
    ensures StmtParser.Statement(ts, i, b) == SyntaxError(m)
  {
    hide Condition, BlockOf, Alternative;
    if Condition(ts, i).Ok? {
      var j := Condition(ts, i).value.next;
      assert BlockOf(ts, j, LoopBlock) == SyntaxError(m) && BlockOf(ts, j, b) == SyntaxError(m);
    }
    if ts[i].kind == WordIf {
      assert Branch(StmtIf, ts, i, b) == SyntaxError(m);
    } else {
      assert While(ts, i) == SyntaxError(m);
    }
  }
}
