/** What becomes of programs with `&&` or `||`: wherever in an otherwise accepted program one
    of them stands, the parser refuses the program. */
module ProgramRefused {
  import opened Outcomes
  import opened Tokens
  import opened Nodes
  import opened Operators
  import opened Syntax
  import opened Printer
  import opened ExprParser
  import opened ExprCases
  import opened ExprShapes
  import opened ExprParts
  import opened ExprRefused
  import opened StmtParser
  import opened StmtCases
  import opened Programs
  import opened ProgramParts
  import opened ProgramComplete

  lemma ExprRefusedAt(e: Expr, ts: seq<Token>, i: nat)
    requires 0 < i && !Dotted(ts, i) && GoodExpr(e) && !NoLogic(e) && At(ts, i, Yield(e))
    ensures Refused(Level(OR, ts, i))
  {
    hide Level, At, Yield, NoLogic;
    LaterStart(ts, i);
    LogicFails(e, OR, ts, i);
  }

  // ----- types and declarations

  lemma {:induction false} PlainTypeRefused(t: Type, ts: seq<Token>, i: nat)
    requires GoodType(t) && !EveryInType(t, NoLogic) && At(ts, i, YieldType(t)) && !HasSuffix(t)
    ensures Refused(PlainType(ts, i))
    decreases t, 0
  {
    hide TypeName, PlainType, EveryInType, GoodType, At;
    SimpleHasNone(t);
    match t
    case RefTo(u) =>
      AtSplit(ts, i, [Sym(WordRef)], YieldType(u));
      AtOne(ts, i, Sym(WordRef));
      PrefixRefuses(t, u);
      TypeRefused(u, ts, i + 1);
      PrefixedRefused(ts, i);
    case ConstOf(u) =>
      AtSplit(ts, i, [Sym(WordConst)], YieldType(u));
      AtOne(ts, i, Sym(WordConst));
      PrefixRefuses(t, u);
      TypeRefused(u, ts, i + 1);
      PrefixedRefused(ts, i);
    case _ =>
  }

  lemma SimpleHasNone(t: Type)
    requires !EveryInType(t, NoLogic)
    ensures !Simple(t)
  {
  }

  lemma PrefixRefuses(t: Type, u: Type)
    requires (t == RefTo(u) || t == ConstOf(u)) && GoodType(t) && !EveryInType(t, NoLogic)
    ensures GoodType(u) && !EveryInType(u, NoLogic)
  {
  }

  lemma PrefixedRefused(ts: seq<Token>, i: nat)
    requires i < |ts| && (ts[i].kind == WordRef || ts[i].kind == WordConst) && Refused(TypeName(ts, i + 1))
    ensures Refused(PlainType(ts, i))
  {
    hide TypeName;
  }

  lemma {:induction false} TypeRefused(t: Type, ts: seq<Token>, i: nat)
    requires GoodType(t) && !EveryInType(t, NoLogic) && At(ts, i, YieldType(t))
    ensures Refused(TypeName(ts, i))
    decreases t, 1
  {
    hide PlainType, TypeName, GoodExpr, NoLogic, At, Level, Refused;
    TypeFails(ts, i);
    SimpleHasNone(t);
    match t
    case ArrayOf(u) =>
      AtSplit(ts, i, YieldType(u), [Sym(LBrack), Sym(RBrack)]);
      PlainTypeRefused(u, ts, i);
      RefusedToo(PlainType(ts, i), TypeName(ts, i));
    case SizedOf(u, e) => SizedRefused(u, e, ts, i);
    case RefTo(_) => PlainTypeRefused(t, ts, i); RefusedToo(PlainType(ts, i), TypeName(ts, i));
    case ConstOf(_) => PlainTypeRefused(t, ts, i); RefusedToo(PlainType(ts, i), TypeName(ts, i));
    case _ =>
  }

  lemma {:induction false} SizedRefused(u: Type, e: Expr, ts: seq<Token>, i: nat)
    requires GoodType(u) && TakesSuffix(u) && GoodExpr(e) && !(EveryInType(u, NoLogic) && NoLogic(e))
    requires At(ts, i, YieldType(u) + ([Sym(LBrack)] + (Yield(e) + [Sym(RBrack)])))
    ensures Refused(TypeName(ts, i))
    decreases u, 2
  {
    hide PlainType, TypeName, GoodExpr, NoLogic, At, Level, Refused, GoodType, EveryInType, Yield, YieldType, BuildType;
    var j := i + |YieldType(u)|;
    AtSplit(ts, i, YieldType(u), [Sym(LBrack)] + (Yield(e) + [Sym(RBrack)]));
    AtSplit(ts, j, [Sym(LBrack)], Yield(e) + [Sym(RBrack)]);
    AtSplit(ts, j + 1, Yield(e), [Sym(RBrack)]);
    AtOne(ts, j, Sym(LBrack));
    TypeFails(ts, i);
    if !EveryInType(u, NoLogic) {
      PlainTypeRefused(u, ts, i);
      RefusedToo(PlainType(ts, i), TypeName(ts, i));
    } else {
      PlainTypeDone(u, ts, i);
      BuildTypeIsThere(u);
      ExprRefusedAt(e, ts, j + 1);
      SizeBegins(e, ts, j + 1);
      TypeSuffix(ts, i);
      RefusedToo(Level(OR, ts, j + 1), TypeName(ts, i));
    }
  }

  lemma SizeBegins(e: Expr, ts: seq<Token>, i: nat)
    requires GoodExpr(e) && At(ts, i, Yield(e))
    ensures i < |ts| && ts[i].kind != RBrack
  {
    YieldStarts(e, OR, false);
    AtFirst(ts, i, Yield(e));
  }

  lemma AssignRefused(x: string, e: Expr, ts: seq<Token>, i: nat)
    requires 0 < i && !Dotted(ts, i) && At(ts, i, [Name(x), Sym(Equal)] + Yield(e)) && GoodExpr(e) && !NoLogic(e)
    ensures Refused(Assign(ts, i))
  {
    hide Level, At, Yield, GoodExpr, NoLogic, ArrayIndex;
    AtSplit(ts, i, [Name(x), Sym(Equal)], Yield(e));
    AtTwo(ts, i, Name(x), Sym(Equal));
    ExprRefusedAt(e, ts, i + 2);
    assert MemberAccess(ts, i) == Ok(Varname(ts, i));
  }

  lemma DeclRefused(d: Decl, ts: seq<Token>, i: nat)
    requires GoodDecl(d) && !EveryInDecl(d, NoLogic) && At(ts, i, YieldDecl(d))
    ensures Refused(VarDecl(ts, i)) && i < |ts| && IsTypename(ts[i].kind)
  {
    hide VarDecl, TypeName, Assign, GoodType, EveryInType, GoodExpr, NoLogic, At, Yield, YieldType, BuildType, Refused,
         IsTypename;
    var j := i + |YieldType(d.ty)|;
    var init := if d.init.Some? then [Sym(Equal)] + Yield(d.init.value) else [];
    AtSplit(ts, i, YieldType(d.ty), [Name(d.name)] + init);
    AtSplit(ts, j, [Name(d.name)], init);
    AtOne(ts, j, Name(d.name));
    TypeStarts(d.ty);
    AtFirst(ts, i, YieldType(d.ty));
    VarDeclCases(ts, i);
    if !EveryInType(d.ty, NoLogic) {
      TypeRefused(d.ty, ts, i);
      RefusedToo(TypeName(ts, i), VarDecl(ts, i));
    } else {
      var e := d.init.value;
      TypeDone(d.ty, ts, i);
      BuildTypeIsThere(d.ty);
      assert [Name(d.name)] + ([Sym(Equal)] + Yield(e)) == [Name(d.name), Sym(Equal)] + Yield(e);
      NotBehindDot(ts, j);
      AtSplit(ts, i, YieldType(d.ty), [Name(d.name), Sym(Equal)] + Yield(e));
      AssignRefused(d.name, e, ts, j);
      RefusedToo(Assign(ts, j), VarDecl(ts, i));
    }
  }

  lemma NotBehindDot(ts: seq<Token>, j: nat)
    requires 0 < j <= |ts| && ts[j - 1].kind != Dot
    ensures !Dotted(ts, j)
  {
  }

  /** The tokens of declarations with more behind the first. */
  lemma DeclsUnfold(members: bool, ds: Decls, odd: bool)
    requires ds != NoDecls && ds.rest != NoDecls
    ensures YieldParams(ds, odd) == YieldDecl(ds.head) + ([Sym(Comma)] + YieldParams(ds.rest, odd))
    ensures YieldMembers(ds, odd) == YieldDecl(ds.head) + ([Sym(Semicolon)] + YieldMembers(ds.rest, odd))
  {
  }

  function YieldList(members: bool, ds: Decls, odd: bool): seq<Token> {
    if members then YieldMembers(ds, odd) else YieldParams(ds, odd)
  }

  lemma HeadAt(members: bool, ds: Decls, odd: bool, ts: seq<Token>, i: nat)
    requires ds != NoDecls && At(ts, i, YieldList(members, ds, odd))
    ensures At(ts, i, YieldDecl(ds.head))
    ensures ds.rest != NoDecls ==>
              var k := i + |YieldDecl(ds.head)|;
              && k < |ts| && ts[k].kind == (if members then Semicolon else Comma)
              && At(ts, k + 1, YieldList(members, ds.rest, odd))
  {
    hide At, YieldDecl;
    var d, k, sep := YieldDecl(ds.head), i + |YieldDecl(ds.head)|, Sym(if members then Semicolon else Comma);
    if ds.rest != NoDecls {
      AtSplit(ts, i, d, [sep] + YieldList(members, ds.rest, odd));
      AtSplit(ts, k, [sep], YieldList(members, ds.rest, odd));
      AtOne(ts, k, sep);
    } else {
      var tail := LastTail(members, ds, odd);
      AtSplit(ts, i, d, tail);
    }
  }

  lemma LastTail(members: bool, ds: Decls, odd: bool) returns (tail: seq<Token>)
    requires ds != NoDecls && ds.rest == NoDecls
    ensures YieldList(members, ds, odd) == YieldDecl(ds.head) + tail
  {
    hide YieldDecl;
    tail := YieldList(members, ds, odd)[|YieldDecl(ds.head)|..];
    if members && odd {
      assert YieldDecl(ds.head) + [] == YieldDecl(ds.head);
    } else if members {
      assert [Sym(Semicolon)] + [] == [Sym(Semicolon)];
    }
  }

  lemma {:induction false} DeclsRefused(members: bool, ds: Decls, odd: bool, ts: seq<Token>, i: nat)
    requires GoodDecls(ds) && !EveryInDecls(ds, NoLogic) && At(ts, i, YieldList(members, ds, odd))
    ensures Refused(DeclList(members, ts, i)) && i < |ts| && IsTypename(ts[i].kind)
    decreases ds
  {
    hide DeclList, VarDecl, GoodDecl, EveryInDecl, YieldDecl, YieldList, BuildDecl, At, Refused, IsTypename;
    HeadAt(members, ds, odd, ts, i);
    DeclListCases(members, ts, i);
    TypenameIsNoEnd();
    if !EveryInDecl(ds.head, NoLogic) {
      DeclRefused(ds.head, ts, i);
      RefusedToo(VarDecl(ts, i), DeclList(members, ts, i));
    } else {
      var k := i + |YieldDecl(ds.head)|;
      DeclDone(ds.head, ts, i);
      DeclsRefused(members, ds.rest, odd, ts, k + 1);
      RefusedToo(DeclList(members, ts, k + 1), DeclList(members, ts, i));
    }
  }

  lemma TypenameIsNoEnd()
    ensures !IsTypename(Eof) && !IsTypename(RParen)
  {
  }

  lemma StructRefused(x: string, ms: Decls, open: bool, ts: seq<Token>, i: nat)
    requires GoodDecls(ms) && !EveryInDecls(ms, NoLogic) && At(ts, i, YieldStmt(SStruct(x, ms, open)))
    ensures Refused(Struct(ts, i)) && i < |ts| && ts[i].kind == WordStruct
  {
    hide Struct, DeclList, At, YieldMembers, GoodDecls, EveryInDecls, Refused;
    EnclosedParts(ts, i, [Sym(WordStruct), Name(x), Sym(LCurly)], YieldMembers(ms, open), RCurly);
    AtThree(ts, i, Sym(WordStruct), Name(x), Sym(LCurly));
    DeclsRefused(true, ms, open, ts, i + 3);
    StructCases(ts, i);
    RefusedToo(DeclList(true, ts, i + 3), Struct(ts, i));
  }

  lemma SignatureRefused(t: Type, x: Token, ps: Decls, comma: bool, ts: seq<Token>, i: nat)
    requires GoodType(t) && GoodDecls(ps) && !(EveryInType(t, NoLogic) && EveryInDecls(ps, NoLogic))
    requires (x.kind == LBrack ==> HasSuffix(t)) && At(ts, i, YieldSignature(t, x, ps, comma))
    ensures Refused(Signature(ts, i))
  {
    hide Signature, TypeVarname, TypeName, DeclList, GoodType, GoodDecls, EveryInType, EveryInDecls, YieldType,
         BuildType, At, YieldParams, Refused, IsTypename;
    var j := i + |YieldType(t)|;
    AtSplit(ts, i, YieldType(t), [x, Sym(LParen)] + (YieldParams(ps, comma) + [Sym(RParen)]));
    EnclosedParts(ts, j, [x, Sym(LParen)], YieldParams(ps, comma), RParen);
    AtTwo(ts, j, x, Sym(LParen));
    SignatureCases(ts, i);
    if !EveryInType(t, NoLogic) {
      TypeRefused(t, ts, i);
      TypeVarnameRefused(ts, i);
      RefusedToo(TypeVarname(ts, i), Signature(ts, i));
    } else {
      TypeDone(t, ts, i);
      TypeVarnameStep(ts, i, Parsed(BuildType(t), j));
      DeclsRefused(false, ps, comma, ts, j + 2);
      TypenameIsNoEnd();
      RefusedToo(DeclList(false, ts, j + 2), Signature(ts, i));
    }
  }

  lemma TypeVarnameRefused(ts: seq<Token>, i: nat)
    requires Refused(TypeName(ts, i))
    ensures Refused(TypeVarname(ts, i))
  {
    hide TypeName;
  }

  // ----- statements

  lemma ConditionRefused(c: Expr, ts: seq<Token>, i: nat)
    requires GoodExpr(c) && !NoLogic(c) && At(ts, i + 1, YieldCondition(c))
    ensures Refused(Condition(ts, i))
  {
    hide Level, At, Yield, GoodExpr, NoLogic;
    EnclosedParts(ts, i + 1, [Sym(LParen)], Yield(c), RParen);
    AtOne(ts, i + 1, Sym(LParen));
    ExprRefusedAt(c, ts, i + 2);
  }

  lemma SemiRefused(r: Result<Parsed>, ts: seq<Token>)
    requires Refused(r)
    ensures Refused(Semi(r, ts)) && Refused(Wrap(r))
  {
  }

  /** The outcome of a statement that is refused at `i`. */
  predicate StatementRefused(ts: seq<Token>, i: nat, b: Block) {
    Refused(StmtParser.Statement(ts, i, b))
  }

  lemma AssignStmtRefused(x: string, e: Expr, ts: seq<Token>, i: nat, b: Block)
    requires 0 < i && !Dotted(ts, i) && GoodExpr(e) && !NoLogic(e) && At(ts, i, YieldStmt(SAssign(x, e)))
    ensures StatementRefused(ts, i, b)
  {
    hide StmtParser.Statement, Assign, Refused, GoodExpr, NoLogic, Yield, Build, At, Semi, Wrap;
    AssignParts(x, e, ts, i);
    AssignRefused(x, e, ts, i);
    StatementIsKeyword(ts, i, b);
    SemiRefused(Assign(ts, i), ts);
  }

  lemma MemberStmtRefused(x: string, t: Expr, e: Expr, ts: seq<Token>, i: nat, b: Block)
    requires Source(t) && Fits(t, FACTOR, true) && GoodExpr(e) && !(NoLogic(t) && NoLogic(e))
    requires At(ts, i, YieldStmt(SMember(x, t, e)))
    ensures StatementRefused(ts, i, b)
  {
    hide *;
    ProgramComplete.MemberParts(x, t, e, ts, i);
    var j := i + 2 + |Yield(t)|;
    if NoLogic(t) {
      TargetDone(t, ts, i + 2);
      SplitSemicolon(e, ts, j + 1);
      ExprRefusedAt(e, ts, j + 1);
      MemberValueRefused(ts, i, Parsed(Build(t), j));
    } else {
      TargetRefused(t, ts, i + 2);
      MemberTargetRefused(ts, i);
    }
    StatementIsKeyword(ts, i, b);
    SemiRefused(MemberAssign(ts, i), ts);
    IsRefused(ts, i, b);
  }

  lemma TargetRefused(t: Expr, ts: seq<Token>, i: nat)
    requires Fits(t, FACTOR, true) && !NoLogic(t) && At(ts, i, Yield(t)) && Dotted(ts, i)
    ensures Refused(Level(FACTOR, ts, i))
  {
    hide Level, At, Yield, NoLogic, Refused;
    LaterStart(ts, i);
    LogicFails(t, FACTOR, ts, i);
  }

  lemma SplitSemicolon(e: Expr, ts: seq<Token>, i: nat)
    requires At(ts, i, Yield(e) + [Sym(Semicolon)])
    ensures At(ts, i, Yield(e))
  {
    hide At, Yield;
    AtSplit(ts, i, Yield(e), [Sym(Semicolon)]);
  }

  lemma IsRefused(ts: seq<Token>, i: nat, b: Block)
    ensures StatementRefused(ts, i, b) <==> Refused(StmtParser.Statement(ts, i, b))
  {
    hide StmtParser.Statement, Refused;
  }

  lemma MemberTargetRefused(ts: seq<Token>, i: nat)
    requires i + 1 < |ts| && ts[i].kind == Ident && ts[i + 1].kind == Dot && Refused(Level(FACTOR, ts, i + 2))
    ensures Refused(MemberAssign(ts, i))
  {
    hide Level;
    assert Refused(MemberAccess(ts, i));
  }

  lemma MemberValueRefused(ts: seq<Token>, i: nat, t: Parsed)
    requires i + 1 < |ts| && ts[i].kind == Ident && ts[i + 1].kind == Dot
    requires Level(FACTOR, ts, i + 2) == Ok(t) && t.node != Null && Look(ts, t.next) == Equal
             && Refused(Level(OR, ts, t.next + 1))
    ensures Refused(MemberAssign(ts, i))
  {
    hide Level;
    assert MemberAccess(ts, i) == Ok(Parsed(Mk(ExprMemberAccess, Leaf(ConstVarname, ts[i].value), t.node), t.next));
  }

  lemma VarStmtRefused(d: Decl, ts: seq<Token>, i: nat, b: Block)
    requires Classified(d.ty) && GoodDecl(d) && !EveryInDecl(d, NoLogic) && At(ts, i, YieldStmt(SVar(d)))
    ensures StatementRefused(ts, i, b)
  {
    hide VarDecl, StmtParser.Statement, Classified, GoodDecl, EveryInDecl, Refused, YieldDecl, Semi, Wrap, At;
    AtSplit(ts, i, YieldDecl(d), [Sym(Semicolon)]);
    AtOne(ts, i + |YieldDecl(d)|, Sym(Semicolon));
    DeclRefused(d, ts, i);
    BehindName(d, ts, i);
    StatementIs(ts, i, b);
    SemiRefused(VarDecl(ts, i), ts);
  }

  lemma StructStmtRefused(x: string, ms: Decls, open: bool, ts: seq<Token>, i: nat)
    requires GoodDecls(ms) && !EveryInDecls(ms, NoLogic) && At(ts, i, YieldStmt(SStruct(x, ms, open)))
    ensures StatementRefused(ts, i, NoBlock)
  {
    hide Struct, StmtParser.Statement, Refused, GoodDecls, EveryInDecls, YieldStmt, Semi, Wrap;
    StructRefused(x, ms, open, ts, i);
    StatementIsKeyword(ts, i, NoBlock);
    SemiRefused(Struct(ts, i), ts);
  }

  lemma ReturnStmtRefused(e: Expr, ts: seq<Token>, i: nat)
    requires GoodExpr(e) && !NoLogic(e) && At(ts, i, YieldStmt(SReturn(e)))
    ensures StatementRefused(ts, i, FuncBlock)
  {
    hide Level, StmtParser.Statement, GoodExpr, NoLogic, Yield, At, Wrap, Semi;
    AtSplit(ts, i, [Sym(WordReturn)], Yield(e) + [Sym(Semicolon)]);
    AtOne(ts, i, Sym(WordReturn));
    SplitSemicolon(e, ts, i + 1);
    ExprRefusedAt(e, ts, i + 1);
    StatementIsKeyword(ts, i, FuncBlock);
    SemiRefused(Return(ts, i), ts);
  }

  lemma {:induction false} StmtsRefused(p: Statements, ts: seq<Token>, i: nat, b: Block)
    requires AcceptedAll(p, b) && !EveryIn(p, NoLogic) && At(ts, i, YieldStmts(p)) && !Dotted(ts, i)
    requires i == 0 ==> !(p.Statements? && p.head.SAssign?)
    ensures Refused(Sequence(ts, i, b))
    decreases p, 0
  {
    hide StmtParser.Statement, Sequence, Accepted, EveryInStmt, YieldStmt, BuildStmt, Recognised, StatementRefused,
         Refused, At, OpenIf;
    var s, rest := p.head, p.rest;
    var k := i + |YieldStmt(s)|;
    AtSplit(ts, i, YieldStmt(s), YieldStmts(rest));
    if !EveryInStmt(s, NoLogic) {
      StmtRefused(s, ts, i, b);
      StatementThenRefused(ts, i, b);
    } else {
      NotDottedAfter(s, ts, i);
      NotElse(rest, ts, k);
      SomeLeft(rest);
      StmtDone(s, ts, i, b);
      StmtsRefused(rest, ts, k, b);
      RestRefused(s, ts, i, b);
    }
  }

  lemma SomeLeft(p: Statements)
    requires !EveryIn(p, NoLogic)
    ensures p.Statements?
  {
  }

  lemma StatementThenRefused(ts: seq<Token>, i: nat, b: Block)
    requires StatementRefused(ts, i, b)
    ensures Refused(Sequence(ts, i, b))
  {
    hide StmtParser.Statement;
  }

  lemma RestRefused(s: Statement, ts: seq<Token>, i: nat, b: Block)
    requires Recognised(s, ts, i, b) && i + |YieldStmt(s)| < |ts| && Refused(Sequence(ts, i + |YieldStmt(s)|, b))
    ensures Refused(Sequence(ts, i, b))
  {
    hide StmtParser.Statement, YieldStmt, BuildStmt;
  }

  lemma {:induction false} BlockRefused(p: Statements, ts: seq<Token>, i: nat, b: Block)
    requires AcceptedAll(p, b) && !EveryIn(p, NoLogic) && At(ts, i, YieldBlock(p))
    ensures Refused(BlockOf(ts, i, b))
    decreases p, 1
  {
    hide BlockOf, Sequence, AcceptedAll, EveryIn, At, YieldStmts, Refused;
    EnclosedParts(ts, i, [Sym(LCurly)], YieldStmts(p), RCurly);
    AtOne(ts, i, Sym(LCurly));
    StmtsRefused(p, ts, i + 1, b);
    SomeLeft(p);
    BlockStarts(p, ts, i + 1);
    BlockHolds(ts, i, b);
    RefusedToo(Sequence(ts, i + 1, b), BlockOf(ts, i, b));
  }

  lemma BlockStarts(p: Statements, ts: seq<Token>, i: nat)
    requires p.Statements? && At(ts, i, YieldStmts(p))
    ensures i < |ts| && ts[i].kind != RCurly
  {
    StmtStarts(p.head);
    AtFirst(ts, i, YieldStmts(p));
  }

  lemma {:induction false} FuncStmtRefused(s: Statement, ts: seq<Token>, i: nat, b: Block)
    requires s.SFunc? && Accepted(s, b) && !EveryInStmt(s, NoLogic) && At(ts, i, YieldStmt(s))
    ensures StatementRefused(ts, i, b)
    decreases s, 3
  {
    hide *;
    FuncPieces(s, ts, i, b);
    var j := i + |YieldSignature(s.ty, s.token, s.params, s.comma)|;
    if EveryInType(s.ty, NoLogic) && EveryInDecls(s.params, NoLogic) {
      SignatureDone(s.ty, s.token, s.params, s.comma, ts, i);
      BlockRefused(s.body, ts, j, FuncBlock);
      BodyRefused(ts, i);
    } else {
      SignatureRefused(s.ty, s.token, s.params, s.comma, ts, i);
      HeaderRefused(ts, i);
    }
    FuncLookahead(s.ty, s.token, ts, i);
    StatementIs(ts, i, b);
    SemiRefused(Function(ts, i), ts);
    IsRefused(ts, i, b);
  }

  lemma HeaderRefused(ts: seq<Token>, i: nat)
    requires Refused(Signature(ts, i))
    ensures Refused(Function(ts, i))
  {
    hide Signature, BlockOf;
  }

  lemma BodyRefused(ts: seq<Token>, i: nat)
    requires Signature(ts, i).Ok? && Refused(BlockOf(ts, Signature(ts, i).value.next, FuncBlock))
    ensures Refused(Function(ts, i))
  {
    hide Signature, BlockOf;
  }

  lemma FuncPieces(s: Statement, ts: seq<Token>, i: nat, b: Block)
    requires s.SFunc? && Accepted(s, b) && !EveryInStmt(s, NoLogic) && At(ts, i, YieldStmt(s))
    ensures GoodType(s.ty) && FunctionAhead(s.ty, s.token) && GoodDecls(s.params) && AcceptedAll(s.body, FuncBlock)
    ensures s.token.kind == LBrack ==> HasSuffix(s.ty)
    ensures !(EveryInType(s.ty, NoLogic) && EveryInDecls(s.params, NoLogic) && EveryIn(s.body, NoLogic))
    ensures var sig := YieldSignature(s.ty, s.token, s.params, s.comma);
            At(ts, i, sig) && At(ts, i + |sig|, YieldBlock(s.body))
    ensures At(ts, i, YieldType(s.ty) + [s.token, Sym(LParen)])
  {
    hide GoodType, GoodDecls, AcceptedAll, EveryInType, EveryInDecls, EveryIn, YieldBlock, YieldParams, YieldType,
         Offset, At;
    var rest := YieldParams(s.params, s.comma) + ([Sym(RParen)] + YieldBlock(s.body));
    assert YieldStmt(s) == (YieldType(s.ty) + [s.token, Sym(LParen)]) + rest;
    assert YieldStmt(s) == YieldSignature(s.ty, s.token, s.params, s.comma) + YieldBlock(s.body);
    AtSplit(ts, i, YieldSignature(s.ty, s.token, s.params, s.comma), YieldBlock(s.body));
    AtSplit(ts, i, YieldType(s.ty) + [s.token, Sym(LParen)], rest);
  }

  lemma {:induction false} WhileStmtRefused(c: Expr, body: Statements, ts: seq<Token>, i: nat, b: Block)
    requires b != NoBlock && GoodExpr(c) && AcceptedAll(body, LoopBlock) && !(NoLogic(c) && EveryIn(body, NoLogic))
    requires At(ts, i, YieldStmt(SWhile(c, body)))
    ensures StatementRefused(ts, i, b)
    decreases body, 3
  {
    hide *;
    WhileParts(c, body, ts, i);
    if NoLogic(c) {
      ConditionDone(c, ts, i);
      BlockRefused(body, ts, i + 1 + |YieldCondition(c)|, LoopBlock);
    } else {
      ConditionRefused(c, ts, i);
    }
    WhileRefused(ts, i);
    StatementIsKeyword(ts, i, b);
    SemiRefused(While(ts, i), ts);
    IsRefused(ts, i, b);
  }

  lemma WhileRefused(ts: seq<Token>, i: nat)
    requires Refused(Condition(ts, i))
             || (Condition(ts, i).Ok? && Refused(BlockOf(ts, Condition(ts, i).value.next, LoopBlock)))
    ensures Refused(While(ts, i))
  {
    hide Condition, BlockOf;
  }

  lemma {:induction false} GuardedRefused(kind: NodeKind, g: Guarded, ts: seq<Token>, i: nat, b: Block)
    requires AcceptedGuarded(g, b) && !EveryInGuarded(g, NoLogic) && At(ts, i + 1, YieldGuarded(g))
    ensures Refused(Branch(kind, ts, i, b))
    decreases g, 2
  {
    hide *;
    GuardedPieces(g, ts, i, b);
    var j := i + 1 + |YieldCondition(g.cond)|;
    var k := j + |YieldBlock(g.body)|;
    if !NoLogic(g.cond) {
      ConditionRefused(g.cond, ts, i);
      BranchCondition(kind, ts, i, b);
      RefusedToo(Condition(ts, i), Branch(kind, ts, i, b));
    } else {
      ConditionDone(g.cond, ts, i);
      if !EveryIn(g.body, NoLogic) {
        BlockRefused(g.body, ts, j, b);
        BranchBody(kind, ts, i, b);
        RefusedToo(BlockOf(ts, j, b), Branch(kind, ts, i, b));
      } else {
        BlockDone(g.body, ts, j, b);
        ElseRefused(g.alt, ts, k, b);
        AlternativeRefused(kind, ts, i, b, Parsed(Build(g.cond), j), Parsed(BuildStmts(g.body), k));
      }
    }
  }

  lemma AlternativeRefused(kind: NodeKind, ts: seq<Token>, i: nat, b: Block, c: Parsed, q: Parsed)
    requires Condition(ts, i) == Ok(c) && BlockOf(ts, c.next, b) == Ok(q) && q.next < |ts|
    requires ts[q.next].kind in {WordElse, WordElseIf} && Refused(Alternative(ts, q.next, b))
    ensures Refused(Branch(kind, ts, i, b))
  {
    hide Branch, Condition, BlockOf, Alternative;
    BranchAlternative(kind, ts, i, b, c, q);
  }

  lemma GuardedPieces(g: Guarded, ts: seq<Token>, i: nat, b: Block)
    requires AcceptedGuarded(g, b) && !EveryInGuarded(g, NoLogic) && At(ts, i + 1, YieldGuarded(g))
    ensures GoodExpr(g.cond) && AcceptedAll(g.body, b) && AcceptedElse(g.alt, b)
    ensures !(NoLogic(g.cond) && EveryIn(g.body, NoLogic) && EveryInElse(g.alt, NoLogic))
    ensures var j := i + 1 + |YieldCondition(g.cond)|;
            var k := j + |YieldBlock(g.body)|;
            At(ts, i + 1, YieldCondition(g.cond)) && At(ts, j, YieldBlock(g.body)) && At(ts, k, YieldElse(g.alt))
  {
    hide At, YieldCondition, YieldBlock, AcceptedAll, EveryIn, GoodExpr, NoLogic, YieldElse, AcceptedElse, EveryInElse;
    var j := i + 1 + |YieldCondition(g.cond)|;
    AtSplit(ts, i + 1, YieldCondition(g.cond), YieldBlock(g.body) + YieldElse(g.alt));
    AtSplit(ts, j, YieldBlock(g.body), YieldElse(g.alt));
  }

  lemma {:induction false} ElseRefused(alt: ElsePart, ts: seq<Token>, k: nat, b: Block)
    requires AcceptedElse(alt, b) && !EveryInElse(alt, NoLogic) && At(ts, k, YieldElse(alt))
    ensures k < |ts| && ts[k].kind in {WordElse, WordElseIf} && Refused(Alternative(ts, k, b))
    decreases alt, 3
  {
    hide Alternative, Branch, BlockOf, AcceptedAll, EveryIn, AcceptedGuarded, EveryInGuarded, At, YieldBlock,
         YieldGuarded;
    match alt
    case NoElse =>
    case ElseBlock(p) =>
      AtSplit(ts, k, [Sym(WordElse)], YieldBlock(p));
      AtOne(ts, k, Sym(WordElse));
      BlockRefused(p, ts, k + 1, b);
      ElsePartIs(ts, k, b);
    case ElseIf(g) =>
      AtSplit(ts, k, [Sym(WordElseIf)], YieldGuarded(g));
      AtOne(ts, k, Sym(WordElseIf));
      GuardedRefused(StmtElseIf, g, ts, k, b);
      ElsePartIs(ts, k, b);
  }

  lemma {:induction false} IfStmtRefused(g: Guarded, ts: seq<Token>, i: nat, b: Block)
    requires b != NoBlock && AcceptedGuarded(g, b) && !EveryInGuarded(g, NoLogic) && At(ts, i, YieldStmt(SIf(g)))
    ensures StatementRefused(ts, i, b)
    decreases g, 3
  {
    hide *;
    IfParts(g, ts, i);
    GuardedRefused(StmtIf, g, ts, i, b);
    IfIs(ts, i, b);
    StatementIsKeyword(ts, i, b);
    SemiRefused(If(ts, i, b), ts);
    IsRefused(ts, i, b);
  }

  lemma {:induction false} StmtRefused(s: Statement, ts: seq<Token>, i: nat, b: Block)
    requires Accepted(s, b) && !EveryInStmt(s, NoLogic) && At(ts, i, YieldStmt(s)) && !Dotted(ts, i)
    requires i == 0 ==> !s.SAssign?
    ensures StatementRefused(ts, i, b)
    decreases s, 4
  {
    hide StatementRefused, YieldStmt, At;
    match s
    case SAssign(x, e) => AssignStmtRefused(x, e, ts, i, b);
    case SMember(x, t, e) => MemberStmtRefused(x, t, e, ts, i, b);
    case SVar(d) => VarStmtRefused(d, ts, i, b);
    case SFunc(_, _, _, _, _) => FuncStmtRefused(s, ts, i, b);
    case SStruct(x, ms, open) => StructStmtRefused(x, ms, open, ts, i);
    case SIf(g) => IfStmtRefused(g, ts, i, b);
    case SWhile(c, body) => WhileStmtRefused(c, body, ts, i, b);
    case SReturn(e) => ReturnStmtRefused(e, ts, i);
    case _ =>
  }
}
