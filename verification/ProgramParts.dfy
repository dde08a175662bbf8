/** Completeness for what programs are made of: expressions before a closing symbol,
    types, and declarations. */
module ProgramParts {
  import opened Outcomes
  import opened Tokens
  import opened Nodes
  import opened Operators
  import opened Syntax
  import opened Printer
  import opened ExprParser
  import opened ExprShapes
  import opened ExprParts
  import opened ExprComplete
  import opened StmtParser
  import opened StmtCases
  import opened Programs

  predicate Closer(k: Kind) {
    k in {RParen, RBrack, RCurly, Comma, Semicolon}
  }

  lemma ExprDone(e: Expr, ts: seq<Token>, i: nat)
    requires 0 < i && !Dotted(ts, i) && GoodExpr(e) && NoLogic(e) && At(ts, i, Yield(e))
    requires Closer(Look(ts, i + |Yield(e)|))
    ensures Level(OR, ts, i) == Ok(Parsed(Build(e), i + |Yield(e)|))
    ensures Starter(ts[i].kind, OR)
  {
    hide Level, OperatorAt;
    var j := i + |Yield(e)|;
    NoOperatorAtClose(ts, j);
    SourceIsClosed(e);
    EndsBefore(e, false, ts[j].kind);
    YieldStarts(e, OR, false);
    AtFirst(ts, i, Yield(e));
    Complete(e, OR, ts, i, Build(e), j);
  }

  /** An expression and the symbol that closes it. */
  lemma ExprClosed(e: Expr, close: Kind, ts: seq<Token>, i: nat)
    requires 0 < i && !Dotted(ts, i) && GoodExpr(e) && NoLogic(e) && Closer(close)
    requires At(ts, i, Yield(e) + [Sym(close)])
    ensures Level(OR, ts, i) == Ok(Parsed(Build(e), i + |Yield(e)|))
    ensures Look(ts, i + |Yield(e)|) == close && Starter(ts[i].kind, OR)
  {
    hide Level;
    AtSplit(ts, i, Yield(e), [Sym(close)]);
    AtOne(ts, i + |Yield(e)|, Sym(close));
    ExprDone(e, ts, i);
  }

  // ----- types

  lemma TypeStarts(t: Type)
    ensures IsTypename(YieldType(t)[0].kind)
  {
  }

  lemma {:induction false} PlainTypeDone(t: Type, ts: seq<Token>, i: nat)
    requires GoodType(t) && EveryInType(t, NoLogic) && At(ts, i, YieldType(t)) && !HasSuffix(t)
    requires i + |YieldType(t)| < |ts|
    requires TakesSuffix(t) || ts[i + |YieldType(t)|].kind != LBrack
    ensures PlainType(ts, i) == Ok(Parsed(BuildType(t), i + |YieldType(t)|))
    ensures ts[i + |YieldType(t)| - 1].kind != Dot
    decreases t, 0
  {
    match t
    case Base(b) => AtOne(ts, i, Sym(b.TokenKind()));
    case User(x) => AtOne(ts, i, Name(x));
    case RefTo(u) => PrefixTypeDone(t, u, ts, i);
    case ConstOf(u) => PrefixTypeDone(t, u, ts, i);
  }

  lemma {:induction false} PrefixTypeDone(t: Type, u: Type, ts: seq<Token>, i: nat)
    requires t == RefTo(u) || t == ConstOf(u)
    requires GoodType(u) && EveryInType(u, NoLogic) && At(ts, i, YieldType(t)) && i + |YieldType(t)| < |ts|
    requires HasSuffix(u) || ts[i + |YieldType(t)|].kind != LBrack
    ensures PlainType(ts, i) == Ok(Parsed(BuildType(t), i + |YieldType(t)|))
    ensures ts[i + |YieldType(t)| - 1].kind != Dot
    decreases u, 2
  {
    hide TypeName, PlainType, EveryInType, GoodType, At, IsTypename, Level;
    var w := Sym(if t.RefTo? then WordRef else WordConst);
    assert YieldType(t) == [w] + YieldType(u);
    AtSplit(ts, i, [w], YieldType(u));
    AtOne(ts, i, w);
    TypeDone(u, ts, i + 1);
    PrefixTypeStep(t.RefTo?, ts, i, Parsed(BuildType(u), i + |YieldType(t)|));
  }

  lemma PrefixTypeStep(isRef: bool, ts: seq<Token>, i: nat, p: Parsed)
    requires i < |ts| && ts[i].kind == (if isRef then WordRef else WordConst)
    requires TypeName(ts, i + 1) == Ok(p) && p.node != Null
    ensures PlainType(ts, i) == Ok(Parsed(Mk(if isRef then DeclReference else DeclConst, p.node, Null), p.next))
  {
    hide TypeName;
  }

  lemma BuildTypeIsThere(t: Type)
    ensures BuildType(t) != Null
  {
  }

  lemma {:induction false} TypeDone(t: Type, ts: seq<Token>, i: nat)
    requires GoodType(t) && EveryInType(t, NoLogic) && At(ts, i, YieldType(t))
    requires i + |YieldType(t)| < |ts|
    requires HasSuffix(t) || ts[i + |YieldType(t)|].kind != LBrack
    ensures TypeName(ts, i) == Ok(Parsed(BuildType(t), i + |YieldType(t)|))
    ensures ts[i + |YieldType(t)| - 1].kind != Dot && IsTypename(ts[i].kind)
    decreases t, 1
  {
    hide PlainType, TypeName, Level, IsTypename, GoodExpr, NoLogic, Yield, Build, At;
    TypeStarts(t);
    AtFirst(ts, i, YieldType(t));
    match t
    case ArrayOf(u) => ArrayTypeDone(u, ts, i);
    case SizedOf(u, e) => SizedTypeDone(u, e, ts, i);
    case _ =>
      PlainTypeDone(t, ts, i);
      BuildTypeIsThere(t);
      TypeSuffix(ts, i);
  }

  lemma {:induction false} ArrayTypeDone(u: Type, ts: seq<Token>, i: nat)
    requires GoodType(u) && TakesSuffix(u) && EveryInType(u, NoLogic)
    requires At(ts, i, YieldType(u) + [Sym(LBrack), Sym(RBrack)])
    ensures TypeName(ts, i) == Ok(Parsed(Mk(DeclVarNosizedArray, BuildType(u), Null), i + |YieldType(u)| + 2))
    ensures ts[i + |YieldType(u)| + 1].kind == RBrack
    decreases u, 3
  {
    hide PlainType, TypeName, Level, GoodType, EveryInType;
    var j := i + |YieldType(u)|;
    AtSplit(ts, i, YieldType(u), [Sym(LBrack), Sym(RBrack)]);
    AtTwo(ts, j, Sym(LBrack), Sym(RBrack));
    PlainTypeDone(u, ts, i);
    BuildTypeIsThere(u);
    TypeSuffix(ts, i);
  }

  lemma {:induction false} SizedTypeDone(u: Type, e: Expr, ts: seq<Token>, i: nat)
    requires GoodType(u) && TakesSuffix(u) && EveryInType(u, NoLogic) && GoodExpr(e) && NoLogic(e)
    requires At(ts, i, YieldType(u) + ([Sym(LBrack)] + (Yield(e) + [Sym(RBrack)])))
    ensures TypeName(ts, i)
            == Ok(Parsed(Mk(DeclVarSizedArray, BuildType(u), Build(e)), i + |YieldType(u)| + |Yield(e)| + 2))
    ensures ts[i + |YieldType(u)| + |Yield(e)| + 1].kind == RBrack
    decreases u, 3
  {
    hide PlainType, TypeName, Level, GoodType, EveryInType, GoodExpr, NoLogic, Yield, Build, At, YieldType, BuildType;
    var j := i + |YieldType(u)|;
    AtSplit(ts, i, YieldType(u), [Sym(LBrack)] + (Yield(e) + [Sym(RBrack)]));
    AtSplit(ts, j, [Sym(LBrack)], Yield(e) + [Sym(RBrack)]);
    AtOne(ts, j, Sym(LBrack));
    PlainTypeDone(u, ts, i);
    ExprClosed(e, RBrack, ts, j + 1);
    BuildTypeIsThere(u);
    TypeSuffix(ts, i);
  }

  // ----- declarations

  /** `name = expression` behind something that is not a dot. */
  lemma AssignDone(x: string, e: Expr, ts: seq<Token>, i: nat)
    requires 0 < i && !Dotted(ts, i) && At(ts, i, [Name(x), Sym(Equal)] + Yield(e))
    requires GoodExpr(e) && NoLogic(e) && Closer(Look(ts, i + 2 + |Yield(e)|))
    ensures Assign(ts, i) == Ok(Parsed(Mk(StmtAssign, NameNode(x), Build(e)), i + 2 + |Yield(e)|))
  {
    hide Level, At, Yield, Build, GoodExpr, NoLogic, Assign;
    AtSplit(ts, i, [Name(x), Sym(Equal)], Yield(e));
    AtTwo(ts, i, Name(x), Sym(Equal));
    ExprDone(e, ts, i + 2);
    AssignStep(x, ts, i, Parsed(Build(e), i + 2 + |Yield(e)|));
  }

  lemma AssignStep(x: string, ts: seq<Token>, i: nat, e: Parsed)
    requires 0 < i && !Dotted(ts, i) && i + 1 < |ts| && ts[i] == Name(x) && ts[i + 1] == Sym(Equal)
    requires Level(OR, ts, i + 2) == Ok(e)
    ensures Assign(ts, i) == Ok(Parsed(Mk(StmtAssign, NameNode(x), e.node), e.next))
  {
    hide Level, ArrayIndex;
    assert MemberAccess(ts, i) == Ok(Varname(ts, i));
  }

  lemma DeclDone(d: Decl, ts: seq<Token>, i: nat)
    requires GoodDecl(d) && EveryInDecl(d, NoLogic) && At(ts, i, YieldDecl(d))
    requires Closer(Look(ts, i + |YieldDecl(d)|))
    ensures VarDecl(ts, i) == Ok(Parsed(BuildDecl(d), i + |YieldDecl(d)|))
    ensures IsTypename(ts[i].kind)
  {
    hide TypeName, Level, MemberAccess, VarDecl, Assign, GoodType, EveryInType, Yield, YieldType, BuildType, At,
         IsTypename, GoodExpr, NoLogic, Build;
    var j := i + |YieldType(d.ty)|;
    var t := Parsed(BuildType(d.ty), j);
    BuildTypeIsThere(d.ty);
    if d.init.Some? {
      var e := d.init.value;
      assert [Name(d.name)] + ([Sym(Equal)] + Yield(e)) == [Name(d.name), Sym(Equal)] + Yield(e);
      AtSplit(ts, i, YieldType(d.ty), [Name(d.name), Sym(Equal)] + Yield(e));
      AtSplit(ts, j, [Name(d.name), Sym(Equal)], Yield(e));
      AtTwo(ts, j, Name(d.name), Sym(Equal));
      TypeDone(d.ty, ts, i);
      AssignDone(d.name, e, ts, j);
      VarDeclStep(ts, i, t, Parsed(Mk(StmtAssign, NameNode(d.name), Build(e)), j + 2 + |Yield(e)|));
    } else {
      assert [Name(d.name)] + [] == [Name(d.name)];
      AtSplit(ts, i, YieldType(d.ty), [Name(d.name)]);
      AtOne(ts, j, Name(d.name));
      TypeDone(d.ty, ts, i);
      NoAssign(ts, j);
      VarDeclStep(ts, i, t, Parsed(Null, j));
    }
  }

  lemma NoAssign(ts: seq<Token>, i: nat)
    requires Look(ts, i + 1) != Equal
    ensures Assign(ts, i) == Ok(Parsed(Null, i))
  {
    hide Level, MemberAccess;
  }

  lemma VarDeclStep(ts: seq<Token>, i: nat, t: Parsed, a: Parsed)
    requires TypeName(ts, i) == Ok(t) && t.node != Null && Assign(ts, t.next) == Ok(a)
    ensures a.node != Null ==> VarDecl(ts, i) == Ok(Parsed(Mk(DeclVar, t.node, a.node), a.next))
    ensures a.node == Null && Look(ts, t.next) == Ident
            ==> VarDecl(ts, i) == Ok(Parsed(Mk(DeclVar, t.node, Leaf(ConstVarname, ts[t.next].value)), t.next + 1))
  {
    hide TypeName, Assign;
  }

  lemma DeclListStep(members: bool, ts: seq<Token>, i: nat, d: Parsed)
    requires i < |ts| && IsTypename(ts[i].kind) && VarDecl(ts, i) == Ok(d) && d.next < |ts|
    ensures var kind := if members then DeclMemberList else DeclVarList;
            if ts[d.next].kind == (if members then Semicolon else Comma)
            then (var r := DeclList(members, ts, d.next + 1);
                  r.Ok? ==> DeclList(members, ts, i) == Ok(Parsed(Mk(kind, d.node, r.value.node), r.value.next)))
            else DeclList(members, ts, i) == Ok(Parsed(Mk(kind, d.node, Null), d.next))
  {
    hide VarDecl;
  }

  lemma {:induction false} ParamsDone(ds: Decls, comma: bool, ts: seq<Token>, i: nat)
    requires ds != NoDecls && GoodDecls(ds) && EveryInDecls(ds, NoLogic) && At(ts, i, YieldParams(ds, comma))
    requires Look(ts, i + |YieldParams(ds, comma)|) == RParen
    ensures DeclList(false, ts, i) == Ok(Parsed(BuildDecls(DeclVarList, ds), i + |YieldParams(ds, comma)|))
    ensures IsTypename(ts[i].kind)
  {
    hide VarDecl, DeclList, GoodDecl, EveryInDecl, YieldDecl, BuildDecl, At;
    var j := i + |YieldDecl(ds.head)|;
    if ds.rest != NoDecls {
      AtSplit(ts, i, YieldDecl(ds.head), [Sym(Comma)] + YieldParams(ds.rest, comma));
      AtSplit(ts, j, [Sym(Comma)], YieldParams(ds.rest, comma));
      AtOne(ts, j, Sym(Comma));
      ParamsDone(ds.rest, comma, ts, j + 1);
    } else if comma {
      AtSplit(ts, i, YieldDecl(ds.head), [Sym(Comma)]);
      AtOne(ts, j, Sym(Comma));
      NoMore(false, ts, j + 1);
    } else {
      assert YieldDecl(ds.head) + [] == YieldDecl(ds.head);
    }
    DeclDone(ds.head, ts, i);
    DeclListStep(false, ts, i, Parsed(BuildDecl(ds.head), j));
  }

  lemma {:induction false} MembersDone(ds: Decls, open: bool, ts: seq<Token>, i: nat)
    requires GoodDecls(ds) && EveryInDecls(ds, NoLogic) && At(ts, i, YieldMembers(ds, open))
    requires Look(ts, i + |YieldMembers(ds, open)|) == RCurly
    ensures DeclList(true, ts, i) == Ok(Parsed(BuildDecls(DeclMemberList, ds), i + |YieldMembers(ds, open)|))
  {
    hide VarDecl, DeclList, GoodDecl, EveryInDecl, YieldDecl, BuildDecl, At;
    if ds == NoDecls {
      NoMore(true, ts, i);
    } else {
      var j := i + |YieldDecl(ds.head)|;
      if ds.rest != NoDecls || !open {
        AtSplit(ts, i, YieldDecl(ds.head), [Sym(Semicolon)] + YieldMembers(ds.rest, open));
        AtSplit(ts, j, [Sym(Semicolon)], YieldMembers(ds.rest, open));
        AtOne(ts, j, Sym(Semicolon));
        MembersDone(ds.rest, open, ts, j + 1);
      }
      DeclDone(ds.head, ts, i);
      DeclListStep(true, ts, i, Parsed(BuildDecl(ds.head), j));
    }
  }

  lemma NoMore(members: bool, ts: seq<Token>, i: nat)
    requires Look(ts, i) == if members then RCurly else RParen
    ensures DeclList(members, ts, i) == Ok(Parsed(Null, i))
  {
    hide VarDecl;
  }

  lemma StructDone(x: string, ms: Decls, open: bool, ts: seq<Token>, i: nat)
    requires GoodDecls(ms) && EveryInDecls(ms, NoLogic) && At(ts, i, YieldStmt(SStruct(x, ms, open)))
    ensures ts[i].kind == WordStruct
    ensures Struct(ts, i) == Ok(Parsed(BuildStmt(SStruct(x, ms, open)), i + |YieldStmt(SStruct(x, ms, open))|))
  {
    hide Struct, DeclList, At, YieldMembers, BuildDecls, GoodDecls, EveryInDecls;
    EnclosedParts(ts, i, [Sym(WordStruct), Name(x), Sym(LCurly)], YieldMembers(ms, open), RCurly);
    AtThree(ts, i, Sym(WordStruct), Name(x), Sym(LCurly));
    MembersDone(ms, open, ts, i + 3);
    StructCases(ts, i);
  }

  function BuildSignature(t: Type, x: Token, ps: Decls): Node {
    Mk(DeclFunctionSignature, Mk(DeclTypeVarnamePair, BuildType(t), Leaf(ConstVarname, x.value)),
       BuildDecls(DeclVarList, ps))
  }

  function YieldSignature(t: Type, x: Token, ps: Decls, comma: bool): seq<Token> {
    YieldType(t) + ([x, Sym(LParen)] + (YieldParams(ps, comma) + [Sym(RParen)]))
  }

  lemma SignatureDone(t: Type, x: Token, ps: Decls, comma: bool, ts: seq<Token>, i: nat)
    requires GoodType(t) && EveryInType(t, NoLogic) && GoodDecls(ps) && EveryInDecls(ps, NoLogic)
    requires x.kind == LBrack ==> HasSuffix(t)
    requires At(ts, i, YieldSignature(t, x, ps, comma))
    ensures Signature(ts, i) == Ok(Parsed(BuildSignature(t, x, ps), i + |YieldSignature(t, x, ps, comma)|))
  {
    hide TypeName, DeclList, Signature, TypeVarname, GoodType, GoodDecls, EveryInType, EveryInDecls, YieldType,
         BuildType, BuildDecls, At, YieldParams;
    var j := i + |YieldType(t)|;
    AtSplit(ts, i, YieldType(t), [x, Sym(LParen)] + (YieldParams(ps, comma) + [Sym(RParen)]));
    EnclosedParts(ts, j, [x, Sym(LParen)], YieldParams(ps, comma), RParen);
    AtTwo(ts, j, x, Sym(LParen));
    TypeDone(t, ts, i);
    TypeVarnameStep(ts, i, Parsed(BuildType(t), j));
    var tx := Parsed(Mk(DeclTypeVarnamePair, BuildType(t), Leaf(ConstVarname, x.value)), j + 1);
    if ps != NoDecls {
      ParamsDone(ps, comma, ts, j + 2);
    } else {
      NoParams(comma);
    }
    SignatureStep(ts, i, tx);
  }

  lemma NoParams(comma: bool)
    ensures BuildDecls(DeclVarList, NoDecls) == Null && YieldParams(NoDecls, comma) == []
  {
  }

  lemma TypeVarnameStep(ts: seq<Token>, i: nat, t: Parsed)
    requires TypeName(ts, i) == Ok(t) && t.next < |ts|
    ensures TypeVarname(ts, i)
            == Ok(Parsed(Mk(DeclTypeVarnamePair, t.node, Leaf(ConstVarname, ts[t.next].value)), t.next + 1))
  {
    hide TypeName;
  }

  lemma SignatureStep(ts: seq<Token>, i: nat, tx: Parsed)
    requires TypeVarname(ts, i) == Ok(tx) && tx.next + 1 < |ts| && ts[tx.next].kind == LParen
    ensures ts[tx.next + 1].kind == RParen
            ==> Signature(ts, i) == Ok(Parsed(Mk(DeclFunctionSignature, tx.node, Null), tx.next + 2))
    ensures ts[tx.next + 1].kind != RParen && DeclList(false, ts, tx.next + 1).Ok?
            ==> var ps := DeclList(false, ts, tx.next + 1).value;
                Look(ts, ps.next) == RParen
                ==> Signature(ts, i) == Ok(Parsed(Mk(DeclFunctionSignature, tx.node, ps.node), ps.next + 1))
  {
    hide TypeVarname, DeclList;
  }
}
