/** Soundness for statements: whatever the parser takes for a program is the writing of an
    accepted program with the tree it returns. With completeness this says exactly what is
    parsed. */
module ProgramSound {
  import opened Outcomes
  import opened Tokens
  import opened Nodes
  import opened Operators
  import opened Syntax
  import opened Printer
  import opened ExprParser
  import opened ExprShapes
  import opened ExprParts
  import opened ExprComplete
  import opened ExprSound
  import opened StmtParser
  import opened StmtCases
  import opened Programs
  import opened ProgramParts
  import opened ProgramComplete
  import opened ProgramTheorems

  // ----- expressions before a closing symbol

  /** A grammatical expression without an incomplete end has none inside either. */
  lemma {:induction false} ClosedIsSource(e: Expr, lv: nat, dotted: bool)
    requires Fits(e, lv, dotted) && !OpenEnd(e)
    ensures Source(e)
  {
    match e
    case Member(_, t) => ClosedIsSource(t, FACTOR, true);
    case Index(_, es) => ClosedAreSource(es);
    case StructLit(es) => ClosedAreSource(es);
    case ArrayLit(es) => ClosedAreSource(es);
    case Paren(e1) => ClosedIsSource(e1, OR, false);
    case CallN(_, es) => ClosedAreSource(es);
    case Neg(e1) => ClosedIsSource(e1, CALL, false);
    case Bin(op, l, r) => ClosedIsSource(l, OpLevel(op) - 1, dotted); ClosedIsSource(r, OpLevel(op), false);
    case NotE(e1) => ClosedIsSource(e1, COMPARE, false);
    case _ =>
  }

  lemma {:induction false} ClosedAreSource(es: Exprs)
    requires FitsAll(es)
    ensures SourceAll(es)
  {
    ClosedIsSource(es.head, OR, false);
    if es.More? {
      ClosedAreSource(es.rest);
    }
  }

  predicate ExprAt(e: Expr, ts: seq<Token>, i: nat, n: Node, j: nat) {
    GoodExpr(e) && NoLogic(e) && At(ts, i, Yield(e)) && j == i + |Yield(e)| && Build(e) == n
  }

  lemma SoundExpr(ts: seq<Token>, i: nat) returns (e: Expr)
    requires 0 < i && !Dotted(ts, i) && Proper(ts) && Level(OR, ts, i).Ok?
    requires Closer(Look(ts, Level(OR, ts, i).value.next))
    ensures var p := Level(OR, ts, i).value; ExprAt(e, ts, i, p.node, p.next)
  {
    hide Level, Proper;
    var p := Level(OR, ts, i).value;
    NotAtEnd(ts, i);
    e := Sound(OR, ts, i);
    hide At, Yield, Build, NoOperator;
    OpenNeeds(e, false, Look(ts, p.next));
    ClosedIsSource(e, OR, false);
  }

  lemma NotAtEnd(ts: seq<Token>, i: nat)
    requires Level(OR, ts, i).Ok? && Closer(Look(ts, Level(OR, ts, i).value.next))
    ensures Level(OR, ts, i).value.node != Null
  {
    hide Binary;
  }

  // ----- types

  predicate TypeAt(t: Type, ts: seq<Token>, i: nat, n: Node, j: nat) {
    GoodType(t) && EveryInType(t, NoLogic) && At(ts, i, YieldType(t)) && j == i + |YieldType(t)| && BuildType(t) == n
  }

  lemma {:induction false} SoundPlainType(ts: seq<Token>, i: nat) returns (t: Type)
    requires Proper(ts) && PlainType(ts, i).Ok? && PlainType(ts, i).value.node != Null
    ensures var p := PlainType(ts, i).value;
            TypeAt(t, ts, i, p.node, p.next) && !HasSuffix(t) && (Look(ts, p.next) == LBrack ==> TakesSuffix(t))
    decreases |ts| - i, 0
  {
    hide TypeName, TypeAt;
    var k := ts[i].kind;
    assert ProperToken(ts[i]);
    if k == WordRef || k == WordConst {
      var u := SoundTypeName(ts, i + 1);
      t := if k == WordRef then RefTo(u) else ConstOf(u);
      PrefixedAt(t, u, ts, i, TypeName(ts, i + 1).value);
    } else {
      t := if k == Ident then User(ts[i].value.s)
           else Base(if k == WordInt then IntType else if k == WordFloat then FloatType
                     else if k == WordBool then BoolType else VoidType);
      SimpleAt(t, ts, i);
    }
  }

  lemma PrefixedAt(t: Type, u: Type, ts: seq<Token>, i: nat, p: Parsed)
    requires t == RefTo(u) || t == ConstOf(u)
    requires i < |ts| && ts[i] == Sym(if t.RefTo? then WordRef else WordConst) && TypeAt(u, ts, i + 1, p.node, p.next)
    ensures TypeAt(t, ts, i, Mk(if t.RefTo? then DeclReference else DeclConst, p.node, Null), p.next)
  {
    hide At;
    AtOne(ts, i, ts[i]);
    AtSplit(ts, i, [ts[i]], YieldType(u));
  }

  lemma SimpleAt(t: Type, ts: seq<Token>, i: nat)
    requires Simple(t) && i < |ts| && ts[i] == YieldType(t)[0]
    ensures TypeAt(t, ts, i, BuildType(t), i + 1)
  {
    AtOne(ts, i, ts[i]);
  }

  lemma {:induction false} SoundTypeName(ts: seq<Token>, i: nat) returns (t: Type)
    requires Proper(ts) && TypeName(ts, i).Ok? && TypeName(ts, i).value.node != Null
    ensures var p := TypeName(ts, i).value;
            TypeAt(t, ts, i, p.node, p.next) && (Look(ts, p.next) == LBrack ==> HasSuffix(t))
    decreases |ts| - i, 1
  {
    hide PlainType, TypeName, Level, TypeAt, Proper;
    TypeFails(ts, i);
    t := SoundPlainType(ts, i);
    TypeSuffix(ts, i);
    var p := PlainType(ts, i).value;
    if ts[p.next].kind == LBrack {
      IsSymbol(ts, p.next);
      IsSymbol(ts, p.next + 1);
      if ts[p.next + 1].kind == RBrack {
        t := ArrayOf(t);
        ArrayAt(t.item, ts, i, p);
      } else {
        var q := Level(OR, ts, p.next + 1).value;
        var e := SoundExpr(ts, p.next + 1);
        IsSymbol(ts, q.next);
        SizedAt(t, e, ts, i, p, q);
        t := SizedOf(t, e);
      }
    }
  }

  lemma IsSymbol(ts: seq<Token>, k: nat)
    requires Proper(ts) && k < |ts|
    ensures ts[k].kind in {LBrack, RBrack} ==> ts[k] == Sym(ts[k].kind)
  {
    assert ProperToken(ts[k]);
  }

  lemma ArrayAt(u: Type, ts: seq<Token>, i: nat, p: Parsed)
    requires TypeAt(u, ts, i, p.node, p.next) && TakesSuffix(u)
    requires p.next + 1 < |ts| && ts[p.next] == Sym(LBrack) && ts[p.next + 1] == Sym(RBrack)
    ensures TypeAt(ArrayOf(u), ts, i, Mk(DeclVarNosizedArray, p.node, Null), p.next + 2)
  {
    assert At(ts, p.next, [Sym(LBrack), Sym(RBrack)]);
    hide At;
    AtSplit(ts, i, YieldType(u), [Sym(LBrack), Sym(RBrack)]);
  }

  lemma SizedAt(u: Type, e: Expr, ts: seq<Token>, i: nat, p: Parsed, q: Parsed)
    requires TypeAt(u, ts, i, p.node, p.next) && TakesSuffix(u) && ExprAt(e, ts, p.next + 1, q.node, q.next)
    requires p.next < |ts| && ts[p.next] == Sym(LBrack) && q.next < |ts| && ts[q.next] == Sym(RBrack)
    ensures TypeAt(SizedOf(u, e), ts, i, Mk(DeclVarSizedArray, p.node, q.node), q.next + 1)
  {
    hide At, GoodExpr, NoLogic, Yield, Build;
    AtOne(ts, p.next, Sym(LBrack));
    Enclosed(ts, p.next, [Sym(LBrack)], Yield(e), RBrack);
    AtSplit(ts, i, YieldType(u), [Sym(LBrack)] + (Yield(e) + [Sym(RBrack)]));
  }

  lemma {:induction false} TypeEnds(t: Type)
    ensures YieldType(t)[|YieldType(t)| - 1].kind != Dot
  {
    match t
    case RefTo(u) => TypeEnds(u);
    case ConstOf(u) => TypeEnds(u);
    case _ =>
  }

  // ----- declarations

  predicate DeclAt(d: Decl, ts: seq<Token>, i: nat, n: Node, j: nat) {
    GoodDecl(d) && EveryInDecl(d, NoLogic) && At(ts, i, YieldDecl(d)) && j == i + |YieldDecl(d)| && BuildDecl(d) == n
  }

  lemma SoundVarDecl(ts: seq<Token>, i: nat) returns (d: Decl)
    requires Proper(ts) && VarDecl(ts, i).Ok? && Closer(Look(ts, VarDecl(ts, i).value.next))
    ensures var p := VarDecl(ts, i).value; DeclAt(d, ts, i, p.node, p.next)
  {
    hide VarDecl, TypeName, Assign, Level, TypeAt, ExprAt;
    VarDeclParts(ts, i);
    var t := TypeName(ts, i).value;
    var ty := SoundTypeName(ts, i);
    TypeBefore(ty, ts, i, t);
    assert ProperToken(ts[t.next]);
    var x := ts[t.next].value.s;
    if Assign(ts, t.next).value.node != Null {
      AssignParts(ts, t.next);
      assert ProperToken(ts[t.next + 1]);
      var e := SoundExpr(ts, t.next + 2);
      d := Decl(ty, x, Some(e));
      InitAt(d, e, ts, i, t, Level(OR, ts, t.next + 2).value);
    } else {
      d := Decl(ty, x, None);
      PlainAt(d, ts, i, t);
    }
  }

  lemma VarDeclParts(ts: seq<Token>, i: nat)
    requires VarDecl(ts, i).Ok?
    ensures TypeName(ts, i).Ok? && TypeName(ts, i).value.node != Null
    ensures var t := TypeName(ts, i).value;
            && Assign(ts, t.next).Ok? && t.next < |ts| && ts[t.next].kind == Ident
            && var a := Assign(ts, t.next).value;
               VarDecl(ts, i) == Ok(if a.node != Null then Parsed(Mk(DeclVar, t.node, a.node), a.next)
                                    else Parsed(Mk(DeclVar, t.node, Leaf(ConstVarname, ts[t.next].value)), t.next + 1))
  {
    hide TypeName, MemberAccess, Level;
  }

  /** A type ends in no dot. */
  lemma TypeBefore(t: Type, ts: seq<Token>, i: nat, p: Parsed)
    requires TypeAt(t, ts, i, p.node, p.next)
    ensures 0 < p.next && !Dotted(ts, p.next)
  {
    TypeEnds(t);
    AtIndex(ts, i, YieldType(t), |YieldType(t)| - 1);
  }

  lemma AssignParts(ts: seq<Token>, k: nat)
    requires Assign(ts, k).Ok? && Assign(ts, k).value.node != Null && 0 < k && !Dotted(ts, k)
    ensures k + 1 < |ts| && ts[k].kind == Ident && ts[k + 1].kind == Equal && Level(OR, ts, k + 2).Ok?
    ensures var e := Level(OR, ts, k + 2).value;
            Assign(ts, k) == Ok(Parsed(Mk(StmtAssign, Leaf(ConstVarname, ts[k].value), e.node), e.next))
  {
    hide Level, ArrayIndex;
    assert MemberAccess(ts, k) == Ok(Varname(ts, k));
  }

  lemma InitAt(d: Decl, e: Expr, ts: seq<Token>, i: nat, t: Parsed, q: Parsed)
    requires TypeAt(d.ty, ts, i, t.node, t.next) && d.init == Some(e) && ExprAt(e, ts, t.next + 2, q.node, q.next)
    requires t.next + 1 < |ts| && ts[t.next] == Name(d.name) && ts[t.next + 1] == Sym(Equal)
    ensures DeclAt(d, ts, i, Mk(DeclVar, t.node, Mk(StmtAssign, NameNode(d.name), q.node)), q.next)
  {
    hide At, Yield, Build, GoodExpr, NoLogic, YieldType, BuildType, GoodType, EveryInType;
    AtOne(ts, t.next, Name(d.name));
    AtOne(ts, t.next + 1, Sym(Equal));
    AtSplit(ts, t.next + 1, [Sym(Equal)], Yield(e));
    AtSplit(ts, t.next, [Name(d.name)], [Sym(Equal)] + Yield(e));
    AtSplit(ts, i, YieldType(d.ty), [Name(d.name)] + ([Sym(Equal)] + Yield(e)));
  }

  lemma PlainAt(d: Decl, ts: seq<Token>, i: nat, t: Parsed)
    requires TypeAt(d.ty, ts, i, t.node, t.next) && d.init == None && t.next < |ts| && ts[t.next] == Name(d.name)
    ensures DeclAt(d, ts, i, Mk(DeclVar, t.node, NameNode(d.name)), t.next + 1)
  {
    hide At, YieldType, BuildType, GoodType, EveryInType;
    AtOne(ts, t.next, Name(d.name));
    AtSplit(ts, i, YieldType(d.ty), [Name(d.name)]);
    assert [Name(d.name)] + [] == [Name(d.name)];
  }

  /** A list of declarations as parameters or members, with or without the last separator. */
  function YieldDecls(members: bool, ds: Decls, odd: bool): seq<Token> {
    if members then YieldMembers(ds, odd) else YieldParams(ds, odd)
  }

  predicate DeclsAt(members: bool, ds: Decls, odd: bool, ts: seq<Token>, i: nat, n: Node, j: nat) {
    && GoodDecls(ds) && EveryInDecls(ds, NoLogic) && (odd ==> ds != NoDecls)
    && At(ts, i, YieldDecls(members, ds, odd)) && j == i + |YieldDecls(members, ds, odd)|
    && BuildDecls(if members then DeclMemberList else DeclVarList, ds) == n
  }

  lemma {:induction false} SoundDecls(members: bool, ts: seq<Token>, i: nat) returns (ds: Decls, odd: bool)
    requires Proper(ts) && DeclList(members, ts, i).Ok?
    requires Look(ts, DeclList(members, ts, i).value.next) == if members then RCurly else RParen
    ensures var p := DeclList(members, ts, i).value; DeclsAt(members, ds, odd, ts, i, p.node, p.next)
    decreases |ts| - i
  {
    hide DeclList, VarDecl, DeclAt, DeclsAt;
    DeclListCases(members, ts, i);
    var sep := if members then Semicolon else Comma;
    if !IsTypename(ts[i].kind) {
      ds, odd := NoDecls, false;
      NoDeclsAt(members, ts, i);
    } else {
      var q := VarDecl(ts, i).value;
      var d := SoundVarDecl(ts, i);
      if ts[q.next].kind == sep {
        assert ProperToken(ts[q.next]);
        var rest, o := SoundDecls(members, ts, q.next + 1);
        ds, odd := Decls(d, rest), if rest == NoDecls then !members else o;
        MoreDeclsAt(members, d, rest, o, ts, i, q, DeclList(members, ts, q.next + 1).value);
      } else {
        ds, odd := Decls(d, NoDecls), members;
        LastDeclAt(members, d, ts, i, q);
      }
    }
  }

  lemma NoDeclsAt(members: bool, ts: seq<Token>, i: nat)
    requires i < |ts|
    ensures DeclsAt(members, NoDecls, false, ts, i, Null, i)
  {
  }

  lemma LastDeclAt(members: bool, d: Decl, ts: seq<Token>, i: nat, q: Parsed)
    requires DeclAt(d, ts, i, q.node, q.next)
    ensures DeclsAt(members, Decls(d, NoDecls), members, ts, i,
                    Mk(if members then DeclMemberList else DeclVarList, q.node, Null), q.next)
  {
    hide YieldDecl, BuildDecl, GoodDecl, EveryInDecl, GoodDecls, EveryInDecls, BuildDecls;
    OneDecl(d, if members then DeclMemberList else DeclVarList);
    assert YieldDecl(d) + [] == YieldDecl(d);
  }

  lemma OneDecl(d: Decl, kind: NodeKind)
    ensures GoodDecls(Decls(d, NoDecls)) <==> GoodDecl(d)
    ensures EveryInDecls(Decls(d, NoDecls), NoLogic) <==> EveryInDecl(d, NoLogic)
    ensures BuildDecls(kind, Decls(d, NoDecls)) == Mk(kind, BuildDecl(d), Null)
  {
    hide YieldDecl, BuildDecl, GoodDecl, EveryInDecl;
  }

  lemma MoreDeclsAt(members: bool, d: Decl, rest: Decls, o: bool, ts: seq<Token>, i: nat, q: Parsed, r: Parsed)
    requires DeclAt(d, ts, i, q.node, q.next) && q.next < |ts|
             && ts[q.next] == Sym(if members then Semicolon else Comma)
    requires DeclsAt(members, rest, o, ts, q.next + 1, r.node, r.next)
    ensures DeclsAt(members, Decls(d, rest), if rest == NoDecls then !members else o, ts, i,
                    Mk(if members then DeclMemberList else DeclVarList, q.node, r.node), r.next)
  {
    hide YieldDecl, BuildDecl, GoodDecl, EveryInDecl, At;
    var sep := Sym(if members then Semicolon else Comma);
    AtOne(ts, q.next, sep);
    AtSplit(ts, q.next, [sep], YieldDecls(members, rest, o));
    AtSplit(ts, i, YieldDecl(d), [sep] + YieldDecls(members, rest, o));
    AtSplit(ts, i, YieldDecl(d), [sep]);
    assert [sep] + [] == [sep];
  }

  // ----- statements

  /** The statement `s` stands between `i` and `j` and has the tree `n`. */
  predicate StmtAt(s: Statement, ts: seq<Token>, i: nat, b: Block, n: Node, j: nat) {
    && Accepted(s, b) && EveryInStmt(s, NoLogic) && At(ts, i, YieldStmt(s)) && j == i + |YieldStmt(s)|
    && BuildStmt(s) == n
    && (OpenIf(s) ==> NoElseAt(ts, j))
  }

  predicate StmtsAt(p: Statements, ts: seq<Token>, i: nat, b: Block, n: Node, j: nat) {
    AcceptedAll(p, b) && EveryIn(p, NoLogic) && At(ts, i, YieldStmts(p)) && j == i + |YieldStmts(p)|
    && BuildStmts(p) == n
  }

  predicate BlockAt(p: Statements, ts: seq<Token>, i: nat, b: Block, n: Node, j: nat) {
    AcceptedAll(p, b) && EveryIn(p, NoLogic) && At(ts, i, YieldBlock(p)) && j == i + |YieldBlock(p)|
    && BuildStmts(p) == n
  }

  predicate GuardedAt(g: Guarded, kind: NodeKind, ts: seq<Token>, i: nat, b: Block, n: Node, j: nat) {
    && AcceptedGuarded(g, b) && EveryInGuarded(g, NoLogic) && At(ts, i, YieldGuarded(g)) && j == i + |YieldGuarded(g)|
    && BuildGuarded(kind, g) == n && (OpenGuarded(g) ==> NoElseAt(ts, j))
  }

  predicate ElseAt(alt: ElsePart, ts: seq<Token>, i: nat, b: Block, n: Node, j: nat) {
    && AcceptedElse(alt, b) && EveryInElse(alt, NoLogic) && At(ts, i, YieldElse(alt)) && j == i + |YieldElse(alt)|
    && BuildElse(alt) == n && alt != NoElse && (alt.ElseIf? && OpenGuarded(alt.guarded) ==> NoElseAt(ts, j))
  }

  lemma SoundStruct(ts: seq<Token>, i: nat) returns (s: Statement)
    requires Proper(ts) && i < |ts| && ts[i].kind == WordStruct && Struct(ts, i).Ok?
    ensures var p := Struct(ts, i).value; StmtAt(s, ts, i, NoBlock, p.node, p.next) && !s.SAssign?
  {
    hide Struct, DeclList, DeclsAt;
    StructCases(ts, i);
    assert ProperToken(ts[i]) && ProperToken(ts[i + 1]) && ProperToken(ts[i + 2]);
    var m := DeclList(true, ts, i + 3).value;
    assert ProperToken(ts[m.next]);
    var ms, open := SoundDecls(true, ts, i + 3);
    s := SStruct(ts[i + 1].value.s, ms, open);
    StructAt(ts[i + 1].value.s, ms, open, ts, i, m);
  }

  lemma StructAt(x: string, ms: Decls, open: bool, ts: seq<Token>, i: nat, m: Parsed)
    requires i + 2 < |ts| && ts[i] == Sym(WordStruct) && ts[i + 1] == Name(x) && ts[i + 2] == Sym(LCurly)
    requires DeclsAt(true, ms, open, ts, i + 3, m.node, m.next) && m.next < |ts| && ts[m.next] == Sym(RCurly)
    ensures StmtAt(SStruct(x, ms, open), ts, i, NoBlock, Mk(DeclStruct, NameNode(x), m.node), m.next + 1)
  {
    assert At(ts, i, [Sym(WordStruct), Name(x), Sym(LCurly)]);
    hide At, YieldMembers, BuildDecls, GoodDecls, EveryInDecls;
    Enclosed(ts, i, [Sym(WordStruct), Name(x), Sym(LCurly)], YieldMembers(ms, open), RCurly);
  }

  /** A condition in its parentheses, behind the keyword at `i`. */
  lemma SoundCondition(ts: seq<Token>, i: nat) returns (c: Expr)
    requires Proper(ts) && Condition(ts, i).Ok?
    ensures var p := Condition(ts, i).value;
            && GoodExpr(c) && NoLogic(c) && At(ts, i + 1, YieldCondition(c)) && p.next == i + 1 + |YieldCondition(c)|
            && Build(c) == p.node
  {
    hide Level, ExprAt;
    var e := Level(OR, ts, i + 2).value;
    assert ProperToken(ts[i + 1]) && ProperToken(ts[e.next]);
    c := SoundExpr(ts, i + 2);
    ConditionAt(c, ts, i, e);
  }

  lemma ConditionAt(c: Expr, ts: seq<Token>, i: nat, e: Parsed)
    requires ExprAt(c, ts, i + 2, e.node, e.next) && i + 1 < |ts| && ts[i + 1] == Sym(LParen)
    requires e.next < |ts| && ts[e.next] == Sym(RParen)
    ensures GoodExpr(c) && NoLogic(c) && At(ts, i + 1, YieldCondition(c)) && e.next + 1 == i + 1 + |YieldCondition(c)|
            && Build(c) == e.node
  {
    hide At, GoodExpr, NoLogic, Yield, Build;
    AtOne(ts, i + 1, Sym(LParen));
    Enclosed(ts, i + 1, [Sym(LParen)], Yield(c), RParen);
  }

  lemma SoundReturn(ts: seq<Token>, i: nat) returns (s: Statement)
    requires Proper(ts) && i < |ts| && ts[i].kind == WordReturn && Return(ts, i).Ok?
    ensures var p := Return(ts, i).value; StmtAt(s, ts, i, FuncBlock, p.node, p.next) && !s.SAssign?
  {
    hide Level, ExprAt, StmtAt;
    var e := Level(OR, ts, i + 1).value;
    assert ProperToken(ts[i]) && ProperToken(ts[e.next]);
    var c := SoundExpr(ts, i + 1);
    s := SReturn(c);
    ReturnAt(c, ts, i, e);
  }

  lemma ReturnAt(c: Expr, ts: seq<Token>, i: nat, e: Parsed)
    requires ExprAt(c, ts, i + 1, e.node, e.next) && i < |ts| && ts[i] == Sym(WordReturn)
    requires e.next < |ts| && ts[e.next] == Sym(Semicolon)
    ensures StmtAt(SReturn(c), ts, i, FuncBlock, Mk(StmtReturn, e.node, Null), e.next + 1)
  {
    hide At, GoodExpr, NoLogic, Yield, Build;
    AtOne(ts, i, Sym(WordReturn));
    Enclosed(ts, i, [Sym(WordReturn)], Yield(c), Semicolon);
  }

  lemma SoundKeyword(ts: seq<Token>, i: nat)
    requires Proper(ts) && i < |ts|
    ensures ts[i].kind == WordBreak && Keyword(ts, i, StmtBreak).Ok?
            ==> StmtAt(SBreak, ts, i, LoopBlock, Mk(StmtBreak, Null, Null), Keyword(ts, i, StmtBreak).value.next)
    ensures ts[i].kind == WordContinue && Keyword(ts, i, StmtContinue).Ok?
            ==> StmtAt(SContinue, ts, i, LoopBlock, Mk(StmtContinue, Null, Null),
                       Keyword(ts, i, StmtContinue).value.next)
  {
    if i + 1 < |ts| {
      assert ProperToken(ts[i]) && ProperToken(ts[i + 1]);
      assert At(ts, i, [ts[i], ts[i + 1]]);
    }
  }

  lemma SoundAssignStmt(ts: seq<Token>, i: nat, b: Block) returns (s: Statement)
    requires Proper(ts) && i + 1 < |ts| && ts[i].kind == Ident && ts[i + 1].kind == Equal && !Dotted(ts, i)
    requires Semi(Assign(ts, i), ts).Ok?
    ensures 0 < i && s.SAssign?
    ensures var p := Semi(Assign(ts, i), ts).value;
            StmtAt(s, ts, i, b, p.node.left, p.next)
  {
    hide Level, ExprAt, StmtAt, Assign;
    NotFirst(ts, i);
    AssignIsThere(ts, i);
    AssignParts(ts, i);
    var e := Level(OR, ts, i + 2).value;
    assert ProperToken(ts[i]) && ProperToken(ts[i + 1]) && ProperToken(ts[e.next]);
    var c := SoundExpr(ts, i + 2);
    s := SAssign(ts[i].value.s, c);
    AssignAt(ts[i].value.s, c, ts, i, b, e);
  }

  lemma NotFirst(ts: seq<Token>, i: nat)
    requires i + 1 < |ts| && ts[i].kind == Ident && ts[i + 1].kind == Equal && Assign(ts, i).Ok?
    ensures 0 < i
  {
    hide Level, ArrayIndex;
  }

  lemma AssignIsThere(ts: seq<Token>, i: nat)
    requires i + 1 < |ts| && ts[i].kind == Ident && ts[i + 1].kind == Equal && Assign(ts, i).Ok?
    ensures Assign(ts, i).value.node != Null
  {
    hide Level, MemberAccess;
  }

  lemma AssignAt(x: string, c: Expr, ts: seq<Token>, i: nat, b: Block, e: Parsed)
    requires ExprAt(c, ts, i + 2, e.node, e.next) && i + 1 < |ts| && ts[i] == Name(x) && ts[i + 1] == Sym(Equal)
    requires e.next < |ts| && ts[e.next] == Sym(Semicolon)
    ensures StmtAt(SAssign(x, c), ts, i, b, Mk(StmtAssign, NameNode(x), e.node), e.next + 1)
  {
    assert At(ts, i, [Name(x), Sym(Equal)]);
    hide At, GoodExpr, NoLogic, Yield, Build;
    Enclosed(ts, i, [Name(x), Sym(Equal)], Yield(c), Semicolon);
  }

  lemma SoundMemberStmt(ts: seq<Token>, i: nat, b: Block) returns (s: Statement)
    requires Proper(ts) && i + 1 < |ts| && ts[i].kind == Ident && ts[i + 1].kind == Dot
    requires Semi(MemberAssign(ts, i), ts).Ok?
    ensures s.SMember?
    ensures var p := Semi(MemberAssign(ts, i), ts).value;
            StmtAt(s, ts, i, b, p.node.left, p.next)
  {
    hide Level, ExprAt, StmtAt, MemberAssign, Accounts;
    MemberAssignParts(ts, i);
    var t := Level(FACTOR, ts, i + 2).value;
    var e := Level(OR, ts, t.next + 1).value;
    assert ProperToken(ts[i]) && ProperToken(ts[i + 1]) && ProperToken(ts[t.next]) && ProperToken(ts[e.next]);
    var target := Sound(FACTOR, ts, i + 2);
    var c := SoundExpr(ts, t.next + 1);
    s := SMember(ts[i].value.s, target, c);
    MemberAt(ts[i].value.s, target, c, ts, i, b, t, e);
  }

  lemma MemberAssignParts(ts: seq<Token>, i: nat)
    requires i + 1 < |ts| && ts[i].kind == Ident && ts[i + 1].kind == Dot && MemberAssign(ts, i).Ok?
    ensures Level(FACTOR, ts, i + 2).Ok? && Level(FACTOR, ts, i + 2).value.node != Null
    ensures var t := Level(FACTOR, ts, i + 2).value;
            && t.next < |ts| && ts[t.next].kind == Equal && Level(OR, ts, t.next + 1).Ok?
            && var e := Level(OR, ts, t.next + 1).value;
               MemberAssign(ts, i)
                 == Ok(Parsed(Mk(StmtAssign, Mk(ExprMemberAccess, Leaf(ConstVarname, ts[i].value), t.node), e.node),
                              e.next))
  {
    hide Level;
    assert MemberAccess(ts, i).Ok?;
  }

  lemma MemberAt(x: string, t: Expr, c: Expr, ts: seq<Token>, i: nat, b: Block, q: Parsed, e: Parsed)
    requires i + 1 < |ts| && ts[i] == Name(x) && ts[i + 1] == Sym(Dot) && Accounts(t, FACTOR, ts, i + 2, q.node, q.next)
    requires q.next < |ts| && ts[q.next] == Sym(Equal) && ExprAt(c, ts, q.next + 1, e.node, e.next)
    requires e.next < |ts| && ts[e.next] == Sym(Semicolon)
    ensures StmtAt(SMember(x, t, c), ts, i, b, Mk(StmtAssign, Mk(ExprMemberAccess, NameNode(x), q.node), e.node),
                   e.next + 1)
  {
    hide At, GoodExpr, NoLogic, Yield, Build, Source, Fits, Accounts;
    AtOne(ts, i, Name(x));
    AtOne(ts, i + 1, Sym(Dot));
    TargetSound(t, ts, i + 2, q);
    AtOne(ts, q.next, Sym(Equal));
    Enclosed(ts, q.next, [Sym(Equal)], Yield(c), Semicolon);
    AtSplit(ts, i + 2, Yield(t), [Sym(Equal)] + (Yield(c) + [Sym(Semicolon)]));
    AtSplit(ts, i, [Name(x)], [Sym(Dot)]);
    AtSplit(ts, i, [Name(x), Sym(Dot)], Yield(t) + ([Sym(Equal)] + (Yield(c) + [Sym(Semicolon)])));
    assert [Name(x)] + [Sym(Dot)] == [Name(x), Sym(Dot)];
    MemberBuild(x, t, c);
  }

  lemma TargetSound(t: Expr, ts: seq<Token>, i: nat, q: Parsed)
    requires 0 < i && i - 1 < |ts| && ts[i - 1].kind == Dot && Accounts(t, FACTOR, ts, i, q.node, q.next)
    requires q.next < |ts| && ts[q.next] == Sym(Equal)
    ensures Source(t) && Fits(t, FACTOR, true) && NoLogic(t) && At(ts, i, Yield(t)) && q.next == i + |Yield(t)|
            && Build(t) == q.node
  {
    hide At, Yield, Build, NoOperator, NoLogic, Source, Fits;
    assert Dotted(ts, i);
    OpenNeeds(t, true, Equal);
    ClosedIsSource(t, FACTOR, true);
  }

  lemma SoundVarStmt(ts: seq<Token>, i: nat, b: Block) returns (s: Statement)
    requires Proper(ts) && i + 1 < |ts| && Semi(VarDecl(ts, i), ts).Ok?
    requires Look(ts, i + Offset(ts[i].kind, ts[i + 1].kind)) in {Equal, Semicolon}
    ensures s.SVar?
    ensures var p := Semi(VarDecl(ts, i), ts).value; StmtAt(s, ts, i, b, p.node.left, p.next)
  {
    hide VarDecl, DeclAt, StmtAt, Offset;
    var q := VarDecl(ts, i).value;
    assert ProperToken(ts[q.next]);
    var d := SoundVarDecl(ts, i);
    s := SVar(d);
    VarAt(d, ts, i, b, q);
  }

  lemma VarAt(d: Decl, ts: seq<Token>, i: nat, b: Block, q: Parsed)
    requires i + 1 < |ts| && DeclAt(d, ts, i, q.node, q.next) && q.next < |ts| && ts[q.next] == Sym(Semicolon)
    requires Look(ts, i + Offset(ts[i].kind, ts[i + 1].kind)) in {Equal, Semicolon}
    ensures StmtAt(SVar(d), ts, i, b, q.node, q.next + 1)
  {
    hide At, Offset, Classified, YieldDecl, BuildDecl, GoodDecl, EveryInDecl;
    AtOne(ts, q.next, Sym(Semicolon));
    AtSplit(ts, i, YieldDecl(d), [Sym(Semicolon)]);
    if !Classified(d.ty) {
      MissesTokens(d, ts, i);
    }
    DeclIsGoodType(d);
  }

  lemma DeclIsGoodType(d: Decl)
    ensures Accepted(SVar(d), NoBlock) <==> Classified(d.ty) && GoodDecl(d)
  {
  }

  // ----- functions

  /** A signature between `i` and `j` with the tree `n`. */
  predicate SignatureAt(t: Type, x: Token, ps: Decls, comma: bool, ts: seq<Token>, i: nat, n: Node, j: nat) {
    && GoodType(t) && EveryInType(t, NoLogic) && GoodDecls(ps) && EveryInDecls(ps, NoLogic) && (comma ==> ps != NoDecls)
    && (x.kind == LBrack ==> HasSuffix(t))
    && At(ts, i, YieldSignature(t, x, ps, comma)) && j == i + |YieldSignature(t, x, ps, comma)|
    && BuildSignature(t, x, ps) == n
  }

  lemma SoundSignature(ts: seq<Token>, i: nat) returns (t: Type, x: Token, ps: Decls, comma: bool)
    requires Proper(ts) && i < |ts| && IsTypename(ts[i].kind) && Signature(ts, i).Ok?
    ensures var p := Signature(ts, i).value; SignatureAt(t, x, ps, comma, ts, i, p.node, p.next)
  {
    hide TypeName, DeclList, TypeAt, DeclsAt, SignatureAt, Signature, IsTypename;
    SignatureParts(ts, i);
    var u := TypeName(ts, i).value;
    t := SoundTypeName(ts, i);
    x := ts[u.next];
    assert ProperToken(ts[u.next + 1]) && ProperToken(ts[u.next + 2]);
    if ts[u.next + 2].kind == RParen {
      ps, comma := NoDecls, false;
      NoDeclsAt(false, ts, u.next + 2);
      SignatureIsAt(t, ps, comma, ts, i, u, Parsed(Null, u.next + 2));
    } else {
      var q := DeclList(false, ts, u.next + 2).value;
      assert ProperToken(ts[q.next]);
      ps, comma := SoundDecls(false, ts, u.next + 2);
      SignatureIsAt(t, ps, comma, ts, i, u, q);
    }
  }

  lemma SignatureParts(ts: seq<Token>, i: nat)
    requires i < |ts| && IsTypename(ts[i].kind) && Signature(ts, i).Ok?
    ensures TypeName(ts, i).Ok? && TypeName(ts, i).value.node != Null && TypeName(ts, i).value.next + 2 < |ts|
    ensures var u := TypeName(ts, i).value;
            var pair := Mk(DeclTypeVarnamePair, u.node, Leaf(ConstVarname, ts[u.next].value));
            && ts[u.next + 1].kind == LParen
            && (ts[u.next + 2].kind == RParen
                ==> Signature(ts, i) == Ok(Parsed(Mk(DeclFunctionSignature, pair, Null), u.next + 3)))
            && (ts[u.next + 2].kind != RParen ==>
                  && DeclList(false, ts, u.next + 2).Ok?
                  && var q := DeclList(false, ts, u.next + 2).value;
                     && Look(ts, q.next) == RParen
                     && Signature(ts, i) == Ok(Parsed(Mk(DeclFunctionSignature, pair, q.node), q.next + 1)))
  {
    hide TypeName, DeclList;
  }

  lemma SignatureIsAt(t: Type, ps: Decls, comma: bool, ts: seq<Token>, i: nat, u: Parsed, q: Parsed)
    requires TypeAt(t, ts, i, u.node, u.next) && u.next + 1 < |ts| && ts[u.next + 1] == Sym(LParen)
    requires Look(ts, u.next) == LBrack ==> HasSuffix(t)
    requires DeclsAt(false, ps, comma, ts, u.next + 2, q.node, q.next) && q.next < |ts| && ts[q.next] == Sym(RParen)
    ensures SignatureAt(t, ts[u.next], ps, comma, ts, i,
                        Mk(DeclFunctionSignature, Mk(DeclTypeVarnamePair, u.node, Leaf(ConstVarname, ts[u.next].value)),
                           q.node), q.next + 1)
  {
    var x := ts[u.next];
    assert At(ts, u.next, [x, Sym(LParen)]);
    hide At, YieldType, YieldParams, BuildType, BuildDecls, GoodType, GoodDecls, EveryInType, EveryInDecls, HasSuffix;
    Enclosed(ts, u.next, [x, Sym(LParen)], YieldParams(ps, comma), RParen);
    AtSplit(ts, i, YieldType(t), [x, Sym(LParen)] + (YieldParams(ps, comma) + [Sym(RParen)]));
  }

  /** The lookahead that found a function is one into its type, name and parenthesis. */
  lemma AheadOf(t: Type, x: Token, ps: Decls, comma: bool, ts: seq<Token>, i: nat, n: Node, j: nat)
    requires SignatureAt(t, x, ps, comma, ts, i, n, j) && i + 1 < |ts|
    requires !(ts[i].kind == Ident && ts[i + 1].kind in {Equal, Dot})
    requires Look(ts, i + Offset(ts[i].kind, ts[i + 1].kind)) == LParen
    ensures FunctionAhead(t, x)
  {
    hide YieldParams, BuildType, BuildDecls, GoodType, GoodDecls, EveryInType, EveryInDecls, YieldType, At, HasSuffix;
    var y := YieldType(t) + [x, Sym(LParen)];
    assert YieldSignature(t, x, ps, comma) == y + (YieldParams(ps, comma) + [Sym(RParen)]);
    AtSplit(ts, i, y, YieldParams(ps, comma) + [Sym(RParen)]);
    AtIndex(ts, i, y, 0);
    AtIndex(ts, i, y, 1);
    ShortTypes(t);
    var o := Offset(y[0].kind, y[1].kind);
    if o < |y| {
      AtIndex(ts, i, y, o);
    } else {
      AfterParenthesis(ps, comma, ts, i + |y|);
    }
  }

  lemma ShortTypes(t: Type)
    ensures |YieldType(t)| == 1 ==> YieldType(t)[0].kind != WordRef && YieldType(t)[0].kind != WordConst
    ensures |YieldType(t)| == 2 ==> YieldType(t)[1].kind != WordRef
  {
    if t.RefTo? || t.ConstOf? {
      assert YieldType(t)[1] == YieldType(t.target)[0];
      if t.target.RefTo? || t.target.ConstOf? {
        assert |YieldType(t.target)| > 1;
      }
    }
  }

  /** No parameter list begins with a parenthesis. */
  lemma AfterParenthesis(ps: Decls, comma: bool, ts: seq<Token>, i: nat)
    requires At(ts, i, YieldParams(ps, comma) + [Sym(RParen)])
    ensures Look(ts, i) != LParen
  {
    AtIndex(ts, i, YieldParams(ps, comma) + [Sym(RParen)], 0);
    if ps != NoDecls {
      TypeStarts(ps.head.ty);
      assert YieldParams(ps, comma)[0] == YieldDecl(ps.head)[0] == YieldType(ps.head.ty)[0];
    }
  }

  // ----- statements that hold blocks

  lemma {:induction false} SoundFunction(ts: seq<Token>, i: nat, b: Block) returns (s: Statement)
    requires Proper(ts) && i + 1 < |ts| && IsTypename(ts[i].kind) && Function(ts, i).Ok?
    requires !(ts[i].kind == Ident && ts[i + 1].kind in {Equal, Dot})
    requires Look(ts, i + Offset(ts[i].kind, ts[i + 1].kind)) == LParen
    ensures s.SFunc?
    ensures var p := Function(ts, i).value; StmtAt(s, ts, i, b, p.node, p.next)
    decreases |ts| - i, 2
  {
    hide Function, Signature, BlockOf, SignatureAt, BlockAt, StmtAt, Offset, IsTypename, Proper;
    FunctionParts(ts, i);
    var sig := Signature(ts, i).value;
    var t, x, ps, comma := SoundSignature(ts, i);
    AheadOf(t, x, ps, comma, ts, i, sig.node, sig.next);
    var body := SoundBlock(ts, sig.next, FuncBlock);
    s := SFunc(t, x, ps, comma, body);
    FunctionAt(s, ts, i, b, sig, BlockOf(ts, sig.next, FuncBlock).value);
  }

  lemma FunctionParts(ts: seq<Token>, i: nat)
    requires Function(ts, i).Ok?
    ensures Signature(ts, i).Ok? && BlockOf(ts, Signature(ts, i).value.next, FuncBlock).Ok?
    ensures var sig := Signature(ts, i).value;
            var body := BlockOf(ts, sig.next, FuncBlock).value;
            Function(ts, i) == Ok(Parsed(Mk(DeclFunction, sig.node, body.node), body.next))
  {
    hide Signature, BlockOf;
  }

  lemma FunctionAt(s: Statement, ts: seq<Token>, i: nat, b: Block, sig: Parsed, body: Parsed)
    requires s.SFunc? && SignatureAt(s.ty, s.token, s.params, s.comma, ts, i, sig.node, sig.next)
             && FunctionAhead(s.ty, s.token)
    requires BlockAt(s.body, ts, sig.next, FuncBlock, body.node, body.next)
    ensures StmtAt(s, ts, i, b, Mk(DeclFunction, sig.node, body.node), body.next)
  {
    hide At, FunctionAhead, YieldType, YieldParams, YieldBlock, BuildType, BuildDecls, BuildStmts, GoodType, GoodDecls,
         AcceptedAll, EveryInType, EveryInDecls, EveryIn;
    var signature := YieldSignature(s.ty, s.token, s.params, s.comma);
    AtSplit(ts, i, signature, YieldBlock(s.body));
    assert signature + YieldBlock(s.body) == YieldStmt(s);
  }

  lemma {:induction false} SoundWhile(ts: seq<Token>, i: nat, b: Block) returns (s: Statement)
    requires Proper(ts) && b != NoBlock && i < |ts| && ts[i].kind == WordWhile && While(ts, i).Ok?
    ensures s.SWhile?
    ensures var p := While(ts, i).value; StmtAt(s, ts, i, b, p.node, p.next)
    decreases |ts| - i, 2
  {
    hide While, Condition, BlockOf, BlockAt, StmtAt;
    assert ProperToken(ts[i]);
    hide Proper;
    WhilePartsOf(ts, i);
    var c := SoundCondition(ts, i);
    var body := SoundBlock(ts, Condition(ts, i).value.next, LoopBlock);
    s := SWhile(c, body);
    WhileAt(c, body, ts, i, b, Condition(ts, i).value, BlockOf(ts, Condition(ts, i).value.next, LoopBlock).value);
  }

  lemma WhilePartsOf(ts: seq<Token>, i: nat)
    requires While(ts, i).Ok?
    ensures Condition(ts, i).Ok? && BlockOf(ts, Condition(ts, i).value.next, LoopBlock).Ok?
    ensures var c := Condition(ts, i).value;
            var body := BlockOf(ts, c.next, LoopBlock).value;
            While(ts, i) == Ok(Parsed(Mk(StmtWhile, c.node, body.node), body.next))
  {
    hide Condition, BlockOf;
  }

  lemma WhileAt(c: Expr, body: Statements, ts: seq<Token>, i: nat, b: Block, q: Parsed, r: Parsed)
    requires b != NoBlock && i < |ts| && ts[i] == Sym(WordWhile) && GoodExpr(c) && NoLogic(c)
    requires At(ts, i + 1, YieldCondition(c)) && q.next == i + 1 + |YieldCondition(c)| && Build(c) == q.node
    requires BlockAt(body, ts, q.next, LoopBlock, r.node, r.next)
    ensures StmtAt(SWhile(c, body), ts, i, b, Mk(StmtWhile, q.node, r.node), r.next)
  {
    hide At, GoodExpr, NoLogic, YieldCondition, Build, YieldBlock, BuildStmts, AcceptedAll, EveryIn;
    AtOne(ts, i, Sym(WordWhile));
    AtSplit(ts, i + 1, YieldCondition(c), YieldBlock(body));
    AtSplit(ts, i, [Sym(WordWhile)], YieldCondition(c) + YieldBlock(body));
  }

  lemma {:induction false} SoundBranch(kind: NodeKind, ts: seq<Token>, i: nat, b: Block) returns (g: Guarded)
    requires Proper(ts) && Branch(kind, ts, i, b).Ok?
    ensures var p := Branch(kind, ts, i, b).value; GuardedAt(g, kind, ts, i + 1, b, p.node, p.next)
    decreases |ts| - i, 2
  {
    hide Branch, Condition, BlockOf, Alternative, BlockAt, GuardedAt, ElseAt, Proper;
    BranchCondition(kind, ts, i, b);
    BranchBody(kind, ts, i, b);
    var c := Condition(ts, i).value;
    var q := BlockOf(ts, c.next, b).value;
    BranchAlternative(kind, ts, i, b, c, q);
    var cond := SoundCondition(ts, i);
    var body := SoundBlock(ts, c.next, b);
    if ts[q.next].kind in {WordElse, WordElseIf} {
      var alt := SoundAlternative(ts, q.next, b);
      g := Guarded(cond, body, alt);
      WithElse(g, kind, ts, i, b, c, q, Alternative(ts, q.next, b).value);
    } else {
      g := Guarded(cond, body, NoElse);
      WithoutElse(cond, body, kind, ts, i, b, c, q);
    }
  }

  lemma WithoutElse(e: Expr, p: Statements, kind: NodeKind, ts: seq<Token>, i: nat, b: Block, c: Parsed, q: Parsed)
    requires GoodExpr(e) && NoLogic(e) && At(ts, i + 1, YieldCondition(e)) && c.next == i + 1 + |YieldCondition(e)|
    requires Build(e) == c.node && BlockAt(p, ts, c.next, b, q.node, q.next) && NoElseAt(ts, q.next)
    ensures GuardedAt(Guarded(e, p, NoElse), kind, ts, i + 1, b, Mk(kind, c.node, q.node), q.next)
  {
    hide At, GoodExpr, NoLogic, YieldCondition, Build, YieldBlock, BuildStmts, AcceptedAll, EveryIn;
    AtSplit(ts, i + 1, YieldCondition(e), YieldBlock(p));
    assert YieldBlock(p) + [] == YieldBlock(p);
    var g := Guarded(e, p, NoElse);
    assert AcceptedElse(g.alt, b) && EveryInElse(g.alt, NoLogic) && YieldElse(g.alt) == [] && BuildElse(g.alt) == Null;
  }

  lemma WithElse(g: Guarded, kind: NodeKind, ts: seq<Token>, i: nat, b: Block, c: Parsed, q: Parsed, r: Parsed)
    requires GoodExpr(g.cond) && NoLogic(g.cond) && At(ts, i + 1, YieldCondition(g.cond))
             && c.next == i + 1 + |YieldCondition(g.cond)|
    requires Build(g.cond) == c.node && BlockAt(g.body, ts, c.next, b, q.node, q.next)
             && ElseAt(g.alt, ts, q.next, b, r.node, r.next)
    ensures GuardedAt(g, kind, ts, i + 1, b, Mk(kind, c.node, AttachElse(q.node, r.node)), r.next)
  {
    hide At, GoodExpr, NoLogic, YieldCondition, Build, YieldBlock, BuildStmts, AcceptedAll, EveryIn, YieldElse,
         AcceptedElse, EveryInElse, BuildElse, AttachElse;
    AtSplit(ts, q.next, YieldElse(g.alt), []);
    AtSplit(ts, c.next, YieldBlock(g.body), YieldElse(g.alt));
    AtSplit(ts, i + 1, YieldCondition(g.cond), YieldBlock(g.body) + YieldElse(g.alt));
    GuardedNode(kind, g);
  }

  lemma {:induction false} SoundAlternative(ts: seq<Token>, i: nat, b: Block) returns (alt: ElsePart)
    requires Proper(ts) && i < |ts| && ts[i].kind in {WordElse, WordElseIf} && Alternative(ts, i, b).Ok?
    ensures var p := Alternative(ts, i, b).value; ElseAt(alt, ts, i, b, p.node, p.next)
    decreases |ts| - i, 4
  {
    hide Alternative, Branch, BlockOf, BlockAt, GuardedAt, ElseAt;
    assert ProperToken(ts[i]);
    hide Proper;
    ElsePartIs(ts, i, b);
    if ts[i].kind == WordElseIf {
      var g := SoundBranch(StmtElseIf, ts, i, b);
      alt := ElseIf(g);
      ElseIfAt(g, ts, i, b, Branch(StmtElseIf, ts, i, b).value);
    } else {
      var body := SoundBlock(ts, i + 1, b);
      alt := ElseBlock(body);
      ElseBlockAt(body, ts, i, b, BlockOf(ts, i + 1, b).value);
    }
  }

  lemma ElseIfAt(g: Guarded, ts: seq<Token>, i: nat, b: Block, r: Parsed)
    requires i < |ts| && ts[i] == Sym(WordElseIf) && GuardedAt(g, StmtElseIf, ts, i + 1, b, r.node, r.next)
    ensures ElseAt(ElseIf(g), ts, i, b, r.node, r.next)
  {
    hide At, YieldGuarded, BuildGuarded, AcceptedGuarded, EveryInGuarded, OpenGuarded;
    AtOne(ts, i, Sym(WordElseIf));
    AtSplit(ts, i, [Sym(WordElseIf)], YieldGuarded(g));
  }

  lemma ElseBlockAt(p: Statements, ts: seq<Token>, i: nat, b: Block, r: Parsed)
    requires i < |ts| && ts[i] == Sym(WordElse) && BlockAt(p, ts, i + 1, b, r.node, r.next)
    ensures ElseAt(ElseBlock(p), ts, i, b, Mk(StmtElse, Null, r.node), r.next)
  {
    hide At, YieldBlock, BuildStmts, AcceptedAll, EveryIn;
    AtOne(ts, i, Sym(WordElse));
    AtSplit(ts, i, [Sym(WordElse)], YieldBlock(p));
  }

  lemma {:induction false} SoundIf(ts: seq<Token>, i: nat, b: Block) returns (s: Statement)
    requires Proper(ts) && b != NoBlock && i < |ts| && ts[i].kind == WordIf && If(ts, i, b).Ok?
    ensures s.SIf?
    ensures var p := If(ts, i, b).value; StmtAt(s, ts, i, b, p.node, p.next)
    decreases |ts| - i, 3
  {
    hide If, Branch, GuardedAt, StmtAt;
    assert ProperToken(ts[i]);
    hide Proper;
    IfIs(ts, i, b);
    var g := SoundBranch(StmtIf, ts, i, b);
    s := SIf(g);
    IfAt(g, ts, i, b, Branch(StmtIf, ts, i, b).value);
  }

  lemma IfAt(g: Guarded, ts: seq<Token>, i: nat, b: Block, r: Parsed)
    requires b != NoBlock && i < |ts| && ts[i] == Sym(WordIf) && GuardedAt(g, StmtIf, ts, i + 1, b, r.node, r.next)
    ensures StmtAt(SIf(g), ts, i, b, r.node, r.next)
  {
    hide At, YieldGuarded, BuildGuarded, AcceptedGuarded, EveryInGuarded, OpenGuarded;
    AtOne(ts, i, Sym(WordIf));
    AtSplit(ts, i, [Sym(WordIf)], YieldGuarded(g));
  }

  lemma {:induction false} SoundBlock(ts: seq<Token>, i: nat, b: Block) returns (p: Statements)
    requires Proper(ts) && BlockOf(ts, i, b).Ok?
    ensures var r := BlockOf(ts, i, b).value; BlockAt(p, ts, i, b, r.node, r.next)
    decreases |ts| - i, 1
  {
    hide Sequence, BlockAt, StmtsAt, StopsAt;
    assert ProperToken(ts[i]) && ProperToken(ts[i + 1]);
    if ts[i + 1].kind == RCurly {
      p := NoStatements;
      EmptyAt(ts, i + 1, b);
      InBracesAt(p, ts, i, b, Parsed(Null, i + 1));
    } else {
      var q := Sequence(ts, i + 1, b).value;
      assert ProperToken(ts[q.next]);
      p := SoundSequence(ts, i + 1, b);
      InBracesAt(p, ts, i, b, q);
    }
  }

  lemma EmptyAt(ts: seq<Token>, i: nat, b: Block)
    requires i <= |ts|
    ensures StmtsAt(NoStatements, ts, i, b, Null, i)
  {
  }

  lemma InBracesAt(p: Statements, ts: seq<Token>, i: nat, b: Block, q: Parsed)
    requires i < |ts| && ts[i] == Sym(LCurly) && StmtsAt(p, ts, i + 1, b, q.node, q.next) && q.next < |ts|
             && ts[q.next] == Sym(RCurly)
    ensures BlockAt(p, ts, i, b, q.node, q.next + 1)
  {
    hide At, YieldStmts, BuildStmts, AcceptedAll, EveryIn;
    AtOne(ts, i, Sym(LCurly));
    Enclosed(ts, i, [Sym(LCurly)], YieldStmts(p), RCurly);
  }

  // ----- statements and their sequences

  /** An absent statement is one that does not begin here. */
  lemma NothingHere(ts: seq<Token>, i: nat, b: Block)
    requires i < |ts| && StmtParser.Statement(ts, i, b).Ok? && StmtParser.Statement(ts, i, b).value.node == Null
    ensures NothingBegins(ts, i, b)
  {
    hide If, While, Assign, MemberAssign, Function, VarDecl, Keyword, Return, Struct, Offset;
  }

  lemma StatementNode(ts: seq<Token>, i: nat, b: Block)
    requires StmtParser.Statement(ts, i, b).Ok? && StmtParser.Statement(ts, i, b).value.node != Null
    ensures var n := StmtParser.Statement(ts, i, b).value.node; n == Mk(Stmt, n.left, Null)
  {
    hide If, While, Assign, MemberAssign, Function, VarDecl, Keyword, Return, Struct, Offset;
  }

  lemma SequenceNode(ts: seq<Token>, i: nat, b: Block)
    requires Sequence(ts, i, b).Ok?
    ensures var q := StmtParser.Statement(ts, i, b);
            && q.Ok?
            && (q.value.node == Null ==> Sequence(ts, i, b) == Ok(Parsed(Null, i)))
            && (q.value.node != Null ==>
                  var n := q.value.node.left;
                  if q.value.next < |ts| then
                    var rest := Sequence(ts, q.value.next, b);
                    rest.Ok? && Sequence(ts, i, b) == Ok(Parsed(Mk(Stmt, n, rest.value.node), rest.value.next))
                  else Sequence(ts, i, b) == Ok(Parsed(Mk(Stmt, n, Null), q.value.next)))
  {
    hide StmtParser.Statement;
    if StmtParser.Statement(ts, i, b).Ok? && StmtParser.Statement(ts, i, b).value.node != Null {
      StatementNode(ts, i, b);
    }
  }

  lemma {:induction false} SoundStatement(ts: seq<Token>, i: nat, b: Block) returns (s: Statement)
    requires Proper(ts) && i < |ts| && !Dotted(ts, i)
    requires StmtParser.Statement(ts, i, b).Ok? && StmtParser.Statement(ts, i, b).value.node != Null
    ensures i == 0 ==> !s.SAssign?
    ensures var p := StmtParser.Statement(ts, i, b).value; StmtAt(s, ts, i, b, p.node.left, p.next)
    decreases |ts| - i, 5
  {
    hide StmtParser.Statement, If, While, Assign, MemberAssign, Function, VarDecl, Keyword, Return, Struct, Proper,
         Dotted, StmtAt, Offset;
    StatementIsKeyword(ts, i, b);
    var k := ts[i].kind;
    if k == Ident && Look(ts, i + 1) == Equal {
      s := SoundAssignStmt(ts, i, b);
    } else if k == Ident && Look(ts, i + 1) == Dot {
      s := SoundMemberStmt(ts, i, b);
    } else {
      StatementIsNone(ts, i, b);
      if IsTypename(k) {
        StatementIs(ts, i, b);
        if Look(ts, i + Offset(k, ts[i + 1].kind)) == LParen {
          s := SoundFunction(ts, i, b);
        } else {
          s := SoundVarStmt(ts, i, b);
        }
      } else {
        s := SoundWord(ts, i, b);
      }
    }
  }

  /** A statement that begins with a keyword. */
  lemma {:induction false} SoundWord(ts: seq<Token>, i: nat, b: Block) returns (s: Statement)
    requires Proper(ts) && i < |ts| && BeginsIn(ts[i].kind, b)
    requires StmtParser.Statement(ts, i, b).Ok?
    ensures !s.SAssign?
    ensures var p := StmtParser.Statement(ts, i, b).value; StmtAt(s, ts, i, b, p.node.left, p.next)
    decreases |ts| - i, 4
  {
    hide StmtParser.Statement, If, While, Assign, MemberAssign, Function, VarDecl, Keyword, Return, Struct, Proper,
         StmtAt;
    StatementIsKeyword(ts, i, b);
    SoundKeyword(ts, i);
    match ts[i].kind {
      case WordIf => s := SoundIf(ts, i, b);
      case WordWhile => s := SoundWhile(ts, i, b);
      case WordReturn => s := SoundReturn(ts, i);
      case WordStruct => s := SoundStruct(ts, i);
      case WordBreak => s := SBreak;
      case _ => s := SContinue;
    }
  }

  /** Soundness: the statements a sequence consumes, and what stops it. */
  lemma {:induction false} SoundSequence(ts: seq<Token>, i: nat, b: Block) returns (p: Statements)
    requires Proper(ts) && !Dotted(ts, i) && Sequence(ts, i, b).Ok?
    ensures i == 0 ==> !(p.Statements? && p.head.SAssign?)
    ensures var r := Sequence(ts, i, b).value; StmtsAt(p, ts, i, b, r.node, r.next) && StopsAt(p, ts, r.next, b)
    decreases |ts| - i, 6
  {
    hide StmtParser.Statement, Sequence, Proper, Dotted, StmtAt, StmtsAt, StopsAt;
    SequenceNode(ts, i, b);
    var q := StmtParser.Statement(ts, i, b);
    if i >= |ts| {
      PastTheEnd(ts, i, b);
    } else if q.value.node == Null {
      p := NoStatements;
      NothingHere(ts, i, b);
      EmptyAt(ts, i, b);
      EmptyStops(ts, i, b);
    } else {
      var s := SoundStatement(ts, i, b);
      var rest, r := NoStatements, Parsed(Null, q.value.next);
      if q.value.next < |ts| {
        BehindStatement(s, ts, i, b, q.value);
        rest := SoundSequence(ts, q.value.next, b);
        r := Sequence(ts, q.value.next, b).value;
      } else {
        EmptyAt(ts, q.value.next, b);
      }
      p := Statements(s, rest);
      ConsAt(s, rest, ts, i, b, q.value, r);
      ConsStops(s, rest, ts, i, b, q.value, r);
    }
  }

  lemma EmptyStops(ts: seq<Token>, i: nat, b: Block)
    requires i < |ts| && NothingBegins(ts, i, b)
    ensures StopsAt(NoStatements, ts, i, b)
  {
  }

  lemma BehindStatement(s: Statement, ts: seq<Token>, i: nat, b: Block, q: Parsed)
    requires q.node.Node? && StmtAt(s, ts, i, b, q.node.left, q.next)
    ensures !Dotted(ts, q.next)
  {
    hide At, YieldStmt, Accepted, EveryInStmt, Dotted;
    NotDottedAfter(s, ts, i);
  }

  lemma ConsAt(s: Statement, rest: Statements, ts: seq<Token>, i: nat, b: Block, q: Parsed, r: Parsed)
    requires q.node.Node? && StmtAt(s, ts, i, b, q.node.left, q.next) && StmtsAt(rest, ts, q.next, b, r.node, r.next)
    ensures StmtsAt(Statements(s, rest), ts, i, b, Mk(Stmt, q.node.left, r.node), r.next)
  {
    hide At, YieldStmt, Accepted, EveryInStmt, BuildStmt, OpenIf;
    AtSplit(ts, i, YieldStmt(s), YieldStmts(rest));
  }

  lemma ConsStops(s: Statement, rest: Statements, ts: seq<Token>, i: nat, b: Block, q: Parsed, r: Parsed)
    requires q.node.Node? && StmtAt(s, ts, i, b, q.node.left, q.next) && StmtsAt(rest, ts, q.next, b, r.node, r.next)
    requires if q.next < |ts| then StopsAt(rest, ts, r.next, b) else rest == NoStatements
    ensures StopsAt(Statements(s, rest), ts, r.next, b)
  {
    hide At, YieldStmt, Accepted, EveryInStmt, BuildStmt, OpenIf, NothingBegins;
  }

  // ----- exactly what is parsed

  /** The tokens from `i` to `j` are the writing of the program `p` in a block, `n` is its
      tree, and what stands at `j` does not continue it. A plain assignment cannot stand
      at the very beginning, where there is no token before it. */
  predicate ReadsAs(p: Statements, ts: seq<Token>, i: nat, b: Block, n: Node, j: nat) {
    && StmtsAt(p, ts, i, b, n, j) && StopsAt(p, ts, j, b)
    && (i == 0 ==> !(p.Statements? && p.head.SAssign?))
  }

  lemma {:induction false} ReadsAsIsParsed(p: Statements, ts: seq<Token>, i: nat, b: Block, n: Node, j: nat)
    requires !Dotted(ts, i) && ReadsAs(p, ts, i, b, n, j)
    ensures Sequence(ts, i, b) == Ok(Parsed(n, j))
  {
    hide Sequence, AcceptedAll, EveryIn, At, YieldStmts, BuildStmts, StopsAt;
    StmtsDone(p, ts, i, b);
  }

  /** The parser's statement sequences, exactly: it succeeds with a tree and a cursor if
      and only if the tokens up to there are the writing of an accepted program with that
      tree and no statement goes on behind it. */
  lemma {:induction false} SequenceCharacterised(ts: seq<Token>, i: nat, b: Block, n: Node, j: nat)
    requires Proper(ts) && !Dotted(ts, i)
    ensures Sequence(ts, i, b) == Ok(Parsed(n, j)) <==> exists p :: ReadsAs(p, ts, i, b, n, j)
  {
    hide Sequence, Proper, Dotted, StmtsAt, StopsAt;
    if Sequence(ts, i, b) == Ok(Parsed(n, j)) {
      var p := SoundSequence(ts, i, b);
      assert ReadsAs(p, ts, i, b, n, j);
    }
    if p :| ReadsAs(p, ts, i, b, n, j) {
      ReadsAsIsParsed(p, ts, i, b, n, j);
    }
  }

  /** The whole parser, exactly. It does not ask for the end of the input: what no
      statement begins with is left unread. */
  lemma {:induction false} ProgramCharacterised(ts: seq<Token>, n: Node)
    requires Proper(ts)
    ensures Program(ts) == Ok(n) <==> if ts == [] then n == Null else exists p, j :: ReadsAs(p, ts, 0, NoBlock, n, j)
  {
    hide Sequence, Proper, ReadsAs;
    if ts != [] {
      var r := Sequence(ts, 0, NoBlock);
      if r.Ok? {
        SequenceCharacterised(ts, 0, NoBlock, r.value.node, r.value.next);
      }
      if p, j :| ReadsAs(p, ts, 0, NoBlock, n, j) {
        SequenceCharacterised(ts, 0, NoBlock, n, j);
      }
    }
  }

  /** The written language has one reading: accepted programs with the same tokens have
      the same tree. */
  lemma {:induction false} OneReading(p: Statements, q: Statements, b: Block)
    requires AcceptedAll(p, b) && EveryIn(p, NoLogic) && AcceptedAll(q, b) && EveryIn(q, NoLogic)
    requires YieldStmts(p) == YieldStmts(q)
    ensures BuildStmts(p) == BuildStmts(q)
  {
    hide Sequence, AcceptedAll, EveryIn, YieldStmts, BuildStmts, StopsAt;
    var ts := [Sym(Semicolon)] + YieldStmts(p) + [Sym(Eof)];
    var j := 1 + |YieldStmts(p)|;
    assert At(ts, 1, YieldStmts(p));
    StopsAtClose(p, ts, j, b);
    StopsAtClose(q, ts, j, b);
    StmtsDone(p, ts, 1, b);
    StmtsDone(q, ts, 1, b);
  }
}
