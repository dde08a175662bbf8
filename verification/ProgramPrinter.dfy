/** Printing programs: parentheses where, and only where, the levels need them, in every
    expression of a program. */
module ProgramPrinter {
  import opened Outcomes
  import opened Tokens
  import opened Nodes
  import opened Operators
  import opened Syntax
  import opened Printer
  import opened ExprParser
  import opened ExprTheorems
  import opened StmtParser
  import opened Programs

  // ----- a program with the fewest parentheses

  function FitType(t: Type): Type {
    match t
    case Base(_) => t
    case User(_) => t
    case RefTo(u) => RefTo(FitType(u))
    case ConstOf(u) => ConstOf(FitType(u))
    case ArrayOf(u) => ArrayOf(FitType(u))
    case SizedOf(u, e) => SizedOf(FitType(u), Fit(e, OR, false))
  }

  function FitDecl(d: Decl): Decl {
    Decl(FitType(d.ty), d.name, if d.init.Some? then Some(Fit(d.init.value, OR, false)) else None)
  }

  function FitDecls(ds: Decls): Decls {
    if ds == NoDecls then NoDecls else Decls(FitDecl(ds.head), FitDecls(ds.rest))
  }

  function FitStmt(s: Statement): Statement {
    match s
    case SAssign(x, e) => SAssign(x, Fit(e, OR, false))
    case SMember(x, t, e) => SMember(x, Fit(t, FACTOR, true), Fit(e, OR, false))
    case SVar(d) => SVar(FitDecl(d))
    case SFunc(t, x, ps, comma, body) => SFunc(FitType(t), x, FitDecls(ps), comma, FitStmts(body))
    case SStruct(x, ms, open) => SStruct(x, FitDecls(ms), open)
    case SIf(g) => SIf(FitGuarded(g))
    case SWhile(c, body) => SWhile(Fit(c, OR, false), FitStmts(body))
    case SBreak => SBreak
    case SContinue => SContinue
    case SReturn(e) => SReturn(Fit(e, OR, false))
  }

  function FitElse(alt: ElsePart): ElsePart {
    match alt
    case NoElse => NoElse
    case ElseBlock(body) => ElseBlock(FitStmts(body))
    case ElseIf(g) => ElseIf(FitGuarded(g))
  }

  function FitGuarded(g: Guarded): Guarded {
    Guarded(Fit(g.cond, OR, false), FitStmts(g.body), FitElse(g.alt))
  }

  function FitStmts(p: Statements): Statements {
    match p
    case NoStatements => NoStatements
    case Statements(s, rest) => Statements(FitStmt(s), FitStmts(rest))
  }

  // ----- programs that can be printed

  /** Like `GoodType`, for any source expression as a size. */
  predicate SourceType(t: Type) {
    match t
    case Base(_) => true
    case User(_) => true
    case RefTo(u) => SourceType(u)
    case ConstOf(u) => SourceType(u)
    case ArrayOf(u) => SourceType(u) && TakesSuffix(u)
    case SizedOf(u, e) => SourceType(u) && TakesSuffix(u) && Source(e)
  }

  predicate SourceDecl(d: Decl) {
    SourceType(d.ty) && (d.init.Some? ==> Source(d.init.value))
  }

  predicate SourceDecls(ds: Decls) {
    ds == NoDecls || (SourceDecl(ds.head) && SourceDecls(ds.rest))
  }

  /** Like `Accepted`, for any source expressions: where parentheses are needed is left to
      the printer. */
  predicate Printable(s: Statement, b: Block) {
    match s
    case SAssign(_, e) => Source(e)
    case SMember(_, t, e) => Source(t) && Source(e)
    case SVar(d) => Classified(d.ty) && SourceDecl(d)
    case SFunc(t, x, ps, comma, body) =>
      && SourceType(t) && FunctionAhead(FitType(t), x) && SourceDecls(ps) && (comma ==> ps != NoDecls)
      && PrintableAll(body, FuncBlock)
    case SStruct(_, ms, open) => b == NoBlock && SourceDecls(ms) && (open ==> ms != NoDecls)
    case SIf(g) => b != NoBlock && PrintableGuarded(g, b)
    case SWhile(c, body) => b != NoBlock && Source(c) && PrintableAll(body, LoopBlock)
    case SBreak => b == LoopBlock
    case SContinue => b == LoopBlock
    case SReturn(e) => b == FuncBlock && Source(e)
  }

  predicate PrintableElse(alt: ElsePart, b: Block) {
    match alt
    case NoElse => true
    case ElseBlock(body) => PrintableAll(body, b)
    case ElseIf(g) => PrintableGuarded(g, b)
  }

  predicate PrintableGuarded(g: Guarded, b: Block) {
    Source(g.cond) && PrintableAll(g.body, b) && PrintableElse(g.alt, b)
  }

  predicate PrintableAll(p: Statements, b: Block) {
    p == NoStatements || (Printable(p.head, b) && PrintableAll(p.rest, b))
  }

  // ----- the print is accepted and has the same tree

  lemma FitExpr(e: Expr)
    requires Source(e)
    ensures GoodExpr(Fit(e, OR, false)) && Build(Fit(e, OR, false)) == Build(e)
            && (NoLogic(Fit(e, OR, false)) <==> NoLogic(e))
  {
    FitFits(e, OR, false);
    FitStrips(e, OR, false);
    SameTree(Fit(e, OR, false), e);
  }

  lemma FitTarget(x: string, t: Expr)
    requires Source(t)
    ensures Source(Fit(t, FACTOR, true)) && Fits(Fit(t, FACTOR, true), FACTOR, true)
    ensures Build(Member(x, Fit(t, FACTOR, true))) == Build(Member(x, t))
            && (NoLogic(Fit(t, FACTOR, true)) <==> NoLogic(t))
  {
    FitFits(t, FACTOR, true);
    FitStrips(t, FACTOR, true);
    SameTree(Fit(t, FACTOR, true), t);
  }

  lemma SameShape(t: Type)
    ensures HasSuffix(FitType(t)) == HasSuffix(t) && TakesSuffix(FitType(t)) == TakesSuffix(t)
            && Simple(FitType(t)) == Simple(t)
    ensures Classified(FitType(t)) == Classified(t)
  {
    match t
    case RefTo(u) => SamePrefixed(u);
    case ConstOf(u) => SamePrefixed(u);
    case _ =>
  }

  lemma SamePrefixed(u: Type)
    ensures Simple(FitType(u)) == Simple(u) && (FitType(u).RefTo? <==> u.RefTo?)
    ensures u.RefTo? ==> FitType(u).target == FitType(u.target) && Simple(FitType(u.target)) == Simple(u.target)
  {
  }

  lemma {:induction false} FitTypeDone(t: Type)
    requires SourceType(t)
    ensures GoodType(FitType(t)) && BuildType(FitType(t)) == BuildType(t)
    ensures EveryInType(FitType(t), NoLogic) <==> EveryInType(t, NoLogic)
  {
    hide Fit, NoLogic, Source, GoodExpr, Build, Classified, TakesSuffix;
    match t
    case Base(_) =>
    case User(_) =>
    case RefTo(u) => FitTypeDone(u);
    case ConstOf(u) => FitTypeDone(u);
    case ArrayOf(u) => FitTypeDone(u); SameShape(u);
    case SizedOf(u, e) => FitTypeDone(u); SameShape(u); FitExpr(e);
  }

  lemma FitDeclDone(d: Decl)
    requires SourceDecl(d)
    ensures GoodDecl(FitDecl(d)) && BuildDecl(FitDecl(d)) == BuildDecl(d)
    ensures EveryInDecl(FitDecl(d), NoLogic) <==> EveryInDecl(d, NoLogic)
  {
    hide Fit, NoLogic, Source, GoodExpr, Build, SourceType, GoodType, BuildType, EveryInType, FitType;
    FitTypeDone(d.ty);
    if d.init.Some? {
      FitExpr(d.init.value);
    }
  }

  lemma {:induction false} FitDeclsDone(ds: Decls, kind: NodeKind)
    requires SourceDecls(ds)
    ensures GoodDecls(FitDecls(ds)) && BuildDecls(kind, FitDecls(ds)) == BuildDecls(kind, ds)
    ensures EveryInDecls(FitDecls(ds), NoLogic) <==> EveryInDecls(ds, NoLogic)
    decreases ds
  {
    hide SourceDecl, GoodDecl, BuildDecl, EveryInDecl, FitDecl;
    if ds != NoDecls {
      FitDeclDone(ds.head);
      FitDeclsDone(ds.rest, kind);
    }
  }

  /** What printing with the fewest parentheses does to a statement. */
  predicate StmtKept(s: Statement, b: Block) {
    && Accepted(FitStmt(s), b) && BuildStmt(FitStmt(s)) == BuildStmt(s)
    && (EveryInStmt(FitStmt(s), NoLogic) <==> EveryInStmt(s, NoLogic))
  }

  lemma {:induction false} FitStmtDone(s: Statement, b: Block)
    requires Printable(s, b)
    ensures StmtKept(s, b)
    decreases s, 1
  {
    hide Fit, NoLogic, Source, GoodExpr, Build, Fits, SourceType, GoodType, BuildType, EveryInType, FitType,
         FunctionAhead, Classified, SourceDecl, SourceDecls, GoodDecls, BuildDecls, EveryInDecls, FitDecls,
         PrintableAll, AcceptedAll, EveryIn, BuildStmts, FitStmts, PrintableGuarded, AcceptedGuarded, EveryInGuarded,
         BuildGuarded, FitGuarded;
    match s
    case SAssign(_, e) => FitExpr(e);
    case SMember(x, t, e) => FitTarget(x, t); FitExpr(e);
    case SVar(d) => FitDeclDone(d); SameShape(d.ty);
    case SFunc(t, _, ps, _, body) =>
      FitTypeDone(t);
      FitDeclsDone(ps, DeclVarList);
      FitNone(ps);
      FitStmtsDone(body, FuncBlock);
    case SStruct(_, ms, _) => FitDeclsDone(ms, DeclMemberList); FitNone(ms);
    case SIf(g) => FitGuardedDone(g, StmtIf, b);
    case SWhile(c, body) => FitExpr(c); FitStmtsDone(body, LoopBlock);
    case SReturn(e) => FitExpr(e);
    case _ =>
  }

  lemma FitNone(ds: Decls)
    ensures FitDecls(ds) == NoDecls <==> ds == NoDecls
  {
  }

  lemma {:induction false} FitGuardedDone(g: Guarded, kind: NodeKind, b: Block)
    requires PrintableGuarded(g, b)
    ensures AcceptedGuarded(FitGuarded(g), b) && BuildGuarded(kind, FitGuarded(g)) == BuildGuarded(kind, g)
    ensures EveryInGuarded(FitGuarded(g), NoLogic) <==> EveryInGuarded(g, NoLogic)
    decreases g, 1
  {
    hide Fit, NoLogic, Source, GoodExpr, Build, PrintableAll, AcceptedAll, EveryIn, BuildStmts, FitStmts, HangElse;
    FitExpr(g.cond);
    FitStmtsDone(g.body, b);
    match g.alt
    case NoElse =>
    case ElseBlock(body) => FitStmtsDone(body, b);
    case ElseIf(g1) => FitGuardedDone(g1, StmtElseIf, b);
  }

  /** A printable program printed with the fewest parentheses is accepted, and has the tree
      of the program. */
  lemma {:induction false} FitStmtsDone(p: Statements, b: Block)
    requires PrintableAll(p, b)
    ensures AcceptedAll(FitStmts(p), b) && BuildStmts(FitStmts(p)) == BuildStmts(p)
    ensures EveryIn(FitStmts(p), NoLogic) <==> EveryIn(p, NoLogic)
    decreases p, 0
  {
    hide Printable, Accepted, EveryInStmt, BuildStmt, FitStmt;
    if p.Statements? {
      FitStmtDone(p.head, b);
      FitStmtsDone(p.rest, b);
    }
  }

  lemma FitIsAssign(s: Statement)
    ensures FitStmt(s).SAssign? <==> s.SAssign?
  {
  }

  // ----- printing adds parentheses only

  /** Every token of `a` is one of `b` or a parenthesis. */
  predicate Within(a: seq<Token>, b: seq<Token>) {
    forall t :: t in a ==> t in b || t == Sym(LParen) || t == Sym(RParen)
  }

  lemma Joined(a: seq<Token>, b: seq<Token>, c: seq<Token>, d: seq<Token>)
    requires Within(a, b) && Within(c, d)
    ensures Within(a + c, b + d)
  {
  }

  lemma Around(open: seq<Token>, a: seq<Token>, b: seq<Token>, close: seq<Token>)
    requires Within(a, b)
    ensures Within(open + a, open + b) && Within(a + close, b + close) && Within(open + (a + close), open + (b + close))
  {
  }

  lemma {:induction false} FitWithin(e: Expr, lv: nat, dotted: bool)
    ensures Within(Yield(Fit(e, lv, dotted)), Yield(e))
    decreases e, 1
  {
    CoreWithin(e);
    Around([Sym(LParen)], Yield(Core(e)), Yield(e), [Sym(RParen)]);
  }

  lemma {:induction false} CoreWithin(e: Expr)
    ensures Within(Yield(Core(e)), Yield(e))
    decreases e, 0
  {
    hide Within, Fit, FitList, YieldList, YieldIndices, OpTokens;
    Itself(Yield(e));
    match e
    case Member(x, t) =>
      FitWithin(t, FACTOR, true);
      Around([Name(x), Sym(Dot)], Yield(Fit(t, FACTOR, true)), Yield(t), []);
    case Index(x, es) => FitListWithin(es); Around([Name(x)], YieldIndices(FitList(es)), YieldIndices(es), []);
    case StructLit(es) =>
      FitListWithin(es);
      Around([Sym(LCurly)], YieldList(FitList(es)), YieldList(es), [Sym(RCurly)]);
    case ArrayLit(es) => FitListWithin(es); Around([Sym(LBrack)], YieldList(FitList(es)), YieldList(es), [Sym(RBrack)]);
    case Paren(e1) =>
      FitWithin(e1, OR, false);
      Around([Sym(LParen)], Yield(Fit(e1, OR, false)), Yield(e1), [Sym(RParen)]);
    case CallN(x, es) =>
      FitListWithin(es);
      Around([Name(x), Sym(LParen)], YieldList(FitList(es)), YieldList(es), [Sym(RParen)]);
    case Neg(e1) => FitWithin(e1, CALL, false); Around([Sym(Minus)], Yield(Fit(e1, CALL, false)), Yield(e1), []);
    case Bin(op, l, r) =>
      var l', r' := Fit(l, OpLevel(op) - 1, false), Fit(r, OpLevel(op), false);
      FitWithin(l, OpLevel(op) - 1, false);
      FitWithin(r, OpLevel(op), false);
      Around(OpTokens(op), Yield(r'), Yield(r), []);
      Joined(Yield(l'), Yield(l), OpTokens(op) + Yield(r'), OpTokens(op) + Yield(r));
    case NotE(e1) =>
      FitWithin(e1, COMPARE, false);
      Around([Sym(Exclam)], Yield(Fit(e1, COMPARE, false)), Yield(e1), []);
    case _ =>
  }

  lemma Itself(a: seq<Token>)
    ensures Within(a, a)
  {
  }

  lemma {:induction false} FitListWithin(es: Exprs)
    ensures Within(YieldList(FitList(es)), YieldList(es)) && Within(YieldIndices(FitList(es)), YieldIndices(es))
    decreases es, 2
  {
    hide Within, Fit, Yield;
    var e, e' := es.head, Fit(es.head, OR, false);
    FitWithin(e, OR, false);
    Around([Sym(LBrack)], Yield(e'), Yield(e), [Sym(RBrack)]);
    if es.More? {
      var rest, rest' := es.rest, FitList(es.rest);
      FitListWithin(rest);
      Around([Sym(Comma)], YieldList(rest'), YieldList(rest), []);
      Joined(Yield(e'), Yield(e), [Sym(Comma)] + YieldList(rest'), [Sym(Comma)] + YieldList(rest));
      Around([Sym(RBrack)], YieldIndices(rest'), YieldIndices(rest), []);
      Joined(Yield(e'), Yield(e), [Sym(RBrack)] + YieldIndices(rest'), [Sym(RBrack)] + YieldIndices(rest));
      Around([Sym(LBrack)], Yield(e') + ([Sym(RBrack)] + YieldIndices(rest')),
             Yield(e) + ([Sym(RBrack)] + YieldIndices(rest)), []);
    }
  }

  lemma {:induction false} FitTypeWithin(t: Type)
    ensures Within(YieldType(FitType(t)), YieldType(t))
  {
    hide Within, Fit, Yield;
    Itself(YieldType(t));
    match t
    case RefTo(u) => FitTypeWithin(u); Around([Sym(WordRef)], YieldType(FitType(u)), YieldType(u), []);
    case ConstOf(u) => FitTypeWithin(u); Around([Sym(WordConst)], YieldType(FitType(u)), YieldType(u), []);
    case ArrayOf(u) => FitTypeWithin(u); Around([], YieldType(FitType(u)), YieldType(u), [Sym(LBrack), Sym(RBrack)]);
    case SizedOf(u, e) =>
      FitTypeWithin(u);
      FitWithin(e, OR, false);
      var e' := Fit(e, OR, false);
      Around([Sym(LBrack)], Yield(e'), Yield(e), [Sym(RBrack)]);
      Joined(YieldType(FitType(u)), YieldType(u), [Sym(LBrack)] + (Yield(e') + [Sym(RBrack)]),
             [Sym(LBrack)] + (Yield(e) + [Sym(RBrack)]));
    case _ =>
  }

  lemma FitDeclWithin(d: Decl)
    ensures Within(YieldDecl(FitDecl(d)), YieldDecl(d))
  {
    hide Within, Fit, Yield, FitType, YieldType;
    FitTypeWithin(d.ty);
    var d' := FitDecl(d);
    var init := if d.init.Some? then [Sym(Equal)] + Yield(d.init.value) else [];
    var init' := if d'.init.Some? then [Sym(Equal)] + Yield(d'.init.value) else [];
    Itself([]);
    if d.init.Some? {
      FitWithin(d.init.value, OR, false);
      Around([Sym(Equal)], Yield(d'.init.value), Yield(d.init.value), []);
    }
    Around([Name(d.name)], init', init, []);
    Joined(YieldType(d'.ty), YieldType(d.ty), [Name(d.name)] + init', [Name(d.name)] + init);
  }

  lemma {:induction false} FitDeclsWithin(ds: Decls, odd: bool)
    ensures Within(YieldParams(FitDecls(ds), odd), YieldParams(ds, odd))
    ensures Within(YieldMembers(FitDecls(ds), odd), YieldMembers(ds, odd))
  {
    hide Within, FitDecl, YieldDecl;
    Itself([]);
    if ds != NoDecls {
      var d, d', rest, rest' := ds.head, FitDecl(ds.head), ds.rest, FitDecls(ds.rest);
      FitDeclWithin(d);
      FitDeclsWithin(rest, odd);
      FitNone(rest);
      Around([Sym(Comma)], YieldParams(rest', odd), YieldParams(rest, odd), []);
      Joined(YieldDecl(d'), YieldDecl(d), [Sym(Comma)] + YieldParams(rest', odd),
             [Sym(Comma)] + YieldParams(rest, odd));
      Around([], YieldDecl(d'), YieldDecl(d), if odd then [Sym(Comma)] else []);
      Around([Sym(Semicolon)], YieldMembers(rest', odd), YieldMembers(rest, odd), []);
      Joined(YieldDecl(d'), YieldDecl(d), [Sym(Semicolon)] + YieldMembers(rest', odd),
             [Sym(Semicolon)] + YieldMembers(rest, odd));
    }
  }

  lemma {:induction false} FitStmtWithin(s: Statement)
    ensures Within(YieldStmt(FitStmt(s)), YieldStmt(s))
    decreases s, 1
  {
    hide Within, Fit, Yield, FitType, YieldType, FitDecl, YieldDecl, FitDecls, YieldParams, YieldMembers, FitStmts,
         YieldBlock, FitGuarded, YieldGuarded, YieldCondition;
    Itself(YieldStmt(s));
    match s
    case SAssign(x, e) =>
      FitWithin(e, OR, false);
      Around([Name(x), Sym(Equal)], Yield(Fit(e, OR, false)), Yield(e), [Sym(Semicolon)]);
    case SMember(x, t, e) => FitMemberWithin(x, t, e);
    case SVar(d) => FitDeclWithin(d); Around([], YieldDecl(FitDecl(d)), YieldDecl(d), [Sym(Semicolon)]);
    case SFunc(t, x, ps, comma, body) =>
      FitTypeWithin(t);
      FitDeclsWithin(ps, comma);
      FitBlockWithin(body);
      FitFuncWithin(s);
    case SStruct(x, ms, open) =>
      FitDeclsWithin(ms, open);
      Around([Sym(WordStruct), Name(x), Sym(LCurly)], YieldMembers(FitDecls(ms), open), YieldMembers(ms, open),
             [Sym(RCurly)]);
    case SIf(g) => FitGuardedWithin(g); Around([Sym(WordIf)], YieldGuarded(FitGuarded(g)), YieldGuarded(g), []);
    case SWhile(c, body) =>
      FitConditionWithin(c);
      FitBlockWithin(body);
      Joined(YieldCondition(Fit(c, OR, false)), YieldCondition(c), YieldBlock(FitStmts(body)), YieldBlock(body));
      Around([Sym(WordWhile)], YieldCondition(Fit(c, OR, false)) + YieldBlock(FitStmts(body)),
             YieldCondition(c) + YieldBlock(body), []);
    case SReturn(e) =>
      FitWithin(e, OR, false);
      Around([Sym(WordReturn)], Yield(Fit(e, OR, false)), Yield(e), [Sym(Semicolon)]);
    case _ =>
  }

  lemma FitMemberWithin(x: string, t: Expr, e: Expr)
    ensures Within(YieldStmt(FitStmt(SMember(x, t, e))), YieldStmt(SMember(x, t, e)))
  {
    hide Within, Fit, Yield;
    var t', e' := Fit(t, FACTOR, true), Fit(e, OR, false);
    FitWithin(t, FACTOR, true);
    FitWithin(e, OR, false);
    var tail, tail' := [Sym(Equal)] + (Yield(e) + [Sym(Semicolon)]), [Sym(Equal)] + (Yield(e') + [Sym(Semicolon)]);
    Around([Sym(Equal)], Yield(e'), Yield(e), [Sym(Semicolon)]);
    Joined(Yield(t'), Yield(t), tail', tail);
    Around([Name(x), Sym(Dot)], Yield(t') + tail', Yield(t) + tail, []);
  }

  lemma FitFuncWithin(s: Statement)
    requires s.SFunc? && Within(YieldType(FitType(s.ty)), YieldType(s.ty))
    requires Within(YieldParams(FitDecls(s.params), s.comma), YieldParams(s.params, s.comma))
    requires Within(YieldBlock(FitStmts(s.body)), YieldBlock(s.body))
    ensures Within(YieldStmt(FitStmt(s)), YieldStmt(s))
  {
    hide Within, FitType, YieldType, FitDecls, YieldParams, FitStmts, YieldBlock;
    var s' := FitStmt(s);
    var body, body' := [Sym(RParen)] + YieldBlock(s.body), [Sym(RParen)] + YieldBlock(s'.body);
    var ps, ps' := YieldParams(s.params, s.comma), YieldParams(s'.params, s.comma);
    Around([Sym(RParen)], YieldBlock(s'.body), YieldBlock(s.body), []);
    Joined(ps', ps, body', body);
    Around([s.token, Sym(LParen)], ps' + body', ps + body, []);
    Joined(YieldType(s'.ty), YieldType(s.ty), [s.token, Sym(LParen)] + (ps' + body'),
           [s.token, Sym(LParen)] + (ps + body));
  }

  lemma FitConditionWithin(c: Expr)
    ensures Within(YieldCondition(Fit(c, OR, false)), YieldCondition(c))
  {
    hide Within, Fit, Yield;
    FitWithin(c, OR, false);
    Around([Sym(LParen)], Yield(Fit(c, OR, false)), Yield(c), [Sym(RParen)]);
  }

  lemma {:induction false} FitGuardedWithin(g: Guarded)
    ensures Within(YieldGuarded(FitGuarded(g)), YieldGuarded(g))
    decreases g, 1
  {
    hide Within, Fit, FitStmts, YieldBlock, YieldCondition;
    var g' := FitGuarded(g);
    FitConditionWithin(g.cond);
    FitBlockWithin(g.body);
    FitElseWithin(g.alt);
    Joined(YieldBlock(g'.body), YieldBlock(g.body), YieldElse(g'.alt), YieldElse(g.alt));
    Joined(YieldCondition(g'.cond), YieldCondition(g.cond), YieldBlock(g'.body) + YieldElse(g'.alt),
           YieldBlock(g.body) + YieldElse(g.alt));
  }

  lemma {:induction false} FitElseWithin(alt: ElsePart)
    ensures Within(YieldElse(FitElse(alt)), YieldElse(alt))
    decreases alt, 1
  {
    hide Within, FitStmts, YieldBlock, FitGuarded, YieldGuarded;
    Itself([]);
    match alt
    case NoElse =>
    case ElseBlock(body) =>
      FitBlockWithin(body);
      Around([Sym(WordElse)], YieldBlock(FitStmts(body)), YieldBlock(body), []);
    case ElseIf(g1) =>
      FitGuardedWithin(g1);
      Around([Sym(WordElseIf)], YieldGuarded(FitGuarded(g1)), YieldGuarded(g1), []);
  }

  lemma {:induction false} FitBlockWithin(p: Statements)
    ensures Within(YieldBlock(FitStmts(p)), YieldBlock(p))
    decreases p, 1
  {
    hide Within, FitStmts, YieldStmts;
    FitStmtsWithin(p);
    Around([Sym(LCurly)], YieldStmts(FitStmts(p)), YieldStmts(p), [Sym(RCurly)]);
  }

  lemma {:induction false} FitStmtsWithin(p: Statements)
    ensures Within(YieldStmts(FitStmts(p)), YieldStmts(p))
    decreases p, 0
  {
    hide Within, FitStmt, YieldStmt;
    Itself([]);
    if p.Statements? {
      FitStmtWithin(p.head);
      FitStmtsWithin(p.rest);
      Joined(YieldStmt(FitStmt(p.head)), YieldStmt(p.head), YieldStmts(FitStmts(p.rest)), YieldStmts(p.rest));
    }
  }
}
