/** When something was dropped on the way, it cannot be recovered: another legal program
    has the same tree. */
module Loss {
  import opened Outcomes
  import opened Tokens
  import opened Nodes
  import opened Operators
  import opened Syntax
  import opened Printer
  import opened ExprTheorems
  import opened StmtParser
  import opened Programs
  import opened ProgramTheorems
  import opened Recovery
  import opened Kept

  // ----- a different program with the same tree

  /** A literal that is not `e`. */
  function Other(e: Expr): Expr {
    if Strip(e) == Lit(IntLit, Int(0)) then Lit(IntLit, Int(1)) else Lit(IntLit, Int(0))
  }

  /** `e` with another operand under every negation. */
  function Twist(e: Expr): Expr {
    match e
    case Member(x, t) => Member(x, Twist(t))
    case Index(x, es) => Index(x, TwistList(es))
    case StructLit(es) => StructLit(TwistList(es))
    case ArrayLit(es) => ArrayLit(TwistList(es))
    case Paren(e1) => Paren(Twist(e1))
    case CallN(x, es) => CallN(x, TwistList(es))
    case Neg(e1) => Neg(Other(e1))
    case Bin(op, l, r) => Bin(op, Twist(l), Twist(r))
    case NotE(e1) => NotE(Twist(e1))
    case _ => e
  }

  function TwistList(es: Exprs): Exprs {
    match es
    case Last(e) => Last(Twist(e))
    case More(e, rest) => More(Twist(e), TwistList(rest))
  }

  function TwistType(t: Type): Type {
    match t
    case RefTo(u) => RefTo(TwistType(u))
    case ConstOf(u) => ConstOf(TwistType(u))
    case ArrayOf(u) => ArrayOf(TwistType(u))
    case SizedOf(u, e) => SizedOf(TwistType(u), Twist(e))
    case _ => t
  }

  function TwistDecl(d: Decl): Decl {
    Decl(TwistType(d.ty), d.name, if d.init.Some? then Some(Twist(d.init.value)) else None)
  }

  function TwistDecls(ds: Decls): Decls {
    if ds == NoDecls then NoDecls else Decls(TwistDecl(ds.head), TwistDecls(ds.rest))
  }

  function Variable(x: string): Statement {
    SVar(Decl(Base(IntType), x, None))
  }

  /** A statement that is not `s` and is legal anywhere. */
  function OtherStmt(s: Statement): Statement {
    if StripStmt(s) == Variable("a") then Variable("b") else Variable("a")
  }

  function TwistStmt(s: Statement): Statement {
    match s
    case SAssign(x, e) => SAssign(x, Twist(e))
    case SMember(x, t, e) => SMember(x, Twist(t), Twist(e))
    case SVar(d) => SVar(TwistDecl(d))
    case SFunc(t, x, ps, comma, body) => SFunc(TwistType(t), x, TwistDecls(ps), comma, TwistStmts(body))
    case SStruct(x, ms, open) => SStruct(x, TwistDecls(ms), open)
    case SIf(g) => SIf(TwistGuarded(g))
    case SWhile(c, body) => SWhile(Twist(c), TwistStmts(body))
    case SReturn(e) => SReturn(Twist(e))
    case _ => s
  }

  /** Every first statement with an else part hung over it is replaced. */
  function TwistGuarded(g: Guarded): Guarded {
    Guarded(Twist(g.cond), TwistBody(g.body, g.alt != NoElse), TwistElse(g.alt))
  }

  function TwistBody(body: Statements, hung: bool): Statements
    decreases body, 1
  {
    if hung && body.Statements? then Statements(OtherStmt(body.head), TwistStmts(body.rest)) else TwistStmts(body)
  }

  function TwistElse(alt: ElsePart): ElsePart {
    match alt
    case NoElse => NoElse
    case ElseBlock(body) => ElseBlock(TwistStmts(body))
    case ElseIf(g) => ElseIf(TwistGuarded(g))
  }

  function TwistStmts(p: Statements): Statements
    decreases p, 0
  {
    if p == NoStatements then NoStatements else Statements(TwistStmt(p.head), TwistStmts(p.rest))
  }

  // ----- it is as legal, has the same tree, and differs if anything was dropped

  /** What twisting keeps of an expression. */
  predicate Alike(e: Expr, t: Expr) {
    && Build(t) == Build(e)
    && (NoLogic(e) ==> NoLogic(t))
    && (Source(e) ==> Source(t) && (Strip(t) == Strip(e) ==> NoNeg(e)))
  }

  lemma {:induction false} TwistAlike(e: Expr)
    ensures Alike(e, Twist(e))
    ensures OpenEnd(Twist(e)) ==> OpenEnd(e)
  {
    match e
    case Member(x, t) => TwistAlike(t);
    case Index(x, es) => TwistListAlike(es);
    case StructLit(es) => TwistListAlike(es);
    case ArrayLit(es) => TwistListAlike(es);
    case Paren(e1) => TwistAlike(e1);
    case CallN(x, es) => TwistListAlike(es);
    case Bin(op, l, r) => TwistAlike(l); TwistAlike(r); BinAlike(op, l, r, Twist(l), Twist(r));
    case NotE(e1) => TwistAlike(e1);
    case _ =>
  }

  lemma BinAlike(op: BinOp, l: Expr, r: Expr, l': Expr, r': Expr)
    requires Alike(l, l') && Alike(r, r')
    ensures Alike(Bin(op, l, r), Bin(op, l', r'))
  {
  }

  lemma {:induction false} TwistListAlike(es: Exprs)
    ensures BuildList(TwistList(es)) == BuildList(es) && BuildIndices(TwistList(es)) == BuildIndices(es)
    ensures NoLogicAll(es) ==> NoLogicAll(TwistList(es))
    ensures SourceAll(es) ==> SourceAll(TwistList(es)) && (StripList(TwistList(es)) == StripList(es) ==> NoNegAll(es))
  {
    TwistAlike(es.head);
    if es.More? {
      TwistListAlike(es.rest);
    }
  }

  lemma {:induction false} TwistFits(e: Expr, lv: nat, dotted: bool)
    requires Fits(e, lv, dotted)
    ensures Fits(Twist(e), lv, dotted)
  {
    TwistAlike(e);
    match e
    case Member(x, t) => TwistFits(t, FACTOR, true);
    case Index(x, es) => TwistListFits(es);
    case StructLit(es) => TwistListFits(es);
    case ArrayLit(es) => TwistListFits(es);
    case Paren(e1) => TwistFits(e1, OR, false); TwistAlike(e1);
    case CallN(x, es) => TwistListFits(es);
    case Bin(op, l, r) => TwistFits(l, OpLevel(op) - 1, dotted); TwistFits(r, OpLevel(op), false); TwistAlike(l);
    case NotE(e1) => TwistFits(e1, COMPARE, false);
    case _ =>
  }

  lemma {:induction false} TwistListFits(es: Exprs)
    requires FitsAll(es)
    ensures FitsAll(TwistList(es))
  {
    TwistFits(es.head, OR, false);
    TwistAlike(es.head);
    if es.More? {
      TwistListFits(es.rest);
    }
  }

  lemma TwistGood(e: Expr)
    requires GoodExpr(e) && NoLogic(e)
    ensures GoodExpr(Twist(e)) && NoLogic(Twist(e)) && Build(Twist(e)) == Build(e)
    ensures Strip(Twist(e)) == Strip(e) ==> NoNeg(e)
  {
    TwistAlike(e);
    TwistFits(e, OR, false);
  }

  lemma {:induction false} TwistTypeAlike(t: Type)
    requires GoodType(t) && EveryInType(t, NoLogic)
    ensures GoodType(TwistType(t)) && EveryInType(TwistType(t), NoLogic) && BuildType(TwistType(t)) == BuildType(t)
    ensures StripType(TwistType(t)) == StripType(t) ==> EveryInType(t, NoNeg)
    ensures (TakesSuffix(t) ==> TakesSuffix(TwistType(t))) && (HasSuffix(t) ==> HasSuffix(TwistType(t)))
    ensures Classified(t) ==> TwistType(t) == t
  {
    match t
    case RefTo(u) => TwistTypeAlike(u);
    case ConstOf(u) => TwistTypeAlike(u);
    case ArrayOf(u) => TwistTypeAlike(u);
    case SizedOf(u, e) => TwistTypeAlike(u); TwistGood(e);
    case _ =>
  }

  lemma TwistDeclAlike(d: Decl)
    requires GoodDecl(d) && EveryInDecl(d, NoLogic)
    ensures GoodDecl(TwistDecl(d)) && EveryInDecl(TwistDecl(d), NoLogic) && BuildDecl(TwistDecl(d)) == BuildDecl(d)
    ensures StripDecl(TwistDecl(d)) == StripDecl(d) ==> EveryInDecl(d, NoNeg)
  {
    TwistTypeAlike(d.ty);
    if d.init.Some? {
      TwistGood(d.init.value);
    }
  }

  lemma {:induction false} TwistDeclsAlike(ds: Decls)
    requires GoodDecls(ds) && EveryInDecls(ds, NoLogic)
    ensures GoodDecls(TwistDecls(ds)) && EveryInDecls(TwistDecls(ds), NoLogic)
    ensures forall k :: BuildDecls(k, TwistDecls(ds)) == BuildDecls(k, ds)
    ensures StripDecls(TwistDecls(ds)) == StripDecls(ds) ==> EveryInDecls(ds, NoNeg)
  {
    if ds != NoDecls {
      TwistDeclAlike(ds.head);
      TwistDeclsAlike(ds.rest);
    }
  }

  lemma {:induction false} TwistStmtAlike(s: Statement, b: Block)
    requires Legal(s, b) && EveryInStmt(s, NoLogic)
    ensures Legal(TwistStmt(s), b) && EveryInStmt(TwistStmt(s), NoLogic) && BuildStmt(TwistStmt(s)) == BuildStmt(s)
    ensures StripStmt(TwistStmt(s)) == StripStmt(s) ==> EveryInStmt(s, NoNeg) && NoHungElse(s)
    decreases s, 1
  {
    match s
    case SAssign(x, e) => TwistGood(e);
    case SMember(x, t, e) => TwistAlike(t); TwistFits(t, FACTOR, true); TwistGood(e); MemberTree(x, t, Twist(t));
    case SVar(d) => TwistDeclAlike(d); ClassifiedHasNoSizes(d.ty); TwistTypeAlike(d.ty);
    case SFunc(t, x, ps, _, body) => TwistFuncAlike(s, b);
    case SStruct(x, ms, _) => TwistDeclsAlike(ms);
    case SIf(g) => TwistGuardedAlike(g, b, StmtIf);
    case SWhile(c, body) => TwistGood(c); TwistStmtsAlike(body, LoopBlock);
    case SReturn(e) => TwistGood(e);
    case _ =>
  }

  lemma MemberTree(x: string, t: Expr, t': Expr)
    requires Build(t) == Build(t')
    ensures Build(Member(x, t)) == Build(Member(x, t'))
  {
  }

  lemma {:induction false} TwistFuncAlike(s: Statement, b: Block)
    requires s.SFunc? && Legal(s, b) && EveryInStmt(s, NoLogic)
    ensures Legal(TwistStmt(s), b) && EveryInStmt(TwistStmt(s), NoLogic) && BuildStmt(TwistStmt(s)) == BuildStmt(s)
    ensures StripStmt(TwistStmt(s)) == StripStmt(s) ==> EveryInStmt(s, NoNeg) && NoHungElse(s)
    decreases s, 0
  {
    ClassifiedHasNoSizes(s.ty);
    TwistTypeAlike(s.ty);
    TwistDeclsAlike(s.params);
    TwistStmtsAlike(s.body, FuncBlock);
  }

  lemma ClassifiedHasNoSizes(t: Type)
    requires Classified(t)
    ensures GoodType(t) && forall ok :: EveryInType(t, ok)
  {
  }

  lemma {:induction false} TwistGuardedAlike(g: Guarded, b: Block, k: NodeKind)
    requires LegalGuarded(g, b) && EveryInGuarded(g, NoLogic)
    ensures LegalGuarded(TwistGuarded(g), b) && EveryInGuarded(TwistGuarded(g), NoLogic)
    ensures BuildGuarded(k, TwistGuarded(g)) == BuildGuarded(k, g)
    ensures StripGuarded(TwistGuarded(g)) == StripGuarded(g) ==> EveryInGuarded(g, NoNeg) && NoHungGuarded(g)
    decreases g
  {
    hide TwistBody, StripStmts, TwistElse, StripElse, EveryIn, EveryInElse, NoHungElses, NoHungInElse, LegalAll,
         LegalElse, GoodExpr, NoLogic, NoNeg, Strip, Build, Twist, HangElse, BuildStmts, BuildElse;
    TwistGood(g.cond);
    TwistBodyAlike(g.body, g.alt, b);
    TwistElseAlike(g.alt, b);
  }

  lemma {:induction false} TwistElseAlike(alt: ElsePart, b: Block)
    requires LegalElse(alt, b) && EveryInElse(alt, NoLogic)
    ensures LegalElse(TwistElse(alt), b) && EveryInElse(TwistElse(alt), NoLogic)
    ensures BuildElse(TwistElse(alt)) == BuildElse(alt) && (TwistElse(alt) == NoElse <==> alt == NoElse)
    ensures StripElse(TwistElse(alt)) == StripElse(alt) ==> EveryInElse(alt, NoNeg) && NoHungInElse(alt)
    decreases alt, 2
  {
    match alt
    case NoElse =>
    case ElseBlock(body) => TwistStmtsAlike(body, b);
    case ElseIf(g) => TwistGuardedAlike(g, b, StmtElseIf);
  }

  lemma {:induction false} TwistBodyAlike(body: Statements, alt: ElsePart, b: Block)
    requires LegalAll(body, b) && EveryIn(body, NoLogic)
    ensures var t := TwistBody(body, alt != NoElse);
            && LegalAll(t, b) && EveryIn(t, NoLogic)
            && HangElse(BuildStmts(t), BuildElse(alt)) == HangElse(BuildStmts(body), BuildElse(alt))
            && (StripStmts(t) == StripStmts(body)
                ==> EveryIn(body, NoNeg) && NoHungElses(body) && (alt != NoElse ==> body == NoStatements))
    decreases body, 1
  {
    TwistStmtsAlike(body, b);
    if body.Statements? {
      OtherIsOther(body.head, b);
    }
    if alt != NoElse && body.Statements? {
      var t := Statements(OtherStmt(body.head), TwistStmts(body.rest));
      assert StripStmts(t).head != StripStmts(body).head;
      assert BuildElse(alt) != Null;
      assert BuildStmts(t) == Mk(Stmt, BuildStmt(OtherStmt(body.head)), BuildStmts(body.rest));
    }
  }

  lemma OtherIsOther(s: Statement, b: Block)
    ensures Legal(OtherStmt(s), b) && EveryInStmt(OtherStmt(s), NoLogic) && StripStmt(OtherStmt(s)) != StripStmt(s)
  {
  }

  lemma {:induction false} TwistStmtsAlike(p: Statements, b: Block)
    requires LegalAll(p, b) && EveryIn(p, NoLogic)
    ensures LegalAll(TwistStmts(p), b) && EveryIn(TwistStmts(p), NoLogic) && BuildStmts(TwistStmts(p)) == BuildStmts(p)
    ensures StripStmts(TwistStmts(p)) == StripStmts(p) ==> EveryIn(p, NoNeg) && NoHungElses(p)
    ensures p.Statements? ==> LegalAll(TwistStmts(p.rest), b) && EveryIn(TwistStmts(p.rest), NoLogic)
                              && BuildStmts(TwistStmts(p.rest)) == BuildStmts(p.rest)
    decreases p, 0
  {
    if p != NoStatements {
      TwistStmtAlike(p.head, b);
      TwistStmtsAlike(p.rest, b);
    }
  }

  // ----- exactly what can be recovered

  /** A legal program without `&&` and `||`. */
  predicate Parsable(p: Statements) {
    LegalAll(p, NoBlock) && EveryIn(p, NoLogic)
  }

  ghost predicate Determined(p: Statements) {
    forall q | Parsable(q) && BuildStmts(q) == BuildStmts(p) :: StripStmts(q) == StripStmts(p)
  }

  /** The tree of a program determines the program, up to parentheses, if and only if the
      program has no negation (its operand is dropped) and no else part behind a body
      with statements in it (the first of them is dropped). */
  lemma {:induction false} RecoverableExactly(p: Statements)
    requires Parsable(p)
    ensures Determined(p) <==> NothingDropped(p)
  {
    if NothingDropped(p) {
      LegalIsSource(p, NoBlock);
      forall q | Parsable(q) && BuildStmts(q) == BuildStmts(p) ensures StripStmts(q) == StripStmts(p) {
        LegalIsSource(q, NoBlock);
        SameStmts(p, q);
      }
    } else {
      var q := TwistStmts(p);
      TwistStmtsAlike(p, NoBlock);
      assert Parsable(q) && BuildStmts(q) == BuildStmts(p) && StripStmts(q) != StripStmts(p);
    }
  }

  lemma {:induction false} StmtIsSource(s: Statement, b: Block)
    requires Legal(s, b)
    ensures EveryInStmt(s, Source)
  {
    match s
    case SVar(d) => TypeIsSource(d.ty);
    case SFunc(t, _, ps, _, body) => ClassifiedHasNoSizes(t); DeclsAreSource(ps); LegalIsSource(body, FuncBlock);
    case SStruct(_, ms, _) => DeclsAreSource(ms);
    case SIf(g) => GuardedIsSource(g, b);
    case SWhile(_, body) => LegalIsSource(body, LoopBlock);
    case _ =>
  }

  lemma {:induction false} GuardedIsSource(g: Guarded, b: Block)
    requires LegalGuarded(g, b)
    ensures EveryInGuarded(g, Source)
  {
    LegalIsSource(g.body, b);
    match g.alt
    case NoElse =>
    case ElseBlock(body) => LegalIsSource(body, b);
    case ElseIf(g1) => GuardedIsSource(g1, b);
  }

  lemma {:induction false} LegalIsSource(p: Statements, b: Block)
    requires LegalAll(p, b)
    ensures EveryIn(p, Source)
  {
    if p != NoStatements {
      StmtIsSource(p.head, b);
      LegalIsSource(p.rest, b);
    }
  }
}
