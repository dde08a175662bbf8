/** What can be recovered from a tree: the parser's result determines the source, up to
    parentheses, exactly when nothing was dropped on the way. */
module Recovery {
  import opened Outcomes
  import opened Tokens
  import opened Nodes
  import opened Operators
  import opened Syntax
  import opened Printer
  import opened ExprTheorems
  import opened StmtParser
  import opened Programs

  // ----- programs without parentheses and liberties

  function StripType(t: Type): Type {
    match t
    case RefTo(u) => RefTo(StripType(u))
    case ConstOf(u) => ConstOf(StripType(u))
    case ArrayOf(u) => ArrayOf(StripType(u))
    case SizedOf(u, e) => SizedOf(StripType(u), Strip(e))
    case _ => t
  }

  function StripDecl(d: Decl): Decl {
    Decl(StripType(d.ty), d.name, if d.init.Some? then Some(Strip(d.init.value)) else None)
  }

  function StripDecls(ds: Decls): Decls {
    if ds == NoDecls then NoDecls else Decls(StripDecl(ds.head), StripDecls(ds.rest))
  }

  function StripStmt(s: Statement): Statement {
    match s
    case SAssign(x, e) => SAssign(x, Strip(e))
    case SMember(x, t, e) => SMember(x, Strip(t), Strip(e))
    case SVar(d) => SVar(StripDecl(d))
    case SFunc(t, x, ps, _, body) => SFunc(StripType(t), Token(Ident, x.value), StripDecls(ps), false, StripStmts(body))
    case SStruct(x, ms, _) => SStruct(x, StripDecls(ms), false)
    case SIf(g) => SIf(StripGuarded(g))
    case SWhile(c, body) => SWhile(Strip(c), StripStmts(body))
    case SReturn(e) => SReturn(Strip(e))
    case _ => s
  }

  function StripGuarded(g: Guarded): Guarded {
    Guarded(Strip(g.cond), StripStmts(g.body), StripElse(g.alt))
  }

  function StripElse(alt: ElsePart): ElsePart {
    match alt
    case NoElse => NoElse
    case ElseBlock(body) => ElseBlock(StripStmts(body))
    case ElseIf(g) => ElseIf(StripGuarded(g))
  }

  function StripStmts(p: Statements): Statements {
    if p == NoStatements then NoStatements else Statements(StripStmt(p.head), StripStmts(p.rest))
  }

  // ----- nothing dropped

  /** No else part behind a body with statements in it. */
  predicate NoHungElse(s: Statement) {
    match s
    case SFunc(_, _, _, _, body) => NoHungElses(body)
    case SIf(g) => NoHungGuarded(g)
    case SWhile(_, body) => NoHungElses(body)
    case _ => true
  }

  predicate NoHungGuarded(g: Guarded) {
    && (g.alt != NoElse ==> g.body == NoStatements)
    && NoHungElses(g.body) && NoHungInElse(g.alt)
  }

  predicate NoHungInElse(alt: ElsePart) {
    match alt
    case NoElse => true
    case ElseBlock(body) => NoHungElses(body)
    case ElseIf(g) => NoHungGuarded(g)
  }

  predicate NoHungElses(p: Statements) {
    p == NoStatements || (NoHungElse(p.head) && NoHungElses(p.rest))
  }

  /** No negation and no else part behind a body with statements in it. */
  predicate NothingDropped(p: Statements) {
    EveryIn(p, NoNeg) && NoHungElses(p)
  }

  // ----- the tree determines the source

  lemma {:induction false} SameExpr(a: Expr, b: Expr)
    requires Source(a) && Source(b) && NoNeg(a) && Build(a) == Build(b)
    ensures Strip(a) == Strip(b)
    decreases a, b
  {
    if a.Paren? {
      SameExpr(a.inner, b);
    } else if b.Paren? {
      SameExpr(a, b.inner);
    } else {
      match a
      case Member(x, t) => SameExpr(t, b.tail);
      case Index(x, es) => SameIndices(es, b.indices);
      case StructLit(es) => SameList(es, b.items);
      case ArrayLit(es) => SameList(es, b.items);
      case CallN(x, es) => SameList(es, b.args);
      case Bin(op, l, r) => SameExpr(l, b.l); SameExpr(r, b.r);
      case NotE(e1) => SameExpr(e1, b.operand);
      case _ =>
    }
  }

  lemma {:induction false} SameList(a: Exprs, b: Exprs)
    requires SourceAll(a) && SourceAll(b) && NoNegAll(a) && BuildList(a) == BuildList(b)
    ensures StripList(a) == StripList(b)
    decreases a, b
  {
    SameExpr(a.head, b.head);
    if a.More? && b.More? {
      SameList(a.rest, b.rest);
    }
  }

  lemma {:induction false} SameIndices(a: Exprs, b: Exprs)
    requires SourceAll(a) && SourceAll(b) && NoNegAll(a) && BuildIndices(a) == BuildIndices(b)
    ensures StripList(a) == StripList(b)
    decreases a, b
  {
    SameExpr(a.head, b.head);
    if a.More? && b.More? {
      SameIndices(a.rest, b.rest);
    }
  }

  lemma {:induction false} SameType(t: Type, u: Type)
    requires EveryInType(t, Source) && EveryInType(u, Source) && EveryInType(t, NoNeg) && BuildType(t) == BuildType(u)
    ensures StripType(t) == StripType(u)
  {
    match t
    case RefTo(t1) => SameType(t1, u.target);
    case ConstOf(t1) => SameType(t1, u.target);
    case ArrayOf(t1) => SameType(t1, u.item);
    case SizedOf(t1, e) => SameType(t1, u.item); SameExpr(e, u.size);
    case _ =>
  }

  lemma {:induction false} SameDecl(d: Decl, e: Decl)
    requires EveryInDecl(d, Source) && EveryInDecl(e, Source) && EveryInDecl(d, NoNeg) && BuildDecl(d) == BuildDecl(e)
    ensures StripDecl(d) == StripDecl(e)
  {
    SameType(d.ty, e.ty);
    if d.init.Some? && e.init.Some? {
      SameExpr(d.init.value, e.init.value);
    }
  }

  lemma {:induction false} SameDecls(k: NodeKind, ds: Decls, es: Decls)
    requires EveryInDecls(ds, Source) && EveryInDecls(es, Source) && EveryInDecls(ds, NoNeg)
    requires BuildDecls(k, ds) == BuildDecls(k, es)
    ensures StripDecls(ds) == StripDecls(es)
    decreases ds
  {
    if ds != NoDecls {
      SameDecl(ds.head, es.head);
      SameDecls(k, ds.rest, es.rest);
    }
  }

  /** Which statement a node stands for is plain from its kind and its left child's. */
  lemma {:induction false} SameStmt(s: Statement, z: Statement)
    requires EveryInStmt(s, Source) && EveryInStmt(z, Source) && EveryInStmt(s, NoNeg) && NoHungElse(s)
    requires BuildStmt(s) == BuildStmt(z)
    ensures StripStmt(s) == StripStmt(z)
    decreases s
  {
    match s
    case SAssign(x, e) => AssignIs(s, z); SameExpr(e, z.value);
    case SMember(x, t, e) => AssignIs(s, z); SameExpr(t, z.tail); SameExpr(e, z.value);
    case SVar(d) => SameDecl(d, z.decl);
    case SFunc(t, x, ps, _, body) => SameType(t, z.ty); SameDecls(DeclVarList, ps, z.params); SameStmts(body, z.body);
    case SStruct(x, ms, _) => SameDecls(DeclMemberList, ms, z.members);
    case SIf(g) => SameGuarded(StmtIf, g, z.guarded);
    case SWhile(c, body) => SameExpr(c, z.cond); SameStmts(body, z.body);
    case SReturn(e) => SameExpr(e, z.value);
    case _ =>
  }

  lemma AssignIs(s: Statement, z: Statement)
    requires (s.SAssign? || s.SMember?) && BuildStmt(s) == BuildStmt(z)
    ensures s.SAssign? ==> z.SAssign? && s.name == z.name && Build(s.value) == Build(z.value)
    ensures s.SMember?
            ==> z.SMember? && s.name == z.name && Build(s.tail) == Build(z.tail) && Build(s.value) == Build(z.value)
  {
  }

  lemma {:induction false} SameGuarded(k: NodeKind, g: Guarded, h: Guarded)
    requires EveryInGuarded(g, Source) && EveryInGuarded(h, Source) && EveryInGuarded(g, NoNeg) && NoHungGuarded(g)
    requires BuildGuarded(k, g) == BuildGuarded(k, h)
    ensures StripGuarded(g) == StripGuarded(h)
    decreases g
  {
    SameExpr(g.cond, h.cond);
    BodiesAgree(g, h);
    SameStmts(g.body, h.body);
    match g.alt
    case NoElse =>
    case ElseBlock(body) => SameStmts(body, h.alt.body);
    case ElseIf(g1) => SameGuarded(StmtElseIf, g1, h.alt.guarded);
  }

  lemma StmtIsNoElse(s: Statement)
    ensures BuildStmt(s).Node? && BuildStmt(s).kind != StmtElse && BuildStmt(s).kind != StmtElseIf
            && BuildStmt(s).kind != Stmt
  {
  }

  /** With nothing hung over it, a body and its else part can be told apart. */
  lemma BodiesAgree(g: Guarded, h: Guarded)
    requires g.alt != NoElse ==> g.body == NoStatements
    requires HangElse(BuildStmts(g.body), BuildElse(g.alt)) == HangElse(BuildStmts(h.body), BuildElse(h.alt))
    ensures BuildStmts(g.body) == BuildStmts(h.body) && BuildElse(g.alt) == BuildElse(h.alt)
    ensures g.alt.ElseBlock? ==> h.alt.ElseBlock? && BuildStmts(g.alt.body) == BuildStmts(h.alt.body)
    ensures g.alt.ElseIf?
            ==> h.alt.ElseIf? && BuildGuarded(StmtElseIf, g.alt.guarded) == BuildGuarded(StmtElseIf, h.alt.guarded)
    ensures g.alt.NoElse? ==> h.alt.NoElse?
  {
    if g.body.Statements? {
      StmtIsNoElse(g.body.head);
    }
  }

  lemma {:induction false} SameStmts(p: Statements, q: Statements)
    requires EveryIn(p, Source) && EveryIn(q, Source) && EveryIn(p, NoNeg) && NoHungElses(p)
    requires BuildStmts(p) == BuildStmts(q)
    ensures StripStmts(p) == StripStmts(q)
    decreases p
  {
    if p != NoStatements {
      SameStmt(p.head, q.head);
      SameStmts(p.rest, q.rest);
    }
  }
}
