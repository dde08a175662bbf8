/** What the tree of a program keeps of it, exactly: everything but parentheses, the operands
    of negations, and the first statement of a body with an else part. */
module Kept {
  import opened Outcomes
  import opened Tokens
  import opened Nodes
  import opened Operators
  import opened Syntax
  import opened Printer
  import opened StmtParser
  import opened Programs
  import opened ProgramTheorems
  import opened Recovery

  // ----- what is kept

  /** Without parentheses, and with nothing behind a minus in front of an operand. */
  function KeepExpr(e: Expr): Expr {
    match e
    case Member(x, t) => Member(x, KeepExpr(t))
    case Index(x, es) => Index(x, KeepExprs(es))
    case StructLit(es) => StructLit(KeepExprs(es))
    case ArrayLit(es) => ArrayLit(KeepExprs(es))
    case Paren(e1) => KeepExpr(e1)
    case CallN(x, es) => CallN(x, KeepExprs(es))
    case Neg(_) => BareMinus
    case Bin(op, l, r) => Bin(op, KeepExpr(l), KeepExpr(r))
    case NotE(e1) => NotE(KeepExpr(e1))
    case _ => e
  }

  function KeepExprs(es: Exprs): Exprs {
    match es
    case Last(e) => Last(KeepExpr(e))
    case More(e, rest) => More(KeepExpr(e), KeepExprs(rest))
  }

  function KeepType(t: Type): Type {
    match t
    case RefTo(u) => RefTo(KeepType(u))
    case ConstOf(u) => ConstOf(KeepType(u))
    case ArrayOf(u) => ArrayOf(KeepType(u))
    case SizedOf(u, e) => SizedOf(KeepType(u), KeepExpr(e))
    case _ => t
  }

  function KeepDecl(d: Decl): Decl {
    Decl(KeepType(d.ty), d.name, if d.init.Some? then Some(KeepExpr(d.init.value)) else None)
  }

  function KeepDecls(ds: Decls): Decls {
    if ds == NoDecls then NoDecls else Decls(KeepDecl(ds.head), KeepDecls(ds.rest))
  }

  /** Of a function's name only the value, of separators at the end of lists nothing. */
  function KeepStmt(s: Statement): Statement {
    match s
    case SAssign(x, e) => SAssign(x, KeepExpr(e))
    case SMember(x, t, e) => SMember(x, KeepExpr(t), KeepExpr(e))
    case SVar(d) => SVar(KeepDecl(d))
    case SFunc(t, x, ps, _, body) => SFunc(KeepType(t), Token(Ident, x.value), KeepDecls(ps), false, KeepStmts(body))
    case SStruct(x, ms, _) => SStruct(x, KeepDecls(ms), false)
    case SIf(g) => SIf(KeepGuarded(g))
    case SWhile(c, body) => SWhile(KeepExpr(c), KeepStmts(body))
    case SReturn(e) => SReturn(KeepExpr(e))
    case _ => s
  }

  function KeepGuarded(g: Guarded): Guarded {
    Guarded(KeepExpr(g.cond), KeepBody(g.body, g.alt != NoElse), KeepElse(g.alt))
  }

  /** The first statement of a body with an else part is replaced, whatever it is, by one
      and the same; every later one stays. */
  function KeepBody(body: Statements, hung: bool): Statements
    decreases body, 1
  {
    if hung && body.Statements? then Statements(SBreak, KeepStmts(body.rest)) else KeepStmts(body)
  }

  function KeepElse(alt: ElsePart): ElsePart {
    match alt
    case NoElse => NoElse
    case ElseBlock(body) => ElseBlock(KeepStmts(body))
    case ElseIf(g) => ElseIf(KeepGuarded(g))
  }

  function KeepStmts(p: Statements): Statements
    decreases p, 0
  {
    if p == NoStatements then NoStatements else Statements(KeepStmt(p.head), KeepStmts(p.rest))
  }

  // ----- the tree is made of what is kept

  lemma {:induction false} KeptExprTree(e: Expr)
    ensures Build(KeepExpr(e)) == Build(e)
  {
    match e
    case Member(x, t) => KeptExprTree(t);
    case Index(x, es) => KeptExprsTree(es);
    case StructLit(es) => KeptExprsTree(es);
    case ArrayLit(es) => KeptExprsTree(es);
    case Paren(e1) => KeptExprTree(e1);
    case CallN(x, es) => KeptExprsTree(es);
    case Bin(op, l, r) => KeptExprTree(l); KeptExprTree(r);
    case NotE(e1) => KeptExprTree(e1);
    case _ =>
  }

  lemma {:induction false} KeptExprsTree(es: Exprs)
    ensures BuildList(KeepExprs(es)) == BuildList(es) && BuildIndices(KeepExprs(es)) == BuildIndices(es)
  {
    KeptExprTree(es.head);
    if es.More? {
      KeptExprsTree(es.rest);
    }
  }

  lemma {:induction false} KeptTypeTree(t: Type)
    ensures BuildType(KeepType(t)) == BuildType(t)
  {
    match t
    case RefTo(u) => KeptTypeTree(u);
    case ConstOf(u) => KeptTypeTree(u);
    case ArrayOf(u) => KeptTypeTree(u);
    case SizedOf(u, e) => KeptTypeTree(u); KeptExprTree(e);
    case _ =>
  }

  lemma KeptDeclTree(d: Decl)
    ensures BuildDecl(KeepDecl(d)) == BuildDecl(d)
  {
    KeptTypeTree(d.ty);
    if d.init.Some? {
      KeptExprTree(d.init.value);
    }
  }

  lemma {:induction false} KeptDeclsTree(k: NodeKind, ds: Decls)
    ensures BuildDecls(k, KeepDecls(ds)) == BuildDecls(k, ds)
    decreases ds
  {
    if ds != NoDecls {
      KeptDeclTree(ds.head);
      KeptDeclsTree(k, ds.rest);
    }
  }

  lemma {:induction false} KeptStmtTree(s: Statement)
    ensures BuildStmt(KeepStmt(s)) == BuildStmt(s)
    decreases s, 1
  {
    match s
    case SAssign(x, e) => KeptExprTree(e);
    case SMember(x, t, e) => KeptMemberTree(x, t); KeptExprTree(e);
    case SVar(d) => KeptDeclTree(d);
    case SFunc(t, x, ps, _, body) => KeptTypeTree(t); KeptDeclsTree(DeclVarList, ps); KeptStmtsTree(body);
    case SStruct(x, ms, _) => KeptDeclsTree(DeclMemberList, ms);
    case SIf(g) => KeptGuardedTree(StmtIf, g);
    case SWhile(c, body) => KeptExprTree(c); KeptStmtsTree(body);
    case SReturn(e) => KeptExprTree(e);
    case _ =>
  }

  lemma KeptMemberTree(x: string, t: Expr)
    ensures Build(Member(x, KeepExpr(t))) == Build(Member(x, t))
  {
    KeptExprTree(t);
  }

  lemma {:induction false} KeptGuardedTree(k: NodeKind, g: Guarded)
    ensures BuildGuarded(k, KeepGuarded(g)) == BuildGuarded(k, g)
    decreases g
  {
    hide Build, KeepExpr, BuildStmts, KeepStmts, BuildElse, KeepElse, KeepBody, HangElse;
    KeptExprTree(g.cond);
    KeptElseTree(g.alt);
    KeptBodyTree(g.body, g.alt);
  }

  lemma {:induction false} KeptBodyTree(body: Statements, alt: ElsePart)
    ensures HangElse(BuildStmts(KeepBody(body, alt != NoElse)), BuildElse(alt))
            == HangElse(BuildStmts(body), BuildElse(alt))
    decreases body, 1
  {
    KeptStmtsTree(body);
    if body.Statements? && alt != NoElse {
      assert BuildElse(alt) != Null;
      assert BuildStmts(Statements(SBreak, KeepStmts(body.rest)))
             == Mk(Stmt, BuildStmt(SBreak), BuildStmts(body.rest));
    }
  }

  lemma {:induction false} KeptElseTree(alt: ElsePart)
    ensures BuildElse(KeepElse(alt)) == BuildElse(alt)
    decreases alt, 1
  {
    match alt
    case NoElse =>
    case ElseBlock(body) => KeptStmtsTree(body);
    case ElseIf(g) => KeptGuardedTree(StmtElseIf, g);
  }

  lemma {:induction false} KeptStmtsTree(p: Statements)
    ensures BuildStmts(KeepStmts(p)) == BuildStmts(p)
    ensures p.Statements? ==> BuildStmts(KeepStmts(p.rest)) == BuildStmts(p.rest)
    decreases p, 0
  {
    if p != NoStatements {
      KeptStmtTree(p.head);
      KeptStmtsTree(p.rest);
    }
  }

  // ----- and all of it can be told from the tree

  lemma {:induction false} ExprKept(a: Expr, b: Expr)
    requires Source(a) && Source(b) && Build(a) == Build(b)
    ensures KeepExpr(a) == KeepExpr(b)
    decreases a, b
  {
    if a.Paren? {
      ExprKept(a.inner, b);
    } else if b.Paren? {
      ExprKept(a, b.inner);
    } else {
      match a
      case Member(x, t) => ExprKept(t, b.tail);
      case Index(x, es) => IndicesKept(es, b.indices);
      case StructLit(es) => ListKept(es, b.items);
      case ArrayLit(es) => ListKept(es, b.items);
      case CallN(x, es) => ListKept(es, b.args);
      case Bin(op, l, r) => ExprKept(l, b.l); ExprKept(r, b.r);
      case NotE(e1) => ExprKept(e1, b.operand);
      case _ =>
    }
  }

  lemma {:induction false} ListKept(a: Exprs, b: Exprs)
    requires SourceAll(a) && SourceAll(b) && BuildList(a) == BuildList(b)
    ensures KeepExprs(a) == KeepExprs(b)
    decreases a, b
  {
    ExprKept(a.head, b.head);
    if a.More? && b.More? {
      ListKept(a.rest, b.rest);
    }
  }

  lemma {:induction false} IndicesKept(a: Exprs, b: Exprs)
    requires SourceAll(a) && SourceAll(b) && BuildIndices(a) == BuildIndices(b)
    ensures KeepExprs(a) == KeepExprs(b)
    decreases a, b
  {
    ExprKept(a.head, b.head);
    if a.More? && b.More? {
      IndicesKept(a.rest, b.rest);
    }
  }

  lemma {:induction false} TypeKept(t: Type, u: Type)
    requires EveryInType(t, Source) && EveryInType(u, Source) && BuildType(t) == BuildType(u)
    ensures KeepType(t) == KeepType(u)
  {
    match t
    case RefTo(t1) => TypeKept(t1, u.target);
    case ConstOf(t1) => TypeKept(t1, u.target);
    case ArrayOf(t1) => TypeKept(t1, u.item);
    case SizedOf(t1, e) => TypeKept(t1, u.item); ExprKept(e, u.size);
    case _ =>
  }

  lemma {:induction false} DeclKept(d: Decl, e: Decl)
    requires EveryInDecl(d, Source) && EveryInDecl(e, Source) && BuildDecl(d) == BuildDecl(e)
    ensures KeepDecl(d) == KeepDecl(e)
  {
    TypeKept(d.ty, e.ty);
    if d.init.Some? && e.init.Some? {
      ExprKept(d.init.value, e.init.value);
    }
  }

  lemma {:induction false} DeclsKept(k: NodeKind, ds: Decls, es: Decls)
    requires EveryInDecls(ds, Source) && EveryInDecls(es, Source) && BuildDecls(k, ds) == BuildDecls(k, es)
    ensures KeepDecls(ds) == KeepDecls(es)
    decreases ds
  {
    if ds != NoDecls {
      DeclKept(ds.head, es.head);
      DeclsKept(k, ds.rest, es.rest);
    }
  }

  lemma {:induction false} StmtKept(s: Statement, z: Statement)
    requires EveryInStmt(s, Source) && EveryInStmt(z, Source) && BuildStmt(s) == BuildStmt(z)
    ensures KeepStmt(s) == KeepStmt(z)
    decreases s
  {
    match s
    case SAssign(x, e) => AssignIs(s, z); ExprKept(e, z.value);
    case SMember(x, t, e) => AssignIs(s, z); ExprKept(t, z.tail); ExprKept(e, z.value);
    case SVar(d) => DeclKept(d, z.decl);
    case SFunc(t, x, ps, _, body) => TypeKept(t, z.ty); DeclsKept(DeclVarList, ps, z.params); StmtsKept(body, z.body);
    case SStruct(x, ms, _) => DeclsKept(DeclMemberList, ms, z.members);
    case SIf(g) => GuardedKept(StmtIf, g, z.guarded);
    case SWhile(c, body) => ExprKept(c, z.cond); StmtsKept(body, z.body);
    case SReturn(e) => ExprKept(e, z.value);
    case _ =>
  }

  lemma {:induction false} GuardedKept(k: NodeKind, g: Guarded, h: Guarded)
    requires EveryInGuarded(g, Source) && EveryInGuarded(h, Source) && BuildGuarded(k, g) == BuildGuarded(k, h)
    ensures KeepGuarded(g) == KeepGuarded(h)
    decreases g
  {
    ExprKept(g.cond, h.cond);
    BranchTold(g, h);
    if g.alt != NoElse && g.body.Statements? {
      StmtsKept(g.body.rest, h.body.rest);
    } else {
      StmtsKept(g.body, h.body);
    }
    match g.alt
    case NoElse =>
    case ElseBlock(body) => StmtsKept(body, h.alt.body);
    case ElseIf(g1) => GuardedKept(StmtElseIf, g1, h.alt.guarded);
  }

  /** Body and else part can be told from what an `if` has as its right child. */
  lemma BranchTold(g: Guarded, h: Guarded)
    requires HangElse(BuildStmts(g.body), BuildElse(g.alt)) == HangElse(BuildStmts(h.body), BuildElse(h.alt))
    ensures g.alt.ElseBlock? ==> h.alt.ElseBlock? && BuildStmts(g.alt.body) == BuildStmts(h.alt.body)
    ensures g.alt.ElseIf? ==>
              h.alt.ElseIf? && BuildGuarded(StmtElseIf, g.alt.guarded) == BuildGuarded(StmtElseIf, h.alt.guarded)
    ensures g.alt.NoElse? ==> h.alt.NoElse?
    ensures g.body.Statements? <==> h.body.Statements?
    ensures if g.alt != NoElse && g.body.Statements? then BuildStmts(g.body.rest) == BuildStmts(h.body.rest)
            else BuildStmts(g.body) == BuildStmts(h.body)
  {
    if g.body.Statements? {
      StmtIsNoElse(g.body.head);
    }
    if h.body.Statements? {
      StmtIsNoElse(h.body.head);
    }
  }

  lemma {:induction false} StmtsKept(p: Statements, q: Statements)
    requires EveryIn(p, Source) && EveryIn(q, Source) && BuildStmts(p) == BuildStmts(q)
    ensures KeepStmts(p) == KeepStmts(q)
    decreases p
  {
    if p != NoStatements {
      StmtKept(p.head, q.head);
      StmtsKept(p.rest, q.rest);
    }
  }

  // ----- the parser's results

  lemma {:induction false} TypeIsSource(t: Type)
    requires GoodType(t)
    ensures EveryInType(t, Source)
  {
    match t
    case RefTo(u) => TypeIsSource(u);
    case ConstOf(u) => TypeIsSource(u);
    case ArrayOf(u) => TypeIsSource(u);
    case SizedOf(u, _) => TypeIsSource(u);
    case _ =>
  }

  lemma {:induction false} DeclsAreSource(ds: Decls)
    requires GoodDecls(ds)
    ensures EveryInDecls(ds, Source)
  {
    if ds != NoDecls {
      TypeIsSource(ds.head.ty);
      DeclsAreSource(ds.rest);
    }
  }

  lemma {:induction false} StmtIsSource(s: Statement, b: Block)
    requires Accepted(s, b)
    ensures EveryInStmt(s, Source)
  {
    match s
    case SVar(d) => TypeIsSource(d.ty);
    case SFunc(t, _, ps, _, body) => TypeIsSource(t); DeclsAreSource(ps); AcceptedIsSource(body, FuncBlock);
    case SStruct(_, ms, _) => DeclsAreSource(ms);
    case SIf(g) => GuardedIsSource(g, b);
    case SWhile(_, body) => AcceptedIsSource(body, LoopBlock);
    case _ =>
  }

  lemma {:induction false} GuardedIsSource(g: Guarded, b: Block)
    requires AcceptedGuarded(g, b)
    ensures EveryInGuarded(g, Source)
  {
    AcceptedIsSource(g.body, b);
    match g.alt
    case NoElse =>
    case ElseBlock(body) => AcceptedIsSource(body, b);
    case ElseIf(g1) => GuardedIsSource(g1, b);
  }

  lemma {:induction false} AcceptedIsSource(p: Statements, b: Block)
    requires AcceptedAll(p, b)
    ensures EveryIn(p, Source)
  {
    if p != NoStatements {
      StmtIsSource(p.head, b);
      AcceptedIsSource(p.rest, b);
    }
  }

  /** The parser's results, compared: for accepted programs that it parses to a tree, the
      trees are the same if and only if the programs are the same in everything that is
      kept. */
  lemma {:induction false} SameTreeExactly(p: Statements, q: Statements)
    requires AcceptedAll(p, NoBlock) && AcceptedAll(q, NoBlock)
    requires Program(TokensOf(p)).Ok? && Program(TokensOf(q)).Ok?
    ensures Program(TokensOf(p)) == Program(TokensOf(q)) <==> KeepStmts(p) == KeepStmts(q)
  {
    hide Program, TokensOf, AcceptedAll, KeepStmts, EveryIn, BuildStmts;
    ProgramRoundTrip(p);
    ProgramRoundTrip(q);
    AcceptedIsSource(p, NoBlock);
    AcceptedIsSource(q, NoBlock);
    KeptStmtsTree(p);
    KeptStmtsTree(q);
    if BuildStmts(p) == BuildStmts(q) {
      StmtsKept(p, q);
    }
  }

  /** Of a body with an else part exactly the first statement is lost: with two functions
      that are one `if` each, the results are the same if and only if condition, else part
      and every later statement are. */
  lemma {:induction false} OnlyTheFirstIsLost(t: Type, x: Token, c: Expr, s: Statement, rest: Statements, alt: ElsePart,
                                              c': Expr, s': Statement, rest': Statements, alt': ElsePart)
    requires AcceptedAll(Guarding(t, x, c, s, rest, alt), NoBlock) && alt != NoElse
    requires AcceptedAll(Guarding(t, x, c', s', rest', alt'), NoBlock) && alt' != NoElse
    requires Program(TokensOf(Guarding(t, x, c, s, rest, alt))).Ok?
    requires Program(TokensOf(Guarding(t, x, c', s', rest', alt'))).Ok?
    ensures Program(TokensOf(Guarding(t, x, c, s, rest, alt))) == Program(TokensOf(Guarding(t, x, c', s', rest', alt')))
            <==> KeepExpr(c) == KeepExpr(c') && KeepStmts(rest) == KeepStmts(rest') && KeepElse(alt) == KeepElse(alt')
  {
    hide Program, TokensOf, AcceptedAll;
    SameTreeExactly(Guarding(t, x, c, s, rest, alt), Guarding(t, x, c', s', rest', alt'));
    KeptGuarding(t, x, c, s, rest, alt);
    KeptGuarding(t, x, c', s', rest', alt');
  }

  lemma KeptGuarding(t: Type, x: Token, c: Expr, s: Statement, rest: Statements, alt: ElsePart)
    requires alt != NoElse
    ensures KeepStmts(Guarding(t, x, c, s, rest, alt))
            == Guarding(KeepType(t), Token(Ident, x.value), KeepExpr(c), SBreak, KeepStmts(rest), KeepElse(alt))
  {
    hide KeepType, KeepExpr, KeepElse;
    var g := Guarded(c, Statements(s, rest), alt);
    assert KeepGuarded(g) == Guarded(KeepExpr(c), Statements(SBreak, KeepStmts(rest)), KeepElse(alt));
    assert KeepStmt(SIf(g)) == SIf(KeepGuarded(g));
    assert KeepStmts(Statements(SIf(g), NoStatements)) == Statements(SIf(KeepGuarded(g)), NoStatements);
  }

  /** A function whose body is one `if`. */
  function OneIf(t: Type, x: Token, c: Expr, body: Statements, alt: ElsePart): Statements {
    Statements(SFunc(t, x, NoDecls, false, Statements(SIf(Guarded(c, body, alt)), NoStatements)), NoStatements)
  }

  /** What an else part is made into. */
  function PartTree(alt: ElsePart): Node
    requires alt != NoElse
    decreases alt, 0
  {
    match alt
    case ElseBlock(other) => Mk(StmtElse, Null, BuildStmts(other))
    case ElseIf(g) => Mk(StmtElseIf, Build(g.cond), RightTree(g.body, g.alt))
  }

  /** What stands to the right of the condition: the else part in the place of the first
      statement's node, with the later statements behind it, or alone if the body has no
      statements. */
  function RightTree(body: Statements, alt: ElsePart): Node
    decreases alt, 1
  {
    if alt == NoElse then BuildStmts(body)
    else if body == NoStatements then PartTree(alt)
    else Mk(Stmt, PartTree(alt), BuildStmts(body.rest))
  }

  /** Where everything goes, in full. */
  lemma {:induction false} ElseHangs(t: Type, x: Token, c: Expr, body: Statements, alt: ElsePart)
    requires AcceptedAll(OneIf(t, x, c, body, alt), NoBlock) && Program(TokensOf(OneIf(t, x, c, body, alt))).Ok?
    ensures var name := Mk(DeclTypeVarnamePair, BuildType(t), Leaf(ConstVarname, x.value));
            var branch := Mk(StmtIf, Build(c), RightTree(body, alt));
            var f := Mk(DeclFunction, Mk(DeclFunctionSignature, name, Null), Mk(Stmt, branch, Null));
            Program(TokensOf(OneIf(t, x, c, body, alt))) == Ok(Mk(Stmt, f, Null))
  {
    hide Program, TokensOf, AcceptedAll, Build, BuildType, BuildStmts, RightTree;
    ProgramRoundTrip(OneIf(t, x, c, body, alt));
    OneIfTree(t, x, c, body, alt);
  }

  lemma OneIfTree(t: Type, x: Token, c: Expr, body: Statements, alt: ElsePart)
    ensures var name := Mk(DeclTypeVarnamePair, BuildType(t), Leaf(ConstVarname, x.value));
            var branch := Mk(StmtIf, Build(c), RightTree(body, alt));
            var f := Mk(DeclFunction, Mk(DeclFunctionSignature, name, Null), Mk(Stmt, branch, Null));
            BuildStmts(OneIf(t, x, c, body, alt)) == Mk(Stmt, f, Null)
  {
    hide Build, BuildType, BuildGuarded, RightTree;
    IfTree(StmtIf, c, body, alt);
    var s := SIf(Guarded(c, body, alt));
    var f := SFunc(t, x, NoDecls, false, Statements(s, NoStatements));
    assert BuildStmt(s) == BuildGuarded(StmtIf, s.guarded);
    assert BuildStmts(f.body) == Mk(Stmt, BuildStmt(s), Null);
    assert BuildDecls(DeclVarList, NoDecls) == Null;
    assert BuildStmts(Statements(f, NoStatements)) == Mk(Stmt, BuildStmt(f), Null);
  }

  lemma {:induction false} IfTree(kind: NodeKind, c: Expr, body: Statements, alt: ElsePart)
    ensures BuildGuarded(kind, Guarded(c, body, alt)) == Mk(kind, Build(c), RightTree(body, alt))
    decreases alt
  {
    hide Build;
    if alt.ElseIf? {
      IfTree(StmtElseIf, alt.guarded.cond, alt.guarded.body, alt.guarded.alt);
    }
    assert alt != NoElse ==> BuildElse(alt) == PartTree(alt) && BuildElse(alt) != Null;
    if body.Statements? {
      assert BuildStmts(body) == Mk(Stmt, BuildStmt(body.head), BuildStmts(body.rest));
    }
  }
}
