/** Completeness for statements: an accepted program is parsed to its tree. */
module ProgramComplete {
  import opened Outcomes
  import opened Tokens
  import opened Nodes
  import opened Operators
  import opened Syntax
  import opened Printer
  import opened ExprParser
  import opened ExprShapes
  import opened ExprParts
  import opened ExprComplete
  import opened StmtParser
  import opened StmtCases
  import opened Programs
  import opened ProgramParts

  // ----- first and last tokens

  predicate StatementStart(k: Kind) {
    IsTypename(k) || k in {WordStruct, WordIf, WordWhile, WordBreak, WordContinue, WordReturn}
  }

  lemma StmtStarts(s: Statement)
    ensures StatementStart(YieldStmt(s)[0].kind)
  {
    if s.SVar? {
      TypeStarts(s.decl.ty);
    } else if s.SFunc? {
      TypeStarts(s.ty);
    }
  }

  predicate EndsStatement(s: seq<Token>) {
    |s| > 0 && (s[|s| - 1].kind == Semicolon || s[|s| - 1].kind == RCurly)
  }

  lemma EndsAfter(p: seq<Token>, q: seq<Token>)
    requires EndsStatement(q)
    ensures EndsStatement(p + q)
  {
  }

  lemma StmtEnds(s: Statement)
    ensures EndsStatement(YieldStmt(s))
  {
    match s
    case SAssign(x, e) =>
      EndsAfter(Yield(e), [Sym(Semicolon)]);
      EndsAfter([Name(x), Sym(Equal)], Yield(e) + [Sym(Semicolon)]);
    case SMember(x, t, e) =>
      EndsAfter(Yield(e), [Sym(Semicolon)]);
      EndsAfter([Sym(Equal)], Yield(e) + [Sym(Semicolon)]);
      EndsAfter(Yield(t), [Sym(Equal)] + (Yield(e) + [Sym(Semicolon)]));
      EndsAfter([Name(x), Sym(Dot)], Yield(t) + ([Sym(Equal)] + (Yield(e) + [Sym(Semicolon)])));
    case SVar(d) => EndsAfter(YieldDecl(d), [Sym(Semicolon)]);
    case SFunc(t, x, ps, comma, body) =>
      BlockEnds(body);
      EndsAfter([Sym(RParen)], YieldBlock(body));
      EndsAfter(YieldParams(ps, comma), [Sym(RParen)] + YieldBlock(body));
      EndsAfter([x, Sym(LParen)], YieldParams(ps, comma) + ([Sym(RParen)] + YieldBlock(body)));
      EndsAfter(YieldType(t), [x, Sym(LParen)] + (YieldParams(ps, comma) + ([Sym(RParen)] + YieldBlock(body))));
    case SStruct(x, ms, open) =>
      EndsAfter(YieldMembers(ms, open), [Sym(RCurly)]);
      EndsAfter([Sym(WordStruct), Name(x), Sym(LCurly)], YieldMembers(ms, open) + [Sym(RCurly)]);
    case SIf(g) => GuardedEnds(g); EndsAfter([Sym(WordIf)], YieldGuarded(g));
    case SWhile(c, body) =>
      BlockEnds(body);
      EndsAfter(YieldCondition(c), YieldBlock(body));
      EndsAfter([Sym(WordWhile)], YieldCondition(c) + YieldBlock(body));
    case SBreak =>
    case SContinue =>
    case SReturn(e) => EndsAfter(Yield(e), [Sym(Semicolon)]); EndsAfter([Sym(WordReturn)], Yield(e) + [Sym(Semicolon)]);
  }

  lemma BlockEnds(p: Statements)
    ensures EndsStatement(YieldBlock(p))
  {
    EndsAfter(YieldStmts(p), [Sym(RCurly)]);
    EndsAfter([Sym(LCurly)], YieldStmts(p) + [Sym(RCurly)]);
  }

  lemma {:induction false} GuardedEnds(g: Guarded)
    ensures EndsStatement(YieldGuarded(g))
  {
    BlockEnds(g.body);
    match g.alt
    case NoElse =>
      assert YieldBlock(g.body) + [] == YieldBlock(g.body);
      EndsAfter(YieldCondition(g.cond), YieldBlock(g.body));
    case ElseBlock(p) =>
      BlockEnds(p);
      EndsAfter([Sym(WordElse)], YieldBlock(p));
      EndsAfter(YieldBlock(g.body), YieldElse(g.alt));
      EndsAfter(YieldCondition(g.cond), YieldBlock(g.body) + YieldElse(g.alt));
    case ElseIf(g1) =>
      GuardedEnds(g1);
      EndsAfter([Sym(WordElseIf)], YieldGuarded(g1));
      EndsAfter(YieldBlock(g.body), YieldElse(g.alt));
      EndsAfter(YieldCondition(g.cond), YieldBlock(g.body) + YieldElse(g.alt));
  }

  lemma NotDottedAfter(s: Statement, ts: seq<Token>, i: nat)
    requires At(ts, i, YieldStmt(s))
    ensures !Dotted(ts, i + |YieldStmt(s)|)
  {
    StmtEnds(s);
    var n := |YieldStmt(s)|;
    AtIndex(ts, i, YieldStmt(s), n - 1);
  }

  // ----- one parser step at a time

  lemma SequenceStep(ts: seq<Token>, i: nat, b: Block, n: Node, j: nat, rest: Parsed)
    requires StmtParser.Statement(ts, i, b) == Ok(Parsed(Mk(Stmt, n, Null), j)) && j < |ts|
    requires Sequence(ts, j, b) == Ok(rest)
    ensures Sequence(ts, i, b) == Ok(Parsed(Mk(Stmt, n, rest.node), rest.next))
  {
    hide StmtParser.Statement;
  }

  lemma SequenceEnd(ts: seq<Token>, i: nat, b: Block)
    requires i < |ts| && NothingBegins(ts, i, b)
    ensures Sequence(ts, i, b) == Ok(Parsed(Null, i))
  {
    hide StmtParser.Statement;
    StatementIsNone(ts, i, b);
  }

  /** No statement of the block begins at `i`. */
  predicate NothingBegins(ts: seq<Token>, i: nat, b: Block)
    requires i < |ts|
  {
    var k := ts[i].kind;
    && !(k == Ident && Look(ts, i + 1) in {Equal, Dot}) && !BeginsIn(k, b)
    && (IsTypename(k) ==> i + 1 < |ts| && Look(ts, i + Offset(k, ts[i + 1].kind)) !in {LParen, Equal, Semicolon})
  }

  /** An `if` that an else part could still follow. */
  predicate OpenGuarded(g: Guarded) {
    match g.alt
    case NoElse => true
    case ElseBlock(_) => false
    case ElseIf(g1) => OpenGuarded(g1)
  }

  predicate OpenIf(s: Statement) {
    s.SIf? && OpenGuarded(s.guarded)
  }

  predicate EndsOpen(p: Statements) {
    p.Statements? && if p.rest.Statements? then EndsOpen(p.rest) else OpenIf(p.head)
  }

  predicate NoElseAt(ts: seq<Token>, j: nat) {
    j < |ts| && ts[j].kind != WordElse && ts[j].kind != WordElseIf
  }

  /** What stands at `j` does not continue the sequence `p`. */
  predicate StopsAt(p: Statements, ts: seq<Token>, j: nat, b: Block) {
    && (p == NoStatements ==> j < |ts|)
    && (j < |ts| ==> NothingBegins(ts, j, b))
    && (EndsOpen(p) ==> NoElseAt(ts, j))
  }

  lemma BlockStep(ts: seq<Token>, i: nat, b: Block, s: Parsed)
    requires i + 1 < |ts| && ts[i].kind == LCurly && Sequence(ts, i + 1, b) == Ok(s) && Look(ts, s.next) == RCurly
    ensures BlockOf(ts, i, b) == Ok(Parsed(s.node, s.next + 1))
  {
    hide Sequence;
    if ts[i + 1].kind == RCurly {
      SequenceEnd(ts, i + 1, b);
    }
  }

  lemma SequenceLast(ts: seq<Token>, i: nat, b: Block, n: Node)
    requires StmtParser.Statement(ts, i, b) == Ok(Parsed(Mk(Stmt, n, Null), |ts|))
    ensures Sequence(ts, i, b) == Ok(Parsed(Mk(Stmt, n, Null), |ts|))
  {
    hide StmtParser.Statement;
  }

  lemma BranchStep(kind: NodeKind, ts: seq<Token>, i: nat, b: Block, c: Parsed, body: Parsed)
    requires Condition(ts, i) == Ok(c) && BlockOf(ts, c.next, b) == Ok(body) && body.next < |ts|
    ensures ts[body.next].kind != WordElse && ts[body.next].kind != WordElseIf
            ==> Branch(kind, ts, i, b) == Ok(Parsed(Mk(kind, c.node, body.node), body.next))
    ensures ts[body.next].kind in {WordElse, WordElseIf} && Alternative(ts, body.next, b).Ok?
            ==> var alt := Alternative(ts, body.next, b).value;
                Branch(kind, ts, i, b) == Ok(Parsed(Mk(kind, c.node, AttachElse(body.node, alt.node)), alt.next))
  {
    hide Condition, BlockOf, Alternative;
  }

  lemma ElsePartIs(ts: seq<Token>, i: nat, b: Block)
    requires i < |ts|
    ensures Alternative(ts, i, b) == if ts[i].kind == WordElseIf then Branch(StmtElseIf, ts, i, b) else Else(ts, i, b)
  {
    hide Branch, Else;
  }

  lemma ConditionDone(c: Expr, ts: seq<Token>, i: nat)
    requires GoodExpr(c) && NoLogic(c) && At(ts, i + 1, YieldCondition(c))
    ensures Condition(ts, i) == Ok(Parsed(Build(c), i + 1 + |YieldCondition(c)|))
  {
    hide Level, At, Yield, Build, GoodExpr, NoLogic;
    AtSplit(ts, i + 1, [Sym(LParen)], Yield(c) + [Sym(RParen)]);
    AtOne(ts, i + 1, Sym(LParen));
    ExprClosed(c, RParen, ts, i + 2);
  }

  // ----- telling the statements apart

  /** The lookahead of a classified type lands behind the name. */
  lemma OffsetLands(t: Type, x: string, rest: seq<Token>, ts: seq<Token>, i: nat)
    requires Classified(t) && At(ts, i, YieldType(t) + ([Name(x)] + rest))
    ensures IsTypename(ts[i].kind) && i + 1 < |ts|
    ensures Offset(ts[i].kind, ts[i + 1].kind) == |YieldType(t)| + 1
    ensures ts[i].kind == Ident ==> ts[i + 1].kind != Equal && ts[i + 1].kind != Dot
  {
    var y := YieldType(t) + ([Name(x)] + rest);
    AtIndex(ts, i, y, 0);
    AtIndex(ts, i, y, 1);
    SimpleYield(t);
    match t
    case RefTo(u) => SimpleYield(u); if u.RefTo? { SimpleYield(u.target); }
    case ConstOf(u) => SimpleYield(u); if u.RefTo? { SimpleYield(u.target); }
    case _ =>
  }

  lemma SimpleYield(t: Type)
    ensures Simple(t) ==> |YieldType(t)| == 1 && YieldType(t)[0].kind !in {WordRef, WordConst}
    ensures t.Base? ==> YieldType(t)[0].kind != Ident
  {
  }

  // ----- statements

  /** The outcome of a statement that is recognised at `i`. */
  predicate Recognised(s: Statement, ts: seq<Token>, i: nat, b: Block) {
    StmtParser.Statement(ts, i, b) == Ok(Parsed(Mk(Stmt, BuildStmt(s), Null), i + |YieldStmt(s)|))
  }

  lemma Wrapped(s: Statement, r: Result<Parsed>, ts: seq<Token>, i: nat, b: Block)
    requires StmtParser.Statement(ts, i, b) == Wrap(r) && r == Ok(Parsed(BuildStmt(s), i + |YieldStmt(s)|))
    ensures Recognised(s, ts, i, b)
  {
    hide StmtParser.Statement, BuildStmt, YieldStmt;
  }

  lemma WithSemicolon(s: Statement, r: Result<Parsed>, ts: seq<Token>, i: nat, b: Block)
    requires StmtParser.Statement(ts, i, b) == Semi(r, ts) && r == Ok(Parsed(BuildStmt(s), i + |YieldStmt(s)| - 1))
    requires Look(ts, i + |YieldStmt(s)| - 1) == Semicolon
    ensures Recognised(s, ts, i, b)
  {
    hide StmtParser.Statement, BuildStmt, YieldStmt;
  }

  lemma AssignStmtDone(x: string, e: Expr, ts: seq<Token>, i: nat, b: Block)
    requires 0 < i && !Dotted(ts, i) && GoodExpr(e) && NoLogic(e) && At(ts, i, YieldStmt(SAssign(x, e)))
    ensures Recognised(SAssign(x, e), ts, i, b)
  {
    hide *;
    AssignParts(x, e, ts, i);
    AssignDone(x, e, ts, i);
    StatementIsKeyword(ts, i, b);
    WithSemicolon(SAssign(x, e), Assign(ts, i), ts, i, b);
  }

  lemma AssignParts(x: string, e: Expr, ts: seq<Token>, i: nat)
    requires At(ts, i, YieldStmt(SAssign(x, e)))
    ensures At(ts, i, [Name(x), Sym(Equal)] + Yield(e)) && |YieldStmt(SAssign(x, e))| == 3 + |Yield(e)|
    ensures ts[i].kind == Ident && Look(ts, i + 1) == Equal
    ensures Look(ts, i + 2 + |Yield(e)|) == Semicolon && Closer(Look(ts, i + 2 + |Yield(e)|))
    ensures BuildStmt(SAssign(x, e)) == Mk(StmtAssign, NameNode(x), Build(e))
  {
    hide Yield, Build;
    assert YieldStmt(SAssign(x, e)) == ([Name(x), Sym(Equal)] + Yield(e)) + [Sym(Semicolon)];
    AtSplit(ts, i, [Name(x), Sym(Equal)] + Yield(e), [Sym(Semicolon)]);
    AtSplit(ts, i, [Name(x), Sym(Equal)], Yield(e));
    AtOne(ts, i + 2 + |Yield(e)|, Sym(Semicolon));
    AtTwo(ts, i, Name(x), Sym(Equal));
  }

  lemma MemberStmtDone(x: string, t: Expr, e: Expr, ts: seq<Token>, i: nat, b: Block)
    requires Source(t) && Fits(t, FACTOR, true) && NoLogic(t) && GoodExpr(e) && NoLogic(e)
    requires At(ts, i, YieldStmt(SMember(x, t, e)))
    ensures Recognised(SMember(x, t, e), ts, i, b)
  {
    hide *;
    MemberParts(x, t, e, ts, i);
    var j := i + 2 + |Yield(t)|;
    TargetDone(t, ts, i + 2);
    ExprClosed(e, Semicolon, ts, j + 1);
    MemberAssignStep(ts, i, Parsed(Build(t), j), Parsed(Build(e), j + 1 + |Yield(e)|));
    StatementIsKeyword(ts, i, b);
    WithSemicolon(SMember(x, t, e), MemberAssign(ts, i), ts, i, b);
  }

  lemma MemberParts(x: string, t: Expr, e: Expr, ts: seq<Token>, i: nat)
    requires At(ts, i, YieldStmt(SMember(x, t, e)))
    ensures i + 1 < |ts| && ts[i] == Name(x) && ts[i].kind == Ident && ts[i + 1].kind == Dot && Look(ts, i + 1) == Dot
    ensures Leaf(ConstVarname, ts[i].value) == NameNode(x)
    ensures At(ts, i + 2, Yield(t)) && Dotted(ts, i + 2)
    ensures var j := i + 2 + |Yield(t)|;
            && Look(ts, j) == Equal && !Dotted(ts, j + 1) && At(ts, j + 1, Yield(e) + [Sym(Semicolon)])
            && |YieldStmt(SMember(x, t, e))| == j + 2 + |Yield(e)| - i
    ensures BuildStmt(SMember(x, t, e)) == Mk(StmtAssign, Mk(ExprMemberAccess, NameNode(x), Build(t)), Build(e))
    ensures Closer(Semicolon)
  {
    MemberBuild(x, t, e);
    hide At, Yield, Build, BuildStmt;
    var tail := [Sym(Equal)] + (Yield(e) + [Sym(Semicolon)]);
    AtSplit(ts, i, [Name(x), Sym(Dot)], Yield(t) + tail);
    AtSplit(ts, i + 2, Yield(t), tail);
    AtSplit(ts, i + 2 + |Yield(t)|, [Sym(Equal)], Yield(e) + [Sym(Semicolon)]);
    AtOne(ts, i + 2 + |Yield(t)|, Sym(Equal));
    AtTwo(ts, i, Name(x), Sym(Dot));
  }

  lemma MemberBuild(x: string, t: Expr, e: Expr)
    ensures BuildStmt(SMember(x, t, e)) == Mk(StmtAssign, Mk(ExprMemberAccess, NameNode(x), Build(t)), Build(e))
  {
  }

  /** The part of an assignment target behind its first dot. */
  lemma TargetDone(t: Expr, ts: seq<Token>, i: nat)
    requires Source(t) && Fits(t, FACTOR, true) && NoLogic(t) && At(ts, i, Yield(t)) && Dotted(ts, i)
    requires Look(ts, i + |Yield(t)|) == Equal
    ensures Level(FACTOR, ts, i) == Ok(Parsed(Build(t), i + |Yield(t)|)) && Build(t) != Null
  {
    hide Level;
    SourceIsClosed(t);
    EndsBefore(t, true, Equal);
    Complete(t, FACTOR, ts, i, Build(t), i + |Yield(t)|);
    BuildIsThere(t);
  }

  lemma MemberAssignStep(ts: seq<Token>, i: nat, t: Parsed, e: Parsed)
    requires i + 1 < |ts| && ts[i].kind == Ident && ts[i + 1].kind == Dot
    requires Level(FACTOR, ts, i + 2) == Ok(t) && t.node != Null && Look(ts, t.next) == Equal
    requires Level(OR, ts, t.next + 1) == Ok(e)
    ensures MemberAssign(ts, i)
         == Ok(Parsed(Mk(StmtAssign, Mk(ExprMemberAccess, Leaf(ConstVarname, ts[i].value), t.node), e.node), e.next))
  {
    hide Level;
    assert MemberAccess(ts, i) == Ok(Parsed(Mk(ExprMemberAccess, Leaf(ConstVarname, ts[i].value), t.node), t.next));
  }

  lemma VarStmtDone(d: Decl, ts: seq<Token>, i: nat, b: Block)
    requires Classified(d.ty) && GoodDecl(d) && EveryInDecl(d, NoLogic) && At(ts, i, YieldStmt(SVar(d)))
    ensures Recognised(SVar(d), ts, i, b)
  {
    hide VarDecl, StmtParser.Statement, Classified, GoodDecl, EveryInDecl, Recognised, YieldDecl, BuildDecl;
    var j := i + |YieldDecl(d)|;
    AtSplit(ts, i, YieldDecl(d), [Sym(Semicolon)]);
    AtOne(ts, j, Sym(Semicolon));
    DeclDone(d, ts, i);
    BehindName(d, ts, i);
    StatementIs(ts, i, b);
    WithSemicolon(SVar(d), VarDecl(ts, i), ts, i, b);
  }

  lemma BehindName(d: Decl, ts: seq<Token>, i: nat)
    requires Classified(d.ty) && At(ts, i, YieldDecl(d)) && Look(ts, i + |YieldDecl(d)|) == Semicolon
    ensures i + 1 < |ts| && IsTypename(ts[i].kind)
    ensures ts[i].kind == Ident ==> ts[i + 1].kind != Equal && ts[i + 1].kind != Dot
    ensures Look(ts, i + Offset(ts[i].kind, ts[i + 1].kind)) in {Equal, Semicolon}
  {
    hide Classified;
    var init := if d.init.Some? then [Sym(Equal)] + Yield(d.init.value) else [];
    var at := i + |YieldType(d.ty)| + 1;
    hide YieldType, Yield, Offset;
    OffsetLands(d.ty, d.name, init, ts, i);
    AtSplit(ts, i, YieldType(d.ty), [Name(d.name)] + init);
    AtSplit(ts, at - 1, [Name(d.name)], init);
    if d.init.Some? {
      AtSplit(ts, at, [Sym(Equal)], Yield(d.init.value));
      AtOne(ts, at, Sym(Equal));
    }
  }

  lemma StructStmtDone(x: string, ms: Decls, open: bool, ts: seq<Token>, i: nat)
    requires GoodDecls(ms) && EveryInDecls(ms, NoLogic) && At(ts, i, YieldStmt(SStruct(x, ms, open)))
    ensures Recognised(SStruct(x, ms, open), ts, i, NoBlock)
  {
    hide Struct, StmtParser.Statement, Recognised, GoodDecls, EveryInDecls, YieldStmt, BuildStmt;
    StructDone(x, ms, open, ts, i);
    StatementIsKeyword(ts, i, NoBlock);
    Wrapped(SStruct(x, ms, open), Struct(ts, i), ts, i, NoBlock);
  }

  lemma ReturnStmtDone(e: Expr, ts: seq<Token>, i: nat)
    requires GoodExpr(e) && NoLogic(e) && At(ts, i, YieldStmt(SReturn(e)))
    ensures Recognised(SReturn(e), ts, i, FuncBlock)
  {
    hide Level, StmtParser.Statement, Recognised, GoodExpr, NoLogic, Yield, Build, Return, At, Wrap, Semi;
    AtSplit(ts, i, [Sym(WordReturn)], Yield(e) + [Sym(Semicolon)]);
    AtOne(ts, i, Sym(WordReturn));
    ExprClosed(e, Semicolon, ts, i + 1);
    ReturnStep(ts, i, Parsed(Build(e), i + 1 + |Yield(e)|));
    StatementIsKeyword(ts, i, FuncBlock);
    Wrapped(SReturn(e), Return(ts, i), ts, i, FuncBlock);
  }

  lemma ReturnStep(ts: seq<Token>, i: nat, e: Parsed)
    requires Level(OR, ts, i + 1) == Ok(e) && Look(ts, e.next) == Semicolon
    ensures Return(ts, i) == Ok(Parsed(Mk(StmtReturn, e.node, Null), e.next + 1))
  {
    hide Level;
  }

  lemma KeywordStmtDone(ts: seq<Token>, i: nat)
    ensures At(ts, i, YieldStmt(SBreak)) ==> Recognised(SBreak, ts, i, LoopBlock)
    ensures At(ts, i, YieldStmt(SContinue)) ==> Recognised(SContinue, ts, i, LoopBlock)
  {
    hide *;
    KeywordParts(ts, i);
    if At(ts, i, YieldStmt(SBreak)) {
      StatementIsKeyword(ts, i, LoopBlock);
      Wrapped(SBreak, Keyword(ts, i, StmtBreak), ts, i, LoopBlock);
    }
    if At(ts, i, YieldStmt(SContinue)) {
      StatementIsKeyword(ts, i, LoopBlock);
      Wrapped(SContinue, Keyword(ts, i, StmtContinue), ts, i, LoopBlock);
    }
  }

  lemma KeywordParts(ts: seq<Token>, i: nat)
    ensures At(ts, i, YieldStmt(SBreak)) ==> i < |ts| && ts[i].kind == WordBreak
    ensures At(ts, i, YieldStmt(SBreak))
            ==> Keyword(ts, i, StmtBreak) == Ok(Parsed(BuildStmt(SBreak), i + |YieldStmt(SBreak)|))
    ensures At(ts, i, YieldStmt(SContinue)) ==> i < |ts| && ts[i].kind == WordContinue
    ensures At(ts, i, YieldStmt(SContinue))
            ==> Keyword(ts, i, StmtContinue) == Ok(Parsed(BuildStmt(SContinue), i + |YieldStmt(SContinue)|))
  {
    hide At;
    if At(ts, i, YieldStmt(SBreak)) {
      AtTwo(ts, i, Sym(WordBreak), Sym(Semicolon));
    }
    if At(ts, i, YieldStmt(SContinue)) {
      AtTwo(ts, i, Sym(WordContinue), Sym(Semicolon));
    }
  }

  // ----- blocks and the statements that hold them

  lemma {:induction false} StmtsDone(p: Statements, ts: seq<Token>, i: nat, b: Block)
    requires AcceptedAll(p, b) && EveryIn(p, NoLogic) && At(ts, i, YieldStmts(p)) && !Dotted(ts, i)
    requires i == 0 ==> !(p.Statements? && p.head.SAssign?)
    requires StopsAt(p, ts, i + |YieldStmts(p)|, b)
    ensures Sequence(ts, i, b) == Ok(Parsed(BuildStmts(p), i + |YieldStmts(p)|))
    decreases p, 0
  {
    hide StmtParser.Statement, Sequence, Accepted, EveryInStmt, YieldStmt, BuildStmt, Recognised, At, NothingBegins,
         OpenIf;
    match p
    case NoStatements => SequenceEnd(ts, i, b);
    case Statements(s, rest) =>
      var k := i + |YieldStmt(s)|;
      AtSplit(ts, i, YieldStmt(s), YieldStmts(rest));
      NotDottedAfter(s, ts, i);
      NotElse(rest, ts, k);
      StmtDone(s, ts, i, b);
      if k < |ts| {
        StmtsDone(rest, ts, k, b);
        StmtThenRest(s, ts, i, b, Parsed(BuildStmts(rest), i + |YieldStmts(p)|));
      } else {
        NothingLeft(rest, ts, k);
        LastStmt(s, ts, i, b);
      }
  }

  lemma NothingLeft(p: Statements, ts: seq<Token>, k: nat)
    requires At(ts, k, YieldStmts(p)) && k >= |ts|
    ensures p == NoStatements && k == |ts|
  {
    if p.Statements? {
      StmtStarts(p.head);
    }
  }

  lemma LastStmt(s: Statement, ts: seq<Token>, i: nat, b: Block)
    requires Recognised(s, ts, i, b) && i + |YieldStmt(s)| == |ts|
    ensures Sequence(ts, i, b) == Ok(Parsed(Mk(Stmt, BuildStmt(s), Null), |ts|))
  {
    hide StmtParser.Statement, Sequence, YieldStmt, BuildStmt;
    SequenceLast(ts, i, b, BuildStmt(s));
  }

  lemma StmtThenRest(s: Statement, ts: seq<Token>, i: nat, b: Block, rest: Parsed)
    requires Recognised(s, ts, i, b) && i + |YieldStmt(s)| < |ts| && Sequence(ts, i + |YieldStmt(s)|, b) == Ok(rest)
    ensures Sequence(ts, i, b) == Ok(Parsed(Mk(Stmt, BuildStmt(s), rest.node), rest.next))
  {
    hide StmtParser.Statement, Sequence, YieldStmt, BuildStmt;
    SequenceStep(ts, i, b, BuildStmt(s), i + |YieldStmt(s)|, rest);
  }

  /** No statement begins with an else. */
  lemma NotElse(p: Statements, ts: seq<Token>, i: nat)
    requires At(ts, i, YieldStmts(p))
    ensures p.Statements? ==> NoElseAt(ts, i)
  {
    if p.Statements? {
      StmtStarts(p.head);
      AtFirst(ts, i, YieldStmts(p));
    }
  }

  /** A closing brace and the end marker stop every sequence. */
  lemma StopsAtClose(p: Statements, ts: seq<Token>, j: nat, b: Block)
    requires j < |ts| && ts[j].kind in {RCurly, Eof}
    ensures StopsAt(p, ts, j, b)
  {
    hide EndsOpen;
  }

  lemma {:induction false} BlockDone(p: Statements, ts: seq<Token>, i: nat, b: Block)
    requires AcceptedAll(p, b) && EveryIn(p, NoLogic) && At(ts, i, YieldBlock(p))
    ensures BlockOf(ts, i, b) == Ok(Parsed(BuildStmts(p), i + |YieldBlock(p)|))
    decreases p, 1
  {
    hide BlockOf, Sequence, AcceptedAll, EveryIn, At, YieldStmts, StopsAt;
    EnclosedParts(ts, i, [Sym(LCurly)], YieldStmts(p), RCurly);
    AtOne(ts, i, Sym(LCurly));
    StopsAtClose(p, ts, i + 1 + |YieldStmts(p)|, b);
    StmtsDone(p, ts, i + 1, b);
    BlockStep(ts, i, b, Parsed(BuildStmts(p), i + 1 + |YieldStmts(p)|));
  }

  lemma {:induction false} GuardedDone(kind: NodeKind, g: Guarded, ts: seq<Token>, i: nat, b: Block)
    requires AcceptedGuarded(g, b) && EveryInGuarded(g, NoLogic) && At(ts, i + 1, YieldGuarded(g))
    requires OpenGuarded(g) ==> NoElseAt(ts, i + 1 + |YieldGuarded(g)|)
    requires i + 1 + |YieldGuarded(g)| <= |ts|
    ensures Branch(kind, ts, i, b) == Ok(Parsed(BuildGuarded(kind, g), i + 1 + |YieldGuarded(g)|))
    decreases g, 2
  {
    hide *;
    GuardedParts(g, ts, i, b);
    var j := i + 1 + |YieldCondition(g.cond)|;
    var k := j + |YieldBlock(g.body)|;
    ConditionDone(g.cond, ts, i);
    BlockDone(g.body, ts, j, b);
    GuardedNode(kind, g);
    ElseParts(g.alt, ts, k, b);
    OpenParts(g, ts, i + 1 + |YieldGuarded(g)|);
    BranchStep(kind, ts, i, b, Parsed(Build(g.cond), j), Parsed(BuildStmts(g.body), k));
    match g.alt
    case NoElse =>
    case ElseBlock(p) =>
      BlockDone(p, ts, k + 1, b);
      ElseStep(ts, k, b);
      ElsePartIs(ts, k, b);
    case ElseIf(g1) =>
      GuardedDone(StmtElseIf, g1, ts, k, b);
      ElsePartIs(ts, k, b);
  }

  lemma GuardedNode(kind: NodeKind, g: Guarded)
    ensures var body := BuildStmts(g.body);
            var alt := BuildElse(g.alt);
            && (g.alt.NoElse? ==> BuildGuarded(kind, g) == Mk(kind, Build(g.cond), body))
            && (!g.alt.NoElse? ==> BuildGuarded(kind, g) == Mk(kind, Build(g.cond), AttachElse(body, alt)))
            && (g.alt.ElseBlock? ==> alt == Mk(StmtElse, Null, BuildStmts(g.alt.body)))
            && (g.alt.ElseIf? ==> alt == BuildGuarded(StmtElseIf, g.alt.guarded))
  {
  }

  lemma OpenParts(g: Guarded, ts: seq<Token>, j: nat)
    ensures g.alt.NoElse? ==> OpenGuarded(g)
    ensures g.alt.ElseIf? ==> (OpenGuarded(g) <==> OpenGuarded(g.alt.guarded))
    ensures NoElseAt(ts, j) ==> j < |ts| && ts[j].kind != WordElse && ts[j].kind != WordElseIf
  {
  }

  lemma ElseStep(ts: seq<Token>, i: nat, b: Block)
    requires i < |ts|
    ensures var r := BlockOf(ts, i + 1, b);
            r.Ok? ==> Else(ts, i, b) == Ok(Parsed(Mk(StmtElse, Null, r.value.node), r.value.next))
  {
    hide BlockOf;
  }

  lemma GuardedParts(g: Guarded, ts: seq<Token>, i: nat, b: Block)
    requires AcceptedGuarded(g, b) && EveryInGuarded(g, NoLogic) && At(ts, i + 1, YieldGuarded(g))
    ensures GoodExpr(g.cond) && NoLogic(g.cond) && AcceptedAll(g.body, b) && EveryIn(g.body, NoLogic)
    ensures AcceptedElse(g.alt, b) && EveryInElse(g.alt, NoLogic)
    ensures var j := i + 1 + |YieldCondition(g.cond)|;
            var k := j + |YieldBlock(g.body)|;
            && At(ts, i + 1, YieldCondition(g.cond)) && At(ts, j, YieldBlock(g.body)) && At(ts, k, YieldElse(g.alt))
            && |YieldGuarded(g)| == k - (i + 1) + |YieldElse(g.alt)|
  {
    hide YieldCondition, YieldBlock, AcceptedAll, EveryIn, GoodExpr, NoLogic, YieldElse, AcceptedElse, EveryInElse;
    var j := i + 1 + |YieldCondition(g.cond)|;
    AtSplit(ts, i + 1, YieldCondition(g.cond), YieldBlock(g.body) + YieldElse(g.alt));
    AtSplit(ts, j, YieldBlock(g.body), YieldElse(g.alt));
  }

  lemma ElseParts(alt: ElsePart, ts: seq<Token>, k: nat, b: Block)
    requires AcceptedElse(alt, b) && EveryInElse(alt, NoLogic) && At(ts, k, YieldElse(alt))
    ensures alt.NoElse? ==> |YieldElse(alt)| == 0
    ensures alt.ElseBlock? ==>
              && k < |ts| && ts[k].kind == WordElse && At(ts, k + 1, YieldBlock(alt.body))
              && AcceptedAll(alt.body, b) && EveryIn(alt.body, NoLogic)
              && |YieldElse(alt)| == 1 + |YieldBlock(alt.body)|
    ensures alt.ElseIf? ==>
              && k < |ts| && ts[k].kind == WordElseIf && At(ts, k + 1, YieldGuarded(alt.guarded))
              && AcceptedGuarded(alt.guarded, b) && EveryInGuarded(alt.guarded, NoLogic)
              && |YieldElse(alt)| == 1 + |YieldGuarded(alt.guarded)|
  {
    hide YieldBlock, YieldGuarded, AcceptedAll, EveryIn, AcceptedGuarded, EveryInGuarded;
    match alt
    case NoElse =>
    case ElseBlock(p) => AtSplit(ts, k, [Sym(WordElse)], YieldBlock(p)); AtOne(ts, k, Sym(WordElse));
    case ElseIf(g1) => AtSplit(ts, k, [Sym(WordElseIf)], YieldGuarded(g1)); AtOne(ts, k, Sym(WordElseIf));
  }

  lemma {:induction false} FuncStmtDone(s: Statement, ts: seq<Token>, i: nat, b: Block)
    requires s.SFunc? && Accepted(s, b) && EveryInStmt(s, NoLogic) && At(ts, i, YieldStmt(s))
    ensures Recognised(s, ts, i, b)
    decreases s, 3
  {
    hide *;
    FuncParts(s, ts, i, b);
    FuncLookahead(s.ty, s.token, ts, i);
    SignatureDone(s.ty, s.token, s.params, s.comma, ts, i);
    BlockDone(s.body, ts, i + |YieldSignature(s.ty, s.token, s.params, s.comma)|, FuncBlock);
    FunctionStep(ts, i);
    StatementIs(ts, i, b);
    Wrapped(s, Function(ts, i), ts, i, b);
  }

  lemma FuncParts(s: Statement, ts: seq<Token>, i: nat, b: Block)
    requires s.SFunc? && Accepted(s, b) && EveryInStmt(s, NoLogic) && At(ts, i, YieldStmt(s))
    ensures GoodType(s.ty) && FunctionAhead(s.ty, s.token) && GoodDecls(s.params) && AcceptedAll(s.body, FuncBlock)
    ensures s.token.kind == LBrack ==> HasSuffix(s.ty)
    ensures EveryInType(s.ty, NoLogic) && EveryInDecls(s.params, NoLogic) && EveryIn(s.body, NoLogic)
    ensures var sig := YieldSignature(s.ty, s.token, s.params, s.comma);
            && At(ts, i, sig) && At(ts, i + |sig|, YieldBlock(s.body)) && |YieldStmt(s)| == |sig| + |YieldBlock(s.body)|
    ensures At(ts, i, YieldType(s.ty) + [s.token, Sym(LParen)])
    ensures BuildStmt(s) == Mk(DeclFunction, BuildSignature(s.ty, s.token, s.params), BuildStmts(s.body))
  {
    hide GoodType, GoodDecls, AcceptedAll, EveryInType, EveryInDecls, EveryIn, YieldBlock, YieldParams, YieldType,
         Offset, At;
    var rest := YieldParams(s.params, s.comma) + ([Sym(RParen)] + YieldBlock(s.body));
    assert YieldStmt(s) == YieldType(s.ty) + ([s.token, Sym(LParen)] + rest);
    assert YieldStmt(s) == (YieldType(s.ty) + [s.token, Sym(LParen)]) + rest;
    assert YieldStmt(s) == YieldSignature(s.ty, s.token, s.params, s.comma) + YieldBlock(s.body);
    AtSplit(ts, i, YieldSignature(s.ty, s.token, s.params, s.comma), YieldBlock(s.body));
    AtSplit(ts, i, YieldType(s.ty) + [s.token, Sym(LParen)], rest);
  }

  lemma FuncLookahead(t: Type, x: Token, ts: seq<Token>, i: nat)
    requires FunctionAhead(t, x) && At(ts, i, YieldType(t) + [x, Sym(LParen)])
    ensures i + 1 < |ts| && IsTypename(ts[i].kind) && !(ts[i].kind == Ident && ts[i + 1].kind in {Equal, Dot})
    ensures Look(ts, i + Offset(ts[i].kind, ts[i + 1].kind)) == LParen
  {
    hide YieldType, Offset, IsTypename, At, HasSuffix;
    var y := YieldType(t) + [x, Sym(LParen)];
    TypeStarts(t);
    AtIndex(ts, i, y, 0);
    AtIndex(ts, i, y, 1);
    AtIndex(ts, i, y, Offset(y[0].kind, y[1].kind));
  }

  lemma FunctionStep(ts: seq<Token>, i: nat)
    requires Signature(ts, i).Ok? && BlockOf(ts, Signature(ts, i).value.next, FuncBlock).Ok?
    ensures var sig := Signature(ts, i).value;
            var body := BlockOf(ts, sig.next, FuncBlock).value;
            Function(ts, i) == Ok(Parsed(Mk(DeclFunction, sig.node, body.node), body.next))
  {
    hide Signature, BlockOf;
  }

  lemma WhileStep(ts: seq<Token>, i: nat)
    requires Condition(ts, i).Ok? && BlockOf(ts, Condition(ts, i).value.next, LoopBlock).Ok?
    ensures var c := Condition(ts, i).value;
            var body := BlockOf(ts, c.next, LoopBlock).value;
            While(ts, i) == Ok(Parsed(Mk(StmtWhile, c.node, body.node), body.next))
  {
    hide Condition, BlockOf;
  }

  lemma {:induction false} WhileStmtDone(c: Expr, body: Statements, ts: seq<Token>, i: nat, b: Block)
    requires b != NoBlock && GoodExpr(c) && NoLogic(c) && AcceptedAll(body, LoopBlock) && EveryIn(body, NoLogic)
    requires At(ts, i, YieldStmt(SWhile(c, body)))
    ensures Recognised(SWhile(c, body), ts, i, b)
    decreases body, 3
  {
    hide *;
    WhileParts(c, body, ts, i);
    ConditionDone(c, ts, i);
    BlockDone(body, ts, i + 1 + |YieldCondition(c)|, LoopBlock);
    WhileStep(ts, i);
    StatementIsKeyword(ts, i, b);
    Wrapped(SWhile(c, body), While(ts, i), ts, i, b);
  }

  lemma WhileParts(c: Expr, body: Statements, ts: seq<Token>, i: nat)
    requires At(ts, i, YieldStmt(SWhile(c, body)))
    ensures i < |ts| && ts[i].kind == WordWhile && At(ts, i + 1, YieldCondition(c))
    ensures At(ts, i + 1 + |YieldCondition(c)|, YieldBlock(body))
    ensures |YieldStmt(SWhile(c, body))| == 1 + |YieldCondition(c)| + |YieldBlock(body)|
    ensures BuildStmt(SWhile(c, body)) == Mk(StmtWhile, Build(c), BuildStmts(body))
  {
    hide YieldCondition, YieldBlock;
    AtSplit(ts, i, [Sym(WordWhile)], YieldCondition(c) + YieldBlock(body));
    AtSplit(ts, i + 1, YieldCondition(c), YieldBlock(body));
    AtOne(ts, i, Sym(WordWhile));
  }

  lemma {:induction false} IfStmtDone(g: Guarded, ts: seq<Token>, i: nat, b: Block)
    requires b != NoBlock && AcceptedGuarded(g, b) && EveryInGuarded(g, NoLogic) && At(ts, i, YieldStmt(SIf(g)))
    requires OpenGuarded(g) ==> NoElseAt(ts, i + |YieldStmt(SIf(g))|)
    ensures Recognised(SIf(g), ts, i, b)
    decreases g, 3
  {
    hide *;
    IfParts(g, ts, i);
    GuardedDone(StmtIf, g, ts, i, b);
    IfIs(ts, i, b);
    StatementIsKeyword(ts, i, b);
    Wrapped(SIf(g), If(ts, i, b), ts, i, b);
  }

  lemma IfParts(g: Guarded, ts: seq<Token>, i: nat)
    requires At(ts, i, YieldStmt(SIf(g)))
    ensures i < |ts| && ts[i].kind == WordIf && At(ts, i + 1, YieldGuarded(g))
    ensures |YieldStmt(SIf(g))| == 1 + |YieldGuarded(g)| && i + |YieldStmt(SIf(g))| <= |ts|
    ensures BuildStmt(SIf(g)) == BuildGuarded(StmtIf, g)
  {
    hide YieldGuarded, BuildGuarded;
    AtSplit(ts, i, [Sym(WordIf)], YieldGuarded(g));
    AtOne(ts, i, Sym(WordIf));
  }

  lemma {:induction false} StmtDone(s: Statement, ts: seq<Token>, i: nat, b: Block)
    requires Accepted(s, b) && EveryInStmt(s, NoLogic) && At(ts, i, YieldStmt(s)) && !Dotted(ts, i)
    requires i == 0 ==> !s.SAssign?
    requires OpenIf(s) ==> NoElseAt(ts, i + |YieldStmt(s)|)
    ensures Recognised(s, ts, i, b)
    decreases s, 4
  {
    hide Recognised, YieldStmt;
    match s
    case SAssign(x, e) => AssignStmtDone(x, e, ts, i, b);
    case SMember(x, t, e) => MemberStmtDone(x, t, e, ts, i, b);
    case SVar(d) => VarStmtDone(d, ts, i, b);
    case SFunc(_, _, _, _, _) => FuncStmtDone(s, ts, i, b);
    case SStruct(x, ms, open) => StructStmtDone(x, ms, open, ts, i);
    case SIf(g) => IfStmtDone(g, ts, i, b);
    case SWhile(c, body) => WhileStmtDone(c, body, ts, i, b);
    case SBreak => KeywordStmtDone(ts, i);
    case SContinue => KeywordStmtDone(ts, i);
    case SReturn(e) => ReturnStmtDone(e, ts, i);
  }
}
