/** The main results about programs as token sequences. */
module ProgramTheorems {
  import opened Outcomes
  import opened Tokens
  import opened Nodes
  import opened Operators
  import opened Syntax
  import opened Printer
  import opened ExprParser
  import opened ExprShapes
  import opened ExprParts
  import opened StmtParser
  import opened Programs
  import opened ProgramParts
  import opened ProgramComplete
  import opened ProgramRefused
  import opened ExprRefused

  /** A program as the lexer delivers it. */
  function TokensOf(p: Statements): seq<Token> {
    YieldStmts(p) + [Sym(Eof)]
  }

  /** What the parser makes of an accepted program. */
  function OutcomeOf(p: Statements): Result<Node> {
    if p.Statements? && p.head.SAssign? then OutOfBounds
    else if EveryIn(p, NoLogic) then Ok(BuildStmts(p))
    else SyntaxError("Invalid Token")
  }

  /** Program round trip: an accepted program is parsed to its tree, and to nothing else,
      unless it begins with a plain assignment, when the look-behind for a dot reads the
      token before the first one, or has `&&` or `||` in any of its expressions, when it is
      refused. */
  lemma {:induction false} ProgramRoundTrip(p: Statements)
    requires AcceptedAll(p, NoBlock)
    ensures Program(TokensOf(p)) == OutcomeOf(p)
  {
    hide Sequence, AcceptedAll, YieldStmts;
    var ts := TokensOf(p);
    assert At(ts, 0, YieldStmts(p));
    if p.Statements? && p.head.SAssign? {
      StartsWithAssignment(p);
    } else if EveryIn(p, NoLogic) {
      StopsAtClose(p, ts, |YieldStmts(p)|, NoBlock);
      StmtsDone(p, ts, 0, NoBlock);
    } else {
      StmtsRefused(p, ts, 0, NoBlock);
    }
  }

  lemma StartsWithAssignment(p: Statements)
    requires p.Statements? && p.head.SAssign?
    ensures Sequence(TokensOf(p), 0, NoBlock) == OutOfBounds
  {
    var ts := TokensOf(p);
    var y := YieldStmt(p.head);
    assert ts[0] == y[0] == Name(p.head.name) && ts[1] == y[1] == Sym(Equal);
    assert MemberAccess(ts, 0) == OutOfBounds;
    assert Assign(ts, 0) == OutOfBounds;
    assert StmtParser.Statement(ts, 0, NoBlock) == OutOfBounds;
  }

  // ----- the fixed lookahead

  /** The number of `ref` and `const` words a type begins with. */
  function Prefixes(t: Type): nat {
    match t
    case RefTo(u) => 1 + Prefixes(u)
    case ConstOf(u) => 1 + Prefixes(u)
    case ArrayOf(u) => Prefixes(u)
    case SizedOf(u, _) => Prefixes(u)
    case _ => 0
  }

  /** The first tokens of a type: its prefixes, a simple type, and then either the end
      or a bracket and its mate or the beginning of a size. */
  predicate Head(y: seq<Token>, p: nat) {
    && p < |y|
    && (forall m :: 0 <= m < p ==> y[m].kind == WordRef || y[m].kind == WordConst)
    && y[p].kind in {WordInt, WordFloat, WordBool, WordVoid, Ident}
    && (|y| > p + 1
        ==> |y| > p + 2 && y[p + 1].kind == LBrack && (y[p + 2].kind == RBrack || Starter(y[p + 2].kind, OR)))
  }

  lemma {:induction false} TypeHead(t: Type)
    requires GoodType(t)
    ensures Head(YieldType(t), Prefixes(t))
  {
    match t
    case RefTo(u) => TypeHead(u); HeadPrefixed(WordRef, YieldType(u), Prefixes(u));
    case ConstOf(u) => TypeHead(u); HeadPrefixed(WordConst, YieldType(u), Prefixes(u));
    case ArrayOf(u) =>
      TypeHead(u);
      HeadSuffixed(YieldType(u), [Sym(LBrack), Sym(RBrack)], Prefixes(u));
    case SizedOf(u, e) =>
      TypeHead(u);
      YieldStarts(e, OR, false);
      var suffix := [Sym(LBrack)] + (Yield(e) + [Sym(RBrack)]);
      assert suffix[1] == Yield(e)[0];
      HeadSuffixed(YieldType(u), suffix, Prefixes(u));
    case _ =>
  }

  lemma HeadPrefixed(k: Kind, y: seq<Token>, p: nat)
    requires Head(y, p) && (k == WordRef || k == WordConst)
    ensures Head([Sym(k)] + y, p + 1)
  {
    var z := [Sym(k)] + y;
    assert forall m :: 0 <= m < |y| ==> z[m + 1] == y[m];
    forall m | 0 <= m < p + 1 ensures z[m].kind == WordRef || z[m].kind == WordConst {
      if m > 0 {
        assert z[m] == y[m - 1];
      }
    }
    assert z[p + 1] == y[p];
    if |z| > p + 2 {
      assert z[p + 2] == y[p + 1] && z[p + 3] == y[p + 2];
    }
  }

  lemma HeadSuffixed(y: seq<Token>, s: seq<Token>, p: nat)
    requires Head(y, p) && |s| >= 2 && s[0].kind == LBrack && (s[1].kind == RBrack || Starter(s[1].kind, OR))
    ensures Head(y + s, p)
  {
    var z := y + s;
    if |y| == p + 1 {
      assert z[p + 1] == s[0] && z[p + 2] == s[1];
    }
  }

  /** `Classified` in terms of the tokens: no suffix, and at most one prefix, or two of
      which the second is `ref`. */
  lemma {:induction false} ClassifiedByTokens(t: Type)
    requires GoodType(t)
    ensures var y := YieldType(t);
            Classified(t) <==>
            |y| == Prefixes(t) + 1 && (Prefixes(t) <= 1 || (Prefixes(t) == 2 && y[1].kind == WordRef))
  {
    NoSuffixTokens(t);
    match t
    case RefTo(u) =>
      NoSuffixTokens(u);
      TypeHead(u);
      if u.RefTo? || u.ConstOf? {
        NoSuffixTokens(u.target);
        TypeHead(u.target);
      }
    case ConstOf(u) =>
      NoSuffixTokens(u);
      TypeHead(u);
      if u.RefTo? || u.ConstOf? {
        NoSuffixTokens(u.target);
        TypeHead(u.target);
      }
    case _ =>
  }

  /** A type's length is its prefixes and one, exactly when it has no array suffix. */
  lemma {:induction false} NoSuffixTokens(t: Type)
    ensures |YieldType(t)| >= Prefixes(t) + 1
    ensures t.ArrayOf? || t.SizedOf? ==> |YieldType(t)| > Prefixes(t) + 1
    ensures t.RefTo? || t.ConstOf?
            ==> (|YieldType(t)| == Prefixes(t) + 1 <==> |YieldType(t.target)| == Prefixes(t.target) + 1)
  {
    match t
    case RefTo(u) => NoSuffixTokens(u);
    case ConstOf(u) => NoSuffixTokens(u);
    case ArrayOf(u) => NoSuffixTokens(u);
    case SizedOf(u, e) => NoSuffixTokens(u);
    case _ =>
  }

  /** For any other type the lookahead stops inside the type or on the name. */
  lemma OffsetMisses(t: Type, x: string)
    requires GoodType(t) && !Classified(t)
    ensures var y := YieldType(t) + [Name(x)];
            var o := Offset(y[0].kind, y[1].kind);
            o < |y| && y[o].kind != Equal && y[o].kind != Semicolon
    ensures var y := YieldType(t) + [Name(x)]; y[0].kind == Ident ==> y[1].kind == LBrack
  {
    hide YieldType, Classified, GoodType, Prefixes;
    TypeHead(t);
    ClassifiedByTokens(t);
    NoSuffixTokens(t);
  }

  /** The lookahead classifies exactly: a variable declaration statement of any type is
      recognised as what it is if and only if its type is a simple one, possibly behind
      one `ref` or `const`, or behind two of them the second of which is `ref`, and there
      is no `&&` and no `||` in its value. No type with an array suffix is. */
  lemma {:induction false} LookaheadClassifies(d: Decl, ts: seq<Token>, i: nat, b: Block)
    requires GoodDecl(d) && At(ts, i, YieldStmt(SVar(d)))
    ensures Recognised(SVar(d), ts, i, b) <==> Classified(d.ty) && EveryInDecl(d, NoLogic)
  {
    hide Recognised, StatementRefused, Classified, GoodDecl, EveryInDecl;
    if !Classified(d.ty) {
      NotRecognised(d, ts, i, b);
    } else if EveryInDecl(d, NoLogic) {
      VarStmtDone(d, ts, i, b);
    } else {
      VarStmtRefused(d, ts, i, b);
      RefusedIsNot(SVar(d), ts, i, b);
    }
  }

  lemma RefusedIsNot(s: Statement, ts: seq<Token>, i: nat, b: Block)
    requires StatementRefused(ts, i, b)
    ensures !Recognised(s, ts, i, b)
  {
    hide StmtParser.Statement, BuildStmt, YieldStmt;
  }

  lemma NotRecognised(d: Decl, ts: seq<Token>, i: nat, b: Block)
    requires GoodDecl(d) && !Classified(d.ty) && At(ts, i, YieldStmt(SVar(d)))
    ensures !Recognised(SVar(d), ts, i, b)
  {
    hide StmtParser.Statement, Classified, Function, Offset, GoodDecl, YieldStmt, YieldDecl, At;
    MissesTokens(d, ts, i);
    Misses(ts, i, b);
    FunctionIsNoVariable(ts, i);
  }

  /** What the lookahead misses is a function or nothing. */
  lemma Misses(ts: seq<Token>, i: nat, b: Block)
    requires i + 1 < |ts| && IsTypename(ts[i].kind) && !(ts[i].kind == Ident && ts[i + 1].kind in {Equal, Dot})
    requires Look(ts, i + Offset(ts[i].kind, ts[i + 1].kind)) !in {Equal, Semicolon}
    ensures var r := StmtParser.Statement(ts, i, b);
            r == Wrap(Function(ts, i)) || r == Ok(Parsed(Null, i))
  {
    hide VarDecl, Function, Assign, MemberAssign, If, While, Struct, Return, Keyword, Offset, Wrap;
  }

  lemma MissesTokens(d: Decl, ts: seq<Token>, i: nat)
    requires GoodDecl(d) && !Classified(d.ty) && At(ts, i, YieldStmt(SVar(d)))
    ensures i + 1 < |ts| && IsTypename(ts[i].kind) && !(ts[i].kind == Ident && ts[i + 1].kind in {Equal, Dot})
    ensures Look(ts, i + Offset(ts[i].kind, ts[i + 1].kind)) !in {Equal, Semicolon}
  {
    hide Classified, Offset, GoodType, IsTypename;
    var y := YieldType(d.ty) + [Name(d.name)];
    var init := if d.init.Some? then [Sym(Equal)] + Yield(d.init.value) else [];
    hide YieldType, Yield;
    assert YieldStmt(SVar(d)) == y + (init + [Sym(Semicolon)]);
    AtSplit(ts, i, y, init + [Sym(Semicolon)]);
    OffsetMisses(d.ty, d.name);
    TypeStarts(d.ty);
    AtIndex(ts, i, y, 0);
    AtIndex(ts, i, y, 1);
    var o := Offset(y[0].kind, y[1].kind);
    AtIndex(ts, i, y, o);
  }

  /** The types with which a function is told from everything else: as for variables, or
      with a size that begins with a parenthesis where the lookahead looks for one. */
  predicate FunctionType(t: Type) {
    var y, p := YieldType(t), Prefixes(t);
    (p <= 1 || (p == 2 && |y| > 2 && y[1].kind == WordRef)) && (|y| <= p + 2 || y[p + 2].kind == LParen)
  }

  lemma {:induction false} FunctionAheadExactly(t: Type, x: string)
    requires GoodType(t)
    ensures FunctionAhead(t, Name(x)) <==> FunctionType(t)
  {
    hide YieldType, Prefixes, GoodType, Head, Offset, HasSuffix;
    TypeHead(t);
    AheadByTokens(YieldType(t), Prefixes(t), x);
  }

  lemma AheadByTokens(y: seq<Token>, p: nat, x: string)
    requires Head(y, p)
    ensures var z := y + [Name(x), Sym(LParen)];
            var o := Offset(z[0].kind, z[1].kind);
            && o < |z| && !(z[0].kind == Ident && z[1].kind in {Equal, Dot})
            && (z[o].kind == LParen <==>
                (p <= 1 || (p == 2 && |y| > 2 && y[1].kind == WordRef)) && (|y| <= p + 2 || y[p + 2].kind == LParen))
  {
    var z := y + [Name(x), Sym(LParen)];
    assert z[0] == y[0] && z[|y|] == Name(x) && z[|y| + 1] == Sym(LParen);
    assert |y| > 1 ==> z[1] == y[1];
    var o := Offset(z[0].kind, z[1].kind);
    assert o < |y| ==> z[o] == y[o];
  }

  /** The lookahead for functions, exactly: a function statement of any type is recognised
      as what it is if and only if its type has at most one prefix, or two of which the
      second is `ref`, and either no array suffix or a size that begins with a
      parenthesis, and there is no `&&` and no `||` anywhere in it. */
  lemma {:induction false} FunctionClassifies(s: Statement, x: string, ts: seq<Token>, i: nat, b: Block)
    requires s.SFunc? && s.token == Name(x) && GoodType(s.ty) && GoodDecls(s.params)
             && (s.comma ==> s.params != NoDecls)
    requires AcceptedAll(s.body, FuncBlock) && At(ts, i, YieldStmt(s))
    ensures Recognised(s, ts, i, b) <==> FunctionType(s.ty) && EveryInStmt(s, NoLogic)
  {
    hide Recognised, StatementRefused, FunctionType, GoodType, GoodDecls, AcceptedAll, EveryInStmt, YieldStmt,
         FunctionAhead;
    FunctionAheadExactly(s.ty, x);
    if !FunctionType(s.ty) {
      FunctionMissed(s, x, ts, i, b);
    } else if EveryInStmt(s, NoLogic) {
      FuncStmtDone(s, ts, i, b);
    } else {
      FuncStmtRefused(s, ts, i, b);
      RefusedIsNot(s, ts, i, b);
    }
  }

  lemma FunctionMissed(s: Statement, x: string, ts: seq<Token>, i: nat, b: Block)
    requires s.SFunc? && s.token == Name(x) && GoodType(s.ty) && !FunctionAhead(s.ty, s.token)
             && At(ts, i, YieldStmt(s))
    ensures !Recognised(s, ts, i, b)
  {
    hide VarDecl, Function, Assign, MemberAssign, If, While, Struct, Return, Keyword, Offset, GoodType, YieldStmt,
         FunctionAhead, At;
    MissesParenthesis(s, x, ts, i);
  }

  lemma MissesParenthesis(s: Statement, x: string, ts: seq<Token>, i: nat)
    requires s.SFunc? && s.token == Name(x) && GoodType(s.ty) && !FunctionAhead(s.ty, s.token)
             && At(ts, i, YieldStmt(s))
    ensures i + 1 < |ts| && IsTypename(ts[i].kind) && !(ts[i].kind == Ident && ts[i + 1].kind in {Equal, Dot})
    ensures Look(ts, i + Offset(ts[i].kind, ts[i + 1].kind)) != LParen
  {
    hide GoodType, YieldType, YieldParams, YieldBlock, At, HasSuffix, IsTypename, Prefixes;
    var y := YieldType(s.ty) + [s.token, Sym(LParen)];
    var rest := YieldParams(s.params, s.comma) + ([Sym(RParen)] + YieldBlock(s.body));
    assert YieldStmt(s) == y + rest;
    AtSplit(ts, i, y, rest);
    TypeHead(s.ty);
    TypeStarts(s.ty);
    AtIndex(ts, i, y, 0);
    AtIndex(ts, i, y, 1);
    AtIndex(ts, i, y, Offset(y[0].kind, y[1].kind));
  }

  lemma FunctionIsNoVariable(ts: seq<Token>, i: nat)
    ensures Function(ts, i).Ok? ==> Function(ts, i).value.node.kind == DeclFunction
  {
    hide Signature, BlockOf;
  }

  // ----- the else chain

  /** A function whose body is one `if`, the body of which begins with `s`. */
  function Guarding(t: Type, x: Token, c: Expr, s: Statement, rest: Statements, alt: ElsePart): Statements {
    var branch := SIf(Guarded(c, Statements(s, rest), alt));
    Statements(SFunc(t, x, NoDecls, false, Statements(branch, NoStatements)), NoStatements)
  }

  /** An else part erases the first statement of the body it follows: the parser returns
      the same tree for accepted programs that differ there only. */
  lemma {:induction false} ElseErasesFirstStatement(t: Type, x: Token, c: Expr, s: Statement, s': Statement,
                                                    rest: Statements, alt: ElsePart)
    requires alt != NoElse
    requires var p := Guarding(t, x, c, s, rest, alt); AcceptedAll(p, NoBlock) && EveryIn(p, NoLogic)
    requires var q := Guarding(t, x, c, s', rest, alt); AcceptedAll(q, NoBlock) && EveryIn(q, NoLogic)
    ensures Program(TokensOf(Guarding(t, x, c, s, rest, alt))).Ok?
    ensures Program(TokensOf(Guarding(t, x, c, s, rest, alt))) == Program(TokensOf(Guarding(t, x, c, s', rest, alt)))
  {
    hide Program, AcceptedAll, EveryIn, TokensOf;
    ProgramRoundTrip(Guarding(t, x, c, s, rest, alt));
    ProgramRoundTrip(Guarding(t, x, c, s', rest, alt));
    SameBranch(c, s, s', rest, alt);
    SameGuarding(t, x, c, s, s', rest, alt);
  }

  lemma SameGuarding(t: Type, x: Token, c: Expr, s: Statement, s': Statement, rest: Statements, alt: ElsePart)
    requires BuildStmt(SIf(Guarded(c, Statements(s, rest), alt)))
             == BuildStmt(SIf(Guarded(c, Statements(s', rest), alt)))
    ensures BuildStmts(Guarding(t, x, c, s, rest, alt)) == BuildStmts(Guarding(t, x, c, s', rest, alt))
  {
    hide BuildGuarded, BuildType;
    var f, f' := Guarding(t, x, c, s, rest, alt).head, Guarding(t, x, c, s', rest, alt).head;
    assert BuildStmts(f.body) == BuildStmts(f'.body);
  }

  lemma SameBranch(c: Expr, s: Statement, s': Statement, rest: Statements, alt: ElsePart)
    requires alt != NoElse
    ensures BuildStmt(SIf(Guarded(c, Statements(s, rest), alt)))
            == BuildStmt(SIf(Guarded(c, Statements(s', rest), alt)))
  {
    var body, body' := Statements(s, rest), Statements(s', rest);
    assert BuildElse(alt) != Null;
    assert BuildStmts(body).Node? && BuildStmts(body').Node?;
    assert AttachElse(BuildStmts(body), BuildElse(alt)) == AttachElse(BuildStmts(body'), BuildElse(alt));
    assert BuildGuarded(StmtIf, Guarded(c, body, alt)) == BuildGuarded(StmtIf, Guarded(c, body', alt));
  }
}
