/** Source programs: how they are written, which of them the parser accepts, which of
    these are legal, and the tree the parser makes of them. */
module Programs {
  import opened Outcomes
  import opened Tokens
  import opened Nodes
  import opened Operators
  import opened Syntax
  import opened Printer
  import opened ExprParser
  import opened StmtParser

  datatype Basic = IntType | FloatType | BoolType | VoidType {
    function TokenKind(): Kind {
      match this
      case IntType => WordInt
      case FloatType => WordFloat
      case BoolType => WordBool
      case VoidType => WordVoid
    }

    function NodeKind(): NodeKind {
      match this
      case IntType => TypeInt
      case FloatType => TypeFloat
      case BoolType => TypeBool
      case VoidType => TypeVoid
    }
  }

  datatype Type =
    | Base(basic: Basic)
    | User(name: string)
    | RefTo(target: Type)
    | ConstOf(target: Type)
    | ArrayOf(item: Type)
    | SizedOf(item: Type, size: Expr)

  datatype Decl = Decl(ty: Type, name: string, init: Option<Expr>)

  datatype Decls = NoDecls | Decls(head: Decl, rest: Decls)

  /** Statements as they can be written. Three liberties the parser takes are part of it:
      a function's name can be any token, a comma may stand behind its last parameter, and
      a struct may be left open, without the semicolon behind its last member. */
  datatype Statement =
    | SAssign(name: string, value: Expr)
    | SMember(name: string, tail: Expr, value: Expr)
    | SVar(decl: Decl)
    | SFunc(ty: Type, token: Token, params: Decls, comma: bool, body: Statements)
    | SStruct(name: string, members: Decls, open: bool)
    | SIf(guarded: Guarded)
    | SWhile(cond: Expr, body: Statements)
    | SBreak
    | SContinue
    | SReturn(value: Expr)

  /** What follows the keyword of an `if` or `else if`. */
  datatype Guarded = Guarded(cond: Expr, body: Statements, alt: ElsePart)

  datatype ElsePart = NoElse | ElseBlock(body: Statements) | ElseIf(guarded: Guarded)

  datatype Statements = NoStatements | Statements(head: Statement, rest: Statements)

  // ----- tokens

  function YieldType(t: Type): (s: seq<Token>)
    ensures |s| > 0
  {
    match t
    case Base(b) => [Sym(b.TokenKind())]
    case User(x) => [Name(x)]
    case RefTo(u) => [Sym(WordRef)] + YieldType(u)
    case ConstOf(u) => [Sym(WordConst)] + YieldType(u)
    case ArrayOf(u) => YieldType(u) + [Sym(LBrack), Sym(RBrack)]
    case SizedOf(u, e) => YieldType(u) + ([Sym(LBrack)] + (Yield(e) + [Sym(RBrack)]))
  }

  function YieldDecl(d: Decl): (s: seq<Token>)
    ensures |s| > 0
  {
    YieldType(d.ty) + ([Name(d.name)] + if d.init.Some? then [Sym(Equal)] + Yield(d.init.value) else [])
  }

  function YieldParams(ds: Decls, comma: bool): seq<Token> {
    if ds == NoDecls then []
    else if ds.rest == NoDecls then YieldDecl(ds.head) + if comma then [Sym(Comma)] else []
    else YieldDecl(ds.head) + ([Sym(Comma)] + YieldParams(ds.rest, comma))
  }

  function YieldMembers(ds: Decls, open: bool): seq<Token> {
    if ds == NoDecls then []
    else if ds.rest == NoDecls && open then YieldDecl(ds.head)
    else YieldDecl(ds.head) + ([Sym(Semicolon)] + YieldMembers(ds.rest, open))
  }

  function YieldStmt(s: Statement): (y: seq<Token>)
    ensures |y| > 1
  {
    match s
    case SAssign(x, e) => [Name(x), Sym(Equal)] + (Yield(e) + [Sym(Semicolon)])
    case SMember(x, t, e) => [Name(x), Sym(Dot)] + (Yield(t) + ([Sym(Equal)] + (Yield(e) + [Sym(Semicolon)])))
    case SVar(d) => YieldDecl(d) + [Sym(Semicolon)]
    case SFunc(t, x, ps, comma, body) =>
      YieldType(t) + ([x, Sym(LParen)] + (YieldParams(ps, comma) + ([Sym(RParen)] + YieldBlock(body))))
    case SStruct(x, ms, open) => [Sym(WordStruct), Name(x), Sym(LCurly)] + (YieldMembers(ms, open) + [Sym(RCurly)])
    case SIf(g) => [Sym(WordIf)] + YieldGuarded(g)
    case SWhile(c, body) => [Sym(WordWhile)] + (YieldCondition(c) + YieldBlock(body))
    case SBreak => [Sym(WordBreak), Sym(Semicolon)]
    case SContinue => [Sym(WordContinue), Sym(Semicolon)]
    case SReturn(e) => [Sym(WordReturn)] + (Yield(e) + [Sym(Semicolon)])
  }

  function YieldCondition(c: Expr): (y: seq<Token>)
    ensures |y| > 1
  {
    [Sym(LParen)] + (Yield(c) + [Sym(RParen)])
  }

  function YieldElse(alt: ElsePart): seq<Token> {
    match alt
    case NoElse => []
    case ElseBlock(body) => [Sym(WordElse)] + YieldBlock(body)
    case ElseIf(g) => [Sym(WordElseIf)] + YieldGuarded(g)
  }

  function YieldGuarded(g: Guarded): (y: seq<Token>)
    ensures |y| > 1
  {
    YieldCondition(g.cond) + (YieldBlock(g.body) + YieldElse(g.alt))
  }

  function YieldBlock(p: Statements): (y: seq<Token>)
    ensures |y| > 1
    decreases p, 1
  {
    [Sym(LCurly)] + (YieldStmts(p) + [Sym(RCurly)])
  }

  function YieldStmts(p: Statements): seq<Token>
    decreases p, 0
  {
    match p
    case NoStatements => []
    case Statements(s, rest) => YieldStmt(s) + YieldStmts(rest)
  }

  // ----- what is accepted, and what is legal

  /** A grammatical expression that a complete program can contain. */
  predicate GoodExpr(e: Expr) {
    Source(e) && Fits(e, OR, false)
  }

  /** Array suffixes: the parser gives a suffix to the innermost type that can take one. */
  predicate GoodType(t: Type) {
    match t
    case Base(_) => true
    case User(_) => true
    case RefTo(u) => GoodType(u)
    case ConstOf(u) => GoodType(u)
    case ArrayOf(u) => GoodType(u) && TakesSuffix(u)
    case SizedOf(u, e) => GoodType(u) && TakesSuffix(u) && GoodExpr(e)
  }

  predicate HasSuffix(t: Type) {
    t.ArrayOf? || t.SizedOf?
  }

  predicate TakesSuffix(t: Type) {
    match t
    case Base(_) => true
    case User(_) => true
    case RefTo(u) => HasSuffix(u)
    case ConstOf(u) => HasSuffix(u)
    case _ => false
  }

  predicate Simple(t: Type) {
    t.Base? || t.User?
  }

  /** The types a variable or function statement can be declared with: those for which
      the fixed lookahead lands on the token behind the name. */
  predicate Classified(t: Type) {
    match t
    case Base(_) => true
    case User(_) => true
    case RefTo(u) => Simple(u) || (u.RefTo? && Simple(u.target))
    case ConstOf(u) => Simple(u) || (u.RefTo? && Simple(u.target))
    case _ => false
  }

  predicate GoodDecl(d: Decl) {
    GoodType(d.ty) && (d.init.Some? ==> GoodExpr(d.init.value))
  }

  predicate GoodDecls(ds: Decls) {
    ds == NoDecls || (GoodDecl(ds.head) && GoodDecls(ds.rest))
  }

  /** The first tokens of a function tell it from everything else. */
  predicate FunctionAhead(t: Type, x: Token) {
    var y := YieldType(t) + [x, Sym(LParen)];
    var o := Offset(y[0].kind, y[1].kind);
    && o < |y| && y[o].kind == LParen
    && !(y[0].kind == Ident && y[1].kind in {Equal, Dot})
    && (x.kind == LBrack ==> HasSuffix(t))
  }

  /** What the parser accepts in a block. */
  predicate Accepted(s: Statement, b: Block) {
    match s
    case SAssign(_, e) => GoodExpr(e)
    case SMember(_, t, e) => Source(t) && Fits(t, FACTOR, true) && GoodExpr(e)
    case SVar(d) => Classified(d.ty) && GoodDecl(d)
    case SFunc(t, x, ps, comma, body) =>
      && GoodType(t) && FunctionAhead(t, x) && GoodDecls(ps) && (comma ==> ps != NoDecls)
      && AcceptedAll(body, FuncBlock)
    case SStruct(_, ms, open) => b == NoBlock && GoodDecls(ms) && (open ==> ms != NoDecls)
    case SIf(g) => b != NoBlock && AcceptedGuarded(g, b)
    case SWhile(c, body) => b != NoBlock && GoodExpr(c) && AcceptedAll(body, LoopBlock)
    case SBreak => b == LoopBlock
    case SContinue => b == LoopBlock
    case SReturn(e) => b == FuncBlock && GoodExpr(e)
  }

  predicate AcceptedElse(alt: ElsePart, b: Block) {
    match alt
    case NoElse => true
    case ElseBlock(body) => AcceptedAll(body, b)
    case ElseIf(g) => AcceptedGuarded(g, b)
  }

  predicate AcceptedGuarded(g: Guarded, b: Block) {
    GoodExpr(g.cond) && AcceptedAll(g.body, b) && AcceptedElse(g.alt, b)
  }

  predicate AcceptedAll(p: Statements, b: Block) {
    p == NoStatements || (Accepted(p.head, b) && AcceptedAll(p.rest, b))
  }

  /** What is accepted without any of the liberties, and with function types for which
      the lookahead lands behind the name and not on a parenthesis inside a size. */
  predicate Legal(s: Statement, b: Block) {
    match s
    case SAssign(_, e) => GoodExpr(e)
    case SMember(_, t, e) => Source(t) && Fits(t, FACTOR, true) && GoodExpr(e)
    case SVar(d) => Classified(d.ty) && GoodDecl(d)
    case SFunc(t, x, ps, comma, body) =>
      Classified(t) && x.kind == Ident && x.value.Str? && !comma && GoodDecls(ps) && LegalAll(body, FuncBlock)
    case SStruct(_, ms, open) => b == NoBlock && GoodDecls(ms) && !open
    case SIf(g) => b != NoBlock && LegalGuarded(g, b)
    case SWhile(c, body) => b != NoBlock && GoodExpr(c) && LegalAll(body, LoopBlock)
    case SBreak => b == LoopBlock
    case SContinue => b == LoopBlock
    case SReturn(e) => b == FuncBlock && GoodExpr(e)
  }

  predicate LegalElse(alt: ElsePart, b: Block) {
    match alt
    case NoElse => true
    case ElseBlock(body) => LegalAll(body, b)
    case ElseIf(g) => LegalGuarded(g, b)
  }

  predicate LegalGuarded(g: Guarded, b: Block) {
    GoodExpr(g.cond) && LegalAll(g.body, b) && LegalElse(g.alt, b)
  }

  predicate LegalAll(p: Statements, b: Block) {
    p == NoStatements || (Legal(p.head, b) && LegalAll(p.rest, b))
  }

  // ----- trees

  function NameNode(x: string): Node {
    Leaf(ConstVarname, Str(x))
  }

  function BuildType(t: Type): Node {
    match t
    case Base(b) => Mk(b.NodeKind(), Null, Null)
    case User(x) => Mk(TypeUser, NameNode(x), Null)
    case RefTo(u) => Mk(DeclReference, BuildType(u), Null)
    case ConstOf(u) => Mk(DeclConst, BuildType(u), Null)
    case ArrayOf(u) => Mk(DeclVarNosizedArray, BuildType(u), Null)
    case SizedOf(u, e) => Mk(DeclVarSizedArray, BuildType(u), Build(e))
  }

  function BuildDecl(d: Decl): Node {
    Mk(DeclVar, BuildType(d.ty),
       if d.init.Some? then Mk(StmtAssign, NameNode(d.name), Build(d.init.value)) else NameNode(d.name))
  }

  function BuildDecls(kind: NodeKind, ds: Decls): Node
    decreases ds
  {
    if ds == NoDecls then Null else Mk(kind, BuildDecl(ds.head), BuildDecls(kind, ds.rest))
  }

  function BuildStmt(s: Statement): Node {
    match s
    case SAssign(x, e) => Mk(StmtAssign, NameNode(x), Build(e))
    case SMember(x, t, e) => Mk(StmtAssign, Build(Member(x, t)), Build(e))
    case SVar(d) => BuildDecl(d)
    case SFunc(t, x, ps, _, body) =>
      Mk(DeclFunction,
         Mk(DeclFunctionSignature, Mk(DeclTypeVarnamePair, BuildType(t), Leaf(ConstVarname, x.value)),
            BuildDecls(DeclVarList, ps)),
         BuildStmts(body))
    case SStruct(x, ms, _) => Mk(DeclStruct, NameNode(x), BuildDecls(DeclMemberList, ms))
    case SIf(g) => BuildGuarded(StmtIf, g)
    case SWhile(c, body) => Mk(StmtWhile, Build(c), BuildStmts(body))
    case SBreak => Mk(StmtBreak, Null, Null)
    case SContinue => Mk(StmtContinue, Null, Null)
    case SReturn(e) => Mk(StmtReturn, Build(e), Null)
  }

  /** An else part is hung over the first statement of the body. */
  function HangElse(body: Node, alt: Node): Node {
    if alt == Null then body else AttachElse(body, alt)
  }

  function BuildElse(alt: ElsePart): Node {
    match alt
    case NoElse => Null
    case ElseBlock(body) => Mk(StmtElse, Null, BuildStmts(body))
    case ElseIf(g) => BuildGuarded(StmtElseIf, g)
  }

  function BuildGuarded(kind: NodeKind, g: Guarded): Node
    decreases g
  {
    Mk(kind, Build(g.cond), HangElse(BuildStmts(g.body), BuildElse(g.alt)))
  }

  function BuildStmts(p: Statements): Node {
    match p
    case NoStatements => Null
    case Statements(s, rest) => Mk(Stmt, BuildStmt(s), BuildStmts(rest))
  }

  // ----- every expression of a program

  predicate EveryInType(t: Type, ok: Expr -> bool) {
    match t
    case Base(_) => true
    case User(_) => true
    case RefTo(u) => EveryInType(u, ok)
    case ConstOf(u) => EveryInType(u, ok)
    case ArrayOf(u) => EveryInType(u, ok)
    case SizedOf(u, e) => EveryInType(u, ok) && ok(e)
  }

  predicate EveryInDecl(d: Decl, ok: Expr -> bool) {
    EveryInType(d.ty, ok) && (d.init.Some? ==> ok(d.init.value))
  }

  predicate EveryInDecls(ds: Decls, ok: Expr -> bool) {
    ds == NoDecls || (EveryInDecl(ds.head, ok) && EveryInDecls(ds.rest, ok))
  }

  predicate EveryInStmt(s: Statement, ok: Expr -> bool) {
    match s
    case SAssign(_, e) => ok(e)
    case SMember(_, t, e) => ok(t) && ok(e)
    case SVar(d) => EveryInDecl(d, ok)
    case SFunc(t, _, ps, _, body) => EveryInType(t, ok) && EveryInDecls(ps, ok) && EveryIn(body, ok)
    case SStruct(_, ms, _) => EveryInDecls(ms, ok)
    case SIf(g) => EveryInGuarded(g, ok)
    case SWhile(c, body) => ok(c) && EveryIn(body, ok)
    case SBreak => true
    case SContinue => true
    case SReturn(e) => ok(e)
  }

  predicate EveryInElse(alt: ElsePart, ok: Expr -> bool) {
    match alt
    case NoElse => true
    case ElseBlock(body) => EveryIn(body, ok)
    case ElseIf(g) => EveryInGuarded(g, ok)
  }

  predicate EveryInGuarded(g: Guarded, ok: Expr -> bool) {
    ok(g.cond) && EveryIn(g.body, ok) && EveryInElse(g.alt, ok)
  }

  predicate EveryIn(p: Statements, ok: Expr -> bool) {
    p == NoStatements || (EveryInStmt(p.head, ok) && EveryIn(p.rest, ok))
  }
}
