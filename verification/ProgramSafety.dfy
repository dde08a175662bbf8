/** When the parser of whole programs reads outside the token array. */
module ProgramSafety {
  import opened Outcomes
  import opened Tokens
  import opened Nodes
  import opened Operators
  import opened ExprParser
  import ExprCases
  import opened ExprShapes
  import opened CursorSafety
  import opened StmtParser
  import opened StmtCases
  import opened Syntax
  import opened Programs
  import opened ProgramParts
  import opened ProgramComplete
  import opened ProgramSound
  import opened ProgramTheorems

  /** A plain assignment as the very first tokens. */
  predicate AssignsFirst(ts: seq<Token>, i: nat) {
    i == 0 && |ts| > 1 && ts[0].kind == Ident && ts[1].kind == Equal
  }

  // ----- types and declarations

  lemma {:induction false} PlainTypeInBounds(ts: seq<Token>, i: nat)
    requires Terminated(ts) && i < |ts|
    ensures Inside(PlainType(ts, i), |ts|)
    decreases |ts| - i, 0
  {
    hide TypeName;
    if ts[i].kind == WordRef || ts[i].kind == WordConst {
      TypeInBounds(ts, i + 1);
    }
  }

  lemma {:induction false} TypeInBounds(ts: seq<Token>, i: nat)
    requires Terminated(ts) && i < |ts|
    ensures Inside(TypeName(ts, i), |ts|)
    decreases |ts| - i, 1
  {
    hide PlainType, Level;
    PlainTypeInBounds(ts, i);
    if PlainType(ts, i).Ok? && PlainType(ts, i).value.node != Null {
      var j := PlainType(ts, i).value.next;
      if ts[j].kind == LBrack {
        LevelInBounds(OR, ts, j + 1);
      }
    }
  }

  lemma AssignInBounds(ts: seq<Token>, i: nat)
    requires Terminated(ts) && i < |ts| && !AssignsFirst(ts, i)
    ensures Inside(Assign(ts, i), |ts|)
  {
    hide Level, ArrayIndex;
    if i + 1 < |ts| && ts[i].kind == Ident && ts[i + 1].kind == Equal {
      assert MemberAccess(ts, i).Ok? && MemberAccess(ts, i).value.next == i + 1;
      LevelInBounds(OR, ts, i + 2);
    }
  }

  lemma VarDeclInBounds(ts: seq<Token>, i: nat)
    requires Terminated(ts) && i < |ts|
    ensures Inside(VarDecl(ts, i), |ts|)
  {
    hide TypeName, Assign;
    TypeInBounds(ts, i);
    if TypeName(ts, i).Ok? && TypeName(ts, i).value.node != Null {
      AssignInBounds(ts, TypeName(ts, i).value.next);
    }
  }

  lemma {:induction false} DeclListInBounds(members: bool, ts: seq<Token>, i: nat)
    requires Terminated(ts) && i < |ts|
    ensures Inside(DeclList(members, ts, i), |ts|)
    decreases |ts| - i
  {
    hide DeclList, VarDecl;
    DeclListCases(members, ts, i);
    if IsTypename(ts[i].kind) {
      VarDeclInBounds(ts, i);
      if VarDecl(ts, i).Ok? {
        var j := VarDecl(ts, i).value.next;
        if ts[j].kind == (if members then Semicolon else Comma) {
          DeclListInBounds(members, ts, j + 1);
        }
      }
    }
  }

  lemma StructInBounds(ts: seq<Token>, i: nat)
    requires Terminated(ts) && i + 1 < |ts|
    ensures Inside(Struct(ts, i), |ts|)
  {
    hide Struct, DeclList;
    StructCases(ts, i);
    if ts[i + 1].kind == Ident && ts[i + 2].kind == LCurly {
      DeclListInBounds(true, ts, i + 3);
    }
  }

  lemma SignatureInBounds(ts: seq<Token>, i: nat)
    requires Terminated(ts) && i < |ts| && !(TypeName(ts, i).Ok? && TypeName(ts, i).value.next == |ts| - 1)
    ensures Inside(Signature(ts, i), |ts|)
  {
    hide Signature, TypeName, DeclList;
    TypeInBounds(ts, i);
    SignatureCases(ts, i);
    if TypeVarname(ts, i).Ok? {
      var j := TypeVarname(ts, i).value.next;
      if ts[j].kind == LParen && ts[j + 1].kind != RParen {
        DeclListInBounds(false, ts, j + 1);
      }
    }
  }

  // ----- statements

  lemma ConditionInBounds(ts: seq<Token>, i: nat)
    requires Terminated(ts) && i + 1 < |ts|
    ensures Inside(Condition(ts, i), |ts|)
  {
    hide Level;
    if ts[i + 1].kind == LParen {
      LevelInBounds(OR, ts, i + 2);
    }
  }

  lemma ReturnInBounds(ts: seq<Token>, i: nat)
    requires Terminated(ts) && i + 1 < |ts|
    ensures Inside(Return(ts, i), |ts|)
  {
    hide Level;
    LevelInBounds(OR, ts, i + 1);
  }

  lemma MemberAssignInBounds(ts: seq<Token>, i: nat)
    requires Terminated(ts) && i + 1 < |ts| && ts[i].kind == Ident && ts[i + 1].kind == Dot
    ensures Inside(MemberAssign(ts, i), |ts|)
  {
    hide Level;
    LevelInBounds(FACTOR, ts, i + 2);
    assert Inside(MemberAccess(ts, i), |ts|);
    if MemberAccess(ts, i).Ok? {
      var j := MemberAccess(ts, i).value.next;
      if ts[j].kind == Equal {
        LevelInBounds(OR, ts, j + 1);
      }
    }
  }

  lemma KeywordInBounds(ts: seq<Token>, i: nat, kind: NodeKind)
    requires Terminated(ts) && i + 1 < |ts|
    ensures Inside(Keyword(ts, i, kind), |ts|)
  {
  }

  lemma SemiInBounds(r: Result<Parsed>, ts: seq<Token>)
    requires Terminated(ts) && Inside(r, |ts|)
    ensures Semi(r, ts) != OutOfBounds
  {
  }

  lemma WrapInBounds(r: Result<Parsed>)
    ensures Wrap(r) == OutOfBounds <==> r == OutOfBounds
  {
  }

  // ----- programs that end where the name of a function should be

  /** A program that ends too early: behind finished statements, in bodies that are still
      open, there is the type of a function and then nothing. */
  datatype Opened =
    | Nameless(ty: Type)
    | Behind(s: Statement, rest: Opened)
    | InFunction(ty: Type, token: Token, params: Decls, comma: bool, body: Opened)
    | InWhile(cond: Expr, body: Opened)
    | InIf(branch: OpenedIf)

  /** What follows the keyword of an `if` or `else if`. */
  datatype OpenedIf =
    | InBody(cond: Expr, open: Opened)
    | InElse(cond: Expr, body: Statements, open: Opened)
    | InElseIf(cond: Expr, body: Statements, branch: OpenedIf)

  function YieldOpened(o: Opened): (y: seq<Token>)
    ensures |y| > 0
  {
    match o
    case Nameless(t) => YieldType(t)
    case Behind(s, rest) => YieldStmt(s) + YieldOpened(rest)
    case InFunction(t, x, ps, comma, body) => YieldSignature(t, x, ps, comma) + ([Sym(LCurly)] + YieldOpened(body))
    case InWhile(c, body) => [Sym(WordWhile)] + (YieldCondition(c) + ([Sym(LCurly)] + YieldOpened(body)))
    case InIf(g) => [Sym(WordIf)] + YieldOpenedIf(g)
  }

  function YieldOpenedIf(g: OpenedIf): (y: seq<Token>)
    ensures |y| > 0
  {
    match g
    case InBody(c, o) => YieldCondition(c) + ([Sym(LCurly)] + YieldOpened(o))
    case InElse(c, p, o) => YieldCondition(c) + (YieldBlock(p) + ([Sym(WordElse)] + ([Sym(LCurly)] + YieldOpened(o))))
    case InElseIf(c, p, g1) => YieldCondition(c) + (YieldBlock(p) + ([Sym(WordElseIf)] + YieldOpenedIf(g1)))
  }

  /** The lookahead stops on a parenthesis inside the type: it has a size that begins
      with one. */
  predicate ParenthesisInside(t: Type) {
    var y := YieldType(t);
    |y| > 1 && var o := Offset(y[0].kind, y[1].kind); o < |y| && y[o].kind == LParen
  }

  /** What is finished is accepted in the block it stands in. */
  predicate OkOpened(o: Opened, b: Block) {
    match o
    case Nameless(t) => GoodType(t) && EveryInType(t, NoLogic) && ParenthesisInside(t)
    case Behind(s, rest) => Accepted(s, b) && EveryInStmt(s, NoLogic) && OkOpened(rest, b)
    case InFunction(t, x, ps, comma, body) =>
      && GoodType(t) && EveryInType(t, NoLogic) && FunctionAhead(t, x)
      && GoodDecls(ps) && EveryInDecls(ps, NoLogic) && (comma ==> ps != NoDecls)
      && OkOpened(body, FuncBlock)
    case InWhile(c, body) => b != NoBlock && GoodExpr(c) && NoLogic(c) && OkOpened(body, LoopBlock)
    case InIf(g) => b != NoBlock && OkOpenedIf(g, b)
  }

  predicate OkOpenedIf(g: OpenedIf, b: Block) {
    match g
    case InBody(c, o) => GoodExpr(c) && NoLogic(c) && OkOpened(o, b)
    case InElse(c, p, o) => GoodExpr(c) && NoLogic(c) && AcceptedAll(p, b) && EveryIn(p, NoLogic) && OkOpened(o, b)
    case InElseIf(c, p, g1) =>
      GoodExpr(c) && NoLogic(c) && AcceptedAll(p, b) && EveryIn(p, NoLogic) && OkOpenedIf(g1, b)
  }

  /** From `i` on the tokens are the writing of `o` and the end marker. */
  predicate Opens(o: Opened, ts: seq<Token>, i: nat, b: Block) {
    OkOpened(o, b) && At(ts, i, YieldOpened(o)) && i + |YieldOpened(o)| + 1 == |ts|
  }

  /** The same behind an opening brace. */
  predicate BraceOpens(o: Opened, ts: seq<Token>, i: nat, b: Block) {
    i < |ts| && ts[i] == Sym(LCurly) && Opens(o, ts, i + 1, b)
  }

  predicate IfOpens(g: OpenedIf, ts: seq<Token>, i: nat, b: Block) {
    OkOpenedIf(g, b) && At(ts, i, YieldOpenedIf(g)) && i + |YieldOpenedIf(g)| + 1 == |ts|
  }

  lemma BraceAt(o: Opened, ts: seq<Token>, i: nat, b: Block)
    ensures BraceOpens(o, ts, i, b)
            <==> OkOpened(o, b) && At(ts, i, [Sym(LCurly)] + YieldOpened(o)) && i + 1 + |YieldOpened(o)| + 1 == |ts|
  {
    hide At, YieldOpened, OkOpened;
    AtOne(ts, i, Sym(LCurly));
    AtSplit(ts, i, [Sym(LCurly)], YieldOpened(o));
  }

  // ----- reading outside comes from such a program

  lemma NamelessOpens(t: Type, ts: seq<Token>, i: nat, b: Block, p: Parsed)
    requires TypeAt(t, ts, i, p.node, p.next) && p.next + 1 == |ts| && Terminated(ts) && i + 1 < |ts|
    requires Look(ts, i + Offset(ts[i].kind, ts[i + 1].kind)) == LParen
    ensures Opens(Nameless(t), ts, i, b)
  {
    hide YieldType, GoodType, EveryInType, At, Offset;
    var y := YieldType(t);
    AtIndex(ts, i, y, 0);
    if |y| == 1 {
      assert ts[i + 1].kind == Eof;
      OffsetReaches(ts[i].kind, ts[i + 1].kind);
    } else {
      AtIndex(ts, i, y, 1);
      var o := Offset(y[0].kind, y[1].kind);
      if o < |y| {
        AtIndex(ts, i, y, o);
      }
    }
  }

  lemma OffsetReaches(k: Kind, next: Kind)
    ensures Offset(k, next) >= 2
  {
  }

  lemma FunctionFailsIn(ts: seq<Token>, i: nat)
    requires Function(ts, i) == OutOfBounds && Signature(ts, i) != OutOfBounds
    ensures Signature(ts, i).Ok? && BlockOf(ts, Signature(ts, i).value.next, FuncBlock) == OutOfBounds
  {
    hide Signature, BlockOf;
  }

  lemma SignatureEnds(ts: seq<Token>, i: nat)
    requires Terminated(ts) && Signature(ts, i).Ok?
    ensures Signature(ts, i).value.next < |ts|
  {
    hide TypeVarname, DeclList;
  }

  lemma {:induction false} FunctionOpens(ts: seq<Token>, i: nat, b: Block) returns (o: Opened)
    requires Proper(ts) && Terminated(ts) && i + 1 < |ts| && IsTypename(ts[i].kind)
    requires !(ts[i].kind == Ident && ts[i + 1].kind in {Equal, Dot})
    requires Look(ts, i + Offset(ts[i].kind, ts[i + 1].kind)) == LParen && Function(ts, i) == OutOfBounds
    ensures Opens(o, ts, i, b) && !o.Behind?
    decreases |ts| - i, 2
  {
    hide Function, Signature, BlockOf, SignatureAt, TypeAt, TypeName, Offset, IsTypename, Proper, Opens, BraceOpens;
    TypeInBounds(ts, i);
    if TypeName(ts, i).Ok? && TypeName(ts, i).value.next == |ts| - 1 {
      var t := SoundTypeName(ts, i);
      NamelessOpens(t, ts, i, b, TypeName(ts, i).value);
      o := Nameless(t);
    } else {
      SignatureInBounds(ts, i);
      FunctionFailsIn(ts, i);
      SignatureEnds(ts, i);
      var sig := Signature(ts, i).value;
      var t, x, ps, comma := SoundSignature(ts, i);
      AheadOf(t, x, ps, comma, ts, i, sig.node, sig.next);
      var body := BlockOpens(ts, sig.next, FuncBlock);
      o := InFunction(t, x, ps, comma, body);
      InFunctionOpens(t, x, ps, comma, body, ts, i, b, sig);
    }
  }

  lemma InFunctionOpens(t: Type, x: Token, ps: Decls, comma: bool, body: Opened, ts: seq<Token>, i: nat, b: Block,
                        sig: Parsed)
    requires SignatureAt(t, x, ps, comma, ts, i, sig.node, sig.next) && FunctionAhead(t, x)
    requires BraceOpens(body, ts, sig.next, FuncBlock)
    ensures Opens(InFunction(t, x, ps, comma, body), ts, i, b)
  {
    hide At, FunctionAhead, YieldSignature, BuildSignature, GoodType, GoodDecls, EveryInType, EveryInDecls, BraceOpens,
         OkOpened, YieldOpened;
    BraceAt(body, ts, sig.next, FuncBlock);
    AtSplit(ts, i, YieldSignature(t, x, ps, comma), [Sym(LCurly)] + YieldOpened(body));
    InFunctionOk(t, x, ps, comma, body, b);
  }

  lemma InFunctionOk(t: Type, x: Token, ps: Decls, comma: bool, body: Opened, b: Block)
    requires GoodType(t) && EveryInType(t, NoLogic) && FunctionAhead(t, x) && OkOpened(body, FuncBlock)
    requires GoodDecls(ps) && EveryInDecls(ps, NoLogic) && (comma ==> ps != NoDecls)
    ensures OkOpened(InFunction(t, x, ps, comma, body), b)
    ensures YieldOpened(InFunction(t, x, ps, comma, body))
            == YieldSignature(t, x, ps, comma) + ([Sym(LCurly)] + YieldOpened(body))
  {
    hide FunctionAhead, YieldSignature, GoodType, GoodDecls, EveryInType, EveryInDecls;
  }

  lemma BlockFailsIn(ts: seq<Token>, i: nat, b: Block)
    requires Terminated(ts) && i < |ts| && BlockOf(ts, i, b) == OutOfBounds
    ensures ts[i].kind == LCurly && i + 1 < |ts|
    ensures Sequence(ts, i + 1, b) == OutOfBounds
            || (Sequence(ts, i + 1, b).Ok? && Sequence(ts, i + 1, b).value.next == |ts|)
  {
    hide Sequence;
  }

  /** A sequence that succeeds ends before the end marker at the latest. */
  lemma SequenceEnds(ts: seq<Token>, i: nat, b: Block)
    requires Proper(ts) && Terminated(ts) && !Dotted(ts, i) && i < |ts| && Sequence(ts, i, b).Ok?
    ensures Sequence(ts, i, b).value.next < |ts|
  {
    hide Sequence, Proper, StopsAt, AcceptedAll, EveryIn;
    var p := SoundSequence(ts, i, b);
    if p.Statements? {
      hide At, YieldStmts;
      StmtsEndWell(p);
      AtIndex(ts, i, YieldStmts(p), |YieldStmts(p)| - 1);
    }
  }

  lemma {:induction false} StmtsEndWell(p: Statements)
    requires p.Statements?
    ensures EndsStatement(YieldStmts(p))
  {
    hide YieldStmt;
    StmtEnds(p.head);
    if p.rest.Statements? {
      StmtsEndWell(p.rest);
      EndsAfter(YieldStmt(p.head), YieldStmts(p.rest));
    } else {
      assert YieldStmt(p.head) + [] == YieldStmt(p.head);
    }
  }

  lemma {:induction false} BlockOpens(ts: seq<Token>, i: nat, b: Block) returns (o: Opened)
    requires Proper(ts) && Terminated(ts) && i < |ts| && BlockOf(ts, i, b) == OutOfBounds
    ensures BraceOpens(o, ts, i, b)
    decreases |ts| - i, 1
  {
    hide BlockOf, Sequence, Opens;
    BlockFailsIn(ts, i, b);
    assert ProperToken(ts[i]);
    if Sequence(ts, i + 1, b).Ok? {
      SequenceEnds(ts, i + 1, b);
    }
    o := SequenceOpens(ts, i + 1, b);
  }

  lemma {:induction false} WhileOpens(ts: seq<Token>, i: nat, b: Block) returns (o: Opened)
    requires Proper(ts) && Terminated(ts) && b != NoBlock && i < |ts| && ts[i].kind == WordWhile
             && While(ts, i) == OutOfBounds
    ensures Opens(o, ts, i, b) && o.InWhile?
    decreases |ts| - i, 2
  {
    hide While, Condition, BlockOf, Opens, BraceOpens;
    assert ProperToken(ts[i]);
    hide Proper;
    ConditionInBounds(ts, i);
    WhileFailsIn(ts, i);
    var c := SoundCondition(ts, i);
    var body := BlockOpens(ts, Condition(ts, i).value.next, LoopBlock);
    o := InWhile(c, body);
    InWhileOpens(c, body, ts, i, b);
  }

  lemma WhileFailsIn(ts: seq<Token>, i: nat)
    requires While(ts, i) == OutOfBounds && Condition(ts, i) != OutOfBounds
    ensures Condition(ts, i).Ok? && BlockOf(ts, Condition(ts, i).value.next, LoopBlock) == OutOfBounds
  {
    hide Condition, BlockOf;
  }

  lemma InWhileOpens(c: Expr, body: Opened, ts: seq<Token>, i: nat, b: Block)
    requires b != NoBlock && i < |ts| && ts[i] == Sym(WordWhile) && GoodExpr(c) && NoLogic(c)
             && At(ts, i + 1, YieldCondition(c))
    requires BraceOpens(body, ts, i + 1 + |YieldCondition(c)|, LoopBlock)
    ensures Opens(InWhile(c, body), ts, i, b)
  {
    hide At, GoodExpr, NoLogic, YieldCondition, BraceOpens, OkOpened, YieldOpened;
    BraceAt(body, ts, i + 1 + |YieldCondition(c)|, LoopBlock);
    AtOne(ts, i, Sym(WordWhile));
    AtSplit(ts, i + 1, YieldCondition(c), [Sym(LCurly)] + YieldOpened(body));
    AtSplit(ts, i, [Sym(WordWhile)], YieldCondition(c) + ([Sym(LCurly)] + YieldOpened(body)));
    InWhileOk(c, body, b);
  }

  lemma InWhileOk(c: Expr, body: Opened, b: Block)
    requires b != NoBlock && GoodExpr(c) && NoLogic(c) && OkOpened(body, LoopBlock)
    ensures OkOpened(InWhile(c, body), b)
    ensures YieldOpened(InWhile(c, body))
            == [Sym(WordWhile)] + (YieldCondition(c) + ([Sym(LCurly)] + YieldOpened(body)))
  {
    hide GoodExpr, NoLogic, YieldCondition;
  }

  /** A block that succeeds ends before the end marker. */
  lemma BlockCloses(ts: seq<Token>, i: nat, b: Block)
    requires Terminated(ts) && BlockOf(ts, i, b).Ok?
    ensures BlockOf(ts, i, b).value.next < |ts|
  {
    hide Sequence;
  }

  lemma {:induction false} BranchOpens(kind: NodeKind, ts: seq<Token>, i: nat, b: Block) returns (g: OpenedIf)
    requires Proper(ts) && Terminated(ts) && i + 1 < |ts| && Branch(kind, ts, i, b) == OutOfBounds
    ensures IfOpens(g, ts, i + 1, b)
    decreases |ts| - i, 2
  {
    hide Branch, Condition, BlockOf, Alternative, BlockAt, IfOpens, BraceOpens, Proper;
    ConditionInBounds(ts, i);
    BranchFailsIn(kind, ts, i, b);
    var c := SoundCondition(ts, i);
    var j := Condition(ts, i).value.next;
    if BlockOf(ts, j, b) == OutOfBounds {
      var o := BlockOpens(ts, j, b);
      g := InBody(c, o);
      InBodyOpens(c, o, ts, i + 1, b);
    } else {
      var q := BlockOf(ts, j, b).value;
      BlockCloses(ts, j, b);
      BranchAlternative(kind, ts, i, b, Condition(ts, i).value, q);
      AlternativeFailsIn(kind, ts, i, b, Condition(ts, i).value, q);
      var p := SoundBlock(ts, j, b);
      g := AlternativeOpens(c, p, ts, i, q, b);
    }
  }

  lemma BranchFailsIn(kind: NodeKind, ts: seq<Token>, i: nat, b: Block)
    requires Branch(kind, ts, i, b) == OutOfBounds && Condition(ts, i) != OutOfBounds
    ensures Condition(ts, i).Ok? && !BlockOf(ts, Condition(ts, i).value.next, b).SyntaxError?
  {
    hide Branch, Condition, BlockOf;
    BranchCondition(kind, ts, i, b);
    if Condition(ts, i).Ok? {
      BranchBody(kind, ts, i, b);
    }
  }

  lemma AlternativeFailsIn(kind: NodeKind, ts: seq<Token>, i: nat, b: Block, c: Parsed, q: Parsed)
    requires Condition(ts, i) == Ok(c) && BlockOf(ts, c.next, b) == Ok(q) && q.next < |ts|
    requires Branch(kind, ts, i, b) == OutOfBounds
    ensures ts[q.next].kind in {WordElse, WordElseIf} && Alternative(ts, q.next, b) == OutOfBounds
  {
    hide Branch, Condition, BlockOf, Alternative, AttachElse;
    BranchAlternative(kind, ts, i, b, c, q);
  }

  lemma InBodyOpens(c: Expr, o: Opened, ts: seq<Token>, i: nat, b: Block)
    requires GoodExpr(c) && NoLogic(c) && At(ts, i, YieldCondition(c)) && BraceOpens(o, ts, i + |YieldCondition(c)|, b)
    ensures IfOpens(InBody(c, o), ts, i, b)
  {
    hide At, GoodExpr, NoLogic, YieldCondition, BraceOpens;
    BraceAt(o, ts, i + |YieldCondition(c)|, b);
    AtSplit(ts, i, YieldCondition(c), [Sym(LCurly)] + YieldOpened(o));
  }

  lemma {:induction false} AlternativeOpens(c: Expr, p: Statements, ts: seq<Token>, i: nat, q: Parsed, b: Block)
    returns (g: OpenedIf)
    requires Proper(ts) && Terminated(ts) && i < q.next < |ts| && ts[q.next].kind in {WordElse, WordElseIf}
    requires Alternative(ts, q.next, b) == OutOfBounds
    requires GoodExpr(c) && NoLogic(c) && At(ts, i + 1, YieldCondition(c))
    requires BlockAt(p, ts, i + 1 + |YieldCondition(c)|, b, q.node, q.next)
    ensures IfOpens(g, ts, i + 1, b)
    decreases |ts| - q.next, 4
  {
    hide Alternative, Branch, BlockOf, BlockAt, IfOpens, BraceOpens, GoodExpr, NoLogic, YieldCondition, At;
    var j := q.next;
    assert ProperToken(ts[j]);
    hide Proper;
    ElsePartIs(ts, j, b);
    if ts[j].kind == WordElseIf {
      var g1 := BranchOpens(StmtElseIf, ts, j, b);
      g := InElseIf(c, p, g1);
      InElseIfOpens(c, p, g1, ts, i + 1, b, q);
    } else {
      ElseFailsIn(ts, j, b);
      var o := BlockOpens(ts, j + 1, b);
      g := InElse(c, p, o);
      InElseOpens(c, p, o, ts, i + 1, b, q);
    }
  }

  lemma ElseFailsIn(ts: seq<Token>, j: nat, b: Block)
    requires j < |ts| && Else(ts, j, b) == OutOfBounds
    ensures BlockOf(ts, j + 1, b) == OutOfBounds
  {
    hide BlockOf;
  }

  lemma InElseOpens(c: Expr, p: Statements, o: Opened, ts: seq<Token>, i: nat, b: Block, q: Parsed)
    requires GoodExpr(c) && NoLogic(c) && At(ts, i, YieldCondition(c))
             && BlockAt(p, ts, i + |YieldCondition(c)|, b, q.node, q.next)
    requires q.next < |ts| && ts[q.next] == Sym(WordElse) && BraceOpens(o, ts, q.next + 1, b)
    ensures IfOpens(InElse(c, p, o), ts, i, b)
  {
    hide At, GoodExpr, NoLogic, YieldCondition, YieldBlock, BraceOpens, AcceptedAll, EveryIn, BuildStmts;
    hide YieldOpened, OkOpened;
    var tail := [Sym(LCurly)] + YieldOpened(o);
    BraceAt(o, ts, q.next + 1, b);
    AtOne(ts, q.next, Sym(WordElse));
    AtSplit(ts, q.next, [Sym(WordElse)], tail);
    AtSplit(ts, i + |YieldCondition(c)|, YieldBlock(p), [Sym(WordElse)] + tail);
    AtSplit(ts, i, YieldCondition(c), YieldBlock(p) + ([Sym(WordElse)] + tail));
  }

  lemma InElseIfOpens(c: Expr, p: Statements, g: OpenedIf, ts: seq<Token>, i: nat, b: Block, q: Parsed)
    requires GoodExpr(c) && NoLogic(c) && At(ts, i, YieldCondition(c))
             && BlockAt(p, ts, i + |YieldCondition(c)|, b, q.node, q.next)
    requires q.next < |ts| && ts[q.next] == Sym(WordElseIf) && IfOpens(g, ts, q.next + 1, b)
    ensures IfOpens(InElseIf(c, p, g), ts, i, b)
  {
    hide At, GoodExpr, NoLogic, YieldCondition, YieldBlock, AcceptedAll, EveryIn, BuildStmts;
    AtOne(ts, q.next, Sym(WordElseIf));
    AtSplit(ts, q.next, [Sym(WordElseIf)], YieldOpenedIf(g));
    AtSplit(ts, i + |YieldCondition(c)|, YieldBlock(p), [Sym(WordElseIf)] + YieldOpenedIf(g));
    AtSplit(ts, i, YieldCondition(c), YieldBlock(p) + ([Sym(WordElseIf)] + YieldOpenedIf(g)));
  }

  /** Of the statements, only functions, loops and branches come to read outside. */
  lemma {:induction false} StatementOpens(ts: seq<Token>, i: nat, b: Block) returns (o: Opened)
    requires Proper(ts) && Terminated(ts) && i < |ts| && !AssignsFirst(ts, i)
    requires StmtParser.Statement(ts, i, b) == OutOfBounds
    ensures Opens(o, ts, i, b) && !o.Behind?
    decreases |ts| - i, 5
  {
    hide StmtParser.Statement, Assign, MemberAssign, Function, VarDecl, Keyword, Wrap, Semi, Proper, Opens, Offset;
    var k := ts[i].kind;
    if k == Ident && Look(ts, i + 1) == Equal {
      StatementIsKeyword(ts, i, b);
      AssignInBounds(ts, i);
      SemiInBounds(Assign(ts, i), ts);
    } else if k == Ident && Look(ts, i + 1) == Dot {
      StatementIsKeyword(ts, i, b);
      MemberAssignInBounds(ts, i);
      SemiInBounds(MemberAssign(ts, i), ts);
    } else if IsTypename(k) {
      DeclarationCases(ts, i, b);
      VarDeclInBounds(ts, i);
      SemiInBounds(VarDecl(ts, i), ts);
      WrapInBounds(Function(ts, i));
      o := FunctionOpens(ts, i, b);
    } else {
      StatementIsNone(ts, i, b);
      o := WordOpens(ts, i, b);
    }
  }

  lemma {:induction false} WordOpens(ts: seq<Token>, i: nat, b: Block) returns (o: Opened)
    requires Proper(ts) && Terminated(ts) && i < |ts| && BeginsIn(ts[i].kind, b)
    requires StmtParser.Statement(ts, i, b) == OutOfBounds
    ensures Opens(o, ts, i, b) && !o.Behind?
    decreases |ts| - i, 4
  {
    hide StmtParser.Statement, If, While, Return, Struct, Assign, MemberAssign, Keyword, Wrap, Opens, IfOpens;
    StatementIsKeyword(ts, i, b);
    assert ProperToken(ts[i]);
    hide Proper;
    match ts[i].kind {
      case WordIf =>
        WrapInBounds(If(ts, i, b));
        IfIs(ts, i, b);
        var g := BranchOpens(StmtIf, ts, i, b);
        o := InIf(g);
        InIfOpens(g, ts, i, b);
      case WordWhile => WrapInBounds(While(ts, i)); o := WhileOpens(ts, i, b);
      case WordReturn => WrapInBounds(Return(ts, i)); ReturnInBounds(ts, i);
      case WordStruct => WrapInBounds(Struct(ts, i)); StructInBounds(ts, i);
      case WordBreak => WrapInBounds(Keyword(ts, i, StmtBreak)); KeywordInBounds(ts, i, StmtBreak);
      case _ => WrapInBounds(Keyword(ts, i, StmtContinue)); KeywordInBounds(ts, i, StmtContinue);
    }
  }

  lemma InIfOpens(g: OpenedIf, ts: seq<Token>, i: nat, b: Block)
    requires b != NoBlock && i < |ts| && ts[i] == Sym(WordIf) && IfOpens(g, ts, i + 1, b)
    ensures Opens(InIf(g), ts, i, b)
  {
    hide At;
    AtOne(ts, i, Sym(WordIf));
    AtSplit(ts, i, [Sym(WordIf)], YieldOpenedIf(g));
  }

  lemma SequenceFailsIn(ts: seq<Token>, i: nat, b: Block)
    requires Sequence(ts, i, b) == OutOfBounds && StmtParser.Statement(ts, i, b) != OutOfBounds
    ensures var s := StmtParser.Statement(ts, i, b);
            s.Ok? && s.value.node != Null && s.value.next < |ts| && Sequence(ts, s.value.next, b) == OutOfBounds
  {
    hide StmtParser.Statement;
  }

  lemma {:induction false} SequenceOpens(ts: seq<Token>, i: nat, b: Block) returns (o: Opened)
    requires Proper(ts) && Terminated(ts) && i < |ts| && !Dotted(ts, i) && !AssignsFirst(ts, i)
    requires Sequence(ts, i, b) == OutOfBounds
    ensures Opens(o, ts, i, b) && (i == 0 ==> !(o.Behind? && o.s.SAssign?))
    decreases |ts| - i, 6
  {
    hide StmtParser.Statement, Sequence, Proper, Dotted, StmtAt, Opens;
    if StmtParser.Statement(ts, i, b) == OutOfBounds {
      o := StatementOpens(ts, i, b);
    } else {
      SequenceFailsIn(ts, i, b);
      var q := StmtParser.Statement(ts, i, b).value;
      var s := SoundStatement(ts, i, b);
      BehindStatement(s, ts, i, b, q);
      var rest := SequenceOpens(ts, q.next, b);
      o := Behind(s, rest);
      BehindOpens(s, rest, ts, i, b, q);
    }
  }

  lemma BehindOpens(s: Statement, rest: Opened, ts: seq<Token>, i: nat, b: Block, q: Parsed)
    requires q.node.Node? && StmtAt(s, ts, i, b, q.node.left, q.next) && Opens(rest, ts, q.next, b)
    ensures Opens(Behind(s, rest), ts, i, b)
  {
    hide At, YieldStmt, Accepted, EveryInStmt, BuildStmt, OpenIf;
    AtSplit(ts, i, YieldStmt(s), YieldOpened(rest));
  }

  // ----- and every such program reads outside

  lemma {:induction false} OpenFails(o: Opened, ts: seq<Token>, i: nat, b: Block)
    requires Terminated(ts) && !Dotted(ts, i) && Opens(o, ts, i, b) && (i == 0 ==> !(o.Behind? && o.s.SAssign?))
    ensures Sequence(ts, i, b) == OutOfBounds
    decreases o, 1
  {
    hide Sequence, StmtParser.Statement, Opens, Recognised;
    match o
    case Nameless(t) => NamelessFails(t, ts, i, b); StatementFails(ts, i, b);
    case Behind(s, rest) => BehindFails(s, rest, ts, i, b);
    case InFunction(_, _, _, _, _) => InFunctionFails(o, ts, i, b); StatementFails(ts, i, b);
    case InWhile(c, body) => InWhileFails(c, body, ts, i, b); StatementFails(ts, i, b);
    case InIf(g) => InIfFails(g, ts, i, b); StatementFails(ts, i, b);
  }

  lemma StatementFails(ts: seq<Token>, i: nat, b: Block)
    requires StmtParser.Statement(ts, i, b) == OutOfBounds
    ensures Sequence(ts, i, b) == OutOfBounds
  {
    hide StmtParser.Statement;
  }

  lemma NamelessFails(t: Type, ts: seq<Token>, i: nat, b: Block)
    requires Terminated(ts) && Opens(Nameless(t), ts, i, b)
    ensures StmtParser.Statement(ts, i, b) == OutOfBounds
  {
    hide *;
    NamelessParts(t, ts, i, b);
    TypeDone(t, ts, i);
    StatementIs(ts, i, b);
    NoNameThere(ts, i);
    WrapInBounds(Function(ts, i));
  }

  lemma NamelessParts(t: Type, ts: seq<Token>, i: nat, b: Block)
    requires Terminated(ts) && Opens(Nameless(t), ts, i, b)
    ensures GoodType(t) && EveryInType(t, NoLogic) && At(ts, i, YieldType(t))
    ensures var k := i + |YieldType(t)|; k + 1 == |ts| && ts[k].kind != LBrack
    ensures i + 1 < |ts| && IsTypename(ts[i].kind) && !(ts[i].kind == Ident && ts[i + 1].kind in {Equal, Dot})
    ensures Look(ts, i + Offset(ts[i].kind, ts[i + 1].kind)) == LParen
  {
    hide GoodType, EveryInType, YieldType, At, Offset, IsTypename;
    var y := YieldType(t);
    AtIndex(ts, i, y, 0);
    AtIndex(ts, i, y, 1);
    AtIndex(ts, i, y, Offset(y[0].kind, y[1].kind));
    NamelessIsFunction(t);
    TypeStarts(t);
  }

  lemma NamelessIsFunction(t: Type)
    requires GoodType(t) && |YieldType(t)| > 1
    ensures YieldType(t)[0].kind == Ident ==> YieldType(t)[1].kind == LBrack
  {
    hide YieldType, Prefixes;
    TypeHead(t);
  }

  lemma NoNameThere(ts: seq<Token>, i: nat)
    requires Terminated(ts) && TypeName(ts, i).Ok? && TypeName(ts, i).value.next + 1 == |ts|
    ensures Function(ts, i) == OutOfBounds
  {
    hide TypeName, BlockOf;
    assert TypeVarname(ts, i).Ok? && TypeVarname(ts, i).value.next == |ts|;
    assert Signature(ts, i) == OutOfBounds;
  }

  lemma {:induction false} BehindFails(s: Statement, rest: Opened, ts: seq<Token>, i: nat, b: Block)
    requires Terminated(ts) && !Dotted(ts, i) && Opens(Behind(s, rest), ts, i, b) && (i == 0 ==> !s.SAssign?)
    ensures Sequence(ts, i, b) == OutOfBounds
    decreases rest, 2
  {
    hide Sequence, StmtParser.Statement, Accepted, EveryInStmt, YieldStmt, BuildStmt, Recognised, At, OpenIf;
    var j := i + |YieldStmt(s)|;
    AtSplit(ts, i, YieldStmt(s), YieldOpened(rest));
    NotDottedAfter(s, ts, i);
    OpenedBegins(rest, ts, j);
    StmtDone(s, ts, i, b);
    OpenFails(rest, ts, j, b);
    StmtThenFailure(s, ts, i, b);
  }

  /** No such program begins with an else part. */
  lemma OpenedBegins(o: Opened, ts: seq<Token>, i: nat)
    requires At(ts, i, YieldOpened(o))
    ensures NoElseAt(ts, i)
  {
    AtFirst(ts, i, YieldOpened(o));
    match o
    case Nameless(t) => TypeStarts(t);
    case Behind(s, _) => StmtStarts(s);
    case InFunction(t, _, _, _, _) => TypeStarts(t);
    case _ =>
  }

  lemma StmtThenFailure(s: Statement, ts: seq<Token>, i: nat, b: Block)
    requires Recognised(s, ts, i, b) && i + |YieldStmt(s)| < |ts| && Sequence(ts, i + |YieldStmt(s)|, b) == OutOfBounds
    ensures Sequence(ts, i, b) == OutOfBounds
  {
    hide StmtParser.Statement, YieldStmt, BuildStmt;
  }

  lemma {:induction false} BlockFails(o: Opened, ts: seq<Token>, i: nat, b: Block)
    requires Terminated(ts) && BraceOpens(o, ts, i, b)
    ensures BlockOf(ts, i, b) == OutOfBounds
    decreases o, 2
  {
    hide Sequence, Opens;
    OpenFails(o, ts, i + 1, b);
    if ts[i + 1].kind == RCurly {
      SequenceEnd(ts, i + 1, b);
    }
  }

  lemma {:induction false} InFunctionFails(o: Opened, ts: seq<Token>, i: nat, b: Block)
    requires o.InFunction? && Terminated(ts) && Opens(o, ts, i, b)
    ensures StmtParser.Statement(ts, i, b) == OutOfBounds
    decreases o, 0
  {
    hide *;
    InFunctionParts(o, ts, i, b);
    FuncLookahead(o.ty, o.token, ts, i);
    SignatureDone(o.ty, o.token, o.params, o.comma, ts, i);
    BlockFails(o.body, ts, i + |YieldSignature(o.ty, o.token, o.params, o.comma)|, FuncBlock);
    FunctionThenFailure(ts, i);
    StatementIs(ts, i, b);
    WrapInBounds(Function(ts, i));
  }

  lemma FunctionThenFailure(ts: seq<Token>, i: nat)
    requires Signature(ts, i).Ok? && BlockOf(ts, Signature(ts, i).value.next, FuncBlock) == OutOfBounds
    ensures Function(ts, i) == OutOfBounds
  {
    hide Signature, BlockOf;
  }

  lemma InFunctionParts(o: Opened, ts: seq<Token>, i: nat, b: Block)
    requires o.InFunction? && Opens(o, ts, i, b)
    ensures GoodType(o.ty) && EveryInType(o.ty, NoLogic) && GoodDecls(o.params) && EveryInDecls(o.params, NoLogic)
    ensures FunctionAhead(o.ty, o.token) && (o.token.kind == LBrack ==> HasSuffix(o.ty))
    ensures var sig := YieldSignature(o.ty, o.token, o.params, o.comma);
            At(ts, i, sig) && BraceOpens(o.body, ts, i + |sig|, FuncBlock)
    ensures At(ts, i, YieldType(o.ty) + [o.token, Sym(LParen)])
  {
    hide At, GoodType, GoodDecls, EveryInType, EveryInDecls, YieldType, YieldParams, BraceOpens, Offset;
    var sig := YieldSignature(o.ty, o.token, o.params, o.comma);
    var rest := YieldParams(o.params, o.comma) + [Sym(RParen)];
    AtSplit(ts, i, sig, [Sym(LCurly)] + YieldOpened(o.body));
    BraceAt(o.body, ts, i + |sig|, FuncBlock);
    assert sig == (YieldType(o.ty) + [o.token, Sym(LParen)]) + rest;
    AtSplit(ts, i, YieldType(o.ty) + [o.token, Sym(LParen)], rest);
  }

  lemma {:induction false} InWhileFails(c: Expr, body: Opened, ts: seq<Token>, i: nat, b: Block)
    requires Terminated(ts) && Opens(InWhile(c, body), ts, i, b)
    ensures StmtParser.Statement(ts, i, b) == OutOfBounds
    decreases body, 3
  {
    hide *;
    InWhileParts(c, body, ts, i, b);
    ConditionDone(c, ts, i);
    BlockFails(body, ts, i + 1 + |YieldCondition(c)|, LoopBlock);
    WhileThenFailure(ts, i);
    StatementIsKeyword(ts, i, b);
    WrapInBounds(While(ts, i));
  }

  lemma WhileThenFailure(ts: seq<Token>, i: nat)
    requires Condition(ts, i).Ok? && BlockOf(ts, Condition(ts, i).value.next, LoopBlock) == OutOfBounds
    ensures While(ts, i) == OutOfBounds
  {
    hide Condition, BlockOf;
  }

  lemma InWhileParts(c: Expr, body: Opened, ts: seq<Token>, i: nat, b: Block)
    requires Opens(InWhile(c, body), ts, i, b)
    ensures b != NoBlock && GoodExpr(c) && NoLogic(c) && i < |ts| && ts[i].kind == WordWhile
            && At(ts, i + 1, YieldCondition(c))
    ensures BraceOpens(body, ts, i + 1 + |YieldCondition(c)|, LoopBlock)
  {
    hide At, GoodExpr, NoLogic, YieldCondition, BraceOpens;
    AtSplit(ts, i, [Sym(WordWhile)], YieldCondition(c) + ([Sym(LCurly)] + YieldOpened(body)));
    AtOne(ts, i, Sym(WordWhile));
    AtSplit(ts, i + 1, YieldCondition(c), [Sym(LCurly)] + YieldOpened(body));
    BraceAt(body, ts, i + 1 + |YieldCondition(c)|, LoopBlock);
  }

  lemma {:induction false} InIfFails(g: OpenedIf, ts: seq<Token>, i: nat, b: Block)
    requires Terminated(ts) && Opens(InIf(g), ts, i, b)
    ensures StmtParser.Statement(ts, i, b) == OutOfBounds
    decreases g, 3
  {
    hide *;
    InIfParts(g, ts, i, b);
    BranchFails(StmtIf, g, ts, i, b);
    IfIs(ts, i, b);
    StatementIsKeyword(ts, i, b);
    WrapInBounds(If(ts, i, b));
  }

  lemma InIfParts(g: OpenedIf, ts: seq<Token>, i: nat, b: Block)
    requires Opens(InIf(g), ts, i, b)
    ensures b != NoBlock && i < |ts| && ts[i].kind == WordIf && IfOpens(g, ts, i + 1, b)
  {
    hide At;
    AtSplit(ts, i, [Sym(WordIf)], YieldOpenedIf(g));
    AtOne(ts, i, Sym(WordIf));
  }

  lemma {:induction false} BranchFails(kind: NodeKind, g: OpenedIf, ts: seq<Token>, i: nat, b: Block)
    requires Terminated(ts) && IfOpens(g, ts, i + 1, b)
    ensures Branch(kind, ts, i, b) == OutOfBounds
    decreases g, 2
  {
    hide *;
    IfParts(g, ts, i + 1, b);
    ConditionDone(g.cond, ts, i);
    var j := i + 1 + |YieldCondition(g.cond)|;
    BranchBody(kind, ts, i, b);
    match g
    case InBody(c, o) => BlockFails(o, ts, j, b); SameOutOfBounds(BlockOf(ts, j, b), Branch(kind, ts, i, b));
    case InElse(c, p, o) =>
      var k := j + |YieldBlock(p)|;
      BlockDone(p, ts, j, b);
      BlockFails(o, ts, k + 1, b);
      ElseThenFailure(ts, k, b);
      ElsePartIs(ts, k, b);
      BranchThenFailure(kind, ts, i, b, Parsed(Build(c), j), Parsed(BuildStmts(p), k));
    case InElseIf(c, p, g1) =>
      var k := j + |YieldBlock(p)|;
      BlockDone(p, ts, j, b);
      BranchFails(StmtElseIf, g1, ts, k, b);
      ElsePartIs(ts, k, b);
      BranchThenFailure(kind, ts, i, b, Parsed(Build(c), j), Parsed(BuildStmts(p), k));
  }

  lemma SameOutOfBounds(r: Result<Parsed>, all: Result<Parsed>)
    requires ExprCases.SameFailure(r, all) && r == OutOfBounds
    ensures all == OutOfBounds
  {
  }

  lemma ElseThenFailure(ts: seq<Token>, j: nat, b: Block)
    requires j < |ts| && BlockOf(ts, j + 1, b) == OutOfBounds
    ensures Else(ts, j, b) == OutOfBounds
  {
    hide BlockOf;
  }

  lemma BranchThenFailure(kind: NodeKind, ts: seq<Token>, i: nat, b: Block, c: Parsed, q: Parsed)
    requires Condition(ts, i) == Ok(c) && BlockOf(ts, c.next, b) == Ok(q) && q.next < |ts|
    requires ts[q.next].kind in {WordElse, WordElseIf} && Alternative(ts, q.next, b) == OutOfBounds
    ensures Branch(kind, ts, i, b) == OutOfBounds
  {
    hide Branch, Condition, BlockOf, Alternative;
    BranchAlternative(kind, ts, i, b, c, q);
  }

  lemma IfParts(g: OpenedIf, ts: seq<Token>, i: nat, b: Block)
    requires IfOpens(g, ts, i, b)
    ensures GoodExpr(g.cond) && NoLogic(g.cond) && At(ts, i, YieldCondition(g.cond))
    ensures g.InBody? ==> BraceOpens(g.open, ts, i + |YieldCondition(g.cond)|, b)
    ensures !g.InBody? ==>
              && AcceptedAll(g.body, b) && EveryIn(g.body, NoLogic)
              && At(ts, i + |YieldCondition(g.cond)|, YieldBlock(g.body))
              && var k := i + |YieldCondition(g.cond)| + |YieldBlock(g.body)|;
                 && k < |ts| && ts[k].kind == (if g.InElse? then WordElse else WordElseIf)
                 && (g.InElse? ==> BraceOpens(g.open, ts, k + 1, b))
                 && (g.InElseIf? ==> IfOpens(g.branch, ts, k + 1, b))
  {
    hide At, GoodExpr, NoLogic, YieldCondition, YieldBlock, AcceptedAll, EveryIn, BraceOpens, YieldOpened, OkOpened;
    var c := g.cond;
    var j := i + |YieldCondition(c)|;
    match g
    case InBody(_, o) => AtSplit(ts, i, YieldCondition(c), [Sym(LCurly)] + YieldOpened(o)); BraceAt(o, ts, j, b);
    case InElse(_, p, o) =>
      var tail := [Sym(LCurly)] + YieldOpened(o);
      AtSplit(ts, i, YieldCondition(c), YieldBlock(p) + ([Sym(WordElse)] + tail));
      AtSplit(ts, j, YieldBlock(p), [Sym(WordElse)] + tail);
      AtSplit(ts, j + |YieldBlock(p)|, [Sym(WordElse)], tail);
      AtOne(ts, j + |YieldBlock(p)|, Sym(WordElse));
      BraceAt(o, ts, j + |YieldBlock(p)| + 1, b);
    case InElseIf(_, p, g1) =>
      AtSplit(ts, i, YieldCondition(c), YieldBlock(p) + ([Sym(WordElseIf)] + YieldOpenedIf(g1)));
      AtSplit(ts, j, YieldBlock(p), [Sym(WordElseIf)] + YieldOpenedIf(g1));
      AtSplit(ts, j + |YieldBlock(p)|, [Sym(WordElseIf)], YieldOpenedIf(g1));
      AtOne(ts, j + |YieldBlock(p)|, Sym(WordElseIf));
  }

  /** A sequence whose first statements are finished reads outside if the rest does. */
  lemma {:induction false} OutsideBehind(p: Statements, ts: seq<Token>, i: nat, b: Block)
    requires AcceptedAll(p, b) && EveryIn(p, NoLogic) && At(ts, i, YieldStmts(p)) && !Dotted(ts, i)
    requires i == 0 ==> !(p.Statements? && p.head.SAssign?)
    requires var k := i + |YieldStmts(p)|; NoElseAt(ts, k) && Sequence(ts, k, b) == OutOfBounds
    ensures Sequence(ts, i, b) == OutOfBounds
  {
    hide StmtParser.Statement, Sequence, Accepted, EveryInStmt, YieldStmt, BuildStmt, Recognised, At, OpenIf;
    if p.Statements? {
      var s, rest := p.head, p.rest;
      var j := i + |YieldStmt(s)|;
      AtSplit(ts, i, YieldStmt(s), YieldStmts(rest));
      NotDottedAfter(s, ts, i);
      NotElse(rest, ts, j);
      StmtDone(s, ts, i, b);
      OutsideBehind(rest, ts, j, b);
      StmtThenFailure(s, ts, i, b);
    }
  }

  // ----- exactly when

  lemma AssignsFirstFails(ts: seq<Token>)
    requires AssignsFirst(ts, 0)
    ensures Sequence(ts, 0, NoBlock) == OutOfBounds
  {
    assert MemberAccess(ts, 0) == OutOfBounds;
    assert Assign(ts, 0) == OutOfBounds;
    assert StmtParser.Statement(ts, 0, NoBlock) == OutOfBounds;
  }

  /** On a terminated array the parser reads outside if and only if a plain assignment comes
      first, or the tokens are those of a program that ends behind the type of a function,
      where its name should be. */
  lemma {:induction false} OutsideExactly(ts: seq<Token>)
    requires Proper(ts) && Terminated(ts)
    ensures Program(ts) == OutOfBounds <==> AssignsFirst(ts, 0) || exists o :: Opens(o, ts, 0, NoBlock)
  {
    hide Sequence, Proper, Opens;
    if AssignsFirst(ts, 0) {
      AssignsFirstFails(ts);
    } else {
      if Program(ts) == OutOfBounds {
        var o := SequenceOpens(ts, 0, NoBlock);
      }
      if o :| Opens(o, ts, 0, NoBlock) {
        FirstIsNoAssign(o, ts);
        OpenFails(o, ts, 0, NoBlock);
      }
    }
  }

  lemma FirstIsNoAssign(o: Opened, ts: seq<Token>)
    requires Opens(o, ts, 0, NoBlock)
    ensures o.Behind? && o.s.SAssign? ==> AssignsFirst(ts, 0)
  {
    if o.Behind? && o.s.SAssign? {
      var y := YieldOpened(o);
      assert y[0] == YieldStmt(o.s)[0] && y[1] == YieldStmt(o.s)[1];
      AtIndex(ts, 0, y, 0);
      AtIndex(ts, 0, y, 1);
    }
  }

  /** Written out, with the end marker behind it, each of them does. */
  lemma {:induction false} OpenedIsOutside(o: Opened)
    requires OkOpened(o, NoBlock) && !(o.Behind? && o.s.SAssign?)
    ensures Program(YieldOpened(o) + [Sym(Eof)]) == OutOfBounds
  {
    hide Sequence, OkOpened, YieldOpened;
    var ts := YieldOpened(o) + [Sym(Eof)];
    assert At(ts, 0, YieldOpened(o));
    OpenFails(o, ts, 0, NoBlock);
  }
}
