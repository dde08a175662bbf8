/** Every statement the parser returns stands in a block that allows it. */
module BlockContext {
  import opened Outcomes
  import opened Tokens
  import opened Nodes
  import opened Operators
  import opened ExprParser
  import opened StmtParser
  import opened StmtCases

  /** The kinds whose place matters. */
  predicate Placed(k: NodeKind) {
    k in {StmtReturn, StmtWhile, StmtContinue, StmtBreak, StmtElse, StmtElseIf, StmtIf, DeclStruct, DeclFunction}
  }

  /** Break and continue are allowed directly in a while, return directly in a function,
      if, else and while inside some function, and structs at the top only. */
  predicate Allowed(k: NodeKind, b: Block) {
    match k
    case StmtBreak => b == LoopBlock
    case StmtContinue => b == LoopBlock
    case StmtReturn => b == FuncBlock
    case StmtWhile => b != NoBlock
    case StmtIf => b != NoBlock
    case StmtElseIf => b != NoBlock
    case StmtElse => b != NoBlock
    case DeclStruct => b == NoBlock
    case _ => true
  }

  /** The nearest enclosing while or function of a node's right child. */
  function Inner(k: NodeKind, b: Block): Block {
    match k
    case StmtWhile => LoopBlock
    case DeclFunction => FuncBlock
    case _ => b
  }

  /** Every node is allowed where it stands, `b` being the nearest enclosing while or
      function of the whole tree. */
  predicate InContext(n: Node, b: Block) {
    n == Null || (Allowed(n.kind, b) && InContext(n.left, b) && InContext(n.right, Inner(n.kind, b)))
  }

  lemma ContextNode(k: NodeKind, l: Node, r: Node, b: Block)
    ensures InContext(Mk(k, l, r), b) <==> Allowed(k, b) && InContext(l, b) && InContext(r, Inner(k, b))
    ensures InContext(Null, b)
  {
  }

  /** A tree of expressions, types and variables. */
  predicate Neutral(n: Node) {
    n == Null || (!Placed(n.kind) && Neutral(n.left) && Neutral(n.right))
  }

  lemma {:induction false} NeutralAnywhere(n: Node, b: Block)
    requires Neutral(n)
    ensures InContext(n, b)
  {
    if n != Null {
      NeutralAnywhere(n.left, b);
      NeutralAnywhere(n.right, b);
    }
  }

  lemma NeutralNode(k: NodeKind, l: Node, r: Node)
    requires !Placed(k) && Neutral(l) && Neutral(r)
    ensures Neutral(Mk(k, l, r))
  {
  }

  lemma NeutralLeaf(k: NodeKind, v: Value)
    requires !Placed(k)
    ensures Neutral(Leaf(k, v)) && Neutral(Null)
  {
  }

  predicate Clean(r: Result<Parsed>) {
    r.Ok? ==> Neutral(r.value.node)
  }

  lemma {:induction false} LevelClean(lv: nat, ts: seq<Token>, i: nat)
    requires lv <= OR
    ensures Clean(Level(lv, ts, i))
    decreases |ts| - i, lv, 2
  {
    if lv == FACTOR {
      FactorClean(ts, i);
    } else if lv == CALL {
      CallClean(ts, i);
    } else {
      hide OperatorAt, Factor, Call, Neutral;
      NeutralLeaf(ExprNegate, NoValue);
      LevelClean(lv - 1, ts, i);
      if lv == NOT {
        if i < |ts| && ts[i].kind == Exclam {
          LevelClean(COMPARE, ts, i + 1);
          var r := Level(COMPARE, ts, i + 1);
          if r.Ok? {
            NeutralNode(ExprNot, r.value.node, Null);
          }
        }
      } else if lv != NEGATE {
        BinaryClean(lv, ts, i);
      }
    }
  }

  lemma {:induction false} BinaryClean(lv: nat, ts: seq<Token>, i: nat)
    requires MULTIPLICATIVE <= lv <= OR && lv != NOT && Clean(Level(lv - 1, ts, i))
    ensures Clean(Binary(lv, ts, i))
    decreases |ts| - i, lv, 1
  {
    hide OperatorAt, Level, Neutral;
    if Level(lv - 1, ts, i).Ok? {
      var lhs := Level(lv - 1, ts, i).value;
      if OperatorAt(lv, ts, lhs.next).Ok? && OperatorAt(lv, ts, lhs.next).value.Some? {
        var op := OperatorAt(lv, ts, lhs.next).value.value;
        LevelClean(lv, ts, lhs.next + Width(op));
        if Level(lv, ts, lhs.next + Width(op)).Ok? {
          NeutralNode(ExprBinary(op), lhs.node, Level(lv, ts, lhs.next + Width(op)).value.node);
        }
      }
    }
  }

  lemma {:induction false} CallClean(ts: seq<Token>, i: nat)
    ensures Clean(Call(ts, i))
    decreases |ts| - i, CALL, 1
  {
    hide Level, List, Neutral;
    if i + 1 < |ts| && ts[i].kind == Ident && ts[i + 1].kind == LParen {
      NeutralLeaf(ConstVarname, ts[i].value);
      NeutralNode(ExprCall, Varname(ts, i).node, Null);
      ListClean(ts, i + 2);
      if List(ts, i + 2).Ok? {
        NeutralNode(ExprCall, Varname(ts, i).node, List(ts, i + 2).value.node);
      }
    } else {
      LevelClean(FACTOR, ts, i);
    }
  }

  lemma {:induction false} FactorClean(ts: seq<Token>, i: nat)
    ensures Clean(Factor(ts, i))
    decreases |ts| - i, FACTOR, 1
  {
    hide Level, List, MemberAccess, Neutral;
    if i < |ts| {
      NeutralLeaf(ConstVarname, ts[i].value);
      NeutralLeaf(ConstInt, ts[i].value);
      NeutralLeaf(ConstFloat, ts[i].value);
      NeutralLeaf(ConstBool, ts[i].value);
      NeutralLeaf(ConstString, ts[i].value);
      if ts[i].kind == LCurly || ts[i].kind == LBrack {
        ListClean(ts, i + 1);
        if List(ts, i + 1).Ok? {
          NeutralNode(if ts[i].kind == LCurly then ConstStruct else ConstArray, List(ts, i + 1).value.node, Null);
        }
      } else if ts[i].kind == LParen {
        LevelClean(OR, ts, i + 1);
      } else if ts[i].kind == Ident {
        MemberClean(ts, i);
      }
    }
  }

  lemma {:induction false} MemberClean(ts: seq<Token>, i: nat)
    requires i < |ts|
    ensures Clean(MemberAccess(ts, i))
    decreases |ts| - i, FACTOR, 0
  {
    hide Level, ArrayIndex, Neutral;
    NeutralLeaf(ConstVarname, ts[i].value);
    NeutralNode(ExprMemberAccess, Varname(ts, i).node, Null);
    if i + 1 < |ts| && ts[i].kind == Ident {
      if ts[i + 1].kind == Dot {
        LevelClean(FACTOR, ts, i + 2);
        if Level(FACTOR, ts, i + 2).Ok? {
          NeutralNode(ExprMemberAccess, Varname(ts, i).node, Level(FACTOR, ts, i + 2).value.node);
        }
      } else {
        IndexClean(ts, i + 1);
        if ArrayIndex(ts, i + 1).Ok? {
          NeutralNode(ExprArrayAccess, Varname(ts, i).node, ArrayIndex(ts, i + 1).value.node);
        }
      }
    }
  }

  lemma {:induction false} IndexClean(ts: seq<Token>, i: nat)
    ensures Clean(ArrayIndex(ts, i))
    decreases |ts| - i, FACTOR, 0
  {
    hide Level, Neutral;
    NeutralLeaf(ConstInt, NoValue);
    if i < |ts| && ts[i].kind == LBrack {
      LevelClean(OR, ts, i + 1);
      if Level(OR, ts, i + 1).Ok? {
        var e := Level(OR, ts, i + 1).value;
        if ts[e.next].kind == RBrack {
          IndexClean(ts, e.next + 1);
          if ArrayIndex(ts, e.next + 1).Ok? {
            NeutralNode(ExprArrayIndex, e.node, ArrayIndex(ts, e.next + 1).value.node);
          }
        }
      }
    }
  }

  lemma {:induction false} ListClean(ts: seq<Token>, i: nat)
    ensures Clean(List(ts, i))
    decreases |ts| - i, OR + 1, 0
  {
    hide Level, Neutral;
    NeutralLeaf(ExprList, NoValue);
    LevelClean(OR, ts, i);
    if Level(OR, ts, i).Ok? {
      var e := Level(OR, ts, i).value;
      NeutralNode(ExprList, e.node, Null);
      if ts[e.next].kind == Comma {
        ListClean(ts, e.next + 1);
        if List(ts, e.next + 1).Ok? {
          NeutralNode(ExprList, e.node, List(ts, e.next + 1).value.node);
        }
      }
    }
  }

  // ----- declarations

  lemma {:induction false} TypeClean(ts: seq<Token>, i: nat)
    ensures Clean(TypeName(ts, i))
    decreases |ts| - i, 1
  {
    hide Level, Neutral;
    PlainTypeClean(ts, i);
    if PlainType(ts, i).Ok? {
      var t := PlainType(ts, i).value;
      LevelClean(OR, ts, t.next + 1);
      NeutralLeaf(ConstInt, NoValue);
      NeutralNode(DeclVarNosizedArray, t.node, Null);
      if Level(OR, ts, t.next + 1).Ok? {
        NeutralNode(DeclVarSizedArray, t.node, Level(OR, ts, t.next + 1).value.node);
      }
    }
  }

  lemma {:induction false} PlainTypeClean(ts: seq<Token>, i: nat)
    ensures Clean(PlainType(ts, i))
    decreases |ts| - i, 0
  {
    hide TypeName, Neutral;
    if i < |ts| {
      NeutralLeaf(ConstVarname, ts[i].value);
      NeutralNode(TypeUser, Varname(ts, i).node, Null);
      forall k | !Placed(k) ensures Neutral(Mk(k, Null, Null)) {
        NeutralLeaf(k, NoValue);
      }
      if ts[i].kind == WordRef || ts[i].kind == WordConst {
        TypeClean(ts, i + 1);
        if TypeName(ts, i + 1).Ok? {
          NeutralNode(DeclReference, TypeName(ts, i + 1).value.node, Null);
          NeutralNode(DeclConst, TypeName(ts, i + 1).value.node, Null);
        }
      }
    }
  }

  lemma {:induction false} AssignClean(ts: seq<Token>, i: nat)
    ensures Clean(Assign(ts, i))
  {
    hide Level, MemberAccess;
    if i + 1 < |ts| {
      MemberClean(ts, i);
      if MemberAccess(ts, i).Ok? {
        LevelClean(OR, ts, MemberAccess(ts, i).value.next + 1);
      }
    }
  }

  lemma {:induction false} VarDeclClean(ts: seq<Token>, i: nat)
    ensures Clean(VarDecl(ts, i))
  {
    hide TypeName, Assign, Neutral;
    TypeClean(ts, i);
    if TypeName(ts, i).Ok? {
      var t := TypeName(ts, i).value;
      AssignClean(ts, t.next);
      if Assign(ts, t.next).Ok? {
        NeutralNode(DeclVar, t.node, Assign(ts, t.next).value.node);
      }
      if t.next < |ts| {
        NeutralLeaf(ConstVarname, ts[t.next].value);
        NeutralNode(DeclVar, t.node, Varname(ts, t.next).node);
      }
    }
  }

  lemma {:induction false} DeclListClean(members: bool, ts: seq<Token>, i: nat)
    ensures Clean(DeclList(members, ts, i))
    decreases |ts| - i
  {
    hide VarDecl, Neutral;
    var kind := if members then DeclMemberList else DeclVarList;
    NeutralLeaf(kind, NoValue);
    VarDeclClean(ts, i);
    if VarDecl(ts, i).Ok? {
      var d := VarDecl(ts, i).value;
      NeutralNode(kind, d.node, Null);
      DeclListClean(members, ts, d.next + 1);
      if DeclList(members, ts, d.next + 1).Ok? {
        NeutralNode(kind, d.node, DeclList(members, ts, d.next + 1).value.node);
      }
    }
  }

  lemma SignatureClean(ts: seq<Token>, i: nat)
    ensures Clean(Signature(ts, i))
  {
    hide TypeName, DeclList, Neutral;
    TypeClean(ts, i);
    if TypeVarname(ts, i).Ok? {
      var t := TypeName(ts, i).value;
      var tx := TypeVarname(ts, i).value;
      NeutralLeaf(ConstVarname, ts[t.next].value);
      NeutralNode(DeclTypeVarnamePair, t.node, Varname(ts, t.next).node);
      NeutralNode(DeclFunctionSignature, tx.node, Null);
      DeclListClean(false, ts, tx.next + 1);
      if DeclList(false, ts, tx.next + 1).Ok? {
        NeutralNode(DeclFunctionSignature, tx.node, DeclList(false, ts, tx.next + 1).value.node);
      }
    }
  }

  lemma ConditionClean(ts: seq<Token>, i: nat)
    ensures Clean(Condition(ts, i))
  {
    hide Level;
    LevelClean(OR, ts, i + 2);
  }

  // ----- statements

  predicate Fitting(r: Result<Parsed>, b: Block) {
    r.Ok? ==> InContext(r.value.node, b)
  }

  lemma CleanFits(r: Result<Parsed>, b: Block)
    requires Clean(r)
    ensures Fitting(r, b)
  {
    if r.Ok? {
      NeutralAnywhere(r.value.node, b);
    }
  }

  lemma StructFits(ts: seq<Token>, i: nat)
    ensures Fitting(Struct(ts, i), NoBlock)
  {
    hide DeclList, InContext;
    if i + 1 < |ts| {
      DeclListClean(true, ts, i + 3);
      NeutralLeaf(ConstVarname, ts[i + 1].value);
      NeutralAnywhere(Varname(ts, i + 1).node, NoBlock);
      CleanFits(DeclList(true, ts, i + 3), NoBlock);
      if DeclList(true, ts, i + 3).Ok? {
        ContextNode(DeclStruct, Varname(ts, i + 1).node, DeclList(true, ts, i + 3).value.node, NoBlock);
      }
    }
  }

  lemma ReturnFits(ts: seq<Token>, i: nat)
    ensures Fitting(Return(ts, i), FuncBlock)
  {
    hide Level;
    LevelClean(OR, ts, i + 1);
    CleanFits(Level(OR, ts, i + 1), FuncBlock);
    if Level(OR, ts, i + 1).Ok? {
      ContextNode(StmtReturn, Level(OR, ts, i + 1).value.node, Null, FuncBlock);
    }
  }

  lemma MemberAssignFits(ts: seq<Token>, i: nat, b: Block)
    requires i < |ts| && ts[i].kind == Ident
    ensures Fitting(MemberAssign(ts, i), b)
  {
    hide Level, MemberAccess;
    MemberClean(ts, i);
    CleanFits(MemberAccess(ts, i), b);
    if MemberAccess(ts, i).Ok? {
      var target := MemberAccess(ts, i).value;
      LevelClean(OR, ts, target.next + 1);
      CleanFits(Level(OR, ts, target.next + 1), b);
      if Level(OR, ts, target.next + 1).Ok? {
        ContextNode(StmtAssign, target.node, Level(OR, ts, target.next + 1).value.node, b);
      }
    }
  }

  lemma {:induction false} BranchFits(kind: NodeKind, ts: seq<Token>, i: nat, b: Block)
    requires b != NoBlock && (kind == StmtIf || kind == StmtElseIf)
    ensures Fitting(Branch(kind, ts, i, b), b)
    decreases |ts| - i, 2
  {
    hide Condition, BlockOf, Alternative, InContext;
    ConditionClean(ts, i);
    CleanFits(Condition(ts, i), b);
    if Condition(ts, i).Ok? {
      var c := Condition(ts, i).value;
      BlockFits(ts, c.next, b);
      if BlockOf(ts, c.next, b).Ok? {
        var body := BlockOf(ts, c.next, b).value;
        ContextNode(kind, c.node, body.node, b);
        if body.next < |ts| && (ts[body.next].kind == WordElseIf || ts[body.next].kind == WordElse) {
          ElsePartFits(ts, body.next, b);
          if Alternative(ts, body.next, b).Ok? {
            AttachFits(kind, c.node, body.node, Alternative(ts, body.next, b).value.node, b);
          }
        }
      }
    }
  }

  lemma {:induction false} ElsePartFits(ts: seq<Token>, i: nat, b: Block)
    requires b != NoBlock && i < |ts|
    ensures Fitting(Alternative(ts, i, b), b)
    decreases |ts| - i, 4
  {
    hide Branch, Else;
    if ts[i].kind == WordElseIf {
      BranchFits(StmtElseIf, ts, i, b);
    } else {
      ElseFits(ts, i, b);
    }
  }

  lemma AttachFits(kind: NodeKind, c: Node, body: Node, alt: Node, b: Block)
    requires b != NoBlock && (kind == StmtIf || kind == StmtElseIf)
    requires InContext(c, b) && InContext(body, b) && InContext(alt, b)
    ensures InContext(Mk(kind, c, AttachElse(body, alt)), b)
  {
    ContextNode(kind, c, AttachElse(body, alt), b);
    assert InContext(AttachElse(body, alt), b);
  }

  lemma {:induction false} ElseFits(ts: seq<Token>, i: nat, b: Block)
    requires b != NoBlock && i < |ts|
    ensures Fitting(Else(ts, i, b), b)
    decreases |ts| - i, 2
  {
    hide BlockOf, InContext;
    BlockFits(ts, i + 1, b);
    if BlockOf(ts, i + 1, b).Ok? {
      ContextNode(StmtElse, Null, BlockOf(ts, i + 1, b).value.node, b);
    }
  }

  lemma {:induction false} BlockFits(ts: seq<Token>, i: nat, b: Block)
    ensures Fitting(BlockOf(ts, i, b), b)
    decreases |ts| - i, 1
  {
    hide Sequence;
    if i < |ts| && ts[i].kind == LCurly {
      SequenceFits(ts, i + 1, b);
    }
  }

  lemma {:induction false} WhileFits(ts: seq<Token>, i: nat, b: Block)
    requires b != NoBlock
    ensures Fitting(While(ts, i), b)
    decreases |ts| - i, 2
  {
    hide Condition, BlockOf, InContext;
    ConditionClean(ts, i);
    CleanFits(Condition(ts, i), b);
    if Condition(ts, i).Ok? {
      var c := Condition(ts, i).value;
      BlockFits(ts, c.next, LoopBlock);
      if BlockOf(ts, c.next, LoopBlock).Ok? {
        ContextNode(StmtWhile, c.node, BlockOf(ts, c.next, LoopBlock).value.node, b);
      }
    }
  }

  lemma {:induction false} FunctionFits(ts: seq<Token>, i: nat, b: Block)
    ensures Fitting(Function(ts, i), b)
    decreases |ts| - i, 2
  {
    hide Signature, BlockOf;
    SignatureClean(ts, i);
    CleanFits(Signature(ts, i), b);
    if Signature(ts, i).Ok? {
      var sig := Signature(ts, i).value;
      BlockFits(ts, sig.next, FuncBlock);
      if BlockOf(ts, sig.next, FuncBlock).Ok? {
        ContextNode(DeclFunction, sig.node, BlockOf(ts, sig.next, FuncBlock).value.node, b);
      }
    }
  }

  lemma NothingFits(b: Block)
    ensures forall i :: Fitting(Ok(Parsed(Null, i)), b)
    ensures Fitting(OutOfBounds, b) && forall m :: Fitting(SyntaxError(m), b)
  {
    ContextNode(Stmt, Null, Null, b);
  }

  lemma WrapFits(r: Result<Parsed>, b: Block)
    requires Fitting(r, b)
    ensures Fitting(Wrap(r), b)
  {
    hide InContext;
    if r.Ok? {
      ContextNode(Stmt, r.value.node, Null, b);
      ContextNode(Stmt, Null, Null, Inner(Stmt, b));
    }
  }

  lemma SemiFits(r: Result<Parsed>, ts: seq<Token>, b: Block)
    requires Fitting(r, b)
    ensures Fitting(Semi(r, ts), b)
  {
    hide InContext;
    if r.Ok? {
      ContextNode(Stmt, r.value.node, Null, b);
      ContextNode(Stmt, Null, Null, Inner(Stmt, b));
    }
  }

  /** A statement that begins with a keyword. */
  lemma {:induction false} WordFits(ts: seq<Token>, i: nat, b: Block)
    requires i < |ts| && BeginsIn(ts[i].kind, b)
    ensures Fitting(Statement(ts, i, b), b)
    decreases |ts| - i, 4
  {
    hide Statement, If, While, Assign, MemberAssign, Struct, Return, Keyword, Fitting, Wrap, Semi;
    StatementIsKeyword(ts, i, b);
    match ts[i].kind
    case WordIf => IfFits(ts, i, b); WrapFits(If(ts, i, b), b);
    case WordWhile => WhileFits(ts, i, b); WrapFits(While(ts, i), b);
    case WordReturn => ReturnFits(ts, i); WrapFits(Return(ts, i), b);
    case WordStruct => StructFits(ts, i); WrapFits(Struct(ts, i), b);
    case WordBreak => KeywordFits(ts, i); WrapFits(Keyword(ts, i, StmtBreak), b);
    case _ => KeywordFits(ts, i); WrapFits(Keyword(ts, i, StmtContinue), b);
  }

  lemma {:induction false} StatementFits(ts: seq<Token>, i: nat, b: Block)
    ensures Fitting(Statement(ts, i, b), b)
    decreases |ts| - i, 5
  {
    hide Statement, If, While, Assign, MemberAssign, VarDecl, Function, Struct, Return, Keyword, Fitting, Wrap, Semi,
         Offset, Clean;
    NothingFits(b);
    if i >= |ts| {
      PastTheEnd(ts, i, b);
    } else if ts[i].kind == Ident && Look(ts, i + 1) == Equal {
      StatementIsKeyword(ts, i, b);
      AssignClean(ts, i);
      CleanFits(Assign(ts, i), b);
      SemiFits(Assign(ts, i), ts, b);
    } else if ts[i].kind == Ident && Look(ts, i + 1) == Dot {
      StatementIsKeyword(ts, i, b);
      MemberAssignFits(ts, i, b);
      SemiFits(MemberAssign(ts, i), ts, b);
    } else {
      StatementIsNone(ts, i, b);
      if IsTypename(ts[i].kind) && i + 1 < |ts| {
        StatementIs(ts, i, b);
        FunctionFits(ts, i, b);
        WrapFits(Function(ts, i), b);
        VarDeclClean(ts, i);
        CleanFits(VarDecl(ts, i), b);
        SemiFits(VarDecl(ts, i), ts, b);
      } else if BeginsIn(ts[i].kind, b) {
        WordFits(ts, i, b);
      }
    }
  }

  lemma KeywordFits(ts: seq<Token>, i: nat)
    ensures Fitting(Keyword(ts, i, StmtBreak), LoopBlock) && Fitting(Keyword(ts, i, StmtContinue), LoopBlock)
  {
    ContextNode(StmtBreak, Null, Null, LoopBlock);
    ContextNode(StmtContinue, Null, Null, LoopBlock);
  }

  lemma {:induction false} IfFits(ts: seq<Token>, i: nat, b: Block)
    requires b != NoBlock
    ensures Fitting(If(ts, i, b), b)
    decreases |ts| - i, 3
  {
    BranchFits(StmtIf, ts, i, b);
  }

  lemma {:induction false} SequenceFits(ts: seq<Token>, i: nat, b: Block)
    ensures Fitting(Sequence(ts, i, b), b)
    decreases |ts| - i, 6
  {
    hide Statement;
    StatementFits(ts, i, b);
    if Statement(ts, i, b).Ok? {
      var s := Statement(ts, i, b).value;
      if s.node != Null && s.next < |ts| {
        SequenceFits(ts, s.next, b);
      }
    }
  }

  /** Block context over whole trees, else chains included: in every program tree, break
      and continue have a while as their nearest enclosing while or function, return has
      a function, if, else and while stand only inside a function, and structs only at
      the top. */
  lemma ProgramInContext(ts: seq<Token>)
    ensures Program(ts).Ok? ==> InContext(Program(ts).value, NoBlock)
  {
    hide Sequence;
    SequenceFits(ts, 0, NoBlock);
  }
}
