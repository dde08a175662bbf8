/** The specification functions of types, declarations and statements, case by case. */
module StmtCases {
  import opened Outcomes
  import opened Tokens
  import opened Nodes
  import opened Operators
  import opened ExprParser
  import opened ExprCases
  import opened StmtParser

  lemma StatementIsKeyword(ts: seq<Token>, i: nat, b: Block)
    requires i < |ts|
    ensures var k := ts[i].kind;
            && (k == WordIf && b != NoBlock ==> Statement(ts, i, b) == Wrap(If(ts, i, b)))
            && (k == WordWhile && b != NoBlock ==> Statement(ts, i, b) == Wrap(While(ts, i)))
            && (k == WordBreak && b == LoopBlock ==> Statement(ts, i, b) == Wrap(Keyword(ts, i, StmtBreak)))
            && (k == WordContinue && b == LoopBlock ==> Statement(ts, i, b) == Wrap(Keyword(ts, i, StmtContinue)))
            && (k == WordReturn && b == FuncBlock ==> Statement(ts, i, b) == Wrap(Return(ts, i)))
            && (k == WordStruct && b == NoBlock ==> Statement(ts, i, b) == Wrap(Struct(ts, i)))
            && (k == Ident && Look(ts, i + 1) == Equal ==> Statement(ts, i, b) == Semi(Assign(ts, i), ts))
            && (k == Ident && Look(ts, i + 1) == Dot ==> Statement(ts, i, b) == Semi(MemberAssign(ts, i), ts))
  {
    hide If, While, Assign, MemberAssign, Function, VarDecl, Keyword, Return, Struct;
  }

  lemma StatementIs(ts: seq<Token>, i: nat, b: Block)
    requires i + 1 < |ts|
    ensures var k := ts[i].kind;
            var at := Look(ts, i + Offset(k, ts[i + 1].kind));
            var declares := IsTypename(k) && !(k == Ident && ts[i + 1].kind in {Equal, Dot});
            && (declares && at == LParen ==> Statement(ts, i, b) == Wrap(Function(ts, i)))
            && (declares && at in {Equal, Semicolon} ==> Statement(ts, i, b) == Semi(VarDecl(ts, i), ts))
  {
    hide If, While, Assign, MemberAssign, Function, VarDecl, Keyword, Return, Struct;
  }

  function Linked(kind: NodeKind, cond: Node, block: Node, alt: Result<Parsed>): Result<Parsed> {
    var p :- alt;
    Ok(Parsed(Mk(kind, cond, AttachElse(block, p.node)), p.next))
  }

  /** An `if` or `else if` case by case. */
  lemma BranchCondition(kind: NodeKind, ts: seq<Token>, i: nat, b: Block)
    ensures SameFailure(Condition(ts, i), Branch(kind, ts, i, b))
  {
    hide Condition, BlockOf, Else;
  }

  lemma BranchBody(kind: NodeKind, ts: seq<Token>, i: nat, b: Block)
    requires Condition(ts, i).Ok?
    ensures SameFailure(BlockOf(ts, Condition(ts, i).value.next, b), Branch(kind, ts, i, b))
  {
    hide Condition, BlockOf, Else;
  }

  lemma BranchAlternative(kind: NodeKind, ts: seq<Token>, i: nat, b: Block, c: Parsed, body: Parsed)
    requires Condition(ts, i) == Ok(c) && BlockOf(ts, c.next, b) == Ok(body)
    ensures var j := body.next;
            var all := Branch(kind, ts, i, b);
            && (j >= |ts| ==> all == OutOfBounds)
            && (j < |ts| ==>
                  if ts[j].kind == WordElseIf || ts[j].kind == WordElse then
                    all == Linked(kind, c.node, body.node, Alternative(ts, j, b))
                  else all == Ok(Parsed(Mk(kind, c.node, body.node), j)))
  {
    hide Condition, BlockOf, Alternative, AttachElse;
  }

  /** The beginning of a block, and an empty one. */
  lemma BlockBegins(ts: seq<Token>, i: nat, b: Block)
    ensures var all := BlockOf(ts, i, b);
            && (i >= |ts| ==> all == OutOfBounds)
            && (i < |ts| && ts[i].kind != LCurly ==> all == SyntaxError("Missing {"))
            && (i + 1 == |ts| && ts[i].kind == LCurly ==> all == OutOfBounds)
            && (i + 1 < |ts| && ts[i].kind == LCurly && ts[i + 1].kind == RCurly ==> all == Ok(Parsed(Null, i + 2)))
  {
    hide Sequence;
  }

  /** A block with something in it. */
  lemma BlockHolds(ts: seq<Token>, i: nat, b: Block)
    requires i + 1 < |ts| && ts[i].kind == LCurly && ts[i + 1].kind != RCurly
    ensures var all, s := BlockOf(ts, i, b), Sequence(ts, i + 1, b);
            && SameFailure(s, all)
            && (s.Ok? ==> Closed(s.value.node, ts, s.value.next, RCurly, "Missing }", all))
  {
    hide Sequence;
  }

  lemma IfIs(ts: seq<Token>, i: nat, b: Block)
    ensures If(ts, i, b) == Branch(StmtIf, ts, i, b)
  {
    hide Branch;
  }

  lemma TypeFails(ts: seq<Token>, i: nat)
    ensures SameFailure(PlainType(ts, i), TypeName(ts, i))
    ensures PlainType(ts, i).Ok? && PlainType(ts, i).value.node == Null ==> TypeName(ts, i) == PlainType(ts, i)
  {
    hide PlainType, Level;
  }

  /** What a type does about a suffix. */
  lemma TypeSuffix(ts: seq<Token>, i: nat)
    requires PlainType(ts, i).Ok? && PlainType(ts, i).value.node != Null
    ensures var t := PlainType(ts, i).value;
            var j := t.next;
            && (j >= |ts| ==> TypeName(ts, i) == OutOfBounds)
            && (j < |ts| && ts[j].kind != LBrack ==> TypeName(ts, i) == Ok(t))
            && (j < |ts| && ts[j].kind == LBrack ==>
                  && (j + 1 >= |ts| ==> TypeName(ts, i) == OutOfBounds)
                  && (j + 1 < |ts| && ts[j + 1].kind == RBrack
                      ==> TypeName(ts, i) == Ok(Parsed(Mk(DeclVarNosizedArray, t.node, Null), j + 2)))
                  && (j + 1 < |ts| && ts[j + 1].kind != RBrack ==>
                        var e := Level(OR, ts, j + 1);
                        && SameFailure(e, TypeName(ts, i))
                        && (e.Ok?
                            ==> TypeName(ts, i) == if ts[e.value.next].kind != RBrack then SyntaxError("Missing ]")
                            else Ok(Parsed(Mk(DeclVarSizedArray, t.node, e.value.node), e.value.next + 1)))))
  {
    hide PlainType, Level;
  }

  lemma VarDeclCases(ts: seq<Token>, i: nat)
    ensures SameFailure(TypeName(ts, i), VarDecl(ts, i))
    ensures TypeName(ts, i).Ok? ==>
              var all, t := VarDecl(ts, i), TypeName(ts, i).value;
              && (t.node == Null ==> all == SyntaxError("Invalid Type"))
              && (t.node != Null ==>
                    var a, k := Assign(ts, t.next), t.next;
                    && SameFailure(a, all)
                    && (a.Ok? && a.value.node != Null
                        ==> all == Ok(Parsed(Mk(DeclVar, t.node, a.value.node), a.value.next)))
                    && (a.Ok? && a.value.node == Null ==>
                          && (k >= |ts| ==> all == OutOfBounds)
                          && (k < |ts| && ts[k].kind != Ident
                              ==> all == SyntaxError("Invalid identifier for variable declaration."))
                          && (k < |ts| && ts[k].kind == Ident
                              ==> all == Ok(Parsed(Mk(DeclVar, t.node, Leaf(ConstVarname, ts[k].value)), k + 1)))))
  {
    hide TypeName, Assign;
  }

  lemma StructCases(ts: seq<Token>, i: nat)
    ensures var all := Struct(ts, i);
            && (i + 1 >= |ts| ==> all == OutOfBounds)
            && (i + 1 < |ts| && ts[i + 1].kind != Ident ==> all == SyntaxError("Invalid struct identifier."))
            && (i + 1 < |ts| && ts[i + 1].kind == Ident ==>
                  && (i + 2 >= |ts| ==> all == OutOfBounds)
                  && (i + 2 < |ts| && ts[i + 2].kind != LCurly ==> all == SyntaxError("Missing {"))
                  && (i + 2 < |ts| && ts[i + 2].kind == LCurly ==>
                        var m := DeclList(true, ts, i + 3);
                        && SameFailure(m, all)
                        && (m.Ok?
                            ==> Closed(Mk(DeclStruct, Varname(ts, i + 1).node, m.value.node), ts, m.value.next, RCurly,
                                       "Missing }", all))))
  {
    hide DeclList;
  }

  lemma SignatureCases(ts: seq<Token>, i: nat)
    ensures SameFailure(TypeVarname(ts, i), Signature(ts, i))
    ensures TypeVarname(ts, i).Ok? ==>
              var all, tx := Signature(ts, i), TypeVarname(ts, i).value;
              var j := tx.next;
              && (j >= |ts| ==> all == OutOfBounds)
              && (j < |ts| && ts[j].kind != LParen ==> all == SyntaxError("Missing ("))
              && (j < |ts| && ts[j].kind == LParen ==>
                    && (j + 1 >= |ts| ==> all == OutOfBounds)
                    && (j + 1 < |ts| && ts[j + 1].kind == RParen
                        ==> all == Ok(Parsed(Mk(DeclFunctionSignature, tx.node, Null), j + 2)))
                    && (j + 1 < |ts| && ts[j + 1].kind != RParen ==>
                          var ps := DeclList(false, ts, j + 1);
                          && SameFailure(ps, all)
                          && (ps.Ok?
                              ==> Closed(Mk(DeclFunctionSignature, tx.node, ps.value.node), ts, ps.value.next, RParen,
                                         "Missing )", all))))
  {
    hide TypeVarname, DeclList;
  }

  lemma DeclListCases(members: bool, ts: seq<Token>, i: nat)
    ensures var all := DeclList(members, ts, i);
            var kind := if members then DeclMemberList else DeclVarList;
            && (i >= |ts| ==> all == OutOfBounds)
            && (i < |ts| && ts[i].kind == Eof ==> all == Ok(Parsed(Mk(kind, Null, Null), i)))
            && (i < |ts| && ts[i].kind != Eof && !IsTypename(ts[i].kind) ==> all == Ok(Parsed(Null, i)))
            && (i < |ts| && ts[i].kind != Eof && IsTypename(ts[i].kind) ==>
                  var d := VarDecl(ts, i);
                  && SameFailure(d, all)
                  && (d.Ok? ==>
                        var j := d.value.next;
                        && (j >= |ts| ==> all == OutOfBounds)
                        && (j < |ts| && ts[j].kind != (if members then Semicolon else Comma)
                            ==> all == Ok(Parsed(Mk(kind, d.value.node, Null), j)))
                        && (j < |ts| && ts[j].kind == (if members then Semicolon else Comma) ==>
                              var rest := DeclList(members, ts, j + 1);
                              && SameFailure(rest, all)
                              && (rest.Ok?
                                  ==> all == Ok(Parsed(Mk(kind, d.value.node, rest.value.node), rest.value.next))))))
  {
    hide VarDecl;
  }

  /** The keywords that begin a statement in a block. */
  predicate BeginsIn(k: Kind, b: Block) {
    match b
    case NoBlock => k == WordStruct
    case LoopBlock => k in {WordIf, WordWhile, WordBreak, WordContinue}
    case FuncBlock => k in {WordIf, WordWhile, WordReturn}
  }

  /** No statement begins here. */
  lemma StatementIsNone(ts: seq<Token>, i: nat, b: Block)
    requires i < |ts| && !(ts[i].kind == Ident && Look(ts, i + 1) in {Equal, Dot})
    ensures var k, all := ts[i].kind, Statement(ts, i, b);
            && (IsTypename(k) && i + 1 >= |ts| ==> all == OutOfBounds)
            && (IsTypename(k) && i + 1 < |ts| && Look(ts, i + Offset(k, ts[i + 1].kind)) !in {LParen, Equal, Semicolon}
                ==> all == Ok(Parsed(Null, i)))
            && (!IsTypename(k) && !BeginsIn(k, b) ==> all == Ok(Parsed(Null, i)))
  {
    hide If, While, Assign, MemberAssign, Function, VarDecl, Keyword, Return, Struct;
  }

  /** A statement that begins with a type. */
  lemma DeclarationCases(ts: seq<Token>, i: nat, b: Block)
    requires i < |ts| && IsTypename(ts[i].kind) && !(ts[i].kind == Ident && Look(ts, i + 1) in {Equal, Dot})
    ensures i + 1 >= |ts| ==> Statement(ts, i, b) == OutOfBounds
    ensures i + 1 < |ts| ==>
              var at := Look(ts, i + Offset(ts[i].kind, ts[i + 1].kind));
              Statement(ts, i, b) == if at == LParen then Wrap(Function(ts, i))
                                     else if at == Equal || at == Semicolon then Semi(VarDecl(ts, i), ts)
                                     else Ok(Parsed(Null, i))
  {
    hide Statement, Function, VarDecl, Wrap, Semi, Offset, IsTypename;
    StatementIsNone(ts, i, b);
    if i + 1 < |ts| {
      StatementIs(ts, i, b);
    }
  }

  lemma PastTheEnd(ts: seq<Token>, i: nat, b: Block)
    requires i >= |ts|
    ensures Statement(ts, i, b) == SyntaxError("Invalid Statement")
  {
  }
}
