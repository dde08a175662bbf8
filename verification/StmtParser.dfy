/** What the statement half of slkc/src/slkc/compiler/parser.c computes: types,
    declarations, statements and the program. The code is followed as written. */
module StmtParser {
  import opened Outcomes
  import opened Tokens
  import opened Nodes
  import opened Operators
  import opened ExprParser

  /** The block a statement stands in. */
  datatype Block = NoBlock | LoopBlock | FuncBlock

  predicate IsTypename(k: Kind) {
    k in {WordVoid, WordInt, WordBool, WordFloat, WordRef, Ident, WordConst}
  }

  // ----- declarations

  /** The type before an array suffix; no type is no error but an absent node. */
  function PlainType(ts: seq<Token>, i: nat): (r: Result<Parsed>)
    ensures r.Ok? ==> i < |ts| && i <= r.value.next <= |ts| && (r.value.node == Null <==> r.value.next == i)
    ensures r.Ok? ==> (r.value.node != Null <==> IsTypename(ts[i].kind))
    decreases |ts| - i, 0
  {
    var k :- KindAt(ts, i);
    match k
    case WordInt => Ok(Parsed(Mk(TypeInt, Null, Null), i + 1))
    case WordFloat => Ok(Parsed(Mk(TypeFloat, Null, Null), i + 1))
    case WordBool => Ok(Parsed(Mk(TypeBool, Null, Null), i + 1))
    case WordVoid => Ok(Parsed(Mk(TypeVoid, Null, Null), i + 1))
    case Ident => Ok(Parsed(Mk(TypeUser, Varname(ts, i).node, Null), i + 1))
    case WordRef =>
      var t :- TypeName(ts, i + 1);
      if t.node == Null then SyntaxError("Invalid type reference.")
      else Ok(Parsed(Mk(DeclReference, t.node, Null), t.next))
    case WordConst =>
      var t :- TypeName(ts, i + 1);
      if t.node == Null then SyntaxError("Invalid type reference.")
      else Ok(Parsed(Mk(DeclConst, t.node, Null), t.next))
    case _ => Ok(Parsed(Null, i))
  }

  function TypeName(ts: seq<Token>, i: nat): (r: Result<Parsed>)
    ensures r.Ok? ==> i < |ts| && i <= r.value.next <= |ts| && (r.value.node == Null <==> r.value.next == i)
    ensures r.Ok? ==> (r.value.node != Null <==> IsTypename(ts[i].kind))
    decreases |ts| - i, 1
  {
    var t :- PlainType(ts, i);
    if t.node == Null then Ok(t)
    else
      var k :- KindAt(ts, t.next);
      if k != LBrack then Ok(t)
      else
        var k1 :- KindAt(ts, t.next + 1);
        if k1 == RBrack then
          Ok(Parsed(Mk(DeclVarNosizedArray, t.node, Null), t.next + 2))
        else
          var e :- Level(OR, ts, t.next + 1);
          if ts[e.next].kind != RBrack then SyntaxError("Missing ]")
          else Ok(Parsed(Mk(DeclVarSizedArray, t.node, e.node), e.next + 1))
  }

  /** `sk_parse_stmt_assign`: an absent node when the tokens are not `name =`. */
  function Assign(ts: seq<Token>, i: nat): (r: Result<Parsed>)
    ensures r.Ok? ==> i <= r.value.next && (r.value.node == Null <==> r.value.next == i)
    ensures r.Ok? && r.value.node != Null ==> r.value.next < |ts|
  {
    if i + 1 < |ts| && ts[i].kind == Ident && ts[i + 1].kind == Equal then
      var target :- MemberAccess(ts, i);
      var k :- KindAt(ts, target.next);
      if k != Equal then SyntaxError("Invalide assignment")
      else
        var e :- Level(OR, ts, target.next + 1);
        Ok(Parsed(Mk(StmtAssign, target.node, e.node), e.next))
    else
      Ok(Parsed(Null, i))
  }

  function VarDecl(ts: seq<Token>, i: nat): (r: Result<Parsed>)
    ensures r.Ok? ==> i < r.value.next <= |ts| && r.value.node.Node? && r.value.node.kind == DeclVar
  {
    var t :- TypeName(ts, i);
    if t.node == Null then SyntaxError("Invalid Type")
    else
      var a :- Assign(ts, t.next);
      if a.node != Null then Ok(Parsed(Mk(DeclVar, t.node, a.node), a.next))
      else
        var k :- KindAt(ts, t.next);
        if k != Ident then SyntaxError("Invalid identifier for variable declaration.")
        else
          var x := Varname(ts, t.next);
          Ok(Parsed(Mk(DeclVar, t.node, x.node), x.next))
  }

  /** `sk_parse_decl_list` and, for `members`, `sk_parse_decl_members`. */
  function DeclList(members: bool, ts: seq<Token>, i: nat): (r: Result<Parsed>)
    ensures r.Ok? ==> i <= r.value.next <= |ts|
    decreases |ts| - i
  {
    var kind := if members then DeclMemberList else DeclVarList;
    var k :- KindAt(ts, i);
    if k == Eof then
      Ok(Parsed(Mk(kind, Null, Null), i))
    else if !IsTypename(k) then
      Ok(Parsed(Null, i))
    else
      var d :- VarDecl(ts, i);
      var k1 :- KindAt(ts, d.next);
      if k1 == if members then Semicolon else Comma then
        var rest :- DeclList(members, ts, d.next + 1);
        Ok(Parsed(Mk(kind, d.node, rest.node), rest.next))
      else
        Ok(Parsed(Mk(kind, d.node, Null), d.next))
  }

  function Struct(ts: seq<Token>, i: nat): (r: Result<Parsed>)
    ensures r.Ok? ==> i < r.value.next <= |ts| && r.value.node.Node? && r.value.node.kind == DeclStruct
  {
    var k :- KindAt(ts, i + 1);
    if k != Ident then SyntaxError("Invalid struct identifier.")
    else
      var k1 :- KindAt(ts, i + 2);
      if k1 != LCurly then SyntaxError("Missing {")
      else
        var m :- DeclList(true, ts, i + 3);
        var k2 :- KindAt(ts, m.next);
        if k2 != RCurly then SyntaxError("Missing }")
        else Ok(Parsed(Mk(DeclStruct, Varname(ts, i + 1).node, m.node), m.next + 1))
  }

  /** Type and name of a function. The name is taken without a look at its kind. */
  function TypeVarname(ts: seq<Token>, i: nat): (r: Result<Parsed>)
    ensures r.Ok? ==> i < r.value.next <= |ts|
  {
    var t :- TypeName(ts, i);
    var _ :- KindAt(ts, t.next);
    var x := Varname(ts, t.next);
    Ok(Parsed(Mk(DeclTypeVarnamePair, t.node, x.node), x.next))
  }

  function Signature(ts: seq<Token>, i: nat): (r: Result<Parsed>)
    ensures r.Ok? ==> i < r.value.next <= |ts|
  {
    var tx :- TypeVarname(ts, i);
    var k :- KindAt(ts, tx.next);
    if k != LParen then SyntaxError("Missing (")
    else
      var k1 :- KindAt(ts, tx.next + 1);
      if k1 == RParen then
        Ok(Parsed(Mk(DeclFunctionSignature, tx.node, Null), tx.next + 2))
      else
        var ps :- DeclList(false, ts, tx.next + 1);
        var k2 :- KindAt(ts, ps.next);
        if k2 != RParen then SyntaxError("Missing )")
        else Ok(Parsed(Mk(DeclFunctionSignature, tx.node, ps.node), ps.next + 1))
  }

  // ----- statements

  function ExprThen(ts: seq<Token>, i: nat, close: Kind, message: string): (r: Result<Parsed>)
    ensures r.Ok? ==> i < r.value.next <= |ts|
  {
    var e :- Level(OR, ts, i);
    if ts[e.next].kind != close then SyntaxError(message)
    else Ok(Parsed(e.node, e.next + 1))
  }

  /** The parenthesised condition after a keyword at `i`. */
  function Condition(ts: seq<Token>, i: nat): (r: Result<Parsed>)
    ensures r.Ok? ==> i < r.value.next <= |ts|
  {
    var k :- KindAt(ts, i + 1);
    if k != LParen then SyntaxError("Missing (")
    else ExprThen(ts, i + 2, RParen, "Missing )")
  }

  /** A leaf statement: its keyword and a semicolon. */
  function Keyword(ts: seq<Token>, i: nat, kind: NodeKind): (r: Result<Parsed>)
    ensures r.Ok? ==> i < r.value.next <= |ts| && r.value.node == Mk(kind, Null, Null)
  {
    var k :- KindAt(ts, i + 1);
    if k != Semicolon then SyntaxError("Missing ;")
    else Ok(Parsed(Mk(kind, Null, Null), i + 2))
  }

  function Return(ts: seq<Token>, i: nat): (r: Result<Parsed>)
    ensures r.Ok? ==> i < r.value.next <= |ts|
  {
    var e :- ExprThen(ts, i + 1, Semicolon, "Missing ;");
    Ok(Parsed(Mk(StmtReturn, e.node, Null), e.next))
  }

  /** Where an `else` part goes: over the left child of the first statement of the body,
      or in place of the body when there is none. */
  function AttachElse(body: Node, alt: Node): Node {
    if body != Null then body.(left := alt) else alt
  }

  function Semi(r: Result<Parsed>, ts: seq<Token>): (r': Result<Parsed>)
    ensures r'.Ok? ==> r.Ok? && r'.value.next == r.value.next + 1 <= |ts|
  {
    var p :- r;
    var k :- KindAt(ts, p.next);
    if k != Semicolon then SyntaxError("Missing ;")
    else Ok(Parsed(Mk(Stmt, p.node, Null), p.next + 1))
  }

  function Wrap(r: Result<Parsed>): Result<Parsed> {
    var p :- r;
    Ok(Parsed(Mk(Stmt, p.node, Null), p.next))
  }

  function MemberAssign(ts: seq<Token>, i: nat): (r: Result<Parsed>)
    requires i < |ts| && ts[i].kind == Ident
    ensures r.Ok? ==> i < r.value.next < |ts|
  {
    var target :- MemberAccess(ts, i);
    var k :- KindAt(ts, target.next);
    if k != Equal then SyntaxError("Invalid assignment statement.")
    else
      var e :- Level(OR, ts, target.next + 1);
      Ok(Parsed(Mk(StmtAssign, target.node, e.node), e.next))
  }

  /** How far from a type's first token the parser looks to tell a function from a
      variable. */
  function Offset(k: Kind, next: Kind): nat {
    (if k == WordRef || k == WordConst then 3 else 2) + if next == WordRef then 1 else 0
  }

  function Statement(ts: seq<Token>, i: nat, b: Block): (r: Result<Parsed>)
    ensures r.Ok? ==> i <= r.value.next <= |ts|
    ensures r.Ok? && r.value.node == Null ==> r.value.next == i
    ensures r.Ok? && r.value.node != Null
            ==> i < r.value.next && r.value.node.kind == Stmt && r.value.node.right == Null
    decreases |ts| - i, 5
  {
    if i >= |ts| then SyntaxError("Invalid Statement")
    else
      var k := ts[i].kind;
      if b != NoBlock && k == WordIf then Wrap(If(ts, i, b))
      else if b != NoBlock && k == WordWhile then Wrap(While(ts, i))
      else if k == Ident && i + 1 < |ts| && ts[i + 1].kind == Equal then Semi(Assign(ts, i), ts)
      else if k == Ident && i + 1 < |ts| && ts[i + 1].kind == Dot then Semi(MemberAssign(ts, i), ts)
      else if IsTypename(k) then
        var k1 :- KindAt(ts, i + 1);
        var at := Look(ts, i + Offset(k, k1));
        if at == LParen then Wrap(Function(ts, i))
        else if at == Equal || at == Semicolon then Semi(VarDecl(ts, i), ts)
        else Ok(Parsed(Null, i))
      else if b == LoopBlock && k == WordBreak then Wrap(Keyword(ts, i, StmtBreak))
      else if b == LoopBlock && k == WordContinue then Wrap(Keyword(ts, i, StmtContinue))
      else if b == FuncBlock && k == WordReturn then Wrap(Return(ts, i))
      else if b == NoBlock && k == WordStruct then Wrap(Struct(ts, i))
      else Ok(Parsed(Null, i))
  }

  function Sequence(ts: seq<Token>, i: nat, b: Block): (r: Result<Parsed>)
    ensures r.Ok? ==> i <= r.value.next <= |ts|
    ensures r.Ok? ==> (r.value.node == Null <==> r.value.next == i)
    ensures r.Ok? && r.value.node != Null ==> r.value.node.kind == Stmt
    decreases |ts| - i, 6
  {
    var s :- Statement(ts, i, b);
    if s.node != Null && s.next < |ts| then
      var rest :- Sequence(ts, s.next, b);
      Ok(Parsed(s.node.(right := rest.node), rest.next))
    else
      Ok(s)
  }

  function BlockOf(ts: seq<Token>, i: nat, b: Block): (r: Result<Parsed>)
    ensures r.Ok? ==> i < r.value.next <= |ts|
    ensures r.Ok? && r.value.node != Null ==> r.value.node.kind == Stmt
    decreases |ts| - i, 1
  {
    var k :- KindAt(ts, i);
    if k != LCurly then SyntaxError("Missing {")
    else
      var k1 :- KindAt(ts, i + 1);
      if k1 == RCurly then Ok(Parsed(Null, i + 2))
      else
        var s :- Sequence(ts, i + 1, b);
        var k2 :- KindAt(ts, s.next);
        if k2 != RCurly then SyntaxError("Missing }")
        else Ok(Parsed(s.node, s.next + 1))
  }

  function Function(ts: seq<Token>, i: nat): (r: Result<Parsed>)
    ensures r.Ok? ==> i < r.value.next <= |ts|
    decreases |ts| - i, 2
  {
    var sig :- Signature(ts, i);
    var body :- BlockOf(ts, sig.next, FuncBlock);
    Ok(Parsed(Mk(DeclFunction, sig.node, body.node), body.next))
  }

  function While(ts: seq<Token>, i: nat): (r: Result<Parsed>)
    ensures r.Ok? ==> i < r.value.next <= |ts|
    decreases |ts| - i, 2
  {
    var c :- Condition(ts, i);
    var body :- BlockOf(ts, c.next, LoopBlock);
    Ok(Parsed(Mk(StmtWhile, c.node, body.node), body.next))
  }

  /** The parts of an `if` or `else if`, and the else chain that may follow. */
  function If(ts: seq<Token>, i: nat, b: Block): (r: Result<Parsed>)
    ensures r.Ok? ==> i < r.value.next <= |ts|
    decreases |ts| - i, 3
  {
    Branch(StmtIf, ts, i, b)
  }

  function Branch(kind: NodeKind, ts: seq<Token>, i: nat, b: Block): (r: Result<Parsed>)
    ensures r.Ok? ==> i < r.value.next <= |ts|
    decreases |ts| - i, 2
  {
    var c :- Condition(ts, i);
    var body :- BlockOf(ts, c.next, b);
    var k :- KindAt(ts, body.next);
    if k == WordElseIf || k == WordElse then
      var alt :- Alternative(ts, body.next, b);
      Ok(Parsed(Mk(kind, c.node, AttachElse(body.node, alt.node)), alt.next))
    else
      Ok(Parsed(Mk(kind, c.node, body.node), body.next))
  }

  function Alternative(ts: seq<Token>, i: nat, b: Block): (r: Result<Parsed>)
    requires i < |ts|
    ensures r.Ok? ==> i < r.value.next <= |ts|
    decreases |ts| - i, 4
  {
    if ts[i].kind == WordElseIf then Branch(StmtElseIf, ts, i, b) else Else(ts, i, b)
  }

  function Else(ts: seq<Token>, i: nat, b: Block): (r: Result<Parsed>)
    requires i < |ts|
    ensures r.Ok? ==> i < r.value.next <= |ts|
    decreases |ts| - i, 2
  {
    var body :- BlockOf(ts, i + 1, b);
    Ok(Parsed(Mk(StmtElse, Null, body.node), body.next))
  }

  function Program(ts: seq<Token>): Result<Node> {
    if |ts| > 0 then
      var p :- Sequence(ts, 0, NoBlock);
      Ok(p.node)
    else
      Ok(Null)
  }
}
