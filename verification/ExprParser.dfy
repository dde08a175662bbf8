/** What the expression half of slkc/src/slkc/compiler/parser.c computes, as
    functions from a token array and a cursor to a tree and the cursor after it.
    The code is followed as written. */
module ExprParser {
  import opened Outcomes
  import opened Tokens
  import opened Nodes
  import opened Operators

  datatype Parsed = Parsed(node: Node, next: nat)

  // ----- the mutually recursive levels

  /** One precedence level: `sk_parse_expr_or` for OR down to `sk_parse_expr_factor`
      for FACTOR. */
  function Level(lv: nat, ts: seq<Token>, i: nat): (r: Result<Parsed>)
    requires lv <= OR
    ensures r.Ok? ==> i < |ts| && i <= r.value.next <= |ts|
    ensures r.Ok? ==> (r.value.node == Null <==> ts[i].kind == Eof)
    ensures r.Ok? ==> (r.value.next == i <==> ts[i].kind == Eof)
    ensures r.Ok? && lv >= MULTIPLICATIVE ==> r.value.next < |ts|
    decreases |ts| - i, lv, 2
  {
    if lv == FACTOR then Factor(ts, i)
    else if lv == CALL then Call(ts, i)
    else if lv == NEGATE then Negate(ts, i)
    else if lv == NOT then Not(ts, i)
    else Binary(lv, ts, i)
  }

  /** The shape the seven right-recursive binary levels share. */
  function Binary(lv: nat, ts: seq<Token>, i: nat): (r: Result<Parsed>)
    requires MULTIPLICATIVE <= lv <= OR && lv != NOT
    ensures r.Ok? ==> i < |ts| && i <= r.value.next < |ts|
    ensures r.Ok? ==> (r.value.node == Null <==> ts[i].kind == Eof)
    ensures r.Ok? ==> (r.value.next == i <==> ts[i].kind == Eof)
    decreases |ts| - i, lv, 1
  {
    var lhs :- Level(lv - 1, ts, i);
    var op :- OperatorAt(lv, ts, lhs.next);
    if op == None then
      Ok(lhs)
    else
      var rhs :- Level(lv, ts, lhs.next + Width(op.value));
      if rhs.node == Null then SyntaxError("Missing expression")
      else Ok(Parsed(Mk(ExprBinary(op.value), lhs.node, rhs.node), rhs.next))
  }

  function Not(ts: seq<Token>, i: nat): (r: Result<Parsed>)
    ensures r.Ok? ==> i < |ts| && i <= r.value.next < |ts|
    ensures r.Ok? ==> (r.value.node == Null <==> ts[i].kind == Eof)
    ensures r.Ok? ==> (r.value.next == i <==> ts[i].kind == Eof)
    decreases |ts| - i, NOT, 1
  {
    var k :- KindAt(ts, i);
    if k == Eof then
      Ok(Parsed(Null, i))
    else if k == Exclam then
      var k1 :- KindAt(ts, i + 1);
      if k1 != Equal then
        var e :- Level(COMPARE, ts, i + 1);
        if e.node == Null then SyntaxError("Missing expression")
        else Ok(Parsed(Mk(ExprNot, e.node, Null), e.next))
      else
        Level(COMPARE, ts, i)
    else
      Level(COMPARE, ts, i)
  }

  /** `-` and its operand. The operand is parsed, but the node does not keep it: the
      check after the parse assigns NULL to the child instead of comparing with it. */
  function Negate(ts: seq<Token>, i: nat): (r: Result<Parsed>)
    ensures r.Ok? ==> i < |ts| && i <= r.value.next <= |ts|
    ensures r.Ok? ==> (r.value.node == Null <==> ts[i].kind == Eof)
    ensures r.Ok? ==> (r.value.next == i <==> ts[i].kind == Eof)
    decreases |ts| - i, NEGATE, 1
  {
    var k :- KindAt(ts, i);
    if k == Eof then
      Ok(Parsed(Null, i))
    else if k == Minus then
      var e :- Level(CALL, ts, i + 1);
      Ok(Parsed(Mk(ExprNegate, Null, Null), e.next))
    else
      Level(CALL, ts, i)
  }

  function Call(ts: seq<Token>, i: nat): (r: Result<Parsed>)
    ensures r.Ok? ==> i < |ts| && i <= r.value.next <= |ts|
    ensures r.Ok? ==> (r.value.node == Null <==> ts[i].kind == Eof)
    ensures r.Ok? ==> (r.value.next == i <==> ts[i].kind == Eof)
    decreases |ts| - i, CALL, 1
  {
    if i + 1 < |ts| && ts[i].kind == Ident && ts[i + 1].kind == LParen then
      var name := Varname(ts, i).node;
      var k :- KindAt(ts, i + 2);
      if k == RParen then
        Ok(Parsed(Mk(ExprCall, name, Null), i + 3))
      else
        var args :- List(ts, i + 2);
        if ts[args.next].kind != RParen then SyntaxError("Missing )")
        else Ok(Parsed(Mk(ExprCall, name, args.node), args.next + 1))
    else
      Level(FACTOR, ts, i)
  }

  function Varname(ts: seq<Token>, i: nat): Parsed
    requires i < |ts|
  {
    Parsed(Leaf(ConstVarname, ts[i].value), i + 1)
  }

  function Factor(ts: seq<Token>, i: nat): (r: Result<Parsed>)
    ensures r.Ok? ==> i < |ts| && i <= r.value.next <= |ts|
    ensures r.Ok? ==> (r.value.node == Null <==> ts[i].kind == Eof)
    ensures r.Ok? ==> (r.value.next == i <==> ts[i].kind == Eof)
    decreases |ts| - i, FACTOR, 1
  {
    var k :- KindAt(ts, i);
    match k
    case Eof => Ok(Parsed(Null, i))
    case LitInt => Ok(Parsed(Leaf(ConstInt, ts[i].value), i + 1))
    case LitFloat => Ok(Parsed(Leaf(ConstFloat, ts[i].value), i + 1))
    case LitBool => Ok(Parsed(Leaf(ConstBool, ts[i].value), i + 1))
    case LitString => Ok(Parsed(Leaf(ConstString, ts[i].value), i + 1))
    case Ident =>
      if i + 1 < |ts| && (ts[i + 1].kind == Dot || ts[i + 1].kind == LBrack)
      then MemberAccess(ts, i)
      else Ok(Varname(ts, i))
    case LCurly =>
      var items :- List(ts, i + 1);
      if ts[items.next].kind != RCurly then SyntaxError("Missing }")
      else Ok(Parsed(Mk(ConstStruct, items.node, Null), items.next + 1))
    case LBrack =>
      var items :- List(ts, i + 1);
      if ts[items.next].kind != RBrack then SyntaxError("Missing ]")
      else Ok(Parsed(Mk(ConstArray, items.node, Null), items.next + 1))
    case LParen =>
      var e :- Level(OR, ts, i + 1);
      if ts[e.next].kind != RParen then SyntaxError("Missing )")
      else Ok(Parsed(e.node, e.next + 1))
    case _ => SyntaxError("Invalid Token")
  }

  /** Member access. The test for a preceding dot compares the cursor's own address
      with zero, so it always goes on to read the token before the cursor: at index
      0 that read is out of bounds, unless the test for a following dot came out true. */
  function MemberAccess(ts: seq<Token>, i: nat): (r: Result<Parsed>)
    requires i < |ts|
    ensures r.Ok? && ts[i].kind == Ident ==> i < r.value.next <= |ts| && r.value.node != Null
    decreases |ts| - i, FACTOR, 0
  {
    if i + 1 < |ts| then
      if ts[i].kind == Ident && ts[i + 1].kind == Dot then
        var e :- Level(FACTOR, ts, i + 2);
        if e.node == Null then SyntaxError("Invalid Member Access")
        else Ok(Parsed(Mk(ExprMemberAccess, Varname(ts, i).node, e.node), e.next))
      else if i == 0 then
        OutOfBounds
      else if ts[i - 1].kind == Dot && ts[i].kind == Ident then
        Ok(Parsed(Mk(ExprMemberAccess, Varname(ts, i).node, Null), i + 1))
      else if ts[i].kind == Ident && ts[i + 1].kind == LBrack then
        var indices :- ArrayIndex(ts, i + 1);
        Ok(Parsed(Mk(ExprArrayAccess, Varname(ts, i).node, indices.node), indices.next))
      else
        Ok(Varname(ts, i))
    else
      Ok(Varname(ts, i))
  }

  function ArrayIndex(ts: seq<Token>, i: nat): (r: Result<Parsed>)
    ensures r.Ok? ==> i <= r.value.next < |ts|
    decreases |ts| - i, FACTOR, 0
  {
    var k :- KindAt(ts, i);
    if k == LBrack then
      var e :- Level(OR, ts, i + 1);
      if ts[e.next].kind != RBrack then SyntaxError("Missing ]")
      else
        var rest :- ArrayIndex(ts, e.next + 1);
        Ok(Parsed(Mk(ExprArrayIndex, e.node, rest.node), rest.next))
    else
      Ok(Parsed(Null, i))
  }

  /** `sk_parse_expr_list`. At the end of the tokens it returns an empty list node. */
  function List(ts: seq<Token>, i: nat): (r: Result<Parsed>)
    ensures r.Ok? ==> i <= r.value.next < |ts|
    decreases |ts| - i, OR + 1, 0
  {
    var k :- KindAt(ts, i);
    if k == Eof then
      Ok(Parsed(Mk(ExprList, Null, Null), i))
    else
      var e :- Level(OR, ts, i);
      if ts[e.next].kind == Comma then
        var rest :- List(ts, e.next + 1);
        Ok(Parsed(Mk(ExprList, e.node, rest.node), rest.next))
      else
        Ok(Parsed(Mk(ExprList, e.node, Null), e.next))
  }
}
