/** The recursive-descent parser of slkc/src/slkc/compiler/parser.c as it is written: one
    method per function, a cursor that is moved in place, nodes that are allocated and
    linked step by step. Each method does what the specification function of its level
    says, from the cursor's old position to its new one. */
module ParserMethods {
  import opened Outcomes
  import opened Tokens
  import opened Nodes
  import opened AstNodes
  import opened Operators
  import opened ExprParser
  import opened ExprCases
  import opened StmtParser
  import opened StmtCases

  class Parser {
    const tokens: seq<Token>
    var index: nat

    constructor (tokens: seq<Token>)
      ensures this.tokens == tokens && index == 0
    {
      this.tokens := tokens;
      index := 0;
    }

    /** The outcome of a method is that of its specification: the same failure, or the
        same tree and the cursor where the specification leaves it. */
    ghost predicate Did(r: Result<AstNode?>, spec: Result<Parsed>)
      reads `index, if r.Ok? then {r.value} else {}, if r.Ok? then Repr(r.value) else {}
    {
      || (spec.Ok? && r.Ok? && Represents(r.value, spec.value.node) && index == spec.value.next)
      || (spec.SyntaxError? && r == SyntaxError(spec.message))
      || (spec.OutOfBounds? && r == OutOfBounds)
    }

    // ----- constants

    method ParseConst(kind: NodeKind) returns (node: AstNode)
      requires index < |tokens|
      modifies `index
      ensures index == old(index) + 1 && fresh(node.repr)
      ensures node.Valid() && node.shape == Leaf(kind, tokens[old(index)].value)
    {
      var token := tokens[index];
      node := new AstNode(kind);
      node.SetValue(token.value);
      index := index + 1;
    }

    /** `sk_parse_const_struct` and `sk_parse_const_array`, and the check for the closing
        symbol in `sk_parse_expr_factor`. */
    method ParseConstList(kind: NodeKind, close: Kind, message: string) returns (r: Result<AstNode?>)
      requires index < |tokens| && tokens[index].kind == (if kind == ConstStruct then LCurly else LBrack)
      requires (kind, close, message) == (ConstStruct, RCurly, "Missing }")
               || (kind, close, message) == (ConstArray, RBrack, "Missing ]")
      modifies `index
      ensures Did(r, Factor(tokens, old(index)))
      ensures r.Ok? ==> fresh(Repr(r.value))
      decreases |tokens| - index, FACTOR, 0
    {
      hide List;
      var node := new AstNode(kind);
      index := index + 1;
      var items :- ParseExprList();
      node.SetLeft(items);
      if tokens[index].kind == close {
        index := index + 1;
        return Ok(node);
      }
      return SyntaxError(message);
    }

    // ----- expressions

    method ParseExprFactor() returns (r: Result<AstNode?>)
      modifies `index
      ensures Did(r, Factor(tokens, old(index)))
      ensures r.Ok? ==> fresh(Repr(r.value))
      decreases |tokens| - index, FACTOR, 1
    {
      hide Level, List, MemberAccess;
      var k :- KindAt(tokens, index);
      match k
      case Eof => return Ok(null);
      case LitInt => var n := ParseConst(ConstInt); return Ok(n);
      case LitFloat => var n := ParseConst(ConstFloat); return Ok(n);
      case LitBool => var n := ParseConst(ConstBool); return Ok(n);
      case LitString => var n := ParseConst(ConstString); return Ok(n);
      case Ident =>
        if index + 1 < |tokens| && (tokens[index + 1].kind == Dot || tokens[index + 1].kind == LBrack) {
          r := ParseExprMemberAccess();
          return;
        }
        var n := ParseConst(ConstVarname);
        return Ok(n);
      case LCurly => r := ParseConstList(ConstStruct, RCurly, "Missing }");
      case LBrack => r := ParseConstList(ConstArray, RBrack, "Missing ]");
      case LParen => r := ParseParenthesised();
      case _ => return SyntaxError("Invalid Token");
    }

    method ParseParenthesised() returns (r: Result<AstNode?>)
      requires index < |tokens| && tokens[index].kind == LParen
      modifies `index
      ensures Did(r, Factor(tokens, old(index)))
      ensures r.Ok? ==> fresh(Repr(r.value))
      decreases |tokens| - index, FACTOR, 0
    {
      hide Level;
      index := index + 1;
      var factor :- ParseExpr(OR);
      if tokens[index].kind != RParen {
        return SyntaxError("Missing )");
      }
      index := index + 1;
      return Ok(factor);
    }

    method ParseExprMemberAccess() returns (r: Result<AstNode?>)
      requires index < |tokens| && tokens[index].kind == Ident
      modifies `index
      ensures Did(r, MemberAccess(tokens, old(index)))
      ensures r.Ok? ==> fresh(Repr(r.value))
      decreases |tokens| - index, FACTOR, 0
    {
      hide MemberAccess, MemberTail, AstNode.Valid;
      MemberAccessCases(tokens, index);
      if index + 1 < |tokens| {
        var dotted := tokens[index + 1].kind == Dot;
        if !dotted {
          if index == 0 {
            return OutOfBounds;
          }
          dotted := tokens[index - 1].kind == Dot;
        }
        if dotted {
          var member := new AstNode(ExprMemberAccess);
          var name := ParseConst(ConstVarname);
          member.SetLeft(name);
          if tokens[index].kind != Dot {
            return Ok(member);
          }
          index := index + 1;
          r := LinkTail(member, Varname(tokens, index - 2).node);
          return;
        } else if tokens[index + 1].kind == LBrack {
          r := ParseExprArrayAccess();
          return;
        }
      }
      var name := ParseConst(ConstVarname);
      return Ok(name);
    }

    /** The member behind the dot, linked to the node of the access. */
    method LinkTail(member: AstNode, ghost name: Node) returns (r: Result<AstNode?>)
      requires member.Valid() && member.shape == Mk(ExprMemberAccess, name, Null)
      modifies `index, member
      ensures Did(r, MemberTail(name, tokens, old(index)))
      ensures r.Ok? ==> fresh(Repr(r.value) - old(member.repr))
      decreases |tokens| - index, FACTOR, 2
    {
      hide Level, Factor, AstNode.Valid;
      FactorLevel(tokens, index);
      var tail :- ParseExprFactor();
      assert Repr(tail) !! member.repr;
      member.SetRight(tail);
      if tail == null {
        return SyntaxError("Invalid Member Access");
      }
      return Ok(member);
    }

    method ParseExprArrayAccess() returns (r: Result<AstNode?>)
      requires 0 < index && index + 1 < |tokens| && tokens[index].kind == Ident && tokens[index + 1].kind == LBrack
      requires tokens[index - 1].kind != Dot
      modifies `index
      ensures Did(r, MemberAccess(tokens, old(index)))
      ensures r.Ok? ==> fresh(Repr(r.value))
      decreases |tokens| - index, FACTOR, -1
    {
      hide Level, ArrayIndex;
      var access := new AstNode(ExprArrayAccess);
      var name := ParseConst(ConstVarname);
      access.SetLeft(name);
      var indices :- ParseExprArrayIndex();
      access.SetRight(indices);
      return Ok(access);
    }

    method ParseExprArrayIndex() returns (r: Result<AstNode?>)
      modifies `index
      ensures Did(r, ArrayIndex(tokens, old(index)))
      ensures r.Ok? ==> fresh(Repr(r.value))
      decreases |tokens| - index, FACTOR, 0
    {
      hide Level, ArrayIndex, AstNode.Valid;
      ghost var start := index;
      ArrayIndexCases(tokens, start);
      var k :- KindAt(tokens, index);
      if k != LBrack {
        return Ok(null);
      }
      var node := new AstNode(ExprArrayIndex);
      index := index + 1;
      var e :- ParseExpr(OR);
      node.SetLeft(e);
      if tokens[index].kind != RBrack {
        return SyntaxError("Missing ]");
      }
      index := index + 1;
      r := ParseMoreIndices(node, start, Level(OR, tokens, start + 1).value);
    }

    /** The indices behind the first, which is in `node`. */
    method ParseMoreIndices(node: AstNode, ghost start: nat, ghost e: Parsed) returns (r: Result<AstNode?>)
      requires start < |tokens| && tokens[start].kind == LBrack && Level(OR, tokens, start + 1) == Ok(e)
      requires index == e.next + 1 && tokens[e.next].kind == RBrack
      requires node.Valid() && node.shape == Mk(ExprArrayIndex, e.node, Null)
      modifies `index, node
      ensures Did(r, ArrayIndex(tokens, start))
      ensures r.Ok? ==> fresh(Repr(r.value) - old(node.repr))
      decreases |tokens| - index, FACTOR, 1
    {
      hide Level, ArrayIndex, AstNode.Valid;
      ArrayIndexCases(tokens, start);
      var rest :- ParseExprArrayIndex();
      node.SetRight(rest);
      return Ok(node);
    }

    method ParseExprCall() returns (r: Result<AstNode?>)
      modifies `index
      ensures Did(r, Level(CALL, tokens, old(index)))
      ensures r.Ok? ==> fresh(Repr(r.value))
      decreases |tokens| - index, CALL, 1
    {
      hide Level, Factor, List, Call, AstNode.Valid;
      CallLevel(tokens, index);
      if index + 1 < |tokens| && tokens[index].kind == Ident && tokens[index + 1].kind == LParen {
        r := ParseCallArguments();
        return;
      }
      FactorIsCall(tokens, index);
      FactorLevel(tokens, index);
      r := ParseExprFactor();
    }

    /** A call, with the cursor on the name. */
    method ParseCallArguments() returns (r: Result<AstNode?>)
      requires index + 1 < |tokens| && tokens[index].kind == Ident && tokens[index + 1].kind == LParen
      modifies `index
      ensures Did(r, Call(tokens, old(index)))
      ensures r.Ok? ==> fresh(Repr(r.value))
      decreases |tokens| - index, CALL, 0
    {
      hide Arguments, Call, AstNode.Valid;
      CallBegins(tokens, index);
      var call := new AstNode(ExprCall);
      var name := ParseConst(ConstVarname);
      call.SetLeft(name);
      index := index + 1;
      var k :- KindAt(tokens, index);
      if k == RParen {
        index := index + 1;
        return Ok(call);
      }
      r := LinkArguments(call, Varname(tokens, index - 2).node);
    }

    /** The arguments and their closing symbol, linked to the call's node. */
    method LinkArguments(call: AstNode, ghost name: Node) returns (r: Result<AstNode?>)
      requires call.Valid() && call.shape == Mk(ExprCall, name, Null)
      modifies `index, call
      ensures Did(r, Arguments(name, tokens, old(index)))
      ensures r.Ok? ==> fresh(Repr(r.value) - old(call.repr))
      decreases |tokens| - index, OR + 1, 1
    {
      hide List, AstNode.Valid;
      var args :- ParseExprList();
      assert Repr(args) !! call.repr;
      call.SetRight(args);
      if tokens[index].kind != RParen {
        return SyntaxError("Missing )");
      }
      index := index + 1;
      return Ok(call);
    }

    method ParseExprNegate() returns (r: Result<AstNode?>)
      modifies `index
      ensures Did(r, Level(NEGATE, tokens, old(index)))
      ensures r.Ok? ==> fresh(Repr(r.value))
      decreases |tokens| - index, NEGATE, 1
    {
      hide Factor, Call;
      var k :- KindAt(tokens, index);
      if k == Eof {
        return Ok(null);
      }
      if k == Minus {
        index := index + 1;
        var negate := new AstNode(ExprNegate);
        var operand :- ParseExprCall();
        negate.SetLeft(operand);
        // The check for a missing operand assigns instead of comparing.
        negate.SetLeft(null);
        return Ok(negate);
      }
      r := ParseExprCall();
    }

    method ParseExprNot() returns (r: Result<AstNode?>)
      modifies `index
      ensures Did(r, Level(NOT, tokens, old(index)))
      ensures r.Ok? ==> fresh(Repr(r.value))
      decreases |tokens| - index, NOT, 1
    {
      hide Level, Not, AstNode.Valid;
      NotLevel(tokens, index);
      NotCases(tokens, index);
      var k :- KindAt(tokens, index);
      if k == Eof {
        return Ok(null);
      }
      if k == Exclam {
        var k1 :- KindAt(tokens, index + 1);
        if k1 != Equal {
          index := index + 1;
          var node := new AstNode(ExprNot);
          var operand :- ParseExpr(COMPARE);
          node.SetLeft(operand);
          if operand == null {
            return SyntaxError("Missing expression");
          }
          return Ok(node);
        }
      }
      r := ParseExpr(COMPARE);
    }

    method ParseExprList() returns (r: Result<AstNode?>)
      modifies `index
      ensures Did(r, List(tokens, old(index)))
      ensures r.Ok? ==> fresh(Repr(r.value))
      decreases |tokens| - index, OR + 1, 0
    {
      hide Level, List, AstNode.Valid;
      ghost var start := index;
      ListCases(tokens, start);
      var node := new AstNode(ExprList);
      var k :- KindAt(tokens, index);
      if k == Eof {
        return Ok(node);
      }
      var e :- ParseExpr(OR);
      node.SetLeft(e);
      if e == null {
        return Ok(null);
      }
      r := ParseMoreItems(node, start, Level(OR, tokens, start).value);
    }

    /** The items behind the first, which is in `node`. */
    method ParseMoreItems(node: AstNode, ghost start: nat, ghost e: Parsed) returns (r: Result<AstNode?>)
      requires start < |tokens| && tokens[start].kind != Eof && Level(OR, tokens, start) == Ok(e)
               && start < index == e.next
      requires node.Valid() && node.shape == Mk(ExprList, e.node, Null)
      modifies `index, node
      ensures Did(r, List(tokens, start))
      ensures r.Ok? ==> fresh(Repr(r.value) - old(node.repr))
      decreases |tokens| - index, OR + 1, 1
    {
      hide Level, List, AstNode.Valid;
      ListCases(tokens, start);
      if tokens[index].kind == Comma {
        index := index + 1;
        var rest :- ParseExprList();
        node.SetRight(rest);
      }
      return Ok(node);
    }

    /** The seven functions `sk_parse_expr_multiplicative` to `sk_parse_expr_or`, which
        differ in the symbols they look for and in the next tighter level. */
    method ParseExprBinary(lv: nat) returns (r: Result<AstNode?>)
      requires MULTIPLICATIVE <= lv <= OR && lv != NOT
      modifies `index
      ensures Did(r, Level(lv, tokens, old(index)))
      ensures r.Ok? ==> fresh(Repr(r.value))
      decreases |tokens| - index, lv, 1
    {
      hide Level, OperatorAt, Width, AstNode.Valid;
      ghost var start := index;
      BinaryLeft(lv, tokens, start);
      var lhs :- ParseExpr(lv - 1);
      BinaryOperator(lv, tokens, start);
      var op :- OperatorAt(lv, tokens, index);
      if op == None {
        return Ok(lhs);
      }
      BinaryRight(lv, tokens, start, op.value);
      index := index + Width(op.value);
      var rhs :- ParseExpr(lv);
      if rhs == null {
        return SyntaxError("Missing expression");
      }
      var expr := new AstNode.Pair(ExprBinary(op.value), lhs, rhs);
      return Ok(expr);
    }

    method ParseExpr(lv: nat) returns (r: Result<AstNode?>)
      requires lv <= OR
      modifies `index
      ensures Did(r, Level(lv, tokens, old(index)))
      ensures r.Ok? ==> fresh(Repr(r.value))
      decreases |tokens| - index, lv, 2
    {
      hide Level;
      if lv == FACTOR {
        FactorLevel(tokens, index);
        r := ParseExprFactor();
      } else if lv == CALL {
        r := ParseExprCall();
      } else if lv == NEGATE {
        r := ParseExprNegate();
      } else if lv == NOT {
        r := ParseExprNot();
      } else {
        r := ParseExprBinary(lv);
      }
    }

    // ----- types and declarations

    method ParseExprTypeName() returns (r: Result<AstNode?>)
      modifies `index
      ensures Did(r, TypeName(tokens, old(index)))
      ensures r.Ok? ==> fresh(Repr(r.value))
      decreases |tokens| - index, 1
    {
      hide TypeName, PlainType, AstNode.Valid;
      ghost var start := index;
      TypeFails(tokens, start);
      var t :- ParsePlainType();
      if t == null {
        return Ok(null);
      }
      r := ParseArraySuffix(t, start);
    }

    /** The brackets that may follow the type that began at `start`. */
    method ParseArraySuffix(t: AstNode, ghost start: nat) returns (r: Result<AstNode?>)
      requires start < index && PlainType(tokens, start).Ok? && index == PlainType(tokens, start).value.next
      requires Represents(t, PlainType(tokens, start).value.node)
      modifies `index
      ensures Did(r, TypeName(tokens, start))
      ensures r.Ok? ==> fresh(Repr(r.value) - old(Repr(t)))
      decreases |tokens| - index, 2
    {
      hide TypeName, PlainType, Level, AstNode.Valid;
      TypeSuffix(tokens, start);
      var k :- KindAt(tokens, index);
      if k != LBrack {
        return Ok(t);
      }
      index := index + 1;
      k :- KindAt(tokens, index);
      if k != RBrack {
        var size :- ParseExpr(OR);
        if tokens[index].kind != RBrack {
          return SyntaxError("Missing ]");
        }
        index := index + 1;
        var sized := new AstNode.Pair(DeclVarSizedArray, t, size);
        return Ok(sized);
      }
      index := index + 1;
      var unsized := new AstNode.Pair(DeclVarNosizedArray, t, null);
      return Ok(unsized);
    }

    method ParsePlainType() returns (r: Result<AstNode?>)
      modifies `index
      ensures Did(r, PlainType(tokens, old(index)))
      ensures r.Ok? ==> fresh(Repr(r.value))
      decreases |tokens| - index, 0
    {
      hide TypeName;
      var k :- KindAt(tokens, index);
      if k == WordRef {
        r := ParsePrefixedType(DeclReference);
      } else if k == WordConst {
        r := ParsePrefixedType(DeclConst);
      } else if k == Ident {
        var name := ParseConst(ConstVarname);
        var user := new AstNode.Pair(TypeUser, name, null);
        return Ok(user);
      } else if k in {WordInt, WordFloat, WordBool, WordVoid} {
        index := index + 1;
        var node := new AstNode(
          if k == WordInt then TypeInt else if k == WordFloat then TypeFloat else if k == WordBool then TypeBool
            else TypeVoid);
        return Ok(node);
      } else {
        return Ok(null);
      }
    }

    method ParsePrefixedType(kind: NodeKind) returns (r: Result<AstNode?>)
      requires index < |tokens|
      requires (kind == DeclReference && tokens[index].kind == WordRef)
               || (kind == DeclConst && tokens[index].kind == WordConst)
      modifies `index
      ensures Did(r, PlainType(tokens, old(index)))
      ensures r.Ok? ==> fresh(Repr(r.value))
      decreases |tokens| - index, -1
    {
      hide TypeName, AstNode.Valid;
      index := index + 1;
      var target :- ParseExprTypeName();
      if target == null {
        return SyntaxError("Invalid type reference.");
      }
      var node := new AstNode.Pair(kind, target, null);
      return Ok(node);
    }

    method ParseStmtAssign() returns (r: Result<AstNode?>)
      modifies `index
      ensures Did(r, Assign(tokens, old(index)))
      ensures r.Ok? ==> fresh(Repr(r.value))
    {
      hide Level, MemberAccess, AstNode.Valid;
      if index + 1 < |tokens| && tokens[index].kind == Ident && tokens[index + 1].kind == Equal {
        var target :- ParseExprMemberAccess();
        var k :- KindAt(tokens, index);
        if k != Equal {
          return SyntaxError("Invalide assignment");
        }
        index := index + 1;
        var e :- ParseExpr(OR);
        var assign := new AstNode.Pair(StmtAssign, target, e);
        return Ok(assign);
      }
      return Ok(null);
    }

    method ParseDeclVar() returns (r: Result<AstNode?>)
      modifies `index
      ensures Did(r, VarDecl(tokens, old(index)))
      ensures r.Ok? ==> fresh(Repr(r.value))
    {
      hide VarDecl, TypeName, Assign, AstNode.Valid;
      VarDeclCases(tokens, index);
      var t :- ParseExprTypeName();
      if t == null {
        return SyntaxError("Invalid Type");
      }
      var a :- ParseStmtAssign();
      if a == null {
        var k :- KindAt(tokens, index);
        if k != Ident {
          return SyntaxError("Invalid identifier for variable declaration.");
        }
        a := ParseConst(ConstVarname);
      }
      var decl := new AstNode.Pair(DeclVar, t, a);
      return Ok(decl);
    }

    /** `sk_parse_decl_list` and, for `members`, `sk_parse_decl_members`. */
    method ParseDeclList(members: bool) returns (r: Result<AstNode?>)
      modifies `index
      ensures Did(r, DeclList(members, tokens, old(index)))
      ensures r.Ok? ==> fresh(Repr(r.value))
      decreases |tokens| - index
    {
      hide VarDecl, DeclList, AstNode.Valid;
      DeclListCases(members, tokens, index);
      var kind := if members then DeclMemberList else DeclVarList;
      var k :- KindAt(tokens, index);
      if k == Eof {
        var empty := new AstNode(kind);
        return Ok(empty);
      }
      if !IsTypename(k) {
        return Ok(null);
      }
      var d :- ParseDeclVar();
      k :- KindAt(tokens, index);
      var rest: AstNode? := null;
      if k == if members then Semicolon else Comma {
        index := index + 1;
        rest :- ParseDeclList(members);
      }
      var node := new AstNode.Pair(kind, d, rest);
      return Ok(node);
    }

    method ParseDeclStruct() returns (r: Result<AstNode?>)
      modifies `index
      ensures Did(r, Struct(tokens, old(index)))
      ensures r.Ok? ==> fresh(Repr(r.value))
    {
      hide Struct, DeclList, AstNode.Valid;
      ghost var start := index;
      StructCases(tokens, start);
      index := index + 1;
      var k :- KindAt(tokens, index);
      if k != Ident {
        return SyntaxError("Invalid struct identifier.");
      }
      var name := ParseConst(ConstVarname);
      k :- KindAt(tokens, index);
      if k != LCurly {
        return SyntaxError("Missing {");
      }
      index := index + 1;
      r := ParseStructMembers(name, start);
    }

    /** The members of a struct that began at `start`, and the struct's node. */
    method ParseStructMembers(name: AstNode, ghost start: nat) returns (r: Result<AstNode?>)
      requires start + 3 == index <= |tokens| && tokens[start + 1].kind == Ident && tokens[start + 2].kind == LCurly
      requires Represents(name, Varname(tokens, start + 1).node)
      modifies `index
      ensures Did(r, Struct(tokens, start))
      ensures r.Ok? ==> fresh(Repr(r.value) - old(Repr(name)))
    {
      hide Struct, DeclList, AstNode.Valid;
      StructCases(tokens, start);
      var members :- ParseDeclList(true);
      var k :- KindAt(tokens, index);
      if k != RCurly {
        return SyntaxError("Missing }");
      }
      index := index + 1;
      var node := new AstNode.Pair(DeclStruct, name, members);
      return Ok(node);
    }

    method ParseDeclTypeVarname() returns (r: Result<AstNode?>)
      modifies `index
      ensures Did(r, TypeVarname(tokens, old(index)))
      ensures r.Ok? ==> fresh(Repr(r.value))
    {
      hide TypeName, AstNode.Valid;
      var t :- ParseExprTypeName();
      var _ :- KindAt(tokens, index);
      var name := ParseConst(ConstVarname);
      var node := new AstNode.Pair(DeclTypeVarnamePair, t, name);
      return Ok(node);
    }

    method ParseFunctionSignature() returns (r: Result<AstNode?>)
      modifies `index
      ensures Did(r, Signature(tokens, old(index)))
      ensures r.Ok? ==> fresh(Repr(r.value))
    {
      hide Signature, TypeVarname, DeclList, AstNode.Valid;
      SignatureCases(tokens, index);
      var tx :- ParseDeclTypeVarname();
      var k :- KindAt(tokens, index);
      if k != LParen {
        return SyntaxError("Missing (");
      }
      index := index + 1;
      k :- KindAt(tokens, index);
      var params: AstNode? := null;
      if k != RParen {
        params :- ParseDeclList(false);
        k :- KindAt(tokens, index);
        if k != RParen {
          return SyntaxError("Missing )");
        }
      }
      index := index + 1;
      var node := new AstNode.Pair(DeclFunctionSignature, tx, params);
      return Ok(node);
    }

    // ----- statements

    method ParseDeclFunction() returns (r: Result<AstNode?>)
      modifies `index
      ensures Did(r, Function(tokens, old(index)))
      ensures r.Ok? ==> fresh(Repr(r.value))
      decreases |tokens| - index, 2
    {
      hide Signature, BlockOf, AstNode.Valid;
      var sig :- ParseFunctionSignature();
      var body :- ParseStmtBlock(FuncBlock);
      var node := new AstNode.Pair(DeclFunction, sig, body);
      return Ok(node);
    }

    method ParseStmtBlock(b: Block) returns (r: Result<AstNode?>)
      modifies `index
      ensures Did(r, BlockOf(tokens, old(index), b))
      ensures r.Ok? ==> fresh(Repr(r.value))
      decreases |tokens| - index, 1
    {
      hide BlockOf, Sequence, AstNode.Valid;
      BlockBegins(tokens, index, b);
      var k :- KindAt(tokens, index);
      if k != LCurly {
        return SyntaxError("Missing {");
      }
      index := index + 1;
      k :- KindAt(tokens, index);
      if k == RCurly {
        index := index + 1;
        return Ok(null);
      }
      BlockHolds(tokens, index - 1, b);
      var block :- ParseStmtSeq(b);
      k :- KindAt(tokens, index);
      if k != RCurly {
        return SyntaxError("Missing }");
      }
      index := index + 1;
      return Ok(block);
    }

    method ParseStmtReturn() returns (r: Result<AstNode?>)
      modifies `index
      ensures Did(r, Return(tokens, old(index)))
      ensures r.Ok? ==> fresh(Repr(r.value))
    {
      hide Level, AstNode.Valid;
      index := index + 1;
      var e :- ParseExpr(OR);
      if tokens[index].kind != Semicolon {
        return SyntaxError("Missing ;");
      }
      index := index + 1;
      var node := new AstNode.Pair(StmtReturn, e, null);
      return Ok(node);
    }

    /** The parenthesised condition behind the keyword at the cursor. */
    method ParseCondition() returns (r: Result<AstNode?>)
      modifies `index
      ensures Did(r, Condition(tokens, old(index)))
      ensures r.Ok? ==> fresh(Repr(r.value))
    {
      hide Level, AstNode.Valid;
      index := index + 1;
      var k :- KindAt(tokens, index);
      if k != LParen {
        return SyntaxError("Missing (");
      }
      index := index + 1;
      var c :- ParseExpr(OR);
      if tokens[index].kind != RParen {
        return SyntaxError("Missing )");
      }
      index := index + 1;
      return Ok(c);
    }

    method ParseStmtWhile() returns (r: Result<AstNode?>)
      modifies `index
      ensures Did(r, While(tokens, old(index)))
      ensures r.Ok? ==> fresh(Repr(r.value))
      decreases |tokens| - index, 2
    {
      hide Condition, BlockOf, AstNode.Valid;
      var c :- ParseCondition();
      var body :- ParseStmtBlock(LoopBlock);
      var node := new AstNode.Pair(StmtWhile, c, body);
      return Ok(node);
    }

    /** `sk_parse_stmt_continue` and `sk_parse_stmt_break`. */
    method ParseStmtKeyword(kind: NodeKind) returns (r: Result<AstNode?>)
      modifies `index
      ensures Did(r, Keyword(tokens, old(index), kind))
      ensures r.Ok? ==> fresh(Repr(r.value))
    {
      index := index + 1;
      var k :- KindAt(tokens, index);
      if k != Semicolon {
        return SyntaxError("Missing ;");
      }
      index := index + 1;
      var node := new AstNode(kind);
      return Ok(node);
    }

    method ParseStmtElse(b: Block) returns (r: Result<AstNode?>)
      requires index < |tokens|
      modifies `index
      ensures Did(r, Else(tokens, old(index), b))
      ensures r.Ok? ==> fresh(Repr(r.value))
      decreases |tokens| - index, 2
    {
      hide BlockOf, AstNode.Valid;
      index := index + 1;
      var body :- ParseStmtBlock(b);
      var node := new AstNode.Pair(StmtElse, null, body);
      return Ok(node);
    }

    /** `sk_parse_stmt_if` and `sk_parse_stmt_else_if`: an else part is linked over the
        left child of the body's first statement. */
    method ParseBranch(kind: NodeKind, b: Block) returns (r: Result<AstNode?>)
      modifies `index
      ensures Did(r, Branch(kind, tokens, old(index), b))
      ensures r.Ok? ==> fresh(Repr(r.value))
      decreases |tokens| - index, 2
    {
      hide Condition, BlockOf, Branch, AstNode.Valid;
      ghost var start := index;
      BranchCondition(kind, tokens, start, b);
      var c :- ParseCondition();
      r := ParseBranchBody(kind, c, start, Condition(tokens, start).value, b);
    }

    /** The part of a branch behind its condition. */
    method ParseBranchBody(kind: NodeKind, c: AstNode?, ghost start: nat, ghost cond: Parsed,
                           b: Block) returns (r: Result<AstNode?>)
      requires Condition(tokens, start) == Ok(cond) && start < index == cond.next && Represents(c, cond.node)
      modifies `index
      ensures Did(r, Branch(kind, tokens, start, b))
      ensures r.Ok? ==> fresh(Repr(r.value) - old(Repr(c)))
      decreases |tokens| - index, 4
    {
      hide Condition, BlockOf, Branch, Alternative, AttachElse, Linked, AstNode.Valid;
      BranchBody(kind, tokens, start, b);
      var body :- ParseStmtBlock(b);
      ghost var block := BlockOf(tokens, cond.next, b).value;
      BranchAlternative(kind, tokens, start, b, cond, block);
      var k :- KindAt(tokens, index);
      if k == WordElseIf || k == WordElse {
        r := LinkAlternative(kind, c, body, cond.node, block.node, b);
        return;
      }
      var plain := LinkPlain(kind, c, body);
      return Ok(plain);
    }

    method LinkAlternative(kind: NodeKind, c: AstNode?, body: AstNode?, ghost cond: Node, ghost block: Node, b: Block)
      returns (r: Result<AstNode?>)
      requires index < |tokens| && (tokens[index].kind == WordElse || tokens[index].kind == WordElseIf)
      requires Represents(c, cond) && Represents(body, block) && Repr(c) !! Repr(body)
      modifies `index, body
      ensures Did(r, Linked(kind, cond, block, Alternative(tokens, old(index), b)))
      ensures r.Ok? ==> fresh(Repr(r.value) - old(Repr(c)) - old(Repr(body)))
      decreases |tokens| - index, 3, 1
    {
      hide Else, Branch, Alternative, AttachElse, AstNode.Valid;
      var alt :- ParseElsePart(b);
      var node := LinkElse(kind, c, body, alt);
      return Ok(node);
    }

    method LinkPlain(kind: NodeKind, c: AstNode?, body: AstNode?) returns (n: AstNode)
      requires (c == null || c.Valid()) && (body == null || body.Valid()) && Repr(c) !! Repr(body)
      ensures n.Valid() && n.shape == Mk(kind, Shape(c), Shape(body))
      ensures fresh(n.repr - Repr(c) - Repr(body))
    {
      n := new AstNode.Pair(kind, c, body);
    }

    method LinkElse(kind: NodeKind, c: AstNode?, body: AstNode?, alt: AstNode?) returns (n: AstNode)
      requires (c == null || c.Valid()) && (body == null || body.Valid()) && (alt == null || alt.Valid())
      requires Repr(c) !! Repr(body) !! Repr(alt)
      modifies body
      ensures n.Valid() && fresh(n)
      ensures n.shape == Mk(kind, old(Shape(c)), AttachElse(old(Shape(body)), old(Shape(alt))))
      ensures n.repr <= {n} + old(Repr(c)) + old(Repr(body)) + old(Repr(alt))
    {
      if body != null {
        body.SetLeft(alt);
        n := new AstNode.Pair(kind, c, body);
      } else {
        n := new AstNode.Pair(kind, c, alt);
      }
    }

    method ParseElsePart(b: Block) returns (r: Result<AstNode?>)
      requires index < |tokens| && (tokens[index].kind == WordElse || tokens[index].kind == WordElseIf)
      modifies `index
      ensures Did(r, Alternative(tokens, old(index), b))
      ensures r.Ok? ==> fresh(Repr(r.value))
      decreases |tokens| - index, 3, 0
    {
      hide Else, Branch, AstNode.Valid;
      if tokens[index].kind == WordElseIf {
        r := ParseBranch(StmtElseIf, b);
      } else {
        r := ParseStmtElse(b);
      }
    }

    method ParseMemberAssign() returns (r: Result<AstNode?>)
      requires index < |tokens| && tokens[index].kind == Ident
      modifies `index
      ensures Did(r, MemberAssign(tokens, old(index)))
      ensures r.Ok? ==> fresh(Repr(r.value))
    {
      hide Level, MemberAccess, AstNode.Valid;
      var target :- ParseExprMemberAccess();
      var k :- KindAt(tokens, index);
      if k != Equal {
        return SyntaxError("Invalid assignment statement.");
      }
      index := index + 1;
      var e :- ParseExpr(OR);
      var assign := new AstNode.Pair(StmtAssign, target, e);
      return Ok(assign);
    }

    /** The node around an inner statement and, for `Terminate`, the semicolon behind it. */
    method Enclose(inner: Result<AstNode?>, ghost spec: Result<Parsed>) returns (r: Result<AstNode?>)
      requires Did(inner, spec)
      ensures Did(r, Wrap(spec))
      ensures r.Ok? ==> fresh(Repr(r.value) - if inner.Ok? then Repr(inner.value) else {})
    {
      hide AstNode.Valid;
      var node :- inner;
      var stmt := new AstNode.Pair(Stmt, node, null);
      return Ok(stmt);
    }

    method Terminate(inner: Result<AstNode?>, ghost spec: Result<Parsed>) returns (r: Result<AstNode?>)
      requires Did(inner, spec)
      modifies `index
      ensures Did(r, Semi(spec, tokens))
      ensures r.Ok? ==> fresh(Repr(r.value) - if inner.Ok? then Repr(inner.value) else {})
    {
      hide AstNode.Valid;
      var node :- inner;
      var k :- KindAt(tokens, index);
      if k != Semicolon {
        return SyntaxError("Missing ;");
      }
      index := index + 1;
      var stmt := new AstNode.Pair(Stmt, node, null);
      return Ok(stmt);
    }

    method ParseStmt(b: Block) returns (r: Result<AstNode?>)
      modifies `index
      ensures Did(r, Statement(tokens, old(index), b))
      ensures r.Ok? ==> fresh(Repr(r.value))
      decreases |tokens| - index, 5
    {
      hide Statement, Wrap, Semi, Branch, While, Assign, MemberAssign, Return, Keyword, Struct, Function, VarDecl,
           AstNode.Valid, Did, Represents;
      NoNode(Statement(tokens, index, b));
      if index >= |tokens| {
        PastTheEnd(tokens, index, b);
        return SyntaxError("Invalid Statement");
      }
      ghost var start := index;
      StatementIsKeyword(tokens, start, b);
      var k := tokens[index].kind;
      var inner: Result<AstNode?>;
      if b != NoBlock && k == WordIf {
        IfIs(tokens, start, b);
        inner := ParseBranch(StmtIf, b);
        r := Enclose(inner, Branch(StmtIf, tokens, start, b));
      } else if b != NoBlock && k == WordWhile {
        inner := ParseStmtWhile();
        r := Enclose(inner, While(tokens, start));
      } else if k == Ident && index + 1 < |tokens| && tokens[index + 1].kind == Equal {
        inner := ParseStmtAssign();
        r := Terminate(inner, Assign(tokens, start));
      } else if k == Ident && index + 1 < |tokens| && tokens[index + 1].kind == Dot {
        inner := ParseMemberAssign();
        r := Terminate(inner, MemberAssign(tokens, start));
      } else if IsTypename(k) {
        r := ParseDeclaration(b);
      } else if b == LoopBlock && k == WordBreak {
        inner := ParseStmtKeyword(StmtBreak);
        r := Enclose(inner, Keyword(tokens, start, StmtBreak));
      } else if b == LoopBlock && k == WordContinue {
        inner := ParseStmtKeyword(StmtContinue);
        r := Enclose(inner, Keyword(tokens, start, StmtContinue));
      } else if b == FuncBlock && k == WordReturn {
        inner := ParseStmtReturn();
        r := Enclose(inner, Return(tokens, start));
      } else if b == NoBlock && k == WordStruct {
        inner := ParseDeclStruct();
        r := Enclose(inner, Struct(tokens, start));
      } else {
        StatementIsNone(tokens, start, b);
        r := Ok(null);
      }
    }

    /** The lookahead that tells a function from a variable. */
    method ParseDeclaration(b: Block) returns (r: Result<AstNode?>)
      requires index < |tokens| && IsTypename(tokens[index].kind)
      requires !(tokens[index].kind == Ident && Look(tokens, index + 1) in {Equal, Dot})
      modifies `index
      ensures Did(r, Statement(tokens, old(index), b))
      ensures r.Ok? ==> fresh(Repr(r.value))
      decreases |tokens| - index, 4
    {
      hide Statement, Wrap, Semi, Function, VarDecl, AstNode.Valid, IsTypename, Offset, Did, Represents;
      ghost var start := index;
      DeclarationCases(tokens, start, b);
      NoNode(Statement(tokens, start, b));
      var k1 :- KindAt(tokens, index + 1);
      var at := Look(tokens, index + Offset(tokens[index].kind, k1));
      var inner: Result<AstNode?>;
      if at == LParen {
        inner := ParseDeclFunction();
        r := Enclose(inner, Function(tokens, start));
      } else if at == Equal || at == Semicolon {
        inner := ParseDeclVar();
        r := Terminate(inner, VarDecl(tokens, start));
      } else {
        r := Ok(null);
      }
    }

    /** The outcomes that need no node. */
    lemma NoNode(spec: Result<Parsed>)
      ensures spec == Ok(Parsed(Null, index)) ==> Did(Ok(null), spec)
      ensures spec == OutOfBounds ==> Did(OutOfBounds, spec)
      ensures spec.SyntaxError? ==> Did(SyntaxError(spec.message), spec)
    {
    }

    method ParseStmtSeq(b: Block) returns (r: Result<AstNode?>)
      modifies `index
      ensures Did(r, Sequence(tokens, old(index), b))
      ensures r.Ok? ==> fresh(Repr(r.value))
      decreases |tokens| - index, 6
    {
      hide Statement, AstNode.Valid;
      var stmt :- ParseStmt(b);
      if stmt != null && index < |tokens| {
        var rest :- ParseStmtSeq(b);
        assert Repr(rest) !! stmt.repr;
        stmt.SetRight(rest);
      }
      return Ok(stmt);
    }

    /** `sk_parse_token_stream` with a fresh parser. */
    method ParseProgram() returns (r: Result<AstNode?>)
      requires index == 0
      modifies `index
      ensures match Program(tokens)
              case Ok(n) => r.Ok? && Represents(r.value, n)
              case SyntaxError(m) => r == SyntaxError(m)
              case OutOfBounds => r == OutOfBounds
    {
      hide Sequence;
      if |tokens| > 0 {
        r := ParseStmtSeq(NoBlock);
      } else {
        r := Ok(null);
      }
    }
  }
}
