/** The syntax tree of slkc/include/slkc/compiler/ast_node.h: every node has a kind,
    two children (possibly absent) and one payload. */
module Nodes {
  import opened Tokens

  /** The binary operators, one per NODE_EXPR_ kind. */
  datatype BinOp =
    | Multiply | Divide
    | Add | Subtract
    | Modulus
    | Shl | Shr | Xor | BitOr | BitAnd
    | CmpEq | CmpNe | CmpGte | CmpLte | CmpGt | CmpLt
    | LogicAnd | LogicOr

  datatype NodeKind =
    | ConstBool | ConstInt | ConstFloat | ConstString | ConstStruct | ConstArray | ConstVarname
    | TypeInt | TypeFloat | TypeBool | TypeVoid | TypeUser
    | ExprCall | ExprNegate | ExprBinary(op: BinOp) | ExprNot
    | ExprMemberAccess | ExprArrayAccess | ExprArrayIndex | ExprList
    | DeclConst | DeclVar | DeclVarSizedArray | DeclVarNosizedArray | DeclReference
    | DeclVarList | DeclMemberList | DeclStruct | DeclFunction | DeclFunctionSignature | DeclTypeVarnamePair
    | StmtReturn | StmtWhile | StmtContinue | StmtBreak | StmtAssign | StmtElse | StmtElseIf | StmtIf | Stmt

  datatype Node = Null | Node(kind: NodeKind, left: Node, right: Node, value: Value)

  /** `sk_make_node` followed by setting the two children. */
  function Mk(k: NodeKind, left: Node, right: Node): Node {
    Node(k, left, right, NoValue)
  }

  function Leaf(k: NodeKind, v: Value): Node {
    Node(k, Null, Null, v)
  }
}
