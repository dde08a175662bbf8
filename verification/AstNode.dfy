/** The node objects of slkc/include/slkc/compiler/ast_node.h, linked by their children. */
module AstNodes {
  import opened Tokens
  import opened Nodes

  class AstNode {
    var kind: NodeKind
    var left: AstNode?
    var right: AstNode?
    var value: Value

    /** The tree the node is the root of, and the nodes it consists of. */
    ghost var shape: Node
    ghost var repr: set<AstNode>

    ghost predicate Valid()
      reads this, repr
      ensures Valid() ==> this in repr
      decreases repr
    {
      && this in repr
      && (left != null ==> left in repr && left.repr <= repr - {this} && left.Valid())
      && (right != null ==> right in repr && right.repr <= repr - {this} && right.Valid())
      && (left != null && right != null ==> left.repr !! right.repr)
      && shape == Node(kind, Shape(left), Shape(right), value)
    }

    /** `sk_make_node`. */
    constructor (kind: NodeKind)
      ensures Valid() && repr == {this}
      ensures shape == Mk(kind, Null, Null) && left == null && right == null
    {
      this.kind := kind;
      left := null;
      right := null;
      value := NoValue;
      shape := Mk(kind, Null, Null);
      repr := {this};
    }

    /** A node made and linked to its two children. */
    constructor Pair(kind: NodeKind, l: AstNode?, r: AstNode?)
      requires (l == null || l.Valid()) && (r == null || r.Valid()) && (l != null && r != null ==> l.repr !! r.repr)
      ensures Valid() && repr == {this} + Repr(l) + Repr(r)
      ensures shape == Mk(kind, Shape(l), Shape(r)) && left == l && right == r
    {
      this.kind := kind;
      left := l;
      right := r;
      value := NoValue;
      shape := Mk(kind, Shape(l), Shape(r));
      repr := {this} + Repr(l) + Repr(r);
    }

    method SetValue(v: Value)
      requires Valid()
      modifies this
      ensures Valid() && repr == old(repr) && left == old(left) && right == old(right)
      ensures shape == old(shape).(value := v)
    {
      value := v;
      shape := shape.(value := v);
    }

    method SetLeft(child: AstNode?)
      requires Valid() && Apart(child, this)
      modifies this
      ensures Valid() && left == child && right == old(right)
      ensures repr == {this} + Repr(child) + Repr(right) && repr <= old(repr) + Repr(child)
      ensures shape == old(shape).(left := Shape(child))
    {
      left := child;
      repr := {this} + Repr(child) + Repr(right);
      shape := shape.(left := Shape(child));
    }

    method SetRight(child: AstNode?)
      requires Valid() && Apart(child, this)
      modifies this
      ensures Valid() && right == child && left == old(left)
      ensures repr == {this} + Repr(left) + Repr(child) && repr <= old(repr) + Repr(child)
      ensures shape == old(shape).(right := Shape(child))
    {
      right := child;
      repr := {this} + Repr(left) + Repr(child);
      shape := shape.(right := Shape(child));
    }
  }

  ghost function Shape(n: AstNode?): Node
    reads n
  {
    if n == null then Null else n.shape
  }

  ghost function Repr(n: AstNode?): set<AstNode>
    reads n
  {
    if n == null then {} else n.repr
  }

  /** `child` is a tree that has no node in common with the tree of `n`. */
  ghost predicate Apart(child: AstNode?, n: AstNode)
    reads child, Repr(child), n
  {
    child == null || (child.Valid() && child.repr !! n.repr)
  }

  /** The object `n` stands for the tree `t`. */
  ghost predicate Represents(n: AstNode?, t: Node)
    reads n, Repr(n)
  {
    (n == null && t == Null) || (n != null && n.Valid() && n.shape == t && t != Null)
  }
}
