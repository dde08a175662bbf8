/** The specification functions of the expression levels, case by case. */
module ExprCases {
  import opened Outcomes
  import opened Tokens
  import opened Nodes
  import opened Operators
  import opened ExprParser

  /** A failure is passed on. */
  predicate SameFailure<T, U>(a: Result<T>, b: Result<U>) {
    (a.SyntaxError? ==> b == SyntaxError(a.message)) && (a == OutOfBounds ==> b == OutOfBounds)
  }

  /** A closing symbol at `j` finishes a node. */
  predicate Closed(n: Node, ts: seq<Token>, j: nat, close: Kind, message: string, all: Result<Parsed>) {
    all == if j >= |ts| then OutOfBounds else if ts[j].kind != close then SyntaxError(message) else Ok(Parsed(n, j + 1))
  }

  lemma FactorLevel(ts: seq<Token>, i: nat)
    ensures Level(FACTOR, ts, i) == Factor(ts, i)
  {
    hide Factor;
  }

  lemma CallLevel(ts: seq<Token>, i: nat)
    ensures Level(CALL, ts, i) == Call(ts, i)
  {
    hide Call;
  }

  lemma NotLevel(ts: seq<Token>, i: nat)
    ensures Level(NOT, ts, i) == Not(ts, i)
  {
    hide Not;
  }

  lemma NotCases(ts: seq<Token>, i: nat)
    ensures var all := Not(ts, i);
            && (i >= |ts| ==> all == OutOfBounds)
            && (i < |ts| && ts[i].kind == Eof ==> all == Ok(Parsed(Null, i)))
            && (i < |ts| && ts[i].kind == Exclam ==>
                  && (i + 1 >= |ts| ==> all == OutOfBounds)
                  && (Look(ts, i + 1) == Equal ==> all == Level(COMPARE, ts, i))
                  && (i + 1 < |ts| && ts[i + 1].kind != Equal ==>
                        var e := Level(COMPARE, ts, i + 1);
                        && SameFailure(e, all)
                        && (e.Ok? ==> all == if e.value.node == Null then SyntaxError("Missing expression")
                                             else Ok(Parsed(Mk(ExprNot, e.value.node, Null), e.value.next)))))
            && (i < |ts| && ts[i].kind !in {Eof, Exclam} ==> all == Level(COMPARE, ts, i))
  {
    hide Level;
  }

  lemma BinaryLevel(lv: nat, ts: seq<Token>, i: nat)
    requires MULTIPLICATIVE <= lv <= OR && lv != NOT
    ensures Level(lv, ts, i) == Binary(lv, ts, i)
  {
    hide Binary;
  }

  /** A binary level case by case. */
  lemma BinaryLeft(lv: nat, ts: seq<Token>, i: nat)
    requires MULTIPLICATIVE <= lv <= OR && lv != NOT
    ensures SameFailure(Level(lv - 1, ts, i), Level(lv, ts, i))
  {
    hide OperatorAt, Width;
    assert Level(lv, ts, i) == Binary(lv, ts, i);
  }

  lemma BinaryOperator(lv: nat, ts: seq<Token>, i: nat)
    requires MULTIPLICATIVE <= lv <= OR && lv != NOT && Level(lv - 1, ts, i).Ok?
    ensures var op := OperatorAt(lv, ts, Level(lv - 1, ts, i).value.next);
            SameFailure(op, Level(lv, ts, i)) && (op == Ok(None) ==> Level(lv, ts, i) == Level(lv - 1, ts, i))
  {
    hide OperatorAt, Width;
    assert Level(lv, ts, i) == Binary(lv, ts, i);
  }

  lemma BinaryRight(lv: nat, ts: seq<Token>, i: nat, op: BinOp)
    requires MULTIPLICATIVE <= lv <= OR && lv != NOT && Level(lv - 1, ts, i).Ok?
    requires OperatorAt(lv, ts, Level(lv - 1, ts, i).value.next) == Ok(Some(op))
    ensures var lhs := Level(lv - 1, ts, i).value;
            var rhs := Level(lv, ts, lhs.next + Width(op));
            && SameFailure(rhs, Level(lv, ts, i))
            && (rhs.Ok? ==> Level(lv, ts, i) == if rhs.value.node == Null then SyntaxError("Missing expression")
                            else Ok(Parsed(Mk(ExprBinary(op), lhs.node, rhs.value.node), rhs.value.next)))
  {
    hide OperatorAt, Width;
    assert Level(lv, ts, i) == Binary(lv, ts, i);
  }

  lemma CallCases(ts: seq<Token>, i: nat)
    requires i + 1 < |ts| && ts[i].kind == Ident && ts[i + 1].kind == LParen
    ensures var all, name := Call(ts, i), Varname(ts, i).node;
            && (i + 2 >= |ts| ==> all == OutOfBounds)
            && (i + 2 < |ts| && ts[i + 2].kind == RParen ==> all == Ok(Parsed(Mk(ExprCall, name, Null), i + 3)))
            && (i + 2 < |ts| && ts[i + 2].kind != RParen ==>
                  var args := List(ts, i + 2);
                  && SameFailure(args, all)
                  && (args.Ok?
                      ==> Closed(Mk(ExprCall, name, args.value.node), ts, args.value.next, RParen, "Missing )", all)))
  {
    hide List;
  }

  /** The arguments of a call and the symbol that closes them. */
  function Arguments(name: Node, ts: seq<Token>, i: nat): Result<Parsed> {
    var args :- List(ts, i);
    if ts[args.next].kind != RParen then SyntaxError("Missing )")
    else Ok(Parsed(Mk(ExprCall, name, args.node), args.next + 1))
  }

  lemma CallBegins(ts: seq<Token>, i: nat)
    requires i + 1 < |ts| && ts[i].kind == Ident && ts[i + 1].kind == LParen
    ensures var all, name := Call(ts, i), Varname(ts, i).node;
            && (i + 2 >= |ts| ==> all == OutOfBounds)
            && (i + 2 < |ts| && ts[i + 2].kind == RParen ==> all == Ok(Parsed(Mk(ExprCall, name, Null), i + 3)))
            && (i + 2 < |ts| && ts[i + 2].kind != RParen ==> all == Arguments(name, ts, i + 2))
  {
    hide List;
  }

  lemma FactorIsCall(ts: seq<Token>, i: nat)
    requires !(i + 1 < |ts| && ts[i].kind == Ident && ts[i + 1].kind == LParen)
    ensures Call(ts, i) == Level(FACTOR, ts, i)
  {
    hide Level;
  }

  /** What stands behind the dot of a member access. */
  function MemberTail(name: Node, ts: seq<Token>, i: nat): Result<Parsed> {
    var e :- Level(FACTOR, ts, i);
    if e.node == Null then SyntaxError("Invalid Member Access")
    else Ok(Parsed(Mk(ExprMemberAccess, name, e.node), e.next))
  }

  lemma MemberAccessCases(ts: seq<Token>, i: nat)
    requires i < |ts| && ts[i].kind == Ident
    ensures var all, name := MemberAccess(ts, i), Varname(ts, i);
            && (i + 1 >= |ts| ==> all == Ok(name))
            && (Look(ts, i + 1) == Dot ==> all == MemberTail(name.node, ts, i + 2))
            && (i + 1 < |ts| && ts[i + 1].kind != Dot ==>
                  && (i == 0 ==> all == OutOfBounds)
                  && (0 < i && ts[i - 1].kind == Dot
                      ==> all == Ok(Parsed(Mk(ExprMemberAccess, name.node, Null), i + 1)))
                  && (0 < i && ts[i - 1].kind != Dot && ts[i + 1].kind != LBrack ==> all == Ok(name)))
  {
    hide Level, ArrayIndex;
  }

  lemma ListCases(ts: seq<Token>, i: nat)
    ensures var all := List(ts, i);
            && (i >= |ts| ==> all == OutOfBounds)
            && (i < |ts| && ts[i].kind == Eof ==> all == Ok(Parsed(Mk(ExprList, Null, Null), i)))
            && (i < |ts| && ts[i].kind != Eof ==>
                  var e := Level(OR, ts, i);
                  && SameFailure(e, all)
                  && (e.Ok? && ts[e.value.next].kind != Comma
                      ==> all == Ok(Parsed(Mk(ExprList, e.value.node, Null), e.value.next)))
                  && (e.Ok? && ts[e.value.next].kind == Comma ==>
                        var rest := List(ts, e.value.next + 1);
                        && SameFailure(rest, all)
                        && (rest.Ok?
                            ==> all == Ok(Parsed(Mk(ExprList, e.value.node, rest.value.node), rest.value.next)))))
  {
    hide Level;
  }

  lemma ArrayIndexCases(ts: seq<Token>, i: nat)
    ensures var all := ArrayIndex(ts, i);
            && (i >= |ts| ==> all == OutOfBounds)
            && (i < |ts| && ts[i].kind != LBrack ==> all == Ok(Parsed(Null, i)))
            && (i < |ts| && ts[i].kind == LBrack ==>
                  var e := Level(OR, ts, i + 1);
                  && SameFailure(e, all)
                  && (e.Ok? && ts[e.value.next].kind != RBrack ==> all == SyntaxError("Missing ]"))
                  && (e.Ok? && ts[e.value.next].kind == RBrack ==>
                        var rest := ArrayIndex(ts, e.value.next + 1);
                        && SameFailure(rest, all)
                        && (rest.Ok?
                            ==> all == Ok(Parsed(Mk(ExprArrayIndex, e.value.node, rest.value.node), rest.value.next)))))
  {
    hide Level;
  }
}
