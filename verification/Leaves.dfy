/** Names and literals: which of those written end up in the tree. */
module Leaves {
  import opened Outcomes
  import opened Tokens
  import opened Nodes
  import opened Operators
  import opened Syntax
  import opened ExprParser
  import opened ExprShapes
  import opened ExprSound

  predicate IsLeafKind(k: Kind) {
    k == Ident || k == LitInt || k == LitFloat || k == LitBool || k == LitString
  }

  /** The name and literal tokens of `s`, in order. */
  function LeafTokens(s: seq<Token>): seq<Token> {
    if s == [] then []
    else if IsLeafKind(s[0].kind) then [s[0]] + LeafTokens(s[1..])
    else LeafTokens(s[1..])
  }

  /** The name and literal nodes of a tree, left to right, as tokens. */
  function NodeLeaves(n: Node): seq<Token> {
    match n
    case Null => []
    case Node(k, l, r, v) =>
      if k == ConstVarname then [Token(Ident, v)]
      else if k == ConstInt then [Token(LitInt, v)]
      else if k == ConstFloat then [Token(LitFloat, v)]
      else if k == ConstBool then [Token(LitBool, v)]
      else if k == ConstString then [Token(LitString, v)]
      else NodeLeaves(l) + NodeLeaves(r)
  }

  /** No negation node anywhere in the tree. */
  predicate NoNegation(n: Node) {
    n == Null || (n.kind != ExprNegate && NoNegation(n.left) && NoNegation(n.right))
  }

  lemma {:induction false} LeafTokensConcat(s: seq<Token>, t: seq<Token>)
    ensures LeafTokens(s + t) == LeafTokens(s) + LeafTokens(t)
  {
    hide IsLeafKind;
    if s == [] {
      assert s + t == t;
    } else {
      LeafTokensConcat(s[1..], t);
      assert (s + t)[1..] == s[1..] + t;
    }
  }

  /** The names and literals of an expression as it is written. */
  function Leaves(e: Expr): seq<Token> {
    match e
    case Lit(lit, v) => [Token(lit.TokenKind(), v)]
    case Var(x) => [Name(x)]
    case Member(x, t) => [Name(x)] + Leaves(t)
    case Index(x, es) => [Name(x)] + ListLeaves(es)
    case StructLit(es) => ListLeaves(es)
    case ArrayLit(es) => ListLeaves(es)
    case Paren(e1) => Leaves(e1)
    case Call0(x) => [Name(x)]
    case CallN(x, es) => [Name(x)] + ListLeaves(es)
    case Neg(e1) => Leaves(e1)
    case Bin(_, l, r) => Leaves(l) + Leaves(r)
    case NotE(e1) => Leaves(e1)
    case Cut(x) => [Name(x)]
    case BareMinus => []
  }

  function ListLeaves(es: Exprs): seq<Token> {
    if es.Last? then Leaves(es.head) else Leaves(es.head) + ListLeaves(es.rest)
  }

  lemma {:induction false} YieldLeaves(e: Expr)
    ensures LeafTokens(Yield(e)) == Leaves(e)
    decreases e, 1
  {
    hide *;
    match e
    case Paren(_) => BracketedLeaves(e);
    case StructLit(_) => BracketedLeaves(e);
    case ArrayLit(_) => BracketedLeaves(e);
    case CallN(_, _) => BracketedLeaves(e);
    case Member(_, _) => JoinedLeaves(e);
    case Index(_, _) => JoinedLeaves(e);
    case Bin(_, _, _) => JoinedLeaves(e);
    case Neg(_) => JoinedLeaves(e);
    case NotE(_) => JoinedLeaves(e);
    case _ => ShortLeaves(e);
  }

  lemma ShortLeaves(e: Expr)
    requires e.Lit? || e.Var? || e.Call0? || e.Cut? || e.BareMinus?
    ensures LeafTokens(Yield(e)) == Leaves(e)
  {
    OneLeaf(Yield(e)[0]);
    if e.Call0? {
      CallLeaves(e.name);
    }
  }

  lemma {:induction false} BracketedLeaves(e: Expr)
    requires e.Paren? || e.StructLit? || e.ArrayLit? || e.CallN?
    ensures LeafTokens(Yield(e)) == Leaves(e)
    decreases e, 0
  {
    hide LeafTokens, YieldList, ListLeaves;
    match e
    case Paren(e1) => YieldLeaves(e1); OneLeaf(Sym(LParen)); Wrapped([Sym(LParen)], Yield(e1), Sym(RParen));
    case StructLit(es) => YieldListLeaves(es); OneLeaf(Sym(LCurly)); Wrapped([Sym(LCurly)], YieldList(es), Sym(RCurly));
    case ArrayLit(es) => YieldListLeaves(es); OneLeaf(Sym(LBrack)); Wrapped([Sym(LBrack)], YieldList(es), Sym(RBrack));
    case CallN(x, es) =>
      YieldListLeaves(es);
      PairLeaves(Name(x), Sym(LParen));
      Wrapped([Name(x), Sym(LParen)], YieldList(es), Sym(RParen));
  }

  lemma {:induction false} JoinedLeaves(e: Expr)
    requires e.Member? || e.Index? || e.Bin? || e.Neg? || e.NotE?
    ensures LeafTokens(Yield(e)) == Leaves(e)
    decreases e, 0
  {
    hide LeafTokens, YieldIndices, ListLeaves, OpTokens;
    match e
    case Member(x, t) => YieldLeaves(t); Followed(Name(x), Sym(Dot), Yield(t));
    case Index(x, es) => YieldIndexLeaves(es); OneLeaf(Name(x)); LeafTokensConcat([Name(x)], YieldIndices(es));
    case Neg(e1) => YieldLeaves(e1); OneLeaf(Sym(Minus)); LeafTokensConcat([Sym(Minus)], Yield(e1));
    case NotE(e1) => YieldLeaves(e1); OneLeaf(Sym(Exclam)); LeafTokensConcat([Sym(Exclam)], Yield(e1));
    case Bin(op, l, r) =>
      YieldLeaves(l);
      YieldLeaves(r);
      OperatorHasNoLeaves(op);
      LeafTokensConcat(OpTokens(op), Yield(r));
      LeafTokensConcat(Yield(l), OpTokens(op) + Yield(r));
  }

  lemma Followed(t: Token, sym: Token, rest: seq<Token>)
    requires IsLeafKind(t.kind) && !IsLeafKind(sym.kind)
    ensures LeafTokens([t, sym] + rest) == [t] + LeafTokens(rest)
  {
    PairLeaves(t, sym);
    LeafTokensConcat([t, sym], rest);
  }

  lemma CallLeaves(x: string)
    ensures LeafTokens(Yield(Call0(x))) == Leaves(Call0(x))
  {
    Followed(Name(x), Sym(LParen), [Sym(RParen)]);
    OneLeaf(Sym(RParen));
    assert Yield(Call0(x)) == [Name(x), Sym(LParen)] + [Sym(RParen)];
  }

  lemma {:induction false} YieldListLeaves(es: Exprs)
    ensures LeafTokens(YieldList(es)) == ListLeaves(es)
    decreases es, 2
  {
    hide LeafTokens, Yield;
    var e := es.head;
    YieldLeaves(e);
    if es.More? {
      YieldListLeaves(es.rest);
      OneLeaf(Sym(Comma));
      LeafTokensConcat(Yield(e), [Sym(Comma)] + YieldList(es.rest));
      LeafTokensConcat([Sym(Comma)], YieldList(es.rest));
    }
  }

  lemma {:induction false} YieldIndexLeaves(es: Exprs)
    ensures LeafTokens(YieldIndices(es)) == ListLeaves(es)
    decreases es, 2
  {
    hide LeafTokens, Yield;
    YieldLeaves(es.head);
    if es.More? {
      YieldIndexLeaves(es.rest);
      IndexLeaves(Yield(es.head), YieldIndices(es.rest));
    } else {
      OneLeaf(Sym(LBrack));
      Wrapped([Sym(LBrack)], Yield(es.head), Sym(RBrack));
    }
  }

  lemma IndexLeaves(y: seq<Token>, z: seq<Token>)
    ensures LeafTokens([Sym(LBrack)] + (y + ([Sym(RBrack)] + z))) == LeafTokens(y) + LeafTokens(z)
  {
    hide LeafTokens;
    OneLeaf(Sym(LBrack));
    OneLeaf(Sym(RBrack));
    LeafTokensConcat([Sym(LBrack)], y + ([Sym(RBrack)] + z));
    LeafTokensConcat(y, [Sym(RBrack)] + z);
    LeafTokensConcat([Sym(RBrack)], z);
  }

  lemma OneLeaf(t: Token)
    ensures LeafTokens([t]) == if IsLeafKind(t.kind) then [t] else []
  {
  }

  lemma Wrapped(open: seq<Token>, mid: seq<Token>, close: Token)
    requires !IsLeafKind(close.kind)
    ensures LeafTokens(open + (mid + [close])) == LeafTokens(open) + LeafTokens(mid)
  {
    OneLeaf(close);
    LeafTokensConcat(open, mid + [close]);
    LeafTokensConcat(mid, [close]);
  }

  lemma PairLeaves(t: Token, u: Token)
    requires IsLeafKind(t.kind) && !IsLeafKind(u.kind)
    ensures LeafTokens([t, u]) == [t]
  {
    LeafTokensConcat([t], [u]);
    assert [t, u] == [t] + [u];
  }

  lemma OperatorHasNoLeaves(op: BinOp)
    ensures LeafTokens(OpTokens(op)) == []
  {
    if Width(op) == 2 {
      LeafTokensConcat([OpTokens(op)[0]], [OpTokens(op)[1]]);
      assert OpTokens(op) == [OpTokens(op)[0]] + [OpTokens(op)[1]];
    } else {
      assert OpTokens(op) == [OpTokens(op)[0]];
    }
  }

  // ----- which minus is a negation

  /** The tokens an operand can end with; a minus behind one of them subtracts. */
  predicate EndsOperand(k: Kind) {
    IsLeafKind(k) || k == RParen || k == RBrack || k == RCurly
  }

  /** A minus that is no subtraction. `ended` says whether an operand ends right before
      the first token. */
  predicate Sign(s: seq<Token>, k: nat, ended: bool)
    requires k < |s|
  {
    s[k].kind == Minus && !(if k == 0 then ended else EndsOperand(s[k - 1].kind))
  }

  /** None of the first `n` tokens is such a minus. */
  predicate Unsigned(s: seq<Token>, n: nat, ended: bool)
    requires n <= |s|
  {
    forall k :: 0 <= k < n ==> !Sign(s, k, ended)
  }

  /** No operand among the tokens `s` is negated: every minus stands behind an operand, or
      last, where it has no operand itself. */
  predicate NothingNegated(s: seq<Token>) {
    s == [] || Unsigned(s, |s| - 1, false)
  }

  lemma UnsignedJoin(s: seq<Token>, t: seq<Token>, n: nat, ended: bool)
    requires |s| > 0 && n <= |t|
    ensures Unsigned(s + t, |s| + n, ended) <==> Unsigned(s, |s|, ended) && Unsigned(t, n, EndsOperand(s[|s| - 1].kind))
  {
    var w, last := s + t, EndsOperand(s[|s| - 1].kind);
    assert forall k :: 0 <= k < |s| ==> w[k] == s[k];
    assert forall k :: 0 <= k < |t| ==> w[|s| + k] == t[k];
    forall k | 0 <= k < |s| ensures Sign(w, k, ended) <==> Sign(s, k, ended) {
    }
    forall k | 0 <= k < n ensures Sign(w, |s| + k, ended) <==> Sign(t, k, last) {
    }
    if Unsigned(w, |s| + n, ended) {
      forall k | 0 <= k < n ensures !Sign(t, k, last) {
        assert !Sign(w, |s| + k, ended);
      }
    } else {
      var k :| 0 <= k < |s| + n && Sign(w, k, ended);
      assert k < |s| || Sign(t, k - |s|, last);
    }
  }

  lemma UnsignedOne(t: Token, ended: bool)
    ensures Unsigned([t], 1, ended) <==> t.kind != Minus || ended
    ensures Unsigned([t], 0, ended)
  {
    assert Sign([t], 0, ended) <==> t.kind == Minus && !ended;
  }

  /** The last of the tokens of a complete expression ends an operand. */
  lemma {:induction false} ClosedEndsOperand(e: Expr)
    requires !OpenEnd(e)
    ensures EndsOperand(Yield(e)[|Yield(e)| - 1].kind)
  {
    hide YieldList;
    match e
    case Member(_, t) => ClosedEndsOperand(t);
    case Index(_, es) => IndicesEndOperand(es);
    case Neg(e1) => ClosedEndsOperand(e1);
    case Bin(_, _, r) => ClosedEndsOperand(r);
    case NotE(e1) => ClosedEndsOperand(e1);
    case _ =>
  }

  lemma {:induction false} IndicesEndOperand(es: Exprs)
    ensures YieldIndices(es)[|YieldIndices(es)| - 1] == Sym(RBrack)
  {
    if es.More? {
      IndicesEndOperand(es.rest);
    }
  }

  lemma UnsignedEnclosed(open: seq<Token>, mid: seq<Token>, close: Token)
    requires |open| > 0 && |mid| > 0 && close.kind != Minus && !EndsOperand(open[|open| - 1].kind)
             && Unsigned(open, |open|, false)
    ensures var w := open + (mid + [close]);
            && (Unsigned(w, |w| - 1, false) <==> Unsigned(mid, |mid|, false))
            && (Unsigned(w, |w|, false) <==> Unsigned(mid, |mid|, false))
  {
    hide Unsigned, EndsOperand;
    UnsignedJoin(open, mid + [close], |mid|, false);
    UnsignedJoin(open, mid + [close], |mid| + 1, false);
    UnsignedJoin(mid, [close], 0, false);
    UnsignedJoin(mid, [close], 1, false);
    UnsignedOne(close, EndsOperand(mid[|mid| - 1].kind));
  }

  lemma UnsignedOperator(op: BinOp)
    ensures |OpTokens(op)| > 0 && Unsigned(OpTokens(op), |OpTokens(op)|, true)
            && !EndsOperand(OpTokens(op)[|OpTokens(op)| - 1].kind)
  {
  }

  /** What the signs among the tokens `y` say about the tree `n` they are written for, and
      about an expression that has no negated operand exactly if `noNeg`. */
  predicate Told(y: seq<Token>, open: bool, noNeg: bool, n: Node) {
    && |y| > 0
    && (Unsigned(y, |y| - 1, false) <==> noNeg)
    && (Unsigned(y, |y|, false) <==> NoNegation(n))
    && (!open ==> (NoNegation(n) <==> noNeg))
  }

  /** Tokens in brackets. */
  lemma EnclosedTold(open: seq<Token>, y: seq<Token>, close: Token, noNeg: bool, n: Node, m: Node)
    requires |open| > 0 && Unsigned(open, |open|, false) && !EndsOperand(open[|open| - 1].kind) && close.kind != Minus
    requires Told(y, false, noNeg, n) && (NoNegation(m) <==> NoNegation(n))
    ensures Told(open + (y + [close]), false, noNeg, m)
  {
    hide Unsigned, EndsOperand, NoNegation;
    UnsignedEnclosed(open, y, close);
  }

  /** Tokens behind some that are no signs and end no operand. */
  lemma BehindTold(s: seq<Token>, y: seq<Token>, open: bool, noNeg: bool, n: Node, m: Node)
    requires |s| > 0 && Unsigned(s, |s|, false) && !EndsOperand(s[|s| - 1].kind)
    requires Told(y, open, noNeg, n) && (NoNegation(m) <==> NoNegation(n))
    ensures Told(s + y, open, noNeg, m)
  {
    hide Unsigned, EndsOperand, NoNegation;
    UnsignedJoin(s, y, |y|, false);
    UnsignedJoin(s, y, |y| - 1, false);
  }

  /** Tokens on both sides of some that are no signs there and end no operand. */
  lemma BetweenSigns(y: seq<Token>, mid: seq<Token>, z: seq<Token>)
    requires |y| > 0 && |mid| > 0 && |z| > 0
    requires Unsigned(mid, |mid|, EndsOperand(y[|y| - 1].kind)) && !EndsOperand(mid[|mid| - 1].kind)
    ensures BothSides(y + (mid + z), y, z)
  {
    hide Unsigned, EndsOperand;
    var ended := EndsOperand(y[|y| - 1].kind);
    UnsignedJoin(y, mid + z, |mid| + |z|, false);
    UnsignedJoin(y, mid + z, |mid| + |z| - 1, false);
    UnsignedJoin(mid, z, |z|, ended);
    UnsignedJoin(mid, z, |z| - 1, ended);
  }

  /** The signs of `w` are those of `y` and `z`. */
  predicate BothSides(w: seq<Token>, y: seq<Token>, z: seq<Token>) {
    && |w| > 0 && |z| > 0
    && (Unsigned(w, |w|, false) <==> Unsigned(y, |y|, false) && Unsigned(z, |z|, false))
    && (Unsigned(w, |w| - 1, false) <==> Unsigned(y, |y|, false) && Unsigned(z, |z| - 1, false))
  }

  lemma BothTold(w: seq<Token>, y: seq<Token>, z: seq<Token>, open: bool, a: bool, b: bool, n: Node, m: Node, k: Node)
    requires BothSides(w, y, z) && Told(y, false, a, n) && Told(z, open, b, m)
    requires NoNegation(k) <==> NoNegation(n) && NoNegation(m)
    ensures Told(w, open, a && b, k)
  {
    hide Unsigned, NoNegation;
  }

  lemma BinTold(y: seq<Token>, op: BinOp, z: seq<Token>, open: bool, a: bool, b: bool, n: Node, m: Node)
    requires Told(y, false, a, n) && EndsOperand(y[|y| - 1].kind) && Told(z, open, b, m)
    ensures Told(y + (OpTokens(op) + z), open, a && b, Mk(ExprBinary(op), n, m))
  {
    hide Unsigned, EndsOperand, OpTokens, NoNegation, BothSides;
    UnsignedOperator(op);
    BetweenSigns(y, OpTokens(op), z);
    InnerLeaves(ExprBinary(op), n, m);
    BothTold(y + (OpTokens(op) + z), y, z, open, a, b, n, m, Mk(ExprBinary(op), n, m));
  }

  lemma NegTold(y: seq<Token>, open: bool)
    requires |y| > 0
    ensures Told([Sym(Minus)] + y, open, false, Mk(ExprNegate, Null, Null))
  {
    hide Unsigned, EndsOperand, NoNegation;
    UnsignedJoin([Sym(Minus)], y, |y|, false);
    UnsignedJoin([Sym(Minus)], y, |y| - 1, false);
    UnsignedOne(Sym(Minus), false);
    InnerLeaves(ExprNegate, Null, Null);
  }

  lemma CommaTold(y: seq<Token>, z: seq<Token>, a: bool, b: bool, n: Node, m: Node)
    requires Told(y, false, a, n) && Told(z, false, b, m)
    ensures Told(y + ([Sym(Comma)] + z), false, a && b, Mk(ExprList, n, m))
  {
    hide Unsigned, EndsOperand, NoNegation, BothSides;
    CommaEnds();
    UnsignedOne(Sym(Comma), EndsOperand(y[|y| - 1].kind));
    BetweenSigns(y, [Sym(Comma)], z);
    InnerLeaves(ExprList, n, m);
    BothTold(y + ([Sym(Comma)] + z), y, z, false, a, b, n, m, Mk(ExprList, n, m));
  }

  lemma CommaEnds()
    ensures !EndsOperand([Sym(Comma)][0].kind)
  {
  }

  /** The same for bracketed indices, which stand behind an operand. */
  predicate IndicesTold(y: seq<Token>, noNeg: bool, n: Node) {
    && |y| > 0
    && (Unsigned(y, |y| - 1, true) <==> noNeg)
    && (Unsigned(y, |y|, true) <==> noNeg)
    && (NoNegation(n) <==> noNeg)
  }

  lemma LastIndexTold(y: seq<Token>, noNeg: bool, n: Node)
    requires Told(y, false, noNeg, n)
    ensures IndicesTold([Sym(LBrack)] + (y + [Sym(RBrack)]), noNeg, Mk(ExprArrayIndex, n, Null))
  {
    OpenBracket([Sym(LBrack)]);
    hide Unsigned, EndsOperand, NoNegation;
    var first := [Sym(LBrack)] + (y + [Sym(RBrack)]);
    UnsignedEnclosed([Sym(LBrack)], y, Sym(RBrack));
    FirstIsNoSign(first, |first|, true);
    FirstIsNoSign(first, |first| - 1, true);
    InnerLeaves(ExprArrayIndex, n, Null);
  }

  lemma MoreIndicesTold(y: seq<Token>, z: seq<Token>, a: bool, b: bool, n: Node, m: Node)
    requires Told(y, false, a, n) && IndicesTold(z, b, m)
    ensures IndicesTold([Sym(LBrack)] + (y + ([Sym(RBrack)] + z)), a && b, Mk(ExprArrayIndex, n, m))
  {
    LastIndexTold(y, a, n);
    var first := [Sym(LBrack)] + (y + [Sym(RBrack)]);
    BracketEnds(first);
    hide Unsigned, EndsOperand, NoNegation;
    assert first + z == [Sym(LBrack)] + (y + ([Sym(RBrack)] + z));
    UnsignedJoin(first, z, |z|, true);
    UnsignedJoin(first, z, |z| - 1, true);
    InnerLeaves(ExprArrayIndex, n, m);
    InnerLeaves(ExprArrayIndex, n, Null);
  }

  lemma IndexedTold(x: string, y: seq<Token>, noNeg: bool, n: Node)
    requires IndicesTold(y, noNeg, n)
    ensures Told([Name(x)] + y, false, noNeg, Mk(ExprArrayAccess, Leaf(ConstVarname, Str(x)), n))
  {
    NameEnds(x);
    hide Unsigned, EndsOperand, NoNegation;
    UnsignedJoin([Name(x)], y, |y|, false);
    UnsignedJoin([Name(x)], y, |y| - 1, false);
    UnsignedOne(Name(x), false);
    NameLeaf(x);
    InnerLeaves(ExprArrayAccess, Leaf(ConstVarname, Str(x)), n);
  }

  lemma NameEnds(x: string)
    ensures EndsOperand([Name(x)][0].kind)
  {
  }

  lemma BracketEnds(first: seq<Token>)
    requires |first| > 0 && first[|first| - 1] == Sym(RBrack)
    ensures EndsOperand(first[|first| - 1].kind)
  {
  }

  lemma FirstIsNoSign(s: seq<Token>, n: nat, ended: bool)
    requires 0 < |s| && n <= |s| && s[0].kind != Minus
    ensures Unsigned(s, n, ended) <==> Unsigned(s, n, false)
  {
    assert forall k :: 0 <= k < n ==> (Sign(s, k, ended) <==> Sign(s, k, false));
  }

  /** What stands in front of a bracketed list or behind a dot is no sign. */
  lemma OpenBracket(open: seq<Token>)
    requires |open| == 1 || (|open| == 2 && open[0].kind == Ident)
    requires open[|open| - 1].kind in {LParen, LCurly, LBrack, Dot, Exclam}
    ensures Unsigned(open, |open|, false) && !EndsOperand(open[|open| - 1].kind)
  {
  }

  predicate SignsTell(e: Expr) {
    Told(Yield(e), OpenEnd(e), NoNeg(e), Build(e))
  }

  /** Negations are told by the tokens alone. */
  lemma {:induction false} NegationByTokens(e: Expr, lv: nat, dotted: bool)
    requires Fits(e, lv, dotted)
    ensures SignsTell(e)
    decreases e, 1
  {
    hide *;
    FitsInside(e, lv, dotted);
    match e
    case Paren(_) => BracketedSigns(e);
    case StructLit(_) => BracketedSigns(e);
    case ArrayLit(_) => BracketedSigns(e);
    case CallN(_, _) => BracketedSigns(e);
    case Member(_, _) => JoinedSigns(e);
    case Index(_, _) => JoinedSigns(e);
    case Bin(_, _, _) => JoinedSigns(e);
    case Neg(_) => JoinedSigns(e);
    case NotE(_) => JoinedSigns(e);
    case _ => ShortSigns(e);
  }

  /** The parts of a grammatical expression are grammatical. */
  predicate Inside(e: Expr) {
    match e
    case Member(_, t) => Fits(t, FACTOR, true)
    case Index(_, es) => FitsAll(es)
    case StructLit(es) => FitsAll(es)
    case ArrayLit(es) => FitsAll(es)
    case Paren(e1) => Fits(e1, OR, false) && !OpenEnd(e1)
    case CallN(_, es) => FitsAll(es)
    case Neg(e1) => Fits(e1, CALL, false)
    case Bin(op, l, r) =>
      (Fits(l, OpLevel(op) - 1, false) || Fits(l, OpLevel(op) - 1, true)) && !OpenEnd(l) && Fits(r, OpLevel(op), false)
    case NotE(e1) => Fits(e1, COMPARE, false)
    case _ => true
  }

  lemma FitsInside(e: Expr, lv: nat, dotted: bool)
    requires Fits(e, lv, dotted)
    ensures Inside(e)
  {
  }

  lemma ShortSigns(e: Expr)
    requires e.Lit? || e.Var? || e.Call0? || e.Cut? || e.BareMinus?
    ensures SignsTell(e)
  {
    ShortUnsigned(e);
    hide NoNegation, Unsigned;
    match e
    case Lit(lit, v) => LiteralLeaf(lit, v);
    case Var(x) => NameLeaf(x);
    case Call0(x) => NameLeaf(x); InnerLeaves(ExprCall, Leaf(ConstVarname, Str(x)), Null);
    case Cut(x) => NameLeaf(x); InnerLeaves(ExprMemberAccess, Leaf(ConstVarname, Str(x)), Null);
    case BareMinus => InnerLeaves(ExprNegate, Null, Null);
  }

  lemma ShortUnsigned(e: Expr)
    requires e.Lit? || e.Var? || e.Call0? || e.Cut? || e.BareMinus?
    ensures Unsigned(Yield(e), |Yield(e)| - 1, false) && (Unsigned(Yield(e), |Yield(e)|, false) <==> !e.BareMinus?)
  {
    UnsignedOne(Yield(e)[0], false);
  }

  lemma {:induction false} BracketedSigns(e: Expr)
    requires (e.Paren? || e.StructLit? || e.ArrayLit? || e.CallN?) && Inside(e)
    ensures SignsTell(e)
    decreases e, 0
  {
    hide Told, Unsigned, EndsOperand, YieldList, FitsAll, Fits, NoNegation, BuildList, NoNegAll;
    match e
    case Paren(e1) =>
      NegationByTokens(e1, OR, false);
      OpenBracket([Sym(LParen)]);
      EnclosedTold([Sym(LParen)], Yield(e1), Sym(RParen), NoNeg(e1), Build(e1), Build(e1));
    case StructLit(es) =>
      ListSigns(es);
      OpenBracket([Sym(LCurly)]);
      InnerLeaves(ConstStruct, BuildList(es), Null);
      EnclosedTold([Sym(LCurly)], YieldList(es), Sym(RCurly), NoNegAll(es), BuildList(es), Build(e));
    case ArrayLit(es) =>
      ListSigns(es);
      OpenBracket([Sym(LBrack)]);
      InnerLeaves(ConstArray, BuildList(es), Null);
      EnclosedTold([Sym(LBrack)], YieldList(es), Sym(RBrack), NoNegAll(es), BuildList(es), Build(e));
    case CallN(x, es) =>
      ListSigns(es);
      OpenBracket([Name(x), Sym(LParen)]);
      NameLeaf(x);
      InnerLeaves(ExprCall, Leaf(ConstVarname, Str(x)), BuildList(es));
      EnclosedTold([Name(x), Sym(LParen)], YieldList(es), Sym(RParen), NoNegAll(es), BuildList(es), Build(e));
  }

  lemma {:induction false} JoinedSigns(e: Expr)
    requires (e.Member? || e.Index? || e.Bin? || e.Neg? || e.NotE?) && Inside(e)
    ensures SignsTell(e)
    decreases e, 0
  {
    hide Told, Unsigned, EndsOperand, YieldIndices, FitsAll, Fits, NoNegation, BuildIndices, NoNegAll, OpTokens;
    match e
    case Member(x, t) =>
      NegationByTokens(t, FACTOR, true);
      OpenBracket([Name(x), Sym(Dot)]);
      NameLeaf(x);
      InnerLeaves(ExprMemberAccess, Leaf(ConstVarname, Str(x)), Build(t));
      BehindTold([Name(x), Sym(Dot)], Yield(t), OpenEnd(t), NoNeg(t), Build(t), Build(e));
    case Index(x, es) =>
      IndexSigns(es);
      IndexedTold(x, YieldIndices(es), NoNegAll(es), BuildIndices(es));
    case Bin(op, l, r) =>
      NegationByTokens(l, OpLevel(op) - 1, !Fits(l, OpLevel(op) - 1, false));
      NegationByTokens(r, OpLevel(op), false);
      ClosedEndsOperand(l);
      BinTold(Yield(l), op, Yield(r), OpenEnd(r), NoNeg(l), NoNeg(r), Build(l), Build(r));
    case Neg(e1) => NegTold(Yield(e1), OpenEnd(e1));
    case NotE(e1) =>
      NegationByTokens(e1, COMPARE, false);
      OpenBracket([Sym(Exclam)]);
      InnerLeaves(ExprNot, Build(e1), Null);
      BehindTold([Sym(Exclam)], Yield(e1), OpenEnd(e1), NoNeg(e1), Build(e1), Build(e));
  }

  /** The signs of lists, whose items are complete. */
  lemma {:induction false} ListSigns(es: Exprs)
    requires FitsAll(es)
    ensures Told(YieldList(es), false, NoNegAll(es), BuildList(es))
    decreases es, 2
  {
    hide Told, Fits, NoNegation, NoNeg, Yield, Build, OpenEnd, Unsigned;
    var e := es.head;
    NegationByTokens(e, OR, false);
    InnerLeaves(ExprList, Build(e), Null);
    if es.More? {
      ListSigns(es.rest);
      CommaTold(Yield(e), YieldList(es.rest), NoNeg(e), NoNegAll(es.rest), Build(e), BuildList(es.rest));
    } else {
      SameTold(Yield(e), NoNeg(e), Build(e), BuildList(es));
    }
  }

  lemma SameTold(y: seq<Token>, noNeg: bool, n: Node, m: Node)
    requires Told(y, false, noNeg, n) && (NoNegation(m) <==> NoNegation(n))
    ensures Told(y, false, noNeg, m)
  {
    hide Unsigned, NoNegation;
  }

  lemma {:induction false} IndexSigns(es: Exprs)
    requires FitsAll(es)
    ensures IndicesTold(YieldIndices(es), NoNegAll(es), BuildIndices(es))
    decreases es, 2
  {
    hide Told, IndicesTold, Fits, NoNegation, NoNeg, Yield, Build, OpenEnd, Unsigned;
    var e := es.head;
    NegationByTokens(e, OR, false);
    if es.More? {
      IndexSigns(es.rest);
      MoreIndicesTold(Yield(e), YieldIndices(es.rest), NoNeg(e), NoNegAll(es.rest), Build(e), BuildIndices(es.rest));
    } else {
      LastIndexTold(Yield(e), NoNeg(e), Build(e));
    }
  }

  // ----- what the tree keeps

  /** Every grammatical expression has a name or a literal, unless all there is of it is a
      minus without an operand. */
  lemma {:induction false} HasLeaves(e: Expr, lv: nat, dotted: bool)
    requires Fits(e, lv, dotted) && (lv <= CALL || !OpenEnd(e))
    ensures |Leaves(e)| > 0
  {
    match e
    case Index(_, es) => ListHasLeaves(es);
    case StructLit(es) => ListHasLeaves(es);
    case ArrayLit(es) => ListHasLeaves(es);
    case Paren(e1) => HasLeaves(e1, OR, false);
    case CallN(_, es) => ListHasLeaves(es);
    case Neg(e1) => HasLeaves(e1, CALL, false);
    case Bin(op, l, r) => HasLeaves(l, OpLevel(op) - 1, dotted);
    case NotE(e1) => HasLeaves(e1, COMPARE, false);
    case _ =>
  }

  lemma ListHasLeaves(es: Exprs)
    requires FitsAll(es)
    ensures |ListLeaves(es)| > 0
  {
    HasLeaves(es.head, OR, false);
  }

  /** What the tree of `e` keeps of the leaves: all of them without negation, fewer with. */
  predicate Keeps(n: Node, all: seq<Token>, noNeg: bool) {
    (noNeg ==> NodeLeaves(n) == all) && (!noNeg ==> |NodeLeaves(n)| < |all|)
  }

  lemma {:induction false} BuildLeaves(e: Expr, lv: nat, dotted: bool)
    requires Fits(e, lv, dotted)
    ensures Keeps(Build(e), Leaves(e), NoNeg(e))
  {
    hide NodeLeaves, NoNegation, BuildList, BuildIndices, ListLeaves, FitsAll, NoNegAll;
    match e
    case Lit(lit, v) => LiteralLeaf(lit, v);
    case Var(x) => NameLeaf(x);
    case Member(x, t) =>
      BuildLeaves(t, FACTOR, true);
      NameLeaf(x);
      InnerLeaves(ExprMemberAccess, Leaf(ConstVarname, Str(x)), Build(t));
    case Index(x, es) =>
      BuildListLeaves(es);
      NameLeaf(x);
      InnerLeaves(ExprArrayAccess, Leaf(ConstVarname, Str(x)), BuildIndices(es));
    case StructLit(es) => BuildListLeaves(es); InnerLeaves(ConstStruct, BuildList(es), Null);
    case ArrayLit(es) => BuildListLeaves(es); InnerLeaves(ConstArray, BuildList(es), Null);
    case Paren(e1) => BuildLeaves(e1, OR, false);
    case Call0(x) => NameLeaf(x); InnerLeaves(ExprCall, Leaf(ConstVarname, Str(x)), Null);
    case CallN(x, es) =>
      BuildListLeaves(es);
      NameLeaf(x);
      InnerLeaves(ExprCall, Leaf(ConstVarname, Str(x)), BuildList(es));
    case Neg(e1) => HasLeaves(e1, CALL, false); InnerLeaves(ExprNegate, Null, Null);
    case Bin(op, l, r) =>
      BuildLeaves(l, OpLevel(op) - 1, dotted);
      BuildLeaves(r, OpLevel(op), false);
      InnerLeaves(ExprBinary(op), Build(l), Build(r));
    case NotE(e1) => BuildLeaves(e1, COMPARE, false); InnerLeaves(ExprNot, Build(e1), Null);
    case Cut(x) => NameLeaf(x); InnerLeaves(ExprMemberAccess, Leaf(ConstVarname, Str(x)), Null);
    case BareMinus => InnerLeaves(ExprNegate, Null, Null);
  }

  predicate IsLeafNode(k: NodeKind) {
    k == ConstVarname || k == ConstInt || k == ConstFloat || k == ConstBool || k == ConstString
  }

  lemma InnerLeaves(k: NodeKind, l: Node, r: Node)
    requires !IsLeafNode(k)
    ensures NodeLeaves(Mk(k, l, r)) == NodeLeaves(l) + NodeLeaves(r) && NodeLeaves(Null) == []
    ensures NoNegation(Mk(k, l, r)) <==> k != ExprNegate && NoNegation(l) && NoNegation(r)
    ensures NoNegation(Null)
  {
  }

  lemma LiteralLeaf(lit: Literal, v: Value)
    ensures NoNegation(Leaf(lit.NodeKind(), v)) && NodeLeaves(Leaf(lit.NodeKind(), v)) == [Token(lit.TokenKind(), v)]
  {
  }

  lemma NameLeaf(x: string)
    ensures NoNegation(Leaf(ConstVarname, Str(x))) && NodeLeaves(Leaf(ConstVarname, Str(x))) == [Name(x)]
  {
  }

  lemma {:induction false} BuildListLeaves(es: Exprs)
    requires FitsAll(es)
    ensures Keeps(BuildList(es), ListLeaves(es), NoNegAll(es)) && Keeps(BuildIndices(es), ListLeaves(es), NoNegAll(es))
  {
    hide NodeLeaves, NoNegation;
    BuildLeaves(es.head, OR, false);
    if es.More? {
      BuildListLeaves(es.rest);
      InnerLeaves(ExprList, Build(es.head), BuildList(es.rest));
      InnerLeaves(ExprArrayIndex, Build(es.head), BuildIndices(es.rest));
    } else {
      InnerLeaves(ExprList, Build(es.head), Null);
      InnerLeaves(ExprArrayIndex, Build(es.head), Null);
    }
  }

  /** Whenever a level parses, the names and literals of the tree are those consumed, in
      order, none lost, added or moved, exactly when no operand among the consumed tokens
      is negated. A negation drops its operand; a minus right before the end marker has
      none to drop. */
  lemma {:induction false} LeafConservation(lv: nat, ts: seq<Token>, i: nat)
    requires lv <= OR && Proper(ts) && Level(lv, ts, i).Ok?
    ensures var p := Level(lv, ts, i).value;
            NodeLeaves(p.node) == LeafTokens(ts[i..p.next]) <==> NothingNegated(ts[i..p.next])
  {
    hide Level, Unsigned, Proper;
    var p := Level(lv, ts, i).value;
    if p.node != Null {
      var e := Sound(lv, ts, i);
      assert ts[i..p.next] == Yield(e);
      NegationByTokens(e, lv, Dotted(ts, i));
      YieldLeaves(e);
      BuildLeaves(e, lv, Dotted(ts, i));
    }
  }

  /** The tree has no negation exactly when no minus among the consumed tokens stands in
      front of an operand or of nothing at all. */
  lemma {:induction false} NegationsAreSigns(lv: nat, ts: seq<Token>, i: nat)
    requires lv <= OR && Proper(ts) && Level(lv, ts, i).Ok?
    ensures var p := Level(lv, ts, i).value;
            NoNegation(p.node) <==> Unsigned(ts[i..p.next], p.next - i, false)
  {
    hide Level, Proper;
    var p := Level(lv, ts, i).value;
    if p.node != Null {
      hide Unsigned;
      var e := Sound(lv, ts, i);
      assert ts[i..p.next] == Yield(e);
      NegationByTokens(e, lv, Dotted(ts, i));
    }
  }
}
