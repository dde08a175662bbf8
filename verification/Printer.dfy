/** Printing: choosing parentheses for an expression, and what they can and cannot
    change. */
module Printer {
  import opened Outcomes
  import opened Tokens
  import opened Nodes
  import opened Operators
  import opened Syntax

  /** An expression a complete program can contain: any tree, with or without
      parentheses of its own, free of the two incomplete shapes. */
  predicate Source(e: Expr) {
    match e
    case Member(_, t) => Source(t)
    case Index(_, es) => SourceAll(es)
    case StructLit(es) => SourceAll(es)
    case ArrayLit(es) => SourceAll(es)
    case Paren(e1) => Source(e1)
    case CallN(_, es) => SourceAll(es)
    case Neg(e1) => Source(e1)
    case Bin(_, l, r) => Source(l) && Source(r)
    case NotE(e1) => Source(e1)
    case Cut(_) => false
    case BareMinus => false
    case _ => true
  }

  predicate SourceAll(es: Exprs) {
    Source(es.head) && (es.More? ==> SourceAll(es.rest))
  }

  /** The level a construct can stand at without parentheses. */
  function OwnLevel(e: Expr): nat {
    match e
    case Call0(_) => CALL
    case CallN(_, _) => CALL
    case Neg(_) => NEGATE
    case BareMinus => NEGATE
    case Bin(op, _, _) => OpLevel(op)
    case NotE(_) => NOT
    case _ => FACTOR
  }

  /** `e` with parentheses where, and only where, level `lv` needs them. */
  function Fit(e: Expr, lv: nat, dotted: bool): Expr
    decreases e, 1
  {
    if OwnLevel(e) > lv || (dotted && e.Index?) then Paren(Core(e)) else Core(e)
  }

  function Core(e: Expr): Expr
    decreases e, 0
  {
    match e
    case Member(x, t) => Member(x, Fit(t, FACTOR, true))
    case Index(x, es) => Index(x, FitList(es))
    case StructLit(es) => StructLit(FitList(es))
    case ArrayLit(es) => ArrayLit(FitList(es))
    case Paren(e1) => Paren(Fit(e1, OR, false))
    case CallN(x, es) => CallN(x, FitList(es))
    case Neg(e1) => Neg(Fit(e1, CALL, false))
    case Bin(op, l, r) => Bin(op, Fit(l, OpLevel(op) - 1, false), Fit(r, OpLevel(op), false))
    case NotE(e1) => NotE(Fit(e1, COMPARE, false))
    case _ => e
  }

  function FitList(es: Exprs): Exprs {
    match es
    case Last(e) => Last(Fit(e, OR, false))
    case More(e, rest) => More(Fit(e, OR, false), FitList(rest))
  }

  /** `e` with every operand in parentheses. */
  function Full(e: Expr): Expr {
    match e
    case Member(x, t) => Member(x, Paren(Full(t)))
    case Index(x, es) => Index(x, FullList(es))
    case StructLit(es) => StructLit(FullList(es))
    case ArrayLit(es) => ArrayLit(FullList(es))
    case Paren(e1) => Paren(Full(e1))
    case CallN(x, es) => CallN(x, FullList(es))
    case Neg(e1) => Neg(Paren(Full(e1)))
    case Bin(op, l, r) => Bin(op, Paren(Full(l)), Paren(Full(r)))
    case NotE(e1) => NotE(Paren(Full(e1)))
    case _ => e
  }

  function FullList(es: Exprs): Exprs {
    match es
    case Last(e) => Last(Full(e))
    case More(e, rest) => More(Full(e), FullList(rest))
  }

  /** `e` without any parentheses. */
  function Strip(e: Expr): Expr {
    match e
    case Member(x, t) => Member(x, Strip(t))
    case Index(x, es) => Index(x, StripList(es))
    case StructLit(es) => StructLit(StripList(es))
    case ArrayLit(es) => ArrayLit(StripList(es))
    case Paren(e1) => Strip(e1)
    case CallN(x, es) => CallN(x, StripList(es))
    case Neg(e1) => Neg(Strip(e1))
    case Bin(op, l, r) => Bin(op, Strip(l), Strip(r))
    case NotE(e1) => NotE(Strip(e1))
    case _ => e
  }

  function StripList(es: Exprs): Exprs {
    match es
    case Last(e) => Last(Strip(e))
    case More(e, rest) => More(Strip(e), StripList(rest))
  }

  // ----- Fit and Full are grammatical and change parentheses only

  lemma {:induction false} FitFits(e: Expr, lv: nat, dotted: bool)
    requires Source(e) && (dotted ==> lv == FACTOR)
    ensures Fits(Fit(e, lv, dotted), lv, dotted) && Source(Fit(e, lv, dotted))
    decreases e, 1
  {
    CoreFits(e);
    assert Fits(Paren(Core(e)), lv, dotted) by { SourceIsClosed(Core(e)); CoreAtLevel(e, OR, false); }
    if !(OwnLevel(e) > lv || (dotted && e.Index?)) {
      CoreAtLevel(e, lv, dotted);
    }
  }

  lemma CoreAtLevel(e: Expr, lv: nat, dotted: bool)
    requires Source(e) && Fits(Core(e), OwnLevel(e), false) && OwnLevel(e) <= lv && !(dotted && e.Index?)
    requires dotted ==> lv == FACTOR
    ensures Fits(Core(e), lv, dotted)
  {
  }

  lemma SourceIsClosed(e: Expr)
    requires Source(e)
    ensures !OpenEnd(e)
  {
  }

  lemma {:induction false} CoreFits(e: Expr)
    requires Source(e)
    ensures Fits(Core(e), OwnLevel(e), false) && Source(Core(e))
    decreases e, 0
  {
    match e
    case Member(x, t) => FitFits(t, FACTOR, true);
    case Index(x, es) => FitListFits(es);
    case StructLit(es) => FitListFits(es);
    case ArrayLit(es) => FitListFits(es);
    case Paren(e1) => FitFits(e1, OR, false); SourceIsClosed(Fit(e1, OR, false));
    case CallN(x, es) => FitListFits(es);
    case Neg(e1) => FitFits(e1, CALL, false);
    case Bin(op, l, r) =>
      FitFits(l, OpLevel(op) - 1, false);
      FitFits(r, OpLevel(op), false);
      SourceIsClosed(Fit(l, OpLevel(op) - 1, false));
    case NotE(e1) => FitFits(e1, COMPARE, false);
    case _ =>
  }

  lemma {:induction false} FitListFits(es: Exprs)
    requires SourceAll(es)
    ensures FitsAll(FitList(es)) && SourceAll(FitList(es))
    decreases es, 1
  {
    FitFits(es.head, OR, false);
    SourceIsClosed(Fit(es.head, OR, false));
    if es.More? {
      FitListFits(es.rest);
    }
  }

  lemma {:induction false} FullFits(e: Expr)
    requires Source(e)
    ensures Fits(Full(e), OR, false) && Source(Full(e))
  {
    match e
    case Member(x, t) => FullFits(t); SourceIsClosed(Full(t));
    case Index(x, es) => FullListFits(es);
    case StructLit(es) => FullListFits(es);
    case ArrayLit(es) => FullListFits(es);
    case Paren(e1) => FullFits(e1); SourceIsClosed(Full(e1));
    case CallN(x, es) => FullListFits(es);
    case Neg(e1) => FullFits(e1); SourceIsClosed(Full(e1));
    case Bin(op, l, r) => FullFits(l); FullFits(r); SourceIsClosed(Full(l)); SourceIsClosed(Full(r));
    case NotE(e1) => FullFits(e1); SourceIsClosed(Full(e1));
    case _ =>
  }

  lemma {:induction false} FullListFits(es: Exprs)
    requires SourceAll(es)
    ensures FitsAll(FullList(es)) && SourceAll(FullList(es))
  {
    FullFits(es.head);
    SourceIsClosed(Full(es.head));
    if es.More? {
      FullListFits(es.rest);
    }
  }

  lemma {:induction false} FitStrips(e: Expr, lv: nat, dotted: bool)
    ensures Strip(Fit(e, lv, dotted)) == Strip(e)
    decreases e, 1
  {
    hide OpLevel, StripList, FitList;
    match e
    case Member(x, t) => FitStrips(t, FACTOR, true);
    case Index(x, es) => FitListStrips(es);
    case StructLit(es) => FitListStrips(es);
    case ArrayLit(es) => FitListStrips(es);
    case Paren(e1) => FitStrips(e1, OR, false);
    case CallN(x, es) => FitListStrips(es);
    case Neg(e1) => FitStrips(e1, CALL, false);
    case Bin(op, l, r) => FitStrips(l, OpLevel(op) - 1, false); FitStrips(r, OpLevel(op), false);
    case NotE(e1) => FitStrips(e1, COMPARE, false);
    case _ =>
  }

  lemma {:induction false} FitListStrips(es: Exprs)
    ensures StripList(FitList(es)) == StripList(es)
    decreases es, 0
  {
    FitStrips(es.head, OR, false);
    if es.More? {
      FitListStrips(es.rest);
    }
  }

  lemma FullStrips(e: Expr)
    ensures Strip(Full(e)) == Strip(e)
  {
    match e
    case Index(x, es) => FullListStrips(es);
    case StructLit(es) => FullListStrips(es);
    case ArrayLit(es) => FullListStrips(es);
    case CallN(x, es) => FullListStrips(es);
    case _ =>
  }

  lemma FullListStrips(es: Exprs)
    ensures StripList(FullList(es)) == StripList(es)
  {
    FullStrips(es.head);
  }

  // ----- what parentheses cannot change

  lemma {:induction false} StripKeepsTree(e: Expr)
    ensures Build(Strip(e)) == Build(e) && (NoLogic(Strip(e)) <==> NoLogic(e))
  {
    match e
    case Member(x, t) => StripKeepsTree(t);
    case Index(x, es) => StripKeepsTrees(es);
    case StructLit(es) => StripKeepsTrees(es);
    case ArrayLit(es) => StripKeepsTrees(es);
    case Paren(e1) => StripKeepsTree(e1);
    case CallN(x, es) => StripKeepsTrees(es);
    case Neg(e1) => StripKeepsTree(e1);
    case Bin(op, l, r) => StripKeepsTree(l); StripKeepsTree(r);
    case NotE(e1) => StripKeepsTree(e1);
    case _ =>
  }

  lemma {:induction false} StripKeepsTrees(es: Exprs)
    ensures BuildList(StripList(es)) == BuildList(es) && BuildIndices(StripList(es)) == BuildIndices(es)
    ensures NoLogicAll(StripList(es)) <==> NoLogicAll(es)
  {
    StripKeepsTree(es.head);
    if es.More? {
      StripKeepsTrees(es.rest);
    }
  }

  // ----- minimality

  /** Of all the grammatical ways to put parentheses into a tree, `Fit` writes the
      shortest: any other grammatical writing of the same tree has at least as many
      tokens. */
  lemma {:induction false} FitIsShortest(e: Expr, w: Expr, lv: nat, dotted: bool)
    requires Fits(w, lv, dotted) && Strip(w) == e
    ensures |Yield(Fit(e, lv, dotted))| <= |Yield(w)|
    decreases w, 1
  {
    hide Yield;
    FitLength(e, lv, dotted);
    if w.Paren? {
      FitIsShortest(e, w.inner, OR, false);
      FitLength(e, OR, false);
      ParenLength(w);
    } else {
      CoreIsShortest(e, w, lv, dotted);
      assert OwnLevel(e) == OwnLevel(w) <= lv;
    }
  }

  lemma FitLength(e: Expr, lv: nat, dotted: bool)
    ensures |Yield(Fit(e, lv, dotted))| == |Yield(Core(e))| + if OwnLevel(e) > lv || (dotted && e.Index?) then 2 else 0
  {
  }

  lemma ParenLength(w: Expr)
    requires w.Paren?
    ensures |Yield(w)| == |Yield(w.inner)| + 2
  {
  }

  lemma {:induction false} CoreIsShortest(e: Expr, w: Expr, lv: nat, dotted: bool)
    requires Fits(w, lv, dotted) && Strip(w) == e && !w.Paren?
    ensures |Yield(Core(e))| <= |Yield(w)|
    decreases w, 0
  {
    hide Fit;
    match w
    case Member(x, t) => FitIsShortest(e.tail, t, FACTOR, true);
    case Index(x, es) => FitListIsShortest(e.indices, es);
    case StructLit(es) => FitListIsShortest(e.items, es);
    case ArrayLit(es) => FitListIsShortest(e.items, es);
    case CallN(x, es) => FitListIsShortest(e.args, es);
    case Neg(w1) => FitIsShortest(e.operand, w1, CALL, false);
    case Bin(op, l, r) =>
      FitIsShortest(e.l, l, OpLevel(op) - 1, dotted);
      FitLength(e.l, OpLevel(op) - 1, dotted);
      FitLength(e.l, OpLevel(op) - 1, false);
      FitIsShortest(e.r, r, OpLevel(op), false);
    case NotE(w1) => FitIsShortest(e.operand, w1, COMPARE, false);
    case _ =>
  }

  lemma {:induction false} FitListIsShortest(es: Exprs, ws: Exprs)
    requires FitsAll(ws) && StripList(ws) == es
    ensures |YieldList(FitList(es))| <= |YieldList(ws)| && |YieldIndices(FitList(es))| <= |YieldIndices(ws)|
    decreases ws, 2
  {
    FitIsShortest(es.head, ws.head, OR, false);
    if ws.More? {
      FitListIsShortest(es.rest, ws.rest);
    }
  }
}
