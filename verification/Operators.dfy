/** The precedence levels of slkc/src/slkc/compiler/parser.c and the operators each
    binary level recognises at the cursor. */
module Operators {
  import opened Outcomes
  import opened Tokens
  import opened Nodes

  // The precedence levels, tightest first.
  const FACTOR: nat := 0
  const CALL: nat := 1
  const NEGATE: nat := 2
  const MULTIPLICATIVE: nat := 3
  const ADDITIVE: nat := 4
  const MODULUS: nat := 5
  const BITWISE: nat := 6
  const COMPARE: nat := 7
  const NOT: nat := 8
  const AND: nat := 9
  const OR: nat := 10

  function KindAt(ts: seq<Token>, i: nat): (r: Result<Kind>)
    ensures r.Ok? <==> i < |ts|
    ensures r.Ok? ==> r.value == ts[i].kind
    ensures !r.Ok? ==> r == OutOfBounds
  {
    if i < |ts| then Ok(ts[i].kind) else OutOfBounds
  }

  /** The operator a binary level takes when it sees `k0` followed by `k1`. */
  function OperatorOf(lv: nat, k0: Kind, k1: Kind): Option<BinOp> {
    if lv == MULTIPLICATIVE then
      if k0 == Asterisk then Some(Multiply) else if k0 == Slash then Some(Divide) else None
    else if lv == ADDITIVE then
      if k0 == Plus then Some(Add) else if k0 == Minus then Some(Subtract) else None
    else if lv == MODULUS then
      if k0 == Percent then Some(Modulus) else None
    else if lv == BITWISE then
      if k0 == LowerThan && k1 == LowerThan then Some(Shl)
      else if k0 == GreaterThan && k1 == GreaterThan then Some(Shr)
      else if k0 == Caret then Some(Xor)
      else if k0 == Obelisk then Some(BitOr)
      else if k0 == Ampersand then Some(BitAnd)
      else None
    else if lv == COMPARE then
      if k0 == Equal && k1 == Equal then Some(CmpEq)
      else if k0 == Exclam && k1 == Equal then Some(CmpNe)
      else if k0 == GreaterThan && k1 == Equal then Some(CmpGte)
      else if k0 == LowerThan && k1 == Equal then Some(CmpLte)
      else if k0 == GreaterThan then Some(CmpGt)
      else if k0 == LowerThan then Some(CmpLt)
      else None
    else if lv == AND then
      if k0 == Ampersand && k1 == Ampersand then Some(LogicAnd) else None
    else if lv == OR then
      if k0 == Obelisk && k1 == Obelisk then Some(LogicOr) else None
    else None
  }

  /** Whether the level looks at the token after `k0`. */
  predicate ReadsAhead(lv: nat, k0: Kind) {
    || (lv == BITWISE && (k0 == LowerThan || k0 == GreaterThan))
    || (lv == COMPARE && (k0 == Equal || k0 == Exclam || k0 == LowerThan || k0 == GreaterThan))
    || (lv == AND && k0 == Ampersand)
    || (lv == OR && k0 == Obelisk)
  }

  function OperatorAt(lv: nat, ts: seq<Token>, i: nat): (r: Result<Option<BinOp>>)
    ensures r.Ok? ==> i < |ts|
    ensures r.Ok? && r.value.Some? ==> i + Width(r.value.value) <= |ts|
  {
    var k0 :- KindAt(ts, i);
    if ReadsAhead(lv, k0) then
      var k1 :- KindAt(ts, i + 1);
      Ok(OperatorOf(lv, k0, k1))
    else
      Ok(OperatorOf(lv, k0, Eof))
  }

  /** The symbols an operator is written with. */
  function OpTokens(op: BinOp): (s: seq<Token>)
    ensures 1 <= |s| <= 2
  {
    match op
    case Multiply => [Sym(Asterisk)]
    case Divide => [Sym(Slash)]
    case Add => [Sym(Plus)]
    case Subtract => [Sym(Minus)]
    case Modulus => [Sym(Percent)]
    case Shl => [Sym(LowerThan), Sym(LowerThan)]
    case Shr => [Sym(GreaterThan), Sym(GreaterThan)]
    case Xor => [Sym(Caret)]
    case BitOr => [Sym(Obelisk)]
    case BitAnd => [Sym(Ampersand)]
    case CmpEq => [Sym(Equal), Sym(Equal)]
    case CmpNe => [Sym(Exclam), Sym(Equal)]
    case CmpGte => [Sym(GreaterThan), Sym(Equal)]
    case CmpLte => [Sym(LowerThan), Sym(Equal)]
    case CmpGt => [Sym(GreaterThan)]
    case CmpLt => [Sym(LowerThan)]
    case LogicAnd => [Sym(Ampersand), Sym(Ampersand)]
    case LogicOr => [Sym(Obelisk), Sym(Obelisk)]
  }

  function Width(op: BinOp): (w: nat)
    ensures 1 <= w <= 2
  {
    |OpTokens(op)|
  }

  /** The level an operator belongs to. */
  function OpLevel(op: BinOp): (lv: nat)
    ensures MULTIPLICATIVE <= lv <= OR && lv != NOT
  {
    match op
    case Multiply => MULTIPLICATIVE
    case Divide => MULTIPLICATIVE
    case Add => ADDITIVE
    case Subtract => ADDITIVE
    case Modulus => MODULUS
    case Shl => BITWISE
    case Shr => BITWISE
    case Xor => BITWISE
    case BitOr => BITWISE
    case BitAnd => BITWISE
    case CmpEq => COMPARE
    case CmpNe => COMPARE
    case CmpGte => COMPARE
    case CmpLte => COMPARE
    case CmpGt => COMPARE
    case CmpLt => COMPARE
    case LogicAnd => AND
    case LogicOr => OR
  }

  lemma OperatorOfIsSpelled(lv: nat, k0: Kind, k1: Kind)
    requires OperatorOf(lv, k0, k1).Some?
    ensures var op := OperatorOf(lv, k0, k1).value;
            && OpTokens(op)[0] == Sym(k0) && (Width(op) == 2 ==> ReadsAhead(lv, k0) && OpTokens(op)[1] == Sym(k1))
            && OpLevel(op) == lv
  {
    OperatorOfLevel(lv, k0, k1);
    hide OpLevel;
  }

  lemma OperatorOfLevel(lv: nat, k0: Kind, k1: Kind)
    requires OperatorOf(lv, k0, k1).Some?
    ensures OpLevel(OperatorOf(lv, k0, k1).value) == lv
  {
    if lv == BITWISE {
      BitwiseLevel(k0, k1);
    } else if lv == COMPARE {
      CompareLevel(k0, k1);
    }
  }

  lemma BitwiseLevel(k0: Kind, k1: Kind)
    requires OperatorOf(BITWISE, k0, k1).Some?
    ensures OpLevel(OperatorOf(BITWISE, k0, k1).value) == BITWISE
  {
  }

  lemma CompareLevel(k0: Kind, k1: Kind)
    requires OperatorOf(COMPARE, k0, k1).Some?
    ensures OpLevel(OperatorOf(COMPARE, k0, k1).value) == COMPARE
  {
  }

  /** The operator a level finds is written at the cursor and belongs to the level. */
  lemma OperatorFound(lv: nat, ts: seq<Token>, j: nat)
    requires Proper(ts) && OperatorAt(lv, ts, j).Ok? && OperatorAt(lv, ts, j).value.Some?
    ensures var op := OperatorAt(lv, ts, j).value.value;
            At(ts, j, OpTokens(op)) && OpLevel(op) == lv
  {
    var op := OperatorAt(lv, ts, j).value.value;
    var k1 := if ReadsAhead(lv, ts[j].kind) then ts[j + 1].kind else Eof;
    OperatorOfIsSpelled(lv, ts[j].kind, k1);
    assert ProperToken(ts[j]);
    assert ts[j] == OpTokens(op)[0];
    if Width(op) == 1 {
      AtOne(ts, j, ts[j]);
      assert OpTokens(op) == [ts[j]];
    } else {
      assert ProperToken(ts[j + 1]);
      assert OpTokens(op) == [ts[j], ts[j + 1]] == ts[j..j + 2];
    }
  }

  /** Once the bitwise level has found nothing, neither `&&` nor `||` can be found. */
  lemma LogicNeverFound(lv: nat, ts: seq<Token>, j: nat)
    requires lv == AND || lv == OR
    requires OperatorAt(BITWISE, ts, j) == Ok(None)
    requires OperatorAt(lv, ts, j).Ok?
    ensures OperatorAt(lv, ts, j).value == None
  {
  }
}
