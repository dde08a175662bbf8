/** Tokens as the lexer hands them to the parser (slkc/include/slkc/compiler/token.h).
    The line number only reaches error messages, so it is kept beside the token
    (`Located`) and not in it. */
module Tokens {

  datatype Kind =
    | Ident | Eof
    | Comma | Dot | Semicolon | Plus | Minus | Asterisk | Slash | Equal | Exclam
    | LParen | RParen | LCurly | RCurly | LBrack | RBrack
    | Percent | Ampersand | Obelisk | Caret | LowerThan | GreaterThan
    | WordInt | WordFloat | WordVoid | WordBool | WordStruct | WordReturn | WordWhile
    | WordBreak | WordContinue | WordElse | WordElseIf | WordIf | WordRef | WordConst | WordImport
    | LitString | LitInt | LitFloat | LitBool

  /** The union inside `skToken`. A float keeps its spelling: `atof` is not modelled. */
  datatype Value = NoValue | Int(i: int) | Bool(b: bool) | Float(spelling: string) | Str(s: string)

  datatype Token = Token(kind: Kind, value: Value)

  datatype Located = Located(token: Token, line: nat)

  function Sym(k: Kind): Token {
    Token(k, NoValue)
  }

  function Name(x: string): Token {
    Token(Ident, Str(x))
  }

  /** Names carry a string, literals any value, every other token none. */
  predicate Proper(ts: seq<Token>) {
    forall k :: 0 <= k < |ts| ==> ProperToken(ts[k])
  }

  predicate ProperToken(t: Token) {
    match t.kind
    case Ident => t.value.Str?
    case LitString => true
    case LitInt => true
    case LitFloat => true
    case LitBool => true
    case _ => t.value == NoValue
  }

  /** The token sequence `p` stands in `ts` from index `i` on. */
  predicate At(ts: seq<Token>, i: nat, p: seq<Token>) {
    i + |p| <= |ts| && ts[i..i + |p|] == p
  }

  lemma AtSplit(ts: seq<Token>, i: nat, p: seq<Token>, q: seq<Token>)
    ensures At(ts, i, p + q) <==> At(ts, i, p) && At(ts, i + |p|, q)
  {
    if At(ts, i, p) && At(ts, i + |p|, q) {
      assert ts[i..i + |p + q|] == ts[i..i + |p|] + ts[i + |p|..i + |p| + |q|];
    }
    if At(ts, i, p + q) {
      assert p == (p + q)[..|p|] && q == (p + q)[|p|..];
      assert ts[i..i + |p|] == ts[i..i + |p + q|][..|p|];
      assert ts[i + |p|..i + |p| + |q|] == ts[i..i + |p + q|][|p|..];
    }
  }

  lemma AtIndex(ts: seq<Token>, i: nat, p: seq<Token>, k: nat)
    requires At(ts, i, p) && k < |p|
    ensures i + k < |ts| && ts[i + k] == p[k]
  {
    assert ts[i..i + |p|][k] == p[k];
  }

  lemma AtFirst(ts: seq<Token>, i: nat, p: seq<Token>)
    requires At(ts, i, p) && p != []
    ensures i < |ts| && ts[i] == p[0]
  {
    assert ts[i..i + |p|][0] == p[0];
  }

  lemma AtTwo(ts: seq<Token>, i: nat, t: Token, u: Token)
    requires At(ts, i, [t, u])
    ensures i + 1 < |ts| && ts[i] == t && ts[i + 1] == u
  {
    assert ts[i..i + 2][0] == t && ts[i..i + 2][1] == u;
  }

  lemma AtThree(ts: seq<Token>, i: nat, t: Token, u: Token, v: Token)
    requires At(ts, i, [t, u, v])
    ensures i + 2 < |ts| && ts[i] == t && ts[i + 1] == u && ts[i + 2] == v
  {
    assert ts[i..i + 3][0] == t && ts[i..i + 3][1] == u && ts[i..i + 3][2] == v;
  }

  lemma AtOne(ts: seq<Token>, i: nat, t: Token)
    ensures At(ts, i, [t]) <==> i < |ts| && ts[i] == t
  {
    if i < |ts| {
      assert ts[i..i + 1] == [ts[i]];
    }
    if At(ts, i, [t]) {
      assert ts[i..i + 1][0] == t;
    }
  }

  /** The kind at `i`, reading as end of input beyond the array. Specification only:
      the parser itself never reads there without failing. */
  function Look(ts: seq<Token>, i: nat): Kind {
    if i < |ts| then ts[i].kind else Eof
  }
}
