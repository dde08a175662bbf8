/** What slkc/src/slkc/compiler/lexer.c computes, as functions of the text that is
    still unread. Characters are the bytes of the source; byte 255 reads as -1 and is
    the same as the end of the text. */
module LexerSpec {
  import opened Outcomes
  import opened Tokens

  const END_MARK: char := '\U{FF}'
  const NUL: char := '\0'
  const INT_MAX: nat := 0x7FFF_FFFF
  const WORD_DIGIT: string := "0123456789"

  predicate IsBlank(c: char) {
    c == '\n' || c == ' ' || c == '\r' || c == '\t'
  }

  predicate IsDigit(c: char) {
    '0' <= c <= '9'
  }

  predicate IsAlpha(c: char) {
    'a' <= c <= 'z' || 'A' <= c <= 'Z' || c == '_'
  }

  /** The characters that continue a name. The search for a digit runs past the ten
      digits and so also finds the zero that ends the digit string. */
  predicate IsNameChar(c: char) {
    IsAlpha(c) || IsDigit(c) || c == NUL
  }

  /** `sk_lex_curr_char` and `sk_lex_peek_char`. */
  function Peek(s: string, n: nat): char {
    if n < |s| then s[n] else END_MARK
  }

  predicate Starts(s: string, w: string) {
    w <= s
  }

  function SymbolKind(c: char): Option<Kind> {
    match c
    case ',' => Some(Comma)
    case '.' => Some(Dot)
    case ';' => Some(Semicolon)
    case '+' => Some(Plus)
    case '-' => Some(Minus)
    case '*' => Some(Asterisk)
    case '/' => Some(Slash)
    case '=' => Some(Equal)
    case '!' => Some(Exclam)
    case '(' => Some(LParen)
    case ')' => Some(RParen)
    case '{' => Some(LCurly)
    case '}' => Some(RCurly)
    case '[' => Some(LBrack)
    case ']' => Some(RBrack)
    case '%' => Some(Percent)
    case '&' => Some(Ampersand)
    case '|' => Some(Obelisk)
    case '^' => Some(Caret)
    case '<' => Some(LowerThan)
    case '>' => Some(GreaterThan)
    case _ => None
  }

  /** The keywords in the order in which they are tried. */
  function Keyword(k: Kind): (r: Option<string>)
    ensures r.Some? ==> |r.value| >= 2 && IsAlpha(r.value[0]) && IsAlpha(r.value[1])
  {
    match k
    case WordInt => Some("int")
    case WordFloat => Some("float")
    case WordVoid => Some("void")
    case WordBool => Some("bool")
    case WordStruct => Some("struct")
    case WordReturn => Some("return")
    case WordWhile => Some("while")
    case WordBreak => Some("break")
    case WordContinue => Some("continue")
    case WordElseIf => Some("else if")
    case WordIf => Some("if")
    case WordElse => Some("else")
    case WordRef => Some("ref")
    case WordConst => Some("const")
    case WordImport => Some("import")
    case _ => None
  }

  const KEYWORDS: seq<Kind> := [
    WordInt, WordFloat, WordVoid, WordBool, WordStruct, WordReturn, WordWhile, WordBreak,
    WordContinue, WordElseIf, WordIf, WordElse, WordRef, WordConst, WordImport
  ]

  /** The first keyword of `ks` that the text begins with. There is no test for the end
      of the word. */
  function FirstKeyword(ks: seq<Kind>, s: string): (r: Option<Kind>)
    ensures r.Some? ==> r.value in ks && Keyword(r.value).Some? && Starts(s, Keyword(r.value).value)
    ensures r.Some? ==> 0 < |Keyword(r.value).value| <= |s|
  {
    if ks == [] then None
    else if Keyword(ks[0]).Some? && Starts(s, Keyword(ks[0]).value) then Some(ks[0])
    else FirstKeyword(ks[1..], s)
  }

  function DigitCount(s: string): (n: nat)
    ensures n <= |s|
  {
    if s != "" && IsDigit(s[0]) then 1 + DigitCount(s[1..]) else 0
  }

  function NameCount(s: string): (n: nat)
    ensures n <= |s|
  {
    if s != "" && IsNameChar(s[0]) then 1 + NameCount(s[1..]) else 0
  }

  /** A name as a C string: what stands before the first zero. */
  function CString(s: string): string {
    if s == "" || s[0] == NUL then "" else [s[0]] + CString(s[1..])
  }

  function Decimal(s: string): nat {
    if s == "" then 0
    else 10 * Decimal(s[..|s| - 1]) + (if IsDigit(s[|s| - 1]) then s[|s| - 1] as nat - '0' as nat else 0)
  }

  /** `atoi` on digits, which saturates. */
  function IntValue(s: string): nat {
    if Decimal(s) <= INT_MAX then Decimal(s) else INT_MAX
  }

  datatype Scan = Stop | Blank | Lexeme(token: Token, length: nat) | Finish | Bad(message: string)

  /** A numeral: digits, and if a dot follows, the dot, one more character whatever it
      is, and digits. */
  function Numeral(s: string): (r: Scan)
    requires s != "" && IsDigit(s[0])
    ensures r.Lexeme? ==> 0 < r.length <= |s|
  {
    var n := DigitCount(s);
    if Peek(s, n) != '.' then
      Lexeme(Token(LitInt, Int(IntValue(s[..n]))), n)
    else
      var m := if n + 2 <= |s| then n + 2 else |s|;
      var k := m + DigitCount(s[m..]);
      if Peek(s, k) == '.' then Bad("Invalid decimal point.")
      else Lexeme(Token(LitFloat, Float(s[..k])), k)
  }

  function ScanTerm(s: string): (r: Scan)
    requires s != ""
    ensures r.Lexeme? ==> 0 < r.length <= |s|
    ensures r == Stop ==> !IsDigit(s[0]) && !IsAlpha(s[0])
  {
    if IsDigit(s[0]) then Numeral(s)
    else if Starts(s, "true") then Lexeme(Token(LitBool, Bool(true)), 4)
    else if Starts(s, "false") then Lexeme(Token(LitBool, Bool(false)), 5)
    else if IsAlpha(s[0]) then
      var n := NameCount(s);
      Lexeme(Token(Ident, Str(CString(s[..n]))), n)
    else Stop
  }

  /** One turn of the lexer's loop. */
  function ScanOne(s: string): (r: Scan)
    requires s != ""
    ensures r.Lexeme? ==> 0 < r.length <= |s|
  {
    if s[0] == END_MARK then Stop
    else if IsBlank(s[0]) then Blank
    else if SymbolKind(s[0]).Some? then Lexeme(Sym(SymbolKind(s[0]).value), 1)
    else
      var k := FirstKeyword(KEYWORDS, s);
      if k.Some? then Lexeme(Sym(k.value), |Keyword(k.value).value|)
      else
        var t := ScanTerm(s);
        if t != Stop then t
        else if s[0] == NUL then Finish
        else Bad("Invalid character")
  }

  function LineAfter(line: nat, c: char): nat {
    if c == '\n' then line + 1 else line
  }

  /** `sk_lex_source` on what is left of the text. */
  function Lex(s: string, line: nat): Result<seq<Located>> {
    if s == "" then Ok([])
    else
      match ScanOne(s)
      case Stop => Ok([])
      case Blank => Lex(s[1..], LineAfter(line, s[0]))
      case Finish => Ok([Located(Sym(Eof), line)])
      case Bad(m) => SyntaxError(m)
      case Lexeme(t, n) =>
        var rest :- Lex(s[n..], line);
        Ok([Located(t, line)] + rest)
  }
}
