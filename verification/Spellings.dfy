/** What the lexer reads, spelled out: every word, symbol and blank as a literal, and names and
    numerals by their characters. None of it refers to the lexer's own tables. */
module Spellings {
  import opened Outcomes
  import opened Tokens
  import opened LexerSpec
  import opened LexerTheorems

  // ----- words and symbols

  /** The fifteen words, before any text at all: no word boundary is asked for. */
  lemma WordsRead(after: string)
    ensures ScanOne("int" + after) == Lexeme(Sym(WordInt), 3)
    ensures ScanOne("float" + after) == Lexeme(Sym(WordFloat), 5)
    ensures ScanOne("void" + after) == Lexeme(Sym(WordVoid), 4)
    ensures ScanOne("bool" + after) == Lexeme(Sym(WordBool), 4)
    ensures ScanOne("struct" + after) == Lexeme(Sym(WordStruct), 6)
    ensures ScanOne("return" + after) == Lexeme(Sym(WordReturn), 6)
    ensures ScanOne("while" + after) == Lexeme(Sym(WordWhile), 5)
    ensures ScanOne("break" + after) == Lexeme(Sym(WordBreak), 5)
    ensures ScanOne("continue" + after) == Lexeme(Sym(WordContinue), 8)
    ensures ScanOne("if" + after) == Lexeme(Sym(WordIf), 2)
    ensures ScanOne("else if" + after) == Lexeme(Sym(WordElseIf), 7)
    ensures !(" if" <= after) ==> ScanOne("else" + after) == Lexeme(Sym(WordElse), 4)
    ensures ScanOne("ref" + after) == Lexeme(Sym(WordRef), 3)
    ensures ScanOne("const" + after) == Lexeme(Sym(WordConst), 5)
    ensures ScanOne("import" + after) == Lexeme(Sym(WordImport), 6)
  {
    hide ScanOne, Keyword;
    Words();
    WordRead(WordInt, "int", after);
    WordRead(WordFloat, "float", after);
    WordRead(WordVoid, "void", after);
    WordRead(WordBool, "bool", after);
    WordRead(WordStruct, "struct", after);
    WordRead(WordReturn, "return", after);
    WordRead(WordWhile, "while", after);
    WordRead(WordBreak, "break", after);
    WordRead(WordContinue, "continue", after);
    WordRead(WordIf, "if", after);
    WordRead(WordElseIf, "else if", after);
    WordRead(WordRef, "ref", after);
    WordRead(WordConst, "const", after);
    WordRead(WordImport, "import", after);
    if !(" if" <= after) {
      WordRead(WordElse, "else", after);
    }
  }

  lemma WordRead(k: Kind, w: string, after: string)
    requires Keyword(k) == Some(w) && (k == WordElse ==> !(" if" <= after))
    ensures ScanOne(w + after) == Lexeme(Sym(k), |w|)
  {
    hide ScanOne, Keyword;
    ScanKeyword(k, after);
  }

  lemma Words()
    ensures Keyword(WordInt) == Some("int")
    ensures Keyword(WordFloat) == Some("float")
    ensures Keyword(WordVoid) == Some("void")
    ensures Keyword(WordBool) == Some("bool")
    ensures Keyword(WordStruct) == Some("struct")
    ensures Keyword(WordReturn) == Some("return")
    ensures Keyword(WordWhile) == Some("while")
    ensures Keyword(WordBreak) == Some("break")
    ensures Keyword(WordContinue) == Some("continue")
    ensures Keyword(WordIf) == Some("if")
    ensures Keyword(WordElseIf) == Some("else if")
    ensures Keyword(WordElse) == Some("else")
    ensures Keyword(WordRef) == Some("ref")
    ensures Keyword(WordConst) == Some("const")
    ensures Keyword(WordImport) == Some("import")
  {
    hide Keyword;
    TypeWords();
    BlockWords();
    OtherWords();
  }

  lemma TypeWords()
    ensures Keyword(WordInt) == Some("int")
    ensures Keyword(WordFloat) == Some("float")
    ensures Keyword(WordVoid) == Some("void")
    ensures Keyword(WordBool) == Some("bool")
    ensures Keyword(WordStruct) == Some("struct")
  {
  }

  lemma BlockWords()
    ensures Keyword(WordReturn) == Some("return")
    ensures Keyword(WordWhile) == Some("while")
    ensures Keyword(WordBreak) == Some("break")
    ensures Keyword(WordContinue) == Some("continue")
    ensures Keyword(WordIf) == Some("if")
  {
  }

  lemma OtherWords()
    ensures Keyword(WordElseIf) == Some("else if")
    ensures Keyword(WordElse) == Some("else")
    ensures Keyword(WordRef) == Some("ref")
    ensures Keyword(WordConst) == Some("const")
    ensures Keyword(WordImport) == Some("import")
  {
  }

  /** The 21 symbols, each a token of its own whatever follows. */
  lemma SymbolsRead(after: string)
    ensures ScanOne("," + after) == Lexeme(Sym(Comma), 1) && ScanOne("." + after) == Lexeme(Sym(Dot), 1)
    ensures ScanOne(";" + after) == Lexeme(Sym(Semicolon), 1) && ScanOne("+" + after) == Lexeme(Sym(Plus), 1)
    ensures ScanOne("-" + after) == Lexeme(Sym(Minus), 1) && ScanOne("*" + after) == Lexeme(Sym(Asterisk), 1)
    ensures ScanOne("/" + after) == Lexeme(Sym(Slash), 1) && ScanOne("=" + after) == Lexeme(Sym(Equal), 1)
    ensures ScanOne("!" + after) == Lexeme(Sym(Exclam), 1) && ScanOne("(" + after) == Lexeme(Sym(LParen), 1)
    ensures ScanOne(")" + after) == Lexeme(Sym(RParen), 1) && ScanOne("{" + after) == Lexeme(Sym(LCurly), 1)
    ensures ScanOne("}" + after) == Lexeme(Sym(RCurly), 1) && ScanOne("[" + after) == Lexeme(Sym(LBrack), 1)
    ensures ScanOne("]" + after) == Lexeme(Sym(RBrack), 1) && ScanOne("%" + after) == Lexeme(Sym(Percent), 1)
    ensures ScanOne("&" + after) == Lexeme(Sym(Ampersand), 1) && ScanOne("|" + after) == Lexeme(Sym(Obelisk), 1)
    ensures ScanOne("^" + after) == Lexeme(Sym(Caret), 1) && ScanOne("<" + after) == Lexeme(Sym(LowerThan), 1)
    ensures ScanOne(">" + after) == Lexeme(Sym(GreaterThan), 1)
  {
    hide ScanOne, SymbolKind;
    Signs();
    Brackets();
    SymbolRead(',', Comma, after);
    SymbolRead('.', Dot, after);
    SymbolRead(';', Semicolon, after);
    SymbolRead('+', Plus, after);
    SymbolRead('-', Minus, after);
    SymbolRead('*', Asterisk, after);
    SymbolRead('/', Slash, after);
    SymbolRead('=', Equal, after);
    SymbolRead('!', Exclam, after);
    SymbolRead('(', LParen, after);
    SymbolRead(')', RParen, after);
    SymbolRead('{', LCurly, after);
    SymbolRead('}', RCurly, after);
    SymbolRead('[', LBrack, after);
    SymbolRead(']', RBrack, after);
    SymbolRead('%', Percent, after);
    SymbolRead('&', Ampersand, after);
    SymbolRead('|', Obelisk, after);
    SymbolRead('^', Caret, after);
    SymbolRead('<', LowerThan, after);
    SymbolRead('>', GreaterThan, after);
  }

  lemma Signs()
    ensures SymbolKind(',') == Some(Comma)
    ensures SymbolKind('.') == Some(Dot)
    ensures SymbolKind(';') == Some(Semicolon)
    ensures SymbolKind('+') == Some(Plus)
    ensures SymbolKind('-') == Some(Minus)
    ensures SymbolKind('*') == Some(Asterisk)
    ensures SymbolKind('/') == Some(Slash)
    ensures SymbolKind('=') == Some(Equal)
    ensures SymbolKind('!') == Some(Exclam)
    ensures SymbolKind('%') == Some(Percent)
    ensures SymbolKind('&') == Some(Ampersand)
    ensures SymbolKind('|') == Some(Obelisk)
    ensures SymbolKind('^') == Some(Caret)
    ensures SymbolKind('<') == Some(LowerThan)
    ensures SymbolKind('>') == Some(GreaterThan)
  {
  }

  lemma Brackets()
    ensures SymbolKind('(') == Some(LParen)
    ensures SymbolKind(')') == Some(RParen)
    ensures SymbolKind('{') == Some(LCurly)
    ensures SymbolKind('}') == Some(RCurly)
    ensures SymbolKind('[') == Some(LBrack)
    ensures SymbolKind(']') == Some(RBrack)
  {
  }

  lemma SymbolRead(c: char, k: Kind, after: string)
    requires SymbolKind(c) == Some(k)
    ensures ScanOne([c] + after) == Lexeme(Sym(k), 1)
  {
    hide Keyword, KEYWORDS, FirstKeyword, ScanTerm;
    assert ([c] + after)[0] == c;
  }

  // ----- characters

  predicate Letter(c: char) {
    'a' <= c <= 'z' || 'A' <= c <= 'Z' || c == '_'
  }

  predicate Figure(c: char) {
    '0' <= c <= '9'
  }

  /** The four blanks are skipped, and one of them ends a line. */
  lemma BlanksSkipped(s: string, line: nat)
    ensures Lex(" " + s, line) == Lex(s, line)
    ensures Lex("\t" + s, line) == Lex(s, line)
    ensures Lex("\r" + s, line) == Lex(s, line)
    ensures Lex("\n" + s, line) == Lex(s, line + 1)
  {
    hide ScanTerm, FirstKeyword, KEYWORDS;
    assert (" " + s)[1..] == ("\t" + s)[1..] == ("\r" + s)[1..] == ("\n" + s)[1..] == s;
  }

  /** A zero ends the text with the end marker, the byte -1 and the end of the text without. */
  lemma TextEnds(s: string, line: nat)
    ensures Lex("\0" + s, line) == Ok([Located(Sym(Eof), line)])
    ensures Lex("\U{FF}" + s, line) == Ok([]) && Lex("", line) == Ok([])
  {
    hide KEYWORDS;
    NoKeyword(KEYWORDS, "\0" + s);
  }

  /** Exactly these characters begin nothing. */
  lemma InvalidExactly(c: char, s: string)
    ensures ScanOne([c] + s) == Bad("Invalid character")
            <==> !Letter(c) && !Figure(c) && c !in " \t\r\n\0\U{FF}" && c !in ",.;+-*/=!(){}[]%&|^<>"
    ensures ScanOne([c] + s) == Bad("Invalid character")
            ==> forall line :: Lex([c] + s, line) == SyntaxError("Invalid character")
  {
    hide KEYWORDS, Numeral;
    NoKeywordAt(c, s);
    NumeralMessage([c] + s);
    hide FirstKeyword;
  }

  lemma NoKeywordAt(c: char, s: string)
    ensures !Letter(c) ==> FirstKeyword(KEYWORDS, [c] + s) == None
  {
    if !Letter(c) {
      NoKeyword(KEYWORDS, [c] + s);
    }
  }

  lemma NumeralMessage(s: string)
    requires s != ""
    ensures IsDigit(s[0]) ==> Numeral(s) != Bad("Invalid character") && Numeral(s) != Stop
  {
  }

  // ----- names and truth values

  /** The word begins with one of the fifteen words, `true` or `false`. */
  predicate Reserved(x: string) {
    || "int" <= x || "float" <= x || "void" <= x || "bool" <= x || "struct" <= x || "return" <= x || "while" <= x
    || "break" <= x || "continue" <= x || "if" <= x || "else" <= x || "ref" <= x || "const" <= x || "import" <= x
    || "true" <= x || "false" <= x
  }

  /** A word of letters, underscores and digits that does not begin with a digit, and is not
      continued by what follows, is a name if and only if it is not reserved. */
  lemma {:induction false} NamesRead(x: string, after: string)
    requires x != "" && Letter(x[0]) && forall k :: 0 <= k < |x| ==> Letter(x[k]) || Figure(x[k])
    requires after == "" || !(Letter(after[0]) || Figure(after[0]) || after[0] == '\0')
    ensures ScanOne(x + after) == Lexeme(Token(Ident, Str(x)), |x|) <==> !Reserved(x)
  {
    hide ScanOne, FirstKeyword, KEYWORDS, Reserved;
    NameReadExactly(x, after);
    FirstKeywordNone(KEYWORDS, x);
    ReservedExactly(x);
  }

  lemma ReservedExactly(x: string)
    ensures Reserved(x) <==> Starts(x, "true") || Starts(x, "false") || exists k :: k in KEYWORDS && BeginsWith(k, x)
  {
    hide Keyword, BeginsWith;
    Words();
    ElseIfIsElse(x);
    AnyKeyword(x);
    hide KEYWORDS;
    Begins(WordInt, "int", x);
    Begins(WordFloat, "float", x);
    Begins(WordVoid, "void", x);
    Begins(WordBool, "bool", x);
    Begins(WordStruct, "struct", x);
    Begins(WordReturn, "return", x);
    Begins(WordWhile, "while", x);
    Begins(WordBreak, "break", x);
    Begins(WordContinue, "continue", x);
    Begins(WordIf, "if", x);
    Begins(WordElseIf, "else if", x);
    Begins(WordElse, "else", x);
    Begins(WordRef, "ref", x);
    Begins(WordConst, "const", x);
    Begins(WordImport, "import", x);
  }

  lemma Begins(k: Kind, w: string, x: string)
    requires Keyword(k) == Some(w)
    ensures BeginsWith(k, x) <==> w <= x
  {
    hide Keyword;
  }

  lemma AnyKeyword(x: string)
    ensures (exists k :: k in KEYWORDS && BeginsWith(k, x)) <==>
            || BeginsWith(WordInt, x) || BeginsWith(WordFloat, x) || BeginsWith(WordVoid, x) || BeginsWith(WordBool, x)
            || BeginsWith(WordStruct, x) || BeginsWith(WordReturn, x) || BeginsWith(WordWhile, x)
            || BeginsWith(WordBreak, x) || BeginsWith(WordContinue, x) || BeginsWith(WordElseIf, x)
            || BeginsWith(WordIf, x) || BeginsWith(WordElse, x) || BeginsWith(WordRef, x) || BeginsWith(WordConst, x)
            || BeginsWith(WordImport, x)
  {
    hide BeginsWith;
  }

  lemma ElseIfIsElse(x: string)
    ensures "else if" <= x ==> "else" <= x
  {
    assert "else" <= "else if";
  }

  lemma BoolsRead(after: string)
    ensures ScanOne("true" + after) == Lexeme(Token(LitBool, Bool(true)), 4)
    ensures ScanOne("false" + after) == Lexeme(Token(LitBool, Bool(false)), 5)
  {
    hide ScanOne;
    ScanBool(true, after);
    ScanBool(false, after);
  }

  // ----- numerals

  function Figures(n: nat): (s: string)
    ensures |s| > 0 && forall k :: 0 <= k < |s| ==> Figure(s[k])
  {
    if n < 10 then ["0123456789"[n]] else Figures(n / 10) + ["0123456789"[n % 10]]
  }

  /** A number in decimal notation, zeros in front or not, that is not continued by a digit
      or a dot, is the number, cut off at the greatest of 32 bits. */
  lemma {:induction false} NumbersRead(zeros: string, n: nat, after: string)
    requires forall k :: 0 <= k < |zeros| ==> zeros[k] == '0'
    requires after == "" || (!Figure(after[0]) && after[0] != '.')
    ensures ScanOne(zeros + Figures(n) + after)
            == Lexeme(Token(LitInt, Int(if n <= 2147483647 then n else 2147483647)), |zeros| + |Figures(n)|)
  {
    hide ScanOne;
    var w := zeros + Figures(n);
    var s := w + after;
    assert s[0] == w[0];
    DigitsRun(w, after);
    assert Peek(s, |w|) == Peek(after, 0) && s[..|w|] == w;
    SameFigures(n);
    DecimalOfString(n);
    ZerosInFront(zeros, Figures(n));
    DigitStart(s);
  }

  lemma {:induction false} ZerosInFront(zeros: string, w: string)
    requires forall k :: 0 <= k < |zeros| ==> zeros[k] == '0'
    ensures Decimal(zeros + w) == Decimal(w)
    decreases |zeros| + |w|
  {
    var s := zeros + w;
    if w != "" {
      assert s[..|s| - 1] == zeros + w[..|w| - 1];
      ZerosInFront(zeros, w[..|w| - 1]);
    } else if zeros != "" {
      assert s[..|s| - 1] == zeros[..|zeros| - 1] + "";
      ZerosInFront(zeros[..|zeros| - 1], "");
    }
  }

  lemma {:induction false} SameFigures(n: nat)
    ensures Figures(n) == DecimalString(n)
  {
    if n >= 10 {
      SameFigures(n / 10);
    }
  }

  /** Digits, a dot, any one character and more digits are a float if no second dot follows,
      and refused if one does. */
  lemma {:induction false} FloatsRead(a: string, c: char, b: string, after: string)
    requires a != "" && forall k :: 0 <= k < |a| ==> Figure(a[k])
    requires forall k :: 0 <= k < |b| ==> Figure(b[k])
    requires after == "" || !Figure(after[0])
    ensures var w := a + "." + [c] + b;
            ScanOne(w + after) == if "." <= after then Bad("Invalid decimal point.")
                                  else Lexeme(Token(LitFloat, Float(w)), |w|)
  {
    hide ScanOne, Numeral;
    var w := a + "." + [c] + b;
    var s, k := w + after, |a|;
    assert s == a + ("." + [c] + b + after);
    DigitsRun(a, "." + [c] + b + after);
    assert s[k + 2..] == b + after;
    DigitsRun(b, after);
    assert s[0] == a[0] && s[k] == '.' && s[..|w|] == w;
    DigitStart(s);
    assert Peek(s, |w|) == Peek(after, 0);
    DotThenDigits(s, k, |w|);
  }

  lemma DotThenDigits(s: string, n: nat, k: nat)
    requires s != "" && IsDigit(s[0]) && n == DigitCount(s) && n + 2 <= k <= |s| && s[n] == '.'
    requires DigitCount(s[n + 2..]) == k - (n + 2)
    ensures Numeral(s) == if Peek(s, k) == '.' then Bad("Invalid decimal point.")
                          else Lexeme(Token(LitFloat, Float(s[..k])), k)
  {
  }
}
