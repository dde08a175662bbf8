/** The main results about the lexer: it inverts writing, and whatever it accepts it
    has read completely and in order. */
module LexerTheorems {
  import opened Outcomes
  import opened Tokens
  import opened LexerSpec

  // ----- writing tokens

  function DecimalString(n: nat): (s: string)
    ensures |s| > 0 && forall k :: 0 <= k < |s| ==> IsDigit(s[k])
  {
    if n < 10 then [WORD_DIGIT[n]] else DecimalString(n / 10) + [WORD_DIGIT[n % 10]]
  }

  function SymbolChar(k: Kind): Option<char> {
    match k
    case Comma => Some(',')
    case Dot => Some('.')
    case Semicolon => Some(';')
    case Plus => Some('+')
    case Minus => Some('-')
    case Asterisk => Some('*')
    case Slash => Some('/')
    case Equal => Some('=')
    case Exclam => Some('!')
    case LParen => Some('(')
    case RParen => Some(')')
    case LCurly => Some('{')
    case RCurly => Some('}')
    case LBrack => Some('[')
    case RBrack => Some(']')
    case Percent => Some('%')
    case Ampersand => Some('&')
    case Obelisk => Some('|')
    case Caret => Some('^')
    case LowerThan => Some('<')
    case GreaterThan => Some('>')
    case _ => None
  }

  function Spelling(t: Token): string {
    if SymbolChar(t.kind).Some? then [SymbolChar(t.kind).value]
    else if Keyword(t.kind).Some? then Keyword(t.kind).value
    else
      match t.value
      case Int(v) => if v >= 0 then DecimalString(v) else ""
      case Bool(b) => if b then "true" else "false"
      case Float(s) => s
      case Str(s) => s
      case NoValue => ""
  }

  /** A name that begins with no keyword and with neither `true` nor `false`: there is
      no word boundary. */
  predicate AdmissibleName(x: string) {
    && x != "" && IsAlpha(x[0])
    && (forall k :: 0 <= k < |x| ==> IsAlpha(x[k]) || IsDigit(x[k]))
    && FirstKeyword(KEYWORDS, x) == None
    && !Starts(x, "true") && !Starts(x, "false")
  }

  /** Digits, a dot, one more character, digits. */
  predicate AdmissibleFloat(s: string) {
    var n := DigitCount(s);
    0 < n && n + 2 <= |s| && s[n] == '.' && n + 2 + DigitCount(s[n + 2..]) == |s|
  }

  /** The tokens that can be written: no string literals and no end marker. */
  predicate Admissible(t: Token) {
    match t.kind
    case Ident => t.value.Str? && AdmissibleName(t.value.s)
    case LitInt => t.value.Int? && 0 <= t.value.i <= INT_MAX
    case LitFloat => t.value.Float? && AdmissibleFloat(t.value.spelling)
    case LitBool => t.value.Bool?
    case LitString => false
    case Eof => false
    case _ => t.value == NoValue
  }

  /** A token and the blanks behind it. */
  datatype Item = Item(token: Token, gap: string)

  predicate BlankString(s: string) {
    forall k :: 0 <= k < |s| ==> IsBlank(s[k])
  }

  function Render(items: seq<Item>): string {
    if items == [] then "" else Spelling(items[0].token) + (items[0].gap + Render(items[1..]))
  }

  /** What follows a token does not change how it is read. Only names, numerals and
      `else` can be continued. */
  predicate Apart(t: Token, after: string) {
    match t.kind
    case Ident => !IsNameChar(Peek(after, 0))
    case LitInt => !IsDigit(Peek(after, 0)) && Peek(after, 0) != '.'
    case LitFloat => !IsDigit(Peek(after, 0)) && Peek(after, 0) != '.'
    case WordElse => !Starts(after, " if")
    case _ => true
  }

  predicate Separated(items: seq<Item>, end: string) {
    items == []
    || (&& Admissible(items[0].token) && BlankString(items[0].gap)
        && Apart(items[0].token, items[0].gap + (Render(items[1..]) + end))
        && Separated(items[1..], end))
  }

  function NewLines(s: string): nat {
    if s == "" then 0 else (if s[0] == '\n' then 1 else 0) + NewLines(s[1..])
  }

  /** The tokens of `items`, each with the line it is on when only gaps break lines. */
  function Places(items: seq<Item>, line: nat): seq<Located> {
    if items == [] then []
    else [Located(items[0].token, line)] + Places(items[1..], line + NewLines(items[0].gap))
  }

  function GapLines(items: seq<Item>): nat {
    if items == [] then 0 else NewLines(items[0].gap) + GapLines(items[1..])
  }

  // ----- reading one token back

  lemma {:induction false} DigitsRun(a: string, b: string)
    requires (forall k :: 0 <= k < |a| ==> IsDigit(a[k])) && !IsDigit(Peek(b, 0))
    ensures DigitCount(a + b) == |a|
  {
    if a == "" {
      assert a + b == b;
    } else {
      assert (a + b)[1..] == a[1..] + b;
      DigitsRun(a[1..], b);
    }
  }

  lemma {:induction false} NameRun(a: string, b: string)
    requires (forall k :: 0 <= k < |a| ==> IsNameChar(a[k])) && !IsNameChar(Peek(b, 0))
    ensures NameCount(a + b) == |a|
  {
    if a == "" {
      assert a + b == b;
    } else {
      assert (a + b)[1..] == a[1..] + b;
      NameRun(a[1..], b);
    }
  }

  lemma {:induction false} DigitCountIsRun(s: string)
    ensures forall k :: 0 <= k < DigitCount(s) ==> IsDigit(s[k])
    ensures !IsDigit(Peek(s, DigitCount(s)))
  {
    if s != "" && IsDigit(s[0]) {
      DigitCountIsRun(s[1..]);
      forall k | 0 <= k < DigitCount(s) ensures IsDigit(s[k]) {
        if k > 0 {
          assert s[k] == s[1..][k - 1];
        }
      }
    }
  }

  lemma {:induction false} CStringOfName(x: string)
    requires forall k :: 0 <= k < |x| ==> x[k] != NUL
    ensures CString(x) == x
  {
    if x != "" {
      CStringOfName(x[1..]);
    }
  }

  lemma {:induction false} DecimalOfString(n: nat)
    ensures Decimal(DecimalString(n)) == n
  {
    var s := DecimalString(n);
    if n < 10 {
      assert s[..0] == "";
    } else {
      DecimalOfString(n / 10);
      assert s[..|s| - 1] == DecimalString(n / 10);
    }
    assert forall d :: 0 <= d < 10 ==> WORD_DIGIT[d] as int - '0' as int == d;
  }

  lemma ScanInt(v: nat, after: string)
    requires v <= INT_MAX && Apart(Token(LitInt, Int(v)), after)
    ensures ScanOne(DecimalString(v) + after) == Lexeme(Token(LitInt, Int(v)), |DecimalString(v)|)
  {
    var w := DecimalString(v);
    var s := w + after;
    assert s[0] == w[0];
    DigitsRun(w, after);
    assert Peek(s, |w|) == Peek(after, 0) && s[..|w|] == w;
    DecimalOfString(v);
    DigitStart(s);
  }

  lemma ScanFloat(w: string, after: string)
    requires AdmissibleFloat(w) && Apart(Token(LitFloat, Float(w)), after)
    ensures ScanOne(w + after) == Lexeme(Token(LitFloat, Float(w)), |w|)
  {
    hide ScanOne, Numeral;
    var s := w + after;
    var n := DigitCount(w);
    DigitCountIsRun(w);
    FloatRuns(w, after, n);
    assert s[0] == w[..n][0];
    assert Peek(s, |w|) == Peek(after, 0) && s[..|w|] == w;
    DigitStart(s);
    FloatNumeral(s, n, |w|);
  }

  lemma FloatRuns(w: string, after: string, n: nat)
    requires n == DigitCount(w) && n + 2 <= |w| && w[n] == '.' && n + 2 + DigitCount(w[n + 2..]) == |w|
    requires !IsDigit(Peek(after, 0))
    ensures DigitCount(w + after) == n && DigitCount((w + after)[n + 2..]) == |w| - (n + 2) && (w + after)[n] == '.'
  {
    hide DigitCount;
    FirstRun(w, after, n);
    DigitCountIsRun(w[n + 2..]);
    DigitsRun(w[n + 2..], after);
    assert w[n + 2..] + after == (w + after)[n + 2..];
  }

  lemma FirstRun(w: string, after: string, n: nat)
    requires n == DigitCount(w) && n < |w|
    ensures DigitCount(w + after) == n
  {
    hide DigitCount;
    DigitCountIsRun(w);
    DigitsRun(w[..n], w[n..] + after);
    assert w[..n] + (w[n..] + after) == w + after;
  }

  lemma FloatNumeral(s: string, n: nat, k: nat)
    requires s != "" && IsDigit(s[0]) && n == DigitCount(s) && n + 2 <= k <= |s| && s[n] == '.'
    requires DigitCount(s[n + 2..]) == k - (n + 2) && Peek(s, k) != '.'
    ensures Numeral(s) == Lexeme(Token(LitFloat, Float(s[..k])), k)
  {
  }

  /** A text that begins with a digit is a numeral. */
  lemma DigitStart(s: string)
    requires s != "" && IsDigit(s[0])
    ensures ScanOne(s) == Numeral(s)
  {
    NoKeyword(KEYWORDS, s);
  }

  lemma {:induction false} NoKeyword(ks: seq<Kind>, s: string)
    requires s != "" && !IsAlpha(s[0])
    ensures FirstKeyword(ks, s) == None
  {
    if ks != [] {
      NoKeyword(ks[1..], s);
    }
  }

  predicate BeginsWith(k: Kind, s: string) {
    Keyword(k).Some? && Starts(s, Keyword(k).value)
  }

  lemma {:induction false} FirstKeywordNone(ks: seq<Kind>, s: string)
    ensures FirstKeyword(ks, s) == None <==> forall k :: k in ks ==> !BeginsWith(k, s)
  {
    if ks != [] {
      FirstKeywordNone(ks[1..], s);
      assert ks == [ks[0]] + ks[1..];
    }
  }

  /** All characters of a keyword are letters, but for the blank in `else if`. */
  lemma KeywordLetters(k: Kind, n: nat)
    requires Keyword(k).Some? && n < |Keyword(k).value|
    ensures IsAlpha(Keyword(k).value[n]) || (k == WordElseIf && n == 4)
  {
  }

  lemma NameIsNoKeyword(x: string, after: string)
    requires FirstKeyword(KEYWORDS, x) == None && !IsNameChar(Peek(after, 0))
    ensures FirstKeyword(KEYWORDS, x + after) == None
    ensures !Starts(x, "true") ==> !Starts(x + after, "true")
    ensures !Starts(x, "false") ==> !Starts(x + after, "false")
  {
    ElseIsTried();
    NotLonger("true", x, after);
    NotLonger("false", x, after);
    hide KEYWORDS, Keyword, FirstKeyword;
    FirstKeywordNone(KEYWORDS, x);
    FirstKeywordNone(KEYWORDS, x + after);
    forall k | k in KEYWORDS ensures !BeginsWith(k, x + after) {
      NotThisKeyword(k, x, after);
    }
  }

  lemma ElseIsTried()
    ensures WordElse in KEYWORDS
  {
    assert KEYWORDS[11] == WordElse;
  }

  lemma NotThisKeyword(k: Kind, x: string, after: string)
    requires !BeginsWith(k, x) && !BeginsWith(WordElse, x) && !IsNameChar(Peek(after, 0))
    ensures !BeginsWith(k, x + after)
  {
    if Keyword(k).Some? {
      var w := Keyword(k).value;
      ElsePrefix(x);
      NotLonger(w, x, after);
      if |x| < |w| {
        KeywordLetters(k, |x|);
      }
      assert k == WordElseIf ==> w == "else if";
      hide Keyword;
    }
  }

  lemma ElsePrefix(x: string)
    ensures |x| == 4 && Starts("else if", x) ==> BeginsWith(WordElse, x)
  {
    if |x| == 4 && Starts("else if", x) {
      assert x == "else if"[..4] == "else";
    }
  }

  /** A word that the text begins with but the name does not reaches behind the name. */
  lemma NotLonger(w: string, x: string, after: string)
    ensures Starts(x + after, w) && !Starts(x, w) ==> |x| < |w| && Peek(after, 0) == w[|x|] && Starts(w, x)
  {
    if Starts(x + after, w) {
      assert forall k :: 0 <= k < |w| ==> w[k] == (x + after)[k];
    }
  }

  lemma ScanName(x: string, after: string)
    requires AdmissibleName(x) && !IsNameChar(Peek(after, 0))
    ensures ScanOne(x + after) == Lexeme(Token(Ident, Str(x)), |x|)
  {
    hide ScanOne, FirstKeyword, NameCount, CString;
    var s := x + after;
    assert s[0] == x[0];
    NameIsNoKeyword(x, after);
    NameRun(x, after);
    assert s[..|x|] == x;
    CStringOfName(x);
    NameStart(s);
  }

  /** Names, exactly: a word of letters and digits that begins with a letter and is not
      continued by what follows is read as the name it is if and only if it begins with no
      keyword and with neither `true` nor `false`. */
  lemma {:induction false} NameReadExactly(x: string, after: string)
    requires x != "" && IsAlpha(x[0]) && forall k :: 0 <= k < |x| ==> IsAlpha(x[k]) || IsDigit(x[k])
    requires !IsNameChar(Peek(after, 0))
    ensures ScanOne(x + after) == Lexeme(Token(Ident, Str(x)), |x|) <==> AdmissibleName(x)
  {
    hide ScanOne, FirstKeyword, KEYWORDS, Keyword;
    if AdmissibleName(x) {
      ScanName(x, after);
    } else {
      var s := x + after;
      assert s[0] == x[0];
      FirstKeywordNone(KEYWORDS, x);
      FirstKeywordNone(KEYWORDS, s);
      StillStarts(x, after);
      if FirstKeyword(KEYWORDS, s).Some? {
        KeywordStart(s, FirstKeyword(KEYWORDS, s).value);
        KeywordIsNoName(FirstKeyword(KEYWORDS, s).value);
      } else {
        BoolStart(Starts(x, "true"), s);
      }
    }
  }

  lemma StillStarts(x: string, after: string)
    ensures forall w :: Starts(x, w) ==> Starts(x + after, w)
    ensures forall k :: BeginsWith(k, x) ==> BeginsWith(k, x + after)
  {
    forall w | Starts(x, w) ensures Starts(x + after, w) {
    }
  }

  lemma KeywordIsNoName(k: Kind)
    requires Keyword(k).Some?
    ensures k != Ident
  {
  }

  /** A text that begins with a letter but with no keyword is a name. */
  lemma NameStart(s: string)
    requires s != "" && IsAlpha(s[0]) && FirstKeyword(KEYWORDS, s) == None && !Starts(s, "true") && !Starts(s, "false")
    ensures ScanOne(s) == Lexeme(Token(Ident, Str(CString(s[..NameCount(s)]))), NameCount(s))
  {
    hide FirstKeyword, KEYWORDS, CString, Keyword, NameCount, Numeral;
    LetterIsNoSymbol(s[0]);
    hide SymbolKind;
  }

  lemma LetterIsNoSymbol(c: char)
    requires IsAlpha(c)
    ensures SymbolKind(c) == None && !IsBlank(c) && c != END_MARK && !IsDigit(c)
  {
  }

  lemma ScanBool(b: bool, after: string)
    ensures ScanOne((if b then "true" else "false") + after) == Lexeme(Token(LitBool, Bool(b)), if b then 4 else 5)
  {
    hide FirstKeyword, KEYWORDS, Keyword, BeginsWith, Numeral, NameCount, CString;
    var w := if b then "true" else "false";
    var s := w + after;
    assert s[..|w|] == w && s[0] == w[0] && s[1] == w[1];
    FirstKeywordNone(KEYWORDS, s);
    forall k | k in KEYWORDS ensures !BeginsWith(k, s) {
      if BeginsWith(k, s) {
        SecondLetter(k, s);
      }
    }
    BoolStart(b, s);
  }

  lemma BoolStart(b: bool, s: string)
    requires Starts(s, if b then "true" else "false") && FirstKeyword(KEYWORDS, s) == None
    ensures ScanOne(s) == Lexeme(Token(LitBool, Bool(b)), if b then 4 else 5)
  {
    hide FirstKeyword, KEYWORDS, Keyword, Numeral, NameCount, CString;
    assert s[0] == if b then 't' else 'f';
  }

  lemma SecondLetter(k: Kind, s: string)
    requires BeginsWith(k, s)
    ensures s[0] != 't' && (s[0] == 'f' ==> s[1] == 'l')
  {
    assert s[0] == Keyword(k).value[0] && s[1] == Keyword(k).value[1];
  }

  lemma ScanSymbol(k: Kind, after: string)
    requires SymbolChar(k).Some?
    ensures ScanOne([SymbolChar(k).value] + after) == Lexeme(Sym(k), 1)
  {
    hide Keyword, KEYWORDS, FirstKeyword, ScanTerm;
    SymbolIsKind(k);
    hide SymbolChar, SymbolKind;
    assert ([SymbolChar(k).value] + after)[0] == SymbolChar(k).value;
  }

  lemma SymbolIsKind(k: Kind)
    requires SymbolChar(k).Some?
    ensures var c := SymbolChar(k).value; SymbolKind(c) == Some(k) && c != END_MARK && !IsBlank(c)
  {
  }

  /** Two keywords differ in one of their first four letters, but for `else` and
      `else if`. */
  lemma KeywordsDiffer(k: Kind, k': Kind)
    requires Keyword(k).Some? && Keyword(k').Some? && k != k'
    requires !(k == WordElse && k' == WordElseIf) && !(k == WordElseIf && k' == WordElse)
    ensures var w, w' := Keyword(k).value, Keyword(k').value;
            || w[0] != w'[0] || w[1] != w'[1]
            || (|w| > 2 && |w'| > 2 && w[2] != w'[2])
            || (|w| > 3 && |w'| > 3 && w[2] == w'[2] && w[3] != w'[3])
  {
  }

  lemma OtherKeyword(k: Kind, k': Kind, after: string)
    requires Keyword(k).Some? && k != k' && BeginsWith(k', Keyword(k).value + after)
    ensures (k == WordElse && k' == WordElseIf) || (k == WordElseIf && k' == WordElse)
  {
    var w, w' := Keyword(k).value, Keyword(k').value;
    assert forall n :: 0 <= n < |w'| ==> w'[n] == (w + after)[n];
    if !(k == WordElse && k' == WordElseIf) && !(k == WordElseIf && k' == WordElse) {
      KeywordsDiffer(k, k');
    }
  }

  lemma {:induction false} FirstKeywordIs(ks: seq<Kind>, m: nat, s: string)
    requires m < |ks| && BeginsWith(ks[m], s)
    requires forall l :: 0 <= l < m ==> !BeginsWith(ks[l], s)
    ensures FirstKeyword(ks, s) == Some(ks[m])
  {
    if m > 0 {
      assert ks[0] == ks[0] && !BeginsWith(ks[0], s);
      FirstKeywordIs(ks[1..], m - 1, s);
    }
  }

  lemma ElseThenIf(after: string)
    ensures BeginsWith(WordElseIf, "else" + after) ==> Starts(after, " if")
  {
    if BeginsWith(WordElseIf, "else" + after) {
      var s := "else" + after;
      assert s[4] == "else if"[4] && s[5] == "else if"[5] && s[6] == "else if"[6];
      assert s[4] == after[0] && s[5] == after[1] && s[6] == after[2];
      assert after[0] == ' ' && after[1] == 'i' && after[2] == 'f';
      assert after[..3] == " if";
    }
  }

  /** Place of a keyword in the order of trial: `else if` comes before `else`. */
  lemma KeywordOrder(k: Kind) returns (m: nat)
    requires Keyword(k).Some?
    ensures m < |KEYWORDS| && KEYWORDS[m] == k
    ensures forall l :: 0 <= l < m ==> KEYWORDS[l] != k
    ensures k == WordElseIf ==> forall l :: 0 <= l < m ==> KEYWORDS[l] != WordElse
  {
    m := match k
      case WordInt => 0 case WordFloat => 1 case WordVoid => 2 case WordBool => 3 case WordStruct => 4
      case WordReturn => 5 case WordWhile => 6 case WordBreak => 7 case WordContinue => 8 case WordElseIf => 9
      case WordIf => 10 case WordElse => 11 case WordRef => 12 case WordConst => 13 case WordImport => 14;
  }

  lemma KeywordFound(k: Kind, after: string)
    requires Keyword(k).Some? && (k == WordElse ==> !Starts(after, " if"))
    ensures FirstKeyword(KEYWORDS, Keyword(k).value + after) == Some(k)
  {
    var m := KeywordOrder(k);
    assert k == WordElse ==> Keyword(k).value == "else";
    ElseThenIf(after);
    hide KEYWORDS, Keyword;
    var s := Keyword(k).value + after;
    forall l | 0 <= l < m ensures !BeginsWith(KEYWORDS[l], s) {
      if BeginsWith(KEYWORDS[l], s) {
        OtherKeyword(k, KEYWORDS[l], after);
      }
    }
    FirstKeywordIs(KEYWORDS, m, s);
  }

  lemma ScanKeyword(k: Kind, after: string)
    requires Keyword(k).Some? && (k == WordElse ==> !Starts(after, " if"))
    ensures ScanOne(Keyword(k).value + after) == Lexeme(Sym(k), |Keyword(k).value|)
  {
    hide ScanOne, Keyword, KEYWORDS, FirstKeyword;
    KeywordFound(k, after);
    var s := Keyword(k).value + after;
    assert s[0] == Keyword(k).value[0];
    KeywordStart(s, k);
  }

  /** A text that begins with a letter and with a keyword is that keyword. */
  lemma KeywordStart(s: string, k: Kind)
    requires s != "" && IsAlpha(s[0]) && FirstKeyword(KEYWORDS, s) == Some(k)
    ensures ScanOne(s) == Lexeme(Sym(k), |Keyword(k).value|)
  {
    hide FirstKeyword, KEYWORDS, Keyword;
  }

  /** Reading back one written token. */
  lemma ScanWritten(t: Token, after: string)
    requires Admissible(t) && Apart(t, after)
    ensures Spelling(t) != "" && ScanOne(Spelling(t) + after) == Lexeme(t, |Spelling(t)|)
  {
    hide ScanOne;
    match t.kind
    case Ident => ScanName(t.value.s, after);
    case LitInt => ScanInt(t.value.i, after);
    case LitFloat => ScanFloat(t.value.spelling, after);
    case LitBool => ScanBool(t.value.b, after);
    case _ =>
      if SymbolChar(t.kind).Some? {
        ScanSymbol(t.kind, after);
      } else {
        ScanKeyword(t.kind, after);
      }
  }

  // ----- round trip

  lemma {:induction false} LexBlanks(gap: string, s: string, line: nat)
    requires BlankString(gap)
    ensures Lex(gap + s, line) == Lex(s, line + NewLines(gap))
  {
    if gap == "" {
      assert gap + s == s;
    } else {
      var t := gap + s;
      assert t[0] == gap[0] && t[1..] == gap[1..] + s;
      assert ScanOne(t) == Blank;
      LexBlanks(gap[1..], s, LineAfter(line, gap[0]));
    }
  }

  function Prepend(ts: seq<Located>, r: Result<seq<Located>>): Result<seq<Located>> {
    if r.Ok? then Ok(ts + r.value) else r
  }

  lemma LexOne(w: string, after: string, t: Token, line: nat)
    requires w != "" && ScanOne(w + after) == Lexeme(t, |w|)
    ensures Lex(w + after, line) == Prepend([Located(t, line)], Lex(after, line))
  {
    hide ScanOne;
    assert (w + after)[|w|..] == after;
  }

  lemma {:induction false} LexItems(items: seq<Item>, end: string, line: nat)
    requires Separated(items, end)
    ensures Lex(Render(items) + end, line) == Prepend(Places(items, line), Lex(end, line + GapLines(items)))
  {
    hide Lex, ScanOne, Admissible, Apart, Spelling;
    if items == [] {
      assert Render(items) + end == end;
      PrependNone(Lex(end, line));
    } else {
      var t, gap := items[0].token, items[0].gap;
      var rest := Render(items[1..]) + end;
      assert Render(items) + end == Spelling(t) + (gap + rest);
      ScanWritten(t, gap + rest);
      LexOne(Spelling(t), gap + rest, t, line);
      LexBlanks(gap, rest, line);
      LexItems(items[1..], end, line + NewLines(gap));
      PrependTwice([Located(t, line)], Places(items[1..], line + NewLines(gap)), Lex(end, line + GapLines(items)));
    }
  }

  lemma PrependNone(r: Result<seq<Located>>)
    ensures Prepend([], r) == r
  {
    if r.Ok? {
      assert [] + r.value == r.value;
    }
  }

  lemma PrependTwice(a: seq<Located>, b: seq<Located>, r: Result<seq<Located>>)
    ensures Prepend(a, Prepend(b, r)) == Prepend(a + b, r)
  {
    if r.Ok? {
      assert a + (b + r.value) == (a + b) + r.value;
    }
  }

  /** The tokens of a written text with their lines, and the end marker. */
  function Written(lead: string, items: seq<Item>): seq<Located> {
    Places(items, 1 + NewLines(lead)) + [Located(Sym(Eof), 1 + NewLines(lead) + GapLines(items))]
  }

  /** Lexer round trip: write any admissible tokens, each kept apart from what follows,
      with any blanks before, between and behind them and a closing zero; lexing gives
      back exactly these tokens, each with the line it was written on, and one end marker. */
  lemma {:induction false} LexRoundTrip(lead: string, items: seq<Item>)
    requires BlankString(lead) && Separated(items, [NUL])
    ensures Lex(lead + (Render(items) + [NUL]), 1) == Ok(Written(lead, items))
  {
    hide Lex, Separated;
    LexBlanks(lead, Render(items) + [NUL], 1);
    LexItems(items, [NUL], 1 + NewLines(lead));
    EndIsEof(1 + NewLines(lead) + GapLines(items));
  }

  lemma EndIsEof(line: nat)
    ensures Lex([NUL], line) == Ok([Located(Sym(Eof), line)])
  {
    NoKeyword(KEYWORDS, [NUL]);
    hide FirstKeyword, KEYWORDS, Keyword, SymbolKind;
    NulIsNoSymbol();
    assert ScanOne([NUL]) == Finish;
  }

  lemma NulIsNoSymbol()
    ensures SymbolKind(NUL) == None
  {
  }

  /** The condition on names is needed at the end of the text too: a name directly
      before the closing zero takes the zero with it, and no end marker is produced. */
  lemma {:induction false} NameSwallowsTerminator(x: string, line: nat)
    requires AdmissibleName(x)
    ensures Lex(x + [NUL], line) == Ok([Located(Name(x), line)])
  {
    hide ScanOne, FirstKeyword, NameCount, CString;
    var s := x + [NUL];
    assert s[0] == x[0];
    assert FirstKeyword(KEYWORDS, s) == None && !Starts(s, "true") && !Starts(s, "false") by {
      ZeroEndsKeywords(x);
    }
    NameRun(s, "");
    assert s + "" == s;
    CStringStops(x);
    NameStart(s);
    assert s[..|s|] == s;
    LexOne(s, "", Name(x), line);
    assert Lex("", line) == Ok([]);
    assert [Located(Name(x), line)] + [] == [Located(Name(x), line)];
  }

  lemma ZeroEndsKeywords(x: string)
    requires FirstKeyword(KEYWORDS, x) == None && !Starts(x, "true") && !Starts(x, "false")
    ensures FirstKeyword(KEYWORDS, x + [NUL]) == None && !Starts(x + [NUL], "true") && !Starts(x + [NUL], "false")
  {
    FirstKeywordNone(KEYWORDS, x);
    FirstKeywordNone(KEYWORDS, x + [NUL]);
    hide KEYWORDS;
    forall k | k in KEYWORDS ensures !BeginsWith(k, x + [NUL]) {
      if Keyword(k).Some? {
        NotLonger(Keyword(k).value, x, [NUL]);
        if |x| < |Keyword(k).value| {
          KeywordLetters(k, |x|);
        }
        hide Keyword;
      }
    }
    NotLonger("true", x, [NUL]);
    NotLonger("false", x, [NUL]);
  }

  lemma {:induction false} CStringStops(x: string)
    requires forall k :: 0 <= k < |x| ==> x[k] != NUL
    ensures CString(x + [NUL]) == x
  {
    if x == "" {
      assert x + [NUL] == [NUL];
    } else {
      assert (x + [NUL])[1..] == x[1..] + [NUL];
      CStringStops(x[1..]);
    }
  }

  // ----- the end of the text

  predicate EndsInName(items: seq<Item>) {
    |items| > 0 && items[|items| - 1].token.kind == Ident && items[|items| - 1].gap == ""
  }

  /** Every token is apart from what follows it inside the text. */
  predicate SeparatedWithin(items: seq<Item>) {
    Separated(items, "\n")
  }

  lemma {:induction false} ZeroSeparates(items: seq<Item>)
    requires SeparatedWithin(items) && !EndsInName(items)
    ensures Separated(items, [NUL])
  {
    hide Apart, Admissible, Spelling;
    if items != [] {
      assert |items| > 1 ==> items[1..][|items[1..]| - 1] == items[|items| - 1];
      ZeroSeparates(items[1..]);
      if |items| > 1 {
        RenderedIsSome(items[1..], "\n");
      }
      EndChoice(items[0].token, items[0].gap, Render(items[1..]), "\n", [NUL]);
    }
  }

  lemma RenderedIsSome(items: seq<Item>, end: string)
    requires items != [] && Separated(items, end)
    ensures Render(items) != ""
  {
    ScanWritten(items[0].token, items[0].gap + (Render(items[1..]) + end));
  }

  /** One character behind a token's surroundings is as good as another. */
  lemma EndChoice(t: Token, gap: string, text: string, end: string, end': string)
    requires Apart(t, gap + (text + end)) && |end| == 1 && end' == [NUL]
    requires gap + text == "" ==> t.kind != Ident
    ensures Apart(t, gap + (text + end'))
  {
    var a, a' := gap + (text + end), gap + (text + end');
    if gap + text != "" {
      assert a[0] == a'[0];
      if Starts(a', " if") {
        assert a'[0] == ' ' && a'[1] == 'i' && a'[2] == 'f';
        assert |gap + text| >= 3 && a[..3] == a'[..3];
      }
    } else {
      assert a' == end';
    }
  }

  lemma {:induction false} NameAtEnd(items: seq<Item>, x: string)
    requires SeparatedWithin(items + [Item(Name(x), "")])
    ensures Separated(items, x + [NUL])
    ensures Render(items + [Item(Name(x), "")]) == Render(items) + x
    ensures AdmissibleName(x)
  {
    var all := items + [Item(Name(x), "")];
    if items == [] {
      assert all[1..] == [] && Render(all) == x + ("" + "");
    } else {
      assert all[0] == items[0] && all[1..] == items[1..] + [Item(Name(x), "")];
      NameAtEnd(items[1..], x);
      NameAtEndStep(items[0], items[1..], x);
    }
  }

  lemma NameAtEndStep(it: Item, rest: seq<Item>, x: string)
    requires Apart(it.token, it.gap + (Render(rest + [Item(Name(x), "")]) + "\n"))
    requires Render(rest + [Item(Name(x), "")]) == Render(rest) + x && x != ""
    ensures Apart(it.token, it.gap + (Render(rest) + (x + [NUL])))
    ensures Spelling(it.token) + (it.gap + (Render(rest) + x)) == (Spelling(it.token) + (it.gap + Render(rest))) + x
  {
    hide Render, Spelling, Apart;
    var text := Render(rest);
    EndChoice(it.token, it.gap, text + x, "\n", [NUL]);
    assert (text + x) + [NUL] == text + (x + [NUL]);
  }

  lemma {:induction false} PlacesLast(items: seq<Item>, x: string, line: nat)
    ensures Places(items + [Item(Name(x), "")], line)
            == Places(items, line) + [Located(Name(x), line + GapLines(items))]
  {
    var all := items + [Item(Name(x), "")];
    if items != [] {
      assert all[0] == items[0] && all[1..] == items[1..] + [Item(Name(x), "")];
      PlacesLast(items[1..], x, line + NewLines(items[0].gap));
    }
  }

  lemma NoEndMarker(lead: string, init: seq<Item>, x: string)
    requires BlankString(lead) && SeparatedWithin(init + [Item(Name(x), "")])
    ensures var items := init + [Item(Name(x), "")];
            Lex(lead + (Render(items) + [NUL]), 1) == Ok(Places(items, 1 + NewLines(lead)))
  {
    hide Lex, Separated, Render, Places, NewLines, GapLines, BlankString, AdmissibleName;
    var items := init + [Item(Name(x), "")];
    var line := 1 + NewLines(lead);
    NameAtEnd(init, x);
    LexBlanks(lead, Render(items) + [NUL], 1);
    assert Render(items) + [NUL] == Render(init) + (x + [NUL]);
    LexItems(init, x + [NUL], line);
    NameSwallowsTerminator(x, line + GapLines(init));
    PlacesLast(init, x, line);
  }

  /** Of all texts whose tokens are kept apart, lexing gives back the tokens and the end
      marker for exactly those that do not end in a name with nothing between it and the
      closing zero; for the others the end marker is missing. */
  lemma {:induction false} EndMarkerExactly(lead: string, items: seq<Item>)
    requires BlankString(lead) && SeparatedWithin(items)
    ensures Lex(lead + (Render(items) + [NUL]), 1) == Ok(Written(lead, items)) <==> !EndsInName(items)
    ensures EndsInName(items) ==> Lex(lead + (Render(items) + [NUL]), 1) == Ok(Places(items, 1 + NewLines(lead)))
  {
    hide Lex, Separated, Render, Places, BlankString;
    if EndsInName(items) {
      LastIsName(items);
      var init, x := items[..|items| - 1], items[|items| - 1].token.value.s;
      assert items == init + [Item(Name(x), "")];
      NoEndMarker(lead, init, x);
      WrittenIsLonger(lead, items);
    } else {
      ZeroSeparates(items);
      LexRoundTrip(lead, items);
    }
  }

  lemma WrittenIsLonger(lead: string, items: seq<Item>)
    ensures |Written(lead, items)| == |Places(items, 1 + NewLines(lead))| + 1
  {
    hide Places;
  }

  lemma {:induction false} LastIsName(items: seq<Item>)
    requires SeparatedWithin(items) && EndsInName(items)
    ensures items[|items| - 1].token.value.Str?
            && items[|items| - 1] == Item(Name(items[|items| - 1].token.value.s), "")
  {
    if |items| > 1 {
      assert items[1..][|items[1..]| - 1] == items[|items| - 1];
      LastIsName(items[1..]);
    }
  }
}
