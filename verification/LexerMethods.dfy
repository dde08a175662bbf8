/** The lexer of slkc/src/slkc/compiler/lexer.c as it is written: scanners that move an
    index over the source and fill in the current token, and the loop that drives them.
    Each scanner does what the specification says of the text behind the index. */
module LexerMethods {
  import opened Outcomes
  import opened Tokens
  import opened LexerSpec
  import LexerTheorems

  const LOWER: string := "abcdefghijklmnopqrstuvwxyz"
  const UPPER: string := "ABCDEFGHIJKLMNOPQRSTUVWXYZ"
  const WORD_ALPHA: string := LOWER + UPPER + "_"

  /** The bytes of the digit literal, its closing zero included. What lies behind them
      is not known and left out. */
  const DIGIT_BYTES: string := WORD_DIGIT + [NUL]

  /** `find_char` in the bytes it is given to search. */
  method FindChar(c: char, arr: string, size: nat) returns (found: bool)
    ensures found <==> c in arr[..if size <= |arr| then size else |arr|]
  {
    var i := 0;
    while i < size && i < |arr|
      invariant i <= size && i <= |arr|
      invariant c !in arr[..i]
    {
      if c == arr[i] {
        return true;
      }
      i := i + 1;
    }
    return false;
  }

  class Lexer {
    const source: string
    var index: nat
    var line: nat
    var token: Token
    var stream: seq<Located>

    constructor (source: string)
      ensures this.source == source && index == 0 && line == 1 && stream == []
    {
      this.source := source;
      index := 0;
      line := 1;
      token := Sym(Eof);
      stream := [];
    }

    /** The text behind the index. */
    ghost function Left(): string
      requires index <= |source|
      reads `index
    {
      source[index..]
    }

    function PeekChar(offset: nat): (c: char)
      reads `index
      ensures index <= |source| ==> c == Peek(Left(), offset)
    {
      if index + offset >= |source| then END_MARK else source[index + offset]
    }

    method NextChar()
      modifies `index
      ensures index == if old(index) < |source| then old(index) + 1 else old(index)
    {
      if index < |source| {
        index := index + 1;
      }
    }

    /** Leaves the index on the last character of the keyword it finds. */
    method ScanKeyword(keyword: string) returns (found: bool)
      requires index <= |source| && keyword != "" && END_MARK !in keyword
      modifies `index
      ensures found <==> Starts(old(Left()), keyword)
      ensures index == if found then old(index) + |keyword| - 1 else old(index)
    {
      ghost var text := Left();
      if PeekChar(0) != keyword[0] {
        assert !Starts(text, keyword) by {
          StartsAt(text, keyword, 0);
        }
        return false;
      }
      var i := 1;
      while i < |keyword|
        invariant 1 <= i <= |keyword| && index == old(index)
        invariant forall k :: 0 <= k < i ==> Peek(text, k) == keyword[k]
      {
        if PeekChar(i) != keyword[i] {
          assert !Starts(text, keyword) by {
            StartsAt(text, keyword, i);
          }
          return false;
        }
        i := i + 1;
      }
      PeeksAreStart(text, keyword);
      i := 0;
      while i < |keyword|
        invariant i <= |keyword| && index == old(index) + i
      {
        NextChar();
        i := i + 1;
      }
      index := index - 1;
      return true;
    }

    method LexEmpty() returns (found: bool)
      requires index < |source|
      modifies `index, `line
      ensures found <==> source[old(index)] in {'\n', ' ', '\r', '\t'}
      ensures index == if found then old(index) + 1 else old(index)
      ensures line == if source[old(index)] == '\n' then old(line) + 1 else old(line)
    {
      var c := PeekChar(0);
      if c == '\n' {
        line := line + 1;
        NextChar();
        return true;
      }
      if c == ' ' || c == '\r' || c == '\t' {
        NextChar();
        return true;
      }
      return false;
    }

    method LexSymbols() returns (found: bool)
      requires index < |source|
      modifies `token
      ensures found <==> SymbolKind(source[index]).Some?
      ensures found ==> token == Sym(SymbolKind(source[index]).value)
      ensures !found ==> token == old(token)
    {
      var kind := SymbolKind(PeekChar(0));
      if kind.Some? {
        token := Sym(kind.value);
        return true;
      }
      return false;
    }

    /** The index is on the last character of the keyword that comes first in the order
        of the tests, or has not moved and there is none. */
    ghost predicate KeywordOutcome(found: bool, text: string, start: nat)
      reads `index, `token
    {
      var k := FirstKeyword(KEYWORDS, text);
      && found == k.Some?
      && (found ==> token == Sym(k.value) && index == start + |Keyword(k.value).value| - 1)
      && (!found ==> index == start)
    }

    /** The test for keyword number `m` at `start`, when those before it have failed. */
    method LexKeyword(k: Kind, ghost m: nat, ghost text: string, ghost start: nat) returns (found: bool)
      requires Place(k, m) && index == start <= |source| && text == Left() && NoneBefore(m, text)
      modifies `index, `token
      ensures found ==> KeywordOutcome(true, text, start)
      ensures !found ==> index == start && text == Left() && NoneBefore(m + 1, text) && token == old(token)
    {
      hide KEYWORDS;
      KeywordIsPlain(k);
      KeywordTest(m, text);
      hide FirstKeyword, Keyword;
      found := ScanKeyword(Keyword(k).value);
      if found {
        token := Sym(k);
      }
    }

    method LexKeywords() returns (found: bool)
      requires index <= |source|
      modifies `index, `token
      ensures KeywordOutcome(found, old(Left()), old(index)) && (!found ==> token == old(token))
    {
      hide FirstKeyword, Keyword, KEYWORDS, NoneBefore, KeywordOutcome, Left, Place;
      ghost var text, start := Left(), index;
      NoneBeforeFirst(text);
      KeywordTable();
      found := LexKeyword(WordInt, 0, text, start);
      if found { return; }
      found := LexKeyword(WordFloat, 1, text, start);
      if found { return; }
      found := LexKeyword(WordVoid, 2, text, start);
      if found { return; }
      found := LexKeyword(WordBool, 3, text, start);
      if found { return; }
      found := LexKeyword(WordStruct, 4, text, start);
      if found { return; }
      found := LexKeyword(WordReturn, 5, text, start);
      if found { return; }
      found := LexKeyword(WordWhile, 6, text, start);
      if found { return; }
      found := LexKeyword(WordBreak, 7, text, start);
      if found { return; }
      found := LexKeyword(WordContinue, 8, text, start);
      if found { return; }
      found := LexKeyword(WordElseIf, 9, text, start);
      if found { return; }
      found := LexKeyword(WordIf, 10, text, start);
      if found { return; }
      found := LexKeyword(WordElse, 11, text, start);
      if found { return; }
      found := LexKeyword(WordRef, 12, text, start);
      if found { return; }
      found := LexKeyword(WordConst, 13, text, start);
      if found { return; }
      found := LexKeyword(WordImport, 14, text, start);
      if !found {
        NoKeywordLeft(text);
        NoKeyword(text, start);
      }
    }

    lemma NoKeyword(text: string, start: nat)
      requires FirstKeyword(KEYWORDS, text) == None && index == start
      ensures KeywordOutcome(false, text, start)
    {
    }

    /** The digits, dots and other characters of a numeral. */
    method LexNumeral() returns (r: Result<bool>)
      requires index < |source| && IsDigit(source[index])
      modifies `index, `token
      ensures TermOutcome(r, Numeral(old(Left())), old(index), old(token))
    {
      hide DigitCount, WORD_DIGIT, IntValue, Numeral, Read;
      ghost var text := Left();
      var start := index;
      var kind := LitInt;
      var str := [source[index]];
      ReadFirst(text);
      NextChar();
      var c := PeekChar(0);
      while true
        invariant start < index <= |source| && c == PeekChar(0)
        invariant kind == LitInt || kind == LitFloat
        invariant Read(kind, text, index - start)
        invariant kind == LitInt ==> str == source[start..index]
        decreases |source| - index
      {
        var isDigit := FindChar(c, WORD_DIGIT, |WORD_DIGIT|);
        DigitFound(c);
        ReadNext(kind, text, index - start);
        if !isDigit && c != '.' {
          break;
        }
        if c == '.' {
          if kind != LitInt {
            return SyntaxError("Invalid decimal point.");
          }
          kind := LitFloat;
          str := str + [c];
          NextChar();
          c := PeekChar(0);
        }
        assert kind == LitInt ==> source[start..index] + [source[index]] == source[start..index + 1];
        str := str + [c];
        NextChar();
        c := PeekChar(0);
      }
      // The zero pushed at the end, and a -1 pushed for a character missing behind the
      // dot, end the numeral for atoi and atof.
      assert source[start..index] == text[..index - start];
      token := if kind == LitInt then Token(LitInt, Int(IntValue(str)))
        else Token(LitFloat, Float(source[start..index]));
      index := index - 1;
      return Ok(true);
    }

    method LexName() returns (r: Result<bool>)
      requires index < |source| && IsAlpha(source[index])
      modifies `index, `token
      ensures TermOutcome(r, NameScan(old(Left())), old(index), old(token))
    {
      hide NameCount, CString, WORD_DIGIT, WORD_ALPHA, DIGIT_BYTES, NameTo, NameScan;
      ghost var text, start := Left(), index;
      var str := [source[index]];
      NameFirst(text);
      SearchSizes();
      NextChar();
      var c := PeekChar(0);
      while true
        invariant start < index <= |source| && c == PeekChar(0)
        invariant str == source[start..index] && NameTo(text, index - start)
        decreases |source| - index
      {
        var isAlpha := FindChar(c, WORD_ALPHA, |WORD_ALPHA|);
        var isDigit := FindChar(c, DIGIT_BYTES, |WORD_ALPHA|);
        NameFound(c);
        NameNext(text, index - start);
        if !isAlpha && !isDigit {
          break;
        }
        assert source[start..index] + [source[index]] == source[start..index + 1];
        str := str + [c];
        NextChar();
        c := PeekChar(0);
      }
      assert str == text[..index - start];
      token := Token(Ident, Str(CString(str)));
      index := index - 1;
      return Ok(true);
    }

    ghost predicate TermOutcome(r: Result<bool>, scan: Scan, start: nat, was: Token)
      reads `index, `token
    {
      && (scan == Stop ==> r == Ok(false) && index == start && token == was)
      && (scan.Lexeme? ==> r == Ok(true) && token == scan.token && index == start + scan.length - 1)
      && (scan.Bad? ==> r == SyntaxError(scan.message))
      && (scan == Stop || scan.Lexeme? || scan.Bad?)
    }

    method LexTermsymbols() returns (r: Result<bool>)
      requires index < |source|
      modifies `index, `token
      ensures TermOutcome(r, ScanTerm(old(Left())), old(index), old(token))
    {
      hide Numeral, NameCount, CString;
      var c := PeekChar(0);
      var found := FindChar(c, WORD_DIGIT, |WORD_DIGIT|);
      DigitFound(c);
      if found {
        r := LexNumeral();
        return;
      }
      found := ScanKeyword("true");
      if found {
        token := Token(LitBool, Bool(true));
        return Ok(true);
      }
      found := ScanKeyword("false");
      if found {
        token := Token(LitBool, Bool(false));
        return Ok(true);
      }
      found := FindChar(c, WORD_ALPHA, |WORD_ALPHA|);
      NameFound(c);
      if found {
        r := LexName();
        return;
      }
      return Ok(false);
    }

    /** The chain of scanners of one turn, behind the tests for the end mark and blanks. */
    method LexToken() returns (r: Result<bool>)
      requires index < |source| && !IsBlank(source[index]) && source[index] != END_MARK
      modifies `index, `token
      ensures var scan := ScanOne(old(Left()));
              && (scan.Lexeme? ==> r == Ok(true) && token == scan.token && index == old(index) + scan.length - 1)
              && (scan == Finish ==> r == Ok(true) && token == Sym(Eof) && index == old(index))
              && (scan.Bad? ==> r == SyntaxError(scan.message))
              && (scan.Lexeme? || scan == Finish || scan.Bad?)
    {
      hide SymbolKind, FirstKeyword, ScanTerm, KEYWORDS, Keyword;
      var found := LexSymbols();
      if found {
        return Ok(true);
      }
      found := LexKeywords();
      if found {
        return Ok(true);
      }
      found :- LexTermsymbols();
      if found {
        return Ok(true);
      }
      if PeekChar(0) == NUL {
        token := Sym(Eof);
        return Ok(true);
      }
      return SyntaxError("Invalid character");
    }

    /** `sk_lex_source`. */
    method LexSource() returns (r: Result<seq<Located>>)
      requires index == 0 && line == 1 && stream == []
      modifies this
      ensures r == Lex(source, 1)
      ensures r.Ok? ==> stream == r.value
    {
      hide ScanOne;
      LexStart(source);
      while index < |source|
        invariant index <= |source|
        invariant Lex(source, 1) == LexerTheorems.Prepend(stream, Lex(source[index..], line))
        decreases |source| - index
      {
        LexStep(stream, source[index..], line);
        if PeekChar(0) == END_MARK {
          break;
        }
        var blank := LexEmpty();
        if blank {
          continue;
        }
        var _ :- LexToken();
        stream := stream + [Located(token, line)];
        if token.kind == Eof {
          break;
        }
        NextChar();
      }
      assert index == |source| ==> source[index..] == "" && stream + [] == stream;
      return Ok(stream);
    }
  }

  lemma LexStart(s: string)
    ensures s[0..] == s && Lex(s, 1) == LexerTheorems.Prepend([], Lex(s, 1))
  {
    hide Lex;
    if Lex(s, 1).Ok? {
      assert [] + Lex(s, 1).value == Lex(s, 1).value;
    }
  }

  /** One turn of the loop in terms of what is already read. */
  lemma LexStep(done: seq<Located>, s: string, line: nat)
    requires s != ""
    ensures var scan := ScanOne(s);
            var all := LexerTheorems.Prepend(done, Lex(s, line));
            && (s[0] == END_MARK ==> all == Ok(done))
            && (scan == Blank <==> s[0] != END_MARK && IsBlank(s[0]))
            && (scan == Blank ==> all == LexerTheorems.Prepend(done, Lex(s[1..], LineAfter(line, s[0]))))
            && (scan == Finish ==> all == Ok(done + [Located(Sym(Eof), line)]))
            && (scan.Bad? ==> all == SyntaxError(scan.message))
            && (scan.Lexeme? ==> scan.token.kind != Eof)
            && (scan.Lexeme?
                ==> all == LexerTheorems.Prepend(done + [Located(scan.token, line)], Lex(s[scan.length..], line)))
  {
    LexemeIsNoEnd(s);
    hide ScanOne, IsBlank;
    var scan := ScanOne(s);
    if scan.Lexeme? && Lex(s[scan.length..], line).Ok? {
      var rest := Lex(s[scan.length..], line).value;
      assert done + ([Located(scan.token, line)] + rest) == done + [Located(scan.token, line)] + rest;
    } else if scan == Stop {
      assert done + [] == done;
    }
  }

  lemma LexemeIsNoEnd(s: string)
    requires s != ""
    ensures ScanOne(s) == Stop <==> s[0] == END_MARK
    ensures ScanOne(s) == Blank <==> s[0] != END_MARK && IsBlank(s[0])
    ensures ScanOne(s).Lexeme? ==> ScanOne(s).token.kind != Eof
  {
    hide DigitCount, NameCount, FirstKeyword, IntValue, CString;
  }

  predicate DigitsTo(text: string, from: nat, to: nat) {
    from <= to <= |text| && DigitCount(text[from..]) == to - from + DigitCount(text[to..])
  }

  /** A numeral is read up to `to`: still an integer, or behind its dot and the character
      that comes with it. */
  predicate Read(kind: Kind, text: string, to: nat) {
    var n := DigitCount(text);
    if kind == LitInt then DigitsTo(text, 0, to)
    else Peek(text, n) == '.' && DigitsTo(text, if n + 2 <= |text| then n + 2 else |text|, to)
  }

  lemma ReadFirst(text: string)
    requires text != "" && IsDigit(text[0])
    ensures Read(LitInt, text, 1)
  {
    assert text[0..] == text;
  }

  /** What the next character does to a numeral. */
  lemma ReadNext(kind: Kind, text: string, k: nat)
    requires text != "" && IsDigit(text[0]) && k <= |text| && Read(kind, text, k)
             && (kind == LitInt || kind == LitFloat)
    ensures var c := Peek(text, k);
            && (IsDigit(c) ==> k < |text| && Read(kind, text, k + 1))
            && (c == '.' && kind == LitInt
                ==> k < |text| && Read(LitFloat, text, if k + 2 <= |text| then k + 2 else |text|))
            && (c == '.' && kind == LitFloat ==> Numeral(text) == Bad("Invalid decimal point."))
            && (!IsDigit(c) && c != '.' && kind == LitInt
                ==> Numeral(text) == Lexeme(Token(LitInt, Int(IntValue(text[..k]))), k))
            && (!IsDigit(c) && c != '.' && kind == LitFloat
                ==> Numeral(text) == Lexeme(Token(LitFloat, Float(text[..k])), k))
  {
    hide DigitCount, IntValue;
    assert text[0..] == text;
    DigitStep(text, k);
  }

  lemma StartsAt(s: string, w: string, k: nat)
    requires k < |w| && Peek(s, k) != w[k]
    ensures !Starts(s, w)
  {
  }

  lemma PeeksAreStart(s: string, w: string)
    requires END_MARK !in w && forall k :: 0 <= k < |w| ==> Peek(s, k) == w[k]
    ensures Starts(s, w)
  {
    if w != "" {
      assert w[|w| - 1] in w && Peek(s, |w| - 1) == w[|w| - 1];
    }
  }

  lemma KeywordIsPlain(k: Kind)
    requires Keyword(k).Some?
    ensures END_MARK !in Keyword(k).value
  {
  }

  lemma KeywordTest(m: nat, s: string)
    requires m < |KEYWORDS| && Keyword(KEYWORDS[m]).Some?
    ensures FirstKeyword(KEYWORDS[m..], s)
            == if Starts(s, Keyword(KEYWORDS[m]).value) then Some(KEYWORDS[m]) else FirstKeyword(KEYWORDS[m + 1..], s)
  {
    hide KEYWORDS, Keyword;
    assert KEYWORDS[m..][1..] == KEYWORDS[m + 1..];
  }

  /** The first `m` keywords are not there. */
  ghost predicate NoneBefore(m: nat, s: string)
    requires m <= |KEYWORDS|
  {
    FirstKeyword(KEYWORDS, s) == FirstKeyword(KEYWORDS[m..], s)
  }

  lemma NoneBeforeFirst(s: string)
    ensures NoneBefore(0, s)
  {
    assert KEYWORDS[0..] == KEYWORDS;
  }

  lemma NoKeywordLeft(s: string)
    requires NoneBefore(15, s)
    ensures FirstKeyword(KEYWORDS, s) == None
  {
  }

  lemma DigitFound(c: char)
    ensures IsDigit(c) <==> c in WORD_DIGIT[..|WORD_DIGIT|]
  {
    if IsDigit(c) {
      assert WORD_DIGIT[c as nat - '0' as nat] == c;
    }
  }

  lemma NameFound(c: char)
    ensures IsAlpha(c) <==> c in WORD_ALPHA[..|WORD_ALPHA|]
    ensures IsDigit(c) || c == NUL <==> c in DIGIT_BYTES[..|DIGIT_BYTES|]
  {
    DigitFound(c);
    LetterFound(c);
    hide WORD_DIGIT, LOWER, UPPER;
    assert WORD_DIGIT[..|WORD_DIGIT|] == WORD_DIGIT;
    assert WORD_ALPHA[..|WORD_ALPHA|] == WORD_ALPHA && DIGIT_BYTES[..|DIGIT_BYTES|] == DIGIT_BYTES;
    assert c in WORD_ALPHA <==> c in LOWER || c in UPPER || c in "_";
    assert c in DIGIT_BYTES <==> c in WORD_DIGIT || c in [NUL];
  }

  lemma LetterFound(c: char)
    ensures 'a' <= c <= 'z' <==> c in LOWER
    ensures 'A' <= c <= 'Z' <==> c in UPPER
  {
    hide LOWER, UPPER;
    LowerFound(c);
    UpperFound(c);
  }

  lemma LowerFound(c: char)
    ensures 'a' <= c <= 'z' <==> c in LOWER
  {
    hide UPPER;
    if 'a' <= c <= 'z' {
      assert LOWER[c as nat - 'a' as nat] == c;
    }
  }

  lemma UpperFound(c: char)
    ensures 'A' <= c <= 'Z' <==> c in UPPER
  {
    hide LOWER;
    if 'A' <= c <= 'Z' {
      assert UPPER[c as nat - 'A' as nat] == c;
    }
  }

  /** The bounds of the searches: 53 characters for both, of which the digits and their
      zero are the first eleven. */
  lemma SearchSizes()
    ensures |WORD_DIGIT| == 10 && |WORD_ALPHA| == 53 && |DIGIT_BYTES| == 11
  {
  }

  ghost predicate Place(k: Kind, m: nat) {
    m < |KEYWORDS| && KEYWORDS[m] == k && Keyword(k).Some?
  }

  /** The order of the tests. */
  lemma KeywordTable()
    ensures Place(WordInt, 0) && Place(WordFloat, 1) && Place(WordVoid, 2) && Place(WordBool, 3) && Place(WordStruct, 4)
    ensures Place(WordReturn, 5) && Place(WordWhile, 6) && Place(WordBreak, 7) && Place(WordContinue, 8)
            && Place(WordElseIf, 9)
    ensures Place(WordIf, 10) && Place(WordElse, 11) && Place(WordRef, 12) && Place(WordConst, 13)
            && Place(WordImport, 14)
  {
  }

  lemma DigitStep(s: string, j: nat)
    requires j <= |s|
    ensures DigitCount(s[j..]) == if IsDigit(Peek(s, j)) then 1 + DigitCount(s[j + 1..]) else 0
  {
    if j < |s| {
      assert s[j..][1..] == s[j + 1..];
    }
  }

  /** The last branch of `ScanTerm`. */
  function NameScan(s: string): Scan {
    var n := NameCount(s);
    Lexeme(Token(Ident, Str(CString(s[..n]))), n)
  }

  predicate NameTo(text: string, k: nat) {
    k <= |text| && NameCount(text) == k + NameCount(text[k..])
  }

  lemma NameFirst(text: string)
    requires text != "" && IsAlpha(text[0])
    ensures NameTo(text, 1)
  {
    assert text[0..] == text;
  }

  lemma NameNext(text: string, k: nat)
    requires k <= |text| && NameTo(text, k)
    ensures IsNameChar(Peek(text, k)) ==> k < |text| && NameTo(text, k + 1)
    ensures !IsNameChar(Peek(text, k)) ==> NameScan(text) == Lexeme(Token(Ident, Str(CString(text[..k]))), k)
  {
    if k < |text| {
      assert text[k..][1..] == text[k + 1..];
    }
  }
}
