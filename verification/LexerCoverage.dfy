/** Whatever the lexer accepts it has read from the beginning, in order, without leaving
    anything out. */
module LexerCoverage {
  import opened Outcomes
  import opened Tokens
  import opened LexerSpec
  import opened LexerTheorems

  datatype Piece = Gap(c: char) | Word(token: Token, text: string)

  /** The pieces the lexer cuts the text into. */
  function Pieces(s: string): seq<Piece> {
    if s == "" then []
    else
      match ScanOne(s)
      case Blank => [Gap(s[0])] + Pieces(s[1..])
      case Lexeme(t, n) => [Word(t, s[..n])] + Pieces(s[n..])
      case _ => []
  }

  /** What is left when the lexer stops. */
  function Unread(s: string): string {
    if s == "" then ""
    else
      match ScanOne(s)
      case Blank => Unread(s[1..])
      case Lexeme(_, n) => Unread(s[n..])
      case _ => s
  }

  function Join(ps: seq<Piece>): string {
    if ps == [] then "" else (if ps[0].Gap? then [ps[0].c] else ps[0].text) + Join(ps[1..])
  }

  /** The characters a token may have been read from. */
  predicate Reads(t: Token, text: string) {
    text != "" &&
    match t.kind
    case Ident =>
      IsAlpha(text[0]) && (forall k :: 0 <= k < |text| ==> IsNameChar(text[k])) && t.value == Str(CString(text))
    case LitInt => (forall k :: 0 <= k < |text| ==> IsDigit(text[k])) && t.value == Int(IntValue(text))
    case LitFloat =>
      && IsDigit(text[0]) && Peek(text, DigitCount(text)) == '.' && t.value == Float(text)
      && forall k :: DigitCount(text) + 2 <= k < |text| ==> IsDigit(text[k])
    case LitBool => t.value == Bool(text == "true") && (text == "true" || text == "false")
    case Eof => false
    case LitString => false
    case _ =>
      t.value == NoValue && (Keyword(t.kind) == Some(text) || (|text| == 1 && SymbolKind(text[0]) == Some(t.kind)))
  }

  predicate GoodPiece(p: Piece) {
    match p
    case Gap(c) => IsBlank(c)
    case Word(t, text) => Reads(t, text)
  }

  /** The tokens of the pieces, with lines counted in the gaps. */
  function Locate(ps: seq<Piece>, line: nat): seq<Located> {
    if ps == [] then []
    else if ps[0].Gap? then Locate(ps[1..], LineAfter(line, ps[0].c))
    else [Located(ps[0].token, line)] + Locate(ps[1..], line)
  }

  function GapNewLines(ps: seq<Piece>): nat {
    if ps == [] then 0 else (if ps[0].Gap? && ps[0].c == '\n' then 1 else 0) + GapNewLines(ps[1..])
  }

  function WordNewLines(ps: seq<Piece>): nat {
    if ps == [] then 0 else (if ps[0].Word? then NewLines(ps[0].text) else 0) + WordNewLines(ps[1..])
  }

  function Ending(s: string, line: nat): seq<Located> {
    if s != "" && s[0] == NUL then [Located(Sym(Eof), line)] else []
  }

  // ----- one piece

  lemma {:induction false} NameCountIsRun(s: string)
    ensures forall k :: 0 <= k < NameCount(s) ==> IsNameChar(s[k])
  {
    if s != "" && IsNameChar(s[0]) {
      NameCountIsRun(s[1..]);
      forall k | 0 <= k < NameCount(s) ensures IsNameChar(s[k]) {
        if k > 0 {
          assert s[k] == s[1..][k - 1];
        }
      }
    }
  }

  lemma LexemeReads(s: string)
    requires s != "" && ScanOne(s).Lexeme?
    ensures Reads(ScanOne(s).token, s[..ScanOne(s).length])
  {
    ScanCases(s);
    hide ScanOne, ScanTerm, Numeral, Reads, KEYWORDS, FirstKeyword;
    if SymbolKind(s[0]).Some? {
      SymbolReads(SymbolKind(s[0]).value, s[..1]);
    } else if FirstKeyword(KEYWORDS, s).Some? {
      var k := FirstKeyword(KEYWORDS, s).value;
      KeywordReads(k);
      assert s[..|Keyword(k).value|] == Keyword(k).value;
    } else if IsDigit(s[0]) {
      NumeralReads(s);
    } else {
      TermReads(s);
    }
  }

  /** The order in which a token is looked for. */
  lemma ScanCases(s: string)
    requires s != "" && ScanOne(s).Lexeme?
    ensures var k := FirstKeyword(KEYWORDS, s);
            if SymbolKind(s[0]).Some? then ScanOne(s) == Lexeme(Sym(SymbolKind(s[0]).value), 1)
            else if k.Some? then ScanOne(s) == Lexeme(Sym(k.value), |Keyword(k.value).value|)
            else ScanOne(s) == ScanTerm(s)
    ensures IsDigit(s[0]) ==> ScanTerm(s) == Numeral(s)
  {
    hide KEYWORDS, FirstKeyword, Keyword, Numeral;
  }

  lemma SymbolReads(k: Kind, text: string)
    requires |text| == 1 && SymbolKind(text[0]) == Some(k)
    ensures Reads(Sym(k), text)
  {
  }

  lemma KeywordReads(k: Kind)
    requires Keyword(k).Some?
    ensures Reads(Sym(k), Keyword(k).value)
  {
  }

  lemma TermReads(s: string)
    requires s != "" && !IsDigit(s[0]) && ScanTerm(s).Lexeme?
    ensures Reads(ScanTerm(s).token, s[..ScanTerm(s).length])
  {
    hide Keyword, SymbolKind, NameCount;
    NameCountIsRun(s);
  }

  lemma NumeralReads(s: string)
    requires s != "" && IsDigit(s[0]) && Numeral(s).Lexeme?
    ensures Reads(Numeral(s).token, s[..Numeral(s).length])
  {
    var n := DigitCount(s);
    DigitCountIsRun(s);
    if Peek(s, n) == '.' {
      var m := if n + 2 <= |s| then n + 2 else |s|;
      var k := Numeral(s).length;
      DigitsRun(s[..n], s[n..k]);
      assert s[..n] + s[n..k] == s[..k];
      DigitCountIsRun(s[m..]);
      forall l | n + 2 <= l < k ensures IsDigit(s[..k][l]) {
        assert s[l] == s[m..][l - m];
      }
    }
  }

  // ----- the whole text

  /** Coverage: on every accepted text the pieces, blanks and tokens, are exactly the
      text up to where reading stops, in order; each token is read from its piece; the
      lexer's result is the tokens of the pieces with lines counted in the blanks, and
      an end marker if reading stopped at a zero. Reading stops at a zero, at the end
      mark, or at the end of the text. */
  lemma {:induction false} Coverage(s: string, line: nat)
    requires Lex(s, line).Ok?
    ensures s == Join(Pieces(s)) + Unread(s)
    ensures forall p :: p in Pieces(s) ==> GoodPiece(p)
    ensures Unread(s) == "" || Unread(s)[0] == NUL || Unread(s)[0] == END_MARK
    ensures Lex(s, line).value == Locate(Pieces(s), line) + Ending(Unread(s), line + GapNewLines(Pieces(s)))
  {
    hide ScanOne, Reads, Lex, Pieces, Unread;
    Unfold(s, line);
    if s != "" {
      match ScanOne(s)
      case Blank =>
        BlankIsBlank(s);
        Coverage(s[1..], LineAfter(line, s[0]));
        CoverageStep(Gap(s[0]), s, 1, line);
      case Lexeme(t, n) =>
        LexemeReads(s);
        Coverage(s[n..], line);
        CoverageStep(Word(t, s[..n]), s, n, line);
      case _ => StopsWhere(s);
    }
  }

  lemma CoverageStep(p: Piece, s: string, n: nat, line: nat)
    requires n <= |s| && s[..n] == (if p.Gap? then [p.c] else p.text)
    requires Pieces(s) == [p] + Pieces(s[n..]) && Unread(s) == Unread(s[n..])
    requires s[n..] == Join(Pieces(s[n..])) + Unread(s[n..])
    ensures s == Join(Pieces(s)) + Unread(s)
    ensures var ps, u := Pieces(s[n..]), Unread(s);
            Locate(Pieces(s), line) + Ending(u, line + GapNewLines(Pieces(s)))
            == if p.Gap? then Locate(ps, LineAfter(line, p.c)) + Ending(u, LineAfter(line, p.c) + GapNewLines(ps))
               else [Located(p.token, line)] + (Locate(ps, line) + Ending(u, line + GapNewLines(ps)))
  {
    hide Pieces, Unread, Join, Locate, GapNewLines, Ending, LineAfter;
    OneMore(p, Pieces(s[n..]), line);
    Rejoin(s, n, Join(Pieces(s[n..])), Unread(s));
    if p.Word? {
      Regroup([Located(p.token, line)], Locate(Pieces(s[n..]), line),
              Ending(Unread(s), line + GapNewLines(Pieces(s[n..]))));
    }
  }

  lemma Rejoin(s: string, n: nat, a: string, b: string)
    requires n <= |s| && s[n..] == a + b
    ensures s == (s[..n] + a) + b
  {
    assert s == s[..n] + s[n..];
  }

  lemma Regroup<T>(a: seq<T>, b: seq<T>, c: seq<T>)
    ensures (a + b) + c == a + (b + c)
  {
  }

  lemma Unfold(s: string, line: nat)
    ensures s == "" ==> Pieces(s) == [] && Unread(s) == "" && Lex(s, line) == Ok([])
    ensures s != "" && ScanOne(s) == Blank
            ==> Pieces(s) == [Gap(s[0])] + Pieces(s[1..]) && Unread(s) == Unread(s[1..])
                && Lex(s, line) == Lex(s[1..], LineAfter(line, s[0]))
    ensures s != "" && ScanOne(s).Lexeme?
            ==> var t, n := ScanOne(s).token, ScanOne(s).length;
                Pieces(s) == [Word(t, s[..n])] + Pieces(s[n..]) && Unread(s) == Unread(s[n..])
                && Lex(s, line) == Prepend([Located(t, line)], Lex(s[n..], line))
    ensures s != "" && ScanOne(s) != Blank && !ScanOne(s).Lexeme? ==> Pieces(s) == [] && Unread(s) == s
    ensures s != "" && ScanOne(s) == Stop ==> Lex(s, line) == Ok([])
    ensures s != "" && ScanOne(s) == Finish ==> Lex(s, line) == Ok([Located(Sym(Eof), line)])
    ensures s != "" && ScanOne(s).Bad? ==> !Lex(s, line).Ok?
  {
    hide ScanOne;
  }

  lemma OneMore(p: Piece, ps: seq<Piece>, line: nat)
    ensures Join([p] + ps) == (if p.Gap? then [p.c] else p.text) + Join(ps)
    ensures p.Gap? ==> Locate([p] + ps, line) == Locate(ps, LineAfter(line, p.c))
                       && line + GapNewLines([p] + ps) == LineAfter(line, p.c) + GapNewLines(ps)
    ensures p.Word? ==> Locate([p] + ps, line) == [Located(p.token, line)] + Locate(ps, line)
                        && GapNewLines([p] + ps) == GapNewLines(ps)
  {
    assert ([p] + ps)[1..] == ps;
  }

  lemma BlankIsBlank(s: string)
    requires s != "" && ScanOne(s) == Blank
    ensures IsBlank(s[0])
  {
    hide KEYWORDS, FirstKeyword, ScanTerm;
    NoBlankTerm(s);
  }

  lemma NoBlankTerm(s: string)
    requires s != ""
    ensures ScanTerm(s) != Blank && ScanTerm(s) != Finish
  {
  }

  lemma StopsWhere(s: string)
    requires s != ""
    ensures ScanOne(s) == Stop ==> s[0] == END_MARK
    ensures ScanOne(s) == Finish ==> s[0] == NUL
    ensures s[0] == NUL && !ScanOne(s).Lexeme? ==> ScanOne(s) == Finish
  {
    hide KEYWORDS, FirstKeyword;
    NoBlankTerm(s);
  }

  // ----- lines

  lemma {:induction false} NewLinesConcat(a: string, b: string)
    ensures NewLines(a + b) == NewLines(a) + NewLines(b)
  {
    if a == "" {
      assert a + b == b;
    } else {
      assert (a + b)[1..] == a[1..] + b;
      NewLinesConcat(a[1..], b);
    }
  }

  lemma {:induction false} AllNewLines(ps: seq<Piece>)
    ensures NewLines(Join(ps)) == GapNewLines(ps) + WordNewLines(ps)
  {
    if ps != [] {
      var w := if ps[0].Gap? then [ps[0].c] else ps[0].text;
      NewLinesConcat(w, Join(ps[1..]));
      AllNewLines(ps[1..]);
    }
  }

  lemma {:induction false} LocateAt(a: seq<Piece>, t: Token, text: string, b: seq<Piece>, line: nat)
    ensures var ls := Locate(a + [Word(t, text)] + b, line);
            var n := |Locate(a, line)|;
            n < |ls| && ls[n] == Located(t, line + GapNewLines(a))
  {
    var ps := a + [Word(t, text)] + b;
    if a != [] {
      assert ps[0] == a[0] && ps[1..] == a[1..] + [Word(t, text)] + b;
      LocateAt(a[1..], t, text, b, if a[0].Gap? then LineAfter(line, a[0].c) else line);
    }
  }

  /** A numeral whose dot has a line break behind it. */
  predicate TakesBreak(p: Piece) {
    && p.Word? && p.token.kind == LitFloat
    && DigitCount(p.text) + 1 < |p.text| && p.text[DigitCount(p.text) + 1] == '\n'
  }

  /** Lines: a token's line is one plus the number of line breaks in the text before it,
      if and only if no numeral before it has a line break behind its dot. */
  lemma {:induction false} LinesExactly(s: string, a: seq<Piece>, t: Token, text: string, b: seq<Piece>)
    requires Lex(s, 1).Ok? && Pieces(s) == a + [Word(t, text)] + b
    ensures var ls := Lex(s, 1).value;
            var n := |Locate(a, 1)|;
            && n < |ls| && ls[n].token == t
            && Join(a) <= s
            && (ls[n].line == 1 + NewLines(Join(a)) <==> forall k :: 0 <= k < |a| ==> !TakesBreak(a[k]))
  {
    hide Lex, Pieces, Unread, Join, Locate, GapNewLines, WordNewLines, NewLines, Ending, GoodPiece, TakesBreak;
    Coverage(s, 1);
    LocateAt(a, t, text, b, 1);
    AllNewLines(a);
    JoinConcat(a, [Word(t, text)] + b);
    assert a + [Word(t, text)] + b == a + ([Word(t, text)] + b);
    forall k | 0 <= k < |a| ensures GoodPiece(a[k]) {
      assert a[k] == Pieces(s)[k];
    }
    BreaksTaken(a);
  }

  lemma {:induction false} BreaksTaken(ps: seq<Piece>)
    requires forall k :: 0 <= k < |ps| ==> GoodPiece(ps[k])
    ensures WordNewLines(ps) == 0 <==> forall k :: 0 <= k < |ps| ==> !TakesBreak(ps[k])
  {
    hide NewLines, TakesBreak, GoodPiece;
    if ps != [] {
      BreaksTaken(ps[1..]);
      BreakTaken(ps[0]);
      assert forall k :: 1 <= k < |ps| ==> ps[k] == ps[1..][k - 1];
      assert ps[1..] == [] || ps[1..][0] == ps[1];
      forall k | 0 <= k < |ps[1..]| ensures ps[1..][k] == ps[k + 1] {
      }
    }
  }

  lemma BreakTaken(p: Piece)
    requires GoodPiece(p)
    ensures p.Word? ==> (NewLines(p.text) > 0 <==> TakesBreak(p))
    ensures p.Gap? ==> !TakesBreak(p)
  {
    if p.Word? {
      FloatsSwallow(p.token, p.text);
    }
  }

  /** A digit, a dot and a line break. */
  predicate DotThenBreak(s: string, q: nat)
    requires q + 2 < |s|
  {
    IsDigit(s[q]) && s[q + 1] == '.' && s[q + 2] == '\n'
  }

  /** Numerals with a digit behind the dot: if no dot that stands behind a digit has a line
      break behind it, every token's line is one plus the line breaks before it. */
  lemma {:induction false} LinesOfDigits(s: string, a: seq<Piece>, t: Token, text: string, b: seq<Piece>)
    requires Lex(s, 1).Ok? && Pieces(s) == a + [Word(t, text)] + b
    requires forall q :: 0 <= q < |s| - 2 ==> !DotThenBreak(s, q)
    ensures var n := |Locate(a, 1)|; n < |Lex(s, 1).value| && Lex(s, 1).value[n].line == 1 + NewLines(Join(a))
  {
    hide Lex, Pieces, Unread, Join, Locate, NewLines, Ending, TakesBreak;
    LinesExactly(s, a, t, text, b);
    Coverage(s, 1);
    forall k | 0 <= k < |a| ensures !TakesBreak(a[k]) {
      assert a[k] == Pieces(s)[k];
      assert GoodPiece(a[k]);
      if TakesBreak(a[k]) {
        var q := BreakInText(s, a, k);
      }
    }
  }

  lemma BreakInText(s: string, a: seq<Piece>, k: nat) returns (q: nat)
    requires Join(a) <= s && k < |a| && GoodPiece(a[k]) && TakesBreak(a[k])
    ensures q + 2 < |s| && DotThenBreak(s, q)
  {
    hide *;
    var n := BreakInPiece(a[k]);
    PieceInText(a, k);
    q := |Join(a[..k])| + n - 1;
    SameIn(s, Join(a), a[k].text, |Join(a[..k])|, n);
  }

  lemma SameIn(s: string, joined: string, text: string, m: nat, n: nat)
    requires joined <= s && m + |text| <= |joined| && (forall i :: 0 <= i < |text| ==> joined[m + i] == text[i])
    requires 0 < n && n + 1 < |text| && DotThenBreak(text, n - 1)
    ensures DotThenBreak(s, m + n - 1)
  {
    assert joined[m + (n - 1)] == text[n - 1] && joined[m + n] == text[n] && joined[m + (n + 1)] == text[n + 1];
  }

  lemma BreakInPiece(p: Piece) returns (n: nat)
    requires GoodPiece(p) && TakesBreak(p)
    ensures p.Word? && 0 < n && n + 1 < |p.text| && DotThenBreak(p.text, n - 1)
  {
    n := DigitCount(p.text);
    DigitCountIsRun(p.text);
  }

  lemma PieceInText(a: seq<Piece>, k: nat)
    requires k < |a| && a[k].Word?
    ensures var m := |Join(a[..k])|;
            m + |a[k].text| <= |Join(a)| && forall i :: 0 <= i < |a[k].text| ==> Join(a)[m + i] == a[k].text[i]
  {
    assert a == a[..k] + a[k..] && a[k..][0] == a[k];
    JoinConcat(a[..k], a[k..]);
    assert Join(a[k..]) == a[k].text + Join(a[k..][1..]);
  }

  lemma {:induction false} JoinConcat(a: seq<Piece>, b: seq<Piece>)
    ensures Join(a + b) == Join(a) + Join(b)
  {
    if a == [] {
      assert a + b == b;
    } else {
      assert (a + b)[0] == a[0] && (a + b)[1..] == a[1..] + b;
      JoinConcat(a[1..], b);
    }
  }

  /** A token swallows a line break exactly when it is a numeral with a line break right
      behind its dot. */
  lemma {:induction false} FloatsSwallow(t: Token, text: string)
    requires Reads(t, text)
    ensures NewLines(text) > 0 <==> TakesBreak(Word(t, text))
  {
    if NewLines(text) > 0 {
      OnlyFloatsSwallow(t, text);
      NewLineSomewhere(text);
      DigitCountIsRun(text);
      var k :| 0 <= k < |text| && text[k] == '\n';
      assert k == DigitCount(text) + 1;
    } else if TakesBreak(Word(t, text)) {
      NewLineCounts(text, DigitCount(text) + 1);
    }
  }

  lemma {:induction false} NewLineCounts(s: string, k: nat)
    requires k < |s| && s[k] == '\n'
    ensures NewLines(s) > 0
  {
    if k > 0 {
      NewLineCounts(s[1..], k - 1);
    }
  }

  /** Only a numeral with a dot can swallow a line break. */
  lemma OnlyFloatsSwallow(t: Token, text: string)
    requires Reads(t, text) && NewLines(text) > 0
    ensures t.kind == LitFloat
  {
    NewLineSomewhere(text);
    var k :| 0 <= k < |text| && text[k] == '\n';
    NewLineIsNoSymbol(t.kind, k);
    hide Keyword, SymbolKind;
  }

  lemma NewLineIsNoSymbol(kind: Kind, k: nat)
    ensures Keyword(kind).Some? && k < |Keyword(kind).value| ==> Keyword(kind).value[k] != '\n'
    ensures SymbolKind('\n') == None
  {
    if Keyword(kind).Some? && k < |Keyword(kind).value| {
      KeywordLetters(kind, k);
    }
  }

  lemma {:induction false} NewLineSomewhere(s: string)
    requires NewLines(s) > 0
    ensures exists k :: 0 <= k < |s| && s[k] == '\n'
  {
    if s[0] != '\n' {
      NewLineSomewhere(s[1..]);
      var k :| 0 <= k < |s[1..]| && s[1..][k] == '\n';
      assert s[k + 1] == '\n';
    } else {
      assert s[0] == '\n';
    }
  }
}
