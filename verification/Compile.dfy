/** The lexer and the parser together, as in slkc/src/main.c: from the text with its
    closing zero to the tree. */
module Compile {
  import opened Outcomes
  import opened Tokens
  import opened Nodes
  import opened Operators
  import opened Syntax
  import opened Printer
  import opened ExprParser
  import opened ExprShapes
  import opened ExprParts
  import opened ExprTheorems
  import opened StmtParser
  import opened StmtCases
  import opened Programs
  import opened ProgramComplete
  import opened ProgramSound
  import opened ProgramPrinter
  import opened ProgramRefused
  import opened ProgramSafety
  import opened ProgramTheorems
  import opened LexerSpec
  import opened LexerTheorems

  function Bare(ls: seq<Located>): (ts: seq<Token>)
    ensures |ts| == |ls| && forall k :: 0 <= k < |ls| ==> ts[k] == ls[k].token
  {
    seq(|ls|, k requires 0 <= k < |ls| => ls[k].token)
  }

  function CompileText(source: string): Result<Node> {
    var ls :- Lex(source, 1);
    Program(Bare(ls))
  }

  function ItemTokens(items: seq<Item>): (ts: seq<Token>)
    ensures |ts| == |items| && forall k :: 0 <= k < |items| ==> ts[k] == items[k].token
  {
    seq(|items|, k requires 0 <= k < |items| => items[k].token)
  }

  lemma {:induction false} PlacesAreTokens(items: seq<Item>, line: nat)
    ensures Bare(Places(items, line)) == ItemTokens(items)
  {
    hide NewLines;
    if items != [] {
      PlacesAreTokens(items[1..], line + NewLines(items[0].gap));
      var ls := Places(items, line);
      assert ls[1..] == Places(items[1..], line + NewLines(items[0].gap));
      assert Bare(ls) == [ls[0].token] + Bare(ls[1..]);
      assert ItemTokens(items) == [items[0].token] + ItemTokens(items[1..]);
    }
  }

  lemma WrittenTokens(lead: string, items: seq<Item>)
    ensures Bare(LexerTheorems.Written(lead, items)) == ItemTokens(items) + [Sym(Eof)]
  {
    PlacesAreTokens(items, 1 + NewLines(lead));
  }

  lemma {:induction false} StmtsEnd(p: Statements)
    requires p.Statements?
    ensures EndsStatement(YieldStmts(p))
  {
    StmtEnds(p.head);
    if p.rest.Statements? {
      StmtsEnd(p.rest);
    } else {
      assert YieldStmt(p.head) + [] == YieldStmt(p.head);
    }
  }

  /** The text `source` writes the tokens `y`, kept apart by blanks where they have to be,
      between any other blanks, and a closing zero. */
  predicate Writes(source: string, y: seq<Token>, lead: string, items: seq<Item>) {
    && BlankString(lead) && SeparatedWithin(items) && ItemTokens(items) == y
    && source == lead + (Render(items) + [NUL])
  }

  /** Text to tree: lexing and parsing any writing of an accepted program gives the
      program's tree, unless the program begins with a plain assignment or has `&&` or `||`
      in it. */
  lemma {:induction false} TextToTree(source: string, p: Statements, lead: string, items: seq<Item>)
    requires AcceptedAll(p, NoBlock) && Writes(source, YieldStmts(p), lead, items)
    ensures CompileText(source) == OutcomeOf(p)
  {
    hide Lex, Program, Separated, AcceptedAll, OutcomeOf, YieldStmts, Render;
    NotANameLast(p, items);
    EndMarkerExactly(lead, items);
    WrittenTokens(lead, items);
    ProgramRoundTrip(p);
  }

  lemma NotANameLast(p: Statements, items: seq<Item>)
    requires ItemTokens(items) == YieldStmts(p)
    ensures !EndsInName(items)
  {
    if items != [] {
      if p.Statements? {
        StmtsEnd(p);
      }
    }
  }

  // ----- every program can be written

  /** Each token on a line of its own. */
  function Lines(ts: seq<Token>): (items: seq<Item>)
    ensures |items| == |ts|
  {
    seq(|ts|, k requires 0 <= k < |ts| => Item(ts[k], "\n"))
  }

  function PrintProgram(p: Statements): string {
    Render(Lines(YieldStmts(p))) + [NUL]
  }

  predicate AllAdmissible(ts: seq<Token>) {
    forall k :: 0 <= k < |ts| ==> Admissible(ts[k])
  }

  lemma {:induction false} LinesSeparated(ts: seq<Token>)
    requires AllAdmissible(ts)
    ensures SeparatedWithin(Lines(ts))
  {
    if ts != [] {
      LinesSeparated(ts[1..]);
      assert Lines(ts)[1..] == Lines(ts[1..]);
      BreakSeparates(ts[0], Render(Lines(ts[1..])) + "\n");
    }
  }

  lemma BreakSeparates(t: Token, after: string)
    ensures Apart(t, "\n" + after)
  {
    assert ("\n" + after)[0] == '\n';
  }

  /** For every accepted program whose names and literals the lexer can read: write it as it
      stands, lex it and parse it. */
  lemma {:induction false} WriteLexParse(p: Statements)
    requires AcceptedAll(p, NoBlock) && AllAdmissible(YieldStmts(p))
    ensures CompileText(PrintProgram(p)) == OutcomeOf(p)
  {
    hide CompileText, AcceptedAll, OutcomeOf, YieldStmts, Separated;
    LinesWrite(YieldStmts(p));
    TextToTree(PrintProgram(p), p, "", Lines(YieldStmts(p)));
  }

  lemma LinesWrite(y: seq<Token>)
    requires AllAdmissible(y)
    ensures Writes(Render(Lines(y)) + [NUL], y, "", Lines(y)) && !EndsInName(Lines(y))
  {
    hide Separated, Render;
    var items := Lines(y);
    LinesSeparated(y);
    assert ItemTokens(items) == y;
    assert "" + (Render(items) + [NUL]) == Render(items) + [NUL];
  }

  lemma StillAdmissible(y: seq<Token>, z: seq<Token>)
    requires Within(y, z) && AllAdmissible(z)
    ensures AllAdmissible(y)
  {
    forall k | 0 <= k < |y| ensures Admissible(y[k]) {
      assert y[k] in y;
    }
  }

  /** For every program whose names and literals the lexer can read, whatever parentheses it
      has: print it with the fewest parentheses, lex it, parse it, and the result is the
      program's tree, unless it begins with a plain assignment or has `&&` or `||` in it. */
  lemma {:induction false} PrintLexParse(p: Statements)
    requires PrintableAll(p, NoBlock) && AllAdmissible(YieldStmts(p))
    ensures CompileText(PrintProgram(FitStmts(p))) == OutcomeOf(p)
  {
    hide CompileText, AcceptedAll, PrintableAll, EveryIn, YieldStmts, BuildStmts, PrintProgram, Within, FitStmt;
    FitStmtsDone(p, NoBlock);
    FitStmtsWithin(p);
    StillAdmissible(YieldStmts(FitStmts(p)), YieldStmts(p));
    if p.Statements? {
      FitIsAssign(p.head);
    }
    WriteLexParse(FitStmts(p));
  }

  // ----- texts that end in a name

  /** A name behind an accepted program. With a blank behind it, it is left unread; if it
      touches the closing zero, there is no end marker, and the parser reads behind the
      tokens. */
  lemma {:induction false} TrailingName(source: string, p: Statements, x: string, lead: string, items: seq<Item>)
    requires AcceptedAll(p, NoBlock) && Writes(source, YieldStmts(p) + [Name(x)], lead, items)
    ensures CompileText(source) == if EndsInName(items) && OutcomeOf(p).Ok? then OutOfBounds else OutcomeOf(p)
  {
    hide Lex, Program, Separated, AcceptedAll, EveryIn, YieldStmts, BuildStmts, Render, Places;
    EndMarkerExactly(lead, items);
    PlacesAreTokens(items, 1 + NewLines(lead));
    WrittenTokens(lead, items);
    NameBehind(p, x, Bare(Lex(source, 1).value));
  }

  lemma NameBehind(p: Statements, x: string, ts: seq<Token>)
    requires AcceptedAll(p, NoBlock)
    requires ts == YieldStmts(p) + [Name(x)] || ts == YieldStmts(p) + [Name(x)] + [Sym(Eof)]
    ensures Program(ts) == if |ts| == |YieldStmts(p)| + 1 && OutcomeOf(p).Ok? then OutOfBounds else OutcomeOf(p)
  {
    hide Sequence, AcceptedAll, EveryIn, YieldStmts, BuildStmts;
    var k := |YieldStmts(p)|;
    assert At(ts, 0, YieldStmts(p)) && ts[k] == Name(x);
    if p.Statements? && p.head.SAssign? {
      FirstTwo(p, ts);
      AssignsFirstFails(ts);
    } else if !EveryIn(p, NoLogic) {
      StmtsRefused(p, ts, 0, NoBlock);
    } else if |ts| == k + 1 {
      NameAtEnd(ts, k, NoBlock);
      OutsideBehind(p, ts, 0, NoBlock);
    } else {
      NameStops(p, ts, k, NoBlock);
      StmtsDone(p, ts, 0, NoBlock);
    }
  }

  lemma FirstTwo(p: Statements, ts: seq<Token>)
    requires p.Statements? && p.head.SAssign? && At(ts, 0, YieldStmts(p))
    ensures AssignsFirst(ts, 0)
  {
    var y := YieldStmts(p);
    assert y[0] == YieldStmt(p.head)[0] && y[1] == YieldStmt(p.head)[1];
    AtIndex(ts, 0, y, 0);
    AtIndex(ts, 0, y, 1);
  }

  lemma NameAtEnd(ts: seq<Token>, k: nat, b: Block)
    requires k + 1 == |ts| && ts[k].kind == Ident
    ensures Sequence(ts, k, b) == OutOfBounds && NoElseAt(ts, k)
  {
    hide StmtParser.Statement;
    StatementIsNone(ts, k, b);
  }

  lemma NameStops(p: Statements, ts: seq<Token>, k: nat, b: Block)
    requires k + 2 == |ts| && ts[k].kind == Ident && ts[k + 1].kind == Eof
    ensures StopsAt(p, ts, k, b)
  {
    hide EndsOpen;
  }

  // ----- expressions from text

  function PrintExpr(e: Expr): string {
    Render(Lines(Yield(Fit(e, OR, false)))) + [NUL]
  }

  /** Text to tree for expressions: print any expression tree with the fewest parentheses,
      write its tokens with any blanks that keep them apart and a closing zero, lex and
      parse that. The tree comes back, with the cursor right behind its tokens, if and only
      if it has no negation, no `&&` and no `||`, does not begin with an array access, and
      the text does not end in a name that touches the closing zero. */
  lemma {:induction false} ExprTextToTree(e: Expr, source: string, lead: string, items: seq<Item>)
    requires Source(e) && Writes(source, Yield(Fit(e, OR, false)), lead, items)
    ensures Lex(source, 1).Ok?
    ensures var ts, y := Bare(Lex(source, 1).value), Yield(Fit(e, OR, false));
            Level(OR, ts, 0) == Ok(Parsed(Tree(e), |y|))
            <==> NoLogic(e) && NoNeg(e) && !LooksBehindStart(y, 0) && !EndsInName(items)
  {
    hide Lex, Level, Tree, Fit, Yield, NoLogic, NoNeg, Source, Separated, Render, Proper, EndsInName, Places;
    var y := Yield(Fit(e, OR, false));
    EndMarkerExactly(lead, items);
    var ts := Bare(Lex(source, 1).value);
    PlacesAreTokens(items, 1 + NewLines(lead));
    if !EndsInName(items) {
      WrittenTokens(lead, items);
      LexProper(source, 1);
      AtEndMarker(e, ts);
      RoundTrip(e, OR, ts, 0);
    }
  }

  lemma AtEndMarker(e: Expr, ts: seq<Token>)
    requires Source(e) && ts == Yield(Fit(e, OR, false)) + [Sym(Eof)]
    ensures ExprTheorems.Written(Fit(e, OR, false), OR, ts, 0)
    ensures LooksBehindStart(ts, 0) <==> LooksBehindStart(Yield(Fit(e, OR, false)), 0)
  {
    hide Fit, Yield, Source, OpenEnd, NoOperator;
    var w := Fit(e, OR, false);
    FitFits(e, OR, false);
    SourceIsClosed(w);
    EndsBefore(w, false, Eof);
    NoOperatorAtClose(ts, |Yield(w)|);
  }

  /** The printed text of every such expression. */
  lemma {:induction false} PrintLexParseExpr(e: Expr)
    requires Source(e) && AllAdmissible(Yield(e))
    ensures Lex(PrintExpr(e), 1).Ok?
    ensures var ts, y := Bare(Lex(PrintExpr(e), 1).value), Yield(Fit(e, OR, false));
            Level(OR, ts, 0) == Ok(Parsed(Tree(e), |y|)) <==> NoLogic(e) && NoNeg(e) && !LooksBehindStart(y, 0)
  {
    hide Lex, Level, Tree, Fit, Yield, NoLogic, NoNeg, Source, Render, Within, Writes, EndsInName, LooksBehindStart;
    var y := Yield(Fit(e, OR, false));
    FitWithin(e, OR, false);
    StillAdmissible(y, Yield(e));
    LinesWrite(y);
    ExprTextToTree(e, PrintExpr(e), "", Lines(y));
  }

  // ----- what the lexer hands over

  /** Every token array the lexer hands to the parser is proper: the parser's soundness
      applies to it. */
  lemma {:induction false} LexProper(source: string, line: nat)
    requires Lex(source, line).Ok?
    ensures Proper(Bare(Lex(source, line).value))
  {
    hide ScanOne;
    if source != "" {
      LexemeProper(source);
      match ScanOne(source)
      case Blank => LexProper(source[1..], LineAfter(line, source[0]));
      case Lexeme(t, n) =>
        LexProper(source[n..], line);
        assert Lex(source, line).value == [Located(t, line)] + Lex(source[n..], line).value;
      case _ =>
    }
  }

  lemma LexemeProper(s: string)
    requires s != ""
    ensures ScanOne(s).Lexeme? ==> ProperToken(ScanOne(s).token)
  {
    hide DigitCount, NameCount, IntValue, CString;
  }

  /** The whole front end, exactly: a text compiles to a tree if and only if it lexes and
      its tokens read as an accepted program with that tree. */
  lemma {:induction false} CompileCharacterised(source: string, n: Node)
    ensures CompileText(source) == Ok(n) <==>
            && Lex(source, 1).Ok?
            && var ts := Bare(Lex(source, 1).value);
               if ts == [] then n == Null else exists p, j :: ReadsAs(p, ts, 0, NoBlock, n, j)
  {
    hide Lex, Program, ReadsAs, Proper;
    if Lex(source, 1).Ok? {
      LexProper(source, 1);
      ProgramCharacterised(Bare(Lex(source, 1).value), n);
    }
  }
}
