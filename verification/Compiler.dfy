/** The pipeline of slkc/src/main.c on the two imperative halves: a lexer object and a
    parser object, from the text to linked nodes. */
module Compiler {
  import opened Outcomes
  import opened Tokens
  import opened Nodes
  import opened AstNodes
  import opened Syntax
  import opened StmtParser
  import opened Programs
  import opened ProgramPrinter
  import opened ProgramTheorems
  import opened LexerSpec
  import opened LexerMethods
  import opened ParserMethods
  import opened Compile

  /** The objects made are the ones the specification says: a failure is the same failure,
      a tree is the same tree. */
  ghost predicate Made(r: Result<AstNode?>, spec: Result<Node>)
    reads if r.Ok? then {r.value} else {}, if r.Ok? then Repr(r.value) else {}
  {
    || (spec.Ok? && r.Ok? && Represents(r.value, spec.value))
    || (spec.SyntaxError? && r == SyntaxError(spec.message))
    || (spec.OutOfBounds? && r == OutOfBounds)
  }

  method CompileSource(source: string) returns (r: Result<AstNode?>)
    ensures Made(r, CompileText(source))
  {
    hide Lex, Program, Bare;
    var lexer := new Lexer(source);
    var stream :- lexer.LexSource();
    var parser := new Parser(Bare(stream));
    r := parser.ParseProgram();
  }

  /** The methods bring back every program that is printed with the fewest parentheses,
      unless it begins with a plain assignment or has `&&` or `||` in it. */
  method CompilePrinted(p: Statements) returns (r: Result<AstNode?>)
    requires PrintableAll(p, NoBlock) && AllAdmissible(YieldStmts(p))
    ensures Made(r, OutcomeOf(p))
  {
    hide CompileText, PrintableAll, YieldStmts, OutcomeOf, PrintProgram, FitStmts, Made;
    PrintLexParse(p);
    r := CompileSource(PrintProgram(FitStmts(p)));
  }
}
