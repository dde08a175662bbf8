# SelkScript: a verified model of the compiler front end

SelkScript is a small C-like language for games. Its compiler front end is a hand-written
lexer, a recursive-descent parser, and the arrays, rings and arenas they stand on. This
project models these in Dafny and proves what they are for, and where the code does not
do it, exactly when it does.

`dafny verify dfyconfig.toml` verifies everything. Nothing here was run against the C
program; the model was written from its source.

## How it is built

**The parser.** `ExprParser` and `StmtParser` say what each function of the parser returns
for a token array and a cursor: a tree and the next cursor, a syntax error, or a read
outside the array. `Syntax` and `Programs` hold the source language: expressions with their
parentheses, statements, declarations, the tokens they are written with (`Yield`), the level
grammar (`Fits`), what the parser accepts (`Accepted`) and the tree the code makes of them
(`Build`), with the meant tree beside it (`ExprTheorems.Tree`). Soundness (`ExprSound`) and
completeness (`ExprComplete`) together characterise every level; the round trips, maximal
munch, leaf conservation and indifference to parentheses follow from them. `Printer` puts in
the fewest parentheses and, for comparison, all of them; `ProgramPrinter` does so in a whole
program. `Precedence` says how chains of operators group, by a table that names no level, and
`Forms` has the tokens and nodes of every form of the language spelled out. `ProgramSound` and `ProgramComplete` do for types, declarations, statements and
programs what the first two do for expressions, and characterise the whole parser.
`ExprRefused` and `ProgramRefused` say what becomes of the grammatical rest, the expressions
and programs with `&&` or `||`; `CursorSafety` and `ProgramSafety` when tokens outside the
array are read; `Recovery` and `Loss` which programs a tree determines, and `Kept` when two
programs have the same tree. `ExprCases` and
`StmtCases` unfold the specification one function at a time.

`ParserMethods` is the parser as it is written: an object with a cursor, methods that move it
and allocate and link nodes (`AstNodes`) step by step. Each method has the outcome of its
specification: the same failure, or fresh nodes for the same tree and the same cursor.

**The lexer.** `LexerSpec` is a recursive tokenizer on the rest of the text, `LexerTheorems` a
writer and its round trip, `LexerCoverage` what an accepted text must look like, `Spellings`
every word, symbol, blank and numeral as literals, without the lexer's tables, and
`LexerMethods` the index loop with its scanners. `Compile` and `Compiler` put lexer and parser
together.

**Rings.** `Rings` describes a ring by the sequence of its nodes, head first. The methods do
the pointer surgery of the list and their contracts name the resulting sequences; lemmas say
what these sequences keep.

**Arena, alignment, array.** `Alignment` works the mask out bit by bit on words of any width.
`Arenas` models the linear allocator as a state machine over requests and as an object with
its bytes; `GrowingArrays` does the same for the array macros.

## Where the code departs from what it seems to mean

The code is followed as written; each theorem says what becomes of it.

- The check behind a negation assigns instead of comparing (parser.c:315), so `-x` loses its
  operand. Round trip and leaf conservation hold exactly without negated operands.
- The bitwise level takes `|` and `&` without a look at the next symbol (parser.c:406-409),
  although the grammar (selkscript.bnf:112-118) has `&&` and `||`: a program that is accepted
  but for them is refused, wherever in it they stand.
- The look-behind for a dot tests the cursor's own address (parser.c:258), so at index 0 it
  reads in front of the array; this happens exactly for an array access or a plain assignment
  as the first tokens. Behind the type of a function its name is taken unseen
  (parser.c:658-663), so the end marker is taken for it and the parser reads on behind it.
- Behind a dot the array access is not recognised (parser.c:258-264): `a.b[i]` ends before the
  bracket, and the printer writes `a.(b[i])`.
- The parser takes three liberties, which `Accepted` has and `Legal` has not: a function's
  name is taken without a look at its kind (parser.c:658-663), a comma may stand behind the
  last parameter (parser.c:587-590), and the semicolon behind the last member of a struct may
  be missing (parser.c:614-617). Besides, a function's type can have an array suffix if its
  size happens to begin with the parenthesis that the lookahead looks for, as in
  `int[(7)] f() {}` (parser.c:855-862).
- The parser does not ask for the end of its input: it stops without an error before the first
  token with which no statement begins (parser.c:895-904).
- `%` binds looser than `+` and `-`, and operators of one rank group to the right
  (parser.c:322-421), as the grammar has it (selkscript.bnf:138-164): `a - b - c` is
  `a - (b - c)`.
- An else part is linked over the first statement of the body (parser.c:765-775, 791-801).
- The lookahead for declarations has a fixed length (parser.c:855-866), so some types can only
  be parameters and members.
- Keywords have no word boundary (lexer.c:41-58); the character behind a numeral's dot is taken
  unread (lexer.c:234-246); the name scanner searches the digit literal with the length of the
  letter literal (lexer.c:257, 267-268) and so takes a zero for a digit.
- `atoi` saturates, as on the platform the project builds for.

## Model

| member | source | states |
|---|---|---|
| ExprTheorems.LevelCharacterised | slkc/src/slkc/compiler/parser.c:254-523 | A level returns a tree and a cursor inside the array exactly when some expression of the right-recursive level grammar (left operand one level tighter, right operand of the same level) is written between the two cursors, has that tree, and is not continued by what follows, and the tokens do not begin, at index 0, with an array access. Both directions, for every level, start and array of proper tokens. |
| ExprSound.Sound | slkc/src/slkc/compiler/parser.c:119-540 | Whenever a level succeeds, from any start, the consumed tokens derive the returned tree in the level grammar; the derivation is produced. |
| ExprComplete.Complete | slkc/src/slkc/compiler/parser.c:119-540 | Whenever a grammatical expression stands at the cursor and what follows does not continue it, the level consumes exactly it and returns its tree; only an array access at index 0 is excepted, which reads in front of the tokens. |
| ExprParser.Level | slkc/src/slkc/compiler/parser.c:119-523 | Every level ends on every input. It returns no node exactly at the end marker, and moves the cursor forward exactly when it returns a node, so `(tokens left, level)` decreases. |
| ExprTheorems.MaximalMunch | slkc/src/slkc/compiler/parser.c:322-523 | Where a level stops, neither an operator of that level nor one of any tighter level stands at the cursor, two-symbol operators included. |
| ExprTheorems.RoundTrip | slkc/src/slkc/compiler/parser.c:254-523 | Print any tree for any level with the fewest parentheses, at any index not behind a dot, before anything that does not continue the level: the tree comes back, with the cursor exactly behind it, if and only if it has no negation and no `&&` or `\|\|` and the tokens do not begin, at index 0, with an array access. |
| ExprTheorems.ParenthesesDoNotMatter | slkc/src/slkc/compiler/parser.c:161-167 | The print with parentheses around every operand and the print with the fewest parse to the same tree, for every tree without `&&` and `\|\|`, wherever each of them stands; either parse fails exactly when its tokens begin, at index 0, with an array access. |
| Printer.FitFits | slkc/src/slkc/compiler/parser.c:280-523 | The sparing printer puts parentheses wherever the level grammar needs them, also around an array access behind a dot. |
| Printer.FitIsShortest | slkc/src/slkc/compiler/parser.c:161-167 | No grammatical way to parenthesise the same tree is shorter than the sparing printer's. |
| ExprTheorems.DoubledSymbolRefused | slkc/src/slkc/compiler/parser.c:389-421 | Behind any operand, `&&` and `\|\|` are a syntax error at every level from bitwise on, because the bitwise level takes the first symbol alone. |
| Operators.OperatorFound | slkc/src/slkc/compiler/parser.c:322-523 | The operator a level finds is the one spelled at the cursor, with one or two symbols, and belongs to that level. |
| Precedence.ChainGroups | slkc/src/slkc/compiler/parser.c:305-523 | Precedence by a table of the sixteen operators that are read, which names no level: `*` and `/` bind tightest, then `+` and `-`, then `%`, then the bitwise operators, then the comparisons. A chain of any length of operands without operators of their own (or negated ones), closed by a symbol that ends expressions, comes back split at the first of its loosest operators, and so on in both halves: equal ones group to the right. With `&&` or `\|\|` in it, it is refused. |
| Precedence.Triple | slkc/src/slkc/compiler/parser.c:322-523 | For `a op b op' c`: the first operator groups first if and only if the table has it tighter. |
| Precedence.NotIsLoosest | slkc/src/slkc/compiler/parser.c:461-477 | With `!` in front, the whole chain is negated, comparisons included. |
| CursorSafety.OutOfBoundsExactly | slkc/src/slkc/compiler/parser.c:254-278 | On tokens that end in the end marker, an expression level reads outside the array exactly when it starts at index 0 on a name followed by a bracket; otherwise it leaves the cursor at the end marker at the latest. |
| Leaves.LeafConservation | slkc/src/slkc/compiler/parser.c:72-172 | Whenever a level parses, from any start and before anything, the names and literals of the tree, left to right, are those of the consumed tokens, none lost, added or moved, if and only if no consumed minus stands in front of an operand: each stands behind an operand, or last, where it has none to lose. |
| Leaves.NegationsAreSigns | slkc/src/slkc/compiler/parser.c:305-321 | The tree has no negation exactly when every consumed minus stands behind a name, a literal or a closing bracket. |
| ProgramSound.SequenceCharacterised | slkc/src/slkc/compiler/parser.c:814-901 | A statement sequence in a block returns a tree and a cursor exactly when the tokens between the two cursors are the writing of an accepted program of that block with that tree, no plain assignment stands at index 0, and nothing behind it begins another statement or an else part for an open `if`. Both directions, for every block, every array of proper tokens (what the lexer hands over: `Compile.LexProper`) and every start that is not behind a dot. |
| ProgramSound.ProgramCharacterised | slkc/src/slkc/compiler/parser.c:895-915 | The same for the whole parser: it succeeds with a tree if and only if an accepted program with that tree stands at the front; what no statement begins with is left unread. |
| ProgramSound.SoundSequence | slkc/src/slkc/compiler/parser.c:814-901 | Soundness for sequences: the program that was consumed, and why it stopped there. |
| ProgramSound.SoundStatement | slkc/src/slkc/compiler/parser.c:814-894 | Soundness for one statement in each block: the consumed tokens are the writing of a statement allowed there, with the returned tree. |
| ProgramSound.SoundFunction | slkc/src/slkc/compiler/parser.c:658-688 | What is taken for a function is one: a type, any token as name, parameters in parentheses, with or without a comma behind the last, and a body; the fixed lookahead has stopped on its parenthesis. |
| ProgramSound.SoundBranch | slkc/src/slkc/compiler/parser.c:752-803 | Soundness for if and else-if with the whole else chain. |
| ProgramSound.SoundDecls | slkc/src/slkc/compiler/parser.c:566-619 | Soundness for parameters and members, the comma and the missing semicolon at their end included. |
| ProgramSound.SoundTypeName | slkc/src/slkc/compiler/parser.c:175-230 | Soundness for types: a suffix belongs to the innermost type that can take one. |
| ProgramSound.OneReading | slkc/src/slkc/compiler/parser.c:814-901 | Accepted programs with the same tokens have the same tree. |
| ProgramTheorems.ProgramRoundTrip | slkc/src/slkc/compiler/parser.c:814-915 | What the parser makes of every accepted program of structs, functions, variables, assignments, returns, loops and branches, else chains included, written with the end marker behind it: if it begins with a plain assignment, a read in front of the tokens; otherwise its tree if no expression in it has `&&` or `\|\|`, and the error "Invalid Token" if one has, also under a negation or in a statement that an else part erases. |
| ProgramComplete.StmtsDone | slkc/src/slkc/compiler/parser.c:895-901 | The same for every statement sequence in every block, at every cursor, before anything that does not continue it. |
| ProgramTheorems.LookaheadClassifies | slkc/src/slkc/compiler/parser.c:854-872 | A variable of any type is recognised and parsed as one if and only if its type is simple, behind at most one `ref` or `const`, or behind two of them the second of which is `ref`, and it has no `&&` or `\|\|`; no type with an array suffix is. |
| ProgramTheorems.FunctionClassifies | slkc/src/slkc/compiler/parser.c:854-862 | A function of any type is recognised and parsed as one if and only if that type has at most one prefix, or two of which the second is `ref`, and then either no array suffix or a size that begins with a parenthesis, and the function has no `&&` or `\|\|`. |
| ProgramTheorems.ElseErasesFirstStatement | slkc/src/slkc/compiler/parser.c:791-801 | The parser returns the same tree for two accepted programs that differ only in the first statement of a body with an else part. |
| Kept.SameTreeExactly | slkc/src/slkc/compiler/parser.c:814-915 | Of two accepted programs that are parsed at all, the parser returns the same tree if and only if they are the same in all but parentheses, operands behind a minus, the first statement of each body with an else part, and the three liberties. |
| Kept.OnlyTheFirstIsLost | slkc/src/slkc/compiler/parser.c:752-803 | Of two functions that are one `if` with an else part each, the results are the same if and only if condition, else part and every statement of the body behind the first are: exactly the first is lost. |
| Kept.ElseHangs | slkc/src/slkc/compiler/parser.c:752-803 | The whole tree of such a function: the else part, with its chain, stands where the first statement's node would be, the later statements stay behind it, and without statements it stands to the right of the condition itself. |
| ProgramSafety.OutsideExactly | slkc/src/slkc/compiler/parser.c:814-915 | On proper tokens that end in the end marker, the parser reads outside the array if and only if they begin with a plain assignment, or they are a program left open behind the type of a function: finished accepted statements and the heads of functions, loops and branches whose bodies are open, in any nesting, and then a type that the lookahead takes for a function's, with the end marker where the name should be. |
| ProgramSafety.OpenedIsOutside | slkc/src/slkc/compiler/parser.c:658-663 | Every such program left open, unless it begins with a plain assignment that is finished, written with the end marker behind it, makes the parser read outside. |
| ProgramSafety.SequenceOpens | slkc/src/slkc/compiler/parser.c:814-901 | For sequences in every block: a read outside yields the program left open that stands at the cursor. |
| ProgramSafety.OpenFails | slkc/src/slkc/compiler/parser.c:814-901 | And the other way round: a program left open at the cursor, in any block, makes the sequence read outside. |
| ExprRefused.LogicFails | slkc/src/slkc/compiler/parser.c:322-523 | Every level refuses every grammatical expression with `&&` or `\|\|` anywhere in it: as operand, argument, index, item, in parentheses or under a negation. |
| ProgramRefused.StmtsRefused | slkc/src/slkc/compiler/parser.c:814-901 | Every sequence of accepted statements, in every block, is refused if any expression in it has `&&` or `\|\|`: sizes of arrays in types, conditions and else chains included. |
| Loss.RecoverableExactly | slkc/src/slkc/compiler/parser.c:746-803 | The tree of a legal program (accepted without the liberties listed above) without `&&` and `\|\|` determines the program, up to parentheses, if and only if it has no negation and no else part behind a body with statements. |
| Recovery.SameStmts | slkc/src/slkc/compiler/parser.c:814-901 | Two programs with the same tree are the same up to parentheses, if the first has neither of these. |
| BlockContext.ProgramInContext | slkc/src/slkc/compiler/parser.c:814-901 | In every tree the parser returns, else chains included: break and continue have a while, and return a function, as nearest enclosing while or function; if, else and while stand inside a function only; structs at the top only. |
| Forms.LiteralForms | slkc/src/slkc/compiler/parser.c:119-172 | Each kind of literal, for any value, as token and as node. |
| Forms.NameForms | slkc/src/slkc/compiler/parser.c:247-304 | A name, a call without arguments and a chain of members: their tokens, and the nodes the parser makes of them. |
| Forms.BracketForms | slkc/src/slkc/compiler/parser.c:232-252 | The same for parentheses and for two indices, around any expressions. |
| Forms.ListForms | slkc/src/slkc/compiler/parser.c:100-172 | The same for calls, struct and array literals with two items, whatever these are. |
| Forms.PrefixForms | slkc/src/slkc/compiler/parser.c:305-321 | The same for the two prefixes: a minus keeps nothing, `!` its operand. |
| Forms.BasicForms | slkc/src/slkc/compiler/parser.c:175-230 | The four type words and a name as a type. |
| Forms.PrefixedTypes | slkc/src/slkc/compiler/parser.c:175-230 | `ref` and `const` before any type. |
| Forms.SuffixedTypes | slkc/src/slkc/compiler/parser.c:175-230 | Array suffixes, with a size or without. |
| Forms.JumpForms | slkc/src/slkc/compiler/parser.c:715-730 | `break;` and `continue;` have each its own node in a loop, and are no statement elsewhere. |
| Forms.ReturnForm | slkc/src/slkc/compiler/parser.c:690-699 | `return` with any expression, in a function only. |
| Forms.WhileForm | slkc/src/slkc/compiler/parser.c:700-714 | `while` with any condition and body, not outside functions. |
| Forms.IfForm | slkc/src/slkc/compiler/parser.c:752-803 | `if` and `else` with any condition and bodies, not outside functions. |
| Forms.AssignForms | slkc/src/slkc/compiler/parser.c:731-745 | Assignments to a name and to a member, in every block. |
| Forms.VariableForms | slkc/src/slkc/compiler/parser.c:550-565 | Variables with a value and without, in every block. |
| Forms.StructForm | slkc/src/slkc/compiler/parser.c:621-639 | A struct with two members of any types, outside functions only. |
| Forms.FunctionForm | slkc/src/slkc/compiler/parser.c:665-688 | A function with two parameters of any types and any body, in every block. |
| Forms.CloserMissing | slkc/src/slkc/compiler/parser.c:100-172 | Behind any expression in parentheses, brackets or braces, another closing symbol is refused with a message that names the one that is due. |
| Forms.SemicolonMissing | slkc/src/slkc/compiler/parser.c:690-745 | Assignments, return, break and continue with another symbol where the semicolon is due are refused with a message that says so. |
| Forms.EnclosureMissing | slkc/src/slkc/compiler/parser.c:700-789 | So are `if` and `while` without the parenthesis before or behind the condition, or without the brace. |
| ParserMethods.Parser.ParseConst | slkc/src/slkc/compiler/parser.c:72-118 | Moves the cursor by one and makes a fresh leaf with the token's value. |
| ParserMethods.Parser.ParseConstList | slkc/src/slkc/compiler/parser.c:100-111 | Struct and array literals with their closing symbol; same outcome as the factor specification. |
| ParserMethods.Parser.ParseExprFactor | slkc/src/slkc/compiler/parser.c:119-172 | Same failure, or the same tree in fresh nodes and the same cursor, as the factor specification. |
| ParserMethods.Parser.ParseExprMemberAccess | slkc/src/slkc/compiler/parser.c:254-278 | The same for member access, with the look-behind at the token before the cursor. |
| ParserMethods.Parser.ParseExprArrayAccess | slkc/src/slkc/compiler/parser.c:247-252 | The same for a name and its indices. |
| ParserMethods.Parser.ParseExprArrayIndex | slkc/src/slkc/compiler/parser.c:232-245 | The same for a chain of bracketed indices. |
| ParserMethods.Parser.ParseExprCall | slkc/src/slkc/compiler/parser.c:280-304 | The same for calls. |
| ParserMethods.Parser.ParseExprNegate | slkc/src/slkc/compiler/parser.c:305-321 | The same for negation: the operand is parsed, linked, and unlinked again. |
| ParserMethods.Parser.ParseExprNot | slkc/src/slkc/compiler/parser.c:461-477 | The same for `!`, which a following `=` turns into a comparison. |
| ParserMethods.Parser.ParseExprBinary | slkc/src/slkc/compiler/parser.c:322-523 | The same for the seven binary levels, whose functions differ in symbols and next level only. |
| ParserMethods.Parser.ParseExprList | slkc/src/slkc/compiler/parser.c:525-540 | The same for expression lists, the empty list node at the end marker included. |
| ParserMethods.Parser.ParseExprTypeName | slkc/src/slkc/compiler/parser.c:175-230 | The same for types; no node where no type stands. |
| ParserMethods.Parser.ParseDeclVar | slkc/src/slkc/compiler/parser.c:550-565 | The same for a variable with or without a value. |
| ParserMethods.Parser.ParseDeclList | slkc/src/slkc/compiler/parser.c:566-619 | The same for parameters and struct members, which differ in separator and node kind only. |
| ParserMethods.Parser.ParseDeclStruct | slkc/src/slkc/compiler/parser.c:621-639 | The same for structs. |
| ParserMethods.Parser.ParseStmtBlock | slkc/src/slkc/compiler/parser.c:640-656 | The same for blocks; an empty block has no node. |
| ParserMethods.Parser.ParseDeclTypeVarname | slkc/src/slkc/compiler/parser.c:658-663 | The same for a function's type and name; the name's kind is not looked at. |
| ParserMethods.Parser.ParseFunctionSignature | slkc/src/slkc/compiler/parser.c:665-682 | The same for signatures. |
| ParserMethods.Parser.ParseDeclFunction | slkc/src/slkc/compiler/parser.c:683-688 | The same for functions. |
| ParserMethods.Parser.ParseStmtReturn | slkc/src/slkc/compiler/parser.c:690-699 | The same for return. |
| ParserMethods.Parser.ParseStmtWhile | slkc/src/slkc/compiler/parser.c:700-714 | The same for while. |
| ParserMethods.Parser.ParseStmtKeyword | slkc/src/slkc/compiler/parser.c:715-730 | The same for break and continue. |
| ParserMethods.Parser.ParseStmtAssign | slkc/src/slkc/compiler/parser.c:731-745 | The same for `name = value`, and no node for anything else. |
| ParserMethods.Parser.ParseStmtElse | slkc/src/slkc/compiler/parser.c:746-751 | The same for else. |
| ParserMethods.Parser.ParseBranch | slkc/src/slkc/compiler/parser.c:752-803 | The same for if and else-if with their else chain. |
| ParserMethods.Parser.LinkElse | slkc/src/slkc/compiler/parser.c:791-801 | The else part is written over the left child of the body's first statement in place, or becomes the right child. |
| ParserMethods.Parser.ParseMemberAssign | slkc/src/slkc/compiler/parser.c:836-853 | The same for assignments to a member. |
| ParserMethods.Parser.ParseStmt | slkc/src/slkc/compiler/parser.c:814-894 | The same for one statement in a block of the given kind. |
| ParserMethods.Parser.ParseDeclaration | slkc/src/slkc/compiler/parser.c:854-872 | The same for the lookahead that tells functions from variables. |
| ParserMethods.Parser.ParseStmtSeq | slkc/src/slkc/compiler/parser.c:895-901 | The same for statement sequences: each statement's node is linked to the rest after the rest is parsed. |
| ParserMethods.Parser.ParseProgram | slkc/src/slkc/compiler/parser.c:902-915 | The same for the whole token stream. |
| LexerTheorems.LexRoundTrip | slkc/src/slkc/compiler/lexer.c:289-332 | Write any admissible tokens, keywords and `else if` included, each kept apart from what follows, with any blanks and a closing zero: lexing gives back exactly these tokens with names, values and lines, and one end marker. |
| LexerTheorems.EndMarkerExactly | slkc/src/slkc/compiler/lexer.c:257-284 | Of these texts, the end marker is there if and only if no name stands directly before the closing zero. |
| LexerTheorems.NameSwallowsTerminator | slkc/src/slkc/compiler/lexer.c:267-274 | The search for a digit also finds the literal's own zero, so a name directly before the closing zero takes it along. |
| LexerTheorems.NameReadExactly | slkc/src/slkc/compiler/lexer.c:41-58 | A word of letters and digits that begins with a letter is read as the name it is, before anything that does not continue it, if and only if it begins with no keyword and with neither `true` nor `false`. |
| Spellings.WordsRead | slkc/src/slkc/compiler/lexer.c:12-27 | Each of the fifteen words, as a literal and before any text at all, is read as its own token; only `else` must not have ` if` behind it. |
| Spellings.SymbolsRead | slkc/src/slkc/compiler/lexer.c:98-158 | Each of the 21 symbols, as a literal and before any text, is read as its own token. |
| Spellings.BlanksSkipped | slkc/src/slkc/compiler/lexer.c:85-97 | Space, tab and carriage return change nothing, and a line break the line alone, whatever the text behind. |
| Spellings.TextEnds | slkc/src/slkc/compiler/lexer.c:289-332 | A zero ends the text with an end marker, a byte -1 and the end of the text without. |
| Spellings.InvalidExactly | slkc/src/slkc/compiler/lexer.c:289-332 | A text is refused at its first character if and only if that is none of the letters, digits, the underscore, the four blanks, the 21 symbols, zero and the byte -1. |
| Spellings.NamesRead | slkc/src/slkc/compiler/lexer.c:257-284 | A word of the letters a to z and A to Z, underscores and digits that does not begin with a digit, and is not continued, is a name if and only if it begins with none of the fifteen words and with neither `true` nor `false`. |
| Spellings.BoolsRead | slkc/src/slkc/compiler/lexer.c:258-266 | `true` and `false` before any text. |
| Spellings.NumbersRead | slkc/src/slkc/compiler/lexer.c:218-251 | Every number in decimal notation, zeros in front or not, has its value, cut off at 2147483647. |
| Spellings.FloatsRead | slkc/src/slkc/compiler/lexer.c:223-246 | Digits, a dot, any one character and digits are a float if no second dot follows, and refused if one does. |
| LexerCoverage.Coverage | slkc/src/slkc/compiler/lexer.c:289-332 | On every accepted text: the tokens' spans and the skipped blanks, in order, are the text up to where lexing stops; each token is what its span spells; lexing stops at a zero, a byte -1 or the end. |
| LexerCoverage.LinesExactly | slkc/src/slkc/compiler/lexer.c:85-97 | A token's line is one plus the line breaks before its first character, if and only if no numeral before it has a line break right behind its dot. |
| LexerCoverage.LinesOfDigits | slkc/src/slkc/compiler/lexer.c:85-97 | If in the text no dot behind a digit has a line break behind it, every token's line is one plus the line breaks before it. |
| LexerCoverage.FloatsSwallow | slkc/src/slkc/compiler/lexer.c:223-246 | A token contains a line break if and only if it is a numeral whose dot has one right behind it. |
| LexerMethods.FindChar | slkc/src/slkc/compiler/lexer.c:206-213 | True exactly when the character is among the bytes searched. |
| LexerMethods.Lexer.ScanKeyword | slkc/src/slkc/compiler/lexer.c:41-58 | Finds the keyword exactly when the text begins with it, no word boundary asked for, and then stands on its last character; otherwise does not move. |
| LexerMethods.Lexer.LexEmpty | slkc/src/slkc/compiler/lexer.c:85-97 | Skips one blank and counts a line break. |
| LexerMethods.Lexer.LexSymbols | slkc/src/slkc/compiler/lexer.c:98-158 | Fills in the symbol at the index, if there is one. |
| LexerMethods.Lexer.LexKeywords | slkc/src/slkc/compiler/lexer.c:159-205 | The fifteen tests in their order find the first keyword of the list that the text begins with, `else if` before `else`. |
| LexerMethods.Lexer.LexNumeral | slkc/src/slkc/compiler/lexer.c:218-251 | The loop reads what the numeral specification says: digits, and behind a dot one more character of any kind and digits; a second dot fails. |
| LexerMethods.Lexer.LexName | slkc/src/slkc/compiler/lexer.c:260-281 | The loop reads the longest run of name characters, the zero counted as one. |
| LexerMethods.Lexer.LexTermsymbols | slkc/src/slkc/compiler/lexer.c:215-286 | Numerals, truth values and names, in this order. |
| LexerMethods.Lexer.LexSource | slkc/src/slkc/compiler/lexer.c:289-332 | The index loop returns what the recursive tokenizer `Lex` returns on the whole text, tokens, lines and errors. |
| Compile.TextToTree | slkc/src/main.c:50-51 | Text to tree: lexing and parsing any writing of an accepted program comes to exactly what the program round trip says: its tree, "Invalid Token" with `&&` or `\|\|`, or a read in front of the tokens with a plain assignment first. |
| Compile.PrintLexParse | slkc/src/main.c:50-51 | For every program whose names and literals can be read, whatever parentheses it has: print it with the fewest, lex and parse it, and the outcome is the same: its tree, unless it begins with a plain assignment or has `&&` or `\|\|`. |
| Compile.WriteLexParse | slkc/src/main.c:50-51 | The same for accepted programs written as they stand. |
| Compile.TrailingName | slkc/src/slkc/compiler/lexer.c:257-284 | A name behind any accepted program: the parser reads behind the tokens if and only if the name touches the closing zero (so that there is no end marker) and the program itself parses; otherwise the outcome is the program's, as the name is left unread. |
| Compile.ExprTextToTree | slkc/src/slkc/compiler/parser.c:119-540 | Text to tree for expressions: print any expression tree with the fewest parentheses, write its tokens with any blanks that keep them apart and a closing zero, lex and parse: the tree comes back, with the cursor right behind it, if and only if it has no negation, no `&&` and no `\|\|`, does not begin with an array access, and the text does not end in a name that touches the closing zero. |
| Compile.PrintLexParseExpr | slkc/src/slkc/compiler/parser.c:119-540 | The same for the printed text of every expression tree whose names and literals can be read. |
| ProgramPrinter.FitStmtsDone | slkc/src/slkc/compiler/parser.c:814-901 | Printing with the fewest parentheses turns every program of source expressions into an accepted one with the same tree. |
| Compile.CompileCharacterised | slkc/src/main.c:50-51 | The front end, exactly: a text compiles to a tree if and only if it lexes and its tokens read as an accepted program with that tree. |
| Compile.LexProper | slkc/src/slkc/compiler/lexer.c:289-332 | What the lexer hands over is what the soundness of the parser asks of its tokens. |
| Compiler.CompileSource | slkc/src/main.c:50-51 | The two objects together return the same error as the specification, or linked nodes that represent its tree. |
| Compiler.CompilePrinted | slkc/src/main.c:50-51 | Print with the fewest parentheses, lex with the lexer object, parse with the parser object: nodes that represent the program's tree, or the failure, exactly as for the specification. |
| AstNodes.AstNode.SetLeft | slkc/src/slkc/compiler/parser.c:72-172 | Linking a child keeps the node a tree of its own and changes its shape in that child only. |
| AstNodes.AstNode.SetRight | slkc/src/slkc/compiler/parser.c:814-901 | The same for the right child. |
| Examples.NegationLosesOperand | slkc/src/slkc/compiler/parser.c:311-318 | `-7` becomes a negation of nothing, and the literal is lost. |
| Examples.LogicRefused | slkc/src/slkc/compiler/parser.c:404-409 | `7 && 7` is a syntax error. |
| Examples.RemainderOfSum | slkc/src/slkc/compiler/parser.c:368-387 | `7 + 7 % 7` is the remainder of a sum, and `7 - 7 - 7` is 7 less a difference. |
| Examples.AccessStopsAtBracket | slkc/src/slkc/compiler/parser.c:256-264 | `x.x[7]` ends before the bracket. |
| Examples.AssignmentAtStart | slkc/src/slkc/compiler/parser.c:254-278 | `x = 7;` as a whole program reads in front of the tokens. |
| Examples.FunctionNamedByLiteral | slkc/src/slkc/compiler/parser.c:658-663 | `int 7()` is taken as a function's type and name. |
| Examples.FunctionWithoutName | slkc/src/slkc/compiler/parser.c:658-663 | `int[(7)]` and then nothing reads behind the end. |
| Examples.FunctionWithoutNameInBody | slkc/src/slkc/compiler/parser.c:658-663 | So does `void x() { int[(7)]`. |
| Examples.ArrayVariableMissed | slkc/src/slkc/compiler/parser.c:855-866 | `int[] x;` is not recognised as a declaration. |
| Examples.KeywordInsideName | slkc/src/slkc/compiler/lexer.c:41-58 | `if7` begins with the word `if`. |
| Examples.BreakBehindDot | slkc/src/slkc/compiler/lexer.c:234-246 | A name on the line behind `1.` is counted to the line before. |
| Rings.ListNode.Remove | slkc/src/slkc/list.c:12-18 | The node becomes a ring of its own; the others stay linked both ways in their order, and are a ring if and only if the node was not their head. |
| Rings.ListNode.InsertBefore | slkc/src/slkc/list.c:30-39 | Within a ring and between rings: the resulting sequences are named, every link and head pointer follows from them; the ring that is left is one exactly when it keeps its head; inserting a node before itself only removes it. |
| Rings.ListNode.InsertAfter | slkc/src/slkc/list.c:41-50 | The same behind the target. |
| Rings.ListNode.InsertTail | slkc/src/slkc/list.c:52-54 | The node becomes the last of the ring, whichever member is given. |
| Rings.ListNode.InsertHead | slkc/src/slkc/list.c:56-58 | The node comes right behind the head. |
| Rings.ListNode.Count | slkc/src/slkc/list.c:3-10 | On every ring and from every member the loop ends at the number of nodes besides the head. |
| Rings.ListNode.Tail | slkc/src/slkc/list.c:60-62 | The last node, or the head when it is alone. |
| Rings.BeforePlaces | slkc/src/slkc/list.c:30-39 | In the resulting ring the node's successor is the target; without the node the ring is the old one; exactly one node is gained. |
| Rings.AfterPlaces | slkc/src/slkc/list.c:41-50 | The same with the target as predecessor. |
| Rings.MovedBeforePlaces | slkc/src/slkc/list.c:30-39 | A move within a ring keeps its nodes, its head and the cyclic order of the others, and puts the node before its target. |
| Rings.MovedAfterPlaces | slkc/src/slkc/list.c:41-50 | The same behind the target. |
| Rings.Relocate | slkc/src/slkc/list.c:30-39 | In any population of disjoint rings, inserting any node before any other leaves all rings rings if and only if the node does not leave others behind as their head. |
| Rings.RelocateAfter | slkc/src/slkc/list.c:41-50 | The same for inserting any node behind any other. |
| Rings.RingLinks | slkc/src/slkc/list.c:3-62 | A ring in its nodes' own fields, exactly: all different, `next` from each to the one behind it and from the last to the first, `prev` back, `head` to the first. |
| Rings.PutAndTake | slkc/src/slkc/list.c:52-62 | A fresh node put at the tail, and the tail taken off again, restore every link of the ring. |
| Alignment.MaskIsArithmetic | slkc/include/slkc/memory.h:93-98 | For every address and power of two without wrap-around, the mask form is the least multiple not below the address, less than one alignment away, and unchanged by a second application. |
| Alignment.AlignForwardBounds | slkc/include/slkc/memory.h:93-98 | For every alignment at all, without wrap-around, the result is not below the address and less than one alignment above it. |
| Alignment.PowersOfTwoExactly | slkc/include/slkc/memory.h:93-98 | The mask form is right for every address that does not wrap if and only if the alignment is a power of two; otherwise it is wrong at address 1. |
| Alignment.AlignsUnlessWrapped | slkc/include/slkc/memory.h:93-98 | For a power of two it is right for an address if and only if the addition does not wrap. |
| Alignment.MaskWraps | slkc/include/slkc/memory.h:93-98 | When it wraps, the result is address zero. |
| Alignment.MaskIsMultiple | slkc/include/slkc/memory.h:93-105 | The result is aligned in the sense of `sk_is_aligned`, wrap-around or not. |
| Arenas.CheckedExactly | slkc/src/slkc/memory.c:108-120 | In a debug build, an answered block lies in the free part of the buffer if and only if neither the alignment nor the size wraps; without wrap-around a request with an alignment is answered if and only if it ends before the last byte; for a power of two only the size can wrap, because a wrapped alignment gives the null address, which is asserted against. |
| Arenas.SizeWrapAnswered | slkc/src/slkc/memory.c:108-120 | A request whose size wraps is answered with a block that ends outside the buffer. |
| Arenas.AlignmentWrapAnswered | slkc/src/slkc/memory.c:108-120 | So is one whose alignment is no power of two and wraps: its block begins in front of the buffer. |
| Arenas.RunsExactly | slkc/src/slkc/memory.c:108-138 | Over every run of allocate, reallocate and clear in a debug build, the blocks since the last clear are at all times inside the buffer, aligned to their powers of two, and each behind all those before it, if and only if no answered request wraps. |
| Arenas.UncheckedAnswers | slkc/src/slkc/memory.c:108-120 | Without checks every request is answered; for a power of two without wrap-around the block begins at the least multiple not below the pointer, which then stands right behind the block. |
| Arenas.BuildsAgree | slkc/src/slkc/memory.c:108-120 | Whatever a debug build answers, a build without checks answers with the same block and pointer. |
| Arenas.ChecksOnlyStop | slkc/src/slkc/memory.c:108-138 | The same over whole runs: without checks every run comes to its end, with the blocks and pointers of the debug build wherever that one comes to its end. |
| Arenas.UncheckedRunsStack | slkc/src/slkc/memory.c:108-138 | Without checks, as long as nothing wraps around, every run keeps its blocks aligned and each behind all those before it, up to the pointer. |
| Arenas.LaidDisjoint | slkc/src/slkc/memory.c:108-120 | Such blocks have no address in common. |
| Arenas.LinearAllocator.Malloc | slkc/src/slkc/memory.c:108-120 | Answers, and moves the pointer, as the step function says. |
| Arenas.LinearAllocator.Realloc | slkc/src/slkc/memory.c:122-129 | A growing reallocate copies exactly the first old bytes to the new block and changes no other byte; any other returns the block and changes nothing. |
| Arenas.LinearAllocator.ClearAll | slkc/src/slkc/memory.c:135-138 | Only the pointer goes back to the head. |
| Arenas.LinearAllocator.constructor | slkc/src/slkc/memory.c:140-144 | The pointer starts at the head, the tail is one buffer size behind it. |
| Arenas.Grow | slkc/src/slkc/memory.c:122-129 | Growing a block of a run keeps the blocks laid out, starts the new block with the old bytes, and leaves the bytes of all blocks alone. |
| GrowingArrays.RunIsPlain | slkc/include/slkc/array.h:45-84 | From a capacity of at least 1, every run of push, pop and clear agrees with a plain sequence and stays within capacity; the items moved are exactly the capacity gained, fewer than two for each push. |
| GrowingArrays.CapacityExactly | slkc/include/slkc/array.h:45-63 | The capacity, exactly: the first one doubled as often as it takes to hold the greatest length so far, and not once more. |
| GrowingArrays.RoomExactly | slkc/include/slkc/array.h:45-63 | The items of every run fit the capacity if and only if it is not zero at first: doubling zero gives no room. |
| GrowingArrays.PushWithoutRoom | slkc/include/slkc/array.h:45-63 | One push at capacity zero: one item, and still no capacity. |
| GrowingArrays.GrowingArray.PushItem | slkc/include/slkc/array.h:45-63 | Appends the item, doubling and moving when full, and keeps byte counts equal to item counts times item size. |
| GrowingArrays.GrowingArray.PopItem | slkc/include/slkc/array.h:78-84 | Takes the last item off, if there is one, by the byte count. |
| GrowingArrays.GrowingArray.ClearItems | slkc/include/slkc/array.h:65-71 | Empties the array and keeps its capacity. |
| GrowingArrays.GrowingArray.constructor | slkc/src/slkc/array.c:15-32 | An empty array with the counts of its header. |
| GrowingArrays.ItemsFitExactly | slkc/src/slkc/array.c:26-32 | The items lie inside the block that was asked for if and only if the header's size is a multiple of the alignment; the header always fits in front of them. |
| GrowingArrays.HeaderTooShort | slkc/src/slkc/array.c:26-32 | A header of 72 bytes and alignment 16: the items begin at 80 and reach 8 bytes behind the block. |

## Left out

- Loading files, `main` but for its two central calls, printing trees and errors, ending the process: input and output. An emitted error is a failed result with its message; the token name inside "Invalid Token" and the line are not part of it.
- ParserMethods.Parser.ParseProgram: the two static allocators of the parser are not modelled; nodes are fresh objects, so running out of the arena while parsing is not captured.
- Values of floats: `atof` is not part of this model; a float is its spelling, without the byte -1 that is pushed when the text ends behind the dot.
- String literals at text level: the lexer never makes them. As tokens they are parsed.
- ParserMethods.Parser.ParseExprBinary: seven functions of one shape are one method with the level as parameter; break and continue, parameters and members, if and else-if, struct and array literals are merged in the same way.
- Lines in tree nodes: never set by the parser. Stale values in the union of a symbol's token: modelled as no value.
- LexerMethods.Lexer.LexName: the search for digits is given the length of the letters; what it finds behind the digits' zero depends on bytes that are not known, and is left out.
- LexerMethods.FindChar: the bytes behind the digit literal's zero, which the search may go on to read, are not known and left out.
- GrowingArrays.GrowingArray.PushItem: at capacity zero the original writes behind its block; here the item is not stored and the method says so.
- The constant declaration function (parser.c:543-548): called from nowhere.
- The block chain of the malloc allocator: its tail pointer is not moved on allocation.
- Clearing a list (list.c:20-28): its test is the reverse of what its loop needs. Owners of list nodes: carried, never read by the list. Nodes start linked to themselves, which the initialising macro leaves to its caller.
- Allocating several array items at once (array.h:28-44): doubles once whatever the size. Counts of the array are not bounded by the width of a machine word.
- Arenas.UncheckedRunsStack: says nothing about the buffer's end, which a build without checks does not look at.
- Alignment zero in the helper functions, which debug builds exclude by an assertion; the allocator's own check is modelled.
- The semantic analysis stub (semant.c), name tables, project files, and grammar rules without code (for, foreach).
