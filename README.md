# kix in Dafny

kix is a small interpreter, written in Kotlin, for a Lox-style scripting
language. This project models its four stages and proves properties of them:

- **Scanner** (`KixScanner`): a cursor over the source text. It appends tokens
  to a list. It has a keyword table, one- and two-character operators, string
  and number literals, line comments and block comments that do not nest.
- **Statement parser** (`Parser` of the newer interpreter): recursive descent
  over the token list. It has a precedence ladder from assignment down to
  primary, desugars `for` into `while`, and reports syntax errors. After an
  error it resynchronises at the next statement boundary.
- **Resolver**: one static pass over a stack of scopes. For every local
  variable reference it records how many scopes out the variable lives. It
  reports redeclarations, reads of a variable inside its own initializer,
  `return` outside a function, and variables that are never read.
- **Tree-walking interpreter** (`Interpreter`, `Environment`, `KixFunction`):
  the operator semantics, a chain of environment frames, and closures.
  A call's frame has the captured closure as its parent, not the caller's
  frame. The previous frame is current again whenever a block is left.
- **Older snapshot**: an expression-only parser and evaluator, modelled on
  its own.

Modules follow the stages:

| module | file | models |
|---|---|---|
| `Tokens` | `tokens.dfy` | token kinds, literal values, tokens |
| `Reports` | `reports.dfy` | the shared error reporter, as a list of diagnostics |
| `Numbers` | `numbers.dfy` | the host's floating point as a parameter; round-half-up and integer text |
| `Lexer` | `lexer.dfy` | the scanner: a class, plus the scan written as functions of the text |
| `ExprAst`, `ExprParser`, `ExprEval` | `expr_*.dfy` | the older snapshot's tree, parser and evaluator |
| `Ast` | `ast.dfy` | the newer expression and statement trees, well-formedness, rendering back to tokens |
| `Parsing` | `parsing.dfy` | the statement parser, as a class with a cursor |
| `Runtime` | `runtime.dfy` | values, environment frames, user functions |
| `Interpreting` | `interpreting.dfy` | the interpreter, as a class, plus its operators as functions |
| `Resolving` | `resolving.dfy` | the resolver, as a class over a stack of ordered scopes |

Modelling choices:

- **Diagnostics.** Every stage reports through one `Reporter` object, which
  appends each diagnostic to a sequence.
- **Thrown errors.**
  - A parse error is thrown and caught in the source. Here it is a `Failed`
    result that every parsing method hands up unchanged.
  - A runtime error and `return` are exceptions in the source. Here they are
    an `Outcome` (`Ok`, `Threw`, `Crashed`, `Exhausted`) and a `Flow`
    (`Completed`, `Returned`).
- **Node identity.** The source keys its table of resolved variables by
  node identity. Here each `Variable` and `Assign` node carries an `id` (the
  position of its name token), and the table `locals` maps ids to distances.
- **Variable addresses.** An address is a pair (distance, name) over frames
  that map names to values. The resolver records only a distance, and
  `Environment` looks bindings up by name.
- **Numbers** are exact reals. What the host's doubles do (the four
  operators, `Double.toString`) comes in as a `Host` value of functions.
  So does the text-to-double conversion of number literals. The half-up
  rounding that `+` applies when it joins a string and a number is modelled
  exactly.
- **Fuel.** A `fuel` argument bounds how many times a loop turns and how
  deeply calls nest. A walk that runs out of fuel ends `Exhausted`.
- **Derivations.** Each method of the interpreter also returns, as a ghost
  value, the derivation of the walk it made: which parts it evaluated or
  executed, in which order, with what fuel and outcome. `Derives` checks
  every step of it against the rule for its kind of expression or
  statement (`ExprRule`, `StmtRule`, `LoopRule`, `CallRule`, `RunRule`).
- **Resolver state.** The resolver's state is also a value (`Pass`): its
  scopes, the distances it has given the interpreter, its reports and the
  function kind. The pass is written a second time as functions of that
  value (`WalkExpr`, `WalkStmt`, ...). Each method is proved to change the
  state exactly as its function does, and the properties are lemmas about
  the functions.
- **Pieces.** A syntax tree renders back as the pieces of the tokens it was
  parsed from. An identifier's piece is its token and position, a
  literal's the value it carries, an operator's the token itself, and
  punctuation's only its kind.
- **Token spans.** Each statement-parsing method states which tokens its
  result came from, as a predicate over token positions: `DeclarationAt`,
  `StatementAt`, `VarAt`, `FunctionAt`, `IfAt`, `WhileAt`, `ForAt`, and
  `Sequenced` for a list of declarations in consecutive spans. "Built from
  exactly the tokens" and "renders as the tokens read" hold whenever the
  call reported nothing. An error reported without being thrown (an
  invalid assignment target, a 256th parameter or argument) lets the parse
  go on, and then only the tree's shape and the span boundaries are stated.
- **Maximality.** Every expression level stops only in front of a token
  that cannot extend what it built (`Continues`). So `1 + 2` cannot parse
  as `1` with `+ 2` left unread.

## Model

| member | source | states |
|---|---|---|
| Reports.Reporter.constructor | app/src/main/kotlin/dev/aayushgupta/kix/Kix.kt:69-89 | a new reporter holds no diagnostics |
| Reports.Reporter.Error | app/src/main/kotlin/dev/aayushgupta/kix/Kix.kt:69-76 | a line-only error is appended as `[line N] Error: message`, nothing else changes |
| Reports.Reporter.ErrorAtToken | app/src/main/kotlin/dev/aayushgupta/kix/Kix.kt:78-84 | an error at a token is appended with " at end" for end of input and " at 'lexeme'" otherwise |
| Reports.Reporter.RuntimeError | app/src/main/kotlin/dev/aayushgupta/kix/Kix.kt:86-89 | a runtime error is appended with its message and the line of its token |
| Lexer.KeywordEntry | src/main/kotlin/dev/aayushgupta/kix/core/KixScanner.kt:14-31 | every entry of the keyword table is a keyword kind |
| Lexer.KeywordListed | src/main/kotlin/dev/aayushgupta/kix/core/KixScanner.kt:14-31 | every keyword kind has an entry in the table |
| Lexer.SpellingInjective | src/main/kotlin/dev/aayushgupta/kix/core/KixScanner.kt:14-31 | no two keyword kinds share a spelling, so the table is a map |
| Lexer.IdentifierKindSound | src/main/kotlin/dev/aayushgupta/kix/core/KixScanner.kt:156-163 | a word the table types as a keyword is exactly that keyword's spelling |
| Lexer.IdentifierKindComplete | src/main/kotlin/dev/aayushgupta/kix/core/KixScanner.kt:156-163 | every keyword's spelling is typed as that keyword; any other word is an identifier |
| Lexer.DigitsEnd | src/main/kotlin/dev/aayushgupta/kix/core/KixScanner.kt:133-145 | the digit run from `i` holds only digits and ends at the first non-digit or the end of the text |
| Lexer.DigitsEndAt | src/main/kotlin/dev/aayushgupta/kix/core/KixScanner.kt:133-145 | any index that ends a digit run is the run's end, so the end is unique |
| Lexer.WordEnd | src/main/kotlin/dev/aayushgupta/kix/core/KixScanner.kt:152-157 | the word run holds only letters, digits and `_` and ends at the first other character |
| Lexer.WordEndAt | src/main/kotlin/dev/aayushgupta/kix/core/KixScanner.kt:152-157 | the end of a word run is unique |
| Lexer.Find | src/main/kotlin/dev/aayushgupta/kix/core/KixScanner.kt:112-118 | scanning for a character stops at its first occurrence, or at the end of the text when there is none |
| Lexer.FindAt | src/main/kotlin/dev/aayushgupta/kix/core/KixScanner.kt:112-118 | the first occurrence is unique |
| Lexer.CommentClose | src/main/kotlin/dev/aayushgupta/kix/core/KixScanner.kt:165-170 | a block comment closes at the first star-slash pair (no nesting), or runs to the end of the text |
| Lexer.CommentCloseAt | src/main/kotlin/dev/aayushgupta/kix/core/KixScanner.kt:165-170 | the first closing pair is unique |
| Lexer.LexedString | src/main/kotlin/dev/aayushgupta/kix/core/KixScanner.kt:112-129 | a closed string becomes a String token whose lexeme includes the quotes, whose literal is the text between them, and whose line counts the newlines inside it |
| Lexer.LexedInteger | src/main/kotlin/dev/aayushgupta/kix/core/KixScanner.kt:133-145 | a digit run with no `.`-digit after it is a maximal Number token whose literal is the value of its lexeme |
| Lexer.LexedFraction | src/main/kotlin/dev/aayushgupta/kix/core/KixScanner.kt:136-144 | digits, a `.` and further digits make one maximal Number token |
| Lexer.LexedNumber | src/main/kotlin/dev/aayushgupta/kix/core/KixScanner.kt:133-150 | the number lexeme takes a fraction only when a digit follows the `.`, so `1.` scans as `1` and then a dot |
| Lexer.LexedWord | src/main/kotlin/dev/aayushgupta/kix/core/KixScanner.kt:156-163 | a word run is a maximal token of the kind the keyword table gives it |
| Lexer.LexedPunctuation | src/main/kotlin/dev/aayushgupta/kix/core/KixScanner.kt:49-58 | each of `(){},.-+;*` is a one-character token of its kind |
| Lexer.LexedOperator | src/main/kotlin/dev/aayushgupta/kix/core/KixScanner.kt:59-62 | `!`, `=`, `<`, `>` take the two-character form exactly when `=` follows, else the one-character form |
| Lexer.LexedSlash | src/main/kotlin/dev/aayushgupta/kix/core/KixScanner.kt:63-72 | a `/` not followed by `/` or `*` is the Slash token |
| Lexer.NextLexeme | src/main/kotlin/dev/aayushgupta/kix/core/KixScanner.kt:47-86 | every scanning step consumes at least one character and stays inside the text |
| Lexer.NextIsPunctuation | src/main/kotlin/dev/aayushgupta/kix/core/KixScanner.kt:49-58 | a punctuation character emits its token and advances by one |
| Lexer.NextIsOperator | src/main/kotlin/dev/aayushgupta/kix/core/KixScanner.kt:59-62 | an operator start emits the one- or two-character operator and advances past it |
| Lexer.NextIsSlash | src/main/kotlin/dev/aayushgupta/kix/core/KixScanner.kt:63-72 | a `/` is a line comment, a block comment or the slash operator |
| Lexer.NextIsBlank | src/main/kotlin/dev/aayushgupta/kix/core/KixScanner.kt:73-74 | a blank emits no token and reports nothing; a newline only advances the line count |
| Lexer.NextIsString | src/main/kotlin/dev/aayushgupta/kix/core/KixScanner.kt:75 | a `"` starts a string step |
| Lexer.NextIsNumber | src/main/kotlin/dev/aayushgupta/kix/core/KixScanner.kt:77-78 | a digit starts a number step |
| Lexer.NextIsWord | src/main/kotlin/dev/aayushgupta/kix/core/KixScanner.kt:79-80 | a letter or `_` starts a word step |
| Lexer.NextIsUnexpected | src/main/kotlin/dev/aayushgupta/kix/core/KixScanner.kt:82 | any other character reports `Unexpected character` on the current line, emits nothing, and scanning goes on at the next character |
| Lexer.NextLexemeLexed | src/main/kotlin/dev/aayushgupta/kix/core/KixScanner.kt:94-97 | every token a step emits has as lexeme exactly the characters the step consumed, and is well formed and maximal |
| Lexer.TokensFromLexed | src/main/kotlin/dev/aayushgupta/kix/core/KixScanner.kt:36-45 | every token of a whole scan was lexed from its own span, and the spans lie in order, without overlap |
| Lexer.ScanEndsWithEof | src/main/kotlin/dev/aayushgupta/kix/core/KixScanner.kt:36-45 | the token list ends with exactly one end-of-input token, and it carries the final line count |
| Lexer.ScanStep | src/main/kotlin/dev/aayushgupta/kix/core/KixScanner.kt:37-41 | the scanning loop is the step at the cursor followed by the scan of the rest |
| Lexer.KixScanner.constructor | src/main/kotlin/dev/aayushgupta/kix/core/KixScanner.kt:7-12 | a scanner starts at position 0 on line 1 with no tokens |
| Lexer.KixScanner.ScanTokens | src/main/kotlin/dev/aayushgupta/kix/core/KixScanner.kt:36-45 | the tokens are exactly the scan of the text followed by the end-of-input token, and the diagnostics are exactly the scan's reports |
| Lexer.KixScanner.ScanToken | src/main/kotlin/dev/aayushgupta/kix/core/KixScanner.kt:47-86 | one call does exactly the step the text determines at the cursor |
| Lexer.KixScanner.ScanOperator | src/main/kotlin/dev/aayushgupta/kix/core/KixScanner.kt:59-62 | the operator branch does the operator step |
| Lexer.KixScanner.ScanSlash | src/main/kotlin/dev/aayushgupta/kix/core/KixScanner.kt:63-72 | the slash branch does the slash step: comments emit nothing, and an unclosed block comment is reported |
| Lexer.KixScanner.Advance | src/main/kotlin/dev/aayushgupta/kix/core/KixScanner.kt:88 | `advance` returns the character under the cursor and moves past it |
| Lexer.KixScanner.AddToken | src/main/kotlin/dev/aayushgupta/kix/core/KixScanner.kt:90-92 | a token with no literal and lexeme `source[start..current]` is appended |
| Lexer.KixScanner.AddLiteralToken | src/main/kotlin/dev/aayushgupta/kix/core/KixScanner.kt:94-97 | a token with lexeme `source[start..current]` and the given literal is appended |
| Lexer.KixScanner.Match | src/main/kotlin/dev/aayushgupta/kix/core/KixScanner.kt:99-105 | the cursor moves exactly when the next character is the expected one |
| Lexer.KixScanner.LineComment | src/main/kotlin/dev/aayushgupta/kix/core/KixScanner.kt:64-66 | a line comment runs up to, not including, the next newline |
| Lexer.KixScanner.ScanString | src/main/kotlin/dev/aayushgupta/kix/core/KixScanner.kt:112-129 | the string branch does the string step: the token, or the `Unterminated string` report and no token |
| Lexer.KixScanner.SkipToQuote | src/main/kotlin/dev/aayushgupta/kix/core/KixScanner.kt:113-116 | the string body ends at the next quote or the end of the text, with its newlines counted |
| Lexer.KixScanner.ScanNumber | src/main/kotlin/dev/aayushgupta/kix/core/KixScanner.kt:133-145 | the number branch does the number step |
| Lexer.KixScanner.SkipDigits | src/main/kotlin/dev/aayushgupta/kix/core/KixScanner.kt:134 | the cursor ends at the end of the digit run |
| Lexer.KixScanner.ScanIdentifier | src/main/kotlin/dev/aayushgupta/kix/core/KixScanner.kt:156-163 | the word branch does the word step |
| Lexer.KixScanner.SkipWord | src/main/kotlin/dev/aayushgupta/kix/core/KixScanner.kt:157 | the cursor ends at the end of the word run |
| Lexer.KixScanner.MultilineComment | src/main/kotlin/dev/aayushgupta/kix/core/KixScanner.kt:165-179 | a block comment ends after the first star-slash pair with nothing reported, or at the end of the text with `Unclosed multiline comment` reported |
| Numbers.RoundHalfUp | app/src/main/kotlin/dev/aayushgupta/kix/core/Interpreter.kt:276-280 | `setScale(0, HALF_UP)` gives an integer within a half of the number, a tie going away from zero |
| Numbers.RoundHalfUpUnique | app/src/main/kotlin/dev/aayushgupta/kix/core/Interpreter.kt:276-280 | that rounding is the only integer with this property |
| Numbers.DigitChar | app/src/main/kotlin/dev/aayushgupta/kix/core/Interpreter.kt:276-280 | each digit value has a digit character that reads back as it |
| Numbers.DigitValue | app/src/main/kotlin/dev/aayushgupta/kix/core/Interpreter.kt:276-280 | a digit character's value is below ten |
| Numbers.NaturalText | app/src/main/kotlin/dev/aayushgupta/kix/core/Interpreter.kt:276-280 | a natural number's text is a non-empty digit string with no leading zero |
| Numbers.NaturalTextValue | app/src/main/kotlin/dev/aayushgupta/kix/core/Interpreter.kt:276-280 | reading back a natural number's digits gives the number |
| Numbers.IntegerText | app/src/main/kotlin/dev/aayushgupta/kix/core/Interpreter.kt:276-280 | an integer's text is digits, with a leading minus exactly for a negative integer |
| Numbers.IntegerTextValue | app/src/main/kotlin/dev/aayushgupta/kix/core/Interpreter.kt:276-280 | reading back an integer's text gives the integer |
| Numbers.IntegerTextInjective | app/src/main/kotlin/dev/aayushgupta/kix/core/Interpreter.kt:276-280 | different integers have different texts |
| Numbers.RoundedText | app/src/main/kotlin/dev/aayushgupta/kix/core/Interpreter.kt:276-280 | the text of a rounded number is never empty |
| ExprAst.BinaryLevel | src/main/kotlin/dev/aayushgupta/kix/core/Parser.kt:20-24 | each binary operator kind belongs to one of the four levels equality, comparison, term and factor |
| ExprAst.BinaryStep | src/main/kotlin/dev/aayushgupta/kix/core/Parser.kt:51-59 | folding an operator and its operand onto a level's chain keeps the tree left-nested and rendering as the tokens consumed |
| ExprAst.UnaryStep | src/main/kotlin/dev/aayushgupta/kix/core/Parser.kt:26-33 | a prefix `!` or `-` on a unary operand renders as the operator and the operand's tokens |
| ExprAst.GroupStep | src/main/kotlin/dev/aayushgupta/kix/core/Parser.kt:41-45 | a group renders as its parentheses around the tokens of the inner expression |
| ExprAst.LiteralStep | src/main/kotlin/dev/aayushgupta/kix/core/Parser.kt:37-40 | a literal renders as the one piece of its token, the value it carries |
| ExprAst.NestedWritten | src/main/kotlin/dev/aayushgupta/kix/core/Parser.kt:20-48 | every tree of the precedence ladder is written with at least one token |
| ExprAst.SpinePrefix | src/main/kotlin/dev/aayushgupta/kix/core/Parser.kt:51-59 | each node down the left spine of a chain is itself a tree of the ladder, of at least the chain's level, and renders as a prefix of the chain's tokens |
| ExprAst.LeftmostOnSpine | src/main/kotlin/dev/aayushgupta/kix/core/Parser.kt:51-59 | the leftmost operand of a chain lies on its spine and binds more tightly than the chain's operators |
| ExprParser.LevelOperators | src/main/kotlin/dev/aayushgupta/kix/core/Parser.kt:20-24 | the operator list each level passes to the shared loop holds exactly that level's operators |
| ExprParser.SpineEnd | src/main/kotlin/dev/aayushgupta/kix/core/Parser.kt:51-59 | in a chain of one level written as tokens, each node of its left spine renders as a prefix of those tokens, followed by the operator of the node above it, or, for the whole chain, by a token that is no operator of the level |
| ExprParser.OperandSpans | src/main/kotlin/dev/aayushgupta/kix/core/Parser.kt:51-59 | in a chain written as tokens, the right operand of each spine node is a tree of the next tighter level written as the tokens between that node's operator and the end of the node |
| ExprParser.SpineNext | src/main/kotlin/dev/aayushgupta/kix/core/Parser.kt:51-59 | after the tokens of a spine node, an operator of the level follows exactly when the node is not yet the whole chain; for the whole chain, its tokens end there |
| ExprParser.SpineStep | src/main/kotlin/dev/aayushgupta/kix/core/Parser.kt:51-59 | one step up a chain's spine: the node above is a binary node on the spine, and its right operand is written as the tokens after the operator, up to where that node ends |
| ExprParser.LeftmostSpans | src/main/kotlin/dev/aayushgupta/kix/core/Parser.kt:51-59 | the leftmost operand of a chain is a tree of the next tighter level written as the chain's first tokens |
| ExprParser.UnarySpans | src/main/kotlin/dev/aayushgupta/kix/core/Parser.kt:26-33 | a unary-level tree written as tokens is a prefix operation exactly when it starts with `!` or `-`, its operand written as the tokens after that; otherwise it is a primary of the same tokens |
| ExprParser.PrimarySpans | src/main/kotlin/dev/aayushgupta/kix/core/Parser.kt:35-48 | a primary written as tokens is a literal of one `false`, `true`, `nil`, number or string token, or a group whose expression is written as the tokens between a `(` and a `)` |
| ExprParser.Parser.constructor | src/main/kotlin/dev/aayushgupta/kix/core/Parser.kt:6-10 | a parser starts at the first token |
| ExprParser.Parser.Parse | src/main/kotlin/dev/aayushgupta/kix/core/Parser.kt:12-18 | without an error, the result is a left-nested tree in precedence order whose rendering is the tokens read, piece by piece (each operator its own token, each literal the value its token carries), and the token after them is no binary operator, so the parse stops only where the expression cannot go on; after an error it is the nil literal. Conversely, when the tokens from the cursor are written as a left-nested tree in precedence order, up to a token that cannot extend it, the parse returns a tree that renders as exactly those tokens, stops in front of that token and reports nothing |
| ExprParser.Parser.Expression | src/main/kotlin/dev/aayushgupta/kix/core/Parser.kt:20 | an expression consumes at least one token and builds a normal-form tree rendering as the tokens read, which the next token cannot extend, or reports its error at the cursor. Tokens written as a well-formed tree of this level, up to a token that cannot extend it, always parse: the result is a tree, the cursor stops in front of that token, and nothing is reported. |
| ExprParser.Parser.Equality | src/main/kotlin/dev/aayushgupta/kix/core/Parser.kt:21 | the equality level builds a tree binding at least as tightly as equality. Tokens written as a well-formed tree of this level, up to a token that cannot extend it, always parse: the result is a tree, the cursor stops in front of that token, and nothing is reported. |
| ExprParser.Parser.Comparison | src/main/kotlin/dev/aayushgupta/kix/core/Parser.kt:22 | the comparison level builds a tree binding at least as tightly as comparison. Tokens written as a well-formed tree of this level, up to a token that cannot extend it, always parse: the result is a tree, the cursor stops in front of that token, and nothing is reported. |
| ExprParser.Parser.Term | src/main/kotlin/dev/aayushgupta/kix/core/Parser.kt:23 | the term level builds a tree binding at least as tightly as term. Tokens written as a well-formed tree of this level, up to a token that cannot extend it, always parse: the result is a tree, the cursor stops in front of that token, and nothing is reported. |
| ExprParser.Parser.Factor | src/main/kotlin/dev/aayushgupta/kix/core/Parser.kt:24 | the factor level builds a tree binding at least as tightly as factor. Tokens written as a well-formed tree of this level, up to a token that cannot extend it, always parse: the result is a tree, the cursor stops in front of that token, and nothing is reported. |
| ExprParser.Parser.Operand | src/main/kotlin/dev/aayushgupta/kix/core/Parser.kt:21-24 | each level's operand is parsed by the next tighter level; tokens written as a tree of that tighter level, up to a token that cannot extend it, always parse up to that token without a report |
| ExprParser.Parser.LeftAssociative | src/main/kotlin/dev/aayushgupta/kix/core/Parser.kt:51-59 | operator-operand pairs of one level fold to the left into a tree of that level that renders as the tokens read, and the loop stops only in front of a token that is no operator of that level or of a tighter one. Conversely, tokens written as a chain of this level up to a token that cannot extend it always parse, operand after operand along the chain's left spine, up to that token and without a report |
| ExprParser.Parser.Unary | src/main/kotlin/dev/aayushgupta/kix/core/Parser.kt:26-33 | a prefix `!` or `-` wraps the unary that follows it, right-recursively. Tokens written as a well-formed tree of this level, up to a token that cannot extend it, always parse: the result is a tree, the cursor stops in front of that token, and nothing is reported. |
| ExprParser.Parser.Primary | src/main/kotlin/dev/aayushgupta/kix/core/Parser.kt:35-48 | a `false`, `true`, `nil`, number or string token is a one-token literal carrying its token's value; a `(` starts a group that is closed when the token after its expression is `)`, and otherwise `Expect ')' after expression.` is reported at that token; any other token reports `Expect expression.` without consuming anything. Tokens written as a well-formed tree of this level, up to a token that cannot extend it, always parse: the result is a tree, the cursor stops in front of that token, and nothing is reported. |
| ExprParser.Parser.Atom | src/main/kotlin/dev/aayushgupta/kix/core/Parser.kt:37-40 | exactly a `false`, `true`, `nil`, number or string token is read as a one-token literal that renders as its token; any other token is left unread |
| ExprParser.Parser.Group | src/main/kotlin/dev/aayushgupta/kix/core/Parser.kt:41-45 | after `(`, an expression and the `)` after it make a group that renders as all of those tokens; another token where the `)` belongs fails with `Expect ')' after expression.` reported there; an expression written up to a `)` always parses, past the `)` |
| ExprParser.Parser.MatchLevel | src/main/kotlin/dev/aayushgupta/kix/core/Parser.kt:61-69 | the cursor moves exactly when the current token is one of the level's operators |
| ExprParser.Parser.Match | src/main/kotlin/dev/aayushgupta/kix/core/Parser.kt:61-69 | the cursor moves exactly when the current token has one of the kinds and is not the end of input |
| ExprParser.Parser.Consume | src/main/kotlin/dev/aayushgupta/kix/core/Parser.kt:71-74 | the cursor moves past a token of the expected kind; otherwise the error is reported at the cursor |
| ExprParser.Parser.Advance | src/main/kotlin/dev/aayushgupta/kix/core/Parser.kt:81-84 | the cursor never moves past the end-of-input token |
| ExprParser.Parser.Error | src/main/kotlin/dev/aayushgupta/kix/core/Parser.kt:90-93 | the error is reported at its token |
| ExprEval.FalsyValues | src/main/kotlin/dev/aayushgupta/kix/core/Interpreter.kt:109-114 | exactly nil and false are falsy |
| ExprEval.IsEqualIsEquality | src/main/kotlin/dev/aayushgupta/kix/core/Interpreter.kt:116-121 | nil equals only nil, and other values compare as values |
| ExprEval.BinaryOp | src/main/kotlin/dev/aayushgupta/kix/core/Interpreter.kt:27-63 | comparisons, `-`, `/` and `*` need two numbers or fail with `Operand must be a number.`; `+` adds two numbers through the host, joins two strings, and otherwise fails with `Operands must be two numbers or two strings.`; `==` and `!=` never fail |
| ExprEval.UnaryOp | src/main/kotlin/dev/aayushgupta/kix/core/Interpreter.kt:80-92 | `!` negates truthiness; `-` negates a number or fails with `Operand must be a number.` |
| ExprEval.Evaluate | src/main/kotlin/dev/aayushgupta/kix/core/Interpreter.kt:17-106 | a runtime error is always raised at one of the tree's operator tokens, with one of the two operand messages |
| ExprEval.LeftOperandFirst | src/main/kotlin/dev/aayushgupta/kix/core/Interpreter.kt:23-26 | the left operand's error wins over the right operand's and the operator's |
| ExprEval.RightOperandBeforeOperator | src/main/kotlin/dev/aayushgupta/kix/core/Interpreter.kt:23-26 | both operands are evaluated before the operator checks them |
| ExprEval.TernaryOneBranch | src/main/kotlin/dev/aayushgupta/kix/core/Interpreter.kt:17-21 | with the evaluated condition, a ternary's result does not depend on the branch not taken |
| ExprEval.ArithmeticalEvaluates | src/main/kotlin/dev/aayushgupta/kix/core/Interpreter.kt:27-63 | a tree of number literals and arithmetic operators always evaluates, to a number |
| ExprEval.NestedHasNoTernary | src/main/kotlin/dev/aayushgupta/kix/core/Parser.kt:20-48 | no tree the snapshot's parser builds has a ternary node |
| ExprEval.TernaryAsWrittenTakesFirstBranch | src/main/kotlin/dev/aayushgupta/kix/core/Interpreter.kt:17-21 | as written, the ternary always takes its first branch |
| ExprEval.TernaryAsWrittenDiffers | src/main/kotlin/dev/aayushgupta/kix/core/Interpreter.kt:17-21 | `false ? 1 : 2` gives 1 as written and 2 as intended |
| ExprEval.Stringify | src/main/kotlin/dev/aayushgupta/kix/core/Interpreter.kt:123-135 | nil prints as `nil`, a string as itself, a number through the host's rendering |
| Ast.BinaryLevel | app/src/main/kotlin/dev/aayushgupta/kix/core/Parser.kt:211-214 | each binary operator kind belongs to one of the levels equality, comparison, term and factor |
| Ast.BinaryStep | app/src/main/kotlin/dev/aayushgupta/kix/core/Parser.kt:266-274 | folding a binary operator and its operand onto a chain keeps it left-nested and rendering as the tokens read |
| Ast.LogicalStep | app/src/main/kotlin/dev/aayushgupta/kix/core/Parser.kt:185-208 | folding `or` or `and` onto a chain keeps it left-nested, with `and` binding tighter than `or` |
| Ast.TernaryStep | app/src/main/kotlin/dev/aayushgupta/kix/core/Parser.kt:171-182 | `c ? t : f` is well formed and renders as its tokens |
| Ast.AssignStep | app/src/main/kotlin/dev/aayushgupta/kix/core/Parser.kt:153-169 | an assignment to a name, with any expression as its value, is well formed (right association) |
| Ast.UnaryStep | app/src/main/kotlin/dev/aayushgupta/kix/core/Parser.kt:216-223 | a prefix operator before a unary operand renders as that operator token and the operand's pieces |
| Ast.GroupStep | app/src/main/kotlin/dev/aayushgupta/kix/core/Parser.kt:258-262 | a group renders as its parentheses around the pieces of the inner expression |
| Ast.AtomStep | app/src/main/kotlin/dev/aayushgupta/kix/core/Parser.kt:252-257 | a one-token primary renders as the piece of its token: its value, or its name and position |
| Ast.OperatorPiece | app/src/main/kotlin/dev/aayushgupta/kix/core/Parser.kt:185-223 | an operator token's piece is the token itself, so a tree keeps the exact operator it was parsed from |
| Ast.PunctuationPiece | app/src/main/kotlin/dev/aayushgupta/kix/core/Parser.kt:153-264 | a punctuation token's piece is its kind only |
| Ast.CallStep | app/src/main/kotlin/dev/aayushgupta/kix/core/Parser.kt:225-250 | a callee and its parenthesised arguments make a call that can itself be called again |
| Ast.FirstPiece | app/src/main/kotlin/dev/aayushgupta/kix/core/Parser.kt:151-264 | every well-formed tree is written with at least one token; one that starts with punctuation starts with `(`, and a call-level tree never starts with an operator |
| Ast.SinglePiece | app/src/main/kotlin/dev/aayushgupta/kix/core/Parser.kt:252-257 | a well-formed tree written with one token is a literal or a variable |
| Ast.SpinePrefix | app/src/main/kotlin/dev/aayushgupta/kix/core/Parser.kt:185-214 | each node down the left spine of an `or`, `and` or binary chain is well formed, of at least the chain's level, and renders as a prefix of the chain's tokens |
| Ast.LeftmostOnSpine | app/src/main/kotlin/dev/aayushgupta/kix/core/Parser.kt:185-214 | the leftmost operand of a chain lies on its spine and binds more tightly than the chain's operators |
| Ast.CalleePrefix | app/src/main/kotlin/dev/aayushgupta/kix/core/Parser.kt:225-236 | each callee down a call chain is a well-formed call-level tree that renders as a prefix of the chain's tokens |
| Ast.InnermostOnCallee | app/src/main/kotlin/dev/aayushgupta/kix/core/Parser.kt:225-236 | the innermost callee of a call chain lies on the chain and is a primary |
| Ast.RenderArgumentsFirst | app/src/main/kotlin/dev/aayushgupta/kix/core/Parser.kt:241-247 | several arguments are written as the first one, a comma, and the others |
| Ast.FormedHasNoReturn | app/src/main/kotlin/dev/aayushgupta/kix/core/Parser.kt:60-67 | no statement the parser builds holds a `return`, however deep |
| Ast.DesugarFormed | app/src/main/kotlin/dev/aayushgupta/kix/core/Parser.kt:69-106 | the `while` loop a `for` loop desugars to is well formed |
| Parsing.LevelOperators | app/src/main/kotlin/dev/aayushgupta/kix/core/Parser.kt:211-214 | the operator list each binary level passes to the shared loop holds exactly that level's operators |
| Parsing.AssignmentGoals | app/src/main/kotlin/dev/aayushgupta/kix/core/Parser.kt:153-169 | an expression written as tokens is either a ternary-level tree written as the same tokens and not followed by `=`, or an assignment: one identifier, an `=`, and a value written as the tokens after it |
| Parsing.AssignmentSpans | app/src/main/kotlin/dev/aayushgupta/kix/core/Parser.kt:153-169 | an assignment written as tokens is a name, an `=` and a value written as the rest of the tokens; any other expression is a ternary-level tree written as the same tokens and not followed by `=` |
| Parsing.NamedVariable | app/src/main/kotlin/dev/aayushgupta/kix/core/Parser.kt:156-161 | a ternary-level tree of one identifier token is a variable, so it is a valid assignment target |
| Parsing.TernarySpans | app/src/main/kotlin/dev/aayushgupta/kix/core/Parser.kt:171-182 | a conditional written as tokens is its condition, a `?`, its first branch, a `:` and its second branch, each written as its own tokens; any other ternary-level tree is an `or`-level tree of the same tokens not followed by `?` |
| Parsing.TernaryGoals | app/src/main/kotlin/dev/aayushgupta/kix/core/Parser.kt:171-182 | a ternary-level tree written as tokens starts with an `or`-level tree; when a `?` follows it, the two branches are written as the tokens up to a `:` and after it, and otherwise that tree is the whole expression |
| Parsing.SpineEnd | app/src/main/kotlin/dev/aayushgupta/kix/core/Parser.kt:185-214 | in an `or`, `and` or binary chain written as tokens, each node of its left spine renders as a prefix of those tokens, followed by the operator of the node above it, or, for the whole chain, by a token that is no operator of the level |
| Parsing.SpineNext | app/src/main/kotlin/dev/aayushgupta/kix/core/Parser.kt:185-214 | after the tokens of a spine node, an operator of the level follows exactly when the node is not yet the whole chain; for the whole chain, its tokens end there |
| Parsing.SpineStep | app/src/main/kotlin/dev/aayushgupta/kix/core/Parser.kt:185-214 | one step up a chain's spine: the node above is a node of the level on the spine, and its right operand is written as the tokens after the operator, up to where that node ends |
| Parsing.LeftmostSpans | app/src/main/kotlin/dev/aayushgupta/kix/core/Parser.kt:185-214 | the leftmost operand of a chain is a tree of the next tighter level written as the chain's first tokens |
| Parsing.UnarySpans | app/src/main/kotlin/dev/aayushgupta/kix/core/Parser.kt:216-223 | a unary-level tree written as tokens is a prefix operation exactly when it starts with `!` or `-`, its operand written as the tokens after that; otherwise it is a call-level tree of the same tokens |
| Parsing.CalleeNext | app/src/main/kotlin/dev/aayushgupta/kix/core/Parser.kt:225-236 | after the tokens of a callee in a call chain, a `(` follows exactly when the callee is not yet the whole chain; for the whole chain, its tokens end there |
| Parsing.CallerSpans | app/src/main/kotlin/dev/aayushgupta/kix/core/Parser.kt:225-250 | the call around a callee in a chain is on the chain, and its arguments are written as the tokens between the `(` after the callee and the call's `)` |
| Parsing.InnermostSpans | app/src/main/kotlin/dev/aayushgupta/kix/core/Parser.kt:225-236 | the innermost callee of a call chain is a primary written as the chain's first tokens |
| Parsing.ArgumentsOpen | app/src/main/kotlin/dev/aayushgupta/kix/core/Parser.kt:240 | an argument list written as tokens is empty exactly when its first token is the `)` |
| Parsing.ArgumentsHead | app/src/main/kotlin/dev/aayushgupta/kix/core/Parser.kt:241-247 | the first of the arguments written as tokens is an expression written as the tokens up to a comma, after which the other arguments are written, or, for the last one, up to the `)` |
| Parsing.PrimarySpans | app/src/main/kotlin/dev/aayushgupta/kix/core/Parser.kt:252-264 | a primary written as tokens is a one-token literal or variable, or a group whose expression is written as the tokens between a `(` and a `)` |
| Parsing.SequencedStep | app/src/main/kotlin/dev/aayushgupta/kix/core/Parser.kt:12-18 | a declaration parsed from the tokens right after the last one extends the sequence of declarations and their token spans |
| Parsing.SeparatedStep | app/src/main/kotlin/dev/aayushgupta/kix/core/Parser.kt:36-41 | one more identifier after a comma extends a comma-separated list of names |
| Parsing.VarStep | app/src/main/kotlin/dev/aayushgupta/kix/core/Parser.kt:48-58 | a name, then `= initializer ;` or only `;`, make a variable declaration of exactly those tokens |
| Parsing.BranchesStep | app/src/main/kotlin/dev/aayushgupta/kix/core/Parser.kt:113-114 | a then branch, then an `else` branch after `else` or none without it, make the branches of an `if` |
| Parsing.IfStep | app/src/main/kotlin/dev/aayushgupta/kix/core/Parser.kt:108-117 | a condition between `(` and `)` and the branches after it make an `if` of exactly those tokens |
| Parsing.WhileStep | app/src/main/kotlin/dev/aayushgupta/kix/core/Parser.kt:125-132 | a condition between `(` and `)` and the statement after it make a `while` of exactly those tokens |
| Parsing.HeaderStep | app/src/main/kotlin/dev/aayushgupta/kix/core/Parser.kt:69-90 | an initializer, a condition clause and an increment clause after `(` make a `for` header of exactly those tokens |
| Parsing.ForStep | app/src/main/kotlin/dev/aayushgupta/kix/core/Parser.kt:69-106 | a `for` header and the statement after it make a `for` loop of exactly those tokens |
| Parsing.Parser.constructor | app/src/main/kotlin/dev/aayushgupta/kix/core/Parser.kt:6-10 | a parser starts at the first token |
| Parsing.Parser.Parse | app/src/main/kotlin/dev/aayushgupta/kix/core/Parser.kt:12-18 | the result is the declarations parsed one after the other from consecutive spans of the tokens, from the first token up to the end of input, each span holding its declaration as `Parsing.DeclarationAt` describes; each is well formed, and the empty statement appears only if an error was reported |
| Parsing.Parser.Declaration | app/src/main/kotlin/dev/aayushgupta/kix/core/Parser.kt:20-29 | a declaration consumes at least one token and is what its first token selects: after `fun` a function (`Parsing.FunctionAt`), after `var` a variable (`Parsing.VarAt`), and otherwise a statement (`Parsing.StatementAt`); on a parse error it is the empty statement, something was reported, and the cursor stops just after a `;`, in front of a statement keyword or at the end of input |
| Parsing.Parser.Declared | app/src/main/kotlin/dev/aayushgupta/kix/core/Parser.kt:21-24 | after `fun` a function, after `var` a variable, and otherwise a statement, each built from the tokens it consumed as `Parsing.DeclarationAt` describes; a declaration parsed without error is never the empty statement |
| Parsing.Parser.Function | app/src/main/kotlin/dev/aayushgupta/kix/core/Parser.kt:31-46 | without a name token, `Expect <kind> name.` is thrown and nothing is consumed; otherwise the function has that name token, the comma-separated identifiers between `(` and `)` as its parameters, and as its body the declarations parsed one after the other between `{` and the `}` that ends it; more than 255 parameters are reported without stopping the parse: the first report is `Can't have more than 255 parameters.` at the 256th parameter's token, and with at most 255 nothing is reported before the body |
| Parsing.Parser.ParameterList | app/src/main/kotlin/dev/aayushgupta/kix/core/Parser.kt:33-43 | without `(`, `Expect '(' after <kind> name.` is thrown and nothing is consumed; otherwise the parameters are the comma-separated identifiers after it, and the `)` after them is consumed; with more than 255, the first report is `Can't have more than 255 parameters.` at the 256th parameter's token, and with at most 255 nothing is reported |
| Parsing.Parser.FunctionBody | app/src/main/kotlin/dev/aayushgupta/kix/core/Parser.kt:44-45 | without `{`, `Expect '{' before <kind> body.` is thrown and nothing is consumed; otherwise the body is the declarations parsed one after the other between the `{` and the `}` that closes it, each well formed |
| Parsing.Parser.Parameters | app/src/main/kotlin/dev/aayushgupta/kix/core/Parser.kt:34-42 | the parameters are the identifier tokens at every second position, with a comma between each two, and the list ends at a token that is no comma; an empty list stands in front of `)`; a 256th parameter is reported, not thrown, as `Can't have more than 255 parameters.` at that parameter's token, which is the first report of the call; with at most 255 nothing is reported |
| Parsing.Parser.VarDeclaration | app/src/main/kotlin/dev/aayushgupta/kix/core/Parser.kt:48-58 | the declaration has the name token after `var`, and then either `= initializer ;` with the initializer built from the tokens between `=` and `;`, or only `;` and the absent initializer |
| Parsing.Parser.Initializer | app/src/main/kotlin/dev/aayushgupta/kix/core/Parser.kt:51-54 | without `=`, the initializer is the absent expression and nothing is consumed or reported; after `=` it is an expression built from the tokens read, which the next token cannot extend |
| Parsing.Parser.Statement | app/src/main/kotlin/dev/aayushgupta/kix/core/Parser.kt:60-67 | the statement is the form its first token selects: after `for` a block around a `while`, after `if` an `If`, after `print` a `Print` of the tokens up to its `;`, after `while` a `While`, after `{` a block closed by `}`, and otherwise an expression statement of the tokens up to its `;`; it consumes at least one token, is well formed and is neither a `return` nor the empty statement |
| Parsing.Parser.PlainStatement | app/src/main/kotlin/dev/aayushgupta/kix/core/Parser.kt:63-66 | for a first token other than `for` and `if`: a `Print` after `print`, a `While` after `while`, a block closed by `}` after `{`, and otherwise an expression statement, each built from the tokens it consumed (`Parsing.StatementAt`) |
| Parsing.Parser.ForStatement | app/src/main/kotlin/dev/aayushgupta/kix/core/Parser.kt:69-106 | the result is the desugaring (`Ast.Desugar`) of clauses parsed from consecutive spans of the tokens (`Parsing.ForAt`): the initializer after `(`, the condition clause up to its `;` (`true` when omitted), the increment clause up to `)` (the absent expression when omitted), and the statement after `)` as the body |
| Parsing.Parser.ForHeader | app/src/main/kotlin/dev/aayushgupta/kix/core/Parser.kt:70-90 | without `(`, `Expect '(' after 'for'.` is thrown and nothing is consumed; otherwise the initializer, the condition clause and the increment clause are parsed from consecutive spans of the tokens, up to the `)` that ends them (`Parsing.HeaderAt`) |
| Parsing.Parser.LoopClauses | app/src/main/kotlin/dev/aayushgupta/kix/core/Parser.kt:78-90 | the condition clause runs up to a `;` and the increment clause from there up to a `)`, each either omitted, when its terminator comes first, or an expression built from its own tokens |
| Parsing.Parser.ForInitializer | app/src/main/kotlin/dev/aayushgupta/kix/core/Parser.kt:72-76 | a lone `;` is the empty statement, a `var` starts a variable declaration of the tokens after it, and anything else is an expression statement of the tokens up to its `;` (`Parsing.InitializerAt`) |
| Parsing.Parser.Clause | app/src/main/kotlin/dev/aayushgupta/kix/core/Parser.kt:78-90 | when the terminator comes first, the clause is the omitted value (`true` for the condition, the absent expression for the increment) and only the terminator is consumed; otherwise it is an expression built from the tokens before the terminator, which is consumed |
| Parsing.Parser.IfStatement | app/src/main/kotlin/dev/aayushgupta/kix/core/Parser.kt:108-117 | an `if` is an `If` whose condition is built from exactly the tokens between its `(` and `)`, whose then branch is the statement after the `)`, and whose else branch is the statement after an `else` that follows, or the empty statement when none does (`Parsing.IfAt`) |
| Parsing.Parser.Condition | app/src/main/kotlin/dev/aayushgupta/kix/core/Parser.kt:109-111 | without `(`, the given message is thrown and nothing is consumed; otherwise the condition is built from the tokens between the `(` and a `)`, and the cursor stands after that `)` |
| Parsing.Parser.IfBranches | app/src/main/kotlin/dev/aayushgupta/kix/core/Parser.kt:113-114 | the then branch is the statement at the cursor; the else branch is the statement after an `else` that follows it, or the empty statement when no `else` does (`Parsing.BranchesAt`) |
| Parsing.Parser.ElseBranch | app/src/main/kotlin/dev/aayushgupta/kix/core/Parser.kt:114 | without `else`, the branch is the empty statement and nothing is consumed or reported; after `else` it is the statement parsed from the tokens that follow |
| Parsing.Parser.PrintStatement | app/src/main/kotlin/dev/aayushgupta/kix/core/Parser.kt:119-123 | a print statement prints an expression built from exactly the tokens before its `;` |
| Parsing.Parser.WhileStatement | app/src/main/kotlin/dev/aayushgupta/kix/core/Parser.kt:125-132 | a `while` is a `While` whose condition is built from exactly the tokens between its `(` and `)`, and whose body is the statement after the `)` (`Parsing.WhileAt`) |
| Parsing.Parser.Block | app/src/main/kotlin/dev/aayushgupta/kix/core/Parser.kt:134-143 | a block holds the declarations parsed one after the other from consecutive spans of the tokens, from its first token up to the `}` that closes it; each is well formed, and none is the empty statement unless an error was reported |
| Parsing.Parser.ExpressionStatement | app/src/main/kotlin/dev/aayushgupta/kix/core/Parser.kt:145-149 | an expression statement is an expression built from exactly the tokens before its `;` |
| Parsing.Parser.Expression | app/src/main/kotlin/dev/aayushgupta/kix/core/Parser.kt:151 | an expression consumes at least one token and builds a well-formed tree that renders as the tokens read when nothing was reported; the token after it cannot extend it. Tokens written as a well-formed tree whose calls have at most 255 arguments of this level, up to a token that cannot extend it, always parse: the result is a tree, the cursor stops in front of that token, and nothing is reported. |
| Parsing.Parser.Assignment | app/src/main/kotlin/dev/aayushgupta/kix/core/Parser.kt:153-169 | `=` after a variable makes a right-associative assignment keeping the variable's name token and id; after any other target, `Invalid assignment target.` is reported at the `=` without throwing and the result is the target itself. Tokens written as a well-formed expression whose calls have at most 255 arguments, up to a token that cannot extend it, always parse up to that token without a report |
| Parsing.Parser.AssignedValue | app/src/main/kotlin/dev/aayushgupta/kix/core/Parser.kt:156-164 | after the `=`, the value is parsed as an assignment again; a variable target yields an assignment keeping the variable's name token and id, any other target is returned unchanged with `Invalid assignment target.` reported at the `=`; the result renders as the tokens read from the target's start; when the value is written as a well-formed assignment up to a token that cannot extend it, a variable target always parses up to that token without a report |
| Parsing.Parser.Ternary | app/src/main/kotlin/dev/aayushgupta/kix/core/Parser.kt:171-182 | the result is a ternary exactly when a `?` was read after its condition, an `or` operand; its branches are any expressions, and it renders as its tokens; when the token after the first branch is no `:`, the result is the error `Invalid conditional, expected ':'`, thrown at that token. Tokens written as a well-formed tree of this level whose calls have at most 255 arguments, up to a token that cannot extend it, always parse up to that token without a report |
| Parsing.Parser.TernaryBranches | app/src/main/kotlin/dev/aayushgupta/kix/core/Parser.kt:175-177 | the first branch is the expression up to a `:` and the second the expression after it; when the token after the first branch is no `:`, `Invalid conditional, expected ':'` is thrown at that token. Tokens written as an expression up to a `:`, then as an expression up to a token that cannot extend it, always parse up to that token without a report |
| Parsing.Parser.Or | app/src/main/kotlin/dev/aayushgupta/kix/core/Parser.kt:185-196 | `and` operands joined by `or` fold to the left into a tree that renders as the tokens read, and the loop stops only in front of a token that cannot extend it. Tokens written as a well-formed tree whose calls have at most 255 arguments of this level, up to a token that cannot extend it, always parse: the result is a tree, the cursor stops in front of that token, and nothing is reported. |
| Parsing.Parser.LogicalOperand | app/src/main/kotlin/dev/aayushgupta/kix/core/Parser.kt:188-191 | the operand after an `or` (or an `and`) is parsed one level tighter and joined to the chain on its left, which stays the left operand; the result renders as the tokens read from the chain's start, and the operand stops only in front of a token that cannot extend it. When the tokens from the chain's start are written as a chain of that operator, the operand always parses without a report and the chain read so far is the next node of the written chain: another operator of the chain follows exactly when the written chain is not yet complete, and otherwise its tokens end there |
| Parsing.Parser.And | app/src/main/kotlin/dev/aayushgupta/kix/core/Parser.kt:198-208 | equality operands joined by `and` fold to the left into a tree that renders as the tokens read, and the loop stops only in front of a token that cannot extend it. Tokens written as a well-formed tree whose calls have at most 255 arguments of this level, up to a token that cannot extend it, always parse: the result is a tree, the cursor stops in front of that token, and nothing is reported. |
| Parsing.Parser.Equality | app/src/main/kotlin/dev/aayushgupta/kix/core/Parser.kt:211 | the equality level builds a tree binding at least as tightly as equality, which the next token cannot extend. Tokens written as a well-formed tree whose calls have at most 255 arguments of this level, up to a token that cannot extend it, always parse: the result is a tree, the cursor stops in front of that token, and nothing is reported. |
| Parsing.Parser.Comparison | app/src/main/kotlin/dev/aayushgupta/kix/core/Parser.kt:212 | the comparison level builds a tree binding at least as tightly as comparison, which the next token cannot extend. Tokens written as a well-formed tree whose calls have at most 255 arguments of this level, up to a token that cannot extend it, always parse: the result is a tree, the cursor stops in front of that token, and nothing is reported. |
| Parsing.Parser.Term | app/src/main/kotlin/dev/aayushgupta/kix/core/Parser.kt:213 | the term level builds a tree binding at least as tightly as term, which the next token cannot extend. Tokens written as a well-formed tree whose calls have at most 255 arguments of this level, up to a token that cannot extend it, always parse: the result is a tree, the cursor stops in front of that token, and nothing is reported. |
| Parsing.Parser.Factor | app/src/main/kotlin/dev/aayushgupta/kix/core/Parser.kt:214 | the factor level builds a tree binding at least as tightly as factor, which the next token cannot extend. Tokens written as a well-formed tree whose calls have at most 255 arguments of this level, up to a token that cannot extend it, always parse: the result is a tree, the cursor stops in front of that token, and nothing is reported. |
| Parsing.Parser.Operand | app/src/main/kotlin/dev/aayushgupta/kix/core/Parser.kt:211-214 | each binary level's operand is parsed by the next tighter level; tokens written as a tree of that tighter level, up to a token that cannot extend it, always parse up to that token without a report |
| Parsing.Parser.LeftAssociative | app/src/main/kotlin/dev/aayushgupta/kix/core/Parser.kt:266-274 | operator-operand pairs of one level fold to the left into a tree that renders as the tokens read, and the loop stops only in front of a token that is no operator of that level or of a tighter one. Conversely, tokens written as a chain of this level up to a token that cannot extend it always parse, operand after operand along the chain's left spine, up to that token and without a report |
| Parsing.Parser.Unary | app/src/main/kotlin/dev/aayushgupta/kix/core/Parser.kt:216-223 | a prefix `!` or `-` wraps the unary that follows it, and otherwise the result is a call; either renders as the tokens read. Tokens written as a well-formed tree whose calls have at most 255 arguments of this level, up to a token that cannot extend it, always parse: the result is a tree, the cursor stops in front of that token, and nothing is reported. |
| Parsing.Parser.Call | app/src/main/kotlin/dev/aayushgupta/kix/core/Parser.kt:225-236 | a primary and the argument lists after it build calls nested to the left (`f()()` calls the result of `f()`), rendering as the tokens read; the loop stops only in front of a token other than `(`. Tokens written as a well-formed tree whose calls have at most 255 arguments of this level, up to a token that cannot extend it, always parse: the result is a tree, the cursor stops in front of that token, and nothing is reported. |
| Parsing.Parser.CallSuffixes | app/src/main/kotlin/dev/aayushgupta/kix/core/Parser.kt:228-234 | the argument lists after the callee build a call-level tree that renders as all the tokens read from the callee on, and the loop ends only in front of a token other than `(`. When the tokens from the callee on are written as a call chain and the callee read so far is the chain's innermost callee, every argument list of the chain parses, up to the chain's end, without a report |
| Parsing.Parser.CallSuffix | app/src/main/kotlin/dev/aayushgupta/kix/core/Parser.kt:229-230 | one argument list after a `(` makes a call of the callee, which renders as the callee's tokens, the `(`, the arguments and the `)`; arguments written as the tokens up to a `)` always parse, past the `)`, without a report |
| Parsing.Parser.FinishCall | app/src/main/kotlin/dev/aayushgupta/kix/core/Parser.kt:238-250 | the arguments are well formed and render, comma-separated, as the tokens before the `)`, and the call keeps that `)` token; more than 255 arguments are reported without stopping the parse. At most 255 arguments written as comma-separated expressions up to a `)` always parse, past the `)`, without a report |
| Parsing.Parser.Argument | app/src/main/kotlin/dev/aayushgupta/kix/core/Parser.kt:241-245 | once 255 arguments have been read, `Can't have more than 255 arguments.` is reported at the current token and the argument is parsed anyway; the arguments read so far, extended by this one, are well formed and render, comma-separated, as the tokens read since the `(`; below the limit, arguments written as comma-separated expressions up to a `)` always yield their first one without a report, followed by a comma exactly when more are written, and by the `)` otherwise |
| Parsing.Parser.ArgumentList | app/src/main/kotlin/dev/aayushgupta/kix/core/Parser.kt:240-246 | the `do … while` loop over comma-separated arguments reads at least one argument and stops in front of a token that is no comma; the arguments are well formed and render, comma-separated, as the tokens read; more than 255 of them leave a report; at most 255 arguments written up to a `)` always parse, up to the `)`, without a report |
| Parsing.Parser.Primary | app/src/main/kotlin/dev/aayushgupta/kix/core/Parser.kt:252-264 | a `false`, `true`, `nil`, number, string or identifier token is a one-token primary; a `(` starts a group that is closed when the token after its expression is `)`, and otherwise `Expect ')' after expression.` is thrown at that token; any other token throws `Expect expression.` without consuming anything; the result renders as the tokens read. Tokens written as a well-formed tree whose calls have at most 255 arguments of this level, up to a token that cannot extend it, always parse: the result is a tree, the cursor stops in front of that token, and nothing is reported. |
| Parsing.Parser.Atom | app/src/main/kotlin/dev/aayushgupta/kix/core/Parser.kt:252-257 | exactly a `false`, `true`, `nil`, number, string or identifier token is one-token primary: the constant, the value its token carries, or a variable named by its token and identified by its position |
| Parsing.Parser.Synchronize | app/src/main/kotlin/dev/aayushgupta/kix/core/Parser.kt:310-321 | after skipping at least one token, recovery stops at the first point just after a `;` or just before a statement keyword, or at the end of input |
| Parsing.Parser.MatchLevel | app/src/main/kotlin/dev/aayushgupta/kix/core/Parser.kt:276-284 | the cursor moves exactly when the current token is one of the level's operators |
| Parsing.Parser.MatchLogical | app/src/main/kotlin/dev/aayushgupta/kix/core/Parser.kt:188-200 | `match(OR)` after an `and` operand, or `match(AND)` after an equality operand, moves the cursor exactly when that operator is the current token; when it does not, no token can extend the chain |
| Parsing.Parser.Match | app/src/main/kotlin/dev/aayushgupta/kix/core/Parser.kt:276-284 | the cursor moves exactly when the current token has one of the kinds and is not the end of input |
| Parsing.Parser.Consume | app/src/main/kotlin/dev/aayushgupta/kix/core/Parser.kt:286-289 | the cursor moves past a token of the expected kind and nothing is reported; otherwise the cursor stays and the message is reported at the current token |
| Parsing.Parser.Advance | app/src/main/kotlin/dev/aayushgupta/kix/core/Parser.kt:296-299 | the cursor never moves past the end-of-input token |
| Parsing.Parser.Error | app/src/main/kotlin/dev/aayushgupta/kix/core/Parser.kt:305-308 | the error is reported at its token |
| Runtime.Environment.constructor | app/src/main/kotlin/dev/aayushgupta/kix/core/Environment.kt:3-4 | a new frame has the given parent and no bindings |
| Runtime.Environment.AncestorAt | app/src/main/kotlin/dev/aayushgupta/kix/core/Environment.kt:10-16 | the frame `distance` links up, when there is one, lies on this frame's chain |
| Runtime.Environment.AncestorExists | app/src/main/kotlin/dev/aayushgupta/kix/core/Environment.kt:10-16 | the ancestor at `distance` exists exactly when the chain has at least `distance` links |
| Runtime.Environment.AncestorCompose | app/src/main/kotlin/dev/aayushgupta/kix/core/Environment.kt:10-16 | climbing `d1` links and then `d2` is climbing `d1 + d2` |
| Runtime.Environment.Ancestor | app/src/main/kotlin/dev/aayushgupta/kix/core/Environment.kt:10-16 | `ancestor` follows exactly `distance` enclosing links, or fails where the chain is shorter |
| Runtime.Environment.Define | app/src/main/kotlin/dev/aayushgupta/kix/core/Environment.kt:6-8 | `define` binds or rebinds the name in this frame only |
| Runtime.Environment.GetAt | app/src/main/kotlin/dev/aayushgupta/kix/core/Environment.kt:18-20 | `getAt` yields the binding in the ancestor at `distance`, and fails where it is missing |
| Runtime.Environment.AssignAt | app/src/main/kotlin/dev/aayushgupta/kix/core/Environment.kt:22-24 | `assignAt` changes only the ancestor's binding for the name, and reading it back at once gives the value assigned |
| Runtime.BindingsKeys | app/src/main/kotlin/dev/aayushgupta/kix/core/KixFunction.kt:9-11 | a call's frame binds exactly the parameter names |
| Runtime.BindingsLookup | app/src/main/kotlin/dev/aayushgupta/kix/core/KixFunction.kt:9-11 | each parameter not repeated later is bound to its own argument |
| Runtime.BindingsFrom | app/src/main/kotlin/dev/aayushgupta/kix/core/KixFunction.kt:9-11 | every value a call's frame starts with is one of the arguments |
| Runtime.KixFunction.constructor | app/src/main/kotlin/dev/aayushgupta/kix/core/KixFunction.kt:3-5 | a function holds its declaration and the environment it was declared in |
| Runtime.KixFunction.Bind | app/src/main/kotlin/dev/aayushgupta/kix/core/KixFunction.kt:7-11 | a call's frame is fresh, its parent is the closure whatever the caller's frame is, and it binds the parameters to the arguments in order |
| Interpreting.IsTruthy | app/src/main/kotlin/dev/aayushgupta/kix/core/Interpreter.kt:311-315 | exactly nil and false are falsy |
| Interpreting.IsEqual | app/src/main/kotlin/dev/aayushgupta/kix/core/Interpreter.kt:317-321 | nil equals only nil, and other values compare as values |
| Interpreting.Stringify | app/src/main/kotlin/dev/aayushgupta/kix/core/Interpreter.kt:323-335 | nil prints as `nil`, a number through the host's rendering, a boolean as `true` or `false`, a string as itself, a function as `<fn NAME>` with its declared name, and the unit value as `kotlin.Unit` |
| Interpreting.PlusOperands | app/src/main/kotlin/dev/aayushgupta/kix/core/Interpreter.kt:273-285 | two strings concatenate, two numbers add, a string and a number concatenate with the number rounded, and any other pair fails with a message showing both operands |
| Interpreting.MixedPlusRounds | app/src/main/kotlin/dev/aayushgupta/kix/core/Interpreter.kt:276-277 | a string joined with a number ends in the text of the integer nearest the number |
| Interpreting.BinaryOp | app/src/main/kotlin/dev/aayushgupta/kix/core/Interpreter.kt:206-259 | comparisons, `-`, `/` and `*` need two numbers or fail with `Operand must be a number.`; comparisons give booleans; `==` and `!=` never fail |
| Interpreting.UnaryOp | app/src/main/kotlin/dev/aayushgupta/kix/core/Interpreter.kt:261-271 | `!` negates truthiness; `-` negates a number or fails with `Operand must be a number.` |
| Interpreting.ShortCircuitCases | app/src/main/kotlin/dev/aayushgupta/kix/core/Interpreter.kt:152-159 | `or` stops at a truthy left value and `and` at a falsy one, and no other operator stops |
| Interpreting.CallTarget | app/src/main/kotlin/dev/aayushgupta/kix/core/Interpreter.kt:133-144 | a call succeeds exactly for a function given as many arguments as its arity; otherwise `Can only call functions and classes.` or `Expected N arguments but got M.` at the `)` |
| Interpreting.ArgumentCountNamesCounts | app/src/main/kotlin/dev/aayushgupta/kix/core/Interpreter.kt:139-143 | the arity message names both counts: different counts give different messages |
| Interpreting.ConstantWalk | app/src/main/kotlin/dev/aayushgupta/kix/core/Interpreter.kt:122-168 | every walk of an expression without variables, assignments or calls, whatever the fuel or the state, ends with the value the direct recursive definition gives |
| Interpreting.ConstantNeverExhausts | app/src/main/kotlin/dev/aayushgupta/kix/core/Interpreter.kt:122-168 | such an expression never runs out of fuel and never crashes |
| Interpreting.LoopEnds | app/src/main/kotlin/dev/aayushgupta/kix/core/Interpreter.kt:100-104 | a failing condition ends the loop with its failure, a falsy one completes it |
| Interpreting.LoopLeaves | app/src/main/kotlin/dev/aayushgupta/kix/core/Interpreter.kt:100-104 | a body that does not complete ends the loop with its flow |
| Interpreting.LoopTurns | app/src/main/kotlin/dev/aayushgupta/kix/core/Interpreter.kt:100-104 | a completed body and the next condition make one more turn of the loop |
| Interpreting.LoopExhausts | app/src/main/kotlin/dev/aayushgupta/kix/core/Interpreter.kt:100-104 | a truthy condition after `fuel` turns ends the loop `Exhausted` |
| Interpreting.RunDerives | app/src/main/kotlin/dev/aayushgupta/kix/core/Interpreter.kt:297-309 | a run that stopped at a statement that did not complete, or walked all of them, is a derivation of the statements |
| Interpreting.Interpreter.constructor | app/src/main/kotlin/dev/aayushgupta/kix/core/Interpreter.kt:9-13 | the interpreter starts at the top level, with no globals and no resolved variables |
| Interpreting.Interpreter.Resolve | app/src/main/kotlin/dev/aayushgupta/kix/core/Interpreter.kt:177-182 | `resolve` records the node's distance and changes no other entry |
| Interpreting.Interpreter.Define | app/src/main/kotlin/dev/aayushgupta/kix/core/Interpreter.kt:184-188 | `define` binds in the current frame, or among the globals at the top level |
| Interpreting.Interpreter.LookUpVariable | app/src/main/kotlin/dev/aayushgupta/kix/core/Interpreter.kt:190-200 | a resolved name is read at its distance from the current frame; an unresolved one among the globals, or it fails with `Undefined variable` |
| Interpreting.Interpreter.Evaluate | app/src/main/kotlin/dev/aayushgupta/kix/core/Interpreter.kt:202-204 | evaluation leaves the current frame and the resolved distances as they were and follows the evaluation rules; a variable's value is exactly its resolved lookup |
| Interpreting.Interpreter.VisitAssign | app/src/main/kotlin/dev/aayushgupta/kix/core/Interpreter.kt:110-120 | the value is evaluated first and its failure is the result; then a resolved target is assigned at its distance, an unresolved one must already be a global (else `Undefined variable`), and the value is the result |
| Interpreting.Interpreter.VisitTernary | app/src/main/kotlin/dev/aayushgupta/kix/core/Interpreter.kt:122-125 | the condition is evaluated, then exactly the branch its truthiness selects, whose outcome is the result; a failing condition is the result |
| Interpreting.Interpreter.VisitBinary | app/src/main/kotlin/dev/aayushgupta/kix/core/Interpreter.kt:127-128 | the left operand, then, unless it failed, the right one, then the operator on the two values; the first failure is the result |
| Interpreting.Interpreter.VisitCall | app/src/main/kotlin/dev/aayushgupta/kix/core/Interpreter.kt:130-146 | the callee, then the arguments, then the callee and arity checks at the `)`; a function then runs its body, one fuel lower, in a frame binding its parameters to the arguments, and the call's value is the returned value, or `Unit` without a `return` |
| Interpreting.Interpreter.EvaluateArguments | app/src/main/kotlin/dev/aayushgupta/kix/core/Interpreter.kt:132 | the arguments are evaluated left to right; the values are exactly their results, or the first failure ends the list as its outcome |
| Interpreting.Interpreter.CallFunction | app/src/main/kotlin/dev/aayushgupta/kix/core/KixFunction.kt:7-18 | the body runs in a fresh frame whose parent is the closure and which binds the parameters to the arguments; a `return` gives the call's value, finishing without one gives `Unit`, a failure propagates, and no fuel ends `Exhausted` |
| Interpreting.Interpreter.ExecuteBlock | app/src/main/kotlin/dev/aayushgupta/kix/core/Interpreter.kt:297-309 | the statements run in order, from the given frame's bindings, up to the first that does not complete, whose flow is the result; the previous frame is current again on every way out |
| Interpreting.Interpreter.Execute | app/src/main/kotlin/dev/aayushgupta/kix/core/Interpreter.kt:173-175 | each statement follows its execution rule; `var x;` binds nil; a function is bound under its name and captures the current frame |
| Interpreting.Interpreter.VisitBlock | app/src/main/kotlin/dev/aayushgupta/kix/core/Interpreter.kt:63-65 | the statements run in a fresh frame whose parent is the current one, and the run's flow is the block's |
| Interpreting.Interpreter.VisitFunction | app/src/main/kotlin/dev/aayushgupta/kix/core/Interpreter.kt:71-74 | a function value holding the declaration and closing over the current frame is bound under its name |
| Interpreting.Interpreter.VisitReturn | app/src/main/kotlin/dev/aayushgupta/kix/core/Interpreter.kt:87-90 | the value, nil when absent, leaves as the Returned flow; its failure is the result |
| Interpreting.Interpreter.VisitPrint | app/src/main/kotlin/dev/aayushgupta/kix/core/Interpreter.kt:82-85 | the expression is evaluated; its value, stringified, is the last line written, and its failure is the result |
| Interpreting.Interpreter.VisitVar | app/src/main/kotlin/dev/aayushgupta/kix/core/Interpreter.kt:92-98 | the initializer's value, or nil without one, is bound under the name in the current frame; a failing initializer is the result |
| Interpreting.Interpreter.VisitIf | app/src/main/kotlin/dev/aayushgupta/kix/core/Interpreter.kt:76-80 | the condition, then exactly the branch its truthiness selects, whose flow is the result; a failing condition is the result |
| Interpreting.Interpreter.VisitWhile | app/src/main/kotlin/dev/aayushgupta/kix/core/Interpreter.kt:100-104 | conditions and bodies alternate; the loop completes on a falsy condition, ends with the failure of a failing condition, ends with the flow of a body that does not complete (an error or a `return`), and ends `Exhausted` after `fuel` turns |
| Interpreting.Interpreter.VisitLogical | app/src/main/kotlin/dev/aayushgupta/kix/core/Interpreter.kt:152-159 | the left outcome is the result when it fails or decides the operator, and then the right side is not evaluated; otherwise the right side's outcome is the result |
| Interpreting.Interpreter.VisitUnary | app/src/main/kotlin/dev/aayushgupta/kix/core/Interpreter.kt:161-164 | the operand, then the operator on its value; the operand's failure is the result |
| Interpreting.Interpreter.Interpret | app/src/main/kotlin/dev/aayushgupta/kix/core/Interpreter.kt:52-60 | the statements run in order up to the first that does not complete; only a runtime error is reported, once, with its token's line |
| Resolving.Put | app/src/main/kotlin/dev/aayushgupta/kix/core/Resolver.kt:167 | putting a name in a scope keeps its names distinct and in insertion order, sets that name's entry and no other |
| Resolving.Touch | app/src/main/kotlin/dev/aayushgupta/kix/core/Resolver.kt:179 | marking an entry read changes only that entry and keeps the scope's names |
| Resolving.MarkRead | app/src/main/kotlin/dev/aayushgupta/kix/core/Resolver.kt:176-180 | the entry in the scope `distance` out is marked read, and every other scope is unchanged |
| Resolving.UnusedWarnings | app/src/main/kotlin/dev/aayushgupta/kix/core/Resolver.kt:152-159 | there is at most one report per name of the scope |
| Resolving.UnusedWarningsExactly | app/src/main/kotlin/dev/aayushgupta/kix/core/Resolver.kt:152-159 | a report is given exactly for each entry that is not a function and was never read |
| Resolving.Innermost | app/src/main/kotlin/dev/aayushgupta/kix/core/Resolver.kt:175-183 | the search finds the innermost scope that has the name, with no inner scope having it; it finds nothing exactly when no scope has the name |
| Resolving.InnermostSameNames | app/src/main/kotlin/dev/aayushgupta/kix/core/Resolver.kt:28-31 | where a name resolves depends only on which names each scope holds, so resolving an assigned value does not move its target |
| Resolving.InnermostPush | app/src/main/kotlin/dev/aayushgupta/kix/core/Resolver.kt:142-144 | a name the new scope does not hold resolves one scope further out |
| Resolving.DeclareIn | app/src/main/kotlin/dev/aayushgupta/kix/core/Resolver.kt:161-168 | `declare` on the state keeps the scopes sound, only extends them, records no distance and keeps earlier reports |
| Resolving.LocalIn | app/src/main/kotlin/dev/aayushgupta/kix/core/Resolver.kt:175-183 | `resolveLocal` on the state keeps every scope's names and reports nothing |
| Resolving.EndIn | app/src/main/kotlin/dev/aayushgupta/kix/core/Resolver.kt:146-149 | `endScope` on the state pops exactly the innermost scope and records no distance |
| Resolving.WalkExpr | app/src/main/kotlin/dev/aayushgupta/kix/core/Resolver.kt:28-75 | resolving an expression keeps the function kind and the reports made so far, and adds or removes no name in any scope |
| Resolving.WalkStmt | app/src/main/kotlin/dev/aayushgupta/kix/core/Resolver.kt:77-127 | resolving a statement keeps the function kind and the reports made so far, and only adds names |
| Resolving.BlockIn | app/src/main/kotlin/dev/aayushgupta/kix/core/Resolver.kt:77-81 | a block leaves the stack with the same names it found |
| Resolving.FunctionIn | app/src/main/kotlin/dev/aayushgupta/kix/core/Resolver.kt:185-198 | resolving a function leaves the stack with the same names and the function kind it found |
| Resolving.DistancesSameNames | app/src/main/kotlin/dev/aayushgupta/kix/core/Resolver.kt:175-183 | the distances an expression records depend only on the names each scope holds |
| Resolving.WalkRecordsDistances | app/src/main/kotlin/dev/aayushgupta/kix/core/Resolver.kt:28-75 | resolving an expression records, on top of the distances so far, exactly the innermost-scope distance of each variable use and assignment target in it, from left to right |
| Resolving.WalkRecordsArgumentDistances | app/src/main/kotlin/dev/aayushgupta/kix/core/Resolver.kt:44-47 | resolving a call's arguments records exactly their variables' innermost-scope distances |
| Resolving.AssignTargetRecorded | app/src/main/kotlin/dev/aayushgupta/kix/core/Resolver.kt:28-31 | an assignment to a name some scope holds records that scope's distance for the assignment's node; otherwise only its value's distances are recorded |
| Resolving.VariableInReports | app/src/main/kotlin/dev/aayushgupta/kix/core/Resolver.kt:65-72 | a read is reported exactly when the innermost scope has the name declared but not yet defined |
| Resolving.VarInDefines | app/src/main/kotlin/dev/aayushgupta/kix/core/Resolver.kt:113-119 | after `var` in a scope, the name is defined, not yet read and not a function in the innermost scope |
| Resolving.VarInRedeclared | app/src/main/kotlin/dev/aayushgupta/kix/core/Resolver.kt:161-168 | `var` reports a name its scope already had before anything its initializer reports; without an initializer that is its only report |
| Resolving.VarInOwnInitializer | app/src/main/kotlin/dev/aayushgupta/kix/core/Resolver.kt:65-70 | in a scope, `var a = a;` reports the read of `a` in its own initializer |
| Resolving.FunctionStmtDefines | app/src/main/kotlin/dev/aayushgupta/kix/core/Resolver.kt:87-92 | a function declared in a scope is afterwards a defined entry of function kind for its own name, whatever its body did |
| Resolving.DeclareAllDefines | app/src/main/kotlin/dev/aayushgupta/kix/core/Resolver.kt:190-193 | after the parameter loop every parameter is defined in the innermost scope, and names defined before stay defined |
| Resolving.FunctionInScope | app/src/main/kotlin/dev/aayushgupta/kix/core/Resolver.kt:185-198 | the body is resolved in a fresh scope pushed on the stack it found, in which every parameter resolves at distance 0, with the function kind set; the enclosing kind is restored afterwards |
| Resolving.ReturnInReports | app/src/main/kotlin/dev/aayushgupta/kix/core/Resolver.kt:104-111 | `return` outside a function is reported first; inside one, a bare `return` reports nothing |
| Resolving.Resolver.constructor | app/src/main/kotlin/dev/aayushgupta/kix/core/Resolver.kt:11-15 | the resolver starts with no scopes, outside any function |
| Resolving.Resolver.BeginScope | app/src/main/kotlin/dev/aayushgupta/kix/core/Resolver.kt:142-144 | the resolver's state after the call is `BeginIn` of the state before: an empty innermost scope is pushed |
| Resolving.Resolver.EndScope | app/src/main/kotlin/dev/aayushgupta/kix/core/Resolver.kt:146-149 | the state after is `EndIn` of the state before: the innermost scope's unused variables are reported, then it is popped |
| Resolving.Resolver.CheckForUnusedVariables | app/src/main/kotlin/dev/aayushgupta/kix/core/Resolver.kt:152-159 | the reports are exactly the unused-variable warnings for the innermost scope, in its key order |
| Resolving.Resolver.Declare | app/src/main/kotlin/dev/aayushgupta/kix/core/Resolver.kt:161-168 | the state after is `DeclareIn` of the state before: nothing at the top level; in a scope the name is entered declared and not defined, and a name the scope already has is reported |
| Resolving.Resolver.Define | app/src/main/kotlin/dev/aayushgupta/kix/core/Resolver.kt:170-173 | the state after is `DefineIn` of the state before: nothing at the top level; in a scope the name becomes defined and not yet read |
| Resolving.Resolver.ResolveLocal | app/src/main/kotlin/dev/aayushgupta/kix/core/Resolver.kt:175-183 | the state after is `LocalIn` of the state before: the innermost scope with the name gives the recorded distance, and only a read marks the entry used; an unknown name records nothing |
| Resolving.Resolver.FindScope | app/src/main/kotlin/dev/aayushgupta/kix/core/Resolver.kt:176-177 | the downward loop finds the innermost scope that has the name |
| Resolving.Resolver.ResolveStatements | app/src/main/kotlin/dev/aayushgupta/kix/core/Resolver.kt:129-131 | the state after is `WalkStmts` of the state before: each statement is resolved in turn |
| Resolving.Resolver.ResolveStatement | app/src/main/kotlin/dev/aayushgupta/kix/core/Resolver.kt:134-136 | the state after is `WalkStmt` of the state before, which resolves every part of the statement |
| Resolving.Resolver.VisitBlock | app/src/main/kotlin/dev/aayushgupta/kix/core/Resolver.kt:77-81 | the state after is `BlockIn` of the state before: a scope is pushed, the statements are resolved, the scope's unused variables are reported and it is popped |
| Resolving.Resolver.VisitVar | app/src/main/kotlin/dev/aayushgupta/kix/core/Resolver.kt:113-119 | the state after is `VarIn` of the state before: declared, the initializer resolved, then defined |
| Resolving.Resolver.VisitFunction | app/src/main/kotlin/dev/aayushgupta/kix/core/Resolver.kt:87-92 | the state after is `FunctionStmtIn` of the state before: the name is declared and defined as a function, then the function is resolved |
| Resolving.Resolver.ResolveFunction | app/src/main/kotlin/dev/aayushgupta/kix/core/Resolver.kt:185-198 | the state after is `FunctionIn` of the state before: the parameters and the body in a fresh scope, with the function kind set for the body and restored afterwards |
| Resolving.Resolver.DeclareParameters | app/src/main/kotlin/dev/aayushgupta/kix/core/Resolver.kt:190-193 | the state after is `DeclareAll` of the state before: each parameter declared, then defined, in turn |
| Resolving.Resolver.DeclareParameter | app/src/main/kotlin/dev/aayushgupta/kix/core/Resolver.kt:191-192 | the state after is `ParamIn` of the state before: the parameter declared, then defined |
| Resolving.Resolver.VisitReturn | app/src/main/kotlin/dev/aayushgupta/kix/core/Resolver.kt:104-111 | the state after is `ReturnIn` of the state before: the outside-function report, then the value resolved |
| Resolving.Resolver.ResolveExpression | app/src/main/kotlin/dev/aayushgupta/kix/core/Resolver.kt:138-140 | the state after is `WalkExpr` of the state before, which resolves every subexpression in source order |
| Resolving.Resolver.ResolveArguments | app/src/main/kotlin/dev/aayushgupta/kix/core/Resolver.kt:44-47 | the state after is `WalkExprs` of the state before: the arguments are resolved in turn, left to right |
| Resolving.Resolver.VisitVariable | app/src/main/kotlin/dev/aayushgupta/kix/core/Resolver.kt:65-72 | the state after is `VariableIn` of the state before: the own-initializer report, then the read resolved |
| Resolving.Resolver.VisitAssign | app/src/main/kotlin/dev/aayushgupta/kix/core/Resolver.kt:28-31 | the state after is `WalkExpr` of the state before: the value is resolved first, then the target as a write |

## Left out

- The native functions `clock`, `print` and `println` are left out, because they read the system clock and write to standard output. The globals therefore start empty.
- The print statement does not write to standard output. It appends its line to the interpreter's `output` sequence.
- The scanner's echo of each block comment to standard output is left out. It is output only.
- The older snapshot's `interpret` (print the value, or report the runtime error) is left out. It is the driver's output step; `ExprEval.Evaluate` and `ExprEval.Stringify` model what it prints.
- The newer driver's `Scanner` is not part of this model. The scanner modelled is the older `KixScanner`, whose tokens the statement parser takes here.
- The drivers, the AST printers and the AST generators are left out. They are I/O and development tools. The newer driver never runs the resolver; here the resolver can be run before the interpreter.
- The source does not agree on slots.
  - The interpreter's `resolve` takes a depth and a slot.
  - `lookUpVariable` and `visitAssignExpr` pass a slot to `getAt`/`assignAt`, which take a name.
  - `define` passes only a value to `Environment.define`.

  No code computes a slot. The model addresses a variable by (distance, name) throughout, and `define` binds the name in the current frame.
- `KixFunction` declares a closure of type `Environment`, but the interpreter passes its current frame, which is null at the top level. The model's closure is an `Environment?`, and a top-level function's call frame has no parent. Its globals are reached through `globals`, as in the source.
- Double arithmetic and `Double.toString` are not modelled. They come in as the functions of a `Host` value, and so does the text-to-double conversion of number literals.
- Comparison (`>`, `>=`, `<`, `<=`) is on the exact reals, not through the `Host`. NaN and the infinities do not exist in the model, so a comparison such as `0/0 < 1` has no counterpart here.
- The kotlin `!!` failures are modelled as the `Crashed` outcome. They are a missing ancestor frame or a missing name in the frame a resolved distance names. `interpret` does not catch them.
- Function identity is left out. Two function values are equal when their objects are the same object, as `==` on kotlin objects without `equals` is.
- A resolver scope entry is updated by value. The source mutates its `Info` objects in place.
- `Interpreting.Interpreter.VisitWhile`: the loop turns at most `fuel` times. A loop that would run longer ends `Exhausted`, so non-termination is not modelled.
- `Interpreting.Interpreter.CallFunction`: calls nest at most `fuel` deep. Where the source would exhaust the host's stack, the model ends `Exhausted`.
- The statement parser has no `return` statement, as in the source. The `Return` statement exists for the resolver and the interpreter.
- NextIsUnexpected (`Lexer.NextIsUnexpected`): the text is a sequence of Unicode characters, while Kotlin's `source[current++]` steps over UTF-16 code units. A character outside the Basic Multilingual Plane (an emoji, say) outside a string gives two `Unexpected character` reports in the source, one per surrogate, and one report here. Inside a string such a character counts as two positions in the source and as one here.
- Statement (`Parsing.Parser.Statement`): the span predicate `Parsing.StatementAt` describes a nested `if`, `while`, `for` or block only by its kind and its delimiters, not by what it holds. The method that parses each such statement states its contents (`IfAt`, `WhileAt`, `ForAt`, the block's declarations), but these descriptions are not composed into one description of the whole statement tree. The same holds for the branches of `Parsing.Parser.IfStatement` and `Parsing.Parser.IfBranches`, the body of `Parsing.Parser.WhileStatement` and `Parsing.Parser.ForStatement`, and the statements of `Parsing.Parser.Block` and `Parsing.Parser.Parse`.
- Parse (`Parsing.Parser.Parse`): what a successful parse produced is stated (each declaration by `DeclarationAt`, in order, and no empty statement when nothing was reported), but not the converse that every well-formed program parses with no report. That direction is proved at the expression level only, from `Parsing.Parser.Expression` down; the statement-level methods (`Declaration`, `Declared`, `Function`, `FunctionBody`, `VarDeclaration`, `Statement`, `PlainStatement`, `IfStatement`, `IfBranches`, `ElseBranch`, `WhileStatement`, `ForStatement`, `Block`, `PrintStatement`, `ExpressionStatement`) state soundness only.
- Declaration (`Parsing.Parser.Declaration`): the declaration is described by `DeclarationAt`, which gives a function by `FunctionAt` and a statement by `StatementAt`, so a nested `if`, `while`, `for`, block or function body is given only by its kind and delimiters. That a well-formed declaration parses with no report is not stated.
- Declared (`Parsing.Parser.Declared`): the same shallow `DeclarationAt` description as `Declaration`, and no statement that a well-formed declaration parses.
- Function (`Parsing.Parser.Function`): `FunctionAt` gives the name, the parameters and the braces of the body, not the body's declarations, which `Parsing.Parser.FunctionBody` states and `Function` does not pass on. That a well-formed function parses is not stated.
- FunctionBody (`Parsing.Parser.FunctionBody`): each declaration of the body is described by the shallow `DeclarationAt`, so statements nested in them are given only by their kind and delimiters. That a well-formed body parses is not stated.
- PlainStatement (`Parsing.Parser.PlainStatement`): the statement is described by the shallow `StatementAt`; a `print` or expression statement's tree is pinned, a `while` loop or a block only by its delimiters. That a well-formed statement parses is not stated.
- ElseBranch (`Parsing.Parser.ElseBranch`): the `else` statement is described by the shallow `StatementAt`, as for `PlainStatement`. That a well-formed branch parses is not stated.
- VarDeclaration (`Parsing.Parser.VarDeclaration`), Statement (`Parsing.Parser.Statement`), IfStatement (`Parsing.Parser.IfStatement`), IfBranches (`Parsing.Parser.IfBranches`), WhileStatement (`Parsing.Parser.WhileStatement`), ForStatement (`Parsing.Parser.ForStatement`), Block (`Parsing.Parser.Block`), PrintStatement (`Parsing.Parser.PrintStatement`) and ExpressionStatement (`Parsing.Parser.ExpressionStatement`): what a successful parse produced is stated, not that a well-formed statement always parses with no report.
- Expression (`Parsing.Parser.Expression`): that a well-formed expression parses with no report is stated for calls of at most 255 arguments (`WithinArity`). With more, the source reports `Can't have more than 255 arguments.` and goes on; `Parsing.Parser.Argument` states that report, but the tree then built is not stated. The same restriction holds for every expression-level method below it, down to `Parsing.Parser.FinishCall` and `Parsing.Parser.Argument`.
- FinishCall (`Parsing.Parser.FinishCall`): completeness is stated only for argument lists within `WithinArity`, as for `Parsing.Parser.Expression`.
- VarDeclaration (`Parsing.Parser.VarDeclaration`): a missing name or `;` is stated to throw an error reported at the cursor, but the messages `Expect variable name.` and `Expect ';' after variable declaration.` are not pinned.
- Clause (`Parsing.Parser.Clause`): a missing terminator throws an error reported at the cursor; which of `Expect ';' after loop condition.` and `Expect ')' after for clauses.` is not pinned.
- Condition (`Parsing.Parser.Condition`): the message for a missing `(` is pinned, the one for a missing `)` is not.
- PrintStatement (`Parsing.Parser.PrintStatement`), ExpressionStatement (`Parsing.Parser.ExpressionStatement`) and Block (`Parsing.Parser.Block`): a missing `;` or `}` throws an error reported at the cursor, with the message not pinned.
- Parameters (`Parsing.Parser.Parameters`), ParameterList (`Parsing.Parser.ParameterList`) and FinishCall (`Parsing.Parser.FinishCall`): a parameter that is no name, or a list not closed by `)`, throws an error reported at the cursor, with the message not pinned.
- Assignment (`Parsing.Parser.Assignment`): a thrown error is stated to be reported at the cursor, as every parse error is, but not to come from the right-hand side in particular.
- Evaluate (`Interpreting.Interpreter.Evaluate`): the evaluation rules leave a variable's value, and what an assignment writes, to the per-call contracts of `Evaluate`, `LookUpVariable` and `VisitAssign`. They are rules over the syntax, not a function of an explicit store, so two walks of the same expression in different states may differ.

## Findings

| source | as written | input that shows it | evidently intended | confidence | as-written member | corrected member |
|---|---|---|---|---|---|---|
| src/main/kotlin/dev/aayushgupta/kix/core/Interpreter.kt:17-21 | `visitTernaryExpr` passes the condition's node, not its value, to `isTruthy`. A node is neither nil nor a boolean, so the first branch is always taken. | `false ? 1 : 2` gives 1 | evaluate the condition and take the branch its value selects, giving 2 | not executed | ExprEval.TernaryAsWrittenDiffers | ExprEval.TernaryOneBranch |
