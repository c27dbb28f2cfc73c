/**
 * The statement parser of the newer interpreter (app Parser.kt):
 * recursive descent over a token list with a cursor `current`. A parse
 * error is reported at the token under the cursor and thrown; here the
 * throw is a `Failed` result that every caller passes on unchanged, up to
 * `Declaration`, which catches it, skips ahead to the next statement
 * boundary and yields the empty statement.
 *
 * Every expression level is proved to consume at least one token, to
 * build a well-formed tree of its precedence or tighter, and, when it
 * reported nothing, to build a tree that renders back to exactly the
 * tokens it consumed, and to stop only in front of a token that cannot
 * extend it. Every statement level is proved to consume at least one token,
 * to build a well-formed statement without `return`, and to build it from
 * the span of tokens its predicate (`StatementAt`, `DeclarationAt`, ...)
 * describes.
 */
module Parsing {
  import opened Tokens
  import opened Reports
  import opened Ast

  /** A parsing method's result: what it built, or the message of the error it threw. */
  datatype Result<T> = Parsed(value: T) | Failed(message: string)

  /** The report for an `=` after something that cannot be assigned to. */
  const InvalidTarget := "Invalid assignment target."

  /** The report for a ternary whose first branch is not followed by `:`. */
  const MissingColon := "Invalid conditional, expected ':'"

  /** The reports of the parser, one for each error it detects. */
  const ExpectExpression := "Expect expression."  // a token that starts no expression
  const UnclosedGroup := "Expect ')' after expression."  // a group not closed by `)`
  const ForOpen := "Expect '(' after 'for'."  // `for` not followed by `(`
  const ForConditionEnd := "Expect ';' after loop condition."  // a `for` condition not followed by `;`
  const ForClose := "Expect ')' after for clauses."  // `for` clauses not closed by `)`
  const IfOpen := "Expect '(' after 'if'."  // `if` not followed by `(`
  const IfClose := "Expect ')' after if condition."  // an `if` condition not closed by `)`
  const WhileOpen := "Expect '(' after 'while'."  // `while` not followed by `(`
  const WhileClose := "Expect ')' after condition."  // a `while` condition not closed by `)`
  const VarName := "Expect variable name."  // `var` not followed by a name
  const VarEnd := "Expect ';' after variable declaration."  // a variable declaration not ended by `;`
  const PrintEnd := "Expect ';' after value."  // a `print` statement not ended by `;`
  const ExpressionEnd := "Expect ';' after expression."  // an expression statement not ended by `;`
  const BlockEnd := "Expect '}' after block."  // a block not closed by `}`
  const ParameterName := "Expect parameter name."  // a parameter that is no name
  const ParametersEnd := "Expect ')' after parameters."  // parameters not closed by `)`
  const ArgumentsEnd := "Expect ')' after arguments."  // arguments not closed by `)`
  const TooManyParameters := "Can't have more than 255 parameters."  // a 256th parameter (reported, not thrown)
  const TooManyArguments := "Can't have more than 255 arguments."  // a 256th argument (reported, not thrown)

  /** The reports for a function declaration without a name, a `(` or a `{`; `kind` names the declaration. */
  function NameMissing(kind: string): string { "Expect " + kind + " name." }
  function ParametersMissing(kind: string): string { "Expect '(' after " + kind + " name." }
  function BodyMissing(kind: string): string { "Expect '{' before " + kind + " body." }

  /** The most parameters or arguments a function or call may have without an error. */
  const MaxArity := 255

  /** The keywords error recovery stops in front of. */
  predicate StartsStatement(k: TokenType)
  {
    k in {Class, Fun, TokenType.Var, For, TokenType.If, TokenType.While, TokenType.Print, TokenType.Return}
  }

  /** The operator kinds `parseLeftAssociative` is given at each binary level, in the source's order. */
  function LevelOperators(level: nat): (kinds: seq<TokenType>)
    requires 4 <= level <= 7
    ensures forall k :: k in kinds <==> BinaryLevel(k) == level
  {
    match level
    case 4 => [BangEqual, EqualEqual]
    case 5 => [Greater, GreaterEqual, Less, LessEqual]
    case 6 => [Minus, Plus]
    case 7 => [Slash, Star]
  }

  /** Error recovery may stop at `j`: at the end, after a `;`, or in front of a statement keyword. */
  predicate Resumes(tokens: seq<Token>, j: nat)
    requires j < |tokens|
  {
    tokens[j].kind == Eof || (0 < j && (tokens[j - 1].kind == Semicolon || StartsStatement(tokens[j].kind)))
  }

  /** Where a comma-separated list of `n` names that starts at `from` ends. */
  function ListEnd(from: nat, n: nat): nat
  {
    if n == 0 then from else from + 2 * n - 1
  }

  /** `names` are the identifiers at `from`, `from + 2`, ..., with a comma between each two. */
  ghost predicate Separated(tokens: seq<Token>, names: seq<Token>, from: nat)
  {
    ListEnd(from, |names|) <= |tokens|
    && forall i :: 0 <= i < |names| ==>
         names[i] == tokens[from + 2 * i] && names[i].kind == Identifier
         && (0 < i ==> tokens[from + 2 * i - 1].kind == Comma)
  }

  /**
   * The tokens `[from, to)` after a `var` are the declaration `s`: its
   * name, then either `= initializer ;` or only `;`.
   */
  ghost predicate VarAt(tokens: seq<Token>, s: Stmt, from: nat, to: nat, exact: bool)
  {
    from + 1 < to <= |tokens| && s.Var? && s.name == tokens[from] && tokens[to - 1].kind == Semicolon
    && if tokens[from + 1].kind == Equal then Builds(s.initializer, 0, Shapes(tokens), from + 2, to - 1, exact)
       else s.initializer == EmptyExpr && to == from + 2
  }

  /**
   * The tokens `[from, to)` after a `fun` are the declaration `s`: its
   * name, its parameters between parentheses, and a block body that ends
   * with the `}` at `to - 1`.
   */
  ghost predicate FunctionAt(tokens: seq<Token>, s: Stmt, from: nat, to: nat)
  {
    s.Function? && from + 1 < |tokens| && s.name == tokens[from] && tokens[from + 1].kind == LeftParen
    && Separated(tokens, s.params, from + 2) && ListEnd(from + 2, |s.params|) + 2 < to <= |tokens|
    && tokens[ListEnd(from + 2, |s.params|)].kind == RightParen
    && tokens[ListEnd(from + 2, |s.params|) + 1].kind == LeftBrace
    && tokens[to - 1].kind == RightBrace
  }

  /**
   * The tokens `[from, to)` are the statement `s`, of the form its first
   * token selects: a `for` loop desugared to a block around a `while`
   * loop, an `if`, a `print` of the expression up to the `;`, a `while`,
   * a block closed by `}`, or else an expression statement.
   */
  ghost predicate StatementAt(tokens: seq<Token>, s: Stmt, from: nat, to: nat, exact: bool)
  {
    from + 1 < to <= |tokens|
    && var k := tokens[from].kind;
    if k == For then s.Block? && |s.statements| == 2 && s.statements[1].While? && tokens[from + 1].kind == LeftParen
    else if k == TokenType.If then s.If? && tokens[from + 1].kind == LeftParen
    else if k == TokenType.Print then
      s.Print? && tokens[to - 1].kind == Semicolon && Builds(s.expression, 0, Shapes(tokens), from + 1, to - 1, exact)
    else if k == TokenType.While then s.While? && tokens[from + 1].kind == LeftParen
    else if k == LeftBrace then s.Block? && tokens[to - 1].kind == RightBrace
    else s.Expression? && tokens[to - 1].kind == Semicolon && Builds(s.expression, 0, Shapes(tokens), from, to - 1, exact)
  }

  /**
   * The tokens `[from, to)` are the declaration `s`: the empty statement
   * of error recovery, which ends where recovery may stop, or else a
   * function, a variable or a statement as the first token selects.
   */
  ghost predicate DeclarationAt(tokens: seq<Token>, s: Stmt, from: nat, to: nat, exact: bool)
  {
    from < to < |tokens|
    && if s.EmptyStmt? then Resumes(tokens, to)
       else if tokens[from].kind == Fun then FunctionAt(tokens, s, from + 1, to)
       else if tokens[from].kind == TokenType.Var then VarAt(tokens, s, from + 1, to, exact)
       else StatementAt(tokens, s, from, to, exact)
  }

  /**
   * `statements` are the declarations parsed one after the other, the
   * `i`th from the tokens `[marks[i], marks[i + 1])`.
   */
  ghost predicate Sequenced(tokens: seq<Token>, statements: seq<Stmt>, marks: seq<nat>, exact: bool)
  {
    |marks| == |statements| + 1
    && forall i :: 0 <= i < |statements| ==> DeclarationAt(tokens, statements[i], marks[i], marks[i + 1], exact)
  }

  /**
   * The branches of an `if` in the tokens `[from, to)`: the statement up
   * to `elseAt`, then, when `else` stands at `elseAt`, the `else` branch
   * after it, and otherwise no `else` branch.
   */
  ghost predicate BranchesAt(tokens: seq<Token>, thenBranch: Stmt, elseBranch: Stmt, from: nat, elseAt: nat, to: nat, exact: bool)
  {
    from < elseAt <= to < |tokens|
    && StatementAt(tokens, thenBranch, from, elseAt, exact)
    && if tokens[elseAt].kind == Else then StatementAt(tokens, elseBranch, elseAt + 1, to, exact)
       else elseBranch == EmptyStmt && to == elseAt
  }

  /**
   * `if (condition) thenBranch else elseBranch` in the tokens `[from,
   * to)`, from its `(`: the condition up to the `)` at `close`, and the
   * branches after it, the `else` branch from `elseAt`.
   */
  ghost predicate IfAt(tokens: seq<Token>, s: Stmt, from: nat, close: nat, elseAt: nat, to: nat, exact: bool)
  {
    s.If? && from < close < |tokens| && tokens[from].kind == LeftParen && tokens[close].kind == RightParen
    && Builds(s.condition, 0, Shapes(tokens), from + 1, close, exact)
    && BranchesAt(tokens, s.thenBranch, s.elseBranch, close + 1, elseAt, to, exact)
  }

  /**
   * `while (condition) loopBody` in the tokens `[from, to)`, from its `(`:
   * the condition up to the `)` at `close` and the body after it.
   */
  ghost predicate WhileAt(tokens: seq<Token>, s: Stmt, from: nat, close: nat, to: nat, exact: bool)
  {
    s.While? && from < close < to < |tokens| && tokens[from].kind == LeftParen && tokens[close].kind == RightParen
    && Builds(s.condition, 0, Shapes(tokens), from + 1, close, exact)
    && StatementAt(tokens, s.loopBody, close + 1, to, exact)
  }

  /**
   * The first clause of a `for` loop in the tokens `[from, to)`: the
   * empty statement for a lone `;`, a variable declaration after `var`,
   * or else an expression statement.
   */
  ghost predicate InitializerAt(tokens: seq<Token>, s: Stmt, from: nat, to: nat, exact: bool)
  {
    from < to <= |tokens|
    && if tokens[from].kind == Semicolon then s == EmptyStmt && to == from + 1
       else if tokens[from].kind == TokenType.Var then VarAt(tokens, s, from + 1, to, exact)
       else s.Expression? && tokens[to - 1].kind == Semicolon && Builds(s.expression, 0, Shapes(tokens), from, to - 1, exact)
  }

  /**
   * The condition or increment clause `e` of a `for` loop in the tokens
   * `[from, to)`, ended by `terminator`: `omitted` when the terminator
   * comes first, or else the expression before it.
   */
  ghost predicate ClauseAt(tokens: seq<Token>, terminator: TokenType, omitted: Expr, e: Expr, from: nat, to: nat, exact: bool)
  {
    from < to <= |tokens| && tokens[to - 1].kind == terminator
    && if tokens[from].kind == terminator then e == omitted && to == from + 1
       else Builds(e, 0, Shapes(tokens), from, to - 1, exact)
  }

  /**
   * The parenthesised clauses of a `for` loop in the tokens `[from, to)`,
   * from its `(` up to its `)` at `to - 1`: the initializer, the condition
   * clause from `condition` and the increment clause from `increment`.
   */
  ghost predicate HeaderAt(tokens: seq<Token>, initializer: Stmt, condition: Expr, increment: Expr,
                           from: nat, conditionAt: nat, incrementAt: nat, to: nat, exact: bool)
  {
    from < conditionAt < incrementAt < to <= |tokens| && tokens[from].kind == LeftParen
    && InitializerAt(tokens, initializer, from + 1, conditionAt, exact)
    && ClauseAt(tokens, Semicolon, Literal(Bool(true)), condition, conditionAt, incrementAt, exact)
    && ClauseAt(tokens, RightParen, EmptyExpr, increment, incrementAt, to, exact)
  }

  /**
   * `for (initializer condition; increment) body` in the tokens `[from,
   * to)`, from its `(`: the condition starts at `condition`, the
   * increment at `increment` and the body at `body`.
   */
  ghost predicate ForAt(tokens: seq<Token>, c: ForClauses, from: nat, condition: nat, increment: nat, body: nat, to: nat, exact: bool)
  {
    HeaderAt(tokens, c.initializer, c.condition, c.increment, from, condition, increment, body, exact)
    && body < to && StatementAt(tokens, c.body, body, to, exact)
  }

  /** Every call in `e` has at most `MaxArity` arguments, so that parsing it reports nothing. */
  predicate WithinArity(e: Expr)
  {
    match e
    case Assign(_, _, v) => WithinArity(v)
    case Ternary(c, t, f) => WithinArity(c) && WithinArity(t) && WithinArity(f)
    case Binary(l, _, r) => WithinArity(l) && WithinArity(r)
    case Logical(l, _, r) => WithinArity(l) && WithinArity(r)
    case Unary(_, r) => WithinArity(r)
    case Call(c, _, args) =>
      |args| <= MaxArity && WithinArity(c) && forall i :: 0 <= i < |args| ==> WithinArity(args[i])
    case Grouping(x) => WithinArity(x)
    case Literal(_) => true
    case Variable(_, _) => true
    case EmptyExpr => true
  }

  /**
   * The loosest level whose tokens still extend `e` once it is parsed at
   * `level`: an assignment's value and a ternary's last branch are whole
   * expressions, so whatever extends an expression extends them.
   */
  function Reach(e: Expr, level: int): int
  {
    if e.Assign? || e.Ternary? then 0 else level
  }

  /**
   * The tokens `[from, to)` are written as `e`, a well-formed tree of
   * `level` or tighter whose calls keep within the arity limit, and the
   * token at `to` cannot extend it: what a parse at `level` from `from`
   * that goes as far as it can has to return.
   */
  ghost predicate Spans(tokens: seq<Token>, e: Expr, level: int, from: nat, to: nat)
  {
    from < to < |tokens| && Builds(e, level, Shapes(tokens), from, to, true) && WithinArity(e)
    && !Continues(Reach(e, level), tokens[to].kind)
  }

  /**
   * The tokens `[from, close)` are written as the arguments `args`, each
   * well formed and within the arity limit, as are their number; the
   * token at `close` is a `)`.
   */
  ghost predicate ArgumentsSpan(tokens: seq<Token>, args: seq<Expr>, from: nat, close: nat)
  {
    from <= close < |tokens| && tokens[close].kind == RightParen && |args| <= MaxArity
    && (forall i :: 0 <= i < |args| ==> Formed(args[i]) == true && WithinArity(args[i]))
    && RenderArguments(args) == Shapes(tokens)[from..close]
  }

  /** The operator kind of the chain at `level`: `or` at 2, `and` at 3, the binary operators of 4 to 7. */
  predicate IsChainOperator(level: int, k: TokenType)
  {
    if level == 2 then k == TokenType.Or else if level == 3 then k == TokenType.And else BinaryLevel(k) == level
  }

  /**
   * A spanned expression is an assignment exactly when it starts with a
   * name and an `=`: the name alone spans its one token as a ternary-level
   * tree, and the value spans the rest. Any other expression spans its
   * tokens as a ternary-level tree and is not followed by `=`.
   */
  lemma AssignmentSpans(tokens: seq<Token>, goal: Expr, from: nat, to: nat)
    requires Spans(tokens, goal, 0, from, to)
    ensures goal.Assign? ==>
              from + 2 < to && goal == Assign(from, tokens[from], goal.newValue) && tokens[from + 1].kind == Equal
              && Spans(tokens, Variable(from, tokens[from]), 1, from, from + 1)
              && Spans(tokens, goal.newValue, 0, from + 2, to)
    ensures !goal.Assign? ==> Spans(tokens, goal, 1, from, to) && tokens[to].kind != Equal
  {
    var shapes := Shapes(tokens);
    ShapeKind(tokens, from);
    if goal.Assign? {
      var v := goal.newValue;
      FirstPiece(v);
      ShapeKind(tokens, from + 1);
      var written := shapes[from..to];
      assert written == [Named(goal.id, goal.name), Kind(Equal)] + Render(v);
      assert shapes[from] == written[0] && shapes[from + 1] == written[1];
      assert shapes[from..from + 1] == written[..1];
      assert shapes[from + 2..to] == written[2..] == Render(v);
    }
  }

  /**
   * What an assignment-level parse of a spanned expression meets: a
   * ternary-level tree spanning up to `equals`; when an `=` stands there,
   * that tree is the one name before it and a value spans the rest, and
   * otherwise the tree is the whole expression.
   */
  lemma AssignmentGoals(tokens: seq<Token>, goal: Expr, from: nat, to: nat) returns (target: Expr, equals: nat, value: Expr)
    requires Spans(tokens, goal, 0, from, to)
    ensures Spans(tokens, target, 1, from, equals)
    ensures tokens[equals].kind != Equal ==> equals == to
    ensures tokens[equals].kind == Equal ==>
              equals == from + 1 && tokens[from].kind == Identifier && Spans(tokens, value, 0, equals + 1, to)
  {
    AssignmentSpans(tokens, goal, from, to);
    if goal.Assign? {
      target, equals, value := Variable(from, tokens[from]), from + 1, goal.newValue;
      ShapeKind(tokens, from);
    } else {
      target, equals, value := goal, to, goal;
    }
  }

  /** A tree of one identifier token is a variable. */
  lemma NamedVariable(tokens: seq<Token>, e: Expr, from: nat)
    requires from < |tokens| && tokens[from].kind == Identifier && Builds(e, 1, Shapes(tokens), from, from + 1, true)
    ensures e.Variable?
  {
    SinglePiece(e);
    ShapeKind(tokens, from);
    assert Render(e)[0] == Shapes(tokens)[from];
  }

  /** Where the parts of a conditional written as `shapes[from..to]` lie. */
  lemma TernaryPieces(shapes: seq<Piece>, c: Expr, t: Expr, f: Expr, from: nat, to: nat) returns (question: nat, colon: nat)
    requires from <= to <= |shapes| && shapes[from..to] == Render(Ternary(c, t, f))
    requires Formed(c) && Formed(t) && Formed(f)
    ensures from < question && question + 1 < colon && colon + 1 < to
    ensures shapes[from..question] == Render(c) && shapes[question] == Kind(QuestionMark)
    ensures shapes[question + 1..colon] == Render(t) && shapes[colon] == Kind(Colon)
    ensures shapes[colon + 1..to] == Render(f)
  {
    FirstPiece(c);
    FirstPiece(t);
    FirstPiece(f);
    var rc, rt := Render(c), Render(t);
    Cut(shapes, from, to, rc + [Kind(QuestionMark)] + rt, Kind(Colon), Render(f));
    colon := from + |rc + [Kind(QuestionMark)] + rt|;
    Cut(shapes, from, colon, rc, Kind(QuestionMark), rt);
    question := from + |rc|;
  }

  /**
   * A spanned ternary-level tree is a conditional exactly when a `?`
   * follows its first `or` operand: then the condition, the branch up to
   * the `:` and the branch after it span their tokens. Any other tree
   * spans its tokens at the `or` level and is not followed by `?`.
   */
  lemma TernarySpans(tokens: seq<Token>, goal: Expr, from: nat, to: nat) returns (question: nat, colon: nat)
    requires Spans(tokens, goal, 1, from, to)
    ensures goal.Ternary? ==>
              from < question && question + 1 < colon && colon + 1 < to
              && tokens[question].kind == QuestionMark && tokens[colon].kind == Colon
              && Spans(tokens, goal.condition, 2, from, question)
              && Spans(tokens, goal.expTrue, 0, question + 1, colon)
              && Spans(tokens, goal.expFalse, 0, colon + 1, to)
    ensures !goal.Ternary? ==> Spans(tokens, goal, 2, from, to) && tokens[to].kind != QuestionMark
  {
    question, colon := 0, 0;
    if goal.Ternary? {
      question, colon := TernaryPieces(Shapes(tokens), goal.condition, goal.expTrue, goal.expFalse, from, to);
      ShapeKind(tokens, question);
      ShapeKind(tokens, colon);
    }
  }

  /**
   * What a ternary-level parse of a spanned expression meets: an `or`
   * operand spanning up to `question`; when a `?` stands there, the two
   * branches span up to a `:` and up to the end, and otherwise the operand
   * is the whole expression.
   */
  lemma TernaryGoals(tokens: seq<Token>, goal: Expr, from: nat, to: nat)
    returns (condition: Expr, question: nat, whenTrue: Expr, colon: nat, whenFalse: Expr)
    requires Spans(tokens, goal, 1, from, to)
    ensures Spans(tokens, condition, 2, from, question)
    ensures tokens[question].kind != QuestionMark ==> question == to
    ensures tokens[question].kind == QuestionMark ==>
              Spans(tokens, whenTrue, 0, question + 1, colon) && tokens[colon].kind == Colon
              && Spans(tokens, whenFalse, 0, colon + 1, to)
  {
    question, colon := TernarySpans(tokens, goal, from, to);
    if goal.Ternary? {
      condition, whenTrue, whenFalse := goal.condition, goal.expTrue, goal.expFalse;
    } else {
      condition, question, whenTrue, whenFalse := goal, to, goal, goal;
    }
  }

  /** A spine node of a chain is within the arity limit when the chain is. */
  lemma {:induction false} SpineWithin(acc: Expr, e: Expr, level: int)
    requires OnSpine(acc, e, level) && WithinArity(e)
    ensures WithinArity(acc)
  {
    if acc != e {
      SpineWithin(acc, e.left, level);
    }
  }

  /**
   * Where a node on the spine of a spanned chain ends: the chain itself
   * where its tokens do, in front of a token that is not the chain's
   * operator, and any other node in front of the operator of the node
   * above it.
   */
  lemma SpineEnd(tokens: seq<Token>, goal: Expr, level: int, from: nat, to: nat, acc: Expr)
    requires 2 <= level <= 7 && Spans(tokens, goal, level, from, to) && OnSpine(acc, goal, level)
    ensures from + |Render(acc)| <= to && Render(acc) == Shapes(tokens)[from..from + |Render(acc)|]
    ensures Formed(acc) && Level(acc) >= level && WithinArity(acc)
    ensures acc == goal ==> from + |Render(acc)| == to && !IsChainOperator(level, tokens[to].kind)
    ensures acc != goal ==>
              from + |Render(acc)| < to && tokens[from + |Render(acc)|] == Parent(acc, goal, level).operator
              && IsChainOperator(level, tokens[from + |Render(acc)|].kind)
  {
    SpinePrefix(acc, goal, level);
    SpineWithin(acc, goal, level);
    var written, before := Render(goal), Render(acc);
    var p := from + |before|;
    assert Shapes(tokens)[from..to] == written;
    assert before == written[..|before|];
    if acc != goal {
      var n := Parent(acc, goal, level);
      ParentOnSpine(acc, goal, level);
      SpinePrefix(n, goal, level);
      var rn := Render(n);
      assert rn == before + [Exact(n.operator)] + Render(n.right);
      assert rn == written[..|rn|];
      assert written[|before|] == Exact(n.operator);
      assert Shapes(tokens)[p] == Exact(n.operator);
      ShapeKind(tokens, p);
    }
  }

  /**
   * Where the parse of a spanned chain goes on from the spine node `acc`,
   * whose tokens end at `end`: the chain's operator follows exactly when
   * `acc` is not yet the chain itself, and once it is, the chain's tokens
   * end there.
   */
  lemma SpineNext(tokens: seq<Token>, goal: Expr, level: int, from: nat, to: nat, acc: Expr, end: nat)
    requires 2 <= level <= 7 && Spans(tokens, goal, level, from, to) && OnSpine(acc, goal, level)
    requires end == from + |Render(acc)|
    ensures end <= to
    ensures acc != goal <==> tokens[end].kind != Eof && IsChainOperator(level, tokens[end].kind)
    ensures acc == goal ==> end == to
  {
    SpineEnd(tokens, goal, level, from, to, acc);
  }

  /**
   * One step up the spine of a spanned chain: the node above `acc` is on
   * the spine, and its right operand spans the tokens after the operator
   * that follows `acc`, at the next tighter level.
   */
  lemma SpineStep(tokens: seq<Token>, goal: Expr, level: int, from: nat, to: nat, acc: Expr, end: nat)
    returns (next: Expr, operand: Expr, after: nat)
    requires 2 <= level <= 7 && Spans(tokens, goal, level, from, to) && OnSpine(acc, goal, level) && acc != goal
    requires end == from + |Render(acc)|
    ensures Chained(next, level) && next.left == acc && next.right == operand && OnSpine(next, goal, level)
    ensures after == from + |Render(next)|
    ensures Spans(tokens, operand, level + 1, end + 1, after)
  {
    next := Parent(acc, goal, level);
    operand := next.right;
    after := from + |Render(next)|;
    ParentOnSpine(acc, goal, level);
    SpineEnd(tokens, goal, level, from, to, acc);
    SpineEnd(tokens, goal, level, from, to, next);
    assert Render(next) == Render(acc) + [Exact(next.operator)] + Render(operand);
    assert Shapes(tokens)[end + 1..after] == Shapes(tokens)[from..after][|Render(acc)| + 1..];
  }

  /** The first operand of a spanned chain spans its tokens at the next tighter level. */
  lemma LeftmostSpans(tokens: seq<Token>, goal: Expr, level: int, from: nat, to: nat) returns (acc: Expr, end: nat)
    requires 2 <= level <= 7 && Spans(tokens, goal, level, from, to)
    ensures acc == Leftmost(goal, level) && OnSpine(acc, goal, level) && end == from + |Render(acc)|
    ensures Spans(tokens, acc, level + 1, from, end)
  {
    LeftmostOnSpine(goal, level);
    acc := Leftmost(goal, level);
    end := from + |Render(acc)|;
    SpineEnd(tokens, goal, level, from, to, acc);
    FirstPiece(acc);
  }

  /**
   * A spanned unary-level tree is a prefix operator exactly when its first
   * token is `!` or `-`, and then its operand spans the rest; any other
   * tree spans its tokens at the call level.
   */
  lemma UnarySpans(tokens: seq<Token>, goal: Expr, from: nat, to: nat)
    requires Spans(tokens, goal, 8, from, to)
    ensures goal.Unary? <==> tokens[from].kind == Bang || tokens[from].kind == Minus
    ensures goal.Unary? ==> Spans(tokens, goal.right, 8, from + 1, to)
    ensures !goal.Unary? ==> Spans(tokens, goal, 9, from, to)
  {
    ShapeKind(tokens, from);
    FirstPiece(goal);
    assert Render(goal)[0] == Shapes(tokens)[from];
    if goal.Unary? {
      FirstPiece(goal.right);
      assert Shapes(tokens)[from + 1..to] == Render(goal)[1..];
    }
  }

  /** A callee on the chain of a call is within the arity limit when the chain is. */
  lemma {:induction false} CalleeWithin(acc: Expr, e: Expr)
    requires OnCallee(acc, e) && WithinArity(e)
    ensures WithinArity(acc)
  {
    if acc != e {
      CalleeWithin(acc, e.callee);
    }
  }

  /**
   * Where the parse of a spanned call chain goes on from the callee `acc`,
   * whose tokens end at `end`: a `(` follows exactly when `acc` is not yet
   * the chain itself, and once it is, the chain's tokens end there.
   */
  lemma CalleeNext(tokens: seq<Token>, goal: Expr, from: nat, to: nat, acc: Expr, end: nat)
    requires Spans(tokens, goal, 9, from, to) && OnCallee(acc, goal) && end == from + |Render(acc)|
    ensures end <= to && Render(acc) == Shapes(tokens)[from..end]
    ensures acc != goal <==> tokens[end].kind == LeftParen
    ensures acc == goal ==> end == to
  {
    CalleePrefix(acc, goal);
    assert Render(acc) == Render(goal)[..|Render(acc)|];
    if acc != goal {
      var n := Caller(acc, goal);
      CallerOnCallee(acc, goal);
      CalleePrefix(n, goal);
      assert Render(n) == Render(acc) + [Kind(LeftParen)] + RenderArguments(n.arguments) + [Kind(RightParen)];
      assert Shapes(tokens)[end] == Render(n)[|Render(acc)|];
      ShapeKind(tokens, end);
    }
  }

  /**
   * One step up a spanned call chain: the call whose callee is `acc` is on
   * the chain, and its arguments span the tokens after the `(` that
   * follows `acc`, up to its `)` at `close`.
   */
  lemma CallerSpans(tokens: seq<Token>, goal: Expr, from: nat, to: nat, acc: Expr, end: nat)
    returns (next: Expr, close: nat)
    requires Spans(tokens, goal, 9, from, to) && OnCallee(acc, goal) && acc != goal && end == from + |Render(acc)|
    ensures next.Call? && next.callee == acc && OnCallee(next, goal)
    ensures close + 1 == from + |Render(next)| && ArgumentsSpan(tokens, next.arguments, end + 1, close)
  {
    next := Caller(acc, goal);
    CallerOnCallee(acc, goal);
    CalleePrefix(next, goal);
    CalleeWithin(next, goal);
    var shapes := Shapes(tokens);
    var args := RenderArguments(next.arguments);
    close := from + |Render(next)| - 1;
    assert Render(next) == Render(goal)[..|Render(next)|];
    Cut(shapes, from, close + 1, Render(acc) + [Kind(LeftParen)] + args, Kind(RightParen), []);
    Cut(shapes, from, close, Render(acc), Kind(LeftParen), args);
    ShapeKind(tokens, close);
  }

  /** The callee at the bottom of a spanned call chain spans its tokens as a primary. */
  lemma InnermostSpans(tokens: seq<Token>, goal: Expr, from: nat, to: nat) returns (acc: Expr, end: nat)
    requires Spans(tokens, goal, 9, from, to)
    ensures acc == InnermostCallee(goal) && OnCallee(acc, goal) && end == from + |Render(acc)|
    ensures Spans(tokens, acc, 10, from, end)
  {
    InnermostOnCallee(goal);
    acc := InnermostCallee(goal);
    end := from + |Render(acc)|;
    CalleeNext(tokens, goal, from, to, acc, end);
    CalleePrefix(acc, goal);
    CalleeWithin(acc, goal);
    FirstPiece(acc);
  }

  /** Spanned arguments are absent exactly when a `)` comes first. */
  lemma ArgumentsOpen(tokens: seq<Token>, args: seq<Expr>, from: nat, close: nat)
    requires ArgumentsSpan(tokens, args, from, close)
    ensures args == [] <==> tokens[from].kind == RightParen
  {
    if args != [] {
      ArgumentsPrefix(args, 1);
      assert args[..1] == [args[0]];
      FirstPiece(args[0]);
      assert Shapes(tokens)[from] == Render(args[0])[0];
    }
  }

  /**
   * The first of spanned arguments spans its tokens as an expression, up
   * to `end`: a comma stands there when more arguments follow, and they
   * span the tokens after it; the last one ends at the `)`.
   */
  lemma ArgumentsHead(tokens: seq<Token>, args: seq<Expr>, from: nat, close: nat) returns (end: nat)
    requires ArgumentsSpan(tokens, args, from, close) && args != []
    ensures Spans(tokens, args[0], 0, from, end)
    ensures |args| > 1 <==> tokens[end].kind == Comma
    ensures |args| > 1 ==> ArgumentsSpan(tokens, args[1..], end + 1, close)
    ensures |args| == 1 ==> end == close
  {
    FirstPiece(args[0]);
    if |args| == 1 {
      end := close;
    } else {
      RenderArgumentsFirst(args);
      Cut(Shapes(tokens), from, close, Render(args[0]), Kind(Comma), RenderArguments(args[1..]));
      end := from + |Render(args[0])|;
      assert forall i :: 0 <= i < |args[1..]| ==> args[1..][i] == args[i + 1];
    }
    ShapeKind(tokens, end);
  }

  /**
   * A spanned primary is a literal or a variable, one token of their
   * kinds, or a group: a `(`, an expression spanning the tokens up to the
   * last one, and that last token a `)`.
   */
  lemma PrimarySpans(tokens: seq<Token>, goal: Expr, from: nat, to: nat)
    requires Spans(tokens, goal, 10, from, to)
    ensures goal.Literal? || goal.Variable? || goal.Grouping?
    ensures goal.Literal? || goal.Variable? ==>
              to == from + 1 && tokens[from].kind in {False, True, Nil, Number, String, Identifier}
    ensures goal.Grouping? ==>
              tokens[from].kind == LeftParen && tokens[to - 1].kind == RightParen
              && Spans(tokens, goal.expression, 0, from + 1, to - 1)
  {
    ShapeKind(tokens, from);
    assert Render(goal)[0] == Shapes(tokens)[from];
    if goal.Grouping? {
      var x := goal.expression;
      FirstPiece(x);
      Cut(Shapes(tokens), from, to, [Kind(LeftParen)] + Render(x), Kind(RightParen), []);
      Cut(Shapes(tokens), from, to - 1, [], Kind(LeftParen), Render(x));
      ShapeKind(tokens, to - 1);
    }
  }

  class Parser {
    const tokens: seq<Token>
    const reporter: Reporter
    var current: nat

    ghost predicate Valid()
      reads this
    {
      Terminated(tokens) && current < |tokens|
    }

    /** A thrown error was reported, last, at the token under the cursor. */
    ghost predicate Raised<T>(r: Result<T>, diagnostics0: seq<Diagnostic>)
      requires current < |tokens|
      reads this, reporter
    {
      r.Failed? ==>
        |diagnostics0| < |reporter.diagnostics|
        && reporter.diagnostics[|reporter.diagnostics| - 1] == ErrorAt(tokens[current], r.message)
    }

    /**
     * The tokens `[from, current)` were parsed into `e`, which is well
     * formed, binds at least as tightly as `level`, and renders as those
     * tokens unless something was reported since `diagnostics0`; and the
     * token under the cursor cannot extend it (the level is maximal).
     */
    ghost predicate Produced(e: Expr, from: nat, level: nat, diagnostics0: seq<Diagnostic>)
      reads this, reporter
    {
      current < |tokens| && Builds(e, level, Shapes(tokens), from, current, |reporter.diagnostics| == |diagnostics0|)
      && !Continues(level, tokens[current].kind)
    }

    /** The parse succeeded, stopped at `stop` and reported nothing since `diagnostics0`. */
    ghost predicate Reached<T>(r: Result<T>, stop: nat, diagnostics0: seq<Diagnostic>)
      reads this, reporter
    {
      r.Parsed? && current == stop && reporter.diagnostics == diagnostics0
    }

    constructor (tokens: seq<Token>, reporter: Reporter)
      requires Terminated(tokens)
      ensures this.tokens == tokens && this.reporter == reporter && current == 0
      ensures Valid()
    {
      this.tokens := tokens;
      this.reporter := reporter;
      current := 0;
    }

    /**
     * `parse`: declarations up to the end of input, the `i`th parsed from
     * the tokens `[marks[i], marks[i + 1])`. Each one is well formed, and
     * one is the empty statement only if an error was reported.
     */
    method Parse() returns (statements: seq<Stmt>, ghost marks: seq<nat>)
      requires Valid()
      modifies this, reporter
      ensures Valid() && IsAtEnd() && old(reporter.diagnostics) <= reporter.diagnostics
      ensures forall i :: 0 <= i < |statements| ==> StmtFormed(statements[i])
      ensures |reporter.diagnostics| == |old(reporter.diagnostics)| ==>
                forall i :: 0 <= i < |statements| ==> !statements[i].EmptyStmt?
      ensures Sequenced(tokens, statements, marks, |reporter.diagnostics| == |old(reporter.diagnostics)|)
      ensures marks[0] == old(current) && marks[|marks| - 1] == current
    {
      statements, marks := [], [current];
      while !IsAtEnd()
        invariant Valid() && old(reporter.diagnostics) <= reporter.diagnostics
        invariant forall i :: 0 <= i < |statements| ==> StmtFormed(statements[i]) == true
        invariant |reporter.diagnostics| == |old(reporter.diagnostics)| ==>
                    forall i :: 0 <= i < |statements| ==> !statements[i].EmptyStmt?
        invariant Sequenced(tokens, statements, marks, |reporter.diagnostics| == |old(reporter.diagnostics)|)
        invariant marks[0] == old(current) && marks[|marks| - 1] == current
        decreases |tokens| - current
      {
        ghost var before := reporter.diagnostics;
        var s := Declaration();
        Extended(old(reporter.diagnostics), before, reporter.diagnostics);
        SequencedStep(tokens, statements, marks, s, current,
                      |before| == |old(reporter.diagnostics)|,
                      |reporter.diagnostics| == |before|,
                      |reporter.diagnostics| == |old(reporter.diagnostics)|);
        statements, marks := statements + [s], marks + [current];
      }
    }

    /**
     * `declaration`: a function, a variable or a statement, as the first
     * token selects. A thrown error is caught here: the parser skips to the
     * next statement boundary and the declaration is the empty statement.
     */
    method Declaration() returns (s: Stmt)
      requires Valid()
      modifies this, reporter
      decreases |tokens| - current, 36
      ensures Valid() && old(current) <= current && old(reporter.diagnostics) <= reporter.diagnostics
      ensures !old(IsAtEnd()) ==> old(current) < current
      ensures StmtFormed(s) == true
      ensures s.EmptyStmt? ==> |old(reporter.diagnostics)| < |reporter.diagnostics| && Resumes(tokens, current)
      ensures !old(IsAtEnd()) ==>
                DeclarationAt(tokens, s, old(current), current, |reporter.diagnostics| == |old(reporter.diagnostics)|)
    {
      var r := Declared();
      if r.Failed? {
        Synchronize();
        return EmptyStmt;
      }
      return r.value;
    }

    /** The body of `declaration`'s `try`: a function, a variable or a statement, as the first token selects. */
    method Declared() returns (r: Result<Stmt>)
      requires Valid()
      modifies this, reporter
      decreases |tokens| - current, 35
      ensures Valid() && old(current) <= current && old(reporter.diagnostics) <= reporter.diagnostics
      ensures Raised(r, old(reporter.diagnostics))
      ensures r.Parsed? ==> old(current) < current && StmtFormed(r.value) == true && !r.value.EmptyStmt?
      ensures r.Parsed? ==>
                DeclarationAt(tokens, r.value, old(current), current, |reporter.diagnostics| == |old(reporter.diagnostics)|)
    {
      var isFunction := Match([Fun]);
      if isFunction {
        ghost var marks;
        r, marks := Function("function");
        return;
      }
      var isVar := Match([TokenType.Var]);
      if isVar {
        r := VarDeclaration();
      } else {
        r := Statement();
      }
    }

    /**
     * `function`: a name, a parenthesised parameter list and a block body,
     * after `fun`; the body's `i`th declaration is parsed from the tokens
     * `[marks[i], marks[i + 1])`.
     */
    method Function(kind: string) returns (r: Result<Stmt>, ghost marks: seq<nat>)
      requires Valid()
      modifies this, reporter
      decreases |tokens| - current, 33
      ensures Valid() && old(current) <= current && old(reporter.diagnostics) <= reporter.diagnostics
      ensures Raised(r, old(reporter.diagnostics))
      ensures old(tokens[current].kind) != Identifier ==> r == Failed(NameMissing(kind)) && current == old(current)
      ensures r.Parsed? ==> old(current) < current && StmtFormed(r.value) == true
      ensures r.Parsed? ==> FunctionAt(tokens, r.value, old(current), current)
      ensures r.Parsed? ==>
                Sequenced(tokens, r.value.body, marks, |reporter.diagnostics| == |old(reporter.diagnostics)|)
                && marks[0] == ListEnd(old(current) + 2, |r.value.params|) + 2 && marks[|marks| - 1] == current - 1
      ensures r.Parsed? && |r.value.params| > MaxArity ==>
                |old(reporter.diagnostics)| < |reporter.diagnostics|
                && reporter.diagnostics[|old(reporter.diagnostics)|] == ErrorAt(r.value.params[MaxArity], TooManyParameters)
    {
      marks := [];
      var named := Consume(Identifier, NameMissing(kind));
      if !named {
        return Failed(NameMissing(kind)), marks;
      }
      var name := Previous();
      var params := ParameterList(kind);
      if params.Failed? {
        return Failed(params.message), marks;
      }
      ghost var afterParameters := reporter.diagnostics;
      var body;
      body, marks := FunctionBody(kind);
      Extended(old(reporter.diagnostics), afterParameters, reporter.diagnostics);
      if body.Failed? {
        return Failed(body.message), marks;
      }
      SequencedInexact(tokens, body.value, marks, |reporter.diagnostics| == |afterParameters|,
                       |reporter.diagnostics| == |old(reporter.diagnostics)|);
      return Parsed(Stmt.Function(name, params.value, body.value)), marks;
    }

    /**
     * A function's parameter list: `(`, the names separated by commas and
     * `)`. More than 255 names are reported, not thrown.
     */
    method ParameterList(kind: string) returns (r: Result<seq<Token>>)
      requires Valid()
      modifies this, reporter
      decreases |tokens| - current, 1
      ensures Valid() && old(current) <= current && old(reporter.diagnostics) <= reporter.diagnostics
      ensures Raised(r, old(reporter.diagnostics))
      ensures old(tokens[current].kind) != LeftParen ==> r == Failed(ParametersMissing(kind)) && current == old(current)
      ensures r.Parsed? ==>
                tokens[old(current)].kind == LeftParen && Separated(tokens, r.value, old(current) + 1)
                && current == ListEnd(old(current) + 1, |r.value|) + 1 && tokens[current - 1].kind == RightParen
      ensures r.Parsed? && |r.value| <= MaxArity ==> reporter.diagnostics == old(reporter.diagnostics)
      ensures r.Parsed? && |r.value| > MaxArity ==>
                |old(reporter.diagnostics)| < |reporter.diagnostics|
                && reporter.diagnostics[|old(reporter.diagnostics)|] == ErrorAt(r.value[MaxArity], TooManyParameters)
    {
      var open := Consume(LeftParen, ParametersMissing(kind));
      if !open {
        return Failed(ParametersMissing(kind));
      }
      r := Parameters();
      if r.Failed? {
        return;
      }
      var closed := Consume(RightParen, ParametersEnd);
      if !closed {
        return Failed(ParametersEnd);
      }
    }

    /**
     * A function's body: `{` and the block it opens, whose `i`th
     * declaration is parsed from the tokens `[marks[i], marks[i + 1])`.
     */
    method FunctionBody(kind: string) returns (r: Result<seq<Stmt>>, ghost marks: seq<nat>)
      requires Valid()
      modifies this, reporter
      decreases |tokens| - current, 41
      ensures Valid() && old(current) <= current && old(reporter.diagnostics) <= reporter.diagnostics
      ensures Raised(r, old(reporter.diagnostics))
      ensures old(tokens[current].kind) != LeftBrace ==> r == Failed(BodyMissing(kind)) && current == old(current)
      ensures r.Parsed? ==>
                tokens[old(current)].kind == LeftBrace && old(current) + 1 < current && tokens[current - 1].kind == RightBrace
                && (forall i :: 0 <= i < |r.value| ==> StmtFormed(r.value[i]) == true)
                && Sequenced(tokens, r.value, marks, |reporter.diagnostics| == |old(reporter.diagnostics)|)
                && marks[0] == old(current) + 1 && marks[|marks| - 1] == current - 1
    {
      marks := [];
      var braced := Consume(LeftBrace, BodyMissing(kind));
      if !braced {
        return Failed(BodyMissing(kind)), marks;
      }
      r, marks := Block();
    }

    /**
     * The parameter names of a function, separated by commas, up to the
     * token that is no comma, left for the caller. More than 255 are
     * reported, not thrown.
     */
    method Parameters() returns (r: Result<seq<Token>>)
      requires Valid()
      modifies this, reporter
      ensures Valid() && old(current) <= current && old(reporter.diagnostics) <= reporter.diagnostics
      ensures Raised(r, old(reporter.diagnostics))
      ensures r.Parsed? ==>
                Separated(tokens, r.value, old(current)) && current == ListEnd(old(current), |r.value|)
                && tokens[current].kind != Comma
      ensures r.Parsed? && r.value == [] ==> tokens[current].kind == RightParen
      ensures r.Parsed? && |r.value| <= MaxArity ==> reporter.diagnostics == old(reporter.diagnostics)
      ensures r.Parsed? && |r.value| > MaxArity ==>
                |old(reporter.diagnostics)| < |reporter.diagnostics|
                && reporter.diagnostics[|old(reporter.diagnostics)|] == ErrorAt(r.value[MaxArity], TooManyParameters)
    {
      var params: seq<Token> := [];
      if !Check(RightParen) {
        var more := true;
        while more
          invariant Valid() && old(current) <= current && old(reporter.diagnostics) <= reporter.diagnostics
          invariant Separated(tokens, params, old(current))
          invariant params == [] ==> more && current == old(current)
          invariant params != [] && more ==>
                      current == ListEnd(old(current), |params|) + 1 && tokens[current - 1].kind == Comma
          invariant params != [] && !more ==>
                      current == ListEnd(old(current), |params|) && tokens[current].kind != Comma
          invariant |params| <= MaxArity ==> reporter.diagnostics == old(reporter.diagnostics)
          invariant |params| > MaxArity ==>
                      |old(reporter.diagnostics)| < |reporter.diagnostics|
                      && reporter.diagnostics[|old(reporter.diagnostics)|] == ErrorAt(params[MaxArity], TooManyParameters)
          decreases |tokens| - current, more
        {
          ghost var before := reporter.diagnostics;
          if |params| >= MaxArity {
            Error(Peek(), TooManyParameters);
          }
          Extended(old(reporter.diagnostics), before, reporter.diagnostics);
          var param := Consume(Identifier, ParameterName);
          if !param {
            return Failed(ParameterName);
          }
          SeparatedStep(tokens, params, old(current), Previous());
          params := params + [Previous()];
          more := Match([Comma]);
        }
      }
      return Parsed(params);
    }

    /** `varDeclaration`: a name, an optional initializer and a `;`, after `var`. */
    method VarDeclaration() returns (r: Result<Stmt>)
      requires Valid()
      modifies this, reporter
      decreases |tokens| - current, 33
      ensures Valid() && old(current) <= current && old(reporter.diagnostics) <= reporter.diagnostics
      ensures Raised(r, old(reporter.diagnostics))
      ensures r.Parsed? ==> old(current) < current && StmtFormed(r.value) == true
      ensures r.Parsed? ==> VarAt(tokens, r.value, old(current), current, |reporter.diagnostics| == |old(reporter.diagnostics)|)
    {
      var named := Consume(Identifier, VarName);
      if !named {
        return Failed(VarName);
      }
      var name := Previous();
      var initializer := Initializer();
      if initializer.Failed? {
        return Failed(initializer.message);
      }
      var ended := Consume(Semicolon, VarEnd);
      if !ended {
        return Failed(VarEnd);
      }
      VarStep(tokens, name, initializer.value, old(current), current, |reporter.diagnostics| == |old(reporter.diagnostics)|);
      return Parsed(Stmt.Var(name, initializer.value));
    }

    /** The optional initializer of a variable declaration: the expression after `=`, or none when no `=` follows. */
    method Initializer() returns (r: Result<Expr>)
      requires Valid()
      modifies this, reporter
      decreases |tokens| - current, 32
      ensures Valid() && old(current) <= current && old(reporter.diagnostics) <= reporter.diagnostics
      ensures Raised(r, old(reporter.diagnostics))
      ensures r.Parsed? ==> Optional(r.value) == true
      ensures old(tokens[current].kind) != Equal ==>
                r == Parsed(EmptyExpr) && current == old(current) && reporter.diagnostics == old(reporter.diagnostics)
      ensures old(tokens[current].kind) == Equal && r.Parsed? ==> Produced(r.value, old(current) + 1, 0, old(reporter.diagnostics))
    {
      var hasInitializer := Match([Equal]);
      if !hasInitializer {
        return Parsed(EmptyExpr);
      }
      r := Expression(EmptyExpr, 0);
    }

    /** `statement`: chosen by its first token; an expression statement when no keyword matches. */
    method Statement() returns (r: Result<Stmt>)
      requires Valid()
      modifies this, reporter
      decreases |tokens| - current, 34
      ensures Valid() && old(current) <= current && old(reporter.diagnostics) <= reporter.diagnostics
      ensures Raised(r, old(reporter.diagnostics))
      ensures r.Parsed? ==> old(current) < current && StmtFormed(r.value) == true && !r.value.EmptyStmt?
      ensures r.Parsed? ==> StatementAt(tokens, r.value, old(current), current, |reporter.diagnostics| == |old(reporter.diagnostics)|)
    {
      var found := Match([For]);
      if found {
        ghost var clauses, conditionAt, incrementAt, bodyAt;
        r, clauses, conditionAt, incrementAt, bodyAt := ForStatement();
        return;
      }
      found := Match([TokenType.If]);
      if found {
        ghost var close, elseAt;
        r, close, elseAt := IfStatement();
        return;
      }
      r := PlainStatement();
    }

    /** The rest of `statement`'s choices, for a first token that is neither `for` nor `if`. */
    method PlainStatement() returns (r: Result<Stmt>)
      requires Valid() && tokens[current].kind != For && tokens[current].kind != TokenType.If
      modifies this, reporter
      decreases |tokens| - current, 33
      ensures Valid() && old(current) <= current && old(reporter.diagnostics) <= reporter.diagnostics
      ensures Raised(r, old(reporter.diagnostics))
      ensures r.Parsed? ==> old(current) < current && StmtFormed(r.value) == true && !r.value.EmptyStmt?
      ensures r.Parsed? ==> StatementAt(tokens, r.value, old(current), current, |reporter.diagnostics| == |old(reporter.diagnostics)|)
    {
      var found := Match([TokenType.Print]);
      if found {
        r := PrintStatement();
        return;
      }
      found := Match([TokenType.While]);
      if found {
        ghost var close;
        r, close := WhileStatement();
        return;
      }
      found := Match([LeftBrace]);
      if found {
        var statements;
        ghost var marks;
        statements, marks := Block();
        if statements.Failed? {
          return Failed(statements.message);
        }
        return Parsed(Stmt.Block(statements.value));
      }
      r := ExpressionStatement();
    }

    /**
     * `forStatement`, after `for`: the clauses, each of which may be
     * omitted (no initializer; the condition `true`; no increment), and
     * the body, desugared to a `while` loop. The condition starts at
     * `conditionAt`, the increment at `incrementAt` and the body at `bodyAt`.
     */
    method ForStatement() returns (r: Result<Stmt>, ghost clauses: ForClauses,
                                   ghost conditionAt: nat, ghost incrementAt: nat, ghost bodyAt: nat)
      requires Valid()
      modifies this, reporter
      decreases |tokens| - current, 33
      ensures Valid() && old(current) <= current && old(reporter.diagnostics) <= reporter.diagnostics
      ensures Raised(r, old(reporter.diagnostics))
      ensures r.Parsed? ==> old(current) < current && r.value == Desugar(clauses) && StmtFormed(r.value) == true
      ensures r.Parsed? ==>
                ForAt(tokens, clauses, old(current), conditionAt, incrementAt, bodyAt, current,
                      |reporter.diagnostics| == |old(reporter.diagnostics)|)
    {
      clauses, bodyAt := ForClauses(EmptyStmt, EmptyExpr, EmptyExpr, EmptyStmt), 0;
      var header;
      header, conditionAt, incrementAt := ForHeader();
      if header.Failed? {
        r := Failed(header.message);
        return;
      }
      ghost var afterHeader := reporter.diagnostics;
      bodyAt := current;
      var body := Statement();
      if body.Failed? {
        r := body;
        return;
      }
      var (initializer, condition, increment) := header.value;
      clauses := ForClauses(initializer, condition, increment, body.value);
      ForStep(tokens, clauses, old(current), conditionAt, incrementAt, bodyAt, current,
              |afterHeader| == |old(reporter.diagnostics)|, |reporter.diagnostics| == |afterHeader|,
              |reporter.diagnostics| == |old(reporter.diagnostics)|);
      DesugarFormed(clauses);
      var loop := Stmt.Block([body.value, Stmt.Expression(increment)]);
      loop := Stmt.While(condition, loop);
      r := Parsed(Stmt.Block([initializer, loop]));
    }

    /**
     * The parenthesised clauses of a `for` loop: `(`, the initializer, the
     * condition clause from `conditionAt` and the increment clause from
     * `incrementAt` up to `)`. A missing `(` is thrown.
     */
    method ForHeader() returns (r: Result<(Stmt, Expr, Expr)>, ghost conditionAt: nat, ghost incrementAt: nat)
      requires Valid()
      modifies this, reporter
      decreases |tokens| - current, 32
      ensures Valid() && old(current) <= current && old(reporter.diagnostics) <= reporter.diagnostics
      ensures Raised(r, old(reporter.diagnostics))
      ensures old(tokens[current].kind) != LeftParen ==> r == Failed(ForOpen) && current == old(current)
      ensures r.Parsed? ==>
                old(current) < current && StmtFormed(r.value.0) == true && Formed(r.value.1) == true
                && Optional(r.value.2) == true
      ensures r.Parsed? ==>
                HeaderAt(tokens, r.value.0, r.value.1, r.value.2, old(current), conditionAt, incrementAt, current,
                         |reporter.diagnostics| == |old(reporter.diagnostics)|)
    {
      conditionAt, incrementAt := 0, 0;
      var open := Consume(LeftParen, ForOpen);
      if !open {
        return Failed(ForOpen), conditionAt, incrementAt;
      }
      var initializer := ForInitializer();
      if initializer.Failed? {
        return Failed(initializer.message), conditionAt, incrementAt;
      }
      ghost var afterInitializer := reporter.diagnostics;
      conditionAt := current;
      var clauses;
      clauses, incrementAt := LoopClauses();
      if clauses.Failed? {
        return Failed(clauses.message), conditionAt, incrementAt;
      }
      HeaderStep(tokens, initializer.value, clauses.value.0, clauses.value.1, old(current), conditionAt, incrementAt, current,
                 |afterInitializer| == |old(reporter.diagnostics)|, |reporter.diagnostics| == |afterInitializer|,
                 |reporter.diagnostics| == |old(reporter.diagnostics)|);
      return Parsed((initializer.value, clauses.value.0, clauses.value.1)), conditionAt, incrementAt;
    }

    /**
     * The condition clause of a `for` loop, up to its `;`, and the
     * increment clause from `incrementAt`, up to the `)`.
     */
    method LoopClauses() returns (r: Result<(Expr, Expr)>, ghost incrementAt: nat)
      requires Valid()
      modifies this, reporter
      decreases |tokens| - current, 35
      ensures Valid() && old(current) <= current && old(reporter.diagnostics) <= reporter.diagnostics
      ensures Raised(r, old(reporter.diagnostics))
      ensures r.Parsed? ==> old(current) < incrementAt < current && Formed(r.value.0) == true && Optional(r.value.1) == true
      ensures r.Parsed? ==>
                ClauseAt(tokens, Semicolon, Literal(Bool(true)), r.value.0, old(current), incrementAt,
                         |reporter.diagnostics| == |old(reporter.diagnostics)|)
                && ClauseAt(tokens, RightParen, EmptyExpr, r.value.1, incrementAt, current,
                            |reporter.diagnostics| == |old(reporter.diagnostics)|)
    {
      incrementAt := 0;
      var condition := Clause(Semicolon, Literal(Bool(true)), ForConditionEnd);
      if condition.Failed? {
        return Failed(condition.message), incrementAt;
      }
      ghost var afterCondition := reporter.diagnostics;
      incrementAt := current;
      var increment := Clause(RightParen, EmptyExpr, ForClose);
      if increment.Failed? {
        return Failed(increment.message), incrementAt;
      }
      ClausesStep(tokens, condition.value, increment.value, old(current), incrementAt, current,
                  |afterCondition| == |old(reporter.diagnostics)|, |reporter.diagnostics| == |afterCondition|,
                  |reporter.diagnostics| == |old(reporter.diagnostics)|);
      return Parsed((condition.value, increment.value)), incrementAt;
    }

    /** The first clause of a `for` loop: nothing before its `;`, a variable declaration or an expression statement. */
    method ForInitializer() returns (r: Result<Stmt>)
      requires Valid()
      modifies this, reporter
      decreases |tokens| - current, 34
      ensures Valid() && old(current) <= current && old(reporter.diagnostics) <= reporter.diagnostics
      ensures Raised(r, old(reporter.diagnostics))
      ensures r.Parsed? ==> old(current) < current && StmtFormed(r.value) == true
      ensures r.Parsed? ==>
                InitializerAt(tokens, r.value, old(current), current, |reporter.diagnostics| == |old(reporter.diagnostics)|)
    {
      var noInitializer := Match([Semicolon]);
      if noInitializer {
        return Parsed(EmptyStmt);
      }
      var isVar := Match([TokenType.Var]);
      if isVar {
        r := VarDeclaration();
      } else {
        r := ExpressionStatement();
      }
    }

    /**
     * The condition or the increment clause of a `for` loop: an expression,
     * or `omitted` when the clause is empty, followed by `terminator`.
     */
    method Clause(terminator: TokenType, omitted: Expr, message: string) returns (r: Result<Expr>)
      requires Valid() && (terminator == Semicolon || terminator == RightParen)
      modifies this, reporter
      decreases |tokens| - current, 34
      ensures Valid() && old(current) <= current && old(reporter.diagnostics) <= reporter.diagnostics
      ensures Raised(r, old(reporter.diagnostics))
      ensures r.Parsed? ==> old(current) < current && (r.value == omitted || Formed(r.value) == true)
      ensures r.Parsed? ==>
                ClauseAt(tokens, terminator, omitted, r.value, old(current), current,
                         |reporter.diagnostics| == |old(reporter.diagnostics)|)
    {
      r := Parsed(omitted);
      if !Check(terminator) {
        r := Expression(EmptyExpr, 0);
        if r.Failed? {
          return;
        }
      }
      var ended := Consume(terminator, message);
      if !ended {
        return Failed(message);
      }
    }

    /**
     * `ifStatement`, after `if`: a parenthesised condition, a branch and an
     * optional `else` branch. The condition is the expression parsed from
     * the tokens between the `(` and the `)` at `close`, the branch the
     * statement from there up to `elseAt`, and the `else` branch, when
     * `else` stands at `elseAt`, the statement after it.
     */
    method IfStatement() returns (r: Result<Stmt>, ghost close: nat, ghost elseAt: nat)
      requires Valid()
      modifies this, reporter
      decreases |tokens| - current, 33
      ensures Valid() && old(current) <= current && old(reporter.diagnostics) <= reporter.diagnostics
      ensures Raised(r, old(reporter.diagnostics))
      ensures r.Parsed? ==> old(current) < current && StmtFormed(r.value) == true
      ensures r.Parsed? ==>
                IfAt(tokens, r.value, old(current), close, elseAt, current,
                     |reporter.diagnostics| == |old(reporter.diagnostics)|)
    {
      elseAt := 0;
      var condition;
      condition, close := Condition(IfOpen, IfClose);
      if condition.Failed? {
        return Failed(condition.message), close, elseAt;
      }
      ghost var afterCondition := reporter.diagnostics;
      var branches;
      branches, elseAt := IfBranches();
      if branches.Failed? {
        return Failed(branches.message), close, elseAt;
      }
      IfStep(tokens, condition.value, branches.value.0, branches.value.1, old(current), close, elseAt, current,
             |afterCondition| == |old(reporter.diagnostics)|, |reporter.diagnostics| == |afterCondition|,
             |reporter.diagnostics| == |old(reporter.diagnostics)|);
      return Parsed(Stmt.If(condition.value, branches.value.0, branches.value.1)), close, elseAt;
    }

    /** The branch of an `if` after its condition, up to `elseAt`, and its optional `else` branch. */
    method IfBranches() returns (r: Result<(Stmt, Stmt)>, ghost elseAt: nat)
      requires Valid()
      modifies this, reporter
      decreases |tokens| - current, 36
      ensures Valid() && old(current) <= current && old(reporter.diagnostics) <= reporter.diagnostics
      ensures Raised(r, old(reporter.diagnostics))
      ensures r.Parsed? ==> old(current) < current && StmtFormed(r.value.0) == true && StmtFormed(r.value.1) == true
      ensures r.Parsed? ==>
                BranchesAt(tokens, r.value.0, r.value.1, old(current), elseAt, current,
                           |reporter.diagnostics| == |old(reporter.diagnostics)|)
    {
      elseAt := 0;
      var thenBranch := Statement();
      if thenBranch.Failed? {
        return Failed(thenBranch.message), elseAt;
      }
      elseAt := current;
      ghost var afterThen := reporter.diagnostics;
      var elseBranch := ElseBranch();
      if elseBranch.Failed? {
        return Failed(elseBranch.message), elseAt;
      }
      BranchesStep(tokens, thenBranch.value, elseBranch.value, old(current), elseAt, current,
                   |afterThen| == |old(reporter.diagnostics)|, |reporter.diagnostics| == |afterThen|,
                   |reporter.diagnostics| == |old(reporter.diagnostics)|);
      return Parsed((thenBranch.value, elseBranch.value)), elseAt;
    }

    /**
     * The parenthesised condition of an `if` or a `while`: `(`, an
     * expression and the `)` at `close`. A missing `(` is thrown with
     * `openMessage`, a missing `)` with `closeMessage`.
     */
    method Condition(openMessage: string, closeMessage: string) returns (r: Result<Expr>, ghost close: nat)
      requires Valid()
      modifies this, reporter
      decreases |tokens| - current, 25
      ensures Valid() && old(current) <= current && old(reporter.diagnostics) <= reporter.diagnostics
      ensures Raised(r, old(reporter.diagnostics))
      ensures old(tokens[current].kind) != LeftParen ==> r == Failed(openMessage) && current == old(current)
      ensures r.Parsed? ==>
                tokens[old(current)].kind == LeftParen && old(current) < close && current == close + 1
                && tokens[close].kind == RightParen
                && Builds(r.value, 0, Shapes(tokens), old(current) + 1, close,
                          |reporter.diagnostics| == |old(reporter.diagnostics)|)
    {
      close := 0;
      var open := Consume(LeftParen, openMessage);
      if !open {
        return Failed(openMessage), close;
      }
      r := Expression(EmptyExpr, 0);
      if r.Failed? {
        return;
      }
      close := current;
      var closed := Consume(RightParen, closeMessage);
      if !closed {
        return Failed(closeMessage), close;
      }
    }

    /** The optional `else` branch of an `if`: the statement after `else`, or none when no `else` follows. */
    method ElseBranch() returns (r: Result<Stmt>)
      requires Valid()
      modifies this, reporter
      decreases |tokens| - current, 35
      ensures Valid() && old(current) <= current && old(reporter.diagnostics) <= reporter.diagnostics
      ensures Raised(r, old(reporter.diagnostics))
      ensures r.Parsed? ==> StmtFormed(r.value) == true
      ensures old(tokens[current].kind) != Else ==>
                r == Parsed(EmptyStmt) && current == old(current) && reporter.diagnostics == old(reporter.diagnostics)
      ensures old(tokens[current].kind) == Else && r.Parsed? ==>
                StatementAt(tokens, r.value, old(current) + 1, current, |reporter.diagnostics| == |old(reporter.diagnostics)|)
    {
      var matchedElse := Match([Else]);
      if !matchedElse {
        return Parsed(EmptyStmt);
      }
      r := Statement();
    }

    /** `printStatement`, after `print`: an expression and a `;`. */
    method PrintStatement() returns (r: Result<Stmt>)
      requires Valid()
      modifies this, reporter
      decreases |tokens| - current, 33
      ensures Valid() && old(current) <= current && old(reporter.diagnostics) <= reporter.diagnostics
      ensures Raised(r, old(reporter.diagnostics))
      ensures r.Parsed? ==> old(current) < current && StmtFormed(r.value) == true && r.value.Print?
      ensures r.Parsed? ==>
                tokens[current - 1].kind == Semicolon
                && Builds(r.value.expression, 0, Shapes(tokens), old(current), current - 1,
                          |reporter.diagnostics| == |old(reporter.diagnostics)|)
    {
      var value := Expression(EmptyExpr, 0);
      if value.Failed? {
        return Failed(value.message);
      }
      var ended := Consume(Semicolon, PrintEnd);
      if !ended {
        return Failed(PrintEnd);
      }
      return Parsed(Stmt.Print(value.value));
    }

    /**
     * `whileStatement`, after `while`: a parenthesised condition and a
     * body. The condition is the expression parsed from the tokens between
     * the `(` and the `)` at `close`, and the body the statement after it.
     */
    method WhileStatement() returns (r: Result<Stmt>, ghost close: nat)
      requires Valid()
      modifies this, reporter
      decreases |tokens| - current, 33
      ensures Valid() && old(current) <= current && old(reporter.diagnostics) <= reporter.diagnostics
      ensures Raised(r, old(reporter.diagnostics))
      ensures r.Parsed? ==> old(current) < current && StmtFormed(r.value) == true
      ensures r.Parsed? ==>
                WhileAt(tokens, r.value, old(current), close, current, |reporter.diagnostics| == |old(reporter.diagnostics)|)
    {
      var condition;
      condition, close := Condition(WhileOpen, WhileClose);
      if condition.Failed? {
        return Failed(condition.message), close;
      }
      ghost var afterCondition := reporter.diagnostics;
      ghost var exactCondition := |afterCondition| == |old(reporter.diagnostics)|;
      var body := Statement();
      if body.Failed? {
        return body, close;
      }
      Extended(old(reporter.diagnostics), afterCondition, reporter.diagnostics);
      WhileStep(tokens, condition.value, body.value, old(current), close, current,
                exactCondition, |reporter.diagnostics| == |afterCondition|,
                |reporter.diagnostics| == |old(reporter.diagnostics)|);
      return Parsed(Stmt.While(condition.value, body.value)), close;
    }

    /**
     * `block`, after `{`: declarations up to the closing `}`, the `i`th
     * parsed from the tokens `[marks[i], marks[i + 1])`. One is the empty
     * statement only if an error was reported.
     */
    method Block() returns (r: Result<seq<Stmt>>, ghost marks: seq<nat>)
      requires Valid()
      modifies this, reporter
      decreases |tokens| - current, 40
      ensures Valid() && old(current) <= current && old(reporter.diagnostics) <= reporter.diagnostics
      ensures Raised(r, old(reporter.diagnostics))
      ensures r.Parsed? ==> old(current) < current && tokens[current - 1].kind == RightBrace
      ensures r.Parsed? ==> forall i :: 0 <= i < |r.value| ==> StmtFormed(r.value[i]) == true
      ensures r.Parsed? && |reporter.diagnostics| == |old(reporter.diagnostics)| ==>
                forall i :: 0 <= i < |r.value| ==> !r.value[i].EmptyStmt?
      ensures r.Parsed? ==>
                Sequenced(tokens, r.value, marks, |reporter.diagnostics| == |old(reporter.diagnostics)|)
                && marks[0] == old(current) && marks[|marks| - 1] == current - 1
    {
      var statements := [];
      marks := [current];
      while !Check(RightBrace) && !IsAtEnd()
        invariant Valid() && old(current) <= current && old(reporter.diagnostics) <= reporter.diagnostics
        invariant forall i :: 0 <= i < |statements| ==> StmtFormed(statements[i]) == true
        invariant |reporter.diagnostics| == |old(reporter.diagnostics)| ==>
                    forall i :: 0 <= i < |statements| ==> !statements[i].EmptyStmt?
        invariant Sequenced(tokens, statements, marks, |reporter.diagnostics| == |old(reporter.diagnostics)|)
        invariant marks[0] == old(current) && marks[|marks| - 1] == current
        decreases |tokens| - current
      {
        ghost var before := reporter.diagnostics;
        var s := Declaration();
        Extended(old(reporter.diagnostics), before, reporter.diagnostics);
        SequencedStep(tokens, statements, marks, s, current,
                      |before| == |old(reporter.diagnostics)|,
                      |reporter.diagnostics| == |before|,
                      |reporter.diagnostics| == |old(reporter.diagnostics)|);
        statements, marks := statements + [s], marks + [current];
      }
      var closed := Consume(RightBrace, BlockEnd);
      if !closed {
        return Failed(BlockEnd), marks;
      }
      return Parsed(statements), marks;
    }

    /** `expressionStatement`: an expression and a `;`. */
    method ExpressionStatement() returns (r: Result<Stmt>)
      requires Valid()
      modifies this, reporter
      decreases |tokens| - current, 32
      ensures Valid() && old(current) <= current && old(reporter.diagnostics) <= reporter.diagnostics
      ensures Raised(r, old(reporter.diagnostics))
      ensures r.Parsed? ==> old(current) < current && StmtFormed(r.value) == true && r.value.Expression?
      ensures r.Parsed? ==>
                tokens[current - 1].kind == Semicolon
                && Builds(r.value.expression, 0, Shapes(tokens), old(current), current - 1,
                          |reporter.diagnostics| == |old(reporter.diagnostics)|)
    {
      var value := Expression(EmptyExpr, 0);
      if value.Failed? {
        return Failed(value.message);
      }
      var ended := Consume(Semicolon, ExpressionEnd);
      if !ended {
        return Failed(ExpressionEnd);
      }
      return Parsed(Stmt.Expression(value.value));
    }

    /**
     * `expression`. Tokens written as the tree `goal` up to `stop`, where
     * nothing can extend it, parse as a tree without a report, up to
     * `stop`. (The statements, which have no tree in view, pass the empty
     * expression and `stop` 0, which no tokens span.)
     */
    method Expression(ghost goal: Expr, ghost stop: nat) returns (r: Result<Expr>)
      requires Valid()
      modifies this, reporter
      decreases |tokens| - current, 20
      ensures Valid() && old(current) <= current && old(reporter.diagnostics) <= reporter.diagnostics
      ensures Raised(r, old(reporter.diagnostics))
      ensures r.Parsed? ==> Produced(r.value, old(current), 0, old(reporter.diagnostics))
      ensures old(Spans(tokens, goal, 0, current, stop)) ==> Reached(r, stop, old(reporter.diagnostics))
    {
      ghost var hasEquals, equals, target;
      r, hasEquals, equals, target := Assignment(goal, stop);
    }

    /**
     * `assignment`: a ternary, and when `=` follows, the value,
     * parsed with this same level (right association). A target other than
     * a variable is reported at the `=`, not thrown, and the target alone
     * is the result. `target` is the tree parsed before the `=` at
     * `equals`, when `hasEquals` says there is one.
     */
    method Assignment(ghost goal: Expr, ghost stop: nat) returns (r: Result<Expr>, ghost hasEquals: bool, ghost equals: nat, ghost target: Expr)
      requires Valid()
      modifies this, reporter
      decreases |tokens| - current, 19
      ensures Valid() && old(current) <= current && old(reporter.diagnostics) <= reporter.diagnostics
      ensures Raised(r, old(reporter.diagnostics))
      ensures r.Parsed? ==> Produced(r.value, old(current), 0, old(reporter.diagnostics))
      ensures hasEquals ==>
                old(current) < equals < current && tokens[equals].kind == Equal
                && Builds(target, 1, Shapes(tokens), old(current), equals,
                          |reporter.diagnostics| == |old(reporter.diagnostics)| + (if target.Variable? then 0 else 1))
      ensures r.Parsed? && !hasEquals ==> Produced(r.value, old(current), 1, old(reporter.diagnostics))
      ensures r.Parsed? && hasEquals && target.Variable? ==>
                r.value.Assign? && r.value.id == target.id && r.value.name == target.name
      ensures r.Parsed? && hasEquals && !target.Variable? ==>
                r.value == target && |old(reporter.diagnostics)| < |reporter.diagnostics|
                && ErrorAt(tokens[equals], InvalidTarget) in reporter.diagnostics[|old(reporter.diagnostics)|..]
      ensures old(Spans(tokens, goal, 0, current, stop)) ==> Reached(r, stop, old(reporter.diagnostics))
    {
      hasEquals, equals, target := false, 0, EmptyExpr;
      var start := current;
      ghost var aims := Spans(tokens, goal, 0, start, stop);
      ghost var first, firstEnd, rest := goal, stop, goal;
      if aims {
        first, firstEnd, rest := AssignmentGoals(tokens, goal, start, stop);
      }
      ghost var question, colon;
      var left;
      left, question, colon := Ternary(first, firstEnd);
      if left.Failed? {
        return left, hasEquals, equals, target;
      }
      target := left.value;
      equals := current;
      if aims && tokens[equals].kind == Equal {
        NamedVariable(tokens, target, start);
      }
      var isAssignment := Match([Equal]);
      if !isAssignment {
        return left, hasEquals, equals, target;
      }
      hasEquals := true;
      r := AssignedValue(start, left.value, equals, old(reporter.diagnostics), rest, stop);
    }

    /**
     * The rest of `assignment` once the `=` at `equals` is matched after
     * the tree `target`: the value, then an assignment when the target is
     * a variable, and otherwise the target alone, with the invalid target
     * reported at the `=`. Tokens written as `rest` after a variable parse
     * without a report.
     */
    method AssignedValue(start: nat, target: Expr, ghost equals: nat, ghost diagnostics0: seq<Diagnostic>,
                         ghost rest: Expr, ghost stop: nat)
      returns (r: Result<Expr>)
      requires Valid() && start < equals && current == equals + 1 && tokens[equals].kind == Equal
      requires diagnostics0 <= reporter.diagnostics
      requires Builds(target, 1, Shapes(tokens), start, equals, |reporter.diagnostics| == |diagnostics0|)
      modifies this, reporter
      decreases |tokens| - current, 20
      ensures Valid() && old(current) <= current && old(reporter.diagnostics) <= reporter.diagnostics
      ensures Raised(r, old(reporter.diagnostics))
      ensures |old(reporter.diagnostics)| + (if target.Variable? then 0 else 1) <= |reporter.diagnostics|
      ensures r.Parsed? ==> Produced(r.value, start, 0, diagnostics0)
      ensures r.Parsed? && target.Variable? ==>
                r.value.Assign? && r.value.id == target.id && r.value.name == target.name
      ensures r.Parsed? && !target.Variable? ==>
                r.value == target && ErrorAt(tokens[equals], InvalidTarget) in reporter.diagnostics[|old(reporter.diagnostics)|..]
      ensures old(Spans(tokens, rest, 0, current, stop)) && target.Variable? && old(reporter.diagnostics) == diagnostics0 ==>
                Reached(r, stop, diagnostics0)
    {
      var equalsToken := Previous();
      ghost var afterTarget := reporter.diagnostics;
      ghost var inner, innerEquals, innerTarget;
      var value;
      value, inner, innerEquals, innerTarget := Assignment(rest, stop);
      if value.Failed? {
        return value;
      }
      if target.Variable? {
        PunctuationPiece(tokens, equals);
        AssignStep(Shapes(tokens), start, equals, current, target.id, target.name, value.value,
                   |afterTarget| == |diagnostics0|,
                   |reporter.diagnostics| == |afterTarget|,
                   |reporter.diagnostics| == |diagnostics0|);
        return Parsed(Assign(target.id, target.name, value.value));
      }
      ghost var before := reporter.diagnostics;
      Error(equalsToken, InvalidTarget);
      assert reporter.diagnostics[|afterTarget|..][|before| - |afterTarget|] == ErrorAt(tokens[equals], InvalidTarget);
      Inexact(target, 1, Shapes(tokens), start, equals, current, |afterTarget| == |diagnostics0|);
      return Parsed(target);
    }

    /**
     * `ternary`: an `or` operand, and when `?` follows, two branches
     * separated by `:`. `question` is where a `?` followed the operand and
     * `colon` where the first branch ended (each -1 when not reached); a
     * token other than `:` there fails with "Invalid conditional, expected
     * ':'", reported at it.
     */
    method Ternary(ghost goal: Expr, ghost stop: nat) returns (r: Result<Expr>, ghost question: int, ghost colon: int)
      requires Valid()
      modifies this, reporter
      decreases |tokens| - current, 18
      ensures Valid() && old(current) <= current && old(reporter.diagnostics) <= reporter.diagnostics
      ensures Raised(r, old(reporter.diagnostics))
      ensures r.Parsed? ==> Produced(r.value, old(current), 1, old(reporter.diagnostics))
      ensures question >= 0 ==> old(current) < question < current && tokens[question].kind == QuestionMark
      ensures r.Parsed? ==> (r.value.Ternary? <==> question >= 0)
      ensures colon >= 0 ==>
                0 <= question && question + 1 < colon <= current && !Continues(0, tokens[colon].kind)
                && (tokens[colon].kind != Colon ==> r == Failed(MissingColon) && current == colon)
      ensures r.Parsed? && question >= 0 ==> colon >= 0 && tokens[colon].kind == Colon
      ensures old(Spans(tokens, goal, 1, current, stop)) ==> Reached(r, stop, old(reporter.diagnostics))
    {
      question, colon := -1, -1;
      var start := current;
      ghost var operand, operandEnd, whenTrue, colonAt, whenFalse := goal, stop, goal, 0, goal;
      if Spans(tokens, goal, 1, start, stop) {
        operand, operandEnd, whenTrue, colonAt, whenFalse := TernaryGoals(tokens, goal, start, stop);
      }
      var condition := Or(operand, operandEnd);
      if condition.Failed? {
        return condition, question, colon;
      }
      ghost var afterCondition := reporter.diagnostics;
      var isConditional := Match([QuestionMark]);
      if !isConditional {
        return condition, question, colon;
      }
      question := current - 1;
      var branches;
      branches, colon := TernaryBranches(whenTrue, colonAt, whenFalse, stop);
      Extended(old(reporter.diagnostics), afterCondition, reporter.diagnostics);
      if branches.Failed? {
        return Failed(branches.message), question, colon;
      }
      PunctuationPiece(tokens, question);
      PunctuationPiece(tokens, colon);
      TernaryStep(Shapes(tokens), start, question, colon, current, condition.value, branches.value.0, branches.value.1,
                  |afterCondition| == |old(reporter.diagnostics)|,
                  |reporter.diagnostics| == |afterCondition|,
                  |reporter.diagnostics| == |afterCondition|,
                  |reporter.diagnostics| == |old(reporter.diagnostics)|);
      return Parsed(Expr.Ternary(condition.value, branches.value.0, branches.value.1)), question, colon;
    }

    /**
     * The branches of a ternary, after its `?`: an expression, the `:` at
     * `colon`, where that expression ended (-1 when not reached), and an
     * expression; a token other than `:` there fails with "Invalid
     * conditional, expected ':'", reported at it. Tokens written as the
     * tree `whenTrue` up to a `:` at `colonAt`, then as `whenFalse` up to
     * `stop`, parse without a report up to `stop`.
     */
    method TernaryBranches(ghost whenTrue: Expr, ghost colonAt: nat, ghost whenFalse: Expr, ghost stop: nat)
      returns (r: Result<(Expr, Expr)>, ghost colon: int)
      requires Valid()
      modifies this, reporter
      decreases |tokens| - current, 21
      ensures Valid() && old(current) <= current && old(reporter.diagnostics) <= reporter.diagnostics
      ensures Raised(r, old(reporter.diagnostics))
      ensures colon >= 0 ==>
                old(current) < colon <= current && !Continues(0, tokens[colon].kind)
                && (tokens[colon].kind != Colon ==> r == Failed(MissingColon) && current == colon)
      ensures r.Parsed? ==>
                0 <= colon < current && tokens[colon].kind == Colon
                && Builds(r.value.0, 0, Shapes(tokens), old(current), colon, |reporter.diagnostics| == |old(reporter.diagnostics)|)
                && Produced(r.value.1, colon + 1, 0, old(reporter.diagnostics))
      ensures old(Spans(tokens, whenTrue, 0, current, colonAt)) && tokens[colonAt].kind == Colon
              && Spans(tokens, whenFalse, 0, colonAt + 1, stop) ==>
                Reached(r, stop, old(reporter.diagnostics))
    {
      colon := -1;
      var trueBranch := Expression(whenTrue, colonAt);
      if trueBranch.Failed? {
        return Failed(trueBranch.message), colon;
      }
      colon := current;
      ghost var afterTrue := reporter.diagnostics;
      var separated := Consume(Colon, MissingColon);
      if !separated {
        return Failed(MissingColon), colon;
      }
      var falseBranch := Expression(whenFalse, stop);
      Extended(old(reporter.diagnostics), afterTrue, reporter.diagnostics);
      if falseBranch.Failed? {
        return Failed(falseBranch.message), colon;
      }
      return Parsed((trueBranch.value, falseBranch.value)), colon;
    }

    /** `or`: `and` operands joined by `or`, folded to the left. */
    method Or(ghost goal: Expr, ghost stop: nat) returns (r: Result<Expr>)
      requires Valid()
      modifies this, reporter
      decreases |tokens| - current, 17
      ensures Valid() && old(current) <= current && old(reporter.diagnostics) <= reporter.diagnostics
      ensures Raised(r, old(reporter.diagnostics))
      ensures r.Parsed? ==> Produced(r.value, old(current), 2, old(reporter.diagnostics))
      ensures old(Spans(tokens, goal, 2, current, stop)) ==> Reached(r, stop, old(reporter.diagnostics))
    {
      var start := current;
      ghost var aims := Spans(tokens, goal, 2, start, stop);
      ghost var acc, leftEnd := goal, stop;
      if aims {
        acc, leftEnd := LeftmostSpans(tokens, goal, 2, start, stop);
      }
      var left := And(acc, leftEnd);
      if left.Failed? {
        return left;
      }
      var expr := left.value;
      ghost var end := current;
      if aims {
        SpineNext(tokens, goal, 2, start, stop, acc, end);
      }
      var more := MatchLogical(2);
      while more
        invariant Valid() && start < end <= current && current == if more then end + 1 else end
        invariant old(reporter.diagnostics) <= reporter.diagnostics
        invariant Builds(expr, 2, Shapes(tokens), start, end, |reporter.diagnostics| == |old(reporter.diagnostics)|)
        invariant more ==> tokens[end].kind == TokenType.Or
        invariant !more ==> !Continues(2, tokens[current].kind)
        invariant aims ==>
                    OnSpine(acc, goal, 2) && end == start + |Render(acc)| && (more <==> acc != goal)
                    && reporter.diagnostics == old(reporter.diagnostics)
        invariant aims && acc == goal ==> end == stop
        decreases |tokens| - current
      {
        ghost var parent;
        var next;
        next, parent := LogicalOperand(2, start, expr, old(reporter.diagnostics), goal, acc, stop);
        if next.Failed? {
          return next;
        }
        expr := next.value;
        end := current;
        if aims {
          acc := parent;
        }
        more := MatchLogical(2);
      }
      return Parsed(expr);
    }

    /** `and`: equality operands joined by `and`, folded to the left. */
    method And(ghost goal: Expr, ghost stop: nat) returns (r: Result<Expr>)
      requires Valid()
      modifies this, reporter
      decreases |tokens| - current, 16
      ensures Valid() && old(current) <= current && old(reporter.diagnostics) <= reporter.diagnostics
      ensures Raised(r, old(reporter.diagnostics))
      ensures r.Parsed? ==> Produced(r.value, old(current), 3, old(reporter.diagnostics))
      ensures old(Spans(tokens, goal, 3, current, stop)) ==> Reached(r, stop, old(reporter.diagnostics))
    {
      var start := current;
      ghost var aims := Spans(tokens, goal, 3, start, stop);
      ghost var acc, leftEnd := goal, stop;
      if aims {
        acc, leftEnd := LeftmostSpans(tokens, goal, 3, start, stop);
      }
      var left := Equality(acc, leftEnd);
      if left.Failed? {
        return left;
      }
      var expr := left.value;
      ghost var end := current;
      if aims {
        SpineNext(tokens, goal, 3, start, stop, acc, end);
      }
      var more := MatchLogical(3);
      while more
        invariant Valid() && start < end <= current && current == if more then end + 1 else end
        invariant old(reporter.diagnostics) <= reporter.diagnostics
        invariant Builds(expr, 3, Shapes(tokens), start, end, |reporter.diagnostics| == |old(reporter.diagnostics)|)
        invariant more ==> tokens[end].kind == TokenType.And
        invariant !more ==> !Continues(3, tokens[current].kind)
        invariant aims ==>
                    OnSpine(acc, goal, 3) && end == start + |Render(acc)| && (more <==> acc != goal)
                    && reporter.diagnostics == old(reporter.diagnostics)
        invariant aims && acc == goal ==> end == stop
        decreases |tokens| - current
      {
        ghost var parent;
        var next;
        next, parent := LogicalOperand(3, start, expr, old(reporter.diagnostics), goal, acc, stop);
        if next.Failed? {
          return next;
        }
        expr := next.value;
        end := current;
        if aims {
          acc := parent;
        }
        more := MatchLogical(3);
      }
      return Parsed(expr);
    }

    /**
     * One operand of `or` (level 2) or `and` (level 3) after its operator,
     * folded onto the chain `left` parsed from `start`. When the tokens
     * from `start` to `stop` are written as the chain `chain`, and `left`
     * stands for its spine node `acc`, the operand parses without a report
     * and the result stands for `parent`, the spine node above `acc`: the
     * chain's operator follows it exactly when it is not yet the whole
     * chain, and otherwise the chain's tokens end there.
     */
    method LogicalOperand(level: nat, start: nat, left: Expr, ghost diagnostics0: seq<Diagnostic>,
                          ghost chain: Expr, ghost acc: Expr, ghost stop: nat) returns (r: Result<Expr>, ghost parent: Expr)
      requires Valid() && (level == 2 || level == 3) && diagnostics0 <= reporter.diagnostics
      requires start < current && tokens[current - 1].kind == (if level == 2 then TokenType.Or else TokenType.And)
      requires Builds(left, level, Shapes(tokens), start, current - 1, |reporter.diagnostics| == |diagnostics0|)
      modifies this, reporter
      decreases |tokens| - current, 18
      ensures Valid() && old(current) <= current && old(reporter.diagnostics) <= reporter.diagnostics
      ensures Raised(r, old(reporter.diagnostics))
      ensures r.Parsed? ==>
                old(current) < current && r.value.Logical? && r.value.left == left
                && Builds(r.value, level, Shapes(tokens), start, current, |reporter.diagnostics| == |diagnostics0|)
                && !Continues(level + 1, tokens[current].kind)
      ensures old(Spans(tokens, chain, level, start, stop) && OnSpine(acc, chain, level) && acc != chain
                  && current == start + |Render(acc)| + 1) ==>
                r.Parsed? && reporter.diagnostics == old(reporter.diagnostics)
                && OnSpine(parent, chain, level) && current == start + |Render(parent)|
                && (parent != chain <==> tokens[current].kind != Eof && IsChainOperator(level, tokens[current].kind))
                && (parent == chain ==> current == stop)
    {
      var operator := Previous();
      ghost var at := current - 1;
      ghost var aims := Spans(tokens, chain, level, start, stop) && OnSpine(acc, chain, level) && acc != chain
                        && at == start + |Render(acc)|;
      ghost var operand, after := chain, stop;
      parent := chain;
      if aims {
        parent, operand, after := SpineStep(tokens, chain, level, start, stop, acc, at);
      }
      ghost var before := reporter.diagnostics;
      var right;
      if level == 2 {
        right := And(operand, after);
      } else {
        right := Equality(operand, after);
      }
      Extended(diagnostics0, before, reporter.diagnostics);
      if right.Failed? {
        return right, parent;
      }
      if aims {
        SpineNext(tokens, chain, level, start, stop, parent, current);
      }
      OperatorPiece(tokens, at);
      LogicalStep(Shapes(tokens), start, at, current, left, operator, right.value,
                  |before| == |diagnostics0|, |reporter.diagnostics| == |before|,
                  |reporter.diagnostics| == |diagnostics0|);
      return Parsed(Logical(left, operator, right.value)), parent;
    }

    method Equality(ghost goal: Expr, ghost stop: nat) returns (r: Result<Expr>)
      requires Valid()
      modifies this, reporter
      decreases |tokens| - current, 15
      ensures Valid() && old(current) <= current && old(reporter.diagnostics) <= reporter.diagnostics
      ensures Raised(r, old(reporter.diagnostics))
      ensures r.Parsed? ==> Produced(r.value, old(current), 4, old(reporter.diagnostics))
      ensures old(Spans(tokens, goal, 4, current, stop)) ==> Reached(r, stop, old(reporter.diagnostics))
    {
      r := LeftAssociative(4, goal, stop);
    }

    method Comparison(ghost goal: Expr, ghost stop: nat) returns (r: Result<Expr>)
      requires Valid()
      modifies this, reporter
      decreases |tokens| - current, 12
      ensures Valid() && old(current) <= current && old(reporter.diagnostics) <= reporter.diagnostics
      ensures Raised(r, old(reporter.diagnostics))
      ensures r.Parsed? ==> Produced(r.value, old(current), 5, old(reporter.diagnostics))
      ensures old(Spans(tokens, goal, 5, current, stop)) ==> Reached(r, stop, old(reporter.diagnostics))
    {
      r := LeftAssociative(5, goal, stop);
    }

    method Term(ghost goal: Expr, ghost stop: nat) returns (r: Result<Expr>)
      requires Valid()
      modifies this, reporter
      decreases |tokens| - current, 9
      ensures Valid() && old(current) <= current && old(reporter.diagnostics) <= reporter.diagnostics
      ensures Raised(r, old(reporter.diagnostics))
      ensures r.Parsed? ==> Produced(r.value, old(current), 6, old(reporter.diagnostics))
      ensures old(Spans(tokens, goal, 6, current, stop)) ==> Reached(r, stop, old(reporter.diagnostics))
    {
      r := LeftAssociative(6, goal, stop);
    }

    method Factor(ghost goal: Expr, ghost stop: nat) returns (r: Result<Expr>)
      requires Valid()
      modifies this, reporter
      decreases |tokens| - current, 6
      ensures Valid() && old(current) <= current && old(reporter.diagnostics) <= reporter.diagnostics
      ensures Raised(r, old(reporter.diagnostics))
      ensures r.Parsed? ==> Produced(r.value, old(current), 7, old(reporter.diagnostics))
      ensures old(Spans(tokens, goal, 7, current, stop)) ==> Reached(r, stop, old(reporter.diagnostics))
    {
      r := LeftAssociative(7, goal, stop);
    }

    /** The `handle` each binary level passes to the shared loop: the next tighter level. */
    method Operand(level: nat, ghost goal: Expr, ghost stop: nat) returns (r: Result<Expr>)
      requires Valid() && 4 <= level <= 7
      modifies this, reporter
      decreases |tokens| - current, 25 - 3 * level
      ensures Valid() && old(current) <= current && old(reporter.diagnostics) <= reporter.diagnostics
      ensures Raised(r, old(reporter.diagnostics))
      ensures r.Parsed? ==> Produced(r.value, old(current), level + 1, old(reporter.diagnostics))
      ensures old(Spans(tokens, goal, level + 1, current, stop)) ==> Reached(r, stop, old(reporter.diagnostics))
    {
      if level == 4 {
        r := Comparison(goal, stop);
      } else if level == 5 {
        r := Term(goal, stop);
      } else if level == 6 {
        r := Factor(goal, stop);
      } else {
        r := Unary(goal, stop);
      }
    }

    /** `parseLeftAssociative`: an operand, then operator-operand pairs of one level folded to the left. */
    method LeftAssociative(level: nat, ghost goal: Expr, ghost stop: nat) returns (r: Result<Expr>)
      requires Valid() && 4 <= level <= 7
      modifies this, reporter
      decreases |tokens| - current, 26 - 3 * level
      ensures Valid() && old(current) <= current && old(reporter.diagnostics) <= reporter.diagnostics
      ensures Raised(r, old(reporter.diagnostics))
      ensures r.Parsed? ==> Produced(r.value, old(current), level, old(reporter.diagnostics))
      ensures old(Spans(tokens, goal, level, current, stop)) ==> Reached(r, stop, old(reporter.diagnostics))
    {
      var start := current;
      ghost var aims := Spans(tokens, goal, level, start, stop);
      ghost var acc, leftEnd := goal, stop;
      if aims {
        acc, leftEnd := LeftmostSpans(tokens, goal, level, start, stop);
      }
      var left := Operand(level, acc, leftEnd);
      if left.Failed? {
        return left;
      }
      var expr := left.value;
      ghost var end := current;
      if aims {
        SpineNext(tokens, goal, level, start, stop, acc, end);
      }
      var more := MatchLevel(level);
      while more
        invariant Valid() && start < end <= current && current == if more then end + 1 else end
        invariant old(reporter.diagnostics) <= reporter.diagnostics
        invariant Builds(expr, level, Shapes(tokens), start, end, |reporter.diagnostics| == |old(reporter.diagnostics)|)
        invariant more ==> BinaryLevel(tokens[end].kind) == level
        invariant !more ==> !Continues(level, tokens[current].kind)
        invariant aims ==>
                    OnSpine(acc, goal, level) && end == start + |Render(acc)| && (more <==> acc != goal)
                    && reporter.diagnostics == old(reporter.diagnostics)
        invariant aims && acc == goal ==> end == stop
        decreases |tokens| - current
      {
        var operator := Previous();
        ghost var before := reporter.diagnostics;
        ghost var parent, operand, after := goal, goal, stop;
        if aims {
          parent, operand, after := SpineStep(tokens, goal, level, start, stop, acc, end);
        }
        var right := Operand(level, operand, after);
        Extended(old(reporter.diagnostics), before, reporter.diagnostics);
        if right.Failed? {
          return right;
        }
        OperatorPiece(tokens, end);
        BinaryStep(Shapes(tokens), start, end, current, expr, operator, right.value,
                   |before| == |old(reporter.diagnostics)|,
                   |reporter.diagnostics| == |before|,
                   |reporter.diagnostics| == |old(reporter.diagnostics)|);
        expr := Binary(expr, operator, right.value);
        end := current;
        if aims {
          acc := parent;
          SpineNext(tokens, goal, level, start, stop, acc, end);
        }
        more := MatchLevel(level);
      }
      return Parsed(expr);
    }

    /** `unary`: a prefix `!` or `-` wraps the unary that follows it; otherwise a call. */
    method Unary(ghost goal: Expr, ghost stop: nat) returns (r: Result<Expr>)
      requires Valid()
      modifies this, reporter
      decreases |tokens| - current, 3
      ensures Valid() && old(current) <= current && old(reporter.diagnostics) <= reporter.diagnostics
      ensures Raised(r, old(reporter.diagnostics))
      ensures r.Parsed? ==> Produced(r.value, old(current), 8, old(reporter.diagnostics))
      ensures old(Spans(tokens, goal, 8, current, stop)) ==> Reached(r, stop, old(reporter.diagnostics))
    {
      var start := current;
      if Spans(tokens, goal, 8, start, stop) {
        UnarySpans(tokens, goal, start, stop);
      }
      var isPrefix := Match([Bang, Minus]);
      if isPrefix {
        var operator := Previous();
        var right := Unary(if goal.Unary? then goal.right else goal, stop);
        if right.Failed? {
          return right;
        }
        OperatorPiece(tokens, start);
        UnaryStep(Shapes(tokens), start, current, operator, right.value,
                  |reporter.diagnostics| == |old(reporter.diagnostics)|,
                  |reporter.diagnostics| == |old(reporter.diagnostics)|);
        return Parsed(Expr.Unary(operator, right.value));
      }
      r := Call(goal, stop);
    }

    /** `call`: a primary followed by any number of parenthesised argument lists. */
    method Call(ghost goal: Expr, ghost stop: nat) returns (r: Result<Expr>)
      requires Valid()
      modifies this, reporter
      decreases |tokens| - current, 2
      ensures Valid() && old(current) <= current && old(reporter.diagnostics) <= reporter.diagnostics
      ensures Raised(r, old(reporter.diagnostics))
      ensures r.Parsed? ==> Produced(r.value, old(current), 9, old(reporter.diagnostics))
      ensures old(Spans(tokens, goal, 9, current, stop)) ==> Reached(r, stop, old(reporter.diagnostics))
    {
      var start := current;
      ghost var acc, calleeEnd := goal, stop;
      if Spans(tokens, goal, 9, start, stop) {
        acc, calleeEnd := InnermostSpans(tokens, goal, start, stop);
      }
      ghost var close;
      var callee;
      callee, close := Primary(acc, calleeEnd);
      if callee.Failed? {
        return callee;
      }
      r := CallSuffixes(start, callee.value, old(reporter.diagnostics), goal, stop, acc);
    }

    /**
     * The argument lists that follow a callee parsed from `start` up to
     * the cursor, each making a call of what came before, for as long as
     * `(` follows. When the tokens from `start` are written as the call
     * chain `goal` up to `stop` and the callee parsed so far has as many
     * tokens as the chain's callee `acc`, the rest parses without a report
     * up to `stop`.
     */
    method CallSuffixes(start: nat, callee: Expr, ghost diagnostics0: seq<Diagnostic>,
                        ghost goal: Expr, ghost stop: nat, ghost acc: Expr) returns (r: Result<Expr>)
      requires Valid() && diagnostics0 <= reporter.diagnostics
      requires Builds(callee, 9, Shapes(tokens), start, current, |reporter.diagnostics| == |diagnostics0|)
      modifies this, reporter
      decreases |tokens| - current, 1
      ensures Valid() && old(current) <= current && old(reporter.diagnostics) <= reporter.diagnostics
      ensures Raised(r, old(reporter.diagnostics))
      ensures r.Parsed? ==> Produced(r.value, start, 9, diagnostics0)
      ensures old(Spans(tokens, goal, 9, start, stop) && OnCallee(acc, goal) && current == start + |Render(acc)|)
              && old(reporter.diagnostics) == diagnostics0 ==>
                Reached(r, stop, diagnostics0)
    {
      var expr := callee;
      ghost var end := current;
      ghost var aims := Spans(tokens, goal, 9, start, stop) && OnCallee(acc, goal) && end == start + |Render(acc)|
                        && reporter.diagnostics == diagnostics0;
      ghost var part := acc;
      if aims {
        CalleeNext(tokens, goal, start, stop, part, end);
      }
      var more := Match([LeftParen]);
      while more
        invariant Valid() && start < end && old(current) <= end <= current && current == if more then end + 1 else end
        invariant diagnostics0 <= old(reporter.diagnostics) <= reporter.diagnostics
        invariant Builds(expr, 9, Shapes(tokens), start, end, |reporter.diagnostics| == |diagnostics0|)
        invariant more ==> tokens[end].kind == LeftParen
        invariant !more ==> !Continues(9, tokens[current].kind)
        invariant aims ==>
                    OnCallee(part, goal) && end == start + |Render(part)| && (more <==> part != goal)
                    && reporter.diagnostics == diagnostics0
        invariant aims && part == goal ==> end == stop
        decreases |tokens| - current
      {
        ghost var caller, close := goal, 0;
        if aims {
          caller, close := CallerSpans(tokens, goal, start, stop, part, end);
        }
        var call := CallSuffix(start, expr, diagnostics0, if caller.Call? then caller.arguments else [], close);
        if call.Failed? {
          return call;
        }
        expr := call.value;
        end := current;
        if aims {
          part := caller;
          CalleeNext(tokens, goal, start, stop, part, end);
        }
        more := Match([LeftParen]);
      }
      return Parsed(expr);
    }

    /**
     * One argument list, after its `(`, following a callee parsed from
     * `start`: the call of that callee, parsed from `start` up to the
     * cursor. Tokens written as the arguments `args` up to a `)` at
     * `close` parse without a report, up to that `)` included.
     */
    method CallSuffix(start: nat, callee: Expr, ghost diagnostics0: seq<Diagnostic>,
                      ghost args: seq<Expr>, ghost close: nat) returns (r: Result<Expr>)
      requires Valid() && diagnostics0 <= reporter.diagnostics && start < current && tokens[current - 1].kind == LeftParen
      requires Builds(callee, 9, Shapes(tokens), start, current - 1, |reporter.diagnostics| == |diagnostics0|)
      modifies this, reporter
      decreases |tokens| - current, 24
      ensures Valid() && old(current) <= current && old(reporter.diagnostics) <= reporter.diagnostics
      ensures Raised(r, old(reporter.diagnostics))
      ensures r.Parsed? ==>
                old(current) < current && r.value.Call? && r.value.callee == callee
                && Builds(r.value, 9, Shapes(tokens), start, current, |reporter.diagnostics| == |diagnostics0|)
      ensures old(ArgumentsSpan(tokens, args, current, close)) ==> Reached(r, close + 1, old(reporter.diagnostics))
    {
      ghost var open := current - 1;
      r := FinishCall(callee, args, close);
      Extended(diagnostics0, old(reporter.diagnostics), reporter.diagnostics);
      if r.Failed? {
        return;
      }
      PunctuationPiece(tokens, open);
      PunctuationPiece(tokens, current - 1);
      CallStep(Shapes(tokens), start, open, current - 1, callee, r.value.paren, r.value.arguments,
               |old(reporter.diagnostics)| == |diagnostics0|,
               |reporter.diagnostics| == |old(reporter.diagnostics)|,
               |reporter.diagnostics| == |diagnostics0|);
    }

    /**
     * `finishCall`, after `(`: arguments separated by commas, then `)`,
     * which is the token the call keeps. More than 255 arguments are
     * reported, not thrown. Tokens written as the arguments `args` up to
     * a `)` at `close` parse without a report, up to that `)` included.
     */
    method FinishCall(callee: Expr, ghost args: seq<Expr>, ghost close: nat) returns (r: Result<Expr>)
      requires Valid()
      modifies this, reporter
      decreases |tokens| - current, 23
      ensures Valid() && old(current) <= current && old(reporter.diagnostics) <= reporter.diagnostics
      ensures Raised(r, old(reporter.diagnostics))
      ensures r.Parsed? ==>
                old(current) < current && tokens[current - 1].kind == RightParen
                && r.value.Call? && r.value == Expr.Call(callee, tokens[current - 1], r.value.arguments)
                && ArgumentsBuild(r.value.arguments, Shapes(tokens), old(current), current - 1,
                                  |reporter.diagnostics| == |old(reporter.diagnostics)|)
      ensures r.Parsed? && |r.value.arguments| > MaxArity ==> |old(reporter.diagnostics)| < |reporter.diagnostics|
      ensures old(ArgumentsSpan(tokens, args, current, close)) ==> Reached(r, close + 1, old(reporter.diagnostics))
    {
      if ArgumentsSpan(tokens, args, current, close) {
        ArgumentsOpen(tokens, args, current, close);
      }
      var arguments: seq<Expr> := [];
      if !Check(RightParen) {
        var list := ArgumentList(args, close);
        if list.Failed? {
          return Failed(list.message);
        }
        arguments := list.value;
      }
      var closed := Consume(RightParen, ArgumentsEnd);
      if !closed {
        return Failed(ArgumentsEnd);
      }
      var paren := Previous();
      return Parsed(Expr.Call(callee, paren, arguments));
    }

    /**
     * The `do … while (match(COMMA))` loop of `finishCall`: arguments
     * separated by commas, up to the token after the last one. More than
     * 255 arguments are reported, not thrown. Tokens written as the
     * arguments `args` before a `)` at `close` parse without a report up
     * to it.
     */
    method ArgumentList(ghost args: seq<Expr>, ghost close: nat) returns (r: Result<seq<Expr>>)
      requires Valid()
      modifies this, reporter
      decreases |tokens| - current, 22
      ensures Valid() && old(current) <= current && old(reporter.diagnostics) <= reporter.diagnostics
      ensures Raised(r, old(reporter.diagnostics))
      ensures r.Parsed? ==>
                old(current) < current && r.value != []
                && ArgumentsBuild(r.value, Shapes(tokens), old(current), current,
                                  |reporter.diagnostics| == |old(reporter.diagnostics)|)
      ensures r.Parsed? && |r.value| > MaxArity ==> |old(reporter.diagnostics)| < |reporter.diagnostics|
      ensures old(ArgumentsSpan(tokens, args, current, close)) && args != [] ==>
                Reached(r, close, old(reporter.diagnostics))
    {
      var arguments: seq<Expr> := [];
      ghost var end := current;
      ghost var aims := ArgumentsSpan(tokens, args, current, close) && args != [];
      ghost var rest := args;
      var more := true;
      while more
        invariant Valid() && old(current) <= current && old(reporter.diagnostics) <= reporter.diagnostics
        invariant arguments == [] ==> more && current == old(current)
        invariant arguments != [] ==>
                    old(current) < end
                    && ArgumentsBuild(arguments, Shapes(tokens), old(current), end,
                                      |reporter.diagnostics| == |old(reporter.diagnostics)|)
                    && (if more then current == end + 1 && tokens[end].kind == Comma else current == end)
        invariant |arguments| > MaxArity ==> |old(reporter.diagnostics)| < |reporter.diagnostics|
        invariant aims ==> reporter.diagnostics == old(reporter.diagnostics) && |arguments| + |rest| <= MaxArity
        invariant aims && more ==> rest != [] && ArgumentsSpan(tokens, rest, current, close)
        invariant aims && !more ==> end == close
        decreases |tokens| - current
      {
        var argument := Argument(arguments, old(current), end, old(reporter.diagnostics), rest, close);
        if argument.Failed? {
          return Failed(argument.message);
        }
        arguments := arguments + [argument.value];
        end := current;
        if aims {
          rest := rest[1..];
        }
        more := Match([Comma]);
      }
      return Parsed(arguments);
    }

    /**
     * One argument of `finishCall`, after the `arguments` parsed from
     * `start`, which end at the comma at `end` when there are some: the
     * limit of 255 reached is reported at the cursor, not thrown, and the
     * argument is an expression either way. Below the limit, the first of
     * the arguments `rest` written before a `)` at `close` parses without a
     * report, up to the comma before the others or up to the `)`.
     */
    method Argument(arguments: seq<Expr>, ghost start: nat, ghost end: nat, ghost diagnostics0: seq<Diagnostic>,
                    ghost rest: seq<Expr>, ghost close: nat)
      returns (r: Result<Expr>)
      requires Valid() && diagnostics0 <= reporter.diagnostics
      requires arguments == [] ==> current == start
      requires arguments != [] ==>
                 start < end && current == end + 1 && tokens[end].kind == Comma
                 && ArgumentsBuild(arguments, Shapes(tokens), start, end, |reporter.diagnostics| == |diagnostics0|)
      modifies this, reporter
      decreases |tokens| - current, 21
      ensures Valid() && old(current) <= current && old(reporter.diagnostics) <= reporter.diagnostics
      ensures Raised(r, old(reporter.diagnostics))
      ensures |arguments| >= MaxArity ==>
                |old(reporter.diagnostics)| < |reporter.diagnostics|
                && reporter.diagnostics[|old(reporter.diagnostics)|] == ErrorAt(old(tokens[current]), TooManyArguments)
      ensures r.Parsed? ==>
                start <= old(current) < current
                && ArgumentsBuild(arguments + [r.value], Shapes(tokens), start, current,
                                  |reporter.diagnostics| == |diagnostics0|)
      ensures old(ArgumentsSpan(tokens, rest, current, close)) && rest != [] && |arguments| < MaxArity ==>
                r.Parsed? && reporter.diagnostics == old(reporter.diagnostics)
                && (|rest| > 1 <==> tokens[current].kind == Comma)
                && (|rest| > 1 ==> ArgumentsSpan(tokens, rest[1..], current + 1, close))
                && (|rest| == 1 ==> current == close)
    {
      ghost var goal, stop := EmptyExpr, 0;
      if ArgumentsSpan(tokens, rest, current, close) && rest != [] {
        stop := ArgumentsHead(tokens, rest, current, close);
        goal := rest[0];
      }
      if |arguments| >= MaxArity {
        Error(Peek(), TooManyArguments);
      }
      ghost var checked := reporter.diagnostics;
      r := Expression(goal, stop);
      Extended(old(reporter.diagnostics), checked, reporter.diagnostics);
      Extended(diagnostics0, old(reporter.diagnostics), reporter.diagnostics);
      if r.Failed? {
        return;
      }
      if arguments == [] {
        FirstArgument(Shapes(tokens), start, current, r.value,
                      |reporter.diagnostics| == |old(reporter.diagnostics)|,
                      |reporter.diagnostics| == |diagnostics0|);
        assert arguments + [r.value] == [r.value];
      } else {
        PunctuationPiece(tokens, end);
        NextArgument(Shapes(tokens), start, end, current, arguments, r.value,
                     |old(reporter.diagnostics)| == |diagnostics0|,
                     |reporter.diagnostics| == |old(reporter.diagnostics)|,
                     |reporter.diagnostics| == |diagnostics0|);
      }
    }

    /**
     * `primary`: a literal, a variable, or a parenthesised expression
     * closed by `)`. A token that starts none of them fails with "Expect
     * expression.", at the cursor. For a group, `close` is where its inner
     * expression ended (-1 when not reached): the `)` there closes the
     * group, and any other token fails with "Expect ')' after
     * expression." at that point.
     */
    method Primary(ghost goal: Expr, ghost stop: nat) returns (r: Result<Expr>, ghost close: int)
      requires Valid()
      modifies this, reporter
      decreases |tokens| - current, 1
      ensures Valid() && old(current) <= current && old(reporter.diagnostics) <= reporter.diagnostics
      ensures Raised(r, old(reporter.diagnostics))
      ensures r.Parsed? ==> Produced(r.value, old(current), 10, old(reporter.diagnostics))
      ensures old(tokens[current].kind) in {False, True, Nil, Number, String, Identifier} ==>
                r.Parsed? && current == old(current) + 1
      ensures old(tokens[current].kind) !in {False, True, Nil, Number, String, Identifier, LeftParen} ==>
                r == Failed(ExpectExpression) && current == old(current)
      ensures close >= 0 ==>
                old(tokens[current].kind) == LeftParen && old(current) + 1 < close < |tokens|
                && !Continues(0, tokens[close].kind)
                && if tokens[close].kind == RightParen then r.Parsed? && r.value.Grouping? && current == close + 1
                   else r == Failed(UnclosedGroup) && current == close
      ensures old(tokens[current].kind) == LeftParen && r.Parsed? ==> close >= 0
      ensures old(Spans(tokens, goal, 10, current, stop)) ==> Reached(r, stop, old(reporter.diagnostics))
    {
      close := -1;
      var start := current;
      ghost var inner, innerStop := goal, stop;
      if Spans(tokens, goal, 10, start, stop) {
        PrimarySpans(tokens, goal, start, stop);
        if goal.Grouping? {
          inner, innerStop := goal.expression, stop - 1;
        }
      }
      var found, atom := Atom();
      if found {
        return Parsed(atom), close;
      }
      found := Match([LeftParen]);
      if found {
        var expression := Expression(inner, innerStop);
        if expression.Failed? {
          return expression, close;
        }
        close := current;
        var closed := Consume(RightParen, UnclosedGroup);
        if !closed {
          return Failed(UnclosedGroup), close;
        }
        PunctuationPiece(tokens, start);
        PunctuationPiece(tokens, close);
        GroupStep(Shapes(tokens), start, close, expression.value,
                  |reporter.diagnostics| == |old(reporter.diagnostics)|,
                  |reporter.diagnostics| == |old(reporter.diagnostics)|);
        return Parsed(Grouping(expression.value)), close;
      }
      Error(Peek(), ExpectExpression);
      return Failed(ExpectExpression), close;
    }

    /**
     * The one-token primaries of `primary`: `false`, `true` and `nil` as
     * their constants, a number or a string as the value its token
     * carries, an identifier as a variable named by its token and
     * identified by the token's position.
     */
    method Atom() returns (found: bool, e: Expr)
      requires Valid()
      modifies this`current
      ensures Valid()
      ensures found <==> old(!IsAtEnd()) && tokens[old(current)].kind in {False, True, Nil, Number, String, Identifier}
      ensures found ==> current == old(current) + 1 && Builds(e, 10, Shapes(tokens), old(current), current, true)
      ensures !found ==> current == old(current)
    {
      var start := current;
      found := Match([False]);
      if found {
        e := Literal(Bool(false));
        AtomStep(Shapes(tokens), start, e);
        return;
      }
      found := Match([True]);
      if found {
        e := Literal(Bool(true));
        AtomStep(Shapes(tokens), start, e);
        return;
      }
      found := Match([Nil]);
      if found {
        e := Literal(Null);
        AtomStep(Shapes(tokens), start, e);
        return;
      }
      found := Match([Number, String]);
      if found {
        e := Literal(Previous().literal);
        AtomStep(Shapes(tokens), start, e);
        return;
      }
      found := Match([Identifier]);
      e := EmptyExpr;
      if found {
        e := Variable(start, Previous());
        AtomStep(Shapes(tokens), start, e);
      }
    }

    /**
     * `synchronize`: skips at least one token, then stops at the first
     * point where a new statement may begin.
     */
    method Synchronize()
      requires Valid()
      modifies this`current
      ensures Valid() && old(current) <= current && Resumes(tokens, current)
      ensures old(IsAtEnd()) ==> current == old(current)
      ensures !old(IsAtEnd()) ==> old(current) < current && forall j :: old(current) < j < current ==> !Resumes(tokens, j)
    {
      Advance();
      while !IsAtEnd()
        invariant Valid() && old(current) <= current
        invariant old(IsAtEnd()) ==> current == old(current)
        invariant !old(IsAtEnd()) ==> old(current) < current && forall j :: old(current) < j < current ==> !Resumes(tokens, j)
        decreases |tokens| - current
      {
        if Previous().kind == Semicolon {
          return;
        }
        if StartsStatement(Peek().kind) {
          return;
        }
        Advance();
      }
    }

    /** `match` with the operator kinds of a binary level. */
    method MatchLevel(level: nat) returns (matched: bool)
      requires Valid() && 4 <= level <= 7
      modifies this`current
      ensures Valid()
      ensures matched <==> old(!IsAtEnd() && BinaryLevel(tokens[current].kind) == level)
      ensures current == if matched then old(current) + 1 else old(current)
    {
      matched := Match(LevelOperators(level));
    }

    /**
     * `match(OR)` at level 2, `match(AND)` at level 3, after an operand
     * of the next tighter level: when it does not advance, nothing can
     * extend the chain.
     */
    method MatchLogical(level: nat) returns (matched: bool)
      requires Valid() && (level == 2 || level == 3) && !Continues(level + 1, tokens[current].kind)
      modifies this`current
      ensures Valid()
      ensures matched <==> old(!IsAtEnd() && IsChainOperator(level, tokens[current].kind))
      ensures current == if matched then old(current) + 1 else old(current)
      ensures !matched ==> !Continues(level, tokens[current].kind)
    {
      matched := Match([if level == 2 then TokenType.Or else TokenType.And]);
      if !matched {
        ChainStops(level, tokens[current].kind);
      }
    }

    /** `match`: advances over the current token when it has one of `kinds`. */
    method Match(kinds: seq<TokenType>) returns (matched: bool)
      requires Valid()
      modifies this`current
      ensures Valid()
      ensures matched <==> old(!IsAtEnd() && tokens[current].kind in kinds)
      ensures current == if matched then old(current) + 1 else old(current)
    {
      for i := 0 to |kinds|
        invariant current == old(current)
        invariant forall j :: 0 <= j < i ==> !Check(kinds[j])
      {
        if Check(kinds[i]) {
          Advance();
          return true;
        }
      }
      return false;
    }

    /** `consume`: advances over the current token when it has kind `k`; otherwise reports `message` there. */
    method Consume(k: TokenType, message: string) returns (ok: bool)
      requires Valid()
      modifies this`current, reporter
      ensures Valid()
      ensures ok <==> old(Check(k))
      ensures ok ==> current == old(current) + 1 && reporter.diagnostics == old(reporter.diagnostics)
      ensures !ok ==> current == old(current)
                      && reporter.diagnostics == old(reporter.diagnostics) + [ErrorAt(tokens[current], message)]
    {
      if Check(k) {
        Advance();
        return true;
      }
      Error(Peek(), message);
      return false;
    }

    predicate Check(k: TokenType)
      requires Valid()
      reads this
    {
      !IsAtEnd() && tokens[current].kind == k
    }

    /** `advance`: moves to the next token unless the cursor is on the end-of-input token. */
    method Advance()
      requires Valid()
      modifies this`current
      ensures Valid()
      ensures current == if old(IsAtEnd()) then old(current) else old(current) + 1
    {
      if !IsAtEnd() {
        current := current + 1;
      }
    }

    predicate IsAtEnd()
      requires Valid()
      reads this
    {
      tokens[current].kind == Eof
    }

    function Peek(): Token
      requires Valid()
      reads this
    {
      tokens[current]
    }

    function Previous(): Token
      requires 0 < current <= |tokens|
      reads this
    {
      tokens[current - 1]
    }

    method Error(token: Token, message: string)
      modifies reporter
      ensures reporter.diagnostics == old(reporter.diagnostics) + [ErrorAt(token, message)]
    {
      reporter.ErrorAtToken(token, message);
    }
  }

  /** A statement parsed without reports is still one once reports follow. */
  lemma StatementInexact(tokens: seq<Token>, s: Stmt, from: nat, to: nat, exactBefore: bool, exact: bool)
    requires StatementAt(tokens, s, from, to, exactBefore) && (exact ==> exactBefore)
    ensures StatementAt(tokens, s, from, to, exact)
  {
  }

  lemma DeclarationInexact(tokens: seq<Token>, s: Stmt, from: nat, to: nat, exactBefore: bool, exact: bool)
    requires DeclarationAt(tokens, s, from, to, exactBefore) && (exact ==> exactBefore)
    ensures DeclarationAt(tokens, s, from, to, exact)
  {
  }

  lemma SequencedInexact(tokens: seq<Token>, statements: seq<Stmt>, marks: seq<nat>, exactBefore: bool, exact: bool)
    requires Sequenced(tokens, statements, marks, exactBefore) && (exact ==> exactBefore)
    ensures Sequenced(tokens, statements, marks, exact)
  {
    forall i | 0 <= i < |statements|
      ensures DeclarationAt(tokens, statements[i], marks[i], marks[i + 1], exact)
    {
      DeclarationInexact(tokens, statements[i], marks[i], marks[i + 1], exactBefore, exact);
    }
  }

  /** A variable declaration assembled from its name, its optional initializer and its `;`. */
  lemma VarStep(tokens: seq<Token>, name: Token, initializer: Expr, from: nat, to: nat, exact: bool)
    requires from + 1 < to <= |tokens| && tokens[from] == name && tokens[to - 1].kind == Semicolon
    requires if tokens[from + 1].kind == Equal then Builds(initializer, 0, Shapes(tokens), from + 2, to - 1, exact)
             else initializer == EmptyExpr && to == from + 2
    ensures VarAt(tokens, Stmt.Var(name, initializer), from, to, exact)
  {
  }

  /** One more declaration, parsed from where the last one ended. */
  lemma SequencedStep(tokens: seq<Token>, statements: seq<Stmt>, marks: seq<nat>, s: Stmt, to: nat,
                      exactBefore: bool, exactStep: bool, exact: bool)
    requires Sequenced(tokens, statements, marks, exactBefore)
    requires DeclarationAt(tokens, s, marks[|marks| - 1], to, exactStep)
    requires exact ==> exactBefore && exactStep
    ensures Sequenced(tokens, statements + [s], marks + [to], exact)
  {
    SequencedInexact(tokens, statements, marks, exactBefore, exact);
    DeclarationInexact(tokens, s, marks[|marks| - 1], to, exactStep, exact);
    var all, bounds := statements + [s], marks + [to];
    forall i | 0 <= i < |all|
      ensures DeclarationAt(tokens, all[i], bounds[i], bounds[i + 1], exact)
    {
      if i < |statements| {
        assert all[i] == statements[i] && bounds[i] == marks[i] && bounds[i + 1] == marks[i + 1];
      }
    }
  }

  /** One more name in a comma-separated list. */
  lemma SeparatedStep(tokens: seq<Token>, names: seq<Token>, from: nat, name: Token)
    requires Separated(tokens, names, from)
    requires from + 2 * |names| < |tokens| && tokens[from + 2 * |names|] == name && name.kind == Identifier
    requires names != [] ==> tokens[from + 2 * |names| - 1].kind == Comma
    ensures Separated(tokens, names + [name], from)
  {
  }

  /** The branches of an `if`, each parsed with or without reports. */
  lemma BranchesStep(tokens: seq<Token>, t: Stmt, e: Stmt, from: nat, elseAt: nat, to: nat,
                     exactThen: bool, exactElse: bool, exact: bool)
    requires from < elseAt <= to < |tokens|
    requires StatementAt(tokens, t, from, elseAt, exactThen)
    requires if tokens[elseAt].kind == Else then StatementAt(tokens, e, elseAt + 1, to, exactElse)
             else e == EmptyStmt && to == elseAt
    requires exact ==> exactThen && exactElse
    ensures BranchesAt(tokens, t, e, from, elseAt, to, exact)
  {
    StatementInexact(tokens, t, from, elseAt, exactThen, exact);
    if tokens[elseAt].kind == Else {
      StatementInexact(tokens, e, elseAt + 1, to, exactElse, exact);
    }
  }

  /** An `if` statement assembled from its condition and its branches. */
  lemma IfStep(tokens: seq<Token>, c: Expr, t: Stmt, e: Stmt, from: nat, close: nat, elseAt: nat, to: nat,
               exactCondition: bool, exactBranches: bool, exact: bool)
    requires from < close < |tokens| && tokens[from].kind == LeftParen && tokens[close].kind == RightParen
    requires Builds(c, 0, Shapes(tokens), from + 1, close, exactCondition)
    requires BranchesAt(tokens, t, e, close + 1, elseAt, to, exactBranches)
    requires exact ==> exactCondition && exactBranches
    ensures IfAt(tokens, Stmt.If(c, t, e), from, close, elseAt, to, exact)
  {
    BranchesStep(tokens, t, e, close + 1, elseAt, to, exactBranches, exactBranches, exact);
  }

  /** A `while` statement assembled from its parts, each parsed with or without reports. */
  lemma WhileStep(tokens: seq<Token>, c: Expr, body: Stmt, from: nat, close: nat, to: nat,
                  exactCondition: bool, exactBody: bool, exact: bool)
    requires from < close < to < |tokens| && tokens[from].kind == LeftParen && tokens[close].kind == RightParen
    requires Builds(c, 0, Shapes(tokens), from + 1, close, exactCondition)
    requires StatementAt(tokens, body, close + 1, to, exactBody)
    requires exact ==> exactCondition && exactBody
    ensures WhileAt(tokens, Stmt.While(c, body), from, close, to, exact)
  {
    StatementInexact(tokens, body, close + 1, to, exactBody, exact);
  }

  /** The two clauses after a `for` loop's initializer, each parsed with or without reports. */
  lemma ClausesStep(tokens: seq<Token>, condition: Expr, increment: Expr, from: nat, incrementAt: nat, to: nat,
                    exactCondition: bool, exactIncrement: bool, exact: bool)
    requires ClauseAt(tokens, Semicolon, Literal(Bool(true)), condition, from, incrementAt, exactCondition)
    requires ClauseAt(tokens, RightParen, EmptyExpr, increment, incrementAt, to, exactIncrement)
    requires exact ==> exactCondition && exactIncrement
    ensures ClauseAt(tokens, Semicolon, Literal(Bool(true)), condition, from, incrementAt, exact)
    ensures ClauseAt(tokens, RightParen, EmptyExpr, increment, incrementAt, to, exact)
  {
  }

  /** A `for` loop's header assembled from its `(`, its initializer and its two clauses. */
  lemma HeaderStep(tokens: seq<Token>, initializer: Stmt, condition: Expr, increment: Expr,
                   from: nat, conditionAt: nat, incrementAt: nat, to: nat,
                   exactInitializer: bool, exactClauses: bool, exact: bool)
    requires from < conditionAt < incrementAt < to <= |tokens| && tokens[from].kind == LeftParen
    requires InitializerAt(tokens, initializer, from + 1, conditionAt, exactInitializer)
    requires ClauseAt(tokens, Semicolon, Literal(Bool(true)), condition, conditionAt, incrementAt, exactClauses)
    requires ClauseAt(tokens, RightParen, EmptyExpr, increment, incrementAt, to, exactClauses)
    requires exact ==> exactInitializer && exactClauses
    ensures HeaderAt(tokens, initializer, condition, increment, from, conditionAt, incrementAt, to, exact)
  {
    ClausesStep(tokens, condition, increment, conditionAt, incrementAt, to, exactClauses, exactClauses, exact);
  }

  /** A `for` loop assembled from its header and its body. */
  lemma ForStep(tokens: seq<Token>, c: ForClauses, from: nat, condition: nat, increment: nat, body: nat, to: nat,
                exactHeader: bool, exactBody: bool, exact: bool)
    requires HeaderAt(tokens, c.initializer, c.condition, c.increment, from, condition, increment, body, exactHeader)
    requires body < to && StatementAt(tokens, c.body, body, to, exactBody)
    requires exact ==> exactHeader && exactBody
    ensures ForAt(tokens, c, from, condition, increment, body, to, exact)
  {
    ClausesStep(tokens, c.condition, c.increment, condition, increment, body, exactHeader, exactHeader, exact);
    StatementInexact(tokens, c.body, body, to, exactBody, exact);
  }

  /** An `or` (level 2) or `and` (level 3) chain stops where neither its operator nor its operand can go on. */
  lemma ChainStops(level: nat, k: TokenType)
    requires (level == 2 && k != TokenType.Or) || (level == 3 && k != TokenType.And)
    requires !Continues(level + 1, k)
    ensures !Continues(level, k)
  {
  }

  /** Diagnostics only accumulate: a prefix of a prefix is a prefix, and lengths grow along. */
  lemma Extended(d0: seq<Diagnostic>, d1: seq<Diagnostic>, d2: seq<Diagnostic>)
    requires d0 <= d1 <= d2
    ensures d0 <= d2 && |d0| <= |d1| <= |d2|
  {
  }
}
