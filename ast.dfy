/**
 * The syntax tree of the newer, statement-level interpreter (app Expr and
 * Stmt), with the variants its parser, resolver and interpreter use.
 *
 * The source keys its table of resolved variables by the identity of the
 * `Variable` and `Assign` nodes. Here those two nodes carry an `id`, the
 * position of their name token in the token list, and the table is keyed
 * by it.
 */
module Ast {
  import opened Tokens

  datatype Expr =
    | Assign(id: nat, name: Token, newValue: Expr)
    | Ternary(condition: Expr, expTrue: Expr, expFalse: Expr)
    | Binary(left: Expr, operator: Token, right: Expr)
    | Call(callee: Expr, paren: Token, arguments: seq<Expr>)
    | Grouping(expression: Expr)
    | Literal(value: Literal)
    | Logical(left: Expr, operator: Token, right: Expr)
    | Unary(operator: Token, right: Expr)
    | Variable(id: nat, name: Token)
    /** `Expr.Null`: the absent expression (no initializer, no increment, no return value). */
    | EmptyExpr

  datatype Stmt =
    | Block(statements: seq<Stmt>)
    | Expression(expression: Expr)
    | Print(expression: Expr)
    | Var(name: Token, initializer: Expr)
    /** `Stmt.Null`: the statement that does nothing. */
    | EmptyStmt
    | Function(name: Token, params: seq<Token>, body: seq<Stmt>)
    | If(condition: Expr, thenBranch: Stmt, elseBranch: Stmt)
    | While(condition: Expr, loopBody: Stmt)
    | Return(keyword: Token, value: Expr)

  /** A function declaration, as a closure holds it. */
  type FunctionStmt = s: Stmt | s.Function? witness Function(Token(Identifier, "", Null, 0), [], [])

  /** Sizes, for the termination of walks that recurse into sequences of children. */
  function ExprSize(e: Expr): nat
  {
    match e
    case Assign(_, _, v) => 1 + ExprSize(v)
    case Ternary(c, t, f) => 1 + ExprSize(c) + ExprSize(t) + ExprSize(f)
    case Binary(l, _, r) => 1 + ExprSize(l) + ExprSize(r)
    case Call(c, _, args) => 1 + ExprSize(c) + ExprsSize(args)
    case Grouping(x) => 1 + ExprSize(x)
    case Literal(_) => 1
    case Logical(l, _, r) => 1 + ExprSize(l) + ExprSize(r)
    case Unary(_, r) => 1 + ExprSize(r)
    case Variable(_, _) => 1
    case EmptyExpr => 1
  }

  function ExprsSize(es: seq<Expr>): nat
  {
    if es == [] then 0 else ExprSize(es[0]) + ExprsSize(es[1..])
  }

  function StmtSize(s: Stmt): nat
  {
    match s
    case Block(ss) => 1 + StmtsSize(ss)
    case Expression(e) => 1 + ExprSize(e)
    case Print(e) => 1 + ExprSize(e)
    case Var(_, e) => 1 + ExprSize(e)
    case EmptyStmt => 1
    case Function(_, _, body) => 1 + StmtsSize(body)
    case If(c, t, f) => 1 + ExprSize(c) + StmtSize(t) + StmtSize(f)
    case While(c, b) => 1 + ExprSize(c) + StmtSize(b)
    case Return(_, e) => 1 + ExprSize(e)
  }

  function StmtsSize(ss: seq<Stmt>): nat
  {
    if ss == [] then 0 else StmtSize(ss[0]) + StmtsSize(ss[1..])
  }

  /** Every member of a sequence is smaller than the sequence. */
  lemma {:induction false} ExprsSizeMember(es: seq<Expr>, i: nat)
    requires i < |es|
    ensures ExprSize(es[i]) <= ExprsSize(es)
  {
    if i > 0 {
      ExprsSizeMember(es[1..], i - 1);
    }
  }

  lemma {:induction false} StmtsSizeMember(ss: seq<Stmt>, i: nat)
    requires i < |ss|
    ensures StmtSize(ss[i]) <= StmtsSize(ss)
  {
    if i > 0 {
      StmtsSizeMember(ss[1..], i - 1);
    }
  }

  /**
   * The precedence ladder of the statement parser, from loosest to
   * tightest: assignment 0, ternary 1, `or` 2, `and` 3, equality 4,
   * comparison 5, term 6, factor 7, unary 8, call 9, primary 10.
   */
  function BinaryLevel(k: TokenType): (level: int)
    ensures level == -1 || 4 <= level <= 7
  {
    match k
    case BangEqual | EqualEqual => 4
    case Greater | GreaterEqual | Less | LessEqual => 5
    case Minus | Plus => 6
    case Slash | Star => 7
    case _ => -1
  }

  /**
   * Whether a token of kind `k` would extend a tree parsed at `level`: it
   * is the operator of that level or of a tighter one (`=`, `?`, `or`,
   * `and`, a binary operator), or the `(` of a call. Each level's loop
   * stops only in front of a token that does not.
   */
  predicate Continues(level: int, k: TokenType)
  {
    (level <= 0 && k == Equal) || (level <= 1 && k == QuestionMark)
    || (level <= 2 && k == TokenType.Or) || (level <= 3 && k == TokenType.And)
    || (4 <= BinaryLevel(k) && level <= BinaryLevel(k)) || (level <= 9 && k == LeftParen)
  }

  function Level(e: Expr): int
  {
    match e
    case Assign(_, _, _) => 0
    case Ternary(_, _, _) => 1
    case Logical(_, op, _) => if op.kind == Or then 2 else 3
    case Binary(_, op, _) => BinaryLevel(op.kind)
    case Unary(_, _) => 8
    case Call(_, _, _) => 9
    case _ => 10
  }

  /**
   * The trees the expression ladder builds. An assignment's target is a
   * name and its value any expression (right association); a ternary's
   * condition is an `or` operand and its branches any expression; `or`,
   * `and` and the binary levels nest to the left (the left operand binds
   * at least as tightly as the operator, the right one strictly more); a
   * prefix operator is `!` or `-` on a unary operand; a call's callee is a
   * call or a primary, and its arguments any expressions; a group holds
   * any expression.
   */
  predicate Formed(e: Expr)
  {
    match e
    case Assign(_, name, v) => name.kind == Identifier && Formed(v)
    case Ternary(c, t, f) => Level(c) >= 2 && Formed(c) && Formed(t) && Formed(f)
    case Logical(l, op, r) =>
      (op.kind == Or || op.kind == And) && Level(l) >= Level(e) && Level(r) > Level(e)
      && Formed(l) && Formed(r)
    case Binary(l, op, r) =>
      BinaryLevel(op.kind) >= 4 && Level(l) >= Level(e) && Level(r) > Level(e)
      && Formed(l) && Formed(r)
    case Unary(op, r) => (op.kind == Bang || op.kind == Minus) && Level(r) >= 8 && Formed(r)
    case Call(c, paren, args) =>
      paren.kind == RightParen && Level(c) >= 9 && Formed(c)
      && forall i :: 0 <= i < |args| ==> Formed(args[i])
    case Grouping(x) => Formed(x)
    case Literal(_) => true
    case Variable(_, name) => name.kind == Identifier
    case EmptyExpr => false
  }

  /**
   * The tokens a tree is written with, as pieces: its operators as the
   * tokens it keeps, each name as its token and the position recorded in
   * the node, each literal as its value, and the punctuation by kind.
   */
  function Render(e: Expr): seq<Piece>
  {
    match e
    case Assign(id, name, v) => [Named(id, name), Kind(Equal)] + Render(v)
    case Ternary(c, t, f) => Render(c) + [Kind(QuestionMark)] + Render(t) + [Kind(Colon)] + Render(f)
    case Binary(l, op, r) => Render(l) + [Exact(op)] + Render(r)
    case Call(c, _, args) => Render(c) + [Kind(LeftParen)] + RenderArguments(args) + [Kind(RightParen)]
    case Grouping(x) => [Kind(LeftParen)] + Render(x) + [Kind(RightParen)]
    case Literal(v) => [Value(v)]
    case Logical(l, op, r) => Render(l) + [Exact(op)] + Render(r)
    case Unary(op, r) => [Exact(op)] + Render(r)
    case Variable(id, name) => [Named(id, name)]
    case EmptyExpr => []
  }

  /** Arguments separated by commas. */
  function RenderArguments(args: seq<Expr>): seq<Piece>
    decreases args, 0
  {
    if args == [] then []
    else if |args| == 1 then Render(args[0])
    else RenderArguments(args[..|args| - 1]) + [Kind(Comma)] + Render(args[|args| - 1])
  }

  /**
   * `e` is a well-formed tree binding at least as tightly as `level`, and
   * when `exact` holds it renders as the pieces `shapes[from..to]`.
   * (`Formed` is compared with `true` so that the verifier keeps it as one
   * fact instead of unfolding the recursive predicate into one proof
   * obligation per case wherever this is checked.)
   */
  ghost predicate Builds(e: Expr, level: int, shapes: seq<Piece>, from: nat, to: nat, exact: bool)
  {
    from < to <= |shapes| && Formed(e) == true && Level(e) >= level
    && (exact ==> Render(e) == shapes[from..to])
  }

  /** A built tree, once tokens it does not account for follow it, is still built but no longer exact. */
  lemma Inexact(e: Expr, level: int, shapes: seq<Piece>, from: nat, mid: nat, to: nat, exact: bool)
    requires Builds(e, level, shapes, from, mid, exact) && mid <= to <= |shapes|
    ensures Builds(e, level, shapes, from, to, false)
  {
  }

  /** An operator token stands for itself. */
  lemma OperatorPiece(tokens: seq<Token>, at: nat)
    requires at < |tokens| && (BinaryLevel(tokens[at].kind) >= 4 || tokens[at].kind == Or || tokens[at].kind == And || tokens[at].kind == Bang || tokens[at].kind == Minus)
    ensures Shapes(tokens)[at] == Exact(tokens[at])
  {
  }

  /** A punctuation token stands only for its kind. */
  lemma PunctuationPiece(tokens: seq<Token>, at: nat)
    requires at < |tokens|
    requires tokens[at].kind == LeftParen || tokens[at].kind == RightParen || tokens[at].kind == Comma || tokens[at].kind == Equal
          || tokens[at].kind == QuestionMark || tokens[at].kind == Colon
    ensures Shapes(tokens)[at] == Kind(tokens[at].kind)
  {
  }

  /** Folding one operator-operand pair onto a chain of equality, comparison, term or factor operators. */
  lemma BinaryStep(shapes: seq<Piece>, start: nat, at: nat, end: nat,
                   l: Expr, op: Token, r: Expr, exactLeft: bool, exactRight: bool, exact: bool)
    requires at < |shapes| && shapes[at] == Exact(op) && BinaryLevel(op.kind) >= 4
    requires Builds(l, BinaryLevel(op.kind), shapes, start, at, exactLeft)
    requires Builds(r, BinaryLevel(op.kind) + 1, shapes, at + 1, end, exactRight)
    requires exact ==> exactLeft && exactRight
    ensures Builds(Binary(l, op, r), BinaryLevel(op.kind), shapes, start, end, exact)
  {
    if exact {
      assert shapes[start..end] == shapes[start..at] + [shapes[at]] + shapes[at + 1..end];
    }
  }

  /** Folding one `or` or `and` and its right operand onto a chain. */
  lemma LogicalStep(shapes: seq<Piece>, start: nat, at: nat, end: nat,
                    l: Expr, op: Token, r: Expr, exactLeft: bool, exactRight: bool, exact: bool)
    requires at < |shapes| && shapes[at] == Exact(op) && (op.kind == Or || op.kind == And)
    requires Builds(l, Level(Logical(l, op, r)), shapes, start, at, exactLeft)
    requires Builds(r, Level(Logical(l, op, r)) + 1, shapes, at + 1, end, exactRight)
    requires exact ==> exactLeft && exactRight
    ensures Builds(Logical(l, op, r), Level(Logical(l, op, r)), shapes, start, end, exact)
  {
    if exact {
      assert shapes[start..end] == shapes[start..at] + [shapes[at]] + shapes[at + 1..end];
    }
  }

  /** A slice cut at two separator positions. */
  lemma SplitTwice<T>(s: seq<T>, start: nat, i: nat, j: nat, end: nat)
    requires start <= i < j < end <= |s|
    ensures s[start..end] == s[start..i] + [s[i]] + s[i + 1..j] + [s[j]] + s[j + 1..end]
  {
    assert s[j..end] == [s[j]] + s[j + 1..end];
    assert s[i + 1..end] == s[i + 1..j] + s[j..end];
    assert s[start..end] == s[start..i] + [s[i]] + s[i + 1..end];
  }

  /** A slice of pieces written as two parts around one piece, cut back into them. */
  lemma Cut(s: seq<Piece>, from: nat, to: nat, a: seq<Piece>, x: Piece, b: seq<Piece>)
    requires from <= to <= |s| && s[from..to] == a + [x] + b
    ensures from + |a| < to && s[from..from + |a|] == a && s[from + |a|] == x && s[from + |a| + 1..to] == b
  {
    assert s[from..from + |a|] == s[from..to][..|a|];
    assert s[from + |a| + 1..to] == s[from..to][|a| + 1..];
  }

  /** `condition ? expTrue : expFalse`. */
  lemma TernaryStep(shapes: seq<Piece>, start: nat, question: nat, colon: nat, end: nat,
                    c: Expr, t: Expr, f: Expr, exactCondition: bool, exactTrue: bool, exactFalse: bool, exact: bool)
    requires question < colon < |shapes| && shapes[question] == Kind(QuestionMark) && shapes[colon] == Kind(Colon)
    requires Builds(c, 2, shapes, start, question, exactCondition)
    requires Builds(t, 0, shapes, question + 1, colon, exactTrue)
    requires Builds(f, 0, shapes, colon + 1, end, exactFalse)
    requires exact ==> exactCondition && exactTrue && exactFalse
    ensures Builds(Ternary(c, t, f), 1, shapes, start, end, exact)
  {
    if exact {
      SplitTwice(shapes, start, question, colon, end);
    }
  }

  /** A variable, an `=` and the value assigned to it. */
  lemma AssignStep(shapes: seq<Piece>, start: nat, equals: nat, end: nat,
                   id: nat, name: Token, v: Expr, exactTarget: bool, exactValue: bool, exact: bool)
    requires equals < |shapes| && shapes[equals] == Kind(Equal)
    requires Builds(Variable(id, name), 1, shapes, start, equals, exactTarget)
    requires Builds(v, 0, shapes, equals + 1, end, exactValue)
    requires exact ==> exactTarget && exactValue
    ensures Builds(Assign(id, name, v), 0, shapes, start, end, exact)
  {
    if exact {
      assert shapes[start..end] == shapes[start..equals] + [shapes[equals]] + shapes[equals + 1..end];
    }
  }

  /** A prefix `!` or `-` before a unary operand. */
  lemma UnaryStep(shapes: seq<Piece>, start: nat, end: nat, op: Token, r: Expr, exactRight: bool, exact: bool)
    requires start < |shapes| && shapes[start] == Exact(op) && (op.kind == Bang || op.kind == Minus)
    requires Builds(r, 8, shapes, start + 1, end, exactRight)
    requires exact ==> exactRight
    ensures Builds(Unary(op, r), 8, shapes, start, end, exact)
  {
    if exact {
      assert shapes[start..end] == [shapes[start]] + shapes[start + 1..end];
    }
  }

  /** A group closed by its parenthesis. */
  lemma GroupStep(shapes: seq<Piece>, start: nat, close: nat, x: Expr, exactInner: bool, exact: bool)
    requires start < close < |shapes| && shapes[start] == Kind(LeftParen) && shapes[close] == Kind(RightParen)
    requires Builds(x, 0, shapes, start + 1, close, exactInner)
    requires exact ==> exactInner
    ensures Builds(Grouping(x), 10, shapes, start, close + 1, exact)
  {
    if exact {
      assert shapes[start..close + 1] == [shapes[start]] + shapes[start + 1..close] + [shapes[close]];
    }
  }

  /** A one-token primary: a literal or a variable. */
  lemma AtomStep(shapes: seq<Piece>, at: nat, e: Expr)
    requires at < |shapes|
    requires (e.Literal? && shapes[at] == Value(e.value)) || (e.Variable? && shapes[at] == Named(e.id, e.name) && e.name.kind == Identifier)
    ensures Builds(e, 10, shapes, at, at + 1, true)
  {
    assert shapes[at..at + 1] == [shapes[at]];
  }

  /**
   * The arguments of a call, each well formed, rendering when `exact`
   * holds as `shapes[from..to]`, their commas included.
   */
  ghost predicate ArgumentsBuild(args: seq<Expr>, shapes: seq<Piece>, from: nat, to: nat, exact: bool)
  {
    from <= to <= |shapes| && (forall i :: 0 <= i < |args| ==> Formed(args[i]) == true)
    && (exact ==> RenderArguments(args) == shapes[from..to])
  }

  /** The first argument. */
  lemma FirstArgument(shapes: seq<Piece>, from: nat, to: nat, a: Expr, exactArgument: bool, exact: bool)
    requires Builds(a, 0, shapes, from, to, exactArgument)
    requires exact ==> exactArgument
    ensures ArgumentsBuild([a], shapes, from, to, exact)
  {
  }

  /** A comma and one more argument. */
  lemma NextArgument(shapes: seq<Piece>, from: nat, comma: nat, to: nat,
                     args: seq<Expr>, a: Expr, exactArguments: bool, exactArgument: bool, exact: bool)
    requires 0 < |args| && comma < |shapes| && shapes[comma] == Kind(Comma)
    requires ArgumentsBuild(args, shapes, from, comma, exactArguments)
    requires Builds(a, 0, shapes, comma + 1, to, exactArgument)
    requires exact ==> exactArguments && exactArgument
    ensures ArgumentsBuild(args + [a], shapes, from, to, exact)
  {
    var all := args + [a];
    assert all[..|all| - 1] == args;
    if exact {
      assert shapes[from..to] == shapes[from..comma] + [shapes[comma]] + shapes[comma + 1..to];
    }
  }

  /** A callee and its parenthesised arguments. */
  lemma CallStep(shapes: seq<Piece>, start: nat, open: nat, close: nat,
                 callee: Expr, paren: Token, args: seq<Expr>, exactCallee: bool, exactArguments: bool, exact: bool)
    requires open < close < |shapes| && shapes[open] == Kind(LeftParen) && shapes[close] == Kind(RightParen)
    requires paren.kind == RightParen
    requires Builds(callee, 9, shapes, start, open, exactCallee)
    requires ArgumentsBuild(args, shapes, open + 1, close, exactArguments)
    requires exact ==> exactCallee && exactArguments
    ensures Builds(Call(callee, paren, args), 9, shapes, start, close + 1, exact)
  {
    var e := Call(callee, paren, args);
    assert Formed(e) && Level(e) == 9;
    if exact {
      calc {
        Render(e);
        Render(callee) + [Kind(LeftParen)] + RenderArguments(args) + [Kind(RightParen)];
        shapes[start..open] + [shapes[open]] + shapes[open + 1..close] + [shapes[close]];
        shapes[start..close + 1];
      }
    }
  }

  /** An absent expression, or a well-formed one. */
  predicate Optional(e: Expr)
  {
    e == EmptyExpr || Formed(e)
  }

  /**
   * The statements the parser builds: every expression well formed (the
   * absent expression only as a variable's initializer and as the
   * increment statement of a `for` loop), every name an identifier, and no
   * `return` statement anywhere, because the statement parser has none.
   */
  predicate StmtFormed(s: Stmt)
  {
    match s
    case Block(ss) => forall i :: 0 <= i < |ss| ==> StmtFormed(ss[i])
    case Expression(e) => Optional(e)
    case Print(e) => Formed(e)
    case Var(name, init) => name.kind == Identifier && Optional(init)
    case EmptyStmt => true
    case Function(name, params, body) =>
      name.kind == Identifier && (forall i :: 0 <= i < |params| ==> params[i].kind == Identifier)
      && forall i :: 0 <= i < |body| ==> StmtFormed(body[i])
    case If(c, t, f) => Formed(c) && StmtFormed(t) && StmtFormed(f)
    case While(c, b) => Formed(c) && StmtFormed(b)
    case Return(_, _) => false
  }

  /** Whether a `return` statement occurs anywhere in a statement. */
  predicate HasReturn(s: Stmt)
  {
    match s
    case Block(ss) => exists i :: 0 <= i < |ss| && HasReturn(ss[i])
    case Function(_, _, body) => exists i :: 0 <= i < |body| && HasReturn(body[i])
    case If(_, t, f) => HasReturn(t) || HasReturn(f)
    case While(_, b) => HasReturn(b)
    case Return(_, _) => true
    case _ => false
  }

  /** A parsed statement holds no `return`, however deep. */
  lemma {:induction false} FormedHasNoReturn(s: Stmt)
    requires StmtFormed(s)
    ensures !HasReturn(s)
  {
    match s
    case Block(ss) =>
      forall i | 0 <= i < |ss|
        ensures !HasReturn(ss[i])
      {
        FormedHasNoReturn(ss[i]);
      }
    case Function(_, _, body) =>
      forall i | 0 <= i < |body|
        ensures !HasReturn(body[i])
      {
        FormedHasNoReturn(body[i]);
      }
    case If(_, t, f) =>
      FormedHasNoReturn(t);
      FormedHasNoReturn(f);
    case While(_, b) =>
      FormedHasNoReturn(b);
    case _ =>
  }

  /** The four clauses of a `for` loop and its body. */
  datatype ForClauses = ForClauses(initializer: Stmt, condition: Expr, increment: Expr, body: Stmt)

  /**
   * The `while` loop a `for` loop stands for: the initializer, then a loop
   * on the condition whose body runs the loop's body and then the increment.
   */
  function Desugar(c: ForClauses): Stmt
  {
    Block([c.initializer, Stmt.While(c.condition, Block([c.body, Expression(c.increment)]))])
  }

  /** Well-formed clauses desugar to a well-formed statement. */
  lemma DesugarFormed(c: ForClauses)
    requires StmtFormed(c.initializer) == true && Formed(c.condition) == true
    requires Optional(c.increment) == true && StmtFormed(c.body) == true
    ensures StmtFormed(Desugar(c)) == true
  {
    var loop := Stmt.While(c.condition, Block([c.body, Expression(c.increment)]));
    assert StmtFormed(Block([c.body, Expression(c.increment)]));
    assert StmtFormed(loop);
  }

  /** A node of an `or` (level 2), `and` (level 3) or binary (levels 4 to 7) chain. */
  predicate Chained(e: Expr, level: int)
  {
    (e.Logical? || e.Binary?) && Level(e) == level
  }

  /** `acc` is `e`, or lies below it on the left spine of its chain at `level`. */
  predicate OnSpine(acc: Expr, e: Expr, level: int)
  {
    acc == e || (Chained(e, level) && OnSpine(acc, e.left, level))
  }

  /** The first operand of the chain at `level` that `e` heads. */
  function Leftmost(e: Expr, level: int): Expr
  {
    if Chained(e, level) then Leftmost(e.left, level) else e
  }

  /** The spine node whose left operand is `acc`. */
  function Parent(acc: Expr, e: Expr, level: int): (n: Expr)
    requires OnSpine(acc, e, level) && acc != e
    ensures Chained(n, level) && n.left == acc
  {
    if e.left == acc then e else Parent(acc, e.left, level)
  }

  /** A spine node is well formed, binds at least at the chain's level, and its tokens begin the chain's. */
  lemma {:induction false} SpinePrefix(acc: Expr, e: Expr, level: int)
    requires OnSpine(acc, e, level) && Formed(e) && Level(e) >= level
    ensures Formed(acc) && Level(acc) >= level && Render(acc) <= Render(e)
  {
    if acc != e {
      SpinePrefix(acc, e.left, level);
      assert Render(e) == Render(e.left) + [Exact(e.operator)] + Render(e.right);
    }
  }

  /** The node above a spine node is on the spine too. */
  lemma {:induction false} ParentOnSpine(acc: Expr, e: Expr, level: int)
    requires OnSpine(acc, e, level) && acc != e
    ensures OnSpine(Parent(acc, e, level), e, level)
  {
    if e.left != acc {
      ParentOnSpine(acc, e.left, level);
    }
  }

  /** The first operand of a chain is on its spine and binds more tightly than the chain. */
  lemma {:induction false} LeftmostOnSpine(e: Expr, level: int)
    requires Formed(e) && Level(e) >= level && 2 <= level <= 7
    ensures OnSpine(Leftmost(e, level), e, level) && Level(Leftmost(e, level)) > level
  {
    if Chained(e, level) {
      LeftmostOnSpine(e.left, level);
    }
  }

  /** `acc` is `e`, or a callee below it: the call chain `f(a)(b)` has spine `f`, `f(a)`, `f(a)(b)`. */
  predicate OnCallee(acc: Expr, e: Expr)
  {
    acc == e || (e.Call? && OnCallee(acc, e.callee))
  }

  /** The callee at the bottom of a call chain. */
  function InnermostCallee(e: Expr): Expr
  {
    if e.Call? then InnermostCallee(e.callee) else e
  }

  /** The call whose callee is `acc`. */
  function Caller(acc: Expr, e: Expr): (n: Expr)
    requires OnCallee(acc, e) && acc != e
    ensures n.Call? && n.callee == acc
  {
    if e.callee == acc then e else Caller(acc, e.callee)
  }

  /** A callee on the chain is well formed, binds at the call level or tighter, and its tokens begin the chain's. */
  lemma {:induction false} CalleePrefix(acc: Expr, e: Expr)
    requires OnCallee(acc, e) && Formed(e) && Level(e) >= 9
    ensures Formed(acc) && Level(acc) >= 9 && Render(acc) <= Render(e)
  {
    if acc != e {
      CalleePrefix(acc, e.callee);
      assert Render(e) == Render(e.callee) + [Kind(LeftParen)] + RenderArguments(e.arguments) + [Kind(RightParen)];
    }
  }

  /** The call above a callee on the chain is on the chain too. */
  lemma {:induction false} CallerOnCallee(acc: Expr, e: Expr)
    requires OnCallee(acc, e) && acc != e
    ensures OnCallee(Caller(acc, e), e)
  {
    if e.callee != acc {
      CallerOnCallee(acc, e.callee);
    }
  }

  /** The bottom of a call chain is on it and is a primary. */
  lemma {:induction false} InnermostOnCallee(e: Expr)
    requires Formed(e) && Level(e) >= 9
    ensures OnCallee(InnermostCallee(e), e) && Level(InnermostCallee(e)) == 10
  {
    if e.Call? {
      InnermostOnCallee(e.callee);
    }
  }

  /**
   * How a well-formed tree begins: with at least one token; a punctuation
   * piece first only for the `(` of a group; and an operator first only
   * for a prefix operator, so never at the call level or tighter.
   */
  lemma {:induction false} FirstPiece(e: Expr)
    requires Formed(e)
    ensures |Render(e)| > 0
    ensures Render(e)[0].Kind? ==> Render(e)[0].kind == LeftParen
    ensures Level(e) >= 9 ==> !Render(e)[0].Exact?
  {
    match e
    case Assign(_, _, _) =>
    case Ternary(c, _, _) =>
      FirstPiece(c);
    case Logical(l, _, _) =>
      FirstPiece(l);
    case Binary(l, _, _) =>
      FirstPiece(l);
    case Unary(_, _) =>
    case Call(c, _, _) =>
      FirstPiece(c);
    case Grouping(_) =>
    case Literal(_) =>
    case Variable(_, _) =>
  }

  /** A well-formed tree of one token is a literal or a variable. */
  lemma SinglePiece(e: Expr)
    requires Formed(e) && |Render(e)| == 1
    ensures e.Literal? || e.Variable?
  {
    match e
    case Assign(_, _, _) =>
    case Ternary(c, _, _) =>
      FirstPiece(c);
    case Logical(l, _, _) =>
      FirstPiece(l);
    case Binary(l, _, _) =>
      FirstPiece(l);
    case Unary(_, r) =>
      FirstPiece(r);
    case Call(c, _, _) =>
      FirstPiece(c);
    case Grouping(_) =>
    case Literal(_) =>
    case Variable(_, _) =>
  }

  /**
   * The first `i` arguments render as a prefix of all of them; unless
   * they are all, a comma and the next argument follow.
   */
  lemma {:induction false} ArgumentsPrefix(args: seq<Expr>, i: nat)
    requires 0 < i <= |args|
    ensures RenderArguments(args[..i]) <= RenderArguments(args)
    ensures i < |args| ==> RenderArguments(args[..i + 1]) == RenderArguments(args[..i]) + [Kind(Comma)] + Render(args[i])
    decreases |args| - i
  {
    if i < |args| {
      assert args[..i + 1][..i] == args[..i];
      assert args[..i + 1][i] == args[i];
      ArgumentsPrefix(args, i + 1);
    } else {
      assert args[..i] == args;
    }
  }

  /** Arguments split at the front: the first, a comma, and the rest written as arguments. */
  lemma {:induction false} RenderArgumentsFirst(args: seq<Expr>)
    requires |args| > 1
    ensures RenderArguments(args) == Render(args[0]) + [Kind(Comma)] + RenderArguments(args[1..])
    decreases |args|
  {
    var n := |args|;
    if n == 2 {
      assert args[..1] == [args[0]];
      assert args[1..] == [args[1]];
    } else {
      var init := args[..n - 1];
      RenderArgumentsFirst(init);
      assert init[1..] == args[1..][..n - 2];
      assert args[1..][n - 2] == args[n - 1];
    }
  }
}
