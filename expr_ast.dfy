/**
 * The expression tree of the older, expression-only snapshot of the
 * interpreter (its Expr.kt, completed with the Ternary node its evaluator
 * visits). A literal holds the token's value; an operator node keeps its
 * operator token.
 */
module ExprAst {
  import opened Tokens

  datatype Expr =
    | Binary(left: Expr, operator: Token, right: Expr)
    | Grouping(expression: Expr)
    | Literal(value: Literal)
    | Unary(operator: Token, right: Expr)
    | Ternary(condition: Expr, expTrue: Expr, expFalse: Expr)

  /**
   * Binding strength of the binary operators: equality 0, comparison 1,
   * term 2, factor 3; -1 for a kind that is no binary operator. Unary
   * operators bind at 4 and primaries at 5.
   */
  function BinaryLevel(k: TokenType): (level: int)
    ensures -1 <= level <= 3
  {
    match k
    case BangEqual | EqualEqual => 0
    case Greater | GreaterEqual | Less | LessEqual => 1
    case Minus | Plus => 2
    case Slash | Star => 3
    case _ => -1
  }

  /** The operator kinds a binary level accepts. */
  predicate IsLevelOperator(level: nat, k: TokenType)
  {
    BinaryLevel(k) == level
  }

  /**
   * Whether a token of kind `k` would extend a tree parsed at `level`: it
   * is an operator of that level or of a tighter one. A level's loop stops
   * only in front of a token that does not.
   */
  predicate Continues(level: nat, k: TokenType)
  {
    level <= BinaryLevel(k)
  }

  /** How tightly the root of a tree binds. */
  function Precedence(e: Expr): int
  {
    match e
    case Binary(_, op, _) => BinaryLevel(op.kind)
    case Unary(_, _) => 4
    case Ternary(_, _, _) => 0
    case _ => 5
  }

  /**
   * The trees the precedence ladder builds: a binary node's left operand
   * binds at least as tightly as its operator and its right operand
   * strictly more (left nesting), a unary operand is a unary or a primary,
   * and a group holds any such tree. The ladder never builds a Ternary.
   */
  predicate Nested(e: Expr)
  {
    match e
    case Binary(l, op, r) =>
      BinaryLevel(op.kind) >= 0
      && Precedence(l) >= BinaryLevel(op.kind) && Precedence(r) > BinaryLevel(op.kind)
      && Nested(l) && Nested(r)
    case Unary(op, r) => (op.kind == Bang || op.kind == Minus) && Precedence(r) >= 4 && Nested(r)
    case Grouping(x) => Nested(x)
    case Literal(_) => true
    case Ternary(_, _, _) => false
  }

  /**
   * The tokens a tree is written with, parentheses included, as pieces:
   * its operators as the tokens it keeps, each literal as its value, and
   * the punctuation by kind.
   */
  function Render(e: Expr): seq<Piece>
  {
    match e
    case Binary(l, op, r) => Render(l) + [Exact(op)] + Render(r)
    case Grouping(x) => [Kind(LeftParen)] + Render(x) + [Kind(RightParen)]
    case Literal(v) => [Value(v)]
    case Unary(op, r) => [Exact(op)] + Render(r)
    case Ternary(c, t, f) => Render(c) + [Kind(QuestionMark)] + Render(t) + [Kind(Colon)] + Render(f)
  }

  /**
   * `e` is in normal form, binds at least as tightly as `level` and renders
   * as the pieces `shapes[from..to]`. (`Nested` is compared with `true` so
   * that the verifier keeps it as one fact instead of unfolding the
   * recursive predicate into one proof obligation per case wherever this
   * is checked.)
   */
  ghost predicate Builds(e: Expr, level: int, shapes: seq<Piece>, from: nat, to: nat)
  {
    from <= to <= |shapes| && Nested(e) == true && Precedence(e) >= level
    && Render(e) == shapes[from..to]
  }

  /**
   * Folding one operator-operand pair onto a level's chain keeps the
   * normal form and the rendering of the consumed tokens.
   */
  lemma BinaryStep(shapes: seq<Piece>, level: nat, start: nat, at: nat, end: nat, l: Expr, op: Token, r: Expr)
    requires at < |shapes| && shapes[at] == Exact(op) && IsLevelOperator(level, op.kind)
    requires Builds(l, level, shapes, start, at) && Builds(r, level + 1, shapes, at + 1, end)
    ensures Builds(Binary(l, op, r), level, shapes, start, end)
    ensures Precedence(Binary(l, op, r)) == level
  {
    assert shapes[start..end] == shapes[start..at] + [shapes[at]] + shapes[at + 1..end];
  }

  /** Closing a group around a tree that renders as the tokens between two parentheses. */
  lemma GroupStep(shapes: seq<Piece>, start: nat, close: nat, x: Expr)
    requires start < close < |shapes| && shapes[start] == Kind(LeftParen) && shapes[close] == Kind(RightParen)
    requires Builds(x, 0, shapes, start + 1, close)
    ensures Builds(Grouping(x), 5, shapes, start, close + 1)
  {
    assert shapes[start..close + 1] == [shapes[start]] + shapes[start + 1..close] + [shapes[close]];
  }

  /** A prefix operator in front of a unary or primary operand. */
  lemma UnaryStep(shapes: seq<Piece>, start: nat, op: Token, r: Expr, end: nat)
    requires start < |shapes| && shapes[start] == Exact(op) && (op.kind == Bang || op.kind == Minus)
    requires Builds(r, 4, shapes, start + 1, end)
    ensures Builds(Unary(op, r), 4, shapes, start, end)
  {
    assert shapes[start..end] == [shapes[start]] + shapes[start + 1..end];
  }

  /** A tree of the ladder is written with at least one token and binds at a level of its own. */
  lemma NestedWritten(e: Expr)
    requires Nested(e)
    ensures |Render(e)| > 0 && Precedence(e) >= 0
  {
    match e
    case Binary(l, op, r) =>
    case Grouping(x) =>
    case Literal(_) =>
    case Unary(op, r) =>
  }

  /** A literal token on its own. */
  lemma LiteralStep(shapes: seq<Piece>, at: nat, v: Literal)
    requires at < |shapes| && shapes[at] == Value(v)
    ensures Builds(Literal(v), 5, shapes, at, at + 1)
  {
    assert shapes[at..at + 1] == [shapes[at]];
  }

  // The spine definitions and lemmas below mirror those of module Ast for
  // the snapshot's own tree, which has no logical operators, calls or
  // variables and orders its levels differently.

  /**
   * `acc` lies on the left spine of the chain of `level` operators at the
   * root of `e`: it is `e` itself, or lies on the spine of the left
   * operand of such an operator.
   */
  predicate OnSpine(acc: Expr, e: Expr, level: int)
  {
    acc == e || (e.Binary? && BinaryLevel(e.operator.kind) == level && OnSpine(acc, e.left, level))
  }

  /** The first operand of the chain of `level` operators at the root of `e`. */
  function Leftmost(e: Expr, level: int): Expr
  {
    if e.Binary? && BinaryLevel(e.operator.kind) == level then Leftmost(e.left, level) else e
  }

  /** The node of the chain whose left operand is `acc`. */
  function Parent(acc: Expr, e: Expr, level: int): (n: Expr)
    requires OnSpine(acc, e, level) && acc != e
    ensures n.Binary? && n.left == acc && BinaryLevel(n.operator.kind) == level
  {
    if e.left == acc then e else Parent(acc, e.left, level)
  }

  /** Down the spine the normal form and the level carry over, and each rendering is a prefix of the whole. */
  lemma {:induction false} SpinePrefix(acc: Expr, e: Expr, level: int)
    requires OnSpine(acc, e, level) && Nested(e) && Precedence(e) >= level
    ensures Nested(acc) && Precedence(acc) >= level && Render(acc) <= Render(e)
  {
    if acc != e {
      SpinePrefix(acc, e.left, level);
    }
  }

  /** Below the root, the next node up the spine is an operator of the level whose left operand is `acc`. */
  lemma {:induction false} ParentOnSpine(acc: Expr, e: Expr, level: int)
    requires OnSpine(acc, e, level) && acc != e
    ensures OnSpine(Parent(acc, e, level), e, level)
  {
    if e.left != acc {
      ParentOnSpine(acc, e.left, level);
    }
  }

  /** The first operand of a chain lies on its spine and binds more tightly than the chain's operators. */
  lemma {:induction false} LeftmostOnSpine(e: Expr, level: int)
    requires Nested(e) && Precedence(e) >= level && level <= 3
    ensures OnSpine(Leftmost(e, level), e, level) && Precedence(Leftmost(e, level)) > level
  {
    if e.Binary? && BinaryLevel(e.operator.kind) == level {
      LeftmostOnSpine(e.left, level);
    }
  }
}
