/**
 * The older snapshot's parser (src Parser.kt): recursive descent over a
 * token list with a cursor `current`, one method per precedence level,
 * and a shared left-associative loop for the four binary levels. A parse
 * error is reported on the reporter and ends the parse, which then yields
 * the nil literal.
 *
 * Every level is proved to consume at least one token, never to move past
 * the end-of-input token, to build a tree in the normal form `Nested`
 * (left-nested binary chains, precedence equality < comparison < term <
 * factor < unary < primary) and to build a tree that renders back to
 * exactly the tokens it consumed.
 */
module ExprParser {
  import opened Tokens
  import opened Reports
  import opened ExprAst

  /** A level's result: a tree, or the message of the error that ended the parse. */
  datatype ParseResult = Parsed(expr: Expr) | Failed(message: string)

  /** The operator kinds `parseLeftAssociative` is given at each binary level, in the source's order. */
  function LevelOperators(level: nat): (kinds: seq<TokenType>)
    requires level <= 3
    ensures forall k :: k in kinds <==> IsLevelOperator(level, k)
  {
    match level
    case 0 => [BangEqual, EqualEqual]
    case 1 => [Greater, GreaterEqual, Less, LessEqual]
    case 2 => [Minus, Plus]
    case 3 => [Slash, Star]
  }

  /**
   * The tokens `[from, to)` are written as `e`, a tree in normal form of
   * at least `level`, and the token at `to` cannot extend it. A level that
   * is given such a tree parses exactly those tokens.
   */
  ghost predicate Spans(tokens: seq<Token>, e: Expr, level: nat, from: nat, to: nat)
  {
    from < to < |tokens| && Builds(e, level, Shapes(tokens), from, to) && !Continues(level, tokens[to].kind)
  }

  /**
   * Where a node on the spine of a spanned chain ends: the root where the
   * chain does, in front of a token of another level, and any other node
   * in front of the operator of the node above it.
   */
  lemma SpineEnd(tokens: seq<Token>, goal: Expr, level: nat, from: nat, to: nat, acc: Expr)
    requires level <= 3 && Spans(tokens, goal, level, from, to) && OnSpine(acc, goal, level)
    ensures from + |Render(acc)| <= to && Render(acc) == Shapes(tokens)[from..from + |Render(acc)|]
    ensures Nested(acc) && Precedence(acc) >= level
    ensures acc == goal ==> from + |Render(acc)| == to && !IsLevelOperator(level, tokens[to].kind)
    ensures acc != goal ==>
              from + |Render(acc)| < to && tokens[from + |Render(acc)|] == Parent(acc, goal, level).operator
              && IsLevelOperator(level, tokens[from + |Render(acc)|].kind)
  {
    SpinePrefix(acc, goal, level);
    var p := from + |Render(acc)|;
    assert Render(acc) == Render(goal)[..|Render(acc)|];
    if acc != goal {
      var n := Parent(acc, goal, level);
      ParentOnSpine(acc, goal, level);
      SpinePrefix(n, goal, level);
      assert Render(n)[|Render(acc)|] == Exact(n.operator);
      assert Shapes(tokens)[p] == Exact(n.operator);
      ShapeKind(tokens, p);
    }
  }

  /** The right operand of the node above `acc` on the spine spans its tokens at the next tighter level. */
  lemma OperandSpans(tokens: seq<Token>, goal: Expr, level: nat, from: nat, to: nat, acc: Expr)
    requires level <= 3 && Spans(tokens, goal, level, from, to) && OnSpine(acc, goal, level) && acc != goal
    ensures Parent(acc, goal, level).Binary?
    ensures Spans(tokens, Parent(acc, goal, level).right, level + 1,
                  from + |Render(acc)| + 1, from + |Render(Parent(acc, goal, level))|)
  {
    var n := Parent(acc, goal, level);
    ParentOnSpine(acc, goal, level);
    SpineEnd(tokens, goal, level, from, to, acc);
    SpineEnd(tokens, goal, level, from, to, n);
    var p := from + |Render(acc)|;
    var q := from + |Render(n)|;
    assert Render(n) == Render(acc) + [Exact(n.operator)] + Render(n.right);
    assert Shapes(tokens)[p + 1..q] == Shapes(tokens)[from..q][|Render(acc)| + 1..];
  }

  /**
   * Where the parse of a spanned chain goes on from the node `acc` of its
   * spine, whose tokens end at `end`: a token of the level follows exactly
   * when `acc` is not yet the chain itself; and once it is, the chain's
   * tokens end there.
   */
  lemma SpineNext(tokens: seq<Token>, goal: Expr, level: nat, from: nat, to: nat, acc: Expr, end: nat)
    requires level <= 3 && Spans(tokens, goal, level, from, to) && OnSpine(acc, goal, level)
    requires end == from + |Render(acc)|
    ensures end <= to
    ensures acc != goal <==> tokens[end].kind != Eof && IsLevelOperator(level, tokens[end].kind)
    ensures acc == goal ==> end == to
  {
    SpineEnd(tokens, goal, level, from, to, acc);
  }

  /**
   * One step up the spine: the node above `acc` is on the spine, and its
   * right operand spans the tokens after the operator that follows `acc`.
   */
  lemma SpineStep(tokens: seq<Token>, goal: Expr, level: nat, from: nat, to: nat, acc: Expr, end: nat)
    returns (next: Expr, operand: Expr, after: nat)
    requires level <= 3 && Spans(tokens, goal, level, from, to) && OnSpine(acc, goal, level) && acc != goal
    requires end == from + |Render(acc)|
    ensures next.Binary? && next.right == operand && OnSpine(next, goal, level) && after == from + |Render(next)|
    ensures Spans(tokens, operand, level + 1, end + 1, after)
  {
    next := Parent(acc, goal, level);
    operand := next.right;
    after := from + |Render(next)|;
    ParentOnSpine(acc, goal, level);
    OperandSpans(tokens, goal, level, from, to, acc);
  }

  /** The first operand of a spanned chain spans its tokens at the next tighter level. */
  lemma LeftmostSpans(tokens: seq<Token>, goal: Expr, level: nat, from: nat, to: nat) returns (acc: Expr, end: nat)
    requires level <= 3 && Spans(tokens, goal, level, from, to)
    ensures acc == Leftmost(goal, level) && OnSpine(acc, goal, level) && end == from + |Render(acc)|
    ensures Spans(tokens, acc, level + 1, from, end)
  {
    LeftmostOnSpine(goal, level);
    acc := Leftmost(goal, level);
    end := from + |Render(acc)|;
    SpineEnd(tokens, goal, level, from, to, acc);
    if acc != goal {
      OperandSpans(tokens, goal, level, from, to, acc);
    }
  }

  /** A spanned unary-level tree is a prefix operator exactly when its first token is `!` or `-`; otherwise it is a primary. */
  lemma UnarySpans(tokens: seq<Token>, goal: Expr, from: nat, to: nat)
    requires Spans(tokens, goal, 4, from, to)
    ensures goal.Unary? <==> tokens[from].kind == Bang || tokens[from].kind == Minus
    ensures goal.Unary? ==> Spans(tokens, goal.right, 4, from + 1, to)
    ensures !goal.Unary? ==> Spans(tokens, goal, 5, from, to)
  {
    ShapeKind(tokens, from);
    assert Render(goal)[0] == Shapes(tokens)[from];
    if goal.Unary? {
      assert Shapes(tokens)[from + 1..to] == Render(goal)[1..];
    }
  }

  /**
   * A spanned primary is a literal, one token of a literal kind, or a
   * group: a `(`, an expression spanning the tokens up to the last one,
   * and that last token a `)`.
   */
  lemma PrimarySpans(tokens: seq<Token>, goal: Expr, from: nat, to: nat)
    requires Spans(tokens, goal, 5, from, to)
    ensures goal.Literal? || goal.Grouping?
    ensures goal.Literal? ==> to == from + 1 && tokens[from].kind in {False, True, Nil, Number, String}
    ensures goal.Grouping? ==>
              tokens[from].kind == LeftParen && tokens[to - 1].kind == RightParen
              && Spans(tokens, goal.expression, 0, from + 1, to - 1)
  {
    ShapeKind(tokens, from);
    assert Render(goal)[0] == Shapes(tokens)[from];
    if goal.Grouping? {
      var x := goal.expression;
      NestedWritten(x);
      assert Render(goal) == [Kind(LeftParen)] + Render(x) + [Kind(RightParen)];
      assert Shapes(tokens)[from + 1..to - 1] == Render(goal)[1..|Render(goal)| - 1] == Render(x);
      ShapeKind(tokens, to - 1);
      assert Render(goal)[|Render(goal)| - 1] == Shapes(tokens)[to - 1];
    }
  }

  class Parser {
    const tokens: seq<Token>
    const reporter: Reporter
    var current: nat

    ghost predicate Valid()
      reads this
    {
      Terminated(tokens) && current < |tokens|
    }

    /**
     * The tokens `[from, current)` were parsed into `e`, a tree in normal
     * form binding at least as tightly as `level` that renders as those tokens.
     */
    ghost predicate Produced(e: Expr, from: nat, level: nat)
      reads this
    {
      from < current && Builds(e, level, Shapes(tokens), from, current)
    }

    /** An error call reports at the token under the cursor; a success reports nothing. */
    ghost predicate Reported(r: ParseResult, diagnostics0: seq<Diagnostic>)
      requires current < |tokens|
      reads this, reporter
    {
      if r.Failed? then reporter.diagnostics == diagnostics0 + [ErrorAt(tokens[current], r.message)]
      else reporter.diagnostics == diagnostics0
    }

    constructor (tokens: seq<Token>, reporter: Reporter)
      requires Terminated(tokens)
      ensures this.tokens == tokens && this.reporter == reporter && current == 0
      ensures Valid()
    {
      this.tokens := tokens;
      this.reporter := reporter;
      current := 0;
    }

    /**
     * One expression from the cursor; on a parse error the nil literal.
     * The expression reaches up to the first token that cannot extend it;
     * the tokens from there on are left unread. Tokens that are written as
     * some tree `goal` up to `stop` parse without an error, up to `stop`.
     */
    method Parse(ghost goal: Expr, ghost stop: nat) returns (e: Expr)
      requires Valid()
      modifies this, reporter
      ensures Valid() && old(current) <= current
      ensures (Nested(e) && Render(e) == Shapes(tokens)[old(current)..current]
               && reporter.diagnostics == old(reporter.diagnostics) && !Continues(0, tokens[current].kind))
              || (e == Literal(Null) && |reporter.diagnostics| == |old(reporter.diagnostics)| + 1)
      ensures old(Spans(tokens, goal, 0, current, stop)) ==>
                current == stop && reporter.diagnostics == old(reporter.diagnostics)
                && Nested(e) && Render(e) == Shapes(tokens)[old(current)..stop]
    {
      var r := Expression(goal, stop);
      if r.Failed? {
        return Literal(Null);
      }
      return r.expr;
    }

    method Expression(ghost goal: Expr, ghost stop: nat) returns (r: ParseResult)
      requires Valid()
      modifies this, reporter
      decreases |tokens| - current, 14
      ensures Valid() && old(current) <= current && Reported(r, old(reporter.diagnostics))
      ensures r.Parsed? ==> Produced(r.expr, old(current), 0) && !Continues(0, tokens[current].kind)
      ensures old(Spans(tokens, goal, 0, current, stop)) ==> r.Parsed? && current == stop
    {
      r := Equality(goal, stop);
    }

    method Equality(ghost goal: Expr, ghost stop: nat) returns (r: ParseResult)
      requires Valid()
      modifies this, reporter
      decreases |tokens| - current, 13
      ensures Valid() && old(current) <= current && Reported(r, old(reporter.diagnostics))
      ensures r.Parsed? ==> Produced(r.expr, old(current), 0) && !Continues(0, tokens[current].kind)
      ensures old(Spans(tokens, goal, 0, current, stop)) ==> r.Parsed? && current == stop
    {
      r := LeftAssociative(0, goal, stop);
    }

    method Comparison(ghost goal: Expr, ghost stop: nat) returns (r: ParseResult)
      requires Valid()
      modifies this, reporter
      decreases |tokens| - current, 10
      ensures Valid() && old(current) <= current && Reported(r, old(reporter.diagnostics))
      ensures r.Parsed? ==> Produced(r.expr, old(current), 1) && !Continues(1, tokens[current].kind)
      ensures old(Spans(tokens, goal, 1, current, stop)) ==> r.Parsed? && current == stop
    {
      r := LeftAssociative(1, goal, stop);
    }

    method Term(ghost goal: Expr, ghost stop: nat) returns (r: ParseResult)
      requires Valid()
      modifies this, reporter
      decreases |tokens| - current, 7
      ensures Valid() && old(current) <= current && Reported(r, old(reporter.diagnostics))
      ensures r.Parsed? ==> Produced(r.expr, old(current), 2) && !Continues(2, tokens[current].kind)
      ensures old(Spans(tokens, goal, 2, current, stop)) ==> r.Parsed? && current == stop
    {
      r := LeftAssociative(2, goal, stop);
    }

    method Factor(ghost goal: Expr, ghost stop: nat) returns (r: ParseResult)
      requires Valid()
      modifies this, reporter
      decreases |tokens| - current, 4
      ensures Valid() && old(current) <= current && Reported(r, old(reporter.diagnostics))
      ensures r.Parsed? ==> Produced(r.expr, old(current), 3) && !Continues(3, tokens[current].kind)
      ensures old(Spans(tokens, goal, 3, current, stop)) ==> r.Parsed? && current == stop
    {
      r := LeftAssociative(3, goal, stop);
    }

    /** The `handle` each binary level passes to the shared loop: the next tighter level. */
    method Operand(level: nat, ghost goal: Expr, ghost stop: nat) returns (r: ParseResult)
      requires Valid() && level <= 3
      modifies this, reporter
      decreases |tokens| - current, 11 - 3 * level
      ensures Valid() && old(current) <= current && Reported(r, old(reporter.diagnostics))
      ensures r.Parsed? ==> Produced(r.expr, old(current), level + 1) && !Continues(level + 1, tokens[current].kind)
      ensures old(Spans(tokens, goal, level + 1, current, stop)) ==> r.Parsed? && current == stop
    {
      if level == 0 {
        r := Comparison(goal, stop);
      } else if level == 1 {
        r := Term(goal, stop);
      } else if level == 2 {
        r := Factor(goal, stop);
      } else {
        r := Unary(goal, stop);
      }
    }

    /**
     * `parseLeftAssociative`: an operand, then operator-operand pairs folded
     * to the left. When the tokens are written as a chain `goal`, `acc`
     * follows the parse up the chain's spine: the operands read so far are
     * the tokens of `acc`.
     */
    method LeftAssociative(level: nat, ghost goal: Expr, ghost stop: nat) returns (r: ParseResult)
      requires Valid() && level <= 3
      modifies this, reporter
      decreases |tokens| - current, 12 - 3 * level
      ensures Valid() && old(current) <= current && Reported(r, old(reporter.diagnostics))
      ensures r.Parsed? ==> Produced(r.expr, old(current), level) && !Continues(level, tokens[current].kind)
      ensures old(Spans(tokens, goal, level, current, stop)) ==> r.Parsed? && current == stop
    {
      var start := current;
      ghost var aims := Spans(tokens, goal, level, start, stop);
      ghost var acc, leftEnd := goal, stop;
      if aims {
        acc, leftEnd := LeftmostSpans(tokens, goal, level, start, stop);
      }
      var left := Operand(level, acc, leftEnd);
      if left.Failed? {
        return left;
      }
      var expr := left.expr;
      ghost var end := current;
      if aims {
        SpineNext(tokens, goal, level, start, stop, acc, end);
      }
      var more := MatchLevel(level);
      while more
        invariant Valid() && start < end <= current && current == if more then end + 1 else end
        invariant reporter.diagnostics == old(reporter.diagnostics)
        invariant Builds(expr, level, Shapes(tokens), start, end)
        invariant more ==> IsLevelOperator(level, tokens[end].kind)
        invariant !more ==> !Continues(level, tokens[current].kind)
        invariant aims ==> OnSpine(acc, goal, level) && end == start + |Render(acc)| && (more <==> acc != goal)
        invariant aims && acc == goal ==> end == stop
        decreases |tokens| - current
      {
        var operator := Previous();
        ghost var next, operand, after := goal, goal, stop;
        if aims {
          next, operand, after := SpineStep(tokens, goal, level, start, stop, acc, end);
        }
        var right := Operand(level, operand, after);
        if right.Failed? {
          return right;
        }
        BinaryStep(Shapes(tokens), level, start, end, current, expr, operator, right.expr);
        expr := Binary(expr, operator, right.expr);
        end := current;
        if aims {
          acc := next;
          SpineNext(tokens, goal, level, start, stop, acc, end);
        }
        more := MatchLevel(level);
      }
      return Parsed(expr);
    }

    /** A prefix `!` or `-` wraps the unary that follows it; otherwise a primary. */
    method Unary(ghost goal: Expr, ghost stop: nat) returns (r: ParseResult)
      requires Valid()
      modifies this, reporter
      decreases |tokens| - current, 1
      ensures Valid() && old(current) <= current && Reported(r, old(reporter.diagnostics))
      ensures r.Parsed? ==> Produced(r.expr, old(current), 4)
      ensures old(Spans(tokens, goal, 4, current, stop)) ==> r.Parsed? && current == stop
    {
      var start := current;
      if Spans(tokens, goal, 4, start, stop) {
        UnarySpans(tokens, goal, start, stop);
      }
      var isPrefix := Match([Bang, Minus]);
      if isPrefix {
        var operator := Previous();
        var right := Unary(if goal.Unary? then goal.right else goal, stop);
        if right.Failed? {
          return right;
        }
        UnaryStep(Shapes(tokens), start, operator, right.expr, current);
        return Parsed(Expr.Unary(operator, right.expr));
      }
      ghost var close;
      r, close := Primary(goal, stop);
    }

    /**
     * A literal, or a parenthesised expression that must be closed by `)`.
     * A token that starts neither fails with "Expect expression.", at the
     * cursor. For a group, `close` is where its inner expression ended:
     * the `)` there closes the group, and any other token fails with
     * "Expect ')' after expression." at that point.
     */
    method Primary(ghost goal: Expr, ghost stop: nat) returns (r: ParseResult, ghost close: int)
      requires Valid()
      modifies this, reporter
      decreases |tokens| - current, 0
      ensures old(Spans(tokens, goal, 5, current, stop)) ==> r.Parsed? && current == stop
      ensures Valid() && old(current) <= current && Reported(r, old(reporter.diagnostics))
      ensures r.Parsed? ==> Produced(r.expr, old(current), 5)
      ensures old(tokens[current].kind) in {False, True, Nil, Number, String} ==> r.Parsed? && current == old(current) + 1
      ensures old(tokens[current].kind) !in {False, True, Nil, Number, String, LeftParen} ==>
                r == Failed("Expect expression.") && current == old(current)
      ensures close >= 0 ==>
                old(tokens[current].kind) == LeftParen && old(current) + 1 < close < |tokens|
                && !Continues(0, tokens[close].kind)
                && if tokens[close].kind == RightParen then r.Parsed? && r.expr.Grouping? && current == close + 1
                   else r == Failed("Expect ')' after expression.") && current == close
      ensures old(tokens[current].kind) == LeftParen && r.Parsed? ==> close >= 0
    {
      close := -1;
      var start := current;
      if Spans(tokens, goal, 5, start, stop) {
        PrimarySpans(tokens, goal, start, stop);
      }
      var found, literal := Atom();
      if found {
        return Parsed(literal), close;
      }
      found := Match([LeftParen]);
      if found {
        r, close := Group(if goal.Grouping? then goal.expression else goal, if stop > 0 then stop - 1 else 0);
        return;
      }
      Error(Peek(), "Expect expression.");
      return Failed("Expect expression."), close;
    }

    /**
     * The one-token primaries of `primary`: `false`, `true` and `nil` as
     * their constants, a number or a string as the value its token carries.
     */
    method Atom() returns (found: bool, e: Expr)
      requires Valid()
      modifies this`current
      ensures Valid()
      ensures found <==> old(!IsAtEnd()) && tokens[old(current)].kind in {False, True, Nil, Number, String}
      ensures found ==> current == old(current) + 1 && Builds(e, 5, Shapes(tokens), old(current), current)
      ensures !found ==> current == old(current)
    {
      var start := current;
      found := Match([False]);
      if found {
        e := Literal(Bool(false));
        LiteralStep(Shapes(tokens), start, Bool(false));
        return;
      }
      found := Match([True]);
      if found {
        e := Literal(Bool(true));
        LiteralStep(Shapes(tokens), start, Bool(true));
        return;
      }
      found := Match([Nil]);
      if found {
        e := Literal(Null);
        LiteralStep(Shapes(tokens), start, Null);
        return;
      }
      found := Match([Number, String]);
      e := Literal(Null);
      if found {
        var token := Previous();
        e := Literal(token.literal);
        LiteralStep(Shapes(tokens), start, token.literal);
      }
    }

    /**
     * The rest of a group once its `(` is read: an expression, then the
     * closing `)`, found at `close`. An inner expression spanning up to a
     * `)` at `stop` parses as the group's content.
     */
    method Group(ghost goal: Expr, ghost stop: nat) returns (r: ParseResult, ghost close: int)
      requires Valid() && 0 < current && tokens[current - 1].kind == LeftParen
      modifies this, reporter
      decreases |tokens| - current, 15
      ensures Valid() && old(current) <= current && Reported(r, old(reporter.diagnostics))
      ensures r.Parsed? ==> Produced(r.expr, old(current) - 1, 5) && r.expr.Grouping?
      ensures close >= 0 ==>
                old(current) < close < |tokens| && !Continues(0, tokens[close].kind)
                && if tokens[close].kind == RightParen then r.Parsed? && current == close + 1
                   else r == Failed("Expect ')' after expression.") && current == close
      ensures r.Parsed? ==> close >= 0
      ensures old(Spans(tokens, goal, 0, current, stop)) && tokens[stop].kind == RightParen ==>
                r.Parsed? && current == stop + 1
    {
      close := -1;
      var inner := Expression(goal, stop);
      if inner.Failed? {
        return inner, close;
      }
      close := current;
      var closed := Consume(RightParen, "Expect ')' after expression.");
      if !closed {
        return Failed("Expect ')' after expression."), close;
      }
      GroupStep(Shapes(tokens), old(current) - 1, close, inner.expr);
      return Parsed(Grouping(inner.expr)), close;
    }

    /** `match` with the operator kinds of a binary level. */
    method MatchLevel(level: nat) returns (matched: bool)
      requires Valid() && level <= 3
      modifies this`current
      ensures Valid()
      ensures matched <==> old(!IsAtEnd() && IsLevelOperator(level, tokens[current].kind))
      ensures current == if matched then old(current) + 1 else old(current)
    {
      matched := Match(LevelOperators(level));
    }

    /** Advances over the current token when it has one of `kinds`, in order of `kinds`. */
    method Match(kinds: seq<TokenType>) returns (matched: bool)
      requires Valid()
      modifies this`current
      ensures Valid()
      ensures matched <==> old(!IsAtEnd() && tokens[current].kind in kinds)
      ensures current == if matched then old(current) + 1 else old(current)
    {
      for i := 0 to |kinds|
        invariant current == old(current)
        invariant forall j :: 0 <= j < i ==> !Check(kinds[j])
      {
        if Check(kinds[i]) {
          Advance();
          return true;
        }
      }
      return false;
    }

    /** Advances over the current token when it has kind `k`; otherwise reports `message` there. */
    method Consume(k: TokenType, message: string) returns (ok: bool)
      requires Valid()
      modifies this`current, reporter
      ensures Valid()
      ensures ok <==> old(Check(k))
      ensures ok ==> current == old(current) + 1 && reporter.diagnostics == old(reporter.diagnostics)
      ensures !ok ==> current == old(current)
                      && reporter.diagnostics == old(reporter.diagnostics) + [ErrorAt(tokens[current], message)]
    {
      if Check(k) {
        Advance();
        return true;
      }
      Error(Peek(), message);
      return false;
    }

    predicate Check(k: TokenType)
      requires Valid()
      reads this
    {
      !IsAtEnd() && tokens[current].kind == k
    }

    /** Moves to the next token unless the cursor is on the end-of-input token. */
    method Advance()
      requires Valid()
      modifies this`current
      ensures Valid()
      ensures current == if old(IsAtEnd()) then old(current) else old(current) + 1
    {
      if !IsAtEnd() {
        current := current + 1;
      }
    }

    predicate IsAtEnd()
      requires Valid()
      reads this
    {
      tokens[current].kind == Eof
    }

    function Peek(): Token
      requires Valid()
      reads this
    {
      tokens[current]
    }

    function Previous(): Token
      requires 0 < current <= |tokens|
      reads this
    {
      tokens[current - 1]
    }

    method Error(token: Token, message: string)
      modifies reporter
      ensures reporter.diagnostics == old(reporter.diagnostics) + [ErrorAt(token, message)]
    {
      reporter.ErrorAtToken(token, message);
    }
  }
}
