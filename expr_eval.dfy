/**
 * The older snapshot's evaluator (src Interpreter.kt): a recursive walk of
 * an expression tree to a value, where a runtime error on an operator
 * token ends the evaluation. Values are the literal values; the host's
 * floating-point operators come in through `Host`.
 */
module ExprEval {
  import opened Tokens
  import opened Reports
  import opened Numbers
  import opened ExprAst

  /** An evaluation ends with a value, or with a runtime error raised at an operator. */
  datatype Outcome = Ok(value: Literal) | Failure(token: Token, message: string)

  const NumberOperand := "Operand must be a number."
  const PlusOperands := "Operands must be two numbers or two strings."

  /** `isTruthy`: nil and false are false; every other value is true. */
  predicate IsTruthy(v: Literal)
  {
    match v
    case Null => false
    case Bool(b) => b
    case _ => true
  }

  /** Exactly nil and false are falsy. */
  lemma FalsyValues(v: Literal)
    ensures !IsTruthy(v) <==> v == Null || v == Bool(false)
  {
  }

  /**
   * `isEqual`: two nils are equal, nil is equal to nothing else, and other
   * values compare by the host's equality, which here is value equality.
   */
  predicate IsEqual(a: Literal, b: Literal)
  {
    if a == Null && b == Null then true
    else if a == Null then false
    else a == b
  }

  /** The nil-aware equality is plain value equality. */
  lemma IsEqualIsEquality(a: Literal, b: Literal)
    ensures IsEqual(a, b) <==> a == b
  {
  }

  predicate IsComparison(k: TokenType)
  {
    k == Greater || k == GreaterEqual || k == Less || k == LessEqual
  }

  /** The operators whose operands must both be numbers: comparisons, `-`, `/` and `*`. */
  predicate NeedsNumbers(k: TokenType)
  {
    IsComparison(k) || k == Minus || k == Slash || k == Star
  }

  /** `visitBinaryExpr` once both operands are values. */
  function BinaryOp(host: Host, op: Token, left: Literal, right: Literal): (r: Outcome)
    ensures NeedsNumbers(op.kind) ==>
              (r.Ok? <==> left.Num? && right.Num?) && (r.Failure? ==> r == Failure(op, NumberOperand))
    ensures IsComparison(op.kind) && r.Ok? ==> r.value.Bool?
    ensures op.kind == Plus ==>
              (r.Ok? <==> (left.Num? && right.Num?) || (left.Str? && right.Str?))
              && (r.Failure? ==> r == Failure(op, PlusOperands))
    ensures op.kind == Plus && left.Str? && right.Str? ==> r == Ok(Str(left.s + right.s))
    ensures op.kind == Plus && left.Num? && right.Num? ==> r == Ok(Num(host.plus(left.n, right.n)))
    ensures IsComparison(op.kind) && r.Ok? ==>
              r.value.b == (if op.kind == Greater then left.n > right.n
                            else if op.kind == GreaterEqual then left.n >= right.n
                            else if op.kind == Less then left.n < right.n
                            else left.n <= right.n)
    ensures op.kind == EqualEqual ==> r == Ok(Bool(left == right))
    ensures op.kind == BangEqual ==> r == Ok(Bool(left != right))
    ensures BinaryLevel(op.kind) < 0 ==> r == Ok(Null)
  {
    if NeedsNumbers(op.kind) && !(left.Num? && right.Num?) then Failure(op, NumberOperand)
    else match op.kind
      case Greater => Ok(Bool(left.n > right.n))
      case GreaterEqual => Ok(Bool(left.n >= right.n))
      case Less => Ok(Bool(left.n < right.n))
      case LessEqual => Ok(Bool(left.n <= right.n))
      case Minus => Ok(Num(host.minus(left.n, right.n)))
      case Plus =>
        if left.Num? && right.Num? then Ok(Num(host.plus(left.n, right.n)))
        else if left.Str? && right.Str? then Ok(Str(left.s + right.s))
        else Failure(op, PlusOperands)
      case Slash => Ok(Num(host.divide(left.n, right.n)))
      case Star => Ok(Num(host.times(left.n, right.n)))
      case BangEqual => Ok(Bool(!IsEqual(left, right)))
      case EqualEqual => Ok(Bool(IsEqual(left, right)))
      case _ => Ok(Null)
  }

  /** `visitUnaryExpr` once the operand is a value. */
  function UnaryOp(op: Token, right: Literal): (r: Outcome)
    ensures op.kind == Bang ==> r == Ok(Bool(!IsTruthy(right)))
    ensures op.kind == Minus ==>
              (r.Ok? <==> right.Num?) && (r.Ok? ==> r.value == Num(-right.n))
              && (r.Failure? ==> r == Failure(op, NumberOperand))
    ensures op.kind != Bang && op.kind != Minus ==> r == Ok(Null)
  {
    match op.kind
    case Bang => Ok(Bool(!IsTruthy(right)))
    case Minus => if right.Num? then Ok(Num(-right.n)) else Failure(op, NumberOperand)
    case _ => Ok(Null)
  }

  /** The operator tokens of a tree: those of its binary and unary nodes. */
  function Operators(e: Expr): set<Token>
  {
    match e
    case Binary(l, op, r) => Operators(l) + {op} + Operators(r)
    case Grouping(x) => Operators(x)
    case Literal(_) => {}
    case Unary(op, r) => {op} + Operators(r)
    case Ternary(c, t, f) => Operators(c) + Operators(t) + Operators(f)
  }

  /**
   * `evaluate`. Both operands of a binary node are evaluated, the left one
   * first, before the operator looks at them; a ternary evaluates its
   * condition and then one branch (the corrected reading of the source's
   * ternary, see `TernaryAsWritten`). A runtime error is always raised at
   * one of the tree's operators, with one of the two operand messages.
   */
  function Evaluate(host: Host, e: Expr): (r: Outcome)
    ensures r.Failure? ==> r.token in Operators(e) && (r.message == NumberOperand || r.message == PlusOperands)
  {
    match e
    case Binary(l, op, rt) =>
      (match Evaluate(host, l)
       case Failure(t, m) => Failure(t, m)
       case Ok(a) =>
         match Evaluate(host, rt)
         case Failure(t, m) => Failure(t, m)
         case Ok(b) => BinaryOp(host, op, a, b))
    case Grouping(x) => Evaluate(host, x)
    case Literal(v) => Ok(v)
    case Unary(op, x) =>
      (match Evaluate(host, x)
       case Failure(t, m) => Failure(t, m)
       case Ok(v) => UnaryOp(op, v))
    case Ternary(c, t, f) =>
      match Evaluate(host, c)
      case Failure(tok, m) => Failure(tok, m)
      case Ok(v) => if IsTruthy(v) then Evaluate(host, t) else Evaluate(host, f)
  }

  /** The left operand's error wins over the right operand's and the operator's. */
  lemma LeftOperandFirst(host: Host, l: Expr, op: Token, r: Expr)
    requires Evaluate(host, l).Failure?
    ensures Evaluate(host, Binary(l, op, r)) == Evaluate(host, l)
  {
  }

  /** The right operand's error wins over the operator's. */
  lemma RightOperandBeforeOperator(host: Host, l: Expr, op: Token, r: Expr)
    requires Evaluate(host, l).Ok? && Evaluate(host, r).Failure?
    ensures Evaluate(host, Binary(l, op, r)) == Evaluate(host, r)
  {
  }

  /** A ternary's result does not depend on the branch its condition does not select. */
  lemma TernaryOneBranch(host: Host, c: Expr, t: Expr, f: Expr, other: Expr)
    requires Evaluate(host, c).Ok?
    ensures IsTruthy(Evaluate(host, c).value) ==>
              Evaluate(host, Ternary(c, t, f)) == Evaluate(host, Ternary(c, t, other)) == Evaluate(host, t)
    ensures !IsTruthy(Evaluate(host, c).value) ==>
              Evaluate(host, Ternary(c, t, f)) == Evaluate(host, Ternary(c, other, f)) == Evaluate(host, f)
  {
  }

  /** Trees built only from number literals and the arithmetic operators. */
  predicate Arithmetical(e: Expr)
  {
    match e
    case Binary(l, op, r) =>
      (op.kind == Plus || op.kind == Minus || op.kind == Star || op.kind == Slash)
      && Arithmetical(l) && Arithmetical(r)
    case Grouping(x) => Arithmetical(x)
    case Literal(v) => v.Num?
    case Unary(op, r) => op.kind == Minus && Arithmetical(r)
    case Ternary(_, _, _) => false
  }

  /** Such a tree always evaluates, to a number. */
  lemma {:induction false} ArithmeticalEvaluates(host: Host, e: Expr)
    requires Arithmetical(e)
    ensures Evaluate(host, e).Ok? && Evaluate(host, e).value.Num?
  {
    match e
    case Binary(l, op, r) =>
      ArithmeticalEvaluates(host, l);
      ArithmeticalEvaluates(host, r);
    case Grouping(x) =>
      ArithmeticalEvaluates(host, x);
    case Literal(_) =>
    case Unary(op, r) =>
      ArithmeticalEvaluates(host, r);
  }

  /** Whether a tree has a ternary node anywhere. */
  predicate HasTernary(e: Expr)
  {
    match e
    case Binary(l, _, r) => HasTernary(l) || HasTernary(r)
    case Grouping(x) => HasTernary(x)
    case Literal(_) => false
    case Unary(_, r) => HasTernary(r)
    case Ternary(_, _, _) => true
  }

  /** The snapshot's parser never builds a ternary: its trees are in normal form. */
  lemma {:induction false} NestedHasNoTernary(e: Expr)
    requires Nested(e)
    ensures !HasTernary(e)
  {
    match e
    case Binary(l, _, r) =>
      NestedHasNoTernary(l);
      NestedHasNoTernary(r);
    case Grouping(x) =>
      NestedHasNoTernary(x);
    case Literal(_) =>
    case Unary(_, r) =>
      NestedHasNoTernary(r);
  }

  /**
   * What `isTruthy` is handed in `visitTernaryExpr`: the source passes it
   * the condition's node itself, not the condition's value.
   */
  datatype Any = Value(v: Literal) | Node(e: Expr)

  /** `isTruthy` on anything: nil and false are false, every other object, a node included, is true. */
  predicate IsTruthyAny(x: Any)
  {
    match x
    case Value(v) => IsTruthy(v)
    case Node(_) => true
  }

  /** `visitTernaryExpr` as written: it tests the condition's node rather than its value. */
  function TernaryAsWritten(host: Host, c: Expr, t: Expr, f: Expr): Outcome
  {
    if IsTruthyAny(Node(c)) then Evaluate(host, t) else Evaluate(host, f)
  }

  /** As written, the ternary never evaluates its condition and always takes the first branch. */
  lemma TernaryAsWrittenTakesFirstBranch(host: Host, c: Expr, t: Expr, f: Expr)
    ensures TernaryAsWritten(host, c, t, f) == Evaluate(host, t)
  {
  }

  /** `false ? 1 : 2` gives 1 as written and 2 as intended. */
  lemma TernaryAsWrittenDiffers(host: Host)
    ensures var c, t, f := Literal(Bool(false)), Literal(Num(1.0)), Literal(Num(2.0));
            TernaryAsWritten(host, c, t, f) == Ok(Num(1.0)) && Evaluate(host, Ternary(c, t, f)) == Ok(Num(2.0))
  {
  }

  /** `stringify`: nil prints as "nil", a number through the host's rendering, anything else as itself. */
  function Stringify(host: Host, v: Literal): (s: string)
    ensures v == Null ==> s == "nil"
    ensures v.Str? ==> s == v.s
    ensures v.Num? ==> s == host.render(v.n)
  {
    match v
    case Null => "nil"
    case Bool(b) => if b then "true" else "false"
    case Num(n) => host.render(n)
    case Str(s) => s
  }
}
