/**
 * The newer interpreter (app Interpreter.kt): a tree walk over statements
 * and expressions that keeps the current frame in `environment` (none at the
 * top level, where `globals` holds the bindings) and looks resolved variables
 * up by distance through `locals`.
 *
 * The source unwinds with exceptions; here every walk returns an `Outcome`.
 * `fuel` bounds how deep calls nest and how many times a loop turns; a walk
 * that runs out of it ends `Exhausted`.
 */
module Interpreting {
  import opened Tokens
  import opened Reports
  import opened Numbers
  import opened Ast
  import opened Runtime

  /** How a statement ends normally: it completed, or a `return` is carrying a value out. */
  datatype Flow = Completed | Returned(value: Value)

  /**
   * How a walk ends: with a result; with a `RuntimeError` raised at a
   * token; `Crashed`, where the host's null assertion (`!!`) fails and an
   * exception the interpreter does not catch escapes; or `Exhausted`.
   */
  datatype Outcome<T> = Ok(value: T) | Threw(token: Token, message: string) | Crashed | Exhausted

  /** An abrupt outcome, passed on unchanged to a walk of another result type. */
  function Propagate<T, U>(o: Outcome<T>): (r: Outcome<U>)
    requires !o.Ok?
    ensures !r.Ok? && (o.Threw? <==> r.Threw?) && (o.Crashed? <==> r.Crashed?)
    ensures o.Threw? ==> r.token == o.token && r.message == o.message
  {
    match o
    case Threw(t, m) => Threw(t, m)
    case Crashed => Crashed
    case Exhausted => Exhausted
  }

  const NumberOperand := "Operand must be a number."
  const NotCallable := "Can only call functions and classes."

  function ArgumentCount(arity: nat, count: nat): string
  {
    "Expected " + NaturalText(arity) + " arguments but got " + NaturalText(count) + "."
  }

  function Undefined(name: Token): string
  {
    "Undefined variable '" + name.lexeme + "'."
  }

  function NotFound(name: Token): string
  {
    "Unable to find variable '" + name.lexeme + "'"
  }

  const NilValue := Plain(Null)

  /** `isTruthy`: exactly nil and false are falsy. */
  function IsTruthy(v: Value): (t: bool)
    ensures !t <==> v == NilValue || v == Plain(Bool(false))
  {
    match v
    case Plain(Null) => false
    case Plain(Bool(b)) => b
    case _ => true
  }

  /** `isEqual`: nil equals only nil, and other values compare as values. */
  function IsEqual(a: Value, b: Value): (r: bool)
    ensures r <==> a == b
  {
    if a == NilValue && b == NilValue then true
    else if a == NilValue then false
    else a == b
  }

  /** A value's `toString`, as a string template shows it. */
  function Show(host: Host, v: Value): string
  {
    match v
    case Plain(Null) => host.nullText
    case Plain(Bool(b)) => if b then "true" else "false"
    case Plain(Num(n)) => host.text(n)
    case Plain(Str(s)) => s
    case Fn(f) => f.ToString()
    case Unit => "kotlin.Unit"
  }

  /** `stringify`: nil prints as "nil", a number without a trailing ".0", anything else as its `toString`. */
  function Stringify(host: Host, v: Value): (s: string)
    ensures v == NilValue ==> s == "nil"
    ensures v.Plain? && v.literal.Num? ==> s == host.render(v.literal.n)
    ensures v.Plain? && v.literal.Bool? ==> s == if v.literal.b then "true" else "false"
    ensures v.Plain? && v.literal.Str? ==> s == v.literal.s
    ensures v.Fn? ==> s == "<fn " + v.f.declaration.name.lexeme + ">"
    ensures v.Unit? ==> s == "kotlin.Unit"
  {
    match v
    case Plain(Null) => "nil"
    case Plain(Num(n)) => host.render(n)
    case _ => Show(host, v)
  }

  predicate IsNumber(v: Value)
  {
    v.Plain? && v.literal.Num?
  }

  predicate IsString(v: Value)
  {
    v.Plain? && v.literal.Str?
  }

  /**
   * `evalPlusOperands`: two strings concatenate, two numbers add, and a
   * string and a number concatenate with the number rounded half up to an
   * integer; any other pair raises an error that shows both operands.
   */
  function PlusOperands(host: Host, op: Token, left: Value, right: Value): (r: Outcome<Value>)
    ensures r.Ok? <==> (IsString(left) || IsNumber(left)) && (IsString(right) || IsNumber(right))
    ensures r.Threw? ==> r == Threw(op, "Invalid operands: " + Show(host, left) + " and " + Show(host, right) + " for '+'")
    ensures IsString(left) && IsString(right) ==> r == Ok(Plain(Str(left.literal.s + right.literal.s)))
    ensures IsNumber(left) && IsNumber(right) ==> r == Ok(Plain(Num(host.plus(left.literal.n, right.literal.n))))
    ensures IsString(left) && IsNumber(right) ==> r == Ok(Plain(Str(left.literal.s + RoundedText(right.literal.n))))
    ensures IsNumber(left) && IsString(right) ==> r == Ok(Plain(Str(RoundedText(left.literal.n) + right.literal.s)))
  {
    match (left, right)
    case (Plain(Str(a)), Plain(Str(b))) => Ok(Plain(Str(a + b)))
    case (Plain(Str(a)), Plain(Num(b))) => Ok(Plain(Str(a + RoundedText(b))))
    case (Plain(Num(a)), Plain(Str(b))) => Ok(Plain(Str(RoundedText(a) + b)))
    case (Plain(Num(a)), Plain(Num(b))) => Ok(Plain(Num(host.plus(a, b))))
    case _ => Threw(op, "Invalid operands: " + Show(host, left) + " and " + Show(host, right) + " for '+'")
  }

  /** The text a string and a number join to ends with the integer nearest the number, read back exactly. */
  lemma MixedPlusRounds(host: Host, op: Token, s: string, n: real)
    ensures var r := PlusOperands(host, op, Plain(Str(s)), Plain(Num(n)));
            r.Ok? && IsString(r.value) && |s| < |r.value.literal.s| && r.value.literal.s[..|s|] == s
            && IntegerValue(r.value.literal.s[|s|..]) == RoundHalfUp(n)
  {
    var t := RoundedText(n);
    assert (s + t)[..|s|] == s && (s + t)[|s|..] == t;
    IntegerTextValue(RoundHalfUp(n));
  }

  predicate IsComparison(k: TokenType)
  {
    k == Greater || k == GreaterEqual || k == Less || k == LessEqual
  }

  predicate NeedsNumbers(k: TokenType)
  {
    IsComparison(k) || k == Minus || k == Slash || k == Star
  }

  /** `evaluateBinaryExpr`, once both operands are values. */
  function BinaryOp(host: Host, op: Token, left: Value, right: Value): (r: Outcome<Value>)
    ensures NeedsNumbers(op.kind) ==>
              (r.Ok? <==> IsNumber(left) && IsNumber(right)) && (r.Threw? ==> r == Threw(op, NumberOperand))
    ensures IsComparison(op.kind) && r.Ok? ==>
              r.value.Plain? && r.value.literal.Bool?
              && r.value.literal.b == (if op.kind == Greater then left.literal.n > right.literal.n
                                       else if op.kind == GreaterEqual then left.literal.n >= right.literal.n
                                       else if op.kind == Less then left.literal.n < right.literal.n
                                       else left.literal.n <= right.literal.n)
    ensures op.kind == Plus ==> r == PlusOperands(host, op, left, right)
    ensures op.kind == EqualEqual ==> r == Ok(Plain(Bool(left == right)))
    ensures op.kind == BangEqual ==> r == Ok(Plain(Bool(left != right)))
    ensures BinaryLevel(op.kind) < 0 ==> r == Ok(NilValue)
  {
    if NeedsNumbers(op.kind) && !(IsNumber(left) && IsNumber(right)) then Threw(op, NumberOperand)
    else match op.kind
      case Greater => Ok(Plain(Bool(left.literal.n > right.literal.n)))
      case GreaterEqual => Ok(Plain(Bool(left.literal.n >= right.literal.n)))
      case Less => Ok(Plain(Bool(left.literal.n < right.literal.n)))
      case LessEqual => Ok(Plain(Bool(left.literal.n <= right.literal.n)))
      case Minus => Ok(Plain(Num(host.minus(left.literal.n, right.literal.n))))
      case Plus => PlusOperands(host, op, left, right)
      case Slash => Ok(Plain(Num(host.divide(left.literal.n, right.literal.n))))
      case Star => Ok(Plain(Num(host.times(left.literal.n, right.literal.n))))
      case BangEqual => Ok(Plain(Bool(!IsEqual(left, right))))
      case EqualEqual => Ok(Plain(Bool(IsEqual(left, right))))
      case _ => Ok(NilValue)
  }

  /** `evaluateUnaryExpr`, once the operand is a value. */
  function UnaryOp(op: Token, right: Value): (r: Outcome<Value>)
    ensures op.kind == Bang ==> r == Ok(Plain(Bool(!IsTruthy(right))))
    ensures op.kind == Minus ==>
              (r.Ok? <==> IsNumber(right)) && (r.Ok? ==> r.value == Plain(Num(-right.literal.n)))
              && (r.Threw? ==> r == Threw(op, NumberOperand))
    ensures op.kind != Bang && op.kind != Minus ==> r == Ok(NilValue)
  {
    match op.kind
    case Bang => Ok(Plain(Bool(!IsTruthy(right))))
    case Minus => if IsNumber(right) then Ok(Plain(Num(-right.literal.n))) else Threw(op, NumberOperand)
    case _ => Ok(NilValue)
  }

  /** Whether a logical operator's left value is its result, so that the right side is not evaluated. */
  predicate ShortCircuits(op: Token, left: Value)
  {
    (op.kind == TokenType.Or && IsTruthy(left)) || (op.kind == TokenType.And && !IsTruthy(left))
  }

  /** `or` stops at a truthy left value and `and` at a falsy one; no other operator stops. */
  lemma ShortCircuitCases(op: Token, left: Value)
    ensures ShortCircuits(op, left) <==>
              (op.kind == TokenType.Or && left != NilValue && left != Plain(Bool(false)))
              || (op.kind == TokenType.And && (left == NilValue || left == Plain(Bool(false))))
  {
  }

  /**
   * The checks `visitCallExpr` makes once the callee and the arguments are
   * values: the callee must be a function, and the argument count its arity.
   */
  function CallTarget(callee: Value, count: nat, paren: Token): (r: Outcome<KixFunction>)
    ensures r.Ok? <==> callee.Fn? && count == callee.f.Arity()
    ensures r.Ok? ==> r.value == callee.f
    ensures !callee.Fn? ==> r == Threw(paren, NotCallable)
    ensures callee.Fn? && count != callee.f.Arity() ==> r == Threw(paren, ArgumentCount(callee.f.Arity(), count))
  {
    if !callee.Fn? then Threw(paren, NotCallable)
    else if count != callee.f.Arity() then Threw(paren, ArgumentCount(callee.f.Arity(), count))
    else Ok(callee.f)
  }

  /** An arity error message names both counts: different counts give different messages. */
  lemma ArgumentCountNamesCounts(a1: nat, c1: nat, a2: nat, c2: nat)
    requires ArgumentCount(a1, c1) == ArgumentCount(a2, c2)
    ensures a1 == a2 && c1 == c2
  {
    var prefix, middle := "Expected ", " arguments but got ";
    var t1, t2 := NaturalText(a1), NaturalText(a2);
    var u1, u2 := NaturalText(c1), NaturalText(c2);
    var rest1, rest2 := middle + (u1 + "."), middle + (u2 + ".");
    assert ArgumentCount(a1, c1) == prefix + (t1 + rest1);
    assert ArgumentCount(a2, c2) == prefix + (t2 + rest2);
    DropPrefix(prefix, t1 + rest1, t2 + rest2);
    DigitRunsAgree(t1, rest1, t2, rest2);
    DropPrefix(middle, u1 + ".", u2 + ".");
    DigitRunsAgree(u1, ".", u2, ".");
    NaturalTextInjective(a1, a2);
    NaturalTextInjective(c1, c2);
  }

  lemma DropPrefix(p: string, x: string, y: string)
    requires p + x == p + y
    ensures x == y
  {
    assert x == (p + x)[|p|..];
    assert y == (p + y)[|p|..];
  }

  /** Where a run of digits is followed by a text that starts with a non-digit, the run is determined. */
  lemma DigitRunsAgree(t1: string, r1: string, t2: string, r2: string)
    requires forall i :: 0 <= i < |t1| ==> IsDigit(t1[i])
    requires forall i :: 0 <= i < |t2| ==> IsDigit(t2[i])
    requires 0 < |r1| && !IsDigit(r1[0]) && 0 < |r2| && !IsDigit(r2[0])
    requires t1 + r1 == t2 + r2
    ensures t1 == t2 && r1 == r2
  {
    if |t1| < |t2| {
      ConcatAt(t1, r1, |t1|);
      assert false;
    } else if |t2| < |t1| {
      ConcatAt(t2, r2, |t2|);
      assert false;
    }
    assert t1 == (t1 + r1)[..|t1|] && t2 == (t2 + r2)[..|t2|];
    assert r1 == (t1 + r1)[|t1|..] && r2 == (t2 + r2)[|t2|..];
  }

  lemma ConcatAt(a: string, b: string, i: nat)
    requires i < |a| + |b|
    ensures (a + b)[i] == if i < |a| then a[i] else b[i - |a|]
  {
  }

  lemma NaturalTextInjective(m: nat, n: nat)
    requires NaturalText(m) == NaturalText(n)
    ensures m == n
  {
    NaturalTextValue(m);
    NaturalTextValue(n);
  }

  /**
   * A derivation records one walk, step by step. Each step names what it
   * walked: an expression, a call's arguments, a statement, or a run of
   * statements together with the bindings of the frame the run starts in.
   * It also records the fuel it had, the outcome it produced, and the walks
   * of its parts, in the order they were made.
   */
  datatype Derivation =
    | ExprStep(e: Expr, fuel: nat, result: Outcome<Value>, premises: seq<Derivation>)
    | ArgsStep(args: seq<Expr>, fuel: nat, values: Outcome<seq<Value>>, premises: seq<Derivation>)
    | StmtStep(s: Stmt, fuel: nat, flow: Outcome<Flow>, premises: seq<Derivation>)
    | RunStep(statements: seq<Stmt>, fuel: nat, entry: map<string, Value>, flow: Outcome<Flow>, premises: seq<Derivation>)

  /** The value of an expression step (none but an expression step has one). */
  function ResultOf(d: Derivation): Outcome<Value>
  {
    if d.ExprStep? then d.result else Crashed
  }

  /** How a statement step or a run ends. */
  function FlowOf(d: Derivation): Outcome<Flow>
  {
    if d.StmtStep? || d.RunStep? then d.flow else Crashed
  }

  /** The outcome of a step's first part; nil for a step without parts. */
  function FirstResult(d: Derivation): Outcome<Value>
  {
    if |d.premises| == 0 then Ok(NilValue) else ResultOf(d.premises[0])
  }

  predicate Evaluates(d: Derivation, e: Expr, fuel: nat)
  {
    d.ExprStep? && d.e == e && d.fuel == fuel
  }

  predicate Executes(d: Derivation, s: Stmt, fuel: nat)
  {
    d.StmtStep? && d.s == s && d.fuel == fuel
  }

  predicate Runs(d: Derivation, statements: seq<Stmt>, fuel: nat)
  {
    d.RunStep? && d.statements == statements && d.fuel == fuel
  }

  /** A statement that only evaluates an expression completes when the expression has a value. */
  function Completes(o: Outcome<Value>): Outcome<Flow>
  {
    if o.Ok? then Ok(Completed) else Propagate(o)
  }

  /** A call's value from its body's flow: the returned value, `Unit` without a `return`. */
  function CallResult(flow: Outcome<Flow>): Outcome<Value>
  {
    if !flow.Ok? then Propagate(flow)
    else if flow.value.Returned? then Ok(flow.value.value)
    else Ok(Unit)
  }

  /** The rule an expression step follows, by the kind of expression. */
  ghost predicate ExprRule(host: Host, e: Expr, fuel: nat, r: Outcome<Value>, ps: seq<Derivation>)
  {
    match e
    case Literal(v) => ps == [] && r == Ok(Plain(v))
    case EmptyExpr => ps == [] && r == Ok(NilValue)
    case Variable(_, name) =>
      ps == [] && (r.Ok? || r == Threw(name, NotFound(name)) || r == Threw(name, Undefined(name)) || r == Crashed)
    case Grouping(x) => |ps| == 1 && Evaluates(ps[0], x, fuel) && r == ResultOf(ps[0])
    case Assign(_, name, x) =>
      |ps| == 1 && Evaluates(ps[0], x, fuel)
      && (if ResultOf(ps[0]).Ok? then r == ResultOf(ps[0]) || r == Threw(name, Undefined(name)) || r == Crashed
          else r == ResultOf(ps[0]))
    case Unary(op, x) =>
      |ps| == 1 && Evaluates(ps[0], x, fuel)
      && r == (if ResultOf(ps[0]).Ok? then UnaryOp(op, ResultOf(ps[0]).value) else ResultOf(ps[0]))
    case Binary(x, op, y) =>
      0 < |ps| && Evaluates(ps[0], x, fuel)
      && if !ResultOf(ps[0]).Ok? then |ps| == 1 && r == ResultOf(ps[0])
         else
           |ps| == 2 && Evaluates(ps[1], y, fuel)
           && r == (if ResultOf(ps[1]).Ok? then BinaryOp(host, op, ResultOf(ps[0]).value, ResultOf(ps[1]).value)
                    else ResultOf(ps[1]))
    case Logical(x, op, y) =>
      0 < |ps| && Evaluates(ps[0], x, fuel)
      && if !ResultOf(ps[0]).Ok? || ShortCircuits(op, ResultOf(ps[0]).value) then |ps| == 1 && r == ResultOf(ps[0])
         else |ps| == 2 && Evaluates(ps[1], y, fuel) && r == ResultOf(ps[1])
    case Ternary(c, x, y) =>
      0 < |ps| && Evaluates(ps[0], c, fuel)
      && if !ResultOf(ps[0]).Ok? then |ps| == 1 && r == ResultOf(ps[0])
         else |ps| == 2 && Evaluates(ps[1], if IsTruthy(ResultOf(ps[0]).value) then x else y, fuel) && r == ResultOf(ps[1])
    case Call(callee, paren, args) => CallRule(callee, paren, args, fuel, r, ps)
  }

  /**
   * A call evaluates the callee, then the arguments. A function taking that
   * many arguments, given fuel, runs its body one fuel lower, starting in
   * a frame that binds the parameters to the arguments.
   */
  ghost predicate CallRule(callee: Expr, paren: Token, args: seq<Expr>, fuel: nat, r: Outcome<Value>, ps: seq<Derivation>)
  {
    0 < |ps| && Evaluates(ps[0], callee, fuel)
    && if !ResultOf(ps[0]).Ok? then |ps| == 1 && r == ResultOf(ps[0])
       else
         1 < |ps| && ps[1].ArgsStep? && ps[1].args == args && ps[1].fuel == fuel
         && if !ps[1].values.Ok? then |ps| == 2 && r == Propagate(ps[1].values)
            else
              var target := CallTarget(ResultOf(ps[0]).value, |ps[1].values.value|, paren);
              if !target.Ok? then |ps| == 2 && r == Propagate(target)
              else if fuel == 0 then |ps| == 2 && r == Exhausted
              else
                |ps| == 3 && Runs(ps[2], target.value.declaration.body, fuel - 1)
                && ps[2].entry == Bindings(target.value.declaration.params, ps[1].values.value)
                && r == CallResult(ps[2].flow)
  }

  /** Arguments are evaluated from left to right up to the first without a value. */
  ghost predicate ArgsRule(args: seq<Expr>, fuel: nat, r: Outcome<seq<Value>>, ps: seq<Derivation>)
  {
    |ps| <= |args|
    && (forall i :: 0 <= i < |ps| ==> Evaluates(ps[i], args[i], fuel))
    && (forall i :: 0 <= i < |ps| - 1 ==> ResultOf(ps[i]).Ok?)
    && if 0 < |ps| && !ResultOf(ps[|ps| - 1]).Ok? then r == Propagate(ResultOf(ps[|ps| - 1]))
       else |ps| == |args| && r.Ok? && |r.value| == |ps| && forall i :: 0 <= i < |ps| ==> ResultOf(ps[i]) == Ok(r.value[i])
  }

  /** The arguments evaluated so far, each derived, with the values they had. */
  ghost predicate ArgsSoFar(host: Host, args: seq<Expr>, fuel: nat, values: seq<Value>, ps: seq<Derivation>)
  {
    |ps| == |values| <= |args|
    && forall k :: 0 <= k < |ps| ==>
         Evaluates(ps[k], args[k], fuel) && Derives(host, ps[k]) && ResultOf(ps[k]) == Ok(values[k])
  }

  lemma ArgsContinue(host: Host, args: seq<Expr>, fuel: nat, values: seq<Value>, ps: seq<Derivation>, v: Value, dv: Derivation)
    requires ArgsSoFar(host, args, fuel, values, ps) && |ps| < |args|
    requires Evaluates(dv, args[|ps|], fuel) && Derives(host, dv) && ResultOf(dv) == Ok(v)
    ensures ArgsSoFar(host, args, fuel, values + [v], ps + [dv])
  {
  }

  /** An argument without a value ends the list with its outcome. */
  lemma ArgsFail(host: Host, args: seq<Expr>, fuel: nat, values: seq<Value>, ps: seq<Derivation>, dv: Derivation)
    requires ArgsSoFar(host, args, fuel, values, ps) && |ps| < |args|
    requires Evaluates(dv, args[|ps|], fuel) && Derives(host, dv) && !ResultOf(dv).Ok?
    ensures Derives(host, ArgsStep(args, fuel, Propagate(ResultOf(dv)), ps + [dv]))
  {
    var qs := ps + [dv];
    assert forall k :: 0 <= k < |ps| ==> qs[k] == ps[k];
    assert ArgsRule(args, fuel, Propagate(ResultOf(dv)), qs);
  }

  lemma ArgsDone(host: Host, args: seq<Expr>, fuel: nat, values: seq<Value>, ps: seq<Derivation>)
    requires ArgsSoFar(host, args, fuel, values, ps) && |ps| == |args|
    ensures Derives(host, ArgsStep(args, fuel, Ok(values), ps))
  {
  }

  /** The rule a statement step follows, by the kind of statement. */
  ghost predicate StmtRule(s: Stmt, fuel: nat, r: Outcome<Flow>, ps: seq<Derivation>)
  {
    match s
    case Block(statements) => |ps| == 1 && Runs(ps[0], statements, fuel) && ps[0].entry == map[] && r == ps[0].flow
    case Expression(x) => |ps| == 1 && Evaluates(ps[0], x, fuel) && r == Completes(ResultOf(ps[0]))
    case Print(x) => |ps| == 1 && Evaluates(ps[0], x, fuel) && r == Completes(ResultOf(ps[0]))
    case Var(_, x) =>
      if x == EmptyExpr then ps == [] && r == Ok(Completed)
      else |ps| == 1 && Evaluates(ps[0], x, fuel) && r == Completes(ResultOf(ps[0]))
    case EmptyStmt => ps == [] && r == Ok(Completed)
    case Function(_, _, _) => ps == [] && r == Ok(Completed)
    case If(c, x, y) =>
      0 < |ps| && Evaluates(ps[0], c, fuel)
      && if !ResultOf(ps[0]).Ok? then |ps| == 1 && r == Propagate(ResultOf(ps[0]))
         else |ps| == 2 && Executes(ps[1], if IsTruthy(ResultOf(ps[0]).value) then x else y, fuel) && r == FlowOf(ps[1])
    case While(c, b) => LoopRule(c, b, fuel, r, ps)
    case Return(_, x) =>
      |ps| == 1 && Evaluates(ps[0], x, fuel)
      && r == (if ResultOf(ps[0]).Ok? then Ok(Returned(ResultOf(ps[0]).value)) else Propagate(ResultOf(ps[0])))
  }

  /**
   * The turns of a loop so far: conditions at the even places and bodies at
   * the odd ones; every condition but the last is truthy and every body but
   * the last completed.
   */
  ghost predicate LoopSteps(c: Expr, b: Stmt, fuel: nat, ps: seq<Derivation>)
  {
    (forall i :: 0 <= i < |ps| && i % 2 == 0 ==> Evaluates(ps[i], c, fuel))
    && (forall i :: 0 <= i < |ps| && i % 2 == 1 ==> Executes(ps[i], b, fuel))
    && (forall i :: 0 <= i < |ps| - 1 && i % 2 == 0 ==> ResultOf(ps[i]).Ok? && IsTruthy(ResultOf(ps[i]).value))
    && (forall i :: 0 <= i < |ps| - 1 && i % 2 == 1 ==> FlowOf(ps[i]) == Ok(Completed))
  }

  /**
   * A loop ends on a condition without a value, on a falsy condition, on a
   * truthy one after `fuel` turns (exhausted), or on a body that does not
   * complete, whose flow is the loop's.
   */
  ghost predicate LoopRule(c: Expr, b: Stmt, fuel: nat, r: Outcome<Flow>, ps: seq<Derivation>)
  {
    0 < |ps| && (|ps| - 1) / 2 <= fuel && LoopSteps(c, b, fuel, ps)
    && var last := ps[|ps| - 1];
       if (|ps| - 1) % 2 == 1 then (|ps| - 1) / 2 < fuel && FlowOf(last) != Ok(Completed) && r == FlowOf(last)
       else if !ResultOf(last).Ok? then r == Propagate(ResultOf(last))
       else if IsTruthy(ResultOf(last).value) then (|ps| - 1) / 2 == fuel && r == Exhausted
       else r == Ok(Completed)
  }

  /** A run executes its statements in order up to the first that does not complete. */
  ghost predicate RunRule(statements: seq<Stmt>, fuel: nat, r: Outcome<Flow>, ps: seq<Derivation>)
  {
    |ps| <= |statements|
    && (forall i :: 0 <= i < |ps| ==> Executes(ps[i], statements[i], fuel))
    && (forall i :: 0 <= i < |ps| - 1 ==> FlowOf(ps[i]) == Ok(Completed))
    && if 0 < |ps| && FlowOf(ps[|ps| - 1]) != Ok(Completed) then r == FlowOf(ps[|ps| - 1])
       else |ps| == |statements| && r == Ok(Completed)
  }

  ghost predicate Rule(host: Host, d: Derivation)
  {
    match d
    case ExprStep(e, fuel, r, ps) => ExprRule(host, e, fuel, r, ps)
    case ArgsStep(args, fuel, r, ps) => ArgsRule(args, fuel, r, ps)
    case StmtStep(s, fuel, r, ps) => StmtRule(s, fuel, r, ps)
    case RunStep(statements, fuel, _, r, ps) => RunRule(statements, fuel, r, ps)
  }

  /** Every step of the derivation follows its rule. */
  ghost predicate Derives(host: Host, d: Derivation)
  {
    Rule(host, d) && forall i :: 0 <= i < |d.premises| ==> Derives(host, d.premises[i])
  }

  /** An expression without variables, assignments or calls: its value needs no frame. */
  predicate Constant(e: Expr)
  {
    match e
    case Literal(_) => true
    case EmptyExpr => true
    case Grouping(x) => Constant(x)
    case Unary(_, x) => Constant(x)
    case Binary(x, _, y) => Constant(x) && Constant(y)
    case Logical(x, _, y) => Constant(x) && Constant(y)
    case Ternary(c, x, y) => Constant(c) && Constant(x) && Constant(y)
    case _ => false
  }

  /** The value of a constant expression, by direct recursion over it. */
  function ConstantValue(host: Host, e: Expr): Outcome<Value>
    requires Constant(e)
  {
    match e
    case Literal(v) => Ok(Plain(v))
    case EmptyExpr => Ok(NilValue)
    case Grouping(x) => ConstantValue(host, x)
    case Unary(op, x) =>
      var a := ConstantValue(host, x);
      if a.Ok? then UnaryOp(op, a.value) else a
    case Binary(x, op, y) =>
      var a := ConstantValue(host, x);
      if !a.Ok? then a
      else
        var b := ConstantValue(host, y);
        if b.Ok? then BinaryOp(host, op, a.value, b.value) else b
    case Logical(x, op, y) =>
      var a := ConstantValue(host, x);
      if !a.Ok? || ShortCircuits(op, a.value) then a else ConstantValue(host, y)
    case Ternary(c, x, y) =>
      var a := ConstantValue(host, c);
      if !a.Ok? then a else if IsTruthy(a.value) then ConstantValue(host, x) else ConstantValue(host, y)
  }

  /**
   * Any walk of a constant expression, at any fuel and in any state, ends
   * with its value: the walk's rules agree with the direct definition.
   */
  lemma {:induction false} ConstantWalk(host: Host, d: Derivation)
    requires Derives(host, d) && d.ExprStep? && Constant(d.e)
    ensures d.result == ConstantValue(host, d.e)
  {
    var ps := d.premises;
    match d.e
    case Literal(_) =>
    case EmptyExpr =>
    case Grouping(_) => ConstantWalk(host, ps[0]);
    case Unary(_, _) => ConstantWalk(host, ps[0]);
    case Binary(_, _, _) =>
      ConstantWalk(host, ps[0]);
      if 1 < |ps| {
        ConstantWalk(host, ps[1]);
      }
    case Logical(_, _, _) =>
      ConstantWalk(host, ps[0]);
      if 1 < |ps| {
        ConstantWalk(host, ps[1]);
      }
    case Ternary(_, _, _) =>
      ConstantWalk(host, ps[0]);
      if 1 < |ps| {
        ConstantWalk(host, ps[1]);
      }
  }

  /** A constant expression never runs out of fuel: only calls and loops use it. */
  lemma {:induction false} ConstantNeverExhausts(host: Host, e: Expr)
    requires Constant(e)
    ensures ConstantValue(host, e) != Exhausted && ConstantValue(host, e) != Crashed
  {
    match e
    case Literal(_) =>
    case EmptyExpr =>
    case Grouping(x) => ConstantNeverExhausts(host, x);
    case Unary(_, x) => ConstantNeverExhausts(host, x);
    case Binary(x, _, y) => ConstantNeverExhausts(host, x); ConstantNeverExhausts(host, y);
    case Logical(x, _, y) => ConstantNeverExhausts(host, x); ConstantNeverExhausts(host, y);
    case Ternary(c, x, y) =>
      ConstantNeverExhausts(host, c); ConstantNeverExhausts(host, x); ConstantNeverExhausts(host, y);
  }

  /**
   * A run so far: each statement walked is derived, all but the last
   * completed, and `r` is how the last one ended.
   */
  ghost predicate RunSoFar(host: Host, statements: seq<Stmt>, fuel: nat, r: Outcome<Flow>, ps: seq<Derivation>)
  {
    |ps| <= |statements|
    && (forall k :: 0 <= k < |ps| ==> Executes(ps[k], statements[k], fuel) && Derives(host, ps[k]))
    && (forall k :: 0 <= k < |ps| - 1 ==> FlowOf(ps[k]) == Ok(Completed))
    && r == if |ps| == 0 then Ok(Completed) else FlowOf(ps[|ps| - 1])
  }

  lemma RunContinues(host: Host, statements: seq<Stmt>, fuel: nat, ps: seq<Derivation>, step: Derivation)
    requires RunSoFar(host, statements, fuel, Ok(Completed), ps) && |ps| < |statements|
    requires Executes(step, statements[|ps|], fuel) && Derives(host, step)
    ensures RunSoFar(host, statements, fuel, FlowOf(step), ps + [step])
  {
  }

  /** A run that stopped, or walked every statement, is a derivation. */
  lemma RunDerives(host: Host, statements: seq<Stmt>, fuel: nat, entry: map<string, Value>, r: Outcome<Flow>, ps: seq<Derivation>)
    requires RunSoFar(host, statements, fuel, r, ps)
    requires r == Ok(Completed) ==> |ps| == |statements|
    ensures Derives(host, RunStep(statements, fuel, entry, r, ps))
  {
  }

  /**
   * A loop after `turns` turns: its steps are derived and in order, and the
   * latest condition, the one at place `2 * turns`, had outcome `c`.
   */
  ghost predicate LoopSoFar(host: Host, s: Stmt, fuel: nat, turns: nat, c: Outcome<Value>, ps: seq<Derivation>)
    requires s.While?
  {
    turns <= fuel && |ps| == 2 * turns + 1 && ResultOf(ps[2 * turns]) == c
    && LoopSteps(s.condition, s.loopBody, fuel, ps)
    && forall k :: 0 <= k < |ps| ==> Derives(host, ps[k])
  }

  lemma LoopStarts(host: Host, s: Stmt, fuel: nat, dc: Derivation)
    requires s.While? && Evaluates(dc, s.condition, fuel) && Derives(host, dc)
    ensures LoopSoFar(host, s, fuel, 0, ResultOf(dc), [dc])
  {
  }

  /** One more step after a truthy condition or a completed body keeps the steps in order. */
  lemma StepAdded(c: Expr, b: Stmt, fuel: nat, ps: seq<Derivation>, next: Derivation)
    requires LoopSteps(c, b, fuel, ps) && 0 < |ps|
    requires |ps| % 2 == 0 ==> Evaluates(next, c, fuel)
    requires |ps| % 2 == 1 ==> Executes(next, b, fuel)
    requires (|ps| - 1) % 2 == 0 ==> ResultOf(ps[|ps| - 1]).Ok? && IsTruthy(ResultOf(ps[|ps| - 1]).value)
    requires (|ps| - 1) % 2 == 1 ==> FlowOf(ps[|ps| - 1]) == Ok(Completed)
    ensures LoopSteps(c, b, fuel, ps + [next])
  {
    var qs := ps + [next];
    forall k | 0 <= k < |qs| && k % 2 == 0
      ensures Evaluates(qs[k], c, fuel)
    {
      if k < |ps| {
        assert qs[k] == ps[k];
      }
    }
    forall k | 0 <= k < |qs| && k % 2 == 1
      ensures Executes(qs[k], b, fuel)
    {
      if k < |ps| {
        assert qs[k] == ps[k];
      }
    }
    forall k | 0 <= k < |qs| - 1 && k % 2 == 0
      ensures ResultOf(qs[k]).Ok? && IsTruthy(ResultOf(qs[k]).value)
    {
      assert qs[k] == ps[k];
    }
    forall k | 0 <= k < |qs| - 1 && k % 2 == 1
      ensures FlowOf(qs[k]) == Ok(Completed)
    {
      assert qs[k] == ps[k];
    }
  }

  lemma AllDerive(host: Host, ps: seq<Derivation>, next: Derivation)
    requires forall k :: 0 <= k < |ps| ==> Derives(host, ps[k])
    requires Derives(host, next)
    ensures forall k :: 0 <= k < |ps + [next]| ==> Derives(host, (ps + [next])[k])
  {
  }

  /** A completed body and the next condition make one more turn. */
  lemma LoopTurns(host: Host, s: Stmt, fuel: nat, turns: nat, c: Outcome<Value>, ps: seq<Derivation>, db: Derivation, dn: Derivation)
    requires s.While? && LoopSoFar(host, s, fuel, turns, c, ps) && turns < fuel
    requires c.Ok? && IsTruthy(c.value)
    requires Executes(db, s.loopBody, fuel) && Derives(host, db) && FlowOf(db) == Ok(Completed)
    requires Evaluates(dn, s.condition, fuel) && Derives(host, dn)
    ensures LoopSoFar(host, s, fuel, turns + 1, ResultOf(dn), ps + [db, dn])
  {
    var n := 2 * turns + 1;
    assert n % 2 == 1 && (n - 1) % 2 == 0;
    StepAdded(s.condition, s.loopBody, fuel, ps, db);
    AllDerive(host, ps, db);
    var qs := ps + [db];
    assert |qs| % 2 == 0 && qs[|qs| - 1] == db;
    StepAdded(s.condition, s.loopBody, fuel, qs, dn);
    AllDerive(host, qs, dn);
    assert ps + [db, dn] == qs + [dn];
  }

  /** A truthy condition after `fuel` turns ends the loop exhausted. */
  lemma LoopExhausts(host: Host, s: Stmt, fuel: nat, c: Outcome<Value>, ps: seq<Derivation>)
    requires s.While? && LoopSoFar(host, s, fuel, fuel, c, ps) && c.Ok? && IsTruthy(c.value)
    ensures Derives(host, StmtStep(s, fuel, Exhausted, ps))
  {
  }

  /** A body that does not complete ends the loop with its flow. */
  lemma LoopLeaves(host: Host, s: Stmt, fuel: nat, turns: nat, c: Outcome<Value>, ps: seq<Derivation>, db: Derivation)
    requires s.While? && LoopSoFar(host, s, fuel, turns, c, ps) && turns < fuel
    requires c.Ok? && IsTruthy(c.value)
    requires Executes(db, s.loopBody, fuel) && Derives(host, db) && FlowOf(db) != Ok(Completed)
    ensures Derives(host, StmtStep(s, fuel, FlowOf(db), ps + [db]))
  {
    var n := 2 * turns + 1;
    assert n % 2 == 1 && (n - 1) % 2 == 0;
    StepAdded(s.condition, s.loopBody, fuel, ps, db);
    AllDerive(host, ps, db);
    var qs := ps + [db];
    assert |qs| - 1 == n && qs[n] == db && (|qs| - 1) / 2 == turns;
    assert LoopRule(s.condition, s.loopBody, fuel, FlowOf(db), qs);
  }

  /** A condition without a value, or a falsy one, ends the loop. */
  lemma LoopEnds(host: Host, s: Stmt, fuel: nat, turns: nat, c: Outcome<Value>, ps: seq<Derivation>)
    requires s.While? && LoopSoFar(host, s, fuel, turns, c, ps) && !(c.Ok? && IsTruthy(c.value))
    ensures Derives(host, StmtStep(s, fuel, if c.Ok? then Ok(Completed) else Propagate(c), ps))
  {
  }

  class Interpreter {
    const host: Host
    const reporter: Reporter
    /** The current frame; none at the top level. */
    var environment: Environment?
    var globals: map<string, Value>
    /** The resolver's distances, keyed by the id of a `Variable` or `Assign` node. */
    var locals: map<nat, nat>
    /** The lines the print statement writes to standard output. */
    var output: seq<string>
    /** Every frame this interpreter has made. */
    ghost var frames: set<Environment>

    /** A function value's closure is one of this interpreter's frames. */
    ghost predicate Closed(v: Value)
      reads this
    {
      v.Fn? && v.f.closure != null ==> v.f.closure in frames
    }

    ghost predicate ClosedFlow(r: Outcome<Flow>)
      reads this
    {
      r.Ok? && r.value.Returned? ==> Closed(r.value.value)
    }

    /**
     * The frames are closed: the current one, every frame's parent and every
     * closure held by a binding are frames of this interpreter, and each
     * frame's chain of parents ends.
     */
    ghost predicate Valid()
      reads this, frames
    {
      (environment != null ==> environment in frames)
      && (forall e :: e in frames ==> e.Linked() && (e.enclosing != null ==> e.enclosing in frames))
      && (forall name :: name in globals ==> Closed(globals[name]))
      && (forall e, name :: e in frames && name in e.values ==> Closed(e.values[name]))
    }

    /**
     * What every walk keeps: the current frame is the one it started in,
     * the resolved distances do not change, output only grows, and frames
     * are only added, freshly made.
     */
    twostate predicate Evolved()
      reads this
    {
      environment == old(environment) && locals == old(locals) && old(output) <= output
      && old(frames) <= frames && fresh(frames - old(frames))
    }

    constructor (host: Host, reporter: Reporter)
      ensures Valid() && this.host == host && this.reporter == reporter
      ensures environment == null && globals == map[] && locals == map[] && output == [] && frames == {}
    {
      this.host := host;
      this.reporter := reporter;
      environment := null;
      globals := map[];
      locals := map[];
      output := [];
      frames := {};
    }

    lemma {:induction false} ChainInFrames(e: Environment)
      requires Valid() && e in frames
      ensures e.Chain() <= frames
      decreases e.depth
    {
      if e.enclosing != null {
        ChainInFrames(e.enclosing);
      }
    }

    /** The binding `define` writes: the current frame's, or the global one at the top level. */
    ghost function Current(name: string): Option<Value>
      reads this, environment
    {
      if environment == null then (if name in globals then Some(globals[name]) else None)
      else if name in environment.values then Some(environment.values[name]) else None
    }

    /**
     * What a variable read yields: a resolved variable is looked up by
     * distance from the current frame (an error at the top level, a crash
     * where the frame or the name is missing); any other one in `globals`.
     */
    ghost function Resolved(name: Token, id: nat): Outcome<Value>
      requires Valid()
      reads this, frames
    {
      if id in locals then
        if environment == null then Threw(name, NotFound(name))
        else
          ChainInFrames(environment);
          match environment.Binding(locals[id], name.lexeme)
          case Some(v) => Ok(v)
          case None => Crashed
      else if name.lexeme in globals then Ok(globals[name.lexeme])
      else Threw(name, Undefined(name))
    }

    /** `resolve`: the resolver records a variable node's distance. */
    method Resolve(id: nat, distance: nat)
      modifies this`locals
      ensures locals == old(locals)[id := distance]
    {
      locals := locals[id := distance];
    }

    /** `define`: a binding in the current frame, or a global at the top level. */
    method Define(name: Token, value: Value)
      requires Valid() && Closed(value)
      modifies this`globals, environment
      ensures Valid() && Current(name.lexeme) == Some(value)
      ensures environment == null ==> globals == old(globals)[name.lexeme := value]
      ensures environment != null ==>
                globals == old(globals) && environment.values == old(environment.values)[name.lexeme := value]
    {
      if environment != null {
        environment.Define(name.lexeme, value);
      } else {
        globals := globals[name.lexeme := value];
      }
    }

    /** `lookUpVariable`. */
    method LookUpVariable(name: Token, id: nat) returns (r: Outcome<Value>)
      requires Valid()
      ensures r == Resolved(name, id)
      ensures r.Ok? ==> Closed(r.value)
    {
      if id in locals {
        if environment == null {
          r := Threw(name, NotFound(name));
        } else {
          ChainInFrames(environment);
          var found := environment.GetAt(locals[id], name.lexeme);
          r := if found.Some? then Ok(found.value) else Crashed;
        }
      } else if name.lexeme in globals {
        r := Ok(globals[name.lexeme]);
      } else {
        r := Threw(name, Undefined(name));
      }
    }

    /** The bindings `define` writes to: the current frame's, or the globals at the top level. */
    ghost function Scope(): map<string, Value>
      reads this, environment
    {
      if environment == null then globals else environment.values
    }

    /** `evaluate`: the walk of `e` is a derivation of its result. */
    method Evaluate(e: Expr, fuel: nat) returns (r: Outcome<Value>, ghost d: Derivation)
      requires Valid()
      modifies this, frames
      ensures Valid() && Evolved()
      ensures r.Ok? ==> Closed(r.value)
      ensures Derives(host, d) && d == ExprStep(e, fuel, r, d.premises)
      ensures e.Variable? ==> r == Resolved(e.name, e.id)
      decreases fuel, ExprSize(e), 1
    {
      match e
      case Assign(_, _, _) => r, d := VisitAssign(e, fuel);
      case Ternary(_, _, _) => r, d := VisitTernary(e, fuel);
      case Binary(_, _, _) => r, d := VisitBinary(e, fuel);
      case Call(_, _, _) => r, d := VisitCall(e, fuel);
      case Grouping(x) =>
        ghost var dx;
        r, dx := Evaluate(x, fuel);
        d := ExprStep(e, fuel, r, [dx]);
      case Literal(v) =>
        r := Ok(Plain(v));
        d := ExprStep(e, fuel, r, []);
      case Logical(_, _, _) => r, d := VisitLogical(e, fuel);
      case Unary(_, _) => r, d := VisitUnary(e, fuel);
      case Variable(id, name) =>
        r := LookUpVariable(name, id);
        d := ExprStep(e, fuel, r, []);
      case EmptyExpr =>
        r := Ok(NilValue);
        d := ExprStep(e, fuel, r, []);
    }

    /**
     * `visitAssignExpr`: the value is evaluated first. A resolved target is
     * assigned in the frame its distance names (nothing happens at the top
     * level); any other target must already be a global.
     */
    method VisitAssign(e: Expr, fuel: nat) returns (r: Outcome<Value>, ghost d: Derivation)
      requires e.Assign? && Valid()
      modifies this, frames
      ensures Valid() && Evolved()
      ensures r.Ok? ==> Closed(r.value)
      ensures Derives(host, d) && d == ExprStep(e, fuel, r, d.premises)
      ensures r.Ok? && e.id !in locals ==> e.name.lexeme in globals && globals[e.name.lexeme] == r.value
      ensures r.Ok? && e.id in locals && environment != null ==>
                environment.Binding(locals[e.id], e.name.lexeme) == Some(r.value)
      ensures FirstResult(d).Ok? && r.Threw? ==> e.id !in locals && e.name.lexeme !in globals
      ensures FirstResult(d).Ok? && r.Crashed? ==>
                e.id in locals && environment != null && environment.AncestorAt(locals[e.id]) == null
      decreases fuel, ExprSize(e), 0
    {
      var v, dv := Evaluate(e.newValue, fuel);
      d := ExprStep(e, fuel, v, [dv]);
      if !v.Ok? {
        return v, d;
      }
      if e.id in locals {
        if environment != null {
          ChainInFrames(environment);
          var found := environment.AssignAt(locals[e.id], e.name, v.value);
          if !found {
            return Crashed, ExprStep(e, fuel, Crashed, [dv]);
          }
        }
        r := v;
      } else if e.name.lexeme in globals {
        globals := globals[e.name.lexeme := v.value];
        r := v;
      } else {
        r := Threw(e.name, Undefined(e.name));
        d := ExprStep(e, fuel, r, [dv]);
      }
    }

    /** `visitTernaryExpr`: the condition, then exactly the branch it selects. */
    method VisitTernary(e: Expr, fuel: nat) returns (r: Outcome<Value>, ghost d: Derivation)
      requires e.Ternary? && Valid()
      modifies this, frames
      ensures Valid() && Evolved()
      ensures r.Ok? ==> Closed(r.value)
      ensures Derives(host, d) && d == ExprStep(e, fuel, r, d.premises)
      decreases fuel, ExprSize(e), 0
    {
      var c, dc := Evaluate(e.condition, fuel);
      if !c.Ok? {
        return c, ExprStep(e, fuel, c, [dc]);
      }
      ghost var db;
      if IsTruthy(c.value) {
        r, db := Evaluate(e.expTrue, fuel);
      } else {
        r, db := Evaluate(e.expFalse, fuel);
      }
      d := ExprStep(e, fuel, r, [dc, db]);
    }

    /** `visitBinaryExpr`: the left operand, then the right one, then the operator. */
    method VisitBinary(e: Expr, fuel: nat) returns (r: Outcome<Value>, ghost d: Derivation)
      requires e.Binary? && Valid()
      modifies this, frames
      ensures Valid() && Evolved()
      ensures r.Ok? ==> Closed(r.value)
      ensures Derives(host, d) && d == ExprStep(e, fuel, r, d.premises)
      decreases fuel, ExprSize(e), 0
    {
      var a, da := Evaluate(e.left, fuel);
      if !a.Ok? {
        return a, ExprStep(e, fuel, a, [da]);
      }
      var b, db := Evaluate(e.right, fuel);
      r := if b.Ok? then BinaryOp(host, e.operator, a.value, b.value) else b;
      d := ExprStep(e, fuel, r, [da, db]);
    }

    /**
     * `visitCallExpr`: the callee, then the arguments from left to right;
     * then the callee must be a function taking that many arguments, whose
     * call gives the value.
     */
    method VisitCall(e: Expr, fuel: nat) returns (r: Outcome<Value>, ghost d: Derivation)
      requires e.Call? && Valid()
      modifies this, frames
      ensures Valid() && Evolved()
      ensures r.Ok? ==> Closed(r.value)
      ensures Derives(host, d) && d == ExprStep(e, fuel, r, d.premises)
      decreases fuel, ExprSize(e), 0
    {
      var c, dc := Evaluate(e.callee, fuel);
      if !c.Ok? {
        return c, ExprStep(e, fuel, c, [dc]);
      }
      var values, dargs := EvaluateArguments(e.arguments, fuel);
      if !values.Ok? {
        r := Propagate(values);
        return r, ExprStep(e, fuel, r, [dc, dargs]);
      }
      var target := CallTarget(c.value, |values.value|, e.paren);
      if !target.Ok? {
        r := Propagate(target);
        return r, ExprStep(e, fuel, r, [dc, dargs]);
      }
      ghost var frame, body;
      r, frame, body := CallFunction(target.value, values.value, fuel);
      assert values.value[..target.value.Arity()] == values.value;
      d := ExprStep(e, fuel, r, if fuel == 0 then [dc, dargs] else [dc, dargs, body]);
    }

    /** The arguments of a call, from left to right, up to the first that does not evaluate. */
    method EvaluateArguments(args: seq<Expr>, fuel: nat) returns (r: Outcome<seq<Value>>, ghost d: Derivation)
      requires Valid()
      modifies this, frames
      ensures Valid() && Evolved()
      ensures r.Ok? ==> forall i :: 0 <= i < |r.value| ==> Closed(r.value[i])
      ensures Derives(host, d) && d == ArgsStep(args, fuel, r, d.premises)
      decreases fuel, ExprsSize(args), 2
    {
      var values := [];
      ghost var ps: seq<Derivation> := [];
      var i := 0;
      while i < |args|
        invariant 0 <= i <= |args| && |values| == i && |ps| == i
        invariant Valid() && Evolved()
        invariant forall k :: 0 <= k < i ==> Closed(values[k])
        invariant ArgsSoFar(host, args, fuel, values, ps)
      {
        ExprsSizeMember(args, i);
        var v, dv := Evaluate(args[i], fuel);
        if !v.Ok? {
          ArgsFail(host, args, fuel, values, ps, dv);
          r := Propagate(v);
          return r, ArgsStep(args, fuel, r, ps + [dv]);
        }
        ArgsContinue(host, args, fuel, values, ps, v.value, dv);
        values := values + [v.value];
        ps := ps + [dv];
        i := i + 1;
      }
      ArgsDone(host, args, fuel, values, ps);
      r := Ok(values);
      d := ArgsStep(args, fuel, r, ps);
    }

    /**
     * `KixFunction.call`: the body runs as a block in a fresh frame whose
     * parent is the function's closure, not the caller's frame, and which
     * binds the parameters to the arguments; a `return` in it gives the
     * call's value, finishing without one gives `Unit`, and any other end
     * is passed on.
     */
    method CallFunction(f: KixFunction, args: seq<Value>, fuel: nat)
      returns (r: Outcome<Value>, ghost frame: Environment?, ghost body: Derivation)
      requires Valid() && Closed(Fn(f)) && (forall i :: 0 <= i < |args| ==> Closed(args[i]))
      requires f.Arity() <= |args|
      modifies this, frames
      ensures Valid() && Evolved()
      ensures r.Ok? ==> Closed(r.value)
      ensures fuel == 0 <==> r == Exhausted && frame == null
      ensures frame != null ==> fresh(frame) && frame in frames && frame.enclosing == f.closure
      ensures 0 < fuel ==>
                Derives(host, body) && Runs(body, f.declaration.body, fuel - 1)
                && body.entry == Bindings(f.declaration.params, args[..f.Arity()]) && r == CallResult(body.flow)
      ensures 0 < fuel && body.flow == Ok(Completed) ==> r == Ok(Unit)
      ensures 0 < fuel && body.flow.Ok? && body.flow.value.Returned? ==> r == Ok(body.flow.value.value)
      ensures 0 < fuel && !body.flow.Ok? ==> r == Propagate(body.flow)
      decreases fuel, 0, 0
    {
      if fuel == 0 {
        return Exhausted, null, RunStep(f.declaration.body, 0, map[], Exhausted, []);
      }
      var callFrame := f.Bind(args);
      frame := callFrame;
      BindingsFrom(f.declaration.params, args[..f.Arity()]);
      frames := frames + {callFrame};
      var flow;
      flow, body := ExecuteBlock(f.declaration.body, callFrame, fuel - 1);
      match flow
      case Ok(Returned(v)) => r := Ok(v);
      case Ok(Completed) => r := Ok(Unit);
      case _ => r := Propagate(flow);
    }

    /**
     * `executeBlock`: the statements run in `frame` up to the first that
     * does not complete, and the previous frame is current again on every
     * way out.
     */
    method ExecuteBlock(statements: seq<Stmt>, frame: Environment, fuel: nat) returns (r: Outcome<Flow>, ghost d: Derivation)
      requires Valid() && frame in frames
      modifies this, frames
      ensures Valid() && Evolved() && ClosedFlow(r)
      ensures Derives(host, d) && d == RunStep(statements, fuel, old(frame.values), r, d.premises)
      decreases fuel, StmtsSize(statements), 2
    {
      ghost var entry := frame.values;
      var previous := environment;
      environment := frame;
      r := Ok(Completed);
      ghost var ps: seq<Derivation> := [];
      var i := 0;
      while i < |statements| && r == Ok(Completed)
        invariant i <= |statements| && |ps| == i && Valid() && ClosedFlow(r)
        invariant environment == frame && previous == old(environment)
        invariant locals == old(locals) && old(output) <= output
        invariant old(frames) <= frames && fresh(frames - old(frames))
        invariant RunSoFar(host, statements, fuel, r, ps)
      {
        StmtsSizeMember(statements, i);
        ghost var step;
        r, step := Execute(statements[i], fuel);
        RunContinues(host, statements, fuel, ps, step);
        ps := ps + [step];
        i := i + 1;
      }
      RunDerives(host, statements, fuel, entry, r, ps);
      d := RunStep(statements, fuel, entry, r, ps);
      environment := previous;
    }

    /** `execute`: the walk of `s` is a derivation of how it ends. */
    method Execute(s: Stmt, fuel: nat) returns (r: Outcome<Flow>, ghost d: Derivation)
      requires Valid()
      modifies this, frames
      ensures Valid() && Evolved() && ClosedFlow(r)
      ensures Derives(host, d) && d == StmtStep(s, fuel, r, d.premises)
      ensures s.Var? && s.initializer == EmptyExpr ==> Current(s.name.lexeme) == Some(NilValue)
      ensures s.Function? ==>
                Current(s.name.lexeme).Some? && Current(s.name.lexeme).value.Fn?
                && Current(s.name.lexeme).value.f.declaration == s && Current(s.name.lexeme).value.f.closure == environment
      decreases fuel, StmtSize(s), 1
    {
      match s
      case Block(_) => r, d := VisitBlock(s, fuel);
      case Expression(x) =>
        var v, dv := Evaluate(x, fuel);
        r := Completes(v);
        d := StmtStep(s, fuel, r, [dv]);
      case Print(_) => r, d := VisitPrint(s, fuel);
      case Var(_, _) => r, d := VisitVar(s, fuel);
      case EmptyStmt =>
        r := Ok(Completed);
        d := StmtStep(s, fuel, r, []);
      case Function(_, _, _) => r, d := VisitFunction(s, fuel);
      case If(_, _, _) => r, d := VisitIf(s, fuel);
      case While(_, _) => r, d := VisitWhile(s, fuel);
      case Return(_, _) => r, d := VisitReturn(s, fuel);
    }

    /** `visitBlockStmt`: the statements run in a fresh frame whose parent is the current one. */
    method VisitBlock(s: Stmt, fuel: nat) returns (r: Outcome<Flow>, ghost d: Derivation)
      requires s.Block? && Valid()
      modifies this, frames
      ensures Valid() && Evolved() && ClosedFlow(r)
      ensures Derives(host, d) && d == StmtStep(s, fuel, r, d.premises)
      decreases fuel, StmtSize(s), 0
    {
      var frame := new Environment(environment);
      frames := frames + {frame};
      ghost var run;
      r, run := ExecuteBlock(s.statements, frame, fuel);
      d := StmtStep(s, fuel, r, [run]);
    }

    /** `visitFunctionStmt`: a function value closing over the current frame is defined under the name. */
    method VisitFunction(s: Stmt, fuel: nat) returns (r: Outcome<Flow>, ghost d: Derivation)
      requires s.Function? && Valid()
      modifies this, frames
      ensures Valid() && Evolved() && ClosedFlow(r)
      ensures Derives(host, d) && d == StmtStep(s, fuel, r, d.premises)
      ensures Current(s.name.lexeme).Some? && Current(s.name.lexeme).value.Fn?
              && Current(s.name.lexeme).value.f.declaration == s && Current(s.name.lexeme).value.f.closure == environment
    {
      var f := new KixFunction(s, environment);
      Define(s.name, Fn(f));
      r := Ok(Completed);
      d := StmtStep(s, fuel, r, []);
    }

    /** `visitReturnStmt`: the value is carried out of the enclosing call. */
    method VisitReturn(s: Stmt, fuel: nat) returns (r: Outcome<Flow>, ghost d: Derivation)
      requires s.Return? && Valid()
      modifies this, frames
      ensures Valid() && Evolved() && ClosedFlow(r)
      ensures Derives(host, d) && d == StmtStep(s, fuel, r, d.premises)
      decreases fuel, StmtSize(s), 0
    {
      var v, dv := Evaluate(s.value, fuel);
      r := if v.Ok? then Ok(Returned(v.value)) else Propagate(v);
      d := StmtStep(s, fuel, r, [dv]);
    }

    /** `visitPrintStmt`: the expression's value, stringified, is the next line written. */
    method VisitPrint(s: Stmt, fuel: nat) returns (r: Outcome<Flow>, ghost d: Derivation)
      requires s.Print? && Valid()
      modifies this, frames
      ensures Valid() && Evolved() && ClosedFlow(r)
      ensures Derives(host, d) && d == StmtStep(s, fuel, r, d.premises)
      ensures FirstResult(d).Ok? ==> 0 < |output| && output[|output| - 1] == Stringify(host, FirstResult(d).value)
      decreases fuel, StmtSize(s), 0
    {
      var v, dv := Evaluate(s.expression, fuel);
      r := Completes(v);
      d := StmtStep(s, fuel, r, [dv]);
      if v.Ok? {
        output := output + [Stringify(host, v.value)];
      }
    }

    /** `visitVarStmt`: the initializer's value, or nil without one, is defined under the name. */
    method VisitVar(s: Stmt, fuel: nat) returns (r: Outcome<Flow>, ghost d: Derivation)
      requires s.Var? && Valid()
      modifies this, frames
      ensures Valid() && Evolved() && ClosedFlow(r)
      ensures Derives(host, d) && d == StmtStep(s, fuel, r, d.premises)
      ensures FirstResult(d).Ok? ==> Current(s.name.lexeme) == Some(FirstResult(d).value)
      decreases fuel, StmtSize(s), 0
    {
      var v := Ok(NilValue);
      d := StmtStep(s, fuel, Ok(Completed), []);
      if s.initializer != EmptyExpr {
        ghost var dv;
        v, dv := Evaluate(s.initializer, fuel);
        d := StmtStep(s, fuel, Completes(v), [dv]);
        if !v.Ok? {
          return Propagate(v), d;
        }
      }
      Define(s.name, v.value);
      r := Ok(Completed);
    }

    /** `visitIfStmt`: the condition, then exactly the branch it selects. */
    method VisitIf(s: Stmt, fuel: nat) returns (r: Outcome<Flow>, ghost d: Derivation)
      requires s.If? && Valid()
      modifies this, frames
      ensures Valid() && Evolved() && ClosedFlow(r)
      ensures Derives(host, d) && d == StmtStep(s, fuel, r, d.premises)
      decreases fuel, StmtSize(s), 0
    {
      var c, dc := Evaluate(s.condition, fuel);
      if !c.Ok? {
        r := Propagate(c);
        return r, StmtStep(s, fuel, r, [dc]);
      }
      ghost var db;
      if IsTruthy(c.value) {
        r, db := Execute(s.thenBranch, fuel);
      } else {
        r, db := Execute(s.elseBranch, fuel);
      }
      d := StmtStep(s, fuel, r, [dc, db]);
    }

    /**
     * `visitWhileStmt`: the body runs while the condition is truthy; it ends
     * normally only on a falsy condition, and a `return` in the body leaves
     * the loop. At most `fuel` turns are taken.
     */
    method VisitWhile(s: Stmt, fuel: nat) returns (r: Outcome<Flow>, ghost d: Derivation)
      requires s.While? && Valid()
      modifies this, frames
      ensures Valid() && Evolved() && ClosedFlow(r)
      ensures Derives(host, d) && d == StmtStep(s, fuel, r, d.premises)
      decreases fuel, StmtSize(s), 0
    {
      var turns := 0;
      var c, dc := Evaluate(s.condition, fuel);
      LoopStarts(host, s, fuel, dc);
      ghost var ps := [dc];
      while c.Ok? && IsTruthy(c.value)
        invariant Valid() && Evolved() && LoopSoFar(host, s, fuel, turns, c, ps)
        decreases fuel - turns
      {
        if turns == fuel {
          LoopExhausts(host, s, fuel, c, ps);
          return Exhausted, StmtStep(s, fuel, Exhausted, ps);
        }
        var flow, db := Execute(s.loopBody, fuel);
        if flow != Ok(Completed) {
          LoopLeaves(host, s, fuel, turns, c, ps, db);
          return flow, StmtStep(s, fuel, flow, ps + [db]);
        }
        var next, dn := Evaluate(s.condition, fuel);
        LoopTurns(host, s, fuel, turns, c, ps, db, dn);
        c, ps, turns := next, ps + [db, dn], turns + 1;
      }
      LoopEnds(host, s, fuel, turns, c, ps);
      r := if c.Ok? then Ok(Completed) else Propagate(c);
      d := StmtStep(s, fuel, r, ps);
    }

    /**
     * `visitLogicalExpr`: the left value is the result when it decides the
     * operator, and the right side is then not evaluated; otherwise the
     * result is the right side's.
     */
    method VisitLogical(e: Expr, fuel: nat) returns (r: Outcome<Value>, ghost d: Derivation)
      requires e.Logical? && Valid()
      modifies this, frames
      ensures Valid() && Evolved()
      ensures r.Ok? ==> Closed(r.value)
      ensures Derives(host, d) && d == ExprStep(e, fuel, r, d.premises)
      decreases fuel, ExprSize(e), 0
    {
      var a, da := Evaluate(e.left, fuel);
      if !a.Ok? || ShortCircuits(e.operator, a.value) {
        return a, ExprStep(e, fuel, a, [da]);
      }
      ghost var db;
      r, db := Evaluate(e.right, fuel);
      d := ExprStep(e, fuel, r, [da, db]);
    }

    /** `visitUnaryExpr`: the operand, then the operator. */
    method VisitUnary(e: Expr, fuel: nat) returns (r: Outcome<Value>, ghost d: Derivation)
      requires e.Unary? && Valid()
      modifies this, frames
      ensures Valid() && Evolved()
      ensures r.Ok? ==> Closed(r.value)
      ensures Derives(host, d) && d == ExprStep(e, fuel, r, d.premises)
      decreases fuel, ExprSize(e), 0
    {
      var a, da := Evaluate(e.right, fuel);
      r := if a.Ok? then UnaryOp(e.operator, a.value) else a;
      d := ExprStep(e, fuel, r, [da]);
    }

    /**
     * `interpret`: the statements run in order up to the first that does
     * not complete. A runtime error is reported with its token's line; a
     * `return` at the top level, a crash or exhaustion ends the run
     * unreported, as an exception other than `RuntimeError` would.
     */
    method Interpret(statements: seq<Stmt>, fuel: nat) returns (r: Outcome<Flow>, ghost d: Derivation)
      requires Valid()
      modifies this, frames, reporter
      ensures Valid() && Evolved()
      ensures Derives(host, d) && d == RunStep(statements, fuel, old(Scope()), r, d.premises)
      ensures r.Threw? ==> reporter.diagnostics == old(reporter.diagnostics) + [RuntimeFailure(r.token.line, r.message)]
      ensures !r.Threw? ==> reporter.diagnostics == old(reporter.diagnostics)
    {
      ghost var entry := Scope();
      r := Ok(Completed);
      ghost var ps: seq<Derivation> := [];
      var i := 0;
      while i < |statements| && r == Ok(Completed)
        invariant i <= |statements| && |ps| == i && Valid() && Evolved()
        invariant reporter.diagnostics == old(reporter.diagnostics)
        invariant RunSoFar(host, statements, fuel, r, ps)
      {
        ghost var step;
        r, step := Execute(statements[i], fuel);
        RunContinues(host, statements, fuel, ps, step);
        ps := ps + [step];
        i := i + 1;
      }
      RunDerives(host, statements, fuel, entry, r, ps);
      d := RunStep(statements, fuel, entry, r, ps);
      if r.Threw? {
        reporter.RuntimeError(r.token.line, r.message);
      }
    }
  }
}
