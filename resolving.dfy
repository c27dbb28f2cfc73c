/**
 * The resolver of the newer interpreter (app Resolver.kt): a walk over the
 * statements, before they run, that keeps a stack of block scopes and
 * tells the interpreter, for every local variable use and assignment, how
 * many scopes lie between the use and the scope that declared the name.
 * On the way it reports a `return` outside a function, a variable read in
 * its own initializer, a name declared twice in one scope, and a local
 * variable that is never read.
 */
module Resolving {
  import opened Tokens
  import opened Reports
  import opened Ast
  import opened Runtime
  import opened Interpreting

  /** Whether a scope entry names a function, and whether the walk is inside a function body. */
  datatype FunctionType = NoneKind | FunctionKind

  /** What a scope knows about one name. */
  datatype Info = Info(defined: bool, used: bool, token: Token, functionType: FunctionType)

  /**
   * One scope: a map from names to entries that remembers the order in
   * which names were first put in it (the source's `mutableMapOf`, whose
   * iteration follows insertion order and keeps a name's place when it is
   * put again).
   */
  datatype Scope = Scope(keys: seq<string>, entries: map<string, Info>)

  const EmptyScope := Scope([], map[])

  const ReturnOutside := "Can't return from outside function."
  const OwnInitializer := "Can't read local variable in its own initializer"
  const Redeclared := "Variable with this name already declared in this scope."
  const NeverRead := "Variable defined but not used."

  /** The names of a scope are listed once each, in the order they came in. */
  ghost predicate Ordered(s: Scope)
  {
    (forall i, j :: 0 <= i < j < |s.keys| ==> s.keys[i] != s.keys[j])
    && (forall k :: k in s.entries <==> k in s.keys)
  }

  /** `scope[name] = info`: a new name goes last, a known one keeps its place. */
  function Put(s: Scope, name: string, info: Info): (r: Scope)
    requires Ordered(s)
    ensures Ordered(r)
    ensures name in r.entries && r.entries[name] == info
    ensures forall k :: k != name && k in s.entries ==> k in r.entries && r.entries[k] == s.entries[k]
    ensures s.keys <= r.keys && |r.keys| <= |s.keys| + 1
  {
    if name in s.entries then Scope(s.keys, s.entries[name := info])
    else Scope(s.keys + [name], s.entries[name := info])
  }

  /** The entry for `name` marked as read, in place. */
  function Touch(s: Scope, name: string): (r: Scope)
    requires Ordered(s) && name in s.entries
    ensures Ordered(r) && r.keys == s.keys
    ensures r.entries[name].used && forall k :: k != name && k in s.entries ==> r.entries[k] == s.entries[k]
    ensures Agrees(s, r)
  {
    Scope(s.keys, s.entries[name := s.entries[name].(used := true)])
  }

  /**
   * The stack with the entry for `name`, in the scope `distance` scopes
   * out, marked as read.
   */
  function MarkRead(scopes: seq<Scope>, distance: nat, name: string): (r: seq<Scope>)
    requires distance < |scopes| && name in scopes[|scopes| - 1 - distance].entries
    requires forall i :: 0 <= i < |scopes| ==> Ordered(scopes[i])
    ensures |r| == |scopes| && forall i :: 0 <= i < |r| ==> Ordered(r[i]) && r[i].keys == scopes[i].keys
    ensures name in r[|scopes| - 1 - distance].entries && r[|scopes| - 1 - distance].entries[name].used
    ensures forall i :: 0 <= i < |r| && i != |scopes| - 1 - distance ==> r[i] == scopes[i]
    ensures SameNames(scopes, r)
  {
    var i := |scopes| - 1 - distance;
    SameNamesHere(scopes);
    scopes[i := Touch(scopes[i], name)]
  }

  /** An entry the unused-variable check reports: a variable, not a function, never read. */
  predicate Unused(info: Info)
  {
    info.functionType == NoneKind && !info.used
  }

  /** The warning the unused-variable check gives for an entry. */
  function UnusedWarning(info: Info): Diagnostic
  {
    ErrorAt(info.token, NeverRead)
  }

  /** `checkForUnusedVariables`' reports for the names `keys`, in their order. */
  function UnusedWarnings(keys: seq<string>, entries: map<string, Info>): (ds: seq<Diagnostic>)
    requires forall k :: k in keys ==> k in entries
    ensures |ds| <= |keys|
  {
    if keys == [] then []
    else
      var k := keys[|keys| - 1];
      UnusedWarnings(keys[..|keys| - 1], entries)
        + (if Unused(entries[k]) then [UnusedWarning(entries[k])] else [])
  }

  /** The unused-variable warning covers exactly the unused entries, once per name. */
  lemma {:induction false} UnusedWarningsExactly(keys: seq<string>, entries: map<string, Info>, d: Diagnostic)
    requires forall k :: k in keys ==> k in entries
    ensures d in UnusedWarnings(keys, entries) <==>
              exists k :: k in keys && Unused(entries[k]) && d == UnusedWarning(entries[k])
  {
    if keys != [] {
      var n := |keys| - 1;
      UnusedWarningsExactly(keys[..n], entries, d);
      assert keys == keys[..n] + [keys[n]];
      if exists k :: k in keys && Unused(entries[k]) && d == UnusedWarning(entries[k]) {
        var k :| k in keys && Unused(entries[k]) && d == UnusedWarning(entries[k]);
        if k != keys[n] {
          assert k in keys[..n];
        }
      }
    }
  }

  /**
   * The distance from the innermost scope (the last of `scopes`) to the
   * innermost scope that has `name`, if any has it.
   */
  function Innermost(scopes: seq<Scope>, name: string): (r: Option<nat>)
    ensures r.Some? ==>
              r.value < |scopes| && name in scopes[|scopes| - 1 - r.value].entries
              && forall i :: |scopes| - 1 - r.value < i < |scopes| ==> name !in scopes[i].entries
    ensures r.None? <==> forall i :: 0 <= i < |scopes| ==> name !in scopes[i].entries
  {
    if scopes == [] then None
    else if name in scopes[|scopes| - 1].entries then Some(0)
    else
      match Innermost(scopes[..|scopes| - 1], name)
      case None => None
      case Some(d) => Some(d + 1)
  }

  /** A scope in which `name` is defined. */
  ghost predicate Defines(s: Scope, name: string)
  {
    name in s.entries && s.entries[name].defined
  }

  /** Two entries for one name that differ at most in that the second has since been read. */
  predicate SameEntry(a: Info, b: Info)
  {
    a.defined == b.defined && a.token == b.token && a.functionType == b.functionType && (a.used ==> b.used)
  }

  /** Two scopes with the same names in the same order, whose entries differ only by reads. */
  ghost predicate Agrees(x: Scope, y: Scope)
  {
    x.keys == y.keys && forall k :: k in x.entries ==> k in y.entries && SameEntry(x.entries[k], y.entries[k])
  }

  /** Two scope stacks of the same depth whose scopes agree: only reads happened in between. */
  ghost predicate SameNames(a: seq<Scope>, b: seq<Scope>)
  {
    |a| == |b| && forall i :: 0 <= i < |a| ==> Agrees(a[i], b[i])
  }

  /**
   * A stack `b` grown from `a` by declarations in its innermost scope
   * only: same depth, the outer scopes agree, and the innermost one holds
   * its old names first.
   */
  ghost predicate Extends(a: seq<Scope>, b: seq<Scope>)
  {
    |a| == |b|
    && (forall i :: 0 <= i < |a| - 1 ==> Agrees(a[i], b[i]))
    && (|a| > 0 ==> a[|a| - 1].keys <= b[|b| - 1].keys)
  }

  lemma SameNamesTrans(a: seq<Scope>, b: seq<Scope>, c: seq<Scope>)
    requires SameNames(a, b) && SameNames(b, c)
    ensures SameNames(a, c)
  {
    forall i | 0 <= i < |a|
      ensures Agrees(a[i], c[i])
    {
      assert Agrees(a[i], b[i]) && Agrees(b[i], c[i]);
    }
  }

  lemma ExtendsTrans(a: seq<Scope>, b: seq<Scope>, c: seq<Scope>)
    requires Extends(a, b) && Extends(b, c)
    ensures Extends(a, c)
  {
    forall i | 0 <= i < |a| - 1
      ensures Agrees(a[i], c[i])
    {
      assert Agrees(a[i], b[i]) && Agrees(b[i], c[i]);
    }
  }

  lemma SameNamesExtends(a: seq<Scope>, b: seq<Scope>)
    requires SameNames(a, b)
    ensures Extends(a, b)
  {
    if |a| > 0 {
      assert Agrees(a[|a| - 1], b[|a| - 1]);
    }
  }

  lemma SameNamesHere(a: seq<Scope>)
    ensures SameNames(a, a)
  {
    forall i | 0 <= i < |a|
      ensures Agrees(a[i], a[i])
    {
    }
  }

  /** Popping a scope pushed on `a` and grown since gives back `a` with only reads in between. */
  lemma PopAgrees(a: seq<Scope>, top: Scope, b: seq<Scope>)
    requires Extends(a + [top], b)
    ensures SameNames(a, b[..|a|])
  {
    forall i | 0 <= i < |a|
      ensures Agrees(a[i], b[..|a|][i])
    {
      assert (a + [top])[i] == a[i];
    }
  }

  /** Where a name resolves depends only on which names each scope holds. */
  lemma {:induction false} InnermostSameNames(a: seq<Scope>, b: seq<Scope>, name: string)
    requires SameNames(a, b)
    requires forall i :: 0 <= i < |a| ==> Ordered(a[i]) && Ordered(b[i])
    ensures Innermost(a, name) == Innermost(b, name)
  {
    if a != [] {
      var n := |a| - 1;
      assert name in a[n].entries <==> name in b[n].entries;
      InnermostSameNames(a[..n], b[..n], name);
    }
  }

  /** A name no inner scope holds resolves one scope further out for every scope pushed. */
  lemma {:induction false} InnermostPush(scopes: seq<Scope>, inner: Scope, name: string)
    requires name !in inner.entries
    ensures Innermost(scopes + [inner], name) ==
              match Innermost(scopes, name) case None => None case Some(d) => Some(d + 1)
  {
    assert (scopes + [inner])[..|scopes|] == scopes;
  }

  /**
   * The resolver's state as a value: the scope stack, the distances given
   * to the interpreter so far, the reports so far and the kind of function
   * the walk is in. The pass below is the resolver written as functions of
   * this state; each method of the class is proved to change its state as
   * the matching function says.
   */
  datatype Pass = Pass(scopes: seq<Scope>, locals: map<nat, nat>, diagnostics: seq<Diagnostic>, current: FunctionType)

  ghost predicate Sound(p: Pass)
  {
    forall i :: 0 <= i < |p.scopes| ==> Ordered(p.scopes[i])
  }

  /** What any part of the pass keeps: sound scopes, the function kind, and the reports made so far. */
  ghost predicate Keeps(p: Pass, q: Pass)
  {
    Sound(q) && q.current == p.current && p.diagnostics <= q.diagnostics
  }

  /** Whether the innermost scope has `name` declared but not yet defined. */
  predicate Pending(scopes: seq<Scope>, name: string)
  {
    |scopes| > 0 && name in scopes[|scopes| - 1].entries && !scopes[|scopes| - 1].entries[name].defined
  }

  /** `declare`, on the state. */
  ghost function DeclareIn(p: Pass, name: Token, functionType: FunctionType): (q: Pass)
    requires Sound(p)
    ensures Keeps(p, q) && Extends(p.scopes, q.scopes) && q.locals == p.locals
  {
    if p.scopes == [] then p
    else
      var n := |p.scopes| - 1;
      var top := p.scopes[n];
      SameNamesHere(p.scopes);
      p.(scopes := p.scopes[n := Put(top, name.lexeme, Info(false, false, name, functionType))],
         diagnostics := p.diagnostics + (if name.lexeme in top.entries then [ErrorAt(name, Redeclared)] else []))
  }

  /** `define`, on the state. */
  ghost function DefineIn(p: Pass, name: Token, functionType: FunctionType): (q: Pass)
    requires Sound(p)
    ensures Keeps(p, q) && Extends(p.scopes, q.scopes) && q.locals == p.locals && q.diagnostics == p.diagnostics
  {
    if p.scopes == [] then p
    else
      var n := |p.scopes| - 1;
      SameNamesHere(p.scopes);
      p.(scopes := p.scopes[n := Put(p.scopes[n], name.lexeme, Info(true, false, name, functionType))])
  }

  /** `resolveLocal`, on the state. */
  ghost function LocalIn(p: Pass, id: nat, name: Token, isRead: bool): (q: Pass)
    requires Sound(p)
    ensures Keeps(p, q) && SameNames(p.scopes, q.scopes) && q.diagnostics == p.diagnostics
  {
    SameNamesHere(p.scopes);
    match Innermost(p.scopes, name.lexeme)
    case None => p
    case Some(d) =>
      p.(locals := p.locals[id := d], scopes := if isRead then MarkRead(p.scopes, d, name.lexeme) else p.scopes)
  }

  /** `beginScope`, on the state. */
  ghost function BeginIn(p: Pass): (q: Pass)
    requires Sound(p)
    ensures Keeps(p, q) && q.scopes == p.scopes + [EmptyScope] && q.locals == p.locals
  {
    p.(scopes := p.scopes + [EmptyScope])
  }

  /** `endScope`, on the state. */
  ghost function EndIn(p: Pass): (q: Pass)
    requires Sound(p) && |p.scopes| > 0
    ensures Keeps(p, q) && q.scopes == p.scopes[..|p.scopes| - 1] && q.locals == p.locals
  {
    var top := p.scopes[|p.scopes| - 1];
    p.(scopes := p.scopes[..|p.scopes| - 1], diagnostics := p.diagnostics + UnusedWarnings(top.keys, top.entries))
  }

  /** `visitVariableExpr`, on the state. */
  ghost function VariableIn(p: Pass, e: Expr): (q: Pass)
    requires Sound(p) && e.Variable?
    ensures Keeps(p, q) && SameNames(p.scopes, q.scopes)
  {
    var reported := p.(diagnostics := p.diagnostics
                         + (if Pending(p.scopes, e.name.lexeme) then [ErrorAt(e.name, OwnInitializer)] else []));
    LocalIn(reported, e.id, e.name, true)
  }

  /** `resolve(expr)`, on the state. */
  ghost function WalkExpr(p: Pass, e: Expr): (q: Pass)
    requires Sound(p)
    ensures Keeps(p, q) && SameNames(p.scopes, q.scopes)
    decreases ExprSize(e), 0
  {
    match e
    case Assign(id, name, v) =>
      var a := WalkExpr(p, v);
      var b := LocalIn(a, id, name, false);
      SameNamesTrans(p.scopes, a.scopes, b.scopes);
      b
    case Ternary(c, t, f) =>
      var a := WalkExpr(p, c);
      var b := WalkExpr(a, t);
      var d := WalkExpr(b, f);
      SameNamesTrans(p.scopes, a.scopes, b.scopes);
      SameNamesTrans(p.scopes, b.scopes, d.scopes);
      d
    case Binary(l, _, r) =>
      var a := WalkExpr(p, l);
      var b := WalkExpr(a, r);
      SameNamesTrans(p.scopes, a.scopes, b.scopes);
      b
    case Call(callee, _, args) =>
      var a := WalkExpr(p, callee);
      var b := WalkExprs(a, args);
      SameNamesTrans(p.scopes, a.scopes, b.scopes);
      b
    case Grouping(x) => WalkExpr(p, x)
    case Literal(_) => SameNamesHere(p.scopes); p
    case Logical(l, _, r) =>
      var a := WalkExpr(p, l);
      var b := WalkExpr(a, r);
      SameNamesTrans(p.scopes, a.scopes, b.scopes);
      b
    case Unary(_, x) => WalkExpr(p, x)
    case Variable(_, _) => VariableIn(p, e)
    case EmptyExpr => SameNamesHere(p.scopes); p
  }

  /** The arguments of a call, from left to right, on the state. */
  ghost function WalkExprs(p: Pass, es: seq<Expr>): (q: Pass)
    requires Sound(p)
    ensures Keeps(p, q) && SameNames(p.scopes, q.scopes)
    decreases ExprsSize(es), 1
  {
    if es == [] then SameNamesHere(p.scopes); p
    else
      var a := WalkExpr(p, es[0]);
      var b := WalkExprs(a, es[1..]);
      SameNamesTrans(p.scopes, a.scopes, b.scopes);
      b
  }

  /** `resolve(statement)`, on the state. */
  ghost function WalkStmt(p: Pass, s: Stmt): (q: Pass)
    requires Sound(p)
    ensures Keeps(p, q) && Extends(p.scopes, q.scopes)
    decreases StmtSize(s), 2
  {
    match s
    case Block(_) => BlockIn(p, s)
    case Expression(x) => ExprStmtIn(p, x)
    case Print(x) => ExprStmtIn(p, x)
    case Var(_, _) => VarIn(p, s)
    case EmptyStmt => SameNamesHere(p.scopes); SameNamesExtends(p.scopes, p.scopes); p
    case Function(_, _, _) => FunctionStmtIn(p, s)
    case If(c, t, f) =>
      var a := WalkExpr(p, c);
      var b := WalkStmt(a, t);
      SameNamesExtends(p.scopes, a.scopes);
      ExtendsTrans(p.scopes, a.scopes, b.scopes);
      if f != EmptyStmt then
        var d := WalkStmt(b, f);
        ExtendsTrans(p.scopes, b.scopes, d.scopes);
        d
      else b
    case While(c, body) =>
      var a := WalkExpr(p, c);
      var b := WalkStmt(a, body);
      SameNamesExtends(p.scopes, a.scopes);
      ExtendsTrans(p.scopes, a.scopes, b.scopes);
      b
    case Return(_, _) => ReturnIn(p, s)
  }

  /** An expression or print statement, on the state: its expression is resolved. */
  ghost function ExprStmtIn(p: Pass, x: Expr): (q: Pass)
    requires Sound(p)
    ensures Keeps(p, q) && Extends(p.scopes, q.scopes) && q == WalkExpr(p, x)
  {
    SameNamesExtends(p.scopes, WalkExpr(p, x).scopes);
    WalkExpr(p, x)
  }

  /** `visitBlockStmt`, on the state: the statements in a scope of their own. */
  ghost function BlockIn(p: Pass, s: Stmt): (q: Pass)
    requires Sound(p) && s.Block?
    ensures Keeps(p, q) && SameNames(p.scopes, q.scopes) && Extends(p.scopes, q.scopes)
    decreases StmtSize(s), 1
  {
    var a := WalkStmts(BeginIn(p), s.statements);
    PopAgrees(p.scopes, EmptyScope, a.scopes);
    SameNamesExtends(p.scopes, a.scopes[..|p.scopes|]);
    EndIn(a)
  }

  /** `visitVarStmt`, on the state: declared, the initializer resolved, then defined. */
  ghost function VarIn(p: Pass, s: Stmt): (q: Pass)
    requires Sound(p) && s.Var?
    ensures Keeps(p, q) && Extends(p.scopes, q.scopes)
  {
    var a := DeclareIn(p, s.name, NoneKind);
    var b := if s.initializer != EmptyExpr then WalkExpr(a, s.initializer) else a;
    var c := DefineIn(b, s.name, NoneKind);
    SameNamesHere(a.scopes);
    SameNamesExtends(a.scopes, b.scopes);
    ExtendsTrans(p.scopes, a.scopes, b.scopes);
    ExtendsTrans(p.scopes, b.scopes, c.scopes);
    c
  }

  /** `visitFunctionStmt`, on the state: the name declared and defined as a function, then the function resolved. */
  ghost function FunctionStmtIn(p: Pass, s: Stmt): (q: Pass)
    requires Sound(p) && s.Function?
    ensures Keeps(p, q) && Extends(p.scopes, q.scopes)
    decreases StmtSize(s), 1
  {
    var a := DeclareIn(p, s.name, FunctionKind);
    var b := DefineIn(a, s.name, FunctionKind);
    var c := FunctionIn(b, s, FunctionKind);
    ExtendsTrans(p.scopes, a.scopes, b.scopes);
    SameNamesExtends(b.scopes, c.scopes);
    ExtendsTrans(p.scopes, b.scopes, c.scopes);
    c
  }

  /** `visitReturnStmt`, on the state. */
  ghost function ReturnIn(p: Pass, s: Stmt): (q: Pass)
    requires Sound(p) && s.Return?
    ensures Keeps(p, q) && SameNames(p.scopes, q.scopes) && Extends(p.scopes, q.scopes)
  {
    var a := p.(diagnostics := p.diagnostics + (if p.current == NoneKind then [ErrorAt(s.keyword, ReturnOutside)] else []));
    SameNamesHere(a.scopes);
    var b := if s.value != EmptyExpr then WalkExpr(a, s.value) else a;
    SameNamesExtends(a.scopes, b.scopes);
    b
  }

  /** `resolve(statements)`, on the state. */
  ghost function WalkStmts(p: Pass, ss: seq<Stmt>): (q: Pass)
    requires Sound(p)
    ensures Keeps(p, q) && Extends(p.scopes, q.scopes)
    decreases StmtsSize(ss), 3
  {
    if ss == [] then SameNamesHere(p.scopes); SameNamesExtends(p.scopes, p.scopes); p
    else
      var a := WalkStmt(p, ss[0]);
      var b := WalkStmts(a, ss[1..]);
      ExtendsTrans(p.scopes, a.scopes, b.scopes);
      b
  }

  /** One parameter, on the state: declared, then defined. */
  ghost function ParamIn(p: Pass, param: Token): (q: Pass)
    requires Sound(p)
    ensures Keeps(p, q) && Extends(p.scopes, q.scopes) && q.locals == p.locals
  {
    var a := DeclareIn(p, param, NoneKind);
    ExtendsTrans(p.scopes, a.scopes, DefineIn(a, param, NoneKind).scopes);
    DefineIn(a, param, NoneKind)
  }

  /** The parameter loop of `resolveFunction`, on the state. */
  ghost function DeclareAll(p: Pass, params: seq<Token>): (q: Pass)
    requires Sound(p)
    ensures Keeps(p, q) && Extends(p.scopes, q.scopes) && q.locals == p.locals
    decreases |params|
  {
    if params == [] then SameNamesHere(p.scopes); SameNamesExtends(p.scopes, p.scopes); p
    else
      var a := ParamIn(p, params[0]);
      var b := DeclareAll(a, params[1..]);
      ExtendsTrans(p.scopes, a.scopes, b.scopes);
      b
  }

  /**
   * `resolveFunction`, on the state: the parameters and the body in a
   * scope of their own, with the function kind set for the body and
   * restored afterwards.
   */
  ghost function FunctionIn(p: Pass, s: Stmt, functionType: FunctionType): (q: Pass)
    requires Sound(p) && s.Function?
    ensures Keeps(p, q) && SameNames(p.scopes, q.scopes)
    decreases StmtSize(s), 0
  {
    var entered := BeginIn(p.(current := functionType));
    var declared := DeclareAll(entered, s.params);
    var walked := WalkStmts(declared, s.body);
    ExtendsTrans(entered.scopes, declared.scopes, walked.scopes);
    PopAgrees(p.scopes, EmptyScope, walked.scopes);
    EndIn(walked).(current := p.current)
  }

  /** The distance a use of `name` with node id `id` records, if any scope has the name. */
  function DistanceOf(scopes: seq<Scope>, id: nat, name: Token): map<nat, nat>
  {
    match Innermost(scopes, name.lexeme)
    case None => map[]
    case Some(d) => map[id := d]
  }

  /**
   * The distances resolving `e` records, read straight off the expression:
   * each variable use and assignment target, from left to right (a later
   * use of the same node id wins), its innermost scope with the name.
   */
  function Distances(scopes: seq<Scope>, e: Expr): map<nat, nat>
    decreases ExprSize(e), 0
  {
    match e
    case Assign(id, name, v) => Distances(scopes, v) + DistanceOf(scopes, id, name)
    case Ternary(c, t, f) => Distances(scopes, c) + Distances(scopes, t) + Distances(scopes, f)
    case Binary(l, _, r) => Distances(scopes, l) + Distances(scopes, r)
    case Call(callee, _, args) => Distances(scopes, callee) + ArgumentDistances(scopes, args)
    case Grouping(x) => Distances(scopes, x)
    case Literal(_) => map[]
    case Logical(l, _, r) => Distances(scopes, l) + Distances(scopes, r)
    case Unary(_, x) => Distances(scopes, x)
    case Variable(id, name) => DistanceOf(scopes, id, name)
    case EmptyExpr => map[]
  }

  function ArgumentDistances(scopes: seq<Scope>, es: seq<Expr>): map<nat, nat>
    decreases ExprsSize(es), 1
  {
    if es == [] then map[] else Distances(scopes, es[0]) + ArgumentDistances(scopes, es[1..])
  }

  /** The distances depend only on which names each scope holds. */
  lemma {:induction false} DistancesSameNames(a: seq<Scope>, b: seq<Scope>, e: Expr)
    requires SameNames(a, b)
    requires forall i :: 0 <= i < |a| ==> Ordered(a[i]) && Ordered(b[i])
    ensures Distances(a, e) == Distances(b, e)
    decreases ExprSize(e), 0
  {
    match e
    case Assign(_, name, v) => DistancesSameNames(a, b, v); InnermostSameNames(a, b, name.lexeme);
    case Ternary(c, t, f) => DistancesSameNames(a, b, c); DistancesSameNames(a, b, t); DistancesSameNames(a, b, f);
    case Binary(l, _, r) => DistancesSameNames(a, b, l); DistancesSameNames(a, b, r);
    case Call(callee, _, args) => DistancesSameNames(a, b, callee); ArgumentDistancesSameNames(a, b, args);
    case Grouping(x) => DistancesSameNames(a, b, x);
    case Literal(_) =>
    case Logical(l, _, r) => DistancesSameNames(a, b, l); DistancesSameNames(a, b, r);
    case Unary(_, x) => DistancesSameNames(a, b, x);
    case Variable(_, name) => InnermostSameNames(a, b, name.lexeme);
    case EmptyExpr =>
  }

  lemma {:induction false} ArgumentDistancesSameNames(a: seq<Scope>, b: seq<Scope>, es: seq<Expr>)
    requires SameNames(a, b)
    requires forall i :: 0 <= i < |a| ==> Ordered(a[i]) && Ordered(b[i])
    ensures ArgumentDistances(a, es) == ArgumentDistances(b, es)
    decreases ExprsSize(es), 1
  {
    if es != [] {
      DistancesSameNames(a, b, es[0]);
      ArgumentDistancesSameNames(a, b, es[1..]);
    }
  }

  /** Resolving one use records its distance, as a map of one entry joined to those so far. */
  lemma LocalRecords(p: Pass, id: nat, name: Token, isRead: bool)
    requires Sound(p)
    ensures LocalIn(p, id, name, isRead).locals == p.locals + DistanceOf(p.scopes, id, name)
  {
    match Innermost(p.scopes, name.lexeme)
    case None =>
      assert p.locals + map[] == p.locals;
    case Some(d) =>
      assert p.locals[id := d] == p.locals + map[id := d];
  }

  lemma UnionAssociates(m: map<nat, nat>, a: map<nat, nat>, b: map<nat, nat>)
    ensures m + a + b == m + (a + b)
  {
  }

  /**
   * Two parts resolved one after the other record the first part's
   * distances, then the second's, both against the scopes they started
   * with, since the first adds no name.
   */
  lemma TwoPartsRecord(p: Pass, x: Expr, a: Pass, y: Expr)
    requires Sound(p) && a == WalkExpr(p, x)
    requires a.locals == p.locals + Distances(p.scopes, x)
    requires WalkExpr(a, y).locals == a.locals + Distances(a.scopes, y)
    ensures WalkExpr(a, y).locals == p.locals + (Distances(p.scopes, x) + Distances(p.scopes, y))
  {
    DistancesSameNames(p.scopes, a.scopes, y);
    UnionAssociates(p.locals, Distances(p.scopes, x), Distances(p.scopes, y));
  }

  /**
   * Resolving an expression records, on top of the distances so far,
   * exactly the innermost-scope distance of each of its variable uses and
   * assignment targets, all measured against the scopes it started with.
   */
  lemma {:induction false} WalkRecordsDistances(p: Pass, e: Expr)
    requires Sound(p)
    ensures WalkExpr(p, e).locals == p.locals + Distances(p.scopes, e)
    decreases ExprSize(e), 1
  {
    match e
    case Assign(id, name, v) => AssignRecords(p, e);
    case Ternary(_, _, _) => TernaryRecords(p, e);
    case Binary(_, _, _) => PairRecords(p, e);
    case Call(_, _, _) => CallRecords(p, e);
    case Grouping(x) =>
      WalkRecordsDistances(p, x);
      assert WalkExpr(p, e) == WalkExpr(p, x) && Distances(p.scopes, e) == Distances(p.scopes, x);
    case Literal(_) =>
      assert WalkExpr(p, e) == p && Distances(p.scopes, e) == map[];
    case Logical(_, _, _) => PairRecords(p, e);
    case Unary(_, x) =>
      WalkRecordsDistances(p, x);
      assert WalkExpr(p, e) == WalkExpr(p, x) && Distances(p.scopes, e) == Distances(p.scopes, x);
    case Variable(id, name) =>
      assert WalkExpr(p, e) == VariableIn(p, e) && Distances(p.scopes, e) == DistanceOf(p.scopes, id, name);
      var reported := p.(diagnostics := p.diagnostics
                           + (if Pending(p.scopes, name.lexeme) then [ErrorAt(name, OwnInitializer)] else []));
      LocalRecords(reported, id, name, true);
    case EmptyExpr =>
      assert WalkExpr(p, e) == p && Distances(p.scopes, e) == map[];
  }

  lemma {:induction false} AssignRecords(p: Pass, e: Expr)
    requires Sound(p) && e.Assign?
    ensures WalkExpr(p, e).locals == p.locals + Distances(p.scopes, e)
    decreases ExprSize(e), 0
  {
    var a := WalkExpr(p, e.newValue);
    WalkRecordsDistances(p, e.newValue);
    InnermostSameNames(p.scopes, a.scopes, e.name.lexeme);
    assert WalkExpr(p, e) == LocalIn(a, e.id, e.name, false);
    LocalRecords(a, e.id, e.name, false);
    assert Distances(p.scopes, e) == Distances(p.scopes, e.newValue) + DistanceOf(p.scopes, e.id, e.name);
    UnionAssociates(p.locals, Distances(p.scopes, e.newValue), DistanceOf(p.scopes, e.id, e.name));
  }

  lemma {:induction false} TernaryRecords(p: Pass, e: Expr)
    requires Sound(p) && e.Ternary?
    ensures WalkExpr(p, e).locals == p.locals + Distances(p.scopes, e)
    decreases ExprSize(e), 0
  {
    var a := WalkExpr(p, e.condition);
    var b := WalkExpr(a, e.expTrue);
    WalkRecordsDistances(p, e.condition);
    WalkRecordsDistances(a, e.expTrue);
    TwoPartsRecord(p, e.condition, a, e.expTrue);
    WalkRecordsDistances(b, e.expFalse);
    SameNamesTrans(p.scopes, a.scopes, b.scopes);
    DistancesSameNames(p.scopes, b.scopes, e.expFalse);
    assert WalkExpr(p, e) == WalkExpr(b, e.expFalse);
    var dc, dt, df := Distances(p.scopes, e.condition), Distances(p.scopes, e.expTrue), Distances(p.scopes, e.expFalse);
    assert Distances(p.scopes, e) == dc + dt + df;
    UnionAssociates(p.locals, dc + dt, df);
  }

  lemma {:induction false} PairRecords(p: Pass, e: Expr)
    requires Sound(p) && (e.Binary? || e.Logical?)
    ensures WalkExpr(p, e).locals == p.locals + Distances(p.scopes, e)
    decreases ExprSize(e), 0
  {
    var a := WalkExpr(p, e.left);
    WalkRecordsDistances(p, e.left);
    WalkRecordsDistances(a, e.right);
    TwoPartsRecord(p, e.left, a, e.right);
    assert WalkExpr(p, e) == WalkExpr(a, e.right);
    assert Distances(p.scopes, e) == Distances(p.scopes, e.left) + Distances(p.scopes, e.right);
  }

  lemma {:induction false} CallRecords(p: Pass, e: Expr)
    requires Sound(p) && e.Call?
    ensures WalkExpr(p, e).locals == p.locals + Distances(p.scopes, e)
    decreases ExprSize(e), 0
  {
    var a := WalkExpr(p, e.callee);
    WalkRecordsDistances(p, e.callee);
    WalkRecordsArgumentDistances(a, e.arguments);
    ArgumentDistancesSameNames(p.scopes, a.scopes, e.arguments);
    assert WalkExpr(p, e) == WalkExprs(a, e.arguments);
    assert Distances(p.scopes, e) == Distances(p.scopes, e.callee) + ArgumentDistances(p.scopes, e.arguments);
    UnionAssociates(p.locals, Distances(p.scopes, e.callee), ArgumentDistances(p.scopes, e.arguments));
  }

  lemma {:induction false} WalkRecordsArgumentDistances(p: Pass, es: seq<Expr>)
    requires Sound(p)
    ensures WalkExprs(p, es).locals == p.locals + ArgumentDistances(p.scopes, es)
    decreases ExprsSize(es), 2
  {
    if es != [] {
      var a := WalkExpr(p, es[0]);
      WalkRecordsDistances(p, es[0]);
      WalkRecordsArgumentDistances(a, es[1..]);
      ArgumentDistancesSameNames(p.scopes, a.scopes, es[1..]);
      UnionAssociates(p.locals, Distances(p.scopes, es[0]), ArgumentDistances(p.scopes, es[1..]));
    }
  }

  /** An assignment to a name some scope holds records, for the assignment's node, that scope's distance. */
  lemma AssignTargetRecorded(p: Pass, e: Expr)
    requires Sound(p) && e.Assign?
    ensures Innermost(p.scopes, e.name.lexeme).Some? ==>
              e.id in WalkExpr(p, e).locals && WalkExpr(p, e).locals[e.id] == Innermost(p.scopes, e.name.lexeme).value
    ensures Innermost(p.scopes, e.name.lexeme).None? ==>
              WalkExpr(p, e).locals == p.locals + Distances(p.scopes, e.newValue)
  {
    AssignRecords(p, e);
  }

  /** `var` in a scope: the name ends up defined, not yet read, in the innermost scope. */
  lemma VarInDefines(p: Pass, s: Stmt)
    requires Sound(p) && s.Var?
    ensures |p.scopes| > 0 ==>
              var top := VarIn(p, s).scopes[|p.scopes| - 1];
              s.name.lexeme in top.entries && top.entries[s.name.lexeme] == Info(true, false, s.name, NoneKind)
  {
  }

  /** `var` reports a name its scope already had, before anything its initializer reports. */
  lemma VarInRedeclared(p: Pass, s: Stmt)
    requires Sound(p) && s.Var?
    ensures |p.scopes| > 0 && s.name.lexeme in p.scopes[|p.scopes| - 1].entries ==>
              |VarIn(p, s).diagnostics| > |p.diagnostics|
              && VarIn(p, s).diagnostics[|p.diagnostics|] == ErrorAt(s.name, Redeclared)
    ensures s.initializer == EmptyExpr ==>
              VarIn(p, s).diagnostics ==
                p.diagnostics + (if |p.scopes| > 0 && s.name.lexeme in p.scopes[|p.scopes| - 1].entries
                                 then [ErrorAt(s.name, Redeclared)] else [])
  {
    var a := DeclareIn(p, s.name, NoneKind);
    var b := if s.initializer != EmptyExpr then WalkExpr(a, s.initializer) else a;
    assert VarIn(p, s).diagnostics == b.diagnostics;
  }

  /** A read reports exactly when the innermost scope has the name declared but not yet defined. */
  lemma VariableInReports(p: Pass, e: Expr)
    requires Sound(p) && e.Variable?
    ensures WalkExpr(p, e) == VariableIn(p, e)
    ensures VariableIn(p, e).diagnostics ==
              p.diagnostics + (if Pending(p.scopes, e.name.lexeme) then [ErrorAt(e.name, OwnInitializer)] else [])
  {
  }

  /** In a scope, `var a = a;` reports the read of `a` in its own initializer. */
  lemma VarInOwnInitializer(p: Pass, s: Stmt)
    requires Sound(p) && s.Var?
    ensures |p.scopes| > 0 && s.initializer.Variable? && s.initializer.name.lexeme == s.name.lexeme ==>
              ErrorAt(s.initializer.name, OwnInitializer) in VarIn(p, s).diagnostics
  {
    if |p.scopes| > 0 && s.initializer.Variable? && s.initializer.name.lexeme == s.name.lexeme {
      var n := |p.scopes| - 1;
      var a := DeclareIn(p, s.name, NoneKind);
      assert a.scopes == p.scopes[n := Put(p.scopes[n], s.name.lexeme, Info(false, false, s.name, NoneKind))];
      assert a.scopes[n].entries[s.name.lexeme] == Info(false, false, s.name, NoneKind);
      assert Pending(a.scopes, s.name.lexeme);
      var b := WalkExpr(a, s.initializer);
      VariableInReports(a, s.initializer);
      assert b.diagnostics[|a.diagnostics|] == ErrorAt(s.initializer.name, OwnInitializer);
      assert VarIn(p, s) == DefineIn(b, s.name, NoneKind);
    }
  }

  /**
   * A function declared in a scope is, once resolved, a defined entry of
   * function kind for its own name in that scope, whatever its body did.
   */
  lemma FunctionStmtDefines(p: Pass, s: Stmt)
    requires Sound(p) && s.Function?
    ensures |p.scopes| > 0 ==>
              var top := FunctionStmtIn(p, s).scopes[|p.scopes| - 1];
              s.name.lexeme in top.entries && top.entries[s.name.lexeme].defined
              && top.entries[s.name.lexeme].functionType == FunctionKind && top.entries[s.name.lexeme].token == s.name
  {
    if |p.scopes| > 0 {
      var n := |p.scopes| - 1;
      var b := DefineIn(DeclareIn(p, s.name, FunctionKind), s.name, FunctionKind);
      assert b.scopes[n].entries[s.name.lexeme] == Info(true, false, s.name, FunctionKind);
      var c := FunctionIn(b, s, FunctionKind);
      assert Agrees(b.scopes[n], c.scopes[n]);
    }
  }

  /** Every name `s` defines, `t` defines too. */
  ghost predicate StillDefines(s: Scope, t: Scope)
  {
    forall k :: k in s.entries && s.entries[k].defined ==> k in t.entries && t.entries[k].defined
  }

  /** Declaring parameters in turn leaves each of them defined in the innermost scope. */
  lemma {:induction false} DeclareAllDefines(p: Pass, params: seq<Token>)
    requires Sound(p) && |p.scopes| > 0
    ensures forall param :: param in params ==> Defines(DeclareAll(p, params).scopes[|p.scopes| - 1], param.lexeme)
    ensures StillDefines(p.scopes[|p.scopes| - 1], DeclareAll(p, params).scopes[|p.scopes| - 1])
    decreases |params|
  {
    if params != [] {
      var a := ParamIn(p, params[0]);
      DeclareAllDefines(a, params[1..]);
      forall param | param in params
        ensures Defines(DeclareAll(p, params).scopes[|p.scopes| - 1], param.lexeme)
      {
        if param != params[0] {
          assert param in params[1..];
        }
      }
    }
  }

  /**
   * `resolveFunction` resolves the body in a fresh scope, pushed on the
   * scopes it started with, in which every parameter is defined, so that
   * a parameter read at the start of the body resolves to distance 0; the
   * enclosing function kind is restored afterwards.
   */
  lemma FunctionInScope(p: Pass, s: Stmt, functionType: FunctionType)
    requires Sound(p) && s.Function?
    ensures var declared := DeclareAll(BeginIn(p.(current := functionType)), s.params);
            |declared.scopes| == |p.scopes| + 1 && declared.current == functionType
            && SameNames(p.scopes, declared.scopes[..|p.scopes|])
            && (forall param :: param in s.params ==> Innermost(declared.scopes, param.lexeme) == Some(0))
            && FunctionIn(p, s, functionType) == EndIn(WalkStmts(declared, s.body)).(current := p.current)
  {
    var entered := BeginIn(p.(current := functionType));
    var declared := DeclareAll(entered, s.params);
    DeclareAllDefines(entered, s.params);
    PopAgrees(p.scopes, EmptyScope, declared.scopes);
  }

  /** `return` outside a function is reported first; inside one, a bare `return` reports nothing. */
  lemma ReturnInReports(p: Pass, s: Stmt)
    requires Sound(p) && s.Return?
    ensures p.current == NoneKind ==>
              |ReturnIn(p, s).diagnostics| > |p.diagnostics|
              && ReturnIn(p, s).diagnostics[|p.diagnostics|] == ErrorAt(s.keyword, ReturnOutside)
    ensures p.current == FunctionKind && s.value == EmptyExpr ==> ReturnIn(p, s).diagnostics == p.diagnostics
  {
  }

  class Resolver {
    const interpreter: Interpreter
    /** The process-wide error sink; it is the interpreter's reporter. */
    const reporter: Reporter
    var scopes: seq<Scope>
    var currentFunction: FunctionType

    ghost predicate Valid()
      reads this
    {
      forall i :: 0 <= i < |scopes| ==> Ordered(scopes[i])
    }

    /** The resolver's state, with the interpreter's distances and the reports, as one value. */
    ghost function Snapshot(): Pass
      reads this, interpreter, reporter
    {
      Pass(scopes, interpreter.locals, reporter.diagnostics, currentFunction)
    }

    constructor (interpreter: Interpreter)
      ensures this.interpreter == interpreter && reporter == interpreter.reporter
      ensures scopes == [] && currentFunction == NoneKind && Valid()
    {
      this.interpreter := interpreter;
      reporter := interpreter.reporter;
      scopes := [];
      currentFunction := NoneKind;
    }

    /** `beginScope`. */
    method BeginScope()
      requires Valid()
      modifies this`scopes
      ensures Valid() && Snapshot() == BeginIn(old(Snapshot()))
    {
      scopes := scopes + [EmptyScope];
    }

    /** `endScope`: the innermost scope's unused variables are reported, then it is dropped. */
    method EndScope()
      requires Valid() && |scopes| > 0
      modifies this`scopes, reporter
      ensures Valid() && Snapshot() == EndIn(old(Snapshot()))
    {
      CheckForUnusedVariables();
      scopes := scopes[..|scopes| - 1];
    }

    /** `checkForUnusedVariables`: one report per unused entry of the innermost scope, in key order. */
    method CheckForUnusedVariables()
      requires Valid() && |scopes| > 0
      modifies reporter
      ensures reporter.diagnostics ==
                old(reporter.diagnostics) + UnusedWarnings(scopes[|scopes| - 1].keys, scopes[|scopes| - 1].entries)
    {
      var popped := scopes[|scopes| - 1];
      for i := 0 to |popped.keys|
        invariant reporter.diagnostics == old(reporter.diagnostics) + UnusedWarnings(popped.keys[..i], popped.entries)
      {
        assert popped.keys[..i + 1][..i] == popped.keys[..i];
        var info := popped.entries[popped.keys[i]];
        if info.functionType == NoneKind && !info.used {
          reporter.ErrorAtToken(info.token, NeverRead);
        }
      }
      assert popped.keys[..|popped.keys|] == popped.keys;
    }

    /**
     * `declare`: at the top level nothing happens; in a scope, the name is
     * entered as declared but not yet defined, and a name the scope
     * already has is reported first.
     */
    method Declare(name: Token, functionType: FunctionType)
      requires Valid()
      modifies this`scopes, reporter
      ensures Valid() && Snapshot() == DeclareIn(old(Snapshot()), name, functionType)
    {
      if |scopes| == 0 {
        return;
      }
      ghost var p := Snapshot();
      var top := scopes[|scopes| - 1];
      var reported := name.lexeme in top.entries;
      if reported {
        reporter.ErrorAtToken(name, Redeclared);
      }
      assert reporter.diagnostics == p.diagnostics + (if reported then [ErrorAt(name, Redeclared)] else []);
      scopes := scopes[|scopes| - 1 := Put(top, name.lexeme, Info(false, false, name, functionType))];
      assert Snapshot() == DeclareIn(p, name, functionType);
    }

    /** `define`: in a scope, the name's entry becomes defined and not yet read. */
    method Define(name: Token, functionType: FunctionType)
      requires Valid()
      modifies this`scopes
      ensures Valid() && Snapshot() == DefineIn(old(Snapshot()), name, functionType)
    {
      if |scopes| == 0 {
        return;
      }
      scopes := scopes[|scopes| - 1 := Put(scopes[|scopes| - 1], name.lexeme, Info(true, false, name, functionType))];
    }

    /**
     * `resolveLocal`: the scopes are searched from the innermost out; the
     * first that has the name gives the distance the interpreter records
     * for this node, and a read marks that entry as used. A name no scope
     * has is left to the globals: nothing is recorded.
     */
    method ResolveLocal(id: nat, name: Token, isRead: bool)
      requires Valid()
      modifies this`scopes, interpreter`locals
      ensures Valid() && Snapshot() == LocalIn(old(Snapshot()), id, name, isRead)
    {
      var found := FindScope(name.lexeme);
      if found.Some? {
        interpreter.Resolve(id, found.value);
        if isRead {
          scopes := MarkRead(scopes, found.value, name.lexeme);
        }
      }
    }

    /** The search loop of `resolveLocal`: the distance to the innermost scope that has `name`. */
    method FindScope(name: string) returns (found: Option<nat>)
      ensures found == Innermost(scopes, name)
    {
      var i := |scopes| - 1;
      while i >= 0
        invariant -1 <= i < |scopes|
        invariant forall j :: i < j < |scopes| ==> name !in scopes[j].entries
      {
        if name in scopes[i].entries {
          return Some(|scopes| - 1 - i);
        }
        i := i - 1;
      }
      return None;
    }

    /** `resolve(statements)`: each statement in turn. */
    method ResolveStatements(statements: seq<Stmt>)
      requires Valid()
      modifies this, interpreter`locals, reporter
      ensures Valid() && Snapshot() == WalkStmts(old(Snapshot()), statements)
      decreases StmtsSize(statements), 3
    {
      for i := 0 to |statements|
        invariant Valid() && WalkStmts(Snapshot(), statements[i..]) == WalkStmts(old(Snapshot()), statements)
      {
        StmtsSizeMember(statements, i);
        ghost var before := Snapshot();
        assert statements[i..][0] == statements[i] && statements[i..][1..] == statements[i + 1..];
        ResolveStatement(statements[i]);
        assert WalkStmts(before, statements[i..]) == WalkStmts(Snapshot(), statements[i + 1..]);
      }
    }

    /** `resolve(statement)`. */
    method ResolveStatement(s: Stmt)
      requires Valid()
      modifies this, interpreter`locals, reporter
      ensures Valid() && Snapshot() == WalkStmt(old(Snapshot()), s)
      decreases StmtSize(s), 2
    {
      match s
      case Block(_) => VisitBlock(s);
      case Expression(x) => ResolveExpression(x);
      case Print(x) => ResolveExpression(x);
      case Var(_, _) => VisitVar(s);
      case EmptyStmt =>
      case Function(_, _, _) => VisitFunction(s);
      case If(c, t, f) =>
        ResolveExpression(c);
        ResolveStatement(t);
        if f != EmptyStmt {
          ResolveStatement(f);
        }
      case While(c, b) =>
        ResolveExpression(c);
        ResolveStatement(b);
      case Return(_, _) => VisitReturn(s);
    }

    /**
     * `visitBlockStmt`: the block's statements are resolved in a scope of
     * their own, so that the stack, and every name in it, is as before
     * once the block is done.
     */
    method VisitBlock(s: Stmt)
      requires s.Block? && Valid()
      modifies this, interpreter`locals, reporter
      ensures Valid() && Snapshot() == BlockIn(old(Snapshot()), s)
      decreases StmtSize(s), 1
    {
      BeginScope();
      ResolveStatements(s.statements);
      EndScope();
    }

    /**
     * `visitVarStmt`: the name is declared, the initializer (if any)
     * resolved, and the name then defined, so that a read of it in its own
     * initializer finds it declared but undefined.
     */
    method VisitVar(s: Stmt)
      requires s.Var? && Valid()
      modifies this, interpreter`locals, reporter
      ensures Valid() && Snapshot() == VarIn(old(Snapshot()), s)
      decreases StmtSize(s), 1
    {
      Declare(s.name, NoneKind);
      if s.initializer != EmptyExpr {
        ResolveExpression(s.initializer);
      }
      Define(s.name, NoneKind);
    }

    /**
     * `visitFunctionStmt`: the name is declared and defined as a function
     * (so the unused check passes it over and its body may call it), then
     * the function itself is resolved.
     */
    method VisitFunction(s: Stmt)
      requires s.Function? && Valid()
      modifies this, interpreter`locals, reporter
      ensures Valid() && Snapshot() == FunctionStmtIn(old(Snapshot()), s)
      decreases StmtSize(s), 1
    {
      Declare(s.name, FunctionKind);
      Define(s.name, FunctionKind);
      ResolveFunction(s, FunctionKind);
    }

    /**
     * `resolveFunction`: the parameters are declared and defined in a new
     * scope, the body is resolved in it with `currentFunction` set to the
     * function's kind, and both are restored afterwards.
     */
    method ResolveFunction(s: Stmt, functionType: FunctionType)
      requires s.Function? && Valid()
      modifies this, interpreter`locals, reporter
      ensures Valid() && Snapshot() == FunctionIn(old(Snapshot()), s, functionType)
      decreases StmtSize(s), 0
    {
      var enclosingFunction := currentFunction;
      currentFunction := functionType;
      BeginScope();
      DeclareParameters(s.params);
      ResolveStatements(s.body);
      EndScope();
      currentFunction := enclosingFunction;
    }

    /** The parameter loop of `resolveFunction`: each parameter ends up defined in the innermost scope. */
    method DeclareParameters(params: seq<Token>)
      requires Valid() && |scopes| > 0
      modifies this`scopes, reporter
      ensures Valid() && Snapshot() == DeclareAll(old(Snapshot()), params)
    {
      for i := 0 to |params|
        invariant Valid() && DeclareAll(Snapshot(), params[i..]) == DeclareAll(old(Snapshot()), params)
      {
        ghost var before := Snapshot();
        assert params[i..][0] == params[i] && params[i..][1..] == params[i + 1..];
        DeclareParameter(params[i]);
        assert DeclareAll(before, params[i..]) == DeclareAll(Snapshot(), params[i + 1..]);
      }
    }

    /** One parameter: declared, then defined, in the innermost scope. */
    method DeclareParameter(param: Token)
      requires Valid()
      modifies this`scopes, reporter
      ensures Valid() && Snapshot() == ParamIn(old(Snapshot()), param)
    {
      Declare(param, NoneKind);
      Define(param, NoneKind);
    }

    /**
     * `visitReturnStmt`: a `return` outside any function is reported (and
     * still resolved); the value, when there is one, is resolved.
     */
    method VisitReturn(s: Stmt)
      requires s.Return? && Valid()
      modifies this, interpreter`locals, reporter
      ensures Valid() && Snapshot() == ReturnIn(old(Snapshot()), s)
      decreases StmtSize(s), 1
    {
      if currentFunction == NoneKind {
        reporter.ErrorAtToken(s.keyword, ReturnOutside);
      }
      ghost var p := old(Snapshot());
      assert Snapshot() == p.(diagnostics := p.diagnostics + (if p.current == NoneKind then [ErrorAt(s.keyword, ReturnOutside)] else []));
      if s.value != EmptyExpr {
        ResolveExpression(s.value);
      }
    }

    /** `resolve(expr)`: resolving an expression never adds or removes a name. */
    method ResolveExpression(e: Expr)
      requires Valid()
      modifies this, interpreter`locals, reporter
      ensures Valid() && Snapshot() == WalkExpr(old(Snapshot()), e)
      decreases ExprSize(e), 2
    {
      match e
      case Assign(_, _, _) => VisitAssign(e);
      case Ternary(c, t, f) =>
        ResolveExpression(c);
        ResolveExpression(t);
        ResolveExpression(f);
      case Binary(l, _, r) =>
        ResolveExpression(l);
        ResolveExpression(r);
      case Call(callee, _, arguments) =>
        ResolveExpression(callee);
        ResolveArguments(arguments);
      case Grouping(x) => ResolveExpression(x);
      case Literal(_) =>
      case Logical(l, _, r) =>
        ResolveExpression(l);
        ResolveExpression(r);
      case Unary(_, r) => ResolveExpression(r);
      case Variable(_, _) => VisitVariable(e);
      case EmptyExpr =>
    }

    /** The argument loop of `visitCallExpr`. */
    method ResolveArguments(arguments: seq<Expr>)
      requires Valid()
      modifies this, interpreter`locals, reporter
      ensures Valid() && Snapshot() == WalkExprs(old(Snapshot()), arguments)
      decreases ExprsSize(arguments), 3
    {
      for i := 0 to |arguments|
        invariant Valid() && WalkExprs(Snapshot(), arguments[i..]) == WalkExprs(old(Snapshot()), arguments)
      {
        ExprsSizeMember(arguments, i);
        ghost var before := Snapshot();
        assert arguments[i..][0] == arguments[i] && arguments[i..][1..] == arguments[i + 1..];
        ResolveExpression(arguments[i]);
        assert WalkExprs(before, arguments[i..]) == WalkExprs(Snapshot(), arguments[i + 1..]);
      }
    }

    /**
     * `visitVariableExpr`: a read of a name the innermost scope has
     * declared but not defined is reported; the read is resolved in any
     * case.
     */
    method VisitVariable(e: Expr)
      requires e.Variable? && Valid()
      modifies this`scopes, interpreter`locals, reporter
      ensures Valid() && Snapshot() == VariableIn(old(Snapshot()), e)
      decreases ExprSize(e), 1
    {
      if Pending(scopes, e.name.lexeme) {
        reporter.ErrorAtToken(e.name, OwnInitializer);
      }
      ResolveLocal(e.id, e.name, true);
    }

    /**
     * `visitAssignExpr`: the new value is resolved first, then the target,
     * as a write (which does not count as a use). Since resolving the
     * value adds no name, the target resolves against the scopes as they
     * were before the assignment.
     */
    method VisitAssign(e: Expr)
      requires e.Assign? && Valid()
      modifies this, interpreter`locals, reporter
      ensures Valid() && Snapshot() == WalkExpr(old(Snapshot()), e)
      decreases ExprSize(e), 1
    {
      ResolveExpression(e.newValue);
      ResolveLocal(e.id, e.name, false);
    }
  }
}
