/**
 * The run-time objects of the newer interpreter: its values, the chain of
 * environment frames (Environment.kt) and user functions (KixFunction.kt).
 *
 * A variable's address is a pair (distance, name): the resolver counts how
 * many frames to climb, and each frame maps names to values.
 */
module Runtime {
  import opened Tokens
  import opened Ast

  datatype Option<T> = None | Some(value: T)

  /**
   * What an expression evaluates to: a value a literal can carry (the NULL
   * object, a boolean, a number, a string), a user function, or kotlin's
   * `Unit`, which a call whose body does not return hands back.
   */
  datatype Value = Plain(literal: Literal) | Fn(f: KixFunction) | Unit

  /** One frame: this frame's bindings, and the frame it is nested in (none for the outermost). */
  class Environment {
    const enclosing: Environment?
    /** How many frames enclose this one. */
    ghost const depth: nat
    var values: map<string, Value>

    /** The enclosing links end, after `depth` steps. */
    ghost predicate Linked()
      decreases depth
    {
      if enclosing == null then depth == 0
      else depth == enclosing.depth + 1 && enclosing.Linked()
    }

    constructor (enclosing: Environment?)
      requires enclosing != null ==> enclosing.Linked()
      ensures this.enclosing == enclosing && values == map[] && Linked()
    {
      this.enclosing := enclosing;
      depth := if enclosing == null then 0 else enclosing.depth + 1;
      values := map[];
    }

    /** This frame and every frame around it. */
    ghost function Chain(): (c: set<Environment>)
      requires Linked()
      decreases depth
      ensures this in c
    {
      {this} + (if enclosing == null then {} else enclosing.Chain())
    }

    /** The frame `distance` enclosing links up, if the chain is that long. */
    ghost function AncestorAt(distance: nat): (a: Environment?)
      requires Linked()
      decreases depth
      ensures a != null ==> a in Chain() && a.Linked()
    {
      if distance == 0 then this
      else if enclosing == null then null
      else enclosing.AncestorAt(distance - 1)
    }

    /** The ancestor at `distance` exists exactly when the chain has at least `distance` links. */
    lemma {:induction false} AncestorExists(distance: nat)
      requires Linked()
      ensures AncestorAt(distance) != null <==> distance <= depth
      ensures AncestorAt(distance) != null ==> AncestorAt(distance).depth == depth - distance
      decreases depth
    {
      if distance > 0 && enclosing != null {
        enclosing.AncestorExists(distance - 1);
      }
    }

    /** Climbing `d1` links and then `d2` more is climbing `d1 + d2` links. */
    lemma {:induction false} AncestorCompose(d1: nat, d2: nat)
      requires Linked() && AncestorAt(d1) != null
      ensures AncestorAt(d1 + d2) == AncestorAt(d1).AncestorAt(d2)
      decreases depth
    {
      if d1 > 0 {
        enclosing.AncestorCompose(d1 - 1, d2);
      }
    }

    /** `define`: binds or rebinds `name` in this frame and no other. */
    method Define(name: string, value: Value)
      modifies this
      ensures values == old(values)[name := value]
    {
      values := values[name := value];
    }

    /**
     * `ancestor`: follows `distance` enclosing links. The source's `!!`
     * fails when the chain is shorter; that is the null result here.
     */
    method Ancestor(distance: nat) returns (a: Environment?)
      requires Linked()
      ensures a == AncestorAt(distance)
    {
      a := this;
      for i := 0 to distance
        invariant a != null && a == AncestorAt(i)
      {
        AncestorCompose(i, 1);
        if a.enclosing == null {
          AncestorExists(i + 1);
          AncestorExists(distance);
          return null;
        }
        a := a.enclosing;
      }
    }

    /** The value bound to `name` in the frame `distance` links up, if there is one. */
    ghost function Binding(distance: nat, name: string): Option<Value>
      requires Linked()
      reads Chain()
    {
      var a := AncestorAt(distance);
      if a != null && name in a.values then Some(a.values[name]) else None
    }

    /** `getAt`; `None` where the source's `!!` fails (no such frame, or no such name in it). */
    method GetAt(distance: nat, name: string) returns (r: Option<Value>)
      requires Linked()
      ensures r == Binding(distance, name)
    {
      var a := Ancestor(distance);
      if a != null && name in a.values {
        r := Some(a.values[name]);
      } else {
        r := None;
      }
    }

    /**
     * `assignAt`: binds `name` in the frame `distance` links up (adding the
     * binding when the frame lacks it) and no other frame. `found`
     * is false where the source's `!!` fails for want of that frame.
     */
    method AssignAt(distance: nat, name: Token, value: Value) returns (found: bool)
      requires Linked()
      modifies if AncestorAt(distance) == null then {} else {AncestorAt(distance)}
      ensures found <==> AncestorAt(distance) != null
      ensures found ==> AncestorAt(distance).values == old(AncestorAt(distance).values)[name.lexeme := value]
      ensures found ==> Binding(distance, name.lexeme) == Some(value)
    {
      var a := Ancestor(distance);
      found := a != null;
      if found {
        ghost var before := a.values;
        a.Define(name.lexeme, value);
        assert a.values == before[name.lexeme := value];
        assert old(a.values) == before;
      }
    }
  }

  /**
   * The bindings a call's frame starts with: parameter `i` to argument `i`,
   * in order, so that a later parameter of the same name wins.
   */
  function Bindings(params: seq<Token>, args: seq<Value>): map<string, Value>
    requires |params| == |args|
  {
    if params == [] then map[]
    else Bindings(params[..|params| - 1], args[..|args| - 1])[params[|params| - 1].lexeme := args[|args| - 1]]
  }

  /** The frame binds exactly the parameter names. */
  lemma {:induction false} BindingsKeys(params: seq<Token>, args: seq<Value>)
    requires |params| == |args|
    ensures Bindings(params, args).Keys == set p | p in params :: p.lexeme
  {
    if params != [] {
      var n := |params| - 1;
      BindingsKeys(params[..n], args[..n]);
      assert params == params[..n] + [params[n]];
    }
  }

  /** Each parameter whose name no later parameter repeats is bound to its own argument. */
  lemma {:induction false} BindingsLookup(params: seq<Token>, args: seq<Value>, i: nat)
    requires |params| == |args| && i < |params|
    requires forall j :: i < j < |params| ==> params[j].lexeme != params[i].lexeme
    ensures params[i].lexeme in Bindings(params, args)
    ensures Bindings(params, args)[params[i].lexeme] == args[i]
  {
    var n := |params| - 1;
    if i < n {
      BindingsLookup(params[..n], args[..n], i);
    }
  }

  /** Every value a frame starts with is one of the arguments. */
  lemma {:induction false} BindingsFrom(params: seq<Token>, args: seq<Value>)
    requires |params| == |args|
    ensures forall name :: name in Bindings(params, args) ==> Bindings(params, args)[name] in args
  {
    if params != [] {
      var n := |params| - 1;
      BindingsFrom(params[..n], args[..n]);
      assert forall v :: v in args[..n] ==> v in args;
    }
  }

  /** A user function: its declaration and the environment it was declared in (none at the top level). */
  class KixFunction {
    const declaration: FunctionStmt
    const closure: Environment?

    constructor (declaration: FunctionStmt, closure: Environment?)
      ensures this.declaration == declaration && this.closure == closure
    {
      this.declaration := declaration;
      this.closure := closure;
    }

    /** `arity`: the number of declared parameters. */
    function Arity(): nat
    {
      |declaration.params|
    }

    /** `toString`. */
    function ToString(): string
    {
      "<fn " + declaration.name.lexeme + ">"
    }

    /**
     * The first half of `call`: a fresh frame whose parent is the captured
     * closure, whatever the caller's environment, with the parameters
     * defined one by one. Arguments past the parameters are not bound.
     */
    method Bind(args: seq<Value>) returns (frame: Environment)
      requires closure != null ==> closure.Linked()
      requires Arity() <= |args|
      ensures fresh(frame) && frame.enclosing == closure && frame.Linked()
      ensures frame.values == Bindings(declaration.params, args[..Arity()])
    {
      frame := new Environment(closure);
      var params := declaration.params;
      for i := 0 to |params|
        invariant frame.enclosing == closure && frame.Linked()
        invariant frame.values == Bindings(params[..i], args[..i])
      {
        assert params[..i + 1][..i] == params[..i] && args[..i + 1][..i] == args[..i];
        frame.Define(params[i].lexeme, args[i]);
      }
      assert params[..|params|] == params;
    }
  }
}
