/**
 * The older `boolcog` compiler.  Terminals compile as in `auk`, with `_v`
 * names; but `coerce` compiles each operand of a tagged form against a new,
 * empty scope, and the scope it returns for the form is the one its last
 * operand produced.  Its `compile_predicate` always builds a function, named
 * `foo` unless told otherwise, whose parameters are the caller's list.
 *
 * `Coercion` specifies `coerce` on values; `Coerce` carries it out on
 * `Closure` objects.
 */
module Boolcog {
  import opened Values
  import opened Ast
  import opened Names
  import opened Binder
  import Nodes
  import opened Semantics
  import Auk

  /** Generated names are `_v` followed by the hexadecimal counter. */
  const Prefix := "_v"

  // ---------------------------------------------------------------------
  // coerce

  /**
   * The node for `v` and the scope `coerce` returns with it.  A terminal is
   * compiled into `scope`; an identifier keeps its raw operand; any other
   * tagged form compiles each operand from an empty scope, and leaves with the
   * last operand's scope (with `scope` itself when it has no operands).
   */
  function Coercion(tags: set<string>, v: Value, scope: map<string, Value>, next: nat): (r: Result<Step<Node>>)
    ensures r.Err? ==> r.error.BadArity? || r.error.NoBuilder?
    decreases v
  {
    if !IsTagged(tags, v) then Ok(Terminal(v, scope, next, Prefix))
    else
      var tag := TagOf(tags, v);
      if tag == "identifier" then
        if |v.elems| == 2 then Ok(Step(Nodes.CompileIdentifier(v.elems[1]), scope, next)) else Err(BadArity(tag))
      else match CoercionOperands(tags, v.elems[1..], scope, next)
        case Err(e) => Err(e)
        case Ok(st) => (match Nodes.Build(tag, st.out)
          case Err(e) => Err(e)
          case Ok(n) => Ok(Step(n, st.closure, st.next)))
  }

  function CoercionOperands(tags: set<string>, ops: seq<Value>, scope: map<string, Value>, next: nat)
    : (r: Result<Step<seq<Node>>>)
    ensures r.Err? ==> r.error.BadArity? || r.error.NoBuilder?
    decreases ops
  {
    if ops == [] then Ok(Step([], scope, next))
    else match CoercionOperands(tags, ops[..|ops| - 1], scope, next)
      case Err(e) => Err(e)
      case Ok(st) => (match Coercion(tags, ops[|ops| - 1], map[], st.next)
        case Err(e) => Err(e)
        case Ok(x) => Ok(Step(st.out + [x.out], x.closure, x.next)))
  }

  /** Whether the scope passed in is the one handed back: for terminals, identifiers and forms without operands. */
  predicate Retained(tags: set<string>, v: Value) {
    !IsTagged(tags, v) || TagOf(tags, v) == "identifier" || |v.elems| == 1
  }

  /**
   * The opaque values whose bindings survive: those of a terminal, or, for a
   * form, those its last operand keeps.
   */
  function Kept(tags: set<string>, v: Value): nat
    decreases v
  {
    if !IsTagged(tags, v) then OpaqueCount(v)
    else if Retained(tags, v) then 0
    else Kept(tags, v.elems[|v.elems| - 1])
  }

  lemma {:induction false} CoercionErrPrefix(tags: set<string>, ops: seq<Value>, k: nat, scope: map<string, Value>, next: nat)
    requires k <= |ops| && CoercionOperands(tags, ops[..k], scope, next).Err?
    ensures CoercionOperands(tags, ops, scope, next) == CoercionOperands(tags, ops[..k], scope, next)
    decreases |ops|
  {
    if k < |ops| {
      var init := ops[..|ops| - 1];
      assert init[..k] == ops[..k];
      CoercionErrPrefix(tags, init, k, scope, next);
    } else {
      assert ops[..k] == ops;
    }
  }

  /**
   * `coerce(sexp, scope)`.  `scope or {}`: a missing or empty scope is
   * replaced by a new one.  The operands' recursive calls pass no scope.
   */
  method Coerce(tags: set<string>, v: Value, scope: Closure?, src: NameSource) returns (r: Result<Node>, out: Closure)
    modifies scope, src
    decreases v
    ensures scope != null && old(scope.bindings) != map[] && Retained(tags, v) ==> out == scope
    ensures out != scope ==> fresh(out) && (scope != null ==> scope.bindings == old(scope.bindings))
    ensures var t := Coercion(tags, v, if scope == null then map[] else old(scope.bindings), old(src.next));
      && (t.Err? ==> r == Err(t.error))
      && (t.Ok? ==> r == Ok(t.value.out) && out.bindings == t.value.closure && src.next == t.value.next)
  {
    if scope == null || scope.bindings == map[] {
      out := new Closure();
    } else {
      out := scope;
    }
    if !IsTagged(tags, v) {
      var n := Binder.CompileTerminal(v, out, src, Prefix);
      return Ok(n), out;
    }
    var tag := TagOf(tags, v);
    if tag == "identifier" {
      // The operand is a name, not an expression: it is not compiled.
      if |v.elems| == 2 {
        r := Ok(Nodes.CompileIdentifier(v.elems[1]));
      } else {
        r := Err(BadArity(tag));
      }
      return;
    }
    var args;
    args, out := CoerceOperands(tags, v.elems[1..], out, src);
    if args.Err? {
      return Err(args.error), out;
    }
    r := Nodes.Build(tag, args.value);
  }

  /**
   * The operand loop of `coerce`: every operand gets a new scope, and the
   * scope variable ends up holding the last one's.
   */
  method CoerceOperands(tags: set<string>, ops: seq<Value>, scope: Closure, src: NameSource)
    returns (r: Result<seq<Node>>, out: Closure)
    modifies src
    decreases ops
    ensures ops == [] ==> out == scope
    ensures ops != [] ==> fresh(out)
    ensures var t := CoercionOperands(tags, ops, scope.bindings, old(src.next));
      && (t.Err? ==> r == Err(t.error))
      && (t.Ok? ==> r == Ok(t.value.out) && out.bindings == t.value.closure && src.next == t.value.next)
  {
    ghost var next0 := src.next;
    out := scope;
    var args: seq<Node> := [];
    var i := 0;
    while i < |ops|
      invariant 0 <= i <= |ops|
      invariant i == 0 ==> out == scope
      invariant i > 0 ==> fresh(out)
      invariant CoercionOperands(tags, ops[..i], scope.bindings, next0) == Ok(Step(args, out.bindings, src.next))
    {
      assert ops[..i + 1][..i] == ops[..i];
      var a, next := Coerce(tags, ops[i], null, src);
      if a.Err? {
        CoercionErrPrefix(tags, ops, i + 1, scope.bindings, next0);
        return Err(a.error), next;
      }
      args := args + [a.value];
      out := next;
      i := i + 1;
    }
    assert ops[..i] == ops;
    r := Ok(args);
  }

  /** `compile_terminal(sexp, scope)`, with this compiler's name prefix. */
  method CompileTerminal(v: Value, c: Closure, src: NameSource) returns (n: Node)
    modifies c, src
    ensures var st := Terminal(v, old(c.bindings), old(src.next), Prefix);
      n == st.out && c.bindings == st.closure && src.next == st.next
    ensures v.VOpaque? ==>
      && n.Name? && n.id.VStr? && n.id.s[..|Prefix|] == Prefix && n.id.s !in old(c.bindings)
      && c.bindings == old(c.bindings)[n.id.s := v]
  {
    n := Binder.CompileTerminal(v, c, src, Prefix);
  }

  // ---------------------------------------------------------------------
  // What coercion keeps.

  /**
   * A successful coercion hands back the scope it was given, extended by the
   * terminal's bindings, or, for a form with operands, exactly the scope its
   * last operand produced from an empty one.  Either way every binding added
   * is a name issued during this coercion, their number is `Kept`, and the
   * counter only moves forward.
   */
  lemma {:induction false} CoercionScope(tags: set<string>, v: Value, scope: map<string, Value>, next: nat)
    ensures var t := Coercion(tags, v, scope, next);
      var base := if Retained(tags, v) then scope else map[];
      t.Ok? ==>
        && Extends(base, t.value.closure)
        && |t.value.closure| == |base| + Kept(tags, v)
        && t.value.closure.Keys - base.Keys <= Issued(Prefix, next, t.value.next)
        && next <= t.value.next
    ensures var t := Coercion(tags, v, scope, next);
      t.Ok? && !Retained(tags, v) ==>
        var ops := v.elems[1..];
        var pre := CoercionOperands(tags, ops[..|ops| - 1], scope, next);
        && pre.Ok?
        && Coercion(tags, v.elems[|v.elems| - 1], map[], pre.value.next).Ok?
        && t.value.closure == Coercion(tags, v.elems[|v.elems| - 1], map[], pre.value.next).value.closure
    decreases v
  {
    var t := Coercion(tags, v, scope, next);
    if t.Ok? {
      if !IsTagged(tags, v) {
        TerminalMeaning(v, scope, next, Prefix);
        TerminalIssued(v, scope, next, Prefix);
      } else if TagOf(tags, v) != "identifier" {
        var ops := v.elems[1..];
        OperandsScope(tags, ops, scope, next);
        if ops != [] {
          assert ops[|ops| - 1] == v.elems[|v.elems| - 1];
          var pre := CoercionOperands(tags, ops[..|ops| - 1], scope, next).value;
          IssuedChain(Prefix, next, pre.next, t.value.next);
        }
      }
    }
  }

  /**
   * After the operands, the scope is exactly the one the last operand produced
   * from an empty scope: it holds only names issued while that operand was
   * compiled, and `Kept` of them.
   */
  lemma {:induction false} OperandsScope(tags: set<string>, ops: seq<Value>, scope: map<string, Value>, next: nat)
    ensures var t := CoercionOperands(tags, ops, scope, next);
      t.Ok? ==>
        && next <= t.value.next
        && (ops == [] ==> t.value.closure == scope)
    ensures var t := CoercionOperands(tags, ops, scope, next);
      t.Ok? && ops != [] ==>
        var pre := CoercionOperands(tags, ops[..|ops| - 1], scope, next);
        && pre.Ok?
        && Coercion(tags, ops[|ops| - 1], map[], pre.value.next).Ok?
        && t.value.closure == Coercion(tags, ops[|ops| - 1], map[], pre.value.next).value.closure
        && next <= pre.value.next <= t.value.next
        && t.value.closure.Keys <= Issued(Prefix, pre.value.next, t.value.next)
        && |t.value.closure| == Kept(tags, ops[|ops| - 1])
    decreases ops
  {
    var t := CoercionOperands(tags, ops, scope, next);
    if t.Ok? && ops != [] {
      var st := CoercionOperands(tags, ops[..|ops| - 1], scope, next).value;
      OperandsScope(tags, ops[..|ops| - 1], scope, next);
      CoercionScope(tags, ops[|ops| - 1], map[], st.next);
    }
  }

  /** No more bindings survive than `auk` makes for the same expression. */
  lemma {:induction false} KeptAtMost(tags: set<string>, v: Value)
    ensures Kept(tags, v) <= Auk.Opaques(tags, v)
    decreases v
  {
    if IsTagged(tags, v) && !Retained(tags, v) {
      var ops := v.elems[1..];
      KeptAtMost(tags, v.elems[|v.elems| - 1]);
      assert ops[|ops| - 1] == v.elems[|v.elems| - 1];
      assert Auk.OpaquesAll(tags, ops) == Auk.OpaquesAll(tags, ops[..|ops| - 1]) + Auk.Opaques(tags, ops[|ops| - 1]);
    }
  }

  // ---------------------------------------------------------------------
  // Agreement with auk.

  /**
   * Opaque values occur only in the last operand of every form on the way
   * down: the shape the repository's own tests use.
   */
  predicate OnlyLast(tags: set<string>, v: Value)
    decreases v
  {
    if !IsTagged(tags, v) || TagOf(tags, v) == "identifier" then true
    else AllOnlyLast(tags, v.elems[1..])
  }

  predicate AllOnlyLast(tags: set<string>, ops: seq<Value>)
    decreases ops
  {
    ops == [] ||
    (AllOnlyLast(tags, ops[..|ops| - 1]) && Auk.OpaquesAll(tags, ops[..|ops| - 1]) == 0 && OnlyLast(tags, ops[|ops| - 1]))
  }

  /**
   * Starting from an empty scope, the two compilers build the same tree,
   * the same bindings and the same counter, as long as no opaque value sits
   * in an operand other than the last.
   */
  lemma {:induction false} Agreement(tags: set<string>, v: Value, next: nat)
    requires OnlyLast(tags, v)
    ensures Coercion(tags, v, map[], next) == Auk.Translation(tags, v, map[], next, Prefix)
    decreases v
  {
    if IsTagged(tags, v) && TagOf(tags, v) != "identifier" {
      OperandsAgreement(tags, v.elems[1..], next);
    }
  }

  lemma {:induction false} OperandsAgreement(tags: set<string>, ops: seq<Value>, next: nat)
    requires AllOnlyLast(tags, ops)
    ensures CoercionOperands(tags, ops, map[], next) == Auk.TranslationOperands(tags, ops, map[], next, Prefix)
    decreases ops
  {
    if ops != [] {
      var init, last := ops[..|ops| - 1], ops[|ops| - 1];
      OperandsAgreement(tags, init, next);
      var t := Auk.TranslationOperands(tags, init, map[], next, Prefix);
      if t.Ok? {
        Auk.OperandsMeaning(tags, init, map[], next, Prefix);
        assert t.value.closure == map[];
        Agreement(tags, last, t.value.next);
      }
    }
  }

  // ---------------------------------------------------------------------
  // compile_predicate

  /**
   * What `compile_predicate(sexp, argnames, funcname)` builds.  An empty
   * `funcname` stands for a missing one; a missing `argnames` is the empty list.
   * A definition the host's `compile` refuses raises there.
   */
  function Assembled(g: Grammar, sexp: Value, argnames: seq<Value>, funcname: string, next: nat): Auk.Compiled {
    if !g.matches(sexp) then Auk.Malformed
    else match Coercion(g.tags, sexp, map[], next)
      case Err(e) => Auk.Raised(e)
      case Ok(t) =>
        var def := Auk.DefineFunc(if funcname == "" then "foo" else funcname, argnames, t.out);
        if CompilableDef(def) then Auk.Compiled(def, t.closure) else Auk.Raised(Rejected)
  }

  /** The grammar check, then the coercion from an empty scope, then the definition. */
  method CompilePredicate(g: Grammar, sexp: Value, argnames: seq<Value>, funcname: string, src: NameSource)
    returns (r: Auk.Compiled)
    modifies src
    ensures !g.matches(sexp) ==> src.next == old(src.next)
    ensures r == Assembled(g, sexp, argnames, funcname, old(src.next))
  {
    if !g.matches(sexp) {
      return Auk.Malformed;
    }
    var scope := new Closure();
    var exp, env := Coerce(g.tags, sexp, scope, src);
    if exp.Err? {
      return Auk.Raised(exp.error);
    }
    var name := if funcname == "" then "foo" else funcname;
    var def := Auk.DefineFunc(name, argnames, exp.value);
    if CompilableDef(def) {
      r := Auk.Compiled(def, env.bindings);
    } else {
      r := Auk.Raised(Rejected);
    }
  }

  /**
   * A rejected input yields `None`.  Otherwise, when the host compiles the
   * coerced tree with the given parameters, the result is a function
   * definition, named `foo` unless a name is given, taking exactly those
   * parameters, over the coerced tree and its scope; when it does not, the call
   * raises.
   */
  lemma AssembledShape(g: Grammar, sexp: Value, argnames: seq<Value>, funcname: string, next: nat)
    ensures var r := Assembled(g, sexp, argnames, funcname, next);
      var t := Coercion(g.tags, sexp, map[], next);
      && (r == Auk.Malformed <==> !g.matches(sexp))
      && (g.matches(sexp) && t.Ok? ==>
        (r.Compiled? <==> Compilable(t.value.out) && (forall i :: 0 <= i < |argnames| ==> argnames[i].VStr?) && Distinct(argnames)))
      && (g.matches(sexp) && t.Ok? && r.Compiled? ==>
        && r.def.FunctionDef?
        && r.def.name == (if funcname == "" then "foo" else funcname)
        && r.def.params == argnames && r.def.body == t.value.out && r.env == t.value.closure)
      && (g.matches(sexp) && t.Ok? && !r.Compiled? ==> r == Auk.Raised(Rejected))
      && (g.matches(sexp) && t.Err? ==> r == Auk.Raised(t.error))
  {
  }
}
