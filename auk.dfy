/**
 * The `auk` compiler: an s-expression becomes a node tree plus a closure of
 * bindings for its opaque values, and `CompilePredicate` wraps the tree in a
 * function or lambda definition whose parameters are the expression's
 * identifier names.
 *
 * `ArgNames` and `Translation` specify `read_argnames` and `compile_sexpr` on
 * values; `CompileSexpr` carries the compilation out on a `Closure` object, the
 * way the source threads and mutates its closure dictionary.
 */
module Auk {
  import opened Values
  import opened Ast
  import opened Names
  import opened Binder
  import Nodes
  import opened Semantics

  /** Generated names are `_` followed by the hexadecimal counter. */
  const Prefix := "_"

  // ---------------------------------------------------------------------
  // read_argnames

  /**
   * The names of the `identifier` forms reached through tagged forms.  An
   * identifier contributes its first operand (its remaining operands are
   * ignored) and is not looked into; every terminal contributes nothing.
   */
  function ArgNames(tags: set<string>, v: Value): (r: Result<set<Value>>)
    ensures r.Err? ==> r.error == MissingOperand
    decreases v
  {
    if !IsTagged(tags, v) then Ok({})
    else if TagOf(tags, v) == "identifier" then
      if |v.elems| >= 2 then Ok({v.elems[1]}) else Err(MissingOperand)
    else OperandNames(tags, v.elems[1..])
  }

  /** The union over the operands, taken left to right; the first failure wins. */
  function OperandNames(tags: set<string>, ops: seq<Value>): (r: Result<set<Value>>)
    ensures r.Err? ==> r.error == MissingOperand
    decreases ops
  {
    if ops == [] then Ok({})
    else match OperandNames(tags, ops[..|ops| - 1])
      case Err(e) => Err(e)
      case Ok(names) => (match ArgNames(tags, ops[|ops| - 1])
        case Err(e) => Err(e)
        case Ok(more) => Ok(names + more))
  }

  // ---------------------------------------------------------------------
  // compile_sexpr

  /**
   * The node for `v` and the closure after it.  Terminals go to the shared
   * terminal compiler; an identifier keeps its raw operand; any other tagged
   * form compiles its operands left to right, threading the closure, and hands
   * them to the tag's builder.
   */
  function Translation(tags: set<string>, v: Value, cl: map<string, Value>, next: nat, prefix: string): Result<Step<Node>>
    decreases v
  {
    if !IsTagged(tags, v) then Ok(Terminal(v, cl, next, prefix))
    else
      var tag := TagOf(tags, v);
      if tag == "identifier" then
        if |v.elems| == 2 then Ok(Step(Nodes.CompileIdentifier(v.elems[1]), cl, next)) else Err(BadArity(tag))
      else match TranslationOperands(tags, v.elems[1..], cl, next, prefix)
        case Err(e) => Err(e)
        case Ok(st) => (match Nodes.Build(tag, st.out)
          case Err(e) => Err(e)
          case Ok(n) => Ok(Step(n, st.closure, st.next)))
  }

  function TranslationOperands(tags: set<string>, ops: seq<Value>, cl: map<string, Value>, next: nat, prefix: string)
    : Result<Step<seq<Node>>>
    decreases ops
  {
    if ops == [] then Ok(Step([], cl, next))
    else match TranslationOperands(tags, ops[..|ops| - 1], cl, next, prefix)
      case Err(e) => Err(e)
      case Ok(st) => (match Translation(tags, ops[|ops| - 1], st.closure, st.next, prefix)
        case Err(e) => Err(e)
        case Ok(x) => Ok(Step(st.out + [x.out], x.closure, x.next)))
  }

  /** The opaque values compiled into the closure: those in terminals outside identifier forms. */
  function Opaques(tags: set<string>, v: Value): nat
    decreases v
  {
    if !IsTagged(tags, v) then OpaqueCount(v)
    else if TagOf(tags, v) == "identifier" then 0
    else OpaquesAll(tags, v.elems[1..])
  }

  function OpaquesAll(tags: set<string>, ops: seq<Value>): nat
    decreases ops
  {
    if ops == [] then 0 else OpaquesAll(tags, ops[..|ops| - 1]) + Opaques(tags, ops[|ops| - 1])
  }

  /** Once an operand fails, the whole operand list fails with that error. */
  lemma {:induction false} OperandsErrPrefix(tags: set<string>, ops: seq<Value>, k: nat, cl: map<string, Value>, next: nat, prefix: string)
    requires k <= |ops| && TranslationOperands(tags, ops[..k], cl, next, prefix).Err?
    ensures TranslationOperands(tags, ops, cl, next, prefix) == TranslationOperands(tags, ops[..k], cl, next, prefix)
    decreases |ops|
  {
    if k < |ops| {
      var init := ops[..|ops| - 1];
      assert init[..k] == ops[..k];
      OperandsErrPrefix(tags, init, k, cl, next, prefix);
    } else {
      assert ops[..k] == ops;
    }
  }

  /**
   * `compile_sexpr(sexp, closure)`.  `closure or {}`: a missing or empty
   * closure is replaced by a new one, which is what the caller gets back; a
   * non-empty closure is extended in place and returned.
   */
  method CompileSexpr(tags: set<string>, v: Value, closure: Closure?, src: NameSource) returns (r: Result<Node>, out: Closure)
    modifies closure, src
    decreases v
    ensures closure != null && old(closure.bindings) != map[] ==> out == closure
    ensures closure == null || old(closure.bindings) == map[] ==>
      fresh(out) && (closure != null ==> closure.bindings == old(closure.bindings))
    ensures var t := Translation(tags, v, if closure == null then map[] else old(closure.bindings), old(src.next), Prefix);
      && (t.Err? ==> r == Err(t.error))
      && (t.Ok? ==> r == Ok(t.value.out) && out.bindings == t.value.closure && src.next == t.value.next)
  {
    ghost var cl0 := if closure == null then map[] else closure.bindings;
    ghost var next0 := src.next;
    if closure == null || closure.bindings == map[] {
      out := new Closure();
    } else {
      out := closure;
    }
    if !IsTagged(tags, v) {
      var n := Binder.CompileTerminal(v, out, src, Prefix);
      return Ok(n), out;
    }
    var tag := TagOf(tags, v);
    if tag == "identifier" {
      // The operand is a name, not an expression: it is not compiled.
      if |v.elems| == 2 {
        r := Ok(Nodes.CompileIdentifier(v.elems[1]));
      } else {
        r := Err(BadArity(tag));
      }
      return;
    }
    var args;
    args, out := CompileOperands(tags, v.elems[1..], out, src);
    if args.Err? {
      return Err(args.error), out;
    }
    r := Nodes.Build(tag, args.value);
  }

  /**
   * The operand loop of `compile_sexpr`: each operand is compiled against the
   * closure the previous one returned.
   */
  method CompileOperands(tags: set<string>, ops: seq<Value>, c: Closure, src: NameSource)
    returns (r: Result<seq<Node>>, out: Closure)
    modifies c, src
    decreases ops
    ensures old(c.bindings) != map[] ==> out == c
    ensures out != c ==> fresh(out) && c.bindings == old(c.bindings)
    ensures var t := TranslationOperands(tags, ops, old(c.bindings), old(src.next), Prefix);
      && (t.Err? ==> r == Err(t.error))
      && (t.Ok? ==> r == Ok(t.value.out) && out.bindings == t.value.closure && src.next == t.value.next)
  {
    ghost var cl0, next0 := c.bindings, src.next;
    out := c;
    var args: seq<Node> := [];
    var i := 0;
    while i < |ops|
      invariant 0 <= i <= |ops|
      invariant cl0 != map[] ==> out == c
      invariant out != c ==> fresh(out) && c.bindings == cl0
      invariant TranslationOperands(tags, ops[..i], cl0, next0, Prefix) == Ok(Step(args, out.bindings, src.next))
      invariant Extends(cl0, out.bindings)
    {
      ghost var before, counter := out.bindings, src.next;
      assert ops[..i + 1][..i] == ops[..i];
      var a, next := CompileSexpr(tags, ops[i], out, src);
      TranslationMeaning(tags, ops[i], before, counter, Prefix);
      if a.Err? {
        OperandsErrPrefix(tags, ops, i + 1, cl0, next0, Prefix);
        return Err(a.error), out;
      }
      args := args + [a.value];
      out := next;
      i := i + 1;
    }
    assert ops[..i] == ops;
    r := Ok(args);
  }

  /** `compile_terminal(sexp, closure)`, with this compiler's name prefix. */
  method CompileTerminal(v: Value, c: Closure, src: NameSource) returns (n: Node)
    modifies c, src
    ensures var st := Terminal(v, old(c.bindings), old(src.next), Prefix);
      n == st.out && c.bindings == st.closure && src.next == st.next
    ensures v.VOpaque? ==>
      && n.Name? && n.id.VStr? && n.id.s[..|Prefix|] == Prefix && n.id.s !in old(c.bindings)
      && c.bindings == old(c.bindings)[n.id.s := v]
  {
    n := Binder.CompileTerminal(v, c, src, Prefix);
  }

  // ---------------------------------------------------------------------
  // What the translation means.

  /**
   * A successful translation only adds to the closure, one fresh binding per
   * opaque value; and the names the tree refers to are exactly the argument
   * names together with the new bindings.
   */
  lemma {:induction false} TranslationMeaning(tags: set<string>, v: Value, cl: map<string, Value>, next: nat, prefix: string)
    ensures var t := Translation(tags, v, cl, next, prefix);
      t.Ok? ==>
        && ArgNames(tags, v).Ok?
        && Extends(cl, t.value.closure)
        && |t.value.closure| == |cl| + Opaques(tags, v)
        && next <= t.value.next
        && NameIds(t.value.out) == ArgNames(tags, v).value + NewNames(cl, t.value.closure)
    decreases v, 1
  {
    if !IsTagged(tags, v) {
      TerminalMeaning(v, cl, next, prefix);
    } else if TagOf(tags, v) != "identifier" {
      FormMeaning(tags, v, cl, next, prefix);
    }
  }

  /** The case of a form other than an identifier: its operands' bindings and names add up. */
  lemma {:induction false} FormMeaning(tags: set<string>, v: Value, cl: map<string, Value>, next: nat, prefix: string)
    requires IsTagged(tags, v) && TagOf(tags, v) != "identifier"
    ensures var t := Translation(tags, v, cl, next, prefix);
      t.Ok? ==>
        && ArgNames(tags, v).Ok?
        && Extends(cl, t.value.closure)
        && |t.value.closure| == |cl| + Opaques(tags, v)
        && next <= t.value.next
        && NameIds(t.value.out) == ArgNames(tags, v).value + NewNames(cl, t.value.closure)
    decreases v, 0
  {
    var t := Translation(tags, v, cl, next, prefix);
    if t.Ok? {
      var ops := v.elems[1..];
      OperandsMeaning(tags, ops, cl, next, prefix);
      var st := TranslationOperands(tags, ops, cl, next, prefix).value;
      assert t.value.closure == st.closure && t.value.next == st.next;
      assert NameIds(t.value.out) == NameIdsAll(st.out);
    }
  }

  lemma {:induction false} OperandsMeaning(tags: set<string>, ops: seq<Value>, cl: map<string, Value>, next: nat, prefix: string)
    ensures var t := TranslationOperands(tags, ops, cl, next, prefix);
      t.Ok? ==>
        && OperandNames(tags, ops).Ok?
        && Extends(cl, t.value.closure)
        && |t.value.closure| == |cl| + OpaquesAll(tags, ops)
        && next <= t.value.next
        && NameIdsAll(t.value.out) == OperandNames(tags, ops).value + NewNames(cl, t.value.closure)
    decreases ops
  {
    var t := TranslationOperands(tags, ops, cl, next, prefix);
    if t.Ok? && ops != [] {
      var init, last := ops[..|ops| - 1], ops[|ops| - 1];
      var ti := TranslationOperands(tags, init, cl, next, prefix);
      assert ti.Ok?;
      var st := ti.value;
      var tl := Translation(tags, last, st.closure, st.next, prefix);
      assert tl.Ok?;
      var x := tl.value;
      assert t.value == Step(st.out + [x.out], x.closure, x.next);
      OperandsMeaning(tags, init, cl, next, prefix);
      TranslationMeaning(tags, last, st.closure, st.next, prefix);
      var ni, nl := OperandNames(tags, init).value, ArgNames(tags, last).value;
      assert OperandNames(tags, ops) == Ok(ni + nl);
      assert OpaquesAll(tags, ops) == OpaquesAll(tags, init) + Opaques(tags, last);
      ThreadStep(cl, st.closure, x.closure, st.out, x.out, ni, nl);
    }
  }

  /** Chaining two compilation steps: bindings, their number and the names referred to add up. */
  lemma ThreadStep(cl: map<string, Value>, mid: map<string, Value>, fin: map<string, Value>,
                   outs: seq<Node>, out: Node, ni: set<Value>, nl: set<Value>)
    requires Extends(cl, mid) && Extends(mid, fin)
    requires NameIdsAll(outs) == ni + NewNames(cl, mid) && NameIds(out) == nl + NewNames(mid, fin)
    ensures Extends(cl, fin)
    ensures NameIdsAll(outs + [out]) == (ni + nl) + NewNames(cl, fin)
  {
    assert (outs + [out])[..|outs|] == outs;
    NewNamesSplit(cl, mid, fin);
  }

  /**
   * Both walks use the same tagged-form test: a value that is not a tagged
   * form has no argument names and compiles as a terminal, however much it
   * looks like an expression inside.
   */
  lemma TerminalPath(tags: set<string>, v: Value, cl: map<string, Value>, next: nat, prefix: string)
    requires !IsTagged(tags, v)
    ensures ArgNames(tags, v) == Ok({})
    ensures Translation(tags, v, cl, next, prefix) == Ok(Terminal(v, cl, next, prefix))
    ensures Reflects(v, Terminal(v, cl, next, prefix).out, Terminal(v, cl, next, prefix).closure)
  {
    TerminalMeaning(v, cl, next, prefix);
  }

  /** An identifier's operand becomes the name as it is, whatever it is, and binds nothing. */
  lemma IdentifierPath(tags: set<string>, name: Value, cl: map<string, Value>, next: nat, prefix: string)
    requires "identifier" in tags
    ensures ArgNames(tags, VList([VStr("identifier"), name])) == Ok({name})
    ensures Translation(tags, VList([VStr("identifier"), name]), cl, next, prefix) == Ok(Step(Name(name), cl, next))
  {
  }

  /** When `read_argnames` fails, compilation fails too. */
  lemma ArgNamesFailure(tags: set<string>, v: Value, cl: map<string, Value>, next: nat, prefix: string)
    requires ArgNames(tags, v).Err?
    ensures Translation(tags, v, cl, next, prefix).Err?
  {
    TranslationMeaning(tags, v, cl, next, prefix);
  }

  // ---------------------------------------------------------------------
  // compile_predicate

  datatype Compiled =
    | Malformed                                        // the grammar rejects the input: `None`
    | Raised(error: Error)                             // compilation raised
    | Compiled(def: Definition, env: map<string, Value>) // the definition, executed over `env`

  function DefineFunc(name: string, params: seq<Value>, body: Node): Definition {
    FunctionDef(name, params, body)
  }

  function DefineLambda(name: string, params: seq<Value>, body: Node): Definition {
    LambdaAssign(name, params, body)
  }

  /** Forcing a function wins over forcing a lambda; unforced, two or more arguments make a function. */
  predicate UsesFunction(forceFunc: bool, forceLambda: bool, argCount: nat) {
    forceFunc || (!forceLambda && argCount > 1)
  }

  /** `params` lists every name of `names` once. */
  predicate Enumerates(params: seq<Value>, names: set<Value>) {
    Distinct(params) && (forall i :: 0 <= i < |params| ==> params[i] in names) && |params| == |names|
  }

  /**
   * What `compile_predicate` builds, given the order in which the argument set
   * is listed.  An empty `funcname` stands for a missing one.  A definition the
   * host's `compile` refuses raises there.
   */
  function Assembled(g: Grammar, sexp: Value, funcname: string, forceFunc: bool, forceLambda: bool, params: seq<Value>, next: nat)
    : Compiled
  {
    if !g.matches(sexp) then Malformed
    else match ArgNames(g.tags, sexp)
      case Err(e) => Raised(e)
      case Ok(names) => (match Translation(g.tags, sexp, map[], next, Prefix)
        case Err(e) => Raised(e)
        case Ok(t) =>
          var name := if funcname != "" then funcname else Generated(Prefix, FreshIndex(Prefix, t.closure.Keys, t.next));
          var def := if UsesFunction(forceFunc, forceLambda, |names|) then DefineFunc(name, params, t.out)
                     else DefineLambda(name, params, t.out);
          if CompilableDef(def) then Compiled(def, t.closure) else Raised(Rejected))
  }

  /** The argument list: the names of a set, each once, in some iteration order. */
  method ParamList(names: set<Value>) returns (params: seq<Value>)
    ensures Enumerates(params, names)
  {
    params := [];
    var rest := names;
    while rest != {}
      invariant rest <= names
      invariant Distinct(params)
      invariant forall i :: 0 <= i < |params| ==> params[i] in names - rest
      invariant |params| + |rest| == |names|
      decreases |rest|
    {
      var x :| x in rest;
      params := params + [x];
      rest := rest - {x};
    }
  }

  /**
   * `compile_predicate(sexp, funcname, force_func, force_lambda)`: the grammar
   * check comes first, then the argument names, then the compilation from an
   * empty closure, then the name of the definition.
   */
  method CompilePredicate(g: Grammar, sexp: Value, funcname: string, forceFunc: bool, forceLambda: bool, src: NameSource)
    returns (r: Compiled)
    modifies src
    ensures !g.matches(sexp) ==> r == Malformed && src.next == old(src.next)
    ensures r.Compiled? ==> ArgNames(g.tags, sexp).Ok? && Enumerates(r.def.params, ArgNames(g.tags, sexp).value)
    ensures exists params: seq<Value> ::
      && (g.matches(sexp) && ArgNames(g.tags, sexp).Ok? ==> Enumerates(params, ArgNames(g.tags, sexp).value))
      && r == Assembled(g, sexp, funcname, forceFunc, forceLambda, params, old(src.next))
  {
    var none: seq<Value> := [];
    if !g.matches(sexp) {
      assert Assembled(g, sexp, funcname, forceFunc, forceLambda, none, old(src.next)) == Malformed;
      return Malformed;
    }
    var argnames := ArgNames(g.tags, sexp);
    if argnames.Err? {
      assert Assembled(g, sexp, funcname, forceFunc, forceLambda, none, old(src.next)) == Raised(argnames.error);
      return Raised(argnames.error);
    }
    var params := ParamList(argnames.value);
    var empty := new Closure();
    var exp, env := CompileSexpr(g.tags, sexp, empty, src);
    if exp.Err? {
      assert Assembled(g, sexp, funcname, forceFunc, forceLambda, params, old(src.next)) == Raised(exp.error);
      return Raised(exp.error);
    }
    var name := funcname;
    if name == "" {
      name := src.Fresh(Prefix, env.bindings.Keys);
    }
    var def;
    if UsesFunction(forceFunc, forceLambda, |argnames.value|) {
      def := DefineFunc(name, params, exp.value);
    } else {
      def := DefineLambda(name, params, exp.value);
    }
    if CompilableDef(def) {
      r := Compiled(def, env.bindings);
    } else {
      r := Raised(Rejected);
    }
    assert r == Assembled(g, sexp, funcname, forceFunc, forceLambda, params, old(src.next));
  }

  /**
   * The shape of a compiled predicate: it is built exactly when the host
   * compiles the tree and the parameters; then it is a function exactly when
   * forced, or when unforced with two or more arguments; it has the given name,
   * or a generated one that no closure binding uses; the compiled tree is its
   * body.
   */
  lemma AssembledShape(g: Grammar, sexp: Value, funcname: string, forceFunc: bool, forceLambda: bool, params: seq<Value>, next: nat)
    requires g.matches(sexp) && ArgNames(g.tags, sexp).Ok? && Translation(g.tags, sexp, map[], next, Prefix).Ok?
    ensures var r := Assembled(g, sexp, funcname, forceFunc, forceLambda, params, next);
      var t := Translation(g.tags, sexp, map[], next, Prefix).value;
      && (r.Compiled? <==> Compilable(t.out) && (forall i :: 0 <= i < |params| ==> params[i].VStr?) && Distinct(params))
      && (!r.Compiled? ==> r == Raised(Rejected))
    ensures var r := Assembled(g, sexp, funcname, forceFunc, forceLambda, params, next);
      var t := Translation(g.tags, sexp, map[], next, Prefix).value;
      r.Compiled? ==>
      && (r.def.FunctionDef? <==> forceFunc || (!forceLambda && |ArgNames(g.tags, sexp).value| > 1))
      && r.def.params == params && r.def.body == t.out && r.env == t.closure
      && (funcname != "" ==> r.def.name == funcname)
      && (funcname == "" ==> r.def.name[..|Prefix|] == Prefix && r.def.name !in r.env)
  {
  }

  /**
   * With the parameters listing the argument names, the host accepts the
   * definition exactly when it accepts the tree: the parameters are the tree's
   * identifier names, so they are strings whenever the tree's names are.
   */
  lemma ParamsCompile(g: Grammar, sexp: Value, funcname: string, forceFunc: bool, forceLambda: bool, params: seq<Value>, next: nat)
    requires g.matches(sexp) && ArgNames(g.tags, sexp).Ok? && Translation(g.tags, sexp, map[], next, Prefix).Ok?
    requires Enumerates(params, ArgNames(g.tags, sexp).value)
    ensures Assembled(g, sexp, funcname, forceFunc, forceLambda, params, next).Compiled? <==>
      Compilable(Translation(g.tags, sexp, map[], next, Prefix).value.out)
  {
    var t := Translation(g.tags, sexp, map[], next, Prefix).value;
    AssembledShape(g, sexp, funcname, forceFunc, forceLambda, params, next);
    if Compilable(t.out) {
      TranslationMeaning(g.tags, sexp, map[], next, Prefix);
      CompilableNames(t.out);
      assert forall i :: 0 <= i < |params| ==> params[i] in NameIds(t.out);
    }
  }

  /** A rejected input yields `None` whatever the other arguments. */
  lemma MalformedFirst(g: Grammar, sexp: Value, funcname: string, forceFunc: bool, forceLambda: bool, params: seq<Value>, next: nat)
    ensures Assembled(g, sexp, funcname, forceFunc, forceLambda, params, next) == Malformed <==> !g.matches(sexp)
  {
  }

  /** A definition and a lambda with the same parameters and body are called alike. */
  lemma DefinitionsAgree(name: string, params: seq<Value>, body: Node, env: map<string, Value>, args: seq<Value>)
    ensures Invoke(DefineFunc(name, params, body), env, args) == Invoke(DefineLambda(name, params, body), env, args)
    ensures (forall i :: 0 <= i < |params| ==> params[i].VStr?) && Distinct(params) && |args| == |params| ==>
      Invoke(DefineFunc(name, params, body), env, args) == Eval(body, env + Bind(params, args))
  {
  }
}
