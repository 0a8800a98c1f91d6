/**
 * A small evaluator for the node trees the compilers build, standing in for
 * handing the tree to the host interpreter.  It covers booleans, integers,
 * strings, bytes, lists, tuples, names, comparisons, `not`, `and`, `or` and
 * calls of zero-argument callables; everything else evaluates to `Unsupported`.
 */
module Semantics {
  import opened Values
  import opened Ast

  datatype Failure =
    | NameError    // a name that is neither an argument nor a closure binding
    | TypeError    // an operation the host refuses on these operands, or a wrong argument count
    | Invalid      // a tree the host's own compiler rejects
    | Unsupported  // outside this evaluator

  datatype Outcome<+T> = Val(v: T) | Fail(failure: Failure)

  /** The host's truth value of a value. */
  predicate Truthy(v: Value) {
    match v
    case VBool(b) => b
    case VInt(i) => i != 0
    case VStr(s) => s != []
    case VBytes(bs) => bs != []
    case VList(es) => es != []
    case VTuple(es) => es != []
    case VDict(es) => es != []
    case VSet(es) => es != []
    case VOpaque(_, _, t) => t
  }

  /** Booleans compare as the integers 0 and 1. */
  function AsNumber(v: Value): Option<int> {
    match v
    case VBool(b) => Some(if b then 1 else 0)
    case VInt(i) => Some(i)
    case _ => None
  }

  /**
   * The host's `==`.  Opaque objects are equal only to themselves.  Dicts and
   * sets are compared regardless of iteration order: the sizes agree and every
   * entry of one is matched by an equal entry of the other (a set holds no two
   * equal elements and a dict no two equal keys, so this is set equality).
   */
  predicate PyEq(a: Value, b: Value)
    decreases a, 0
  {
    if AsNumber(a).Some? || AsNumber(b).Some? then AsNumber(a) == AsNumber(b)
    else match a
      case VStr(s) => b == VStr(s)
      case VBytes(bs) => b == VBytes(bs)
      case VList(es) =>
        b.VList? && |b.elems| == |es| && forall i :: 0 <= i < |es| ==> PyEq(es[i], b.elems[i])
      case VTuple(es) =>
        b.VTuple? && |b.elems| == |es| && forall i :: 0 <= i < |es| ==> PyEq(es[i], b.elems[i])
      case VDict(es) =>
        b.VDict? && |b.entries| == |es| && forall i :: 0 <= i < |es| ==> HasEntry(es[i], b.entries)
      case VSet(es) =>
        b.VSet? && |b.elems| == |es| && forall i :: 0 <= i < |es| ==> HasElement(es[i], b.elems)
      case VOpaque(id, _, _) => b.VOpaque? && b.id == id
      case _ => false
  }

  /** Some element of `es` equals `x`: the host's `x in s` on a set. */
  predicate HasElement(x: Value, es: seq<Value>)
    decreases x, 1
  {
    exists j :: 0 <= j < |es| && PyEq(x, es[j])
  }

  /** Some entry of `es` has a key equal to `e`'s key and a value equal to its value. */
  predicate HasEntry(e: (Value, Value), es: seq<(Value, Value)>)
    decreases e, 1
  {
    exists j :: 0 <= j < |es| && PyEq(e.0, es[j].0) && PyEq(e.1, es[j].1)
  }

  /** Every value equals itself. */
  lemma {:induction false} PyEqReflexive(v: Value)
    ensures PyEq(v, v)
    decreases v
  {
    match v
    case VList(es) =>
      forall i | 0 <= i < |es| ensures PyEq(es[i], es[i]) { PyEqReflexive(es[i]); }
    case VTuple(es) =>
      forall i | 0 <= i < |es| ensures PyEq(es[i], es[i]) { PyEqReflexive(es[i]); }
    case VDict(es) =>
      forall i | 0 <= i < |es| ensures HasEntry(es[i], es) {
        PyEqReflexive(es[i].0);
        PyEqReflexive(es[i].1);
      }
    case VSet(es) =>
      forall i | 0 <= i < |es| ensures HasElement(es[i], es) { PyEqReflexive(es[i]); }
    case _ =>
  }

  /** A set equals the same elements listed in another order. */
  lemma SetOrderInsensitive()
    ensures PyEq(VSet([VInt(1), VStr("a")]), VSet([VStr("a"), VInt(1)]))
  {
    var s, t := [VInt(1), VStr("a")], [VStr("a"), VInt(1)];
    assert PyEq(s[0], t[1]);
    assert PyEq(s[1], t[0]);
  }

  /** A dict equals the same entries listed in another order. */
  lemma DictOrderInsensitive()
    ensures PyEq(VDict([(VStr("a"), VInt(1)), (VStr("b"), VInt(2))]),
                 VDict([(VStr("b"), VInt(2)), (VStr("a"), VInt(1))]))
  {
    var d, e := [(VStr("a"), VInt(1)), (VStr("b"), VInt(2))], [(VStr("b"), VInt(2)), (VStr("a"), VInt(1))];
    assert PyEq(d[0].0, e[1].0) && PyEq(d[0].1, e[1].1);
    assert PyEq(d[1].0, e[0].0) && PyEq(d[1].1, e[0].1);
  }

  /** Sets of the same size with an unmatched element differ. */
  lemma SetMismatch()
    ensures !PyEq(VSet([VInt(1), VInt(2)]), VSet([VInt(1), VInt(3)]))
  {
    var u, w := [VInt(1), VInt(2)], [VInt(1), VInt(3)];
    assert !PyEq(u[1], w[0]) && !PyEq(u[1], w[1]);
  }

  function Comparison(op: CmpOp, a: Value, b: Value): Outcome<Value> {
    match op
    case Eq => Val(VBool(PyEq(a, b)))
    case NotEq => Val(VBool(!PyEq(a, b)))
    case In =>
      if b.VList? || b.VTuple? then Val(VBool(exists i :: 0 <= i < |b.elems| && PyEq(a, b.elems[i])))
      else if b.VBool? || b.VInt? then Fail(TypeError)
      else Fail(Unsupported)
    case _ =>
      if AsNumber(a).None? || AsNumber(b).None? then Fail(Unsupported)
      else
        var x, y := AsNumber(a).value, AsNumber(b).value;
        Val(VBool(match op
          case Lt => x < y
          case LtE => x <= y
          case Gt => x > y
          case GtE => x >= y
          case _ => false))
  }

  /**
   * Evaluates `n` with `env` holding the call's arguments over the closure's
   * bindings.
   */
  function Eval(n: Node, env: map<string, Value>): Outcome<Value>
    decreases n
  {
    match n
    case NameConstant(b) => Val(VBool(b))
    case Num(i) => Val(VInt(i))
    case Str(s) => Val(VStr(s))
    case Bytes(bs) => Val(VBytes(bs))
    case List(es) => (match EvalAll(es, env) case Fail(f) => Fail(f) case Val(vs) => Val(VList(vs)))
    case Tuple(es) => (match EvalAll(es, env) case Fail(f) => Fail(f) case Val(vs) => Val(VTuple(vs)))
    case Dict(_, _) => Fail(Unsupported)
    case Set(_) => Fail(Unsupported)
    case Name(id) =>
      if !id.VStr? then Fail(TypeError)
      else if id.s in env then Val(env[id.s])
      else Fail(NameError)
    case Compare(l, ops, cs) =>
      if |ops| != 1 || |cs| != 1 then Fail(Unsupported)
      else (match Eval(l, env)
        case Fail(f) => Fail(f)
        case Val(a) => (match EvalAll(cs, env)
          case Fail(f) => Fail(f)
          case Val(bs) => if |bs| == 1 then Comparison(ops[0], a, bs[0]) else Fail(Unsupported)))
    case UnaryNot(x) => (match Eval(x, env) case Fail(f) => Fail(f) case Val(a) => Val(VBool(!Truthy(a))))
    case BoolOp(op, vs) => if |vs| < 2 then Fail(Invalid) else EvalBool(op, vs, env)
    case Call(f, xs) =>
      if xs != [] then Fail(Unsupported)
      else (match Eval(f, env)
        case Fail(e) => Fail(e)
        case Val(g) => if g.VOpaque? && g.callResult.Some? then Val(g.callResult.value) else Fail(TypeError))
  }

  /** Evaluates a sequence left to right; the first failure wins. */
  function EvalAll(ns: seq<Node>, env: map<string, Value>): Outcome<seq<Value>>
    decreases ns
  {
    if ns == [] then Val([])
    else match EvalAll(ns[..|ns| - 1], env)
      case Fail(f) => Fail(f)
      case Val(vs) => (match Eval(ns[|ns| - 1], env) case Fail(f) => Fail(f) case Val(x) => Val(vs + [x]))
  }

  lemma EvalAllAppend(ns: seq<Node>, x: Node, env: map<string, Value>)
    ensures EvalAll(ns + [x], env) ==
      match EvalAll(ns, env)
      case Fail(f) => Fail(f)
      case Val(vs) => (match Eval(x, env) case Fail(f) => Fail(f) case Val(y) => Val(vs + [y]))
  {
    assert (ns + [x])[..|ns|] == ns;
  }

  /**
   * `a and b and ...` yields the first falsy operand, or the last one; `or`
   * yields the first truthy operand, or the last one.  Operands after the
   * deciding one are not evaluated.
   */
  function EvalBool(op: BoolOperator, ns: seq<Node>, env: map<string, Value>): Outcome<Value>
    requires ns != []
    decreases ns
  {
    match Eval(ns[0], env)
    case Fail(f) => Fail(f)
    case Val(x) =>
      if |ns| == 1 || (op == And && !Truthy(x)) || (op == Or && Truthy(x)) then Val(x)
      else EvalBool(op, ns[1..], env)
  }

  /** The names of a parameter list. */
  function ParamNames(params: seq<Value>): set<string>
    requires forall i :: 0 <= i < |params| ==> params[i].VStr?
  {
    set i | 0 <= i < |params| :: params[i].s
  }

  /** Binding one more parameter on top of the bindings of the others. */
  lemma BindStep(params: seq<Value>, args: seq<Value>, m: map<string, Value>)
    requires |params| == |args| > 0 && forall i :: 0 <= i < |params| ==> params[i].VStr?
    requires m.Keys == ParamNames(params[..|params| - 1])
    requires Distinct(params[..|params| - 1]) ==>
      forall i :: 0 <= i < |params| - 1 ==> params[i].s in m && m[params[i].s] == args[i]
    ensures var m' := m[params[|params| - 1].s := args[|args| - 1]];
      && m'.Keys == ParamNames(params)
      && (Distinct(params) ==> forall i :: 0 <= i < |params| ==> m'[params[i].s] == args[i])
  {
    var k := |params| - 1;
    var init := params[..k];
    var m' := m[params[k].s := args[k]];
    assert m'.Keys == ParamNames(params) by {
      forall x | x in ParamNames(params) ensures x in m'.Keys {
        var i :| 0 <= i < |params| && params[i].s == x;
        if i < k { assert init[i] == params[i]; }
      }
      forall x | x in m'.Keys ensures x in ParamNames(params) {
        if x != params[k].s {
          var i :| 0 <= i < k && init[i].s == x;
          assert params[i] == init[i];
        }
      }
    }
    if Distinct(params) {
      assert Distinct(init);
      forall i | 0 <= i < |params| ensures m'[params[i].s] == args[i] {
        if i < k {
          assert init[i] == params[i] != params[k];
        }
      }
    }
  }

  /**
   * The map from parameter names to positional arguments: it binds exactly the
   * parameters, and with distinct parameters each to its own argument.
   */
  function Bind(params: seq<Value>, args: seq<Value>): (m: map<string, Value>)
    requires |params| == |args|
    requires forall i :: 0 <= i < |params| ==> params[i].VStr?
    ensures m.Keys == ParamNames(params)
    ensures Distinct(params) ==> forall i :: 0 <= i < |params| ==> m[params[i].s] == args[i]
    decreases params
  {
    if params == [] then map[]
    else
      var k := |params| - 1;
      var m := Bind(params[..k], args[..k]);
      BindStep(params, args, m);
      m[params[k].s := args[k]]
  }

  /**
   * Calling a compiled predicate with positional arguments: the arguments are
   * the function's locals and take precedence over the closure's bindings.
   */
  function Invoke(def: Definition, env: map<string, Value>, args: seq<Value>): Outcome<Value> {
    if exists i :: 0 <= i < |def.params| && !def.params[i].VStr? then Fail(TypeError)
    else if !Distinct(def.params) then Fail(Invalid)
    else if |args| != |def.params| then Fail(TypeError)
    else Eval(def.body, env + Bind(def.params, args))
  }

  /**
   * Calling a compiled predicate with keyword arguments only: every parameter
   * must be given by name and no other name may be given.
   */
  function InvokeKeywords(def: Definition, env: map<string, Value>, kwargs: map<string, Value>): Outcome<Value> {
    if exists i :: 0 <= i < |def.params| && !def.params[i].VStr? then Fail(TypeError)
    else if !Distinct(def.params) then Fail(Invalid)
    else if kwargs.Keys != ParamNames(def.params) then Fail(TypeError)
    else Eval(def.body, env + kwargs)
  }
}
