/**
 * The subset of the host language's syntax tree that the compilers build, and
 * the two definitions a predicate can be wrapped in.
 */
module Ast {
  import opened Values

  datatype CmpOp = Eq | NotEq | Lt | LtE | Gt | GtE | In

  datatype BoolOperator = And | Or

  /**
   * Expression nodes.  `Name.id` is whatever value the compiler put there: an
   * identifier's raw operand, or a generated string for an opaque binding.
   * Load contexts, line numbers and a call's (always empty) keyword list are not
   * represented.
   */
  datatype Node =
    | NameConstant(value: bool)
    | Num(n: int)
    | Str(s: string)
    | Bytes(b: seq<Byte>)
    | List(elts: seq<Node>)
    | Tuple(elts: seq<Node>)
    | Dict(keys: seq<Node>, values: seq<Node>)
    | Set(elts: seq<Node>)
    | Name(id: Value)
    | Compare(left: Node, ops: seq<CmpOp>, comparators: seq<Node>)
    | UnaryNot(operand: Node)
    | BoolOp(op: BoolOperator, values: seq<Node>)
    | Call(func: Node, args: seq<Node>)

  /**
   * `def name(params): return body`, or `name = lambda params: body`.
   */
  datatype Definition =
    | FunctionDef(name: string, params: seq<Value>, body: Node)
    | LambdaAssign(name: string, params: seq<Value>, body: Node)

  /** Every `Name` id occurring in a node. */
  function NameIds(n: Node): set<Value>
    decreases n
  {
    match n
    case Name(id) => {id}
    case List(es) => NameIdsAll(es)
    case Tuple(es) => NameIdsAll(es)
    case Set(es) => NameIdsAll(es)
    case Dict(ks, vs) => NameIdsAll(ks) + NameIdsAll(vs)
    case Compare(l, _, cs) => NameIds(l) + NameIdsAll(cs)
    case UnaryNot(x) => NameIds(x)
    case BoolOp(_, vs) => NameIdsAll(vs)
    case Call(f, xs) => NameIds(f) + NameIdsAll(xs)
    case _ => {}
  }

  function NameIdsAll(ns: seq<Node>): set<Value>
    decreases ns
  {
    if ns == [] then {} else NameIdsAll(ns[..|ns| - 1]) + NameIds(ns[|ns| - 1])
  }

  /**
   * The checks the host's `compile` makes on a tree before running it: every
   * name is a string, a comparison has as many operators as comparators and
   * at least one, a dict as many keys as values, and an `and`/`or` at least two
   * operands.
   */
  predicate Compilable(n: Node)
    decreases n
  {
    match n
    case List(es) => forall i :: 0 <= i < |es| ==> Compilable(es[i])
    case Tuple(es) => forall i :: 0 <= i < |es| ==> Compilable(es[i])
    case Set(es) => forall i :: 0 <= i < |es| ==> Compilable(es[i])
    case Dict(ks, vs) =>
      |ks| == |vs| && (forall i :: 0 <= i < |ks| ==> Compilable(ks[i])) && forall i :: 0 <= i < |vs| ==> Compilable(vs[i])
    case Name(id) => id.VStr?
    case Compare(l, ops, cs) => |ops| == |cs| && |cs| >= 1 && Compilable(l) && forall i :: 0 <= i < |cs| ==> Compilable(cs[i])
    case UnaryNot(x) => Compilable(x)
    case BoolOp(_, vs) => |vs| >= 2 && forall i :: 0 <= i < |vs| ==> Compilable(vs[i])
    case Call(f, xs) => Compilable(f) && forall i :: 0 <= i < |xs| ==> Compilable(xs[i])
    case _ => true
  }

  /** A definition compiles when its parameters are distinct strings and its body compiles. */
  predicate CompilableDef(d: Definition) {
    (forall i :: 0 <= i < |d.params| ==> d.params[i].VStr?) && Distinct(d.params) && Compilable(d.body)
  }

  /** Every name a compilable tree refers to is a string. */
  lemma {:induction false} CompilableNames(n: Node)
    requires Compilable(n)
    ensures forall x :: x in NameIds(n) ==> x.VStr?
    decreases n
  {
    match n
    case List(es) => CompilableNamesAll(es);
    case Tuple(es) => CompilableNamesAll(es);
    case Set(es) => CompilableNamesAll(es);
    case Dict(ks, vs) => CompilableNamesAll(ks); CompilableNamesAll(vs);
    case Compare(l, _, cs) => CompilableNames(l); CompilableNamesAll(cs);
    case UnaryNot(x) => CompilableNames(x);
    case BoolOp(_, vs) => CompilableNamesAll(vs);
    case Call(f, xs) => CompilableNames(f); CompilableNamesAll(xs);
    case _ =>
  }

  lemma {:induction false} CompilableNamesAll(ns: seq<Node>)
    requires forall i :: 0 <= i < |ns| ==> Compilable(ns[i])
    ensures forall x :: x in NameIdsAll(ns) ==> x.VStr?
    decreases ns
  {
    if ns != [] {
      var k := |ns| - 1;
      assert forall i :: 0 <= i < k ==> ns[..k][i] == ns[i];
      CompilableNamesAll(ns[..k]);
      CompilableNames(ns[k]);
    }
  }

  lemma {:induction false} NameIdsAllSplit(ns: seq<Node>, ms: seq<Node>)
    ensures NameIdsAll(ns + ms) == NameIdsAll(ns) + NameIdsAll(ms)
    decreases ms
  {
    if ms != [] {
      var last := ms[|ms| - 1];
      assert (ns + ms)[..|ns + ms| - 1] == ns + ms[..|ms| - 1];
      NameIdsAllSplit(ns, ms[..|ms| - 1]);
    } else {
      assert ns + ms == ns;
    }
  }
}
