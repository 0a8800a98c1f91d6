/**
 * One builder per grammar tag.  Each takes already compiled operand nodes (for
 * `identifier`, the raw name) and returns the node for the tag, touching no
 * closure.  `Build` is the dispatch by tag name the compilers perform.
 */
module Nodes {
  import opened Values
  import opened Ast
  import opened Semantics

  /** A comparison of two operands; the host compiles it exactly when it compiles both. */
  function CompileComparison(first: Node, second: Node, op: CmpOp): (r: Node)
    ensures Compilable(r) <==> Compilable(first) && Compilable(second)
  {
    assert [second][0] == second;
    Compare(first, [op], [second])
  }

  function CompileEq(first: Node, second: Node): Node { CompileComparison(first, second, Eq) }
  function CompileNeq(first: Node, second: Node): Node { CompileComparison(first, second, NotEq) }
  function CompileLt(first: Node, second: Node): Node { CompileComparison(first, second, Lt) }
  function CompileLte(first: Node, second: Node): Node { CompileComparison(first, second, LtE) }
  function CompileGt(first: Node, second: Node): Node { CompileComparison(first, second, Gt) }
  function CompileGte(first: Node, second: Node): Node { CompileComparison(first, second, GtE) }
  function CompileIn(first: Node, second: Node): Node { CompileComparison(first, second, In) }

  /** The name as given; the host compiles it only when it is a string. */
  function CompileIdentifier(name: Value): (r: Node)
    ensures Compilable(r) <==> name.VStr?
  {
    Name(name)
  }

  function CompileTautology(): (r: Node)
    ensures Compilable(r)
  {
    NameConstant(true)
  }

  function CompileContradiction(): (r: Node)
    ensures Compilable(r)
  {
    NameConstant(false)
  }

  function CompileNot(operand: Node): (r: Node)
    ensures Compilable(r) <==> Compilable(operand)
  {
    UnaryNot(operand)
  }

  /** The host compiles a conjunction only of two or more compilable operands. */
  function CompileAnd(values: seq<Node>): (r: Node)
    ensures Compilable(r) <==> |values| >= 2 && forall i :: 0 <= i < |values| ==> Compilable(values[i])
  {
    BoolOp(And, values)
  }

  function CompileOr(values: seq<Node>): (r: Node)
    ensures Compilable(r) <==> |values| >= 2 && forall i :: 0 <= i < |values| ==> Compilable(values[i])
  {
    BoolOp(Or, values)
  }

  function CompileCallable(func: Node): (r: Node)
    ensures Compilable(r) <==> Compilable(func)
  {
    Call(func, [])
  }

  /** The comparison operator of each two-operand tag. */
  function ComparisonOp(tag: string): Option<CmpOp> {
    match tag
    case "eq" => Some(Eq)
    case "neq" => Some(NotEq)
    case "lt" => Some(Lt)
    case "lte" => Some(LtE)
    case "gt" => Some(Gt)
    case "gte" => Some(GtE)
    case "in" => Some(In)
    case _ => None
  }

  /** The operator each comparison tag stands for, as the builders name it. */
  lemma ComparisonTags()
    ensures ComparisonOp("eq") == Some(Eq) && ComparisonOp("neq") == Some(NotEq)
    ensures ComparisonOp("lt") == Some(Lt) && ComparisonOp("lte") == Some(LtE)
    ensures ComparisonOp("gt") == Some(Gt) && ComparisonOp("gte") == Some(GtE)
    ensures ComparisonOp("in") == Some(In)
  {
  }

  /**
   * `compile_<tag>(*args)`.  `identifier` never reaches here: both compilers
   * pass its raw operand to `CompileIdentifier` themselves.  A tag with no
   * builder raises; so does a builder given the wrong number of operands.
   */
  function Build(tag: string, args: seq<Node>): (r: Result<Node>)
    requires tag != "identifier"
    ensures r.Ok? ==> NameIds(r.value) == NameIdsAll(args)
    ensures r.Err? ==> r.error == BadArity(tag) || r.error == NoBuilder(tag)
  {
    if ComparisonOp(tag).Some? then
      if |args| == 2 then Ok(CompileComparison(args[0], args[1], ComparisonOp(tag).value)) else Err(BadArity(tag))
    else match tag
      case "tautology" => if args == [] then Ok(CompileTautology()) else Err(BadArity(tag))
      case "contradiction" => if args == [] then Ok(CompileContradiction()) else Err(BadArity(tag))
      case "not" => if |args| == 1 then Ok(CompileNot(args[0])) else Err(BadArity(tag))
      case "callable" => if |args| == 1 then Ok(CompileCallable(args[0])) else Err(BadArity(tag))
      case "and" => Ok(CompileAnd(args))
      case "or" => Ok(CompileOr(args))
      // the shared helper is found by name too; its third operand is a tree,
      // not an operator class, so calling it raises whatever it is given
      case "comparison" => Err(BadArity(tag))
      case _ => Err(NoBuilder(tag))
  }

  /** The builders that exist and the operand counts they accept. */
  lemma BuildAccepts(tag: string, args: seq<Node>)
    requires tag != "identifier"
    ensures Build(tag, args).Ok? <==>
      || (ComparisonOp(tag).Some? && |args| == 2)
      || (tag in {"tautology", "contradiction"} && |args| == 0)
      || (tag in {"not", "callable"} && |args| == 1)
      || tag in {"and", "or"}
  {
  }

  /** A `comparison` form reaches the shared helper and raises for every operand count. */
  lemma ComparisonHelperRaises(args: seq<Node>)
    ensures Build("comparison", args) == Err(BadArity("comparison"))
  {
  }

  /** A comparison builder's node applies its operator to the two operand values, left first. */
  lemma ComparisonSemantics(tag: string, first: Node, second: Node, env: map<string, Value>)
    requires ComparisonOp(tag).Some?
    ensures Build(tag, [first, second]) == Ok(Compare(first, [ComparisonOp(tag).value], [second]))
    ensures Eval(Build(tag, [first, second]).value, env) ==
      match Eval(first, env)
      case Fail(f) => Fail(f)
      case Val(a) => (match Eval(second, env)
        case Fail(f) => Fail(f)
        case Val(b) => Comparison(ComparisonOp(tag).value, a, b))
  {
    EvalAllAppend([], second, env);
    assert [] + [second] == [second];
  }

  lemma TautologySemantics(env: map<string, Value>)
    ensures Eval(CompileTautology(), env) == Val(VBool(true))
  {
  }

  lemma ContradictionSemantics(env: map<string, Value>)
    ensures Eval(CompileContradiction(), env) == Val(VBool(false))
  {
  }

  /** An identifier node reads the argument of that name. */
  lemma IdentifierSemantics(name: string, env: map<string, Value>)
    ensures NameIds(CompileIdentifier(VStr(name))) == {VStr(name)}
    ensures Eval(CompileIdentifier(VStr(name)), env) ==
      if name in env then Val(env[name]) else Fail(NameError)
  {
  }

  /** The `not` builder takes exactly one operand; any other count raises. */
  lemma NotArity(args: seq<Node>)
    requires |args| != 1
    ensures Build("not", args) == Err(BadArity("not"))
  {
  }

  lemma NotSemantics(operand: Node, env: map<string, Value>)
    ensures Build("not", [operand]) == Ok(UnaryNot(operand))
    ensures Eval(CompileNot(operand), env) ==
      match Eval(operand, env)
      case Fail(f) => Fail(f)
      case Val(a) => Val(VBool(!Truthy(a)))
  {
  }

  /**
   * Over boolean operands, `and` is true exactly when every operand is true,
   * and `or` exactly when some operand is.
   */
  lemma {:induction false} BoolOpOverBools(op: BoolOperator, ns: seq<Node>, bs: seq<bool>, env: map<string, Value>)
    requires ns != [] && |bs| == |ns|
    requires forall i :: 0 <= i < |ns| ==> Eval(ns[i], env) == Val(VBool(bs[i]))
    ensures op == And ==> EvalBool(op, ns, env) == Val(VBool(forall i :: 0 <= i < |bs| ==> bs[i]))
    ensures op == Or ==> EvalBool(op, ns, env) == Val(VBool(exists i :: 0 <= i < |bs| && bs[i]))
    decreases ns
  {
    assert Eval(ns[0], env) == Val(VBool(bs[0]));
    if |ns| > 1 && ((op == And && bs[0]) || (op == Or && !bs[0])) {
      forall i | 0 <= i < |ns| - 1 ensures Eval(ns[1..][i], env) == Val(VBool(bs[1..][i])) {
        assert ns[1..][i] == ns[i + 1];
      }
      BoolOpOverBools(op, ns[1..], bs[1..], env);
      if op == And {
        assert (forall i :: 0 <= i < |bs| ==> bs[i]) <==> (forall i :: 0 <= i < |bs[1..]| ==> bs[1..][i]) by {
          if forall i :: 0 <= i < |bs[1..]| ==> bs[1..][i] {
            forall i | 0 <= i < |bs| ensures bs[i] {
              if i > 0 { assert bs[1..][i - 1] == bs[i]; }
            }
          }
        }
      } else {
        assert (exists i :: 0 <= i < |bs| && bs[i]) <==> (exists i :: 0 <= i < |bs[1..]| && bs[1..][i]) by {
          if exists i :: 0 <= i < |bs| && bs[i] {
            var i :| 0 <= i < |bs| && bs[i];
            assert bs[1..][i - 1] == bs[i];
          }
        }
      }
    }
  }

  /** `and` and `or` keep their operands, in order; two or more are needed. */
  lemma BoolOpSemantics(ns: seq<Node>, env: map<string, Value>)
    ensures Build("and", ns) == Ok(BoolOp(And, ns)) && Build("or", ns) == Ok(BoolOp(Or, ns))
    ensures |ns| < 2 ==> Eval(CompileAnd(ns), env) == Fail(Invalid) && Eval(CompileOr(ns), env) == Fail(Invalid)
    ensures |ns| >= 2 ==>
      Eval(CompileAnd(ns), env) == EvalBool(And, ns, env) && Eval(CompileOr(ns), env) == EvalBool(Or, ns, env)
  {
  }

  /** A callable node calls its operand's value with no arguments. */
  lemma CallableSemantics(func: Node, env: map<string, Value>)
    ensures Build("callable", [func]) == Ok(Call(func, []))
    ensures Eval(CompileCallable(func), env) ==
      match Eval(func, env)
      case Fail(f) => Fail(f)
      case Val(g) => if g.VOpaque? && g.callResult.Some? then Val(g.callResult.value) else Fail(TypeError)
  {
  }
}
