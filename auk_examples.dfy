/**
 * The repository's own examples, compiled with `auk` and called.
 */
module AukExamples {
  import opened Values
  import opened Ast
  import opened Names
  import opened Binder
  import opened Semantics
  import opened Auk

  function Ident(name: string): Value {
    VList([VStr("identifier"), VStr(name)])
  }

  lemma IdentForm(tags: set<string>, name: string, cl: map<string, Value>, next: nat)
    requires "identifier" in tags
    ensures ArgNames(tags, Ident(name)) == Ok({VStr(name)})
    ensures Translation(tags, Ident(name), cl, next, Prefix) == Ok(Step(Name(VStr(name)), cl, next))
  {
  }

  lemma Names1(tags: set<string>, a: Value)
    ensures OperandNames(tags, [a]) == ArgNames(tags, a)
  {
    assert [a][..0] == [];
    if ArgNames(tags, a).Ok? {
      assert {} + ArgNames(tags, a).value == ArgNames(tags, a).value;
    }
  }

  lemma Names2(tags: set<string>, a: Value, b: Value)
    requires ArgNames(tags, a).Ok? && ArgNames(tags, b).Ok?
    ensures OperandNames(tags, [a, b]) == Ok(ArgNames(tags, a).value + ArgNames(tags, b).value)
  {
    assert [a, b][..1] == [a];
    Names1(tags, a);
  }

  lemma FormNames1(tags: set<string>, tag: string, a: Value)
    requires tag in tags && tag != "identifier"
    ensures ArgNames(tags, VList([VStr(tag), a])) == ArgNames(tags, a)
  {
    assert VList([VStr(tag), a]).elems[1..] == [a];
    Names1(tags, a);
  }

  lemma FormNames2(tags: set<string>, tag: string, a: Value, b: Value)
    requires tag in tags && tag != "identifier"
    requires ArgNames(tags, a).Ok? && ArgNames(tags, b).Ok?
    ensures ArgNames(tags, VList([VStr(tag), a, b])) == Ok(ArgNames(tags, a).value + ArgNames(tags, b).value)
  {
    assert VList([VStr(tag), a, b]).elems[1..] == [a, b];
    Names2(tags, a, b);
  }

  lemma Operands1(tags: set<string>, a: Value, cl: map<string, Value>, next: nat)
    requires Translation(tags, a, cl, next, Prefix).Ok?
    ensures var t := Translation(tags, a, cl, next, Prefix).value;
      TranslationOperands(tags, [a], cl, next, Prefix) == Ok(Step([t.out], t.closure, t.next))
  {
    var t := Translation(tags, a, cl, next, Prefix).value;
    assert [a][..0] == [];
    assert TranslationOperands(tags, [], cl, next, Prefix) == Ok(Step([], cl, next));
    assert [] + [t.out] == [t.out];
  }

  lemma Operands2(tags: set<string>, a: Value, b: Value, cl: map<string, Value>, next: nat)
    requires Translation(tags, a, cl, next, Prefix).Ok?
    requires var t := Translation(tags, a, cl, next, Prefix).value;
      Translation(tags, b, t.closure, t.next, Prefix).Ok?
    ensures var t := Translation(tags, a, cl, next, Prefix).value;
      var u := Translation(tags, b, t.closure, t.next, Prefix).value;
      TranslationOperands(tags, [a, b], cl, next, Prefix) == Ok(Step([t.out, u.out], u.closure, u.next))
  {
    var t := Translation(tags, a, cl, next, Prefix).value;
    assert [a, b][..1] == [a];
    Operands1(tags, a, cl, next);
    assert [t.out] + [Translation(tags, b, t.closure, t.next, Prefix).value.out]
      == [t.out, Translation(tags, b, t.closure, t.next, Prefix).value.out];
  }

  /** A form with no operands is its builder's node. */
  lemma Form0(tags: set<string>, tag: string, cl: map<string, Value>, next: nat)
    requires tag in tags && tag != "identifier" && Nodes.Build(tag, []).Ok?
    ensures Translation(tags, VList([VStr(tag)]), cl, next, Prefix) == Ok(Step(Nodes.Build(tag, []).value, cl, next))
  {
    assert VList([VStr(tag)]).elems[1..] == [];
  }

  lemma Form1(tags: set<string>, tag: string, a: Value, cl: map<string, Value>, next: nat)
    requires tag in tags && tag != "identifier" && Translation(tags, a, cl, next, Prefix).Ok?
    requires Nodes.Build(tag, [Translation(tags, a, cl, next, Prefix).value.out]).Ok?
    ensures var t := Translation(tags, a, cl, next, Prefix).value;
      Translation(tags, VList([VStr(tag), a]), cl, next, Prefix) == Ok(Step(Nodes.Build(tag, [t.out]).value, t.closure, t.next))
  {
    assert VList([VStr(tag), a]).elems[1..] == [a];
    Operands1(tags, a, cl, next);
  }

  lemma Form2(tags: set<string>, tag: string, a: Value, b: Value, cl: map<string, Value>, next: nat)
    requires tag in tags && tag != "identifier" && Translation(tags, a, cl, next, Prefix).Ok?
    requires var t := Translation(tags, a, cl, next, Prefix).value;
      && Translation(tags, b, t.closure, t.next, Prefix).Ok?
      && Nodes.Build(tag, [t.out, Translation(tags, b, t.closure, t.next, Prefix).value.out]).Ok?
    ensures var t := Translation(tags, a, cl, next, Prefix).value;
      var u := Translation(tags, b, t.closure, t.next, Prefix).value;
      Translation(tags, VList([VStr(tag), a, b]), cl, next, Prefix) == Ok(Step(Nodes.Build(tag, [t.out, u.out]).value, u.closure, u.next))
  {
    assert VList([VStr(tag), a, b]).elems[1..] == [a, b];
    Operands2(tags, a, b, cl, next);
  }

  /** `Form2` with the operands' steps and the built node given. */
  lemma Form2At(tags: set<string>, tag: string, a: Value, b: Value, cl: map<string, Value>, next: nat,
                ta: Step<Node>, tb: Step<Node>, node: Node)
    requires tag in tags && tag != "identifier"
    requires Translation(tags, a, cl, next, Prefix) == Ok(ta)
    requires Translation(tags, b, ta.closure, ta.next, Prefix) == Ok(tb)
    requires Nodes.Build(tag, [ta.out, tb.out]) == Ok(node)
    ensures Translation(tags, VList([VStr(tag), a, b]), cl, next, Prefix) == Ok(Step(node, tb.closure, tb.next))
  {
    Form2(tags, tag, a, b, cl, next);
  }

  /** The nested expression whose argument names are collected depth first. */
  const Nested: Value :=
    VList([VStr("not"),
      VList([VStr("and"), Ident("arg1"), VList([VStr("eq"), Ident("arg2"), Ident("arg3")])]),
      VList([VStr("not"), Ident("arg4")])])

  /** Its four names are collected, duplicates and nesting notwithstanding. */
  lemma NestedArgNames(tags: set<string>)
    requires {"not", "and", "eq", "identifier"} <= tags
    ensures ArgNames(tags, Nested) == Ok({VStr("arg1"), VStr("arg2"), VStr("arg3"), VStr("arg4")})
  {
    var i1, i2, i3, i4 := Ident("arg1"), Ident("arg2"), Ident("arg3"), Ident("arg4");
    var eq := VList([VStr("eq"), i2, i3]);
    var and := VList([VStr("and"), i1, eq]);
    var not := VList([VStr("not"), i4]);
    assert ArgNames(tags, eq) == Ok({VStr("arg2")} + {VStr("arg3")}) by {
      IdentForm(tags, "arg2", map[], 0);
      IdentForm(tags, "arg3", map[], 0);
      FormNames2(tags, "eq", i2, i3);
    }
    assert ArgNames(tags, and) == Ok({VStr("arg1")} + ({VStr("arg2")} + {VStr("arg3")})) by {
      IdentForm(tags, "arg1", map[], 0);
      FormNames2(tags, "and", i1, eq);
    }
    assert ArgNames(tags, not) == Ok({VStr("arg4")}) by {
      IdentForm(tags, "arg4", map[], 0);
      FormNames1(tags, "not", i4);
    }
    FormNames2(tags, "not", and, not);
    assert ({VStr("arg1")} + ({VStr("arg2")} + {VStr("arg3")})) + {VStr("arg4")}
      == {VStr("arg1"), VStr("arg2"), VStr("arg3"), VStr("arg4")};
  }

  lemma NestedConjunction(tags: set<string>, next: nat)
    requires {"and", "eq", "identifier"} <= tags
    ensures Translation(tags, VList([VStr("and"), Ident("arg1"), VList([VStr("eq"), Ident("arg2"), Ident("arg3")])]), map[], next, Prefix)
      == Ok(Step(BoolOp(And, [Name(VStr("arg1")), Compare(Name(VStr("arg2")), [Eq], [Name(VStr("arg3"))])]), map[], next))
  {
    var i1, i2, i3 := Ident("arg1"), Ident("arg2"), Ident("arg3");
    var eq := VList([VStr("eq"), i2, i3]);
    IdentForm(tags, "arg1", map[], next);
    IdentForm(tags, "arg2", map[], next);
    IdentForm(tags, "arg3", map[], next);
    Nodes.ComparisonSemantics("eq", Name(VStr("arg2")), Name(VStr("arg3")), map[]);
    Form2(tags, "eq", i2, i3, map[], next);
    Nodes.BoolOpSemantics([Name(VStr("arg1")), Compare(Name(VStr("arg2")), [Eq], [Name(VStr("arg3"))])], map[]);
    Form2(tags, "and", i1, eq, map[], next);
  }

  /** `not` given two operands that compile raises for its arity. */
  lemma NotOfTwo(tags: set<string>, a: Value, b: Value, cl: map<string, Value>, next: nat)
    requires "not" in tags && Translation(tags, a, cl, next, Prefix).Ok?
    requires var t := Translation(tags, a, cl, next, Prefix).value;
      Translation(tags, b, t.closure, t.next, Prefix).Ok?
    ensures Translation(tags, VList([VStr("not"), a, b]), cl, next, Prefix) == Err(BadArity("not"))
  {
    assert VList([VStr("not"), a, b]).elems[1..] == [a, b];
    Operands2(tags, a, b, cl, next);
    var t := Translation(tags, a, cl, next, Prefix).value;
    Nodes.NotArity([t.out, Translation(tags, b, t.closure, t.next, Prefix).value.out]);
  }

  /** As `not` takes one operand, compiling the nested expression raises. */
  lemma NestedTranslation(tags: set<string>, next: nat)
    requires {"not", "and", "eq", "identifier"} <= tags
    ensures Translation(tags, Nested, map[], next, Prefix) == Err(BadArity("not"))
  {
    var and := VList([VStr("and"), Ident("arg1"), VList([VStr("eq"), Ident("arg2"), Ident("arg3")])]);
    var not := VList([VStr("not"), Ident("arg4")]);
    NestedConjunction(tags, next);
    assert Translation(tags, not, map[], next, Prefix).Ok? by {
      IdentForm(tags, "arg4", map[], next);
      Nodes.NotSemantics(Name(VStr("arg4")), map[]);
      Form1(tags, "not", Ident("arg4"), map[], next);
    }
    NotOfTwo(tags, and, not, map[], next);
  }

  /** `not (True and lucky_number == 777)` */
  const LuckyNumber: Value :=
    VList([VStr("not"),
      VList([VStr("and"), VList([VStr("tautology")]), VList([VStr("eq"), Ident("lucky_number"), VInt(777)])])])

  /** One argument makes a lambda; it is false for 777 and true for 7. */
  lemma LuckyNumberExample(g: Grammar, params: seq<Value>, next: nat)
    requires {"not", "and", "tautology", "eq", "identifier"} <= g.tags && g.matches(LuckyNumber)
    requires Enumerates(params, {VStr("lucky_number")})
    ensures ArgNames(g.tags, LuckyNumber) == Ok({VStr("lucky_number")})
    ensures var r := Assembled(g, LuckyNumber, "", false, false, params, next);
      && r.Compiled? && r.def.LambdaAssign? && r.env == map[]
      && Invoke(r.def, r.env, [VInt(777)]) == Val(VBool(false))
      && Invoke(r.def, r.env, [VInt(7)]) == Val(VBool(true))
  {
    LuckyNumberTranslation(g.tags, next);
    EnumeratesOne(params, VStr("lucky_number"));
    BodiesCompile();
    AssembledShape(g, LuckyNumber, "", false, false, params, next);
    var r := Assembled(g, LuckyNumber, "", false, false, params, next);
    LuckyCall(r.def, 777);
    LuckyCall(r.def, 7);
  }

  lemma LuckyNumberTranslation(tags: set<string>, next: nat)
    requires {"not", "and", "tautology", "eq", "identifier"} <= tags
    ensures ArgNames(tags, LuckyNumber) == Ok({VStr("lucky_number")})
    ensures Translation(tags, LuckyNumber, map[], next, Prefix) == Ok(Step(LuckyBody, map[], next))
  {
    var taut, id := VList([VStr("tautology")]), Ident("lucky_number");
    var eq := VList([VStr("eq"), id, VInt(777)]);
    var and := VList([VStr("and"), taut, eq]);
    LuckyNumberArgNames(tags);
    var eqNode := Compare(Name(VStr("lucky_number")), [Eq], [Num(777)]);
    assert Translation(tags, taut, map[], next, Prefix) == Ok(Step(NameConstant(true), map[], next)) by {
      assert Nodes.Build("tautology", []) == Ok(NameConstant(true));
      Form0(tags, "tautology", map[], next);
    }
    assert Translation(tags, eq, map[], next, Prefix) == Ok(Step(eqNode, map[], next)) by {
      IdentForm(tags, "lucky_number", map[], next);
      Nodes.ComparisonSemantics("eq", Name(VStr("lucky_number")), Num(777), map[]);
      Form2(tags, "eq", id, VInt(777), map[], next);
    }
    assert Translation(tags, and, map[], next, Prefix) == Ok(Step(BoolOp(And, [NameConstant(true), eqNode]), map[], next)) by {
      Nodes.BoolOpSemantics([NameConstant(true), eqNode], map[]);
      Form2(tags, "and", taut, eq, map[], next);
    }
    Nodes.NotSemantics(BoolOp(And, [NameConstant(true), eqNode]), map[]);
    Form1(tags, "not", and, map[], next);
  }

  lemma LuckyNumberArgNames(tags: set<string>)
    requires {"not", "and", "tautology", "eq", "identifier"} <= tags
    ensures ArgNames(tags, LuckyNumber) == Ok({VStr("lucky_number")})
  {
    var taut, id := VList([VStr("tautology")]), Ident("lucky_number");
    var eq := VList([VStr("eq"), id, VInt(777)]);
    var and := VList([VStr("and"), taut, eq]);
    FormNames2(tags, "eq", id, VInt(777));
    FormNames2(tags, "and", taut, eq);
    FormNames1(tags, "not", and);
    assert {} + ({VStr("lucky_number")} + {}) == {VStr("lucky_number")};
  }

  /** `not (True and lucky_number == 777)` as a tree. */
  const LuckyBody: Node :=
    UnaryNot(BoolOp(And, [NameConstant(true), Compare(Name(VStr("lucky_number")), [Eq], [Num(777)])]))

  lemma LuckyCall(def: Definition, n: int)
    requires def.params == [VStr("lucky_number")] && def.body == LuckyBody
    ensures Invoke(def, map[], [VInt(n)]) == Val(VBool(n != 777))
  {
    var cmp := Compare(Name(VStr("lucky_number")), [Eq], [Num(777)]);
    InvokeEmpty(def, [VInt(n)]);
    Bind1("lucky_number", VInt(n));
    var env := map["lucky_number" := VInt(n)];
    EvalCompare(Name(VStr("lucky_number")), Eq, Num(777), env);
    EvalAnd2(NameConstant(true), cmp, env, true, n == 777);
  }

  lemma EnumeratesOne(params: seq<Value>, a: Value)
    requires Enumerates(params, {a})
    ensures params == [a]
  {
    assert params[0] in {a};
  }

  lemma EnumeratesTwo(params: seq<Value>, a: Value, b: Value)
    requires a != b && Enumerates(params, {a, b})
    ensures params == [a, b] || params == [b, a]
  {
    assert params[0] in {a, b} && params[1] in {a, b} && params[0] != params[1];
  }

  lemma Bind1(p: string, x: Value)
    ensures Bind([VStr(p)], [x]) == map[p := x]
  {
    assert [VStr(p)][..0] == [] && [x][..0] == [];
  }

  lemma Bind2(p: string, q: string, x: Value, y: Value)
    ensures Bind([VStr(p), VStr(q)], [x, y]) == map[p := x][q := y]
  {
    assert [VStr(p), VStr(q)][..1] == [VStr(p)] && [x, y][..1] == [x];
    Bind1(p, x);
  }

  lemma EvalCompare(l: Node, op: CmpOp, c: Node, env: map<string, Value>)
    requires Eval(l, env).Val? && Eval(c, env).Val?
    ensures Eval(Compare(l, [op], [c]), env) == Comparison(op, Eval(l, env).v, Eval(c, env).v)
  {
    EvalAllAppend([], c, env);
    assert [] + [c] == [c];
  }

  lemma EvalAnd2(a: Node, b: Node, env: map<string, Value>, x: bool, y: bool)
    requires Eval(a, env) == Val(VBool(x)) && Eval(b, env) == Val(VBool(y))
    ensures Eval(BoolOp(And, [a, b]), env) == Val(VBool(x && y))
  {
    assert [a, b][0] == a && [a, b][1..] == [b] && [b][0] == b;
    assert EvalBool(And, [b], env) == Val(VBool(y));
  }

  lemma EvalOr2(a: Node, b: Node, env: map<string, Value>, x: bool, y: bool)
    requires Eval(a, env) == Val(VBool(x)) && Eval(b, env) == Val(VBool(y))
    ensures Eval(BoolOp(Or, [a, b]), env) == Val(VBool(x || y))
  {
    assert [a, b][0] == a && [a, b][1..] == [b] && [b][0] == b;
    assert EvalBool(Or, [b], env) == Val(VBool(y));
  }

  /** A closure-free call: the arguments are the whole environment. */
  lemma InvokeEmpty(def: Definition, args: seq<Value>)
    requires forall i :: 0 <= i < |def.params| ==> def.params[i].VStr?
    requires Distinct(def.params) && |args| == |def.params|
    ensures Invoke(def, map[], args) == Eval(def.body, Bind(def.params, args))
  {
    UnionEmpty(Bind(def.params, args));
  }

  lemma UnionEmpty(m: map<string, Value>)
    ensures map[] + m == m && m + map[] == m
  {
  }

  /** A call without parameters or arguments evaluates the body over the closure. */
  lemma InvokeNoArgs(def: Definition, env: map<string, Value>)
    requires def.params == []
    ensures Invoke(def, env, []) == Eval(def.body, env)
  {
    var none: seq<Value> := [];
    assert Bind(none, none) == map[];
    UnionEmpty(env);
  }

  // -------------------------------------------------------------------
  // not (P or Q)

  const NotOr: Value := VList([VStr("not"), VList([VStr("or"), Ident("P"), Ident("Q")])])

  const NotOrBody: Node := UnaryNot(BoolOp(Or, [Name(VStr("P")), Name(VStr("Q"))]))

  lemma NotOrTranslation(tags: set<string>, next: nat)
    requires {"not", "or", "identifier"} <= tags
    ensures ArgNames(tags, NotOr) == Ok({VStr("P"), VStr("Q")})
    ensures Translation(tags, NotOr, map[], next, Prefix) == Ok(Step(NotOrBody, map[], next))
  {
    var or := VList([VStr("or"), Ident("P"), Ident("Q")]);
    IdentForm(tags, "P", map[], next);
    IdentForm(tags, "Q", map[], next);
    FormNames2(tags, "or", Ident("P"), Ident("Q"));
    FormNames1(tags, "not", or);
    assert {VStr("P")} + {VStr("Q")} == {VStr("P"), VStr("Q")};
    Form2(tags, "or", Ident("P"), Ident("Q"), map[], next);
    Form1(tags, "not", or, map[], next);
  }

  lemma NotOrCall(def: Definition, p: bool, q: bool)
    requires def.params == [VStr("P"), VStr("Q")] || def.params == [VStr("Q"), VStr("P")]
    requires def.body == NotOrBody
    ensures Invoke(def, map[], [VBool(p), VBool(q)]) == Val(VBool(!p && !q))
  {
    var params := def.params;
    InvokeEmpty(def, [VBool(p), VBool(q)]);
    var env := Bind(params, [VBool(p), VBool(q)]);
    if params == [VStr("P"), VStr("Q")] {
      Bind2("P", "Q", VBool(p), VBool(q));
      NotOrEval(env, p, q);
    } else {
      Bind2("Q", "P", VBool(p), VBool(q));
      NotOrEval(env, q, p);
    }
  }

  /** `not (P or Q)` over an environment binding `P` and `Q` to booleans. */
  lemma NotOrEval(env: map<string, Value>, x: bool, y: bool)
    requires "P" in env && "Q" in env
    requires env["P"] == VBool(x) && env["Q"] == VBool(y)
    ensures Eval(NotOrBody, env) == Val(VBool(!x && !y))
  {
    EvalOr2(Name(VStr("P")), Name(VStr("Q")), env, x, y);
  }

  /**
   * Two arguments make a function; whichever order the argument set is
   * listed in, it computes `not P and not Q`.
   */
  lemma NotOrExample(g: Grammar, params: seq<Value>, next: nat, p: bool, q: bool)
    requires {"not", "or", "identifier"} <= g.tags && g.matches(NotOr)
    requires Enumerates(params, {VStr("P"), VStr("Q")})
    ensures var r := Assembled(g, NotOr, "", false, false, params, next);
      && r.Compiled? && r.def.FunctionDef?
      && Invoke(r.def, r.env, [VBool(p), VBool(q)]) == Val(VBool(!p && !q))
  {
    NotOrAssembled(g, params, next);
    NotOrCall(Assembled(g, NotOr, "", false, false, params, next).def, p, q);
  }

  lemma NotOrAssembled(g: Grammar, params: seq<Value>, next: nat)
    requires {"not", "or", "identifier"} <= g.tags && g.matches(NotOr)
    requires Enumerates(params, {VStr("P"), VStr("Q")})
    ensures var r := Assembled(g, NotOr, "", false, false, params, next);
      && r.Compiled? && r.def.FunctionDef? && r.def.params == params && r.def.body == NotOrBody && r.env == map[]
      && (params == [VStr("P"), VStr("Q")] || params == [VStr("Q"), VStr("P")])
  {
    NotOrTranslation(g.tags, next);
    EnumeratesTwo(params, VStr("P"), VStr("Q"));
    assert forall i :: 0 <= i < |params| ==> params[i].VStr?;
    NotOrCompiles();
    AssembledShape(g, NotOr, "", false, false, params, next);
  }

  // -------------------------------------------------------------------
  // num in [1, 2, 3] and num >= 2

  const InRange: Value :=
    VList([VStr("and"),
      VList([VStr("in"), Ident("num"), VList([VInt(1), VInt(2), VInt(3)])]),
      VList([VStr("gte"), Ident("num"), VInt(2)])])

  const InRangeBody: Node :=
    BoolOp(And, [
      Compare(Name(VStr("num")), [In], [List([Num(1), Num(2), Num(3)])]),
      Compare(Name(VStr("num")), [GtE], [Num(2)])])

  /** One more integer literal at the end of a literal list. */
  lemma ElementsLiteral(es: seq<Value>, ns: seq<Node>, x: int, cl: map<string, Value>, next: nat)
    requires Elements(es, cl, next, Prefix) == Step(ns, cl, next)
    ensures Elements(es + [VInt(x)], cl, next, Prefix) == Step(ns + [Num(x)], cl, next)
  {
    assert (es + [VInt(x)])[..|es|] == es;
  }

  lemma ListLiteral(cl: map<string, Value>, next: nat)
    ensures Terminal(VList([VInt(1), VInt(2), VInt(3)]), cl, next, Prefix) == Step(List([Num(1), Num(2), Num(3)]), cl, next)
  {
    ElementsLiteral([], [], 1, cl, next);
    assert [] + [VInt(1)] == [VInt(1)] && [] + [Num(1)] == [Num(1)];
    ElementsLiteral([VInt(1)], [Num(1)], 2, cl, next);
    assert [VInt(1)] + [VInt(2)] == [VInt(1), VInt(2)] && [Num(1)] + [Num(2)] == [Num(1), Num(2)];
    ElementsLiteral([VInt(1), VInt(2)], [Num(1), Num(2)], 3, cl, next);
    assert [VInt(1), VInt(2)] + [VInt(3)] == [VInt(1), VInt(2), VInt(3)];
    assert [Num(1), Num(2)] + [Num(3)] == [Num(1), Num(2), Num(3)];
  }

  lemma ListTranslation(tags: set<string>, next: nat)
    ensures var list := VList([VInt(1), VInt(2), VInt(3)]);
      && ArgNames(tags, list) == Ok({})
      && Translation(tags, list, map[], next, Prefix) == Ok(Step(List([Num(1), Num(2), Num(3)]), map[], next))
  {
    var list := VList([VInt(1), VInt(2), VInt(3)]);
    assert !IsTagged(tags, list);
    TerminalPath(tags, list, map[], next, Prefix);
    ListLiteral(map[], next);
  }

  lemma InTestTranslation(tags: set<string>, next: nat)
    requires {"in", "identifier"} <= tags
    ensures var inn := VList([VStr("in"), Ident("num"), VList([VInt(1), VInt(2), VInt(3)])]);
      && ArgNames(tags, inn) == Ok({VStr("num")})
      && Translation(tags, inn, map[], next, Prefix) == Ok(Step(InRangeBody.values[0], map[], next))
  {
    var id, list := Ident("num"), VList([VInt(1), VInt(2), VInt(3)]);
    IdentForm(tags, "num", map[], next);
    ListTranslation(tags, next);
    FormNames2(tags, "in", id, list);
    assert {VStr("num")} + {} == {VStr("num")};
    Nodes.ComparisonSemantics("in", Name(VStr("num")), List([Num(1), Num(2), Num(3)]), map[]);
    Form2(tags, "in", id, list, map[], next);
  }

  lemma BoundTranslation(tags: set<string>, next: nat)
    requires {"gte", "identifier"} <= tags
    ensures var gte := VList([VStr("gte"), Ident("num"), VInt(2)]);
      && ArgNames(tags, gte) == Ok({VStr("num")})
      && Translation(tags, gte, map[], next, Prefix) == Ok(Step(InRangeBody.values[1], map[], next))
  {
    var id := Ident("num");
    IdentForm(tags, "num", map[], next);
    FormNames2(tags, "gte", id, VInt(2));
    assert {VStr("num")} + {} == {VStr("num")};
    Nodes.ComparisonSemantics("gte", Name(VStr("num")), Num(2), map[]);
    Form2(tags, "gte", id, VInt(2), map[], next);
  }

  lemma InRangeTranslation(tags: set<string>, next: nat)
    requires {"and", "in", "gte", "identifier"} <= tags
    ensures ArgNames(tags, InRange) == Ok({VStr("num")})
    ensures Translation(tags, InRange, map[], next, Prefix) == Ok(Step(InRangeBody, map[], next))
  {
    var inn := VList([VStr("in"), Ident("num"), VList([VInt(1), VInt(2), VInt(3)])]);
    var gte := VList([VStr("gte"), Ident("num"), VInt(2)]);
    InTestTranslation(tags, next);
    BoundTranslation(tags, next);
    FormNames2(tags, "and", inn, gte);
    assert {VStr("num")} + {VStr("num")} == {VStr("num")};
    var t := Translation(tags, inn, map[], next, Prefix).value;
    var u := Translation(tags, gte, map[], next, Prefix).value;
    assert t == Step(InRangeBody.values[0], map[], next) && u == Step(InRangeBody.values[1], map[], next);
    Nodes.BoolOpSemantics([t.out, u.out], map[]);
    assert [t.out, u.out] == InRangeBody.values;
    Form2(tags, "and", inn, gte, map[], next);
    assert InRange == VList([VStr("and"), inn, gte]);
  }

  lemma ListEval(env: map<string, Value>)
    ensures Eval(List([Num(1), Num(2), Num(3)]), env) == Val(VList([VInt(1), VInt(2), VInt(3)]))
  {
    var list := [Num(1), Num(2), Num(3)];
    var vs := [VInt(1), VInt(2), VInt(3)];
    EvalAllAppend([], Num(1), env);
    assert [] + [Num(1)] == [Num(1)] && [] + [VInt(1)] == [VInt(1)];
    EvalAllAppend([Num(1)], Num(2), env);
    assert [Num(1)] + [Num(2)] == [Num(1), Num(2)] && [VInt(1)] + [VInt(2)] == [VInt(1), VInt(2)];
    EvalAllAppend([Num(1), Num(2)], Num(3), env);
    assert [Num(1), Num(2)] + [Num(3)] == list && [VInt(1), VInt(2)] + [VInt(3)] == vs;
  }

  lemma InCall(n: int)
    ensures Eval(InRangeBody.values[0], map["num" := VInt(n)]) == Val(VBool(1 <= n <= 3))
  {
    var env := map["num" := VInt(n)];
    var list := [Num(1), Num(2), Num(3)];
    var vs := [VInt(1), VInt(2), VInt(3)];
    ListEval(env);
    EvalCompare(Name(VStr("num")), In, List(list), env);
    assert (exists i :: 0 <= i < |vs| && PyEq(VInt(n), vs[i])) <==> 1 <= n <= 3 by {
      if 1 <= n <= 3 {
        assert PyEq(VInt(n), vs[n - 1]);
      }
    }
  }

  lemma BoundCall(n: int)
    ensures Eval(InRangeBody.values[1], map["num" := VInt(n)]) == Val(VBool(n >= 2))
  {
    EvalCompare(Name(VStr("num")), GtE, Num(2), map["num" := VInt(n)]);
  }

  lemma InRangeCall(n: int)
    ensures Eval(InRangeBody, map["num" := VInt(n)]) == Val(VBool(n == 2 || n == 3))
  {
    InCall(n);
    BoundCall(n);
    EvalAnd2(InRangeBody.values[0], InRangeBody.values[1], map["num" := VInt(n)], 1 <= n <= 3, n >= 2);
  }

  /** A lambda true exactly for 2 and 3: the list test first, then the bound. */
  lemma InRangeExample(g: Grammar, params: seq<Value>, next: nat, n: int)
    requires {"and", "in", "gte", "identifier"} <= g.tags && g.matches(InRange)
    requires Enumerates(params, {VStr("num")})
    ensures var r := Assembled(g, InRange, "", false, false, params, next);
      && r.Compiled? && r.def.LambdaAssign?
      && Invoke(r.def, r.env, [VInt(n)]) == Val(VBool(n == 2 || n == 3))
  {
    InRangeTranslation(g.tags, next);
    EnumeratesOne(params, VStr("num"));
    BodiesCompile();
    AssembledShape(g, InRange, "", false, false, params, next);
    var r := Assembled(g, InRange, "", false, false, params, next);
    InvokeEmpty(r.def, [VInt(n)]);
    Bind1("num", VInt(n));
    InRangeCall(n);
  }

  // -------------------------------------------------------------------
  // Opaque values

  /**
   * An object on its own compiles to a reference to it; calling the lambda
   * returns it, so the predicate holds exactly when the object is truthy.
   */
  lemma ObjectExample(g: Grammar, next: nat, obj: Value)
    requires obj.VOpaque? && g.matches(obj)
    ensures var r := Assembled(g, obj, "", false, false, [], next);
      && r.Compiled? && r.def.LambdaAssign? && |r.env| == 1
      && Invoke(r.def, r.env, []) == Val(obj)
      && (Truthy(Invoke(r.def, r.env, []).v) <==> obj.truth)
  {
    TerminalPath(g.tags, obj, map[], next, Prefix);
    AssembledShape(g, obj, "", false, false, [], next);
    var st := Terminal(obj, map[], next, Prefix);
    OpaqueBinding(obj, map[], next, Prefix);
    var key :| st.out == Name(VStr(key)) && st.closure == map[key := obj];
    var r := Assembled(g, obj, "", false, false, [], next);
    ObjectCall(r.def, key, obj);
  }

  lemma ObjectCall(def: Definition, key: string, obj: Value)
    requires def.params == [] && def.body == Name(VStr(key))
    ensures Invoke(def, map[key := obj], []) == Val(obj)
  {
    InvokeNoArgs(def, map[key := obj]);
  }

  const Neq: Value := VList([VStr("neq"), VOpaque(1, None, true), VOpaque(2, None, true)])

  /** The two objects of `Neq` are bound under distinct names. */
  lemma NeqTranslation(tags: set<string>, next: nat)
    requires "neq" in tags
    ensures var i1 := FreshIndex(Prefix, {}, next);
      var k1 := Generated(Prefix, i1);
      var i2 := FreshIndex(Prefix, {k1}, i1 + 1);
      var k2 := Generated(Prefix, i2);
      && k1 != k2
      && ArgNames(tags, Neq) == Ok({})
      && Translation(tags, Neq, map[], next, Prefix)
        == Ok(Step(Compare(Name(VStr(k1)), [NotEq], [Name(VStr(k2))]), map[k1 := VOpaque(1, None, true), k2 := VOpaque(2, None, true)], i2 + 1))
  {
    NeqArgNames(tags);
    Nodes.ComparisonTags();
    OpaqueComparison(tags, "neq", NotEq, next);
    assert Neq == VList([VStr("neq"), VOpaque(1, None, true), VOpaque(2, None, true)]);
  }

  /** A comparison of two opaque objects binds them under two distinct names, left first. */
  lemma OpaqueComparison(tags: set<string>, tag: string, op: CmpOp, next: nat)
    requires tag in tags && tag != "identifier" && Nodes.ComparisonOp(tag) == Some(op)
    ensures var i1 := FreshIndex(Prefix, {}, next);
      var k1 := Generated(Prefix, i1);
      var i2 := FreshIndex(Prefix, {k1}, i1 + 1);
      var k2 := Generated(Prefix, i2);
      && k1 != k2
      && Translation(tags, VList([VStr(tag), VOpaque(1, None, true), VOpaque(2, None, true)]), map[], next, Prefix)
        == Ok(Step(Compare(Name(VStr(k1)), [op], [Name(VStr(k2))]), map[k1 := VOpaque(1, None, true), k2 := VOpaque(2, None, true)], i2 + 1))
  {
    var o1, o2 := VOpaque(1, None, true), VOpaque(2, None, true);
    var i1 := FreshIndex(Prefix, {}, next);
    var k1 := Generated(Prefix, i1);
    var i2 := FreshIndex(Prefix, {k1}, i1 + 1);
    var k2 := Generated(Prefix, i2);
    var cl1: map<string, Value> := map[k1 := o1];
    var ta, tb := Step(Name(VStr(k1)), cl1, i1 + 1), Step(Name(VStr(k2)), map[k1 := o1, k2 := o2], i2 + 1);
    assert Translation(tags, o1, map[], next, Prefix) == Ok(ta) by {
      var empty: map<string, Value> := map[];
      assert empty.Keys == {};
      OpaqueOperand(tags, o1, empty, next);
    }
    assert Translation(tags, o2, cl1, i1 + 1, Prefix) == Ok(tb) by {
      assert cl1.Keys == {k1};
      OpaqueOperand(tags, o2, cl1, i1 + 1);
    }
    Nodes.ComparisonSemantics(tag, ta.out, tb.out, map[]);
    Form2At(tags, tag, o1, o2, map[], next, ta, tb, Compare(Name(VStr(k1)), [op], [Name(VStr(k2))]));
  }

  lemma NeqArgNames(tags: set<string>)
    requires "neq" in tags
    ensures ArgNames(tags, Neq) == Ok({})
  {
    FormNames2(tags, "neq", VOpaque(1, None, true), VOpaque(2, None, true));
  }

  /** An opaque operand is bound under the first free generated name. */
  lemma OpaqueOperand(tags: set<string>, o: Value, cl: map<string, Value>, next: nat)
    requires o.VOpaque?
    ensures var i := FreshIndex(Prefix, cl.Keys, next);
      Translation(tags, o, cl, next, Prefix) == Ok(Step(Name(VStr(Generated(Prefix, i))), cl[Generated(Prefix, i) := o], i + 1))
  {
  }

  lemma NeqCall(k1: string, k2: string)
    requires k1 != k2
    ensures var env := map[k1 := VOpaque(1, None, true), k2 := VOpaque(2, None, true)];
      |env| == 2 && Eval(Compare(Name(VStr(k1)), [NotEq], [Name(VStr(k2))]), env) == Val(VBool(true))
  {
    var env := map[k1 := VOpaque(1, None, true), k2 := VOpaque(2, None, true)];
    EvalCompare(Name(VStr(k1)), NotEq, Name(VStr(k2)), env);
  }

  /** Two distinct objects are compared through their bindings: the predicate is true. */
  lemma DistinctObjectsExample(g: Grammar, next: nat)
    requires "neq" in g.tags && g.matches(Neq)
    ensures var r := Assembled(g, Neq, "", false, false, [], next);
      && r.Compiled? && r.def.LambdaAssign? && |r.env| == 2
      && Invoke(r.def, r.env, []) == Val(VBool(true))
  {
    NeqAssembled(g, next);
    var r := Assembled(g, Neq, "", false, false, [], next);
    NeqInvoke(r.def, r.env);
  }

  /** `k1 != k2` over two distinct names bound to the two objects of `Neq`. */
  predicate NeqShape(body: Node, env: map<string, Value>) {
    && body.Compare? && body.ops == [NotEq] && |body.comparators| == 1
    && body.left.Name? && body.left.id.VStr? && body.comparators[0].Name? && body.comparators[0].id.VStr?
    && body.left.id.s != body.comparators[0].id.s
    && env == map[body.left.id.s := VOpaque(1, None, true), body.comparators[0].id.s := VOpaque(2, None, true)]
  }

  lemma NeqInvoke(def: Definition, env: map<string, Value>)
    requires def.params == [] && NeqShape(def.body, env)
    ensures |env| == 2 && Invoke(def, env, []) == Val(VBool(true))
  {
    var k1, k2 := def.body.left.id.s, def.body.comparators[0].id.s;
    assert def.body == Compare(Name(VStr(k1)), [NotEq], [Name(VStr(k2))]);
    InvokeNoArgs(def, env);
    NeqCall(k1, k2);
  }

  lemma NeqAssembled(g: Grammar, next: nat)
    requires "neq" in g.tags && g.matches(Neq)
    ensures var r := Assembled(g, Neq, "", false, false, [], next);
      && r.Compiled? && r.def.LambdaAssign? && r.def.params == [] && NeqShape(r.def.body, r.env)
  {
    NeqTranslation(g.tags, next);
    var i1 := FreshIndex(Prefix, {}, next);
    var k1 := Generated(Prefix, i1);
    var k2 := Generated(Prefix, FreshIndex(Prefix, {k1}, i1 + 1));
    var body := Compare(Name(VStr(k1)), [NotEq], [Name(VStr(k2))]);
    assert Compilable(body);
    AssembledShape(g, Neq, "", false, false, [], next);
    assert NeqShape(body, map[k1 := VOpaque(1, None, true), k2 := VOpaque(2, None, true)]);
  }

  // -------------------------------------------------------------------
  // Keyword arguments

  const LivesIn: Value :=
    VList([VStr("and"),
      VList([VStr("eq"), Ident("lives_in"), VStr("London")]),
      VList([VStr("eq"), Ident("name"), VStr("John")])])

  const LivesInBody: Node :=
    BoolOp(And, [
      Compare(Name(VStr("lives_in")), [Eq], [Str("London")]),
      Compare(Name(VStr("name")), [Eq], [Str("John")])])

  /** `eq(identifier(name), literal)` compiles to the comparison of the name with the string. */
  lemma EqualsString(tags: set<string>, name: string, lit: string, next: nat)
    requires {"eq", "identifier"} <= tags
    ensures var form := VList([VStr("eq"), Ident(name), VStr(lit)]);
      && ArgNames(tags, form) == Ok({VStr(name)})
      && Translation(tags, form, map[], next, Prefix) == Ok(Step(Compare(Name(VStr(name)), [Eq], [Str(lit)]), map[], next))
  {
    IdentForm(tags, name, map[], next);
    FormNames2(tags, "eq", Ident(name), VStr(lit));
    assert {VStr(name)} + {} == {VStr(name)};
    Nodes.ComparisonSemantics("eq", Name(VStr(name)), Str(lit), map[]);
    Form2(tags, "eq", Ident(name), VStr(lit), map[], next);
  }

  lemma LivesInTranslation(tags: set<string>, next: nat)
    requires {"and", "eq", "identifier"} <= tags
    ensures ArgNames(tags, LivesIn) == Ok({VStr("lives_in"), VStr("name")})
    ensures Translation(tags, LivesIn, map[], next, Prefix) == Ok(Step(LivesInBody, map[], next))
  {
    var a := VList([VStr("eq"), Ident("lives_in"), VStr("London")]);
    var b := VList([VStr("eq"), Ident("name"), VStr("John")]);
    EqualsString(tags, "lives_in", "London", next);
    EqualsString(tags, "name", "John", next);
    assert LivesIn == VList([VStr("and"), a, b]);
    assert ArgNames(tags, LivesIn) == Ok({VStr("lives_in"), VStr("name")}) by {
      FormNames2(tags, "and", a, b);
      assert {VStr("lives_in")} + {VStr("name")} == {VStr("lives_in"), VStr("name")};
    }
    Nodes.BoolOpSemantics(LivesInBody.values, map[]);
    assert [LivesInBody.values[0], LivesInBody.values[1]] == LivesInBody.values;
    Form2(tags, "and", a, b, map[], next);
  }

  lemma LivesInCall(who: string)
    ensures Eval(LivesInBody, map["name" := VStr(who), "lives_in" := VStr("London")]) == Val(VBool(who == "John"))
  {
    var env := map["name" := VStr(who), "lives_in" := VStr("London")];
    var a := Compare(Name(VStr("lives_in")), [Eq], [Str("London")]);
    var b := Compare(Name(VStr("name")), [Eq], [Str("John")]);
    EvalCompare(Name(VStr("lives_in")), Eq, Str("London"), env);
    EvalCompare(Name(VStr("name")), Eq, Str("John"), env);
    EvalAnd2(a, b, env, true, who == "John");
  }

  lemma LivesInKeywords(def: Definition, who: string)
    requires Enumerates(def.params, {VStr("lives_in"), VStr("name")}) && def.body == LivesInBody
    ensures InvokeKeywords(def, map[], map["name" := VStr(who), "lives_in" := VStr("London")]) == Val(VBool(who == "John"))
  {
    EnumeratesTwo(def.params, VStr("lives_in"), VStr("name"));
    assert (set i | 0 <= i < |def.params| :: def.params[i].s) == {"lives_in", "name"} by {
      assert def.params[0].s in {"lives_in", "name"} && def.params[1].s in {"lives_in", "name"};
    }
    var empty: map<string, Value> := map[];
    var kw := map["name" := VStr(who), "lives_in" := VStr("London")];
    assert empty + kw == kw;
    LivesInCall(who);
  }

  /**
   * Called with keyword arguments, in whichever order the parameters were
   * listed: true for John in London, false for Mark in London.
   */
  lemma LivesInExample(g: Grammar, params: seq<Value>, next: nat)
    requires {"and", "eq", "identifier"} <= g.tags && g.matches(LivesIn)
    requires Enumerates(params, {VStr("lives_in"), VStr("name")})
    ensures var r := Assembled(g, LivesIn, "", false, false, params, next);
      && r.Compiled? && r.def.FunctionDef?
      && InvokeKeywords(r.def, r.env, map["name" := VStr("John"), "lives_in" := VStr("London")]) == Val(VBool(true))
      && InvokeKeywords(r.def, r.env, map["name" := VStr("Mark"), "lives_in" := VStr("London")]) == Val(VBool(false))
  {
    LivesInAssembled(g, params, next);
    var r := Assembled(g, LivesIn, "", false, false, params, next);
    LivesInKeywords(r.def, "John");
    LivesInKeywords(r.def, "Mark");
  }

  lemma LivesInAssembled(g: Grammar, params: seq<Value>, next: nat)
    requires {"and", "eq", "identifier"} <= g.tags && g.matches(LivesIn)
    requires Enumerates(params, {VStr("lives_in"), VStr("name")})
    ensures var r := Assembled(g, LivesIn, "", false, false, params, next);
      && r.Compiled? && r.def.FunctionDef? && r.def.params == params && r.def.body == LivesInBody && r.env == map[]
  {
    LivesInTranslation(g.tags, next);
    EnumeratesTwo(params, VStr("lives_in"), VStr("name"));
    LivesInCompiles();
    AssembledShape(g, LivesIn, "", false, false, params, next);
  }

  // -------------------------------------------------------------------

  /** The trees of the examples above are ones the host compiles. */
  lemma BodiesCompile()
    ensures Compilable(LuckyBody) && Compilable(NotOrBody)
    ensures Compilable(InRangeBody) && Compilable(LivesInBody)
  {
    LuckyCompiles();
    NotOrCompiles();
    InRangeCompiles();
    LivesInCompiles();
  }

  lemma LuckyCompiles()
    ensures Compilable(LuckyBody)
  {
    var cmp := Compare(Name(VStr("lucky_number")), [Eq], [Num(777)]);
    assert Compilable(cmp);
    assert Compilable(BoolOp(And, [NameConstant(true), cmp]));
  }

  lemma NotOrCompiles()
    ensures Compilable(NotOrBody)
  {
    assert Compilable(BoolOp(Or, [Name(VStr("P")), Name(VStr("Q"))]));
  }

  lemma InRangeCompiles()
    ensures Compilable(InRangeBody)
  {
    assert Compilable(List([Num(1), Num(2), Num(3)]));
    assert Compilable(InRangeBody.values[0]);
    assert Compilable(InRangeBody.values[1]);
  }

  lemma LivesInCompiles()
    ensures Compilable(LivesInBody)
  {
    assert Compilable(LivesInBody.values[0]);
    assert Compilable(LivesInBody.values[1]);
  }
}
