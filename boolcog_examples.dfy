/**
 * The repository's tests of the `boolcog` compiler, and the example on which
 * it and `auk` part ways.
 */
module BoolcogExamples {
  import opened Values
  import opened Ast
  import opened Names
  import opened Binder
  import opened Semantics
  import opened Boolcog
  import Auk
  import AukExamples

  lemma Operands2(tags: set<string>, a: Value, b: Value, scope: map<string, Value>, next: nat)
    requires Coercion(tags, a, map[], next).Ok?
    requires Coercion(tags, b, map[], Coercion(tags, a, map[], next).value.next).Ok?
    ensures var t := Coercion(tags, a, map[], next).value;
      var u := Coercion(tags, b, map[], t.next).value;
      CoercionOperands(tags, [a, b], scope, next) == Ok(Step([t.out, u.out], u.closure, u.next))
  {
    var t := Coercion(tags, a, map[], next).value;
    var u := Coercion(tags, b, map[], t.next).value;
    assert [a, b][..1] == [a] && [a][..0] == [];
    assert CoercionOperands(tags, [], scope, next) == Ok(Step([], scope, next));
    assert [] + [t.out] == [t.out];
    assert CoercionOperands(tags, [a], scope, next) == Ok(Step([t.out], t.closure, t.next));
    assert [t.out] + [u.out] == [t.out, u.out];
  }

  /** A two-operand comparison form: the scope is the second operand's. */
  lemma Comparison2(tags: set<string>, tag: string, a: Value, b: Value, next: nat)
    requires tag in tags && Nodes.ComparisonOp(tag).Some?
    requires Coercion(tags, a, map[], next).Ok?
    requires Coercion(tags, b, map[], Coercion(tags, a, map[], next).value.next).Ok?
    ensures var t := Coercion(tags, a, map[], next).value;
      var u := Coercion(tags, b, map[], t.next).value;
      Coercion(tags, VList([VStr(tag), a, b]), map[], next)
        == Ok(Step(Compare(t.out, [Nodes.ComparisonOp(tag).value], [u.out]), u.closure, u.next))
  {
    var v := VList([VStr(tag), a, b]);
    assert IsTagged(tags, v) && TagOf(tags, v) == tag && tag != "identifier";
    assert v.elems[1..] == [a, b];
    Operands2(tags, a, b, map[], next);
    var t := Coercion(tags, a, map[], next).value;
    var u := Coercion(tags, b, map[], t.next).value;
    Nodes.ComparisonSemantics(tag, t.out, u.out, map[]);
  }

  /** `func()` is true; `func(0)` is refused for its argument. */
  lemma TautologyExample(g: Grammar, next: nat)
    requires "tautology" in g.tags && g.matches(VList([VStr("tautology")]))
    ensures var r := Assembled(g, VList([VStr("tautology")]), [], "", next);
      && r == Auk.Compiled(FunctionDef("foo", [], NameConstant(true)), map[])
      && Invoke(r.def, r.env, []) == Val(VBool(true))
      && Invoke(r.def, r.env, [VInt(0)]) == Fail(TypeError)
  {
    assert VList([VStr("tautology")]).elems[1..] == [];
    var none: seq<Value> := [];
    var empty: map<string, Value> := map[];
    assert empty + Bind(none, none) == empty;
  }

  /** `func()` is false; `func(0)` is refused for its argument. */
  lemma ContradictionExample(g: Grammar, next: nat)
    requires "contradiction" in g.tags && g.matches(VList([VStr("contradiction")]))
    ensures var r := Assembled(g, VList([VStr("contradiction")]), [], "", next);
      && r == Auk.Compiled(FunctionDef("foo", [], NameConstant(false)), map[])
      && Invoke(r.def, r.env, []) == Val(VBool(false))
      && Invoke(r.def, r.env, [VInt(0)]) == Fail(TypeError)
  {
    assert VList([VStr("contradiction")]).elems[1..] == [];
    var none: seq<Value> := [];
    var empty: map<string, Value> := map[];
    assert empty + Bind(none, none) == empty;
  }

  function EqualsBar(v: Value): Value {
    VList([VStr("eq"), VList([VStr("identifier"), VStr("bar")]), v])
  }

  /** The scope of `eq(bar, v)` holds only names issued for `v`, and never `bar`. */
  lemma EqualsBarTranslation(tags: set<string>, v: Value, next: nat)
    requires {"eq", "identifier"} <= tags && !IsTagged(tags, v)
    ensures var st := Terminal(v, map[], next, Prefix);
      && Coercion(tags, EqualsBar(v), map[], next) == Ok(Step(Compare(Name(VStr("bar")), [Eq], [st.out]), st.closure, st.next))
      && "bar" !in st.closure
  {
    var id := VList([VStr("identifier"), VStr("bar")]);
    assert Coercion(tags, id, map[], next) == Ok(Step(Name(VStr("bar")), map[], next));
    Comparison2(tags, "eq", id, v, next);
    TerminalIssued(v, map[], next, Prefix);
    var st := Terminal(v, map[], next, Prefix);
    assert "bar"[..2][0] == 'b' && Prefix[0] == '_';
    IssuedPrefixed(Prefix, next, st.next, "bar");
  }

  /**
   * Comparing the argument with a value compiled into the scope: called
   * with that same value, the function is true, whether the value is an
   * object, a container of objects or a literal.
   */
  lemma ObjectLiteralExample(g: Grammar, v: Value, next: nat)
    requires {"eq", "identifier"} <= g.tags && g.matches(EqualsBar(v))
    requires !IsTagged(g.tags, v) && Plain(v)
    ensures var r := Assembled(g, EqualsBar(v), [VStr("bar")], "", next);
      && r.Compiled? && r.def.FunctionDef? && r.def.name == "foo" && r.def.params == [VStr("bar")]
      && Invoke(r.def, r.env, [v]) == Val(VBool(true))
  {
    EqualsBarAssembled(g, v, next);
    var st := Terminal(v, map[], next, Prefix);
    EqualsBarCall(v, st.closure, next);
  }

  lemma EqualsBarAssembled(g: Grammar, v: Value, next: nat)
    requires {"eq", "identifier"} <= g.tags && g.matches(EqualsBar(v))
    requires !IsTagged(g.tags, v)
    ensures var st := Terminal(v, map[], next, Prefix);
      var r := Assembled(g, EqualsBar(v), [VStr("bar")], "", next);
      && r.Compiled? && r.env == st.closure && "bar" !in st.closure
      && r.def == Auk.DefineFunc("foo", [VStr("bar")], Compare(Name(VStr("bar")), [Eq], [st.out]))
  {
    EqualsBarTranslation(g.tags, v, next);
    var st := Terminal(v, map[], next, Prefix);
    TerminalCompilable(v, map[], next, Prefix);
    assert Compilable(Compare(Name(VStr("bar")), [Eq], [st.out]));
    AssembledShape(g, EqualsBar(v), [VStr("bar")], "", next);
  }

  lemma EqualsBarCall(v: Value, scope: map<string, Value>, next: nat)
    requires Plain(v) && "bar" !in scope
    requires scope == Terminal(v, map[], next, Prefix).closure
    ensures var body := Compare(Name(VStr("bar")), [Eq], [Terminal(v, map[], next, Prefix).out]);
      Invoke(Auk.DefineFunc("foo", [VStr("bar")], body), scope, [v]) == Val(VBool(true))
  {
    var st := Terminal(v, map[], next, Prefix);
    AukExamples.Bind1("bar", v);
    var env := scope + map["bar" := v];
    assert Extends(scope, env);
    TerminalRoundTrip(v, map[], next, Prefix, env);
    PyEqReflexive(v);
    AukExamples.EvalCompare(Name(VStr("bar")), Eq, st.out, env);
  }

  /** The first object's binding is created in a scope that is then dropped. */
  lemma NeqCoercion(tags: set<string>, next: nat)
    requires "neq" in tags
    ensures var i1 := FreshIndex(Prefix, {}, next);
      var i2 := FreshIndex(Prefix, {}, i1 + 1);
      var k1, k2 := Generated(Prefix, i1), Generated(Prefix, i2);
      && k1 != k2
      && Coercion(tags, AukExamples.Neq, map[], next)
        == Ok(Step(Compare(Name(VStr(k1)), [NotEq], [Name(VStr(k2))]), map[k2 := VOpaque(2, None, true)], i2 + 1))
  {
    var o1, o2 := VOpaque(1, None, true), VOpaque(2, None, true);
    var i1 := FreshIndex(Prefix, {}, next);
    var k1 := Generated(Prefix, i1);
    var i2 := FreshIndex(Prefix, {}, i1 + 1);
    var k2 := Generated(Prefix, i2);
    var empty: map<string, Value> := map[];
    assert empty.Keys == {};
    assert Coercion(tags, o1, map[], next) == Ok(Step(Name(VStr(k1)), empty[k1 := o1], i1 + 1));
    assert Coercion(tags, o2, map[], i1 + 1) == Ok(Step(Name(VStr(k2)), empty[k2 := o2], i2 + 1));
    Comparison2(tags, "neq", o1, o2, next);
    if k1 == k2 {
      GeneratedInjective(Prefix, i1, i2);
      assert false;
    }
  }

  lemma NeqDangling(k1: string, k2: string)
    requires k1 != k2
    ensures Invoke(Auk.DefineFunc("foo", [], Compare(Name(VStr(k1)), [NotEq], [Name(VStr(k2))])), map[k2 := VOpaque(2, None, true)], [])
      == Fail(NameError)
  {
    var none: seq<Value> := [];
    var env := map[k2 := VOpaque(2, None, true)];
    assert env + Bind(none, none) == env;
    assert Eval(Name(VStr(k1)), env) == Fail(NameError);
  }

  /**
   * The expression comparing two distinct objects.  `boolcog` binds the
   * first object in a scope it then drops: the predicate refers to a name
   * it cannot find, where `auk` keeps both bindings and yields true.
   */
  lemma DroppedBindingExample(g: Grammar, next: nat)
    requires "neq" in g.tags && g.matches(AukExamples.Neq)
    ensures var r := Assembled(g, AukExamples.Neq, [], "", next);
      && r.Compiled? && |r.env| == 1
      && Invoke(r.def, r.env, []) == Fail(NameError)
    ensures var r := Auk.Assembled(g, AukExamples.Neq, "", false, false, [], next);
      && r.Compiled? && |r.env| == 2
      && Invoke(r.def, r.env, []) == Val(VBool(true))
  {
    NeqCoercion(g.tags, next);
    var i1 := FreshIndex(Prefix, {}, next);
    var k1, k2 := Generated(Prefix, i1), Generated(Prefix, FreshIndex(Prefix, {}, i1 + 1));
    NeqDangling(k1, k2);
    assert Compilable(Compare(Name(VStr(k1)), [NotEq], [Name(VStr(k2))]));
    AukExamples.DistinctObjectsExample(g, next);
  }
}
