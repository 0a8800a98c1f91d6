/**
 * `compile_terminal`, shared by both compilers (they differ only in the prefix
 * of generated names): a terminal becomes a literal node, a container node
 * compiled element by element, or, for an opaque value, a reference to a fresh
 * name bound to the value in the closure.
 *
 * `Terminal` and its two helpers specify the compilation on values; the
 * `Closure` class and the `Compile...` methods carry it out in place, the way
 * the source mutates its closure dictionary.
 */
module Binder {
  import opened Values
  import opened Ast
  import opened Names
  import Semantics

  /** What one compilation step yields, with the closure and name counter after it. */
  datatype Step<+T> = Step(out: T, closure: map<string, Value>, next: nat)

  function Terminal(v: Value, cl: map<string, Value>, next: nat, prefix: string): Step<Node>
    decreases v
  {
    match v
    case VBool(b) => Step(NameConstant(b), cl, next)
    case VInt(i) => Step(Num(i), cl, next)
    case VStr(s) => Step(Str(s), cl, next)
    case VBytes(bs) => Step(Bytes(bs), cl, next)
    case VList(es) => var st := Elements(es, cl, next, prefix); Step(List(st.out), st.closure, st.next)
    case VTuple(es) => var st := Elements(es, cl, next, prefix); Step(Tuple(st.out), st.closure, st.next)
    case VSet(es) => var st := Elements(es, cl, next, prefix); Step(Set(st.out), st.closure, st.next)
    case VDict(es) => var st := Entries(es, cl, next, prefix); Step(Dict(st.out.0, st.out.1), st.closure, st.next)
    case VOpaque(_, _, _) =>
      var i := FreshIndex(prefix, cl.Keys, next);
      var name := Generated(prefix, i);
      Step(Name(VStr(name)), cl[name := v], i + 1)
  }

  /** Container elements, compiled in iteration order with the closure threaded through. */
  function Elements(es: seq<Value>, cl: map<string, Value>, next: nat, prefix: string): Step<seq<Node>>
    decreases es
  {
    if es == [] then Step([], cl, next)
    else
      var st := Elements(es[..|es| - 1], cl, next, prefix);
      var e := Terminal(es[|es| - 1], st.closure, st.next, prefix);
      Step(st.out + [e.out], e.closure, e.next)
  }

  /** Dict entries in insertion order. */
  function Entries(es: seq<(Value, Value)>, cl: map<string, Value>, next: nat, prefix: string): Step<(seq<Node>, seq<Node>)>
    decreases es
  {
    if es == [] then Step(([], []), cl, next)
    else
      var st := Entries(es[..|es| - 1], cl, next, prefix);
      var e := Entry(es[|es| - 1], st.closure, st.next, prefix);
      Step((st.out.0 + [e.out.0], st.out.1 + [e.out.1]), e.closure, e.next)
  }

  /** One dict entry: the key is compiled before the value. */
  function Entry(e: (Value, Value), cl: map<string, Value>, next: nat, prefix: string): Step<(Node, Node)>
    decreases e
  {
    var k := Terminal(e.0, cl, next, prefix);
    var w := Terminal(e.1, k.closure, k.next, prefix);
    Step((k.out, w.out), w.closure, w.next)
  }

  /** The closure of a compilation; the methods below add to it in place. */
  class Closure {
    var bindings: map<string, Value>

    constructor ()
      ensures bindings == map[]
    {
      bindings := map[];
    }
  }

  method CompileTerminal(v: Value, c: Closure, src: NameSource, prefix: string) returns (n: Node)
    modifies c, src
    decreases v
    ensures var st := Terminal(v, old(c.bindings), old(src.next), prefix);
      n == st.out && c.bindings == st.closure && src.next == st.next
  {
    match v {
      case VBool(b) => n := NameConstant(b);
      case VInt(i) => n := Num(i);
      case VStr(s) => n := Str(s);
      case VBytes(bs) => n := Bytes(bs);
      case VList(es) =>
        var elts := CompileElements(es, c, src, prefix);
        n := List(elts);
      case VTuple(es) =>
        var elts := CompileElements(es, c, src, prefix);
        n := Tuple(elts);
      case VDict(es) =>
        var keys, values := CompileEntries(es, c, src, prefix);
        n := Dict(keys, values);
      case VSet(es) =>
        var elts := CompileElements(es, c, src, prefix);
        n := Set(elts);
      case VOpaque(_, _, _) =>
        var name := src.Fresh(prefix, c.bindings.Keys);
        c.bindings := c.bindings[name := v];
        n := Name(VStr(name));
    }
  }

  method CompileElements(es: seq<Value>, c: Closure, src: NameSource, prefix: string) returns (elts: seq<Node>)
    modifies c, src
    decreases es
    ensures var st := Elements(es, old(c.bindings), old(src.next), prefix);
      elts == st.out && c.bindings == st.closure && src.next == st.next
  {
    elts := [];
    var i := 0;
    while i < |es|
      invariant 0 <= i <= |es|
      invariant var st := Elements(es[..i], old(c.bindings), old(src.next), prefix);
        elts == st.out && c.bindings == st.closure && src.next == st.next
    {
      var e := CompileTerminal(es[i], c, src, prefix);
      assert es[..i + 1][..i] == es[..i];
      elts := elts + [e];
      i := i + 1;
    }
    assert es[..|es|] == es;
  }

  method CompileEntries(es: seq<(Value, Value)>, c: Closure, src: NameSource, prefix: string)
    returns (keys: seq<Node>, values: seq<Node>)
    modifies c, src
    decreases es
    ensures var st := Entries(es, old(c.bindings), old(src.next), prefix);
      keys == st.out.0 && values == st.out.1 && c.bindings == st.closure && src.next == st.next
  {
    keys, values := [], [];
    var i := 0;
    while i < |es|
      invariant 0 <= i <= |es|
      invariant var st := Entries(es[..i], old(c.bindings), old(src.next), prefix);
        keys == st.out.0 && values == st.out.1 && c.bindings == st.closure && src.next == st.next
    {
      var k, w := CompileEntry(es[i], c, src, prefix);
      assert es[..i + 1][..i] == es[..i];
      keys, values := keys + [k], values + [w];
      i := i + 1;
    }
    assert es[..|es|] == es;
  }

  method CompileEntry(e: (Value, Value), c: Closure, src: NameSource, prefix: string) returns (k: Node, w: Node)
    modifies c, src
    decreases e
    ensures var st := Entry(e, old(c.bindings), old(src.next), prefix);
      k == st.out.0 && w == st.out.1 && c.bindings == st.closure && src.next == st.next
  {
    k := CompileTerminal(e.0, c, src, prefix);
    w := CompileTerminal(e.1, c, src, prefix);
  }

  // ---------------------------------------------------------------------
  // What a terminal's compilation means.

  /** `m'` keeps every binding of `m`. */
  ghost predicate Extends(m: map<string, Value>, m': map<string, Value>) {
    m.Keys <= m'.Keys && forall k :: k in m ==> m'[k] == m[k]
  }

  /** The names `m'` binds that `m` does not, as `Name` ids. */
  ghost function NewNames(m: map<string, Value>, m': map<string, Value>): set<Value> {
    set k | k in m'.Keys - m.Keys :: VStr(k)
  }

  /** The number of opaque values in a terminal, counting through containers. */
  function OpaqueCount(v: Value): nat
    decreases v
  {
    match v
    case VList(es) => OpaqueCountAll(es)
    case VTuple(es) => OpaqueCountAll(es)
    case VSet(es) => OpaqueCountAll(es)
    case VDict(es) => OpaqueCountEntries(es)
    case VOpaque(_, _, _) => 1
    case _ => 0
  }

  function OpaqueCountAll(es: seq<Value>): nat
    decreases es
  {
    if es == [] then 0 else OpaqueCountAll(es[..|es| - 1]) + OpaqueCount(es[|es| - 1])
  }

  function OpaqueCountEntries(es: seq<(Value, Value)>): nat
    decreases es
  {
    if es == [] then 0 else OpaqueCountEntries(es[..|es| - 1]) + OpaqueCountEntry(es[|es| - 1])
  }

  function OpaqueCountEntry(e: (Value, Value)): nat
    decreases e
  {
    OpaqueCount(e.0) + OpaqueCount(e.1)
  }

  /**
   * `n` is a faithful compilation of `v` under closure `cl`: literals carry
   * the value verbatim, containers keep their kind, length and element order,
   * and an opaque value is a name bound to exactly that value.
   */
  ghost predicate Reflects(v: Value, n: Node, cl: map<string, Value>)
    decreases v
  {
    match v
    case VBool(b) => n == NameConstant(b)
    case VInt(i) => n == Num(i)
    case VStr(s) => n == Str(s)
    case VBytes(bs) => n == Bytes(bs)
    case VList(es) => n.List? && |n.elts| == |es| && forall i :: 0 <= i < |es| ==> Reflects(es[i], n.elts[i], cl)
    case VTuple(es) => n.Tuple? && |n.elts| == |es| && forall i :: 0 <= i < |es| ==> Reflects(es[i], n.elts[i], cl)
    case VSet(es) => n.Set? && |n.elts| == |es| && forall i :: 0 <= i < |es| ==> Reflects(es[i], n.elts[i], cl)
    case VDict(es) =>
      n.Dict? && |n.keys| == |es| && |n.values| == |es| &&
      forall i :: 0 <= i < |es| ==> Reflects(es[i].0, n.keys[i], cl) && Reflects(es[i].1, n.values[i], cl)
    case VOpaque(_, _, _) => n.Name? && n.id.VStr? && n.id.s in cl && cl[n.id.s] == v
  }

  lemma {:induction false} ReflectsExtends(v: Value, n: Node, cl: map<string, Value>, cl': map<string, Value>)
    requires Reflects(v, n, cl) && Extends(cl, cl')
    ensures Reflects(v, n, cl')
    decreases v
  {
    match v
    case VList(es) =>
      forall i | 0 <= i < |es| ensures Reflects(es[i], n.elts[i], cl') { ReflectsExtends(es[i], n.elts[i], cl, cl'); }
    case VTuple(es) =>
      forall i | 0 <= i < |es| ensures Reflects(es[i], n.elts[i], cl') { ReflectsExtends(es[i], n.elts[i], cl, cl'); }
    case VSet(es) =>
      forall i | 0 <= i < |es| ensures Reflects(es[i], n.elts[i], cl') { ReflectsExtends(es[i], n.elts[i], cl, cl'); }
    case VDict(es) =>
      forall i | 0 <= i < |es| ensures Reflects(es[i].0, n.keys[i], cl') && Reflects(es[i].1, n.values[i], cl') {
        ReflectsExtends(es[i].0, n.keys[i], cl, cl');
        ReflectsExtends(es[i].1, n.values[i], cl, cl');
      }
    case _ =>
  }

  lemma SetRegroup<T>(a: set<T>, b: set<T>, c: set<T>, d: set<T>)
    ensures (a + b) + (c + d) == (a + c) + (b + d)
  {
  }

  lemma NewNamesSplit(a: map<string, Value>, b: map<string, Value>, c: map<string, Value>)
    requires a.Keys <= b.Keys <= c.Keys
    ensures NewNames(a, c) == NewNames(a, b) + NewNames(b, c)
  {
  }

  /**
   * Compiling a terminal only adds to the closure: exactly one fresh binding
   * per opaque value, none overwritten; the names in the node are exactly the
   * new bindings; and the node reflects the value.
   */
  lemma {:induction false} TerminalMeaning(v: Value, cl: map<string, Value>, next: nat, prefix: string)
    ensures var st := Terminal(v, cl, next, prefix);
      && Extends(cl, st.closure)
      && |st.closure| == |cl| + OpaqueCount(v)
      && next <= st.next
      && NameIds(st.out) == NewNames(cl, st.closure)
      && Reflects(v, st.out, st.closure)
    decreases v, 2
  {
    match v
    case VList(_) => ContainerMeaning(v, cl, next, prefix);
    case VTuple(_) => ContainerMeaning(v, cl, next, prefix);
    case VSet(_) => ContainerMeaning(v, cl, next, prefix);
    case VDict(_) => DictMeaning(v, cl, next, prefix);
    case VOpaque(_, _, _) => OpaqueMeaning(v, cl, next, prefix);
    case _ =>
  }

  lemma {:induction false} ContainerMeaning(v: Value, cl: map<string, Value>, next: nat, prefix: string)
    requires v.VList? || v.VTuple? || v.VSet?
    ensures var st := Terminal(v, cl, next, prefix);
      && Extends(cl, st.closure)
      && |st.closure| == |cl| + OpaqueCount(v)
      && next <= st.next
      && NameIds(st.out) == NewNames(cl, st.closure)
      && Reflects(v, st.out, st.closure)
    decreases v, 1
  {
    ElementsMeaning(v.elems, cl, next, prefix);
  }

  lemma {:induction false} DictMeaning(v: Value, cl: map<string, Value>, next: nat, prefix: string)
    requires v.VDict?
    ensures var st := Terminal(v, cl, next, prefix);
      && Extends(cl, st.closure)
      && |st.closure| == |cl| + OpaqueCount(v)
      && next <= st.next
      && NameIds(st.out) == NewNames(cl, st.closure)
      && Reflects(v, st.out, st.closure)
    decreases v, 1
  {
    EntriesMeaning(v.entries, cl, next, prefix);
    var st := Entries(v.entries, cl, next, prefix);
    assert Terminal(v, cl, next, prefix) == Step(Dict(st.out.0, st.out.1), st.closure, st.next);
  }

  lemma OpaqueMeaning(v: Value, cl: map<string, Value>, next: nat, prefix: string)
    requires v.VOpaque?
    ensures var st := Terminal(v, cl, next, prefix);
      && Extends(cl, st.closure)
      && |st.closure| == |cl| + 1
      && next <= st.next
      && NameIds(st.out) == NewNames(cl, st.closure)
      && Reflects(v, st.out, st.closure)
  {
    var name := Generated(prefix, FreshIndex(prefix, cl.Keys, next));
    var cl' := cl[name := v];
    assert Terminal(v, cl, next, prefix) == Step(Name(VStr(name)), cl', FreshIndex(prefix, cl.Keys, next) + 1);
    assert name !in cl;
    assert |cl'| == |cl| + 1;
    assert cl'.Keys - cl.Keys == {name};
    assert NewNames(cl, cl') == {VStr(name)};
  }

  lemma {:induction false} ElementsMeaning(es: seq<Value>, cl: map<string, Value>, next: nat, prefix: string)
    ensures var st := Elements(es, cl, next, prefix);
      && Extends(cl, st.closure)
      && |st.closure| == |cl| + OpaqueCountAll(es)
      && next <= st.next
      && NameIdsAll(st.out) == NewNames(cl, st.closure)
      && |st.out| == |es|
      && forall i :: 0 <= i < |es| ==> Reflects(es[i], st.out[i], st.closure)
    decreases es
  {
    if es != [] {
      var init, last := es[..|es| - 1], es[|es| - 1];
      var st := Elements(init, cl, next, prefix);
      var e := Terminal(last, st.closure, st.next, prefix);
      ElementsMeaning(init, cl, next, prefix);
      TerminalMeaning(last, st.closure, st.next, prefix);
      assert Elements(es, cl, next, prefix) == Step(st.out + [e.out], e.closure, e.next);
      NewNamesSplit(cl, st.closure, e.closure);
      assert (st.out + [e.out])[..|st.out|] == st.out;
      ReflectsSnoc(es, st.out, e.out, st.closure, e.closure);
    }
  }

  /** Elements compiled earlier still reflect their values once the closure has grown. */
  lemma ReflectsSnoc(es: seq<Value>, outs: seq<Node>, out: Node, mid: map<string, Value>, fin: map<string, Value>)
    requires es != [] && |outs| == |es| - 1
    requires forall i :: 0 <= i < |es| - 1 ==> Reflects(es[..|es| - 1][i], outs[i], mid)
    requires Extends(mid, fin) && Reflects(es[|es| - 1], out, fin)
    ensures forall i :: 0 <= i < |es| ==> Reflects(es[i], (outs + [out])[i], fin)
  {
    forall i | 0 <= i < |es| ensures Reflects(es[i], (outs + [out])[i], fin) {
      if i < |es| - 1 {
        assert es[..|es| - 1][i] == es[i];
        ReflectsExtends(es[i], outs[i], mid, fin);
      }
    }
  }

  lemma ReflectsSnocEntries(es: seq<(Value, Value)>, ks: seq<Node>, ws: seq<Node>, k: Node, w: Node,
                            mid: map<string, Value>, fin: map<string, Value>)
    requires es != [] && |ks| == |es| - 1 && |ws| == |es| - 1
    requires forall i :: 0 <= i < |es| - 1 ==> Reflects(es[..|es| - 1][i].0, ks[i], mid) && Reflects(es[..|es| - 1][i].1, ws[i], mid)
    requires Extends(mid, fin) && Reflects(es[|es| - 1].0, k, fin) && Reflects(es[|es| - 1].1, w, fin)
    ensures forall i :: 0 <= i < |es| ==> Reflects(es[i].0, (ks + [k])[i], fin) && Reflects(es[i].1, (ws + [w])[i], fin)
  {
    forall i | 0 <= i < |es|
      ensures Reflects(es[i].0, (ks + [k])[i], fin) && Reflects(es[i].1, (ws + [w])[i], fin)
    {
      if i < |es| - 1 {
        assert es[..|es| - 1][i] == es[i];
        ReflectsExtends(es[i].0, ks[i], mid, fin);
        ReflectsExtends(es[i].1, ws[i], mid, fin);
      }
    }
  }

  lemma {:induction false} EntriesMeaning(es: seq<(Value, Value)>, cl: map<string, Value>, next: nat, prefix: string)
    ensures var st := Entries(es, cl, next, prefix);
      && Extends(cl, st.closure)
      && |st.closure| == |cl| + OpaqueCountEntries(es)
      && next <= st.next
      && NameIdsAll(st.out.0) + NameIdsAll(st.out.1) == NewNames(cl, st.closure)
      && |st.out.0| == |es| && |st.out.1| == |es|
      && forall i :: 0 <= i < |es| ==> Reflects(es[i].0, st.out.0[i], st.closure) && Reflects(es[i].1, st.out.1[i], st.closure)
    decreases es
  {
    if es != [] {
      var init, last := es[..|es| - 1], es[|es| - 1];
      var st := Entries(init, cl, next, prefix);
      var e := Entry(last, st.closure, st.next, prefix);
      EntriesMeaning(init, cl, next, prefix);
      EntryMeaning(last, st.closure, st.next, prefix);
      var ks, ws := st.out.0 + [e.out.0], st.out.1 + [e.out.1];
      assert Entries(es, cl, next, prefix) == Step((ks, ws), e.closure, e.next);
      assert NameIdsAll(ks) + NameIdsAll(ws) == NewNames(cl, e.closure) by {
        assert ks[..|st.out.0|] == st.out.0;
        assert ws[..|st.out.1|] == st.out.1;
        NewNamesSplit(cl, st.closure, e.closure);
        SetRegroup(NameIdsAll(st.out.0), NameIds(e.out.0), NameIdsAll(st.out.1), NameIds(e.out.1));
      }
      ReflectsSnocEntries(es, st.out.0, st.out.1, e.out.0, e.out.1, st.closure, e.closure);
    }
  }

  lemma {:induction false} EntryMeaning(e: (Value, Value), cl: map<string, Value>, next: nat, prefix: string)
    ensures var st := Entry(e, cl, next, prefix);
      && Extends(cl, st.closure)
      && |st.closure| == |cl| + OpaqueCountEntry(e)
      && next <= st.next
      && NameIds(st.out.0) + NameIds(st.out.1) == NewNames(cl, st.closure)
      && Reflects(e.0, st.out.0, st.closure) && Reflects(e.1, st.out.1, st.closure)
    decreases e
  {
    var k := Terminal(e.0, cl, next, prefix);
    TerminalMeaning(e.0, cl, next, prefix);
    TerminalMeaning(e.1, k.closure, k.next, prefix);
    NewNamesSplit(cl, k.closure, Entry(e, cl, next, prefix).closure);
    ReflectsExtends(e.0, k.out, k.closure, Entry(e, cl, next, prefix).closure);
  }

  // ---------------------------------------------------------------------
  // The names bound come from the counter.

  lemma IssuedChain(prefix: string, a: nat, b: nat, c: nat)
    requires a <= b <= c
    ensures Issued(prefix, a, b) + Issued(prefix, b, c) <= Issued(prefix, a, c)
  {
  }

  /**
   * Every binding a terminal adds is a name issued while the counter moved
   * from `next` to where it stops; so each carries the prefix.
   */
  lemma {:induction false} TerminalIssued(v: Value, cl: map<string, Value>, next: nat, prefix: string)
    ensures var st := Terminal(v, cl, next, prefix);
      next <= st.next && st.closure.Keys - cl.Keys <= Issued(prefix, next, st.next)
    decreases v
  {
    match v
    case VList(es) => ElementsIssued(es, cl, next, prefix);
    case VTuple(es) => ElementsIssued(es, cl, next, prefix);
    case VSet(es) => ElementsIssued(es, cl, next, prefix);
    case VDict(es) => EntriesIssued(es, cl, next, prefix);
    case VOpaque(_, _, _) =>
      var i := FreshIndex(prefix, cl.Keys, next);
      assert Generated(prefix, i) in Issued(prefix, next, i + 1);
    case _ =>
  }

  lemma {:induction false} ElementsIssued(es: seq<Value>, cl: map<string, Value>, next: nat, prefix: string)
    ensures var st := Elements(es, cl, next, prefix);
      next <= st.next && st.closure.Keys - cl.Keys <= Issued(prefix, next, st.next)
    decreases es
  {
    if es != [] {
      var st := Elements(es[..|es| - 1], cl, next, prefix);
      var e := Terminal(es[|es| - 1], st.closure, st.next, prefix);
      ElementsIssued(es[..|es| - 1], cl, next, prefix);
      TerminalIssued(es[|es| - 1], st.closure, st.next, prefix);
      IssuedChain(prefix, next, st.next, e.next);
    }
  }

  lemma {:induction false} EntriesIssued(es: seq<(Value, Value)>, cl: map<string, Value>, next: nat, prefix: string)
    ensures var st := Entries(es, cl, next, prefix);
      next <= st.next && st.closure.Keys - cl.Keys <= Issued(prefix, next, st.next)
    decreases es
  {
    if es != [] {
      var st := Entries(es[..|es| - 1], cl, next, prefix);
      var e := Entry(es[|es| - 1], st.closure, st.next, prefix);
      EntriesIssued(es[..|es| - 1], cl, next, prefix);
      EntryIssued(es[|es| - 1], st.closure, st.next, prefix);
      IssuedChain(prefix, next, st.next, e.next);
    }
  }

  lemma {:induction false} EntryIssued(e: (Value, Value), cl: map<string, Value>, next: nat, prefix: string)
    ensures var st := Entry(e, cl, next, prefix);
      next <= st.next && st.closure.Keys - cl.Keys <= Issued(prefix, next, st.next)
    decreases e
  {
    var k := Terminal(e.0, cl, next, prefix);
    TerminalIssued(e.0, cl, next, prefix);
    TerminalIssued(e.1, k.closure, k.next, prefix);
    IssuedChain(prefix, next, k.next, Entry(e, cl, next, prefix).next);
  }

  /** A name without the prefix is never issued. */
  lemma IssuedPrefixed(prefix: string, from: nat, upto: nat, name: string)
    requires |name| < |prefix| || name[..|prefix|] != prefix
    ensures name !in Issued(prefix, from, upto)
  {
  }

  /** The opaque branch adds exactly one binding, under a name not bound before. */
  lemma OpaqueBinding(v: Value, cl: map<string, Value>, next: nat, prefix: string)
    requires v.VOpaque?
    ensures var st := Terminal(v, cl, next, prefix);
      exists key :: st.out == Name(VStr(key)) && key !in cl && st.closure == cl[key := v]
  {
    var key := Generated(prefix, FreshIndex(prefix, cl.Keys, next));
    assert Terminal(v, cl, next, prefix).out == Name(VStr(key));
  }

  /** Booleans, numbers, strings and bytes become literals; nothing is bound. */
  lemma LiteralTerminal(v: Value, cl: map<string, Value>, next: nat, prefix: string)
    requires v.VBool? || v.VInt? || v.VStr? || v.VBytes?
    ensures var st := Terminal(v, cl, next, prefix);
      st.closure == cl && st.next == next && Reflects(v, st.out, cl) && NameIds(st.out) == {}
  {
  }

  /** A node that reflects a value passes the host's compile checks. */
  lemma {:induction false} ReflectsCompilable(v: Value, n: Node, cl: map<string, Value>)
    requires Reflects(v, n, cl)
    ensures Compilable(n)
    decreases v
  {
    match v
    case VList(es) =>
      forall i | 0 <= i < |es| ensures Compilable(n.elts[i]) { ReflectsCompilable(es[i], n.elts[i], cl); }
    case VTuple(es) =>
      forall i | 0 <= i < |es| ensures Compilable(n.elts[i]) { ReflectsCompilable(es[i], n.elts[i], cl); }
    case VSet(es) =>
      forall i | 0 <= i < |es| ensures Compilable(n.elts[i]) { ReflectsCompilable(es[i], n.elts[i], cl); }
    case VDict(es) =>
      forall i | 0 <= i < |es| ensures Compilable(n.keys[i]) && Compilable(n.values[i]) {
        ReflectsCompilable(es[i].0, n.keys[i], cl);
        ReflectsCompilable(es[i].1, n.values[i], cl);
      }
    case _ =>
  }

  /** Whatever the terminal, its compiled node passes the host's compile checks. */
  lemma TerminalCompilable(v: Value, cl: map<string, Value>, next: nat, prefix: string)
    ensures Compilable(Terminal(v, cl, next, prefix).out)
  {
    TerminalMeaning(v, cl, next, prefix);
    var st := Terminal(v, cl, next, prefix);
    ReflectsCompilable(v, st.out, st.closure);
  }

  // ---------------------------------------------------------------------
  // Evaluating a compiled terminal gives the terminal back.

  /** No dict or set anywhere inside (the evaluator does not build those). */
  predicate Plain(v: Value)
    decreases v
  {
    match v
    case VList(es) => forall i :: 0 <= i < |es| ==> Plain(es[i])
    case VTuple(es) => forall i :: 0 <= i < |es| ==> Plain(es[i])
    case VDict(_) => false
    case VSet(_) => false
    case _ => true
  }

  lemma {:induction false} ReflectsEvaluates(v: Value, n: Node, cl: map<string, Value>, env: map<string, Value>)
    requires Plain(v) && Reflects(v, n, cl) && Extends(cl, env)
    ensures Semantics.Eval(n, env) == Semantics.Val(v)
    decreases v
  {
    match v
    case VList(es) => ReflectsEvaluatesAll(es, n.elts, cl, env);
    case VTuple(es) => ReflectsEvaluatesAll(es, n.elts, cl, env);
    case _ =>
  }

  lemma {:induction false} ReflectsEvaluatesAll(es: seq<Value>, ns: seq<Node>, cl: map<string, Value>, env: map<string, Value>)
    requires |es| == |ns| && Extends(cl, env)
    requires forall i :: 0 <= i < |es| ==> Plain(es[i]) && Reflects(es[i], ns[i], cl)
    ensures Semantics.EvalAll(ns, env) == Semantics.Val(es)
    decreases es
  {
    if es != [] {
      var k := |es| - 1;
      ReflectsEvaluatesAll(es[..k], ns[..k], cl, env);
      ReflectsEvaluates(es[k], ns[k], cl, env);
      assert es[..k] + [es[k]] == es;
    }
  }

  /**
   * Evaluating the compiled terminal against its closure, plus any arguments
   * that do not shadow a binding, returns the terminal itself.
   */
  lemma TerminalRoundTrip(v: Value, cl: map<string, Value>, next: nat, prefix: string, env: map<string, Value>)
    requires Plain(v)
    requires Extends(Terminal(v, cl, next, prefix).closure, env)
    ensures Semantics.Eval(Terminal(v, cl, next, prefix).out, env) == Semantics.Val(v)
  {
    var st := Terminal(v, cl, next, prefix);
    TerminalMeaning(v, cl, next, prefix);
    ReflectsEvaluates(v, st.out, st.closure, env);
  }
}
