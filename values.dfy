/**
 * The input side of the predicate compiler: s-expression values, the
 * tagged-form test both compilers share, the grammar they consult, and the
 * errors a compilation can raise.
 */
module Values {

  datatype Option<+T> = None | Some(value: T)

  newtype Byte = b: int | 0 <= b < 256

  /**
   * An s-expression is ordinary host data.  Lists, tuples, dicts and sets keep
   * their elements in iteration order (insertion order for a dict, the
   * interpreter's hash order for a set).  Every value with no literal node is
   * an opaque object (`None` included): `id` is its identity, `callResult` is
   * what calling it with no arguments returns when it is a zero-argument
   * callable, and `truth` is its truth value (false for `None` and for objects
   * whose `__bool__` or `__len__` says so).
   */
  datatype Value =
    | VBool(b: bool)
    | VInt(i: int)
    | VStr(s: string)
    | VBytes(bytes: seq<Byte>)
    | VList(elems: seq<Value>)
    | VTuple(elems: seq<Value>)
    | VDict(entries: seq<(Value, Value)>)
    | VSet(elems: seq<Value>)
    | VOpaque(id: nat, callResult: Option<Value>, truth: bool)

  /**
   * A tagged form is a non-empty list whose head is a string the grammar knows.
   * Anything else, including a data list that starts with an unknown string, is
   * a terminal.
   */
  predicate IsTagged(tags: set<string>, v: Value) {
    v.VList? && |v.elems| > 0 && v.elems[0].VStr? && v.elems[0].s in tags
  }

  function TagOf(tags: set<string>, v: Value): (t: string)
    requires IsTagged(tags, v)
    ensures t in tags
  {
    v.elems[0].s
  }

  /**
   * The externally loaded grammar: a structural validity check and the set of
   * tags it recognises.
   */
  datatype Grammar = Grammar(matches: Value -> bool, tags: set<string>)

  /** Exceptions a compilation can raise. */
  datatype Error =
    | MissingOperand          // `sexp[1]` on an `identifier` form with no operand
    | BadArity(tag: string)   // a builder called with the wrong number of operands
    | NoBuilder(tag: string)  // a recognised tag with no `compile_<tag>` builder
    | Rejected                // the host's `compile` refuses the assembled definition

  datatype Result<+T> = Ok(value: T) | Err(error: Error)

  predicate Distinct<T(==)>(s: seq<T>) {
    forall i, j :: 0 <= i < j < |s| ==> s[i] != s[j]
  }
}
