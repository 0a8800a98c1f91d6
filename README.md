# auk: s-expression predicates compiled to host functions

`auk` turns a predicate written as an s-expression, such as
`['and', ['in', ['identifier', 'num'], [1, 2, 3]], ['gte', ['identifier', 'num'], 2]]`,
into a callable function. The compiler works in five steps:

- It collects the names of the `identifier` forms; these become the parameters.
- It compiles the expression into a syntax tree. Each tag goes to its builder
  (`compile_eq`, `compile_and`, ...).
- It compiles every value that is not a tagged form as a literal node, or as a
  container node built element by element.
- It gives every opaque object a fresh `_<hex>` name and stores the object in a
  closure dictionary under that name.
- It wraps the tree in a `def` or in a `lambda` assignment, and executes it
  over the closure.

`boolcog` is the older compiler in the same repository and works the same way,
with four differences:

- Generated names start with `_v`.
- Every operand of a form is compiled against a new, empty scope, and the form
  hands back the scope of its last operand.
- The result is always a function, named `foo` by default.
- The caller supplies the argument list.

The project is organised as follows.

- `values.dfy` holds the input values: s-expressions, the grammar and the
  errors a compilation raises.
- `ast.dfy` holds the syntax trees and the two kinds of definition.
- `names.dfy` turns the uuid source into a counter and proves that the names it
  hands out are fresh.
- `semantics.dfy` is a small evaluator. It stands in for `exec`, so that a
  compiled predicate can be called.
- `nodes.dfy` holds the builders of `auk/nodes.py`.
- `binder.dfy` holds `compile_terminal`, which both compilers share. It is
  written twice:
  - as functions on values;
  - as methods that update a `Closure` object in place, proved equal to the
    functions.
- `auk.dfy` and `boolcog.dfy` hold the two compilers, each in the same two
  forms.
- `auk_examples.dfy` and `boolcog_examples.dfy` restate the repository's tests
  as lemmas.

Several properties are proved. Compilation only ever adds to the closure, with
exactly one fresh binding per opaque value. The names a tree refers to are
exactly its argument names together with its new bindings. A compiled terminal
evaluates back to the value it came from. `boolcog` keeps at most as many
bindings as `auk`. The two compilers agree whenever opaque values occur only in
the last operand of each form. When that condition fails, `boolcog` can produce
a predicate that refers to a binding it has dropped; `DroppedBindingExample`
shows this.

## Model

| member | source | states |
|---|---|---|
| Values.IsTagged | auk/compiler.py:35 | no contract of its own: a form is tagged when it is a non-empty list headed by a tag the grammar knows, the test at auk/compiler.py:55 and boolcog/compiler.py:20 as well; `Values.TagOf` and `Auk.Translation` rely on it |
| Values.TagOf | auk/compiler.py:58 | the tag of a tagged form is one the grammar recognises |
| Names.Generated | auk/compiler.py:125 | a generated name is the prefix followed by at least one more character |
| Names.GeneratedInjective | auk/compiler.py:125 | distinct counters give distinct names, which is the uniqueness the uuid provides |
| Names.HexInjective | auk/compiler.py:125 | the hexadecimal rendering of the counter is injective |
| Names.IssuedStep | auk/compiler.py:125 | a counter's name was not issued by any earlier counter |
| Names.FirstFree | auk/compiler.py:125 | the chosen counter is at or after the start, and its name is not a key of the closure |
| Names.FreshIndex | auk/compiler.py:125 | the name handed out never clashes with an existing closure key, and the counter does not go back |
| Names.NameSource.constructor | auk/compiler.py:14 | the name source starts at counter 0 |
| Names.NameSource.Fresh | auk/compiler.py:192 | returns the first unused generated name and moves the counter strictly past it |
| Semantics.Bind | auk/compiler.py:193-202 | the positional parameters (no defaults, no `*args`) are bound to the arguments: the keys are exactly the parameter names, and with distinct names each parameter is bound to its own argument |
| Semantics.Eval | auk/compiler.py:213 | no contract of its own: running the compiled tree in the host, with comparisons, `not`, `and`, `or`, names and zero-argument calls; an `and` or `or` with fewer than two operands evaluates to `Invalid` |
| Semantics.Invoke | auk/compiler.py:193-214 | no contract of its own: calling the compiled predicate positionally raises TypeError for a wrong argument count, and otherwise evaluates the body over the closure and the bound arguments |
| Ast.CompilableNames | auk/compiler.py:213 | every name in a tree the host compiles is a string |
| Semantics.PyEqReflexive | tests/compiler.py:46-50 | every value, an opaque object included, is `==` to itself |
| Semantics.PyEq | tests/compiler.py:46-80 | no contract of its own: the host's `==` (numbers by value, `True == 1`, lists and tuples element by element, dicts and sets regardless of order, opaque objects by identity); `Semantics.PyEqReflexive`, `Semantics.SetOrderInsensitive`, `Semantics.DictOrderInsensitive` and `Semantics.SetMismatch` state its properties |
| Semantics.SetOrderInsensitive | tests/compiler.py:67-70 | a set is `==` to the same elements listed in another order |
| Semantics.DictOrderInsensitive | tests/compiler.py:72-75 | a dict is `==` to the same entries listed in another order |
| Semantics.SetMismatch | tests/compiler.py:67-70 | two sets of one size with an unmatched element are not `==` |
| Semantics.Truthy | auk/nodes.py:50-57 | no contract of its own: the host's truth value, which `not`, `and` and `or` consult; `Nodes.NotSemantics` and `Nodes.BoolOpOverBools` state how |
| Semantics.EvalBool | auk/nodes.py:53-57 | no contract of its own: `and` and `or` yield the deciding operand and evaluate no operand after it; `Nodes.BoolOpSemantics` and `Nodes.BoolOpOverBools` state its properties |
| Semantics.Comparison | auk/nodes.py:13-39 | no contract of its own: applies `==`, `!=`, `<`, `<=`, `>`, `>=` or `in` to two values; `Nodes.ComparisonSemantics` states how a comparison node reaches it |
| Semantics.InvokeKeywords | tests/examples.py:93-94 | no contract of its own: a call by keyword binds each parameter by name and raises TypeError for a missing or unknown name; `AukExamples.LivesInKeywords` states it on the `lives_in` example |
| Nodes.Build | auk/compiler.py:69 | the builder's node refers to exactly the names its operands refer to; a failure is a wrong operand count or a missing builder; a `comparison` form reaches the shared helper and always fails |
| Nodes.CompileComparison | auk/nodes.py:13-18 | the host compiles a comparison exactly when it compiles both operands |
| Nodes.CompileEq | auk/nodes.py:20-21 | no contract of its own: `CompileComparison` with `==` |
| Nodes.CompileNeq | auk/nodes.py:23-24 | no contract of its own: `CompileComparison` with `!=` |
| Nodes.CompileLt | auk/nodes.py:26-27 | no contract of its own: `CompileComparison` with `<` |
| Nodes.CompileLte | auk/nodes.py:29-30 | no contract of its own: `CompileComparison` with `<=` |
| Nodes.CompileGt | auk/nodes.py:32-33 | no contract of its own: `CompileComparison` with `>` |
| Nodes.CompileGte | auk/nodes.py:35-36 | no contract of its own: `CompileComparison` with `>=` |
| Nodes.CompileIn | auk/nodes.py:38-39 | no contract of its own: `CompileComparison` with `in` |
| Nodes.CompileIdentifier | auk/nodes.py:41-42 | the host compiles the name node exactly when the name is a string |
| Nodes.CompileTautology | auk/nodes.py:44-45 | the constant True, which the host compiles |
| Nodes.CompileContradiction | auk/nodes.py:47-48 | the constant False, which the host compiles |
| Nodes.CompileNot | auk/nodes.py:50-51 | the host compiles `not x` exactly when it compiles `x` |
| Nodes.CompileAnd | auk/nodes.py:53-54 | the host compiles the conjunction exactly when it has two or more operands and compiles each one |
| Nodes.CompileOr | auk/nodes.py:56-57 | the host compiles the disjunction exactly when it has two or more operands and compiles each one |
| Nodes.CompileCallable | auk/nodes.py:59-60 | the host compiles the call exactly when it compiles the callee |
| Nodes.ComparisonHelperRaises | auk/nodes.py:13-18 | the shared `compile_comparison` helper is found for a `comparison` form, and raises TypeError whatever operands it is given |
| Nodes.BuildAccepts | auk/nodes.py:13-60 | the builders that exist, `compile_comparison` included, which accepts no operand count: comparisons take two operands, `tautology` and `contradiction` none, `not` and `callable` one, `and` and `or` any number (if and only if) |
| Nodes.ComparisonTags | auk/nodes.py:20-39 | each comparison builder passes its own operator: `eq` is `==`, `neq` `!=`, `lt` `<`, `lte` `<=`, `gt` `>`, `gte` `>=` and `in` `in` |
| Nodes.NotArity | auk/nodes.py:50-51 | `compile_not` takes exactly one operand, and with any other count the call raises TypeError |
| Nodes.ComparisonSemantics | auk/nodes.py:13-39 | a comparison node has one operator and one comparator, and it evaluates its left operand first, then its right, then applies the operator |
| Nodes.TautologySemantics | auk/nodes.py:44-45 | `tautology` evaluates to True |
| Nodes.ContradictionSemantics | auk/nodes.py:47-48 | `contradiction` evaluates to False |
| Nodes.IdentifierSemantics | auk/nodes.py:41-42 | an identifier node refers only to its name, and it reads that name's argument or raises NameError |
| Nodes.NotSemantics | auk/nodes.py:50-51 | the `not` builder takes one operand, and `not` negates the truth value of its operand |
| Nodes.BoolOpOverBools | auk/nodes.py:53-57 | over boolean operands, `and` is true exactly when all operands are true, and `or` exactly when some operand is |
| Nodes.BoolOpSemantics | auk/nodes.py:53-57 | `and` and `or` accept any number of operands and keep them in order; the evaluator refuses the tree with fewer than two, as the host's compile does |
| Nodes.CallableSemantics | auk/nodes.py:59-60 | `callable` calls its operand's value with no arguments |
| Binder.Closure.constructor | auk/compiler.py:52 | a new closure is empty |
| Binder.Terminal | auk/compiler.py:72-127 | no contract of its own: the node, closure and counter after compiling a terminal; `TerminalMeaning` states what they are |
| Binder.Elements | auk/compiler.py:93-98 | no contract of its own: container elements compiled in order with the closure threaded through; `ElementsMeaning` states its properties |
| Binder.Entries | auk/compiler.py:107-114 | no contract of its own: dict entries compiled in insertion order; `EntriesMeaning` states its properties |
| Binder.Entry | auk/compiler.py:110-111 | no contract of its own: one entry, key before value; `EntryMeaning` states its properties |
| Binder.CompileTerminal | auk/compiler.py:72-127 | compiling a terminal in place yields the node, the closure and the counter that `Terminal` specifies |
| Binder.CompileElements | auk/compiler.py:93-98 | the element loop compiles the elements in order and threads the closure, as `Elements` specifies |
| Binder.CompileEntries | auk/compiler.py:107-114 | the dict loop compiles each key, then its value, in insertion order, as `Entries` specifies |
| Binder.CompileEntry | auk/compiler.py:110-111 | one entry compiles its key before its value |
| Binder.TerminalMeaning | auk/compiler.py:72-127 | compiling a terminal keeps every binding, adds exactly one per opaque value, refers to exactly the new bindings, and gives a node that reflects the value |
| Binder.ContainerMeaning | auk/compiler.py:93-121 | lists, tuples and sets keep their kind, length and element order, and each element is compiled as a terminal |
| Binder.DictMeaning | auk/compiler.py:107-114 | a dict keeps its keys and values in entry order |
| Binder.OpaqueMeaning | auk/compiler.py:123-127 | an opaque value adds exactly one binding and becomes a reference to it |
| Binder.ElementsMeaning | auk/compiler.py:94-97 | the elements together add one binding per opaque value, and each compiled element still reflects its value in the final closure |
| Binder.EntriesMeaning | auk/compiler.py:108-113 | the entries together add one binding per opaque key or value, and the key and value lists have the dict's length |
| Binder.EntryMeaning | auk/compiler.py:110-111 | one entry's key and value reflect their values in the closure after both |
| Binder.ReflectsExtends | auk/compiler.py:96 | a node compiled earlier stays valid while later elements add bindings |
| Binder.TerminalIssued | auk/compiler.py:125-126 | every binding a terminal adds is a name issued while the counter advanced |
| Binder.IssuedPrefixed | auk/compiler.py:125 | a name without the prefix can never be a generated binding |
| Binder.OpaqueBinding | auk/compiler.py:123-127 | the opaque branch binds the value under a key not used before, and leaves every other binding unchanged |
| Binder.LiteralTerminal | auk/compiler.py:81-91 | booleans, numbers, strings and bytes become literal nodes and bind nothing |
| Binder.ReflectsCompilable | auk/compiler.py:81-127 | a node that reflects a value is one the host compiles: generated names are strings and containers are well formed |
| Binder.TerminalCompilable | auk/compiler.py:72-127 | every compiled terminal is a tree the host compiles |
| Binder.ReflectsEvaluates | auk/compiler.py:81-105 | a node that reflects a value evaluates to that value in any environment extending the closure |
| Binder.TerminalRoundTrip | auk/compiler.py:72-127 | for a terminal with no dict or set inside (`Plain`), evaluating the compiled terminal over its closure gives the terminal back |
| Auk.OperandsErrPrefix | auk/compiler.py:65-66 | an operand that raises makes the whole form raise with the same error |
| Auk.ArgNames | auk/compiler.py:28-42 | `read_argnames` can fail only with a missing operand: an identifier form that has none |
| Auk.OperandNames | auk/compiler.py:39-40 | the union over the operands fails only with a missing operand |
| Auk.Translation | auk/compiler.py:45-69 | no contract of its own: `compile_sexpr` on values; `TranslationMeaning` states its properties |
| Auk.TranslationOperands | auk/compiler.py:65-67 | no contract of its own: the operand loop on values; `OperandsMeaning` states its properties |
| Auk.CompileSexpr | auk/compiler.py:45-69 | compiling in place on a closure object gives what `Translation` specifies; a non-empty closure is extended and returned, and a missing or empty one is replaced by a new object |
| Auk.CompileOperands | auk/compiler.py:65-67 | the operand loop threads the closure through the operands, as `TranslationOperands` specifies |
| Auk.CompileTerminal | auk/compiler.py:72-127 | `compile_terminal` with the `_` prefix; an opaque value gets a `_`-prefixed name that was not yet bound |
| Auk.TranslationMeaning | auk/compiler.py:45-69 | a successful compilation has argument names, keeps the closure's bindings, adds one per opaque value, and its tree refers to exactly the argument names plus the new bindings |
| Auk.FormMeaning | auk/compiler.py:64-69 | the same, for a tagged form other than an identifier |
| Auk.OperandsMeaning | auk/compiler.py:65-67 | the same, for an operand list: argument names, bindings and counts add up |
| Auk.TerminalPath | auk/compiler.py:55-56 | a value that is not a tagged form has no argument names and compiles as a terminal |
| Auk.IdentifierPath | auk/compiler.py:62-63 | an identifier gives its raw operand as the argument name and as the node, and binds nothing |
| Auk.ArgNamesFailure | auk/compiler.py:28-42 | when `read_argnames` fails, compilation fails as well |
| Auk.DefineFunc | auk/compiler.py:130-141 | no contract of its own: a function definition returning the body; `DefinitionsAgree` relates it to `DefineLambda` |
| Auk.DefineLambda | auk/compiler.py:144-162 | no contract of its own: a lambda assigned to the name; `DefinitionsAgree` relates it to `DefineFunc` |
| Auk.Assembled | auk/compiler.py:187-214 | no contract of its own: the outcome of `compile_predicate` for a given argument order; `AssembledShape` and `ParamsCompile` state its properties |
| Auk.ParamList | auk/compiler.py:193 | the argument list names every argument exactly once |
| Auk.CompilePredicate | auk/compiler.py:165-214 | rejected input gives None and draws no name; otherwise the result is what `Assembled` specifies for some listing of the argument names, and a compiled result's parameters enumerate them |
| Auk.AssembledShape | auk/compiler.py:187-214 | the host accepts the definition exactly when it compiles the tree and the parameters are distinct strings, and otherwise `compile` raises; an accepted definition is a function exactly when forced, or when unforced with two or more arguments; its name is the one given, or a `_` name not bound in the closure; the compiled tree is its body and the closure its environment |
| Auk.UsesFunction | auk/compiler.py:204 | no contract of its own: `force_func` wins over `force_lambda`, and unforced, two or more arguments give a function and fewer a lambda; `Auk.AssembledShape` states which definition results |
| Auk.ParamsCompile | auk/compiler.py:190-213 | with the argument names as parameters, the definition compiles exactly when the tree does |
| Auk.MalformedFirst | auk/compiler.py:187-188 | the result is None if and only if the grammar rejects the input |
| Auk.DefinitionsAgree | auk/compiler.py:130-162 | a function and a lambda with the same parameters and body behave identically when called |
| Boolcog.CoercionErrPrefix | boolcog/compiler.py:30-31 | an operand that raises makes the form raise with the same error |
| Boolcog.Coercion | boolcog/compiler.py:16-34 | `coerce` on values fails only through a missing builder or a wrong operand count |
| Boolcog.CoercionOperands | boolcog/compiler.py:30-32 | the operand loop fails only through a missing builder or a wrong operand count |
| Boolcog.Coerce | boolcog/compiler.py:16-34 | coercing in place gives what `Coercion` specifies; a non-empty scope is handed back for terminals, identifiers and forms with no operands |
| Boolcog.CoerceOperands | boolcog/compiler.py:30-32 | each operand gets a new scope object; the form ends with the last operand's scope, or with its own scope when it has no operands |
| Boolcog.CompileTerminal | boolcog/compiler.py:37-83 | `compile_terminal` with the `_v` prefix; an opaque value gets a `_v`-prefixed name that was not yet bound |
| Boolcog.CoercionScope | boolcog/compiler.py:16-34 | the returned scope extends the given scope (for terminals, identifiers and forms without operands) or is exactly the scope the last operand produced from an empty one; every added binding is a name issued during this call, and `Kept` of them survive |
| Boolcog.OperandsScope | boolcog/compiler.py:30-32 | after the operands, the scope is exactly the last operand's scope from an empty one: it holds only names issued while that operand was compiled, `Kept` of them |
| Boolcog.KeptAtMost | boolcog/compiler.py:30-32 | no more bindings survive than `auk` creates for the same expression |
| Boolcog.Agreement | boolcog/compiler.py:16-34 | from an empty scope and under the same name prefix, `coerce` and `auk`'s `compile_sexpr` give the same tree, bindings and counter, provided every opaque value sits in the last operand |
| Boolcog.OperandsAgreement | boolcog/compiler.py:30-32 | the same, for operand lists |
| Boolcog.Assembled | boolcog/compiler.py:86-113 | no contract of its own: the outcome of `compile_predicate`; `AssembledShape` states its properties |
| Boolcog.CompilePredicate | boolcog/compiler.py:86-113 | rejected input gives None and draws no name; otherwise the result is what `Assembled` specifies |
| Boolcog.AssembledShape | boolcog/compiler.py:86-113 | the result is None if and only if the grammar rejects the input; a failing `coerce` raises its error; otherwise the host accepts the function exactly when it compiles the tree and the argument names are distinct strings, and then it is a function named `foo` unless a name is given, with exactly the given parameters |
| AukExamples.IdentForm | auk/compiler.py:36-37 | `['identifier', n]` names `n` and compiles to a reference to it |
| AukExamples.NestedArgNames | tests/argnames.py:12-25 | the nested test expression has exactly the argument names arg1 to arg4 |
| AukExamples.NotOfTwo | auk/nodes.py:50-51 | `not` with two operands raises for the wrong operand count |
| AukExamples.NestedTranslation | tests/argnames.py:12-22 | compiling that test expression raises, because its `not` has two operands |
| AukExamples.LuckyNumberTranslation | tests/examples.py:5-14 | the first example compiles to the expected tree and binds nothing |
| AukExamples.LuckyCall | tests/examples.py:17-18 | that tree is false for 777 and true for any other number |
| AukExamples.LuckyNumberExample | tests/examples.py:4-18 | the compiled predicate is a lambda, false for 777 and true for 7 |
| AukExamples.NotOrTranslation | tests/examples.py:24-30 | not-or compiles to the expected tree with arguments P and Q |
| AukExamples.NotOrCall | tests/examples.py:33 | the tree computes `not P and not Q`, in whichever order the parameters are listed |
| AukExamples.NotOrExample | tests/examples.py:21-33 | the compiled predicate is a function equal to `not P and not Q` |
| AukExamples.ListLiteral | tests/examples.py:41 | the list `[1, 2, 3]` compiles to a literal list node |
| AukExamples.ListEval | tests/examples.py:41 | that node evaluates back to the list |
| AukExamples.InRangeTranslation | tests/examples.py:39-43 | the third example compiles to the expected tree with the single argument num |
| AukExamples.InRangeCall | tests/examples.py:46-48 | that tree is true exactly for 2 and 3 |
| AukExamples.InRangeExample | tests/examples.py:36-48 | the compiled predicate is a lambda that is true exactly for 2 and 3 |
| AukExamples.ObjectExample | tests/examples.py:51-53 | an object on its own becomes a lambda with one binding; calling it returns the object, so the predicate holds exactly when the object is truthy |
| AukExamples.NeqTranslation | tests/examples.py:56-59 | the two objects are bound under two distinct names and compared with `!=` |
| AukExamples.NeqCall | tests/examples.py:59 | two bindings to distinct objects compare unequal |
| AukExamples.DistinctObjectsExample | tests/examples.py:56-59 | the compiled predicate has two bindings and is true |
| AukExamples.LivesInTranslation | tests/examples.py:76-86 | the seventh example compiles to the expected tree with arguments lives_in and name |
| AukExamples.LivesInCall | tests/examples.py:88-94 | the tree is true for London exactly when the name is John |
| AukExamples.LivesInKeywords | tests/examples.py:93-94 | called by keyword, in either parameter order, the predicate is true for John and false for anyone else |
| AukExamples.LivesInExample | tests/examples.py:75-94 | the compiled predicate is a function, true for John's record and false for Mark's |
| BoolcogExamples.TautologyExample | tests/compiler.py:32-36 | `tautology` gives `def foo(): return True`; calling it with no arguments gives True, and with one gives TypeError |
| BoolcogExamples.ContradictionExample | tests/compiler.py:39-43 | `contradiction` gives `def foo(): return False`; calling it with no arguments gives False, and with one gives TypeError |
| BoolcogExamples.EqualsBarTranslation | tests/compiler.py:53-54 | `eq(bar, v)` compiles to a comparison with `v` compiled into the scope, and `bar` is never a scope key |
| BoolcogExamples.EqualsBarCall | tests/compiler.py:55 | called with the value it was compiled with, the comparison is true |
| BoolcogExamples.ObjectLiteralExample | tests/compiler.py:46-80 | for an object, a list of objects, a tuple or a literal with no dict or set inside, `foo(bar)` called with that same value is true |
| BoolcogExamples.NeqCoercion | boolcog/compiler.py:30-34 | for `neq` of two objects, both are named, but only the second binding survives in the scope |
| BoolcogExamples.NeqDangling | boolcog/compiler.py:30-34 | the comparison then reads a name that is not bound, and raises NameError |
| BoolcogExamples.DroppedBindingExample | tests/examples.py:56-59 | under `boolcog`, the objects example has one binding and raises NameError; under `auk`, it has two bindings and is true |

## Left out

- Grammar loading (`sexpr.load` of `predicate.yml`): the grammar is a parameter. It consists of a validity test and a tag set. `auk`'s top tags and `boolcog`'s rule keys are each modelled by that tag set.
- `exec`, `compile` and `ast.fix_missing_locations`: a small evaluator (`Semantics.Eval`) stands in for running the tree.
- The evaluator does not model ordering comparisons on strings, lists or callable results, or dict and set displays. The sixth example (a callable compared with a list) is therefore not modelled.
- BoolcogExamples.ObjectLiteralExample: the dict and set cases of the object-literal test are not stated, because the evaluator does not evaluate dict and set displays. For them the model states only that the tree compiles (`Binder.TerminalCompilable`).
- Opaque objects compare by identity only. A class with its own `__eq__` is not modelled.
- Name lookup reads the closure and the bound arguments only. The fallback to the host's builtins is not modelled: an identifier that is neither bound nor an argument raises NameError in the model, where the host would find a builtin of that name.
- Floating-point and complex numbers: only integers are modelled.
- The uuid generator is replaced by a counter rendered in hexadecimal. That counter skips names the closure already binds. `auk`'s generated function name is chosen the same way; Python does not check it against the closure. A user identifier that happens to look like a generated name is not modelled.
- `boolcog/compiler.py` refers to `ast.Load` and `ast.fix_missing_locations` at lines 83 and 111, but it never imports `ast` by that name. The model follows the evident intent: a Name node in a load context, and no error.
- `boolcog/nodes.py` is not part of this model. `boolcog` is modelled over the builders of `auk/nodes.py`.
- Hash errors, such as unhashable dict keys or set elements, are not modelled. Set iteration order is taken as given by the element sequence.
- The host's `compile` is modelled by `Ast.Compilable` and `Ast.CompilableDef`. They cover these checks: names are strings, an `and`/`or` has two or more operands, a comparison has as many operators as comparators, a dict has as many keys as values, and parameter names are distinct strings. A definition that fails them raises `Rejected`. Other checks of the host's AST validator are not modelled.
- Opaque values carry their own truth value, so `None` and objects whose `__bool__` or `__len__` make them falsy are covered. How `__bool__` is computed is not modelled.
- A missing `funcname` is modelled as the empty string, and a missing `argnames` as the empty list.
- `**kwargs` calls are modelled by `Semantics.InvokeKeywords`.
- The closure contents left behind when a compilation raises are not stated.
- The definition's own name being bound in the exec globals is not modelled.
- The model follows the host's AST constructors as the source calls them, from before Python 3.8: `ast.Module` without `type_ignores` (auk/compiler.py:211) and `ast.arguments` without `posonlyargs` (auk/compiler.py:195-202, boolcog/compiler.py:98). Under Python 3.8 and later `compile` rejects such trees with TypeError; that rejection is not modelled.
- The `force_func` and `force_lambda` flags are modelled as given. Their effect is only the kind of definition, which `Auk.AssembledShape` states.
