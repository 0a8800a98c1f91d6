/**
 * Generated binding names.  The compilers name every opaque value (and a
 * predicate without a caller-supplied name) `prefix + uuid4().hex`.  Here the
 * random uuid becomes a process-wide counter rendered in lower-case
 * hexadecimal, and the name handed out is the first one at or after the counter
 * that the current closure does not already use.  That keeps the two facts the
 * randomness is there for: a generated name never clashes with an existing key,
 * and no name is handed out twice.
 */
module Names {

  function HexDigit(d: nat): (c: char)
    requires d < 16
  {
    if d < 10 then (48 + d) as char else (87 + d) as char
  }

  function Hex(n: nat): (s: string)
    ensures |s| >= 1
    ensures n >= 16 ==> |s| >= 2
  {
    if n < 16 then [HexDigit(n)] else Hex(n / 16) + [HexDigit(n % 16)]
  }

  lemma HexDigitInjective(a: nat, b: nat)
    requires a < 16 && b < 16 && HexDigit(a) == HexDigit(b)
    ensures a == b
  {
    assert HexDigit(a) as int == if a < 10 then 48 + a else 87 + a;
    assert HexDigit(b) as int == if b < 10 then 48 + b else 87 + b;
  }

  /** Distinct counters give distinct hexadecimal renderings. */
  lemma {:induction false} HexInjective(a: nat, b: nat)
    requires Hex(a) == Hex(b)
    ensures a == b
    decreases a
  {
    if a < 16 && b < 16 {
      HexDigitInjective(a, b);
    } else if a >= 16 && b >= 16 {
      var sa, sb := Hex(a), Hex(b);
      assert sa[|sa| - 1] == HexDigit(a % 16);
      assert sb[|sb| - 1] == HexDigit(b % 16);
      HexDigitInjective(a % 16, b % 16);
      assert sa[..|sa| - 1] == Hex(a / 16);
      assert sb[..|sb| - 1] == Hex(b / 16);
      HexInjective(a / 16, b / 16);
    }
  }

  function Generated(prefix: string, n: nat): (s: string)
    ensures |s| > |prefix| && s[..|prefix|] == prefix
  {
    prefix + Hex(n)
  }

  lemma GeneratedInjective(prefix: string, a: nat, b: nat)
    requires Generated(prefix, a) == Generated(prefix, b)
    ensures a == b
  {
    assert Hex(a) == Generated(prefix, a)[|prefix|..];
    assert Hex(b) == Generated(prefix, b)[|prefix|..];
    HexInjective(a, b);
  }

  /** The names issued for counters `from` up to, not including, `upto`. */
  ghost function Issued(prefix: string, from: nat, upto: nat): set<string> {
    set j | from <= j < upto :: Generated(prefix, j)
  }

  lemma IssuedStep(prefix: string, from: nat, n: nat)
    requires from <= n
    ensures Generated(prefix, n) !in Issued(prefix, from, n)
    ensures Issued(prefix, from, n + 1) == Issued(prefix, from, n) + {Generated(prefix, n)}
  {
    if Generated(prefix, n) in Issued(prefix, from, n) {
      var j :| from <= j < n && Generated(prefix, j) == Generated(prefix, n);
      GeneratedInjective(prefix, j, n);
    }
  }

  /**
   * The first counter at or after `n` whose name is not a key; every counter
   * from `from` to `n` is already known to be taken.
   */
  function FirstFree(prefix: string, keys: set<string>, from: nat, n: nat): (r: nat)
    requires from <= n
    requires forall j :: from <= j < n ==> Generated(prefix, j) in keys
    ensures n <= r
    ensures Generated(prefix, r) !in keys
    ensures forall j :: from <= j < r ==> Generated(prefix, j) in keys
    decreases keys - Issued(prefix, from, n)
  {
    if Generated(prefix, n) !in keys then n
    else
      IssuedStep(prefix, from, n);
      FirstFree(prefix, keys, from, n + 1)
  }

  /** The counter of the name handed out when the counter stands at `next`. */
  function FreshIndex(prefix: string, keys: set<string>, next: nat): (i: nat)
    ensures next <= i
    ensures Generated(prefix, i) !in keys
  {
    FirstFree(prefix, keys, next, next)
  }

  /** The process-wide source of fresh names (the uuid generator). */
  class NameSource {
    var next: nat

    constructor ()
      ensures next == 0
    {
      next := 0;
    }

    method Fresh(prefix: string, keys: set<string>) returns (name: string)
      modifies this
      ensures name == Generated(prefix, FreshIndex(prefix, keys, old(next)))
      ensures next == FreshIndex(prefix, keys, old(next)) + 1
      ensures name !in keys && old(next) < next
    {
      var i := FreshIndex(prefix, keys, next);
      name := Generated(prefix, i);
      next := i + 1;
    }
  }
}
