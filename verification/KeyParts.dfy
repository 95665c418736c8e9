/** Identifiers that may be part of a key, and the keys joined from them. */
module KeyParts {
  import opened Text

  const NUL: Unit := 0

  /** A nonempty identifier of at most `maxLength` code units without NUL. */
  predicate ValidKeyPart(s: Str, maxLength: nat)
  {
    0 < |s| <= maxLength && NUL !in s
  }

  const MAX_SAFE_INTEGER: int := 0x1F_FFFF_FFFF_FFFF

  predicate PositiveSafe(n: int)
  {
    0 < n <= MAX_SAFE_INTEGER
  }

  /** What the clock readers accept. */
  predicate ValidClock(n: int)
  {
    0 <= n <= MAX_SAFE_INTEGER
  }

  /** Two parts joined with a NUL. */
  function Scoped(a: Str, b: Str): Str
  {
    a + [NUL] + b
  }

  /** The first NUL ends the first part. */
  lemma {:induction false} ScopedInjective(a: Str, b: Str, c: Str, d: Str)
    requires NUL !in a && NUL !in c
    requires Scoped(a, b) == Scoped(c, d)
    ensures a == c && b == d
  {
    var x, y := Scoped(a, b), Scoped(c, d);
    assert x[0] == y[0];
    if a == [] || c == [] {
      assert x[|a|] == NUL && y[|c|] == NUL;
      assert a == [] == c;
      assert x[1..] == b && y[1..] == d;
    } else {
      assert x[1..] == Scoped(a[1..], b) && y[1..] == Scoped(c[1..], d);
      ScopedInjective(a[1..], b, c[1..], d);
      assert a == [a[0]] + a[1..] && c == [c[0]] + c[1..];
    }
  }
}
