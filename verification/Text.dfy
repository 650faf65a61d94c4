/** Strings in code point order. */
module Text {
  predicate StartsWith(s: string, prefix: string) {
    prefix <= s
  }

  predicate Before(a: string, b: string) {
    if b == [] then false
    else if a == [] then true
    else a[0] < b[0] || (a[0] == b[0] && Before(a[1..], b[1..]))
  }

  lemma {:induction false} OneIsBefore(a: string, b: string)
    ensures a == b || Before(a, b) || Before(b, a)
    ensures !(Before(a, b) && Before(b, a))
    decreases |a|
  {
    if a != [] && b != [] {
      OneIsBefore(a[1..], b[1..]);
      assert a == [a[0]] + a[1..] && b == [b[0]] + b[1..];
    }
  }

  lemma {:induction false} BeforeIsTransitive(a: string, b: string, c: string)
    requires Before(a, b) && Before(b, c)
    ensures Before(a, c)
    decreases |a|
  {
    if a != [] && a[0] == b[0] == c[0] {
      BeforeIsTransitive(a[1..], b[1..], c[1..]);
    }
  }

  /** The first of some strings. */
  method First(names: set<string>) returns (first: string)
    requires names != {}
    ensures first in names && forall n :: n in names ==> n == first || Before(first, n)
  {
    var left := names;
    first :| first in left;
    left := left - {first};
    while left != {}
      invariant left <= names && first in names
      invariant forall n :: n in names - left ==> n == first || Before(first, n)
      decreases left
    {
      var n :| n in left;
      OneIsBefore(first, n);
      if Before(n, first) {
        forall m | m in names - left && m != first
          ensures Before(n, m)
        {
          BeforeIsTransitive(n, first, m);
        }
        first := n;
      }
      left := left - {n};
    }
  }
}
