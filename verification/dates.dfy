/** Dates are kept exactly as typed (`TEXT` columns holding `YYYY-MM-DD`),
    so every comparison on them -- `BETWEEN` and `ORDER BY` -- is SQLite's
    BINARY collation: a byte-wise comparison of the UTF-8 encodings, where a
    proper prefix sorts first. On UTF-8 that order coincides with the
    lexicographic order of code points, which is what `Le` defines. */
module Dates {

  type Date = string

  /** `a <= b` in SQLite's BINARY collation. */
  predicate Le(a: string, b: string)
    decreases |a|
  {
    |a| == 0 || (|b| > 0 && (a[0] < b[0] || (a[0] == b[0] && Le(a[1..], b[1..]))))
  }

  /** `d BETWEEN lo AND hi`: both bounds are inclusive. */
  predicate Between(d: string, lo: string, hi: string) {
    Le(lo, d) && Le(d, hi)
  }

  /** The textbook definition of lexicographic order: `a` is a prefix of `b`,
      or the two agree up to a first difference where `a` has the smaller
      code point. */
  ghost predicate LexLe(a: string, b: string) {
    (|a| <= |b| && a == b[..|a|])
    || exists k :: 0 <= k < |a| && k < |b| && a[..k] == b[..k] && a[k] < b[k]
  }

  lemma {:induction false} LeIsLexicographic(a: string, b: string)
    ensures Le(a, b) <==> LexLe(a, b)
    decreases |a|
  {
    if |a| == 0 {
      assert a == b[..0];
    } else if |b| == 0 {
      assert !LexLe(a, b);
    } else if a[0] < b[0] {
      assert a[..0] == b[..0];
    } else if a[0] > b[0] {
      FirstGreaterNotLexLe(a, b);
    } else {
      LeIsLexicographic(a[1..], b[1..]);
      if LexLe(a[1..], b[1..]) {
        LexLeOfTails(a, b);
      }
      if LexLe(a, b) {
        LexLeToTails(a, b);
      }
    }
  }

  /** Two strings that agree up to position `k` and differ there are
      ordered by their characters at `k`. */
  lemma LeAtFirstDifference(a: string, b: string, k: int)
    requires 0 <= k < |a| && k < |b|
    requires a[..k] == b[..k] && a[k] < b[k]
    ensures Le(a, b) && a != b
  {
    LeIsLexicographic(a, b);
  }

  lemma FirstGreaterNotLexLe(a: string, b: string)
    requires |a| > 0 && |b| > 0 && a[0] > b[0]
    ensures !LexLe(a, b)
  {
    assert |a| <= |b| ==> a[0] != b[..|a|][0];
    forall k | 0 < k < |a| && k < |b|
      ensures a[..k] != b[..k]
    {
      assert a[..k][0] != b[..k][0];
    }
  }

  /** With equal first characters, order of the tails gives order of the
      strings. */
  lemma LexLeOfTails(a: string, b: string)
    requires |a| > 0 && |b| > 0 && a[0] == b[0]
    requires LexLe(a[1..], b[1..])
    ensures LexLe(a, b)
  {
    var a', b' := a[1..], b[1..];
    if |a'| <= |b'| && a' == b'[..|a'|] {
      assert a == [a[0]] + a' && b[..|a|] == [b[0]] + b'[..|a'|];
    } else {
      var k :| 0 <= k < |a'| && k < |b'| && a'[..k] == b'[..k] && a'[k] < b'[k];
      assert a[..k + 1] == [a[0]] + a'[..k] && b[..k + 1] == [b[0]] + b'[..k];
      assert a[k + 1] < b[k + 1];
    }
  }

  /** With equal first characters, order of the strings gives order of the
      tails. */
  lemma LexLeToTails(a: string, b: string)
    requires |a| > 0 && |b| > 0 && a[0] == b[0]
    requires LexLe(a, b)
    ensures LexLe(a[1..], b[1..])
  {
    var a', b' := a[1..], b[1..];
    if |a| <= |b| && a == b[..|a|] {
      assert a' == b'[..|a'|];
    } else {
      var k :| 0 <= k < |a| && k < |b| && a[..k] == b[..k] && a[k] < b[k];
      assert k > 0;
      assert a'[..k - 1] == a[..k][1..] && b'[..k - 1] == b[..k][1..];
      assert a'[k - 1] < b'[k - 1];
    }
  }

  lemma {:induction false} LeReflexive(a: string)
    ensures Le(a, a)
    decreases |a|
  {
    if |a| > 0 {
      LeReflexive(a[1..]);
    }
  }

  lemma {:induction false} LeTotal(a: string, b: string)
    ensures Le(a, b) || Le(b, a)
    decreases |a|
  {
    if |a| > 0 && |b| > 0 && a[0] == b[0] {
      LeTotal(a[1..], b[1..]);
    }
  }

  lemma {:induction false} LeTransitive(a: string, b: string, c: string)
    requires Le(a, b) && Le(b, c)
    ensures Le(a, c)
    decreases |a|
  {
    if |a| > 0 && a[0] == b[0] && b[0] == c[0] {
      LeTransitive(a[1..], b[1..], c[1..]);
    }
  }

  lemma {:induction false} LeAntisymmetric(a: string, b: string)
    requires Le(a, b) && Le(b, a)
    ensures a == b
    decreases |a|
  {
    if |a| > 0 {
      LeAntisymmetric(a[1..], b[1..]);
      assert a == [a[0]] + a[1..] && b == [b[0]] + b[1..];
    }
  }
}
