/** A stable insertion sort over an arbitrary "comes no later than"
    relation. It stands in for both sorts the program performs: SQL's
    `ORDER BY date ASC` and pandas' `sort_values(ascending=False)`. Neither
    of those fixes the order of ties, so the model's contracts are stated in
    terms that every tie order satisfies: a permutation that is sorted. */
module Sorting {

  /** `le` is total and transitive, the least a sort key must be. */
  ghost predicate TotalPreorder<T(!new)>(le: (T, T) -> bool) {
    && (forall a, b :: le(a, b) || le(b, a))
    && (forall a, b, c :: le(a, b) && le(b, c) ==> le(a, c))
  }

  predicate SortedBy<T>(s: seq<T>, le: (T, T) -> bool) {
    forall i, j :: 0 <= i < j < |s| ==> le(s[i], s[j])
  }

  /** No element occurs twice. */
  predicate NoDuplicates<T(==)>(s: seq<T>) {
    forall i, j :: 0 <= i < j < |s| ==> s[i] != s[j]
  }

  /** Puts `x` in front of the first element it comes no later than, so that
      `x` stays ahead of the elements it ties with. */
  function Insert<T(!new)>(x: T, s: seq<T>, le: (T, T) -> bool): (r: seq<T>)
    ensures |r| == |s| + 1
    ensures multiset(r) == multiset(s) + multiset{x}
  {
    if |s| == 0 || le(x, s[0]) then
      [x] + s
    else
      assert s == [s[0]] + s[1..];
      [s[0]] + Insert(x, s[1..], le)
  }

  lemma {:induction false} InsertKeepsSorted<T(!new)>(x: T, s: seq<T>, le: (T, T) -> bool)
    requires TotalPreorder(le)
    requires SortedBy(s, le)
    ensures SortedBy(Insert(x, s, le), le)
  {
    if |s| > 0 && !le(x, s[0]) {
      var tail := Insert(x, s[1..], le);
      InsertKeepsSorted(x, s[1..], le);
      assert le(s[0], x);
      forall e | e in tail
        ensures le(s[0], e)
      {
        assert e in multiset(tail);
        assert e == x || e in s[1..];
      }
      var r := [s[0]] + tail;
      forall i, j | 0 <= i < j < |r|
        ensures le(r[i], r[j])
      {
        if i > 0 {
          assert r[i] == tail[i - 1] && r[j] == tail[j - 1];
        } else {
          assert r[j] in tail;
        }
      }
    }
  }

  /** Sorts `s` by `le`; earlier elements stay ahead of the later ones they
      tie with. */
  function SortBy<T(!new)>(s: seq<T>, le: (T, T) -> bool): (r: seq<T>)
    ensures |r| == |s|
    ensures multiset(r) == multiset(s)
  {
    if |s| == 0 then
      []
    else
      assert s == [s[0]] + s[1..];
      Insert(s[0], SortBy(s[1..], le), le)
  }

  lemma {:induction false} SortByIsSorted<T(!new)>(s: seq<T>, le: (T, T) -> bool)
    requires TotalPreorder(le)
    ensures SortedBy(SortBy(s, le), le)
  {
    if |s| > 0 {
      SortByIsSorted(s[1..], le);
      InsertKeepsSorted(s[0], SortBy(s[1..], le), le);
    }
  }

  /** A permutation of a sequence without duplicates has none either. */
  lemma {:induction false} PermutationKeepsNoDuplicates<T>(s: seq<T>, t: seq<T>)
    requires multiset(s) == multiset(t)
    requires NoDuplicates(s)
    ensures NoDuplicates(t)
  {
    forall x | x in multiset(s)
      ensures multiset(s)[x] == 1
    {
      CountOfUnique(s, x);
    }
    forall i, j | 0 <= i < j < |t|
      ensures t[i] != t[j]
    {
      TwoPositionsCountTwice(t, i, j);
      assert t[i] in multiset(s);
    }
  }

  lemma {:induction false} CountOfUnique<T>(s: seq<T>, x: T)
    requires NoDuplicates(s)
    requires x in s
    ensures multiset(s)[x] == 1
  {
    var n := |s| - 1;
    assert s == s[..n] + [s[n]];
    if s[n] == x {
      assert x !in s[..n];
    } else {
      CountOfUnique(s[..n], x);
    }
  }

  lemma {:induction false} TwoPositionsCountTwice<T>(s: seq<T>, i: int, j: int)
    requires 0 <= i < j < |s|
    ensures s[i] == s[j] ==> multiset(s)[s[i]] >= 2
  {
    assert s == s[..i] + [s[i]] + s[i + 1..j] + [s[j]] + s[j + 1..];
  }
}
