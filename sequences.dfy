/** `Array.prototype.filter` over immutable sequences, and the facts about it
    that both filters of the search handler rely on. */
module Sequences {

  /** `xs` is obtained from `ys` by deleting elements, without reordering. */
  ghost predicate IsSubsequence<T>(xs: seq<T>, ys: seq<T>)
    decreases |ys|
  {
    if xs == [] then true
    else if ys == [] then false
    else (xs[0] == ys[0] && IsSubsequence(xs[1..], ys[1..])) || IsSubsequence(xs, ys[1..])
  }

  /** `s.filter(keep)`: keeps exactly the elements that satisfy `keep`, each
      as often as it occurs in `s`, in their order in `s`. */
  function Filter<T(!new)>(keep: T -> bool, s: seq<T>): (r: seq<T>)
    ensures forall x :: x in r <==> x in s && keep(x)
    ensures forall x :: multiset(r)[x] == if keep(x) then multiset(s)[x] else 0
    ensures IsSubsequence(r, s)
    decreases |s|
  {
    if s == [] then
      []
    else
      assert s == [s[0]] + s[1..];
      if keep(s[0]) then [s[0]] + Filter(keep, s[1..]) else Filter(keep, s[1..])
  }

  /** Every element of a subsequence is an element of the original. */
  lemma {:induction false} SubsequenceMember<T>(xs: seq<T>, ys: seq<T>, k: int)
    requires IsSubsequence(xs, ys) && 0 <= k < |xs|
    ensures exists a :: 0 <= a < |ys| && ys[a] == xs[k]
    decreases |ys|
  {
    if xs[0] == ys[0] && IsSubsequence(xs[1..], ys[1..]) {
      if k == 0 {
        assert ys[0] == xs[k];
      } else {
        SubsequenceMember(xs[1..], ys[1..], k - 1);
        var a :| 0 <= a < |ys| - 1 && ys[1..][a] == xs[1..][k - 1];
        assert ys[a + 1] == xs[k];
      }
    } else {
      SubsequenceMember(xs, ys[1..], k);
      var a :| 0 <= a < |ys| - 1 && ys[1..][a] == xs[k];
      assert ys[a + 1] == xs[k];
    }
  }

  /** A subsequence keeps the relative order of the original: two elements in
      order in `xs` are found, in the same order, at positions of `ys`. */
  lemma {:induction false} SubsequenceKeepsOrder<T>(xs: seq<T>, ys: seq<T>, i: int, j: int)
    requires IsSubsequence(xs, ys) && 0 <= i < j < |xs|
    ensures exists a, b :: 0 <= a < b < |ys| && ys[a] == xs[i] && ys[b] == xs[j]
    decreases |ys|
  {
    if xs[0] == ys[0] && IsSubsequence(xs[1..], ys[1..]) {
      if i == 0 {
        SubsequenceMember(xs[1..], ys[1..], j - 1);
        var b :| 0 <= b < |ys| - 1 && ys[1..][b] == xs[1..][j - 1];
        assert ys[0] == xs[i] && ys[b + 1] == xs[j];
      } else {
        SubsequenceKeepsOrder(xs[1..], ys[1..], i - 1, j - 1);
        var a, b :| 0 <= a < b < |ys| - 1 && ys[1..][a] == xs[1..][i - 1] && ys[1..][b] == xs[1..][j - 1];
        assert ys[a + 1] == xs[i] && ys[b + 1] == xs[j];
      }
    } else {
      SubsequenceKeepsOrder(xs, ys[1..], i, j);
      var a, b :| 0 <= a < b < |ys| - 1 && ys[1..][a] == xs[i] && ys[1..][b] == xs[j];
      assert ys[a + 1] == xs[i] && ys[b + 1] == xs[j];
    }
  }

  /** Filtering a sequence all of whose elements pass returns it unchanged. */
  lemma {:induction false} FilterKeepsAll<T(!new)>(keep: T -> bool, s: seq<T>)
    requires forall x :: x in s ==> keep(x)
    ensures Filter(keep, s) == s
    decreases |s|
  {
    if s != [] {
      assert s[0] in s;
      FilterKeepsAll(keep, s[1..]);
      assert [s[0]] + s[1..] == s;
    }
  }

  /** Filtering twice with the same test is filtering once. */
  lemma FilterIdempotent<T(!new)>(keep: T -> bool, s: seq<T>)
    ensures Filter(keep, Filter(keep, s)) == Filter(keep, s)
  {
    FilterKeepsAll(keep, Filter(keep, s));
  }

  /** When no element passes, the filter is empty. */
  lemma {:induction false} FilterKeepsNone<T(!new)>(keep: T -> bool, s: seq<T>)
    requires forall x :: x in s ==> !keep(x)
    ensures Filter(keep, s) == []
    decreases |s|
  {
    if s != [] {
      assert s[0] in s;
      FilterKeepsNone(keep, s[1..]);
    }
  }
}
