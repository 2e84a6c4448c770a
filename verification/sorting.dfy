/** Sorting a sequence by a real-valued key, as `Array.prototype.sort` does
    with a comparator `(a, b) => key(a) - key(b)`. */
module Sorting {

  /** `s` is non-decreasing by `key`. */
  ghost predicate SortedBy<T>(s: seq<T>, key: T -> real) {
    forall i, j :: 0 <= i < j < |s| ==> key(s[i]) <= key(s[j])
  }

  /** Inserts `x` into a sorted sequence in front of the first element whose
      key is not smaller, so that earlier elements stay in front of equal ones. */
  function Insert<T>(x: T, s: seq<T>, key: T -> real): (r: seq<T>)
    requires SortedBy(s, key)
    ensures SortedBy(r, key)
    ensures multiset(r) == multiset(s) + multiset{x}
    ensures r[0] == x || (|s| > 0 && r[0] == s[0])
  {
    if |s| == 0 then [x]
    else if key(x) <= key(s[0]) then [x] + s
    else
      var t := Insert(x, s[1..], key);
      assert s == [s[0]] + s[1..];
      assert key(s[0]) <= key(t[0]);
      [s[0]] + t
  }

  /** Sorts `s` ascending by `key`: the result is a permutation of `s`. */
  function SortBy<T>(s: seq<T>, key: T -> real): (r: seq<T>)
    ensures SortedBy(r, key)
    ensures multiset(r) == multiset(s)
    ensures |r| == |s|
  {
    if |s| == 0 then []
    else
      assert s == [s[0]] + s[1..];
      Insert(s[0], SortBy(s[1..], key), key)
  }

  /** The first `k` elements of a sorted permutation of `s` are taken from
      `s`, and everything of `s` left out has a key at least theirs. */
  lemma SortedPrefixIsLeast<T>(s: seq<T>, sorted: seq<T>, key: T -> real, k: nat)
    requires SortedBy(sorted, key) && multiset(sorted) == multiset(s) && k <= |sorted|
    ensures multiset(sorted[..k]) <= multiset(s)
    ensures forall d, i :: d in multiset(s) - multiset(sorted[..k]) && 0 <= i < k ==>
      key(sorted[i]) <= key(d)
  {
    assert sorted == sorted[..k] + sorted[k..];
    assert multiset(s) - multiset(sorted[..k]) == multiset(sorted[k..]);
    forall d, i | d in multiset(sorted[k..]) && 0 <= i < k
      ensures key(sorted[i]) <= key(d)
    {
      assert d in sorted[k..];
      var j :| 0 <= j < |sorted[k..]| && sorted[k..][j] == d;
      assert sorted[k + j] == d;
    }
  }
}
