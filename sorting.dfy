/**
 * `Array.prototype.sort` with a comparator `(a, b) => key(a) - key(b)`: a stable
 * ascending sort by an integer key.  It is written as an insertion sort that
 * inserts each element after every element whose key is not larger.
 */
module Sorting {

  ghost predicate SortedBy<T>(s: seq<T>, key: T -> int) {
    forall i, j :: 0 <= i < j < |s| ==> key(s[i]) <= key(s[j])
  }

  /** `x` placed after the last element of `s` whose key is at most `key(x)`. */
  function Insert<T>(x: T, s: seq<T>, key: T -> int): (r: seq<T>)
    ensures |r| == |s| + 1
  {
    if s == [] || key(s[|s| - 1]) <= key(x) then s + [x]
    else Insert(x, s[..|s| - 1], key) + [s[|s| - 1]]
  }

  function SortByKey<T>(s: seq<T>, key: T -> int): (r: seq<T>)
    ensures |r| == |s|
  {
    if s == [] then [] else Insert(s[|s| - 1], SortByKey(s[..|s| - 1], key), key)
  }

  lemma {:induction false} InsertPermutes<T>(x: T, s: seq<T>, key: T -> int)
    ensures multiset(Insert(x, s, key)) == multiset(s) + multiset{x}
  {
    if !(s == [] || key(s[|s| - 1]) <= key(x)) {
      var init, last := s[..|s| - 1], s[|s| - 1];
      assert s == init + [last];
      InsertPermutes(x, init, key);
    }
  }

  /** Inserting keeps every key under a common bound. */
  lemma {:induction false} InsertBounded<T>(x: T, s: seq<T>, key: T -> int, b: int)
    requires key(x) <= b && forall k :: 0 <= k < |s| ==> key(s[k]) <= b
    ensures forall k :: 0 <= k < |Insert(x, s, key)| ==> key(Insert(x, s, key)[k]) <= b
  {
    if !(s == [] || key(s[|s| - 1]) <= key(x)) {
      InsertBounded(x, s[..|s| - 1], key, b);
    }
  }

  lemma {:induction false} InsertSorted<T>(x: T, s: seq<T>, key: T -> int)
    requires SortedBy(s, key)
    ensures SortedBy(Insert(x, s, key), key)
  {
    if s == [] || key(s[|s| - 1]) <= key(x) {
      var r := s + [x];
      forall i, j | 0 <= i < j < |r| ensures key(r[i]) <= key(r[j]) {
        if j == |s| {
          assert key(s[i]) <= key(s[|s| - 1]);
        }
      }
    } else {
      var init, last := s[..|s| - 1], s[|s| - 1];
      InsertSorted(x, init, key);
      InsertBounded(x, init, key, key(last));
      var t := Insert(x, init, key);
      assert Insert(x, s, key) == t + [last];
    }
  }

  /** The result is ordered by key. */
  lemma {:induction false} SortSorted<T>(s: seq<T>, key: T -> int)
    ensures SortedBy(SortByKey(s, key), key)
    ensures multiset(SortByKey(s, key)) == multiset(s)
  {
    if s != [] {
      var init := s[..|s| - 1];
      SortSorted(init, key);
      InsertSorted(s[|s| - 1], SortByKey(init, key), key);
      InsertPermutes(s[|s| - 1], SortByKey(init, key), key);
      assert s == init + [s[|s| - 1]];
    }
  }

  /** Already ordered input is left as it is, so equal keys keep their input order. */
  lemma {:induction false} SortOfSorted<T>(s: seq<T>, key: T -> int)
    requires SortedBy(s, key)
    ensures SortByKey(s, key) == s
  {
    if s != [] {
      var init := s[..|s| - 1];
      assert SortedBy(init, key);
      SortOfSorted(init, key);
      if |s| > 1 {
        assert key(init[|init| - 1]) <= key(s[|s| - 1]);
      }
      assert init + [s[|s| - 1]] == s;
    }
  }

  /** When `s` is `orig` put in order, no element of `orig` outside the first `n` of
      `s` has a smaller key than one of those `n`. */
  lemma SortedPrefixFirst<T>(s: seq<T>, orig: seq<T>, n: nat, key: T -> int)
    requires SortedBy(s, key) && multiset(s) == multiset(orig) && n <= |s|
    ensures multiset(s[..n]) <= multiset(orig)
    ensures forall e, f :: e in s[..n] && f in multiset(orig) - multiset(s[..n]) ==> key(e) <= key(f)
  {
    assert s == s[..n] + s[n..];
    assert multiset(orig) - multiset(s[..n]) == multiset(s[n..]);
    forall e, f | e in s[..n] && f in multiset(orig) - multiset(s[..n]) ensures key(e) <= key(f) {
      assert f in s[n..];
      var i :| 0 <= i < n && s[..n][i] == e;
      var j :| 0 <= j < |s| - n && s[n..][j] == f;
      assert s[i] == e && s[n + j] == f;
    }
  }
}
