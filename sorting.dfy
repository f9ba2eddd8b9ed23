/** `Array.prototype.sort` with a numeric comparator `(a, b) => key(a) - key(b)`,
    which the modelled code calls on keys that are timestamps or priorities,
    and `Array.prototype.slice(0, end)`. The language requires the sort to be
    stable; it is modelled by insertion sort, which is. */
module Sorting {
  import opened Common

  ghost predicate SortedBy<T>(s: seq<T>, key: T -> int) {
    forall i, j :: 0 <= i < j < |s| ==> key(s[i]) <= key(s[j])
  }

  /** Inserts `x` before the first element whose key is not smaller. */
  function InsertBy<T>(x: T, s: seq<T>, key: T -> int): (r: seq<T>)
    requires SortedBy(s, key)
    ensures |r| == |s| + 1
    ensures forall y :: y in r ==> y == x || y in s
    ensures SortedBy(r, key)
    decreases |s|
  {
    if s == [] || key(x) <= key(s[0]) then [x] + s
    else
      var t := InsertBy(x, s[1..], key);
      assert forall j :: 0 <= j < |t| ==> key(s[0]) <= key(t[j]) by {
        forall j | 0 <= j < |t| ensures key(s[0]) <= key(t[j]) {
          assert t[j] in t;
          if t[j] != x {
            var k :| 0 <= k < |s[1..]| && s[1..][k] == t[j];
            assert s[k + 1] == t[j];
          }
        }
      }
      [s[0]] + t
  }

  lemma {:induction false} InsertByPermutes<T>(x: T, s: seq<T>, key: T -> int)
    requires SortedBy(s, key)
    ensures multiset(InsertBy(x, s, key)) == multiset(s) + multiset{x}
    decreases |s|
  {
    if s != [] && key(x) > key(s[0]) {
      InsertByPermutes(x, s[1..], key);
      assert s == [s[0]] + s[1..];
    }
  }

  /** `s.slice().sort((a, b) => key(a) - key(b))`: the elements of `s`,
      non-decreasing in `key`. */
  function SortBy<T>(s: seq<T>, key: T -> int): (r: seq<T>)
    ensures |r| == |s| && multiset(r) == multiset(s)
    ensures SortedBy(r, key)
    decreases |s|
  {
    if s == [] then []
    else
      var t := SortBy(s[1..], key);
      InsertByPermutes(s[0], t, key);
      assert s == [s[0]] + s[1..];
      InsertBy(s[0], t, key)
  }

  /** The elements of `s` whose key is `k`, in their order in `s`. */
  function WithKey<T>(s: seq<T>, key: T -> int, k: int): seq<T>
    decreases |s|
  {
    if s == [] then []
    else (if key(s[0]) == k then [s[0]] else []) + WithKey(s[1..], key, k)
  }

  lemma {:induction false} InsertByWithKey<T>(x: T, s: seq<T>, key: T -> int, k: int)
    requires SortedBy(s, key)
    ensures WithKey(InsertBy(x, s, key), key, k) == (if key(x) == k then [x] else []) + WithKey(s, key, k)
    decreases |s|
  {
    var r := InsertBy(x, s, key);
    if s == [] || key(x) <= key(s[0]) {
      assert r[1..] == s;
    } else {
      var t := InsertBy(x, s[1..], key);
      assert r[1..] == t;
      InsertByWithKey(x, s[1..], key, k);
    }
  }

  /** Stability: elements with equal keys keep their relative order. */
  lemma {:induction false} SortByStable<T>(s: seq<T>, key: T -> int, k: int)
    ensures WithKey(SortBy(s, key), key, k) == WithKey(s, key, k)
    decreases |s|
  {
    if s != [] {
      SortByStable(s[1..], key, k);
      InsertByWithKey(s[0], SortBy(s[1..], key), key, k);
    }
  }

  /** The first `n` elements of a sorted sequence have the smallest keys:
      each element left out has a key no smaller than any element kept. */
  lemma SortedPrefixIsLeast<T>(s: seq<T>, key: T -> int, n: nat)
    requires SortedBy(s, key) && n <= |s|
    ensures multiset(s) - multiset(s[..n]) == multiset(s[n..])
    ensures forall y, x :: y in s[n..] && x in s[..n] ==> key(x) <= key(y)
  {
    assert s == s[..n] + s[n..];
    forall y, x | y in s[n..] && x in s[..n] ensures key(x) <= key(y) {
      var j :| 0 <= j < |s[n..]| && s[n..][j] == y;
      var i :| 0 <= i < n && s[..n][i] == x;
      assert s[i] == x && s[n + j] == y;
    }
  }

  /** Two elements already in order stay as they are. */
  lemma SortTwo<T>(x: T, y: T, key: T -> int)
    requires key(x) <= key(y)
    ensures SortBy([x, y], key) == [x, y]
  {
    assert [x, y][1..] == [y];
    assert [y][1..] == [];
    assert SortBy([y], key) == InsertBy(y, [], key) == [y];
  }

  /** The first `n` elements after sorting are drawn from `s`, and every
      element of `s` left out has a key no smaller than any element kept. */
  lemma SortedTakeIsLeast<T>(s: seq<T>, key: T -> int, n: nat)
    requires n <= |s|
    ensures var taken := SortBy(s, key)[..n];
      multiset(taken) <= multiset(s)
      && forall y, x :: y in multiset(s) - multiset(taken) && x in taken ==> key(x) <= key(y)
  {
    var sorted := SortBy(s, key);
    var taken := sorted[..n];
    SortedPrefixIsLeast(sorted, key, n);
    PrefixSubMultiset(sorted, n);
    assert multiset(s) == multiset(sorted);
    forall y, x | y in multiset(s) - multiset(taken) && x in taken ensures key(x) <= key(y) {
      assert y in multiset(sorted[n..]);
    }
  }

  lemma PrefixSubMultiset<T>(s: seq<T>, n: nat)
    requires n <= |s|
    ensures multiset(s[..n]) <= multiset(s)
  {
    assert s == s[..n] + s[n..];
  }

  /** `s.slice(0, end)`: a negative `end` counts from the back. */
  function SliceTo<T>(s: seq<T>, end: int): (r: seq<T>)
    ensures |r| <= |s| && r == s[..|r|]
    ensures |r| == if end >= 0 then Min(end, |s|) else Max(0, |s| + end)
  {
    if end >= 0 then s[..Min(end, |s|)] else s[..Max(0, |s| + end)]
  }
}
