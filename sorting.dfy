/** A stable sort by an integer key, the behaviour of Python's
    `sorted(xs, key=...)`: the result is ordered by key, holds the same
    elements, and keeps the input order among elements of equal key. */
module Sorting {
  import opened Common

  predicate SortedBy<T>(s: seq<T>, key: T -> int)
  {
    forall i :: 0 < i < |s| ==> key(s[i - 1]) <= key(s[i])
  }

  /** Inserts x after every element whose key is not greater than its own. */
  function Insert<T>(x: T, s: seq<T>, key: T -> int): (r: seq<T>)
    ensures |r| == |s| + 1
    ensures multiset(r) == multiset(s) + multiset{x}
  {
    if s == [] || key(s[|s| - 1]) <= key(x) then s + [x]
    else
      var r := Insert(x, s[..|s| - 1], key) + [s[|s| - 1]];
      assert s == s[..|s| - 1] + [s[|s| - 1]];
      r
  }

  function SortByKey<T>(s: seq<T>, key: T -> int): (r: seq<T>)
    ensures |r| == |s|
    ensures multiset(r) == multiset(s)
  {
    if s == [] then []
    else
      assert s == s[..|s| - 1] + [s[|s| - 1]];
      Insert(s[|s| - 1], SortByKey(s[..|s| - 1], key), key)
  }

  lemma {:induction false} InsertSorted<T>(x: T, s: seq<T>, key: T -> int)
    requires SortedBy(s, key)
    ensures SortedBy(Insert(x, s, key), key)
    decreases |s|
  {
    if s != [] && key(s[|s| - 1]) > key(x) {
      var p := s[..|s| - 1];
      assert SortedBy(p, key);
      InsertSorted(x, p, key);
      var q := Insert(x, p, key);
      assert q[|q| - 1] in multiset(q);
      assert q[|q| - 1] in multiset(p) + multiset{x};
      if q[|q| - 1] != x {
        var i :| 0 <= i < |p| && p[i] == q[|q| - 1];
        SortedPrefix(s, key, i);
      }
      SortedSnoc(q, s[|s| - 1], key);
    }
  }

  lemma SortedSnoc<T>(s: seq<T>, y: T, key: T -> int)
    requires SortedBy(s, key) && (s != [] ==> key(s[|s| - 1]) <= key(y))
    ensures SortedBy(s + [y], key)
  {
    var t := s + [y];
    forall i | 0 < i < |t|
      ensures key(t[i - 1]) <= key(t[i])
    {
      if i < |s| {
        assert t[i - 1] == s[i - 1] && t[i] == s[i];
      }
    }
  }

  lemma {:induction false} SortedPrefix<T>(s: seq<T>, key: T -> int, i: nat)
    requires SortedBy(s, key) && i < |s|
    ensures key(s[i]) <= key(s[|s| - 1])
    decreases |s| - i
  {
    if i < |s| - 1 {
      SortedPrefix(s, key, i + 1);
    }
  }

  /** The sorted sequence is ordered by key. */
  lemma {:induction false} SortSorted<T>(s: seq<T>, key: T -> int)
    ensures SortedBy(SortByKey(s, key), key)
  {
    if s != [] {
      SortSorted(s[..|s| - 1], key);
      InsertSorted(s[|s| - 1], SortByKey(s[..|s| - 1], key), key);
    }
  }

  /** The elements whose key is k, in order. */
  function WithKey<T>(s: seq<T>, key: T -> int, k: int): seq<T>
  {
    if s == [] then []
    else WithKey(s[..|s| - 1], key, k) + (if key(s[|s| - 1]) == k then [s[|s| - 1]] else [])
  }

  lemma {:induction false} WithKeyAppend<T>(s: seq<T>, x: T, key: T -> int, k: int)
    ensures WithKey(s + [x], key, k) == WithKey(s, key, k) + (if key(x) == k then [x] else [])
  {
    assert (s + [x])[..|s|] == s;
  }

  /** Elements of one key keep their relative order under insertion. */
  lemma {:induction false} InsertStable<T>(x: T, s: seq<T>, key: T -> int, k: int)
    ensures WithKey(Insert(x, s, key), key, k) == WithKey(s, key, k) + (if key(x) == k then [x] else [])
    decreases |s|
  {
    if s == [] || key(s[|s| - 1]) <= key(x) {
      WithKeyAppend(s, x, key, k);
    } else {
      var q := s[..|s| - 1];
      var last := s[|s| - 1];
      InsertStable(x, q, key, k);
      WithKeyAppend(Insert(x, q, key), last, key, k);
      assert WithKey(s, key, k) == WithKey(q, key, k) + (if key(last) == k then [last] else []);
    }
  }

  /** Stability: the elements of any one key appear in the sorted sequence
      in the order they had in the input. */
  lemma {:induction false} SortStable<T>(s: seq<T>, key: T -> int, k: int)
    ensures WithKey(SortByKey(s, key), key, k) == WithKey(s, key, k)
  {
    if s != [] {
      var q := s[..|s| - 1];
      SortStable(q, key, k);
      InsertStable(s[|s| - 1], SortByKey(q, key), key, k);
    }
  }
}
