/** `list.sort(key=...)`: a stable sort by a real-valued key. The result of a
    stable sort is unique, so it is specified here by insertion sort, and
    the method that the handlers call sorts by inserting one element at a time. */
module Sorting {

  /** Keys never decrease along `s`. */
  ghost predicate SortedBy<T>(s: seq<T>, key: T -> real) {
    forall i, j :: 0 <= i < j < |s| ==> key(s[i]) <= key(s[j])
  }

  /** The elements of `s` whose key is `k`, in their order in `s`. */
  function WithKey<T>(s: seq<T>, key: T -> real, k: real): seq<T> {
    if s == [] then []
    else WithKey(s[..|s| - 1], key, k) + (if key(s[|s| - 1]) == k then [s[|s| - 1]] else [])
  }

  /** `x` placed into `s` after every element whose key is not larger. */
  function Insert<T>(s: seq<T>, x: T, key: T -> real): seq<T> {
    if s == [] then [x]
    else if key(s[|s| - 1]) <= key(x) then s + [x]
    else Insert(s[..|s| - 1], x, key) + [s[|s| - 1]]
  }

  /** The stable sort of `s` by `key`. */
  function SortByKey<T>(s: seq<T>, key: T -> real): seq<T> {
    if s == [] then [] else Insert(SortByKey(s[..|s| - 1], key), s[|s| - 1], key)
  }

  lemma {:induction false} InsertPermutes<T>(s: seq<T>, x: T, key: T -> real)
    ensures multiset(Insert(s, x, key)) == multiset(s) + multiset{x}
  {
    if s != [] && key(s[|s| - 1]) > key(x) {
      var n := |s| - 1;
      InsertPermutes(s[..n], x, key);
      assert s == s[..n] + [s[n]];
    }
  }

  lemma {:induction false} InsertSorted<T>(s: seq<T>, x: T, key: T -> real)
    requires SortedBy(s, key)
    ensures SortedBy(Insert(s, x, key), key)
  {
    if s != [] && key(s[|s| - 1]) > key(x) {
      var n := |s| - 1;
      var last := s[n];
      InsertSorted(s[..n], x, key);
      InsertPermutes(s[..n], x, key);
      var front := Insert(s[..n], x, key);
      forall i | 0 <= i < |front| ensures key(front[i]) <= key(last) {
        assert front[i] in multiset(front);
        if front[i] != x {
          assert front[i] in multiset(s[..n]);
          var j :| 0 <= j < n && s[..n][j] == front[i];
          assert s[j] == front[i];
        }
      }
    }
  }

  /** Appending one element extends its key class by that element. */
  lemma WithKeyAppend<T>(s: seq<T>, y: T, key: T -> real, k: real)
    ensures WithKey(s + [y], key, k) == WithKey(s, key, k) + (if key(y) == k then [y] else [])
  {
    assert (s + [y])[..|s|] == s;
  }

  /** Insertion keeps every key class in order and puts `x` last in its class. */
  lemma {:induction false} InsertStable<T>(s: seq<T>, x: T, key: T -> real, k: real)
    ensures WithKey(Insert(s, x, key), key, k) == WithKey(s, key, k) + (if key(x) == k then [x] else [])
  {
    if s == [] {
      WithKeyAppend([], x, key, k);
      assert [] + [x] == [x];
    } else if key(s[|s| - 1]) <= key(x) {
      WithKeyAppend(s, x, key, k);
    } else {
      var n := |s| - 1;
      var front := Insert(s[..n], x, key);
      InsertStable(s[..n], x, key, k);
      WithKeyAppend(front, s[n], key, k);
      WithKeyAppend(s[..n], s[n], key, k);
      assert s[..n] + [s[n]] == s;
    }
  }

  lemma {:induction false} SortByKeyPermutes<T>(s: seq<T>, key: T -> real)
    ensures multiset(SortByKey(s, key)) == multiset(s)
  {
    if s != [] {
      var n := |s| - 1;
      var sorted := SortByKey(s[..n], key);
      SortByKeyPermutes(s[..n], key);
      InsertPermutes(sorted, s[n], key);
      assert SortByKey(s, key) == Insert(sorted, s[n], key);
      assert s == s[..n] + [s[n]];
      assert multiset(s) == multiset(s[..n]) + multiset{s[n]};
    }
  }

  lemma {:induction false} SortByKeySorted<T>(s: seq<T>, key: T -> real)
    ensures SortedBy(SortByKey(s, key), key)
  {
    if s != [] {
      var n := |s| - 1;
      SortByKeySorted(s[..n], key);
      InsertSorted(SortByKey(s[..n], key), s[n], key);
    }
  }

  /** Elements with equal keys keep their relative order. */
  lemma {:induction false} SortByKeyStable<T>(s: seq<T>, key: T -> real, k: real)
    ensures WithKey(SortByKey(s, key), key, k) == WithKey(s, key, k)
  {
    if s != [] {
      var n := |s| - 1;
      SortByKeyStable(s[..n], key, k);
      InsertStable(SortByKey(s[..n], key), s[n], key, k);
    }
  }

  /** No two elements of `s` share an identifier. */
  ghost predicate DistinctBy<T>(s: seq<T>, id: T -> string) {
    forall i, j :: 0 <= i < j < |s| ==> id(s[i]) != id(s[j])
  }

  lemma {:induction false} InsertDistinct<T>(s: seq<T>, x: T, key: T -> real, id: T -> string)
    requires DistinctBy(s, id)
    requires forall i :: 0 <= i < |s| ==> id(s[i]) != id(x)
    ensures DistinctBy(Insert(s, x, key), id)
  {
    if s != [] && key(s[|s| - 1]) > key(x) {
      var n := |s| - 1;
      InsertDistinct(s[..n], x, key, id);
      InsertPermutes(s[..n], x, key);
      var front := Insert(s[..n], x, key);
      forall i | 0 <= i < |front| ensures id(front[i]) != id(s[n]) {
        assert front[i] in multiset(front);
        if front[i] != x {
          assert front[i] in multiset(s[..n]);
          var j :| 0 <= j < n && s[..n][j] == front[i];
          assert s[j] == front[i];
        }
      }
    }
  }

  /** Sorting never duplicates an element, so distinct identifiers stay distinct. */
  lemma {:induction false} SortByKeyDistinct<T>(s: seq<T>, key: T -> real, id: T -> string)
    requires DistinctBy(s, id)
    ensures DistinctBy(SortByKey(s, key), id)
  {
    if s != [] {
      var n := |s| - 1;
      assert DistinctBy(s[..n], id);
      SortByKeyDistinct(s[..n], key, id);
      SortByKeyPermutes(s[..n], key);
      var sorted := SortByKey(s[..n], key);
      forall i | 0 <= i < |sorted| ensures id(sorted[i]) != id(s[n]) {
        assert sorted[i] in multiset(s[..n]);
        var j :| 0 <= j < n && s[..n][j] == sorted[i];
        assert s[j] == sorted[i];
      }
      InsertDistinct(sorted, s[n], key, id);
    }
  }

  /** Scans `ys` from its end for the place of `x` and inserts it there. */
  method InsertInto<T>(ys: seq<T>, x: T, key: T -> real) returns (r: seq<T>)
    ensures r == Insert(ys, x, key)
  {
    var j := |ys|;
    assert ys[..j] == ys && ys[j..] == [];
    while j > 0 && key(ys[j - 1]) > key(x)
      invariant 0 <= j <= |ys|
      invariant Insert(ys, x, key) == Insert(ys[..j], x, key) + ys[j..]
    {
      assert ys[..j][..j - 1] == ys[..j - 1];
      assert ys[j - 1..] == [ys[j - 1]] + ys[j..];
      j := j - 1;
    }
    r := ys[..j] + [x] + ys[j..];
  }

  /** Sorts `xs` by inserting each element, in turn, behind the sorted
      elements whose key is not larger. */
  method StableSort<T>(xs: seq<T>, key: T -> real) returns (ys: seq<T>)
    ensures ys == SortByKey(xs, key)
    ensures SortedBy(ys, key) && multiset(ys) == multiset(xs)
    ensures forall k :: WithKey(ys, key, k) == WithKey(xs, key, k)
  {
    ys := [];
    var i := 0;
    while i < |xs|
      invariant 0 <= i <= |xs|
      invariant ys == SortByKey(xs[..i], key)
    {
      assert xs[..i + 1][..i] == xs[..i];
      ys := InsertInto(ys, xs[i], key);
      i := i + 1;
    }
    assert xs[..|xs|] == xs;
    SortByKeySorted(xs, key);
    SortByKeyPermutes(xs, key);
    forall k ensures WithKey(ys, key, k) == WithKey(xs, key, k) {
      SortByKeyStable(xs, key, k);
    }
  }
}
