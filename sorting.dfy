/** `sorted(xs, key=k, reverse=True)`. Python's sort is stable, also with
    `reverse=True`: elements with equal keys keep their input order. Used for
    the hackathon matches and for the top GitHub projects. */
module Sorting {

  ghost predicate SortedDesc<T>(s: seq<T>, key: T -> real)
  {
    forall i, j :: 0 <= i < j < |s| ==> key(s[i]) >= key(s[j])
  }

  /** The elements of `s` whose key is `k`, in their order in `s`. */
  function WithKey<T>(s: seq<T>, key: T -> real, k: real): (r: seq<T>)
    decreases |s|
  {
    if s == [] then []
    else (if key(s[0]) == k then [s[0]] else []) + WithKey(s[1..], key, k)
  }

  /** Puts `x` in front of the first element whose key does not exceed its own. */
  function Insert<T>(x: T, ys: seq<T>, key: T -> real): (r: seq<T>)
    ensures |r| == |ys| + 1
    ensures multiset(r) == multiset(ys) + multiset{x}
    decreases |ys|
  {
    if ys == [] || key(ys[0]) <= key(x) then [x] + ys
    else
      assert ys == [ys[0]] + ys[1..];
      [ys[0]] + Insert(x, ys[1..], key)
  }

  function SortDesc<T>(xs: seq<T>, key: T -> real): (r: seq<T>)
    ensures |r| == |xs|
    ensures multiset(r) == multiset(xs)
    decreases |xs|
  {
    if xs == [] then []
    else
      assert xs == [xs[0]] + xs[1..];
      Insert(xs[0], SortDesc(xs[1..], key), key)
  }

  lemma {:induction false} InsertSorted<T>(x: T, ys: seq<T>, key: T -> real)
    requires SortedDesc(ys, key)
    ensures SortedDesc(Insert(x, ys, key), key)
    decreases |ys|
  {
    if ys != [] && key(ys[0]) > key(x) {
      var rest := Insert(x, ys[1..], key);
      var r := [ys[0]] + rest;
      assert SortedDesc(ys[1..], key) by {
        forall i, j | 0 <= i < j < |ys[1..]| ensures key(ys[1..][i]) >= key(ys[1..][j]) {
          assert ys[1..][i] == ys[i + 1] && ys[1..][j] == ys[j + 1];
        }
      }
      InsertSorted(x, ys[1..], key);
      assert forall i :: 0 <= i < |ys[1..]| ==> key(ys[1..][i]) <= key(ys[0]) by {
        forall i | 0 <= i < |ys[1..]| ensures key(ys[1..][i]) <= key(ys[0]) {
          assert ys[1..][i] == ys[i + 1];
        }
      }
      InsertBound(x, ys[1..], key, key(ys[0]));
      forall i, j | 0 <= i < j < |r| ensures key(r[i]) >= key(r[j]) {
        assert r[j] == rest[j - 1];
        if i > 0 {
          assert r[i] == rest[i - 1];
        }
      }
    }
  }

  /** A bound on the keys of `x` and of `ys` bounds the keys after insertion. */
  lemma {:induction false} InsertBound<T>(x: T, ys: seq<T>, key: T -> real, b: real)
    requires key(x) <= b && forall i :: 0 <= i < |ys| ==> key(ys[i]) <= b
    ensures forall i :: 0 <= i < |Insert(x, ys, key)| ==> key(Insert(x, ys, key)[i]) <= b
    decreases |ys|
  {
    if ys != [] && key(ys[0]) > key(x) {
      assert forall i :: 0 <= i < |ys[1..]| ==> ys[1..][i] == ys[i + 1];
      InsertBound(x, ys[1..], key, b);
      var rest := Insert(x, ys[1..], key);
      assert forall i :: 1 <= i < |rest| + 1 ==> ([ys[0]] + rest)[i] == rest[i - 1];
    }
  }

  /** The result is sorted by non-increasing key and is a permutation of the input. */
  lemma {:induction false} SortDescSorted<T>(xs: seq<T>, key: T -> real)
    ensures SortedDesc(SortDesc(xs, key), key)
    ensures multiset(SortDesc(xs, key)) == multiset(xs)
    decreases |xs|
  {
    if xs != [] {
      SortDescSorted(xs[1..], key);
      InsertSorted(xs[0], SortDesc(xs[1..], key), key);
    }
  }

  /** Inserting `x` puts it among the elements with its key in front of them
      all, and leaves every other key's elements as they were. */
  lemma {:induction false} InsertWithKey<T>(x: T, ys: seq<T>, key: T -> real, k: real)
    ensures WithKey(Insert(x, ys, key), key, k)
         == (if key(x) == k then [x] else []) + WithKey(ys, key, k)
    decreases |ys|
  {
    if ys == [] || key(ys[0]) <= key(x) {
      assert ([x] + ys)[1..] == ys;
    } else {
      var rest := Insert(x, ys[1..], key);
      assert ([ys[0]] + rest)[1..] == rest;
      InsertWithKey(x, ys[1..], key, k);
      var hx: seq<T> := if key(x) == k then [x] else [];
      var hy: seq<T> := if key(ys[0]) == k then [ys[0]] else [];
      assert hx == [] || hy == [];
      assert WithKey(ys, key, k) == hy + WithKey(ys[1..], key, k);
      assert WithKey([ys[0]] + rest, key, k) == hy + (hx + WithKey(ys[1..], key, k));
    }
  }

  /** Stability: for every key, the elements with that key appear in the
      output exactly in their input order. */
  lemma {:induction false} SortDescStable<T>(xs: seq<T>, key: T -> real, k: real)
    ensures WithKey(SortDesc(xs, key), key, k) == WithKey(xs, key, k)
    decreases |xs|
  {
    if xs != [] {
      InsertWithKey(xs[0], SortDesc(xs[1..], key), key, k);
      SortDescStable(xs[1..], key, k);
    }
  }

  /** Everything `sorted(xs, key=key, reverse=True)` promises at once:
      descending keys, a permutation, and stability for every key. */
  lemma SortDescSpec<T>(xs: seq<T>, key: T -> real)
    ensures SortedDesc(SortDesc(xs, key), key)
    ensures multiset(SortDesc(xs, key)) == multiset(xs)
    ensures forall k: real :: WithKey(SortDesc(xs, key), key, k) == WithKey(xs, key, k)
  {
    SortDescSorted(xs, key);
    forall k: real ensures WithKey(SortDesc(xs, key), key, k) == WithKey(xs, key, k) {
      SortDescStable(xs, key, k);
    }
  }
}
