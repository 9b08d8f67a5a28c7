/** A stable sort by a numeric key: the behaviour ECMAScript requires of
    `Array.prototype.sort` with a comparator `(a, b) => key(a) - key(b)`.
    Elements whose keys compare equal keep their relative order. */
module Sorting {
  import opened Seqs

  /** `s` is in non-decreasing order of `key`. */
  ghost predicate SortedBy<T>(s: seq<T>, key: T -> real)
  {
    forall i, j :: 0 <= i < j < |s| ==> key(s[i]) <= key(s[j])
  }

  /** The test "has key `k`". */
  function KeyIs<T>(key: T -> real, k: real): T -> bool
  {
    (y: T) => key(y) == k
  }

  /** The elements of `s` whose key is `k`, in their order in `s`. */
  function WithKey<T>(s: seq<T>, key: T -> real, k: real): seq<T>
  {
    Filter(s, KeyIs(key, k))
  }

  /** Inserts `x` after every trailing element whose key is larger, so that
      `x` lands after all elements with a key equal to its own. */
  function Insert<T>(t: seq<T>, x: T, key: T -> real): seq<T>
  {
    if t == [] || key(t[|t| - 1]) <= key(x) then t + [x]
    else Insert(t[..|t| - 1], x, key) + [t[|t| - 1]]
  }

  /** Insertion sort: each element in turn is inserted into the sorted prefix. */
  function SortBy<T>(s: seq<T>, key: T -> real): seq<T>
  {
    if s == [] then [] else Insert(SortBy(s[..|s| - 1], key), s[|s| - 1], key)
  }

  lemma {:induction false} InsertPermutes<T>(t: seq<T>, x: T, key: T -> real)
    ensures multiset(Insert(t, x, key)) == multiset(t) + multiset{x}
  {
    if t != [] && key(t[|t| - 1]) > key(x) {
      InsertPermutes(t[..|t| - 1], x, key);
      assert t == t[..|t| - 1] + [t[|t| - 1]];
    }
  }

  lemma {:induction false} InsertSorted<T>(t: seq<T>, x: T, key: T -> real)
    requires SortedBy(t, key)
    ensures SortedBy(Insert(t, x, key), key)
  {
    if t != [] && key(t[|t| - 1]) > key(x) {
      var init, last := t[..|t| - 1], t[|t| - 1];
      InsertSorted(init, x, key);
      InsertPermutes(init, x, key);
      var u := Insert(init, x, key);
      forall y | y in u ensures key(y) <= key(last) {
        assert y in multiset(u);
        assert y == x || y in init;
      }
      assert forall i :: 0 <= i < |u| ==> u[i] in u;
    }
  }

  /** Two runs of which at least one is empty may be swapped. */
  lemma SwapEmptyRun<T>(a: seq<T>, b: seq<T>, c: seq<T>)
    requires b == [] || c == []
    ensures a + b + c == a + c + b
  {
  }

  /** Inserting `x` only appends `x` to the run of elements with its key. */
  lemma {:induction false} InsertStable<T>(t: seq<T>, x: T, key: T -> real, k: real)
    ensures WithKey(Insert(t, x, key), key, k) == WithKey(t, key, k) + WithKey([x], key, k)
  {
    var p := KeyIs(key, k);
    if t == [] || key(t[|t| - 1]) <= key(x) {
      FilterAppend(t, [x], p);
    } else {
      var init, last := t[..|t| - 1], t[|t| - 1];
      var u := Insert(init, x, key);
      assert t == init + [last];
      FilterSingleton(x, p);
      FilterSingleton(last, p);
      // `last` has a larger key than `x`, so at most one of them has key `k`
      SwapEmptyRun(Filter(init, p), Filter([x], p), Filter([last], p));
      calc {
        Filter(Insert(t, x, key), p);
        Filter(u + [last], p);
        { FilterAppend(u, [last], p); }
        Filter(u, p) + Filter([last], p);
        { InsertStable(init, x, key, k); }
        Filter(init, p) + Filter([x], p) + Filter([last], p);
        Filter(init, p) + Filter([last], p) + Filter([x], p);
        { FilterAppend(init, [last], p); }
        Filter(t, p) + Filter([x], p);
      }
    }
  }

  /** The sort returns a permutation of its input. */
  lemma {:induction false} SortPermutes<T>(s: seq<T>, key: T -> real)
    ensures multiset(SortBy(s, key)) == multiset(s)
    ensures |SortBy(s, key)| == |s|
  {
    if s != [] {
      SortPermutes(s[..|s| - 1], key);
      InsertPermutes(SortBy(s[..|s| - 1], key), s[|s| - 1], key);
      assert s == s[..|s| - 1] + [s[|s| - 1]];
    }
  }

  /** The sort returns its input in non-decreasing order of key. */
  lemma {:induction false} SortSorted<T>(s: seq<T>, key: T -> real)
    ensures SortedBy(SortBy(s, key), key)
  {
    if s != [] {
      SortSorted(s[..|s| - 1], key);
      InsertSorted(SortBy(s[..|s| - 1], key), s[|s| - 1], key);
    }
  }

  /** Stability: for every key value, the elements with that key appear in
      the output in the same order as in the input. */
  lemma {:induction false} SortStable<T>(s: seq<T>, key: T -> real, k: real)
    ensures WithKey(SortBy(s, key), key, k) == WithKey(s, key, k)
  {
    if s != [] {
      var init, last := s[..|s| - 1], s[|s| - 1];
      SortStable(init, key, k);
      InsertStable(SortBy(init, key), last, key, k);
      assert s == init + [last];
      FilterAppend(init, [last], KeyIs(key, k));
    }
  }
}
