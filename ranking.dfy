/** Ranking by a numeric key, highest first. Both optimisers call
    `Array.prototype.sort` with a comparator `(a, b) => key(b) - key(a)`;
    that built-in sort is stable, and a stable sort by a key is unique, so it
    is modelled here as an insertion sort that keeps equal keys in input
    order. */
module Ranking {

  /** Inserts `x` in front of the first element whose key is not larger. */
  function Insert<T>(x: T, s: seq<T>, key: T -> real): (r: seq<T>)
    ensures |r| == |s| + 1
    ensures multiset(r) == multiset(s) + multiset{x}
  {
    if s == [] || key(x) >= key(s[0]) then [x] + s
    else
      var rest := Insert(x, s[1..], key);
      assert s == [s[0]] + s[1..];
      [s[0]] + rest
  }

  /** The list sorted by descending key; equal keys keep their input order. */
  function SortDesc<T>(s: seq<T>, key: T -> real): (r: seq<T>)
    ensures |r| == |s|
    ensures multiset(r) == multiset(s)
  {
    if s == [] then []
    else
      assert s == [s[0]] + s[1..];
      Insert(s[0], SortDesc(s[1..], key), key)
  }

  /** Keys never increase along the list. */
  ghost predicate NonIncreasing<T>(s: seq<T>, key: T -> real) {
    forall i, j :: 0 <= i < j < |s| ==> key(s[i]) >= key(s[j])
  }

  /** The elements whose key is `v`, in list order. */
  function WithKey<T>(s: seq<T>, key: T -> real, v: real): seq<T>
  {
    if s == [] then []
    else if key(s[0]) == v then [s[0]] + WithKey(s[1..], key, v)
    else WithKey(s[1..], key, v)
  }

  lemma {:induction false} InsertNonIncreasing<T>(x: T, s: seq<T>, key: T -> real)
    requires NonIncreasing(s, key)
    ensures NonIncreasing(Insert(x, s, key), key)
    ensures Insert(x, s, key)[0] == x || (s != [] && Insert(x, s, key)[0] == s[0])
    decreases |s|
  {
    if s != [] && key(x) < key(s[0]) {
      InsertNonIncreasing(x, s[1..], key);
      InsertBounded(x, s[1..], key, key(s[0]));
      var rest := Insert(x, s[1..], key);
      var r := [s[0]] + rest;
      forall i, j | 0 <= i < j < |r| ensures key(r[i]) >= key(r[j]) {
        assert r[j] == rest[j - 1];
        if i > 0 {
          assert r[i] == rest[i - 1];
        }
      }
    }
  }

  /** Inserting below a bound every key already respects keeps the bound. */
  lemma {:induction false} InsertBounded<T>(x: T, s: seq<T>, key: T -> real, b: real)
    requires key(x) <= b
    requires forall k :: 0 <= k < |s| ==> key(s[k]) <= b
    ensures forall k :: 0 <= k < |Insert(x, s, key)| ==> key(Insert(x, s, key)[k]) <= b
    decreases |s|
  {
    if s != [] && key(x) < key(s[0]) {
      InsertBounded(x, s[1..], key, b);
      var rest := Insert(x, s[1..], key);
      forall k | 1 <= k < |Insert(x, s, key)| ensures key(Insert(x, s, key)[k]) <= b {
        assert Insert(x, s, key)[k] == rest[k - 1];
      }
    } else {
      forall k | 1 <= k < |Insert(x, s, key)| ensures key(Insert(x, s, key)[k]) <= b {
        assert Insert(x, s, key)[k] == s[k - 1];
      }
    }
  }

  /** The sort's output is ordered by descending key. */
  lemma {:induction false} SortDescNonIncreasing<T>(s: seq<T>, key: T -> real)
    ensures NonIncreasing(SortDesc(s, key), key)
  {
    if s != [] {
      SortDescNonIncreasing(s[1..], key);
      InsertNonIncreasing(s[0], SortDesc(s[1..], key), key);
    }
  }

  lemma {:induction false} InsertWithKey<T>(x: T, s: seq<T>, key: T -> real, v: real)
    requires NonIncreasing(s, key)
    ensures WithKey(Insert(x, s, key), key, v)
         == if key(x) == v then [x] + WithKey(s, key, v) else WithKey(s, key, v)
    decreases |s|
  {
    if s != [] && key(x) < key(s[0]) {
      assert NonIncreasing(s[1..], key);
      InsertWithKey(x, s[1..], key, v);
      var rest := Insert(x, s[1..], key);
      assert ([s[0]] + rest)[1..] == rest;
      if key(x) == v {
        assert key(s[0]) != v;
      }
    } else {
      assert ([x] + s)[1..] == s;
    }
  }

  /** Stability: for every key value, the elements carrying it appear in the
      output in the same order as in the input. */
  lemma {:induction false} SortDescStable<T>(s: seq<T>, key: T -> real, v: real)
    ensures WithKey(SortDesc(s, key), key, v) == WithKey(s, key, v)
  {
    if s != [] {
      SortDescStable(s[1..], key, v);
      SortDescNonIncreasing(s[1..], key);
      InsertWithKey(s[0], SortDesc(s[1..], key), key, v);
    }
  }

  /** The first element of the ranking has the largest key of the input. */
  lemma SortDescFirstIsMaximal<T>(s: seq<T>, key: T -> real)
    requires s != []
    ensures forall k :: 0 <= k < |s| ==> key(SortDesc(s, key)[0]) >= key(s[k])
  {
    var r := SortDesc(s, key);
    SortDescNonIncreasing(s, key);
    forall k | 0 <= k < |s| ensures key(r[0]) >= key(s[k]) {
      assert s[k] in multiset(r);
      var m :| 0 <= m < |r| && r[m] == s[k];
    }
  }
}
