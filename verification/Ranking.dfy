// Sorting by a numeric key and the meaning of "the first k by distance".

module Ranking {
  import opened Numbers

  ghost predicate SortedBy<T>(s: seq<T>, key: T -> real) {
    forall i, j :: 0 <= i < j < |s| ==> key(s[i]) <= key(s[j])
  }

  ghost predicate NoDuplicates<T>(s: seq<T>) {
    forall i, j :: 0 <= i < j < |s| ==> s[i] != s[j]
  }

  /** Insertion before the first element that is not smaller keeps equal elements in order. */
  function Insert<T>(x: T, s: seq<T>, key: T -> real): (r: seq<T>)
    requires SortedBy(s, key)
    ensures SortedBy(r, key) && multiset(r) == multiset(s) + multiset{x}
  {
    if |s| == 0 || key(x) <= key(s[0]) then [x] + s
    else
      var rest := Insert(x, s[1..], key);
      InsertStep(x, s, rest, key);
      [s[0]] + rest
  }

  lemma InsertStep<T>(x: T, s: seq<T>, rest: seq<T>, key: T -> real)
    requires |s| > 0 && SortedBy(s, key) && key(s[0]) < key(x)
    requires SortedBy(rest, key) && multiset(rest) == multiset(s[1..]) + multiset{x}
    ensures SortedBy([s[0]] + rest, key) && multiset([s[0]] + rest) == multiset(s) + multiset{x}
  {
    assert s == [s[0]] + s[1..];
    forall j | 0 <= j < |rest| ensures key(s[0]) <= key(rest[j]) {
      assert rest[j] in multiset(rest);
      if rest[j] != x {
        assert rest[j] in s[1..];
      }
    }
  }

  /** `Array.prototype.sort` with the comparator `key(a) - key(b)`: a stable sort. */
  function Sort<T>(s: seq<T>, key: T -> real): (r: seq<T>)
    ensures SortedBy(r, key) && multiset(r) == multiset(s)
  {
    if |s| == 0 then []
    else
      assert s == [s[0]] + s[1..];
      Insert(s[0], Sort(s[1..], key), key)
  }

  /** `s` lists exactly the elements of `expected`, once each, by ascending key. */
  ghost predicate Ranks<T(!new)>(s: seq<T>, expected: set<T>, key: T -> real) {
    SortedBy(s, key) && NoDuplicates(s) && (forall x :: x in s <==> x in expected)
  }

  lemma SortRanks<T(!new)>(s: seq<T>, expected: set<T>, key: T -> real)
    requires NoDuplicates(s) && (forall x :: x in s <==> x in expected)
    ensures Ranks(Sort(s, key), expected, key)
  {
    var r := Sort(s, key);
    DistinctMultiset(s);
    forall x ensures x in r <==> x in expected {
      assert x in r <==> x in multiset(r);
      assert x in s <==> x in multiset(s);
    }
    MultisetDistinct(r);
  }

  lemma {:induction false} MultisetDistinct<T>(s: seq<T>)
    requires forall x :: multiset(s)[x] <= 1
    ensures NoDuplicates(s)
  {
    if |s| > 0 {
      var rest := s[1..];
      assert s == [s[0]] + rest;
      assert multiset(s) == multiset{s[0]} + multiset(rest);
      assert forall x :: multiset(rest)[x] <= multiset(s)[x];
      MultisetDistinct(rest);
      assert s[0] !in multiset(rest);
      forall i, j | 0 <= i < j < |s| ensures s[i] != s[j] {
        assert s[j] == rest[j - 1] && s[j] in rest;
        if i > 0 {
          assert s[i] == rest[i - 1];
        }
      }
    }
  }

  lemma {:induction false} DistinctMultiset<T>(s: seq<T>)
    requires NoDuplicates(s)
    ensures forall x :: multiset(s)[x] <= 1
  {
    if |s| > 0 {
      DistinctMultiset(s[1..]);
      assert s == [s[0]] + s[1..];
      assert s[0] !in s[1..];
    }
  }

  /** Nothing left out of a prefix of a ranking comes strictly before anything kept. */
  lemma PrefixIsNearest<T(!new)>(s: seq<T>, expected: set<T>, key: T -> real, n: nat, kept: T, out: T)
    requires Ranks(s, expected, key) && n <= |s|
    requires kept in s[..n] && out in expected && out !in s[..n]
    ensures key(kept) <= key(out)
  {
    assert out in s;
    var i :| 0 <= i < n && s[i] == kept;
    var j :| 0 <= j < |s| && s[j] == out;
  }

  // ---- Stability ------------------------------------------------------------------------------

  /** The elements with the given key, in order. */
  function WithKey<T>(s: seq<T>, key: T -> real, k: real): seq<T> {
    if s == [] then [] else (if key(s[0]) == k then [s[0]] else []) + WithKey(s[1..], key, k)
  }

  lemma {:induction false} InsertIsStable<T>(x: T, s: seq<T>, key: T -> real, k: real)
    requires SortedBy(s, key)
    ensures WithKey(Insert(x, s, key), key, k) == (if key(x) == k then [x] else []) + WithKey(s, key, k)
  {
    if |s| == 0 || key(x) <= key(s[0]) {
      assert ([x] + s)[1..] == s;
    } else {
      InsertIsStable(x, s[1..], key, k);
      assert ([s[0]] + Insert(x, s[1..], key))[1..] == Insert(x, s[1..], key);
      if key(x) == k {
        assert key(s[0]) != k;
      }
    }
  }

  /** Sorting is stable: elements with equal keys stay in the order they came in. */
  lemma {:induction false} SortIsStable<T>(s: seq<T>, key: T -> real, k: real)
    ensures WithKey(Sort(s, key), key, k) == WithKey(s, key, k)
  {
    if |s| > 0 {
      SortIsStable(s[1..], key, k);
      InsertIsStable(s[0], Sort(s[1..], key), key, k);
    }
  }
}
