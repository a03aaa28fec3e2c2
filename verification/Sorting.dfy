/** Python's `sorted(..., key=...)`: ascending by key and stable. */
module Sorting {

  function Insert<T>(key: T -> int, x: T, s: seq<T>): seq<T> {
    if s == [] then [x] else if key(x) <= key(s[0]) then [x] + s else [s[0]] + Insert(key, x, s[1..])
  }

  function Sort<T>(key: T -> int, s: seq<T>): seq<T> {
    if s == [] then [] else Insert(key, s[0], Sort(key, s[1..]))
  }

  ghost predicate Sorted<T>(key: T -> int, s: seq<T>) {
    forall i, j :: 0 <= i < j < |s| ==> key(s[i]) <= key(s[j])
  }

  /** The elements with key `k`, in order. */
  function WithKey<T>(key: T -> int, s: seq<T>, k: int): seq<T> {
    if s == [] then [] else (if key(s[0]) == k then [s[0]] else []) + WithKey(key, s[1..], k)
  }

  lemma SortedCons<T>(key: T -> int, x: T, s: seq<T>)
    requires Sorted(key, s) && forall i :: 0 <= i < |s| ==> key(x) <= key(s[i])
    ensures Sorted(key, [x] + s)
  {
  }

  lemma ConsWithKey<T>(key: T -> int, x: T, s: seq<T>, k: int)
    ensures WithKey(key, [x] + s, k) == (if key(x) == k then [x] else []) + WithKey(key, s, k)
  {
    assert ([x] + s)[1..] == s;
  }

  lemma {:induction false} InsertMembers<T>(key: T -> int, x: T, s: seq<T>)
    ensures multiset(Insert(key, x, s)) == multiset{x} + multiset(s)
  {
    if s != [] && key(x) > key(s[0]) {
      InsertMembers(key, x, s[1..]);
      assert s == [s[0]] + s[1..];
    }
  }

  lemma {:induction false} InsertSorted<T>(key: T -> int, x: T, s: seq<T>)
    requires Sorted(key, s)
    ensures Sorted(key, Insert(key, x, s))
  {
    if s != [] && key(x) > key(s[0]) {
      var rest := Insert(key, x, s[1..]);
      InsertSorted(key, x, s[1..]);
      InsertMembers(key, x, s[1..]);
      forall i | 0 <= i < |rest|
        ensures key(s[0]) <= key(rest[i])
      {
        assert rest[i] in multiset(rest);
      }
      SortedCons(key, s[0], rest);
    } else {
      SortedCons(key, x, s);
    }
  }

  /** Inserting puts an element before those of its key. */
  lemma {:induction false} InsertStable<T>(key: T -> int, x: T, s: seq<T>, k: int)
    requires Sorted(key, s)
    ensures WithKey(key, Insert(key, x, s), k) == (if key(x) == k then [x] else []) + WithKey(key, s, k)
  {
    if s != [] && key(x) > key(s[0]) {
      InsertStable(key, x, s[1..], k);
      ConsWithKey(key, s[0], Insert(key, x, s[1..]), k);
      if key(x) == k {
        assert WithKey(key, s, k) == WithKey(key, s[1..], k);
      }
    } else {
      ConsWithKey(key, x, s, k);
    }
  }

  /** Sorting permutes, orders, and keeps the elements of each key in their order. */
  lemma {:induction false} SortKeeps<T>(key: T -> int, s: seq<T>, k: int)
    ensures Sorted(key, Sort(key, s)) && multiset(Sort(key, s)) == multiset(s)
    ensures WithKey(key, Sort(key, s), k) == WithKey(key, s, k)
  {
    if s == [] {
    } else {
      SortKeeps(key, s[1..], k);
      InsertMembers(key, s[0], Sort(key, s[1..]));
      InsertSorted(key, s[0], Sort(key, s[1..]));
      InsertStable(key, s[0], Sort(key, s[1..]), k);
      assert s == [s[0]] + s[1..];
    }
  }

  lemma {:induction false} SameMembers<T>(key: T -> int, s: seq<T>, x: T)
    ensures x in Sort(key, s) <==> x in s
  {
    SortKeeps(key, s, 0);
    assert x in multiset(Sort(key, s)) <==> x in multiset(s);
  }

  lemma {:induction false} WithKeyAppend<T>(key: T -> int, a: seq<T>, b: seq<T>, k: int)
    ensures WithKey(key, a + b, k) == WithKey(key, a, k) + WithKey(key, b, k)
  {
    if a == [] {
      assert a + b == b;
    } else {
      assert a + b == [a[0]] + (a[1..] + b);
      ConsWithKey(key, a[0], a[1..] + b, k);
      WithKeyAppend(key, a[1..], b, k);
    }
  }

  lemma {:induction false} WithKeyShorter<T>(key: T -> int, s: seq<T>, k: int)
    ensures |WithKey(key, s, k)| <= |s|
  {
    if s == [] {
    } else {
      WithKeyShorter(key, s[1..], k);
    }
  }

  lemma {:induction false} WithKeyNone<T>(key: T -> int, s: seq<T>, k: int)
    requires forall i :: 0 <= i < |s| ==> key(s[i]) != k
    ensures WithKey(key, s, k) == []
  {
    if s == [] {
    } else {
      WithKeyNone(key, s[1..], k);
    }
  }

  /** In an ordered sequence the elements of the last key close it: how many there are decides the last but one. */
  lemma {:induction false} LastTwo<T>(key: T -> int, s: seq<T>)
    requires Sorted(key, s) && |s| >= 2
    ensures var k, ties := key(s[|s| - 1]), WithKey(key, s, key(s[|s| - 1]));
            && (key(s[|s| - 2]) < k <==> |ties| == 1)
            && (key(s[|s| - 2]) == k ==> |ties| >= 2 && s[|s| - 2] == ties[|ties| - 2])
            && |ties| >= 1 && ties[|ties| - 1] == s[|s| - 1]
  {
    var n := |s|;
    var k := key(s[n - 1]);
    var front, pair := s[..n - 2], [s[n - 2], s[n - 1]];
    assert s == front + pair;
    WithKeyAppend(key, front, pair, k);
    assert pair[1..] == [s[n - 1]] && [s[n - 1]][1..] == [];
    assert WithKey(key, [s[n - 1]], k) == [s[n - 1]];
    if key(s[n - 2]) < k {
      WithKeyNone(key, front, k);
    }
  }
}
