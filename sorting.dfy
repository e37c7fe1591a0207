/*
 * Kotlin's `sortByDescending` / `sortedByDescending` on an integer key: a
 * STABLE sort (elements with equal keys keep their relative order), as the
 * records table and the PVP rankings rely on. Modelled as insertion sort,
 * one element at a time from the left, each inserted after every element
 * whose key is at least its own.
 */
module Sorting {

  /** Keys never increase from left to right. */
  ghost predicate SortedDesc<T>(s: seq<T>, key: T -> int) {
    forall i, j :: 0 <= i < j < |s| ==> key(s[i]) >= key(s[j])
  }

  /** The elements of `s` whose key is `k`, in their order in `s`. */
  function WithKey<T>(s: seq<T>, key: T -> int, k: int): (r: seq<T>)
    ensures |r| <= |s|
    ensures forall i :: 0 <= i < |r| ==> key(r[i]) == k
  {
    if s == [] then []
    else (if key(s[0]) == k then [s[0]] else []) + WithKey(s[1..], key, k)
  }

  /** Places `x` after every leading element of `s` whose key is at least `key(x)`. */
  function InsertDesc<T>(s: seq<T>, x: T, key: T -> int): (r: seq<T>)
    ensures |r| == |s| + 1
    ensures r[0] == x || (s != [] && r[0] == s[0])
  {
    if s == [] then [x]
    else if key(s[0]) >= key(x) then
      assert s == [s[0]] + s[1..];
      [s[0]] + InsertDesc(s[1..], x, key)
    else [x] + s
  }

  lemma {:induction false} InsertDescSorted<T>(s: seq<T>, x: T, key: T -> int)
    requires SortedDesc(s, key)
    ensures SortedDesc(InsertDesc(s, x, key), key)
  {
    if s != [] && key(s[0]) >= key(x) {
      var rest := InsertDesc(s[1..], x, key);
      InsertDescSorted(s[1..], x, key);
      assert key(s[0]) >= key(rest[0]) by {
        if |s| > 1 { assert key(s[0]) >= key(s[1]); }
      }
      var r := [s[0]] + rest;
      forall i, j | 0 <= i < j < |r| ensures key(r[i]) >= key(r[j]) {
        if i == 0 && j > 1 {
          assert key(rest[0]) >= key(rest[j - 1]);
        }
      }
    }
  }

  /** Stable sort of `s` by descending `key`. */
  function SortDesc<T>(s: seq<T>, key: T -> int): seq<T> {
    if s == [] then [] else InsertDesc(SortDesc(s[..|s| - 1], key), s[|s| - 1], key)
  }

  /** The sort keeps every element, as often as it occurs, and orders them by descending key. */
  lemma {:induction false} SortDescSortedPerm<T>(s: seq<T>, key: T -> int)
    ensures |SortDesc(s, key)| == |s|
    ensures multiset(SortDesc(s, key)) == multiset(s)
    ensures SortedDesc(SortDesc(s, key), key)
  {
    if s != [] {
      var init, last := s[..|s| - 1], s[|s| - 1];
      assert s == init + [last];
      SortDescSortedPerm(init, key);
      InsertDescSorted(SortDesc(init, key), last, key);
      InsertDescPerm(SortDesc(init, key), last, key);
    }
  }

  lemma {:induction false} WithKeyAppend<T>(a: seq<T>, b: seq<T>, key: T -> int, k: int)
    ensures WithKey(a + b, key, k) == WithKey(a, key, k) + WithKey(b, key, k)
  {
    if a == [] {
      assert a + b == b;
    } else {
      assert (a + b)[1..] == a[1..] + b;
      WithKeyAppend(a[1..], b, key, k);
    }
  }

  lemma {:induction false} WithKeyBelow<T>(s: seq<T>, key: T -> int, k: int)
    requires SortedDesc(s, key)
    requires s != [] && key(s[0]) < k
    ensures WithKey(s, key, k) == []
  {
    if |s| > 1 {
      assert key(s[1]) <= key(s[0]);
      WithKeyBelow(s[1..], key, k);
    }
  }

  lemma SortedTail<T>(s: seq<T>, key: T -> int)
    requires SortedDesc(s, key) && s != []
    ensures SortedDesc(s[1..], key)
  {
    var tail := s[1..];
    forall i, j | 0 <= i < j < |tail| ensures key(tail[i]) >= key(tail[j]) {
      assert tail[i] == s[i + 1] && tail[j] == s[j + 1];
    }
  }

  lemma WithKeySingle<T>(x: T, key: T -> int, k: int)
    ensures WithKey([x], key, k) == if key(x) == k then [x] else []
  {
    assert [x][1..] == [];
  }

  /** Inserting into a sorted list keeps, for each key, the earlier elements ahead of `x`. */
  lemma {:induction false} InsertDescStable<T>(s: seq<T>, x: T, key: T -> int, k: int)
    requires SortedDesc(s, key)
    ensures WithKey(InsertDesc(s, x, key), key, k) == WithKey(s, key, k) + WithKey([x], key, k)
  {
    if s == [] {
      WithKeySingle(x, key, k);
    } else if key(s[0]) >= key(x) {
      var tail := s[1..];
      SortedTail(s, key);
      InsertDescStable(tail, x, key, k);
      var ins := InsertDesc(tail, x, key);
      calc {
        WithKey(InsertDesc(s, x, key), key, k);
        WithKey([s[0]] + ins, key, k);
        { WithKeyAppend([s[0]], ins, key, k); }
        WithKey([s[0]], key, k) + WithKey(ins, key, k);
        WithKey([s[0]], key, k) + (WithKey(tail, key, k) + WithKey([x], key, k));
        (WithKey([s[0]], key, k) + WithKey(tail, key, k)) + WithKey([x], key, k);
        { WithKeyAppend([s[0]], tail, key, k); assert s == [s[0]] + tail; }
        WithKey(s, key, k) + WithKey([x], key, k);
      }
    } else {
      assert InsertDesc(s, x, key) == [x] + s;
      WithKeyAppend([x], s, key, k);
      if key(x) == k {
        WithKeyBelow(s, key, k);
      }
    }
  }

  /** Stability: among elements of equal key, the sorted list keeps their original order. */
  lemma {:induction false} SortDescStable<T>(s: seq<T>, key: T -> int, k: int)
    ensures WithKey(SortDesc(s, key), key, k) == WithKey(s, key, k)
  {
    if s != [] {
      var init, last := s[..|s| - 1], s[|s| - 1];
      SortDescStable(init, key, k);
      SortDescSortedPerm(init, key);
      InsertDescStable(SortDesc(init, key), last, key, k);
      assert s == init + [last];
      WithKeyAppend(init, [last], key, k);
    }
  }

  /** Adding one element to an already sorted list and re-sorting is a single insertion. */
  lemma {:induction false} SortDescSorted<T>(s: seq<T>, key: T -> int)
    requires SortedDesc(s, key)
    ensures SortDesc(s, key) == s
  {
    if s != [] {
      var init, last := s[..|s| - 1], s[|s| - 1];
      SortDescSorted(init, key);
      InsertAtEnd(init, last, key);
      assert s == init + [last];
    }
  }

  lemma {:induction false} InsertAtEnd<T>(s: seq<T>, x: T, key: T -> int)
    requires SortedDesc(s + [x], key)
    ensures InsertDesc(s, x, key) == s + [x]
  {
    if s != [] {
      assert key(s[0]) >= key(x) by { assert (s + [x])[0] == s[0] && (s + [x])[|s|] == x; }
      assert s[1..] + [x] == (s + [x])[1..];
      InsertAtEnd(s[1..], x, key);
      assert s == [s[0]] + s[1..];
    }
  }

  /** `SortDesc(sorted + [x])` places `x` exactly where `InsertDesc` does. */
  lemma SortDescAppend<T>(s: seq<T>, x: T, key: T -> int)
    requires SortedDesc(s, key)
    ensures SortDesc(s + [x], key) == InsertDesc(s, x, key)
  {
    assert (s + [x])[..|s|] == s;
    SortDescSorted(s, key);
  }

  /** How many leading elements of `s` have a key of at least `k`. */
  function Leading<T>(s: seq<T>, key: T -> int, k: int): (p: nat)
    ensures p <= |s|
    ensures forall i :: 0 <= i < p ==> key(s[i]) >= k
    ensures p < |s| ==> key(s[p]) < k
  {
    if s == [] || key(s[0]) < k then 0 else 1 + Leading(s[1..], key, k)
  }

  /** In a sorted list, the leading run of keys at least `k` is every element with such a key. */
  lemma LeadingSorted<T>(s: seq<T>, key: T -> int, k: int, i: int)
    requires SortedDesc(s, key)
    requires 0 <= i < |s| && key(s[i]) >= k
    ensures i < Leading(s, key, k)
  {
  }

  /** `InsertDesc` puts `x` right after the leading run of keys at least `key(x)`. */
  lemma {:induction false} InsertDescSplit<T>(s: seq<T>, x: T, key: T -> int)
    ensures InsertDesc(s, x, key) == s[..Leading(s, key, key(x))] + ([x] + s[Leading(s, key, key(x))..])
  {
    if s != [] && key(s[0]) >= key(x) {
      var q := Leading(s[1..], key, key(x));
      InsertDescSplit(s[1..], x, key);
      ConsSplit(s, q, [x] + s[1..][q..]);
    } else {
      assert s[..0] == [] && s[0..] == s;
    }
  }

  lemma ConsSplit<T>(s: seq<T>, q: nat, b: seq<T>)
    requires q < |s|
    ensures [s[0]] + (s[1..][..q] + b) == s[..q + 1] + b
    ensures s[1..][q..] == s[q + 1..]
  {
    assert s[..q + 1] == [s[0]] + s[1..][..q];
  }

  /** Insertion adds `x` and keeps every element of `s`. */
  lemma InsertDescPerm<T>(s: seq<T>, x: T, key: T -> int)
    ensures multiset(InsertDesc(s, x, key)) == multiset(s) + multiset{x}
  {
    InsertDescSplit(s, x, key);
    var p := Leading(s, key, key(x));
    var front, back := s[..p], s[p..];
    assert s == front + back;
    assert multiset(front + ([x] + back)) == multiset(front) + multiset{x} + multiset(back);
  }
}
