/**
 A stable merge sort on sequences, ordered by an integer key.

 `sort_image` in main.py asks NumPy for `kind='mergesort'`, the stable sort.
 This module gives that sort as a function, proves that its output is ordered
 and a permutation of its input, that it keeps equal keys in their original
 order, and that on plain integers it agrees with every other correct sort.
 */
module MergeSort {

  /** The elements of `s` are in non-decreasing order of their keys. */
  predicate SortedBy<T>(s: seq<T>, key: T -> int) {
    forall i, j :: 0 <= i < j < |s| ==> key(s[i]) <= key(s[j])
  }

  function Identity(v: int): int { v }

  /** A sequence of integer samples in ascending order. */
  predicate Sorted(s: seq<int>) {
    forall i, j :: 0 <= i < j < |s| ==> s[i] <= s[j]
  }

  /** The subsequence of elements of `s` whose key is `k`, in their order in `s`. */
  function WithKey<T>(s: seq<T>, key: T -> int, k: int): seq<T>
  {
    if s == [] then []
    else if key(s[0]) == k then [s[0]] + WithKey(s[1..], key, k)
    else WithKey(s[1..], key, k)
  }

  /** Prepending an element no larger than the head keeps a sequence ordered. */
  lemma SortedCons<T>(x: T, t: seq<T>, key: T -> int)
    requires SortedBy(t, key)
    requires t != [] ==> key(x) <= key(t[0])
    ensures SortedBy([x] + t, key)
  {
  }

  /** Merges two sequences; on equal keys the element of `a` goes first. */
  function Merge<T>(a: seq<T>, b: seq<T>, key: T -> int): seq<T>
    decreases |a| + |b|
  {
    if a == [] then b
    else if b == [] then a
    else if key(a[0]) <= key(b[0]) then [a[0]] + Merge(a[1..], b, key)
    else [b[0]] + Merge(a, b[1..], key)
  }

  /** Merging loses and invents no element. */
  lemma {:induction false} MergePermutes<T>(a: seq<T>, b: seq<T>, key: T -> int)
    ensures multiset(Merge(a, b, key)) == multiset(a) + multiset(b)
    decreases |a| + |b|
  {
    if a == [] || b == [] {
    } else if key(a[0]) <= key(b[0]) {
      calc {
        multiset(Merge(a, b, key));
        multiset([a[0]] + Merge(a[1..], b, key));
        multiset([a[0]]) + multiset(Merge(a[1..], b, key));
        { MergePermutes(a[1..], b, key); }
        multiset([a[0]]) + multiset(a[1..]) + multiset(b);
        { assert a == [a[0]] + a[1..]; }
        multiset(a) + multiset(b);
      }
    } else {
      calc {
        multiset(Merge(a, b, key));
        multiset([b[0]] + Merge(a, b[1..], key));
        multiset([b[0]]) + multiset(Merge(a, b[1..], key));
        { MergePermutes(a, b[1..], key); }
        multiset([b[0]]) + multiset(a) + multiset(b[1..]);
        { assert b == [b[0]] + b[1..]; }
        multiset(a) + multiset(b);
      }
    }
  }

  /** Merging two ordered sequences gives an ordered sequence. */
  lemma {:induction false} MergeOrdered<T>(a: seq<T>, b: seq<T>, key: T -> int)
    requires SortedBy(a, key) && SortedBy(b, key)
    ensures SortedBy(Merge(a, b, key), key)
    decreases |a| + |b|
  {
    if a == [] || b == [] {
    } else if key(a[0]) <= key(b[0]) {
      var tail := Merge(a[1..], b, key);
      MergeOrdered(a[1..], b, key);
      assert tail != [] ==> key(a[0]) <= key(tail[0]);
      SortedCons(a[0], tail, key);
    } else {
      var tail := Merge(a, b[1..], key);
      MergeOrdered(a, b[1..], key);
      assert tail != [] ==> key(b[0]) <= key(tail[0]);
      SortedCons(b[0], tail, key);
    }
  }

  /** Top-down merge sort: sort both halves, then merge them. */
  function MergeSortBy<T>(s: seq<T>, key: T -> int): seq<T>
    decreases |s|
  {
    if |s| <= 1 then s
    else
      var mid := |s| / 2;
      Merge(MergeSortBy(s[..mid], key), MergeSortBy(s[mid..], key), key)
  }

  /** The merge sort returns a permutation of its input. */
  lemma {:induction false} MergeSortPermutes<T>(s: seq<T>, key: T -> int)
    ensures multiset(MergeSortBy(s, key)) == multiset(s)
    decreases |s|
  {
    if |s| > 1 {
      var mid := |s| / 2;
      var left, right := MergeSortBy(s[..mid], key), MergeSortBy(s[mid..], key);
      calc {
        multiset(MergeSortBy(s, key));
        multiset(Merge(left, right, key));
        { MergePermutes(left, right, key); }
        multiset(left) + multiset(right);
        { MergeSortPermutes(s[..mid], key);
          MergeSortPermutes(s[mid..], key); }
        multiset(s[..mid]) + multiset(s[mid..]);
        { assert s == s[..mid] + s[mid..]; }
        multiset(s);
      }
    }
  }

  /** The merge sort returns a sequence ordered by key. */
  lemma {:induction false} MergeSortOrdered<T>(s: seq<T>, key: T -> int)
    ensures SortedBy(MergeSortBy(s, key), key)
    decreases |s|
  {
    if |s| > 1 {
      var mid := |s| / 2;
      MergeSortOrdered(s[..mid], key);
      MergeSortOrdered(s[mid..], key);
      MergeOrdered(MergeSortBy(s[..mid], key), MergeSortBy(s[mid..], key), key);
    }
  }

  /** The ascending sort of a line of integer samples. */
  function Sort(s: seq<int>): (r: seq<int>)
    ensures |r| == |s|
    ensures multiset(r) == multiset(s)
    ensures Sorted(r)
  {
    var r := MergeSortBy(s, Identity);
    MergeSortPermutes(s, Identity);
    MergeSortOrdered(s, Identity);
    assert |r| == |multiset(r)| == |multiset(s)| == |s|;
    assert forall i, j :: 0 <= i < j < |r| ==> Identity(r[i]) <= Identity(r[j]);
    r
  }

  lemma {:induction false} WithKeyAppend<T>(a: seq<T>, b: seq<T>, key: T -> int, k: int)
    ensures WithKey(a + b, key, k) == WithKey(a, key, k) + WithKey(b, key, k)
  {
    if a == [] {
      assert a + b == b;
    } else {
      assert (a + b)[1..] == a[1..] + b;
      WithKeyAppend(a[1..], b, key, k);
    }
  }

  lemma WithKeyCons<T>(x: T, t: seq<T>, key: T -> int, k: int)
    ensures WithKey([x] + t, key, k) == (if key(x) == k then [x] else []) + WithKey(t, key, k)
  {
  }

  lemma WithKeySplit<T>(s: seq<T>, mid: nat, key: T -> int, k: int)
    requires mid <= |s|
    ensures WithKey(s, key, k) == WithKey(s[..mid], key, k) + WithKey(s[mid..], key, k)
  {
    assert s == s[..mid] + s[mid..];
    WithKeyAppend(s[..mid], s[mid..], key, k);
  }

  lemma {:induction false} WithKeyOfLargerKeys<T>(a: seq<T>, key: T -> int, k: int)
    requires forall i :: 0 <= i < |a| ==> k < key(a[i])
    ensures WithKey(a, key, k) == []
  {
    if a != [] {
      WithKeyOfLargerKeys(a[1..], key, k);
    }
  }

  /** Merging keeps, for every key, the elements of `a` with that key before those of `b`. */
  lemma {:induction false} MergeStable<T>(a: seq<T>, b: seq<T>, key: T -> int, k: int)
    requires SortedBy(a, key) && SortedBy(b, key)
    ensures WithKey(Merge(a, b, key), key, k) == WithKey(a, key, k) + WithKey(b, key, k)
    decreases |a| + |b|, 1
  {
    if a == [] {
      assert WithKey(a, key, k) == [];
    } else if b == [] {
      assert WithKey(b, key, k) == [];
    } else if key(a[0]) <= key(b[0]) {
      MergeStableTakingLeft(a, b, key, k);
    } else {
      MergeStableTakingRight(a, b, key, k);
    }
  }

  lemma {:induction false} MergeStableTakingLeft<T>(a: seq<T>, b: seq<T>, key: T -> int, k: int)
    requires SortedBy(a, key) && SortedBy(b, key)
    requires a != [] && b != [] && key(a[0]) <= key(b[0])
    ensures WithKey(Merge(a, b, key), key, k) == WithKey(a, key, k) + WithKey(b, key, k)
    decreases |a| + |b|, 0
  {
    var t := Merge(a[1..], b, key);
    var head := if key(a[0]) == k then [a[0]] else [];
    calc {
      WithKey(Merge(a, b, key), key, k);
      { assert Merge(a, b, key) == [a[0]] + t; }
      WithKey([a[0]] + t, key, k);
      { WithKeyCons(a[0], t, key, k); }
      head + WithKey(t, key, k);
      { MergeStable(a[1..], b, key, k); }
      head + (WithKey(a[1..], key, k) + WithKey(b, key, k));
      (head + WithKey(a[1..], key, k)) + WithKey(b, key, k);
      { assert WithKey(a, key, k) == head + WithKey(a[1..], key, k); }
      WithKey(a, key, k) + WithKey(b, key, k);
    }
  }

  lemma {:induction false} MergeStableTakingRight<T>(a: seq<T>, b: seq<T>, key: T -> int, k: int)
    requires SortedBy(a, key) && SortedBy(b, key)
    requires a != [] && b != [] && key(b[0]) < key(a[0])
    ensures WithKey(Merge(a, b, key), key, k) == WithKey(a, key, k) + WithKey(b, key, k)
    decreases |a| + |b|, 0
  {
    var t := Merge(a, b[1..], key);
    var head := if key(b[0]) == k then [b[0]] else [];
    calc {
      WithKey(Merge(a, b, key), key, k);
      { assert Merge(a, b, key) == [b[0]] + t; }
      WithKey([b[0]] + t, key, k);
      { WithKeyCons(b[0], t, key, k); }
      head + WithKey(t, key, k);
      { MergeStable(a, b[1..], key, k); }
      head + (WithKey(a, key, k) + WithKey(b[1..], key, k));
      { if key(b[0]) == k {
          forall i | 0 <= i < |a| ensures k < key(a[i]) {
            assert i == 0 || key(a[0]) <= key(a[i]);
          }
          WithKeyOfLargerKeys(a, key, k);
        }
      }
      WithKey(a, key, k) + (head + WithKey(b[1..], key, k));
      { assert WithKey(b, key, k) == head + WithKey(b[1..], key, k); }
      WithKey(a, key, k) + WithKey(b, key, k);
    }
  }

  /**
   Stability: for every key, the elements carrying that key appear in the
   sorted output in exactly the order they had in the input.
   */
  lemma {:induction false} MergeSortStable<T>(s: seq<T>, key: T -> int, k: int)
    ensures WithKey(MergeSortBy(s, key), key, k) == WithKey(s, key, k)
    decreases |s|
  {
    if |s| > 1 {
      var mid := |s| / 2;
      var left, right := MergeSortBy(s[..mid], key), MergeSortBy(s[mid..], key);
      calc {
        WithKey(MergeSortBy(s, key), key, k);
        WithKey(Merge(left, right, key), key, k);
        { MergeSortOrdered(s[..mid], key);
          MergeSortOrdered(s[mid..], key);
          MergeStable(left, right, key, k); }
        WithKey(left, key, k) + WithKey(right, key, k);
        { MergeSortStable(s[..mid], key, k);
          MergeSortStable(s[mid..], key, k); }
        WithKey(s[..mid], key, k) + WithKey(s[mid..], key, k);
        { WithKeySplit(s, mid, key, k); }
        WithKey(s, key, k);
      }
    }
  }

  /** The head of an ascending sequence is no larger than any of its samples. */
  lemma HeadIsLeast(s: seq<int>, v: int)
    requires Sorted(s) && v in multiset(s)
    ensures s != [] && s[0] <= v
  {
  }

  /** Dropping the head of an ascending sequence leaves an ascending sequence of the other samples. */
  lemma TailOfSorted(s: seq<int>)
    requires Sorted(s) && s != []
    ensures Sorted(s[1..])
    ensures multiset(s[1..]) == multiset(s) - multiset{s[0]}
  {
    assert s == [s[0]] + s[1..];
  }

  /** Two ascending orderings of the same samples are the same sequence. */
  lemma {:induction false} SortedPermutationsEqual(a: seq<int>, b: seq<int>)
    requires Sorted(a) && Sorted(b)
    requires multiset(a) == multiset(b)
    ensures a == b
  {
    if a == [] {
      assert |b| == |multiset(b)| == 0;
    } else {
      HeadIsLeast(b, a[0]);
      assert a[0] == b[0] by {
        HeadIsLeast(a, b[0]);
      }
      assert a[1..] == b[1..] by {
        TailOfSorted(a);
        TailOfSorted(b);
        SortedPermutationsEqual(a[1..], b[1..]);
      }
      assert a == [a[0]] + a[1..];
      assert b == [b[0]] + b[1..];
    }
  }

  /** Any ordered permutation of `s` is what `Sort` returns. */
  lemma SortIsUnique(s: seq<int>, r: seq<int>)
    requires Sorted(r) && multiset(r) == multiset(s)
    ensures Sort(s) == r
  {
    SortedPermutationsEqual(Sort(s), r);
  }

  /** Sorting an ordered line leaves it unchanged. */
  lemma SortOfSorted(s: seq<int>)
    requires Sorted(s)
    ensures Sort(s) == s
  {
    SortIsUnique(s, s);
  }

  /** Sorting twice is sorting once. */
  lemma SortIdempotent(s: seq<int>)
    ensures Sort(Sort(s)) == Sort(s)
  {
    SortOfSorted(Sort(s));
  }
}
