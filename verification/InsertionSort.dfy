/** An insertion sort that swaps neighbours in place; it is the stable sort by key. */
module InsertionSort {
  import opened Sorting

  /** x moves left past every element with a larger key. */
  function InsertLast<T>(s: seq<T>, x: T, key: T -> int): seq<T> {
    if s == [] || key(x) >= key(s[|s| - 1]) then s + [x]
    else InsertLast(s[..|s| - 1], x, key) + [s[|s| - 1]]
  }

  function SortLast<T>(s: seq<T>, key: T -> int): seq<T> {
    if s == [] then [] else InsertLast(SortLast(s[..|s| - 1], key), s[|s| - 1], key)
  }

  lemma {:induction false} InsertLastKeeps<T(!new)>(s: seq<T>, x: T, key: T -> int)
    ensures |InsertLast(s, x, key)| == |s| + 1
    ensures forall y :: y in InsertLast(s, x, key) <==> y in s || y == x
  {
    if s != [] && key(x) < key(s[|s| - 1]) {
      InsertLastKeeps(s[..|s| - 1], x, key);
      assert s == s[..|s| - 1] + [s[|s| - 1]];
    }
  }

  lemma {:induction false} InsertLastSorted<T(!new)>(s: seq<T>, x: T, key: T -> int)
    requires SortedByKey(s, key)
    ensures SortedByKey(InsertLast(s, x, key), key)
  {
    if s != [] && key(x) < key(s[|s| - 1]) {
      var n := |s| - 1;
      InsertLastSorted(s[..n], x, key);
      InsertLastKeeps(s[..n], x, key);
      var t := InsertLast(s[..n], x, key);
      forall i | 0 <= i < |t| ensures key(t[i]) <= key(s[n]) {
        var y := t[i];
        assert y in t;
        if y != x {
          assert y in s[..n];
          var m :| 0 <= m < n && s[..n][m] == y;
          assert s[m] == y && key(s[m]) <= key(s[n]);
        }
      }
    }
  }

  lemma {:induction false} InsertLastClass<T(!new)>(s: seq<T>, x: T, key: T -> int, k: int)
    ensures Class(InsertLast(s, x, key), key, k) == Class(s, key, k) + if key(x) == k then [x] else []
  {
    ClassConcat(s, [x], key, k);
    if s != [] && key(x) < key(s[|s| - 1]) {
      var n := |s| - 1;
      InsertLastClass(s[..n], x, key, k);
      ClassConcat(InsertLast(s[..n], x, key), [s[n]], key, k);
      ClassConcat(s[..n], [s[n]], key, k);
      assert s == s[..n] + [s[n]];
    }
  }

  lemma {:induction false} SortLastClass<T(!new)>(s: seq<T>, key: T -> int, k: int)
    ensures Class(SortLast(s, key), key, k) == Class(s, key, k)
  {
    if s != [] {
      var n := |s| - 1;
      SortLastClass(s[..n], key, k);
      InsertLastClass(SortLast(s[..n], key), s[n], key, k);
      ClassConcat(s[..n], [s[n]], key, k);
      assert s == s[..n] + [s[n]];
    }
  }

  lemma {:induction false} SortLastSorted<T(!new)>(s: seq<T>, key: T -> int)
    ensures SortedByKey(SortLast(s, key), key)
  {
    if s != [] {
      SortLastSorted(s[..|s| - 1], key);
      InsertLastSorted(SortLast(s[..|s| - 1], key), s[|s| - 1], key);
    }
  }

  /** Left-to-right insertion gives the stable sort. */
  lemma SortLastIsStableSort<T(!new)>(s: seq<T>, key: T -> int, before: (T, T) -> bool)
    requires forall a, b :: before(a, b) <==> key(a) < key(b)
    ensures SortLast(s, key) == StableSort(s, before)
  {
    SortLastSorted(s, key);
    SortSorts(s, before);
    forall k ensures Class(SortLast(s, key), key, k) == Class(StableSort(s, before), key, k) {
      SortLastClass(s, key, k);
      ClassSorted(s, before, key, k);
    }
    StableUnique(SortLast(s, key), StableSort(s, before), key);
  }

  /** The inner loop: the element at i moves left to its place in the sorted part. */
  method Sink<T>(a: array<T>, i: nat, key: T -> int)
    requires i < a.Length
    modifies a
    ensures a[..i + 1] == InsertLast(old(a[..i]), old(a[i]), key)
    ensures a[i + 1..] == old(a[i + 1..])
  {
    ghost var sorted, x := a[..i], a[i];
    var j := i;
    assert sorted[..i] == sorted && sorted[i..] == [];
    while j > 0 && key(a[j]) < key(a[j - 1])
      invariant 0 <= j <= i && a[j] == x
      invariant forall k :: 0 <= k < j ==> a[k] == sorted[k]
      invariant forall k :: j < k <= i ==> a[k] == sorted[k - 1]
      invariant forall k :: i < k < a.Length ==> a[k] == old(a[k])
      invariant InsertLast(sorted, x, key) == InsertLast(sorted[..j], x, key) + sorted[j..]
    {
      InsertStep(sorted, x, key, j);
      a[j], a[j - 1] := a[j - 1], a[j];
      j := j - 1;
    }
    Settled(sorted, x, key, j, a[..i + 1]);
  }

  /** x stands where it belongs and the rest has moved up by one. */
  lemma Settled<T>(s: seq<T>, x: T, key: T -> int, j: nat, r: seq<T>)
    requires j <= |s| && |r| == |s| + 1 && (j == 0 || key(x) >= key(s[j - 1]))
    requires r[j] == x && forall k :: 0 <= k < j ==> r[k] == s[k]
    requires forall k :: j < k <= |s| ==> r[k] == s[k - 1]
    ensures r == InsertLast(s[..j], x, key) + s[j..]
  {
    assert InsertLast(s[..j], x, key) == s[..j] + [x];
    assert r == s[..j] + [x] + s[j..];
  }

  lemma InsertStep<T>(s: seq<T>, x: T, key: T -> int, j: nat)
    requires 0 < j <= |s| && key(x) < key(s[j - 1])
    ensures InsertLast(s[..j], x, key) + s[j..] == InsertLast(s[..j - 1], x, key) + s[j - 1..]
  {
    assert s[..j][..j - 1] == s[..j - 1];
    assert [s[j - 1]] + s[j..] == s[j - 1..];
  }

  method SortInPlace<T>(a: array<T>, key: T -> int)
    modifies a
    ensures a[..] == SortLast(old(a[..]), key)
  {
    ghost var before := a[..];
    for i := 0 to a.Length
      invariant a[..i] == SortLast(before[..i], key)
      invariant a[i..] == before[i..]
    {
      assert before[..i + 1][..i] == before[..i];
      assert a[i] == a[i..][0];
      Sink(a, i, key);
    }
    assert before[..a.Length] == before;
  }
}
