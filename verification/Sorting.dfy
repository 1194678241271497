/** The order on strings and the stable sort that the repository takes from its
    standard library. A sorted permutation of distinct keys is unique, which is
    why iterating a hash map and then sorting gives a deterministic answer. */
module Sorting {

  /** Lexicographic order, as on the repository's strings. */
  predicate Less(a: string, b: string) {
    if b == "" then false
    else if a == "" then true
    else if a[0] != b[0] then a[0] < b[0]
    else Less(a[1..], b[1..])
  }

  lemma {:induction false} LessIrreflexive(a: string)
    ensures !Less(a, a)
    decreases |a|
  {
    if a != "" { LessIrreflexive(a[1..]); }
  }

  lemma {:induction false} LessTotal(a: string, b: string)
    ensures Less(a, b) || a == b || Less(b, a)
    decreases |a|
  {
    if a != "" && b != "" && a[0] == b[0] {
      LessTotal(a[1..], b[1..]);
      if a[1..] == b[1..] {
        assert a == [a[0]] + a[1..] && b == [b[0]] + b[1..];
      }
    }
  }

  lemma {:induction false} LessTransitive(a: string, b: string, c: string)
    requires Less(a, b) && Less(b, c)
    ensures Less(a, c)
    decreases |a|
  {
    if a != "" && a[0] == b[0] && b[0] == c[0] {
      LessTransitive(a[1..], b[1..], c[1..]);
    }
  }

  lemma LessAsymmetric(a: string, b: string)
    requires Less(a, b)
    ensures !Less(b, a)
  {
    if Less(b, a) {
      LessTransitive(a, b, a);
      LessIrreflexive(a);
    }
  }

  /** A strict order in which "neither before the other" is an equivalence:
      what a comparison function passed to a sort must be. */
  ghost predicate StrictWeak<T(!new)>(before: (T, T) -> bool) {
    && (forall a :: !before(a, a))
    && (forall a, b, c :: before(a, b) && before(b, c) ==> before(a, c))
    && (forall a, b, c :: !before(a, b) && !before(b, c) ==> !before(a, c))
  }

  ghost predicate Sorted<T>(s: seq<T>, before: (T, T) -> bool) {
    forall i, j :: 0 <= i < j < |s| ==> !before(s[j], s[i])
  }

  /** Any two members of s at different places are strictly ordered. */
  ghost predicate Distinguishes<T>(s: multiset<T>, before: (T, T) -> bool) {
    && (forall x :: x in s ==> s[x] == 1)
    && (forall x, y :: x in s && y in s && x != y ==> before(x, y) || before(y, x))
  }

  function Insert<T>(x: T, s: seq<T>, before: (T, T) -> bool): seq<T> {
    if s == [] || !before(s[0], x) then [x] + s
    else [s[0]] + Insert(x, s[1..], before)
  }

  /** A stable sort: an element never moves past an equal one. */
  function StableSort<T>(s: seq<T>, before: (T, T) -> bool): seq<T> {
    if s == [] then [] else Insert(s[0], StableSort(s[1..], before), before)
  }

  lemma {:induction false} InsertKeeps<T>(x: T, s: seq<T>, before: (T, T) -> bool)
    ensures multiset(Insert(x, s, before)) == multiset([x]) + multiset(s)
    ensures |Insert(x, s, before)| == |s| + 1
  {
    if s == [] || !before(s[0], x) {
    } else {
      InsertKeeps(x, s[1..], before);
      assert s == [s[0]] + s[1..];
    }
  }

  lemma {:induction false} InsertSorted<T(!new)>(x: T, s: seq<T>, before: (T, T) -> bool)
    requires StrictWeak(before) && Sorted(s, before)
    ensures Sorted(Insert(x, s, before), before)
  {
    if s == [] {
    } else if !before(s[0], x) {
      var r := [x] + s;
      forall i, j | 0 <= i < j < |r| ensures !before(r[j], r[i]) {
        if i == 0 && j > 1 {
          assert !before(s[j - 1], s[0]);
        }
      }
    } else {
      InsertSorted(x, s[1..], before);
      InsertKeeps(x, s[1..], before);
      var t := Insert(x, s[1..], before);
      var r := [s[0]] + t;
      forall i, j | 0 <= i < j < |r| ensures !before(r[j], r[i]) {
        if i == 0 {
          assert t[j - 1] in multiset(t);
          assert t[j - 1] == x || t[j - 1] in s[1..];
        }
      }
    }
  }

  lemma {:induction false} SortKeeps<T>(s: seq<T>, before: (T, T) -> bool)
    ensures multiset(StableSort(s, before)) == multiset(s)
    ensures |StableSort(s, before)| == |s|
  {
    if s != [] {
      SortKeeps(s[1..], before);
      InsertKeeps(s[0], StableSort(s[1..], before), before);
      assert s == [s[0]] + s[1..];
    }
  }

  lemma SortMembers<T>(s: seq<T>, before: (T, T) -> bool)
    ensures forall x :: x in StableSort(s, before) <==> x in s
  {
    SortKeeps(s, before);
    forall x ensures x in StableSort(s, before) <==> x in s {
      assert x in multiset(StableSort(s, before)) <==> x in multiset(s);
    }
  }

  lemma {:induction false} SortSorts<T(!new)>(s: seq<T>, before: (T, T) -> bool)
    requires StrictWeak(before)
    ensures Sorted(StableSort(s, before), before)
  {
    if s != [] {
      SortSorts(s[1..], before);
      InsertSorted(s[0], StableSort(s[1..], before), before);
    }
  }

  function Filter<T>(s: seq<T>, keep: T -> bool): seq<T> {
    if s == [] then []
    else if keep(s[0]) then [s[0]] + Filter(s[1..], keep)
    else Filter(s[1..], keep)
  }

  lemma {:induction false} FilterMembers<T>(s: seq<T>, keep: T -> bool)
    ensures forall x :: x in Filter(s, keep) <==> x in s && keep(x)
    ensures |Filter(s, keep)| <= |s|
  {
    if s != [] { FilterMembers(s[1..], keep); }
  }

  lemma {:induction false} FilterConcat<T>(s: seq<T>, t: seq<T>, keep: T -> bool)
    ensures Filter(s + t, keep) == Filter(s, keep) + Filter(t, keep)
  {
    if s == [] {
      assert s + t == t;
    } else {
      var head := if keep(s[0]) then [s[0]] else [];
      calc {
        Filter(s + t, keep);
        { assert (s + t)[1..] == s[1..] + t; }
        head + Filter(s[1..] + t, keep);
        { FilterConcat(s[1..], t, keep); }
        head + (Filter(s[1..], keep) + Filter(t, keep));
        Filter(s, keep) + Filter(t, keep);
      }
    }
  }

  lemma SortedHead<T(!new)>(s: seq<T>, t: seq<T>, before: (T, T) -> bool)
    requires s != [] && t != []
    requires Sorted(s, before) && Sorted(t, before) && multiset(s) == multiset(t)
    requires Distinguishes(multiset(s), before)
    ensures s[0] == t[0]
  {
    assert s[0] in multiset(t) && t[0] in multiset(s);
    var j :| 0 <= j < |t| && t[j] == s[0];
    var i :| 0 <= i < |s| && s[i] == t[0];
    assert i == 0 || !before(s[i], s[0]);
    assert j == 0 || !before(t[j], t[0]);
  }

  lemma DistinguishesTail<T(!new)>(s: seq<T>, before: (T, T) -> bool)
    requires s != [] && Distinguishes(multiset(s), before)
    ensures Distinguishes(multiset(s[1..]), before)
  {
    assert multiset(s) == multiset{s[0]} + multiset(s[1..]) by { assert s == [s[0]] + s[1..]; }
    forall x | x in multiset(s[1..]) ensures multiset(s[1..])[x] == 1 && x in multiset(s) {
      assert multiset(s)[x] == 1;
    }
  }

  lemma MultisetTail<T>(s: seq<T>)
    requires s != []
    ensures multiset(s[1..]) == multiset(s) - multiset{s[0]}
  {
    assert s == [s[0]] + s[1..];
  }

  /** Two sorted arrangements of the same distinct elements are equal. */
  lemma {:induction false} SortedUnique<T(!new)>(s: seq<T>, t: seq<T>, before: (T, T) -> bool)
    requires Sorted(s, before) && Sorted(t, before) && multiset(s) == multiset(t)
    requires Distinguishes(multiset(s), before)
    ensures s == t
    decreases |s|
  {
    assert s != [] ==> s[0] in multiset(t);
    assert t != [] ==> t[0] in multiset(s);
    if s != [] {
      SortedHead(s, t, before);
      DistinguishesTail(s, before);
      MultisetTail(s);
      MultisetTail(t);
      SortedUnique(s[1..], t[1..], before);
    }
  }

  /** A stable sort of distinct elements does not depend on the order of its input. */
  lemma SortOrderIndependent<T(!new)>(s: seq<T>, t: seq<T>, before: (T, T) -> bool)
    requires StrictWeak(before) && multiset(s) == multiset(t)
    requires Distinguishes(multiset(s), before)
    ensures StableSort(s, before) == StableSort(t, before)
  {
    SortKeeps(s, before);
    SortKeeps(t, before);
    SortSorts(s, before);
    SortSorts(t, before);
    SortedUnique(StableSort(s, before), StableSort(t, before), before);
  }

  // ----- Stability -----

  /** x stands somewhere before y. */
  ghost predicate Precedes<T>(s: seq<T>, x: T, y: T) {
    exists i, j :: 0 <= i < j < |s| && s[i] == x && s[j] == y
  }

  lemma PrecedesCons<T>(h: T, s: seq<T>, x: T, y: T)
    ensures Precedes([h] + s, x, y) <==> (h == x && y in s) || Precedes(s, x, y)
  {
    var r := [h] + s;
    assert r[1..] == s;
    if Precedes(r, x, y) {
      var i, j :| 0 <= i < j < |r| && r[i] == x && r[j] == y;
      assert r[j] == s[j - 1];
      if i > 0 { assert s[i - 1] == x && s[j - 1] == y; }
    }
    if h == x && y in s {
      var j :| 0 <= j < |s| && s[j] == y;
      assert r[0] == x && r[j + 1] == y;
    }
    if Precedes(s, x, y) {
      var i, j :| 0 <= i < j < |s| && s[i] == x && s[j] == y;
      assert r[i + 1] == x && r[j + 1] == y;
    }
  }

  lemma InsertMembers<T>(x: T, s: seq<T>, before: (T, T) -> bool)
    ensures forall y :: y in Insert(x, s, before) <==> y == x || y in s
  {
    InsertKeeps(x, s, before);
    forall y ensures y in Insert(x, s, before) <==> y == x || y in s {
      assert y in multiset(Insert(x, s, before)) <==> y in multiset([x]) + multiset(s);
    }
  }

  /** An inserted element comes before those that need not come before it. */
  lemma {:induction false} InsertBefore<T>(x: T, s: seq<T>, before: (T, T) -> bool, y: T)
    requires y in s && !before(y, x)
    ensures Precedes(Insert(x, s, before), x, y)
  {
    if !before(s[0], x) {
      PrecedesCons(x, s, x, y);
    } else {
      InsertBefore(x, s[1..], before, y);
      PrecedesCons(s[0], Insert(x, s[1..], before), x, y);
    }
  }

  lemma {:induction false} InsertKeepsOrder<T>(h: T, s: seq<T>, before: (T, T) -> bool, x: T, y: T)
    requires Precedes(s, x, y)
    ensures Precedes(Insert(h, s, before), x, y)
  {
    assert s == [s[0]] + s[1..];
    PrecedesCons(h, s, x, y);
    if before(s[0], h) {
      PrecedesCons(s[0], s[1..], x, y);
      PrecedesCons(s[0], Insert(h, s[1..], before), x, y);
      InsertMembers(h, s[1..], before);
      if Precedes(s[1..], x, y) { InsertKeepsOrder(h, s[1..], before, x, y); }
    }
  }

  /** The sort is stable: it never moves an element behind one that need not come before it. */
  lemma {:induction false} SortStable<T>(s: seq<T>, before: (T, T) -> bool, x: T, y: T)
    requires Precedes(s, x, y) && !before(y, x)
    ensures Precedes(StableSort(s, before), x, y)
  {
    assert s == [s[0]] + s[1..];
    PrecedesCons(s[0], s[1..], x, y);
    var t := StableSort(s[1..], before);
    SortMembers(s[1..], before);
    if Precedes(s[1..], x, y) {
      SortStable(s[1..], before, x, y);
      InsertKeepsOrder(s[0], t, before, x, y);
    } else {
      InsertBefore(x, t, before, y);
    }
  }

  lemma SortedPrecedes<T(!new)>(s: seq<T>, before: (T, T) -> bool, x: T, y: T)
    requires StrictWeak(before) && Sorted(s, before) && x in s && y in s && before(x, y)
    ensures Precedes(s, x, y)
  {
    var i :| 0 <= i < |s| && s[i] == x;
    var j :| 0 <= j < |s| && s[j] == y;
    assert i != j;
  }

  lemma {:induction false} FilterKeepsOrder<T>(s: seq<T>, keep: T -> bool, x: T, y: T)
    requires Precedes(s, x, y) && keep(x) && keep(y)
    ensures Precedes(Filter(s, keep), x, y)
  {
    assert s == [s[0]] + s[1..];
    PrecedesCons(s[0], s[1..], x, y);
    FilterMembers(s[1..], keep);
    PrecedesCons(s[0], Filter(s[1..], keep), x, y);
    if Precedes(s[1..], x, y) { FilterKeepsOrder(s[1..], keep, x, y); }
  }

  // ----- Distinct elements -----

  ghost predicate NoDuplicates<T>(s: seq<T>) {
    forall i, j :: 0 <= i < j < |s| ==> s[i] != s[j]
  }

  function Members<T>(s: seq<T>): set<T> {
    set x | x in s
  }

  lemma {:induction false} NoDuplicatesSize<T>(s: seq<T>)
    ensures |Members(s)| <= |s|
    ensures NoDuplicates(s) ==> |Members(s)| == |s|
  {
    if s != [] {
      var n := |s| - 1;
      NoDuplicatesSize(s[..n]);
      assert Members(s) == Members(s[..n]) + {s[n]};
      if NoDuplicates(s) {
        assert s[n] !in s[..n];
      }
    }
  }

  lemma JoinDistinct<T>(s: seq<T>, t: seq<T>)
    requires NoDuplicates(s) && NoDuplicates(t) && Members(s) !! Members(t)
    ensures NoDuplicates(s + t) && Members(s + t) == Members(s) + Members(t)
  {
    var r := s + t;
    forall i, j | 0 <= i < j < |r| ensures r[i] != r[j] {
      if i < |s| <= j {
        assert r[i] in Members(s) && r[j] in Members(t);
      } else if |s| <= i {
        assert r[i] == t[i - |s|] && r[j] == t[j - |s|];
      }
    }
  }

  lemma {:induction false} NoDuplicatesCounts<T>(s: seq<T>)
    ensures NoDuplicates(s) <==> forall x :: multiset(s)[x] <= 1
  {
    if s != [] {
      var n := |s| - 1;
      NoDuplicatesCounts(s[..n]);
      assert s == s[..n] + [s[n]];
      if !NoDuplicates(s) {
        if NoDuplicates(s[..n]) {
          assert s[n] in s[..n];
          assert multiset(s)[s[n]] >= 2;
        } else {
          var x :| multiset(s[..n])[x] > 1;
          assert multiset(s)[x] > 1;
        }
      } else {
        assert s[n] !in s[..n];
        forall x ensures multiset(s)[x] <= 1 {
          assert multiset(s)[x] == multiset(s[..n])[x] + multiset([s[n]])[x];
        }
      }
    }
  }

  lemma SortDistinct<T>(s: seq<T>, before: (T, T) -> bool)
    requires NoDuplicates(s)
    ensures NoDuplicates(StableSort(s, before))
  {
    SortKeeps(s, before);
    NoDuplicatesCounts(s);
    NoDuplicatesCounts(StableSort(s, before));
  }

  // ----- Sorting by a key -----

  /** The elements with key k, in their order. */
  function Class<T>(s: seq<T>, key: T -> int, k: int): seq<T> {
    if s == [] then []
    else (if key(s[0]) == k then [s[0]] else []) + Class(s[1..], key, k)
  }

  ghost predicate SortedByKey<T>(s: seq<T>, key: T -> int) {
    forall i, j :: 0 <= i < j < |s| ==> key(s[i]) <= key(s[j])
  }

  ghost predicate SameClasses<T(!new)>(s: seq<T>, t: seq<T>, key: T -> int) {
    forall k :: Class(s, key, k) == Class(t, key, k)
  }

  lemma {:induction false} ClassMembers<T>(s: seq<T>, key: T -> int, k: int)
    ensures forall x :: x in Class(s, key, k) <==> x in s && key(x) == k
  {
    if s != [] { ClassMembers(s[1..], key, k); }
  }

  lemma {:induction false} ClassConcat<T>(s: seq<T>, t: seq<T>, key: T -> int, k: int)
    ensures Class(s + t, key, k) == Class(s, key, k) + Class(t, key, k)
  {
    if s == [] {
      assert s + t == t;
    } else {
      var head := if key(s[0]) == k then [s[0]] else [];
      calc {
        Class(s + t, key, k);
        { assert (s + t)[1..] == s[1..] + t; }
        head + Class(s[1..] + t, key, k);
        { ClassConcat(s[1..], t, key, k); }
        head + (Class(s[1..], key, k) + Class(t, key, k));
        Class(s, key, k) + Class(t, key, k);
      }
    }
  }

  lemma SameMembers<T(!new)>(s: seq<T>, t: seq<T>, key: T -> int)
    requires SameClasses(s, t, key)
    ensures forall x :: x in s ==> x in t
  {
    forall x | x in s ensures x in t {
      ClassMembers(s, key, key(x));
      ClassMembers(t, key, key(x));
      assert x in Class(s, key, key(x)) && Class(s, key, key(x)) == Class(t, key, key(x));
    }
  }

  lemma SortedSameHead<T(!new)>(s: seq<T>, t: seq<T>, key: T -> int)
    requires SortedByKey(s, key) && SortedByKey(t, key) && SameClasses(s, t, key) && s != []
    ensures t != [] && s[0] == t[0]
  {
    SameMembers(s, t, key);
    SameMembers(t, s, key);
    assert s[0] in t;
    assert t[0] in s;
    var k := key(s[0]);
    assert Class(s, key, k)[0] == s[0];
    assert Class(t, key, k)[0] == t[0];
  }

  /** A sorted arrangement is determined by the order inside each class of equal keys. */
  lemma {:induction false} StableUnique<T(!new)>(s: seq<T>, t: seq<T>, key: T -> int)
    requires SortedByKey(s, key) && SortedByKey(t, key) && SameClasses(s, t, key)
    ensures s == t
    decreases |s|
  {
    SameMembers(t, s, key);
    assert t != [] ==> t[0] in s;
    if s != [] {
      SortedSameHead(s, t, key);
      forall k ensures Class(s[1..], key, k) == Class(t[1..], key, k) {
        var head := if key(s[0]) == k then [s[0]] else [];
        assert Class(s, key, k) == head + Class(s[1..], key, k);
        assert Class(t, key, k) == head + Class(t[1..], key, k);
        assert Class(s, key, k)[|head|..] == Class(t, key, k)[|head|..];
      }
      StableUnique(s[1..], t[1..], key);
    }
  }

  lemma {:induction false} ClassSorted<T>(s: seq<T>, before: (T, T) -> bool, key: T -> int, k: int)
    requires forall a, b :: key(a) == key(b) ==> !before(a, b)
    ensures Class(StableSort(s, before), key, k) == Class(s, key, k)
  {
    if s != [] {
      ClassSorted(s[1..], before, key, k);
      ClassInsert(s[0], StableSort(s[1..], before), before, key, k);
    }
  }

  lemma {:induction false} ClassInsert<T>(x: T, s: seq<T>, before: (T, T) -> bool, key: T -> int, k: int)
    requires forall a, b :: key(a) == key(b) ==> !before(a, b)
    ensures Class(Insert(x, s, before), key, k) == (if key(x) == k then [x] else []) + Class(s, key, k)
  {
    ClassCons(x, s, key, k);
    if s != [] && before(s[0], x) {
      ClassInsert(x, s[1..], before, key, k);
      ClassCons(s[0], Insert(x, s[1..], before), key, k);
      assert key(s[0]) != key(x);
    }
  }

  lemma ClassCons<T>(x: T, s: seq<T>, key: T -> int, k: int)
    ensures Class([x] + s, key, k) == (if key(x) == k then [x] else []) + Class(s, key, k)
  {
    assert ([x] + s)[1..] == s;
  }
}
