/** Running reasoners and merging what they propose. Reasoners run in parallel finish in any
    order; when does that show in the merged list of actions? */
module Orchestration {
  import opened Sorting
  import opened Wrappers

  datatype Proposal<A> = Proposal(reasoner: string, actions: seq<A>)

  function ReasonerPriority(name: string): int {
    if name == "temporal" then 100
    else if name == "causal" then 90
    else if name == "hypothesis" then 80
    else if name == "consistency" then 70
    else if name == "semantic" then 50
    else 10
  }

  /** Sort key: higher priority first. */
  function Rank<A>(p: Proposal<A>): int { -ReasonerPriority(p.reasoner) }

  predicate Outranks<A>(p: Proposal<A>, q: Proposal<A>) {
    ReasonerPriority(p.reasoner) > ReasonerPriority(q.reasoner)
  }

  function Flat<A>(ps: seq<Proposal<A>>): seq<A> {
    if ps == [] then [] else ps[0].actions + Flat(ps[1..])
  }

  /** The merged list: proposals by falling priority, equal priorities in order of arrival. */
  function Merged<A>(ps: seq<Proposal<A>>): seq<A> { Flat(StableSort(ps, Outranks)) }

  ghost predicate Commute<A>(p: Proposal<A>, q: Proposal<A>) { p.actions + q.actions == q.actions + p.actions }

  /** Any two proposals of equal priority commute. */
  ghost predicate TiesCommute<A>(ps: seq<Proposal<A>>) {
    forall i, j :: 0 <= i < j < |ps| && Rank(ps[i]) == Rank(ps[j]) ==> Commute(ps[i], ps[j])
  }

  // ----- Flattening -----

  lemma {:induction false} FlatConcat<A>(s: seq<Proposal<A>>, t: seq<Proposal<A>>)
    ensures Flat(s + t) == Flat(s) + Flat(t)
  {
    if s == [] {
      assert s + t == t;
    } else {
      calc {
        Flat(s + t);
        { assert (s + t)[1..] == s[1..] + t; }
        s[0].actions + Flat(s[1..] + t);
        { FlatConcat(s[1..], t); }
        s[0].actions + (Flat(s[1..]) + Flat(t));
        Flat(s) + Flat(t);
      }
    }
  }

  ghost predicate AllCommute<A>(g: seq<Proposal<A>>) {
    forall p, q :: p in g && q in g ==> Commute(p, q)
  }

  lemma {:induction false} CommutePast<A>(g: seq<Proposal<A>>, p: Proposal<A>)
    requires forall q :: q in g ==> Commute(p, q)
    ensures Flat(g) + p.actions == p.actions + Flat(g)
  {
    if g != [] {
      CommutePast(g[1..], p);
      assert g[0] in g && Commute(p, g[0]);
      calc {
        Flat(g) + p.actions;
        g[0].actions + (Flat(g[1..]) + p.actions);
        g[0].actions + (p.actions + Flat(g[1..]));
        (g[0].actions + p.actions) + Flat(g[1..]);
        (p.actions + g[0].actions) + Flat(g[1..]);
        p.actions + Flat(g);
      }
    }
  }

  lemma CancelOne<T>(x: T, a: multiset<T>, b: multiset<T>)
    requires multiset{x} + a == multiset{x} + b
    ensures a == b
  {
    forall y ensures a[y] == b[y] {
      assert (multiset{x} + a)[y] == multiset{x}[y] + a[y];
      assert (multiset{x} + b)[y] == multiset{x}[y] + b[y];
    }
  }

  lemma TakeOut<T>(g: seq<T>, h: seq<T>, j: nat)
    requires g != [] && multiset(g) == multiset(h) && j < |h| && h[j] == g[0]
    ensures h == h[..j] + [g[0]] + h[j + 1..]
    ensures multiset(g[1..]) == multiset(h[..j] + h[j + 1..])
  {
    var u, v := h[..j], h[j + 1..];
    assert g == [g[0]] + g[1..] && h == u + [g[0]] + v;
    assert multiset(g) == multiset{g[0]} + multiset(g[1..]);
    assert multiset(h) == multiset{g[0]} + multiset(u + v);
    CancelOne(g[0], multiset(g[1..]), multiset(u + v));
  }

  lemma FlatOut<A>(u: seq<Proposal<A>>, p: Proposal<A>, v: seq<Proposal<A>>)
    requires Flat(u) + p.actions == p.actions + Flat(u)
    ensures Flat(u + [p] + v) == p.actions + Flat(u + v)
  {
    calc {
      Flat(u + [p] + v);
      { FlatConcat(u + [p], v); FlatConcat(u, [p]); }
      (Flat(u) + Flat([p])) + Flat(v);
      { assert [p][1..] == []; assert Flat([p]) == p.actions + []; }
      (Flat(u) + p.actions) + Flat(v);
      p.actions + (Flat(u) + Flat(v));
      { FlatConcat(u, v); }
      p.actions + Flat(u + v);
    }
  }

  /** Commuting proposals flatten to the same list in every order. */
  lemma {:induction false} GroupFlat<A>(g: seq<Proposal<A>>, h: seq<Proposal<A>>)
    requires multiset(g) == multiset(h) && AllCommute(g)
    ensures Flat(g) == Flat(h)
    decreases |g|
  {
    assert h != [] ==> h[0] in multiset(g);
    if g != [] {
      assert g[0] in multiset(h);
      var j :| 0 <= j < |h| && h[j] == g[0];
      TakeOut(g, h, j);
      forall q | q in h[..j] ensures Commute(g[0], q) { assert q in multiset(h); }
      CommutePast(h[..j], g[0]);
      FlatOut(h[..j], g[0], h[j + 1..]);
      GroupFlat(g[1..], h[..j] + h[j + 1..]);
    }
  }

  // ----- Classes of equal priority -----

  function Without<T>(s: seq<T>, key: T -> int, k: int): seq<T> {
    if s == [] then []
    else (if key(s[0]) != k then [s[0]] else []) + Without(s[1..], key, k)
  }

  lemma {:induction false} WithoutClasses<T>(s: seq<T>, key: T -> int, k: int, l: int)
    ensures Class(Without(s, key, k), key, l) == if l == k then [] else Class(s, key, l)
    ensures |Without(s, key, k)| + |Class(s, key, k)| == |s|
  {
    if s != [] {
      WithoutClasses(s[1..], key, k, l);
      var rest := Without(s[1..], key, k);
      ClassCons(s[0], rest, key, l);
      assert key(s[0]) == k ==> Without(s, key, k) == rest;
      assert key(s[0]) != k ==> Without(s, key, k) == [s[0]] + rest;
    }
  }

  lemma {:induction false} WithoutMembers<T>(s: seq<T>, key: T -> int, k: int)
    ensures forall x :: x in Without(s, key, k) ==> x in s
  {
    if s != [] { WithoutMembers(s[1..], key, k); }
  }

  lemma {:induction false} WithoutSorted<T>(s: seq<T>, key: T -> int, k: int)
    requires SortedByKey(s, key)
    ensures SortedByKey(Without(s, key, k), key)
  {
    if s != [] {
      WithoutSorted(s[1..], key, k);
      WithoutMembers(s[1..], key, k);
      var rest := Without(s[1..], key, k);
      forall j | 0 <= j < |rest| ensures key(s[0]) <= key(rest[j]) {
        assert rest[j] in s[1..];
        var i :| 0 <= i < |s[1..]| && s[1..][i] == rest[j];
        assert s[i + 1] == rest[j];
      }
      assert key(s[0]) != k ==> Without(s, key, k) == [s[0]] + rest;
    }
  }

  /** A sorted list starts with its least class. */
  lemma {:induction false} LeastClassFirst<T>(s: seq<T>, key: T -> int, k: int)
    requires SortedByKey(s, key) && forall x :: x in s ==> key(x) >= k
    ensures s == Class(s, key, k) + Without(s, key, k)
  {
    if s != [] {
      LeastClassFirst(s[1..], key, k);
      if key(s[0]) != k {
        forall x | x in s[1..] ensures key(x) != k {
          var i :| 0 <= i < |s[1..]| && s[1..][i] == x;
          assert s[i + 1] == x;
        }
        ClassMembers(s[1..], key, k);
        assert Class(s[1..], key, k) == [];
      }
    }
  }

  /** Sorted lists flatten alike if their classes flatten alike. */
  lemma {:induction false} FlatByClasses<A(!new)>(s: seq<Proposal<A>>, t: seq<Proposal<A>>)
    requires SortedByKey(s, Rank) && SortedByKey(t, Rank)
    requires forall k ::
      |Class(s, Rank, k)| == |Class(t, Rank, k)| && Flat(Class(s, Rank, k)) == Flat(Class(t, Rank, k))
    ensures Flat(s) == Flat(t)
    decreases |s|
  {
    assert t != [] ==> |Class(t, Rank, Rank(t[0]))| > 0;
    if s != [] {
      var k := Rank(s[0]);
      assert |Class(s, Rank, k)| > 0;
      LeastKey(s, t);
      LeastClassFirst(s, Rank, k);
      LeastClassFirst(t, Rank, k);
      var s1, t1 := Without(s, Rank, k), Without(t, Rank, k);
      WithoutSorted(s, Rank, k);
      WithoutSorted(t, Rank, k);
      forall l
        ensures |Class(s1, Rank, l)| == |Class(t1, Rank, l)| && Flat(Class(s1, Rank, l)) == Flat(Class(t1, Rank, l)) {
        WithoutClasses(s, Rank, k, l);
        WithoutClasses(t, Rank, k, l);
      }
      WithoutClasses(s, Rank, k, k);
      FlatByClasses(s1, t1);
      FlatConcat(Class(s, Rank, k), s1);
      FlatConcat(Class(t, Rank, k), t1);
    }
  }

  lemma LeastKey<A(!new)>(s: seq<Proposal<A>>, t: seq<Proposal<A>>)
    requires s != [] && SortedByKey(s, Rank)
    requires forall k :: |Class(s, Rank, k)| == |Class(t, Rank, k)|
    ensures forall x :: x in s ==> Rank(x) >= Rank(s[0])
    ensures forall x :: x in t ==> Rank(x) >= Rank(s[0])
  {
    forall x | x in t ensures Rank(x) >= Rank(s[0]) {
      ClassMembers(t, Rank, Rank(x));
      assert x in Class(t, Rank, Rank(x));
      var y := Class(s, Rank, Rank(x))[0];
      ClassMembers(s, Rank, Rank(x));
      assert y in Class(s, Rank, Rank(x));
      var i :| 0 <= i < |s| && s[i] == y;
    }
  }

  lemma {:induction false} ClassCounts<T>(s: seq<T>, key: T -> int, k: int, x: T)
    ensures multiset(Class(s, key, k))[x] == if key(x) == k then multiset(s)[x] else 0
  {
    if s != [] {
      ClassCounts(s[1..], key, k, x);
      assert s == [s[0]] + s[1..];
      assert multiset(s) == multiset{s[0]} + multiset(s[1..]);
    }
  }

  lemma SameClassCounts<T(!new)>(s: seq<T>, t: seq<T>, key: T -> int, k: int)
    requires multiset(s) == multiset(t)
    ensures multiset(Class(s, key, k)) == multiset(Class(t, key, k))
    ensures |Class(s, key, k)| == |Class(t, key, k)|
  {
    forall x ensures multiset(Class(s, key, k))[x] == multiset(Class(t, key, k))[x] {
      ClassCounts(s, key, k, x);
      ClassCounts(t, key, k, x);
    }
    assert |multiset(Class(s, key, k))| == |Class(s, key, k)|;
    assert |multiset(Class(t, key, k))| == |Class(t, key, k)|;
  }

  lemma OutranksOrder<A(!new)>()
    ensures StrictWeak<Proposal<A>>(Outranks)
  {
  }

  lemma SortClasses<A(!new)>(ps: seq<Proposal<A>>)
    ensures SortedByKey(StableSort(ps, Outranks), Rank)
    ensures forall k :: Class(StableSort(ps, Outranks), Rank, k) == Class(ps, Rank, k)
  {
    OutranksOrder<A>();
    SortSorts(ps, Outranks);
    forall k ensures Class(StableSort(ps, Outranks), Rank, k) == Class(ps, Rank, k) {
      ClassSorted(ps, Outranks, Rank, k);
    }
  }

  /** The named reasoners in falling priority; any other comes last. */
  lemma PriorityOrder(other: string)
    requires other !in ["temporal", "causal", "hypothesis", "consistency", "semantic"]
    ensures ReasonerPriority("temporal") > ReasonerPriority("causal") > ReasonerPriority("hypothesis")
    ensures ReasonerPriority("hypothesis") > ReasonerPriority("consistency") > ReasonerPriority("semantic")
    ensures ReasonerPriority("semantic") > ReasonerPriority(other) > 0
  {
    var named := ["temporal", "causal", "hypothesis", "consistency", "semantic"];
    assert forall i :: 0 <= i < |named| ==> named[i] in named;
    assert other != named[0] && other != named[1] && other != named[2] && other != named[3] && other != named[4];
  }

  /** s holds the proposals, those of higher priority first and those of equal priority as they came. */
  ghost predicate ByPriority<A(!new)>(ps: seq<Proposal<A>>, s: seq<Proposal<A>>) {
    && multiset(s) == multiset(ps)
    && (forall i, j :: 0 <= i < j < |s| ==> ReasonerPriority(s[i].reasoner) >= ReasonerPriority(s[j].reasoner))
    && (forall i, j :: 0 <= i < j < |ps| && ReasonerPriority(ps[i].reasoner) == ReasonerPriority(ps[j].reasoner) ==>
          Precedes(s, ps[i], ps[j]))
  }

  /** The merged list is that of the proposals in this order, one after the other. */
  lemma HigherFirst<A(!new)>(ps: seq<Proposal<A>>)
    ensures exists s :: ByPriority(ps, s) && Merged(ps) == Flat(s)
  {
    var s := StableSort(ps, Outranks);
    OutranksOrder<A>();
    SortKeeps(ps, Outranks);
    SortSorts(ps, Outranks);
    forall i, j | 0 <= i < j < |s| ensures ReasonerPriority(s[i].reasoner) >= ReasonerPriority(s[j].reasoner) {
      assert !Outranks(s[j], s[i]);
    }
    forall i, j | 0 <= i < j < |ps| && ReasonerPriority(ps[i].reasoner) == ReasonerPriority(ps[j].reasoner)
      ensures Precedes(s, ps[i], ps[j]) {
      assert Precedes(ps, ps[i], ps[j]);
      SortStable(ps, Outranks, ps[i], ps[j]);
    }
    assert ByPriority(ps, s) && Merged(ps) == Flat(s);
  }

  /** If proposals of equal priority commute, the merged list is the same for every order of arrival. */
  lemma ArrivalDoesNotMatter<A(!new)>(ps: seq<Proposal<A>>, arrived: seq<Proposal<A>>)
    requires multiset(ps) == multiset(arrived) && TiesCommute(ps)
    ensures Merged(ps) == Merged(arrived)
  {
    SortClasses(ps);
    SortClasses(arrived);
    forall k ensures |Class(ps, Rank, k)| == |Class(arrived, Rank, k)|
                  && Flat(Class(ps, Rank, k)) == Flat(Class(arrived, Rank, k))
    {
      SameClassCounts(ps, arrived, Rank, k);
      ClassMembers(ps, Rank, k);
      forall p, q | p in Class(ps, Rank, k) && q in Class(ps, Rank, k) ensures Commute(p, q) {
        var i :| 0 <= i < |ps| && ps[i] == p;
        var j :| 0 <= j < |ps| && ps[j] == q;
        if i < j { assert Commute(ps[i], ps[j]); }
        if j < i { assert Commute(ps[j], ps[i]); }
      }
      GroupFlat(Class(ps, Rank, k), Class(arrived, Rank, k));
    }
    FlatByClasses(StableSort(ps, Outranks), StableSort(arrived, Outranks));
  }

  // ----- Necessity -----

  /** Where Insert puts a proposal: after those that outrank it. */
  function Place<A>(s: seq<Proposal<A>>, p: Proposal<A>): (n: nat)
    ensures n <= |s|
  {
    if s == [] || !Outranks(s[0], p) then 0 else 1 + Place(s[1..], p)
  }

  lemma Ahead<T>(x: T, u: seq<T>, v: seq<T>, w: seq<T>)
    ensures [x] + (u + v + w) == ([x] + u) + v + w
  {
  }

  lemma {:induction false} InsertPair<A>(s: seq<Proposal<A>>, p: Proposal<A>, q: Proposal<A>)
    requires Rank(p) == Rank(q)
    ensures Place(s, p) == Place(s, q)
    ensures Insert(p, Insert(q, s, Outranks), Outranks) == s[..Place(s, q)] + [p, q] + s[Place(s, q)..]
  {
    if s != [] && Outranks(s[0], q) {
      InsertPair(s[1..], p, q);
      var n, r := Place(s[1..], q), Insert(q, s[1..], Outranks);
      assert Insert(q, s, Outranks) == [s[0]] + r && ([s[0]] + r)[1..] == r;
      Ahead(s[0], s[1..][..n], [p, q], s[1..][n..]);
      assert Insert(p, [s[0]] + r, Outranks) == [s[0]] + Insert(p, r, Outranks);
      assert s[..n + 1] == [s[0]] + s[1..][..n] && s[n + 1..] == s[1..][n..];
    } else {
      assert Insert(q, s, Outranks) == [q] + s;
      assert [p] + ([q] + s) == s[..0] + [p, q] + s[0..];
    }
  }

  lemma FlatPair<A>(low: seq<Proposal<A>>, p: Proposal<A>, q: Proposal<A>, high: seq<Proposal<A>>)
    ensures Flat(low + [p, q] + high) == Flat(low) + ((p.actions + q.actions) + Flat(high))
  {
    FlatConcat(low + [p, q], high);
    FlatConcat(low, [p, q]);
    assert [p, q][1..] == [q];
    assert [q][1..] == [];
    assert Flat([q]) == q.actions + Flat([]) == q.actions;
    assert Flat([p, q]) == p.actions + Flat([q]);
  }

  /** Two proposals of equal priority that arrive in either order swap their actions in the merged list. */
  lemma LeadingPair<A>(p: Proposal<A>, q: Proposal<A>, rest: seq<Proposal<A>>) returns (low: seq<A>, high: seq<A>)
    requires Rank(p) == Rank(q)
    ensures Merged([p, q] + rest) == low + ((p.actions + q.actions) + high)
    ensures Merged([q, p] + rest) == low + ((q.actions + p.actions) + high)
  {
    var s := StableSort(rest, Outranks);
    var n := Place(s, q);
    SortPair(p, q, rest);
    SortPair(q, p, rest);
    InsertPair(s, p, q);
    InsertPair(s, q, p);
    FlatPair(s[..n], p, q, s[n..]);
    FlatPair(s[..n], q, p, s[n..]);
    low, high := Flat(s[..n]), Flat(s[n..]);
  }

  lemma SortPair<A>(p: Proposal<A>, q: Proposal<A>, rest: seq<Proposal<A>>)
    ensures StableSort([p, q] + rest, Outranks) == Insert(p, Insert(q, StableSort(rest, Outranks), Outranks), Outranks)
  {
    assert ([p, q] + rest)[1..] == [q] + rest;
    assert ([q] + rest)[1..] == rest;
  }

  lemma Cancel<A>(low: seq<A>, x: seq<A>, y: seq<A>, high: seq<A>)
    requires |x| == |y| && low + (x + high) == low + (y + high)
    ensures x == y
  {
    assert (low + (x + high))[|low|..][..|x|] == x;
    assert (low + (y + high))[|low|..][..|y|] == y;
  }

  /** Two members of ps can be brought to the front. */
  lemma BringForward<T>(ps: seq<T>, i: nat, j: nat) returns (rest: seq<T>)
    requires i < j < |ps|
    ensures multiset([ps[i], ps[j]] + rest) == multiset(ps)
    ensures multiset([ps[j], ps[i]] + rest) == multiset(ps)
  {
    var a, b, c := ps[..i], ps[i + 1..j], ps[j + 1..];
    rest := a + b + c;
    assert ps == a + [ps[i]] + b + [ps[j]] + c;
    assert multiset(ps) == multiset(a) + multiset{ps[i]} + multiset(b) + multiset{ps[j]} + multiset(c);
  }

  ghost predicate SameForEveryArrival<A(!new)>(ps: seq<Proposal<A>>) {
    forall arrived | multiset(arrived) == multiset(ps) :: Merged(arrived) == Merged(ps)
  }

  lemma TiesMustCommute<A(!new)>(ps: seq<Proposal<A>>, i: nat, j: nat)
    requires SameForEveryArrival(ps) && i < j < |ps| && Rank(ps[i]) == Rank(ps[j])
    ensures Commute(ps[i], ps[j])
  {
    var rest := BringForward(ps, i, j);
    var p, q := ps[i], ps[j];
    var low, high := LeadingPair(p, q, rest);
    assert Merged([p, q] + rest) == Merged(ps) == Merged([q, p] + rest);
    Cancel(low, p.actions + q.actions, q.actions + p.actions, high);
  }

  /** The merged list is the same for every order of arrival exactly when the actions of
      any two proposals of equal priority give the same list in both orders. */
  lemma ArrivalIndependence<A(!new)>(ps: seq<Proposal<A>>)
    ensures SameForEveryArrival(ps) <==> TiesCommute(ps)
  {
    if TiesCommute(ps) {
      forall arrived: seq<Proposal<A>> | multiset(arrived) == multiset(ps) ensures Merged(arrived) == Merged(ps) {
        ArrivalDoesNotMatter(ps, arrived);
      }
    }
    if SameForEveryArrival(ps) {
      forall i, j | 0 <= i < j < |ps| && Rank(ps[i]) == Rank(ps[j]) ensures Commute(ps[i], ps[j]) {
        TiesMustCommute(ps, i, j);
      }
    }
  }

  ghost predicate DistinctPriorities<A>(ps: seq<Proposal<A>>) {
    forall i, j :: 0 <= i < j < |ps| ==> Rank(ps[i]) != Rank(ps[j])
  }

  // ----- The two ways to run -----

  /** Outcome i is what reasoner i returns; None if it does not support the session or fails. */
  function Outcomes<A>(rs: seq<Option<Proposal<A>>>): seq<Proposal<A>> {
    if rs == [] then []
    else Outcomes(rs[..|rs| - 1]) + match rs[|rs| - 1] case None => [] case Some(p) => [p]
  }

  method RunSequential<A>(rs: seq<Option<Proposal<A>>>) returns (results: seq<Proposal<A>>)
    ensures results == Outcomes(rs)
  {
    results := [];
    for i := 0 to |rs|
      invariant results == Outcomes(rs[..i])
    {
      assert rs[..i + 1][..i] == rs[..i];
      if rs[i].None? {
        continue;
      }
      results := results + [rs[i].value];
    }
    assert rs[..|rs|] == rs;
  }

  function Picked<A>(rs: seq<Option<Proposal<A>>>, n: nat, pending: set<nat>): seq<Proposal<A>>
    requires n <= |rs|
  {
    if n == 0 then []
    else Picked(rs, n - 1, pending) + if n - 1 in pending || rs[n - 1].None? then [] else [rs[n - 1].value]
  }

  function Value<A>(r: Option<Proposal<A>>): seq<Proposal<A>> {
    match r case None => [] case Some(p) => [p]
  }

  lemma {:induction false} PickRest<A>(rs: seq<Option<Proposal<A>>>, n: nat, pending: set<nat>, i: nat)
    requires n <= |rs| && n <= i
    ensures Picked(rs, n, pending - {i}) == Picked(rs, n, pending)
  {
    if n > 0 { PickRest(rs, n - 1, pending, i); }
  }

  /** When reasoner i finishes, its result is inserted somewhere in the middle. */
  lemma {:induction false} PickOne<A>(rs: seq<Option<Proposal<A>>>, n: nat, pending: set<nat>, i: nat)
    returns (u: seq<Proposal<A>>, w: seq<Proposal<A>>)
    requires i < n <= |rs| && i in pending
    ensures Picked(rs, n, pending) == u + w
    ensures Picked(rs, n, pending - {i}) == u + Value(rs[i]) + w
  {
    if i == n - 1 {
      PickRest(rs, n - 1, pending, i);
      u, w := Picked(rs, n - 1, pending), [];
    } else {
      u, w := PickOne(rs, n - 1, pending, i);
      var last := if n - 1 in pending then [] else Value(rs[n - 1]);
      assert Picked(rs, n, pending) == Picked(rs, n - 1, pending) + last;
      assert Picked(rs, n, pending - {i}) == Picked(rs, n - 1, pending - {i}) + last;
      w := w + last;
    }
  }

  lemma Collect<T>(collected: seq<T>, u: seq<T>, v: seq<T>, w: seq<T>)
    requires multiset(collected) == multiset(u + w)
    ensures multiset(collected + v) == multiset(u + v + w)
  {
  }

  lemma {:induction false} PickAll<A>(rs: seq<Option<Proposal<A>>>, n: nat)
    requires n <= |rs|
    ensures Picked(rs, n, {}) == Outcomes(rs[..n])
  {
    if n > 0 {
      PickAll(rs, n - 1);
      assert rs[..n][..n - 1] == rs[..n - 1];
    }
  }

  lemma {:induction false} PickNone<A>(rs: seq<Option<Proposal<A>>>, n: nat, pending: set<nat>)
    requires n <= |rs| && forall i: nat :: i < n ==> i in pending
    ensures Picked(rs, n, pending) == []
  {
    if n > 0 { PickNone(rs, n - 1, pending); }
  }

  function Places(n: nat): (r: set<nat>)
    ensures forall i: nat :: i in r <==> i < n
  {
    if n == 0 then {} else Places(n - 1) + {n - 1}
  }

  /** Each step, some reasoner that is still running finishes and appends its result under
      the lock; which one is left open. */
  method RunParallel<A(!new)>(rs: seq<Option<Proposal<A>>>)
    returns (results: seq<Proposal<A>>, ghost arrived: seq<Proposal<A>>)
    ensures multiset(arrived) == multiset(Outcomes(rs)) && results == StableSort(arrived, Outranks)
  {
    var pending := Places(|rs|);
    var collected: seq<Proposal<A>> := [];
    PickNone(rs, |rs|, pending);
    while pending != {}
      invariant forall i :: i in pending ==> i < |rs|
      invariant multiset(collected) == multiset(Picked(rs, |rs|, pending))
      decreases pending
    {
      var i :| i in pending;
      ghost var u, w := PickOne(rs, |rs|, pending, i);
      Collect(collected, u, Value(rs[i]), w);
      pending := pending - {i};
      if rs[i].Some? {
        collected := collected + [rs[i].value];
      }
    }
    PickAll(rs, |rs|);
    assert rs[..|rs|] == rs;
    arrived := collected;
    results := StableSort(collected, Outranks);
  }

  method MergeSequential<A>(results: seq<Proposal<A>>) returns (out: seq<A>)
    ensures out == Merged(results)
  {
    var sorted := StableSort(results, Outranks);
    out := [];
    for i := 0 to |sorted|
      invariant out + Flat(sorted[i..]) == Flat(sorted)
    {
      assert sorted[i..][1..] == sorted[i + 1..];
      out := out + sorted[i].actions;
    }
  }

  /** Sorting what is sorted already changes nothing. */
  lemma MergedSorted<A(!new)>(ps: seq<Proposal<A>>)
    ensures Merged(StableSort(ps, Outranks)) == Merged(ps)
  {
    var s := StableSort(ps, Outranks);
    SortClasses(ps);
    SortClasses(s);
    StableUnique(StableSort(s, Outranks), s, Rank);
  }

  ghost predicate MergedInSomeOrder<A(!new)>(ps: seq<Proposal<A>>, out: seq<A>) {
    exists arrived :: multiset(arrived) == multiset(ps) && out == Merged(arrived)
  }

  /** One cycle: collect, then merge. With pairwise distinct priorities the parallel strategy
      gives the list that the sequential one gives, whatever finishes first. */
  method Propose<A(!new)>(rs: seq<Option<Proposal<A>>>, parallel: bool) returns (out: seq<A>)
    ensures !parallel ==> out == Merged(Outcomes(rs))
    ensures MergedInSomeOrder(Outcomes(rs), out)
    ensures TiesCommute(Outcomes(rs)) ==> out == Merged(Outcomes(rs))
    ensures DistinctPriorities(Outcomes(rs)) ==> out == Merged(Outcomes(rs))
  {
    if parallel {
      var results, arrived := RunParallel(rs);
      out := MergeSequential(results);
      MergedSorted(arrived);
      ArrivalIndependence(Outcomes(rs));
    } else {
      var results := RunSequential(rs);
      out := MergeSequential(results);
    }
  }
}
