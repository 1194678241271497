/** Walks, reachability and distance in a finite directed graph given by its set
    of arcs. The traversal and cycle algorithms are specified in these terms. */
module Walks {

  type Arcs<V(==)> = set<(V, V)>

  ghost predicate IsWalk<V(!new)>(arcs: Arcs<V>, p: seq<V>) {
    && |p| > 0
    && forall i, j :: 0 <= i < j < |p| && j == i + 1 ==> (p[i], p[j]) in arcs
  }

  /** p is a walk from a to b; it has |p| - 1 hops. */
  ghost predicate Joins<V(!new)>(arcs: Arcs<V>, p: seq<V>, a: V, b: V) {
    IsWalk(arcs, p) && p[0] == a && p[|p| - 1] == b
  }

  ghost predicate Reaches<V(!new)>(arcs: Arcs<V>, a: V, b: V) {
    exists p :: Joins(arcs, p, a, b)
  }

  /** d is the number of hops on a shortest walk from a to b. */
  ghost predicate Distance<V(!new)>(arcs: Arcs<V>, a: V, b: V, d: nat) {
    && (exists p :: Joins(arcs, p, a, b) && |p| == d + 1)
    && forall p :: Joins(arcs, p, a, b) ==> |p| >= d + 1
  }

  /** Every arc that leaves s also ends in s. */
  ghost predicate Closed<V(!new)>(arcs: Arcs<V>, s: set<V>) {
    forall u, v {:trigger (u, v) in arcs} :: u in s && (u, v) in arcs ==> v in s
  }

  /** All nodes that can occur on a walk from a. */
  ghost function Universe<V>(arcs: Arcs<V>, a: V): set<V> {
    {a} + (set e | e in arcs :: e.1)
  }

  ghost predicate Within<V(!new)>(arcs: Arcs<V>, all: set<V>) {
    forall u, v {:trigger (u, v) in arcs} :: (u, v) in arcs ==> v in all
  }

  lemma UniverseHolds<V(!new)>(arcs: Arcs<V>, a: V)
    ensures a in Universe(arcs, a) && Within(arcs, Universe(arcs, a))
  {
  }

  /** The nodes reachable from a; finite because the arcs are. */
  ghost function ReachSet<V(!new)>(arcs: Arcs<V>, a: V): set<V> {
    set v | v in Universe(arcs, a) && Reaches(arcs, a, v)
  }

  /** The same graph with every arc turned round. */
  ghost function Reversed<V>(arcs: Arcs<V>): Arcs<V> {
    set e | e in arcs :: (e.1, e.0)
  }

  lemma Extend<V(!new)>(arcs: Arcs<V>, p: seq<V>, a: V, b: V, c: V)
    requires Joins(arcs, p, a, b) && (b, c) in arcs
    ensures Joins(arcs, p + [c], a, c)
  {
  }

  lemma Prefix<V(!new)>(arcs: Arcs<V>, p: seq<V>, a: V, b: V, i: nat)
    requires Joins(arcs, p, a, b) && i < |p|
    ensures Joins(arcs, p[..i + 1], a, p[i])
  {
  }

  lemma Append<V(!new)>(arcs: Arcs<V>, p: seq<V>, q: seq<V>, a: V, b: V, c: V)
    requires Joins(arcs, p, a, b) && Joins(arcs, q, b, c)
    ensures Joins(arcs, p + q[1..], a, c)
  {
    var w := p + q[1..];
    forall i | 0 <= i < |w| - 1 ensures (w[i], w[i + 1]) in arcs {
      if i >= |p| - 1 {
        assert w[i] == q[i - |p| + 1] && w[i + 1] == q[i - |p| + 2];
      }
    }
  }

  lemma ReachesStep<V(!new)>(arcs: Arcs<V>, a: V, b: V, c: V)
    requires Reaches(arcs, a, b) && (b, c) in arcs
    ensures Reaches(arcs, a, c)
  {
    var p :| Joins(arcs, p, a, b);
    Extend(arcs, p, a, b, c);
  }

  lemma ReachesTrans<V(!new)>(arcs: Arcs<V>, a: V, b: V, c: V)
    requires Reaches(arcs, a, b) && Reaches(arcs, b, c)
    ensures Reaches(arcs, a, c)
  {
    var p :| Joins(arcs, p, a, b);
    var q :| Joins(arcs, q, b, c);
    Append(arcs, p, q, a, b, c);
  }

  lemma ReachesSelf<V(!new)>(arcs: Arcs<V>, a: V)
    ensures Reaches(arcs, a, a)
  {
    assert Joins(arcs, [a], a, a);
  }

  /** A walk that starts inside s and ends outside leaves s for the first time somewhere. */
  lemma FirstExit<V(!new)>(arcs: Arcs<V>, p: seq<V>, s: set<V>, a: V, b: V) returns (i: nat)
    requires Joins(arcs, p, a, b) && a in s && b !in s
    ensures i + 1 < |p| && p[i] in s && p[i + 1] !in s && (p[i], p[i + 1]) in arcs
  {
    i := 0;
    while p[i + 1] in s
      invariant i + 1 < |p| && p[i] in s
      decreases |p| - i
    {
      i := i + 1;
    }
  }

  /** A closed set that contains a contains everything reachable from a. */
  lemma ClosedContains<V(!new)>(arcs: Arcs<V>, s: set<V>, a: V, b: V)
    requires Closed(arcs, s) && a in s && Reaches(arcs, a, b)
    ensures b in s
  {
    var p :| Joins(arcs, p, a, b);
    if b !in s {
      var i := FirstExit(arcs, p, s, a, b);
      assert false;
    }
  }

  lemma ReachedInUniverse<V(!new)>(arcs: Arcs<V>, a: V, b: V)
    requires Reaches(arcs, a, b)
    ensures b in ReachSet(arcs, a)
  {
    var p :| Joins(arcs, p, a, b);
    if |p| > 1 {
      assert (p[|p| - 2], p[|p| - 1]) in arcs;
      assert (p[|p| - 2], b) in arcs;
    }
  }

  /** The least closed set that contains a is exactly the set of nodes reachable from a. */
  lemma ReachSetUnique<V(!new)>(arcs: Arcs<V>, a: V, s: set<V>)
    requires a in s && Closed(arcs, s)
    requires forall v :: v in s ==> Reaches(arcs, a, v)
    ensures s == ReachSet(arcs, a)
  {
    forall v ensures v in s <==> v in ReachSet(arcs, a) {
      if v in s { ReachedInUniverse(arcs, a, v); }
      if v in ReachSet(arcs, a) { ClosedContains(arcs, s, a, v); }
    }
  }

  lemma {:induction false} DistanceUnique<V(!new)>(arcs: Arcs<V>, a: V, b: V, d: nat, e: nat)
    requires Distance(arcs, a, b, d) && Distance(arcs, a, b, e)
    ensures d == e
  {
    var p :| Joins(arcs, p, a, b) && |p| == d + 1;
    var q :| Joins(arcs, q, a, b) && |q| == e + 1;
  }

  /** Turning the arcs round turns every walk round. */
  lemma ReverseWalk<V(!new)>(arcs: Arcs<V>, a: V, b: V)
    requires Reaches(arcs, a, b)
    ensures Reaches(Reversed(arcs), b, a)
  {
    var p :| Joins(arcs, p, a, b);
    var q := seq(|p|, i requires 0 <= i < |p| => p[|p| - 1 - i]);
    forall i | 0 <= i < |q| - 1 ensures (q[i], q[i + 1]) in Reversed(arcs) {
      assert (p[|p| - 2 - i], p[|p| - 2 - i + 1]) in arcs;
    }
    assert Joins(Reversed(arcs), q, b, a);
  }

  lemma ReachesReversed<V(!new)>(arcs: Arcs<V>, a: V, b: V)
    ensures Reaches(arcs, a, b) <==> Reaches(Reversed(arcs), b, a)
  {
    assert Reversed(Reversed(arcs)) == arcs by {
      forall e ensures e in Reversed(Reversed(arcs)) <==> e in arcs {
        if e in arcs { assert (e.1, e.0) in Reversed(arcs); }
      }
    }
    if Reaches(arcs, a, b) { ReverseWalk(arcs, a, b); }
    if Reaches(Reversed(arcs), b, a) { ReverseWalk(Reversed(arcs), b, a); }
  }

  /** Fewer arcs, fewer walks. */
  lemma ReachesMonotone<V(!new)>(small: Arcs<V>, big: Arcs<V>, a: V, b: V)
    requires small <= big && Reaches(small, a, b)
    ensures Reaches(big, a, b)
  {
    var p :| Joins(small, p, a, b);
    assert Joins(big, p, a, b);
  }

  // ----- Cycles -----

  /** The arc (a, b) lies on a cycle: b leads back to a. */
  ghost predicate OnCycle<V(!new)>(arcs: Arcs<V>, a: V, b: V) {
    (a, b) in arcs && Reaches(arcs, b, a)
  }

  /** A numbering that falls along every arc whose source is numbered. */
  ghost predicate Falls<V(!new)>(arcs: Arcs<V>, rank: map<V, int>) {
    forall u, v {:trigger (u, v) in arcs} :: u in rank && (u, v) in arcs ==> v in rank && rank[v] < rank[u]
  }

  lemma RankFallsAlongWalk<V(!new)>(arcs: Arcs<V>, rank: map<V, int>, p: seq<V>, a: V, b: V)
    requires Falls(arcs, rank) && a in rank && Joins(arcs, p, a, b)
    ensures b in rank && rank[b] <= rank[a] - (|p| - 1)
    decreases |p|
  {
    if |p| > 1 {
      assert (p[|p| - 2], p[|p| - 1]) in arcs;
      Prefix(arcs, p, a, b, |p| - 2);
      RankFallsAlongWalk(arcs, rank, p[..|p| - 1], a, p[|p| - 2]);
    }
  }

  /** Numbered nodes are on no cycle. */
  lemma FallingRankMeansNoCycle<V(!new)>(arcs: Arcs<V>, rank: map<V, int>, a: V, b: V)
    requires Falls(arcs, rank) && a in rank
    ensures !OnCycle(arcs, a, b)
  {
    if OnCycle(arcs, a, b) {
      var p :| Joins(arcs, p, b, a);
      RankFallsAlongWalk(arcs, rank, p, b, a);
    }
  }

  // ----- One more arc, fewer arcs -----

  /** A walk through one added arc can be cut there. */
  lemma {:induction false} WalkWithArc<V(!new)>(arcs: Arcs<V>, f: V, t: V, p: seq<V>, a: V, b: V)
    requires Joins(arcs + {(f, t)}, p, a, b)
    ensures Reaches(arcs, a, b) || (Reaches(arcs, a, f) && Reaches(arcs, t, b))
    decreases |p|
  {
    if |p| == 1 {
      ReachesSelf(arcs, a);
    } else {
      var more := arcs + {(f, t)};
      var c := p[|p| - 2];
      Prefix(more, p, a, b, |p| - 2);
      WalkWithArc(arcs, f, t, p[..|p| - 1], a, c);
      assert (c, b) in more;
      if (c, b) in arcs {
        if Reaches(arcs, a, c) { ReachesStep(arcs, a, c, b); } else { ReachesStep(arcs, t, c, b); }
      } else {
        ReachesSelf(arcs, t);
      }
    }
  }

  lemma ReachesWithArc<V(!new)>(arcs: Arcs<V>, f: V, t: V, a: V, b: V)
    requires Reaches(arcs + {(f, t)}, a, b)
    ensures Reaches(arcs, a, b) || (Reaches(arcs, a, f) && Reaches(arcs, t, b))
  {
    var p :| Joins(arcs + {(f, t)}, p, a, b);
    WalkWithArc(arcs, f, t, p, a, b);
  }

  ghost predicate Acyclic<V(!new)>(arcs: Arcs<V>) { forall a, b :: !OnCycle(arcs, a, b) }

  lemma NewCycle<V(!new)>(arcs: Arcs<V>, f: V, t: V, a: V, b: V)
    requires Acyclic(arcs) && OnCycle(arcs + {(f, t)}, a, b)
    ensures Reaches(arcs, t, f)
  {
    ReachesWithArc(arcs, f, t, b, a);
    assert !OnCycle(arcs, a, b);
    if (a, b) in arcs {
      ReachesStep(arcs, t, a, b);
      ReachesTrans(arcs, t, b, f);
    }
  }

  /** Adding an arc to an acyclic graph closes a cycle exactly when its end led to its start. */
  lemma ArcClosesCycle<V(!new)>(arcs: Arcs<V>, f: V, t: V)
    requires Acyclic(arcs)
    ensures !Acyclic(arcs + {(f, t)}) <==> Reaches(arcs, t, f)
  {
    var more := arcs + {(f, t)};
    if Reaches(arcs, t, f) {
      ReachesMonotone(arcs, more, t, f);
      assert OnCycle(more, f, t);
    }
    if !Acyclic(more) {
      var a, b :| OnCycle(more, a, b);
      NewCycle(arcs, f, t, a, b);
    }
  }

  lemma FewerArcsAcyclic<V(!new)>(small: Arcs<V>, big: Arcs<V>)
    requires small <= big && Acyclic(big)
    ensures Acyclic(small)
  {
    forall a, b ensures !OnCycle(small, a, b) {
      assert !OnCycle(big, a, b);
      if Reaches(small, b, a) { ReachesMonotone(small, big, b, a); }
    }
  }

  lemma {:induction false} WalkByDetours<V(!new)>(small: Arcs<V>, big: Arcs<V>, p: seq<V>, a: V, b: V)
    requires Joins(big, p, a, b)
    requires forall u, v {:trigger (u, v) in big} :: (u, v) in big ==> Reaches(small, u, v)
    ensures Reaches(small, a, b)
    decreases |p|
  {
    if |p| == 1 {
      ReachesSelf(small, a);
    } else {
      var c := p[|p| - 2];
      Prefix(big, p, a, b, |p| - 2);
      WalkByDetours(small, big, p[..|p| - 1], a, c);
      assert (c, b) in big;
      ReachesTrans(small, a, c, b);
    }
  }

  /** Extra arcs that only shorten walks reach nothing new. */
  lemma ReachesByDetours<V(!new)>(small: Arcs<V>, big: Arcs<V>, a: V, b: V)
    requires Reaches(big, a, b)
    requires forall u, v {:trigger (u, v) in big} :: (u, v) in big ==> Reaches(small, u, v)
    ensures Reaches(small, a, b)
  {
    var p :| Joins(big, p, a, b);
    WalkByDetours(small, big, p, a, b);
  }

  // ----- Mapping nodes -----

  /** f carries arcs to arcs. */
  ghost predicate Carries<V(!new), U(!new)>(arcs: Arcs<V>, other: Arcs<U>, f: V -> U) {
    forall u, v {:trigger (u, v) in arcs} :: (u, v) in arcs ==> (f(u), f(v)) in other
  }

  lemma {:induction false} WalkCarried<V(!new), U(!new)>(arcs: Arcs<V>, other: Arcs<U>, f: V -> U, p: seq<V>,
                                                         a: V, b: V)
    requires Carries(arcs, other, f) && Joins(arcs, p, a, b)
    ensures Reaches(other, f(a), f(b))
    decreases |p|
  {
    if |p| == 1 {
      ReachesSelf(other, f(a));
    } else {
      var c := p[|p| - 2];
      Prefix(arcs, p, a, b, |p| - 2);
      WalkCarried(arcs, other, f, p[..|p| - 1], a, c);
      assert (c, b) in arcs;
      ReachesStep(other, f(a), f(c), f(b));
    }
  }

  lemma CarriedAcyclic<V(!new), U(!new)>(arcs: Arcs<V>, other: Arcs<U>, f: V -> U)
    requires Carries(arcs, other, f) && Acyclic(other)
    ensures Acyclic(arcs)
  {
    forall a, b ensures !OnCycle(arcs, a, b) {
      assert !OnCycle(other, f(a), f(b));
      if OnCycle(arcs, a, b) {
        var p :| Joins(arcs, p, b, a);
        WalkCarried(arcs, other, f, p, b, a);
      }
    }
  }
}
