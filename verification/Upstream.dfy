/** The upstream query walks edges backwards and the downstream query walks causal edges
    forwards; the two are converses of each other. */
module Upstream {
  import opened Sorting
  import opened Walks
  import opened Store
  import opened Traversal
  import opened Query

  predicate UpstreamEdge(t: EdgeType) { CausalEdge(t) || t == DependsOn || t == Triggered }

  ghost function UpstreamArcs(edges: map<string, GraphEdge>): Arcs<string> {
    Reversed(StoredArcs(edges, UpstreamEdge))
  }

  ghost function DownstreamArcs(edges: map<string, GraphEdge>): Arcs<string> {
    StoredArcs(edges, t => Follows(Causal, t))
  }

  /** Downstream leads along causal edges; upstream leads back along these and depends_on edges. */
  lemma QueriedEdges(edges: map<string, GraphEdge>, a: string, b: string)
    ensures (a, b) in DownstreamArcs(edges) <==>
      exists k :: k in edges && edges[k].etype in {Causes, LikelyCaused, Triggered}
        && (edges[k].from, edges[k].to) == (a, b)
    ensures (a, b) in UpstreamArcs(edges) <==>
      exists k :: k in edges && edges[k].etype in {Causes, LikelyCaused, Triggered, DependsOn}
        && (edges[k].from, edges[k].to) == (b, a)
  {
    assert (a, b) in UpstreamArcs(edges) <==> (b, a) in StoredArcs(edges, UpstreamEdge);
  }

  method BuildReverse(g: MemoryStore, keep: EdgeType -> bool) returns (rev: Adjacency<string>)
    requires Valid(g.Value())
    ensures Represents(rev, Reversed(StoredArcs(g.edges, keep)))
  {
    var es := g.AllEdges();
    rev := map[];
    for i := 0 to |es|
      invariant forall a, b :: b in Succs(rev, a) <==> (b, a) in ListedArcs(es[..i], keep)
    {
      var e := es[i];
      assert es[..i + 1] == es[..i] + [e];
      if keep(e.etype) {
        rev := rev[e.to := Succs(rev, e.to) + [e.from]];
      }
    }
    assert es[..|es|] == es;
    ListedAreStored(es, g.edges, keep);
    forall a, b ensures b in Succs(rev, a) <==> (a, b) in Reversed(StoredArcs(g.edges, keep)) {
      assert (b, a) in StoredArcs(g.edges, keep) <==> (a, b) in Reversed(StoredArcs(g.edges, keep));
    }
  }

  /** Nodes that some walk of at least one hop leads to. */
  ghost predicate HopsTo<V(!new)>(arcs: Arcs<V>, a: V, b: V) {
    exists u :: Reaches(arcs, a, u) && (u, b) in arcs
  }

  /** The nodes found so far beside start, all their discovered successors included unless
      they still wait in the queue. */
  ghost predicate Spreading<V(!new)>(arcs: Arcs<V>, start: V, visited: set<V>, queue: seq<V>) {
    && (forall v :: v in visited ==> HopsTo(arcs, start, v))
    && (forall v :: v in queue ==> v == start || v in visited)
    && (forall u, v {:trigger (u, v) in arcs} ::
          (u == start || u in visited) && u !in queue && (u, v) in arcs ==> v in visited)
  }

  lemma HopsToReaches<V(!new)>(arcs: Arcs<V>, a: V, b: V)
    requires HopsTo(arcs, a, b)
    ensures Reaches(arcs, a, b)
  {
    var u :| Reaches(arcs, a, u) && (u, b) in arcs;
    ReachesStep(arcs, a, u, b);
  }

  lemma Drained<V(!new)>(arcs: Arcs<V>, start: V, visited: set<V>)
    requires Spreading(arcs, start, visited, [])
    ensures {start} + visited == ReachSet(arcs, start)
    ensures forall v :: v in visited <==> HopsTo(arcs, start, v)
  {
    var s := {start} + visited;
    forall v | v in s ensures Reaches(arcs, start, v) {
      if v in visited { HopsToReaches(arcs, start, v); } else { ReachesSelf(arcs, start); }
    }
    ReachSetUnique(arcs, start, s);
    forall v | HopsTo(arcs, start, v) ensures v in visited {
      var u :| Reaches(arcs, start, u) && (u, v) in arcs;
      ReachedInUniverse(arcs, start, u);
      assert u in s;
    }
  }

  /** The successors of the head are added; the head leaves the queue. */
  lemma Spread<V(!new)>(arcs: Arcs<V>, start: V, visited: set<V>, queue: seq<V>, more: seq<V>)
    requires Spreading(arcs, start, visited, queue) && queue != []
    requires forall v :: v in more ==> (queue[0], v) in arcs
    requires forall v :: (queue[0], v) in arcs ==> v in visited || v in more
    ensures Spreading(arcs, start, visited + Members(more), queue[1..] + more)
  {
    var id := queue[0];
    var w, q := visited + Members(more), queue[1..] + more;
    assert Reaches(arcs, start, id) by {
      assert id in queue;
      if id == start { ReachesSelf(arcs, start); } else { HopsToReaches(arcs, start, id); }
    }
    assert forall v :: v in q <==> v in queue[1..] || v in more;
    assert forall v :: v in queue <==> v == id || v in queue[1..];
  }

  function Nexts<V>(arcs: Arcs<V>, u: V): set<V> { set e | e in arcs && e.0 == u :: e.1 }

  /** What a reverse search promises: start comes first and is not marked as visited; found nodes
      come once; a search that stays below the limit is complete; the limit is tested once per
      expanded node only, so that the order may exceed it by one node's successors. */
  ghost predicate Reversal<V(!new)>(arcs: Arcs<V>, start: V, limit: int, order: seq<V>) {
    && order != [] && order[0] == start && NoDuplicates(order[1..])
    && (forall v :: v in order[1..] ==> HopsTo(arcs, start, v))
    && (|order| < limit ==> Members(order) == ReachSet(arcs, start))
    && (|order| == 1 || exists u :: |order| < limit + |Nexts(arcs, u)|)
    && (limit >= 2 ==> forall v :: v in Nexts(arcs, start) ==> v in order[1..])
  }

  lemma FreshSize<V(!new)>(arcs: Arcs<V>, id: V, more: seq<V>)
    requires NoDuplicates(more) && forall v :: v in more ==> (id, v) in arcs
    ensures |more| <= |Nexts(arcs, id)|
  {
    NoDuplicatesSize(more);
    forall v | v in Members(more) ensures v in Nexts(arcs, id) {
      assert (id, v) in arcs;
    }
    SubsetSize(Members(more), Nexts(arcs, id));
  }

  /** What holds each time the queue is tested. */
  ghost predicate Searching<V(!new)>(arcs: Arcs<V>, start: V, limit: int, found: seq<V>, queue: seq<V>) {
    && Spreading(arcs, start, Members(found), queue) && NoDuplicates(found)
    && (found == [] || exists u :: 1 + |found| < limit + |Nexts(arcs, u)|)
    && ((queue == [start] && found == []) || Nexts(arcs, start) <= Members(found))
  }

  lemma SearchOn<V(!new)>(arcs: Arcs<V>, start: V, limit: int, found: seq<V>, queue: seq<V>, more: seq<V>)
    requires Searching(arcs, start, limit, found, queue) && queue != [] && 1 + |found| < limit
    requires NoDuplicates(more) && forall v :: v in more <==> (queue[0], v) in arcs && v !in found
    ensures Searching(arcs, start, limit, found + more, queue[1..] + more)
    ensures Members(found + more) == Members(found) + Members(more)
  {
    var id := queue[0];
    JoinDistinct(found, more);
    Spread(arcs, start, Members(found), queue, more);
    FreshSize(arcs, id, more);
    assert 1 + |found + more| < limit + |Nexts(arcs, id)|;
    if queue == [start] {
      forall v | v in Nexts(arcs, start) ensures v in Members(found + more) { assert (start, v) in arcs; }
    }
  }

  lemma SearchEnds<V(!new)>(arcs: Arcs<V>, start: V, limit: int, found: seq<V>, queue: seq<V>)
    requires Searching(arcs, start, limit, found, queue) && (queue == [] || 1 + |found| >= limit)
    ensures queue == [] ==> Members([start] + found) == ReachSet(arcs, start)
    ensures queue == [] ==> (start in found <==> HopsTo(arcs, start, start))
    ensures Reversal(arcs, start, limit, [start] + found)
  {
    var order := [start] + found;
    assert order[1..] == found;
    if queue == [] {
      Drained(arcs, start, Members(found));
      assert Members(order) == {start} + Members(found);
    }
    forall v | v in found ensures HopsTo(arcs, start, v) { assert v in Members(found); }
    if limit >= 2 {
      forall v | v in Nexts(arcs, start) ensures v in found { assert v in Members(found); }
    }
  }

  /** start appears again when it lies on a cycle. */
  method ReverseWalk<V(==, !new)>(adj: Adjacency<V>, ghost arcs: Arcs<V>, start: V, limit: int)
    returns (order: seq<V>, ghost drained: bool)
    requires Represents(adj, arcs)
    ensures Reversal(arcs, start, limit, order)
    ensures |order| < limit ==> drained
    ensures drained ==> Members(order) == ReachSet(arcs, start)
    ensures drained ==> (start in order[1..] <==> HopsTo(arcs, start, start))
  {
    var visited: set<V> := {};
    var found: seq<V> := [];
    var queue := [start];
    ghost var all := Universe(arcs, start);
    UniverseHolds(arcs, start);
    while queue != [] && 1 + |found| < limit
      invariant Searching(arcs, start, limit, found, queue) && visited == Members(found)
      invariant forall v :: v in visited ==> v in all
      decreases all - visited, |queue|
    {
      var more := Fresh(Succs(adj, queue[0]), visited);
      SearchOn(arcs, start, limit, found, queue, more);
      if more == [] {
        assert visited + Members(more) == visited;
      } else {
        assert more[0] in more;
      }
      visited, found, queue := visited + Members(more), found + more, queue[1..] + more;
    }
    order := [start] + found;
    drained := queue == [];
    SearchEnds(arcs, start, limit, found, queue);
    assert order[1..] == found;
  }

  /** The successors not seen before, each once: what one pass of the inner loop appends. */
  method Fresh<V(==)>(nexts: seq<V>, visited: set<V>) returns (more: seq<V>)
    ensures forall v :: v in more <==> v in nexts && v !in visited
    ensures NoDuplicates(more) && |more| <= |nexts|
  {
    more := [];
    var seen := visited;
    for i := 0 to |nexts|
      invariant forall v :: v in more <==> v in nexts[..i] && v !in visited
      invariant seen == visited + Members(more)
      invariant NoDuplicates(more) && |more| <= i
    {
      assert nexts[..i + 1] == nexts[..i] + [nexts[i]];
      if nexts[i] !in seen {
        seen := seen + {nexts[i]};
        more := more + [nexts[i]];
      }
    }
    assert nexts[..|nexts|] == nexts;
  }

  // ----- When the limit is respected -----

  /** No node has two successors; for the upstream arcs, no node has two predecessors. */
  ghost predicate AtMostOneNext<V(!new)>(arcs: Arcs<V>) { forall u :: |Nexts(arcs, u)| <= 1 }

  ghost predicate LimitRespected<V(!new)>(arcs: Arcs<V>) {
    forall start, limit, order :: limit >= 1 && Reversal(arcs, start, limit, order) ==> |order| <= limit
  }

  /** With limit 2 the start and all its successors are listed. */
  lemma ListsAllNexts<V(!new)>(arcs: Arcs<V>, start: V, order: seq<V>)
    requires Reversal(arcs, start, 2, order)
    ensures |order| >= 1 + |Nexts(arcs, start)|
  {
    NoDuplicatesSize(order[1..]);
    SubsetSize(Nexts(arcs, start), Members(order[1..]));
  }

  lemma {:induction false} Listing<V(!new)>(s: set<V>) returns (r: seq<V>)
    ensures NoDuplicates(r) && Members(r) == s
    decreases s
  {
    if s == {} {
      r := [];
    } else {
      var x :| x in s;
      var t := Listing(s - {x});
      assert forall y :: y in t <==> y in Members(t);
      r := t + [x];
      assert Members(r) == Members(t) + {x};
    }
  }

  /** Some search with limit 2 from a node with two successors keeps the promise; it overshoots. */
  lemma OvershootExists<V(!new)>(arcs: Arcs<V>, start: V) returns (order: seq<V>)
    requires |Nexts(arcs, start)| >= 2
    ensures Reversal(arcs, start, 2, order) && |order| > 2
  {
    var r := Listing(Nexts(arcs, start));
    order := [start] + r;
    assert order[1..] == r;
    NoDuplicatesSize(r);
    assert forall v :: v in r <==> v in Members(r);
    ReachesSelf(arcs, start);
    forall v | v in r ensures HopsTo(arcs, start, v) {
      assert v in Nexts(arcs, start);
      assert (start, v) in arcs;
    }
    assert |order| < 2 + |Nexts(arcs, start)|;
  }

  /** Searches of a graph stay within every limit, from every start, exactly when no node has
      two successors. */
  lemma LimitExactly<V(!new)>(arcs: Arcs<V>)
    ensures LimitRespected(arcs) <==> AtMostOneNext(arcs)
  {
    if !AtMostOneNext(arcs) {
      var u :| |Nexts(arcs, u)| > 1;
      var order := OvershootExists(arcs, u);
    }
  }

  /** Five predecessors and limit 2: six nodes are listed. */
  lemma FiveForTwo(order: seq<int>)
    requires Reversal({(0, 1), (0, 2), (0, 3), (0, 4), (0, 5)}, 0, 2, order)
    ensures |order| == 6
  {
    var arcs, five := {(0, 1), (0, 2), (0, 3), (0, 4), (0, 5)}, [1, 2, 3, 4, 5];
    ListsAllNexts(arcs, 0, order);
    assert |Members(five)| == 5 by { NoDuplicatesSize(five); }
    forall v | v in Members(five) ensures v in Nexts(arcs, 0) { assert (0, v) in arcs; }
    SubsetSize(Members(five), Nexts(arcs, 0));
    forall u ensures |Nexts(arcs, u)| <= 5 {
      forall v | v in Nexts(arcs, u) ensures v in Members(five) {}
      SubsetSize(Nexts(arcs, u), Members(five));
    }
  }

  method QueryUpstream(g: MemoryStore, start: string, limit: int)
    returns (sg: Subgraph, ghost order: seq<string>, ghost drained: bool)
    requires Valid(g.Value())
    ensures sg.name == "upstream" && Induced(sg, g.Value(), Members(order))
    ensures Reversal(UpstreamArcs(g.edges), start, if limit <= 0 then 30 else limit, order)
    ensures forall v :: v in order ==> v in ReachSet(UpstreamArcs(g.edges), start)
    ensures |order| < (if limit <= 0 then 30 else limit) ==> drained
    ensures drained ==> Members(order) == ReachSet(UpstreamArcs(g.edges), start)
  {
    var rev := BuildReverse(g, UpstreamEdge);
    ghost var arcs := UpstreamArcs(g.edges);
    var o;
    o, drained := ReverseWalk(rev, arcs, start, if limit <= 0 then 30 else limit);
    order := o;
    forall v | v in order ensures v in ReachSet(arcs, start) {
      if v in order[1..] { HopsToReaches(arcs, start, v); } else { ReachesSelf(arcs, start); }
      ReachedInUniverse(arcs, start, v);
    }
    sg := SubgraphFromNodes(g, o, "upstream");
  }

  method QueryDownstream(g: MemoryStore, start: string, limit: int) returns (sg: Subgraph, ghost order: seq<string>)
    requires Valid(g.Value())
    ensures Induced(sg, g.Value(), Members(order))
    ensures Covers(DownstreamArcs(g.edges), start, if limit <= 0 then 30 else limit, order)
    ensures NearestFirst(DownstreamArcs(g.edges), start, order)
  {
    sg, order := Traverse(g, start, Causal, if limit <= 0 then 30 else limit);
  }

  /** Whatever is found downstream of u finds u upstream, if the upstream search was not cut off. */
  lemma DownstreamThenUpstream(edges: map<string, GraphEdge>, u: string, v: string, limit: nat, down: seq<string>,
                               up: seq<string>)
    requires Covers(DownstreamArcs(edges), u, limit, down) && v in down
    requires Members(up) == ReachSet(UpstreamArcs(edges), v)
    ensures u in up
  {
    var big := StoredArcs(edges, UpstreamEdge);
    assert v in ReachSet(DownstreamArcs(edges), u);
    ReachesMonotone(DownstreamArcs(edges), big, u, v);
    ReachesReversed(big, u, v);
    ReachedInUniverse(UpstreamArcs(edges), v, u);
  }

  /** Where the relations are converses and nothing is cut off, so are the query results. */
  lemma ExactConverses(edges: map<string, GraphEdge>, u: string, v: string, limit: nat, down: seq<string>,
                       up: seq<string>)
    requires DependenciesCausal(edges)
    requires Covers(DownstreamArcs(edges), u, limit, down) && |ReachSet(DownstreamArcs(edges), u)| <= limit
    requires Members(up) == ReachSet(UpstreamArcs(edges), v)
    ensures v in down <==> u in up
  {
    NoDuplicatesSize(down);
    SameSizeSubset(Members(down), ReachSet(DownstreamArcs(edges), u));
    ConverseAt(edges, u, v);
    assert v in down <==> v in Members(down);
    assert u in up <==> u in Members(up);
  }

  ghost predicate Converses(edges: map<string, GraphEdge>) {
    forall u, v :: u in ReachSet(UpstreamArcs(edges), v) <==> v in ReachSet(DownstreamArcs(edges), u)
  }

  /** Every depends_on edge shortens a causal walk. */
  ghost predicate DependenciesCausal(edges: map<string, GraphEdge>) {
    forall k :: k in edges && edges[k].etype == DependsOn ==> Reaches(DownstreamArcs(edges), edges[k].from, edges[k].to)
  }

  lemma InReachSet(arcs: Arcs<string>, a: string, b: string)
    ensures b in ReachSet(arcs, a) <==> Reaches(arcs, a, b)
  {
    if Reaches(arcs, a, b) { ReachedInUniverse(arcs, a, b); }
  }

  lemma UpstreamReaches(edges: map<string, GraphEdge>, u: string, v: string)
    ensures u in ReachSet(UpstreamArcs(edges), v) <==> Reaches(StoredArcs(edges, UpstreamEdge), u, v)
  {
    InReachSet(UpstreamArcs(edges), v, u);
    ReachesReversed(StoredArcs(edges, UpstreamEdge), u, v);
  }

  lemma BigArcs(edges: map<string, GraphEdge>)
    requires DependenciesCausal(edges)
    ensures forall u, v {:trigger (u, v) in StoredArcs(edges, UpstreamEdge)} ::
      (u, v) in StoredArcs(edges, UpstreamEdge) ==> Reaches(DownstreamArcs(edges), u, v)
  {
    var small, big := DownstreamArcs(edges), StoredArcs(edges, UpstreamEdge);
    forall u, v {:trigger (u, v) in big} | (u, v) in big ensures Reaches(small, u, v) {
      var k :| k in edges && UpstreamEdge(edges[k].etype) && (edges[k].from, edges[k].to) == (u, v);
      if edges[k].etype != DependsOn {
        assert (edges[k].from, edges[k].to) in small;
        ReachesSelf(small, u);
        ReachesStep(small, u, u, v);
      }
    }
  }

  lemma ConverseAt(edges: map<string, GraphEdge>, u: string, v: string)
    requires DependenciesCausal(edges)
    ensures u in ReachSet(UpstreamArcs(edges), v) <==> v in ReachSet(DownstreamArcs(edges), u)
  {
    var small, big := DownstreamArcs(edges), StoredArcs(edges, UpstreamEdge);
    UpstreamReaches(edges, u, v);
    InReachSet(small, u, v);
    BigArcs(edges);
    if Reaches(big, u, v) { ReachesByDetours(small, big, u, v); }
    if Reaches(small, u, v) { ReachesMonotone(small, big, u, v); }
  }

  /** Upstream and downstream are converses for all pairs exactly when the target of every
      depends_on edge is causally reachable from its source. */
  lemma ConversesExactly(edges: map<string, GraphEdge>)
    ensures Converses(edges) <==> DependenciesCausal(edges)
  {
    if DependenciesCausal(edges) {
      forall u, v ensures u in ReachSet(UpstreamArcs(edges), v) <==> v in ReachSet(DownstreamArcs(edges), u) {
        ConverseAt(edges, u, v);
      }
    }
    if Converses(edges) {
      var big := StoredArcs(edges, UpstreamEdge);
      forall k | k in edges && edges[k].etype == DependsOn
        ensures Reaches(DownstreamArcs(edges), edges[k].from, edges[k].to) {
        var u, v := edges[k].from, edges[k].to;
        assert (edges[k].from, edges[k].to) in big;
        ReachesSelf(big, u);
        ReachesStep(big, u, u, v);
        UpstreamReaches(edges, u, v);
        InReachSet(DownstreamArcs(edges), u, v);
      }
    }
  }

  /** With a depends_on edge the converse fails: the upstream query crosses it, the
      downstream query does not. */
  lemma DependsOnBreaksConverse(u: string, v: string, k: string, conf: real)
    requires u != v
    ensures var edges := map[k := GraphEdge(k, u, v, DependsOn, conf, false)];
            u in ReachSet(UpstreamArcs(edges), v) && v !in ReachSet(DownstreamArcs(edges), u)
  {
    var edges := map[k := GraphEdge(k, u, v, DependsOn, conf, false)];
    assert (edges[k].from, edges[k].to) in StoredArcs(edges, UpstreamEdge);
    assert (u, v) in StoredArcs(edges, UpstreamEdge);
    assert (v, u) in UpstreamArcs(edges);
    ReachesSelf(UpstreamArcs(edges), v);
    ReachesStep(UpstreamArcs(edges), v, v, u);
    ReachedInUniverse(UpstreamArcs(edges), v, u);
    assert DownstreamArcs(edges) == {};
    if Reaches(DownstreamArcs(edges), u, v) {
      ClosedContains(DownstreamArcs(edges), {u}, u, v);
    }
  }
}
