/** Walks over the stored graph: adjacency, shortest path by breadth-first search,
    bounded breadth-first and depth-first traversal, and induced subgraphs. */
module Traversal {
  import opened Sorting
  import opened Walks
  import opened Store

  datatype Mode = Bfs | Dfs | Causal | Timeline

  predicate CausalEdge(t: EdgeType) { t == Causes || t == LikelyCaused || t == Triggered }

  predicate TemporalEdge(t: EdgeType) { t == OccurredBefore || t == OccurredAfter }

  /** The edge types a traversal mode follows. */
  predicate Follows(mode: Mode, t: EdgeType) {
    && (mode.Causal? ==> CausalEdge(t))
    && (mode.Timeline? ==> TemporalEdge(t))
  }

  type Adjacency<V(==)> = map<V, seq<V>>

  function Succs<V(==)>(adj: Adjacency<V>, a: V): seq<V> { if a in adj then adj[a] else [] }

  ghost predicate Represents<V(!new)>(adj: Adjacency<V>, arcs: Arcs<V>) {
    forall a, b :: b in Succs(adj, a) <==> (a, b) in arcs
  }

  /** The arcs of the stored edges whose type satisfies keep. */
  function StoredArcs(edges: map<string, GraphEdge>, keep: EdgeType -> bool): Arcs<string> {
    set k | k in edges && keep(edges[k].etype) :: (edges[k].from, edges[k].to)
  }

  function ListedArcs(es: seq<GraphEdge>, keep: EdgeType -> bool): Arcs<string> {
    set e | e in es && keep(e.etype) :: (e.from, e.to)
  }

  lemma ListedAreStored(es: seq<GraphEdge>, edges: map<string, GraphEdge>, keep: EdgeType -> bool)
    requires ListsEdges(es, edges) && forall k :: k in edges ==> edges[k].id == k
    ensures ListedArcs(es, keep) == StoredArcs(edges, keep)
  {
    forall a | a in ListedArcs(es, keep) ensures a in StoredArcs(edges, keep) {
      var e :| e in es && keep(e.etype) && (e.from, e.to) == a;
      assert e.id in edges;
    }
    forall a | a in StoredArcs(edges, keep) ensures a in ListedArcs(es, keep) {
      var k :| k in edges && keep(edges[k].etype) && (edges[k].from, edges[k].to) == a;
      assert edges[k] in es;
    }
  }

  method BuildAdjacency(g: MemoryStore, keep: EdgeType -> bool) returns (adj: Adjacency<string>)
    requires Valid(g.Value())
    ensures Represents(adj, StoredArcs(g.edges, keep))
  {
    var es := g.AllEdges();
    adj := map[];
    for i := 0 to |es|
      invariant Represents(adj, ListedArcs(es[..i], keep))
    {
      var e := es[i];
      assert es[..i + 1] == es[..i] + [e];
      if keep(e.etype) {
        adj := adj[e.from := Succs(adj, e.from) + [e.to]];
      }
    }
    assert es[..|es|] == es;
    ListedAreStored(es, g.edges, keep);
  }

  // ----- Shortest path -----

  /** What breadth-first search knows about the distances found so far: every discovered
      node is done, being expanded (busy, at distance lo) or waiting in the queue, which
      is sorted by distance and holds nodes at distance lo or lo + 1 only; the successors
      of done nodes are discovered. */
  ghost predicate Layered<V(!new)>(arcs: Arcs<V>, from: V, dist: map<V, nat>, done: set<V>, busy: set<V>,
                                   queue: seq<V>, lo: nat)
  {
    && from in dist && dist[from] == 0
    && done <= dist.Keys
    && (forall v :: v in dist ==> v in done || v in busy || v in queue)
    && (forall v :: v in busy ==> v in dist && dist[v] == lo && v !in done)
    && (forall v :: v in queue ==> v in dist && v !in done && v !in busy && lo <= dist[v] <= lo + 1)
    && (forall u, v {:trigger (u, v) in arcs} :: u in done && (u, v) in arcs ==> v in dist)
    && (forall i, j :: 0 <= i < j < |queue| ==> queue[i] != queue[j] && dist[queue[i]] <= dist[queue[j]])
  }

  /** No walk is shorter than the distance found, and parent links descend along arcs. */
  ghost predicate Exact<V(!new)>(arcs: Arcs<V>, from: V, dist: map<V, nat>, parent: map<V, V>) {
    && (forall v, p :: v in dist && Joins(arcs, p, from, v) ==> |p| >= dist[v] + 1)
    && (forall v :: v in dist && v != from ==> v in parent)
    && (forall v {:trigger parent[v]} :: v in parent ==>
          v in dist && parent[v] in dist && (parent[v], v) in arcs && dist[parent[v]] + 1 == dist[v])
  }

  /** The head of the queue is taken out to be expanded. */
  lemma TakeHead<V(!new)>(arcs: Arcs<V>, from: V, dist: map<V, nat>, done: set<V>, queue: seq<V>, lo: nat)
    requires Layered(arcs, from, dist, done, {}, queue, lo) && queue != []
    ensures queue[0] in dist && queue[0] !in done
    ensures Layered(arcs, from, dist, done, {queue[0]}, queue[1..], dist[queue[0]])
  {
    var rest := queue[1..];
    assert queue[0] in queue;
    assert forall v :: v in queue <==> v == queue[0] || v in rest;
    forall v | v in rest ensures v != queue[0] && dist[queue[0]] <= dist[v] {
      var k :| 0 <= k < |rest| && rest[k] == v;
      assert queue[k + 1] == v;
    }
  }

  /** An undiscovered node is at least one layer beyond the node being expanded. */
  lemma UndiscoveredIsFar<V(!new)>(arcs: Arcs<V>, from: V, dist: map<V, nat>, parent: map<V, V>, done: set<V>,
                          busy: set<V>, queue: seq<V>, lo: nat, v: V)
    requires Layered(arcs, from, dist, done, busy, queue, lo) && Exact(arcs, from, dist, parent)
    requires v !in dist
    ensures forall p :: Joins(arcs, p, from, v) ==> |p| >= lo + 2
  {
    forall p | Joins(arcs, p, from, v) ensures |p| >= lo + 2 {
      var i := FirstExit(arcs, p, dist.Keys, from, v);
      Prefix(arcs, p, from, v, i);
    }
  }

  /** A newly discovered node joins the back of the queue. */
  lemma DiscoverLayer<V(!new)>(arcs: Arcs<V>, from: V, dist: map<V, nat>, done: set<V>, cur: V,
                               queue: seq<V>, next: V)
    requires cur in dist && Layered(arcs, from, dist, done, {cur}, queue, dist[cur])
    requires next !in dist && (cur, next) in arcs
    ensures Layered(arcs, from, dist[next := dist[cur] + 1], done, {cur}, queue + [next], dist[cur])
  {
    var d := dist[next := dist[cur] + 1];
    var q := queue + [next];
    assert forall v :: v in q <==> v in queue || v == next;
    forall i, j | 0 <= i < j < |q| ensures q[i] != q[j] && d[q[i]] <= d[q[j]] {
      assert q[i] == queue[i] && queue[i] in queue;
      assert j < |queue| ==> q[j] == queue[j] && queue[j] in queue;
    }
  }

  lemma DiscoverExact<V(!new)>(arcs: Arcs<V>, from: V, dist: map<V, nat>, parent: map<V, V>, cur: V, next: V)
    requires cur in dist && Exact(arcs, from, dist, parent)
    requires next !in dist && (cur, next) in arcs
    requires forall p :: Joins(arcs, p, from, next) ==> |p| >= dist[cur] + 2
    ensures Exact(arcs, from, dist[next := dist[cur] + 1], parent[next := cur])
  {
  }

  /** The node being expanded is done once its successors are discovered. */
  lemma Finish<V(!new)>(arcs: Arcs<V>, from: V, dist: map<V, nat>, done: set<V>, cur: V, queue: seq<V>)
    requires cur in dist && Layered(arcs, from, dist, done, {cur}, queue, dist[cur])
    requires forall v :: (cur, v) in arcs ==> v in dist
    ensures Layered(arcs, from, dist, done + {cur}, {}, queue, dist[cur])
  {
  }

  lemma ExhaustedIsUnreachable<V(!new)>(arcs: Arcs<V>, from: V, dist: map<V, nat>, done: set<V>, lo: nat, to: V)
    requires Layered(arcs, from, dist, done, {}, [], lo) && to !in dist
    ensures !Reaches(arcs, from, to)
  {
    assert dist.Keys == done;
    if Reaches(arcs, from, to) {
      ClosedContains(arcs, done, from, to);
    }
  }

  /** Follows the parent links back from the target. */
  method Rebuild<V(==, !new)>(ghost arcs: Arcs<V>, from: V, to: V, ghost dist: map<V, nat>, parent: map<V, V>)
    returns (path: seq<V>)
    requires Exact(arcs, from, dist, parent) && from in dist && dist[from] == 0 && to in dist
    ensures Joins(arcs, path, from, to) && Distance(arcs, from, to, |path| - 1)
  {
    path := [to];
    var cur := to;
    while cur != from
      invariant cur in dist
      invariant Joins(arcs, path, cur, to) && |path| == dist[to] - dist[cur] + 1
      decreases dist[cur]
    {
      cur := parent[cur];
      path := [cur] + path;
    }
  }

  /** The successors of the node being expanded are offered to the search one by one;
      the first that is the target ends it. */
  method Offer<V(==, !new)>(nexts: seq<V>, ghost arcs: Arcs<V>, from: V, cur: V, to: V, visited: set<V>,
                            parent: map<V, V>, queue: seq<V>, ghost dist: map<V, nat>, ghost done: set<V>)
    returns (visited': set<V>, parent': map<V, V>, queue': seq<V>, found: bool, ghost dist': map<V, nat>)
    requires visited == dist.Keys && cur in dist && to !in dist
    requires forall v :: v in nexts ==> (cur, v) in arcs
    requires Layered(arcs, from, dist, done, {cur}, queue, dist[cur]) && Exact(arcs, from, dist, parent)
    ensures visited' == dist'.Keys && dist'.Keys <= dist.Keys + Members(nexts)
    ensures cur in dist' && dist'[cur] == dist[cur] && from in dist' && dist'[from] == 0
    ensures Exact(arcs, from, dist', parent') && (found <==> to in dist')
    ensures Layered(arcs, from, dist', done, {cur}, queue', dist[cur])
    ensures !found ==> forall v :: v in nexts ==> v in dist'
  {
    visited', parent', queue', found, dist' := visited, parent, queue, false, dist;
    for i := 0 to |nexts|
      invariant visited' == dist'.Keys && dist'.Keys <= dist.Keys + Members(nexts)
      invariant cur in dist' && dist'[cur] == dist[cur] && to !in dist' && !found
      invariant Exact(arcs, from, dist', parent')
      invariant Layered(arcs, from, dist', done, {cur}, queue', dist[cur])
      invariant forall k :: 0 <= k < i ==> nexts[k] in dist'
    {
      var next := nexts[i];
      if next in visited' {
        continue;
      }
      assert next in nexts;
      UndiscoveredIsFar(arcs, from, dist', parent', done, {cur}, queue', dist[cur], next);
      DiscoverLayer(arcs, from, dist', done, cur, queue', next);
      DiscoverExact(arcs, from, dist', parent', cur, next);
      visited' := visited' + {next};
      parent' := parent'[next := cur];
      dist' := dist'[next := dist'[cur] + 1];
      queue' := queue' + [next];
      if next == to {
        found := true;
        break;
      }
    }
  }

  method Search<V(==, !new)>(adj: Adjacency<V>, ghost arcs: Arcs<V>, from: V, to: V) returns (found: bool, path: seq<V>)
    requires Represents(adj, arcs) && from != to
    ensures found <==> Reaches(arcs, from, to)
    ensures found ==> Joins(arcs, path, from, to) && Distance(arcs, from, to, |path| - 1)
    ensures !found ==> path == []
  {
    var parent: map<V, V> := map[];
    var visited := {from};
    var queue := [from];
    found := false;
    ghost var dist: map<V, nat> := map[from := 0];
    ghost var done: set<V> := {};
    ghost var lo := 0;
    ghost var all := Universe(arcs, from);
    UniverseHolds(arcs, from);
    while queue != [] && !found
      invariant visited == dist.Keys <= all
      invariant from in dist && dist[from] == 0
      invariant Exact(arcs, from, dist, parent) && (found <==> to in dist)
      invariant !found ==> Layered(arcs, from, dist, done, {}, queue, lo)
      decreases all - done, !found
    {
      var cur := queue[0];
      TakeHead(arcs, from, dist, done, queue, lo);
      visited, parent, queue, found, dist :=
        Offer(Succs(adj, cur), arcs, from, cur, to, visited, parent, queue[1..], dist, done);
      if !found {
        Finish(arcs, from, dist, done, cur, queue);
        assert cur in all - done;
        done, lo := done + {cur}, dist[cur];
      }
    }
    if !found {
      ExhaustedIsUnreachable(arcs, from, dist, done, lo, to);
      return false, [];
    }
    path := Rebuild(arcs, from, to, dist, parent);
  }

  // ----- Bounded traversal -----

  /** The queue may hold a node several times, each entry with the length of the walk that
      put it there; entries are sorted by length and span at most one layer. */
  ghost predicate Entries<V(!new)>(arcs: Arcs<V>, start: V, queue: seq<V>, depths: seq<nat>) {
    && |queue| == |depths|
    && (forall i, j :: 0 <= i < j < |depths| ==> depths[i] <= depths[j] <= depths[i] + 1)
    && (forall i :: 0 <= i < |queue| ==> Reached(arcs, start, queue[i], depths[i]))
  }

  ghost predicate Reached<V(!new)>(arcs: Arcs<V>, start: V, v: V, d: nat) {
    exists p :: Joins(arcs, p, start, v) && |p| == d + 1
  }

  /** Listed nodes have their distances, none beyond any entry of the queue. */
  ghost predicate Settled<V(!new)>(arcs: Arcs<V>, start: V, dist: map<V, nat>, depths: seq<nat>) {
    forall v :: v in dist ==>
      Distance(arcs, start, v, dist[v]) && (forall i :: 0 <= i < |depths| ==> dist[v] <= depths[i])
  }

  ghost predicate Waiting<V(!new)>(queue: seq<V>, depths: seq<nat>, v: V, d: nat) {
    exists i :: 0 <= i < |queue| && i < |depths| && queue[i] == v && depths[i] <= d
  }

  /** A successor of a listed node is listed or waits in the queue. */
  ghost predicate Promised<V(!new)>(arcs: Arcs<V>, dist: map<V, nat>, queue: seq<V>, depths: seq<nat>) {
    forall u, v {:trigger (u, v) in arcs} :: u in dist && (u, v) in arcs ==>
      v in dist || Waiting(queue, depths, v, dist[u] + 1)
  }

  /** A breadth-first order under way. */
  ghost predicate Queued<V(!new)>(arcs: Arcs<V>, start: V, dist: map<V, nat>, queue: seq<V>, depths: seq<nat>) {
    && (start in dist || (queue == [start] && depths == [0] && dist == map[]))
    && Entries(arcs, start, queue, depths)
    && Settled(arcs, start, dist, depths)
    && Promised(arcs, dist, queue, depths)
  }

  /** Every walk to a node not yet listed is at least as long as the head entry of the queue. */
  lemma UnlistedIsFar<V(!new)>(arcs: Arcs<V>, start: V, dist: map<V, nat>, queue: seq<V>, depths: seq<nat>, v: V,
                               p: seq<V>)
    requires Queued(arcs, start, dist, queue, depths) && v !in dist && Joins(arcs, p, start, v)
    ensures queue != [] && |p| >= depths[0] + 1
  {
    if start in dist {
      var i := FirstExit(arcs, p, dist.Keys, start, v);
      Prefix(arcs, p, start, v, i);
      assert dist[p[i]] <= i;
      assert Waiting(queue, depths, p[i + 1], dist[p[i]] + 1);
      var k :| 0 <= k < |queue| && queue[k] == p[i + 1] && depths[k] <= dist[p[i]] + 1;
      assert depths[0] <= depths[k];
    }
  }

  lemma WaitingTail<V(!new)>(queue: seq<V>, depths: seq<nat>, v: V, d: nat)
    requires Waiting(queue, depths, v, d) && |queue| == |depths| && queue[0] != v
    ensures Waiting(queue[1..], depths[1..], v, d)
  {
    var i :| 0 <= i < |queue| && queue[i] == v && depths[i] <= d;
    assert queue[1..][i - 1] == v && depths[1..][i - 1] == depths[i];
  }

  lemma WaitingMore<V(!new)>(queue: seq<V>, depths: seq<nat>, more: seq<V>, far: seq<nat>, v: V, d: nat)
    requires Waiting(queue, depths, v, d) && |queue| == |depths| && |more| == |far|
    ensures Waiting(queue + more, depths + far, v, d)
  {
    var i :| 0 <= i < |queue| && queue[i] == v && depths[i] <= d;
    assert (queue + more)[i] == v && (depths + far)[i] == depths[i];
  }

  /** An entry for a node that is already listed is discarded. */
  lemma Drop<V(!new)>(arcs: Arcs<V>, start: V, dist: map<V, nat>, queue: seq<V>, depths: seq<nat>)
    requires Queued(arcs, start, dist, queue, depths) && queue != [] && queue[0] in dist
    ensures Queued(arcs, start, dist, queue[1..], depths[1..])
  {
    forall u, v | u in dist && (u, v) in arcs && v !in dist
      ensures Waiting(queue[1..], depths[1..], v, dist[u] + 1)
    {
      WaitingTail(queue, depths, v, dist[u] + 1);
    }
  }

  /** Listing the head of the queue gives it its distance. */
  lemma ListHead<V(!new)>(arcs: Arcs<V>, start: V, dist: map<V, nat>, queue: seq<V>, depths: seq<nat>)
    requires Queued(arcs, start, dist, queue, depths) && queue != [] && queue[0] !in dist
    ensures Distance(arcs, start, queue[0], depths[0])
    ensures forall v, d :: v !in dist && Distance(arcs, start, v, d) ==> depths[0] <= d
  {
    forall p | Joins(arcs, p, start, queue[0]) ensures |p| >= depths[0] + 1 {
      UnlistedIsFar(arcs, start, dist, queue, depths, queue[0], p);
    }
    forall v, d | v !in dist && Distance(arcs, start, v, d) ensures depths[0] <= d {
      var p :| Joins(arcs, p, start, v) && |p| == d + 1;
      UnlistedIsFar(arcs, start, dist, queue, depths, v, p);
    }
  }

  /** The head is listed and its unlisted successors join the queue one layer further out. */
  lemma Enqueue<V(!new)>(arcs: Arcs<V>, start: V, dist: map<V, nat>, queue: seq<V>, depths: seq<nat>,
                         more: seq<V>, far: seq<nat>)
    requires Queued(arcs, start, dist, queue, depths) && queue != [] && queue[0] !in dist
    requires forall v :: (queue[0], v) in arcs ==> v in dist || v == queue[0] || v in more
    requires forall v :: v in more ==> (queue[0], v) in arcs
    requires |far| == |more| && forall i :: 0 <= i < |far| ==> far[i] == depths[0] + 1
    ensures Queued(arcs, start, dist[queue[0] := depths[0]], queue[1..] + more, depths[1..] + far)
  {
    EnqueueSettled(arcs, start, dist, queue, depths, far);
    EnqueueEntries(arcs, start, queue, depths, more, far);
    EnqueuePromised(arcs, dist, queue, depths, more, far);
  }

  lemma EnqueueSettled<V(!new)>(arcs: Arcs<V>, start: V, dist: map<V, nat>, queue: seq<V>, depths: seq<nat>,
                                far: seq<nat>)
    requires Queued(arcs, start, dist, queue, depths) && queue != [] && queue[0] !in dist
    requires forall i :: 0 <= i < |far| ==> far[i] == depths[0] + 1
    ensures Settled(arcs, start, dist[queue[0] := depths[0]], depths[1..] + far)
    ensures start in dist[queue[0] := depths[0]]
  {
    ListHead(arcs, start, dist, queue, depths);
    var e := depths[1..] + far;
    forall i | 0 <= i < |e| ensures depths[0] <= e[i] {
      if i < |depths| - 1 { assert e[i] == depths[i + 1]; }
    }
  }

  lemma EnqueuePromised<V(!new)>(arcs: Arcs<V>, dist: map<V, nat>, queue: seq<V>, depths: seq<nat>,
                                 more: seq<V>, far: seq<nat>)
    requires |queue| == |depths| && Promised(arcs, dist, queue, depths) && queue != [] && queue[0] !in dist
    requires forall v :: (queue[0], v) in arcs ==> v in dist || v == queue[0] || v in more
    requires |far| == |more| && forall i :: 0 <= i < |far| ==> far[i] == depths[0] + 1
    ensures Promised(arcs, dist[queue[0] := depths[0]], queue[1..] + more, depths[1..] + far)
  {
    var d := dist[queue[0] := depths[0]];
    var q, e := queue[1..] + more, depths[1..] + far;
    forall u, v | u in d && (u, v) in arcs && v !in d ensures Waiting(q, e, v, d[u] + 1) {
      if u == queue[0] {
        var k :| 0 <= k < |more| && more[k] == v;
        assert q[|queue| - 1 + k] == v && e[|queue| - 1 + k] == far[k];
      } else {
        WaitingTail(queue, depths, v, dist[u] + 1);
        WaitingMore(queue[1..], depths[1..], more, far, v, dist[u] + 1);
      }
    }
  }

  lemma EnqueueEntries<V(!new)>(arcs: Arcs<V>, start: V, queue: seq<V>, depths: seq<nat>, more: seq<V>, far: seq<nat>)
    requires Entries(arcs, start, queue, depths) && queue != []
    requires forall v :: v in more ==> (queue[0], v) in arcs
    requires |far| == |more| && forall i :: 0 <= i < |far| ==> far[i] == depths[0] + 1
    ensures Entries(arcs, start, queue[1..] + more, depths[1..] + far)
  {
    var n := |queue| - 1;
    var q, e := queue[1..] + more, depths[1..] + far;
    forall i | 0 <= i < |q| ensures Reached(arcs, start, q[i], e[i]) && depths[0] <= e[i] <= depths[0] + 1 {
      if i < n {
        assert q[i] == queue[i + 1] && e[i] == depths[i + 1];
      } else {
        assert q[i] == more[i - n] && e[i] == far[i - n] && more[i - n] in more;
        var p :| Joins(arcs, p, start, queue[0]) && |p| == depths[0] + 1;
        Extend(arcs, p, start, queue[0], q[i]);
      }
    }
    forall i, j | 0 <= i < j < |e| ensures e[i] <= e[j] <= e[i] + 1 {
      assert j < n ==> e[i] == depths[i + 1] && e[j] == depths[j + 1];
    }
  }

  /** What a bounded traversal lists: distinct reachable nodes, all of them or limit many. */
  ghost predicate Covers<V(!new)>(arcs: Arcs<V>, start: V, limit: nat, order: seq<V>) {
    && NoDuplicates(order)
    && Members(order) <= ReachSet(arcs, start)
    && |order| == if |ReachSet(arcs, start)| <= limit then |ReachSet(arcs, start)| else limit
  }

  /** Listed in nondecreasing distance, and nothing left out is nearer than anything listed. */
  ghost predicate NearestFirst<V(!new)>(arcs: Arcs<V>, start: V, order: seq<V>) {
    && (forall i, j, d: nat, e: nat | 0 <= i < j < |order| ::
          Distance(arcs, start, order[i], d) && Distance(arcs, start, order[j], e) ==> d <= e)
    && (forall i, v, d: nat, e: nat | 0 <= i < |order| && v !in order ::
          Distance(arcs, start, order[i], d) && Distance(arcs, start, v, e) ==> d <= e)
  }

  /** The same without counting: stopped by the limit, or nothing left to list. */
  ghost predicate Stopped<V(!new)>(arcs: Arcs<V>, start: V, limit: nat, order: seq<V>) {
    && NoDuplicates(order) && |order| <= limit && start in order
    && (forall v :: v in order ==> Reaches(arcs, start, v))
    && (|order| == limit || Closed(arcs, Members(order)))
  }

  lemma StoppedCovers<V(!new)>(arcs: Arcs<V>, start: V, limit: nat, order: seq<V>)
    requires Stopped(arcs, start, limit, order)
    ensures Covers(arcs, start, limit, order)
  {
    forall v | v in order ensures v in ReachSet(arcs, start) { ReachedInUniverse(arcs, start, v); }
    NoDuplicatesSize(order);
    SubsetSize(Members(order), ReachSet(arcs, start));
    if Closed(arcs, Members(order)) { ReachSetUnique(arcs, start, Members(order)); }
  }

  lemma SubsetSize<V>(a: set<V>, b: set<V>)
    requires a <= b
    ensures |a| <= |b|
  {
    assert b == a + (b - a);
  }

  method Unlisted<V(==)>(nexts: seq<V>, visited: set<V>) returns (more: seq<V>)
    ensures forall v :: v in more <==> v in nexts && v !in visited
  {
    more := [];
    for i := 0 to |nexts|
      invariant forall v :: v in more <==> v in nexts[..i] && v !in visited
    {
      assert nexts[..i + 1] == nexts[..i] + [nexts[i]];
      if nexts[i] !in visited {
        more := more + [nexts[i]];
      }
    }
    assert nexts[..|nexts|] == nexts;
  }

  /** One turn of the loop: the head of the queue is discarded if it is listed, and
      otherwise listed and replaced by its unlisted successors at the back. */
  method TakeNext<V(==, !new)>(adj: Adjacency<V>, ghost arcs: Arcs<V>, start: V, visited: set<V>, order: seq<V>,
                               queue: seq<V>, ghost dist: map<V, nat>, ghost depths: seq<nat>)
    returns (visited': set<V>, order': seq<V>, queue': seq<V>, ghost dist': map<V, nat>, ghost depths': seq<nat>)
    requires Represents(adj, arcs) && visited == dist.Keys && queue != []
    requires Queued(arcs, start, dist, queue, depths) && Ranked(dist, order)
    ensures Queued(arcs, start, dist', queue', depths') && Ranked(dist', order')
    ensures visited' == dist'.Keys == visited + {queue[0]}
    ensures queue[0] in visited ==> order' == order && |queue'| < |queue|
    ensures queue[0] !in visited ==> order' == order + [queue[0]]
    ensures forall v :: v in queue' ==> v in queue || (queue[0], v) in arcs
  {
    var id := queue[0];
    if id in visited {
      Drop(arcs, start, dist, queue, depths);
      return visited, order, queue[1..], dist, depths[1..];
    }
    var more := Unlisted(Succs(adj, id), visited + {id});
    ghost var far := seq(|more|, _ => depths[0] + 1);
    Enqueue(arcs, start, dist, queue, depths, more, far);
    Listed(arcs, start, dist, queue, depths, order);
    visited', order', queue' := visited + {id}, order + [id], queue[1..] + more;
    dist', depths' := dist[id := depths[0]], depths[1..] + far;
  }

  method BreadthFirst<V(==, !new)>(adj: Adjacency<V>, ghost arcs: Arcs<V>, start: V, limit: nat) returns (order: seq<V>)
    requires Represents(adj, arcs) && limit > 0
    ensures Stopped(arcs, start, limit, order) && NearestFirst(arcs, start, order)
  {
    var visited: set<V> := {};
    var queue := [start];
    order := [];
    ghost var dist: map<V, nat> := map[];
    ghost var depths: seq<nat> := [0];
    assert Joins(arcs, [start], start, start);
    ghost var all := Universe(arcs, start);
    UniverseHolds(arcs, start);
    while queue != [] && |order| < limit
      invariant Queued(arcs, start, dist, queue, depths) && Ranked(dist, order)
      invariant visited == dist.Keys <= all && |order| <= limit
      invariant forall v :: v in queue ==> v in all
      decreases all - visited, |queue|
    {
      visited, order, queue, dist, depths := TakeNext(adj, arcs, start, visited, order, queue, dist, depths);
    }
    FinishStopped(arcs, start, limit, dist, queue, depths, order);
    FinishNearest(arcs, start, dist, queue, depths, order);
  }

  /** The listed nodes, each once, sorted by distance. */
  ghost predicate Ranked<V(!new)>(dist: map<V, nat>, order: seq<V>) {
    && dist.Keys == Members(order) && NoDuplicates(order)
    && forall i, j :: 0 <= i < j < |order| ==> dist[order[i]] <= dist[order[j]]
  }

  lemma Listed<V(!new)>(arcs: Arcs<V>, start: V, dist: map<V, nat>, queue: seq<V>, depths: seq<nat>, order: seq<V>)
    requires Queued(arcs, start, dist, queue, depths) && queue != [] && queue[0] !in dist
    requires Ranked(dist, order)
    ensures Ranked(dist[queue[0] := depths[0]], order + [queue[0]])
  {
    var d, o := dist[queue[0] := depths[0]], order + [queue[0]];
    assert Members(o) == Members(order) + {queue[0]};
    forall i, j | 0 <= i < j < |o| ensures o[i] != o[j] && d[o[i]] <= d[o[j]] {
      assert order[i] in dist;
      assert j < |order| ==> order[j] in dist;
    }
  }

  lemma FinishStopped<V(!new)>(arcs: Arcs<V>, start: V, limit: nat, dist: map<V, nat>, queue: seq<V>, depths: seq<nat>,
                              order: seq<V>)
    requires Queued(arcs, start, dist, queue, depths) && Ranked(dist, order)
    requires 0 < limit && |order| <= limit && (queue == [] || |order| == limit)
    ensures Stopped(arcs, start, limit, order)
  {
    forall v | v in order ensures Reaches(arcs, start, v) {
      assert v in dist;
    }
    assert order != [] ==> order[0] in dist;
  }

  lemma FinishNearest<V(!new)>(arcs: Arcs<V>, start: V, dist: map<V, nat>, queue: seq<V>, depths: seq<nat>,
                               order: seq<V>)
    requires Queued(arcs, start, dist, queue, depths) && Ranked(dist, order)
    ensures NearestFirst(arcs, start, order)
  {
    forall i, d: nat | 0 <= i < |order| && Distance(arcs, start, order[i], d) ensures d == dist[order[i]] {
      assert order[i] in dist;
      DistanceUnique(arcs, start, order[i], d, dist[order[i]]);
    }
    forall i, v, e: nat | 0 <= i < |order| && v !in order && Distance(arcs, start, v, e) ensures dist[order[i]] <= e {
      assert order[i] in dist && v !in dist;
      var p :| Joins(arcs, p, start, v) && |p| == e + 1;
      UnlistedIsFar(arcs, start, dist, queue, depths, v, p);
    }
  }

  /** Every successor of a node of s is in t. */
  ghost predicate Expanded<V(!new)>(arcs: Arcs<V>, s: set<V>, t: set<V>) {
    forall u, v {:trigger (u, v) in arcs} :: u in s && (u, v) in arcs ==> v in t
  }

  method DepthFirst<V(==, !new)>(adj: Adjacency<V>, ghost arcs: Arcs<V>, ghost all: set<V>, id: V, limit: nat,
                                 visited: set<V>, order: seq<V>)
    returns (visited': set<V>, order': seq<V>)
    requires Represents(adj, arcs) && Within(arcs, all) && id in all && visited <= all
    requires Members(order) == visited && NoDuplicates(order) && |order| <= limit
    ensures visited <= visited' <= all && |order'| <= limit
    ensures Members(order') == visited' && NoDuplicates(order') && order <= order'
    ensures forall v :: v in visited' - visited ==> Reaches(arcs, id, v)
    ensures |order'| < limit ==> id in visited'
    ensures |order'| < limit ==> Expanded(arcs, visited' - visited, visited')
    ensures order == [] && limit > 0 ==> order' != [] && order'[0] == id
    decreases all - visited
  {
    if id in visited || |order| >= limit {
      return visited, order;
    }
    visited', order' := visited + {id}, order + [id];
    ReachesSelf(arcs, id);
    var nexts := Succs(adj, id);
    for i := 0 to |nexts|
      invariant visited + {id} <= visited' <= all && |order'| <= limit
      invariant Members(order') == visited' && NoDuplicates(order') && order + [id] <= order'
      invariant forall v :: v in visited' - visited ==> Reaches(arcs, id, v)
      invariant |order'| < limit ==> forall k :: 0 <= k < i ==> nexts[k] in visited'
      invariant |order'| < limit ==> Expanded(arcs, visited' - visited - {id}, visited')
    {
      assert nexts[i] in nexts;
      ghost var before := visited';
      visited', order' := DepthFirst(adj, arcs, all, nexts[i], limit, visited', order');
      forall v | v in visited' - before ensures Reaches(arcs, id, v) {
        ReachesStep(arcs, id, id, nexts[i]);
        ReachesTrans(arcs, id, nexts[i], v);
      }
    }
  }

  /** Both strategies list min(limit, number of reachable nodes) distinct reachable nodes;
      a limit that is not positive stands for 50. */
  method Walk<V(==, !new)>(adj: Adjacency<V>, ghost arcs: Arcs<V>, start: V, dfs: bool, limit: int)
    returns (order: seq<V>)
    requires Represents(adj, arcs)
    ensures Covers(arcs, start, if limit <= 0 then 50 else limit, order)
    ensures !dfs ==> NearestFirst(arcs, start, order)
  {
    var bound: nat := if limit <= 0 then 50 else limit;
    if dfs {
      UniverseHolds(arcs, start);
      var visited;
      visited, order := DepthFirst(adj, arcs, Universe(arcs, start), start, bound, {}, []);
      assert |order| < bound ==> Closed(arcs, Members(order));
    } else {
      order := BreadthFirst(adj, arcs, start, bound);
    }
    StoppedCovers(arcs, start, bound, order);
  }
}
