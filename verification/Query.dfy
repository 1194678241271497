/** Graph queries on the store: induced subgraphs, shortest path and its explanation,
    bounded traversal, and the upstream and downstream queries. */
module Query {
  import opened Sorting
  import opened Walks
  import opened Store
  import opened Traversal

  datatype Subgraph = Subgraph(name: string, nodes: seq<GraphNode>, edges: seq<GraphEdge>)

  predicate NodeBefore(a: GraphNode, b: GraphNode) { Less(a.id, b.id) }

  predicate AnyEdge(t: EdgeType) { true }

  /** The part of the graph on the given ids: ids that are not stored contribute nothing. */
  ghost predicate Induced(sg: Subgraph, st: State, ids: set<string>) {
    && (forall n :: n in sg.nodes <==> n.id in ids && n.id in st.nodes && st.nodes[n.id] == n)
    && Sorted(sg.nodes, NodeBefore)
    && (NoDuplicates(st.order) ==> NoDuplicates(sg.nodes))
    && Ascending(sg.edges)
    && (forall e :: e in sg.edges <==>
          e.id in st.edges && st.edges[e.id] == e && e.from in ids && e.to in ids)
  }

  lemma NodeOrder()
    ensures StrictWeak(NodeBefore)
  {
    forall a: GraphNode ensures !NodeBefore(a, a) { LessIrreflexive(a.id); }
    forall a, b, c | NodeBefore(a, b) && NodeBefore(b, c) ensures NodeBefore(a, c) {
      LessTransitive(a.id, b.id, c.id);
    }
    forall a, b, c | !NodeBefore(a, b) && !NodeBefore(b, c) ensures !NodeBefore(a, c) {
      LessTotal(a.id, b.id);
      LessTotal(b.id, c.id);
      if NodeBefore(a, c) && Less(c.id, b.id) { LessTransitive(a.id, c.id, b.id); }
    }
  }

  lemma {:induction false} ListingDistinct(order: seq<string>, nodes: map<string, GraphNode>)
    requires NoDuplicates(order) && forall k :: k in nodes ==> nodes[k].id == k
    ensures NoDuplicates(NodeListing(order, nodes))
  {
    if order != [] {
      ListingDistinct(order[1..], nodes);
      ListingMembers(order[1..], nodes);
      assert order[0] !in order[1..];
      forall n | n in NodeListing(order[1..], nodes) ensures n.id in order[1..] {
        var k :| k in order[1..] && k in nodes && nodes[k] == n;
      }
    }
  }

  lemma {:induction false} FilterAscending(es: seq<GraphEdge>, keep: GraphEdge -> bool)
    requires Ascending(es)
    ensures Ascending(Filter(es, keep))
  {
    if es != [] {
      FilterAscending(es[1..], keep);
      FilterMembers(es[1..], keep);
      forall e | e in Filter(es[1..], keep) ensures EdgeBefore(es[0], e) {
        var k :| 0 <= k < |es| - 1 && es[1..][k] == e;
        assert es[k + 1] == e;
      }
    }
  }

  /** The nodes and edges listed that lie within want. */
  function Select(all: seq<GraphNode>, listed: seq<GraphEdge>, want: set<string>, name: string): Subgraph {
    Subgraph(name, StableSort(Filter(all, (n: GraphNode) => n.id in want), NodeBefore),
             Filter(listed, (e: GraphEdge) => e.from in want && e.to in want))
  }

  lemma SelectNodes(st: State, want: set<string>)
    requires Valid(st)
    ensures var wanted := Filter(NodeListing(st.order, st.nodes), (n: GraphNode) => n.id in want);
            var nodes := StableSort(wanted, NodeBefore);
            && (forall n :: n in nodes <==> n.id in want && n.id in st.nodes && st.nodes[n.id] == n)
            && Sorted(nodes, NodeBefore)
            && (NoDuplicates(st.order) ==> NoDuplicates(nodes))
  {
    var all, keep := NodeListing(st.order, st.nodes), (n: GraphNode) => n.id in want;
    var nodes := Filter(all, keep);
    NodeOrder();
    ListingMembers(st.order, st.nodes);
    FilterMembers(all, keep);
    SortSorts(nodes, NodeBefore);
    SortMembers(nodes, NodeBefore);
    if NoDuplicates(st.order) {
      ListingDistinct(st.order, st.nodes);
      FilterDistinct(all, keep);
      SortDistinct(nodes, NodeBefore);
    }
  }

  lemma SelectInduced(st: State, listed: seq<GraphEdge>, want: set<string>, name: string)
    requires Valid(st) && ListsEdges(listed, st.edges)
    ensures Induced(Select(NodeListing(st.order, st.nodes), listed, want, name), st, want)
  {
    var keep := (e: GraphEdge) => e.from in want && e.to in want;
    SelectNodes(st, want);
    FilterMembers(listed, keep);
    FilterAscending(listed, keep);
  }

  /** Every set of ids induces a subgraph. */
  lemma InducedExists(st: State, want: set<string>) returns (sg: Subgraph)
    requires Valid(st)
    ensures Induced(sg, st, want)
  {
    var v := ViewOf(st);
    sg := Select(NodeListing(st.order, st.nodes), v.edges, want, "");
    SelectInduced(st, v.edges, want, "");
  }

  method SubgraphFromNodes(g: MemoryStore, ids: seq<string>, name: string) returns (sg: Subgraph)
    requires Valid(g.Value())
    ensures sg.name == name && Induced(sg, g.Value(), Members(ids))
  {
    var want := Members(ids);
    var all := g.AllNodes();
    var listed := g.AllEdges();
    sg := Select(all, listed, want, name);
    SelectInduced(g.Value(), listed, want, name);
  }

  // ----- Shortest path -----

  ghost predicate ShortestBetween(arcs: Arcs<string>, path: seq<string>, from: string, to: string) {
    Joins(arcs, path, from, to) && Distance(arcs, from, to, |path| - 1)
  }

  /** Empty exactly when to cannot be reached, otherwise the subgraph on a shortest path. */
  method ShortestPath(g: MemoryStore, from: string, to: string) returns (sg: Subgraph, ghost path: seq<string>)
    requires Valid(g.Value())
    ensures sg.name == "shortest_path"
    ensures var arcs := StoredArcs(g.edges, AnyEdge);
            if Reaches(arcs, from, to)
            then ShortestBetween(arcs, path, from, to) && Induced(sg, g.Value(), Members(path))
            else sg.nodes == [] && sg.edges == [] && path == []
  {
    ghost var arcs := StoredArcs(g.edges, AnyEdge);
    if from == to {
      sg := SubgraphFromNodes(g, [from], "shortest_path");
      path := [from];
      assert Joins(arcs, path, from, to);
      return;
    }
    var adj := BuildAdjacency(g, AnyEdge);
    var found, p := Search(adj, arcs, from, to);
    path := p;
    if !found {
      return Subgraph("shortest_path", [], []), [];
    }
    sg := SubgraphFromNodes(g, p, "shortest_path");
  }

  /** A shortest path repeats no node. */
  lemma ShortestIsSimple(arcs: Arcs<string>, path: seq<string>, from: string, to: string)
    requires ShortestBetween(arcs, path, from, to)
    ensures NoDuplicates(path)
  {
    forall i, j | 0 <= i < j < |path| ensures path[i] != path[j] {
      if path[i] == path[j] {
        var cut := path[..i + 1] + path[j + 1..];
        assert |cut| < |path|;
        CutWalk(arcs, path, from, to, i, j);
      }
    }
  }

  lemma CutWalk(arcs: Arcs<string>, p: seq<string>, a: string, b: string, i: nat, j: nat)
    requires Joins(arcs, p, a, b) && i < j < |p| && (p[i] == p[j] || (p[i], p[j]) in arcs)
    ensures p[i] == p[j] ==> Joins(arcs, p[..i + 1] + p[j + 1..], a, b)
    ensures p[i] != p[j] ==> Joins(arcs, p[..i + 1] + p[j..], a, b)
  {
    if p[i] == p[j] {
      var w := p[..i + 1] + p[j + 1..];
      forall k, l | 0 <= k < l < |w| && l == k + 1 ensures (w[k], w[l]) in arcs {
        if k >= i { assert w[l] == p[l + j - i] && (p[l + j - i - 1], p[l + j - i]) in arcs; }
      }
    } else {
      var w := p[..i + 1] + p[j..];
      forall k, l | 0 <= k < l < |w| && l == k + 1 ensures (w[k], w[l]) in arcs {
        if k > i { assert w[k] == p[k + j - i - 1] && w[l] == p[l + j - i - 1]; }
      }
    }
  }

  /** An edge of the induced subgraph never skips forward along the path. */
  lemma NoForwardSkip(st: State, sg: Subgraph, path: seq<string>, from: string, to: string, e: GraphEdge, i: nat,
                      j: nat)
    requires ShortestBetween(StoredArcs(st.edges, AnyEdge), path, from, to)
    requires Induced(sg, st, Members(path)) && e in sg.edges
    requires i < |path| && j < |path| && e.from == path[i] && e.to == path[j]
    ensures j <= i + 1
  {
    var arcs := StoredArcs(st.edges, AnyEdge);
    if j > i + 1 {
      ShortestIsSimple(arcs, path, from, to);
      assert (path[i], path[j]) in arcs && |path[..i + 1] + path[j..]| < |path|;
      CutWalk(arcs, path, from, to, i, j);
    }
  }

  /** Every hop of the path is an edge of the induced subgraph. */
  lemma HopIsIncluded(st: State, sg: Subgraph, path: seq<string>, from: string, to: string, i: nat)
    returns (e: GraphEdge)
    requires Valid(st) && ShortestBetween(StoredArcs(st.edges, AnyEdge), path, from, to)
    requires Induced(sg, st, Members(path)) && i + 1 < |path|
    ensures e in sg.edges && e.from == path[i] && e.to == path[i + 1]
  {
    assert (path[i], path[i + 1]) in StoredArcs(st.edges, AnyEdge);
    var k :| k in st.edges && (st.edges[k].from, st.edges[k].to) == (path[i], path[i + 1]);
    e := st.edges[k];
    assert path[i] in path && path[i + 1] in path;
  }

  function Sources(es: seq<GraphEdge>): set<string> { set e | e in es :: e.from }

  lemma {:induction false} SourcesSize(es: seq<GraphEdge>)
    ensures |Sources(es)| <= |es|
  {
    if es != [] {
      SourcesSize(es[1..]);
      assert Sources(es) == Sources(es[1..]) + {es[0].from};
    }
  }

  /** The reported number of hops, the number of induced edges, is never below the distance. */
  lemma HopsAtLeastDistance(st: State, sg: Subgraph, path: seq<string>, from: string, to: string)
    requires Valid(st) && ShortestBetween(StoredArcs(st.edges, AnyEdge), path, from, to)
    requires Induced(sg, st, Members(path))
    ensures |sg.edges| >= |path| - 1
  {
    HeadsAreSources(st, sg, path, from, to);
    SubsetSize(Members(path[..|path| - 1]), Sources(sg.edges));
    SourcesSize(sg.edges);
  }

  /** The edges of the subgraph are the hops and nothing else: no parallel edge, no
      loop, no edge back along the path. */
  ghost predicate OnlyHops(sg: Subgraph, path: seq<string>) {
    && (forall e :: e in sg.edges ==> exists i :: 0 <= i < |path| - 1 && e.from == path[i] && e.to == path[i + 1])
    && (forall e, f :: e in sg.edges && f in sg.edges && e.from == f.from && e.to == f.to ==> e == f)
  }

  lemma AscendingDistinct(es: seq<GraphEdge>)
    requires Ascending(es)
    ensures NoDuplicates(es)
  {
    forall i, j | 0 <= i < j < |es| ensures es[i] != es[j] {
      assert EdgeBefore(es[i], es[j]);
      LessIrreflexive(es[i].id);
    }
  }

  lemma {:induction false} DistinctSources(es: seq<GraphEdge>)
    requires NoDuplicates(es) && forall e, f :: e in es && f in es && e.from == f.from ==> e == f
    ensures |Sources(es)| == |es|
  {
    if es != [] {
      DistinctSources(es[1..]);
      assert Sources(es) == Sources(es[1..]) + {es[0].from};
      assert es[0] !in es[1..];
      assert forall e :: e in es[1..] ==> e in es;
    }
  }

  lemma {:induction false} FewerSources(es: seq<GraphEdge>, e: GraphEdge, f: GraphEdge)
    requires e in es && f in es && e != f && e.from == f.from
    ensures |Sources(es)| < |es|
  {
    if es[0] == e || es[0] == f {
      var other := if es[0] == e then f else e;
      assert other in es[1..];
      assert Sources(es) == Sources(es[1..]);
      SourcesSize(es[1..]);
    } else {
      FewerSources(es[1..], e, f);
      assert Sources(es) == Sources(es[1..]) + {es[0].from};
    }
  }

  lemma HeadsAreSources(st: State, sg: Subgraph, path: seq<string>, from: string, to: string)
    requires Valid(st) && ShortestBetween(StoredArcs(st.edges, AnyEdge), path, from, to)
    requires Induced(sg, st, Members(path))
    ensures Members(path[..|path| - 1]) <= Sources(sg.edges)
    ensures |Members(path[..|path| - 1])| == |path| - 1
  {
    var heads := path[..|path| - 1];
    ShortestIsSimple(StoredArcs(st.edges, AnyEdge), path, from, to);
    NoDuplicatesSize(heads);
    forall v | v in heads ensures v in Sources(sg.edges) {
      var i :| 0 <= i < |heads| && heads[i] == v;
      var e := HopIsIncluded(st, sg, path, from, to, i);
    }
  }

  lemma OnlyHopsSize(sg: Subgraph, path: seq<string>)
    requires Ascending(sg.edges) && NoDuplicates(path) && path != [] && OnlyHops(sg, path)
    ensures |sg.edges| == |Sources(sg.edges)| && Sources(sg.edges) <= Members(path[..|path| - 1])
  {
    AscendingDistinct(sg.edges);
    forall e, f | e in sg.edges && f in sg.edges && e.from == f.from ensures e == f {
      var i :| 0 <= i < |path| - 1 && e.from == path[i] && e.to == path[i + 1];
      var j :| 0 <= j < |path| - 1 && f.from == path[j] && f.to == path[j + 1];
      assert i == j;
    }
    DistinctSources(sg.edges);
    forall v | v in Sources(sg.edges) ensures v in path[..|path| - 1] {
      var e :| e in sg.edges && e.from == v;
      var i :| 0 <= i < |path| - 1 && e.from == path[i] && e.to == path[i + 1];
      assert path[..|path| - 1][i] == v;
    }
  }

  /** The reported number of hops is the distance exactly when the induced subgraph
      holds only the hops. */
  lemma HopCountExact(st: State, sg: Subgraph, path: seq<string>, from: string, to: string)
    requires Valid(st) && ShortestBetween(StoredArcs(st.edges, AnyEdge), path, from, to)
    requires Induced(sg, st, Members(path))
    ensures |sg.edges| == |path| - 1 <==> OnlyHops(sg, path)
  {
    var heads := Members(path[..|path| - 1]);
    HeadsAreSources(st, sg, path, from, to);
    SourcesSize(sg.edges);
    if |sg.edges| == |path| - 1 {
      SameSizeSubset(heads, Sources(sg.edges));
      OnlyHopsWhenTight(st, sg, path, from, to);
    }
    if OnlyHops(sg, path) {
      ShortestIsSimple(StoredArcs(st.edges, AnyEdge), path, from, to);
      OnlyHopsSize(sg, path);
      assert Sources(sg.edges) == heads;
    }
  }

  lemma SameSizeSubset<V>(a: set<V>, b: set<V>)
    requires a <= b && |b| <= |a|
    ensures a == b
  {
    assert b == a + (b - a);
  }

  lemma OnlyHopsWhenTight(st: State, sg: Subgraph, path: seq<string>, from: string, to: string)
    requires Valid(st) && ShortestBetween(StoredArcs(st.edges, AnyEdge), path, from, to)
    requires Induced(sg, st, Members(path)) && |sg.edges| == |path| - 1
    requires Sources(sg.edges) == Members(path[..|path| - 1]) && |Sources(sg.edges)| == |sg.edges|
    ensures OnlyHops(sg, path)
  {
    forall e | e in sg.edges ensures exists i :: 0 <= i < |path| - 1 && e.from == path[i] && e.to == path[i + 1] {
      assert e.from in Sources(sg.edges);
      var i :| 0 <= i < |path| - 1 && path[..|path| - 1][i] == e.from;
      var h := HopIsIncluded(st, sg, path, from, to, i);
      if h != e { FewerSources(sg.edges, e, h); }
    }
    forall e, f | e in sg.edges && f in sg.edges && e.from == f.from && e.to == f.to ensures e == f {
      if e != f { FewerSources(sg.edges, e, f); }
    }
  }

  // ----- Stores on which the hop count is the distance -----

  /** No two stored edges join the same nodes in the same direction. */
  ghost predicate NoParallel(edges: map<string, GraphEdge>) {
    forall k, l :: k in edges && l in edges && edges[k].from == edges[l].from && edges[k].to == edges[l].to ==> k == l
  }

  ghost function AllArcs(st: State): Arcs<string> { StoredArcs(st.edges, AnyEdge) }

  lemma Stretch(arcs: Arcs<string>, path: seq<string>, from: string, to: string, j: nat, i: nat)
    requires Joins(arcs, path, from, to) && j <= i < |path|
    ensures Reaches(arcs, path[j], path[i])
  {
    assert Joins(arcs, path[j..i + 1], path[j], path[i]);
  }

  lemma NoEdgeBack(st: State, sg: Subgraph, path: seq<string>, from: string, to: string, e: GraphEdge)
    requires ShortestBetween(AllArcs(st), path, from, to) && Induced(sg, st, Members(path)) && e in sg.edges
    requires Acyclic(AllArcs(st))
    ensures exists i :: 0 <= i < |path| - 1 && e.from == path[i] && e.to == path[i + 1]
  {
    assert e.from in path && e.to in path;
    var i :| 0 <= i < |path| && path[i] == e.from;
    var j :| 0 <= j < |path| && path[j] == e.to;
    NoForwardSkip(st, sg, path, from, to, e, i, j);
    assert (e.from, e.to) in AllArcs(st);
    if j <= i {
      Stretch(AllArcs(st), path, from, to, j, i);
      assert OnCycle(AllArcs(st), path[i], path[j]);
    }
  }

  lemma CleanStoreOnlyHops(st: State, sg: Subgraph, path: seq<string>, from: string, to: string)
    requires ShortestBetween(AllArcs(st), path, from, to) && Induced(sg, st, Members(path))
    requires Acyclic(AllArcs(st)) && NoParallel(st.edges)
    ensures OnlyHops(sg, path)
  {
    forall e | e in sg.edges ensures exists i :: 0 <= i < |path| - 1 && e.from == path[i] && e.to == path[i + 1] {
      NoEdgeBack(st, sg, path, from, to, e);
    }
    forall e, f | e in sg.edges && f in sg.edges && e.from == f.from && e.to == f.to ensures e == f {
      assert st.edges[e.id] == e && st.edges[f.id] == f;
    }
  }

  lemma ShortestExists(arcs: Arcs<string>, p: seq<string>, a: string, b: string) returns (q: seq<string>)
    requires Joins(arcs, p, a, b)
    ensures ShortestBetween(arcs, q, a, b)
    decreases |p|
  {
    if r :| Joins(arcs, r, a, b) && |r| < |p| {
      q := ShortestExists(arcs, r, a, b);
    } else {
      q := p;
    }
  }

  /** For every shortest path between any two nodes the hop count is the distance. */
  ghost predicate HopsAreDistances(st: State) {
    forall sg, path, from, to ::
      ShortestBetween(AllArcs(st), path, from, to) && Induced(sg, st, Members(path)) ==> |sg.edges| == |path| - 1
  }

  lemma CycleOvercounts(st: State, a: string, b: string)
    requires Valid(st) && OnCycle(AllArcs(st), a, b)
    ensures !HopsAreDistances(st)
  {
    var arcs := AllArcs(st);
    var p :| Joins(arcs, p, b, a);
    var path := ShortestExists(arcs, p, b, a);
    var sg := InducedExists(st, Members(path));
    var k :| k in st.edges && AnyEdge(st.edges[k].etype) && (st.edges[k].from, st.edges[k].to) == (a, b);
    assert a in path && b in path;
    assert st.edges[k] in sg.edges;
    ShortestIsSimple(arcs, path, b, a);
    HopCountExact(st, sg, path, b, a);
    assert !OnlyHops(sg, path);
  }

  lemma ParallelOvercounts(st: State, k: string, l: string)
    requires Valid(st) && k in st.edges && l in st.edges && k != l
    requires st.edges[k].from == st.edges[l].from && st.edges[k].to == st.edges[l].to
    ensures !HopsAreDistances(st)
  {
    var arcs := AllArcs(st);
    var u, v := st.edges[k].from, st.edges[k].to;
    assert AnyEdge(st.edges[k].etype) && (u, v) in arcs;
    var path := ShortestExists(arcs, [u, v], u, v);
    var sg := InducedExists(st, Members(path));
    assert path[0] == u && path[|path| - 1] == v;
    assert st.edges[k] in sg.edges && st.edges[l] in sg.edges;
    HopCountExact(st, sg, path, u, v);
    assert !OnlyHops(sg, path);
  }

  /** The hop count of every path is its distance exactly when the stored graph has no cycle
      and no parallel edges. */
  lemma HopCountsExactly(st: State)
    requires Valid(st)
    ensures HopsAreDistances(st) <==> Acyclic(AllArcs(st)) && NoParallel(st.edges)
  {
    if Acyclic(AllArcs(st)) && NoParallel(st.edges) {
      forall sg, path, from, to | ShortestBetween(AllArcs(st), path, from, to) && Induced(sg, st, Members(path))
        ensures |sg.edges| == |path| - 1
      {
        CleanStoreOnlyHops(st, sg, path, from, to);
        HopCountExact(st, sg, path, from, to);
      }
    }
    if !Acyclic(AllArcs(st)) {
      var a, b :| OnCycle(AllArcs(st), a, b);
      CycleOvercounts(st, a, b);
    }
    if !NoParallel(st.edges) {
      var k, l :| k in st.edges && l in st.edges && st.edges[k].from == st.edges[l].from
                  && st.edges[k].to == st.edges[l].to && k != l;
      ParallelOvercounts(st, k, l);
    }
  }

  /** Two parallel edges: one hop is explained as two. */
  lemma TwoForOneHop(sg: Subgraph, x: real, y: real)
    requires var e, f := GraphEdge("e", "a", "b", Causes, x, false), GraphEdge("f", "a", "b", Triggered, y, false);
             Induced(sg, State(map[], map["e" := e, "f" := f], []), {"a", "b"})
    ensures |sg.edges| == 2
    ensures Distance({("a", "b")}, "a", "b", 1)
  {
    var e, f := GraphEdge("e", "a", "b", Causes, x, false), GraphEdge("f", "a", "b", Triggered, y, false);
    AscendingDistinct(sg.edges);
    NoDuplicatesSize(sg.edges);
    assert Members(sg.edges) == {e, f};
    assert Joins({("a", "b")}, ["a", "b"], "a", "b");
  }

  // ----- Explanation -----

  datatype PathExplanation = PathExplanation(hops: nat, confidence: real, nodes: seq<GraphNode>, edges: seq<GraphEdge>)

  function TotalConfidence(es: seq<GraphEdge>): real {
    if es == [] then 0.0 else TotalConfidence(es[..|es| - 1]) + es[|es| - 1].confidence
  }

  lemma {:induction false} TotalBounds(es: seq<GraphEdge>, n: real, lo: real, hi: real)
    requires n == |es| as real && forall e :: e in es ==> lo <= e.confidence <= hi
    ensures n * lo <= TotalConfidence(es) <= n * hi
  {
    if es != [] {
      var c := es[|es| - 1].confidence;
      assert es[|es| - 1] in es;
      TotalBounds(es[..|es| - 1], n - 1.0, lo, hi);
      AddOne(TotalConfidence(es[..|es| - 1]), n, c, lo, hi);
    } else {
      assert n == 0.0 && TotalConfidence(es) == 0.0;
    }
  }

  lemma AddOne(t: real, n: real, c: real, lo: real, hi: real)
    requires (n - 1.0) * lo <= t <= (n - 1.0) * hi && lo <= c <= hi
    ensures n * lo <= t + c <= n * hi
  {
    assert (n - 1.0) * lo + lo == n * lo && (n - 1.0) * hi + hi == n * hi;
  }

  /** The average stays within the bounds of what is averaged. */
  lemma AverageBounds(es: seq<GraphEdge>, n: real, lo: real, hi: real)
    requires es != [] && n == |es| as real && forall e :: e in es ==> lo <= e.confidence <= hi
    ensures lo <= TotalConfidence(es) / n <= hi
  {
    TotalBounds(es, n, lo, hi);
    DivideBounds(TotalConfidence(es), n, lo, hi);
  }

  lemma DivideBounds(t: real, n: real, lo: real, hi: real)
    requires n > 0.0 && n * lo <= t <= n * hi
    ensures lo <= t / n <= hi
  {
    assert t == n * (t / n);
  }

  /** The nodes and edges explained are those induced by a shortest path. */
  ghost predicate Explains(st: State, x: PathExplanation, path: seq<string>, from: string, to: string) {
    && x.hops == |x.edges|
    && if Reaches(AllArcs(st), from, to)
       then ShortestBetween(AllArcs(st), path, from, to)
            && Induced(Subgraph("shortest_path", x.nodes, x.edges), st, Members(path))
       else x.nodes == [] && x.edges == []
  }

  method ExplainPath(g: MemoryStore, from: string, to: string) returns (x: PathExplanation, ghost path: seq<string>)
    requires Valid(g.Value())
    ensures Explains(g.Value(), x, path, from, to)
    ensures x.edges != [] ==> x.confidence == TotalConfidence(x.edges) / |x.edges| as real
    ensures x.edges == [] ==> x.confidence == 0.0
    ensures forall d: nat :: Distance(AllArcs(g.Value()), from, to, d) ==> x.hops >= d
    ensures x.hops > 0 ==> Reaches(AllArcs(g.Value()), from, to)
    ensures HopsAreDistances(g.Value()) && Reaches(AllArcs(g.Value()), from, to) ==> x.hops == |path| - 1
  {
    var sg;
    sg, path := ShortestPath(g, from, to);
    var conf := 0.0;
    for i := 0 to |sg.edges|
      invariant conf == TotalConfidence(sg.edges[..i])
    {
      assert sg.edges[..i + 1][..i] == sg.edges[..i];
      conf := conf + sg.edges[i].confidence;
    }
    assert sg.edges[..|sg.edges|] == sg.edges;
    if |sg.edges| > 0 {
      conf := conf / |sg.edges| as real;
    }
    x := PathExplanation(|sg.edges|, conf, sg.nodes, sg.edges);
    ghost var arcs := StoredArcs(g.edges, AnyEdge);
    if Reaches(arcs, from, to) {
      HopsAtLeastDistance(g.Value(), sg, path, from, to);
      forall d: nat | Distance(arcs, from, to, d) ensures x.hops >= d {
        DistanceUnique(arcs, from, to, d, |path| - 1);
      }
    }
  }

  // ----- Bounded traversal -----

  /** Which stored edges a traversal follows: all of them, the causal ones or the temporal ones. */
  lemma FollowedEdges(edges: map<string, GraphEdge>, mode: Mode, a: string, b: string)
    ensures (a, b) in StoredArcs(edges, t => Follows(mode, t)) <==>
      exists k :: k in edges && (edges[k].from, edges[k].to) == (a, b)
        && (mode == Causal ==> edges[k].etype in {Causes, LikelyCaused, Triggered})
        && (mode == Timeline ==> edges[k].etype in {OccurredBefore, OccurredAfter})
  {
  }

  method Traverse(g: MemoryStore, start: string, mode: Mode, limit: int)
    returns (sg: Subgraph, ghost order: seq<string>)
    requires Valid(g.Value())
    ensures var arcs := StoredArcs(g.edges, t => Follows(mode, t));
            && Covers(arcs, start, if limit <= 0 then 50 else limit, order)
            && (mode != Dfs ==> NearestFirst(arcs, start, order))
            && Induced(sg, g.Value(), Members(order))
  {
    var keep := t => Follows(mode, t);
    var adj := BuildAdjacency(g, keep);
    var o := Walk(adj, StoredArcs(g.edges, keep), start, mode == Dfs, limit);
    sg := SubgraphFromNodes(g, o, "");
    order := o;
  }
}
