/** The graph consistency checker, and the colouring depth-first search with which it
    looks for cycles among depends_on edges. */
module Consistency {
  import opened Sorting
  import opened Wrappers
  import opened Walks
  import opened Store
  import opened Traversal

  /** Finished nodes are numbered so that numbers fall along every arc: no cycle among them. */
  ghost predicate Finished<V(!new)>(arcs: Arcs<V>, rank: map<V, int>, top: int) {
    && Falls(arcs, rank)
    && forall v :: v in rank ==> rank[v] < top
  }

  /** visited nodes are on the stack or finished, and every node on the stack leads to n. */
  ghost predicate Colours<V(!new)>(arcs: Arcs<V>, n: V, visited: set<V>, stack: set<V>, rank: map<V, int>) {
    && visited == stack + rank.Keys && stack !! rank.Keys
    && forall g :: g in stack ==> Reaches(arcs, g, n)
  }

  lemma NumberNext<V(!new)>(arcs: Arcs<V>, rank: map<V, int>, top: int, n: V)
    requires Finished(arcs, rank, top) && n !in rank
    requires forall v :: (n, v) in arcs ==> v in rank
    ensures Finished(arcs, rank[n := top], top + 1)
  {
  }

  lemma Descend<V(!new)>(arcs: Arcs<V>, n: V, next: V, visited: set<V>, stack: set<V>, rank: map<V, int>)
    requires Colours(arcs, n, visited, stack, rank) && (n, next) in arcs
    ensures Colours(arcs, next, visited, stack, rank)
  {
    forall g | g in stack ensures Reaches(arcs, g, next) { ReachesStep(arcs, g, n, next); }
  }

  method Dfs<V(==, !new)>(adj: Adjacency<V>, ghost arcs: Arcs<V>, ghost all: set<V>, n: V, visited: set<V>,
                         stack: set<V>, ghost rank: map<V, int>, ghost top: int)
    returns (visited': set<V>, cycle: Option<(V, V)>, ghost rank': map<V, int>, ghost top': int)
    requires Represents(adj, arcs) && Within(arcs, all)
    requires n in all && n !in visited && visited <= all
    requires Colours(arcs, n, visited, stack, rank) && Finished(arcs, rank, top)
    ensures cycle.Some? ==> OnCycle(arcs, cycle.value.0, cycle.value.1) && Reaches(arcs, n, cycle.value.0)
    ensures cycle.None? ==> Finished(arcs, rank', top') && visited + {n} <= visited' <= all && n in rank'
    ensures cycle.None? ==> visited' == stack + rank'.Keys && stack !! rank'.Keys
    decreases all - visited
  {
    visited', cycle, rank', top' := visited + {n}, None, rank, top;
    var grey := stack + {n};
    ReachesSelf(arcs, n);
    var nexts := Succs(adj, n);
    for i := 0 to |nexts|
      invariant cycle.None?
      invariant Colours(arcs, n, visited', grey, rank') && Finished(arcs, rank', top')
      invariant visited + {n} <= visited' <= all
      invariant forall k :: 0 <= k < i ==> nexts[k] in visited' && nexts[k] !in grey
    {
      var next := nexts[i];
      assert next in nexts;
      Descend(arcs, n, next, visited', grey, rank');
      if next !in visited' {
        visited', cycle, rank', top' := Dfs(adj, arcs, all, next, visited', grey, rank', top');
        if cycle.Some? {
          ReachesStep(arcs, n, n, next);
          ReachesTrans(arcs, n, next, cycle.value.0);
          return;
        }
      } else if next in grey {
        cycle := Some((n, next));
        return;
      }
    }
    assert forall v :: v in nexts ==> v in rank';
    NumberNext(arcs, rank', top', n);
    rank', top' := rank'[n := top'], top' + 1;
  }

  /** Some cycle can be reached from a root. */
  ghost predicate CycleBelow<V(!new)>(arcs: Arcs<V>, roots: seq<V>) {
    exists r, a, b :: r in roots && Reaches(arcs, r, a) && OnCycle(arcs, a, b)
  }

  lemma NoCycleBelow<V(!new)>(arcs: Arcs<V>, roots: seq<V>, rank: map<V, int>)
    requires Falls(arcs, rank) && forall r :: r in roots ==> r in rank
    ensures !CycleBelow(arcs, roots)
  {
    forall r, a, b | r in roots && Reaches(arcs, r, a) ensures !OnCycle(arcs, a, b) {
      var p :| Joins(arcs, p, r, a);
      RankFallsAlongWalk(arcs, rank, p, r, a);
      FallingRankMeansNoCycle(arcs, rank, a, b);
    }
  }

  /** The visited marks are shared by all roots; the answer is an edge on a cycle that a
      root leads to, and there is no answer exactly when there is no such cycle. */
  method FindCycle<V(==, !new)>(adj: Adjacency<V>, ghost arcs: Arcs<V>, roots: seq<V>) returns (cycle: Option<(V, V)>)
    requires Represents(adj, arcs)
    ensures cycle.Some? <==> CycleBelow(arcs, roots)
    ensures cycle.Some? ==> OnCycle(arcs, cycle.value.0, cycle.value.1)
    ensures cycle.Some? ==> exists r :: r in roots && Reaches(arcs, r, cycle.value.0)
  {
    var visited: set<V> := {};
    cycle := None;
    ghost var rank: map<V, int>, top := map[], 0;
    ghost var all := Members(roots) + (set e | e in arcs :: e.1);
    assert Within(arcs, all);
    for i := 0 to |roots|
      invariant cycle.None? && Finished(arcs, rank, top)
      invariant visited == rank.Keys && visited <= all
      invariant forall k :: 0 <= k < i ==> roots[k] in visited
    {
      var r := roots[i];
      assert r in roots;
      if r !in visited {
        visited, cycle, rank, top := Dfs(adj, arcs, all, r, visited, {}, rank, top);
        if cycle.Some? {
          return;
        }
      }
    }
    NoCycleBelow(arcs, roots, rank);
  }

  // ----- The report -----

  datatype Severity = High | Medium | Low

  /** A finding and what it is about. */
  datatype Issue =
    | DanglingReference(edgeId: string)
    | DuplicateEdge(key: string)
    | OrphanNode(nodeId: string)
    | CycleFound(a: string, b: string)
  {
    function Level(): Severity {
      match this
      case DanglingReference(_) => High
      case DuplicateEdge(_) => Medium
      case OrphanNode(_) => Low
      case CycleFound(_, _) => High
    }
  }

  function EdgeKey(e: GraphEdge): string { e.from + "|" + e.to + "|" + TypeName(e.etype) }

  predicate Dangles(e: GraphEdge, nodeIds: set<string>) { e.from !in nodeIds || e.to !in nodeIds }

  predicate IsDependsOn(t: EdgeType) { t == DependsOn }

  ghost predicate NoDangling(st: State) {
    forall k :: k in st.edges ==> !Dangles(st.edges[k], st.nodes.Keys)
  }

  /** The edges have one type and either the same ends, or a '|' inside an end that lets the
      text of both ends be cut in two ways. */
  ghost predicate ReadAlike(e: GraphEdge, f: GraphEdge) {
    && e.etype == f.etype
    && (|| (e.from == f.from && e.to == f.to)
        || ShiftedAt('|', e.from, e.to, f.from, f.to) || ShiftedAt('|', f.from, f.to, e.from, e.to))
  }

  /** Two stored edges read alike, and key is their common text. */
  ghost predicate RepeatedKey(edges: map<string, GraphEdge>, key: string) {
    exists k, l :: k in edges && l in edges && k != l && ReadAlike(edges[k], edges[l])
      && key == edges[k].from + "|" + edges[k].to + "|" + TypeName(edges[k].etype)
  }

  /** Two stored edges share source, target and type. */
  ghost predicate Parallel(edges: map<string, GraphEdge>, k: string, l: string) {
    && k in edges && l in edges && k != l
    && (edges[k].from, edges[k].to, edges[k].etype) == (edges[l].from, edges[l].to, edges[l].etype)
  }

  /** The text of two parallel edges. */
  ghost predicate ParallelKey(edges: map<string, GraphEdge>, key: string) {
    exists k, l ::
      Parallel(edges, k, l) && key == edges[k].from + "|" + edges[k].to + "|" + TypeName(edges[k].etype)
  }

  ghost predicate NoBars(edges: map<string, GraphEdge>) {
    forall k :: k in edges ==> '|' !in edges[k].from && '|' !in edges[k].to
  }

  lemma NameHasNoBar(t: EdgeType)
    ensures '|' !in TypeName(t)
  {
  }

  /** Exactly when two edges have one key. */
  lemma KeyCollision(e: GraphEdge, f: GraphEdge)
    ensures EdgeKey(e) == EdgeKey(f) <==> ReadAlike(e, f)
  {
    NameHasNoBar(e.etype);
    NameHasNoBar(f.etype);
    JoinCollision('|', e.from, e.to, f.from, f.to);
    if EdgeKey(e) == EdgeKey(f) {
      SplitLast('|', e.from + "|" + e.to, TypeName(e.etype), f.from + "|" + f.to, TypeName(f.etype));
      TypeNamesDistinct(e.etype, f.etype);
    }
  }

  ghost predicate Touched(edges: map<string, GraphEdge>, id: string) {
    exists k :: k in edges && (edges[k].from == id || edges[k].to == id)
  }

  /** A depends_on cycle can be reached from a stored node. */
  ghost predicate DependsCycle(st: State) {
    exists r, a, b :: r in st.nodes && Reaches(StoredArcs(st.edges, IsDependsOn), r, a)
      && OnCycle(StoredArcs(st.edges, IsDependsOn), a, b)
  }

  ghost predicate Repeats<K>(ks: seq<K>, k: K) {
    exists i, j :: 0 <= i < j < |ks| && ks[i] == k && ks[j] == k
  }

  lemma RepeatsSnoc<K(!new)>(ks: seq<K>, k: K)
    ensures forall x :: Repeats(ks + [k], x) <==> Repeats(ks, x) || (x == k && k in ks)
  {
    var r := ks + [k];
    forall x ensures Repeats(r, x) <==> Repeats(ks, x) || (x == k && k in ks) {
      if Repeats(ks, x) {
        var i, j :| 0 <= i < j < |ks| && ks[i] == x && ks[j] == x;
        assert r[i] == x && r[j] == x;
      }
      if x == k && k in ks {
        var i :| 0 <= i < |ks| && ks[i] == k;
        assert r[i] == k && r[|ks|] == k;
      }
    }
  }

  function Keys(es: seq<GraphEdge>): seq<string> {
    seq(|es|, i requires 0 <= i < |es| => EdgeKey(es[i]))
  }

  function IssuesOf(e: GraphEdge, seen: bool, nodeIds: set<string>): seq<Issue> {
    (if Dangles(e, nodeIds) then [DanglingReference(e.id)] else [])
    + (if seen then [DuplicateEdge(EdgeKey(e))] else [])
  }

  /** The findings about edges, in the order of the edges. */
  function EdgeFindings(es: seq<GraphEdge>, nodeIds: set<string>): seq<Issue> {
    if es == [] then []
    else
      var n := |es| - 1;
      EdgeFindings(es[..n], nodeIds) + IssuesOf(es[n], EdgeKey(es[n]) in Keys(es[..n]), nodeIds)
  }

  lemma KeysSnoc(es: seq<GraphEdge>)
    requires es != []
    ensures Keys(es) == Keys(es[..|es| - 1]) + [EdgeKey(es[|es| - 1])]
  {
  }

  lemma {:induction false} FindingsDangling(es: seq<GraphEdge>, nodeIds: set<string>, id: string)
    ensures DanglingReference(id) in EdgeFindings(es, nodeIds) <==>
      exists e :: e in es && e.id == id && Dangles(e, nodeIds)
  {
    if es != [] {
      var n := |es| - 1;
      FindingsDangling(es[..n], nodeIds, id);
      assert es == es[..n] + [es[n]];
    }
  }

  lemma {:induction false} FindingsDuplicate(es: seq<GraphEdge>, nodeIds: set<string>, key: string)
    ensures DuplicateEdge(key) in EdgeFindings(es, nodeIds) <==> Repeats(Keys(es), key)
  {
    if es != [] {
      var n := |es| - 1;
      FindingsDuplicate(es[..n], nodeIds, key);
      KeysSnoc(es);
      RepeatsSnoc(Keys(es[..n]), EdgeKey(es[n]));
    }
  }

  lemma {:induction false} FindingsKinds(es: seq<GraphEdge>, nodeIds: set<string>)
    ensures forall x :: x in EdgeFindings(es, nodeIds) ==> x.DanglingReference? || x.DuplicateEdge?
  {
    if es != [] { FindingsKinds(es[..|es| - 1], nodeIds); }
  }

  lemma FindingsSnoc(es: seq<GraphEdge>, nodeIds: set<string>, i: nat)
    requires i < |es|
    ensures EdgeFindings(es[..i + 1], nodeIds) ==
      EdgeFindings(es[..i], nodeIds)
      + (if Dangles(es[i], nodeIds) then [DanglingReference(es[i].id)] else [])
      + (if EdgeKey(es[i]) in Keys(es[..i]) then [DuplicateEdge(EdgeKey(es[i]))] else [])
    ensures Members(Keys(es[..i + 1])) == Members(Keys(es[..i])) + {EdgeKey(es[i])}
  {
    assert es[..i + 1][..i] == es[..i];
    KeysSnoc(es[..i + 1]);
  }

  /** One pass over the edges. */
  method EdgeIssues(es: seq<GraphEdge>, nodeIds: set<string>) returns (issues: seq<Issue>)
    ensures issues == EdgeFindings(es, nodeIds)
  {
    issues := [];
    var keys: set<string> := {};
    for i := 0 to |es|
      invariant issues == EdgeFindings(es[..i], nodeIds)
      invariant keys == Members(Keys(es[..i]))
    {
      var key := EdgeKey(es[i]);
      FindingsSnoc(es, nodeIds, i);
      if Dangles(es[i], nodeIds) {
        issues := issues + [DanglingReference(es[i].id)];
      }
      if key in keys {
        issues := issues + [DuplicateEdge(key)];
      }
      keys := keys + {key};
    }
    assert es[..|es|] == es;
  }

  method OrphanIssues(es: seq<GraphEdge>, ns: seq<GraphNode>) returns (issues: seq<Issue>)
    ensures forall x :: x in issues ==> x.OrphanNode?
    ensures forall id :: OrphanNode(id) in issues <==>
      exists n ::
        n in ns && n.id == id && n.ntype != Investigation && forall e :: e in es ==> e.from != id && e.to != id
  {
    var connected: set<string> := {};
    for i := 0 to |es|
      invariant forall id :: id in connected <==> exists k :: 0 <= k < i && (es[k].from == id || es[k].to == id)
    {
      connected := connected + {es[i].from, es[i].to};
    }
    assert forall id :: id in connected <==> exists e :: e in es && (e.from == id || e.to == id);
    issues := [];
    for i := 0 to |ns|
      invariant forall x :: x in issues ==> x.OrphanNode?
      invariant forall id :: OrphanNode(id) in issues <==>
        exists k :: 0 <= k < i && ns[k].id == id && ns[k].ntype != Investigation && id !in connected
    {
      if ns[i].ntype != Investigation && ns[i].id !in connected {
        issues := issues + [OrphanNode(ns[i].id)];
      }
    }
  }

  lemma StoredIds(st: State)
    requires Valid(st)
    ensures Members(Ids(NodeListing(st.order, st.nodes))) == st.nodes.Keys
    ensures forall n :: n in NodeListing(st.order, st.nodes) <==> n.id in st.nodes && st.nodes[n.id] == n
  {
    var ns := NodeListing(st.order, st.nodes);
    ListingMembers(st.order, st.nodes);
    IdsMembers(ns);
    forall k | k in st.nodes ensures k in Ids(ns) { assert st.nodes[k] in ns; }
  }

  lemma KeysRepeated(es: seq<GraphEdge>, edges: map<string, GraphEdge>)
    requires ListsEdges(es, edges) && forall k :: k in edges ==> edges[k].id == k
    ensures forall key :: Repeats(Keys(es), key) <==> RepeatedKey(edges, key)
  {
    forall key | Repeats(Keys(es), key) ensures RepeatedKey(edges, key) {
      var i, j :| 0 <= i < j < |es| && Keys(es)[i] == key && Keys(es)[j] == key;
      assert EdgeBefore(es[i], es[j]);
      LessIrreflexive(es[i].id);
      assert es[i] in es && es[j] in es;
      KeyCollision(es[i], es[j]);
    }
    forall key | RepeatedKey(edges, key) ensures Repeats(Keys(es), key) {
      var k, l :| k in edges && l in edges && k != l && ReadAlike(edges[k], edges[l])
        && key == edges[k].from + "|" + edges[k].to + "|" + TypeName(edges[k].etype);
      KeyCollision(edges[k], edges[l]);
      RepeatedListed(es, edges[k], edges[l]);
    }
  }

  lemma RepeatedListed(es: seq<GraphEdge>, e: GraphEdge, f: GraphEdge)
    requires e in es && f in es && e != f && EdgeKey(e) == EdgeKey(f)
    ensures Repeats(Keys(es), EdgeKey(e))
  {
    var i :| 0 <= i < |es| && es[i] == e;
    var j :| 0 <= j < |es| && es[j] == f;
    assert Keys(es)[i] == EdgeKey(e) && Keys(es)[j] == EdgeKey(e);
  }

  ghost predicate ReportsEdges(issues: seq<Issue>, st: State) {
    && (forall id :: DanglingReference(id) in issues <==> id in st.edges && Dangles(st.edges[id], st.nodes.Keys))
    && (forall key :: DuplicateEdge(key) in issues <==> RepeatedKey(st.edges, key))
  }

  lemma EdgeReport(es: seq<GraphEdge>, st: State)
    requires Valid(st) && ListsEdges(es, st.edges)
    ensures ReportsEdges(EdgeFindings(es, st.nodes.Keys), st)
  {
    var ids := st.nodes.Keys;
    forall id ensures DanglingReference(id) in EdgeFindings(es, ids) <==> id in st.edges && Dangles(st.edges[id], ids) {
      FindingsDangling(es, ids, id);
      if id in st.edges { assert st.edges[id] in es; }
    }
    KeysRepeated(es, st.edges);
    forall key ensures DuplicateEdge(key) in EdgeFindings(es, ids) <==> RepeatedKey(st.edges, key) {
      FindingsDuplicate(es, ids, key);
    }
  }

  /** When no end contains a '|', duplicates are reported for the parallel edges and nothing else. */
  lemma DuplicatesExactly(issues: seq<Issue>, st: State)
    requires ReportsEdges(issues, st) && NoBars(st.edges)
    ensures forall key :: DuplicateEdge(key) in issues <==> ParallelKey(st.edges, key)
    ensures (exists key :: DuplicateEdge(key) in issues) <==> exists k, l :: Parallel(st.edges, k, l)
  {
    forall key ensures RepeatedKey(st.edges, key) <==> ParallelKey(st.edges, key) {
      RepeatedIsParallel(st.edges, key);
    }
    if k, l :| Parallel(st.edges, k, l) {
      var key := st.edges[k].from + "|" + st.edges[k].to + "|" + TypeName(st.edges[k].etype);
      assert ParallelKey(st.edges, key);
      assert DuplicateEdge(key) in issues;
    }
  }

  lemma RepeatedIsParallel(edges: map<string, GraphEdge>, key: string)
    requires NoBars(edges)
    ensures RepeatedKey(edges, key) <==> ParallelKey(edges, key)
  {
    if RepeatedKey(edges, key) {
      var k, l :| k in edges && l in edges && k != l && ReadAlike(edges[k], edges[l])
        && key == edges[k].from + "|" + edges[k].to + "|" + TypeName(edges[k].etype);
      AlikeWithoutBars(edges[k], edges[l]);
      assert Parallel(edges, k, l);
    }
    if ParallelKey(edges, key) {
      var k, l :| Parallel(edges, k, l)
        && key == edges[k].from + "|" + edges[k].to + "|" + TypeName(edges[k].etype);
      assert ReadAlike(edges[k], edges[l]);
    }
  }

  lemma AlikeWithoutBars(e: GraphEdge, f: GraphEdge)
    requires '|' !in e.from && '|' !in e.to && '|' !in f.from && '|' !in f.to
    ensures ReadAlike(e, f) <==> (e.from, e.to, e.etype) == (f.from, f.to, f.etype)
  {
    if ShiftedAt('|', e.from, e.to, f.from, f.to) { NoShift('|', e.from, e.to, f.from, f.to); }
    if ShiftedAt('|', f.from, f.to, e.from, e.to) { NoShift('|', f.from, f.to, e.from, e.to); }
  }

  ghost predicate ReportsOrphans(issues: seq<Issue>, st: State) {
    forall id :: OrphanNode(id) in issues <==>
      id in st.nodes && st.nodes[id].ntype != Investigation && !Touched(st.edges, id)
  }

  /** Depends_on edges lead from a stored node to a. */
  ghost predicate LedTo(st: State, a: string) {
    exists r :: r in st.nodes && Reaches(StoredArcs(st.edges, IsDependsOn), r, a)
  }

  ghost predicate ReportsCycle(issues: seq<Issue>, st: State) {
    && (forall a, b :: CycleFound(a, b) in issues ==> OnCycle(StoredArcs(st.edges, IsDependsOn), a, b))
    && (forall a, b :: CycleFound(a, b) in issues ==> LedTo(st, a))
    && ((exists a, b :: CycleFound(a, b) in issues) <==> DependsCycle(st))
  }

  lemma CycleReport(st: State, cycle: Option<(string, string)>)
    requires Valid(st)
    requires var arcs := StoredArcs(st.edges, IsDependsOn);
             (cycle.Some? <==> CycleBelow(arcs, Ids(NodeListing(st.order, st.nodes))))
             && (cycle.Some? ==> OnCycle(arcs, cycle.value.0, cycle.value.1))
             && (cycle.Some? ==>
                   exists r :: r in Ids(NodeListing(st.order, st.nodes)) && Reaches(arcs, r, cycle.value.0))
    ensures ReportsCycle(if cycle.Some? then [CycleFound(cycle.value.0, cycle.value.1)] else [], st)
  {
    StoredIds(st);
    var arcs := StoredArcs(st.edges, IsDependsOn);
    var ids := Ids(NodeListing(st.order, st.nodes));
    assert forall r :: r in ids <==> r in Members(ids);
    assert CycleBelow(arcs, ids) <==> DependsCycle(st);
    if cycle.Some? { assert CycleFound(cycle.value.0, cycle.value.1) in [CycleFound(cycle.value.0, cycle.value.1)]; }
  }

  ghost predicate AnyHigh(issues: seq<Issue>) { exists x :: x in issues && x.Level() == High }

  lemma HighReport(issues: seq<Issue>, st: State)
    requires ReportsEdges(issues, st) && ReportsCycle(issues, st)
    ensures AnyHigh(issues) <==> !NoDangling(st) || DependsCycle(st)
  {
    if AnyHigh(issues) {
      var x :| x in issues && x.Level() == High;
      match x {
        case DanglingReference(id) => assert Dangles(st.edges[id], st.nodes.Keys);
        case CycleFound(a, b) => assert CycleFound(a, b) in issues;
      }
    }
    if !NoDangling(st) {
      var k :| k in st.edges && Dangles(st.edges[k], st.nodes.Keys);
      assert DanglingReference(k) in issues && DanglingReference(k).Level() == High;
    }
    if DependsCycle(st) {
      var a, b :| CycleFound(a, b) in issues;
      assert CycleFound(a, b).Level() == High;
    }
  }

  ghost predicate EdgeIssue(x: Issue) { x.DanglingReference? || x.DuplicateEdge? }

  method CheckEdges(g: MemoryStore, es: seq<GraphEdge>, ns: seq<GraphNode>) returns (issues: seq<Issue>)
    requires Valid(g.Value()) && ListsEdges(es, g.edges) && ns == NodeListing(g.order, g.nodes)
    ensures ReportsEdges(issues, g.Value()) && forall x :: x in issues ==> EdgeIssue(x)
  {
    StoredIds(g.Value());
    issues := EdgeIssues(es, Members(Ids(ns)));
    EdgeReport(es, g.Value());
    FindingsKinds(es, g.nodes.Keys);
  }

  method CheckOrphans(g: MemoryStore, es: seq<GraphEdge>, ns: seq<GraphNode>) returns (issues: seq<Issue>)
    requires Valid(g.Value()) && ListsEdges(es, g.edges) && ns == NodeListing(g.order, g.nodes)
    ensures ReportsOrphans(issues, g.Value()) && forall x :: x in issues ==> x.OrphanNode?
  {
    issues := OrphanIssues(es, ns);
    OrphanReport(g.Value(), es, issues);
  }

  method CheckCycle(g: MemoryStore, ns: seq<GraphNode>) returns (issues: seq<Issue>)
    requires Valid(g.Value()) && ns == NodeListing(g.order, g.nodes)
    ensures ReportsCycle(issues, g.Value()) && forall x :: x in issues ==> x.CycleFound?
  {
    var adj := BuildAdjacency(g, IsDependsOn);
    var cycle := FindCycle(adj, StoredArcs(g.edges, IsDependsOn), Ids(ns));
    issues := if cycle.Some? then [CycleFound(cycle.value.0, cycle.value.1)] else [];
    CycleReport(g.Value(), cycle);
  }

  /** The report lists exactly the dangling edges, the repeated keys and the unconnected
      nodes, and one cycle if and only if a stored node leads to one. */
  method Check(g: MemoryStore) returns (issues: seq<Issue>)
    requires Valid(g.Value())
    ensures ReportsEdges(issues, g.Value()) && ReportsOrphans(issues, g.Value()) && ReportsCycle(issues, g.Value())
    ensures AnyHigh(issues) <==> !NoDangling(g.Value()) || DependsCycle(g.Value())
  {
    var ns := g.AllNodes();
    var es := g.AllEdges();
    var edgeIssues := CheckEdges(g, es, ns);
    var orphans := CheckOrphans(g, es, ns);
    var cycle := CheckCycle(g, ns);
    issues := edgeIssues + orphans + cycle;
    KindsApart(g.Value(), edgeIssues, orphans, cycle);
    HighReport(issues, g.Value());
  }

  lemma KindsApart(st: State, e: seq<Issue>, o: seq<Issue>, c: seq<Issue>)
    requires ReportsEdges(e, st) && ReportsOrphans(o, st) && ReportsCycle(c, st)
    requires forall x :: x in e ==> EdgeIssue(x)
    requires forall x :: x in o ==> x.OrphanNode?
    requires forall x :: x in c ==> x.CycleFound?
    ensures ReportsEdges(e + o + c, st) && ReportsOrphans(e + o + c, st) && ReportsCycle(e + o + c, st)
  {
    var all := e + o + c;
    assert forall x :: x in all <==> x in e || x in o || x in c;
    if DependsCycle(st) {
      var a, b :| CycleFound(a, b) in c;
      assert CycleFound(a, b) in all;
    }
  }

  lemma OrphanReport(st: State, es: seq<GraphEdge>, orphans: seq<Issue>)
    requires Valid(st) && ListsEdges(es, st.edges)
    requires forall id :: OrphanNode(id) in orphans <==> exists n ::
      n in NodeListing(st.order, st.nodes) && n.id == id && n.ntype != Investigation
      && forall e :: e in es ==> e.from != id && e.to != id
    ensures ReportsOrphans(orphans, st)
  {
    StoredIds(st);
    forall id ensures Touched(st.edges, id) <==> exists e :: e in es && (e.from == id || e.to == id) {
      if Touched(st.edges, id) {
        var k :| k in st.edges && (st.edges[k].from == id || st.edges[k].to == id);
        assert st.edges[k] in es;
      }
      if e :| e in es && (e.from == id || e.to == id) { assert e.id in st.edges; }
    }
  }
}
