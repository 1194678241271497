/** The in-memory investigation graph store: nodes and edges keyed by id, and the
    insertion order of node ids. */
module Store {
  import opened Sorting
  import opened Wrappers

  datatype NodeType =
    | Investigation | Question | EvidenceRequest | Hypothesis | Configuration | Trace
    | Database | EvidenceNode | Service | Deployment | Alert | Metric | OtherNode

  datatype EdgeType =
    | Supports | Contradicts | Causes | Triggered | DependsOn | OccurredBefore
    | OccurredAfter | Generated | Resolves | Requests | BelongsTo | ObservedOn
    | RecoveredBy | CorrelatesWith | LikelyCaused | RecoveredAfter

  datatype GraphNode = GraphNode(id: string, ntype: NodeType, title: string, refId: string,
                                 props: map<string, string>)

  datatype GraphEdge = GraphEdge(id: string, from: string, to: string, etype: EdgeType,
                                 confidence: real, inferred: bool)

  datatype GraphView = GraphView(nodes: seq<GraphNode>, edges: seq<GraphEdge>)

  datatype StoreError = NodeNotFound | EdgeNotFound

  function TypeName(t: EdgeType): string {
    match t
    case Supports => "supports"
    case Contradicts => "contradicts"
    case Causes => "causes"
    case Triggered => "triggered"
    case DependsOn => "depends_on"
    case OccurredBefore => "occurred_before"
    case OccurredAfter => "occurred_after"
    case Generated => "generated"
    case Resolves => "resolves"
    case Requests => "requests"
    case BelongsTo => "belongs_to"
    case ObservedOn => "observed_on"
    case RecoveredBy => "recovered_by"
    case CorrelatesWith => "correlates_with"
    case LikelyCaused => "likely_caused"
    case RecoveredAfter => "recovered_after"
  }

  /** The id given to an edge that comes without one. */
  function AutoId(from: string, to: string, t: EdgeType): string {
    "edge-" + (from + "-" + to + "-" + TypeName(t))
  }

  function WithId(e: GraphEdge): GraphEdge {
    if e.id == "" then e.(id := AutoId(e.from, e.to, e.etype)) else e
  }

  // ----- The store as a value -----

  datatype State = State(nodes: map<string, GraphNode>, edges: map<string, GraphEdge>, order: seq<string>)

  const Empty := State(map[], map[], [])

  datatype Op =
    | OpAddNode(node: GraphNode) | OpUpdateNode(node: GraphNode) | OpDeleteNode(id: string)
    | OpAddEdge(edge: GraphEdge) | OpRemoveEdge(id: string) | OpReset

  function Exec(st: State, op: Op): State {
    match op
    case OpAddNode(n) =>
      if n.id in st.nodes then st
      else st.(nodes := st.nodes[n.id := n], order := st.order + [n.id])
    case OpUpdateNode(n) =>
      if n.id in st.nodes then st.(nodes := st.nodes[n.id := n]) else st
    case OpDeleteNode(id) =>
      if id in st.nodes then
        st.(nodes := st.nodes - {id},
            edges := map k | k in st.edges && st.edges[k].from != id && st.edges[k].to != id :: st.edges[k])
      else st
    case OpAddEdge(e) => st.(edges := st.edges[WithId(e).id := WithId(e)])
    case OpRemoveEdge(id) => st.(edges := st.edges - {id})
    case OpReset => Empty
  }

  function ExecAll(st: State, ops: seq<Op>): State
    decreases |ops|
  {
    if ops == [] then st else ExecAll(Exec(st, ops[0]), ops[1..])
  }

  ghost predicate Valid(st: State) {
    && (forall k :: k in st.nodes ==> st.nodes[k].id == k && k in st.order)
    && (forall k :: k in st.edges ==> st.edges[k].id == k)
    && "" !in st.edges
  }

  lemma ExecValid(st: State, op: Op)
    requires Valid(st)
    ensures Valid(Exec(st, op))
  {
  }

  lemma {:induction false} RunValid(st: State, ops: seq<Op>)
    requires Valid(st)
    ensures Valid(ExecAll(st, ops))
    decreases |ops|
  {
    if ops != [] {
      ExecValid(st, ops[0]);
      RunValid(Exec(st, ops[0]), ops[1..]);
    }
  }

  // ----- Listings -----

  function NodeListing(order: seq<string>, nodes: map<string, GraphNode>): seq<GraphNode> {
    if order == [] then []
    else (if order[0] in nodes then [nodes[order[0]]] else []) + NodeListing(order[1..], nodes)
  }

  predicate EdgeBefore(a: GraphEdge, b: GraphEdge) { Less(a.id, b.id) }

  ghost predicate Ascending(s: seq<GraphEdge>) {
    forall i, j :: 0 <= i < j < |s| ==> EdgeBefore(s[i], s[j])
  }

  ghost predicate ListsEdges(s: seq<GraphEdge>, edges: map<string, GraphEdge>) {
    && Ascending(s)
    && forall e :: e in s <==> e.id in edges && edges[e.id] == e
  }

  lemma {:induction false} AscendingUnique(s: seq<GraphEdge>, t: seq<GraphEdge>)
    requires Ascending(s) && Ascending(t) && forall e :: e in s <==> e in t
    ensures s == t
    decreases |s|
  {
    assert s != [] ==> s[0] in t;
    assert t != [] ==> t[0] in s;
    if s != [] {
      var j :| 0 <= j < |t| && t[j] == s[0];
      var i :| 0 <= i < |s| && s[i] == t[0];
      LessIrreflexive(s[0].id);
      if EdgeBefore(s[0], t[0]) { LessAsymmetric(s[0].id, t[0].id); }
      assert s[0] == t[0];
      forall e ensures e in s[1..] <==> e in t[1..] {
        TailMember(s, e);
        TailMember(t, e);
      }
      AscendingUnique(s[1..], t[1..]);
    }
  }

  lemma TailMember(s: seq<GraphEdge>, e: GraphEdge)
    requires Ascending(s) && s != []
    ensures e in s[1..] <==> e in s && e != s[0]
  {
    LessIrreflexive(s[0].id);
    if e in s && e != s[0] {
      var i :| 0 <= i < |s| && s[i] == e;
      assert s[1..][i - 1] == e;
    }
  }

  /** The listing of a set of edges is a function of that set: the arbitrary order in
      which a hash map is iterated is gone after the sort. */
  lemma ListingUnique(s: seq<GraphEdge>, t: seq<GraphEdge>, edges: map<string, GraphEdge>)
    requires ListsEdges(s, edges) && ListsEdges(t, edges)
    ensures s == t
  {
    AscendingUnique(s, t);
  }

  lemma EdgeOrder()
    ensures StrictWeak(EdgeBefore)
  {
    forall a: GraphEdge ensures !EdgeBefore(a, a) { LessIrreflexive(a.id); }
    forall a, b, c | EdgeBefore(a, b) && EdgeBefore(b, c) ensures EdgeBefore(a, c) {
      LessTransitive(a.id, b.id, c.id);
    }
    forall a, b, c | !EdgeBefore(a, b) && !EdgeBefore(b, c) ensures !EdgeBefore(a, c) {
      LessTotal(a.id, b.id);
      LessTotal(b.id, c.id);
      LessTotal(a.id, c.id);
      if EdgeBefore(a, c) {
        if Less(c.id, b.id) { LessTransitive(a.id, c.id, b.id); }
      }
    }
  }

  /** Sorting any duplicate-free enumeration of the stored edges gives their listing. */
  lemma SortLists(s: seq<GraphEdge>, edges: map<string, GraphEdge>)
    requires NoDuplicates(s)
    requires forall e :: e in s <==> e.id in edges && edges[e.id] == e
    ensures ListsEdges(StableSort(s, EdgeBefore), edges)
  {
    EdgeOrder();
    SortSorts(s, EdgeBefore);
    SortMembers(s, EdgeBefore);
    SortDistinct(s, EdgeBefore);
    var r := StableSort(s, EdgeBefore);
    forall i, j | 0 <= i < j < |r| ensures EdgeBefore(r[i], r[j]) {
      assert r[i] in r && r[j] in r;
      LessTotal(r[i].id, r[j].id);
    }
  }

  // ----- The store as an object -----

  class MemoryStore {
    var nodes: map<string, GraphNode>
    var edges: map<string, GraphEdge>
    var order: seq<string>

    function Value(): State
      reads this
    {
      State(nodes, edges, order)
    }

    constructor ()
      ensures Value() == Empty
    {
      nodes, edges, order := map[], map[], [];
    }

    method AddNode(node: GraphNode)
      modifies this
      ensures Value() == Exec(old(Value()), OpAddNode(node))
    {
      if node.id !in nodes {
        nodes := nodes[node.id := node];
        order := order + [node.id];
      }
    }

    method UpdateNode(node: GraphNode) returns (err: Option<StoreError>)
      modifies this
      ensures Value() == Exec(old(Value()), OpUpdateNode(node))
      ensures err == if node.id in old(nodes) then None else Some(NodeNotFound)
    {
      if node.id !in nodes {
        return Some(NodeNotFound);
      }
      nodes := nodes[node.id := node];
      err := None;
    }

    /** The id stays in the insertion order. */
    method DeleteNode(id: string) returns (err: Option<StoreError>)
      modifies this
      ensures Value() == Exec(old(Value()), OpDeleteNode(id))
      ensures err == if id in old(nodes) then None else Some(NodeNotFound)
    {
      if id !in nodes {
        return Some(NodeNotFound);
      }
      nodes := nodes - {id};
      var rest := edges.Keys;
      while rest != {}
        invariant rest <= old(edges).Keys && edges.Keys <= old(edges).Keys
        invariant nodes == old(nodes) - {id} && order == old(order)
        invariant forall k :: k in edges ==> edges[k] == old(edges)[k]
        invariant forall k :: k in rest ==> k in edges
        invariant forall k :: k in old(edges) && k !in rest ==>
          (k in edges <==> old(edges)[k].from != id && old(edges)[k].to != id)
        decreases |rest|
      {
        var k :| k in rest;
        rest := rest - {k};
        if edges[k].from == id || edges[k].to == id {
          edges := edges - {k};
        }
      }
      err := None;
    }

    method GetNode(id: string) returns (n: Option<GraphNode>)
      ensures n == if id in nodes then Some(nodes[id]) else None
    {
      if id in nodes {
        n := Some(nodes[id]);
      } else {
        n := None;
      }
    }

    method AddEdge(edge: GraphEdge)
      modifies this
      ensures Value() == Exec(old(Value()), OpAddEdge(edge))
    {
      var e := edge;
      if e.id == "" {
        e := e.(id := AutoId(e.from, e.to, e.etype));
      }
      edges := edges[e.id := e];
    }

    method RemoveEdge(id: string) returns (err: Option<StoreError>)
      modifies this
      ensures Value() == Exec(old(Value()), OpRemoveEdge(id))
      ensures err == if id in old(edges) then None else Some(EdgeNotFound)
    {
      if id !in edges {
        err := Some(EdgeNotFound);
      } else {
        edges := edges - {id};
        err := None;
      }
    }

    method Reset()
      modifies this
      ensures Value() == Empty
    {
      nodes, edges, order := map[], map[], [];
    }

    method AllNodes() returns (out: seq<GraphNode>)
      ensures out == NodeListing(order, nodes)
    {
      out := [];
      for i := 0 to |order|
        invariant out + NodeListing(order[i..], nodes) == NodeListing(order, nodes)
      {
        if order[i] in nodes {
          out := out + [nodes[order[i]]];
        }
      }
    }

    method AllEdges() returns (out: seq<GraphEdge>)
      requires Valid(Value())
      ensures ListsEdges(out, edges)
    {
      out := [];
      var rest := edges.Keys;
      while rest != {}
        invariant rest <= edges.Keys
        invariant NoDuplicates(out)
        invariant forall e :: e in out <==> e.id in edges && e.id !in rest && edges[e.id] == e
        decreases |rest|
      {
        var k :| k in rest;
        rest := rest - {k};
        out := out + [edges[k]];
      }
      SortLists(out, edges);
      out := StableSort(out, EdgeBefore);
    }

    /** The edges at one node, in the same order. */
    method GetEdges(nodeId: string) returns (out: seq<GraphEdge>)
      requires Valid(Value())
      ensures Ascending(out)
      ensures forall e :: e in out <==>
        e.id in edges && edges[e.id] == e && (e.from == nodeId || e.to == nodeId)
    {
      var all := AllEdges();
      out := [];
      for i := 0 to |all|
        invariant Ascending(out)
        invariant forall j, e :: e in out && i <= j < |all| ==> EdgeBefore(e, all[j])
        invariant forall e :: e in out <==> e in all[..i] && (e.from == nodeId || e.to == nodeId)
      {
        if all[i].from == nodeId || all[i].to == nodeId {
          out := out + [all[i]];
        }
      }
      assert all[..|all|] == all;
    }

    method View() returns (v: GraphView)
      requires Valid(Value())
      ensures v.nodes == NodeListing(order, nodes) && ListsEdges(v.edges, edges)
    {
      var ns := AllNodes();
      var es := AllEdges();
      v := GraphView(ns, es);
    }
  }

  // ----- Loading a snapshot -----

  function LoadNodes(st: State, ns: seq<GraphNode>): State
    decreases |ns|
  {
    if ns == [] then st else LoadNodes(Exec(st, OpAddNode(ns[0])), ns[1..])
  }

  function LoadEdges(st: State, es: seq<GraphEdge>): State
    decreases |es|
  {
    if es == [] then st else LoadEdges(Exec(st, OpAddEdge(es[0])), es[1..])
  }

  function Loaded(v: GraphView): State { LoadEdges(LoadNodes(Empty, v.nodes), v.edges) }

  method FromView(v: Option<GraphView>) returns (g: MemoryStore)
    ensures fresh(g)
    ensures g.Value() == if v.Some? then Loaded(v.value) else Empty
  {
    g := new MemoryStore();
    if v.None? {
      return;
    }
    for i := 0 to |v.value.nodes|
      invariant fresh(g)
      invariant LoadNodes(g.Value(), v.value.nodes[i..]) == LoadNodes(Empty, v.value.nodes)
    {
      g.AddNode(v.value.nodes[i]);
    }
    for i := 0 to |v.value.edges|
      invariant fresh(g)
      invariant LoadEdges(g.Value(), v.value.edges[i..]) == Loaded(v.value)
    {
      g.AddEdge(v.value.edges[i]);
    }
  }

  // ----- What the listings and snapshots preserve -----

  ghost predicate Deleted(st: State, id: string) { id in st.order && id !in st.nodes }

  /** No operation adds a node whose id was deleted before (since the last Reset). */
  ghost predicate NeverReadds(st: State, ops: seq<Op>)
    decreases |ops|
  {
    ops == [] || (!(ops[0].OpAddNode? && Deleted(st, ops[0].node.id)) && NeverReadds(Exec(st, ops[0]), ops[1..]))
  }

  /** One operation keeps the insertion order free of repeats exactly when it does not
      re-add a deleted node; DeleteNode leaves the id behind. */
  lemma OrderStaysDistinct(st: State, op: Op)
    requires Valid(st) && NoDuplicates(st.order)
    ensures NoDuplicates(Exec(st, op).order) <==> !(op.OpAddNode? && Deleted(st, op.node.id))
  {
    if op.OpAddNode? && Deleted(st, op.node.id) {
      var i :| 0 <= i < |st.order| && st.order[i] == op.node.id;
      var r := Exec(st, op).order;
      assert r[i] == r[|st.order|];
    }
  }

  lemma {:induction false} RunOrderDistinct(st: State, ops: seq<Op>)
    requires Valid(st) && NoDuplicates(st.order) && NeverReadds(st, ops)
    ensures NoDuplicates(ExecAll(st, ops).order)
    decreases |ops|
  {
    if ops != [] {
      OrderStaysDistinct(st, ops[0]);
      ExecValid(st, ops[0]);
      RunOrderDistinct(Exec(st, ops[0]), ops[1..]);
    }
  }

  function Ids(ns: seq<GraphNode>): seq<string> {
    if ns == [] then [] else [ns[0].id] + Ids(ns[1..])
  }

  /** The ids of the listing are the live ids of the insertion order, in that order. */
  lemma {:induction false} ListingIds(order: seq<string>, nodes: map<string, GraphNode>)
    requires forall k :: k in nodes ==> nodes[k].id == k
    ensures Ids(NodeListing(order, nodes)) == Filter(order, (k: string) => k in nodes)
  {
    if order != [] {
      ListingIds(order[1..], nodes);
      var rest := NodeListing(order[1..], nodes);
      if order[0] in nodes {
        assert ([nodes[order[0]]] + rest)[1..] == rest;
      } else {
        assert [] + rest == rest;
      }
    }
  }

  lemma {:induction false} FilterDistinct<T>(s: seq<T>, keep: T -> bool)
    requires NoDuplicates(s)
    ensures NoDuplicates(Filter(s, keep))
  {
    if s != [] {
      FilterDistinct(s[1..], keep);
      FilterMembers(s[1..], keep);
      assert s[0] !in s[1..];
    }
  }

  /** After any run that never re-adds a deleted node, AllNodes lists every live node
      exactly once, in insertion order. */
  lemma AllNodesListsOnce(ops: seq<Op>)
    requires NeverReadds(Empty, ops)
    ensures var st := ExecAll(Empty, ops);
            var ids := Ids(NodeListing(st.order, st.nodes));
            && NoDuplicates(ids)
            && (forall k :: k in ids <==> k in st.nodes)
            && ids == Filter(st.order, (k: string) => k in st.nodes)
  {
    var st := ExecAll(Empty, ops);
    RunValid(Empty, ops);
    RunOrderDistinct(Empty, ops);
    ListingIds(st.order, st.nodes);
    FilterDistinct(st.order, (k: string) => k in st.nodes);
    FilterMembers(st.order, (k: string) => k in st.nodes);
  }

  /** Adding, deleting and adding the same node lists it twice. */
  lemma ReaddListsTwice(n: GraphNode)
    ensures var st := ExecAll(Empty, [OpAddNode(n), OpDeleteNode(n.id), OpAddNode(n)]);
            NodeListing(st.order, st.nodes) == [n, n]
  {
    var s1 := Exec(Empty, OpAddNode(n));
    var s2 := Exec(s1, OpDeleteNode(n.id));
    var s3 := Exec(s2, OpAddNode(n));
    var ops := [OpAddNode(n), OpDeleteNode(n.id), OpAddNode(n)];
    assert ops[1..] == [OpDeleteNode(n.id), OpAddNode(n)];
    assert ops[1..][1..] == [OpAddNode(n)];
    assert s3.order == [n.id, n.id];
    assert s3.order[1..] == [n.id] && s3.nodes == map[n.id := n];
    assert NodeListing([n.id], s3.nodes) == [n] + NodeListing([], s3.nodes);
    assert NodeListing(s3.order, s3.nodes) == [n] + NodeListing(s3.order[1..], s3.nodes);
    calc {
      ExecAll(Empty, ops);
      ExecAll(s1, ops[1..]);
      ExecAll(s2, ops[1..][1..]);
      s3;
    }
  }

  lemma {:induction false} LoadNodesKeeps(st: State, ns: seq<GraphNode>)
    requires Valid(st)
    ensures Valid(LoadNodes(st, ns)) && LoadNodes(st, ns).edges == st.edges
    ensures NoDuplicates(st.order) && st.nodes.Keys == Members(st.order) ==>
      NoDuplicates(LoadNodes(st, ns).order) && LoadNodes(st, ns).nodes.Keys == Members(LoadNodes(st, ns).order)
    ensures forall k :: k in LoadNodes(st, ns).nodes <==> k in st.nodes || k in Ids(ns)
    ensures forall k :: k in st.nodes ==> LoadNodes(st, ns).nodes[k] == st.nodes[k]
    decreases |ns|
  {
    if ns != [] {
      LoadNodesKeeps(Exec(st, OpAddNode(ns[0])), ns[1..]);
    }
  }

  /** Loading nodes that agree with a table rebuilds that part of the table. */
  lemma {:induction false} LoadNodesAgrees(st: State, ns: seq<GraphNode>, nodes: map<string, GraphNode>)
    requires Valid(st)
    requires forall k :: k in st.nodes ==> k in nodes && st.nodes[k] == nodes[k]
    requires forall n :: n in ns ==> n.id in nodes && nodes[n.id] == n
    ensures forall k :: k in LoadNodes(st, ns).nodes ==> k in nodes && LoadNodes(st, ns).nodes[k] == nodes[k]
    decreases |ns|
  {
    if ns != [] {
      LoadNodesAgrees(Exec(st, OpAddNode(ns[0])), ns[1..], nodes);
    }
  }

  lemma {:induction false} LoadEdgesAgrees(st: State, es: seq<GraphEdge>, edges: map<string, GraphEdge>)
    requires forall e :: e in es ==> e.id != "" && e.id in edges && edges[e.id] == e
    requires forall k :: k in st.edges ==> k in edges && st.edges[k] == edges[k]
    ensures LoadEdges(st, es).nodes == st.nodes && LoadEdges(st, es).order == st.order
    ensures forall k :: k in LoadEdges(st, es).edges ==> k in edges && LoadEdges(st, es).edges[k] == edges[k]
    ensures forall k :: k in LoadEdges(st, es).edges <==> k in st.edges || exists e :: e in es && e.id == k
    decreases |es|
  {
    if es != [] {
      var st1 := Exec(st, OpAddEdge(es[0]));
      LoadEdgesAgrees(st1, es[1..], edges);
      forall k ensures k in LoadEdges(st, es).edges <==> k in st.edges || exists e :: e in es && e.id == k {
        if k in st1.edges && k !in st.edges { assert es[0] in es && es[0].id == k; }
        if exists e :: e in es[1..] && e.id == k {
          var e :| e in es[1..] && e.id == k;
          assert e in es;
        }
      }
    }
  }

  lemma {:induction false} ListingMembers(order: seq<string>, nodes: map<string, GraphNode>)
    ensures forall n :: n in NodeListing(order, nodes) <==> exists k :: k in order && k in nodes && nodes[k] == n
  {
    if order != [] {
      ListingMembers(order[1..], nodes);
      forall n ensures n in NodeListing(order, nodes) <==> exists k :: k in order && k in nodes && nodes[k] == n {
        if k :| k in order && k in nodes && nodes[k] == n {
          assert k == order[0] || k in order[1..];
        }
        if n in NodeListing(order, nodes) {
          if n !in NodeListing(order[1..], nodes) { assert order[0] in order; }
        }
      }
    }
  }

  ghost predicate IsView(v: GraphView, st: State) {
    v.nodes == NodeListing(st.order, st.nodes) && ListsEdges(v.edges, st.edges)
  }

  lemma {:induction false} Enumerated(keys: set<string>, edges: map<string, GraphEdge>) returns (s: seq<GraphEdge>)
    requires keys <= edges.Keys && forall k :: k in edges ==> edges[k].id == k
    ensures NoDuplicates(s) && forall e :: e in s <==> e.id in keys && edges[e.id] == e
    decreases keys
  {
    if keys == {} {
      s := [];
    } else {
      var k :| k in keys;
      var r := Enumerated(keys - {k}, edges);
      s := r + [edges[k]];
    }
  }

  lemma ViewExists(st: State)
    requires Valid(st)
    ensures exists v :: IsView(v, st)
  {
    var s := Enumerated(st.edges.Keys, st.edges);
    SortLists(s, st.edges);
    assert IsView(GraphView(NodeListing(st.order, st.nodes), StableSort(s, EdgeBefore)), st);
  }

  /** The snapshot of a store; by ListingUnique there is only one. */
  ghost function ViewOf(st: State): (v: GraphView)
    requires Valid(st)
    ensures IsView(v, st)
  {
    ViewExists(st);
    var v :| IsView(v, st);
    v
  }

  lemma IdsMembers(ns: seq<GraphNode>)
    ensures forall k :: k in Ids(ns) <==> exists n :: n in ns && n.id == k
  {
    if ns != [] {
      IdsMembers(ns[1..]);
      forall k ensures k in Ids(ns) <==> exists n :: n in ns && n.id == k {
        if n :| n in ns && n.id == k { assert n == ns[0] || n in ns[1..]; }
        if k == ns[0].id { assert ns[0] in ns; }
      }
    }
  }

  lemma RoundTripNodes(st: State, v: GraphView)
    requires Valid(st) && IsView(v, st)
    ensures LoadNodes(Empty, v.nodes).nodes == st.nodes
  {
    ListedNodes(st, v);
    LoadNodesKeeps(Empty, v.nodes);
    LoadNodesAgrees(Empty, v.nodes, st.nodes);
  }

  lemma ListedNodes(st: State, v: GraphView)
    requires Valid(st) && IsView(v, st)
    ensures forall n :: n in v.nodes ==> n.id in st.nodes && st.nodes[n.id] == n
    ensures forall k :: k in st.nodes ==> k in Ids(v.nodes)
  {
    ListingMembers(st.order, st.nodes);
    IdsMembers(v.nodes);
    forall k | k in st.nodes ensures k in Ids(v.nodes) { assert st.nodes[k] in v.nodes; }
  }

  lemma RoundTripEdges(st: State, mid: State, v: GraphView)
    requires Valid(st) && IsView(v, st) && mid.edges == map[]
    ensures LoadEdges(mid, v.edges) == State(mid.nodes, st.edges, mid.order)
  {
    LoadEdgesAgrees(mid, v.edges, st.edges);
    forall k ensures k in LoadEdges(mid, v.edges).edges <==> k in st.edges {
      if k in st.edges { assert st.edges[k] in v.edges; }
    }
  }

  /** Snapshot then load rebuilds the same nodes and the same edges. */
  lemma RoundTrip(st: State, v: GraphView)
    requires Valid(st) && IsView(v, st)
    ensures Loaded(v).nodes == st.nodes && Loaded(v).edges == st.edges
    ensures Valid(Loaded(v)) && NoDuplicates(Loaded(v).order)
    ensures Loaded(v).nodes.Keys == Members(Loaded(v).order)
  {
    LoadNodesKeeps(Empty, v.nodes);
    RoundTripNodes(st, v);
    RoundTripEdges(st, LoadNodes(Empty, v.nodes), v);
  }

  lemma {:induction false} LoadListing(st: State, order: seq<string>, nodes: map<string, GraphNode>)
    requires NoDuplicates(order) && forall k :: k in order ==> k in nodes && nodes[k].id == k && k !in st.nodes
    ensures LoadNodes(st, NodeListing(order, nodes)).order == st.order + order
    decreases |order|
  {
    if order != [] {
      var rest := NodeListing(order[1..], nodes);
      assert ([nodes[order[0]]] + rest)[1..] == rest;
      assert order[0] !in order[1..];
      LoadListing(Exec(st, OpAddNode(nodes[order[0]])), order[1..], nodes);
    }
  }

  /** Load-then-snapshot reaches a fixed point at once: for an arbitrary view v, loading
      it (first node and last edge of an id win), taking the view and loading that
      again changes nothing, not even the insertion order. */
  lemma LoadViewIdempotent(v: GraphView, w: GraphView)
    requires IsView(w, Loaded(v))
    ensures Loaded(w) == Loaded(v)
  {
    LoadNodesKeeps(Empty, v.nodes);
    var mid := LoadNodes(Empty, v.nodes);
    LoadEdgesValid(mid, v.edges);
    var st := Loaded(v);
    RoundTrip(st, w);
    LoadListing(Empty, st.order, st.nodes);
    LoadNodesKeeps(Empty, w.nodes);
    RoundTripNodes(st, w);
    RoundTripEdges(st, LoadNodes(Empty, w.nodes), w);
  }

  lemma {:induction false} LoadEdgesValid(st: State, es: seq<GraphEdge>)
    requires Valid(st)
    ensures Valid(LoadEdges(st, es))
    ensures LoadEdges(st, es).nodes == st.nodes && LoadEdges(st, es).order == st.order
    decreases |es|
  {
    if es != [] { LoadEdgesValid(Exec(st, OpAddEdge(es[0])), es[1..]); }
  }

  lemma LoadedValid(v: GraphView)
    ensures Valid(Loaded(v))
  {
    LoadNodesKeeps(Empty, v.nodes);
    LoadEdgesValid(LoadNodes(Empty, v.nodes), v.edges);
  }

  // ----- Adding and deleting -----

  /** Deleting a node takes away the node and the edges at it, all of them and no others, so that an edge
      dangles afterwards only if it did before. */
  lemma DeleteExactly(st: State, id: string)
    requires id in st.nodes
    ensures var r := Exec(st, OpDeleteNode(id));
            && (forall k :: k in r.nodes <==> k in st.nodes && k != id)
            && (forall k :: k in r.nodes ==> r.nodes[k] == st.nodes[k])
            && (forall k :: k in r.edges <==> k in st.edges && id !in {st.edges[k].from, st.edges[k].to})
            && (forall k :: k in r.edges ==> r.edges[k] == st.edges[k])
            && (forall k :: k in r.edges && (r.edges[k].from !in r.nodes || r.edges[k].to !in r.nodes) ==>
                  st.edges[k].from !in st.nodes || st.edges[k].to !in st.nodes)
  {
  }

  /** Adding a new node and deleting it again gives back the nodes and the edges, if none is at it; the
      id stays in the insertion order. */
  lemma AddThenDelete(st: State, n: GraphNode)
    requires n.id !in st.nodes && forall k :: k in st.edges ==> n.id !in {st.edges[k].from, st.edges[k].to}
    ensures Exec(Exec(st, OpAddNode(n)), OpDeleteNode(n.id)) == State(st.nodes, st.edges, st.order + [n.id])
  {
    var r := Exec(Exec(st, OpAddNode(n)), OpDeleteNode(n.id));
    assert r.nodes == st.nodes;
    assert r.edges == st.edges;
  }

  /** Adding a stored node, updating an unknown one and deleting an unknown one change nothing; an edge is
      removed under its own id only, and removing undoes adding a new edge. */
  lemma HarmlessOps(st: State, n: GraphNode, e: GraphEdge)
    ensures n.id in st.nodes ==> Exec(st, OpAddNode(n)) == st
    ensures n.id !in st.nodes ==> Exec(st, OpUpdateNode(n)) == st && Exec(st, OpDeleteNode(n.id)) == st
    ensures WithId(e).id !in st.edges ==> Exec(Exec(st, OpAddEdge(e)), OpRemoveEdge(WithId(e).id)) == st
  {
    if WithId(e).id !in st.edges {
      assert st.edges[WithId(e).id := WithId(e)] - {WithId(e).id} == st.edges;
    }
  }

  // ----- Automatic edge ids -----

  ghost predicate AutoKeyed(st: State) {
    forall k :: k in st.edges ==> k == AutoId(st.edges[k].from, st.edges[k].to, st.edges[k].etype)
  }

  /** When every edge was added without an id, no two stored edges share source, target and type. */
  lemma {:induction false} AutoIdsNeverRepeat(st: State, ops: seq<Op>)
    requires Valid(st) && AutoKeyed(st)
    requires forall op :: op in ops && op.OpAddEdge? ==> op.edge.id == ""
    ensures var r := ExecAll(st, ops).edges;
            forall k, l | k in r && l in r ::
              (r[k].from, r[k].to, r[k].etype) == (r[l].from, r[l].to, r[l].etype) ==> k == l
    ensures AutoKeyed(ExecAll(st, ops))
    decreases |ops|
  {
    if ops != [] {
      ExecValid(st, ops[0]);
      assert ops[0] in ops;
      AutoIdsNeverRepeat(Exec(st, ops[0]), ops[1..]);
    }
  }

  lemma TypeNamesDistinct(s: EdgeType, t: EdgeType)
    requires TypeName(s) == TypeName(t)
    ensures s == t
  {
  }

  lemma LastMark(sep: char, a: string, s: string)
    requires sep !in s
    ensures var x := a + [sep] + s; x[|a|] == sep && forall i :: |a| < i < |x| ==> x[i] != sep
  {
    var x := a + [sep] + s;
    forall i | |a| < i < |x| ensures x[i] != sep {
      assert x[i] == s[i - |a| - 1] && s[i - |a| - 1] in s;
    }
  }

  /** A name that does not contain the separator can be split off after the last one. */
  lemma SplitLast(sep: char, a: string, s: string, b: string, t: string)
    requires a + [sep] + s == b + [sep] + t
    requires sep !in s && sep !in t
    ensures a == b && s == t
  {
    LastMark(sep, a, s);
    LastMark(sep, b, t);
    JoinSame(sep, a, s, b, t);
  }

  lemma PrefixCancels(p: string, x: string, y: string)
    ensures p + x == p + y <==> x == y
  {
    assert (p + x)[|p|..] == x && (p + y)[|p|..] == y;
  }

  /** The second pair is the first one cut at a later separator. */
  ghost predicate ShiftedAt(sep: char, f1: string, t1: string, f2: string, t2: string) {
    exists mid: string :: f2 == f1 + [sep] + mid && t1 == mid + [sep] + t2
  }

  /** to begins where from ends: the shape of two edges that get one id. */
  ghost predicate Shifted(f1: string, t1: string, f2: string, t2: string) {
    ShiftedAt('-', f1, t1, f2, t2)
  }

  /** Two pairs of texts are joined to the same text exactly when they are equal or one of
      them is the other cut elsewhere. */
  lemma JoinCollision(sep: char, f1: string, t1: string, f2: string, t2: string)
    ensures f1 + [sep] + t1 == f2 + [sep] + t2 <==>
      (f1 == f2 && t1 == t2) || ShiftedAt(sep, f1, t1, f2, t2) || ShiftedAt(sep, f2, t2, f1, t1)
  {
    if f1 + [sep] + t1 == f2 + [sep] + t2 {
      if |f1| < |f2| { JoinShift(sep, f1, t1, f2, t2); }
      if |f2| < |f1| { JoinShift(sep, f2, t2, f1, t1); }
      if |f1| == |f2| { JoinSame(sep, f1, t1, f2, t2); }
    }
    if ShiftedAt(sep, f1, t1, f2, t2) {
      var mid: string :| f2 == f1 + [sep] + mid && t1 == mid + [sep] + t2;
      assert f1 + [sep] + (mid + [sep] + t2) == (f1 + [sep] + mid) + [sep] + t2;
    }
    if ShiftedAt(sep, f2, t2, f1, t1) {
      var mid: string :| f1 == f2 + [sep] + mid && t2 == mid + [sep] + t1;
      assert f2 + [sep] + (mid + [sep] + t1) == (f2 + [sep] + mid) + [sep] + t1;
    }
  }

  lemma JoinSame(sep: char, f1: string, t1: string, f2: string, t2: string)
    requires f1 + [sep] + t1 == f2 + [sep] + t2 && |f1| == |f2|
    ensures f1 == f2 && t1 == t2
  {
    var x := f1 + [sep] + t1;
    var y := f2 + [sep] + t2;
    assert x[..|f1|] == f1 && y[..|f2|] == f2;
    assert x[|f1| + 1..] == t1 && y[|f2| + 1..] == t2;
  }

  lemma JoinShift(sep: char, f1: string, t1: string, f2: string, t2: string)
    requires f1 + [sep] + t1 == f2 + [sep] + t2 && |f1| < |f2|
    ensures ShiftedAt(sep, f1, t1, f2, t2)
  {
    var x := f1 + [sep] + t1;
    var y := f2 + [sep] + t2;
    var mid := f2[|f1| + 1..];
    assert x[|f1|] == sep && x[..|f1|] == f1 && y[..|f2|] == f2;
    assert f2[|f1|] == y[|f1|] && f2[..|f1|] == y[..|f1|];
    assert f2 == f2[..|f1|] + [f2[|f1|]] + mid;
    assert x[|f1| + 1..] == t1;
    assert y[|f1| + 1..] == mid + [sep] + t2;
  }

  /** A text without the separator can be cut in one way only. */
  lemma NoShift(sep: char, f1: string, t1: string, f2: string, t2: string)
    requires ShiftedAt(sep, f1, t1, f2, t2)
    ensures sep in f2 && sep in t1
  {
    var mid: string :| f2 == f1 + [sep] + mid && t1 == mid + [sep] + t2;
    assert f2[|f1|] == sep && t1[|mid|] == sep;
  }

  lemma NameHasNoDash(t: EdgeType)
    ensures '-' !in TypeName(t)
  {
  }

  lemma AutoIdParts(f1: string, t1: string, s: EdgeType, f2: string, t2: string, t: EdgeType)
    ensures AutoId(f1, t1, s) == AutoId(f2, t2, t) <==> s == t && f1 + "-" + t1 == f2 + "-" + t2
  {
    var n1, n2 := TypeName(s), TypeName(t);
    PrefixCancels("edge-", f1 + "-" + t1 + "-" + n1, f2 + "-" + t2 + "-" + n2);
    NameHasNoDash(s);
    NameHasNoDash(t);
    if f1 + "-" + t1 + "-" + n1 == f2 + "-" + t2 + "-" + n2 {
      SplitLast('-', f1 + "-" + t1, n1, f2 + "-" + t2, n2);
      TypeNamesDistinct(s, t);
    }
  }

  /** Exactly when two edges without ids are given the same id, so that the second
      replaces the first: same type, and either the same endpoints or a '-' inside
      an endpoint that lets the text be cut in two ways. */
  lemma AutoIdCollision(f1: string, t1: string, s: EdgeType, f2: string, t2: string, t: EdgeType)
    ensures AutoId(f1, t1, s) == AutoId(f2, t2, t) <==>
      s == t && ((f1 == f2 && t1 == t2) || Shifted(f1, t1, f2, t2) || Shifted(f2, t2, f1, t1))
  {
    AutoIdParts(f1, t1, s, f2, t2, t);
    JoinCollision('-', f1, t1, f2, t2);
  }

  /** The same for edge types outside the declared ones, which may contain a '-' themselves. */
  lemma AnyTypeCollision(f1: string, t1: string, n1: string, f2: string, t2: string, n2: string)
    ensures "edge-" + (f1 + "-" + (t1 + "-" + n1)) == "edge-" + (f2 + "-" + (t2 + "-" + n2)) <==>
      || (f1 == f2 && ((t1 == t2 && n1 == n2) || Shifted(t1, n1, t2, n2) || Shifted(t2, n2, t1, n1)))
      || Shifted(f1, t1 + "-" + n1, f2, t2 + "-" + n2) || Shifted(f2, t2 + "-" + n2, f1, t1 + "-" + n1)
  {
    PrefixCancels("edge-", f1 + "-" + (t1 + "-" + n1), f2 + "-" + (t2 + "-" + n2));
    JoinCollision('-', f1, t1 + "-" + n1, f2, t2 + "-" + n2);
    JoinCollision('-', t1, n1, t2, n2);
  }

  /** Two different edges, one id: after both are added only the second is stored under it. */
  lemma CollisionLosesEdge(st: State, x: real, y: real)
    ensures var e := GraphEdge("", "ev:a", "ev:b-ev:c", Causes, x, false);
            var f := GraphEdge("", "ev:a-ev:b", "ev:c", Causes, y, false);
            Exec(Exec(st, OpAddEdge(e)), OpAddEdge(f)).edges == st.edges[WithId(f).id := WithId(f)]
  {
    assert "ev:a" + "-" + "ev:b" == "ev:a-ev:b" && "ev:b" + "-" + "ev:c" == "ev:b-ev:c";
    assert Shifted("ev:a", "ev:b-ev:c", "ev:a-ev:b", "ev:c");
    AutoIdCollision("ev:a", "ev:b-ev:c", Causes, "ev:a-ev:b", "ev:c", Causes);
  }
}
