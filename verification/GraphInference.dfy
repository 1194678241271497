/** Inferred edges and causal annotations, the last two steps of building the graph. */
module GraphInference {
  import opened Store
  import opened Signals
  import opened GraphBuilder

  // ----- Inferred edges -----

  function Correlation(from: string, to: string, confidence: real): Op {
    OpAddEdge(GraphEdge("", from, to, CorrelatesWith, confidence, true))
  }

  /** One correlation for each observed succession of two items. */
  function CorrelateOps(es: seq<GraphEdge>): seq<Op> {
    if es == [] then []
    else
      var e := es[|es| - 1];
      CorrelateOps(es[..|es| - 1])
      + if e.etype == OccurredBefore && !e.inferred then [Correlation(e.from, e.to, 55.0)] else []
  }

  function ToHypothesesOps(from: string, ns: seq<GraphNode>): seq<Op> {
    if ns == [] then []
    else
      var h := ns[|ns| - 1];
      ToHypothesesOps(from, ns[..|ns| - 1]) + if h.ntype == Hypothesis then [Correlation(from, h.id, 50.0)] else []
  }

  /** One correlation for each database node in ns and each hypothesis in all. */
  function DatabaseOps(ns: seq<GraphNode>, all: seq<GraphNode>): seq<Op> {
    if ns == [] then []
    else
      var n := ns[|ns| - 1];
      DatabaseOps(ns[..|ns| - 1], all) + if n.ntype == Database then ToHypothesesOps(n.id, all) else []
  }

  function InferOps(v: GraphView, database: bool): seq<Op> {
    CorrelateOps(v.edges) + if database then DatabaseOps(v.nodes, v.nodes) else []
  }

  ghost predicate RecordedFrom(g: MemoryStore, st: State, ops: seq<Op>)
    reads g
  {
    g.Value() == ExecAll(st, ops)
  }

  method PutInferred(g: MemoryStore, from: string, to: string, confidence: real, ghost st: State, ghost ops: seq<Op>)
    returns (ghost more: seq<Op>)
    requires RecordedFrom(g, st, ops)
    modifies g
    ensures more == ops + [Correlation(from, to, confidence)] && RecordedFrom(g, st, more)
    ensures g.nodes == old(g.nodes) && g.order == old(g.order)
  {
    ExecSnoc(st, ops, Correlation(from, to, confidence));
    g.AddEdge(GraphEdge("", from, to, CorrelatesWith, confidence, true));
    more := ops + [Correlation(from, to, confidence)];
  }

  method Correlate(g: MemoryStore, es: seq<GraphEdge>, ghost st: State) returns (ghost ops: seq<Op>)
    requires g.Value() == st
    modifies g
    ensures ops == CorrelateOps(es) && RecordedFrom(g, st, ops)
    ensures g.nodes == old(g.nodes) && g.order == old(g.order)
  {
    ops := [];
    for i := 0 to |es|
      invariant ops == CorrelateOps(es[..i]) && RecordedFrom(g, st, ops)
      invariant g.nodes == old(g.nodes) && g.order == old(g.order)
    {
      assert es[..i + 1][..i] == es[..i];
      if es[i].etype == OccurredBefore && !es[i].inferred {
        ops := PutInferred(g, es[i].from, es[i].to, 55.0, st, ops);
      }
    }
    assert es[..|es|] == es;
  }

  method CorrelateHypotheses(g: MemoryStore, from: string, ghost all: seq<GraphNode>, ghost st: State,
                             ghost before: seq<Op>)
    returns (ghost ops: seq<Op>)
    requires RecordedFrom(g, st, before) && all == NodeListing(g.order, g.nodes)
    modifies g
    ensures ops == before + ToHypothesesOps(from, all) && RecordedFrom(g, st, ops)
    ensures g.nodes == old(g.nodes) && g.order == old(g.order)
  {
    ops := before;
    var ns := g.AllNodes();
    for i := 0 to |ns|
      invariant ops == before + ToHypothesesOps(from, ns[..i]) && RecordedFrom(g, st, ops)
      invariant g.nodes == old(g.nodes) && g.order == old(g.order)
    {
      assert ns[..i + 1][..i] == ns[..i];
      if ns[i].ntype == Hypothesis {
        ops := PutInferred(g, from, ns[i].id, 50.0, st, ops);
      }
    }
    assert ns[..|ns|] == ns;
  }

  lemma DatabaseSnoc(ns: seq<GraphNode>, all: seq<GraphNode>, i: nat, before: seq<Op>)
    requires i < |ns|
    ensures before + DatabaseOps(ns[..i + 1], all) ==
      if ns[i].ntype == Database then (before + DatabaseOps(ns[..i], all)) + ToHypothesesOps(ns[i].id, all)
      else before + DatabaseOps(ns[..i], all)
  {
    assert ns[..i + 1][..i] == ns[..i];
  }

  method CorrelateDatabases(g: MemoryStore, ghost all: seq<GraphNode>, ghost st: State, ghost before: seq<Op>)
    returns (ghost ops: seq<Op>)
    requires RecordedFrom(g, st, before) && all == NodeListing(g.order, g.nodes)
    modifies g
    ensures ops == before + DatabaseOps(all, all) && RecordedFrom(g, st, ops)
  {
    ops := before;
    var ns := g.AllNodes();
    for i := 0 to |ns|
      invariant ops == before + DatabaseOps(ns[..i], all) && RecordedFrom(g, st, ops)
      invariant g.nodes == old(g.nodes) && g.order == old(g.order)
    {
      DatabaseSnoc(ns, all, i, before);
      if ns[i].ntype == Database {
        ops := CorrelateHypotheses(g, ns[i].id, all, st, ops);
      }
    }
    assert ns[..|ns|] == ns;
  }

  lemma ViewIs(v: GraphView, st: State)
    requires Valid(st) && IsView(v, st)
    ensures v == ViewOf(st)
  {
    ListingUnique(v.edges, ViewOf(st).edges, st.edges);
  }

  ghost function WithInferred(st: State, sig: Signals): (r: State)
    requires Valid(st)
    ensures Valid(r)
  {
    RunValid(st, InferOps(ViewOf(st), "database" in sig.keywords));
    ExecAll(st, InferOps(ViewOf(st), "database" in sig.keywords))
  }

  method Infer(g: MemoryStore, sig: Signals)
    requires Valid(g.Value())
    modifies g
    ensures g.Value() == WithInferred(old(g.Value()), sig)
  {
    ghost var st := g.Value();
    var es := g.AllEdges();
    ViewIs(GraphView(NodeListing(g.order, g.nodes), es), st);
    ghost var ops := Correlate(g, es, st);
    if "database" in sig.keywords {
      ops := CorrelateDatabases(g, NodeListing(g.order, g.nodes), st, ops);
    }
    assert ops == InferOps(ViewOf(st), "database" in sig.keywords);
  }

  // ----- Causal annotations -----

  predicate IsCausal(e: GraphEdge) { e.etype == Causes || e.etype == LikelyCaused }

  function FanOut(es: seq<GraphEdge>, id: string): nat {
    if es == [] then 0
    else
      var e := es[|es| - 1];
      FanOut(es[..|es| - 1], id) + if IsCausal(e) && e.from == id then 1 else 0
  }

  function Decimal(n: nat): string {
    if n < 10 then ["0123456789"[n]] else Decimal(n / 10) + ["0123456789"[n % 10]]
  }

  function Marked(n: GraphNode, count: nat): GraphNode {
    if count < 2 then n else n.(props := n.props["branching_failures" := Decimal(count)])
  }

  /** The nodes with their causal fan-out noted where it is at least two. */
  function Annotated(nodes: map<string, GraphNode>, es: seq<GraphEdge>): map<string, GraphNode> {
    map k | k in nodes :: Marked(nodes[k], FanOut(es, k))
  }

  method CountCauses(es: seq<GraphEdge>) returns (counts: map<string, nat>)
    ensures forall id :: FanOut(es, id) == if id in counts then counts[id] else 0
  {
    counts := map[];
    for i := 0 to |es|
      invariant forall id :: FanOut(es[..i], id) == if id in counts then counts[id] else 0
    {
      assert es[..i + 1][..i] == es[..i];
      if IsCausal(es[i]) {
        var from := es[i].from;
        counts := counts[from := (if from in counts then counts[from] else 0) + 1];
      }
    }
    assert es[..|es|] == es;
  }

  method Annotate(g: MemoryStore)
    requires Valid(g.Value())
    modifies g
    ensures g.Value() == WithAnnotations(old(g.Value()))
  {
    var es := g.AllEdges();
    ghost var st := g.Value();
    ViewIs(GraphView(NodeListing(g.order, g.nodes), es), st);
    var counts := CountCauses(es);
    var rest := counts.Keys;
    while rest != {}
      invariant rest <= counts.Keys && g.edges == st.edges && g.order == st.order
      invariant forall k :: k in g.nodes <==> k in st.nodes
      invariant forall k :: k in g.nodes ==>
        g.nodes[k] == if k in rest then st.nodes[k] else Marked(st.nodes[k], FanOut(es, k))
      decreases rest
    {
      var id :| id in rest;
      rest := rest - {id};
      if counts[id] < 2 {
        continue;
      }
      var n := g.GetNode(id);
      if n.None? {
        continue;
      }
      var err := g.UpdateNode(n.value.(props := n.value.props["branching_failures" := Decimal(counts[id])]));
    }
  }

  ghost function WithAnnotations(st: State): (r: State)
    requires Valid(st)
    ensures Valid(r)
  {
    State(Annotated(st.nodes, ViewOf(st).edges), st.edges, st.order)
  }

  // ----- The whole build -----

  ghost function BaseState(s: SessionData, sig: Signals, names: seq<string>): (st: State)
    ensures Valid(st)
  {
    RunValid(Empty, BuildOps(s, sig, names));
    ExecAll(Empty, BuildOps(s, sig, names))
  }

  /** The graph built from a session and its signals. */
  ghost function Built(s: SessionData, sig: Signals, names: seq<string>): (st: State)
    ensures Valid(st)
  {
    WithAnnotations(WithInferred(BaseState(s, sig, names), sig))
  }

  method Build(s: SessionData, sig: Signals) returns (g: MemoryStore, ghost names: seq<string>)
    ensures fresh(g) && forall n :: n in names <==> n in sig.entities
    ensures g.Value() == Built(s, sig, names)
  {
    ghost var ops;
    g, names, ops := BuildBase(s, sig);
    assert g.Value() == BaseState(s, sig, names);
    Infer(g, sig);
    Annotate(g);
  }

  /** What the hypothesis reasoner proposes as the session's graph: it infers and annotates once
      more before it takes the snapshot. */
  ghost function Rebuilt(s: SessionData, sig: Signals, names: seq<string>): (st: State)
    ensures Valid(st)
  {
    WithAnnotations(WithInferred(Built(s, sig, names), sig))
  }

  method Rebuild(s: SessionData, sig: Signals) returns (v: GraphView, ghost names: seq<string>)
    ensures forall n :: n in names <==> n in sig.entities
    ensures IsView(v, Rebuilt(s, sig, names))
  {
    var g;
    g, names := Build(s, sig);
    Infer(g, sig);
    Annotate(g);
    v := g.View();
  }
}
