/** What the nodes and edges of a built graph hold, and which correlations it has. */
module BuiltDetails {
  import opened Sorting
  import opened Store
  import opened Signals
  import opened GraphBuilder
  import opened GraphInference
  import opened BuiltGraph
  import opened SessionGraph
  import C = Consistency
  import P = Protocol

  // ----- What is added -----

  /** A node for something of the session, of the kind that this thing has. */
  ghost predicate FitNode(s: SessionData, n: GraphNode) {
    || n == GraphNode(Inv(s.id), Investigation, "", s.id, map[])
    || n == GraphNode(Svc(n.refId), Service, "", n.refId, map[])
    || (exists e :: e in s.evidence && n == GraphNode(Ev(e.id), TypeForEvidence(e.category), "", e.id, map[]))
    || (exists h :: h in s.hypotheses && n == GraphNode(Hyp(h.id), Hypothesis, "", h.id, map[]))
    || (s.plan.Some? && FitPlanNode(s.plan.value, n))
  }

  ghost predicate FitPlanNode(p: PlanData, n: GraphNode) {
    || (exists q :: q in p.questions && n == GraphNode(Ask(q.id), NodeType.Question, "", q.id, map[]))
    || (exists r :: r in p.requests && n == GraphNode(Req(r.id), EvidenceRequest, "", r.id, map[]))
  }

  /** An observed edge, as certain as its type or what it links says. */
  ghost predicate FitEdge(s: SessionData, e: GraphEdge) {
    && !e.inferred
    && match e.etype
       case Causes => e.confidence == 70.0
       case RecoveredBy => e.confidence == 80.0
       case Contradicts => e.confidence == 60.0
       case Supports => exists h :: h in s.hypotheses && e.to == Hyp(h.id) && e.confidence == h.confidence
       case Requests =>
         s.plan.Some? && exists r :: r in s.plan.value.requests && e.to == Req(r.id) && e.confidence == r.gain
       case _ => e.confidence == 100.0
  }

  ghost predicate Fits(s: SessionData, ops: seq<Op>) {
    forall op :: op in ops ==>
      (op.OpAddNode? ==> FitNode(s, op.node)) && (op.OpAddEdge? ==> FitEdge(s, op.edge))
  }

  lemma {:induction false} EntityFits(s: SessionData, names: seq<string>)
    ensures Fits(s, EntityOps(names))
  {
    if names != [] { EntityFits(s, names[..|names| - 1]); }
  }

  lemma FitsConcat(s: SessionData, a: seq<Op>, b: seq<Op>)
    requires Fits(s, a) && Fits(s, b)
    ensures Fits(s, a + b)
  {
  }

  lemma ItemFits(s: SessionData, e: Evidence)
    requires e in s.evidence
    ensures Fits(s, ItemOps(Inv(s.id), e))
  {
  }

  lemma {:induction false} EvidenceFits(s: SessionData, ev: seq<Evidence>)
    requires forall e :: e in ev ==> e in s.evidence
    ensures Fits(s, EvidenceOps(Inv(s.id), ev))
  {
    if ev != [] {
      var k := |ev| - 1;
      EvidenceFits(s, ev[..k]);
      ItemFits(s, ev[k]);
      FitsConcat(s, EvidenceOps(Inv(s.id), ev[..k]), ItemOps(Inv(s.id), ev[k]));
    }
  }

  lemma {:induction false} ChainFits(s: SessionData, ev: seq<Evidence>)
    ensures Fits(s, ChainOps(ev))
  {
    if |ev| >= 2 { ChainFits(s, ev[..|ev| - 1]); }
  }

  lemma {:induction false} RefFits(s: SessionData, ev: seq<Evidence>, h: HypothesisData, refs: seq<string>)
    requires h in s.hypotheses
    ensures Fits(s, RefOps(ev, Hyp(h.id), refs, Supports, h.confidence))
    ensures Fits(s, RefOps(ev, Hyp(h.id), refs, Contradicts, 60.0))
  {
    if refs != [] { RefFits(s, ev, h, refs[..|refs| - 1]); }
  }

  lemma {:induction false} HypothesesFit(s: SessionData, ev: seq<Evidence>, hs: seq<HypothesisData>)
    requires forall h :: h in hs ==> h in s.hypotheses
    ensures Fits(s, HypothesisOps(ev, hs))
  {
    if hs != [] {
      var k := |hs| - 1;
      HypothesesFit(s, ev, hs[..k]);
      assert hs[k] in s.hypotheses;
      RefFits(s, ev, hs[k], hs[k].supporting);
      RefFits(s, ev, hs[k], hs[k].conflicting);
    }
  }

  lemma {:induction false} DependFits(s: SessionData, id: string, deps: seq<string>)
    ensures Fits(s, DependOps(id, deps))
  {
    if deps != [] { DependFits(s, id, deps[..|deps| - 1]); }
  }

  lemma {:induction false} QuestionsFit(s: SessionData, qs: seq<P.Question>)
    requires s.plan.Some? && forall q :: q in qs ==> q in s.plan.value.questions
    ensures Fits(s, QuestionOps(Inv(s.id), qs))
  {
    if qs != [] {
      var k := |qs| - 1;
      QuestionsFit(s, qs[..k]);
      assert qs[k] in s.plan.value.questions;
      DependFits(s, qs[k].id, qs[k].dependsOn);
    }
  }

  lemma {:induction false} RequestsFit(s: SessionData, rs: seq<RequestData>)
    requires s.plan.Some? && forall r :: r in rs ==> r in s.plan.value.requests
    ensures Fits(s, RequestOps(rs))
  {
    if rs != [] {
      var k := |rs| - 1;
      RequestsFit(s, rs[..k]);
      assert rs[k] in s.plan.value.requests;
    }
  }

  lemma StartFits(s: SessionData, sig: Signals)
    ensures Fits(s, StartOps(s)) && Fits(s, CauseOps(sig))
  {
  }

  lemma ItemsFit(s: SessionData, sig: Signals, names: seq<string>)
    ensures Fits(s, ItemNodeOps(s, names) + ItemLinkOps(s, sig))
  {
    var ordered := SortedByTime(s.evidence);
    SameItems(s);
    StartFits(s, sig);
    EntityFits(s, names);
    EvidenceFits(s, ordered);
    ChainFits(s, ordered);
    FitsConcat(s, StartOps(s), EntityOps(names));
    FitsConcat(s, StartOps(s) + EntityOps(names), EvidenceOps(Inv(s.id), ordered));
    FitsConcat(s, ChainOps(ordered), CauseOps(sig));
    FitsConcat(s, ItemNodeOps(s, names), ItemLinkOps(s, sig));
  }

  lemma PlanFits(s: SessionData)
    ensures Fits(s, PlanOps(s))
  {
    if s.plan.Some? {
      QuestionsFit(s, s.plan.value.questions);
      RequestsFit(s, s.plan.value.requests);
      FitsConcat(s, QuestionOps(Inv(s.id), s.plan.value.questions), RequestOps(s.plan.value.requests));
    }
  }

  lemma BuildFits(s: SessionData, sig: Signals, names: seq<string>)
    ensures Fits(s, BuildOps(s, sig, names))
  {
    var ordered := SortedByTime(s.evidence);
    ItemsFit(s, sig, names);
    HypothesesFit(s, ordered, s.hypotheses);
    PlanFits(s);
    FitsConcat(s, ItemNodeOps(s, names) + ItemLinkOps(s, sig), HypothesisOps(ordered, s.hypotheses));
    FitsConcat(s, ItemNodeOps(s, names) + ItemLinkOps(s, sig) + HypothesisOps(ordered, s.hypotheses), PlanOps(s));
  }

  // ----- What is stored -----

  lemma {:induction false} NodeFromOps(st: State, ops: seq<Op>, k: string)
    requires Adds(ops) && k in ExecAll(st, ops).nodes
    ensures var n := ExecAll(st, ops).nodes[k];
            (k in st.nodes && st.nodes[k] == n) || exists op :: op in ops && op.OpAddNode? && op.node == n
    decreases |ops|
  {
    if ops != [] {
      assert ops[0] in ops;
      NodeFromOps(Exec(st, ops[0]), ops[1..], k);
    }
  }

  /** Each node of a built graph stands for something of the session; only the annotation of
      branching failures is added to it. */
  lemma NodesFit(s: SessionData, sig: Signals, names: seq<string>, k: string)
    requires k in Built(s, sig, names).nodes
    ensures FitNode(s, Built(s, sig, names).nodes[k].(props := map[]))
  {
    var base := BaseState(s, sig, names);
    InferenceKeeps(base, sig);
    BaseOps(s, sig, names);
    BuildFits(s, sig, names);
    NodeFromOps(Empty, BuildOps(s, sig, names), k);
    var n := base.nodes[k];
    assert n.props == map[];
    assert Built(s, sig, names).nodes[k].(props := map[]) == n;
  }

  lemma BaseEdgeFits(s: SessionData, sig: Signals, names: seq<string>, k: string)
    requires k in BaseState(s, sig, names).edges
    ensures FitEdge(s, BaseState(s, sig, names).edges[k])
  {
    BaseOps(s, sig, names);
    BuildFits(s, sig, names);
    EdgeFromOps(Empty, BuildOps(s, sig, names), k);
  }

  // ----- Correlations -----

  /** Successive items and, when the keyword is raised, database items with hypotheses. */
  ghost predicate Correlated(s: SessionData, sig: Signals, l: Link) {
    && l.etype == CorrelatesWith
    && (|| ChainLink(SortedByTime(s.evidence), Link(l.from, l.to, OccurredBefore))
        || ("database" in sig.keywords && DatabaseToHypothesis(s, l.from, l.to)))
  }

  ghost predicate DatabaseToHypothesis(s: SessionData, from: string, to: string) {
    exists e, h :: e in s.evidence && e.category == P.DatabaseEvents && h in s.hypotheses
      && from == Ev(e.id) && to == Hyp(h.id)
  }

  lemma BaseNode(s: SessionData, sig: Signals, names: seq<string>, n: GraphNode)
    requires n in ViewOf(BaseState(s, sig, names)).nodes
    ensures FitNode(s, n)
  {
    C.StoredIds(BaseState(s, sig, names));
    InferenceKeeps(BaseState(s, sig, names), sig);
    BaseOps(s, sig, names);
    BuildFits(s, sig, names);
    NodeFromOps(Empty, BuildOps(s, sig, names), n.id);
  }

  /** The ids of nodes of different kinds begin differently. */
  lemma KindsBeginApart(x: string)
    ensures Inv(x)[0] == 'i' && Svc(x)[0] == 's' && Ev(x)[0] == 'e' && Hyp(x)[0] == 'h' && Ask(x)[0] == 'q'
    ensures Req(x)[0] == 'r'
  {
  }

  lemma ChainOnly(s: SessionData, sig: Signals, l: Link)
    requires Expected(s, sig, l) && l.etype == OccurredBefore
    ensures ChainLink(SortedByTime(s.evidence), l)
  {
  }

  lemma DatabaseItem(s: SessionData, n: GraphNode)
    requires FitNode(s, n) && n.ntype == Database
    ensures exists e :: e in s.evidence && e.category == P.DatabaseEvents && n.id == Ev(e.id)
  {
  }

  lemma HypothesisOnly(s: SessionData, n: GraphNode)
    requires FitNode(s, n) && n.ntype == Hypothesis
    ensures exists h :: h in s.hypotheses && n.id == Hyp(h.id)
  {
  }

  lemma SuccessionMeans(s: SessionData, sig: Signals, names: seq<string>, from: string, to: string)
    requires Succession(ViewOf(BaseState(s, sig, names)).edges, from, to)
    ensures ChainLink(SortedByTime(s.evidence), Link(from, to, OccurredBefore))
  {
    var e :| e in ViewOf(BaseState(s, sig, names)).edges && e.etype == OccurredBefore && e.from == from && e.to == to;
    BaseEdge(s, sig, names, e.id);
    ChainOnly(s, sig, LinkOf(e));
  }

  lemma DatabaseMeans(s: SessionData, sig: Signals, names: seq<string>, from: string, to: string)
    requires var ns := ViewOf(BaseState(s, sig, names)).nodes; DatabasePair(ns, ns, from, to)
    ensures DatabaseToHypothesis(s, from, to)
  {
    var ns := ViewOf(BaseState(s, sig, names)).nodes;
    var n, h :| n in ns && h in ns && n.ntype == Database && h.ntype == Hypothesis && n.id == from && h.id == to;
    BaseNode(s, sig, names, n);
    DatabaseItem(s, n);
    BaseNode(s, sig, names, h);
    HypothesisOnly(s, h);
  }

  /** A correlation in the built graph joins successive items, or a database item and a hypothesis. */
  lemma CorrelationMeans(s: SessionData, sig: Signals, names: seq<string>, k: string)
    requires k in Built(s, sig, names).edges && Built(s, sig, names).edges[k].etype == CorrelatesWith
    ensures Correlated(s, sig, LinkOf(Built(s, sig, names).edges[k]))
  {
    BuiltEdge(s, sig, names, k);
    var l := LinkOf(Built(s, sig, names).edges[k]);
    if Expected(s, sig, l) { ExpectedPrefixed(s, sig, l); }
    if Succession(ViewOf(BaseState(s, sig, names)).edges, l.from, l.to) {
      SuccessionMeans(s, sig, names, l.from, l.to);
    } else {
      DatabaseMeans(s, sig, names, l.from, l.to);
    }
  }

  lemma SuccessorsCorrelate(s: SessionData, sig: Signals, names: seq<string>, from: string, to: string)
    requires ChainLink(SortedByTime(s.evidence), Link(from, to, OccurredBefore))
    ensures AutoId(from, to, CorrelatesWith) in Built(s, sig, names).edges
  {
    var st := BaseState(s, sig, names);
    var k := AutoId(from, to, OccurredBefore);
    BaseComplete(s, sig, names, Link(from, to, OccurredBefore));
    BaseKeyed(s, sig, names);
    BaseEdgeFits(s, sig, names, k);
    var e := st.edges[k];
    AutoIdParts(e.from, e.to, e.etype, from, to, OccurredBefore);
    AutoIdParts(e.from, e.to, CorrelatesWith, from, to, CorrelatesWith);
    assert e in ViewOf(st).edges;
    InferenceComplete(st, sig, Link(e.from, e.to, CorrelatesWith));
  }

  lemma EvSame(x: string, y: string)
    requires Ev(x) == Ev(y)
    ensures x == y
  {
    assert Ev(x)[3..] == x && Ev(y)[3..] == y;
  }

  lemma ItemNodeKind(s: SessionData, e: Evidence, n: GraphNode)
    requires FitNode(s, n) && n.id == Ev(e.id)
    ensures exists f :: f in s.evidence && f.id == e.id && n.ntype == TypeForEvidence(f.category)
  {
    forall x: string ensures Ev(e.id) !in {Inv(x), Svc(x), Hyp(x), Ask(x), Req(x)} {
      KindsBeginApart(x);
      KindsBeginApart(e.id);
    }
    var f :| f in s.evidence && n == GraphNode(Ev(f.id), TypeForEvidence(f.category), "", f.id, map[]);
    EvSame(f.id, e.id);
  }

  lemma HypothesisNodeKind(s: SessionData, h: HypothesisData, n: GraphNode)
    requires FitNode(s, n) && n.id == Hyp(h.id)
    ensures n.ntype == Hypothesis
  {
    forall x: string ensures Hyp(h.id) !in {Inv(x), Svc(x), Ev(x), Ask(x), Req(x)} {
      KindsBeginApart(x);
      KindsBeginApart(h.id);
    }
  }

  /** No two items share an id and differ in category. */
  ghost predicate OneCategory(ev: seq<Evidence>) {
    forall e, f :: e in ev && f in ev && e.id == f.id ==> e.category == f.category
  }

  lemma DatabaseListed(s: SessionData, sig: Signals, names: seq<string>, e: Evidence) returns (n: GraphNode)
    requires e in s.evidence && e.category == P.DatabaseEvents && OneCategory(s.evidence)
    ensures n in ViewOf(BaseState(s, sig, names)).nodes && n.id == Ev(e.id) && n.ntype == Database
  {
    BuiltNodes(s, sig, names, Ev(e.id));
    C.StoredIds(BaseState(s, sig, names));
    n := BaseState(s, sig, names).nodes[Ev(e.id)];
    BaseNode(s, sig, names, n);
    ItemNodeKind(s, e, n);
  }

  lemma HypothesisListed(s: SessionData, sig: Signals, names: seq<string>, h: HypothesisData) returns (n: GraphNode)
    requires h in s.hypotheses
    ensures n in ViewOf(BaseState(s, sig, names)).nodes && n.id == Hyp(h.id) && n.ntype == Hypothesis
  {
    BuiltNodes(s, sig, names, Hyp(h.id));
    C.StoredIds(BaseState(s, sig, names));
    n := BaseState(s, sig, names).nodes[Hyp(h.id)];
    BaseNode(s, sig, names, n);
    HypothesisNodeKind(s, h, n);
  }

  lemma DatabasesCorrelate(s: SessionData, sig: Signals, names: seq<string>, e: Evidence, h: HypothesisData)
    requires e in s.evidence && e.category == P.DatabaseEvents && h in s.hypotheses && OneCategory(s.evidence)
    requires "database" in sig.keywords
    ensures AutoId(Ev(e.id), Hyp(h.id), CorrelatesWith) in Built(s, sig, names).edges
  {
    var st := BaseState(s, sig, names);
    var n := DatabaseListed(s, sig, names, e);
    var m := HypothesisListed(s, sig, names, h);
    assert DatabasePair(ViewOf(st).nodes, ViewOf(st).nodes, Ev(e.id), Hyp(h.id));
    InferenceComplete(st, sig, Link(Ev(e.id), Hyp(h.id), CorrelatesWith));
  }

  /** Every correlation that the session calls for has an edge stored under its id: each pair of
      successive items and, when the keyword is raised, each database item with each hypothesis. */
  lemma CorrelationKept(s: SessionData, sig: Signals, names: seq<string>, l: Link)
    requires Correlated(s, sig, l) && OneCategory(s.evidence)
    ensures AutoId(l.from, l.to, l.etype) in Built(s, sig, names).edges
  {
    if ChainLink(SortedByTime(s.evidence), Link(l.from, l.to, OccurredBefore)) {
      SuccessorsCorrelate(s, sig, names, l.from, l.to);
    } else {
      var e, h :| e in s.evidence && e.category == P.DatabaseEvents && h in s.hypotheses
        && l.from == Ev(e.id) && l.to == Hyp(h.id);
      DatabasesCorrelate(s, sig, names, e, h);
    }
  }

  /** Whatever the ids, items that follow each other in time are joined by a correlation. */
  lemma NeighboursCorrelate(s: SessionData, sig: Signals, names: seq<string>, i: nat)
    requires 0 < i < |SortedByTime(s.evidence)|
    ensures var ordered := SortedByTime(s.evidence);
            var k := AutoId(Ev(ordered[i - 1].id), Ev(ordered[i].id), CorrelatesWith);
            k in Built(s, sig, names).edges && Built(s, sig, names).edges[k].etype == CorrelatesWith
  {
    var ordered := SortedByTime(s.evidence);
    var from, to := Ev(ordered[i - 1].id), Ev(ordered[i].id);
    assert ChainLink(ordered, Link(from, to, OccurredBefore));
    SuccessorsCorrelate(s, sig, names, from, to);
    BuiltKeyed(s, sig, names);
    var e := Built(s, sig, names).edges[AutoId(from, to, CorrelatesWith)];
    AutoIdParts(e.from, e.to, e.etype, from, to, CorrelatesWith);
  }

  lemma CorrelatedPrefixed(s: SessionData, sig: Signals, l: Link)
    requires Correlated(s, sig, l)
    ensures Prefixed(l.from) && Prefixed(l.to)
  {
  }

  /** With no dash in the ends that a node's id could follow, the correlations of the built graph
      are exactly those that the session calls for. */
  lemma CorrelationsExactly(s: SessionData, sig: Signals, names: seq<string>, l: Link)
    requires OneCategory(s.evidence) && l.etype == CorrelatesWith && Free(l.from) && Free(l.to)
    ensures Correlated(s, sig, l) <==>
      exists k :: k in Built(s, sig, names).edges && LinkOf(Built(s, sig, names).edges[k]) == l
  {
    var edges := Built(s, sig, names).edges;
    if k :| k in edges && LinkOf(edges[k]) == l { CorrelationMeans(s, sig, names, k); }
    if Correlated(s, sig, l) {
      CorrelationKept(s, sig, names, l);
      BuiltKeyed(s, sig, names);
      var k := AutoId(l.from, l.to, l.etype);
      var m := LinkOf(edges[k]);
      AutoIdCollision(l.from, l.to, l.etype, m.from, m.to, m.etype);
      CorrelationMeans(s, sig, names, k);
      CorrelatedPrefixed(s, sig, l);
      CorrelatedPrefixed(s, sig, m);
      if Shifted(l.from, l.to, m.from, m.to) { ShiftedNotFree(l.from, l.to, m.from, m.to); }
      if Shifted(m.from, m.to, l.from, l.to) { ShiftedNotFree(m.from, m.to, l.from, l.to); }
    }
  }

  // ----- How certain the stored edges are -----

  lemma {:induction false} CorrelateFits(es: seq<GraphEdge>)
    ensures forall op :: op in CorrelateOps(es) ==> op.OpAddEdge? && op.edge.inferred && op.edge.confidence == 55.0
  {
    if es != [] { CorrelateFits(es[..|es| - 1]); }
  }

  lemma {:induction false} ToHypothesesFits(from: string, ns: seq<GraphNode>)
    ensures forall op :: op in ToHypothesesOps(from, ns) ==>
      op.OpAddEdge? && op.edge.inferred && op.edge.confidence == 50.0
  {
    if ns != [] { ToHypothesesFits(from, ns[..|ns| - 1]); }
  }

  lemma {:induction false} DatabaseFits(ns: seq<GraphNode>, all: seq<GraphNode>)
    ensures forall op :: op in DatabaseOps(ns, all) ==>
      op.OpAddEdge? && op.edge.inferred && op.edge.confidence == 50.0
  {
    if ns != [] {
      DatabaseFits(ns[..|ns| - 1], all);
      ToHypothesesFits(ns[|ns| - 1].id, all);
    }
  }

  /** An inferred correlation, as certain as its kind. */
  ghost predicate FitCorrelation(s: SessionData, e: GraphEdge) {
    && e.inferred
    && (|| (e.confidence == 55.0 && ChainLink(SortedByTime(s.evidence), Link(e.from, e.to, OccurredBefore)))
        || (e.confidence == 50.0 && DatabaseToHypothesis(s, e.from, e.to)))
  }

  lemma InferredFits(s: SessionData, sig: Signals, names: seq<string>, op: Op)
    requires op in InferOps(ViewOf(BaseState(s, sig, names)), "database" in sig.keywords) && op.OpAddEdge?
    ensures op.edge.etype == CorrelatesWith && FitCorrelation(s, op.edge)
  {
    var v := ViewOf(BaseState(s, sig, names));
    var l := LinkOf(op.edge);
    assert IsLink(op, l);
    if op in CorrelateOps(v.edges) {
      assert Performs(CorrelateOps(v.edges), l);
      CorrelatePerforms(v.edges, l);
      CorrelateFits(v.edges);
      SuccessionMeans(s, sig, names, l.from, l.to);
    } else {
      assert Performs(DatabaseOps(v.nodes, v.nodes), l);
      DatabasePerforms(v.nodes, v.nodes, l);
      DatabaseFits(v.nodes, v.nodes);
      DatabaseMeans(s, sig, names, l.from, l.to);
    }
  }

  /** Correlations are inferred and all other edges observed; each has the certainty of its kind. */
  lemma EdgesFit(s: SessionData, sig: Signals, names: seq<string>, k: string)
    requires k in Built(s, sig, names).edges
    ensures var e := Built(s, sig, names).edges[k];
            if e.etype == CorrelatesWith then FitCorrelation(s, e) else FitEdge(s, e)
  {
    var st := BaseState(s, sig, names);
    var ops := InferOps(ViewOf(st), "database" in sig.keywords);
    InferenceOps(st, sig);
    EdgeFromOps(st, ops, k);
    var e := Built(s, sig, names).edges[k];
    if k in st.edges && st.edges[k] == e {
      BaseEdgeFits(s, sig, names, k);
      BaseEdge(s, sig, names, k);
      ExpectedPrefixed(s, sig, LinkOf(e));
    } else {
      var op: Op :| op in ops && op.OpAddEdge? && WithId(op.edge) == e;
      InferredFits(s, sig, names, op);
    }
  }

  // ----- Branching failures -----

  /** The stored causal edges that leave a node. */
  ghost function CausesFrom(edges: map<string, GraphEdge>, id: string): set<string> {
    set k | k in edges && edges[k].from == id && (edges[k].etype == Causes || edges[k].etype == LikelyCaused)
  }

  ghost function CausalIds(es: seq<GraphEdge>, id: string): set<string> {
    set e | e in es && e.from == id && (e.etype == Causes || e.etype == LikelyCaused) :: e.id
  }

  lemma CausalSnoc(es: seq<GraphEdge>, e: GraphEdge, id: string)
    ensures CausalIds(es + [e], id) ==
      CausalIds(es, id) + if e.from == id && (e.etype == Causes || e.etype == LikelyCaused) then {e.id} else {}
  {
    forall x | x in CausalIds(es, id) ensures x in CausalIds(es + [e], id) {
      var f :| f in es && f.id == x && f.from == id && (f.etype == Causes || f.etype == LikelyCaused);
      assert f in es + [e];
    }
    if e.from == id && (e.etype == Causes || e.etype == LikelyCaused) { assert e in es + [e]; }
  }

  lemma {:induction false} FanOutCounts(es: seq<GraphEdge>, id: string)
    requires forall i, j :: 0 <= i < j < |es| ==> es[i].id != es[j].id
    ensures FanOut(es, id) == |CausalIds(es, id)|
  {
    if es != [] {
      var n := |es| - 1;
      var e := es[n];
      FanOutCounts(es[..n], id);
      assert es == es[..n] + [e];
      CausalSnoc(es[..n], e, id);
      assert e.id !in CausalIds(es[..n], id);
    }
  }

  /** A node is annotated exactly when two stored causal edges leave it, and with their number. */
  lemma AnnotatedExactly(st: State, k: string)
    requires Valid(st) && k in st.nodes
    ensures var n := |CausesFrom(st.edges, k)|;
            WithAnnotations(st).nodes[k] ==
            if n < 2 then st.nodes[k]
            else st.nodes[k].(props := st.nodes[k].props["branching_failures" := Decimal(n)])
  {
    var es := ViewOf(st).edges;
    forall i, j | 0 <= i < j < |es| ensures es[i].id != es[j].id {
      assert EdgeBefore(es[i], es[j]);
      LessIrreflexive(es[i].id);
    }
    FanOutCounts(es, k);
    assert CausalIds(es, k) == CausesFrom(st.edges, k) by {
      forall x | x in CausesFrom(st.edges, k) ensures x in CausalIds(es, k) { assert st.edges[x] in es; }
    }
  }

  // ----- Duplicate findings -----

  /** Two stored edges of one type whose ends differ and read the same around the '|'. */
  ghost predicate CutTwice(edges: map<string, GraphEdge>, k: string, l: string) {
    && k in edges && l in edges && edges[k].etype == edges[l].etype
    && (|| ShiftedAt('|', edges[k].from, edges[k].to, edges[l].from, edges[l].to)
        || ShiftedAt('|', edges[l].from, edges[l].to, edges[k].from, edges[k].to))
  }

  ghost predicate CutKey(edges: map<string, GraphEdge>, key: string) {
    exists k, l :: CutTwice(edges, k, l) && key == edges[k].from + "|" + edges[k].to + "|" + TypeName(edges[k].etype)
  }

  lemma ShiftMoves(f1: string, t1: string, f2: string, t2: string)
    requires ShiftedAt('|', f1, t1, f2, t2)
    ensures f1 != f2
  {
    var mid: string :| f2 == f1 + ['|'] + mid && t1 == mid + ['|'] + t2;
    assert |f2| > |f1|;
  }

  /** Duplicates are reported in a built graph only for different ends that read the same. */
  lemma BuiltDuplicatesExactly(s: SessionData, sig: Signals, names: seq<string>, issues: seq<C.Issue>, key: string)
    requires C.ReportsEdges(issues, Built(s, sig, names))
    ensures C.DuplicateEdge(key) in issues <==> CutKey(Built(s, sig, names).edges, key)
  {
    var edges := Built(s, sig, names).edges;
    BuiltKeyed(s, sig, names);
    if C.RepeatedKey(edges, key) {
      var k, l :| k in edges && l in edges && k != l && C.ReadAlike(edges[k], edges[l])
        && key == edges[k].from + "|" + edges[k].to + "|" + TypeName(edges[k].etype);
      assert LinkOf(edges[k]) != LinkOf(edges[l]);
      assert CutTwice(edges, k, l);
    }
    if CutKey(edges, key) {
      var k, l :| CutTwice(edges, k, l) && key == edges[k].from + "|" + edges[k].to + "|" + TypeName(edges[k].etype);
      if k == l { ShiftMoves(edges[k].from, edges[k].to, edges[l].from, edges[l].to); }
      assert C.ReadAlike(edges[k], edges[l]);
    }
  }

  /** No id or name that enters the graph contains a '|'. */
  ghost predicate NoBarsIn(s: SessionData) {
    && '|' !in s.id && '|' !in s.service
    && (forall e :: e in s.evidence ==> '|' !in e.id && '|' !in e.entity)
    && (forall h :: h in s.hypotheses ==> '|' !in h.id)
    && (s.plan.Some? ==>
          && (forall q :: q in s.plan.value.questions ==> '|' !in q.id && forall d :: d in q.dependsOn ==> '|' !in d)
          && forall r :: r in s.plan.value.requests ==> '|' !in r.id && '|' !in r.questionId)
  }

  lemma KindsHaveNoBar(x: string)
    requires '|' !in x
    ensures '|' !in Inv(x) && '|' !in Svc(x) && '|' !in Ev(x) && '|' !in Hyp(x) && '|' !in Ask(x) && '|' !in Req(x)
  {
  }

  ghost predicate BarFree(l: Link) { '|' !in l.from && '|' !in l.to }

  lemma PlanBarFree(s: SessionData, l: Link)
    requires NoBarsIn(s) && PlanLink(s, l)
    ensures BarFree(l)
  {
    KindsHaveNoBar(s.id);
    if q :| q in s.plan.value.questions && QuestionLink(Inv(s.id), q, l) {
      KindsHaveNoBar(q.id);
      if DependLink(q.id, q.dependsOn, l) {
        var d :| d in q.dependsOn && l == Link(Ask(d), Ask(q.id), DependsOn);
        KindsHaveNoBar(d);
      }
    } else {
      var r :| r in s.plan.value.requests && RequestLink(r, l);
      KindsHaveNoBar(r.id);
      KindsHaveNoBar(r.questionId);
    }
  }

  lemma RefBarFree(s: SessionData, h: HypothesisData, refs: seq<string>, t: EdgeType, l: Link)
    requires NoBarsIn(s) && h in s.hypotheses && RefLink(s.evidence, Hyp(h.id), refs, t, l)
    ensures BarFree(l)
  {
    var ref :| ref in refs && KnownItem(s.evidence, ref) && l == Link(Ev(ref), Hyp(h.id), t);
    var e :| e in s.evidence && e.id == ref;
    KindsHaveNoBar(e.id);
    KindsHaveNoBar(h.id);
  }

  lemma CauseBarFree(s: SessionData, sig: Signals, l: Link)
    requires NoBarsIn(s) && Describes(sig, s.evidence) && CauseLink(sig, l)
    ensures BarFree(l)
  {
    KindsHaveNoBar(sig.onset.value.id);
    if sig.deployment.Some? { KindsHaveNoBar(sig.deployment.value.id); }
    if sig.recovery.Some? { KindsHaveNoBar(sig.recovery.value.id); }
  }

  lemma ItemBarFree(s: SessionData, l: Link)
    requires NoBarsIn(s)
    requires || StartLink(s, l) || ChainLink(SortedByTime(s.evidence), l)
             || exists e :: e in s.evidence && ItemLink(Inv(s.id), e, l)
    ensures BarFree(l)
  {
    KindsHaveNoBar(s.id);
    KindsHaveNoBar(s.service);
    SameItems(s);
    forall e | e in s.evidence ensures '|' !in Ev(e.id) && '|' !in Svc(e.entity) {
      KindsHaveNoBar(e.id);
      KindsHaveNoBar(e.entity);
    }
    var ordered := SortedByTime(s.evidence);
    if ChainLink(ordered, l) {
      var i :| 0 < i < |ordered| && l == Link(Ev(ordered[i - 1].id), Ev(ordered[i].id), OccurredBefore);
      assert ordered[i - 1] in s.evidence && ordered[i] in s.evidence;
    }
  }

  lemma ExpectedBarFree(s: SessionData, sig: Signals, l: Link)
    requires NoBarsIn(s) && Describes(sig, s.evidence) && Expected(s, sig, l)
    ensures BarFree(l)
  {
    if PlanLink(s, l) {
      PlanBarFree(s, l);
    } else if h :| h in s.hypotheses && HypothesisLink(s.evidence, h, l) {
      if RefLink(s.evidence, Hyp(h.id), h.supporting, Supports, l) {
        RefBarFree(s, h, h.supporting, Supports, l);
      } else {
        RefBarFree(s, h, h.conflicting, Contradicts, l);
      }
    } else if CauseLink(sig, l) {
      CauseBarFree(s, sig, l);
    } else {
      ItemBarFree(s, l);
    }
  }

  lemma CorrelatedBarFree(s: SessionData, sig: Signals, l: Link)
    requires NoBarsIn(s) && Correlated(s, sig, l)
    ensures BarFree(l)
  {
    var m := Link(l.from, l.to, OccurredBefore);
    if ChainLink(SortedByTime(s.evidence), m) {
      ItemBarFree(s, m);
    } else {
      var e, h :| e in s.evidence && e.category == P.DatabaseEvents && h in s.hypotheses
        && l.from == Ev(e.id) && l.to == Hyp(h.id);
      KindsHaveNoBar(e.id);
      KindsHaveNoBar(h.id);
    }
  }

  /** When no id or name contains a '|', no duplicate is reported in the built graph, whatever
      edges join the same two nodes. */
  lemma BuiltHasNoDuplicate(s: SessionData, sig: Signals, names: seq<string>, issues: seq<C.Issue>)
    requires C.ReportsEdges(issues, Built(s, sig, names)) && NoBarsIn(s) && Describes(sig, s.evidence)
    ensures forall x :: x in issues ==> !x.DuplicateEdge?
  {
    var edges := Built(s, sig, names).edges;
    forall k | k in edges ensures BarFree(LinkOf(edges[k])) {
      BuiltEdge(s, sig, names, k);
      if Expected(s, sig, LinkOf(edges[k])) {
        ExpectedBarFree(s, sig, LinkOf(edges[k]));
      } else {
        CorrelationMeans(s, sig, names, k);
        CorrelatedBarFree(s, sig, LinkOf(edges[k]));
      }
    }
    forall x | x in issues ensures !x.DuplicateEdge? {
      if x.DuplicateEdge? {
        BuiltDuplicatesExactly(s, sig, names, issues, x.key);
        var k, l :| CutTwice(edges, k, l);
        assert BarFree(LinkOf(edges[k])) && BarFree(LinkOf(edges[l]));
        if ShiftedAt('|', edges[k].from, edges[k].to, edges[l].from, edges[l].to) {
          NoShift('|', edges[k].from, edges[k].to, edges[l].from, edges[l].to);
        } else {
          NoShift('|', edges[l].from, edges[l].to, edges[k].from, edges[k].to);
        }
        assert false;
      }
    }
  }
}
