/** Applying proposed actions to a session whose graph passes the checks: which of them can spoil
    the graph that links go into, and which the snapshot that the session keeps. */
module AppliedGraph {
  import opened Wrappers
  import opened Walks
  import opened Store
  import opened Applier
  import B = GraphBuilder
  import I = GraphInference
  import T = Traversal
  import C = Consistency
  import P = Protocol
  import R = PlanRuns
  import PG = PlanGrounding
  import G = SessionGraph
  import L = Lifecycle
  import Signals

  // ----- One more edge -----

  ghost function Depends(st: State): Arcs<string> { T.StoredArcs(st.edges, C.IsDependsOn) }

  lemma CycleAnywhere(st: State)
    requires C.NoDangling(st)
    ensures C.DependsCycle(st) <==> !Acyclic(Depends(st))
  {
    var arcs := Depends(st);
    if !Acyclic(arcs) {
      var a, b :| OnCycle(arcs, a, b);
      assert (a, b) in arcs;
      var k :| k in st.edges && C.IsDependsOn(st.edges[k].etype) && (st.edges[k].from, st.edges[k].to) == (a, b);
      assert !C.Dangles(st.edges[k], st.nodes.Keys);
      ReachesSelf(arcs, a);
      assert a in st.nodes && Reaches(arcs, a, a) && OnCycle(arcs, a, b);
    }
  }

  lemma ArcsAfter(st: State, e: GraphEdge)
    requires e.etype == DependsOn && WithId(e).id !in st.edges
    ensures Depends(Exec(st, OpAddEdge(e))) == Depends(st) + {(e.from, e.to)}
  {
    var more := Exec(st, OpAddEdge(e)).edges;
    var k := WithId(e).id;
    assert more[k].etype == DependsOn && C.IsDependsOn(more[k].etype);
    assert forall l :: l in st.edges ==> l in more && more[l] == st.edges[l];
    forall a | a in Depends(Exec(st, OpAddEdge(e))) ensures a in Depends(st) + {(e.from, e.to)} {
      var l :| l in more && C.IsDependsOn(more[l].etype) && (more[l].from, more[l].to) == a;
    }
    forall a | a in Depends(st) ensures a in Depends(Exec(st, OpAddEdge(e))) {
      var l :| l in st.edges && C.IsDependsOn(st.edges[l].etype) && (st.edges[l].from, st.edges[l].to) == a;
      assert l in more && C.IsDependsOn(more[l].etype);
    }
  }

  lemma ReplacingLink(st: State, e: GraphEdge)
    ensures Exec(Exec(st, OpRemoveEdge(WithId(e).id)), OpAddEdge(e)) == Exec(st, OpAddEdge(e))
    ensures Depends(Exec(st, OpRemoveEdge(WithId(e).id))) <= Depends(st)
  {
    var id := WithId(e).id;
    assert (st.edges - {id})[id := WithId(e)] == st.edges[id := WithId(e)];
    var less := Exec(st, OpRemoveEdge(id)).edges;
    forall a | a in Depends(Exec(st, OpRemoveEdge(id))) ensures a in Depends(st) {
      var l :| l in less && C.IsDependsOn(less[l].etype) && (less[l].from, less[l].to) == a;
      assert l in st.edges && st.edges[l] == less[l];
    }
  }

  /** The validator lets a depends_on link between any two nodes through. Linked into a graph that
      passes the checks, it closes a cycle exactly when its target already leads to its source
      without the edge, if any, whose id it takes over. */
  lemma LinkClosesCycle(st: State, e: GraphEdge)
    requires C.NoDangling(st) && !C.DependsCycle(st)
    requires e.etype == DependsOn && e.from in st.nodes && e.to in st.nodes
    ensures C.DependsCycle(Exec(st, OpAddEdge(e))) <==>
      Reaches(Depends(Exec(st, OpRemoveEdge(WithId(e).id))), e.to, e.from)
  {
    var less := Exec(st, OpRemoveEdge(WithId(e).id));
    var after := Exec(st, OpAddEdge(e));
    ReplacingLink(st, e);
    CycleAnywhere(st);
    FewerArcsAcyclic(Depends(less), Depends(st));
    forall k | k in after.edges ensures !C.Dangles(after.edges[k], after.nodes.Keys) {
      assert k != WithId(e).id ==> !C.Dangles(st.edges[k], st.nodes.Keys);
    }
    CycleAnywhere(after);
    ArcsAfter(less, e);
    ArcClosesCycle(Depends(less), e.from, e.to);
  }

  // ----- A list of actions -----

  predicate LinksDependency(a: Action) { a.LinkNodes? && a.edge.Some? && a.edge.value.etype == DependsOn }

  lemma OtherLinkKeepsArcs(st: State, e: GraphEdge)
    requires e.etype != DependsOn
    ensures Depends(Exec(st, OpAddEdge(e))) <= Depends(st)
  {
    var more := Exec(st, OpAddEdge(e)).edges;
    forall a | a in Depends(Exec(st, OpAddEdge(e))) ensures a in Depends(st) {
      var l :| l in more && C.IsDependsOn(more[l].etype) && (more[l].from, more[l].to) == a;
      assert l in st.edges && st.edges[l] == more[l];
    }
  }

  // ----- The session's snapshot -----

  /** Nothing dangles or is repeated and, if strict, no depends_on edges form a cycle. */
  ghost predicate Good(st: State, strict: bool) { SoundGraph(st) && (strict ==> Acyclic(Depends(st))) }

  ghost predicate GoodView(v: Option<GraphView>, strict: bool) { v.Some? ==> Good(Loaded(v.value), strict) }

  /** Both the graph that links go into and the snapshot that the session keeps are good. */
  ghost predicate GoodHeld(h: Held, strict: bool) {
    (h.g.Some? ==> Good(h.g.value, strict)) && GoodView(h.s.view, strict)
  }

  ghost predicate GoodAction(a: Action, strict: bool) {
    (a.UpdateGraph? ==> GoodView(a.view, strict)) && (strict ==> !LinksDependency(a))
  }

  lemma SoundHasNoDangling(st: State)
    requires SoundGraph(st)
    ensures C.NoDangling(st)
  {
    forall k | k in st.edges ensures !C.Dangles(st.edges[k], st.nodes.Keys) {}
  }

  lemma GoodPasses(st: State)
    requires Good(st, true)
    ensures C.NoDangling(st) && !C.DependsCycle(st)
  {
    SoundHasNoDangling(st);
    CycleAnywhere(st);
  }

  lemma GoodListed(st: State, v: GraphView, strict: bool)
    requires Valid(st) && IsView(v, st) && Good(st, strict)
    ensures Good(Loaded(v), strict)
  {
    RoundTrip(st, v);
  }

  lemma GoodLink(g: State, e: GraphEdge, strict: bool)
    requires Good(g, strict) && e.from in g.nodes && e.to in g.nodes && !EdgeExists(g, e)
    requires strict ==> e.etype != DependsOn
    ensures Good(Exec(g, OpAddEdge(e)), strict)
  {
    LinkKeepsSound(g, e);
    if strict {
      OtherLinkKeepsArcs(g, e);
      FewerArcsAcyclic(Depends(Exec(g, OpAddEdge(e))), Depends(g));
    }
  }

  lemma LinkedGood(h: Held, e: GraphEdge, strict: bool)
    requires WellHeld(h) && GoodHeld(h, strict) && ValidateEdge(h.g, Some(e)).None?
    requires strict ==> e.etype != DependsOn
    ensures GoodHeld(Linked(h, e), strict)
  {
    if h.g.Some? && !EdgeExists(h.g.value, e) {
      var g := Exec(h.g.value, OpAddEdge(e));
      GoodLink(h.g.value, e, strict);
      ExecValid(h.g.value, OpAddEdge(e));
      GoodListed(g, ViewOf(g), strict);
    }
  }

  /** Only links change the graph, and only links and proposed snapshots change the snapshot. */
  lemma GraphAfter(h: Held, a: Action)
    requires WellHeld(h)
    ensures !a.LinkNodes? ==> After(h, a).g == h.g
    ensures a.UpdateGraph? && a.view.Some? ==> After(h, a).s.view == a.view
    ensures !a.LinkNodes? && !(a.UpdateGraph? && a.view.Some?) ==> After(h, a).s.view == h.s.view
  {
  }

  lemma StepKeepsGood(h: Held, a: Action, strict: bool)
    requires WellHeld(h) && GoodHeld(h, strict) && GoodAction(a, strict)
    ensures GoodHeld(After(h, a), strict)
  {
    GraphAfter(h, a);
    if a.LinkNodes? && Validate(h, a).None? { LinkedGood(h, a.edge.value, strict); }
  }

  /** A run of actions whose snapshots are good keeps the graph and the session's snapshot good. */
  lemma {:induction false} RunKeepsGood(h: Held, acts: seq<Action>, strict: bool)
    requires WellHeld(h) && GoodHeld(h, strict) && forall a :: a in acts ==> GoodAction(a, strict)
    ensures GoodHeld(Run(h, acts).held, strict)
    decreases |acts|
  {
    if acts != [] {
      assert acts[0] in acts;
      StepKeepsGood(h, acts[0], strict);
      RunKeepsGood(After(h, acts[0]), acts[1..], strict);
    }
  }

  // ----- Snapshots are not validated -----

  const Loose := GraphView([], [GraphEdge("e", "x", "y", DependsOn, 1.0, false)])

  lemma UpdateAlone(h: Held, v: GraphView)
    requires WellHeld(h)
    ensures var r := Run(h, [UpdateGraph(Some(v))]); r.refused == [] && r.held.s.view == Some(v)
  {
    var a := UpdateGraph(Some(v));
    assert [a][1..] == [] && Run(After(h, a), []) == Result(After(h, a), [], []);
  }

  /** A snapshot with a dangling edge is applied and nothing is refused. */
  lemma UncheckedSnapshot(h: Held)
    requires WellHeld(h)
    ensures var r := Run(h, [UpdateGraph(Some(Loose))]);
            r.refused == [] && r.held.s.view == Some(Loose) && !C.NoDangling(Loaded(Loose))
  {
    UpdateAlone(h, Loose);
    var e := Loose.edges[0];
    assert Loose.edges[1..] == [] && Loaded(Loose) == Exec(Empty, OpAddEdge(e));
    assert C.Dangles(Loaded(Loose).edges["e"], Loaded(Loose).nodes.Keys);
  }

  /** The snapshots proposed are among these, and if strict no depends_on link is. */
  ghost predicate Proposes(acts: seq<Action>, views: set<GraphView>, strict: bool) {
    forall a :: a in acts ==>
      (a.UpdateGraph? && a.view.Some? ==> a.view.value in views) && (strict ==> !LinksDependency(a))
  }

  /** No run that proposes snapshots among these spoils a good session. */
  ghost predicate Harmless(views: set<GraphView>, strict: bool) {
    forall h, acts :: WellHeld(h) && GoodHeld(h, strict) && Proposes(acts, views, strict) ==>
      GoodView(Run(h, acts).held.s.view, strict)
  }

  /** Every run keeps the session's snapshot good exactly when the snapshots proposed are good. */
  lemma SnapshotsExactly(views: set<GraphView>, strict: bool)
    ensures Harmless(views, strict) <==> forall v :: v in views ==> Good(Loaded(v), strict)
  {
    if forall v :: v in views ==> Good(Loaded(v), strict) {
      forall h, acts | WellHeld(h) && GoodHeld(h, strict) && Proposes(acts, views, strict)
        ensures GoodView(Run(h, acts).held.s.view, strict) {
        RunKeepsGood(h, acts, strict);
      }
    }
    if Harmless(views, strict) {
      var h := Held(Case([], [], None, None, map[], 0.0, 0.0, L.Started, L.Collecting), None);
      forall v | v in views ensures Good(Loaded(v), strict) {
        assert Proposes([UpdateGraph(Some(v))], views, strict);
        UpdateAlone(h, v);
      }
    }
  }

  /** A link that is added after a snapshot was proposed brings back the old graph: the snapshot
      is taken afresh from the graph that was linked into. */
  lemma LateLinkUndoesUpdate(h: Held, v: GraphView, e: GraphEdge)
    requires WellHeld(h) && h.g.Some?
    ensures var added := ValidateEdge(h.g, Some(e)).None? && !EdgeExists(h.g.value, e);
            && (added ==> Valid(Exec(h.g.value, OpAddEdge(e))))
            && Run(h, [UpdateGraph(Some(v)), LinkNodes(Some(e))]).held.s.view
               == Some(if added then ViewOf(Exec(h.g.value, OpAddEdge(e))) else v)
  {
    var a, b := UpdateGraph(Some(v)), LinkNodes(Some(e));
    ExecValid(h.g.value, OpAddEdge(e));
    RunTwo(h, a, b);
    GraphAfter(h, a);
    LinkShows(After(h, a), e);
  }

  lemma LinkShows(h: Held, e: GraphEdge)
    requires WellHeld(h) && h.g.Some? && h.s.view.Some? && Valid(Exec(h.g.value, OpAddEdge(e)))
    ensures After(h, LinkNodes(Some(e))).s.view ==
      if ValidateEdge(h.g, Some(e)).None? && !EdgeExists(h.g.value, e) then Some(ViewOf(Exec(h.g.value, OpAddEdge(e))))
      else h.s.view
  {
  }

  lemma RunTwo(h: Held, a: Action, b: Action)
    requires WellHeld(h)
    ensures Run(h, [a, b]).held == After(After(h, a), b)
  {
    assert [a, b][1..] == [b] && [b][1..] == [];
    var end := After(After(h, a), b);
    assert Run(end, []).held == end;
  }

  // ----- Graphs of reachable sessions -----

  lemma InferenceEnds(st: State, sig: Signals.Signals, k: string)
    requires Valid(st) && SoundGraph(st) && k in I.WithInferred(st, sig).edges
    ensures var e := I.WithInferred(st, sig).edges[k];
            e.from in st.nodes && e.to in st.nodes && ((k in st.edges && st.edges[k] == e) || e.etype == CorrelatesWith)
  {
    G.InferenceEdge(st, sig, k);
    C.StoredIds(st);
  }

  lemma InferenceSound(st: State, sig: Signals.Signals)
    requires Valid(st) && AutoKeyed(st) && SoundGraph(st)
    ensures SoundGraph(I.WithInferred(st, sig))
  {
    var more := I.WithInferred(st, sig);
    G.InferenceKeeps(st, sig);
    forall k | k in more.edges ensures more.edges[k].from in more.nodes && more.edges[k].to in more.nodes {
      InferenceEnds(st, sig, k);
    }
  }

  lemma InferenceArcs(st: State, sig: Signals.Signals)
    requires Valid(st) && SoundGraph(st)
    ensures Depends(I.WithInferred(st, sig)) <= Depends(st)
  {
    var more := I.WithInferred(st, sig);
    forall a | a in Depends(more) ensures a in Depends(st) {
      var k :| k in more.edges && C.IsDependsOn(more.edges[k].etype) && (more.edges[k].from, more.edges[k].to) == a;
      InferenceEnds(st, sig, k);
      assert k in st.edges && C.IsDependsOn(st.edges[k].etype);
    }
  }

  /** Inference and annotation keep a good graph good. */
  lemma EnrichedGood(st: State, sig: Signals.Signals)
    requires Valid(st) && AutoKeyed(st) && Good(st, true)
    ensures Good(I.WithAnnotations(I.WithInferred(st, sig)), true)
  {
    var more := I.WithInferred(st, sig);
    InferenceSound(st, sig);
    InferenceArcs(st, sig);
    FewerArcsAcyclic(Depends(more), Depends(st));
    AnnotationSound(more);
  }

  lemma AnnotationSound(st: State)
    requires Valid(st) && SoundGraph(st)
    ensures SoundGraph(I.WithAnnotations(st)) && Depends(I.WithAnnotations(st)) == Depends(st)
  {
    assert I.WithAnnotations(st).edges == st.edges && I.WithAnnotations(st).nodes.Keys == st.nodes.Keys;
  }

  /** The graph of a reachable session is good as the builder leaves it and as the hypothesis
      reasoner proposes it. */
  lemma ReachableGood(pb: P.Playbook, es: seq<R.Event>, s: B.SessionData, sig: Signals.Signals, names: seq<string>)
    requires PG.GraphSafe(pb) && G.Reached(pb, es, s) && G.Summarised(s, sig, names)
    ensures Good(I.Built(s, sig, names), true) && Good(I.Rebuilt(s, sig, names), true)
  {
    G.ReachableGraphsSound(pb, es, s, sig, names);
    BuiltSound(s, sig, names);
    CycleAnywhere(I.Built(s, sig, names));
    G.BuiltKeyed(s, sig, names);
    EnrichedGood(I.Built(s, sig, names), sig);
  }

  lemma BuiltSound(s: B.SessionData, sig: Signals.Signals, names: seq<string>)
    requires C.NoDangling(I.Built(s, sig, names))
    ensures SoundGraph(I.Built(s, sig, names))
  {
    var st := I.Built(s, sig, names);
    G.BuiltKeyed(s, sig, names);
    forall k | k in st.edges ensures st.edges[k].from in st.nodes && st.edges[k].to in st.nodes {
      assert !C.Dangles(st.edges[k], st.nodes.Keys);
    }
    forall k, l | k in st.edges && l in st.edges && SameTriple(st.edges[k], st.edges[l]) ensures k == l {
      assert G.LinkOf(st.edges[k]) == G.LinkOf(st.edges[l]);
    }
  }

  /** A session that keeps the graph of a reachable session as its snapshot, and any list of
      actions on it whose proposed snapshots are good and that links no dependency: neither the
      graph nor the snapshot has a dangling or repeated edge or a depends_on cycle. Links of other
      types may be proposed in any number and between any nodes. */
  lemma ReachableThenApplied(pb: P.Playbook, es: seq<R.Event>, s: B.SessionData, sig: Signals.Signals,
                             names: seq<string>, h: Held, acts: seq<Action>)
    requires PG.GraphSafe(pb) && G.Reached(pb, es, s) && G.Summarised(s, sig, names)
    requires h.s.view.Some? && IsView(h.s.view.value, I.Rebuilt(s, sig, names))
    requires h.g == Some(Loaded(h.s.view.value)) && WellHeld(h)
    requires forall a :: a in acts ==> GoodAction(a, true)
    ensures GoodHeld(Run(h, acts).held, true)
  {
    ReachableGood(pb, es, s, sig, names);
    GoodListed(I.Rebuilt(s, sig, names), h.s.view.value, true);
    RunKeepsGood(h, acts, true);
  }
}
