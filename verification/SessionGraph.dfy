/** Which graphs built from sessions pass the high-severity checks: those of plans that miss no
    dependency and have no cycle of them, and so those of all reachable sessions of some playbooks. */
module SessionGraph {
  import opened Sorting
  import opened Wrappers
  import opened Store
  import opened Signals
  import opened GraphBuilder
  import opened GraphInference
  import opened BuiltGraph
  import opened Walks
  import T = Traversal
  import C = Consistency
  import P = Protocol
  import R = PlanRuns
  import PG = PlanGrounding
  import Q = Requests

  // ----- Stored edges -----

  lemma {:induction false} EdgeFromOps(st: State, ops: seq<Op>, k: string)
    requires Adds(ops) && k in ExecAll(st, ops).edges
    ensures var e := ExecAll(st, ops).edges[k];
            || (k in st.edges && st.edges[k] == e)
            || exists op :: op in ops && op.OpAddEdge? && WithId(op.edge) == e
    decreases |ops|
  {
    if ops != [] {
      assert ops[0] in ops;
      EdgeFromOps(Exec(st, ops[0]), ops[1..], k);
      var e := ExecAll(st, ops).edges[k];
      if k in Exec(st, ops[0]).edges && Exec(st, ops[0]).edges[k] == e && !(k in st.edges && st.edges[k] == e) {
        assert ops[0].OpAddEdge? && WithId(ops[0].edge) == e;
      }
    }
  }

  lemma {:induction false} EdgesStay(st: State, ops: seq<Op>, k: string)
    requires Adds(ops) && (k in st.edges || exists op :: op in ops && op.OpAddEdge? && WithId(op.edge).id == k)
    ensures k in ExecAll(st, ops).edges
    decreases |ops|
  {
    if ops != [] {
      assert ops[0] in ops;
      if k !in Exec(st, ops[0]).edges {
        var op :| op in ops && op.OpAddEdge? && WithId(op.edge).id == k;
        assert op != ops[0] && op in ops[1..];
      }
      EdgesStay(Exec(st, ops[0]), ops[1..], k);
    }
  }

  function LinkOf(e: GraphEdge): Link { Link(e.from, e.to, e.etype) }

  // ----- What inference and annotation keep -----

  lemma {:induction false} EdgesOnly(st: State, ops: seq<Op>)
    requires forall op :: op in ops ==> Plain(op)
    ensures ExecAll(st, ops).nodes == st.nodes && ExecAll(st, ops).order == st.order
    decreases |ops|
  {
    if ops != [] {
      assert ops[0] in ops;
      EdgesOnly(Exec(st, ops[0]), ops[1..]);
    }
  }

  lemma InferenceOps(st: State, sig: Signals)
    requires Valid(st)
    ensures forall op :: op in InferOps(ViewOf(st), "database" in sig.keywords) ==> Plain(op)
  {
    InferPerforms(ViewOf(st), "database" in sig.keywords, Link("", "", Supports));
  }

  /** Inference adds edges and nothing else; keys stay automatic. */
  lemma InferenceKeeps(st: State, sig: Signals)
    requires Valid(st)
    ensures WithInferred(st, sig).nodes == st.nodes && WithInferred(st, sig).order == st.order
    ensures forall k :: k in st.edges ==> k in WithInferred(st, sig).edges
    ensures AutoKeyed(st) ==> AutoKeyed(WithInferred(st, sig))
  {
    var ops := InferOps(ViewOf(st), "database" in sig.keywords);
    InferenceOps(st, sig);
    EdgesOnly(st, ops);
    forall k | k in st.edges ensures k in WithInferred(st, sig).edges { EdgesStay(st, ops, k); }
    if AutoKeyed(st) { AutoIdsNeverRepeat(st, ops); }
  }

  /** An edge after inference was there before or is an inferred link. */
  lemma InferenceEdge(st: State, sig: Signals, k: string)
    requires Valid(st) && k in WithInferred(st, sig).edges
    ensures var e := WithInferred(st, sig).edges[k];
            (k in st.edges && st.edges[k] == e) || InferredLink(ViewOf(st), "database" in sig.keywords, LinkOf(e))
  {
    var ops := InferOps(ViewOf(st), "database" in sig.keywords);
    InferenceOps(st, sig);
    EdgeFromOps(st, ops, k);
    var e := WithInferred(st, sig).edges[k];
    if !(k in st.edges && st.edges[k] == e) {
      var op: Op :| op in ops && op.OpAddEdge? && WithId(op.edge) == e;
      assert IsLink(op, LinkOf(e)) && Performs(ops, LinkOf(e));
      InferPerforms(ViewOf(st), "database" in sig.keywords, LinkOf(e));
    }
  }

  /** Every inferred link has an edge stored under its id after inference. */
  lemma InferenceComplete(st: State, sig: Signals, l: Link)
    requires Valid(st) && InferredLink(ViewOf(st), "database" in sig.keywords, l)
    ensures AutoId(l.from, l.to, l.etype) in WithInferred(st, sig).edges
  {
    var ops := InferOps(ViewOf(st), "database" in sig.keywords);
    InferPerforms(ViewOf(st), "database" in sig.keywords, l);
    InferenceOps(st, sig);
    var op: Op :| op in ops && IsLink(op, l);
    assert Plain(op);
    EdgesStay(st, ops, WithId(op.edge).id);
  }

  // ----- The built graph -----

  lemma BaseOps(s: SessionData, sig: Signals, names: seq<string>)
    ensures Adds(BuildOps(s, sig, names))
  {
    BuildNodes(s, sig, names, "");
  }

  lemma BuiltNodes(s: SessionData, sig: Signals, names: seq<string>, id: string)
    ensures id in Built(s, sig, names).nodes <==> ExpectedNode(s, names, id)
    ensures id in BaseState(s, sig, names).nodes <==> ExpectedNode(s, names, id)
  {
    BuildNodes(s, sig, names, id);
    NodesAdded(Empty, BuildOps(s, sig, names), id);
    InferenceKeeps(BaseState(s, sig, names), sig);
  }

  lemma BaseEdge(s: SessionData, sig: Signals, names: seq<string>, k: string)
    requires k in BaseState(s, sig, names).edges
    ensures Expected(s, sig, LinkOf(BaseState(s, sig, names).edges[k]))
  {
    var a := BuildOps(s, sig, names);
    BaseOps(s, sig, names);
    EdgeFromOps(Empty, a, k);
    var l := LinkOf(BaseState(s, sig, names).edges[k]);
    var op: Op :| op in a && op.OpAddEdge? && WithId(op.edge) == BaseState(s, sig, names).edges[k];
    assert IsLink(op, l) && Performs(a, l);
    BuildPerforms(s, sig, names, l);
  }

  /** Where a stored edge comes from. */
  lemma BuiltEdge(s: SessionData, sig: Signals, names: seq<string>, k: string)
    requires k in Built(s, sig, names).edges
    ensures var l := LinkOf(Built(s, sig, names).edges[k]);
            Expected(s, sig, l) || InferredLink(ViewOf(BaseState(s, sig, names)), "database" in sig.keywords, l)
  {
    var st := BaseState(s, sig, names);
    InferenceEdge(st, sig, k);
    if k in st.edges && st.edges[k] == Built(s, sig, names).edges[k] { BaseEdge(s, sig, names, k); }
  }

  lemma BaseComplete(s: SessionData, sig: Signals, names: seq<string>, l: Link)
    requires Expected(s, sig, l)
    ensures AutoId(l.from, l.to, l.etype) in BaseState(s, sig, names).edges
  {
    BaseOps(s, sig, names);
    BuildPerforms(s, sig, names, l);
    var op: Op :| op in BuildOps(s, sig, names) && IsLink(op, l);
    assert Plain(op);
    EdgesStay(Empty, BuildOps(s, sig, names), WithId(op.edge).id);
  }

  /** No link that the session calls for is forgotten: an edge is stored under its id. */
  lemma NoneForgotten(s: SessionData, sig: Signals, names: seq<string>, l: Link)
    requires Expected(s, sig, l)
    ensures AutoId(l.from, l.to, l.etype) in Built(s, sig, names).edges
  {
    BaseComplete(s, sig, names, l);
    InferenceKeeps(BaseState(s, sig, names), sig);
  }

  lemma BaseKeyed(s: SessionData, sig: Signals, names: seq<string>)
    ensures AutoKeyed(BaseState(s, sig, names))
  {
    BaseOps(s, sig, names);
    AutoIdsNeverRepeat(Empty, BuildOps(s, sig, names));
  }

  /** No two built edges share source, target and type. */
  lemma BuiltKeyed(s: SessionData, sig: Signals, names: seq<string>)
    ensures AutoKeyed(Built(s, sig, names))
    ensures var r := Built(s, sig, names).edges;
            forall k, l | k in r && l in r :: LinkOf(r[k]) == LinkOf(r[l]) ==> k == l
  {
    BaseKeyed(s, sig, names);
    InferenceKeeps(BaseState(s, sig, names), sig);
  }

  // ----- Links under their own ids -----

  /** x begins like the id of a node. */
  predicate Prefixed(x: string) {
    "inv:" <= x || "svc:" <= x || "ev:" <= x || "hyp:" <= x || "q:" <= x || "req:" <= x
  }

  /** No '-' in x is followed by the beginning of a node's id. */
  predicate Free(x: string) { forall i | 0 <= i < |x| :: x[i] == '-' ==> !Prefixed(x[i + 1..]) }

  /** Ids without ':' are free, whatever dashes they have. */
  lemma ColonFree(x: string)
    requires ':' !in x
    ensures Free(x)
  {
    forall i | 0 <= i < |x| && x[i] == '-' ensures !Prefixed(x[i + 1..]) {
      var y := x[i + 1..];
      assert ':' !in y;
      assert "inv:"[3] == "svc:"[3] == "hyp:"[3] == "req:"[3] == "ev:"[2] == "q:"[1] == ':';
    }
  }

  lemma ExpectedPrefixed(s: SessionData, sig: Signals, l: Link)
    requires Expected(s, sig, l)
    ensures Prefixed(l.from) && Prefixed(l.to) && l.etype != CorrelatesWith
  {
  }

  lemma PrefixedLonger(mid: string, t: string)
    requires Prefixed(mid + "-" + t)
    ensures Prefixed(mid)
  {
    var x := mid + "-" + t;
    assert x[|mid|] == '-' && forall i :: 0 <= i < |mid| ==> x[i] == mid[i];
  }

  /** An end of a link that shares its id with another link is not free. */
  lemma ShiftedNotFree(f1: string, t1: string, f2: string, t2: string)
    requires Shifted(f1, t1, f2, t2)
    ensures Prefixed(t2) ==> !Free(t1)
    ensures Prefixed(t1) ==> !Free(f2)
  {
    var mid: string :| f2 == f1 + "-" + mid && t1 == mid + "-" + t2;
    assert t1[|mid|] == '-' && t1[|mid| + 1..] == t2;
    assert f2[|f1|] == '-' && f2[|f1| + 1..] == mid;
    if Prefixed(t1) { PrefixedLonger(mid, t2); }
  }

  /** A link whose ends are free is stored as it is; another one may have been replaced by a link
      with the same automatic id. */
  lemma FreeStored(s: SessionData, sig: Signals, names: seq<string>, l: Link)
    requires Expected(s, sig, l) && Free(l.from) && Free(l.to)
    ensures exists k :: k in Built(s, sig, names).edges && LinkOf(Built(s, sig, names).edges[k]) == l
  {
    NoneForgotten(s, sig, names, l);
    BuiltKeyed(s, sig, names);
    var k := AutoId(l.from, l.to, l.etype);
    var m := LinkOf(Built(s, sig, names).edges[k]);
    ExpectedPrefixed(s, sig, l);
    AutoIdCollision(l.from, l.to, l.etype, m.from, m.to, m.etype);
    BuiltEdge(s, sig, names, k);
    ExpectedPrefixed(s, sig, m);
    if Shifted(l.from, l.to, m.from, m.to) { ShiftedNotFree(l.from, l.to, m.from, m.to); }
    if Shifted(m.from, m.to, l.from, l.to) { ShiftedNotFree(m.from, m.to, l.from, l.to); }
  }

  lemma FreeNode(prefix: string, id: string)
    requires Free(id) && '-' !in prefix
    ensures Free(prefix + id)
  {
    forall i | 0 <= i < |prefix + id| && (prefix + id)[i] == '-' ensures !Prefixed((prefix + id)[i + 1..]) {
      assert i >= |prefix|;
      assert (prefix + id)[i + 1..] == id[i - |prefix| + 1..];
    }
  }

  // ----- No dangling edge -----

  /** The plan names only questions that it holds. */
  ghost predicate PlanGrounded(p: PlanData) {
    && (forall q, d :: q in p.questions && d in q.dependsOn ==> d in P.IdSet(p.questions))
    && (forall r :: r in p.requests ==> r.questionId in P.IdSet(p.questions))
  }

  /** sig summarises the session's evidence and names lists its entities. */
  ghost predicate Summarised(s: SessionData, sig: Signals, names: seq<string>) {
    Describes(sig, s.evidence) && forall n :: n in names <==> n in sig.entities
  }

  lemma EntitySeen(ev: seq<Evidence>, e: Evidence)
    requires e in ev && e.entity != ""
    ensures e.entity in EntitiesOf(ev)
  {
    EntitiesByMultiset(ev, e.entity);
    FilterMembers(ev, (x: Evidence) => At(x, e.entity));
    assert e in Filter(ev, (x: Evidence) => At(x, e.entity));
  }

  lemma ItemEnds(s: SessionData, sig: Signals, names: seq<string>, l: Link)
    requires Summarised(s, sig, names)
    requires || StartLink(s, l) || ChainLink(SortedByTime(s.evidence), l)
             || exists e :: e in s.evidence && ItemLink(Inv(s.id), e, l)
    ensures ExpectedNode(s, names, l.from) && ExpectedNode(s, names, l.to)
  {
    if e :| e in s.evidence && ItemLink(Inv(s.id), e, l) {
      if e.entity != "" { EntitySeen(s.evidence, e); }
    }
    var ordered := SortedByTime(s.evidence);
    if ChainLink(ordered, l) {
      SameItems(s);
      var i :| 0 < i < |ordered| && l == Link(Ev(ordered[i - 1].id), Ev(ordered[i].id), OccurredBefore);
      assert ordered[i - 1] in s.evidence && ordered[i] in s.evidence;
    }
  }

  lemma HypothesisEnds(s: SessionData, names: seq<string>, h: HypothesisData, l: Link)
    requires h in s.hypotheses && HypothesisLink(s.evidence, h, l)
    ensures ExpectedNode(s, names, l.from) && ExpectedNode(s, names, l.to)
  {
    var refs := h.supporting + h.conflicting;
    var ref :| ref in refs && KnownItem(s.evidence, ref) && l.from == Ev(ref);
    assert KnownItem(s.evidence, ref);
    assert exists e :: e in s.evidence && e.id == ref;
    var e :| e in s.evidence && e.id == ref;
    assert Ev(ref) == Ev(e.id);
  }

  lemma IdMember(qs: seq<P.Question>, id: string)
    requires id in P.IdSet(qs)
    ensures exists q :: q in qs && Ask(id) == Ask(q.id)
  {
    var q :| q in qs && q.id == id;
    assert Ask(id) == Ask(q.id);
  }

  lemma PlanEnds(s: SessionData, names: seq<string>, l: Link)
    requires PlanLink(s, l) && PlanGrounded(s.plan.value)
    ensures ExpectedNode(s, names, l.from) && ExpectedNode(s, names, l.to)
  {
    var p := s.plan.value;
    if q :| q in p.questions && QuestionLink(Inv(s.id), q, l) {
      if DependLink(q.id, q.dependsOn, l) {
        var d :| d in q.dependsOn && l == Link(Ask(d), Ask(q.id), DependsOn);
        IdMember(p.questions, d);
      }
    }
    if r :| r in p.requests && RequestLink(r, l) { IdMember(p.questions, r.questionId); }
  }

  /** Both ends of every link that a session calls for are nodes that it calls for. */
  lemma ExpectedEnds(s: SessionData, sig: Signals, names: seq<string>, l: Link)
    requires Summarised(s, sig, names) && (s.plan.Some? ==> PlanGrounded(s.plan.value))
    requires Expected(s, sig, l)
    ensures ExpectedNode(s, names, l.from) && ExpectedNode(s, names, l.to)
  {
    if h :| h in s.hypotheses && HypothesisLink(s.evidence, h, l) { HypothesisEnds(s, names, h, l); }
    if PlanLink(s, l) { PlanEnds(s, names, l); }
    if || StartLink(s, l) || ChainLink(SortedByTime(s.evidence), l)
       || exists e :: e in s.evidence && ItemLink(Inv(s.id), e, l) {
      ItemEnds(s, sig, names, l);
    }
  }

  lemma InferredEnds(s: SessionData, sig: Signals, names: seq<string>, l: Link)
    requires Summarised(s, sig, names) && (s.plan.Some? ==> PlanGrounded(s.plan.value))
    requires InferredLink(ViewOf(BaseState(s, sig, names)), "database" in sig.keywords, l)
    ensures ExpectedNode(s, names, l.from) && ExpectedNode(s, names, l.to)
  {
    var st := BaseState(s, sig, names);
    var v := ViewOf(st);
    if e :| e in v.edges && e.etype == OccurredBefore && e.from == l.from && e.to == l.to {
      BaseEdge(s, sig, names, e.id);
      ExpectedEnds(s, sig, names, LinkOf(e));
    } else {
      C.StoredIds(st);
      assert l.from in st.nodes && l.to in st.nodes;
      BuiltNodes(s, sig, names, l.from);
      BuiltNodes(s, sig, names, l.to);
    }
  }

  lemma BuiltNoDangling(s: SessionData, sig: Signals, names: seq<string>)
    requires Summarised(s, sig, names) && (s.plan.Some? ==> PlanGrounded(s.plan.value))
    ensures C.NoDangling(Built(s, sig, names))
  {
    var st := Built(s, sig, names);
    forall k | k in st.edges ensures !C.Dangles(st.edges[k], st.nodes.Keys) {
      BuiltEdge(s, sig, names, k);
      var l := LinkOf(st.edges[k]);
      if Expected(s, sig, l) {
        ExpectedEnds(s, sig, names, l);
      } else {
        InferredEnds(s, sig, names, l);
      }
      BuiltNodes(s, sig, names, l.from);
      BuiltNodes(s, sig, names, l.to);
    }
  }

  lemma AskSame(x: string, y: string)
    requires Ask(x) == Ask(y)
    ensures x == y
  {
    assert Ask(x)[2..] == x && Ask(y)[2..] == y;
  }

  lemma UnaskedIsNoNode(s: SessionData, names: seq<string>, id: string)
    requires s.plan.Some? && id !in P.IdSet(s.plan.value.questions)
    ensures !ExpectedNode(s, names, Ask(id))
  {
    assert Ask(id)[0] == 'q' && Inv(s.id)[0] == 'i';
    forall x: string ensures Svc(x)[0] == 's' && Ev(x)[0] == 'e' && Hyp(x)[0] == 'h' && Req(x)[0] == 'r' {}
    forall q | q in s.plan.value.questions ensures Ask(q.id) != Ask(id) {
      assert q.id in P.IdSet(s.plan.value.questions);
      if Ask(q.id) == Ask(id) { AskSame(q.id, id); }
    }
  }

  lemma LooseEnd(s: SessionData, sig: Signals, names: seq<string>, l: Link, id: string)
    requires s.plan.Some? && id !in P.IdSet(s.plan.value.questions)
    requires Expected(s, sig, l) && l.from == Ask(id) && Free(l.from) && Free(l.to)
    ensures !C.NoDangling(Built(s, sig, names))
  {
    FreeStored(s, sig, names, l);
    var k :| k in Built(s, sig, names).edges && LinkOf(Built(s, sig, names).edges[k]) == l;
    BuiltNodes(s, sig, names, Ask(id));
    UnaskedIsNoNode(s, names, id);
    assert C.Dangles(Built(s, sig, names).edges[k], Built(s, sig, names).nodes.Keys);
  }

  /** A dependency on a question that is not in the plan dangles in the graph. */
  lemma UngroundedDangles(s: SessionData, sig: Signals, names: seq<string>, q: P.Question, d: string)
    requires s.plan.Some? && q in s.plan.value.questions && d in q.dependsOn && d !in P.IdSet(s.plan.value.questions)
    requires Free(d) && Free(q.id)
    ensures !C.NoDangling(Built(s, sig, names))
  {
    var l := Link(Ask(d), Ask(q.id), DependsOn);
    assert DependLink(q.id, q.dependsOn, l);
    assert QuestionLink(Inv(s.id), q, l);
    assert PlanLink(s, l);
    FreeNode("q:", d);
    FreeNode("q:", q.id);
    LooseEnd(s, sig, names, l, d);
  }

  /** So does a request for a question that is not in the plan. */
  lemma UnaskedRequestDangles(s: SessionData, sig: Signals, names: seq<string>, r: RequestData)
    requires s.plan.Some? && r in s.plan.value.requests && r.questionId !in P.IdSet(s.plan.value.questions)
    requires Free(r.questionId) && Free(r.id)
    ensures !C.NoDangling(Built(s, sig, names))
  {
    var l := Link(Ask(r.questionId), Req(r.id), Requests);
    assert RequestLink(r, l);
    assert PlanLink(s, l);
    FreeNode("q:", r.questionId);
    FreeNode("req:", r.id);
    LooseEnd(s, sig, names, l, r.questionId);
  }

  /** Questions, dependencies and requests have free ids. */
  ghost predicate FreeIds(p: PlanData) {
    && (forall q :: q in p.questions ==> Free(q.id) && forall d :: d in q.dependsOn ==> Free(d))
    && (forall r :: r in p.requests ==> Free(r.id) && Free(r.questionId))
  }

  /** The built graph has no dangling edge exactly when the plan names only its own questions. */
  lemma DanglingExactly(s: SessionData, sig: Signals, names: seq<string>)
    requires Summarised(s, sig, names) && (s.plan.Some? ==> FreeIds(s.plan.value))
    ensures C.NoDangling(Built(s, sig, names)) <==> (s.plan.Some? ==> PlanGrounded(s.plan.value))
  {
    if s.plan.Some? && !PlanGrounded(s.plan.value) {
      var p := s.plan.value;
      if q, d :| q in p.questions && d in q.dependsOn && d !in P.IdSet(p.questions) {
        UngroundedDangles(s, sig, names, q, d);
      } else {
        var r :| r in p.requests && r.questionId !in P.IdSet(p.questions);
        UnaskedRequestDangles(s, sig, names, r);
      }
    } else {
      BuiltNoDangling(s, sig, names);
    }
  }

  // ----- No cycle -----

  /** The only depends_on links are those of the plan. */
  lemma OnlyPlanDepends(s: SessionData, sig: Signals, l: Link) returns (q: P.Question, d: string)
    requires Expected(s, sig, l) && l.etype == DependsOn
    ensures s.plan.Some? && q in s.plan.value.questions && d in q.dependsOn && l == Link(Ask(d), Ask(q.id), DependsOn)
  {
    assert PlanLink(s, l);
    q :| q in s.plan.value.questions && QuestionLink(Inv(s.id), q, l);
    assert DependLink(q.id, q.dependsOn, l);
    d :| d in q.dependsOn && l == Link(Ask(d), Ask(q.id), DependsOn);
  }

  lemma DependsArc(s: SessionData, sig: Signals, names: seq<string>, u: string, v: string) returns (i: nat, d: string)
    requires (u, v) in T.StoredArcs(Built(s, sig, names).edges, C.IsDependsOn)
    ensures s.plan.Some? && i < |s.plan.value.questions| && d in s.plan.value.questions[i].dependsOn
    ensures u == Ask(d) && v == Ask(s.plan.value.questions[i].id)
  {
    var edges := Built(s, sig, names).edges;
    var k :| k in edges && C.IsDependsOn(edges[k].etype) && (edges[k].from, edges[k].to) == (u, v);
    BuiltEdge(s, sig, names, k);
    var l := Link(u, v, DependsOn);
    assert l == LinkOf(edges[k]);
    var q;
    q, d := OnlyPlanDepends(s, sig, l);
    i :| 0 <= i < |s.plan.value.questions| && s.plan.value.questions[i] == q;
  }

  /** The plan's dependencies as arcs between question nodes. */
  ghost function PlanArcs(s: SessionData): Arcs<string> {
    if s.plan.None? then {}
    else set q, d | q in s.plan.value.questions && d in q.dependsOn :: (Ask(d), Ask(q.id))
  }

  lemma DependsInPlan(s: SessionData, sig: Signals, names: seq<string>)
    ensures T.StoredArcs(Built(s, sig, names).edges, C.IsDependsOn) <= PlanArcs(s)
  {
    var arcs := T.StoredArcs(Built(s, sig, names).edges, C.IsDependsOn);
    forall u, v | (u, v) in arcs ensures (u, v) in PlanArcs(s) {
      var i, d := DependsArc(s, sig, names, u, v);
      assert s.plan.value.questions[i] in s.plan.value.questions;
    }
  }

  /** Naming the nodes makes no cycle and hides none. */
  lemma NamedAcyclic(s: SessionData)
    requires s.plan.Some?
    ensures Acyclic(PlanArcs(s)) <==> Acyclic(PG.DepArcs(s.plan.value.questions))
  {
    var arcs, deps := PlanArcs(s), PG.DepArcs(s.plan.value.questions);
    forall u, v | (u, v) in arcs ensures |u| >= 2 && |v| >= 2 && (u[2..], v[2..]) in deps {
      var q, d :| q in s.plan.value.questions && d in q.dependsOn && (u, v) == (Ask(d), Ask(q.id));
      assert Ask(d)[2..] == d && Ask(q.id)[2..] == q.id;
    }
    var strip := (x: string) => if |x| >= 2 then x[2..] else x;
    assert Carries(arcs, deps, strip);
    assert Carries(deps, arcs, Ask);
    if Acyclic(deps) { CarriedAcyclic(arcs, deps, strip); }
    if Acyclic(arcs) { CarriedAcyclic(deps, arcs, Ask); }
  }

  lemma BuiltAcyclic(s: SessionData, sig: Signals, names: seq<string>)
    requires s.plan.Some? ==> Acyclic(PG.DepArcs(s.plan.value.questions))
    ensures !C.DependsCycle(Built(s, sig, names))
  {
    var arcs := T.StoredArcs(Built(s, sig, names).edges, C.IsDependsOn);
    DependsInPlan(s, sig, names);
    if s.plan.Some? { NamedAcyclic(s); }
    assert Acyclic(PlanArcs(s));
    FewerArcsAcyclic(arcs, PlanArcs(s));
  }

  // ----- What the checks find, exactly -----

  lemma StoredDependencies(s: SessionData, sig: Signals, names: seq<string>)
    requires s.plan.Some? ==> FreeIds(s.plan.value)
    ensures T.StoredArcs(Built(s, sig, names).edges, C.IsDependsOn) == PlanArcs(s)
  {
    var arcs := T.StoredArcs(Built(s, sig, names).edges, C.IsDependsOn);
    DependsInPlan(s, sig, names);
    forall u, v | (u, v) in PlanArcs(s) ensures (u, v) in arcs {
      var q, d :| q in s.plan.value.questions && d in q.dependsOn && (u, v) == (Ask(d), Ask(q.id));
      DependencyStored(s, sig, names, q, d);
    }
  }

  lemma DependencyStored(s: SessionData, sig: Signals, names: seq<string>, q: P.Question, d: string)
    requires s.plan.Some? && FreeIds(s.plan.value) && q in s.plan.value.questions && d in q.dependsOn
    ensures (Ask(d), Ask(q.id)) in T.StoredArcs(Built(s, sig, names).edges, C.IsDependsOn)
  {
    var l := Link(Ask(d), Ask(q.id), DependsOn);
    assert DependLink(q.id, q.dependsOn, l);
    assert QuestionLink(Inv(s.id), q, l);
    assert PlanLink(s, l);
    FreeNode("q:", d);
    FreeNode("q:", q.id);
    FreeStored(s, sig, names, l);
    var k :| k in Built(s, sig, names).edges && LinkOf(Built(s, sig, names).edges[k]) == l;
    assert C.IsDependsOn(Built(s, sig, names).edges[k].etype);
  }

  /** The built graph has a depends_on cycle exactly when the plan's dependencies have one. */
  lemma CycleExactly(s: SessionData, sig: Signals, names: seq<string>)
    requires s.plan.Some? ==> FreeIds(s.plan.value)
    ensures C.DependsCycle(Built(s, sig, names)) <==> !Acyclic(PlanArcs(s))
  {
    StoredDependencies(s, sig, names);
    var arcs := PlanArcs(s);
    if !Acyclic(arcs) {
      var a, b :| OnCycle(arcs, a, b);
      TargetIsNode(s, sig, names, a, b);
      assert b in Built(s, sig, names).nodes && Reaches(arcs, b, a);
    }
  }

  lemma TargetIsNode(s: SessionData, sig: Signals, names: seq<string>, a: string, b: string)
    requires (a, b) in PlanArcs(s)
    ensures b in Built(s, sig, names).nodes
  {
    var q, d :| q in s.plan.value.questions && d in q.dependsOn && (a, b) == (Ask(d), Ask(q.id));
    BuiltNodes(s, sig, names, b);
    assert ExpectedNode(s, names, b);
  }

  /** Nothing of high severity is found exactly when the plan names only its own questions and its
      dependencies form no cycle. */
  lemma ChecksExactly(s: SessionData, sig: Signals, names: seq<string>)
    requires Summarised(s, sig, names) && (s.plan.Some? ==> FreeIds(s.plan.value))
    ensures C.NoDangling(Built(s, sig, names)) && !C.DependsCycle(Built(s, sig, names)) <==>
      (s.plan.Some? ==> PlanGrounded(s.plan.value)) && Acyclic(PlanArcs(s))
  {
    DanglingExactly(s, sig, names);
    CycleExactly(s, sig, names);
  }

  // ----- Reachable sessions -----

  /** The plan and the evidence requests that the last run left. */
  datatype Standing = Standing(plan: P.Plan, requests: seq<P.Request>)

  function StepStanding(pb: P.Playbook, x: Standing, e: R.Event): Standing {
    var p := R.Step(pb, x.plan, e);
    match e
    case RunEvent(w) => Standing(p, P.ChosenRequests(p.questions, w.present))
    case OperatorEvent(_, _) => Standing(p, x.requests)
  }

  function Stands(pb: P.Playbook, es: seq<R.Event>): Standing {
    if es == [] then Standing(R.EmptyPlan, []) else StepStanding(pb, Stands(pb, es[..|es| - 1]), es[|es| - 1])
  }

  function CategoryName(c: P.Category): string {
    match c
    case ApplicationLogs => "application_logs"
    case InfrastructureEvents => "infrastructure_events"
    case DeploymentEvents => "deployment_events"
    case AlertEvents => "alert_events"
    case Metrics => "metrics"
    case TraceEvents => "trace_events"
    case ConfigurationChanges => "configuration_changes"
    case NetworkEvents => "network_events"
    case DatabaseEvents => "database_events"
    case SecurityEvents => "security_events"
    case HumanContext => "human_context"
    case Custom => "custom"
  }

  function AsData(r: P.Request): RequestData {
    var suffix := if r.categories == [] then "" else "-" + CategoryName(r.categories[0]);
    RequestData("req-" + r.questionId + suffix, r.questionId, r.gain)
  }

  function AllData(rs: seq<P.Request>): seq<RequestData> {
    if rs == [] then [] else AllData(rs[..|rs| - 1]) + [AsData(rs[|rs| - 1])]
  }

  lemma {:induction false} AllDataMembers(rs: seq<P.Request>)
    ensures forall d :: d in AllData(rs) ==> exists r :: r in rs && d == AsData(r)
  {
    if rs != [] {
      AllDataMembers(rs[..|rs| - 1]);
      assert rs == rs[..|rs| - 1] + [rs[|rs| - 1]];
    }
  }

  ghost predicate RequestsAsked(x: Standing) {
    forall r :: r in x.requests ==> r.questionId in P.IdSet(x.plan.questions)
  }

  lemma ChosenAsked(qs: seq<P.Question>, present: set<P.Category>, r: P.Request)
    requires r in P.ChosenRequests(qs, present)
    ensures r.questionId in P.IdSet(qs)
  {
    Q.RequestsAreBest(qs, present);
    assert Q.Wanted(qs, present, r);
  }

  lemma IdsKept(qs: seq<P.Question>, rs: seq<P.Question>, id: string)
    requires R.SameAsked(qs, rs) && id in P.IdSet(qs)
    ensures id in P.IdSet(rs)
  {
    var q :| q in qs && q.id == id;
    var i :| 0 <= i < |qs| && qs[i] == q;
    assert rs[i] in rs && rs[i].id == id;
  }

  /** Over every interleaving of runs and operator resolutions the requests name questions of
      the plan, and the plan keeps its invariant. */
  lemma {:induction false} StandingInv(pb: P.Playbook, es: seq<R.Event>)
    ensures R.PlanInv(Stands(pb, es).plan) && RequestsAsked(Stands(pb, es))
    ensures Stands(pb, es).plan == R.Steps(pb, R.EmptyPlan, es)
  {
    R.StepsKeepInv(pb, R.EmptyPlan, es);
    if es != [] {
      StandingInv(pb, es[..|es| - 1]);
      StandingStep(pb, Stands(pb, es[..|es| - 1]), es[|es| - 1]);
    }
  }

  lemma StandingStep(pb: P.Playbook, x: Standing, e: R.Event)
    requires RequestsAsked(x)
    ensures RequestsAsked(StepStanding(pb, x, e))
  {
    var y := StepStanding(pb, x, e);
    match e
    case RunEvent(w) =>
      forall r | r in y.requests ensures r.questionId in P.IdSet(y.plan.questions) {
        ChosenAsked(y.plan.questions, w.present, r);
      }
    case OperatorEvent(id, confirmed) =>
      if P.ForcePlan(x.plan, id, confirmed).Some? {
        R.ForceExtends(x.plan, id, confirmed);
        forall r | r in x.requests ensures r.questionId in P.IdSet(y.plan.questions) {
          IdsKept(x.plan.questions, y.plan.questions, r.questionId);
        }
      }
  }

  /** The session's plan is one that the protocol can reach; or there is none yet. */
  ghost predicate Reached(pb: P.Playbook, es: seq<R.Event>, s: SessionData) {
    var x := Stands(pb, es);
    s.plan.Some? ==> s.plan.value == PlanData(x.plan.questions, AllData(x.requests))
  }

  /** For every playbook: the graph of a reachable session has no dangling edge exactly when no
      question depends on one that was never asked. */
  lemma ReachedDanglingExactly(pb: P.Playbook, es: seq<R.Event>, s: SessionData, sig: Signals, names: seq<string>)
    requires Reached(pb, es, s) && s.plan.Some? && Summarised(s, sig, names) && FreeIds(s.plan.value)
    ensures var qs := s.plan.value.questions;
            C.NoDangling(Built(s, sig, names)) <==>
              forall q, d :: q in qs && d in q.dependsOn ==> d in P.IdSet(qs)
  {
    var x := Stands(pb, es);
    StandingInv(pb, es);
    AllDataMembers(x.requests);
    DanglingExactly(s, sig, names);
  }

  /** For every playbook whose reachable plans miss no dependency and have no cycle of them, every
      interleaving of runs (each on any evidence) and operator resolutions, and whatever the
      session's evidence, hypotheses and service: the graph built from it has no dangling edge and
      no depends_on cycle. */
  lemma ReachableGraphsSound(pb: P.Playbook, es: seq<R.Event>, s: SessionData, sig: Signals, names: seq<string>)
    requires PG.GraphSafe(pb) && Reached(pb, es, s) && Summarised(s, sig, names)
    ensures C.NoDangling(Built(s, sig, names)) && !C.DependsCycle(Built(s, sig, names))
  {
    var x := Stands(pb, es);
    StandingInv(pb, es);
    PG.StepsGrounded(pb, es);
    PG.StepsAcyclic(pb, es);
    AllDataMembers(x.requests);
    BuiltNoDangling(s, sig, names);
    BuiltAcyclic(s, sig, names);
  }

  /** For every playbook: the graph of a reachable session passes exactly when its plan holds every
      dependency and has no cycle of them. */
  lemma ReachedExactly(pb: P.Playbook, es: seq<R.Event>, s: SessionData, sig: Signals, names: seq<string>)
    requires Reached(pb, es, s) && s.plan.Some? && Summarised(s, sig, names) && FreeIds(s.plan.value)
    ensures var qs := R.Steps(pb, R.EmptyPlan, es).questions;
            C.NoDangling(Built(s, sig, names)) && !C.DependsCycle(Built(s, sig, names)) <==>
              PG.Grounded(qs) && Acyclic(PG.DepArcs(qs))
  {
    StandingInv(pb, es);
    ReachedDanglingExactly(pb, es, s, sig, names);
    CycleExactly(s, sig, names);
    NamedAcyclic(s);
  }

  /** The checks see nodes and edges only. */
  lemma SameFindings(st: State, t: State)
    requires st.nodes.Keys == t.nodes.Keys && st.edges == t.edges
    ensures C.NoDangling(st) <==> C.NoDangling(t)
    ensures C.DependsCycle(st) <==> C.DependsCycle(t)
  {
  }

  /** Summarise the evidence, build the graph, store its snapshot, load the snapshot again and
      check it, as the program does: nothing of high severity is found. */
  method RebuildAndCheck(s: SessionData, ghost pb: P.Playbook, ghost es: seq<R.Event>)
    returns (v: GraphView, issues: seq<C.Issue>, ghost names: seq<string>, ghost sig: Signals)
    requires PG.GraphSafe(pb) && Reached(pb, es, s)
    ensures Summarised(s, sig, names) && IsView(v, Built(s, sig, names))
    ensures !C.AnyHigh(issues)
    ensures C.ReportsEdges(issues, Loaded(v)) && C.ReportsOrphans(issues, Loaded(v))
    ensures C.ReportsCycle(issues, Loaded(v))
  {
    var found := Analyze(s.evidence);
    sig := found;
    var built;
    built, names := Build(s, found);
    v := built.View();
    ReachableGraphsSound(pb, es, s, sig, names);
    RoundTrip(Built(s, sig, names), v);
    SameFindings(Built(s, sig, names), Loaded(v));
    var g := FromView(Some(v));
    issues := C.Check(g);
  }

  // ----- A playbook that does not keep the order -----

  const Parent := P.PlaybookQuestion("g", 50, [P.ApplicationLogs], [], [], "", ["c"])
  const Child := P.PlaybookQuestion("c", 50, [P.ApplicationLogs], ["z"], [], "t", [])
  const LogsOnly := P.World({P.ApplicationLogs}, (t: string) => false, (id: string) => P.Decided(P.Confirmed, 90.0))

  function Confirmed(pq: P.PlaybookQuestion): P.Question {
    P.Question(pq.id, pq.priority, P.Answered, 90.0, pq.required, pq.dependsOn,
               Some(P.Resolution(pq.id, P.Outcome.Confirmed, 90.0)))
  }

  lemma AppendTwo(a: P.PlaybookQuestion, b: P.PlaybookQuestion, eligible: P.PlaybookQuestion -> bool,
                  qs: seq<P.Question>)
    ensures var mid := if eligible(a) && a.id !in P.IdSet(qs) then qs + [P.ToQuestion(a)] else qs;
            P.AppendAll([a, b], eligible, qs) ==
              if eligible(b) && b.id !in P.IdSet(mid) then mid + [P.ToQuestion(b)] else mid
  {
    assert [a, b][1..] == [b] && [b][1..] == [];
    var mid := if eligible(a) && a.id !in P.IdSet(qs) then qs + [P.ToQuestion(a)] else qs;
    assert P.AppendAll([a, b], eligible, qs) == P.AppendAll([b], eligible, mid);
    var end := if eligible(b) && b.id !in P.IdSet(mid) then mid + [P.ToQuestion(b)] else mid;
    assert P.AppendAll([b], eligible, mid) == P.AppendAll([], eligible, end);
  }

  lemma AskedFirst()
    ensures P.Extend([Parent, Child], LogsOnly, []) == [P.ToQuestion(Parent)]
  {
    var pb, q := [Parent, Child], P.ToQuestion(Parent);
    AppendTwo(Parent, Child, pq => P.Static(P.AnsweredIds([]), pq), []);
    assert P.EnsureQuestions(pb, []) == [q];
    AppendTwo(Parent, Child, pq => P.Dynamic(P.AnsweredIds([q]), LogsOnly, pq), [q]);
    assert P.TriggerQuestions(pb, LogsOnly, [q]) == [q];
    assert [q][..0] == [];
    assert P.GenerateChildren(pb, [], [q]) == [q];
    assert P.GenerateChildren(pb, [q], [q]) == P.ChildrenOf(pb, q, [q]) == [q];
  }

  lemma ConfirmedNext()
    ensures P.ResolveAll([P.ToQuestion(Parent)], LogsOnly) == [Confirmed(Parent)]
  {
    var q := P.ToQuestion(Parent);
    assert [q][..0] == [];
    assert q.required == [P.ApplicationLogs];
    assert P.Resolve(q.id, q.required, LogsOnly) == Some(P.Resolution("g", P.Outcome.Confirmed, 90.0));
    assert P.ResolveOne(q, LogsOnly) == Confirmed(Parent);
    assert P.ResolveAll([], LogsOnly) == [];
  }

  lemma AskedSecond()
    ensures P.Extend([Parent, Child], LogsOnly, [Confirmed(Parent)]) == [Confirmed(Parent), P.ToQuestion(Child)]
  {
    var pb, q := [Parent, Child], Confirmed(Parent);
    AppendTwo(Parent, Child, pq => P.Static(P.AnsweredIds([q]), pq), [q]);
    assert q in [q];
    assert P.EnsureQuestions(pb, [q]) == [q];
    AppendTwo(Parent, Child, pq => P.Dynamic(P.AnsweredIds([q]), LogsOnly, pq), [q]);
    assert P.TriggerQuestions(pb, LogsOnly, [q]) == [q];
    assert [q][..0] == [];
    assert P.GenerateChildren(pb, [], [q]) == [q];
    var gens := P.ParentGenerates(pb, "g");
    assert gens == ["c"];
    AppendTwo(Parent, Child, (pq: P.PlaybookQuestion) => pq.id in gens, [q]);
    assert P.GenerateChildren(pb, [q], [q]) == P.ChildrenOf(pb, q, [q]);
  }

  /** One run of a playbook whose generated question depends on something else than its
      generator: the dependency is not in the plan at all. */
  lemma GeneratedChildUngrounded()
    ensures R.Steps([Parent, Child], R.EmptyPlan, [R.RunEvent(LogsOnly)]).questions ==
      [Confirmed(Parent), P.ToQuestion(Child)]
    ensures !R.DepsEarlier(R.Steps([Parent, Child], R.EmptyPlan, [R.RunEvent(LogsOnly)]).questions)
  {
    AskedFirst();
    ConfirmedNext();
    AskedSecond();
    var es := [R.RunEvent(LogsOnly)];
    assert es[..0] == [];
    assert R.Steps([Parent, Child], R.EmptyPlan, []) == R.EmptyPlan;
    var qs := R.Steps([Parent, Child], R.EmptyPlan, es).questions;
    assert qs == [Confirmed(Parent), P.ToQuestion(Child)];
    assert qs[..1] == [Confirmed(Parent)] && "z" in qs[1].dependsOn;
  }

  /** So the graph of that run has a dangling depends_on edge. */
  lemma GeneratedChildDangles(s: SessionData, sig: Signals, names: seq<string>)
    requires s.plan == Some(PlanData([Confirmed(Parent), P.ToQuestion(Child)], []))
    ensures !C.NoDangling(Built(s, sig, names))
  {
    var qs := s.plan.value.questions;
    assert qs[1] in qs && "z" in qs[1].dependsOn;
    assert "z" !in P.IdSet(qs);
    UngroundedDangles(s, sig, names, qs[1], "z");
  }
}
