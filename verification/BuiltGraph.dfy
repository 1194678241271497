/** Which nodes and edges a built graph has. */
module BuiltGraph {
  import opened Sorting
  import opened Wrappers
  import opened Store
  import opened Signals
  import opened GraphBuilder
  import opened GraphInference
  import P = Protocol

  datatype Link = Link(from: string, to: string, etype: EdgeType)

  // ----- The links a session calls for -----

  predicate StartLink(s: SessionData, l: Link) {
    s.service != "" && l == Link(Inv(s.id), Svc(s.service), BelongsTo)
  }

  predicate ItemLink(inv: string, e: Evidence, l: Link) {
    || l == Link(inv, Ev(e.id), Generated)
    || (e.entity != "" && l == Link(Ev(e.id), Svc(e.entity), ObservedOn))
  }

  ghost predicate ChainLink(ordered: seq<Evidence>, l: Link) {
    exists i :: 0 < i < |ordered| && l == Link(Ev(ordered[i - 1].id), Ev(ordered[i].id), OccurredBefore)
  }

  predicate CauseLink(sig: Signals, l: Link) {
    sig.onset.Some? &&
    (|| (&& sig.deployBefore && sig.deployment.Some?
         && l == Link(Ev(sig.deployment.value.id), Ev(sig.onset.value.id), Causes))
     || (sig.recovery.Some? && l == Link(Ev(sig.recovery.value.id), Ev(sig.onset.value.id), RecoveredBy)))
  }

  ghost predicate RefLink(ev: seq<Evidence>, to: string, refs: seq<string>, t: EdgeType, l: Link) {
    exists ref :: ref in refs && KnownItem(ev, ref) && l == Link(Ev(ref), to, t)
  }

  ghost predicate HypothesisLink(ev: seq<Evidence>, h: HypothesisData, l: Link) {
    RefLink(ev, Hyp(h.id), h.supporting, Supports, l) || RefLink(ev, Hyp(h.id), h.conflicting, Contradicts, l)
  }

  ghost predicate DependLink(id: string, deps: seq<string>, l: Link) {
    exists d :: d in deps && l == Link(Ask(d), Ask(id), DependsOn)
  }

  ghost predicate QuestionLink(inv: string, q: P.Question, l: Link) {
    l == Link(inv, Ask(q.id), Generated) || DependLink(q.id, q.dependsOn, l)
  }

  predicate RequestLink(r: RequestData, l: Link) { l == Link(Ask(r.questionId), Req(r.id), Requests) }

  ghost predicate PlanLink(s: SessionData, l: Link) {
    s.plan.Some? &&
    (|| (exists q :: q in s.plan.value.questions && QuestionLink(Inv(s.id), q, l))
     || (exists r :: r in s.plan.value.requests && RequestLink(r, l)))
  }

  ghost predicate Expected(s: SessionData, sig: Signals, l: Link) {
    || StartLink(s, l)
    || (exists e :: e in s.evidence && ItemLink(Inv(s.id), e, l))
    || ChainLink(SortedByTime(s.evidence), l)
    || CauseLink(sig, l)
    || (exists h :: h in s.hypotheses && HypothesisLink(s.evidence, h, l))
    || PlanLink(s, l)
  }

  // ----- What the operations perform -----

  predicate IsLink(op: Op, l: Link) { op.OpAddEdge? && Link(op.edge.from, op.edge.to, op.edge.etype) == l }

  ghost predicate Performs(ops: seq<Op>, l: Link) { exists op :: op in ops && IsLink(op, l) }

  lemma PerformsConcat(a: seq<Op>, b: seq<Op>, l: Link)
    ensures Performs(a + b, l) <==> Performs(a, l) || Performs(b, l)
  {
    if Performs(a, l) {
      var op :| op in a && IsLink(op, l);
      assert op in a + b;
    }
    if Performs(b, l) {
      var op :| op in b && IsLink(op, l);
      assert op in a + b;
    }
  }

  lemma PerformsOne(op: Op, l: Link)
    ensures Performs([op], l) <==> IsLink(op, l)
  {
    assert op in [op];
  }

  lemma StartPerforms(s: SessionData, l: Link)
    ensures Performs(StartOps(s), l) <==> StartLink(s, l)
  {
    var ops := StartOps(s);
    if s.service != "" { assert ops[2] in ops; }
  }

  lemma {:induction false} EntityPerforms(names: seq<string>, l: Link)
    ensures !Performs(EntityOps(names), l)
  {
    if names != [] { EntityPerforms(names[..|names| - 1], l); }
  }

  lemma ItemPerforms(inv: string, e: Evidence, l: Link)
    ensures Performs(ItemOps(inv, e), l) <==> ItemLink(inv, e, l)
  {
    var ops := ItemOps(inv, e);
    assert ops[1] in ops;
    if e.entity != "" { assert ops[2] in ops; }
  }

  lemma {:induction false} EvidencePerforms(inv: string, ev: seq<Evidence>, l: Link)
    ensures Performs(EvidenceOps(inv, ev), l) <==> exists e :: e in ev && ItemLink(inv, e, l)
  {
    if ev != [] {
      var k := |ev| - 1;
      EvidencePerforms(inv, ev[..k], l);
      ItemPerforms(inv, ev[k], l);
      PerformsConcat(EvidenceOps(inv, ev[..k]), ItemOps(inv, ev[k]), l);
      assert ev == ev[..k] + [ev[k]];
    }
  }

  lemma {:induction false} ChainPerforms(ev: seq<Evidence>, l: Link)
    ensures Performs(ChainOps(ev), l) <==> ChainLink(ev, l)
  {
    if |ev| >= 2 {
      var k := |ev| - 1;
      ChainPerforms(ev[..k], l);
      var op := EdgeOp(Ev(ev[k - 1].id), Ev(ev[k].id), OccurredBefore, 100.0);
      PerformsConcat(ChainOps(ev[..k]), [op], l);
      PerformsOne(op, l);
      if ChainLink(ev[..k], l) {
        var i :| 0 < i < k && l == Link(Ev(ev[..k][i - 1].id), Ev(ev[..k][i].id), OccurredBefore);
        assert l == Link(Ev(ev[i - 1].id), Ev(ev[i].id), OccurredBefore);
      }
      if ChainLink(ev, l) {
        var i :| 0 < i < |ev| && l == Link(Ev(ev[i - 1].id), Ev(ev[i].id), OccurredBefore);
        if i < k { assert l == Link(Ev(ev[..k][i - 1].id), Ev(ev[..k][i].id), OccurredBefore); }
      }
    }
  }

  lemma CausePerforms(sig: Signals, l: Link)
    ensures Performs(CauseOps(sig), l) <==> CauseLink(sig, l)
  {
    var a := if sig.deployBefore && sig.deployment.Some? && sig.onset.Some?
             then [EdgeOp(Ev(sig.deployment.value.id), Ev(sig.onset.value.id), Causes, 70.0)] else [];
    var b := if sig.recovery.Some? && sig.onset.Some?
             then [EdgeOp(Ev(sig.recovery.value.id), Ev(sig.onset.value.id), RecoveredBy, 80.0)] else [];
    PerformsConcat(a, b, l);
    if a != [] { PerformsOne(a[0], l); }
    if b != [] { PerformsOne(b[0], l); }
  }

  lemma {:induction false} RefPerforms(ev: seq<Evidence>, to: string, refs: seq<string>, t: EdgeType, c: real, l: Link)
    ensures Performs(RefOps(ev, to, refs, t, c), l) <==> RefLink(ev, to, refs, t, l)
  {
    if refs != [] {
      var k := |refs| - 1;
      RefPerforms(ev, to, refs[..k], t, c, l);
      var op := EdgeOp(Ev(refs[k]), to, t, c);
      PerformsConcat(RefOps(ev, to, refs[..k], t, c), if KnownItem(ev, refs[k]) then [op] else [], l);
      PerformsOne(op, l);
      assert refs == refs[..k] + [refs[k]];
    }
  }

  lemma OneHypothesisPerforms(ev: seq<Evidence>, h: HypothesisData, l: Link)
    ensures Performs(OneHypothesisOps(ev, h), l) <==> HypothesisLink(ev, h, l)
  {
    var n, a := [NodeOp(Hyp(h.id), Hypothesis, h.id)], RefOps(ev, Hyp(h.id), h.supporting, Supports, h.confidence);
    var b := RefOps(ev, Hyp(h.id), h.conflicting, Contradicts, 60.0);
    RefPerforms(ev, Hyp(h.id), h.supporting, Supports, h.confidence, l);
    RefPerforms(ev, Hyp(h.id), h.conflicting, Contradicts, 60.0, l);
    PerformsOne(n[0], l);
    PerformsConcat(n, a, l);
    PerformsConcat(n + a, b, l);
  }

  lemma {:induction false} HypothesisPerforms(ev: seq<Evidence>, hs: seq<HypothesisData>, l: Link)
    ensures Performs(HypothesisOps(ev, hs), l) <==> exists h :: h in hs && HypothesisLink(ev, h, l)
  {
    if hs != [] {
      var k := |hs| - 1;
      HypothesisPerforms(ev, hs[..k], l);
      OneHypothesisPerforms(ev, hs[k], l);
      PerformsConcat(HypothesisOps(ev, hs[..k]), OneHypothesisOps(ev, hs[k]), l);
      assert hs == hs[..k] + [hs[k]];
    }
  }

  lemma {:induction false} DependPerforms(id: string, deps: seq<string>, l: Link)
    ensures Performs(DependOps(id, deps), l) <==> DependLink(id, deps, l)
  {
    if deps != [] {
      var k := |deps| - 1;
      DependPerforms(id, deps[..k], l);
      var op := EdgeOp(Ask(deps[k]), Ask(id), DependsOn, 100.0);
      PerformsConcat(DependOps(id, deps[..k]), [op], l);
      PerformsOne(op, l);
      assert deps == deps[..k] + [deps[k]];
    }
  }

  lemma OneQuestionPerforms(inv: string, q: P.Question, l: Link)
    ensures Performs(OneQuestionOps(inv, q), l) <==> QuestionLink(inv, q, l)
  {
    var a := [NodeOp(Ask(q.id), NodeType.Question, q.id), EdgeOp(inv, Ask(q.id), Generated, 100.0)];
    DependPerforms(q.id, q.dependsOn, l);
    assert a[1] in a;
    PerformsConcat(a, DependOps(q.id, q.dependsOn), l);
  }

  lemma {:induction false} QuestionPerforms(inv: string, qs: seq<P.Question>, l: Link)
    ensures Performs(QuestionOps(inv, qs), l) <==> exists q :: q in qs && QuestionLink(inv, q, l)
  {
    if qs != [] {
      var k := |qs| - 1;
      QuestionPerforms(inv, qs[..k], l);
      OneQuestionPerforms(inv, qs[k], l);
      PerformsConcat(QuestionOps(inv, qs[..k]), OneQuestionOps(inv, qs[k]), l);
      assert qs == qs[..k] + [qs[k]];
    }
  }

  lemma {:induction false} RequestPerforms(rs: seq<RequestData>, l: Link)
    ensures Performs(RequestOps(rs), l) <==> exists r :: r in rs && RequestLink(r, l)
  {
    if rs != [] {
      var k := |rs| - 1;
      RequestPerforms(rs[..k], l);
      var r := rs[k];
      var a := [NodeOp(Req(r.id), EvidenceRequest, r.id), EdgeOp(Ask(r.questionId), Req(r.id), Requests, r.gain)];
      assert a[1] in a;
      assert Performs(a, l) <==> RequestLink(r, l);
      PerformsConcat(RequestOps(rs[..k]), a, l);
      assert rs == rs[..k] + [rs[k]];
    }
  }

  lemma PlanPerforms(s: SessionData, l: Link)
    ensures Performs(PlanOps(s), l) <==> PlanLink(s, l)
  {
    if s.plan.Some? {
      QuestionPerforms(Inv(s.id), s.plan.value.questions, l);
      RequestPerforms(s.plan.value.requests, l);
      PerformsConcat(QuestionOps(Inv(s.id), s.plan.value.questions), RequestOps(s.plan.value.requests), l);
    }
  }

  lemma SameItems(s: SessionData)
    ensures forall ref :: KnownItem(SortedByTime(s.evidence), ref) <==> KnownItem(s.evidence, ref)
    ensures forall e :: e in SortedByTime(s.evidence) <==> e in s.evidence
  {
    SortMembers(s.evidence, Before);
  }

  lemma ItemNodesPerform(s: SessionData, names: seq<string>, l: Link)
    ensures Performs(ItemNodeOps(s, names), l) <==>
      StartLink(s, l) || exists e :: e in s.evidence && ItemLink(Inv(s.id), e, l)
  {
    var ordered := SortedByTime(s.evidence);
    SameItems(s);
    StartPerforms(s, l);
    EntityPerforms(names, l);
    EvidencePerforms(Inv(s.id), ordered, l);
    PerformsConcat(StartOps(s), EntityOps(names), l);
    PerformsConcat(StartOps(s) + EntityOps(names), EvidenceOps(Inv(s.id), ordered), l);
  }

  lemma HypothesesPerform(s: SessionData, l: Link)
    ensures Performs(HypothesisOps(SortedByTime(s.evidence), s.hypotheses), l) <==>
      exists h :: h in s.hypotheses && HypothesisLink(s.evidence, h, l)
  {
    var ordered := SortedByTime(s.evidence);
    SameItems(s);
    HypothesisPerforms(ordered, s.hypotheses, l);
    forall h ensures HypothesisLink(ordered, h, l) <==> HypothesisLink(s.evidence, h, l) {}
  }

  /** The builder adds exactly the links that the session calls for. */
  lemma BuildPerforms(s: SessionData, sig: Signals, names: seq<string>, l: Link)
    ensures Performs(BuildOps(s, sig, names), l) <==> Expected(s, sig, l)
  {
    var ordered := SortedByTime(s.evidence);
    var a, b, c := ItemNodeOps(s, names), ItemLinkOps(s, sig), HypothesisOps(ordered, s.hypotheses);
    ItemNodesPerform(s, names, l);
    ChainPerforms(ordered, l);
    CausePerforms(sig, l);
    PerformsConcat(ChainOps(ordered), CauseOps(sig), l);
    HypothesesPerform(s, l);
    PlanPerforms(s, l);
    PerformsConcat(a, b, l);
    PerformsConcat(a + b, c, l);
    PerformsConcat(a + b + c, PlanOps(s), l);
  }

  // ----- Nodes -----

  ghost predicate PlanNode(s: SessionData, id: string) {
    s.plan.Some? &&
    (|| (exists q :: q in s.plan.value.questions && id == Ask(q.id))
     || (exists r :: r in s.plan.value.requests && id == Req(r.id)))
  }

  ghost predicate ExpectedNode(s: SessionData, names: seq<string>, id: string) {
    || id == Inv(s.id)
    || (s.service != "" && id == Svc(s.service))
    || (exists n :: n in names && id == Svc(n))
    || (exists e :: e in s.evidence && id == Ev(e.id))
    || (exists h :: h in s.hypotheses && id == Hyp(h.id))
    || PlanNode(s, id)
  }

  lemma NamesHead(op: Op, rest: seq<Op>, id: string)
    requires op.OpAddNode? && forall x :: x in rest ==> Plain(x)
    ensures NamesNode([op] + rest, id) <==> id == op.node.id
    ensures Adds([op] + rest)
  {
    assert op in [op] + rest;
    forall x | x in [op] + rest ensures x == op || x in rest {}
  }

  lemma {:induction false} RefAdds(ev: seq<Evidence>, to: string, refs: seq<string>, t: EdgeType, c: real)
    ensures forall op :: op in RefOps(ev, to, refs, t, c) ==> Plain(op)
  {
    if refs != [] { RefAdds(ev, to, refs[..|refs| - 1], t, c); }
  }

  lemma {:induction false} DependAdds(id: string, deps: seq<string>)
    ensures forall op :: op in DependOps(id, deps) ==> Plain(op)
  {
    if deps != [] { DependAdds(id, deps[..|deps| - 1]); }
  }

  lemma {:induction false} HypothesisNodes(ev: seq<Evidence>, hs: seq<HypothesisData>, id: string)
    ensures NamesNode(HypothesisOps(ev, hs), id) <==> exists h :: h in hs && id == Hyp(h.id)
    ensures Adds(HypothesisOps(ev, hs))
  {
    if hs != [] {
      var k := |hs| - 1;
      var h := hs[k];
      HypothesisNodes(ev, hs[..k], id);
      RefAdds(ev, Hyp(h.id), h.supporting, Supports, h.confidence);
      RefAdds(ev, Hyp(h.id), h.conflicting, Contradicts, 60.0);
      var a := RefOps(ev, Hyp(h.id), h.supporting, Supports, h.confidence);
      var b := RefOps(ev, Hyp(h.id), h.conflicting, Contradicts, 60.0);
      NamesHead(NodeOp(Hyp(h.id), Hypothesis, h.id), a + b, id);
      assert OneHypothesisOps(ev, h) == [NodeOp(Hyp(h.id), Hypothesis, h.id)] + (a + b);
      NamesConcat(HypothesisOps(ev, hs[..k]), OneHypothesisOps(ev, h), id);
      assert hs == hs[..k] + [h];
    }
  }

  lemma {:induction false} QuestionNodes(inv: string, qs: seq<P.Question>, id: string)
    ensures NamesNode(QuestionOps(inv, qs), id) <==> exists q :: q in qs && id == Ask(q.id)
    ensures Adds(QuestionOps(inv, qs))
  {
    if qs != [] {
      var k := |qs| - 1;
      var q := qs[k];
      QuestionNodes(inv, qs[..k], id);
      DependAdds(q.id, q.dependsOn);
      var n, e := NodeOp(Ask(q.id), NodeType.Question, q.id), EdgeOp(inv, Ask(q.id), Generated, 100.0);
      NamesHead(n, [e] + DependOps(q.id, q.dependsOn), id);
      assert OneQuestionOps(inv, q) == [n] + ([e] + DependOps(q.id, q.dependsOn));
      NamesConcat(QuestionOps(inv, qs[..k]), OneQuestionOps(inv, q), id);
      assert qs == qs[..k] + [q];
    }
  }

  lemma {:induction false} RequestNodes(rs: seq<RequestData>, id: string)
    ensures NamesNode(RequestOps(rs), id) <==> exists r :: r in rs && id == Req(r.id)
    ensures Adds(RequestOps(rs))
  {
    if rs != [] {
      var k := |rs| - 1;
      var r := rs[k];
      RequestNodes(rs[..k], id);
      var n, e := NodeOp(Req(r.id), EvidenceRequest, r.id), EdgeOp(Ask(r.questionId), Req(r.id), Requests, r.gain);
      NamesHead(n, [e], id);
      assert [n, e] == [n] + [e];
      NamesConcat(RequestOps(rs[..k]), [n, e], id);
      assert rs == rs[..k] + [r];
    }
  }

  lemma PlanNodes(s: SessionData, id: string)
    ensures NamesNode(PlanOps(s), id) <==> PlanNode(s, id)
    ensures Adds(PlanOps(s))
  {
    if s.plan.Some? {
      QuestionNodes(Inv(s.id), s.plan.value.questions, id);
      RequestNodes(s.plan.value.requests, id);
      NamesConcat(QuestionOps(Inv(s.id), s.plan.value.questions), RequestOps(s.plan.value.requests), id);
    }
  }

  /** The builder adds exactly the nodes that the session calls for. */
  lemma BuildNodes(s: SessionData, sig: Signals, names: seq<string>, id: string)
    ensures NamesNode(BuildOps(s, sig, names), id) <==> ExpectedNode(s, names, id)
    ensures Adds(BuildOps(s, sig, names))
  {
    var a, b := ItemNodeOps(s, names), ItemLinkOps(s, sig);
    var c := HypothesisOps(SortedByTime(s.evidence), s.hypotheses);
    ItemNodes(s, names, id);
    LinkNodes(s, sig, id);
    HypothesisNodes(SortedByTime(s.evidence), s.hypotheses, id);
    PlanNodes(s, id);
    NamesConcat(a, b, id);
    NamesConcat(a + b, c, id);
    NamesConcat(a + b + c, PlanOps(s), id);
  }

  // ----- The inferred edges -----

  /** An observed succession of the two nodes: occurred_before, and not itself inferred. */
  ghost predicate Succession(es: seq<GraphEdge>, from: string, to: string) {
    exists e :: e in es && e.etype == OccurredBefore && !e.inferred && e.from == from && e.to == to
  }

  ghost predicate DatabasePair(ns: seq<GraphNode>, all: seq<GraphNode>, from: string, to: string) {
    exists n, h ::
      n in ns && h in all && n.ntype == Database && h.ntype == Hypothesis && n.id == from && h.id == to
  }

  /** Observed successions correlate and, when the keyword is raised, databases with hypotheses. */
  ghost predicate InferredLink(v: GraphView, database: bool, l: Link) {
    && l.etype == CorrelatesWith
    && (Succession(v.edges, l.from, l.to) || (database && DatabasePair(v.nodes, v.nodes, l.from, l.to)))
  }

  lemma {:induction false} CorrelatePerforms(es: seq<GraphEdge>, l: Link)
    ensures Performs(CorrelateOps(es), l) <==> l.etype == CorrelatesWith && Succession(es, l.from, l.to)
    ensures forall op :: op in CorrelateOps(es) ==> Plain(op)
  {
    if es != [] {
      var k := |es| - 1;
      var e := es[k];
      CorrelatePerforms(es[..k], l);
      var op := Correlation(e.from, e.to, 55.0);
      PerformsConcat(CorrelateOps(es[..k]), if e.etype == OccurredBefore && !e.inferred then [op] else [], l);
      PerformsOne(op, l);
      assert es == es[..k] + [e];
    }
  }

  lemma {:induction false} ToHypothesesPerforms(from: string, ns: seq<GraphNode>, l: Link)
    ensures Performs(ToHypothesesOps(from, ns), l) <==>
      l.etype == CorrelatesWith && l.from == from && exists h :: h in ns && h.ntype == Hypothesis && h.id == l.to
    ensures forall op :: op in ToHypothesesOps(from, ns) ==> Plain(op)
  {
    if ns != [] {
      var k := |ns| - 1;
      ToHypothesesPerforms(from, ns[..k], l);
      var op := Correlation(from, ns[k].id, 50.0);
      PerformsConcat(ToHypothesesOps(from, ns[..k]), if ns[k].ntype == Hypothesis then [op] else [], l);
      PerformsOne(op, l);
      assert ns == ns[..k] + [ns[k]];
    }
  }

  lemma {:induction false} DatabasePerforms(ns: seq<GraphNode>, all: seq<GraphNode>, l: Link)
    ensures Performs(DatabaseOps(ns, all), l) <==>
      l.etype == CorrelatesWith && DatabasePair(ns, all, l.from, l.to)
    ensures forall op :: op in DatabaseOps(ns, all) ==> Plain(op)
  {
    if ns != [] {
      var k := |ns| - 1;
      DatabasePerforms(ns[..k], all, l);
      ToHypothesesPerforms(ns[k].id, all, l);
      var tail := if ns[k].ntype == Database then ToHypothesesOps(ns[k].id, all) else [];
      PerformsConcat(DatabaseOps(ns[..k], all), tail, l);
      assert ns == ns[..k] + [ns[k]];
    }
  }

  /** Inference adds exactly the inferred links. */
  lemma InferPerforms(v: GraphView, database: bool, l: Link)
    ensures Performs(InferOps(v, database), l) <==> InferredLink(v, database, l)
    ensures forall op :: op in InferOps(v, database) ==> Plain(op)
  {
    CorrelatePerforms(v.edges, l);
    DatabasePerforms(v.nodes, v.nodes, l);
    PerformsConcat(CorrelateOps(v.edges), if database then DatabaseOps(v.nodes, v.nodes) else [], l);
  }
}
