/** Rebuilding the investigation graph from a session: the builder's loops, specified by the
    list of store operations that they perform. */
module GraphBuilder {
  import opened Sorting
  import opened Wrappers
  import opened Store
  import opened Signals
  import P = Protocol

  datatype HypothesisData = HypothesisData(id: string, confidence: real, supporting: seq<string>,
                                           conflicting: seq<string>)

  datatype RequestData = RequestData(id: string, questionId: string, gain: real)

  datatype PlanData = PlanData(questions: seq<P.Question>, requests: seq<RequestData>)

  datatype SessionData = SessionData(id: string, service: string, evidence: seq<Evidence>,
                                     hypotheses: seq<HypothesisData>, plan: Option<PlanData>)

  function Inv(id: string): string { "inv:" + id }

  function Svc(name: string): string { "svc:" + name }

  function Ev(id: string): string { "ev:" + id }

  function Hyp(id: string): string { "hyp:" + id }

  function Ask(id: string): string { "q:" + id }

  function Req(id: string): string { "req:" + id }

  function TypeForEvidence(c: P.Category): NodeType {
    match c
    case DeploymentEvents => Deployment
    case AlertEvents => Alert
    case Metrics => Metric
    case ConfigurationChanges => Configuration
    case DatabaseEvents => Database
    case TraceEvents => Trace
    case _ => EvidenceNode
  }

  function NodeOp(id: string, t: NodeType, ref: string): Op { OpAddNode(GraphNode(id, t, "", ref, map[])) }

  function EdgeOp(from: string, to: string, t: EdgeType, confidence: real): Op {
    OpAddEdge(GraphEdge("", from, to, t, confidence, false))
  }

  // ----- The operations -----

  function StartOps(s: SessionData): seq<Op> {
    [NodeOp(Inv(s.id), Investigation, s.id)]
    + if s.service == "" then []
      else [NodeOp(Svc(s.service), Service, s.service), EdgeOp(Inv(s.id), Svc(s.service), BelongsTo, 100.0)]
  }

  function EntityOps(names: seq<string>): seq<Op> {
    if names == [] then []
    else EntityOps(names[..|names| - 1]) + [NodeOp(Svc(names[|names| - 1]), Service, names[|names| - 1])]
  }

  function ItemOps(inv: string, e: Evidence): seq<Op> {
    [NodeOp(Ev(e.id), TypeForEvidence(e.category), e.id), EdgeOp(inv, Ev(e.id), Generated, 100.0)]
    + if e.entity == "" then [] else [EdgeOp(Ev(e.id), Svc(e.entity), ObservedOn, 100.0)]
  }

  function EvidenceOps(inv: string, ev: seq<Evidence>): seq<Op> {
    if ev == [] then [] else EvidenceOps(inv, ev[..|ev| - 1]) + ItemOps(inv, ev[|ev| - 1])
  }

  /** Each item is linked to the next in time order. */
  function ChainOps(ev: seq<Evidence>): seq<Op> {
    if |ev| < 2 then []
    else ChainOps(ev[..|ev| - 1]) + [EdgeOp(Ev(ev[|ev| - 2].id), Ev(ev[|ev| - 1].id), OccurredBefore, 100.0)]
  }

  function CauseOps(sig: Signals): seq<Op> {
    (if sig.deployBefore && sig.deployment.Some? && sig.onset.Some?
     then [EdgeOp(Ev(sig.deployment.value.id), Ev(sig.onset.value.id), Causes, 70.0)] else [])
    + if sig.recovery.Some? && sig.onset.Some?
      then [EdgeOp(Ev(sig.recovery.value.id), Ev(sig.onset.value.id), RecoveredBy, 80.0)] else []
  }

  predicate KnownItem(ev: seq<Evidence>, ref: string) { exists e | e in ev :: e.id == ref }

  /** References to items that are not in the graph are skipped. */
  function RefOps(ev: seq<Evidence>, to: string, refs: seq<string>, t: EdgeType, confidence: real): seq<Op> {
    if refs == [] then []
    else
      var ref := refs[|refs| - 1];
      RefOps(ev, to, refs[..|refs| - 1], t, confidence)
      + if KnownItem(ev, ref) then [EdgeOp(Ev(ref), to, t, confidence)] else []
  }

  function OneHypothesisOps(ev: seq<Evidence>, h: HypothesisData): seq<Op> {
    [NodeOp(Hyp(h.id), Hypothesis, h.id)]
    + RefOps(ev, Hyp(h.id), h.supporting, Supports, h.confidence)
    + RefOps(ev, Hyp(h.id), h.conflicting, Contradicts, 60.0)
  }

  function HypothesisOps(ev: seq<Evidence>, hs: seq<HypothesisData>): seq<Op> {
    if hs == [] then [] else HypothesisOps(ev, hs[..|hs| - 1]) + OneHypothesisOps(ev, hs[|hs| - 1])
  }

  function DependOps(id: string, deps: seq<string>): seq<Op> {
    if deps == [] then []
    else DependOps(id, deps[..|deps| - 1]) + [EdgeOp(Ask(deps[|deps| - 1]), Ask(id), DependsOn, 100.0)]
  }

  function OneQuestionOps(inv: string, q: P.Question): seq<Op> {
    [NodeOp(Ask(q.id), NodeType.Question, q.id), EdgeOp(inv, Ask(q.id), Generated, 100.0)]
    + DependOps(q.id, q.dependsOn)
  }

  function QuestionOps(inv: string, qs: seq<P.Question>): seq<Op> {
    if qs == [] then [] else QuestionOps(inv, qs[..|qs| - 1]) + OneQuestionOps(inv, qs[|qs| - 1])
  }

  function RequestOps(rs: seq<RequestData>): seq<Op> {
    if rs == [] then []
    else
      var r := rs[|rs| - 1];
      RequestOps(rs[..|rs| - 1])
      + [NodeOp(Req(r.id), EvidenceRequest, r.id), EdgeOp(Ask(r.questionId), Req(r.id), Requests, r.gain)]
  }

  function PlanOps(s: SessionData): seq<Op> {
    match s.plan
    case None => []
    case Some(p) => QuestionOps(Inv(s.id), p.questions) + RequestOps(p.requests)
  }

  function ItemNodeOps(s: SessionData, names: seq<string>): seq<Op> {
    StartOps(s) + EntityOps(names) + EvidenceOps(Inv(s.id), SortedByTime(s.evidence))
  }

  function ItemLinkOps(s: SessionData, sig: Signals): seq<Op> { ChainOps(SortedByTime(s.evidence)) + CauseOps(sig) }

  /** Everything but the inferred edges; names lists the entities in the order in which the
      hash map gives them. */
  function BuildOps(s: SessionData, sig: Signals, names: seq<string>): seq<Op> {
    ItemNodeOps(s, names) + ItemLinkOps(s, sig) + HypothesisOps(SortedByTime(s.evidence), s.hypotheses) + PlanOps(s)
  }

  // ----- Recording what is done -----

  /** An edge without an id of its own. */
  predicate Plain(op: Op) { op.OpAddEdge? && op.edge.id == "" }

  ghost predicate Adds(ops: seq<Op>) { forall op :: op in ops ==> op.OpAddNode? || Plain(op) }

  lemma {:induction false} ExecSnoc(st: State, ops: seq<Op>, op: Op)
    ensures ExecAll(st, ops + [op]) == Exec(ExecAll(st, ops), op)
    decreases |ops|
  {
    if ops == [] {
      assert [] + [op] == [op] && [op][1..] == [];
    } else {
      assert (ops + [op])[1..] == ops[1..] + [op];
      ExecSnoc(Exec(st, ops[0]), ops[1..], op);
    }
  }

  ghost predicate Recorded(g: MemoryStore, ops: seq<Op>)
    reads g
  {
    g.Value() == ExecAll(Empty, ops)
  }

  method PutNode(g: MemoryStore, id: string, t: NodeType, ref: string, ghost ops: seq<Op>) returns (ghost more: seq<Op>)
    requires Recorded(g, ops)
    modifies g
    ensures more == ops + [NodeOp(id, t, ref)] && Recorded(g, more)
    ensures forall k :: k in g.nodes <==> k in old(g.nodes) || k == id
  {
    ExecSnoc(Empty, ops, NodeOp(id, t, ref));
    g.AddNode(GraphNode(id, t, "", ref, map[]));
    more := ops + [NodeOp(id, t, ref)];
  }

  method PutEdge(g: MemoryStore, from: string, to: string, t: EdgeType, confidence: real, ghost ops: seq<Op>)
    returns (ghost more: seq<Op>)
    requires Recorded(g, ops)
    modifies g
    ensures more == ops + [EdgeOp(from, to, t, confidence)] && Recorded(g, more)
    ensures g.nodes == old(g.nodes)
  {
    ExecSnoc(Empty, ops, EdgeOp(from, to, t, confidence));
    g.AddEdge(GraphEdge("", from, to, t, confidence, false));
    more := ops + [EdgeOp(from, to, t, confidence)];
  }

  // ----- The loops -----

  method AddStart(g: MemoryStore, s: SessionData) returns (ghost ops: seq<Op>)
    requires Recorded(g, [])
    modifies g
    ensures ops == StartOps(s) && Recorded(g, ops)
  {
    ops := PutNode(g, Inv(s.id), Investigation, s.id, []);
    if s.service != "" {
      ops := PutNode(g, Svc(s.service), Service, s.service, ops);
      ops := PutEdge(g, Inv(s.id), Svc(s.service), BelongsTo, 100.0, ops);
    }
  }

  /** The names lie in a hash map, walked in an arbitrary order. */
  method AddEntities(g: MemoryStore, entities: set<string>, ghost before: seq<Op>)
    returns (ghost names: seq<string>, ghost ops: seq<Op>)
    requires Recorded(g, before)
    modifies g
    ensures forall n :: n in names <==> n in entities
    ensures ops == before + EntityOps(names) && Recorded(g, ops)
  {
    names, ops := [], before;
    var rest := entities;
    while rest != {}
      invariant rest <= entities && forall n :: n in names <==> n in entities && n !in rest
      invariant ops == before + EntityOps(names) && Recorded(g, ops)
      decreases rest
    {
      var name :| name in rest;
      rest := rest - {name};
      ops := PutNode(g, Svc(name), Service, name, ops);
      assert (names + [name])[..|names|] == names;
      names := names + [name];
    }
  }

  method AddItem(g: MemoryStore, inv: string, e: Evidence, ghost before: seq<Op>) returns (ghost ops: seq<Op>)
    requires Recorded(g, before)
    modifies g
    ensures ops == before + ItemOps(inv, e) && Recorded(g, ops)
  {
    ops := PutNode(g, Ev(e.id), TypeForEvidence(e.category), e.id, before);
    ops := PutEdge(g, inv, Ev(e.id), Generated, 100.0, ops);
    if e.entity != "" {
      ops := PutEdge(g, Ev(e.id), Svc(e.entity), ObservedOn, 100.0, ops);
    }
  }

  method AddEvidence(g: MemoryStore, inv: string, ordered: seq<Evidence>, ghost before: seq<Op>)
    returns (ghost ops: seq<Op>)
    requires Recorded(g, before)
    modifies g
    ensures ops == before + EvidenceOps(inv, ordered) && Recorded(g, ops)
  {
    ops := before;
    for i := 0 to |ordered|
      invariant ops == before + EvidenceOps(inv, ordered[..i]) && Recorded(g, ops)
    {
      ops := AddItem(g, inv, ordered[i], ops);
      assert ordered[..i + 1][..i] == ordered[..i];
    }
    assert ordered[..|ordered|] == ordered;
  }

  method AddChain(g: MemoryStore, ordered: seq<Evidence>, ghost before: seq<Op>) returns (ghost ops: seq<Op>)
    requires Recorded(g, before)
    modifies g
    ensures ops == before + ChainOps(ordered) && Recorded(g, ops)
  {
    ops := before;
    var i := 1;
    while i < |ordered|
      invariant 1 <= i && (i <= |ordered| || |ordered| == 0)
      invariant ops == before + ChainOps(if i <= |ordered| then ordered[..i] else []) && Recorded(g, ops)
    {
      ops := PutEdge(g, Ev(ordered[i - 1].id), Ev(ordered[i].id), OccurredBefore, 100.0, ops);
      assert ordered[..i + 1][..i] == ordered[..i];
      i := i + 1;
    }
    assert |ordered| >= 1 ==> ordered[..i] == ordered;
  }

  method AddCauses(g: MemoryStore, sig: Signals, ghost before: seq<Op>) returns (ghost ops: seq<Op>)
    requires Recorded(g, before)
    modifies g
    ensures ops == before + CauseOps(sig) && Recorded(g, ops)
  {
    ops := before;
    if sig.deployBefore && sig.deployment.Some? && sig.onset.Some? {
      ops := PutEdge(g, Ev(sig.deployment.value.id), Ev(sig.onset.value.id), Causes, 70.0, ops);
    }
    if sig.recovery.Some? && sig.onset.Some? {
      ops := PutEdge(g, Ev(sig.recovery.value.id), Ev(sig.onset.value.id), RecoveredBy, 80.0, ops);
    }
  }

  /** The graph holds the evidence items and no other node that looks like one. */
  ghost predicate KnowsItems(g: MemoryStore, ordered: seq<Evidence>)
    reads g
  {
    forall ref: string :: Ev(ref) in g.nodes <==> KnownItem(ordered, ref)
  }

  lemma NotAnItem(id: string, ref: string)
    ensures Hyp(id) != Ev(ref)
  {
    assert Hyp(id)[0] == 'h' && Ev(ref)[0] == 'e';
  }

  method AddRefs(g: MemoryStore, ordered: seq<Evidence>, to: string, refs: seq<string>, t: EdgeType, confidence: real,
                 ghost before: seq<Op>)
    returns (ghost ops: seq<Op>)
    requires Recorded(g, before) && KnowsItems(g, ordered)
    modifies g
    ensures ops == before + RefOps(ordered, to, refs, t, confidence) && Recorded(g, ops) && g.nodes == old(g.nodes)
  {
    ops := before;
    for i := 0 to |refs|
      invariant ops == before + RefOps(ordered, to, refs[..i], t, confidence)
      invariant Recorded(g, ops) && g.nodes == old(g.nodes)
    {
      assert refs[..i + 1][..i] == refs[..i];
      assert Ev(refs[i]) in g.nodes <==> KnownItem(ordered, refs[i]);
      if Ev(refs[i]) in g.nodes {
        ops := PutEdge(g, Ev(refs[i]), to, t, confidence, ops);
      }
    }
    assert refs[..|refs|] == refs;
  }

  method AddHypothesis(g: MemoryStore, ordered: seq<Evidence>, h: HypothesisData, ghost before: seq<Op>)
    returns (ghost ops: seq<Op>)
    requires Recorded(g, before) && KnowsItems(g, ordered)
    modifies g
    ensures ops == before + OneHypothesisOps(ordered, h) && Recorded(g, ops) && KnowsItems(g, ordered)
  {
    ops := PutNode(g, Hyp(h.id), Hypothesis, h.id, before);
    forall ref: string ensures Hyp(h.id) != Ev(ref) { NotAnItem(h.id, ref); }
    ops := AddRefs(g, ordered, Hyp(h.id), h.supporting, Supports, h.confidence, ops);
    ops := AddRefs(g, ordered, Hyp(h.id), h.conflicting, Contradicts, 60.0, ops);
  }

  lemma HypothesisSnoc(ev: seq<Evidence>, hs: seq<HypothesisData>, i: nat, before: seq<Op>)
    requires i < |hs|
    ensures before + HypothesisOps(ev, hs[..i + 1]) == before + HypothesisOps(ev, hs[..i]) + OneHypothesisOps(ev, hs[i])
  {
    assert hs[..i + 1][..i] == hs[..i];
  }

  method AddHypotheses(g: MemoryStore, ordered: seq<Evidence>, hs: seq<HypothesisData>, ghost before: seq<Op>)
    returns (ghost ops: seq<Op>)
    requires Recorded(g, before) && KnowsItems(g, ordered)
    modifies g
    ensures ops == before + HypothesisOps(ordered, hs) && Recorded(g, ops)
  {
    ops := before;
    for i := 0 to |hs|
      invariant ops == before + HypothesisOps(ordered, hs[..i]) && Recorded(g, ops) && KnowsItems(g, ordered)
    {
      HypothesisSnoc(ordered, hs, i, before);
      ops := AddHypothesis(g, ordered, hs[i], ops);
    }
    assert hs[..|hs|] == hs;
  }

  method AddDepends(g: MemoryStore, id: string, deps: seq<string>, ghost before: seq<Op>) returns (ghost ops: seq<Op>)
    requires Recorded(g, before)
    modifies g
    ensures ops == before + DependOps(id, deps) && Recorded(g, ops)
  {
    ops := before;
    for j := 0 to |deps|
      invariant ops == before + DependOps(id, deps[..j]) && Recorded(g, ops)
    {
      ops := PutEdge(g, Ask(deps[j]), Ask(id), DependsOn, 100.0, ops);
      assert deps[..j + 1][..j] == deps[..j];
    }
    assert deps[..|deps|] == deps;
  }

  method AddQuestion(g: MemoryStore, inv: string, q: P.Question, ghost before: seq<Op>) returns (ghost ops: seq<Op>)
    requires Recorded(g, before)
    modifies g
    ensures ops == before + OneQuestionOps(inv, q) && Recorded(g, ops)
  {
    ops := PutNode(g, Ask(q.id), NodeType.Question, q.id, before);
    ops := PutEdge(g, inv, Ask(q.id), Generated, 100.0, ops);
    ops := AddDepends(g, q.id, q.dependsOn, ops);
  }

  method AddQuestions(g: MemoryStore, inv: string, qs: seq<P.Question>, ghost before: seq<Op>)
    returns (ghost ops: seq<Op>)
    requires Recorded(g, before)
    modifies g
    ensures ops == before + QuestionOps(inv, qs) && Recorded(g, ops)
  {
    ops := before;
    for i := 0 to |qs|
      invariant ops == before + QuestionOps(inv, qs[..i]) && Recorded(g, ops)
    {
      ops := AddQuestion(g, inv, qs[i], ops);
      assert qs[..i + 1][..i] == qs[..i];
    }
    assert qs[..|qs|] == qs;
  }

  method AddRequests(g: MemoryStore, rs: seq<RequestData>, ghost before: seq<Op>) returns (ghost ops: seq<Op>)
    requires Recorded(g, before)
    modifies g
    ensures ops == before + RequestOps(rs) && Recorded(g, ops)
  {
    ops := before;
    for i := 0 to |rs|
      invariant ops == before + RequestOps(rs[..i]) && Recorded(g, ops)
    {
      ops := PutNode(g, Req(rs[i].id), EvidenceRequest, rs[i].id, ops);
      ops := PutEdge(g, Ask(rs[i].questionId), Req(rs[i].id), Requests, rs[i].gain, ops);
      assert rs[..i + 1][..i] == rs[..i];
    }
    assert rs[..|rs|] == rs;
  }

  // ----- Which nodes and edges the operations name -----

  ghost predicate NamesNode(ops: seq<Op>, id: string) {
    exists op :: op in ops && op.OpAddNode? && op.node.id == id
  }

  lemma NamesConcat(a: seq<Op>, b: seq<Op>, id: string)
    ensures NamesNode(a + b, id) <==> NamesNode(a, id) || NamesNode(b, id)
  {
    if NamesNode(a, id) {
      var op :| op in a && op.OpAddNode? && op.node.id == id;
      assert op in a + b;
    }
    if NamesNode(b, id) {
      var op :| op in b && op.OpAddNode? && op.node.id == id;
      assert op in a + b;
    }
  }

  lemma {:induction false} NodesAdded(st: State, ops: seq<Op>, id: string)
    requires Adds(ops)
    ensures id in ExecAll(st, ops).nodes <==> id in st.nodes || NamesNode(ops, id)
    decreases |ops|
  {
    if ops != [] {
      assert ops[0] in ops;
      NodesAdded(Exec(st, ops[0]), ops[1..], id);
      assert ops == [ops[0]] + ops[1..];
      NamesConcat([ops[0]], ops[1..], id);
      if NamesNode([ops[0]], id) { assert ops[0].OpAddNode? && ops[0].node.id == id; }
      if ops[0].OpAddNode? && ops[0].node.id == id { assert ops[0] in [ops[0]]; }
    }
  }

  lemma {:induction false} EntityNodes(names: seq<string>, id: string)
    ensures NamesNode(EntityOps(names), id) <==> exists n :: n in names && id == Svc(n)
    ensures Adds(EntityOps(names))
  {
    if names != [] {
      var k := |names| - 1;
      EntityNodes(names[..k], id);
      var op := NodeOp(Svc(names[k]), Service, names[k]);
      NamesConcat(EntityOps(names[..k]), [op], id);
      assert NamesNode([op], id) <==> id == Svc(names[k]) by { assert op in [op]; }
      assert names == names[..k] + [names[k]];
    }
  }

  lemma ItemNode(inv: string, e: Evidence, id: string)
    ensures NamesNode(ItemOps(inv, e), id) <==> id == Ev(e.id)
    ensures Adds(ItemOps(inv, e))
  {
    var ops := ItemOps(inv, e);
    assert ops[0] in ops;
  }

  lemma {:induction false} EvidenceNodes(inv: string, ev: seq<Evidence>, id: string)
    ensures NamesNode(EvidenceOps(inv, ev), id) <==> exists e :: e in ev && id == Ev(e.id)
    ensures Adds(EvidenceOps(inv, ev))
  {
    if ev != [] {
      var k := |ev| - 1;
      EvidenceNodes(inv, ev[..k], id);
      ItemNode(inv, ev[k], id);
      NamesConcat(EvidenceOps(inv, ev[..k]), ItemOps(inv, ev[k]), id);
      assert ev == ev[..k] + [ev[k]];
    }
  }

  lemma StartNodes(s: SessionData, id: string)
    ensures NamesNode(StartOps(s), id) <==> id == Inv(s.id) || (s.service != "" && id == Svc(s.service))
    ensures Adds(StartOps(s))
  {
    var ops := StartOps(s);
    assert ops[0] in ops;
    if s.service != "" { assert ops[1] in ops; }
  }

  lemma {:induction false} ChainAdds(ev: seq<Evidence>)
    ensures forall op :: op in ChainOps(ev) ==> Plain(op)
  {
    if |ev| >= 2 { ChainAdds(ev[..|ev| - 1]); }
  }

  lemma LinkNodes(s: SessionData, sig: Signals, id: string)
    ensures !NamesNode(ItemLinkOps(s, sig), id) && Adds(ItemLinkOps(s, sig))
  {
    ChainAdds(SortedByTime(s.evidence));
    assert forall op :: op in CauseOps(sig) ==> Plain(op);
    assert forall op :: op in ItemLinkOps(s, sig) ==> op in ChainOps(SortedByTime(s.evidence)) || op in CauseOps(sig);
  }

  lemma ItemNodes(s: SessionData, names: seq<string>, id: string)
    ensures NamesNode(ItemNodeOps(s, names), id) <==>
      || id == Inv(s.id) || (s.service != "" && id == Svc(s.service))
      || (exists n :: n in names && id == Svc(n)) || (exists e :: e in s.evidence && id == Ev(e.id))
    ensures Adds(ItemNodeOps(s, names))
  {
    var ordered := SortedByTime(s.evidence);
    SortMembers(s.evidence, Before);
    StartNodes(s, id);
    EntityNodes(names, id);
    EvidenceNodes(Inv(s.id), ordered, id);
    NamesConcat(StartOps(s), EntityOps(names), id);
    NamesConcat(StartOps(s) + EntityOps(names), EvidenceOps(Inv(s.id), ordered), id);
  }

  /** Which nodes look like evidence items before the hypotheses are added. */
  lemma KnownNodes(s: SessionData, sig: Signals, names: seq<string>, ref: string)
    ensures Ev(ref) in ExecAll(Empty, ItemNodeOps(s, names) + ItemLinkOps(s, sig)).nodes
      <==> KnownItem(SortedByTime(s.evidence), ref)
  {
    var a, b := ItemNodeOps(s, names), ItemLinkOps(s, sig);
    ItemNodes(s, names, Ev(ref));
    LinkNodes(s, sig, Ev(ref));
    NamesConcat(a, b, Ev(ref));
    NodesAdded(Empty, a + b, Ev(ref));
    SortMembers(s.evidence, Before);
    assert Ev(ref)[0] == 'e';
    forall n: string ensures Ev(ref) != Svc(n) { assert Svc(n)[0] == 's'; }
    assert Inv(s.id)[0] == 'i';
    forall e: Evidence ensures Ev(ref) == Ev(e.id) <==> ref == e.id {
      assert Ev(ref)[3..] == ref && Ev(e.id)[3..] == e.id;
    }
  }

  method AddItems(g: MemoryStore, s: SessionData, sig: Signals) returns (ghost names: seq<string>, ghost ops: seq<Op>)
    requires Recorded(g, [])
    modifies g
    ensures forall n :: n in names <==> n in sig.entities
    ensures ops == ItemNodeOps(s, names) + ItemLinkOps(s, sig) && Recorded(g, ops)
    ensures KnowsItems(g, SortedByTime(s.evidence))
  {
    var ordered := SortedByTime(s.evidence);
    ops := AddStart(g, s);
    names, ops := AddEntities(g, (set n | n in sig.entities), ops);
    ops := AddEvidence(g, Inv(s.id), ordered, ops);
    ops := AddChain(g, ordered, ops);
    ops := AddCauses(g, sig, ops);
    assert ops == ItemNodeOps(s, names) + ItemLinkOps(s, sig);
    forall ref: string ensures Ev(ref) in g.nodes <==> KnownItem(ordered, ref) { KnownNodes(s, sig, names, ref); }
  }

  method AddPlan(g: MemoryStore, s: SessionData, ghost before: seq<Op>) returns (ghost ops: seq<Op>)
    requires Recorded(g, before)
    modifies g
    ensures ops == before + PlanOps(s) && Recorded(g, ops)
  {
    ops := before;
    if s.plan.Some? {
      ops := AddQuestions(g, Inv(s.id), s.plan.value.questions, ops);
      ops := AddRequests(g, s.plan.value.requests, ops);
    }
  }

  /** The builder up to the inferred edges. */
  method BuildBase(s: SessionData, sig: Signals) returns (g: MemoryStore, ghost names: seq<string>, ghost ops: seq<Op>)
    ensures fresh(g) && forall n :: n in names <==> n in sig.entities
    ensures ops == BuildOps(s, sig, names) && Recorded(g, ops)
  {
    g := new MemoryStore();
    names, ops := AddItems(g, s, sig);
    ops := AddHypotheses(g, SortedByTime(s.evidence), s.hypotheses, ops);
    ops := AddPlan(g, s, ops);
  }
}
