/** Applying the merged actions of a reasoning cycle: each is validated and then changes the
    session or the graph in place, and the applied and rejected ones are logged. */
module Applier {
  import opened Wrappers
  import opened Protocol
  import opened Hypotheses
  import S = Store
  import L = Lifecycle

  datatype Contradiction = Contradiction(id: string, text: string)

  datatype PlanRequest = PlanRequest(id: string, questionId: string)

  datatype PlanDoc = PlanDoc(questions: seq<Question>, requests: seq<PlanRequest>)

  /** Session fields that an action overwrites wholesale. */
  datatype Slot =
    | Timeline | BlastRadius | EvidencePlan | Coverage | Strategy | EvidenceImportance
    | Sufficiency | InvestigationProgress | ConfidenceBreakdown

  datatype Case = Case(hypotheses: seq<Hypothesis>, contradictions: seq<Contradiction>, plan: Option<PlanDoc>,
                       view: Option<S.GraphView>, slots: map<Slot, string>, confidence: real, progress: real,
                       state: L.State, status: L.Status)

  /** The session and the graph handle, which may be nil. */
  datatype Held = Held(s: Case, g: Option<S.State>)

  /** spare is the room left in the slice that carries the replacement hypotheses. */
  datatype Action =
    | Increase(hypothesisId: string, delta: real)
    | Decrease(hypothesisId: string, delta: real)
    | CreateHypothesis(hypothesis: Option<Hypothesis>)
    | RejectHypothesis(hypothesisId: string)
    | PromoteHypothesis(hypothesisId: string)
    | ReplaceHypotheses(hypotheses: seq<Hypothesis>, spare: nat)
    | SetContradictions(contradictions: seq<Contradiction>)
    | MarkContradiction(contradiction: Option<Contradiction>)
    | UpdateGraph(view: Option<S.GraphView>)
    | SetSlot(slot: Slot, payload: string)
    | SetOptionalSlot(slot: Slot, optional: Option<string>)
    | SetConfidence(value: real)
    | SetProgress(value: real)
    | LinkNodes(edge: Option<S.GraphEdge>)
    | CreateQuestion(question: Option<Question>)
    | ResolveQuestion(questionId: string)
    | RejectQuestion(questionId: string)
    | CreateRequest(request: Option<PlanRequest>)
    | CreateRecommendation(text: string)
    | MarkComplete
    | OtherAction

  datatype Reason =
    | QuestionIdRequired | NoPlan | UnknownQuestion | AlreadyResolved | HypothesisIdRequired
    | DeltaNotPositive | DeltaTooLarge | HypothesisRequired | EdgeRequired | EndpointsRequired
    | InvalidFrom | InvalidTo | ContradictionRequired | QuestionRequired | RequestRequired
    | RecommendationRequired | NoEffect

  // ----- Validation -----

  /** Unicode white space. */
  predicate IsSpace(c: char) {
    || c in " \t\n\r"
    || c as int in {11, 12, 0x85, 0xA0, 0x1680, 0x2028, 0x2029, 0x202F, 0x205F, 0x3000}
    || 0x2000 <= c as int <= 0x200A
  }

  predicate Blank(text: string) { forall c | c in text :: IsSpace(c) }

  function ValidateDelta(id: string, delta: real): Option<Reason> {
    if id == "" then Some(HypothesisIdRequired)
    else if delta <= 0.0 then Some(DeltaNotPositive)
    else if delta > 50.0 then Some(DeltaTooLarge)
    else None
  }

  function ValidateClosing(plan: Option<PlanDoc>, id: string): Option<Reason> {
    if id == "" then Some(QuestionIdRequired)
    else if plan.None? then Some(NoPlan)
    else match IndexOf(plan.value.questions, id)
      case None => Some(UnknownQuestion)
      case Some(i) =>
        FindIndex(plan.value.questions, id);
        if plan.value.questions[i].Open() then None else Some(AlreadyResolved)
  }

  function ValidateEdge(g: Option<S.State>, edge: Option<S.GraphEdge>): Option<Reason> {
    if edge.None? then Some(EdgeRequired)
    else if edge.value.from == "" || edge.value.to == "" then Some(EndpointsRequired)
    else if g.None? then None
    else if edge.value.from !in g.value.nodes then Some(InvalidFrom)
    else if edge.value.to !in g.value.nodes then Some(InvalidTo)
    else None
  }

  function Validate(h: Held, a: Action): Option<Reason> {
    match a
    case Increase(id, delta) => ValidateDelta(id, delta)
    case Decrease(id, delta) => ValidateDelta(id, delta)
    case CreateHypothesis(x) => if x.None? || x.value.id == "" then Some(HypothesisRequired) else None
    case RejectHypothesis(id) => if id == "" then Some(HypothesisIdRequired) else None
    case PromoteHypothesis(id) => if id == "" then Some(HypothesisIdRequired) else None
    case MarkContradiction(c) => if c.None? || c.value.id == "" then Some(ContradictionRequired) else None
    case LinkNodes(edge) => ValidateEdge(h.g, edge)
    case CreateQuestion(q) => if q.None? || q.value.id == "" then Some(QuestionRequired) else None
    case ResolveQuestion(id) => ValidateClosing(h.s.plan, id)
    case RejectQuestion(id) => ValidateClosing(h.s.plan, id)
    case CreateRequest(r) => if r.None? || r.value.id == "" then Some(RequestRequired) else None
    case CreateRecommendation(text) => if Blank(text) then Some(RecommendationRequired) else None
    case _ => None
  }

  // ----- What one action does -----

  function HypothesisAt(hs: seq<Hypothesis>, id: string): Option<nat> {
    if hs == [] then None
    else if hs[0].id == id then Some(0)
    else match HypothesisAt(hs[1..], id)
      case None => None
      case Some(i) => Some(i + 1)
  }

  lemma {:induction false} FindHypothesis(hs: seq<Hypothesis>, id: string)
    ensures match HypothesisAt(hs, id)
            case None => forall h :: h in hs ==> h.id != id
            case Some(i) => i < |hs| && hs[i].id == id && forall j :: 0 <= j < i ==> hs[j].id != id
  {
    if hs != [] && hs[0].id != id {
      FindHypothesis(hs[1..], id);
    }
  }

  /** The confidences that are shared out: those of the hypotheses that are not refuted. */
  function Active(hs: seq<Hypothesis>): seq<real> {
    if hs == [] then []
    else Active(hs[..|hs| - 1]) + if hs[|hs| - 1].status == Refuted then [] else [hs[|hs| - 1].confidence]
  }

  function Rescaled(h: Hypothesis, total: real): Hypothesis
    requires total > 0.0
  {
    if h.status == Refuted then h else h.(confidence := RoundHalfAway(Share(h.confidence, total)))
  }

  function RescaledAll(hs: seq<Hypothesis>, total: real): (rs: seq<Hypothesis>)
    requires total > 0.0
    ensures |rs| == |hs|
  {
    if hs == [] then [] else RescaledAll(hs[..|hs| - 1], total) + [Rescaled(hs[|hs| - 1], total)]
  }

  function Normalized(hs: seq<Hypothesis>): (rs: seq<Hypothesis>)
    ensures |rs| == |hs|
  {
    var total := Sum(Active(hs));
    if total <= 0.0 then hs else RescaledAll(hs, total)
  }

  function Shifted(hs: seq<Hypothesis>, i: nat, delta: real): (rs: seq<Hypothesis>)
    requires i < |hs|
    ensures |rs| == |hs|
  {
    hs[i := hs[i].(confidence := Clamp(hs[i].confidence + delta, 0.0, 100.0))]
  }

  function Adjusted(hs: seq<Hypothesis>, id: string, delta: real): (rs: seq<Hypothesis>)
    ensures |rs| == |hs|
  {
    match HypothesisAt(hs, id)
    case None => hs
    case Some(i) =>
      FindHypothesis(hs, id);
      Normalized(Shifted(hs, i, delta))
  }

  function WithStatus(hs: seq<Hypothesis>, id: string, status: HypothesisStatus): (rs: seq<Hypothesis>)
    ensures |rs| == |hs|
  {
    match HypothesisAt(hs, id)
    case None => hs
    case Some(i) =>
      FindHypothesis(hs, id);
      hs[i := hs[i].(status := status)]
  }

  predicate HasContradiction(cs: seq<Contradiction>, id: string) { exists c | c in cs :: c.id == id }

  predicate HasQuestion(qs: seq<Question>, id: string) { exists q | q in qs :: q.id == id }

  predicate HasRequest(rs: seq<PlanRequest>, id: string) { exists r | r in rs :: r.id == id }

  function Closed(qs: seq<Question>, id: string, status: QuestionStatus): (rs: seq<Question>)
    ensures |rs| == |qs|
  {
    match IndexOf(qs, id)
    case None => qs
    case Some(i) =>
      FindIndex(qs, id);
      qs[i := qs[i].(status := status)]
  }

  predicate SameTriple(e: S.GraphEdge, f: S.GraphEdge) { e.from == f.from && e.to == f.to && e.etype == f.etype }

  ghost predicate EdgeExists(g: S.State, e: S.GraphEdge) {
    exists k :: k in g.edges && SameTriple(g.edges[k], e)
  }

  ghost predicate WellHeld(h: Held) { h.g.Some? ==> S.Valid(h.g.value) }

  ghost function Linked(h: Held, edge: S.GraphEdge): (r: Held)
    requires WellHeld(h)
    ensures WellHeld(r)
  {
    if h.g.None? || EdgeExists(h.g.value, edge) then h
    else
      S.ExecValid(h.g.value, S.OpAddEdge(edge));
      var g := S.Exec(h.g.value, S.OpAddEdge(edge));
      Held(if h.s.view.Some? then h.s.(view := Some(S.ViewOf(g))) else h.s, Some(g))
  }

  function InPlan(s: Case, questions: seq<Question>): Case {
    match s.plan
    case None => s
    case Some(p) => s.(plan := Some(p.(questions := questions)))
  }

  function EffectOnPlan(s: Case, a: Action): Case {
    match a
    case CreateQuestion(Some(q)) =>
      if s.plan.None? || HasQuestion(s.plan.value.questions, q.id) then s else InPlan(s, s.plan.value.questions + [q])
    case ResolveQuestion(id) => if s.plan.None? then s else InPlan(s, Closed(s.plan.value.questions, id, Answered))
    case RejectQuestion(id) =>
      if s.plan.None? then s else InPlan(s, Closed(s.plan.value.questions, id, QuestionStatus.Rejected))
    case CreateRequest(Some(r)) =>
      if s.plan.None? || HasRequest(s.plan.value.requests, r.id) then s
      else s.(plan := Some(s.plan.value.(requests := s.plan.value.requests + [r])))
    case CreateRecommendation(_) => if s.plan.None? then s.(plan := Some(PlanDoc([], []))) else s
    case _ => s
  }

  function EffectOnHypotheses(hs: seq<Hypothesis>, a: Action): seq<Hypothesis> {
    match a
    case Increase(id, delta) => Adjusted(hs, id, delta)
    case Decrease(id, delta) => Adjusted(hs, id, -delta)
    case CreateHypothesis(Some(x)) => if HypothesisAt(hs, x.id).None? then hs + [x] else hs
    case RejectHypothesis(id) => WithStatus(hs, id, Refuted)
    case PromoteHypothesis(id) => WithStatus(hs, id, Leading)
    case ReplaceHypotheses(xs, _) => xs
    case _ => hs
  }

  function EffectOnRest(s: Case, a: Action): Case {
    match a
    case SetContradictions(cs) => s.(contradictions := cs)
    case MarkContradiction(Some(c)) =>
      if HasContradiction(s.contradictions, c.id) then s else s.(contradictions := s.contradictions + [c])
    case UpdateGraph(Some(v)) => s.(view := Some(v))
    case SetSlot(slot, payload) => s.(slots := s.slots[slot := payload])
    case SetOptionalSlot(slot, Some(payload)) => s.(slots := s.slots[slot := payload])
    case SetConfidence(v) => s.(confidence := Clamp(v, 0.0, 100.0))
    case SetProgress(v) => s.(progress := Clamp(v, 0.0, 100.0))
    case MarkComplete => s.(state := L.CompletedState, status := L.Completed)
    case _ => s
  }

  ghost function Changed(h: Held, a: Action): (r: Held)
    requires WellHeld(h)
    ensures WellHeld(r)
  {
    match a
    case LinkNodes(Some(edge)) => Linked(h, edge)
    case _ =>
      var s := EffectOnRest(EffectOnPlan(h.s, a), a);
      h.(s := s.(hypotheses := EffectOnHypotheses(s.hypotheses, a)))
  }

  /** Whether the action reports that it had an effect. */
  predicate Effective(h: Held, a: Action) {
    match a
    case Increase(id, _) => HypothesisAt(h.s.hypotheses, id).Some?
    case Decrease(id, _) => HypothesisAt(h.s.hypotheses, id).Some?
    case CreateHypothesis(x) => x.Some? && HypothesisAt(h.s.hypotheses, x.value.id).None?
    case RejectHypothesis(id) => HypothesisAt(h.s.hypotheses, id).Some?
    case PromoteHypothesis(id) => HypothesisAt(h.s.hypotheses, id).Some?
    case MarkContradiction(c) => c.Some?
    case UpdateGraph(v) => v.Some?
    case SetOptionalSlot(_, p) => p.Some?
    case LinkNodes(edge) => h.g.Some? && edge.Some?
    case CreateQuestion(q) => q.Some? && h.s.plan.Some? && !HasQuestion(h.s.plan.value.questions, q.value.id)
    case ResolveQuestion(id) => h.s.plan.Some? && IndexOf(h.s.plan.value.questions, id).Some?
    case RejectQuestion(id) => h.s.plan.Some? && IndexOf(h.s.plan.value.questions, id).Some?
    case CreateRequest(r) => r.Some? && h.s.plan.Some? && !HasRequest(h.s.plan.value.requests, r.value.id)
    case CreateRecommendation(text) => !Blank(text)
    case OtherAction => false
    case _ => true
  }

  // ----- A list of actions -----

  function Ruling(h: Held, a: Action): Option<Reason> {
    match Validate(h, a)
    case Some(r) => Some(r)
    case None => if Effective(h, a) then None else Some(NoEffect)
  }

  ghost function After(h: Held, a: Action): (r: Held)
    requires WellHeld(h)
    ensures WellHeld(r)
  {
    if Validate(h, a).Some? then h else Changed(h, a)
  }

  datatype Refusal = Refusal(action: Action, reason: Reason)

  datatype Result = Result(held: Held, applied: seq<Action>, refused: seq<Refusal>)

  ghost function Run(h: Held, acts: seq<Action>): (r: Result)
    requires WellHeld(h)
    ensures WellHeld(r.held)
    decreases |acts|
  {
    if acts == [] then Result(h, [], [])
    else
      var r := Run(After(h, acts[0]), acts[1..]);
      match Ruling(h, acts[0])
      case None => r.(applied := [acts[0]] + r.applied)
      case Some(reason) => r.(refused := [Refusal(acts[0], reason)] + r.refused)
  }

  // ----- Rejected actions are harmless -----

  /** Without the validator, the one action that reports no effect and yet changes the session
      is a blank recommendation made before there is a plan. */
  lemma HarmlessExactly(h: Held, a: Action)
    requires WellHeld(h) && !Effective(h, a)
    ensures Changed(h, a) == h <==> !(a.CreateRecommendation? && h.s.plan.None?)
  {
  }

  /** A rejected action of any type leaves the session and the graph as they were. */
  lemma RejectedHarmless(h: Held, a: Action)
    requires WellHeld(h) && Ruling(h, a).Some?
    ensures After(h, a) == h
  {
    if Validate(h, a).None? { HarmlessExactly(h, a); }
  }

  /** acts is some interleaving of the two lists. */
  ghost predicate Interleaves(acts: seq<Action>, applied: seq<Action>, refused: seq<Refusal>)
    decreases |acts|
  {
    if acts == [] then applied == [] && refused == []
    else
      || (applied != [] && applied[0] == acts[0] && Interleaves(acts[1..], applied[1..], refused))
      || (refused != [] && refused[0].action == acts[0] && Interleaves(acts[1..], applied, refused[1..]))
  }

  lemma {:induction false} SplitsInOrder(h: Held, acts: seq<Action>)
    requires WellHeld(h)
    ensures Interleaves(acts, Run(h, acts).applied, Run(h, acts).refused)
    decreases |acts|
  {
    if acts != [] {
      var rest := Run(After(h, acts[0]), acts[1..]);
      SplitsInOrder(After(h, acts[0]), acts[1..]);
      match Ruling(h, acts[0])
      case None => assert ([acts[0]] + rest.applied)[1..] == rest.applied;
      case Some(reason) => assert ([Refusal(acts[0], reason)] + rest.refused)[1..] == rest.refused;
    }
  }

  /** Replaying only what was applied, from the same start, gives the same session and graph
      and rejects nothing. */
  lemma {:induction false} Replay(h: Held, acts: seq<Action>)
    requires WellHeld(h)
    ensures Run(h, Run(h, acts).applied) == Result(Run(h, acts).held, Run(h, acts).applied, [])
    decreases |acts|
  {
    if acts != [] {
      var a, rest := acts[0], Run(After(h, acts[0]), acts[1..]);
      Replay(After(h, a), acts[1..]);
      if Ruling(h, a).None? {
        assert ([a] + rest.applied)[1..] == rest.applied;
      } else {
        RejectedHarmless(h, a);
      }
    }
  }

  // ----- What every run keeps -----

  /** No edge without both of its nodes, and no two edges with the same source, target and type. */
  ghost predicate SoundGraph(g: S.State) {
    && (forall k :: k in g.edges ==> g.edges[k].from in g.nodes && g.edges[k].to in g.nodes)
    && (forall k, l :: k in g.edges && l in g.edges && SameTriple(g.edges[k], g.edges[l]) ==> k == l)
  }

  lemma LinkKeepsSound(g: S.State, e: S.GraphEdge)
    requires SoundGraph(g) && e.from in g.nodes && e.to in g.nodes && !EdgeExists(g, e)
    ensures SoundGraph(S.Exec(g, S.OpAddEdge(e)))
  {
  }

  lemma StepKeepsGraph(h: Held, a: Action)
    requires WellHeld(h) && h.g.Some? && SoundGraph(h.g.value)
    ensures After(h, a).g.Some? && SoundGraph(After(h, a).g.value)
    ensures After(h, a).g.value.nodes == h.g.value.nodes
  {
    if a.LinkNodes? && Validate(h, a).None? && !EdgeExists(h.g.value, a.edge.value) {
      LinkKeepsSound(h.g.value, a.edge.value);
    }
  }

  /** Whatever is proposed, no run of actions makes a dangling edge or repeats an edge. */
  lemma {:induction false} RunKeepsGraph(h: Held, acts: seq<Action>)
    requires WellHeld(h) && h.g.Some? && SoundGraph(h.g.value)
    ensures Run(h, acts).held.g.Some? && SoundGraph(Run(h, acts).held.g.value)
    ensures Run(h, acts).held.g.value.nodes == h.g.value.nodes
    decreases |acts|
  {
    if acts != [] {
      StepKeepsGraph(h, acts[0]);
      RunKeepsGraph(After(h, acts[0]), acts[1..]);
    }
  }

  /** The questions of qs are still there at their places, the resolved ones untouched. */
  ghost predicate QuestionsStay(qs: seq<Question>, rs: seq<Question>) {
    && |qs| <= |rs|
    && (forall i :: 0 <= i < |qs| ==> rs[i].id == qs[i].id)
    && (forall i :: 0 <= i < |qs| && !qs[i].Open() ==> rs[i] == qs[i])
  }

  lemma ClosedStays(plan: PlanDoc, id: string, status: QuestionStatus)
    requires ValidateClosing(Some(plan), id).None?
    ensures QuestionsStay(plan.questions, Closed(plan.questions, id, status))
  {
    FindIndex(plan.questions, id);
  }

  lemma PlanAfter(h: Held, a: Action)
    requires WellHeld(h)
    ensures After(h, a).s.plan == if Validate(h, a).Some? then h.s.plan else EffectOnPlan(h.s, a).plan
  {
  }

  lemma StepKeepsQuestions(h: Held, a: Action)
    requires WellHeld(h) && h.s.plan.Some?
    ensures After(h, a).s.plan.Some? && QuestionsStay(h.s.plan.value.questions, After(h, a).s.plan.value.questions)
  {
    PlanAfter(h, a);
    if Validate(h, a).None? {
      if a.ResolveQuestion? { ClosedStays(h.s.plan.value, a.questionId, Answered); }
      if a.RejectQuestion? { ClosedStays(h.s.plan.value, a.questionId, QuestionStatus.Rejected); }
    }
  }

  /** A question that is answered or rejected stays so through every run of actions. */
  lemma {:induction false} RunKeepsQuestions(h: Held, acts: seq<Action>)
    requires WellHeld(h) && h.s.plan.Some?
    ensures Run(h, acts).held.s.plan.Some?
    ensures QuestionsStay(h.s.plan.value.questions, Run(h, acts).held.s.plan.value.questions)
    decreases |acts|
  {
    if acts != [] {
      StepKeepsQuestions(h, acts[0]);
      RunKeepsQuestions(After(h, acts[0]), acts[1..]);
    }
  }

  // ----- Shares among the hypotheses that are not refuted -----

  lemma {:induction false} ActiveNonNegative(hs: seq<Hypothesis>)
    requires forall h :: h in hs ==> h.confidence >= 0.0
    ensures NonNegative(Active(hs))
  {
    if hs != [] { ActiveNonNegative(hs[..|hs| - 1]); }
  }

  lemma {:induction false} RescaledShares(hs: seq<Hypothesis>, total: real)
    requires total > 0.0 && forall h :: h in hs ==> h.confidence >= 0.0
    ensures Active(RescaledAll(hs, total)) == Shares(Active(hs), total)
  {
    if hs != [] {
      var n := |hs| - 1;
      RescaledShares(hs[..n], total);
      assert RescaledAll(hs, total)[..n] == RescaledAll(hs[..n], total);
      assert hs[n] in hs;
      ShareMonotone(0.0, hs[n].confidence, total);
      Round1Near(Share(hs[n].confidence, total));
      var x, rs := Active(hs[..n]), RescaledAll(hs, total);
      assert rs[n] == Rescaled(hs[n], total);
      if hs[n].status == Refuted {
        assert Active(hs) == x && Active(rs) == Active(rs[..n]);
      } else {
        assert Active(hs) == x + [hs[n].confidence] && (x + [hs[n].confidence])[..|x|] == x;
      }
    }
  }

  lemma {:induction false} RescaledAt(hs: seq<Hypothesis>, total: real, i: nat)
    requires total > 0.0 && i < |hs|
    ensures RescaledAll(hs, total)[i] == Rescaled(hs[i], total)
  {
    if i < |hs| - 1 { RescaledAt(hs[..|hs| - 1], total, i); }
  }

  /** rs shares out 100 among the hypotheses of hs that are not refuted, in the order of their
      confidences; the refuted ones, the ids and the statuses are those of hs. */
  ghost predicate SharedOut(hs: seq<Hypothesis>, rs: seq<Hypothesis>) {
    && |rs| == |hs|
    && (Sum(Active(hs)) > 0.0 ==> Proportional(Active(hs), Active(rs)))
    && (forall i :: 0 <= i < |hs| ==> rs[i].id == hs[i].id && rs[i].status == hs[i].status)
    && (forall i :: 0 <= i < |hs| && hs[i].status == Refuted ==> rs[i] == hs[i])
  }

  lemma NormalizedShares(hs: seq<Hypothesis>)
    requires forall h :: h in hs ==> h.confidence >= 0.0
    ensures SharedOut(hs, Normalized(hs))
  {
    var total := Sum(Active(hs));
    ActiveNonNegative(hs);
    if total > 0.0 {
      RescaledShares(hs, total);
      SharesProportional(Active(hs));
      forall i | 0 <= i < |hs| ensures Normalized(hs)[i] == Rescaled(hs[i], total) { RescaledAt(hs, total, i); }
    }
  }

  /** Changing one confidence by an applied action clamps it and shares out the field afresh. */
  lemma AdjustedShares(hs: seq<Hypothesis>, id: string, delta: real, i: nat)
    requires forall h :: h in hs ==> h.confidence >= 0.0
    requires HypothesisAt(hs, id) == Some(i) && i < |hs|
    ensures SharedOut(Shifted(hs, i, delta), Adjusted(hs, id, delta))
  {
    NormalizedShares(Shifted(hs, i, delta));
  }

  // ----- Two hypotheses -----

  function Pair(x: real, y: real): seq<Hypothesis> { [Hypothesis("a", x, Proposed), Hypothesis("b", y, Proposed)] }

  lemma ActivePair(x: real, y: real)
    ensures Sum(Active(Pair(x, y))) == x + y
  {
    var hs := Pair(x, y);
    assert hs[..1] == [hs[0]] && [hs[0]][..0] == [];
    assert Active([hs[0]]) == [x] && Active(hs) == [x, y];
    assert [x, y][..1] == [x] && [x][..0] == [];
    assert Sum([x]) == x;
  }

  /** What raising one of two confidences by ten makes of them. */
  lemma PairRaised(x: real, y: real, first: bool)
    requires 0.0 <= x <= 90.0 && 0.0 <= y <= 90.0
    ensures var (p, q) := if first then (x + 10.0, y) else (x, y + 10.0);
            Adjusted(Pair(x, y), if first then "a" else "b", 10.0)
            == Pair(RoundHalfAway(Share(p, p + q)), RoundHalfAway(Share(q, p + q)))
  {
    var hs := Pair(x, y);
    var (p, q) := if first then (x + 10.0, y) else (x, y + 10.0);
    assert hs[1..] == [hs[1]];
    assert HypothesisAt([hs[1]], "b") == Some(0);
    assert Shifted(hs, if first then 0 else 1, 10.0) == Pair(p, q);
    ActivePair(p, q);
    RescaledAt(Pair(p, q), p + q, 0);
    RescaledAt(Pair(p, q), p + q, 1);
  }
}
