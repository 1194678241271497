/** What an action needs to be applied, what it then writes, and which way a changed confidence
    moves the shares of the field. */
module ActionEffects {
  import opened Wrappers
  import opened Protocol
  import opened Hypotheses
  import opened Applier
  import S = Store
  import L = Lifecycle

  ghost predicate FirstWithId(hs: seq<Hypothesis>, id: string, i: int) {
    0 <= i < |hs| && hs[i].id == id && forall j :: 0 <= j < i ==> hs[j].id != id
  }

  ghost predicate FirstQuestion(qs: seq<Question>, id: string, i: int) {
    0 <= i < |qs| && qs[i].id == id && forall j :: 0 <= j < i ==> qs[j].id != id
  }

  lemma FirstIsFound(hs: seq<Hypothesis>, id: string)
    ensures HypothesisAt(hs, id).None? <==> forall x :: x in hs ==> x.id != id
    ensures HypothesisAt(hs, id).Some? ==> FirstWithId(hs, id, HypothesisAt(hs, id).value)
    ensures forall i :: FirstWithId(hs, id, i) ==> HypothesisAt(hs, id) == Some(i)
  {
    FindHypothesis(hs, id);
  }

  lemma QuestionIsFound(qs: seq<Question>, id: string)
    ensures IndexOf(qs, id).None? <==> forall q :: q in qs ==> q.id != id
    ensures IndexOf(qs, id).Some? ==> FirstQuestion(qs, id, IndexOf(qs, id).value)
    ensures forall i :: FirstQuestion(qs, id, i) ==> IndexOf(qs, id) == Some(i)
  {
    FindIndex(qs, id);
  }

  // ----- What an action needs -----

  ghost predicate Known(h: Held, id: string) { exists x :: x in h.s.hypotheses && x.id == id }

  ghost predicate OpenInPlan(h: Held, id: string) {
    h.s.plan.Some? && exists i :: FirstQuestion(h.s.plan.value.questions, id, i) && h.s.plan.value.questions[i].Open()
  }

  ghost predicate Linkable(h: Held, e: S.GraphEdge) {
    && e.from != "" && e.to != ""
    && h.g.Some? && e.from in h.g.value.nodes && e.to in h.g.value.nodes
  }

  ghost predicate Applicable(h: Held, a: Action) {
    match a
    case Increase(id, delta) => id != "" && 0.0 < delta <= 50.0 && Known(h, id)
    case Decrease(id, delta) => id != "" && 0.0 < delta <= 50.0 && Known(h, id)
    case CreateHypothesis(x) => x.Some? && x.value.id != "" && !Known(h, x.value.id)
    case RejectHypothesis(id) => id != "" && Known(h, id)
    case PromoteHypothesis(id) => id != "" && Known(h, id)
    case MarkContradiction(c) => c.Some? && c.value.id != ""
    case UpdateGraph(v) => v.Some?
    case SetOptionalSlot(_, p) => p.Some?
    case LinkNodes(e) => e.Some? && Linkable(h, e.value)
    case CreateQuestion(q) =>
      q.Some? && q.value.id != "" && h.s.plan.Some? && forall p :: p in h.s.plan.value.questions ==> p.id != q.value.id
    case ResolveQuestion(id) => id != "" && OpenInPlan(h, id)
    case RejectQuestion(id) => id != "" && OpenInPlan(h, id)
    case CreateRequest(r) =>
      r.Some? && r.value.id != "" && h.s.plan.Some? && forall p :: p in h.s.plan.value.requests ==> p.id != r.value.id
    case CreateRecommendation(text) => exists c :: c in text && !IsSpace(c)
    case OtherAction => false
    case _ => true
  }

  lemma HypothesisActions(h: Held, a: Action)
    requires a.Increase? || a.Decrease? || a.CreateHypothesis? || a.RejectHypothesis? || a.PromoteHypothesis?
    ensures Ruling(h, a).None? <==> Applicable(h, a)
  {
    if a.CreateHypothesis? {
      if a.hypothesis.Some? { FirstIsFound(h.s.hypotheses, a.hypothesis.value.id); }
    } else {
      FirstIsFound(h.s.hypotheses, a.hypothesisId);
    }
  }

  lemma ClosingActions(h: Held, a: Action)
    requires a.ResolveQuestion? || a.RejectQuestion?
    ensures Ruling(h, a).None? <==> Applicable(h, a)
  {
    if h.s.plan.Some? { QuestionIsFound(h.s.plan.value.questions, a.questionId); }
  }

  /** An action is applied exactly when it has what it needs. */
  lemma AppliedExactly(h: Held, a: Action)
    ensures Ruling(h, a).None? <==> Applicable(h, a)
  {
    if a.Increase? || a.Decrease? || a.CreateHypothesis? || a.RejectHypothesis? || a.PromoteHypothesis? {
      HypothesisActions(h, a);
    } else if a.ResolveQuestion? || a.RejectQuestion? {
      ClosingActions(h, a);
    }
  }

  // ----- What an applied action writes -----

  function Percentage(v: real): real { if v <= 0.0 then 0.0 else if v >= 100.0 then 100.0 else v }

  /** The field with one confidence changed and kept within 0 and 100. */
  function Moved(hs: seq<Hypothesis>, i: nat, delta: real): (rs: seq<Hypothesis>)
    requires i < |hs|
    ensures |rs| == |hs|
  {
    hs[i := hs[i].(confidence := Percentage(hs[i].confidence + delta))]
  }

  ghost predicate ChangesHypotheses(h: Held, r: Held, hs: seq<Hypothesis>) { r == h.(s := h.s.(hypotheses := hs)) }

  /** The first hypothesis with the id is moved and the field shared out. */
  ghost predicate MovesFirst(h: Held, r: Held, id: string, delta: real) {
    exists i ::
      FirstWithId(h.s.hypotheses, id, i) && ChangesHypotheses(h, r, Normalized(Moved(h.s.hypotheses, i, delta)))
  }

  ghost predicate ClosesQuestion(h: Held, r: Held, id: string, status: QuestionStatus) {
    && h.s.plan.Some?
    && exists i :: FirstQuestion(h.s.plan.value.questions, id, i)
         && var qs := h.s.plan.value.questions;
            r == h.(s := h.s.(plan := Some(h.s.plan.value.(questions := qs[i := qs[i].(status := status)]))))
  }

  /** An edge with these ends and this type is stored. */
  ghost predicate Linked(g: S.State, e: S.GraphEdge) {
    exists k :: k in g.edges && (g.edges[k].from, g.edges[k].to, g.edges[k].etype) == (e.from, e.to, e.etype)
  }

  /** The edge is in the graph and the session's snapshot, if it has one, is of the new graph. */
  ghost predicate AddsEdge(h: Held, r: Held, e: S.GraphEdge) {
    && h.g.Some? && r.g.Some? && S.Valid(r.g.value)
    && r.g.value == S.State(h.g.value.nodes, h.g.value.edges[S.WithId(e).id := S.WithId(e)], h.g.value.order)
    && r.s == h.s.(view := r.s.view)
    && if h.s.view.None? then r.s.view.None? else r.s.view.Some? && S.IsView(r.s.view.value, r.g.value)
  }

  /** r is what the applied action makes of h. */
  ghost predicate Writes(h: Held, a: Action, r: Held) {
    var hs := h.s.hypotheses;
    match a
    case Increase(id, delta) => MovesFirst(h, r, id, delta)
    case Decrease(id, delta) => MovesFirst(h, r, id, -delta)
    case CreateHypothesis(Some(x)) => ChangesHypotheses(h, r, hs + [x])
    case RejectHypothesis(id) =>
      exists i :: FirstWithId(hs, id, i) && ChangesHypotheses(h, r, hs[i := hs[i].(status := Refuted)])
    case PromoteHypothesis(id) =>
      exists i :: FirstWithId(hs, id, i) && ChangesHypotheses(h, r, hs[i := hs[i].(status := Leading)])
    case ReplaceHypotheses(xs, _) => ChangesHypotheses(h, r, xs)
    case ResolveQuestion(id) => ClosesQuestion(h, r, id, Answered)
    case RejectQuestion(id) => ClosesQuestion(h, r, id, QuestionStatus.Rejected)
    case LinkNodes(Some(e)) =>
      if h.g.Some? && Linked(h.g.value, e) then r == h else AddsEdge(h, r, e)
    case _ => WritesRest(h, a, r)
  }

  ghost predicate WritesRest(h: Held, a: Action, r: Held) {
    match a
    case SetContradictions(cs) => r == h.(s := h.s.(contradictions := cs))
    case MarkContradiction(Some(c)) =>
      if exists d :: d in h.s.contradictions && d.id == c.id then r == h
      else r == h.(s := h.s.(contradictions := h.s.contradictions + [c]))
    case UpdateGraph(v) => r == h.(s := h.s.(view := v))
    case SetSlot(slot, payload) => r == h.(s := h.s.(slots := h.s.slots[slot := payload]))
    case SetOptionalSlot(slot, Some(payload)) => r == h.(s := h.s.(slots := h.s.slots[slot := payload]))
    case SetConfidence(v) => r == h.(s := h.s.(confidence := Percentage(v)))
    case SetProgress(v) => r == h.(s := h.s.(progress := Percentage(v)))
    case MarkComplete => r == h.(s := h.s.(state := L.CompletedState, status := L.Completed))
    case CreateQuestion(Some(q)) =>
      h.s.plan.Some? && r == h.(s := h.s.(plan := Some(h.s.plan.value.(questions := h.s.plan.value.questions + [q]))))
    case CreateRequest(Some(x)) =>
      h.s.plan.Some? && r == h.(s := h.s.(plan := Some(h.s.plan.value.(requests := h.s.plan.value.requests + [x]))))
    case CreateRecommendation(_) => r == if h.s.plan.Some? then h else h.(s := h.s.(plan := Some(PlanDoc([], []))))
    case _ => r == h
  }

  lemma MovedIsShifted(hs: seq<Hypothesis>, i: nat, delta: real)
    requires i < |hs|
    ensures Applier.Shifted(hs, i, delta) == Moved(hs, i, delta)
  {
  }

  lemma AdjustedMoves(h: Held, r: Held, id: string, delta: real)
    requires Known(h, id) && ChangesHypotheses(h, r, Adjusted(h.s.hypotheses, id, delta))
    ensures MovesFirst(h, r, id, delta)
  {
    var hs := h.s.hypotheses;
    FirstIsFound(hs, id);
    MovedIsShifted(hs, HypothesisAt(hs, id).value, delta);
    assert FirstWithId(hs, id, HypothesisAt(hs, id).value);
  }

  lemma ConfidenceChanged(h: Held, a: Action)
    requires WellHeld(h) && Ruling(h, a).None? && (a.Increase? || a.Decrease?)
    ensures var delta := if a.Increase? then a.delta else -a.delta;
            ChangesHypotheses(h, After(h, a), Adjusted(h.s.hypotheses, a.hypothesisId, delta))
  {
  }

  lemma ConfidenceMoves(h: Held, a: Action)
    requires WellHeld(h) && Applicable(h, a) && (a.Increase? || a.Decrease?)
    ensures MovesFirst(h, After(h, a), a.hypothesisId, if a.Increase? then a.delta else -a.delta)
  {
    AppliedExactly(h, a);
    ConfidenceChanged(h, a);
    AdjustedMoves(h, After(h, a), a.hypothesisId, if a.Increase? then a.delta else -a.delta);
  }

  lemma MoveWrites(h: Held, a: Action, r: Held)
    requires a.Increase? || a.Decrease?
    requires MovesFirst(h, r, a.hypothesisId, if a.Increase? then a.delta else -a.delta)
    ensures Writes(h, a, r)
  {
  }

  lemma StatusWrites(h: Held, a: Action)
    requires WellHeld(h) && Applicable(h, a) && (a.RejectHypothesis? || a.PromoteHypothesis?)
    ensures Writes(h, a, After(h, a))
  {
    AppliedExactly(h, a);
    FirstIsFound(h.s.hypotheses, a.hypothesisId);
    var i := HypothesisAt(h.s.hypotheses, a.hypothesisId).value;
    assert FirstWithId(h.s.hypotheses, a.hypothesisId, i);
  }

  lemma ClosingWrites(h: Held, a: Action)
    requires WellHeld(h) && Applicable(h, a) && (a.ResolveQuestion? || a.RejectQuestion?)
    ensures Writes(h, a, After(h, a))
  {
    AppliedExactly(h, a);
    var qs := h.s.plan.value.questions;
    QuestionIsFound(qs, a.questionId);
    assert FirstQuestion(qs, a.questionId, IndexOf(qs, a.questionId).value);
  }

  lemma LinkWrites(h: Held, a: Action)
    requires WellHeld(h) && Applicable(h, a) && a.LinkNodes?
    ensures Writes(h, a, After(h, a))
  {
    AppliedExactly(h, a);
    assert Linked(h.g.value, a.edge.value) <==> EdgeExists(h.g.value, a.edge.value);
  }

  lemma RestWrites(h: Held, a: Action)
    requires WellHeld(h) && Applicable(h, a)
    requires !a.Increase? && !a.Decrease? && !a.RejectHypothesis? && !a.PromoteHypothesis? && !a.ResolveQuestion?
    requires !a.RejectQuestion? && !a.LinkNodes?
    ensures Writes(h, a, After(h, a))
  {
    AppliedExactly(h, a);
    if a.CreateHypothesis? { FirstIsFound(h.s.hypotheses, a.hypothesis.value.id); }
  }

  lemma RunOne(h: Held, a: Action)
    requires WellHeld(h)
    ensures Run(h, [a]).held == After(h, a)
  {
    assert [a][1..] == [] && Run(After(h, a), []) == Result(After(h, a), [], []);
  }

  /** An applied action writes exactly this and nothing else; any other action writes nothing. */
  lemma AppliedWrites(h: Held, a: Action)
    requires WellHeld(h)
    ensures if Applicable(h, a) then Writes(h, a, Run(h, [a]).held) else Run(h, [a]).held == h
  {
    RunOne(h, a);
    AppliedExactly(h, a);
    if !Applicable(h, a) {
      RejectedHarmless(h, a);
    } else if a.Increase? || a.Decrease? {
      ConfidenceMoves(h, a);
      MoveWrites(h, a, After(h, a));
    } else if a.RejectHypothesis? || a.PromoteHypothesis? {
      StatusWrites(h, a);
    } else if a.ResolveQuestion? || a.RejectQuestion? {
      ClosingWrites(h, a);
    } else if a.LinkNodes? {
      LinkWrites(h, a);
    } else {
      RestWrites(h, a);
    }
  }

  // ----- Which way the shares move -----

  lemma CrossMultiplied(a: real, b: real, c: real, d: real)
    requires b > 0.0 && d > 0.0 && a * d <= c * b
    ensures a / b <= c / d
  {
    var p, q := a / b, c / d;
    assert p * b == a && q * d == c;
    var r := p - q;
    assert r * (b * d) == p * b * d - q * d * b;
    assert r > 0.0 ==> r * (b * d) > 0.0;
  }

  /** A part that gets smaller gets a smaller share of what is left. */
  lemma PartFalls(c: real, part: real, total: real)
    requires 0.0 <= c <= part <= total && total - part + c > 0.0
    ensures Share(c, total - part + c) <= Share(part, total)
  {
    assert (part - c) * (total - part) >= 0.0;
    assert c * total <= part * (total - part + c);
    CrossMultiplied(c, total - part + c, part, total);
  }

  lemma OthersRise(x: real, less: real, total: real)
    requires 0.0 <= x && 0.0 < less <= total
    ensures Share(x, total) <= Share(x, less)
  {
    assert x * (total - less) >= 0.0;
    CrossMultiplied(x, total, x, less);
  }

  lemma RoundsInOrder(v: real, w: real)
    requires 0.0 <= v <= w
    ensures RoundHalfAway(v) <= RoundHalfAway(w)
  {
    Round1Near(v);
    Round1Near(w);
    Round1Monotone(v, w);
  }

  ghost predicate AllNonNegative(hs: seq<Hypothesis>) { forall x :: x in hs ==> x.confidence >= 0.0 }

  /** The fields differ in one confidence at most, that of a hypothesis that is not refuted. */
  ghost predicate DifferAt(hs: seq<Hypothesis>, ms: seq<Hypothesis>, i: nat) {
    && i < |hs| == |ms| && hs[i].status != Refuted && ms[i].status == hs[i].status && ms[i].id == hs[i].id
    && forall j :: 0 <= j < |hs| && j != i ==> ms[j] == hs[j]
  }

  lemma {:induction false} TotalMoves(hs: seq<Hypothesis>, ms: seq<Hypothesis>, i: nat)
    requires DifferAt(hs, ms, i)
    ensures Sum(Active(ms)) == Sum(Active(hs)) - hs[i].confidence + ms[i].confidence
  {
    var n := |hs| - 1;
    SumSnoc(hs);
    SumSnoc(ms);
    if i < n {
      TotalMoves(hs[..n], ms[..n], i);
    } else {
      assert ms[..n] == hs[..n];
    }
  }

  lemma SumSnoc(hs: seq<Hypothesis>)
    requires hs != []
    ensures var n := |hs| - 1;
            Sum(Active(hs)) == Sum(Active(hs[..n])) + if hs[n].status == Refuted then 0.0 else hs[n].confidence
  {
    var n := |hs| - 1;
    var x := Active(hs[..n]);
    if hs[n].status == Refuted {
      assert Active(hs) == x;
    } else {
      assert Active(hs) == x + [hs[n].confidence];
      SumAppend(x, hs[n].confidence);
    }
  }

  lemma SumAppend(xs: seq<real>, x: real)
    ensures Sum(xs + [x]) == Sum(xs) + x
  {
    assert (xs + [x])[..|xs|] == xs;
  }

  lemma {:induction false} ActiveBelowTotal(hs: seq<Hypothesis>, i: nat)
    requires AllNonNegative(hs) && i < |hs| && hs[i].status != Refuted
    ensures hs[i].confidence <= Sum(Active(hs))
  {
    var n := |hs| - 1;
    SumSnoc(hs);
    assert hs[n] in hs;
    if i < n {
      ActiveBelowTotal(hs[..n], i);
    } else {
      ActiveNonNegative(hs[..n]);
      SumNonNegative(Active(hs[..n]));
    }
  }

  /** The share of the one hypothesis is no higher and no other one's is lower. */
  ghost predicate Lowers(ps: seq<Hypothesis>, qs: seq<Hypothesis>, i: nat)
    requires i < |ps| == |qs|
  {
    && qs[i].confidence <= ps[i].confidence
    && forall j :: 0 <= j < |ps| && j != i && ps[j].status != Refuted ==> ps[j].confidence <= qs[j].confidence
  }

  lemma NormalizedAt(hs: seq<Hypothesis>, j: nat)
    requires AllNonNegative(hs) && Sum(Active(hs)) > 0.0 && j < |hs|
    ensures Normalized(hs)[j].status == hs[j].status
    ensures hs[j].status != Refuted ==>
      Normalized(hs)[j].confidence == RoundHalfAway(Share(hs[j].confidence, Sum(Active(hs))))
  {
    RescaledAt(hs, Sum(Active(hs)), j);
  }

  /** ms is hs with the confidence of one hypothesis that is not refuted lowered. */
  ghost predicate Lowered(hs: seq<Hypothesis>, ms: seq<Hypothesis>, i: nat) {
    && DifferAt(hs, ms, i) && AllNonNegative(hs) && AllNonNegative(ms)
    && 0.0 <= ms[i].confidence <= hs[i].confidence <= Sum(Active(hs))
    && 0.0 < Sum(Active(ms)) == Sum(Active(hs)) - hs[i].confidence + ms[i].confidence
  }

  lemma LoweredPart(hs: seq<Hypothesis>, ms: seq<Hypothesis>, i: nat)
    requires Lowered(hs, ms, i)
    ensures Normalized(ms)[i].confidence <= Normalized(hs)[i].confidence
  {
    var total, less, c := Sum(Active(hs)), Sum(Active(ms)), ms[i].confidence;
    NormalizedAt(hs, i);
    NormalizedAt(ms, i);
    PartFalls(c, hs[i].confidence, total);
    ShareMonotone(0.0, c, less);
    RoundsInOrder(Share(c, less), Share(hs[i].confidence, total));
  }

  lemma OtherPart(hs: seq<Hypothesis>, ms: seq<Hypothesis>, i: nat, j: nat)
    requires Lowered(hs, ms, i) && j < |hs| && j != i && hs[j].status != Refuted
    ensures Normalized(hs)[j].confidence <= Normalized(ms)[j].confidence
  {
    var total, less := Sum(Active(hs)), Sum(Active(ms));
    var x := hs[j].confidence;
    assert hs[j] in hs;
    NormalizedAt(hs, j);
    NormalizedAt(ms, j);
    OthersRise(x, less, total);
    ShareMonotone(0.0, x, total);
    RoundsInOrder(Share(x, total), Share(x, less));
  }

  /** Lowering one confidence of a field moves its share down and the others up. */
  lemma LoweredField(hs: seq<Hypothesis>, ms: seq<Hypothesis>, i: nat)
    requires Lowered(hs, ms, i)
    ensures Lowers(Normalized(hs), Normalized(ms), i)
  {
    LoweredPart(hs, ms, i);
    forall j | 0 <= j < |hs| && j != i && Normalized(hs)[j].status != Refuted
      ensures Normalized(hs)[j].confidence <= Normalized(ms)[j].confidence {
      NormalizedAt(hs, j);
      OtherPart(hs, ms, i, j);
    }
  }

  lemma FieldLowered(hs: seq<Hypothesis>, ms: seq<Hypothesis>, i: nat)
    requires DifferAt(hs, ms, i) && AllNonNegative(hs) && AllNonNegative(ms)
    requires ms[i].confidence <= hs[i].confidence && Sum(Active(ms)) > 0.0
    ensures Lowers(Normalized(hs), Normalized(ms), i)
  {
    assert ms[i] in ms;
    TotalMoves(hs, ms, i);
    ActiveBelowTotal(hs, i);
    LoweredField(hs, ms, i);
  }

  lemma MovedDiffers(hs: seq<Hypothesis>, i: nat, delta: real)
    requires AllNonNegative(hs) && i < |hs| && hs[i].status != Refuted
    ensures DifferAt(hs, Moved(hs, i, delta), i) && DifferAt(Moved(hs, i, delta), hs, i)
    ensures AllNonNegative(Moved(hs, i, delta))
  {
  }

  lemma MoveGoes(hs: seq<Hypothesis>, i: nat, delta: real)
    requires AllNonNegative(hs) && i < |hs|
    ensures delta <= 0.0 || hs[i].confidence > 100.0 ==> Moved(hs, i, delta)[i].confidence <= hs[i].confidence
    ensures delta >= 0.0 && hs[i].confidence <= 100.0 ==> hs[i].confidence <= Moved(hs, i, delta)[i].confidence
  {
    assert hs[i] in hs;
  }

  lemma FieldMoves(hs: seq<Hypothesis>, ms: seq<Hypothesis>, i: nat, delta: real)
    requires AllNonNegative(hs) && i < |hs| && hs[i].status != Refuted && ms == Moved(hs, i, delta)
    requires Sum(Active(hs)) > 0.0 && Sum(Active(ms)) > 0.0
    ensures delta <= 0.0 || hs[i].confidence > 100.0 ==> Lowers(Normalized(hs), Normalized(ms), i)
    ensures delta >= 0.0 && hs[i].confidence <= 100.0 ==> Lowers(Normalized(ms), Normalized(hs), i)
  {
    assert DifferAt(hs, ms, i) && DifferAt(ms, hs, i) && AllNonNegative(ms) by { MovedDiffers(hs, i, delta); }
    MoveGoes(hs, i, delta);
    if ms[i].confidence <= hs[i].confidence { FieldLowered(hs, ms, i); }
    if ms[i].confidence >= hs[i].confidence { FieldLowered(ms, hs, i); }
  }

  /** An applied decrease of a hypothesis that is not refuted leaves its share no higher, and those
      of the others no lower, than in the field shared out before it; an increase the reverse,
      unless the confidence stood above 100, where an increase lowers. */
  lemma AppliedMovesShares(h: Held, a: Action, i: nat)
    requires WellHeld(h) && Applicable(h, a) && (a.Increase? || a.Decrease?) && AllNonNegative(h.s.hypotheses)
    requires FirstWithId(h.s.hypotheses, a.hypothesisId, i) && h.s.hypotheses[i].status != Refuted
    requires Sum(Active(h.s.hypotheses)) > 0.0
    requires Sum(Active(Moved(h.s.hypotheses, i, if a.Increase? then a.delta else -a.delta))) > 0.0
    ensures var hs, rs := h.s.hypotheses, Run(h, [a]).held.s.hypotheses;
            && |rs| == |hs|
            && if a.Decrease? || hs[i].confidence > 100.0 then Lowers(Normalized(hs), rs, i)
               else Lowers(rs, Normalized(hs), i)
  {
    var hs := h.s.hypotheses;
    var delta := if a.Increase? then a.delta else -a.delta;
    AppliedWrites(h, a);
    assert Run(h, [a]).held.s.hypotheses == Normalized(Moved(hs, i, delta)) by {
      forall k | FirstWithId(hs, a.hypothesisId, k) ensures k == i {}
    }
    FieldMoves(hs, Moved(hs, i, delta), i, delta);
  }
}
