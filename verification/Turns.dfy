/** A protocol turn together with its effects on the hypotheses, and how often a question's
    effects are applied over a whole investigation. */
module Turns {
  import opened Wrappers
  import opened Protocol
  import opened PlanRuns
  import H = Hypotheses

  // ----- Turns -----

  /** A run of the protocol adjusts the hypotheses by the resolutions that it found. */
  method Turn(e: Engine, s: Session, hs: array<H.Hypothesis>, w: World) returns (resolved: seq<Resolution>)
    modifies s, hs
    ensures s.Value() == RunPlan(e.playbook, w, old(s.Value()))
    ensures s.history == old(s.history) + resolved
    ensures H.Effected(old(hs[..]), e.playbook, resolved, hs[..])
    ensures s.requests == ChosenRequests(s.questions, w.present)
  {
    resolved := e.Run(s, w);
    H.ApplyPlaybookEffects(hs, e.playbook, resolved);
  }

  /** An operator's resolution adjusts them by that one; an unknown id changes nothing. */
  method Decide(e: Engine, s: Session, hs: array<H.Hypothesis>, id: string, confirmed: bool)
    returns (res: Option<Resolution>)
    modifies s, hs
    ensures match ForcePlan(old(s.Value()), id, confirmed)
            case None => res == None && s.Value() == old(s.Value()) && hs[..] == old(hs[..])
            case Some(p) =>
              && s.Value() == p && res.Some? && p.history == old(s.history) + [res.value]
              && H.Effected(old(hs[..]), e.playbook, [res.value], hs[..])
  {
    res := e.ResolveQuestion(s, id, confirmed);
    if res.Some? {
      H.ApplyPlaybookEffects(hs, e.playbook, [res.value]);
    }
  }

  // ----- How often -----

  /** No question is resolved twice, so that its effects are applied once at most. */
  ghost predicate OneEntryEach(h: seq<Resolution>) {
    forall i, j :: 0 <= i < j < |h| ==> h[i].questionId != h[j].questionId
  }

  lemma {:induction false} NewOnce(qs: seq<Question>, w: World)
    requires DistinctIds(qs)
    ensures OneEntryEach(NewResolutions(qs, w))
  {
    if qs != [] {
      var n := |qs| - 1;
      NewOnce(qs[..n], w);
      NewIds(qs[..n], w);
      forall r | r in NewResolutions(qs[..n], w) ensures r.questionId != qs[n].id {
        var q :| q in qs[..n] && q.id == r.questionId;
      }
    }
  }

  lemma {:induction false} NoneMeansAbsent(h: seq<Resolution>, id: string)
    requires LastEntry(h, id) == None
    ensures forall r :: r in h ==> r.questionId != id
  {
    if h != [] {
      NoneMeansAbsent(h[..|h| - 1], id);
      assert h == h[..|h| - 1] + [h[|h| - 1]];
    }
  }

  lemma OpenIsAbsent(p: Plan, q: Question)
    requires HistoryAgrees(p) && q in p.questions
    ensures q.Open() <==> forall r :: r in p.history ==> r.questionId != q.id
  {
    if q.Open() { NoneMeansAbsent(p.history, q.id); }
    if forall r :: r in p.history ==> r.questionId != q.id { NoEntry(p.history, q.id); }
  }

  /** A run resolves only questions that were never resolved. */
  lemma RunResolvesOnce(pb: Playbook, w: World, p: Plan)
    requires PlanInv(p) && OneEntryEach(p.history)
    ensures OneEntryEach(RunPlan(pb, w, p).history)
  {
    var asked := Extend(pb, w, p.questions);
    ExtendKeepsInv(pb, w, p);
    var g := NewResolutions(asked, w);
    NewOnce(asked, w);
    NewIds(asked, w);
    forall r, x | r in g && x in p.history ensures r.questionId != x.questionId {
      var q :| q in asked && q.Open() && q.id == r.questionId;
      OpenIsAbsent(Plan(asked, p.history), q);
    }
    assert RunPlan(pb, w, p).history == p.history + g;
  }

  /** An operator's resolution repeats none exactly when the question was open. */
  lemma ForceOnceExactly(p: Plan, id: string, confirmed: bool)
    requires PlanInv(p) && ForcePlan(p, id, confirmed).Some?
    ensures var i := IndexOf(p.questions, id);
            && i.Some? && i.value < |p.questions|
            && (OneEntryEach(ForcePlan(p, id, confirmed).value.history) <==>
                  OneEntryEach(p.history) && p.questions[i.value].Open())
  {
    FindIndex(p.questions, id);
    var q := p.questions[IndexOf(p.questions, id).value];
    var h := ForcePlan(p, id, confirmed).value.history;
    OpenIsAbsent(p, q);
    assert h[..|p.history|] == p.history && h[|p.history|].questionId == q.id;
    if OneEntryEach(h) {
      forall r | r in p.history ensures r.questionId != q.id {
        var k :| 0 <= k < |p.history| && p.history[k] == r;
        assert h[k] == r;
      }
      forall i, j | 0 <= i < j < |p.history| ensures p.history[i].questionId != p.history[j].questionId {
        assert h[i] == p.history[i] && h[j] == p.history[j];
      }
    }
  }

  /** Whenever the operator resolves a question of the plan, it is open. */
  ghost predicate OperatorsFindOpen(pb: Playbook, p: Plan, es: seq<Event>) {
    es != [] ==>
      var n := |es| - 1;
      var mid := Steps(pb, p, es[..n]);
      && OperatorsFindOpen(pb, p, es[..n])
      && (es[n].OperatorEvent? ==> forall q :: q in mid.questions && q.id == es[n].id ==> q.Open())
  }

  lemma Prefixed(h: seq<Resolution>, g: seq<Resolution>)
    requires h <= g && OneEntryEach(g)
    ensures OneEntryEach(h)
  {
    assert forall i :: 0 <= i < |h| ==> h[i] == g[i];
  }

  /** Over every interleaving, for every playbook, no question's effects are applied twice exactly
      when the operator resolves open questions only. */
  lemma {:induction false} EffectsOnceExactly(pb: Playbook, es: seq<Event>)
    ensures OneEntryEach(Steps(pb, EmptyPlan, es).history) <==> OperatorsFindOpen(pb, EmptyPlan, es)
  {
    if es != [] {
      var n := |es| - 1;
      var mid := Steps(pb, EmptyPlan, es[..n]);
      EffectsOnceExactly(pb, es[..n]);
      StepsKeepInv(pb, EmptyPlan, es[..n]);
      match es[n] {
        case RunEvent(w) =>
          if OneEntryEach(mid.history) { RunResolvesOnce(pb, w, mid); }
          RunKeepsResolved(pb, w, mid);
          if OneEntryEach(RunPlan(pb, w, mid).history) { Prefixed(mid.history, RunPlan(pb, w, mid).history); }
        case OperatorEvent(id, confirmed) =>
          FindIndex(mid.questions, id);
          if ForcePlan(mid, id, confirmed).Some? {
            ForceOnceExactly(mid, id, confirmed);
            OnlyOne(mid.questions, IndexOf(mid.questions, id).value);
          }
      }
    }
  }

  lemma OnlyOne(qs: seq<Question>, i: nat)
    requires DistinctIds(qs) && i < |qs|
    ensures forall q :: q in qs && q.id == qs[i].id ==> q == qs[i]
  {
  }
}
