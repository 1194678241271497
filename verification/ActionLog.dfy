/** The applier on a live session, and the log it stores. A replacement's slice is shared with
    the session, so that later changes in place show through in the stored action. */
module ActionLog {
  import opened Wrappers
  import opened Protocol
  import opened Hypotheses
  import opened Applier
  import S = Store
  import L = Lifecycle

  lemma ActiveSnoc(hs: seq<Hypothesis>, i: nat)
    requires i < |hs|
    ensures Sum(Active(hs[..i + 1])) == Sum(Active(hs[..i])) + if hs[i].status == Refuted then 0.0 else hs[i].confidence
  {
    assert hs[..i + 1][..i] == hs[..i];
    var x := Active(hs[..i]);
    assert hs[i].status == Refuted ==> Active(hs[..i + 1]) == x;
    assert (x + [hs[i].confidence])[..|x|] == x;
  }

  predicate ForHypotheses(a: Action) {
    || a.Increase? || a.Decrease? || a.CreateHypothesis?
    || a.RejectHypothesis? || a.PromoteHypothesis? || a.ReplaceHypotheses?
  }

  predicate ForPlan(a: Action) {
    a.CreateQuestion? || a.ResolveQuestion? || a.RejectQuestion? || a.CreateRequest? || a.CreateRecommendation?
  }

  class LiveSession {
    var hypotheses: seq<Hypothesis>
    var contradictions: seq<Contradiction>
    var plan: Option<PlanDoc>
    var view: Option<S.GraphView>
    var slots: map<Slot, string>
    var confidence: real
    var progress: real
    var state: L.State
    var status: L.Status

    function Value(): Case
      reads this
    {
      Case(hypotheses, contradictions, plan, view, slots, confidence, progress, state, status)
    }

    method ActiveTotal() returns (total: real)
      ensures total == Sum(Active(hypotheses))
    {
      total := 0.0;
      for i := 0 to |hypotheses|
        invariant total == Sum(Active(hypotheses[..i]))
      {
        ActiveSnoc(hypotheses, i);
        if hypotheses[i].status != Refuted {
          total := total + hypotheses[i].confidence;
        }
      }
      assert hypotheses[..|hypotheses|] == hypotheses;
    }

    method Normalize()
      modifies this`hypotheses
      ensures hypotheses == Normalized(old(hypotheses))
    {
      var total := ActiveTotal();
      if total <= 0.0 {
        return;
      }
      ghost var before := hypotheses;
      for i := 0 to |hypotheses|
        invariant |hypotheses| == |before|
        invariant forall k :: 0 <= k < i ==> hypotheses[k] == Rescaled(before[k], total)
        invariant forall k :: i <= k < |before| ==> hypotheses[k] == before[k]
      {
        if hypotheses[i].status == Refuted {
          continue;
        }
        var share := RoundHalfAway(Share(hypotheses[i].confidence, total));
        hypotheses := hypotheses[i := hypotheses[i].(confidence := share)];
      }
      forall k | 0 <= k < |before| ensures hypotheses[k] == RescaledAll(before, total)[k] {
        RescaledAt(before, total, k);
      }
    }

    method Adjust(id: string, delta: real) returns (ok: bool)
      modifies this`hypotheses
      ensures hypotheses == Adjusted(old(hypotheses), id, delta)
      ensures ok == HypothesisAt(old(hypotheses), id).Some?
    {
      FindHypothesis(hypotheses, id);
      for i := 0 to |hypotheses|
        invariant hypotheses == old(hypotheses)
        invariant forall j :: 0 <= j < i ==> hypotheses[j].id != id
      {
        if hypotheses[i].id == id {
          var raised := Clamp(hypotheses[i].confidence + delta, 0.0, 100.0);
          hypotheses := hypotheses[i := hypotheses[i].(confidence := raised)];
          Normalize();
          return true;
        }
      }
      return false;
    }

    method SetHypothesisStatus(id: string, newStatus: HypothesisStatus) returns (ok: bool)
      modifies this`hypotheses
      ensures hypotheses == WithStatus(old(hypotheses), id, newStatus)
      ensures ok == HypothesisAt(old(hypotheses), id).Some?
    {
      FindHypothesis(hypotheses, id);
      for i := 0 to |hypotheses|
        invariant hypotheses == old(hypotheses)
        invariant forall j :: 0 <= j < i ==> hypotheses[j].id != id
      {
        if hypotheses[i].id == id {
          hypotheses := hypotheses[i := hypotheses[i].(status := newStatus)];
          return true;
        }
      }
      return false;
    }

    method AppendHypothesis(x: Option<Hypothesis>) returns (ok: bool)
      modifies this`hypotheses
      ensures hypotheses == EffectOnHypotheses(old(hypotheses), CreateHypothesis(x))
      ensures ok == (x.Some? && HypothesisAt(old(hypotheses), x.value.id).None?)
    {
      if x.None? {
        return false;
      }
      FindHypothesis(hypotheses, x.value.id);
      for i := 0 to |hypotheses|
        invariant forall j :: 0 <= j < i ==> hypotheses[j].id != x.value.id
      {
        if hypotheses[i].id == x.value.id {
          return false;
        }
      }
      hypotheses := hypotheses + [x.value];
      return true;
    }

    method AppendContradiction(c: Option<Contradiction>) returns (ok: bool)
      modifies this`contradictions
      ensures c.None? ==> contradictions == old(contradictions)
      ensures c.Some? ==>
        contradictions == (if HasContradiction(old(contradictions), c.value.id) then old(contradictions)
                           else old(contradictions) + [c.value])
      ensures ok == c.Some?
    {
      if c.None? {
        return false;
      }
      for i := 0 to |contradictions|
        invariant forall j :: 0 <= j < i ==> contradictions[j].id != c.value.id
      {
        if contradictions[i].id == c.value.id {
          return true;
        }
      }
      contradictions := contradictions + [c.value];
      return true;
    }

    method AppendQuestion(q: Option<Question>) returns (ok: bool)
      modifies this`plan
      ensures q.Some? && old(plan).Some? && !HasQuestion(old(plan).value.questions, q.value.id) ==>
        ok && plan == Some(PlanDoc(old(plan).value.questions + [q.value], old(plan).value.requests))
      ensures !(q.Some? && old(plan).Some? && !HasQuestion(old(plan).value.questions, q.value.id)) ==>
        !ok && plan == old(plan)
    {
      if q.None? || plan.None? {
        return false;
      }
      for i := 0 to |plan.value.questions|
        invariant forall j :: 0 <= j < i ==> plan.value.questions[j].id != q.value.id
      {
        if plan.value.questions[i].id == q.value.id {
          return false;
        }
      }
      plan := Some(plan.value.(questions := plan.value.questions + [q.value]));
      return true;
    }

    method Close(id: string, newStatus: QuestionStatus) returns (ok: bool)
      modifies this`plan
      ensures old(plan).None? ==> plan == None
      ensures old(plan).Some? ==>
        plan == Some(PlanDoc(Closed(old(plan).value.questions, id, newStatus), old(plan).value.requests))
      ensures ok == (old(plan).Some? && IndexOf(old(plan).value.questions, id).Some?)
    {
      if plan.None? {
        return false;
      }
      FindIndex(plan.value.questions, id);
      for i := 0 to |plan.value.questions|
        invariant plan == old(plan)
        invariant forall j :: 0 <= j < i ==> plan.value.questions[j].id != id
      {
        if plan.value.questions[i].id == id {
          var qs := plan.value.questions;
          plan := Some(plan.value.(questions := qs[i := qs[i].(status := newStatus)]));
          return true;
        }
      }
      return false;
    }

    method AppendRequest(r: Option<PlanRequest>) returns (ok: bool)
      modifies this`plan
      ensures r.Some? && old(plan).Some? && !HasRequest(old(plan).value.requests, r.value.id) ==>
        ok && plan == Some(PlanDoc(old(plan).value.questions, old(plan).value.requests + [r.value]))
      ensures !(r.Some? && old(plan).Some? && !HasRequest(old(plan).value.requests, r.value.id)) ==>
        !ok && plan == old(plan)
    {
      if r.None? || plan.None? {
        return false;
      }
      for i := 0 to |plan.value.requests|
        invariant forall j :: 0 <= j < i ==> plan.value.requests[j].id != r.value.id
      {
        if plan.value.requests[i].id == r.value.id {
          return false;
        }
      }
      plan := Some(plan.value.(requests := plan.value.requests + [r.value]));
      return true;
    }

    method ChangeHypotheses(a: Action) returns (ok: bool)
      requires ForHypotheses(a)
      modifies this`hypotheses
      ensures hypotheses == EffectOnHypotheses(old(hypotheses), a)
      ensures ok == Effective(Held(old(Value()), None), a)
    {
      match a {
        case Increase(id, delta) => ok := Adjust(id, delta);
        case Decrease(id, delta) => ok := Adjust(id, -delta);
        case CreateHypothesis(x) => ok := AppendHypothesis(x);
        case RejectHypothesis(id) => ok := SetHypothesisStatus(id, Refuted);
        case PromoteHypothesis(id) => ok := SetHypothesisStatus(id, Leading);
        case ReplaceHypotheses(hs, _) => hypotheses := hs; ok := true;
      }
    }

    method ChangePlan(a: Action) returns (ok: bool)
      requires ForPlan(a)
      modifies this`plan
      ensures Value() == EffectOnPlan(old(Value()), a)
      ensures ok == Effective(Held(old(Value()), None), a)
    {
      match a {
        case CreateQuestion(q) => ok := AppendQuestion(q);
        case ResolveQuestion(id) => ok := Close(id, Answered);
        case RejectQuestion(id) => ok := Close(id, QuestionStatus.Rejected);
        case CreateRequest(r) => ok := AppendRequest(r);
        case CreateRecommendation(text) =>
          if plan.None? {
            plan := Some(PlanDoc([], []));
          }
          ok := !Blank(text);
      }
    }

    method ChangeRest(a: Action) returns (ok: bool)
      requires !ForHypotheses(a) && !ForPlan(a) && !a.LinkNodes?
      modifies this
      ensures Value() == EffectOnRest(old(Value()), a)
      ensures ok == Effective(Held(old(Value()), None), a)
    {
      ok := true;
      match a {
        case SetContradictions(cs) => contradictions := cs;
        case MarkContradiction(c) => ok := AppendContradiction(c);
        case UpdateGraph(v) =>
          if v.Some? {
            view := v;
          }
          ok := v.Some?;
        case SetSlot(slot, payload) => slots := slots[slot := payload];
        case SetOptionalSlot(slot, payload) =>
          if payload.Some? {
            slots := slots[slot := payload.value];
          }
          ok := payload.Some?;
        case SetConfidence(v) => confidence := Clamp(v, 0.0, 100.0);
        case SetProgress(v) => progress := Clamp(v, 0.0, 100.0);
        case MarkComplete => state, status := L.CompletedState, L.Completed;
        case OtherAction => ok := false;
      }
    }

    method Link(g: S.MemoryStore?, edge: Option<S.GraphEdge>) returns (ok: bool)
      requires g != null ==> S.Valid(g.Value())
      modifies this`view, g
      ensures ok == (g != null && edge.Some?)
      ensures edge.Some? ==> Now(this, g) == Linked(old(Now(this, g)), edge.value)
      ensures edge.None? ==> Now(this, g) == old(Now(this, g))
    {
      if g == null || edge.None? {
        return false;
      }
      var all := g.AllEdges();
      for i := 0 to |all|
        invariant forall j :: 0 <= j < i ==> !SameTriple(all[j], edge.value)
      {
        if SameTriple(all[i], edge.value) {
          assert all[i] in all && all[i].id in g.edges;
          return true;
        }
      }
      assert forall k :: k in g.edges ==> g.edges[k] in all;
      S.ExecValid(g.Value(), S.OpAddEdge(edge.value));
      g.AddEdge(edge.value);
      if view.Some? {
        var v := g.View();
        S.ListingUnique(v.edges, S.ViewOf(g.Value()).edges, g.edges);
        view := Some(v);
      }
      return true;
    }
  }

  function Now(s: LiveSession, g: S.MemoryStore?): Held
    reads s, g
  {
    Held(s.Value(), if g == null then None else Some(g.Value()))
  }

  lemma OnlyHypotheses(h: Held, a: Action)
    requires WellHeld(h) && ForHypotheses(a)
    ensures Changed(h, a) == Held(h.s.(hypotheses := EffectOnHypotheses(h.s.hypotheses, a)), h.g)
    ensures Effective(h, a) == Effective(Held(h.s, None), a)
  {
  }

  lemma OnlyPlan(h: Held, a: Action)
    requires WellHeld(h) && ForPlan(a)
    ensures Changed(h, a) == Held(EffectOnPlan(h.s, a), h.g)
    ensures Effective(h, a) == Effective(Held(h.s, None), a)
  {
  }

  lemma OnlyRest(h: Held, a: Action)
    requires WellHeld(h) && !ForHypotheses(a) && !ForPlan(a) && !a.LinkNodes?
    ensures Changed(h, a) == Held(EffectOnRest(h.s, a), h.g)
    ensures Effective(h, a) == Effective(Held(h.s, None), a)
  {
  }

  method ApplyOne(s: LiveSession, g: S.MemoryStore?, a: Action) returns (ok: bool)
    requires g != null ==> S.Valid(g.Value())
    modifies s, g
    ensures Now(s, g) == Changed(old(Now(s, g)), a)
    ensures ok == Effective(old(Now(s, g)), a)
  {
    ghost var h := Now(s, g);
    if a.LinkNodes? {
      ok := s.Link(g, a.edge);
    } else if ForHypotheses(a) {
      OnlyHypotheses(h, a);
      ok := s.ChangeHypotheses(a);
    } else if ForPlan(a) {
      OnlyPlan(h, a);
      ok := s.ChangePlan(a);
    } else {
      OnlyRest(h, a);
      ok := s.ChangeRest(a);
    }
  }

  // ----- The stored log -----

  /** The session shares its hypotheses with a stored replacement that has spare room left. */
  datatype Sharing = Sharing(entry: nat, spare: nat)

  /** What the first n slots of a shared slice hold in the end: changes in place show through
      until the session's list is replaced, or grows beyond the spare room and moves. */
  ghost function Lent(n: nat, spare: nat, h: Held, later: seq<Action>): (r: seq<Hypothesis>)
    requires WellHeld(h) && n <= |h.s.hypotheses|
    ensures |r| == n
    decreases |later|
  {
    if later == [] || later[0].ReplaceHypotheses? || (later[0].CreateHypothesis? && spare == 0) then h.s.hypotheses[..n]
    else Lent(n, if later[0].CreateHypothesis? then spare - 1 else spare, After(h, later[0]), later[1..])
  }

  ghost function StoredFirst(h: Held, acts: seq<Action>): Action
    requires WellHeld(h) && acts != []
  {
    match acts[0]
    case ReplaceHypotheses(hs, spare) => ReplaceHypotheses(Lent(|hs|, spare, After(h, acts[0]), acts[1..]), spare)
    case a => a
  }

  /** The log of the applied actions acts as it stands at the end. */
  ghost function Stored(h: Held, acts: seq<Action>): (r: seq<Action>)
    requires WellHeld(h)
    ensures |r| == |acts|
    decreases |acts|
  {
    if acts == [] then [] else [StoredFirst(h, acts)] + Stored(After(h, acts[0]), acts[1..])
  }

  ghost predicate ShareOk(log: seq<Action>, share: Option<Sharing>, h: Held) {
    share.Some? ==>
      && share.value.entry < |log|
      && var a := log[share.value.entry];
         a.ReplaceHypotheses? && a.hypotheses <= h.s.hypotheses
  }

  ghost function Patched(log: seq<Action>, share: Option<Sharing>, h: Held, later: seq<Action>): seq<Action>
    requires WellHeld(h) && ShareOk(log, share, h)
  {
    if share.None? then log
    else
      var a := log[share.value.entry];
      log[share.value.entry := ReplaceHypotheses(Lent(|a.hypotheses|, share.value.spare, h, later), a.spare)]
  }

  function NextShare(length: nat, share: Option<Sharing>, a: Action): Option<Sharing> {
    match a
    case ReplaceHypotheses(_, spare) => Some(Sharing(length, spare))
    case CreateHypothesis(_) =>
      if share.None? || share.value.spare == 0 then None else Some(Sharing(share.value.entry, share.value.spare - 1))
    case _ => share
  }

  /** Writes the session's hypotheses through to the entry that shares them. */
  function Through(log: seq<Action>, share: Option<Sharing>, hs: seq<Hypothesis>): (r: seq<Action>)
    requires share.Some? ==> share.value.entry < |log| && log[share.value.entry].ReplaceHypotheses?
    requires share.Some? ==> |log[share.value.entry].hypotheses| <= |hs|
  {
    if share.None? then log
    else
      var a := log[share.value.entry];
      log[share.value.entry := ReplaceHypotheses(hs[..|a.hypotheses|], a.spare)]
  }

  function NextLog(log: seq<Action>, share: Option<Sharing>, hs: seq<Hypothesis>, a: Action): (r: seq<Action>)
    requires share.Some? ==> share.value.entry < |log| && log[share.value.entry].ReplaceHypotheses?
    requires share.Some? && !a.ReplaceHypotheses? ==> |log[share.value.entry].hypotheses| <= |hs|
  {
    (if a.ReplaceHypotheses? then log else Through(log, share, hs)) + [a]
  }

  lemma LengthKept(h: Held, a: Action)
    requires WellHeld(h) && !a.ReplaceHypotheses?
    ensures |After(h, a).s.hypotheses| >= |h.s.hypotheses|
    ensures a.CreateHypothesis? ==> h.s.hypotheses <= After(h, a).s.hypotheses
  {
  }

  ghost predicate StepAgrees(log: seq<Action>, share: Option<Sharing>, h: Held, a: Action, later: seq<Action>)
    requires WellHeld(h) && ShareOk(log, share, h)
    requires !a.ReplaceHypotheses? ==> |After(h, a).s.hypotheses| >= |h.s.hypotheses|
  {
    var (l, s) := (NextLog(log, share, After(h, a).s.hypotheses, a), NextShare(|log|, share, a));
    && ShareOk(l, s, After(h, a))
    && Patched(l, s, After(h, a), later) == Patched(log, share, h, [a] + later) + [StoredFirst(h, [a] + later)]
  }

  lemma StepReplace(log: seq<Action>, share: Option<Sharing>, h: Held, a: Action, later: seq<Action>)
    requires WellHeld(h) && ShareOk(log, share, h) && a.ReplaceHypotheses?
    ensures StepAgrees(log, share, h, a, later)
  {
    assert ([a] + later)[1..] == later;
    assert After(h, a).s.hypotheses == a.hypotheses;
    if share.Some? {
      var e := log[share.value.entry];
      assert e.hypotheses == h.s.hypotheses[..|e.hypotheses|];
      assert log[share.value.entry := e] == log;
    }
    var r := ReplaceHypotheses(Lent(|a.hypotheses|, a.spare, After(h, a), later), a.spare);
    assert (log + [a])[|log| := r] == log + [r];
  }

  lemma StepOther(log: seq<Action>, share: Option<Sharing>, h: Held, a: Action, later: seq<Action>)
    requires WellHeld(h) && ShareOk(log, share, h) && !a.ReplaceHypotheses?
    requires |After(h, a).s.hypotheses| >= |h.s.hypotheses|
    requires a.CreateHypothesis? ==> h.s.hypotheses <= After(h, a).s.hypotheses
    ensures StepAgrees(log, share, h, a, later)
  {
    assert ([a] + later)[1..] == later;
    if share.Some? {
      var i, hs := share.value.entry, After(h, a).s.hypotheses;
      var n, spare := |log[i].hypotheses|, log[i].spare;
      assert log[i].hypotheses == h.s.hypotheses[..n];
      var t := ReplaceHypotheses(hs[..n], spare);
      assert (log[i := t] + [a])[..|log|] == log[i := t];
      if a.CreateHypothesis? && share.value.spare == 0 {
        assert hs[..n] == h.s.hypotheses[..n];
        assert log[i := t] == log;
      } else {
        var sp := if a.CreateHypothesis? then share.value.spare - 1 else share.value.spare;
        var r := ReplaceHypotheses(Lent(n, sp, After(h, a), later), spare);
        assert (log[i := t] + [a])[i := r] == log[i := r] + [a];
      }
    }
  }

  lemma LogStep(log: seq<Action>, share: Option<Sharing>, h: Held, a: Action, later: seq<Action>)
    requires WellHeld(h) && ShareOk(log, share, h)
    ensures !a.ReplaceHypotheses? ==> |After(h, a).s.hypotheses| >= |h.s.hypotheses|
    ensures StepAgrees(log, share, h, a, later)
  {
    if a.ReplaceHypotheses? {
      StepReplace(log, share, h, a, later);
    } else {
      LengthKept(h, a);
      StepOther(log, share, h, a, later);
    }
  }

  method Offer(s: LiveSession, g: S.MemoryStore?, a: Action) returns (refusal: Option<Reason>)
    requires g != null ==> S.Valid(g.Value())
    modifies s, g
    ensures Now(s, g) == After(old(Now(s, g)), a)
    ensures refusal == Ruling(old(Now(s, g)), a)
  {
    refusal := Validate(Now(s, g), a);
    if refusal.Some? {
      return;
    }
    var ok := ApplyOne(s, g, a);
    if !ok {
      refusal := Some(NoEffect);
    }
  }

  /** What is left of the run from h with the log so far, when the whole run gives result. */
  ghost predicate Rest(start: Held, result: Result, h: Held, acts: seq<Action>,
                       log: seq<Action>, share: Option<Sharing>, applied: seq<Action>, refused: seq<Refusal>)
    requires WellHeld(start) && WellHeld(h)
  {
    var rest := Run(h, acts);
    && ShareOk(log, share, h)
    && result == Result(rest.held, applied + rest.applied, refused + rest.refused)
    && Patched(log, share, h, rest.applied) + Stored(h, rest.applied) == Stored(start, result.applied)
  }

  lemma RestRefused(start: Held, result: Result, h: Held, acts: seq<Action>,
                    log: seq<Action>, share: Option<Sharing>, applied: seq<Action>, refused: seq<Refusal>)
    requires WellHeld(start) && WellHeld(h) && acts != [] && Ruling(h, acts[0]).Some?
    requires Rest(start, result, h, acts, log, share, applied, refused)
    ensures Rest(start, result, After(h, acts[0]), acts[1..], log, share, applied,
                 refused + [Refusal(acts[0], Ruling(h, acts[0]).value)])
  {
    RejectedHarmless(h, acts[0]);
    var rest, r := Run(h, acts[1..]), Refusal(acts[0], Ruling(h, acts[0]).value);
    assert refused + ([r] + rest.refused) == (refused + [r]) + rest.refused;
  }

  lemma RestApplied(start: Held, result: Result, h: Held, acts: seq<Action>,
                    log: seq<Action>, share: Option<Sharing>, applied: seq<Action>, refused: seq<Refusal>)
    requires WellHeld(start) && WellHeld(h) && acts != [] && Ruling(h, acts[0]).None?
    requires Rest(start, result, h, acts, log, share, applied, refused)
    ensures !acts[0].ReplaceHypotheses? ==> |After(h, acts[0]).s.hypotheses| >= |h.s.hypotheses|
    ensures Rest(start, result, After(h, acts[0]), acts[1..],
                 NextLog(log, share, After(h, acts[0]).s.hypotheses, acts[0]),
                 NextShare(|log|, share, acts[0]), applied + [acts[0]], refused)
  {
    var a, rest := acts[0], Run(After(h, acts[0]), acts[1..]);
    LogStep(log, share, h, a, rest.applied);
    assert applied + ([a] + rest.applied) == (applied + [a]) + rest.applied;
    assert ([a] + rest.applied)[1..] == rest.applied;
  }

  lemma RestDone(start: Held, result: Result, h: Held, acts: seq<Action>,
                 log: seq<Action>, share: Option<Sharing>, applied: seq<Action>, refused: seq<Refusal>)
    requires WellHeld(start) && WellHeld(h) && acts == []
    requires Rest(start, result, h, acts, log, share, applied, refused)
    ensures result == Result(h, applied, refused) && log == Stored(start, applied)
  {
    assert applied + [] == applied && refused + [] == refused;
    if share.Some? {
      var e := log[share.value.entry];
      assert e.hypotheses == h.s.hypotheses[..|e.hypotheses|];
      assert log[share.value.entry := e] == log;
    }
    assert Patched(log, share, h, []) == log;
    assert log + [] == log;
  }

  lemma RestStarts(h: Held, acts: seq<Action>)
    requires WellHeld(h)
    ensures Rest(h, Run(h, acts), h, acts, [], None, [], [])
  {
    var r := Run(h, acts);
    assert [] + r.applied == r.applied && [] + r.refused == r.refused;
    assert [] + Stored(h, r.applied) == Stored(h, r.applied);
  }

  method Apply(s: LiveSession, g: S.MemoryStore?, actions: seq<Action>)
    returns (log: seq<Action>, refused: seq<Refusal>, ghost applied: seq<Action>)
    requires g != null ==> S.Valid(g.Value())
    modifies s, g
    ensures Result(Now(s, g), applied, refused) == Run(old(Now(s, g)), actions)
    ensures log == Stored(old(Now(s, g)), applied)
  {
    log, refused, applied := [], [], [];
    var share: Option<Sharing> := None;
    ghost var start, whole := Now(s, g), Run(Now(s, g), actions);
    assert actions[0..] == actions;
    RestStarts(start, actions);
    for i := 0 to |actions|
      invariant WellHeld(Now(s, g))
      invariant Rest(start, whole, Now(s, g), actions[i..], log, share, applied, refused)
    {
      var a := actions[i];
      assert actions[i..][0] == a && actions[i..][1..] == actions[i + 1..];
      if Ruling(Now(s, g), a).Some? {
        RestRefused(start, whole, Now(s, g), actions[i..], log, share, applied, refused);
      } else {
        RestApplied(start, whole, Now(s, g), actions[i..], log, share, applied, refused);
      }
      var refusal := Offer(s, g, a);
      if refusal.Some? {
        refused := refused + [Refusal(a, refusal.value)];
      } else {
        log, share := NextLog(log, share, s.hypotheses, a), NextShare(|log|, share, a);
        applied := applied + [a];
      }
    }
    RestDone(start, whole, Now(s, g), actions[|actions|..], log, share, applied, refused);
  }
}
