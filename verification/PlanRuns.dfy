/** What holds of a plan after any interleaving of protocol runs and operator resolutions,
    whatever evidence and signals each run sees. */
module PlanRuns {
  import opened Wrappers
  import opened Protocol

  ghost predicate DistinctIds(qs: seq<Question>) {
    forall i, j :: 0 <= i < j < |qs| ==> qs[i].id != qs[j].id
  }

  /** Every dependency of a question is an earlier question. */
  ghost predicate DepsEarlier(qs: seq<Question>) {
    forall i, d :: 0 <= i < |qs| && d in qs[i].dependsOn ==> d in IdSet(qs[..i])
  }

  /** The same questions asked, in the same order: only status and resolution may differ. */
  ghost predicate SameAsked(qs: seq<Question>, rs: seq<Question>) {
    && |qs| <= |rs|
    && forall i :: 0 <= i < |qs| ==>
         rs[i].id == qs[i].id && rs[i].dependsOn == qs[i].dependsOn && rs[i].required == qs[i].required
  }

  function LastEntry(h: seq<Resolution>, id: string): Option<Resolution> {
    if h == [] then None
    else if h[|h| - 1].questionId == id then Some(h[|h| - 1])
    else LastEntry(h[..|h| - 1], id)
  }

  /** An open question has no resolution; a resolved one carries a resolution of itself
      that agrees with its status. */
  ghost predicate StatusAgrees(q: Question) {
    match q.resolution
    case None => q.Open()
    case Some(r) => r.questionId == q.id && q.status == Closing(r)
  }

  /** A question's resolution is the last entry of the history about it. */
  ghost predicate HistoryAgrees(p: Plan) {
    forall q :: q in p.questions ==> StatusAgrees(q) && LastEntry(p.history, q.id) == q.resolution
  }

  ghost predicate HistoryAsked(p: Plan) {
    forall r :: r in p.history ==> r.questionId in IdSet(p.questions)
  }

  /** What every playbook keeps. */
  ghost predicate PlanInv(p: Plan) {
    DistinctIds(p.questions) && HistoryAgrees(p) && HistoryAsked(p)
  }

  // ----- Appending -----

  lemma IdSetSnoc(qs: seq<Question>, q: Question)
    ensures IdSet(qs + [q]) == IdSet(qs) + {q.id}
    ensures AnsweredIds(qs + [q]) == AnsweredIds(qs) + if q.status == Answered then {q.id} else {}
  {
    assert forall x :: x in qs + [q] <==> x in qs || x == q;
  }

  ghost predicate IsFresh(pb: Playbook, eligible: PlaybookQuestion -> bool, q: Question) {
    exists pq :: pq in pb && eligible(pq) && q == ToQuestion(pq)
  }

  /** What one pass appends, and that it changes nothing else. */
  lemma {:induction false} AppendAllMeaning(pb: Playbook, eligible: PlaybookQuestion -> bool, qs: seq<Question>)
    ensures var r := AppendAll(pb, eligible, qs);
            && qs <= r
            && (forall i :: |qs| <= i < |r| ==> IsFresh(pb, eligible, r[i]))
            && (DistinctIds(qs) ==> DistinctIds(r))
            && AnsweredIds(r) == AnsweredIds(qs)
    decreases |pb|
  {
    if pb != [] {
      var next := if eligible(pb[0]) && pb[0].id !in IdSet(qs) then qs + [ToQuestion(pb[0])] else qs;
      AppendAllMeaning(pb[1..], eligible, next);
      IdSetSnoc(qs, ToQuestion(pb[0]));
      var r := AppendAll(pb, eligible, qs);
      assert pb[0] in pb && forall pq :: pq in pb[1..] ==> pq in pb;
      forall i | |qs| <= i < |r| ensures IsFresh(pb, eligible, r[i]) {
        if i >= |next| {
          assert IsFresh(pb[1..], eligible, r[i]);
        } else {
          assert r[i] == next[i] == ToQuestion(pb[0]);
        }
      }
    }
  }

  lemma {:induction false} AppendAllIds(pb: Playbook, eligible: PlaybookQuestion -> bool, qs: seq<Question>)
    ensures forall id :: id in IdSet(AppendAll(pb, eligible, qs)) <==>
      id in IdSet(qs) || exists pq :: pq in pb && eligible(pq) && pq.id == id
    decreases |pb|
  {
    if pb != [] {
      var next := if eligible(pb[0]) && pb[0].id !in IdSet(qs) then qs + [ToQuestion(pb[0])] else qs;
      AppendAllIds(pb[1..], eligible, next);
      IdSetSnoc(qs, ToQuestion(pb[0]));
      forall id ensures id in IdSet(AppendAll(pb, eligible, qs)) <==>
          id in IdSet(qs) || exists pq :: pq in pb && eligible(pq) && pq.id == id
      {
        if pq :| pq in pb && eligible(pq) && pq.id == id {
          assert pq == pb[0] || pq in pb[1..];
        }
        if eligible(pb[0]) && pb[0].id == id { assert pb[0] in pb; }
      }
    }
  }

  /** Appending questions whose dependencies are already asked keeps dependencies earlier. */
  lemma {:induction false} AppendAllEarlier(pb: Playbook, eligible: PlaybookQuestion -> bool, qs: seq<Question>)
    requires DepsEarlier(qs)
    requires forall pq, d :: pq in pb && eligible(pq) && d in pq.dependsOn ==> d in IdSet(qs)
    ensures DepsEarlier(AppendAll(pb, eligible, qs))
    decreases |pb|
  {
    if pb != [] {
      if eligible(pb[0]) && pb[0].id !in IdSet(qs) {
        var next := qs + [ToQuestion(pb[0])];
        IdSetSnoc(qs, ToQuestion(pb[0]));
        assert pb[0] in pb;
        forall i, d | 0 <= i < |next| && d in next[i].dependsOn ensures d in IdSet(next[..i]) {
          assert next[..i] == qs[..i];
          assert i == |qs| ==> qs[..i] == qs;
        }
        AppendAllEarlier(pb[1..], eligible, next);
      } else {
        AppendAllEarlier(pb[1..], eligible, qs);
      }
    }
  }

  lemma AnsweredAreAsked(qs: seq<Question>)
    ensures AnsweredIds(qs) <= IdSet(qs)
  {
  }

  /** Everything one pass, or a series of passes, may do to the list of questions. */
  ghost predicate Grows(pb: Playbook, qs: seq<Question>, rs: seq<Question>) {
    && qs <= rs
    && (forall i :: |qs| <= i < |rs| ==> IsFresh(pb, _ => true, rs[i]))
    && (DistinctIds(qs) ==> DistinctIds(rs))
    && AnsweredIds(rs) == AnsweredIds(qs)
  }

  lemma AppendAllGrows(pb: Playbook, eligible: PlaybookQuestion -> bool, qs: seq<Question>)
    ensures Grows(pb, qs, AppendAll(pb, eligible, qs))
  {
    AppendAllMeaning(pb, eligible, qs);
    var r := AppendAll(pb, eligible, qs);
    forall i | |qs| <= i < |r| ensures IsFresh(pb, _ => true, r[i]) {
      assert IsFresh(pb, eligible, r[i]);
    }
  }

  lemma GrowsTrans(pb: Playbook, a: seq<Question>, b: seq<Question>, c: seq<Question>)
    requires Grows(pb, a, b) && Grows(pb, b, c)
    ensures Grows(pb, a, c)
  {
    forall i | |a| <= i < |c| ensures IsFresh(pb, _ => true, c[i]) {
      assert i < |b| ==> c[i] == b[i];
    }
  }

  lemma {:induction false} ChildrenGrow(pb: Playbook, parents: seq<Question>, qs: seq<Question>)
    ensures Grows(pb, qs, GenerateChildren(pb, parents, qs))
  {
    if parents != [] {
      var n := |parents| - 1;
      var mid := GenerateChildren(pb, parents[..n], qs);
      ChildrenGrow(pb, parents[..n], qs);
      if parents[n].IsConfirmed() {
        var gens := ParentGenerates(pb, parents[n].id);
        AppendAllGrows(pb, (pq: PlaybookQuestion) => pq.id in gens, mid);
        GrowsTrans(pb, qs, mid, GenerateChildren(pb, parents, qs));
      }
    }
  }

  lemma ExtendGrows(pb: Playbook, w: World, qs: seq<Question>)
    ensures Grows(pb, qs, Extend(pb, w, qs))
  {
    var a := EnsureQuestions(pb, qs);
    var t := TriggerQuestions(pb, w, a);
    AppendAllGrows(pb, pq => Static(AnsweredIds(qs), pq), qs);
    AppendAllGrows(pb, pq => Dynamic(AnsweredIds(a), w, pq), a);
    ChildrenGrow(pb, t, t);
    GrowsTrans(pb, qs, a, t);
    GrowsTrans(pb, qs, t, Extend(pb, w, qs));
  }

  lemma GrownIds(qs: seq<Question>, rs: seq<Question>)
    requires qs <= rs
    ensures IdSet(qs) <= IdSet(rs)
  {
    assert forall q :: q in qs ==> q in rs;
  }

  // ----- Resolving -----

  lemma {:induction false} ResolveAllAt(qs: seq<Question>, w: World)
    ensures |ResolveAll(qs, w)| == |qs|
    ensures forall i :: 0 <= i < |qs| ==> ResolveAll(qs, w)[i] == ResolveOne(qs[i], w)
  {
    if qs != [] { ResolveAllAt(qs[..|qs| - 1], w); }
  }

  lemma SameAskedIds(qs: seq<Question>, rs: seq<Question>, n: nat)
    requires SameAsked(qs, rs) && n <= |qs|
    ensures IdSet(qs[..n]) == IdSet(rs[..n])
  {
    forall id ensures id in IdSet(qs[..n]) <==> id in IdSet(rs[..n]) {
      if id in IdSet(qs[..n]) {
        var i :| 0 <= i < n && qs[i].id == id;
        assert rs[..n][i] in rs[..n];
      }
      if id in IdSet(rs[..n]) {
        var i :| 0 <= i < n && rs[i].id == id;
        assert qs[..n][i] in qs[..n];
      }
    }
  }

  lemma SameAskedEarlier(qs: seq<Question>, rs: seq<Question>)
    requires SameAsked(qs, rs) && |rs| == |qs| && DepsEarlier(qs)
    ensures DepsEarlier(rs)
  {
    forall i, d | 0 <= i < |rs| && d in rs[i].dependsOn ensures d in IdSet(rs[..i]) {
      SameAskedIds(qs, rs, i);
    }
  }

  // ----- History -----

  lemma {:induction false} LastEntryConcat(h: seq<Resolution>, g: seq<Resolution>, id: string)
    ensures LastEntry(h + g, id) == if LastEntry(g, id).Some? then LastEntry(g, id) else LastEntry(h, id)
  {
    if g == [] {
      assert h + g == h;
    } else {
      assert (h + g)[..|h + g| - 1] == h + g[..|g| - 1];
      LastEntryConcat(h, g[..|g| - 1], id);
    }
  }

  lemma {:induction false} NoEntry(h: seq<Resolution>, id: string)
    requires forall r :: r in h ==> r.questionId != id
    ensures LastEntry(h, id) == None
  {
    if h != [] { NoEntry(h[..|h| - 1], id); }
  }

  lemma SingleEntry(q: Question, w: World, id: string)
    ensures LastEntry(NewResolution(q, w), id) ==
            if id == q.id && q.Open() then Resolve(q.id, q.required, w) else None
  {
    var g := NewResolution(q, w);
    assert g != [] ==> g == [g[0]] && g[0].questionId == q.id && g[..|g| - 1] == [];
  }

  lemma NoNewEntry(qs: seq<Question>, w: World, id: string)
    requires forall q :: q in qs ==> q.id != id
    ensures LastEntry(NewResolutions(qs, w), id) == None
  {
    NewIds(qs, w);
    forall r | r in NewResolutions(qs, w) ensures r.questionId != id {
      var q :| q in qs && q.id == r.questionId;
    }
    NoEntry(NewResolutions(qs, w), id);
  }

  /** The entries a run adds: for each question that it resolves exactly one, its resolution. */
  lemma {:induction false} NewEntries(qs: seq<Question>, w: World, i: nat)
    requires DistinctIds(qs) && i < |qs|
    ensures LastEntry(NewResolutions(qs, w), qs[i].id) ==
            if qs[i].Open() then Resolve(qs[i].id, qs[i].required, w) else None
  {
    var n := |qs| - 1;
    LastEntryConcat(NewResolutions(qs[..n], w), NewResolution(qs[n], w), qs[i].id);
    SingleEntry(qs[n], w, qs[i].id);
    if i < n {
      NewEntries(qs[..n], w, i);
    } else {
      NoNewEntry(qs[..n], w, qs[n].id);
    }
  }

  lemma {:induction false} NewIds(qs: seq<Question>, w: World)
    ensures forall r :: r in NewResolutions(qs, w) ==> exists q :: q in qs && q.Open() && q.id == r.questionId
  {
    if qs != [] {
      var n := |qs| - 1;
      NewIds(qs[..n], w);
      assert forall q :: q in qs[..n] ==> q in qs;
      assert qs[n] in qs;
    }
  }

  lemma ResolvedAgrees(q: Question, w: World, h: seq<Resolution>, g: seq<Resolution>)
    requires StatusAgrees(q) && LastEntry(h, q.id) == q.resolution
    requires LastEntry(g, q.id) == if q.Open() then Resolve(q.id, q.required, w) else None
    ensures var r := ResolveOne(q, w); StatusAgrees(r) && LastEntry(h + g, r.id) == r.resolution
  {
    LastEntryConcat(h, g, q.id);
  }

  lemma AgreesAt(p: Plan, w: World, i: nat)
    requires DistinctIds(p.questions) && HistoryAgrees(p) && i < |p.questions|
    ensures var r := ResolveOne(p.questions[i], w);
            StatusAgrees(r) && LastEntry(p.history + NewResolutions(p.questions, w), r.id) == r.resolution
  {
    assert p.questions[i] in p.questions;
    NewEntries(p.questions, w, i);
    ResolvedAgrees(p.questions[i], w, p.history, NewResolutions(p.questions, w));
  }

  lemma ResolveSameAsked(qs: seq<Question>, w: World)
    ensures SameAsked(qs, ResolveAll(qs, w))
  {
    ResolveAllAt(qs, w);
  }

  lemma ResolveAgrees(p: Plan, w: World)
    requires DistinctIds(p.questions) && HistoryAgrees(p)
    ensures HistoryAgrees(Plan(ResolveAll(p.questions, w), p.history + NewResolutions(p.questions, w)))
  {
    var rs := ResolveAll(p.questions, w);
    forall i | 0 <= i < |rs|
      ensures StatusAgrees(rs[i]) && LastEntry(p.history + NewResolutions(p.questions, w), rs[i].id) == rs[i].resolution
    {
      ResolveAllAt(p.questions, w);
      AgreesAt(p, w, i);
    }
  }

  lemma ResolveAsked(p: Plan, w: World)
    requires HistoryAsked(p)
    ensures HistoryAsked(Plan(ResolveAll(p.questions, w), p.history + NewResolutions(p.questions, w)))
  {
    var rs := ResolveAll(p.questions, w);
    ResolveAllAt(p.questions, w);
    SameAskedIds(p.questions, rs, |p.questions|);
    assert p.questions[..|p.questions|] == p.questions && rs[..|rs|] == rs;
    NewIds(p.questions, w);
  }

  lemma GrowAgrees(pb: Playbook, p: Plan, rs: seq<Question>)
    requires DistinctIds(p.questions) && HistoryAgrees(p) && HistoryAsked(p) && Grows(pb, p.questions, rs)
    ensures HistoryAgrees(Plan(rs, p.history)) && HistoryAsked(Plan(rs, p.history))
  {
    GrownIds(p.questions, rs);
    forall q | q in rs ensures StatusAgrees(q) && LastEntry(p.history, q.id) == q.resolution {
      var i :| 0 <= i < |rs| && rs[i] == q;
      if i < |p.questions| {
        assert p.questions[i] in p.questions;
      } else {
        assert IsFresh(pb, _ => true, rs[i]);
        forall r | r in p.history ensures r.questionId != q.id {
          var o :| o in p.questions && o.id == r.questionId;
        }
        NoEntry(p.history, q.id);
      }
    }
  }

  // ----- Whole runs -----

  datatype Event = RunEvent(world: World) | OperatorEvent(id: string, confirmed: bool)

  function Step(pb: Playbook, p: Plan, e: Event): Plan {
    match e
    case RunEvent(w) => RunPlan(pb, w, p)
    case OperatorEvent(id, confirmed) =>
      match ForcePlan(p, id, confirmed)
      case None => p
      case Some(r) => r
  }

  function Steps(pb: Playbook, p: Plan, es: seq<Event>): Plan {
    if es == [] then p else Step(pb, Steps(pb, p, es[..|es| - 1]), es[|es| - 1])
  }

  const EmptyPlan := Plan([], [])

  /** A run leaves resolved questions exactly as they are and only ever appends. */
  lemma RunKeepsResolved(pb: Playbook, w: World, p: Plan)
    ensures SameAsked(p.questions, RunPlan(pb, w, p).questions) && p.history <= RunPlan(pb, w, p).history
    ensures forall i :: 0 <= i < |p.questions| && !p.questions[i].Open() ==>
      RunPlan(pb, w, p).questions[i] == p.questions[i]
  {
    var asked := Extend(pb, w, p.questions);
    var mid := ResolveAll(asked, w);
    assert p.questions <= asked by { ExtendGrows(pb, w, p.questions); }
    assert |mid| == |asked| && forall i :: 0 <= i < |asked| ==> mid[i] == ResolveOne(asked[i], w) by {
      ResolveAllAt(asked, w);
    }
    assert mid <= Extend(pb, w, mid) by { ExtendGrows(pb, w, mid); }
    forall i | 0 <= i < |p.questions| ensures RunPlan(pb, w, p).questions[i] == ResolveOne(p.questions[i], w) {}
  }

  lemma ExtendKeepsInv(pb: Playbook, w: World, p: Plan)
    requires PlanInv(p)
    ensures PlanInv(Plan(Extend(pb, w, p.questions), p.history))
  {
    ExtendGrows(pb, w, p.questions);
    GrowAgrees(pb, p, Extend(pb, w, p.questions));
  }

  lemma ResolveKeepsInv(p: Plan, w: World)
    requires PlanInv(p)
    ensures PlanInv(Plan(ResolveAll(p.questions, w), p.history + NewResolutions(p.questions, w)))
  {
    ResolveSameAsked(p.questions, w);
    ResolveAllAt(p.questions, w);
    ResolveAgrees(p, w);
    ResolveAsked(p, w);
  }

  /** A run keeps ids distinct and the history in step with the statuses, for every playbook. */
  lemma RunKeepsInv(pb: Playbook, w: World, p: Plan)
    requires PlanInv(p)
    ensures PlanInv(RunPlan(pb, w, p))
  {
    var asked := Extend(pb, w, p.questions);
    ExtendKeepsInv(pb, w, p);
    ResolveKeepsInv(Plan(asked, p.history), w);
    ExtendKeepsInv(pb, w, Plan(ResolveAll(asked, w), p.history + NewResolutions(asked, w)));
  }

  /** The operator changes exactly one question and adds exactly one entry, in any plan. */
  lemma ForceExtends(p: Plan, id: string, confirmed: bool)
    requires ForcePlan(p, id, confirmed).Some?
    ensures var r := ForcePlan(p, id, confirmed).value;
            && SameAsked(p.questions, r.questions) && |r.questions| == |p.questions|
            && p.history <= r.history && |r.history| == |p.history| + 1
            && (forall i :: 0 <= i < |r.questions| && p.questions[i].id != id ==> r.questions[i] == p.questions[i])
  {
    FindIndex(p.questions, id);
  }

  lemma ForceKeepsInv(p: Plan, id: string, confirmed: bool)
    requires PlanInv(p) && ForcePlan(p, id, confirmed).Some?
    ensures PlanInv(ForcePlan(p, id, confirmed).value)
  {
    var r := ForcePlan(p, id, confirmed).value;
    FindIndex(p.questions, id);
    var i := IndexOf(p.questions, id).value;
    ForcedIds(p, id, confirmed);
    forall q | q in r.questions ensures StatusAgrees(q) && LastEntry(r.history, q.id) == q.resolution {
      var j :| 0 <= j < |r.questions| && r.questions[j] == q;
      assert r.history[..|p.history|] == p.history;
      assert p.questions[j] in p.questions && (j != i ==> p.questions[j].id != p.questions[i].id);
    }
  }

  lemma ForcedIds(p: Plan, id: string, confirmed: bool)
    requires HistoryAsked(p) && ForcePlan(p, id, confirmed).Some?
    ensures HistoryAsked(ForcePlan(p, id, confirmed).value)
  {
    var r := ForcePlan(p, id, confirmed).value;
    FindIndex(p.questions, id);
    SameAskedIds(p.questions, r.questions, |p.questions|);
    assert p.questions[..|p.questions|] == p.questions && r.questions[..|p.questions|] == r.questions;
    assert p.questions[IndexOf(p.questions, id).value] in p.questions;
  }

  /** For every playbook and every interleaving of runs and operator resolutions: ids stay
      distinct, the history agrees with the statuses, and open questions have no entry. */
  lemma {:induction false} StepsKeepInv(pb: Playbook, p: Plan, es: seq<Event>)
    requires PlanInv(p)
    ensures PlanInv(Steps(pb, p, es))
  {
    if es != [] {
      StepsKeepInv(pb, p, es[..|es| - 1]);
      var mid := Steps(pb, p, es[..|es| - 1]);
      match es[|es| - 1] {
        case RunEvent(w) => RunKeepsInv(pb, w, mid);
        case OperatorEvent(id, confirmed) =>
          if ForcePlan(mid, id, confirmed).Some? { ForceKeepsInv(mid, id, confirmed); }
      }
    }
  }

  /** Later events only extend the list of questions and the history, for every playbook and plan. */
  lemma {:induction false} OnlyExtended(pb: Playbook, p: Plan, es: seq<Event>)
    ensures SameAsked(p.questions, Steps(pb, p, es).questions) && p.history <= Steps(pb, p, es).history
  {
    if es != [] {
      OnlyExtended(pb, p, es[..|es| - 1]);
      var mid := Steps(pb, p, es[..|es| - 1]);
      match es[|es| - 1] {
        case RunEvent(w) => RunKeepsResolved(pb, w, mid);
        case OperatorEvent(id, confirmed) =>
          if ForcePlan(mid, id, confirmed).Some? { ForceExtends(mid, id, confirmed); }
      }
    }
  }
}
