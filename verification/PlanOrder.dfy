/** When every dependency of a question sits at an earlier place of the plan. Generated questions
    skip the dependency test, so this is a matter of the playbook: of which ones exactly, for one
    run on any plan and for all that a session can reach. */
module PlanOrder {
  import opened Wrappers
  import opened Protocol
  import opened PlanRuns
  import opened Fixpoint

  /** A run that finds g confirmed asks d before it comes to generated questions. */
  predicate FollowsAlone(pb: Playbook, g: string, d: string) {
    exists s | s in pb :: s.id == d && s.trigger == "" && forall e | e in s.dependsOn :: e == g
  }

  /** Question i is generated by g and depends on d, and none of g being d, g alone calling for d,
      and d being generated ahead of it makes sure that d is asked first. */
  predicate Exposed(pb: Playbook, g: string, i: nat, d: string)
    requires i < |pb|
  {
    && pb[i].id in ParentGenerates(pb, g) && pb[i].id != g && d in pb[i].dependsOn
    && d != g && !FollowsAlone(pb, g, d)
    && forall j | 0 <= j < i :: !(pb[j].id == d && d in ParentGenerates(pb, g))
  }

  ghost predicate OrderSafe(pb: Playbook) {
    forall g, i, d :: 0 <= i < |pb| ==> !Exposed(pb, g, i, d)
  }

  /** Wherever a generator of an exposed question is asked, that question or its dependency is. */
  ghost predicate Guarded(pb: Playbook, ids: set<string>) {
    forall g, i, d :: 0 <= i < |pb| && Exposed(pb, g, i, d) && g in ids ==> pb[i].id in ids || d in ids
  }

  // ----- One round of asking -----

  ghost predicate ReadyFor(pb: Playbook, ids: set<string>, g: string) {
    && g in ids
    && (forall d :: FollowsAlone(pb, g, d) ==> d in ids)
    && (forall i, d :: 0 <= i < |pb| && Exposed(pb, g, i, d) ==> pb[i].id in ids || d in ids)
  }

  lemma {:induction false} SiblingsEarlier(pb: Playbook, k: nat, g: string, eligible: PlaybookQuestion -> bool,
                                           qs: seq<Question>)
    requires k <= |pb| && DepsEarlier(qs) && ReadyFor(pb, IdSet(qs), g)
    requires forall pq :: eligible(pq) <==> pq.id in ParentGenerates(pb, g)
    requires forall j :: 0 <= j < k && eligible(pb[j]) ==> pb[j].id in IdSet(qs)
    ensures DepsEarlier(AppendAll(pb[k..], eligible, qs))
    decreases |pb| - k
  {
    if k < |pb| {
      assert pb[k..][0] == pb[k] && pb[k..][1..] == pb[k + 1..];
      if eligible(pb[k]) && pb[k].id !in IdSet(qs) {
        SnocEarlier(pb, k, g, qs);
        IdSetSnoc(qs, ToQuestion(pb[k]));
        SiblingsEarlier(pb, k + 1, g, eligible, qs + [ToQuestion(pb[k])]);
      } else {
        SiblingsEarlier(pb, k + 1, g, eligible, qs);
      }
    }
  }

  lemma SnocEarlier(pb: Playbook, k: nat, g: string, qs: seq<Question>)
    requires k < |pb| && DepsEarlier(qs) && ReadyFor(pb, IdSet(qs), g)
    requires pb[k].id in ParentGenerates(pb, g) && pb[k].id !in IdSet(qs)
    requires forall j :: 0 <= j < k && pb[j].id in ParentGenerates(pb, g) ==> pb[j].id in IdSet(qs)
    ensures DepsEarlier(qs + [ToQuestion(pb[k])])
  {
    forall d | d in pb[k].dependsOn ensures d in IdSet(qs) {
      if d != g && !FollowsAlone(pb, g, d) && d !in IdSet(qs) { assert Exposed(pb, g, k, d); }
    }
    var next := qs + [ToQuestion(pb[k])];
    forall i, d | 0 <= i < |next| && d in next[i].dependsOn ensures d in IdSet(next[..i]) {
      assert next[..i] == qs[..i];
      assert i == |qs| ==> qs[..i] == qs;
    }
  }

  lemma ReadyGrows(pb: Playbook, ids: set<string>, more: set<string>, g: string)
    requires ReadyFor(pb, ids, g) && ids <= more
    ensures ReadyFor(pb, more, g)
  {
  }

  lemma {:induction false} ChildrenEarlier(pb: Playbook, parents: seq<Question>, qs: seq<Question>)
    requires DepsEarlier(qs) && forall q :: q in parents && q.IsConfirmed() ==> ReadyFor(pb, IdSet(qs), q.id)
    ensures DepsEarlier(GenerateChildren(pb, parents, qs))
  {
    if parents != [] {
      var n := |parents| - 1;
      var mid := GenerateChildren(pb, parents[..n], qs);
      ChildrenEarlier(pb, parents[..n], qs);
      ChildrenGrow(pb, parents[..n], qs);
      GrownIds(qs, mid);
      assert parents[n] in parents;
      if parents[n].IsConfirmed() {
        var g := parents[n].id;
        var gens := ParentGenerates(pb, g);
        ReadyGrows(pb, IdSet(qs), IdSet(mid), g);
        SiblingsEarlier(pb, 0, g, (pq: PlaybookQuestion) => pq.id in gens, mid);
        assert pb[0..] == pb;
      }
    }
  }

  /** In the lists that the first two passes make, what each confirmed question alone calls for
      has been asked. */
  lemma ReadyParent(pb: Playbook, qs: seq<Question>, t: seq<Question>, q: Question)
    requires Grows(pb, EnsureQuestions(pb, qs), t) && Guarded(pb, IdSet(qs))
    requires q in qs && q.status == Answered
    ensures ReadyFor(pb, IdSet(t), q.id)
  {
    var a := EnsureQuestions(pb, qs);
    AppendAllIds(pb, pq => Static(AnsweredIds(qs), pq), qs);
    GrownIds(a, t);
    assert q.id in AnsweredIds(qs) && q.id in IdSet(qs);
    forall d | FollowsAlone(pb, q.id, d) ensures d in IdSet(t) {
      var s :| s in pb && s.id == d && s.trigger == "" && forall e | e in s.dependsOn :: e == q.id;
      assert Static(AnsweredIds(qs), s);
    }
  }

  lemma AnsweredConfirmed(p: Plan, q: Question)
    requires HistoryAgrees(p) && q in p.questions
    ensures q.IsConfirmed() <==> q.status == Answered
  {
  }

  /** A round of asking on a guarded plan keeps dependencies at earlier places. */
  lemma ExtendEarlier(pb: Playbook, w: World, p: Plan)
    requires HistoryAgrees(p) && DepsEarlier(p.questions) && Guarded(pb, IdSet(p.questions))
    ensures DepsEarlier(Extend(pb, w, p.questions))
  {
    var qs := p.questions;
    var a := EnsureQuestions(pb, qs);
    var t := TriggerQuestions(pb, w, a);
    AnsweredAreAsked(qs);
    AppendAllEarlier(pb, pq => Static(AnsweredIds(qs), pq), qs);
    AppendAllGrows(pb, pq => Static(AnsweredIds(qs), pq), qs);
    AnsweredAreAsked(a);
    AppendAllEarlier(pb, pq => Dynamic(AnsweredIds(a), w, pq), a);
    AppendAllGrows(pb, pq => Dynamic(AnsweredIds(a), w, pq), a);
    GrowsTrans(pb, qs, a, t);
    ConfirmedParents(pb, qs, t);
    forall q | q in t && q.IsConfirmed() ensures ReadyFor(pb, IdSet(t), q.id) {
      AnsweredConfirmed(p, q);
      ReadyParent(pb, qs, t, q);
    }
    ChildrenEarlier(pb, t, t);
  }

  lemma RunKeepsOrder(pb: Playbook, w: World, p: Plan)
    requires PlanInv(p) && DepsEarlier(p.questions)
    requires Guarded(pb, IdSet(p.questions)) && Guarded(pb, IdSet(Extend(pb, w, p.questions)))
    ensures DepsEarlier(RunPlan(pb, w, p).questions)
  {
    var asked := Extend(pb, w, p.questions);
    ExtendEarlier(pb, w, p);
    ExtendKeepsInv(pb, w, p);
    ResolveKeepsInv(Plan(asked, p.history), w);
    ResolveAllAt(asked, w);
    SameAskedEarlier(asked, ResolveAll(asked, w));
    ResolveIds(asked, w);
    ExtendEarlier(pb, w, Plan(ResolveAll(asked, w), p.history + NewResolutions(asked, w)));
  }

  // ----- A run that breaks the order -----

  /** Exactly the questions of k are confirmed, and no other is answered. */
  ghost predicate ConfirmedAre(qs: seq<Question>, k: set<string>) {
    && k <= IdSet(qs)
    && forall q :: q in qs ==> (q.IsConfirmed() <==> q.id in k) && (q.status == Answered <==> q.id in k)
  }

  /** These triggers fire and nothing is decided. */
  function Firing(triggers: set<string>): World { World({}, t => t in triggers, (id: string) => Inconclusive) }

  lemma {:induction false} AppendAllConcat(u: Playbook, v: Playbook, eligible: PlaybookQuestion -> bool,
                                           qs: seq<Question>)
    ensures AppendAll(u + v, eligible, qs) == AppendAll(v, eligible, AppendAll(u, eligible, qs))
    decreases |u|
  {
    if u == [] {
      assert u + v == v;
    } else {
      assert (u + v)[1..] == u[1..] + v;
      var next := if eligible(u[0]) && u[0].id !in IdSet(qs) then qs + [ToQuestion(u[0])] else qs;
      AppendAllConcat(u[1..], v, eligible, next);
    }
  }

  /** Question i of the playbook is appended where those before it have been. */
  lemma AppendsAt(pb: Playbook, i: nat, eligible: PlaybookQuestion -> bool, qs: seq<Question>)
    requires i < |pb| && eligible(pb[i]) && pb[i].id !in IdSet(AppendAll(pb[..i], eligible, qs))
    ensures AppendAll(pb[..i], eligible, qs) + [ToQuestion(pb[i])] <= AppendAll(pb, eligible, qs)
  {
    assert pb == pb[..i] + pb[i..];
    AppendAllConcat(pb[..i], pb[i..], eligible, qs);
    var mid := AppendAll(pb[..i], eligible, qs);
    assert pb[i..][0] == pb[i];
    AppendAllMeaning(pb[i..][1..], eligible, mid + [ToQuestion(pb[i])]);
  }

  lemma {:induction false} NoParents(pb: Playbook, parents: seq<Question>, qs: seq<Question>)
    requires forall q :: q in parents ==> !q.IsConfirmed()
    ensures GenerateChildren(pb, parents, qs) == qs
  {
    if parents != [] {
      assert parents[|parents| - 1] in parents;
      NoParents(pb, parents[..|parents| - 1], qs);
    }
  }

  lemma {:induction false} FirstParent(pb: Playbook, parents: seq<Question>, k: nat, qs: seq<Question>)
    requires k < |parents| && forall j :: 0 <= j < k ==> !parents[j].IsConfirmed()
    ensures ChildrenOf(pb, parents[k], qs) <= GenerateChildren(pb, parents, qs)
  {
    var n := |parents| - 1;
    if n == k {
      NoParents(pb, parents[..n], qs);
    } else {
      FirstParent(pb, parents[..n], k, qs);
      var mid, gens := GenerateChildren(pb, parents[..n], qs), ParentGenerates(pb, parents[n].id);
      AppendAllMeaning(pb, (pq: PlaybookQuestion) => pq.id in gens, mid);
    }
  }

  lemma BrokenAt(qs: seq<Question>, u: seq<Question>, q: Question, d: string)
    requires u + [q] <= qs && d in q.dependsOn && d !in IdSet(u)
    ensures !DepsEarlier(qs)
  {
    assert qs[|u|] == q && qs[..|u|] == u;
  }

  lemma StaysBroken(qs: seq<Question>, rs: seq<Question>)
    requires SameAsked(qs, rs) && !DepsEarlier(qs)
    ensures !DepsEarlier(rs)
  {
    var i, d :| 0 <= i < |qs| && d in qs[i].dependsOn && d !in IdSet(qs[..i]);
    SameAskedIds(qs, rs, i);
  }

  lemma AskedKept(pb: Playbook, w: World, p: Plan)
    ensures SameAsked(Extend(pb, w, p.questions), RunPlan(pb, w, p).questions)
  {
    var asked := Extend(pb, w, p.questions);
    ResolveSameAsked(asked, w);
    ExtendGrows(pb, w, ResolveAll(asked, w));
  }

  /** What g alone calls for, in a plan where g alone is confirmed and no trigger fires. */
  lemma QuietPasses(pb: Playbook, qs: seq<Question>, g: string) returns (a: seq<Question>)
    requires ConfirmedAre(qs, {g}) && DistinctIds(qs)
    ensures Extend(pb, Firing({}), qs) == GenerateChildren(pb, a, a) && Grows(pb, qs, a) && DistinctIds(a)
    ensures forall id :: id in IdSet(a) <==> id in IdSet(qs) || FollowsAlone(pb, g, id)
  {
    a := EnsureQuestions(pb, qs);
    var t := TriggerQuestions(pb, Firing({}), a);
    assert AnsweredIds(qs) == {g};
    AppendAllIds(pb, pq => Static(AnsweredIds(qs), pq), qs);
    AppendAllGrows(pb, pq => Static(AnsweredIds(qs), pq), qs);
    AppendNone(pb, pq => Dynamic(AnsweredIds(a), Firing({}), pq), a);
    assert t == a;
    forall id ensures id in IdSet(a) <==> id in IdSet(qs) || FollowsAlone(pb, g, id) {
      if pq :| pq in pb && Static(AnsweredIds(qs), pq) && pq.id == id { assert FollowsAlone(pb, g, id); }
      if FollowsAlone(pb, g, id) {
        var s :| s in pb && s.id == id && s.trigger == "" && forall e | e in s.dependsOn :: e == g;
        assert Static(AnsweredIds(qs), s);
      }
    }
  }

  lemma {:induction false} AppendNone(pb: Playbook, eligible: PlaybookQuestion -> bool, qs: seq<Question>)
    requires forall pq :: !eligible(pq)
    ensures AppendAll(pb, eligible, qs) == qs
    decreases |pb|
  {
    if pb != [] { AppendNone(pb[1..], eligible, qs); }
  }

  lemma AsksBare(pb: Playbook, a: seq<Question>, q: Question, i: nat, d: string) returns (mid: seq<Question>)
    requires DistinctPlaybook(pb) && i < |pb| && Exposed(pb, q.id, i, d) && q.IsConfirmed()
    requires pb[i].id !in IdSet(a) && d !in IdSet(a)
    ensures mid + [ToQuestion(pb[i])] <= ChildrenOf(pb, q, a) && d !in IdSet(mid)
  {
    var gens := ParentGenerates(pb, q.id);
    var eligible := (pq: PlaybookQuestion) => pq.id in gens;
    AppendAllIds(pb[..i], eligible, a);
    mid := AppendAll(pb[..i], eligible, a);
    AppendsAt(pb, i, eligible, a);
  }

  /** With g alone confirmed, an exposed question is asked without its dependency. */
  lemma ExposedBreaks(pb: Playbook, p: Plan, g: string, i: nat, d: string)
    requires DistinctPlaybook(pb) && i < |pb| && Exposed(pb, g, i, d)
    requires DistinctIds(p.questions) && ConfirmedAre(p.questions, {g})
    requires pb[i].id !in IdSet(p.questions) && d !in IdSet(p.questions)
    ensures !DepsEarlier(RunPlan(pb, Firing({}), p).questions)
  {
    var qs, c := p.questions, pb[i];
    var a := QuietPasses(pb, qs, g);
    var q: Question :| q in qs && q.id == g;
    var k :| 0 <= k < |qs| && qs[k] == q;
    assert a[k] == q && q.IsConfirmed();
    forall j | 0 <= j < k ensures !a[j].IsConfirmed() { assert a[j] == qs[j] && qs[j] in qs && qs[j].id != g; }
    FirstParent(pb, a, k, a);
    NotAlone(pb, g, i, d);
    var mid := AsksBare(pb, a, q, i, d);
    BrokenAt(Extend(pb, Firing({}), qs), mid, ToQuestion(c), d);
    AskedKept(pb, Firing({}), p);
    StaysBroken(Extend(pb, Firing({}), qs), RunPlan(pb, Firing({}), p).questions);
  }

  lemma NotAlone(pb: Playbook, g: string, i: nat, d: string)
    requires DistinctPlaybook(pb) && i < |pb| && d in pb[i].dependsOn && d != g
    ensures !FollowsAlone(pb, g, pb[i].id)
  {
  }

  // ----- Any plan -----

  /** g alone, answered and confirmed. */
  function Lone(g: string): Plan {
    var r := Resolution(g, Outcome.Confirmed, 91.0);
    Plan([Question(g, 0, Answered, 91.0, [], [], Some(r))], [r])
  }

  lemma LoneInv(g: string)
    ensures PlanInv(Lone(g)) && DepsEarlier(Lone(g).questions) && ConfirmedAre(Lone(g).questions, {g})
    ensures IdSet(Lone(g).questions) == {g}
  {
    var q := Lone(g).questions[0];
    assert Lone(g).questions == [q] && q in [q];
    assert IdSet([q]) == {g};
  }

  ghost predicate RunsKeepOrder(pb: Playbook) {
    forall w, p :: PlanInv(p) && DepsEarlier(p.questions) ==> DepsEarlier(RunPlan(pb, w, p).questions)
  }

  /** Every run on every plan keeps dependencies at earlier places exactly when the playbook has no
      exposed question. */
  lemma OrderExactly(pb: Playbook)
    requires DistinctPlaybook(pb)
    ensures RunsKeepOrder(pb) <==> OrderSafe(pb)
  {
    if OrderSafe(pb) {
      forall w, p | PlanInv(p) && DepsEarlier(p.questions) ensures DepsEarlier(RunPlan(pb, w, p).questions) {
        RunKeepsOrder(pb, w, p);
      }
    } else {
      var g, i, d :| 0 <= i < |pb| && Exposed(pb, g, i, d);
      LoneInv(g);
      ExposedBreaks(pb, Lone(g), g, i, d);
    }
  }

  // ----- Reachable plans -----

  /** What a round of asking calls for when exactly k are confirmed and these triggers fire. */
  ghost predicate Called(pb: Playbook, k: set<string>, triggers: set<string>, pq: PlaybookQuestion) {
    || ((pq.trigger == "" || pq.trigger in triggers) && forall d :: d in pq.dependsOn ==> d in k)
    || exists g :: g in k && pq.id in ParentGenerates(pb, g)
  }

  ghost function Calls(pb: Playbook, k: set<string>, triggers: set<string>): set<string> {
    set pq | pq in pb && Called(pb, k, triggers, pq) :: pq.id
  }

  /** No round that starts within ids and calls for none of avoid leaves ids. */
  ghost predicate Shielded(pb: Playbook, avoid: set<string>, ids: set<string>) {
    forall k, triggers :: k <= ids && Calls(pb, k, triggers) !! avoid ==> Calls(pb, k, triggers) <= ids
  }

  /** No generator of an exposed question can be asked by rounds that avoid both the question and
      its dependency. A playbook without exposed questions is such a one. */
  ghost predicate ReachSafe(pb: Playbook) {
    forall g, i, d :: 0 <= i < |pb| && Exposed(pb, g, i, d) ==>
      exists ids :: Shielded(pb, {pb[i].id, d}, ids) && g !in ids
  }

  ghost predicate Sheltered(pb: Playbook, ids: set<string>) {
    forall avoid, shield :: Shielded(pb, avoid, shield) ==> ids <= shield || !(avoid !! ids)
  }

  lemma ShelteredGuards(pb: Playbook, ids: set<string>)
    requires ReachSafe(pb) && Sheltered(pb, ids)
    ensures Guarded(pb, ids)
  {
  }

  /** The triggers of the playbook that fire. */
  function Fired(pb: Playbook, w: World): set<string> {
    set pq | pq in pb && pq.trigger != "" && w.triggers(pq.trigger) :: pq.trigger
  }

  lemma ExtendAdds(pb: Playbook, w: World, p: Plan)
    requires PlanInv(p)
    ensures IdSet(Extend(pb, w, p.questions)) ==
      IdSet(p.questions) + Calls(pb, AnsweredIds(p.questions), Fired(pb, w))
  {
    var qs := p.questions;
    var k, triggers := AnsweredIds(qs), Fired(pb, w);
    forall id ensures id in IdSet(Extend(pb, w, qs)) <==> id in IdSet(qs) + Calls(pb, k, triggers) {
      ExtendIds(pb, w, qs, id);
      forall pq | pq in pb ensures Eligible(pb, w, qs, pq) <==> Called(pb, k, triggers, pq) {
        CalledExactly(pb, w, p, pq);
      }
    }
  }

  lemma CalledExactly(pb: Playbook, w: World, p: Plan, pq: PlaybookQuestion)
    requires PlanInv(p) && pq in pb
    ensures Eligible(pb, w, p.questions, pq) <==> Called(pb, AnsweredIds(p.questions), Fired(pb, w), pq)
  {
    var qs, k := p.questions, AnsweredIds(p.questions);
    if g :| g in k && pq.id in ParentGenerates(pb, g) {
      var q :| q in qs && q.status == Answered && q.id == g;
      AnsweredConfirmed(p, q);
    }
    if q :| q in qs && q.IsConfirmed() && pq.id in ParentGenerates(pb, q.id) {
      AnsweredConfirmed(p, q);
      assert q.id in k;
    }
  }

  lemma ExtendSheltered(pb: Playbook, w: World, p: Plan)
    requires PlanInv(p) && Sheltered(pb, IdSet(p.questions))
    ensures Sheltered(pb, IdSet(Extend(pb, w, p.questions)))
  {
    ExtendAdds(pb, w, p);
    AnsweredAreAsked(p.questions);
    var k, triggers := AnsweredIds(p.questions), Fired(pb, w);
    forall avoid, shield | Shielded(pb, avoid, shield)
      ensures var ids := IdSet(Extend(pb, w, p.questions)); ids <= shield || !(avoid !! ids) {
      if IdSet(p.questions) <= shield { assert k <= shield; }
    }
  }

  lemma RunSheltered(pb: Playbook, w: World, p: Plan)
    requires PlanInv(p) && Sheltered(pb, IdSet(p.questions))
    ensures Sheltered(pb, IdSet(Extend(pb, w, p.questions))) && Sheltered(pb, IdSet(RunPlan(pb, w, p).questions))
  {
    var asked := Extend(pb, w, p.questions);
    ExtendSheltered(pb, w, p);
    ExtendKeepsInv(pb, w, p);
    ResolveKeepsInv(Plan(asked, p.history), w);
    ResolveIds(asked, w);
    ExtendSheltered(pb, w, Plan(ResolveAll(asked, w), p.history + NewResolutions(asked, w)));
  }

  lemma SameAskedSameIds(qs: seq<Question>, rs: seq<Question>)
    requires SameAsked(qs, rs) && |qs| == |rs|
    ensures IdSet(qs) == IdSet(rs)
  {
    SameAskedIds(qs, rs, |qs|);
    assert qs[..|qs|] == qs && rs[..|rs|] == rs;
  }

  lemma {:induction false} StepsSheltered(pb: Playbook, es: seq<Event>)
    ensures Sheltered(pb, IdSet(Steps(pb, EmptyPlan, es).questions))
  {
    if es == [] {
      assert IdSet([]) == {};
    } else {
      var mid := Steps(pb, EmptyPlan, es[..|es| - 1]);
      StepsSheltered(pb, es[..|es| - 1]);
      StepsKeepInv(pb, EmptyPlan, es[..|es| - 1]);
      match es[|es| - 1] {
        case RunEvent(w) => RunSheltered(pb, w, mid);
        case OperatorEvent(id, confirmed) =>
          if ForcePlan(mid, id, confirmed).Some? {
            ForceExtends(mid, id, confirmed);
            SameAskedSameIds(mid.questions, ForcePlan(mid, id, confirmed).value.questions);
          }
      }
    }
  }

  /** Every dependency sits at an earlier place over every interleaving of runs and operator
      resolutions. */
  lemma {:induction false} StepsKeepOrder(pb: Playbook, es: seq<Event>)
    requires ReachSafe(pb)
    ensures DepsEarlier(Steps(pb, EmptyPlan, es).questions)
  {
    if es != [] {
      var mid := Steps(pb, EmptyPlan, es[..|es| - 1]);
      StepsKeepOrder(pb, es[..|es| - 1]);
      StepsSheltered(pb, es[..|es| - 1]);
      StepsKeepInv(pb, EmptyPlan, es[..|es| - 1]);
      match es[|es| - 1] {
        case RunEvent(w) =>
          RunSheltered(pb, w, mid);
          ShelteredGuards(pb, IdSet(mid.questions));
          ShelteredGuards(pb, IdSet(Extend(pb, w, mid.questions)));
          RunKeepsOrder(pb, w, mid);
        case OperatorEvent(id, confirmed) =>
          if ForcePlan(mid, id, confirmed).Some? {
            ForceExtends(mid, id, confirmed);
            SameAskedEarlier(mid.questions, ForcePlan(mid, id, confirmed).value.questions);
          }
      }
    }
  }

  /** Every plan that a session can reach. */
  lemma ReachablePlans(pb: Playbook, es: seq<Event>)
    ensures PlanInv(Steps(pb, EmptyPlan, es))
    ensures ReachSafe(pb) ==> DepsEarlier(Steps(pb, EmptyPlan, es).questions)
  {
    StepsKeepInv(pb, EmptyPlan, es);
    if ReachSafe(pb) { StepsKeepOrder(pb, es); }
  }

  // ----- Reaching a break -----

  /** The operator confirms exactly the questions of k among the first n and rejects the others. */
  lemma {:induction false} ConfirmFirst(pb: Playbook, es: seq<Event>, k: set<string>, n: nat) returns (gs: seq<Event>)
    requires n <= |Steps(pb, EmptyPlan, es).questions|
    ensures var qs, rs := Steps(pb, EmptyPlan, es).questions, Steps(pb, EmptyPlan, gs).questions;
            && SameAsked(qs, rs) && |rs| == |qs|
            && ResolvedAs(rs, k, n)
    decreases n
  {
    if n == 0 {
      gs := es;
    } else {
      var hs := ConfirmFirst(pb, es, k, n - 1);
      var mid := Steps(pb, EmptyPlan, hs);
      StepsKeepInv(pb, EmptyPlan, hs);
      var id := mid.questions[n - 1].id;
      gs := hs + [OperatorEvent(id, id in k)];
      assert gs[..|gs| - 1] == hs;
      ForceNext(Steps(pb, EmptyPlan, es).questions, mid, k, n - 1);
    }
  }

  /** The first n are resolved as k says. */
  ghost predicate ResolvedAs(qs: seq<Question>, k: set<string>, n: nat)
    requires n <= |qs|
  {
    forall i :: 0 <= i < n ==> !qs[i].Open() && (qs[i].IsConfirmed() <==> qs[i].id in k)
  }

  lemma ForceNext(qs: seq<Question>, p: Plan, k: set<string>, n: nat)
    requires PlanInv(p) && SameAsked(qs, p.questions) && |p.questions| == |qs| && n < |qs|
    requires ResolvedAs(p.questions, k, n)
    ensures var id := p.questions[n].id;
            var r := ForcePlan(p, id, id in k);
            && r.Some? && SameAsked(qs, r.value.questions) && |r.value.questions| == |qs|
            && ResolvedAs(r.value.questions, k, n + 1)
  {
    var id := p.questions[n].id;
    ForceAt(p, n, id in k);
    ForceExtends(p, id, id in k);
  }

  lemma ForceAt(p: Plan, i: nat, confirmed: bool)
    requires PlanInv(p) && i < |p.questions|
    ensures var r := ForcePlan(p, p.questions[i].id, confirmed);
            && r.Some? && |r.value.questions| == |p.questions|
            && !r.value.questions[i].Open() && (r.value.questions[i].IsConfirmed() <==> confirmed)
            && forall j :: 0 <= j < |p.questions| && j != i ==> r.value.questions[j] == p.questions[j]
  {
    FindIndex(p.questions, p.questions[i].id);
  }

  lemma Confirm(pb: Playbook, es: seq<Event>, k: set<string>) returns (gs: seq<Event>)
    requires k <= IdSet(Steps(pb, EmptyPlan, es).questions)
    ensures ConfirmedAre(Steps(pb, EmptyPlan, gs).questions, k)
    ensures IdSet(Steps(pb, EmptyPlan, gs).questions) == IdSet(Steps(pb, EmptyPlan, es).questions)
  {
    gs := ConfirmFirst(pb, es, k, |Steps(pb, EmptyPlan, es).questions|);
    var p := Steps(pb, EmptyPlan, gs);
    StepsKeepInv(pb, EmptyPlan, gs);
    SameAskedSameIds(Steps(pb, EmptyPlan, es).questions, p.questions);
    forall q | q in p.questions ensures (q.IsConfirmed() <==> q.id in k) && (q.status == Answered <==> q.id in k) {
      AnsweredConfirmed(p, q);
    }
  }

  /** Without a decision no answer is added. */
  lemma QuietResolve(p: Plan, triggers: set<string>)
    requires PlanInv(p)
    ensures AnsweredIds(ResolveAll(p.questions, Firing(triggers))) == AnsweredIds(p.questions)
  {
    var qs, w := p.questions, Firing(triggers);
    var rs := ResolveAll(qs, w);
    ResolveAllAt(qs, w);
    forall i | 0 <= i < |qs| ensures rs[i].status == Answered <==> qs[i].status == Answered {
      assert rs[i] == ResolveOne(qs[i], w);
    }
    forall id ensures id in AnsweredIds(rs) <==> id in AnsweredIds(qs) {
      if id in AnsweredIds(rs) {
        var i :| 0 <= i < |rs| && rs[i].status == Answered && rs[i].id == id;
        assert qs[i] in qs;
      }
      if id in AnsweredIds(qs) {
        var i :| 0 <= i < |qs| && qs[i].status == Answered && qs[i].id == id;
        assert rs[i] in rs;
      }
    }
  }

  lemma FiredExactly(pb: Playbook, k: set<string>, triggers: set<string>)
    ensures Calls(pb, k, Fired(pb, Firing(triggers))) == Calls(pb, k, triggers)
  {
    forall pq | pq in pb
      ensures Called(pb, k, Fired(pb, Firing(triggers)), pq) <==> Called(pb, k, triggers, pq) {
    }
  }

  /** A run that decides nothing is one round. */
  lemma RoundAdds(pb: Playbook, p: Plan, k: set<string>, triggers: set<string>)
    requires PlanInv(p) && ConfirmedAre(p.questions, k)
    ensures IdSet(RunPlan(pb, Firing(triggers), p).questions) == IdSet(p.questions) + Calls(pb, k, triggers)
  {
    var w := Firing(triggers);
    var asked := Extend(pb, w, p.questions);
    assert AnsweredIds(p.questions) == k by { Answers(p.questions, k); }
    ExtendAdds(pb, w, p);
    ExtendGrows(pb, w, p.questions);
    ExtendKeepsInv(pb, w, p);
    ResolveKeepsInv(Plan(asked, p.history), w);
    QuietResolve(Plan(asked, p.history), triggers);
    ResolveIds(asked, w);
    ExtendAdds(pb, w, Plan(ResolveAll(asked, w), p.history + NewResolutions(asked, w)));
    FiredExactly(pb, k, triggers);
  }

  lemma Answers(qs: seq<Question>, k: set<string>)
    requires ConfirmedAre(qs, k)
    ensures AnsweredIds(qs) == k
  {
    forall id | id in k ensures id in AnsweredIds(qs) {
      var q :| q in qs && q.id == id;
    }
  }

  function PlaybookIds(pb: Playbook): set<string> { set pq | pq in pb :: pq.id }

  /** Rounds that call for none of avoid, until there are no more of them to make. */
  lemma {:induction false} Saturate(pb: Playbook, avoid: set<string>, es: seq<Event>) returns (gs: seq<Event>)
    requires avoid !! IdSet(Steps(pb, EmptyPlan, es).questions)
    ensures var ids := IdSet(Steps(pb, EmptyPlan, gs).questions); avoid !! ids && Shielded(pb, avoid, ids)
    decreases PlaybookIds(pb) - IdSet(Steps(pb, EmptyPlan, es).questions)
  {
    var ids := IdSet(Steps(pb, EmptyPlan, es).questions);
    if Shielded(pb, avoid, ids) {
      gs := es;
    } else {
      var k, triggers :| k <= ids && Calls(pb, k, triggers) !! avoid && !(Calls(pb, k, triggers) <= ids);
      var hs := Confirm(pb, es, k);
      StepsKeepInv(pb, EmptyPlan, hs);
      RoundAdds(pb, Steps(pb, EmptyPlan, hs), k, triggers);
      var fs := hs + [RunEvent(Firing(triggers))];
      assert fs[..|fs| - 1] == hs;
      var id :| id in Calls(pb, k, triggers) && id !in ids;
      assert id in PlaybookIds(pb) - ids;
      gs := Saturate(pb, avoid, fs);
    }
  }

  /** From a plan that asks the generator but neither the exposed question nor its dependency, the
      operator and one run break the order. */
  lemma ReachBreak(pb: Playbook, es: seq<Event>, g: string, i: nat, d: string) returns (gs: seq<Event>)
    requires DistinctPlaybook(pb) && i < |pb| && Exposed(pb, g, i, d)
    requires var ids := IdSet(Steps(pb, EmptyPlan, es).questions); g in ids && pb[i].id !in ids && d !in ids
    ensures !DepsEarlier(Steps(pb, EmptyPlan, gs).questions)
  {
    var hs := Confirm(pb, es, {g});
    StepsKeepInv(pb, EmptyPlan, hs);
    ExposedBreaks(pb, Steps(pb, EmptyPlan, hs), g, i, d);
    gs := hs + [RunEvent(Firing({}))];
    assert gs[..|gs| - 1] == hs;
  }

  ghost predicate ReachableInOrder(pb: Playbook) {
    forall es :: DepsEarlier(Steps(pb, EmptyPlan, es).questions)
  }

  /** In every plan that a session can reach dependencies sit at earlier places exactly when the
      playbook lets no exposed question's generator be asked first. */
  lemma ReachableOrderExactly(pb: Playbook)
    requires DistinctPlaybook(pb)
    ensures ReachableInOrder(pb) <==> ReachSafe(pb)
  {
    if ReachSafe(pb) {
      forall es ensures DepsEarlier(Steps(pb, EmptyPlan, es).questions) { StepsKeepOrder(pb, es); }
    } else {
      var g, i, d :| 0 <= i < |pb| && Exposed(pb, g, i, d)
                     && forall ids :: Shielded(pb, {pb[i].id, d}, ids) ==> g in ids;
      assert IdSet(Steps(pb, EmptyPlan, []).questions) == {};
      var es := Saturate(pb, {pb[i].id, d}, []);
      var gs := ReachBreak(pb, es, g, i, d);
    }
  }
}
