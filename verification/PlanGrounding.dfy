/** When every dependency of a question is in the plan at all, so that its edge in the session's
    graph has both ends. */
module PlanGrounding {
  import opened Protocol
  import opened PlanRuns
  import opened Fixpoint
  import opened PlanOrder
  import W = Walks

  /** Every dependency is in the plan, at whatever place. */
  ghost predicate Grounded(qs: seq<Question>) {
    forall q, d :: q in qs && d in q.dependsOn ==> d in IdSet(qs)
  }

  /** Question i is generated by g and depends on d, and confirming g alone never asks d. */
  predicate Bare(pb: Playbook, g: string, i: nat, d: string)
    requires i < |pb|
  {
    && pb[i].id in ParentGenerates(pb, g) && pb[i].id != g && d in pb[i].dependsOn
    && d != g && !FollowsAlone(pb, g, d)
    && !exists pq | pq in pb :: pq.id == d && d in ParentGenerates(pb, g)
  }

  ghost predicate GroundSafe(pb: Playbook) {
    forall g, i, d :: 0 <= i < |pb| && Bare(pb, g, i, d) ==>
      exists ids :: Shielded(pb, {pb[i].id, d}, ids) && g !in ids
  }

  /** The same questions as far as ids and dependencies go. */
  ghost predicate FromBook(pb: Playbook, qs: seq<Question>) {
    forall q :: q in qs ==> exists i :: 0 <= i < |pb| && pb[i].id == q.id && pb[i].dependsOn == q.dependsOn
  }

  lemma ExtendFromBook(pb: Playbook, w: World, qs: seq<Question>)
    requires FromBook(pb, qs)
    ensures FromBook(pb, Extend(pb, w, qs))
  {
    ExtendGrows(pb, w, qs);
    var rs := Extend(pb, w, qs);
    forall q | q in rs ensures exists i :: 0 <= i < |pb| && pb[i].id == q.id && pb[i].dependsOn == q.dependsOn {
      var k :| 0 <= k < |rs| && rs[k] == q;
      if k < |qs| {
        assert qs[k] in qs;
      } else {
        assert IsFresh(pb, _ => true, rs[k]);
        var pq :| pq in pb && q == ToQuestion(pq);
        var i :| 0 <= i < |pb| && pb[i] == pq;
      }
    }
  }

  lemma SameAskedFromBook(pb: Playbook, qs: seq<Question>, rs: seq<Question>)
    requires FromBook(pb, qs) && SameAsked(qs, rs) && |rs| == |qs|
    ensures FromBook(pb, rs)
  {
    forall q | q in rs ensures exists i :: 0 <= i < |pb| && pb[i].id == q.id && pb[i].dependsOn == q.dependsOn {
      var k :| 0 <= k < |rs| && rs[k] == q;
      assert qs[k] in qs;
    }
  }

  lemma {:induction false} BookSteps(pb: Playbook, es: seq<Event>)
    ensures FromBook(pb, Steps(pb, EmptyPlan, es).questions)
  {
    if es != [] {
      var mid := Steps(pb, EmptyPlan, es[..|es| - 1]);
      BookSteps(pb, es[..|es| - 1]);
      match es[|es| - 1] {
        case RunEvent(w) =>
          var asked := Extend(pb, w, mid.questions);
          ExtendFromBook(pb, w, mid.questions);
          ResolveSameAsked(asked, w);
          SameAskedFromBook(pb, asked, ResolveAll(asked, w));
          ExtendFromBook(pb, w, ResolveAll(asked, w));
        case OperatorEvent(id, confirmed) =>
          if ForcePlan(mid, id, confirmed).Some? {
            ForceExtends(mid, id, confirmed);
            SameAskedFromBook(pb, mid.questions, ForcePlan(mid, id, confirmed).value.questions);
          }
      }
    }
  }

  /** What the round adds brings its dependencies along. */
  lemma AddedGrounded(pb: Playbook, ids: set<string>, k: set<string>, triggers: set<string>, i: nat, d: string)
    requires GroundSafe(pb) && Sheltered(pb, ids) && k <= ids
    requires i < |pb| && pb[i].id !in ids && Called(pb, k, triggers, pb[i]) && d in pb[i].dependsOn
    ensures d in ids + Calls(pb, k, triggers)
  {
    if g :| g in k && pb[i].id in ParentGenerates(pb, g) {
      if FollowsAlone(pb, g, d) {
        var s :| s in pb && s.id == d && s.trigger == "" && forall e | e in s.dependsOn :: e == g;
        assert Called(pb, k, triggers, s);
      } else if pq :| pq in pb && pq.id == d && d in ParentGenerates(pb, g) {
        assert Called(pb, k, triggers, pq);
      } else if d != g {
        assert Bare(pb, g, i, d);
      }
    }
  }

  lemma ExtendGrounded(pb: Playbook, w: World, p: Plan)
    requires GroundSafe(pb) && PlanInv(p)
    requires FromBook(pb, p.questions) && Sheltered(pb, IdSet(p.questions)) && Grounded(p.questions)
    ensures Grounded(Extend(pb, w, p.questions))
  {
    var qs, rs := p.questions, Extend(pb, w, p.questions);
    ExtendGrows(pb, w, qs);
    GrownIds(qs, rs);
    forall q, d | q in rs && d in q.dependsOn ensures d in IdSet(rs) {
      var n :| 0 <= n < |rs| && rs[n] == q;
      if n < |qs| {
        assert qs[n] in qs;
      } else {
        NewGrounded(pb, w, p, n, d);
      }
    }
  }

  lemma NewGrounded(pb: Playbook, w: World, p: Plan, n: nat, d: string)
    requires GroundSafe(pb) && PlanInv(p) && Sheltered(pb, IdSet(p.questions))
    requires |p.questions| <= n < |Extend(pb, w, p.questions)| && d in Extend(pb, w, p.questions)[n].dependsOn
    ensures d in IdSet(Extend(pb, w, p.questions))
  {
    var qs, rs := p.questions, Extend(pb, w, p.questions);
    var k, triggers := AnsweredIds(qs), Fired(pb, w);
    ExtendAdds(pb, w, p);
    ExtendGrows(pb, w, qs);
    AnsweredAreAsked(qs);
    LaterNew(qs, rs, n);
    var pq := ExtendNew(pb, w, p, n);
    var i :| 0 <= i < |pb| && pb[i] == pq;
    AddedGrounded(pb, IdSet(qs), k, triggers, i, d);
  }

  ghost predicate IsChild(pb: Playbook, parents: seq<Question>, x: Question) {
    exists q, pq ::
      q in parents && q.IsConfirmed() && pq in pb && pq.id in ParentGenerates(pb, q.id) && x == ToQuestion(pq)
  }

  lemma {:induction false} ChildrenNew(pb: Playbook, parents: seq<Question>, qs: seq<Question>)
    ensures var r := GenerateChildren(pb, parents, qs);
            qs <= r && forall n :: |qs| <= n < |r| ==> IsChild(pb, parents, r[n])
  {
    if parents != [] {
      var m := |parents| - 1;
      var mid, r, q := GenerateChildren(pb, parents[..m], qs), GenerateChildren(pb, parents, qs), parents[m];
      ChildrenNew(pb, parents[..m], qs);
      assert forall p :: p in parents <==> p in parents[..m] || p == q;
      if q.IsConfirmed() {
        var gens := ParentGenerates(pb, q.id);
        AppendAllMeaning(pb, (pq: PlaybookQuestion) => pq.id in gens, mid);
      }
      forall n | |qs| <= n < |r| ensures IsChild(pb, parents, r[n]) {
        if n < |mid| {
          assert r[n] == mid[n] && IsChild(pb, parents[..m], mid[n]);
        } else {
          var gens := ParentGenerates(pb, q.id);
          assert IsFresh(pb, (pq: PlaybookQuestion) => pq.id in gens, r[n]);
        }
      }
    }
  }

  lemma ParentsGrow(pb: Playbook, w: World, qs: seq<Question>)
    ensures var a := EnsureQuestions(pb, qs); Grows(pb, qs, a) && Grows(pb, qs, TriggerQuestions(pb, w, a))
  {
    var a := EnsureQuestions(pb, qs);
    AppendAllGrows(pb, pq => Static(AnsweredIds(qs), pq), qs);
    AppendAllGrows(pb, pq => Dynamic(AnsweredIds(a), w, pq), a);
    GrowsTrans(pb, qs, a, TriggerQuestions(pb, w, a));
  }

  /** A new question is one that the round calls for. */
  lemma ExtendNew(pb: Playbook, w: World, p: Plan, n: nat) returns (pq: PlaybookQuestion)
    requires PlanInv(p) && |p.questions| <= n < |Extend(pb, w, p.questions)|
    ensures pq in pb && Extend(pb, w, p.questions)[n] == ToQuestion(pq)
    ensures Called(pb, AnsweredIds(p.questions), Fired(pb, w), pq)
  {
    var qs := p.questions;
    var a := EnsureQuestions(pb, qs);
    var t := TriggerQuestions(pb, w, a);
    AppendAllMeaning(pb, pq => Static(AnsweredIds(qs), pq), qs);
    AppendAllMeaning(pb, pq => Dynamic(AnsweredIds(a), w, pq), a);
    ChildrenNew(pb, t, t);
    ParentsGrow(pb, w, qs);
    var x := Extend(pb, w, qs)[n];
    if n < |a| {
      assert x == a[n] && IsFresh(pb, pq => Static(AnsweredIds(qs), pq), a[n]);
      pq :| pq in pb && Static(AnsweredIds(qs), pq) && x == ToQuestion(pq);
    } else if n < |t| {
      assert x == t[n] && IsFresh(pb, pq => Dynamic(AnsweredIds(a), w, pq), t[n]);
      pq :| pq in pb && Dynamic(AnsweredIds(a), w, pq) && x == ToQuestion(pq);
    } else {
      assert IsChild(pb, t, x);
      var q, c :| q in t && q.IsConfirmed() && c in pb && c.id in ParentGenerates(pb, q.id) && x == ToQuestion(c);
      pq := c;
      ConfirmedParents(pb, qs, t);
      AnsweredConfirmed(p, q);
      assert q.id in AnsweredIds(qs);
    }
  }

  lemma LaterNew(qs: seq<Question>, rs: seq<Question>, n: nat)
    requires qs <= rs && DistinctIds(rs) && |qs| <= n < |rs|
    ensures rs[n].id !in IdSet(qs) && rs[n].id in IdSet(rs)
  {
    forall q | q in qs ensures q.id != rs[n].id {
      var j :| 0 <= j < |qs| && qs[j] == q;
      assert rs[j] == q;
    }
    assert rs[n] in rs;
  }

  lemma SameAskedGrounded(qs: seq<Question>, rs: seq<Question>)
    requires Grounded(qs) && SameAsked(qs, rs) && |rs| == |qs|
    ensures Grounded(rs)
  {
    SameAskedSameIds(qs, rs);
    forall q, d | q in rs && d in q.dependsOn ensures d in IdSet(rs) {
      var k :| 0 <= k < |rs| && rs[k] == q;
      assert qs[k] in qs;
    }
  }

  lemma RunGrounded(pb: Playbook, w: World, p: Plan)
    requires GroundSafe(pb) && PlanInv(p)
    requires FromBook(pb, p.questions) && Sheltered(pb, IdSet(p.questions)) && Grounded(p.questions)
    ensures Grounded(RunPlan(pb, w, p).questions)
  {
    var asked := Extend(pb, w, p.questions);
    var mid := Plan(ResolveAll(asked, w), p.history + NewResolutions(asked, w));
    ExtendGrounded(pb, w, p);
    ExtendFromBook(pb, w, p.questions);
    ExtendSheltered(pb, w, p);
    ExtendKeepsInv(pb, w, p);
    ResolveKeepsInv(Plan(asked, p.history), w);
    ResolveSameAsked(asked, w);
    SameAskedGrounded(asked, mid.questions);
    SameAskedFromBook(pb, asked, mid.questions);
    SameAskedSameIds(asked, mid.questions);
    ExtendGrounded(pb, w, mid);
  }

  lemma {:induction false} StepsGrounded(pb: Playbook, es: seq<Event>)
    requires GroundSafe(pb)
    ensures Grounded(Steps(pb, EmptyPlan, es).questions)
  {
    if es != [] {
      var mid := Steps(pb, EmptyPlan, es[..|es| - 1]);
      StepsGrounded(pb, es[..|es| - 1]);
      BookSteps(pb, es[..|es| - 1]);
      StepsSheltered(pb, es[..|es| - 1]);
      StepsKeepInv(pb, EmptyPlan, es[..|es| - 1]);
      match es[|es| - 1] {
        case RunEvent(w) => RunGrounded(pb, w, mid);
        case OperatorEvent(id, confirmed) =>
          if ForcePlan(mid, id, confirmed).Some? {
            ForceExtends(mid, id, confirmed);
            SameAskedGrounded(mid.questions, ForcePlan(mid, id, confirmed).value.questions);
          }
      }
    }
  }

  /** Confirming the generator asks a bare question and not its dependency. */
  lemma BareBreaks(pb: Playbook, es: seq<Event>, g: string, i: nat, d: string) returns (gs: seq<Event>)
    requires DistinctPlaybook(pb) && i < |pb| && Bare(pb, g, i, d)
    requires var ids := IdSet(Steps(pb, EmptyPlan, es).questions); g in ids && pb[i].id !in ids && d !in ids
    ensures !Grounded(Steps(pb, EmptyPlan, gs).questions)
  {
    var hs := Confirm(pb, es, {g});
    var mid := Steps(pb, EmptyPlan, hs);
    StepsKeepInv(pb, EmptyPlan, hs);
    gs := hs + [RunEvent(Firing({}))];
    assert gs[..|gs| - 1] == hs;
    RoundAdds(pb, mid, {g}, {});
    BareAdded(pb, g, i, d);
    var end := Steps(pb, EmptyPlan, gs);
    BookSteps(pb, gs);
    var q :| q in end.questions && q.id == pb[i].id;
    var j :| 0 <= j < |pb| && pb[j].id == q.id && pb[j].dependsOn == q.dependsOn;
    SamePlaybookQuestion(pb, pb[j], pb[i]);
    assert d in q.dependsOn && d !in IdSet(end.questions);
  }

  lemma BareAdded(pb: Playbook, g: string, i: nat, d: string)
    requires i < |pb| && Bare(pb, g, i, d)
    ensures pb[i].id in Calls(pb, {g}, {}) && d !in Calls(pb, {g}, {})
  {
    assert Called(pb, {g}, {}, pb[i]);
  }

  ghost predicate ReachableGrounded(pb: Playbook) {
    forall es :: Grounded(Steps(pb, EmptyPlan, es).questions)
  }

  /** Every plan that a session can reach holds all dependencies of its questions exactly when the
      playbook lets no bare question's generator be asked first. */
  lemma GroundedExactly(pb: Playbook)
    requires DistinctPlaybook(pb)
    ensures ReachableGrounded(pb) <==> GroundSafe(pb)
  {
    if GroundSafe(pb) {
      forall es ensures Grounded(Steps(pb, EmptyPlan, es).questions) { StepsGrounded(pb, es); }
    } else {
      var g, i, d :| 0 <= i < |pb| && Bare(pb, g, i, d)
                     && forall ids :: Shielded(pb, {pb[i].id, d}, ids) ==> g in ids;
      assert IdSet(Steps(pb, EmptyPlan, []).questions) == {};
      var es := Saturate(pb, {pb[i].id, d}, []);
      var gs := BareBreaks(pb, es, g, i, d);
    }
  }

  // ----- Dependencies that form no cycle -----

  /** The dependencies of a plan's questions. */
  function DepArcs(qs: seq<Question>): W.Arcs<string> { set q, d | q in qs && d in q.dependsOn :: (d, q.id) }

  /** Those of the playbook's questions among ids. */
  function BookArcs(pb: Playbook, ids: set<string>): W.Arcs<string> {
    set pq, d | pq in pb && pq.id in ids && d in pq.dependsOn :: (d, pq.id)
  }

  /** The questions that can be asked at all have no cycle of dependencies. */
  ghost predicate CycleSafe(pb: Playbook) { exists ids :: Shielded(pb, {}, ids) && W.Acyclic(BookArcs(pb, ids)) }

  lemma DepsOfBook(pb: Playbook, qs: seq<Question>, ids: set<string>)
    requires FromBook(pb, qs) && IdSet(qs) <= ids
    ensures DepArcs(qs) <= BookArcs(pb, ids)
  {
    forall u, v | (u, v) in DepArcs(qs) ensures (u, v) in BookArcs(pb, ids) {
      var q :| q in qs && u in q.dependsOn && v == q.id;
      var i :| 0 <= i < |pb| && pb[i].id == q.id && pb[i].dependsOn == q.dependsOn;
      assert pb[i] in pb && q.id in IdSet(qs);
    }
  }

  lemma StepsAcyclic(pb: Playbook, es: seq<Event>)
    requires CycleSafe(pb)
    ensures W.Acyclic(DepArcs(Steps(pb, EmptyPlan, es).questions))
  {
    var qs := Steps(pb, EmptyPlan, es).questions;
    var ids :| Shielded(pb, {}, ids) && W.Acyclic(BookArcs(pb, ids));
    StepsSheltered(pb, es);
    BookSteps(pb, es);
    DepsOfBook(pb, qs, ids);
    W.FewerArcsAcyclic(DepArcs(qs), BookArcs(pb, ids));
  }

  lemma BookOfDeps(pb: Playbook, qs: seq<Question>)
    requires DistinctPlaybook(pb) && FromBook(pb, qs)
    ensures BookArcs(pb, IdSet(qs)) <= DepArcs(qs)
  {
    forall u, v | (u, v) in BookArcs(pb, IdSet(qs)) ensures (u, v) in DepArcs(qs) {
      var pq :| pq in pb && pq.id in IdSet(qs) && u in pq.dependsOn && v == pq.id;
      var q :| q in qs && q.id == pq.id;
      var i :| 0 <= i < |pb| && pb[i].id == q.id && pb[i].dependsOn == q.dependsOn;
      SamePlaybookQuestion(pb, pb[i], pq);
    }
  }

  ghost predicate ReachableAcyclic(pb: Playbook) {
    forall es :: W.Acyclic(DepArcs(Steps(pb, EmptyPlan, es).questions))
  }

  /** No plan that a session can reach has a cycle of dependencies exactly when the questions that
      can be asked at all have none. */
  lemma AcyclicExactly(pb: Playbook)
    requires DistinctPlaybook(pb)
    ensures ReachableAcyclic(pb) <==> CycleSafe(pb)
  {
    if CycleSafe(pb) {
      forall es ensures W.Acyclic(DepArcs(Steps(pb, EmptyPlan, es).questions)) { StepsAcyclic(pb, es); }
    }
    if ReachableAcyclic(pb) {
      var es := Saturate(pb, {}, []);
      var qs := Steps(pb, EmptyPlan, es).questions;
      BookSteps(pb, es);
      BookOfDeps(pb, qs);
      W.FewerArcsAcyclic(BookArcs(pb, IdSet(qs)), DepArcs(qs));
    }
  }

  // ----- Dependencies at earlier places -----

  /** Later questions get lower numbers. */
  function Ranks(qs: seq<Question>): map<string, int> {
    if qs == [] then map[] else Ranks(qs[..|qs| - 1])[qs[|qs| - 1].id := -|qs|]
  }

  lemma {:induction false} RankAt(qs: seq<Question>, i: nat)
    requires DistinctIds(qs) && i < |qs|
    ensures qs[i].id in Ranks(qs) && Ranks(qs)[qs[i].id] == -(i + 1)
  {
    if i < |qs| - 1 { RankAt(qs[..|qs| - 1], i); }
  }

  lemma EarlierRanked(qs: seq<Question>, i: nat, d: string)
    requires DistinctIds(qs) && DepsEarlier(qs) && i < |qs| && d in qs[i].dependsOn
    ensures d in Ranks(qs) && qs[i].id in Ranks(qs) && Ranks(qs)[qs[i].id] < Ranks(qs)[d]
  {
    RankAt(qs, i);
    assert d in IdSet(qs[..i]);
    var q :| q in qs[..i] && q.id == d;
    var j :| 0 <= j < i && qs[j] == q;
    RankAt(qs, j);
  }

  /** Then there is no cycle and nothing is missing. */
  lemma EarlierIsSafe(qs: seq<Question>)
    requires DistinctIds(qs) && DepsEarlier(qs)
    ensures W.Acyclic(DepArcs(qs)) && Grounded(qs)
  {
    var arcs, rank := DepArcs(qs), Ranks(qs);
    forall u, v {:trigger (u, v) in arcs} | (u, v) in arcs ensures u in rank && v in rank && rank[v] < rank[u] {
      var q :| q in qs && u in q.dependsOn && v == q.id;
      var i :| 0 <= i < |qs| && qs[i] == q;
      EarlierRanked(qs, i, u);
    }
    forall a, b ensures !W.OnCycle(arcs, a, b) {
      if W.OnCycle(arcs, a, b) {
        assert (a, b) in arcs;
        W.FallingRankMeansNoCycle(arcs, rank, a, b);
      }
    }
    forall q, d | q in qs && d in q.dependsOn ensures d in IdSet(qs) {
      var i :| 0 <= i < |qs| && qs[i] == q;
      assert d in IdSet(qs[..i]);
    }
  }

  // ----- Playbooks whose graphs pass -----

  ghost predicate GraphSafe(pb: Playbook) { GroundSafe(pb) && CycleSafe(pb) }

  /** Playbooks that keep dependencies at earlier places are among them. */
  lemma OrderIsSafe(pb: Playbook)
    requires DistinctPlaybook(pb) && ReachSafe(pb)
    ensures GraphSafe(pb)
  {
    forall es
      ensures Grounded(Steps(pb, EmptyPlan, es).questions)
      ensures W.Acyclic(DepArcs(Steps(pb, EmptyPlan, es).questions))
    {
      ReachablePlans(pb, es);
      EarlierIsSafe(Steps(pb, EmptyPlan, es).questions);
    }
    GroundedExactly(pb);
    AcyclicExactly(pb);
  }
}
