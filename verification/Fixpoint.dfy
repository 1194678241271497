/** Repeated protocol runs: at most twice as many of them as the playbook has questions
    change anything, and with evidence and signals fixed they reach the least set of
    questions closed under the playbook's rules, whatever the order of the playbook. */
module Fixpoint {
  import opened Sorting
  import opened Wrappers
  import opened Protocol
  import opened PlanRuns
  import opened Decisions

  ghost predicate DistinctPlaybook(pb: Playbook) {
    forall i, j :: 0 <= i < j < |pb| ==> pb[i].id != pb[j].id
  }

  // ----- The rules -----

  /** Evidence is required, all of it is present, and the verdict confirms the question. */
  predicate ConfirmedBy(w: World, pq: PlaybookQuestion) {
    && pq.required != [] && (forall c | c in pq.required :: c in w.present)
    && w.verdict(pq.id).Decided? && w.verdict(pq.id).status == Confirmed
  }

  ghost predicate ConfirmedIn(pb: Playbook, w: World, s: set<string>, id: string) {
    id in s && exists g :: g in pb && g.id == id && ConfirmedBy(w, g)
  }

  ghost predicate GeneratedIn(pb: Playbook, w: World, s: set<string>, id: string) {
    exists g :: g in pb && g.id in s && ConfirmedBy(w, g) && id in g.generates
  }

  /** A rule asks for pq once the questions in s are asked. */
  ghost predicate Fires(pb: Playbook, w: World, s: set<string>, pq: PlaybookQuestion) {
    || ((pq.trigger == "" || w.triggers(pq.trigger)) && forall d :: d in pq.dependsOn ==> ConfirmedIn(pb, w, s, d))
    || GeneratedIn(pb, w, s, pq.id)
  }

  ghost predicate ClosedUnder(pb: Playbook, w: World, s: set<string>) {
    forall pq :: pq in pb && Fires(pb, w, s, pq) ==> pq.id in s
  }

  // ----- What a round of asking adds -----

  ghost predicate Eligible(pb: Playbook, w: World, qs: seq<Question>, pq: PlaybookQuestion) {
    || Static(AnsweredIds(qs), pq)
    || Dynamic(AnsweredIds(qs), w, pq)
    || exists q :: q in qs && q.IsConfirmed() && pq.id in ParentGenerates(pb, q.id)
  }

  lemma {:induction false} ChildrenIds(pb: Playbook, parents: seq<Question>, qs: seq<Question>)
    ensures forall id :: id in IdSet(GenerateChildren(pb, parents, qs)) <==>
      || id in IdSet(qs)
      || exists q, pq ::
           q in parents && q.IsConfirmed() && pq in pb && pq.id == id && id in ParentGenerates(pb, q.id)
  {
    if parents != [] {
      var n := |parents| - 1;
      var mid := GenerateChildren(pb, parents[..n], qs);
      ChildrenIds(pb, parents[..n], qs);
      var gens := ParentGenerates(pb, parents[n].id);
      AppendAllIds(pb, (pq: PlaybookQuestion) => pq.id in gens, mid);
      assert forall q :: q in parents <==> q in parents[..n] || q == parents[n];
    }
  }

  lemma ExtendIds(pb: Playbook, w: World, qs: seq<Question>, id: string)
    ensures id in IdSet(Extend(pb, w, qs)) <==>
      id in IdSet(qs) || exists pq :: pq in pb && pq.id == id && Eligible(pb, w, qs, pq)
  {
    var a := EnsureQuestions(pb, qs);
    var t := TriggerQuestions(pb, w, a);
    AppendAllIds(pb, pq => Static(AnsweredIds(qs), pq), qs);
    AppendAllIds(pb, pq => Dynamic(AnsweredIds(a), w, pq), a);
    AppendAllGrows(pb, pq => Static(AnsweredIds(qs), pq), qs);
    AppendAllGrows(pb, pq => Dynamic(AnsweredIds(a), w, pq), a);
    GrowsTrans(pb, qs, a, t);
    ChildrenIds(pb, t, t);
    ConfirmedParents(pb, qs, t);
  }

  /** Freshly asked questions are not confirmed. */
  lemma ConfirmedParents(pb: Playbook, qs: seq<Question>, rs: seq<Question>)
    requires Grows(pb, qs, rs)
    ensures forall q :: q in rs && q.IsConfirmed() <==> q in qs && q.IsConfirmed()
  {
    forall i | |qs| <= i < |rs| ensures !rs[i].IsConfirmed() {
      assert IsFresh(pb, _ => true, rs[i]);
    }
    forall q | q in rs && q.IsConfirmed() ensures q in qs {
      var i :| 0 <= i < |rs| && rs[i] == q;
      assert rs[i] == qs[i];
    }
  }

  // ----- Plans made in one world -----

  /** q is playbook question pq, open or resolved as the world decides. */
  ghost predicate Tracks(w: World, pq: PlaybookQuestion, q: Question) {
    && q.id == pq.id && q.required == pq.required && q.dependsOn == pq.dependsOn
    && (if q.Open() then q.resolution == None
        else && Decides(w, pq.id, pq.required) && q.resolution == Some(EntryFor(w, pq.id))
             && q.status == ClosedStatus(w.verdict(pq.id).status))
  }

  ghost predicate Sound(pb: Playbook, w: World, qs: seq<Question>) {
    forall q :: q in qs ==> exists pq :: pq in pb && Tracks(w, pq, q)
  }

  lemma GrowSound(pb: Playbook, w: World, qs: seq<Question>, rs: seq<Question>)
    requires Sound(pb, w, qs) && Grows(pb, qs, rs)
    ensures Sound(pb, w, rs)
  {
    forall q | q in rs ensures exists pq :: pq in pb && Tracks(w, pq, q) {
      var i :| 0 <= i < |rs| && rs[i] == q;
      if i >= |qs| {
        assert IsFresh(pb, _ => true, rs[i]);
        var pq :| pq in pb && q == ToQuestion(pq);
        assert Tracks(w, pq, q);
      } else {
        assert qs[i] in qs;
      }
    }
  }

  lemma ResolveSound(pb: Playbook, w: World, qs: seq<Question>)
    requires Sound(pb, w, qs)
    ensures Sound(pb, w, ResolveAll(qs, w))
  {
    var rs := ResolveAll(qs, w);
    ResolveAllAt(qs, w);
    forall q | q in rs ensures exists pq :: pq in pb && Tracks(w, pq, q) {
      var i :| 0 <= i < |rs| && rs[i] == q;
      assert qs[i] in qs;
      var pq :| pq in pb && Tracks(w, pq, qs[i]);
      if qs[i].Open() { DecidedOne(qs[i], w); }
      assert Tracks(w, pq, q);
    }
  }

  lemma ResolveIds(qs: seq<Question>, w: World)
    ensures IdSet(ResolveAll(qs, w)) == IdSet(qs)
  {
    ResolveAllAt(qs, w);
    var rs := ResolveAll(qs, w);
    SameAskedIds(qs, rs, |qs|);
    assert qs[..|qs|] == qs && rs[..|rs|] == rs;
  }

  lemma SamePlaybookQuestion(pb: Playbook, a: PlaybookQuestion, b: PlaybookQuestion)
    requires DistinctPlaybook(pb) && a in pb && b in pb && a.id == b.id
    ensures a == b
  {
  }

  lemma {:induction false} GeneratesOf(pb: Playbook, g: PlaybookQuestion)
    requires DistinctPlaybook(pb) && g in pb
    ensures ParentGenerates(pb, g.id) == g.generates
  {
    if pb[0] != g {
      assert g in pb[1..];
      assert pb[0].id != g.id;
      GeneratesOf(pb[1..], g);
    }
  }

  /** In a sound plan, what is eligible is asked for by a rule. */
  lemma EligibleFires(pb: Playbook, w: World, qs: seq<Question>, s: set<string>, pq: PlaybookQuestion)
    requires DistinctPlaybook(pb) && Sound(pb, w, qs) && IdSet(qs) <= s && pq in pb && Eligible(pb, w, qs, pq)
    ensures Fires(pb, w, s, pq)
  {
    if Static(AnsweredIds(qs), pq) || Dynamic(AnsweredIds(qs), w, pq) {
      forall d | d in pq.dependsOn ensures ConfirmedIn(pb, w, s, d) {
        var q :| q in qs && q.status == Answered && q.id == d;
        var g :| g in pb && Tracks(w, g, q);
        assert ConfirmedBy(w, g);
      }
    } else {
      var q :| q in qs && q.IsConfirmed() && pq.id in ParentGenerates(pb, q.id);
      var g :| g in pb && Tracks(w, g, q);
      GeneratesOf(pb, g);
      assert g.id in s && ConfirmedBy(w, g);
    }
  }

  /** A round of asking stays below every closed set. */
  lemma ExtendBelow(pb: Playbook, w: World, qs: seq<Question>, s: set<string>)
    requires DistinctPlaybook(pb) && Sound(pb, w, qs) && IdSet(qs) <= s && ClosedUnder(pb, w, s)
    ensures IdSet(Extend(pb, w, qs)) <= s
  {
    forall id | id in IdSet(Extend(pb, w, qs)) ensures id in s {
      ExtendIds(pb, w, qs, id);
      if id !in IdSet(qs) {
        var pq :| pq in pb && pq.id == id && Eligible(pb, w, qs, pq);
        EligibleFires(pb, w, qs, s, pq);
      }
    }
  }

  lemma RunSound(pb: Playbook, w: World, p: Plan)
    requires Sound(pb, w, p.questions)
    ensures Sound(pb, w, RunPlan(pb, w, p).questions)
  {
    var asked := Extend(pb, w, p.questions);
    ExtendGrows(pb, w, p.questions);
    GrowSound(pb, w, p.questions, asked);
    ResolveSound(pb, w, asked);
    ExtendGrows(pb, w, ResolveAll(asked, w));
    GrowSound(pb, w, ResolveAll(asked, w), RunPlan(pb, w, p).questions);
  }

  lemma RunBelow(pb: Playbook, w: World, p: Plan, s: set<string>)
    requires DistinctPlaybook(pb) && Sound(pb, w, p.questions) && IdSet(p.questions) <= s && ClosedUnder(pb, w, s)
    ensures IdSet(RunPlan(pb, w, p).questions) <= s
  {
    var asked := Extend(pb, w, p.questions);
    ExtendGrows(pb, w, p.questions);
    GrowSound(pb, w, p.questions, asked);
    ExtendBelow(pb, w, p.questions, s);
    ResolveSound(pb, w, asked);
    ResolveIds(asked, w);
    ExtendBelow(pb, w, ResolveAll(asked, w), s);
  }

  /** A round of asking adds nothing to a sound plan whose ids are closed. */
  lemma ClosedAddsNothing(pb: Playbook, w: World, qs: seq<Question>)
    requires DistinctPlaybook(pb) && Sound(pb, w, qs) && DistinctIds(qs) && ClosedUnder(pb, w, IdSet(qs))
    ensures Extend(pb, w, qs) == qs
  {
    var rs := Extend(pb, w, qs);
    ExtendGrows(pb, w, qs);
    ExtendBelow(pb, w, qs, IdSet(qs));
    if |rs| > |qs| {
      assert rs[|qs|] in rs;
      FreshIdIsNew(qs, rs);
    }
  }

  lemma FreshIdIsNew(qs: seq<Question>, rs: seq<Question>)
    requires qs <= rs && |qs| < |rs| && DistinctIds(rs)
    ensures rs[|qs|].id !in IdSet(qs)
  {
    forall q | q in qs ensures q.id != rs[|qs|].id {
      var i :| 0 <= i < |qs| && qs[i] == q;
      assert rs[i] == q;
    }
  }

  // ----- The measure -----

  function OpenCount(qs: seq<Question>): nat {
    if qs == [] then 0 else OpenCount(qs[..|qs| - 1]) + if qs[|qs| - 1].Open() then 1 else 0
  }

  /** Twice the questions not asked plus those asked and not resolved. */
  function Measure(pb: Playbook, qs: seq<Question>): int { 2 * (|pb| - |qs|) + OpenCount(qs) }

  lemma {:induction false} OpenCountGrows(pb: Playbook, qs: seq<Question>, rs: seq<Question>)
    requires Grows(pb, qs, rs)
    ensures OpenCount(rs) == OpenCount(qs) + (|rs| - |qs|)
    decreases |rs|
  {
    if |rs| > |qs| {
      var n := |rs| - 1;
      assert IsFresh(pb, _ => true, rs[n]);
      OpenCountPrefix(pb, qs, rs);
      OpenCountGrows(pb, qs, rs[..n]);
    } else {
      assert qs == rs;
    }
  }

  lemma OpenCountPrefix(pb: Playbook, qs: seq<Question>, rs: seq<Question>)
    requires Grows(pb, qs, rs) && |rs| > |qs|
    ensures Grows(pb, qs, rs[..|rs| - 1])
  {
    var n := |rs| - 1;
    assert IsFresh(pb, _ => true, rs[n]);
    assert rs == rs[..n] + [rs[n]];
    IdSetSnoc(rs[..n], rs[n]);
  }

  lemma {:induction false} OpenCountResolves(qs: seq<Question>, w: World)
    ensures OpenCount(ResolveAll(qs, w)) + |NewResolutions(qs, w)| == OpenCount(qs)
  {
    if qs != [] {
      var n := |qs| - 1;
      OpenCountResolves(qs[..n], w);
      var rs := ResolveAll(qs, w);
      assert rs[..|rs| - 1] == ResolveAll(qs[..n], w);
    }
  }

  function Added(pb: Playbook, w: World, p: Plan): int { |RunPlan(pb, w, p).questions| - |p.questions| }

  function Resolved(pb: Playbook, w: World, p: Plan): nat { |NewResolutions(Extend(pb, w, p.questions), w)| }

  /** Every run lowers the measure by exactly the number of questions it adds plus the
      number it resolves. */
  lemma MeasureFalls(pb: Playbook, w: World, p: Plan)
    ensures Measure(pb, RunPlan(pb, w, p).questions) == Measure(pb, p.questions) - Added(pb, w, p) - Resolved(pb, w, p)
    ensures Added(pb, w, p) >= 0
  {
    var asked := Extend(pb, w, p.questions);
    ExtendGrows(pb, w, p.questions);
    OpenCountGrows(pb, p.questions, asked);
    OpenCountResolves(asked, w);
    ResolveAllAt(asked, w);
    ExtendGrows(pb, w, ResolveAll(asked, w));
    OpenCountGrows(pb, ResolveAll(asked, w), RunPlan(pb, w, p).questions);
  }

  function RunAll(pb: Playbook, ws: seq<World>): Plan {
    if ws == [] then EmptyPlan else RunPlan(pb, ws[|ws| - 1], RunAll(pb, ws[..|ws| - 1]))
  }

  /** How many of the runs added or resolved a question. */
  function Changes(pb: Playbook, ws: seq<World>): nat {
    if ws == [] then 0
    else
      var n := |ws| - 1;
      var p := RunAll(pb, ws[..n]);
      Changes(pb, ws[..n]) + if Added(pb, ws[n], p) != 0 || Resolved(pb, ws[n], p) != 0 then 1 else 0
  }

  ghost predicate FromPlaybook(pb: Playbook, qs: seq<Question>) {
    DistinctIds(qs) && forall q :: q in qs ==> exists pq :: pq in pb && pq.id == q.id
  }

  lemma RunFromPlaybook(pb: Playbook, w: World, p: Plan)
    requires FromPlaybook(pb, p.questions)
    ensures FromPlaybook(pb, RunPlan(pb, w, p).questions)
  {
    var asked := Extend(pb, w, p.questions);
    ExtendGrows(pb, w, p.questions);
    GrowFromPlaybook(pb, p.questions, asked);
    ResolveFromPlaybook(pb, w, asked);
    ExtendGrows(pb, w, ResolveAll(asked, w));
    GrowFromPlaybook(pb, ResolveAll(asked, w), RunPlan(pb, w, p).questions);
  }

  lemma ResolveFromPlaybook(pb: Playbook, w: World, qs: seq<Question>)
    requires FromPlaybook(pb, qs)
    ensures FromPlaybook(pb, ResolveAll(qs, w))
  {
    ResolveDistinct(qs, w);
    ResolveIds(qs, w);
    var rs := ResolveAll(qs, w);
    forall q | q in rs ensures exists pq :: pq in pb && pq.id == q.id {
      assert q.id in IdSet(rs);
    }
  }

  lemma GrowFromPlaybook(pb: Playbook, qs: seq<Question>, rs: seq<Question>)
    requires FromPlaybook(pb, qs) && Grows(pb, qs, rs)
    ensures FromPlaybook(pb, rs)
  {
    forall q | q in rs ensures exists pq :: pq in pb && pq.id == q.id {
      var i :| 0 <= i < |rs| && rs[i] == q;
      assert i < |qs| ==> rs[i] == qs[i];
      assert i >= |qs| ==> IsFresh(pb, _ => true, rs[i]);
    }
  }

  function QuestionIds(qs: seq<Question>): seq<string> { seq(|qs|, i requires 0 <= i < |qs| => qs[i].id) }

  function PlaybookIds(pb: Playbook): seq<string> { seq(|pb|, i requires 0 <= i < |pb| => pb[i].id) }

  /** No more questions than the playbook has. */
  lemma AskedAtMost(pb: Playbook, qs: seq<Question>)
    requires FromPlaybook(pb, qs)
    ensures |qs| <= |pb|
  {
    var a, b := QuestionIds(qs), PlaybookIds(pb);
    forall x | x in a ensures x in b {
      var i :| 0 <= i < |a| && a[i] == x;
      assert qs[i] in qs;
      var pq :| pq in pb && pq.id == x;
      var j :| 0 <= j < |pb| && pb[j] == pq;
      assert b[j] == x;
    }
    NoDuplicatesSize(a);
    NoDuplicatesSize(b);
    assert Members(b) == Members(a) + (Members(b) - Members(a));
  }

  /** Whatever evidence and signals the runs see, at most 2N of them add or resolve a
      question, N being the number of playbook questions. */
  lemma {:induction false} FewChanges(pb: Playbook, ws: seq<World>)
    ensures FromPlaybook(pb, RunAll(pb, ws).questions)
    ensures Measure(pb, RunAll(pb, ws).questions) + Changes(pb, ws) <= 2 * |pb|
    ensures Changes(pb, ws) <= 2 * |pb|
  {
    if ws != [] {
      var n := |ws| - 1;
      FewChanges(pb, ws[..n]);
      var p := RunAll(pb, ws[..n]);
      MeasureFalls(pb, ws[n], p);
      RunFromPlaybook(pb, ws[n], p);
    }
    AskedAtMost(pb, RunAll(pb, ws).questions);
  }

  // ----- The least fixed point -----

  ghost predicate Stable(pb: Playbook, w: World, p: Plan) {
    Added(pb, w, p) == 0 && Resolved(pb, w, p) == 0
  }

  lemma StableParts(pb: Playbook, w: World, p: Plan)
    requires Stable(pb, w, p)
    ensures Extend(pb, w, p.questions) == p.questions
    ensures RunPlan(pb, w, p) == Plan(ResolveAll(p.questions, w), p.history)
  {
    var qs := p.questions;
    var asked := Extend(pb, w, qs);
    ExtendGrows(pb, w, qs);
    ResolveAllAt(asked, w);
    ExtendGrows(pb, w, ResolveAll(asked, w));
    assert |asked| == |qs| && asked == qs;
    assert RunPlan(pb, w, p).questions == ResolveAll(asked, w);
    assert p.history + [] == p.history;
  }

  lemma {:induction false} NoneResolved(qs: seq<Question>, w: World, q: Question)
    requires NewResolutions(qs, w) == [] && q in qs
    ensures NewResolution(q, w) == []
  {
    var n := |qs| - 1;
    assert |NewResolutions(qs, w)| == |NewResolutions(qs[..n], w)| + |NewResolution(qs[n], w)|;
    if q != qs[n] {
      assert q in qs[..n];
      NoneResolved(qs[..n], w, q);
    }
  }

  /** When a run changes nothing, the questions asked are closed under the rules. */
  lemma StableClosed(pb: Playbook, w: World, p: Plan)
    requires DistinctPlaybook(pb) && Sound(pb, w, p.questions) && Stable(pb, w, p)
    ensures ClosedUnder(pb, w, IdSet(p.questions))
  {
    var qs := p.questions;
    StableParts(pb, w, p);
    forall pq | pq in pb && Fires(pb, w, IdSet(qs), pq) ensures pq.id in IdSet(qs) {
      assert Eligible(pb, w, qs, pq) by { FiresEligible(pb, w, qs, pq); }
      ExtendIds(pb, w, qs, pq.id);
    }
  }

  lemma FiresEligible(pb: Playbook, w: World, qs: seq<Question>, pq: PlaybookQuestion)
    requires DistinctPlaybook(pb) && Sound(pb, w, qs) && NewResolutions(qs, w) == []
    requires pq in pb && Fires(pb, w, IdSet(qs), pq)
    ensures Eligible(pb, w, qs, pq)
  {
    if GeneratedIn(pb, w, IdSet(qs), pq.id) {
      var g :| g in pb && g.id in IdSet(qs) && ConfirmedBy(w, g) && pq.id in g.generates;
      var q := ConfirmedIsAnswered(pb, w, qs, g);
      GeneratesOf(pb, g);
    } else {
      forall d | d in pq.dependsOn ensures d in AnsweredIds(qs) {
        var g :| g in pb && g.id == d && ConfirmedBy(w, g);
        var q := ConfirmedIsAnswered(pb, w, qs, g);
      }
    }
  }

  lemma ConfirmedIsAnswered(pb: Playbook, w: World, qs: seq<Question>, g: PlaybookQuestion) returns (q: Question)
    requires DistinctPlaybook(pb) && Sound(pb, w, qs) && NewResolutions(qs, w) == []
    requires g in pb && g.id in IdSet(qs) && ConfirmedBy(w, g)
    ensures q in qs && q.id == g.id && q.status == Answered && q.IsConfirmed()
  {
    q :| q in qs && q.id == g.id;
    var h :| h in pb && Tracks(w, h, q);
    SamePlaybookQuestion(pb, g, h);
    NoneResolved(qs, w, q);
  }

  lemma FixedPlan(pb: Playbook, w: World, p: Plan)
    requires Extend(pb, w, p.questions) == p.questions && ResolveAll(p.questions, w) == p.questions
    requires NewResolutions(p.questions, w) == []
    ensures RunPlan(pb, w, p) == p && Stable(pb, w, p)
  {
    assert p.history + [] == p.history;
  }

  lemma StableStays(pb: Playbook, w: World, p: Plan)
    requires DistinctPlaybook(pb) && Sound(pb, w, p.questions) && DistinctIds(p.questions) && Stable(pb, w, p)
    ensures Stable(pb, w, RunPlan(pb, w, p)) && RunPlan(pb, w, RunPlan(pb, w, p)) == RunPlan(pb, w, p)
  {
    var qs := p.questions;
    var rs := ResolveAll(qs, w);
    StableParts(pb, w, p);
    StableClosed(pb, w, p);
    ResolveIds(qs, w);
    ResolveDistinct(qs, w);
    ResolveSound(pb, w, qs);
    ClosedAddsNothing(pb, w, rs);
    ResolveTwice(qs, w);
    FixedPlan(pb, w, Plan(rs, p.history));
  }

  lemma ResolveDistinct(qs: seq<Question>, w: World)
    requires DistinctIds(qs)
    ensures DistinctIds(ResolveAll(qs, w))
  {
    ResolveAllAt(qs, w);
  }

  lemma PartialTwice(q: Question, present: set<Category>)
    ensures var r := q.(status := PartialStatus(q, present)); PartialStatus(r, present) == r.status
  {
  }

  /** With nothing to resolve, a second resolution pass changes nothing, not even partial statuses. */
  lemma {:induction false} ResolveTwice(qs: seq<Question>, w: World)
    requires NewResolutions(qs, w) == []
    ensures ResolveAll(ResolveAll(qs, w), w) == ResolveAll(qs, w)
    ensures NewResolutions(ResolveAll(qs, w), w) == []
  {
    if qs != [] {
      var n := |qs| - 1;
      assert |NewResolutions(qs, w)| == |NewResolutions(qs[..n], w)| + |NewResolution(qs[n], w)|;
      ResolveTwice(qs[..n], w);
      var rs := ResolveAll(qs, w);
      assert rs[..|rs| - 1] == ResolveAll(qs[..n], w) && rs[|rs| - 1] == ResolveOne(qs[n], w);
      PartialTwice(qs[n], w.present);
      assert NewResolution(rs[|rs| - 1], w) == [];
    }
  }

  function Iterate(pb: Playbook, w: World, k: nat): Plan {
    if k == 0 then EmptyPlan else RunPlan(pb, w, Iterate(pb, w, k - 1))
  }

  lemma {:induction false} IterateSound(pb: Playbook, w: World, k: nat)
    ensures Sound(pb, w, Iterate(pb, w, k).questions)
  {
    if k > 0 {
      IterateSound(pb, w, k - 1);
      RunSound(pb, w, Iterate(pb, w, k - 1));
    }
  }

  lemma {:induction false} IterateProgress(pb: Playbook, w: World, k: nat)
    requires DistinctPlaybook(pb)
    ensures var p := Iterate(pb, w, k);
            && Sound(pb, w, p.questions) && FromPlaybook(pb, p.questions)
            && (Stable(pb, w, p) || Measure(pb, p.questions) <= 2 * |pb| - k)
  {
    if k > 0 {
      IterateProgress(pb, w, k - 1);
      var p := Iterate(pb, w, k - 1);
      RunSound(pb, w, p);
      RunFromPlaybook(pb, w, p);
      MeasureFalls(pb, w, p);
      if Stable(pb, w, p) { StableStays(pb, w, p); }
    }
  }

  /** After 2N runs nothing more is added or resolved. */
  lemma Settles(pb: Playbook, w: World, k: nat)
    requires DistinctPlaybook(pb) && k >= 2 * |pb|
    ensures Stable(pb, w, Iterate(pb, w, k))
  {
    var p := Iterate(pb, w, k);
    IterateProgress(pb, w, k);
    AskedAtMost(pb, p.questions);
    MeasureFalls(pb, w, p);
    RunFromPlaybook(pb, w, p);
    AskedAtMost(pb, RunPlan(pb, w, p).questions);
  }

  lemma {:induction false} IterateBelow(pb: Playbook, w: World, k: nat, s: set<string>)
    requires DistinctPlaybook(pb) && ClosedUnder(pb, w, s)
    ensures IdSet(Iterate(pb, w, k).questions) <= s
  {
    if k > 0 {
      IterateBelow(pb, w, k - 1, s);
      IterateSound(pb, w, k - 1);
      var p := Iterate(pb, w, k - 1);
      assert Sound(pb, w, p.questions);
      RunBelow(pb, w, p, s);
    }
  }

  ghost predicate IsLeastClosed(pb: Playbook, w: World, s: set<string>) {
    && ClosedUnder(pb, w, s)
    && forall t :: ClosedUnder(pb, w, t) ==> s <= t
  }

  /** With evidence and signals fixed, from the empty plan, the questions asked after 2N
      runs are the least set closed under the trigger, dependency and GENERATES rules. */
  lemma ReachesLeastClosed(pb: Playbook, w: World, k: nat)
    requires DistinctPlaybook(pb) && k >= 2 * |pb|
    ensures IsLeastClosed(pb, w, IdSet(Iterate(pb, w, k).questions))
  {
    Settles(pb, w, k);
    IterateProgress(pb, w, k);
    StableClosed(pb, w, Iterate(pb, w, k));
    forall t | ClosedUnder(pb, w, t) ensures IdSet(Iterate(pb, w, k).questions) <= t {
      IterateBelow(pb, w, k, t);
    }
  }

  lemma SettledRun(pb: Playbook, w: World, k: nat)
    requires DistinctPlaybook(pb) && k >= 2 * |pb|
    ensures RunPlan(pb, w, RunPlan(pb, w, Iterate(pb, w, k))) == RunPlan(pb, w, Iterate(pb, w, k))
  {
    Settles(pb, w, k);
    IterateProgress(pb, w, k);
    StableStays(pb, w, Iterate(pb, w, k));
  }

  /** After one more run the whole plan is a fixed point, partial statuses included. */
  lemma FullyFixed(pb: Playbook, w: World, k: nat)
    requires DistinctPlaybook(pb) && k >= 2 * |pb| + 1
    ensures Iterate(pb, w, k + 1) == Iterate(pb, w, k)
  {
    SettledRun(pb, w, k - 1);
  }

  /** The order in which the playbook lists its questions does not matter. */
  lemma OrderDoesNotMatter(pb1: Playbook, pb2: Playbook, w: World, j: nat, k: nat)
    requires DistinctPlaybook(pb1) && DistinctPlaybook(pb2) && forall pq :: pq in pb1 <==> pq in pb2
    requires j >= 2 * |pb1| && k >= 2 * |pb2|
    ensures IdSet(Iterate(pb1, w, j).questions) == IdSet(Iterate(pb2, w, k).questions)
  {
    ReachesLeastClosed(pb1, w, j);
    ReachesLeastClosed(pb2, w, k);
    forall s ensures ClosedUnder(pb1, w, s) <==> ClosedUnder(pb2, w, s) {
      forall pq ensures Fires(pb1, w, s, pq) <==> Fires(pb2, w, s, pq) {
        forall id ensures ConfirmedIn(pb1, w, s, id) <==> ConfirmedIn(pb2, w, s, id) {
        }
      }
    }
  }
}
