/** Which questions a run decides, what it writes into them and into the history, and what an
    operator's resolution writes: said in terms of the evidence present and the verdict alone. */
module Decisions {
  import opened Sorting
  import opened Wrappers
  import opened Protocol
  import opened PlanRuns

  /** Some evidence is required, all of it is present, and the verdict on the question is clear. */
  predicate Decides(w: World, id: string, required: seq<Category>) {
    required != [] && (forall c | c in required :: c in w.present) && w.verdict(id).Decided?
  }

  /** The entry that a decided question gets. */
  function EntryFor(w: World, id: string): Resolution
    requires w.verdict(id).Decided?
  {
    Resolution(id, w.verdict(id).status, w.verdict(id).confidence)
  }

  function ClosedStatus(o: Outcome): QuestionStatus {
    match o
    case Confirmed => Answered
    case Refused => Rejected
  }

  lemma ResolvesExactly(id: string, required: seq<Category>, w: World)
    ensures Resolve(id, required, w) == if Decides(w, id, required) then Some(EntryFor(w, id)) else None
  {
  }

  /** The question as the world decides it. */
  ghost predicate DecidedAs(q: Question, r: Question, w: World)
    requires w.verdict(q.id).Decided?
  {
    r == q.(status := ClosedStatus(w.verdict(q.id).status), confidence := w.verdict(q.id).confidence,
            resolution := Some(EntryFor(w, q.id)))
  }

  /** The question left open: waiting when nothing required is present, partially answered when
      some of it is present and some is not, and as it was when all of it is present. */
  ghost predicate LeftOpen(q: Question, r: Question, w: World) {
    && r == q.(status := r.status)
    && ((forall c :: c in q.required ==> c !in w.present) ==> r.status == WaitingForEvidence)
    && ((exists c, d :: c in q.required && d in q.required && c in w.present && d !in w.present) ==>
          r.status == PartiallyAnswered)
    && (q.required != [] && (forall c :: c in q.required ==> c in w.present) ==> r.status == q.status)
  }

  lemma {:induction false} CountPresent(required: seq<Category>, present: set<Category>)
    ensures PresentCount(required, present) == 0 <==> forall c :: c in required ==> c !in present
    ensures PresentCount(required, present) == |required| <==> forall c :: c in required ==> c in present
  {
    FilterMembers(required, (c: Category) => c in present);
    if required != [] {
      CountPresent(required[1..], present);
      FilterMembers(required[1..], (c: Category) => c in present);
      assert forall c :: c in required <==> c == required[0] || c in required[1..];
    }
  }

  lemma StatusLeft(q: Question, w: World)
    requires q.Open()
    ensures PartialStatus(q, w.present) !in {Answered, Rejected}
    ensures LeftOpen(q, q.(status := PartialStatus(q, w.present)), w)
  {
    CountPresent(q.required, w.present);
    FilterMembers(q.required, (c: Category) => c in w.present);
  }

  lemma DecidedOne(q: Question, w: World)
    requires q.Open()
    ensures ResolveOne(q, w).Open() <==> !Decides(w, q.id, q.required)
    ensures if Decides(w, q.id, q.required) then DecidedAs(q, ResolveOne(q, w), w) else LeftOpen(q, ResolveOne(q, w), w)
    ensures NewResolution(q, w) == if Decides(w, q.id, q.required) then [EntryFor(w, q.id)] else []
  {
    ResolvesExactly(q.id, q.required, w);
    StatusLeft(q, w);
  }

  /** A run closes a question that was open when resolution began exactly when its evidence is
      required, all present, and the verdict is clear; it is then what the verdict says. */
  lemma RunDecides(pb: Playbook, w: World, p: Plan, i: nat)
    requires i < |Extend(pb, w, p.questions)| && Extend(pb, w, p.questions)[i].Open()
    ensures i < |RunPlan(pb, w, p).questions|
    ensures var q, r := Extend(pb, w, p.questions)[i], RunPlan(pb, w, p).questions[i];
            && (r.Open() <==> !Decides(w, q.id, q.required))
            && if Decides(w, q.id, q.required) then DecidedAs(q, r, w) else LeftOpen(q, r, w)
  {
    var asked := Extend(pb, w, p.questions);
    ResolveAllAt(asked, w);
    ExtendGrows(pb, w, ResolveAll(asked, w));
    DecidedOne(asked[i], w);
    assert RunPlan(pb, w, p).questions[i] == ResolveAll(asked, w)[i];
  }

  predicate DecidedNow(w: World, q: Question) { q.Open() && Decides(w, q.id, q.required) }

  function Entries(qs: seq<Question>, w: World): seq<Resolution>
    requires forall q :: q in qs ==> w.verdict(q.id).Decided?
  {
    seq(|qs|, i requires 0 <= i < |qs| => EntryFor(w, qs[i].id))
  }

  lemma DecidedHaveVerdicts(qs: seq<Question>, w: World)
    ensures forall q :: q in Filter(qs, (q: Question) => DecidedNow(w, q)) ==> w.verdict(q.id).Decided?
  {
    FilterMembers(qs, (q: Question) => DecidedNow(w, q));
  }

  lemma FilterLast(qs: seq<Question>, w: World)
    requires qs != []
    ensures var n, keep := |qs| - 1, (q: Question) => DecidedNow(w, q);
            Filter(qs, keep) == Filter(qs[..n], keep) + if DecidedNow(w, qs[n]) then [qs[n]] else []
  {
    var n := |qs| - 1;
    FilterConcat(qs[..n], [qs[n]], (q: Question) => DecidedNow(w, q));
    assert qs == qs[..n] + [qs[n]];
  }

  lemma EntriesSnoc(qs: seq<Question>, q: Question, w: World)
    requires w.verdict(q.id).Decided? && forall x :: x in qs ==> w.verdict(x.id).Decided?
    ensures Entries(qs + [q], w) == Entries(qs, w) + [EntryFor(w, q.id)]
  {
  }

  lemma {:induction false} NewEntriesExactly(qs: seq<Question>, w: World)
    ensures (DecidedHaveVerdicts(qs, w);
             NewResolutions(qs, w) == Entries(Filter(qs, (q: Question) => DecidedNow(w, q)), w))
  {
    DecidedHaveVerdicts(qs, w);
    if qs != [] {
      var n := |qs| - 1;
      NewEntriesExactly(qs[..n], w);
      DecidedHaveVerdicts(qs[..n], w);
      FilterLast(qs, w);
      if qs[n].Open() { DecidedOne(qs[n], w); }
      if DecidedNow(w, qs[n]) { EntriesSnoc(Filter(qs[..n], (q: Question) => DecidedNow(w, q)), qs[n], w); }
    }
  }

  /** The entries that a run adds: one for each question that it decides, in the order of the plan. */
  lemma RunRecords(pb: Playbook, w: World, p: Plan)
    ensures var asked := Extend(pb, w, p.questions);
            (DecidedHaveVerdicts(asked, w);
             RunPlan(pb, w, p).history ==
             p.history + Entries(Filter(asked, (q: Question) => DecidedNow(w, q)), w))
  {
    NewEntriesExactly(Extend(pb, w, p.questions), w);
  }

  /** A question that a run asks is one of the playbook's, open and without a resolution. */
  ghost predicate AskedFrom(pb: Playbook, q: Question) {
    exists pq :: pq in pb
      && q == Question(pq.id, pq.priority, WaitingForEvidence, 0.0, pq.required, pq.dependsOn, None)
  }

  /** A round of asking leaves the questions that it finds and appends questions of the playbook. */
  lemma RoundAsks(pb: Playbook, w: World, qs: seq<Question>)
    ensures qs <= Extend(pb, w, qs)
    ensures forall i :: |qs| <= i < |Extend(pb, w, qs)| ==> AskedFrom(pb, Extend(pb, w, qs)[i])
  {
    ExtendGrows(pb, w, qs);
    forall i | |qs| <= i < |Extend(pb, w, qs)| ensures AskedFrom(pb, Extend(pb, w, qs)[i]) {
      assert IsFresh(pb, _ => true, Extend(pb, w, qs)[i]);
    }
  }

  /** The operator's resolution: nothing for an unknown id, and otherwise the first question with
      the id is closed with confidence 91, whatever it was, and one entry is added. */
  lemma ForceDecides(p: Plan, id: string, confirmed: bool)
    ensures ForcePlan(p, id, confirmed).None? <==> forall q :: q in p.questions ==> q.id != id
    ensures ForcePlan(p, id, confirmed).Some? ==>
      exists i :: 0 <= i < |p.questions| && p.questions[i].id == id
        && (forall j :: 0 <= j < i ==> p.questions[j].id != id)
        && ForcedAt(p, i, if confirmed then Confirmed else Refused, ForcePlan(p, id, confirmed).value)
  {
    FindIndex(p.questions, id);
    if ForcePlan(p, id, confirmed).Some? {
      var i := IndexOf(p.questions, id).value;
      assert ForcedAt(p, i, if confirmed then Confirmed else Refused, ForcePlan(p, id, confirmed).value);
    }
  }

  ghost predicate ForcedAt(p: Plan, i: nat, o: Outcome, r: Plan)
    requires i < |p.questions|
  {
    var entry := Resolution(p.questions[i].id, o, 91.0);
    && r.history == p.history + [entry]
    && r.questions == p.questions[i := p.questions[i].(status := ClosedStatus(o), confidence := 91.0,
                                                        resolution := Some(entry))]
  }

  /** The lists of ids kept for the outside: those of the open and of the closed questions, in order. */
  lemma {:induction false} ListedIds(qs: seq<Question>, keep: Question -> bool)
    ensures |IdsWhere(qs, keep)| == |Filter(qs, keep)|
    ensures forall i :: 0 <= i < |Filter(qs, keep)| ==> IdsWhere(qs, keep)[i] == Filter(qs, keep)[i].id
  {
    if qs != [] {
      var n := |qs| - 1;
      ListedIds(qs[..n], keep);
      FilterConcat(qs[..n], [qs[n]], keep);
      assert qs == qs[..n] + [qs[n]];
    }
  }
}
