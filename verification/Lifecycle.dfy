/** The session lifecycle: Start, Submit, Get, ResolveQuestion and Finish as atomic steps on
    one session. What reasoners, protocol and calibration derive in a recompute enters as a
    parameter. */
module Lifecycle {
  import opened Wrappers

  datatype State =
    | Started | CollectingEvidence | Reasoning | WaitingForEvidence | HighConfidence | CompletedState | FailedState

  datatype Status = Collecting | Ready | Completed

  /** hasSummary: the summary is not blank. */
  datatype Item = Item(id: string, hasSummary: bool)

  /** What one recompute finds: the confidence after calibration, the sufficiency report, the
      missing evidence, the progress, and whether a reasoner marked the session complete. */
  datatype Derived = Derived(confidence: real, canAnswer: bool, blocking: nat, missing: nat, percent: real,
                             marked: bool)

  datatype Failure =
    | EmptyEvidence | SessionCompleted | InvalidEvidence | DuplicateId(id: string) | UnknownQuestion
    | QuestionRequired | InvalidTimeWindow | UnknownGoal

  datatype Snapshot = Snapshot(evidence: seq<Item>, state: State, status: Status, confidence: real, hasPlan: bool)

  const THRESHOLD: real := 70.0

  // ----- The state machine -----

  function BeginReasoning(current: State): State {
    if current == CompletedState || current == FailedState then current else Reasoning
  }

  function Transition(current: State, evidence: nat, d: Derived): State {
    if current == CompletedState then CompletedState
    else if current == FailedState then FailedState
    else if evidence == 0 then (if current == Started then Started else CollectingEvidence)
    else if d.canAnswer && d.confidence >= THRESHOLD then HighConfidence
    else if d.blocking > 0 || d.missing > 0 then WaitingForEvidence
    else if d.confidence >= THRESHOLD then HighConfidence
    else CollectingEvidence
  }

  function LegacyStatus(st: State): Status {
    match st
    case HighConfidence => Ready
    case CompletedState => Completed
    case _ => Collecting
  }

  function DeriveStatus(status: Status, state: State, d: Derived): Status {
    if status == Completed || state == CompletedState then Completed
    else if d.canAnswer || (d.confidence >= THRESHOLD && d.percent >= THRESHOLD) then Ready
    else LegacyStatus(state)
  }

  function Recomputed(s: Snapshot, d: Derived): Snapshot {
    var begun := BeginReasoning(s.state);
    var reasoned := if d.marked then CompletedState else begun;
    var status := if d.marked then Completed else s.status;
    var state := if reasoned != CompletedState then Transition(reasoned, |s.evidence|, d) else reasoned;
    Snapshot(s.evidence, state, DeriveStatus(status, state, d), d.confidence, true)
  }

  // ----- Calls -----

  function Named(e: Item, newId: string): Item { if e.id == "" then e.(id := newId) else e }

  predicate Acceptable(evidence: seq<Item>, e: Option<Item>, newId: string) {
    e.Some? && e.value.hasSummary && Named(e.value, newId).id !in ItemIds(evidence)
  }

  function ItemIds(evidence: seq<Item>): set<string> { set e | e in evidence :: e.id }

  lemma ItemIdsSnoc(evidence: seq<Item>, e: Item)
    ensures ItemIds(evidence + [e]) == ItemIds(evidence) + {e.id}
  {
    assert forall x :: x in evidence + [e] <==> x in evidence || x == e;
  }

  function Refusal(e: Option<Item>, newId: string): Failure {
    if e.None? || !e.value.hasSummary then InvalidEvidence else DuplicateId(Named(e.value, newId).id)
  }

  /** The items of a batch are appended one by one; the first bad one stops the call and
      leaves the items before it in the session. */
  function Ingest(evidence: seq<Item>, batch: seq<Option<Item>>, newIds: seq<string>): (seq<Item>, Option<Failure>)
    requires |newIds| == |batch|
    decreases |batch|
  {
    if batch == [] then (evidence, None)
    else if Acceptable(evidence, batch[0], newIds[0]) then
      Ingest(evidence + [Named(batch[0].value, newIds[0])], batch[1..], newIds[1..])
    else (evidence, Some(Refusal(batch[0], newIds[0])))
  }

  /** newIds are the ids drawn for items that come without one. */
  datatype Call =
    | Submit(batch: seq<Option<Item>>, newIds: seq<string>, derived: Derived)
    | Get(derived: Derived)
    | ResolveQuestion(known: bool, derived: Derived, scored: real)
    | Finish(derived: Derived, calibrated: real)
  {
    predicate WellFormed() { Submit? ==> |newIds| == |batch| }
  }

  function Step(s: Snapshot, c: Call): (Snapshot, Option<Failure>)
    requires c.WellFormed()
  {
    match c
    case Submit(batch, newIds, d) =>
      if batch == [] then (s, Some(EmptyEvidence))
      else if s.status == Completed then (s, Some(SessionCompleted))
      else
        var (evidence, failure) := Ingest(s.evidence, batch, newIds);
        if failure.Some? then (s.(evidence := evidence), failure)
        else (Recomputed(s.(evidence := evidence), d), None)
    case Get(d) => (Recomputed(s, d), None)
    case ResolveQuestion(known, d, scored) =>
      if s.status == Completed then (s, Some(SessionCompleted))
      else
        var r := if s.hasPlan then s else Recomputed(s, d);
        if known then (r.(confidence := scored), None) else (r, Some(UnknownQuestion))
    case Finish(d, calibrated) =>
      var r := Recomputed(s, d);
      if r.status != Completed then (r.(status := Completed, state := CompletedState, confidence := calibrated), None)
      else (r, None)
  }

  // ----- The session as an object -----

  class Session {
    var evidence: seq<Item>
    var state: State
    var status: Status
    var confidence: real
    var hasPlan: bool

    ghost function Value(): Snapshot
      reads this
    {
      Snapshot(evidence, state, status, confidence, hasPlan)
    }

    constructor ()
      ensures Value() == Snapshot([], Started, Collecting, 0.0, false)
    {
      evidence, state, status, confidence, hasPlan := [], Started, Collecting, 0.0, false;
    }

    method Recompute(d: Derived)
      modifies this
      ensures Value() == Recomputed(old(Value()), d)
    {
      if state != CompletedState && state != FailedState {
        state := BeginReasoning(state);
      }
      if d.marked {
        state := CompletedState;
        status := Completed;
      }
      confidence := d.confidence;
      hasPlan := true;
      if state != CompletedState {
        state := Transition(state, |evidence|, d);
      }
      status := DeriveStatus(status, state, d);
    }

    method SubmitEvidence(batch: seq<Option<Item>>, newIds: seq<string>, d: Derived) returns (failure: Option<Failure>)
      requires |newIds| == |batch|
      modifies this
      ensures (Value(), failure) == Step(old(Value()), Submit(batch, newIds, d))
    {
      if batch == [] {
        return Some(EmptyEvidence);
      }
      if status == Completed {
        return Some(SessionCompleted);
      }
      var seen := ItemIds(evidence);
      for i := 0 to |batch|
        invariant Value() == old(Value()).(evidence := evidence)
        invariant seen == ItemIds(evidence)
        invariant Ingest(evidence, batch[i..], newIds[i..]) == Ingest(old(evidence), batch, newIds)
      {
        if batch[i].None? {
          return Some(InvalidEvidence);
        }
        var e := Named(batch[i].value, newIds[i]);
        if !e.hasSummary {
          return Some(InvalidEvidence);
        }
        if e.id in seen {
          return Some(DuplicateId(e.id));
        }
        ItemIdsSnoc(evidence, e);
        seen := seen + {e.id};
        evidence := evidence + [e];
      }
      Recompute(d);
      failure := None;
    }

    method GetSession(d: Derived)
      modifies this
      ensures (Value(), None) == Step(old(Value()), Get(d))
    {
      Recompute(d);
    }

    method Resolve(known: bool, d: Derived, scored: real) returns (failure: Option<Failure>)
      modifies this
      ensures (Value(), failure) == Step(old(Value()), ResolveQuestion(known, d, scored))
    {
      if status == Completed {
        return Some(SessionCompleted);
      }
      if !hasPlan {
        Recompute(d);
      }
      if !known {
        return Some(UnknownQuestion);
      }
      confidence := scored;
      failure := None;
    }

    method FinishSession(d: Derived, calibrated: real)
      modifies this
      ensures (Value(), None) == Step(old(Value()), Finish(d, calibrated))
    {
      Recompute(d);
      if status != Completed {
        status := Completed;
        state := CompletedState;
        confidence := calibrated;
      }
    }
  }

  /** The three checks on the request come first; a session exists only if they pass. */
  method Start(hasQuestion: bool, windowValid: bool, goalValid: bool, d: Derived)
    returns (s: Session?, failure: Option<Failure>)
    ensures failure == if !hasQuestion then Some(QuestionRequired) else if !windowValid then Some(InvalidTimeWindow)
                       else if !goalValid then Some(UnknownGoal) else None
    ensures failure.Some? <==> s == null
    ensures s != null ==> fresh(s) && s.Value() == Initial(d)
  {
    if !hasQuestion {
      return null, Some(QuestionRequired);
    }
    if !windowValid {
      return null, Some(InvalidTimeWindow);
    }
    if !goalValid {
      return null, Some(UnknownGoal);
    }
    var session := new Session();
    session.Recompute(d);
    s, failure := session, None;
  }

  function Initial(d: Derived): Snapshot { Recomputed(Snapshot([], Started, Collecting, 0.0, false), d) }

  // ----- What every run keeps -----

  ghost predicate DistinctItems(evidence: seq<Item>) {
    forall i, j :: 0 <= i < j < |evidence| ==> evidence[i].id != evidence[j].id
  }

  /** Between calls: ids are distinct, state and status agree on completion, the transient state
      never shows, and there is a plan. A session without evidence collects evidence unless it is
      finished; that it has just started is never shown, since a recompute passes through the
      reasoning state first. */
  ghost predicate SessionInv(s: Snapshot) {
    && DistinctItems(s.evidence)
    && (s.state == CompletedState <==> s.status == Completed)
    && s.state != Reasoning && s.state != FailedState && s.state != Started
    && (s.evidence == [] ==> s.state == CollectingEvidence || s.state == CompletedState)
    && s.hasPlan
  }

  lemma RecomputeKeeps(s: Snapshot, d: Derived)
    requires DistinctItems(s.evidence) && s.state != FailedState
    requires s.state == CompletedState <==> s.status == Completed
    ensures SessionInv(Recomputed(s, d))
  {
  }

  lemma InitialInv(d: Derived)
    ensures SessionInv(Initial(d))
  {
  }

  /** The item is missing or has a blank summary, or its id, drawn if it has none, is taken. */
  ghost predicate BadItem(evidence: seq<Item>, e: Option<Item>, newId: string, why: Failure) {
    if e.None? || !e.value.hasSummary then why == InvalidEvidence
    else
      var id := if e.value.id == "" then newId else e.value.id;
      why == DuplicateId(id) && exists x :: x in evidence && x.id == id
  }

  /** What a batch leaves behind: the named items of a prefix of it, the whole of it exactly
      when nothing failed; on failure the first item not taken is the bad one. */
  lemma {:induction false} IngestAppends(evidence: seq<Item>, batch: seq<Option<Item>>, newIds: seq<string>)
    returns (n: nat)
    requires |newIds| == |batch| && DistinctItems(evidence)
    ensures var (after, failure) := Ingest(evidence, batch, newIds);
            && n <= |batch| && |after| == |evidence| + n && evidence <= after && DistinctItems(after)
            && (forall k :: 0 <= k < n ==> batch[k].Some? && after[|evidence| + k] == Named(batch[k].value, newIds[k]))
            && (forall k :: 0 <= k < n ==> batch[k].value.hasSummary)
            && (failure.None? <==> n == |batch|)
            && (failure.Some? ==>
                  !Acceptable(after, batch[n], newIds[n]) && failure == Some(Refusal(batch[n], newIds[n])))
            && (failure.Some? ==> BadItem(after, batch[n], newIds[n], failure.value))
    decreases |batch|
  {
    if batch == [] {
      n := 0;
    } else if Acceptable(evidence, batch[0], newIds[0]) {
      var next := evidence + [Named(batch[0].value, newIds[0])];
      var m := IngestAppends(next, batch[1..], newIds[1..]);
      n := m + 1;
      var (after, failure) := Ingest(next, batch[1..], newIds[1..]);
      assert after[|evidence|] == next[|evidence|];
      forall k | 0 <= k < n ensures batch[k].Some? && after[|evidence| + k] == Named(batch[k].value, newIds[k]) {
        if k > 0 { assert batch[1..][k - 1] == batch[k]; }
      }
    } else {
      n := 0;
    }
  }

  /** Evidence only grows by appending; completion is final and freezes it. */
  ghost predicate Advances(s: Snapshot, t: Snapshot) {
    && s.evidence <= t.evidence
    && (s.status == Completed ==> t.status == Completed && t.state == CompletedState && t.evidence == s.evidence)
  }

  lemma StepKeeps(s: Snapshot, c: Call)
    requires c.WellFormed() && SessionInv(s)
    ensures SessionInv(Step(s, c).0) && Advances(s, Step(s, c).0)
    ensures c.Finish? ==> Step(s, c).0.status == Completed
  {
    match c {
      case Submit(batch, newIds, d) =>
        if batch != [] && s.status != Completed {
          var n := IngestAppends(s.evidence, batch, newIds);
          RecomputeKeeps(s.(evidence := Ingest(s.evidence, batch, newIds).0), d);
        }
      case Get(d) => RecomputeKeeps(s, d);
      case ResolveQuestion(_, _, _) =>
      case Finish(d, _) => RecomputeKeeps(s, d);
    }
  }

  /** A failed Submit adds exactly the items before the first bad one, a strict prefix of its
      batch, and changes nothing else. */
  lemma FailedSubmit(s: Snapshot, batch: seq<Option<Item>>, newIds: seq<string>, d: Derived) returns (n: nat)
    requires |newIds| == |batch| && SessionInv(s) && batch != [] && s.status != Completed
    requires Step(s, Submit(batch, newIds, d)).1.Some?
    ensures n < |batch| && Step(s, Submit(batch, newIds, d)).1 == Some(Refusal(batch[n], newIds[n]))
    ensures var t := Step(s, Submit(batch, newIds, d)).0;
            && t == s.(evidence := t.evidence) && |t.evidence| == |s.evidence| + n && s.evidence <= t.evidence
            && forall k :: 0 <= k < n ==>
                 batch[k].Some? && t.evidence[|s.evidence| + k] == Named(batch[k].value, newIds[k])
  {
    n := IngestAppends(s.evidence, batch, newIds);
  }

  /** In every reachable session the operator's resolution runs no recompute: of evidence, state,
      status and confidence it changes the confidence at most. */
  lemma ResolveOnlyScores(s: Snapshot, known: bool, d: Derived, scored: real)
    requires SessionInv(s)
    ensures var t := Step(s, ResolveQuestion(known, d, scored)).0; t == s || t == s.(confidence := scored)
  {
  }

  function Steps(s: Snapshot, cs: seq<Call>): Snapshot
    requires forall c :: c in cs ==> c.WellFormed()
  {
    if cs == [] then s else Step(Steps(s, cs[..|cs| - 1]), cs[|cs| - 1]).0
  }

  /** Every run from a started session, failed calls included. */
  lemma {:induction false} ReachableSessions(d: Derived, cs: seq<Call>)
    requires forall c :: c in cs ==> c.WellFormed()
    ensures SessionInv(Steps(Initial(d), cs))
  {
    if cs == [] {
      InitialInv(d);
    } else {
      ReachableSessions(d, cs[..|cs| - 1]);
      StepKeeps(Steps(Initial(d), cs[..|cs| - 1]), cs[|cs| - 1]);
    }
  }

  /** From any point of a run on, evidence is append-only and completion is absorbing. */
  lemma {:induction false} RunsAdvance(s: Snapshot, cs: seq<Call>)
    requires SessionInv(s) && forall c :: c in cs ==> c.WellFormed()
    ensures SessionInv(Steps(s, cs)) && Advances(s, Steps(s, cs))
  {
    if cs != [] {
      RunsAdvance(s, cs[..|cs| - 1]);
      StepKeeps(Steps(s, cs[..|cs| - 1]), cs[|cs| - 1]);
    }
  }

  // ----- What an unfinished session shows -----

  /** What the outside sees after a recompute of a session with this evidence: the confidence meets
      the threshold and nothing is missing or blocking unless the question can be answered; evidence
      is awaited; or neither. */
  ghost predicate Shows(t: Snapshot, d: Derived) {
    var open := d.blocking > 0 || d.missing > 0;
    && t.confidence == d.confidence
    && (t.state == HighConfidence <==> t.evidence != [] && d.confidence >= 70.0 && (d.canAnswer || !open))
    && (t.state == WaitingForEvidence <==> t.evidence != [] && open && !(d.canAnswer && d.confidence >= 70.0))
    && (t.state == CollectingEvidence <==> t.evidence == [] || (d.confidence < 70.0 && !open))
    && (t.status == Ready <==>
          d.canAnswer || (d.confidence >= 70.0 && (d.percent >= 70.0 || (t.evidence != [] && !open))))
    && (t.status == Collecting <==> t.status != Ready)
  }

  lemma RecomputeShows(s: Snapshot, d: Derived)
    requires s.state != CompletedState && s.state != FailedState && s.status != Completed
    ensures if d.marked then Recomputed(s, d).state == CompletedState && Recomputed(s, d).status == Completed
            else Shows(Recomputed(s, d), d)
    ensures Recomputed(s, d).evidence == s.evidence
  {
  }

  /** In every reachable unfinished session, what Get and a successful Submit show is settled by
      the evidence and by what the recompute found: state and status both, exactly. */
  lemma ShownExactly(s: Snapshot, c: Call)
    requires SessionInv(s) && s.status != Completed && c.WellFormed()
    requires c.Get? || (c.Submit? && Step(s, c).1.None?)
    ensures var t := Step(s, c).0;
            if c.derived.marked then t.state == CompletedState && t.status == Completed else Shows(t, c.derived)
  {
    RecomputeShows(s.(evidence := Step(s, c).0.evidence), c.derived);
  }

  /** Which calls fail and why: an empty batch, a finished session and an unknown question; what a
      batch with a bad item does is in IngestAppends. Get and Finish never fail. */
  lemma CallsFail(s: Snapshot, c: Call)
    requires c.WellFormed() && SessionInv(s)
    ensures var why := Step(s, c).1;
            && (c.Get? || c.Finish? ==> why == None)
            && (c.Submit? ==> (why == Some(EmptyEvidence) <==> c.batch == [])
                              && (why == Some(SessionCompleted) <==> c.batch != [] && s.status == Completed))
            && (c.ResolveQuestion? ==>
                  why == if s.status == Completed then Some(SessionCompleted)
                         else if !c.known then Some(UnknownQuestion) else None)
  {
    if c.Submit? && c.batch != [] && s.status != Completed {
      var n := IngestAppends(s.evidence, c.batch, c.newIds);
    }
  }

  /** Finishing completes the session; the calibrated confidence is set only if neither the session nor
      its last recompute had completed it. An operator's resolution sets the scored confidence. */
  lemma FinishAndResolve(s: Snapshot, c: Call)
    requires SessionInv(s) && (c.Finish? || c.ResolveQuestion?)
    ensures var t := Step(s, c).0;
            if c.Finish? then
              t.state == CompletedState && t.status == Completed && t.evidence == s.evidence
              && t.confidence ==
                 if s.status == Completed || c.derived.marked then c.derived.confidence else c.calibrated
            else t == if s.status != Completed && c.known then s.(confidence := c.scored) else s
  {
  }

  /** A state of high confidence always comes with a ready status; the reverse fails exactly when the
      question can be answered, or the progress is high enough, without it. */
  lemma ReadyWithoutConfidence(t: Snapshot, d: Derived)
    requires Shows(t, d)
    ensures t.state == HighConfidence ==> t.status == Ready
    ensures t.status == Ready && t.state != HighConfidence <==>
      && (d.canAnswer || (d.confidence >= 70.0 && d.percent >= 70.0))
      && (t.evidence == [] || d.confidence < 70.0 || (!d.canAnswer && (d.blocking > 0 || d.missing > 0)))
  {
  }
}
