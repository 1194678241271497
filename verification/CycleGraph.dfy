/** The graph that a session keeps from one reasoning cycle to the next. Each cycle loads it from
    the session's snapshot, applies what the reasoners propose, and stores a snapshot again. */
module CycleGraph {
  import opened Wrappers
  import opened Applier
  import opened ActionLog
  import opened ReasoningCycle
  import opened WeightedMerge
  import opened AppliedGraph
  import opened Sorting
  import S = Store
  import O = Orchestration
  import B = GraphBuilder
  import I = GraphInference
  import C = Consistency
  import P = Protocol
  import R = PlanRuns
  import PG = PlanGrounding
  import G = SessionGraph
  import Signals

  // ----- Where merged actions come from -----

  ghost predicate Proposed(ps: seq<O.Proposal<Action>>, a: Action) { exists p :: p in ps && a in p.actions }

  lemma {:induction false} FlatMembers(ps: seq<O.Proposal<Action>>, a: Action)
    requires a in O.Flat(ps)
    ensures Proposed(ps, a)
    decreases |ps|
  {
    if a in ps[0].actions {
      assert ps[0] in ps;
    } else {
      FlatMembers(ps[1..], a);
      var p :| p in ps[1..] && a in p.actions;
      assert p in ps;
    }
  }

  lemma MergedMembers(ps: seq<O.Proposal<Action>>, arrived: seq<O.Proposal<Action>>, a: Action)
    requires multiset(arrived) == multiset(ps) && a in O.Merged(arrived)
    ensures Proposed(ps, a)
  {
    FlatMembers(StableSort(arrived, O.Outranks), a);
    SortMembers(arrived, O.Outranks);
    var p: O.Proposal<Action> :| p in StableSort(arrived, O.Outranks) && a in p.actions;
    assert p in multiset(arrived);
  }

  lemma {:induction false} VotesOfMembers(acts: seq<Action>, w: int, v: Vote)
    requires v in VotesOf(acts, w)
    ensures v.action in acts
  {
    if v in VotesOf(acts[..|acts| - 1], w) { VotesOfMembers(acts[..|acts| - 1], w, v); }
  }

  lemma {:induction false} VotesMembers(ps: seq<O.Proposal<Action>>, v: Vote)
    requires v in Votes(ps)
    ensures Proposed(ps, v.action)
    decreases |ps|
  {
    var n := |ps| - 1;
    if v in Votes(ps[..n]) {
      VotesMembers(ps[..n], v);
      var p :| p in ps[..n] && v.action in p.actions;
      assert p in ps;
    } else {
      VotesOfMembers(ps[n].actions, O.ReasonerPriority(ps[n].reasoner), v);
      assert ps[n] in ps;
    }
  }

  lemma {:induction false} PassedMembers(votes: seq<Vote>, a: Action)
    requires a in Passed(votes)
    ensures exists v :: v in votes && v.action == a
  {
    var n := |votes| - 1;
    assert votes[n] in votes;
    if a != votes[n].action {
      assert a in Passed(votes[..n]);
      PassedMembers(votes[..n], a);
    }
  }

  /** Whatever the strategy, a merged action is a proposed one or a weighted change of a confidence. */
  lemma MergesProposed(ps: seq<O.Proposal<Action>>, strategy: Strategy, out: seq<Action>, a: Action)
    requires Merges(ps, strategy, out) && a in out
    ensures Proposed(ps, a) || IsDelta(a)
  {
    match strategy
    case Sequential => MergedMembers(ps, ps, a);
    case Parallel =>
      var arrived :| multiset(arrived) == multiset(ps) && out == O.Merged(arrived);
      MergedMembers(ps, arrived, a);
    case _ =>
      var merged, ids :| out == Passed(Votes(ps)) + merged && OneEach(Votes(ps), merged, ids) && Covers(Votes(ps), ids);
      if a in merged {
        assert IsMerged(Votes(ps), ids, a);
      } else {
        PassedMembers(Votes(ps), a);
        var v :| v in Votes(ps) && v.action == a;
        VotesMembers(ps, v);
      }
  }

  ghost predicate AllGood(ps: seq<O.Proposal<Action>>) { forall a :: Proposed(ps, a) ==> GoodAction(a, true) }

  /** One cycle under any strategy and in any order of completion. */
  lemma CycleKeepsGood(s: Case, given: Option<S.State>, ps: seq<O.Proposal<Action>>, strategy: Strategy,
                       merged: seq<Action>, strict: bool)
    requires given.Some? ==> S.Valid(given.value) && Good(given.value, strict)
    requires GoodView(s.view, strict) && Merges(ps, strategy, merged)
    requires forall a :: Proposed(ps, a) ==> GoodAction(a, strict)
    ensures GoodHeld(Run(Opened(s, given), merged).held, strict)
  {
    forall a | a in merged ensures GoodAction(a, strict) { MergesProposed(ps, strategy, merged, a); }
    RunKeepsGood(Opened(s, given), merged, strict);
  }

  // ----- Any number of cycles -----

  /** The graph that a stored snapshot stands for. */
  function Stored(v: Option<S.GraphView>): S.State { if v.Some? then S.Loaded(v.value) else S.Empty }

  /** The session as a cycle finds it, what the reasoners propose and how it is merged. */
  datatype Round = Round(before: Case, proposals: seq<O.Proposal<Action>>, strategy: Strategy, merged: seq<Action>)

  ghost function ViewAfter(v: Option<S.GraphView>, rounds: seq<Round>): Option<S.GraphView> {
    if rounds == [] then v
    else
      var last := rounds[|rounds| - 1];
      Run(Opened(last.before, None), last.merged).held.s.view
  }

  /** Each round finds the snapshot that the one before it left; all else of the session may have
      changed in between. */
  ghost predicate Follows(v: Option<S.GraphView>, rounds: seq<Round>) {
    forall i :: 0 <= i < |rounds| ==>
      && rounds[i].before.view == ViewAfter(v, rounds[..i])
      && Merges(rounds[i].proposals, rounds[i].strategy, rounds[i].merged)
  }

  /** v is a snapshot that the hypothesis reasoner proposes in a reachable session. */
  ghost predicate FromReachable(v: S.GraphView) { exists pb, es, s, sig, names :: RebuiltIn(v, pb, es, s, sig, names) }

  ghost predicate RebuiltIn(v: S.GraphView, pb: P.Playbook, es: seq<R.Event>, s: B.SessionData, sig: Signals.Signals,
                            names: seq<string>)
  {
    && PG.GraphSafe(pb) && G.Reached(pb, es, s) && G.Summarised(s, sig, names)
    && S.IsView(v, I.Rebuilt(s, sig, names))
  }

  lemma FromReachableGood(v: S.GraphView)
    requires FromReachable(v)
    ensures Good(S.Loaded(v), true)
  {
    var pb, es, s, sig, names :| RebuiltIn(v, pb, es, s, sig, names);
    ReachableGood(pb, es, s, sig, names);
    GoodListed(I.Rebuilt(s, sig, names), v, true);
  }

  /** Snapshots of reachable sessions, any links but depends_on ones, and any other actions. */
  ghost predicate Permitted(a: Action) {
    (a.UpdateGraph? && a.view.Some? ==> FromReachable(a.view.value)) && !LinksDependency(a)
  }

  /** The graph of a new session is empty. */
  lemma EmptyGood()
    ensures GoodView(Some(S.GraphView([], [])), true)
  {
    assert S.Loaded(S.GraphView([], [])) == S.Empty;
  }

  lemma {:induction false} CyclesKeepGood(v: Option<S.GraphView>, rounds: seq<Round>)
    requires GoodView(v, true) && Follows(v, rounds) && forall r :: r in rounds ==> AllGood(r.proposals)
    ensures GoodView(ViewAfter(v, rounds), true)
  {
    if rounds != [] {
      var n := |rounds| - 1;
      var last := rounds[n];
      assert last in rounds;
      FollowsPrefix(v, rounds, n);
      CyclesKeepGood(v, rounds[..n]);
      CycleKeepsGood(last.before, None, last.proposals, last.strategy, last.merged, true);
    }
  }

  lemma FollowsPrefix(v: Option<S.GraphView>, rounds: seq<Round>, n: nat)
    requires Follows(v, rounds) && n <= |rounds|
    ensures Follows(v, rounds[..n])
  {
    assert forall i :: 0 <= i < n ==> rounds[..n][i] == rounds[i] && rounds[..n][..i] == rounds[..i];
  }

  lemma PermittedGood(ps: seq<O.Proposal<Action>>)
    requires forall a :: Proposed(ps, a) ==> Permitted(a)
    ensures AllGood(ps)
  {
    forall a | Proposed(ps, a) ensures GoodAction(a, true) {
      assert Permitted(a);
      if a.UpdateGraph? && a.view.Some? { FromReachableGood(a.view.value); }
    }
  }

  /** Over any number of cycles that start with a good graph, as the empty one is, each with any
      strategy and only permitted proposals: the stored snapshot, loaded again, passes the
      high-severity checks. */
  lemma CyclesCheckClean(v: Option<S.GraphView>, rounds: seq<Round>)
    requires GoodView(v, true) && Follows(v, rounds)
    requires forall r, a :: r in rounds && Proposed(r.proposals, a) ==> Permitted(a)
    ensures C.NoDangling(Stored(ViewAfter(v, rounds))) && !C.DependsCycle(Stored(ViewAfter(v, rounds)))
  {
    forall r | r in rounds ensures AllGood(r.proposals) { PermittedGood(r.proposals); }
    CyclesKeepGood(v, rounds);
    GoodPasses(Stored(ViewAfter(v, rounds)));
  }

  // ----- One cycle and the check -----

  /** The snapshot that the hypothesis reasoner proposes. */
  method ProposeGraph(d: B.SessionData, ghost pb: P.Playbook, ghost es: seq<R.Event>) returns (a: Action)
    requires PG.GraphSafe(pb) && G.Reached(pb, es, d)
    ensures a.UpdateGraph? && a.view.Some? && FromReachable(a.view.value) && GoodAction(a, true)
  {
    var sig := Signals.Analyze(d.evidence);
    ghost var names;
    var v;
    v, names := I.Rebuild(d, sig);
    assert RebuiltIn(v, pb, es, d, sig, names);
    a := UpdateGraph(Some(v));
    FromReachableGood(v);
  }

  ghost predicate Reports(issues: seq<C.Issue>, v: Option<S.GraphView>) {
    C.ReportsEdges(issues, Stored(v)) && C.ReportsOrphans(issues, Stored(v)) && C.ReportsCycle(issues, Stored(v))
  }

  /** The check that a client can ask for: of the stored snapshot, loaded again. */
  method CheckStored(v: Option<S.GraphView>) returns (issues: seq<C.Issue>)
    ensures Reports(issues, v)
    ensures C.AnyHigh(issues) <==> !C.NoDangling(Stored(v)) || C.DependsCycle(Stored(v))
    ensures GoodView(v, true) ==> !C.AnyHigh(issues)
  {
    if v.Some? { S.LoadedValid(v.value); }
    if GoodView(v, true) { GoodPasses(Stored(v)); }
    var g := S.FromView(v);
    issues := C.Check(g);
  }

  method Cycle(s: LiveSession, rs: seq<Option<O.Proposal<Action>>>, strategy: Strategy)
    requires GoodView(s.view, true) && AllGood(O.Outcomes(rs))
    modifies s
    ensures GoodView(s.view, true)
  {
    ghost var before := s.Value();
    var log, refused, next, start, actions, applied, end := Execute(s, null, rs, strategy);
    CycleKeepsGood(before, None, O.Outcomes(rs), strategy, actions, true);
  }

  /** A cycle with the hypothesis reasoner's snapshot among the proposals, then the consistency
      check of the stored snapshot: nothing of high severity is found, whatever else is proposed
      short of depends_on links and spoilt snapshots. */
  method CycleAndCheck(s: LiveSession, d: B.SessionData, first: seq<Option<O.Proposal<Action>>>, own: seq<Action>,
                       later: seq<Option<O.Proposal<Action>>>, strategy: Strategy,
                       ghost pb: P.Playbook, ghost es: seq<R.Event>)
    returns (issues: seq<C.Issue>)
    requires PG.GraphSafe(pb) && G.Reached(pb, es, d) && GoodView(s.view, true)
    requires AllGood(O.Outcomes(first + later)) && forall a :: a in own ==> GoodAction(a, true)
    modifies s
    ensures GoodView(s.view, true) && !C.AnyHigh(issues) && Reports(issues, s.view)
  {
    var a := ProposeGraph(d, pb, es);
    var mine := O.Proposal("hypothesis", own + [a]);
    ProposedParts(first, mine, later);
    Cycle(s, first + [Some(mine)] + later, strategy);
    issues := CheckStored(s.view);
  }

  lemma {:induction false} OutcomesConcat(rs: seq<Option<O.Proposal<Action>>>, ts: seq<Option<O.Proposal<Action>>>)
    ensures O.Outcomes(rs + ts) == O.Outcomes(rs) + O.Outcomes(ts)
    decreases |ts|
  {
    if ts == [] {
      assert rs + ts == rs;
    } else {
      var n := |ts| - 1;
      OutcomesConcat(rs, ts[..n]);
      assert (rs + ts)[..|rs| + n] == rs + ts[..n];
    }
  }

  lemma ProposedParts(first: seq<Option<O.Proposal<Action>>>, p: O.Proposal<Action>,
                      later: seq<Option<O.Proposal<Action>>>)
    requires AllGood(O.Outcomes(first + later)) && forall a :: a in p.actions ==> GoodAction(a, true)
    ensures AllGood(O.Outcomes(first + [Some(p)] + later))
  {
    OutcomesConcat(first + [Some(p)], later);
    OutcomesConcat(first, [Some(p)]);
    OutcomesConcat(first, later);
    assert [Some(p)][..0] == [];
    assert O.Outcomes([Some(p)]) == [p];
    var all, rest := O.Outcomes(first + [Some(p)] + later), O.Outcomes(first + later);
    assert forall q :: q in all ==> q == p || q in rest;
    forall a | Proposed(all, a) ensures GoodAction(a, true) {
      var q :| q in all && a in q.actions;
      assert q != p ==> Proposed(rest, a);
    }
  }
}
