/** One reasoning cycle: run the reasoners, merge what they propose, apply it. */
module ReasoningCycle {
  import opened Wrappers
  import opened Hypotheses
  import opened Applier
  import opened ActionLog
  import opened WeightedMerge
  import O = Orchestration
  import S = Store

  datatype Strategy = Sequential | Parallel | WeightedVote | Consensus

  /** out is a weighted merge of the proposals, the merged changes in some order. */
  ghost predicate IsWeightedMerge(proposals: seq<O.Proposal<Action>>, out: seq<Action>) {
    exists merged, ids ::
      && out == Passed(Votes(proposals)) + merged && OneEach(Votes(proposals), merged, ids)
      && Covers(Votes(proposals), ids)
  }

  ghost predicate Covers(votes: seq<Vote>, ids: set<string>) { forall id :: id !in ids ==> VotesFor(votes, id) == [] }

  /** What the strategy lets the merged list be. */
  ghost predicate Merges(proposals: seq<O.Proposal<Action>>, strategy: Strategy, out: seq<Action>) {
    match strategy
    case Sequential => out == O.Merged(proposals)
    case Parallel => O.MergedInSomeOrder(proposals, out)
    case _ => IsWeightedMerge(proposals, out)
  }

  method Propose(rs: seq<Option<O.Proposal<Action>>>, strategy: Strategy) returns (out: seq<Action>)
    ensures Merges(O.Outcomes(rs), strategy, out)
  {
    if strategy == Sequential || strategy == Parallel {
      out := O.Propose(rs, strategy == Parallel);
    } else {
      var results := O.RunSequential(rs);
      ghost var merged, ids;
      out, merged, ids := MergeWeighted(results);
      assert Covers(Votes(results), ids);
    }
  }

  /** A cycle works on the graph it is given, or else on one loaded from the session's snapshot. */
  ghost function Opened(s: Case, given: Option<S.State>): (h: Held)
    requires given.Some? ==> S.Valid(given.value)
    ensures WellHeld(h) && h.s == s
  {
    if given.None? && s.view.Some? then
      S.LoadedValid(s.view.value);
      Held(s, Some(S.Loaded(s.view.value)))
    else Held(s, given)
  }

  method Open(s: LiveSession, given: S.MemoryStore?) returns (g: S.MemoryStore?)
    requires given != null ==> S.Valid(given.Value())
    ensures given != null ==> g == given
    ensures given == null && g != null ==> fresh(g)
    ensures Now(s, g) == Opened(s.Value(), if given == null then None else Some(given.Value()))
  {
    g := given;
    if g == null && s.view.Some? {
      g := S.FromView(s.view);
    }
  }

  /** The session and the graph after a cycle are those of applying the merged list; under the
      parallel strategy with distinct priorities they are what the sequential strategy gives,
      whichever reasoner finishes first. The graph handed on is loaded from the snapshot that
      the session ends with, not the one that was linked into. */
  method Execute(s: LiveSession, given: S.MemoryStore?, rs: seq<Option<O.Proposal<Action>>>, strategy: Strategy)
    returns (log: seq<Action>, refused: seq<Refusal>, next: S.MemoryStore?,
             ghost start: Held, ghost actions: seq<Action>, ghost applied: seq<Action>, ghost end: Held)
    requires given != null ==> S.Valid(given.Value())
    modifies s, given
    ensures start == Opened(old(s.Value()), if given == null then None else Some(old(given.Value())))
    ensures Merges(O.Outcomes(rs), strategy, actions)
    ensures strategy == Parallel && O.DistinctPriorities(O.Outcomes(rs)) ==> actions == O.Merged(O.Outcomes(rs))
    ensures Result(end, applied, refused) == Run(start, actions) && log == Stored(start, applied)
    ensures end.s == s.Value() && (given != null ==> end.g == Some(given.Value()))
    ensures match s.view
            case None => next == given
            case Some(v) => next != null && fresh(next) && next.Value() == S.Loaded(v)
  {
    var g := Open(s, given);
    start := Now(s, g);
    var merged := Propose(rs, strategy);
    actions := merged;
    if O.DistinctPriorities(O.Outcomes(rs)) { DistinctCommute(O.Outcomes(rs)); }
    O.ArrivalIndependence(O.Outcomes(rs));
    log, refused, applied := Apply(s, g, merged);
    end := Now(s, g);
    next := given;
    if s.view.Some? {
      next := S.FromView(s.view);
    }
  }

  lemma DistinctCommute(ps: seq<O.Proposal<Action>>)
    requires O.DistinctPriorities(ps)
    ensures O.TiesCommute(ps)
  {
  }

  // ----- The order of the merged changes -----

  lemma {:induction false} VotesNoneAverage(votes: seq<Vote>, id: string)
    requires VotesFor(votes, id) == []
    ensures Average(votes, id) == 0.0
  {
    ForSame(votes, id);
  }

  /** Any two weighted merges of the same votes hold the same changes. */
  lemma SameChanges(votes: seq<Vote>, m: seq<Action>, n: seq<Action>, ids: set<string>, jds: set<string>, a: Action)
    requires OneEach(votes, m, ids) && OneEach(votes, n, jds) && Covers(votes, jds) && a in m
    ensures a in n
  {
    assert IsMerged(votes, ids, a);
    var id := a.hypothesisId;
    if id !in jds { VotesNoneAverage(votes, id); }
  }

  /** At most one hypothesis has a change to make. */
  ghost predicate OneToChange(votes: seq<Vote>) {
    forall x, y :: Average(votes, x) != 0.0 && Average(votes, y) != 0.0 ==> x == y
  }

  lemma AtMostOne(votes: seq<Vote>, m: seq<Action>, ids: set<string>)
    requires OneEach(votes, m, ids) && OneToChange(votes)
    ensures |m| <= 1
  {
    assert |m| > 1 ==> IsMerged(votes, ids, m[0]) && IsMerged(votes, ids, m[1]);
    if |m| > 1 { EachOnce(votes, m, ids, 0, 1); }
  }

  lemma OneChangeDetermined(votes: seq<Vote>, m: seq<Action>, n: seq<Action>, ids: set<string>, jds: set<string>)
    requires OneEach(votes, m, ids) && OneEach(votes, n, jds) && Covers(votes, ids) && Covers(votes, jds)
    requires OneToChange(votes)
    ensures m == n
  {
    AtMostOne(votes, m, ids);
    AtMostOne(votes, n, jds);
    if m != [] { SameChanges(votes, m, n, ids, jds, m[0]); }
    if n != [] { SameChanges(votes, n, m, jds, ids, n[0]); }
  }

  /** Two changes can come in the other order. */
  lemma SwapFirstTwo(votes: seq<Vote>, m: seq<Action>, ids: set<string>) returns (n: seq<Action>)
    requires OneEach(votes, m, ids) && |m| >= 2
    ensures OneEach(votes, n, ids) && n != m
  {
    n := [m[1], m[0]] + m[2..];
    assert n[0] == m[1] && m[0] != m[1];
    assert m == [m[0], m[1]] + m[2..];
    forall a ensures a in n <==> a in m {}
  }

  lemma TwoChanges(votes: seq<Vote>, m: seq<Action>, ids: set<string>, x: string, y: string)
    requires OneEach(votes, m, ids) && Covers(votes, ids)
    requires x != y && Average(votes, x) != 0.0 && Average(votes, y) != 0.0
    ensures |m| >= 2
  {
    if x !in ids { VotesNoneAverage(votes, x); }
    if y !in ids { VotesNoneAverage(votes, y); }
    var a, b := DeltaAction(x, Average(votes, x)), DeltaAction(y, Average(votes, y));
    assert a in m && b in m && a != b;
    var i :| 0 <= i < |m| && m[i] == a;
    var j :| 0 <= j < |m| && m[j] == b;
  }

  ghost predicate OnlyMerge(votes: seq<Vote>, m: seq<Action>) {
    forall n, jds :: OneEach(votes, n, jds) && Covers(votes, jds) ==> n == m
  }

  /** The merged changes are determined exactly when at most one hypothesis has a weighted
      average other than zero. */
  lemma DeterminedExactly(votes: seq<Vote>, m: seq<Action>, ids: set<string>)
    requires OneEach(votes, m, ids) && Covers(votes, ids)
    ensures OnlyMerge(votes, m) <==> OneToChange(votes)
  {
    if OneToChange(votes) {
      forall n, jds | OneEach(votes, n, jds) && Covers(votes, jds) ensures n == m {
        OneChangeDetermined(votes, m, n, ids, jds);
      }
    } else {
      var x, y :| Average(votes, x) != 0.0 && Average(votes, y) != 0.0 && x != y;
      TwoChanges(votes, m, ids, x, y);
      var n := SwapFirstTwo(votes, m, ids);
    }
  }

  // ----- The order can show -----

  lemma TwoRaises(h: Held, x: string, y: string, mid: seq<Hypothesis>, end: seq<Hypothesis>)
    requires WellHeld(h) && HypothesisAt(h.s.hypotheses, x).Some? && HypothesisAt(mid, y).Some? && x != "" && y != ""
    requires Adjusted(h.s.hypotheses, x, 10.0) == mid && Adjusted(mid, y, 10.0) == end
    ensures Run(h, [Increase(x, 10.0), Increase(y, 10.0)]).held.s.hypotheses == end
  {
    var a, b := Increase(x, 10.0), Increase(y, 10.0);
    assert [a, b][1..] == [b] && [b][1..] == [];
    var h1 := After(h, a);
    assert h1 == Held(h.s.(hypotheses := mid), h.g);
    var h2 := After(h1, b);
    assert h2.s.hypotheses == end;
    assert Run(h1, [b]).held == Run(h2, []).held == h2;
  }

  lemma RaisedShares()
    ensures RoundHalfAway(Share(60.0, 110.0)) == 54.5 && RoundHalfAway(Share(50.0, 110.0)) == 45.5
    ensures RoundHalfAway(Share(54.5, 110.0)) == 49.5 && RoundHalfAway(Share(55.5, 110.0)) == 50.5
  {
    assert 545.0 <= Share(60.0, 110.0) * 10.0 + 0.5 < 546.0;
    assert 455.0 <= Share(50.0, 110.0) * 10.0 + 0.5 < 456.0;
    assert 495.0 <= Share(54.5, 110.0) * 10.0 + 0.5 < 496.0;
    assert 505.0 <= Share(55.5, 110.0) * 10.0 + 0.5 < 506.0;
  }

  /** Two orders in which the hash map may give the same two merged changes lead to different
      sessions: the field is shared out afresh in between. */
  lemma MapOrderShows(h: Held)
    requires WellHeld(h) && h.s.hypotheses == Pair(50.0, 50.0)
    ensures Run(h, [Increase("a", 10.0), Increase("b", 10.0)]).held.s.hypotheses == Pair(49.5, 50.5)
    ensures Run(h, [Increase("b", 10.0), Increase("a", 10.0)]).held.s.hypotheses == Pair(50.5, 49.5)
  {
    RaisedShares();
    PairRaised(50.0, 50.0, true);
    PairRaised(54.5, 45.5, false);
    TwoRaises(h, "a", "b", Pair(54.5, 45.5), Pair(49.5, 50.5));
    PairRaised(50.0, 50.0, false);
    PairRaised(45.5, 54.5, true);
    TwoRaises(h, "b", "a", Pair(45.5, 54.5), Pair(50.5, 49.5));
  }

  lemma OneVote(v: Vote, id: string)
    ensures Total([v], id) == Part(v, id) && Weight([v], id) == Weigh(v, id)
  {
    assert [v][..0] == [];
    assert Total([], id) == 0.0 && Weight([], id) == 0.0;
  }

  /** Both orders are weighted merges of the same two votes. */
  lemma BothOrdersMerge()
    ensures var votes := [Vote(Increase("a", 10.0), 90), Vote(Increase("b", 10.0), 80)];
            && OneEach(votes, [Increase("a", 10.0), Increase("b", 10.0)], {"a", "b"})
            && OneEach(votes, [Increase("b", 10.0), Increase("a", 10.0)], {"a", "b"})
  {
    var a, b := Increase("a", 10.0), Increase("b", 10.0);
    var votes := [Vote(a, 90), Vote(b, 80)];
    assert votes[..1] == [votes[0]];
    OneVote(votes[0], "a");
    OneVote(votes[0], "b");
    assert Average(votes, "a") == 10.0 && Average(votes, "b") == 10.0;
    assert IsMerged(votes, {"a", "b"}, a) && IsMerged(votes, {"a", "b"}, b);
    assert a in [a, b] && b in [a, b] && a in [b, a] && b in [b, a];
  }
}
