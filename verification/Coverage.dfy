/** Evidence coverage: a weighted average over target categories, rounded twice, that never
    falls when evidence is added. */
module Coverage {
  import opened Sorting
  import opened Protocol
  import opened Hypotheses

  datatype Goal = RootCause | TimelineGoal | BlastRadiusGoal | DeploymentVerification | PerformanceRegression
                | Availability | CustomGoal

  function GoalCategories(goal: Goal): seq<Category> {
    match goal
    case TimelineGoal => [AlertEvents, DeploymentEvents, InfrastructureEvents, ApplicationLogs]
    case BlastRadiusGoal => [Metrics, TraceEvents, AlertEvents]
    case DeploymentVerification => [DeploymentEvents, ConfigurationChanges, ApplicationLogs, Metrics]
    case PerformanceRegression => [Metrics, TraceEvents, ApplicationLogs]
    case Availability => [AlertEvents, Metrics, InfrastructureEvents]
    case _ => [DeploymentEvents, ApplicationLogs, AlertEvents, Metrics]
  }

  function Weight(p: Priority): real {
    match p
    case High => 3.0
    case Medium => 2.0
    case Low => 1.0
  }

  type Targets = map<Category, real>

  function WithGoal(t: Targets, cats: seq<Category>): Targets {
    if cats == [] then t else WithGoal(t, cats[..|cats| - 1])[cats[|cats| - 1] := 3.0]
  }

  /** A request raises the target of its category to its weight, never lowers it. */
  function WithRequests(t: Targets, rs: seq<LegacyRequest>): Targets {
    if rs == [] then t
    else
      var before := WithRequests(t, rs[..|rs| - 1]);
      var r := rs[|rs| - 1];
      if r.category !in before || Weight(r.priority) > before[r.category]
      then before[r.category := Weight(r.priority)] else before
  }

  function WithEvidence(t: Targets, ev: seq<Category>): Targets {
    if ev == [] then t
    else
      var before := WithEvidence(t, ev[..|ev| - 1]);
      if ev[|ev| - 1] in before then before else before[ev[|ev| - 1] := 1.0]
  }

  function TargetsFor(goal: Goal, rs: seq<LegacyRequest>, ev: seq<Category>): Targets {
    WithEvidence(WithRequests(WithGoal(map[], GoalCategories(goal)), rs), ev)
  }

  function Percent(count: nat, target: real): real
    requires target > 0.0
  {
    var depth := count as real / target;
    Round1((if depth > 1.0 then 1.0 else depth) * 100.0)
  }

  // ----- Sums over categories -----

  const ALL: seq<Category> := [
    ApplicationLogs, InfrastructureEvents, DeploymentEvents, AlertEvents, Metrics, TraceEvents,
    ConfigurationChanges, NetworkEvents, DatabaseEvents, SecurityEvents, HumanContext, Custom
  ]

  lemma AllListed(c: Category)
    ensures c in ALL && NoDuplicates(ALL)
  {
    assert ALL[0] == ApplicationLogs && ALL[1] == InfrastructureEvents && ALL[2] == DeploymentEvents &&
      ALL[3] == AlertEvents
      && ALL[4] == Metrics && ALL[5] == TraceEvents && ALL[6] == ConfigurationChanges && ALL[7] == NetworkEvents
      && ALL[8] == DatabaseEvents && ALL[9] == SecurityEvents && ALL[10] == HumanContext && ALL[11] == Custom;
  }

  /** The sum of f over the categories of s, taken in the order of cats. */
  function SumOver(cats: seq<Category>, s: set<Category>, f: Category -> real): real {
    if cats == [] then 0.0
    else SumOver(cats[..|cats| - 1], s, f) + if cats[|cats| - 1] in s then f(cats[|cats| - 1]) else 0.0
  }

  lemma {:induction false} SumUnaffected(cats: seq<Category>, s: set<Category>, c: Category, f: Category -> real)
    requires c !in cats
    ensures SumOver(cats, s + {c}, f) == SumOver(cats, s, f)
  {
    if cats != [] { SumUnaffected(cats[..|cats| - 1], s, c, f); }
  }

  lemma {:induction false} SumAdd(cats: seq<Category>, s: set<Category>, c: Category, f: Category -> real)
    requires NoDuplicates(cats) && c in cats && c !in s
    ensures SumOver(cats, s + {c}, f) == SumOver(cats, s, f) + f(c)
  {
    var n := |cats| - 1;
    if cats[n] == c {
      assert c !in cats[..n];
      SumUnaffected(cats[..n], s, c, f);
    } else {
      assert c in cats[..n];
      SumAdd(cats[..n], s, c, f);
    }
  }

  lemma {:induction false} SumMonotone(cats: seq<Category>, s: set<Category>, f: Category -> real, g: Category -> real)
    requires forall c :: c in s ==> f(c) <= g(c)
    ensures SumOver(cats, s, f) <= SumOver(cats, s, g)
  {
    if cats != [] { SumMonotone(cats[..|cats| - 1], s, f, g); }
  }

  lemma {:induction false} SumAtMost(cats: seq<Category>, s: set<Category>, f: Category -> real, w: Category -> real)
    requires forall c :: c in s ==> 0.0 <= f(c) <= 100.0 * w(c)
    ensures 0.0 <= SumOver(cats, s, f) <= 100.0 * SumOver(cats, s, w)
  {
    if cats != [] { SumAtMost(cats[..|cats| - 1], s, f, w); }
  }

  lemma {:induction false} SumPositive(cats: seq<Category>, s: set<Category>, w: Category -> real, c: Category)
    requires (forall d :: d in s ==> w(d) > 0.0) && c in s && c in cats
    ensures SumOver(cats, s, w) > 0.0
  {
    var n := |cats| - 1;
    SumNotNegative(cats[..n], s, w);
    if cats[n] != c { SumPositive(cats[..n], s, w, c); }
  }

  lemma {:induction false} SumNotNegative(cats: seq<Category>, s: set<Category>, w: Category -> real)
    requires forall d :: d in s ==> w(d) > 0.0
    ensures SumOver(cats, s, w) >= 0.0
  {
    if cats != [] { SumNotNegative(cats[..|cats| - 1], s, w); }
  }

  // ----- The report -----

  ghost predicate Positive(t: Targets) { forall c :: c in t ==> t[c] > 0.0 }

  function TargetAt(t: Targets, c: Category): real { if c in t then t[c] else 0.0 }

  function WeightedAt(t: Targets, counts: multiset<Category>, c: Category): real {
    if c in t && t[c] > 0.0 then Times(Percent(counts[c], t[c]), t[c]) else 0.0
  }

  function Times(p: real, w: real): real { p * w }

  /** Weights and weighted percentages of the categories of s. */
  function WeightOf(t: Targets, s: set<Category>): real { SumOver(ALL, s, c => TargetAt(t, c)) }

  function SumOf(t: Targets, counts: multiset<Category>, s: set<Category>): real {
    SumOver(ALL, s, c => WeightedAt(t, counts, c))
  }

  function TotalWeight(t: Targets): real { WeightOf(t, t.Keys) }

  function WeightedSum(t: Targets, counts: multiset<Category>): real { SumOf(t, counts, t.Keys) }

  lemma OneMore(t: Targets, counts: multiset<Category>, s: set<Category>, c: Category)
    requires c !in s
    ensures WeightOf(t, s + {c}) == WeightOf(t, s) + TargetAt(t, c)
    ensures SumOf(t, counts, s + {c}) == SumOf(t, counts, s) + WeightedAt(t, counts, c)
  {
    AllListed(c);
    SumAdd(ALL, s, c, d => TargetAt(t, d));
    SumAdd(ALL, s, c, d => WeightedAt(t, counts, d));
  }

  lemma NoneYet(t: Targets, counts: multiset<Category>)
    ensures WeightOf(t, {}) == 0.0 && SumOf(t, counts, {}) == 0.0
  {
    EmptySums(ALL, d => TargetAt(t, d));
    EmptySums(ALL, d => WeightedAt(t, counts, d));
  }

  function Overall(goal: Goal, rs: seq<LegacyRequest>, ev: seq<Category>): real {
    var t := TargetsFor(goal, rs, ev);
    if TotalWeight(t) > 0.0 then Round1(WeightedSum(t, multiset(ev)) / TotalWeight(t)) else 0.0
  }

  lemma {:induction false} GoalTargets(t: Targets, cats: seq<Category>)
    requires Positive(t)
    ensures Positive(WithGoal(t, cats)) && forall c :: c in WithGoal(t, cats) <==> c in t || c in cats
  {
    if cats != [] { GoalTargets(t, cats[..|cats| - 1]); }
  }

  lemma {:induction false} RequestTargets(t: Targets, rs: seq<LegacyRequest>)
    requires Positive(t)
    ensures Positive(WithRequests(t, rs)) && t.Keys <= WithRequests(t, rs).Keys
  {
    if rs != [] { RequestTargets(t, rs[..|rs| - 1]); }
  }

  lemma {:induction false} EvidenceTargets(t: Targets, ev: seq<Category>)
    requires Positive(t)
    ensures Positive(WithEvidence(t, ev)) && forall c :: c in WithEvidence(t, ev) <==> c in t || c in ev
    ensures forall c :: c in t ==> WithEvidence(t, ev)[c] == t[c]
  {
    if ev != [] { EvidenceTargets(t, ev[..|ev| - 1]); }
  }

  ghost predicate Requested(rs: seq<LegacyRequest>, c: Category, p: Priority) {
    exists r :: r in rs && r.category == c && r.priority == p
  }

  lemma {:induction false} GoalTarget(t: Targets, cats: seq<Category>, c: Category)
    ensures c in WithGoal(t, cats) <==> c in t || c in cats
    ensures c in cats ==> WithGoal(t, cats)[c] == 3.0
    ensures c !in cats && c in t ==> WithGoal(t, cats)[c] == t[c]
  {
    if cats != [] {
      var n := |cats| - 1;
      GoalTarget(t, cats[..n], c);
      assert cats == cats[..n] + [cats[n]];
    }
  }

  lemma RequestedSnoc(rs: seq<LegacyRequest>, c: Category, p: Priority)
    requires rs != []
    ensures var n := |rs| - 1;
            Requested(rs, c, p) <==> Requested(rs[..n], c, p) || (rs[n].category == c && rs[n].priority == p)
  {
    var n := |rs| - 1;
    assert rs == rs[..n] + [rs[n]];
    if rs[n].category == c && rs[n].priority == p { assert rs[n] in rs; }
    if Requested(rs[..n], c, p) {
      var r :| r in rs[..n] && r.category == c && r.priority == p;
      assert r in rs;
    }
  }

  /** How deep requests of these urgencies ask a category to be covered. */
  function Depth(high: bool, medium: bool, low: bool): real {
    if high then 3.0 else if medium then 2.0 else if low then 1.0 else 0.0
  }

  lemma {:induction false} RequestTarget(t: Targets, rs: seq<LegacyRequest>, c: Category)
    requires Positive(t)
    ensures var d := Depth(Requested(rs, c, High), Requested(rs, c, Medium), Requested(rs, c, Low));
            && (c in WithRequests(t, rs) <==> c in t || d > 0.0)
            && (c in WithRequests(t, rs) ==>
                  WithRequests(t, rs)[c] == if c in t && t[c] > d then t[c] else d)
  {
    if rs != [] {
      RequestTarget(t, rs[..|rs| - 1], c);
      RequestedSnoc(rs, c, High);
      RequestedSnoc(rs, c, Medium);
      RequestedSnoc(rs, c, Low);
    }
  }

  lemma {:induction false} EvidenceTarget(t: Targets, ev: seq<Category>, c: Category)
    ensures c in WithEvidence(t, ev) <==> c in t || c in ev
    ensures c in t ==> WithEvidence(t, ev)[c] == t[c]
    ensures c !in t && c in ev ==> WithEvidence(t, ev)[c] == 1.0
  {
    if ev != [] {
      var n := |ev| - 1;
      EvidenceTarget(t, ev[..n], c);
      assert ev == ev[..n] + [ev[n]];
    }
  }

  /** The targets are the categories of the goal, of a request or of the evidence. The depth wanted is
      3 for a category of the goal or of a request of high priority, 2 for one of medium priority,
      and 1 for the others. */
  lemma TargetExactly(goal: Goal, rs: seq<LegacyRequest>, ev: seq<Category>, c: Category)
    ensures var t := TargetsFor(goal, rs, ev);
            && (c in t <==> c in GoalCategories(goal) || c in ev || exists p :: Requested(rs, c, p))
            && (c in t ==>
                  t[c] == if c in GoalCategories(goal) || Requested(rs, c, High) then 3.0
                          else if Requested(rs, c, Medium) then 2.0 else 1.0)
  {
    var goals := WithGoal(map[], GoalCategories(goal));
    GoalTargets(map[], GoalCategories(goal));
    GoalTarget(map[], GoalCategories(goal), c);
    RequestTarget(goals, rs, c);
    EvidenceTarget(WithRequests(goals, rs), ev, c);
    if p :| Requested(rs, c, p) { assert p in {High, Medium, Low}; }
  }

  /** A category counts fully once it has as many items as wanted, and otherwise by the part it has,
      within half a tenth of a percent. */
  lemma PercentExactly(count: nat, target: real)
    requires target > 0.0
    ensures count as real >= target ==> Percent(count, target) == 100.0
    ensures count as real < target ==>
      count as real / target * 100.0 - 0.05 <= Percent(count, target) <= count as real / target * 100.0 + 0.05
  {
    var depth := count as real / target;
    DivideMonotone(0.0, count as real, target);
    assert target / target == 1.0;
    if count as real >= target {
      DivideMonotone(target, count as real, target);
      Round1Hundred();
      assert (if depth > 1.0 then 1.0 else depth) == 1.0;
    } else {
      DivideMonotone(count as real, target, target);
      Round1Near(depth * 100.0);
    }
  }

  lemma TargetsPositive(goal: Goal, rs: seq<LegacyRequest>, ev: seq<Category>)
    ensures var t := TargetsFor(goal, rs, ev); Positive(t) && TotalWeight(t) > 0.0 && forall c :: c in ev ==> c in t
  {
    var cats := GoalCategories(goal);
    var t := TargetsFor(goal, rs, ev);
    GoalTargets(map[], cats);
    RequestTargets(WithGoal(map[], cats), rs);
    EvidenceTargets(WithRequests(WithGoal(map[], cats), rs), ev);
    AllListed(cats[0]);
    assert cats[0] in t;
    SumPositive(ALL, t.Keys, c => TargetAt(t, c), cats[0]);
  }

  lemma PercentRange(count: nat, target: real)
    requires target > 0.0
    ensures 0.0 <= Percent(count, target) <= 100.0
  {
    var depth := count as real / target;
    assert depth >= 0.0;
    var d := if depth > 1.0 then 1.0 else depth;
    Round1Monotone(0.0, d * 100.0);
    Round1Monotone(d * 100.0, 100.0);
    Round1Hundred();
  }

  lemma PercentGrows(count: nat, more: nat, target: real)
    requires target > 0.0 && count <= more
    ensures Percent(count, target) <= Percent(more, target)
  {
    var a, b := count as real / target, more as real / target;
    DivideMonotone(count as real, more as real, target);
    var d, e := if a > 1.0 then 1.0 else a, if b > 1.0 then 1.0 else b;
    Round1Monotone(d * 100.0, e * 100.0);
  }

  lemma DivideMonotone(x: real, y: real, t: real)
    requires x <= y && t > 0.0
    ensures x / t <= y / t
  {
    assert (y - x) / t >= 0.0;
    assert y / t == x / t + (y - x) / t;
  }

  lemma WeightedRange(t: Targets, counts: multiset<Category>, c: Category)
    requires Positive(t) && c in t
    ensures 0.0 <= WeightedAt(t, counts, c) <= 100.0 * TargetAt(t, c)
  {
    PercentRange(counts[c], t[c]);
    TimesRange(Percent(counts[c], t[c]), t[c]);
  }

  lemma TimesRange(p: real, w: real)
    requires 0.0 <= p <= 100.0 && w > 0.0
    ensures 0.0 <= Times(p, w) <= 100.0 * w
  {
  }

  lemma SumsRange(t: Targets, counts: multiset<Category>)
    requires Positive(t)
    ensures 0.0 <= WeightedSum(t, counts) <= 100.0 * TotalWeight(t)
  {
    forall c | c in t.Keys ensures 0.0 <= WeightedAt(t, counts, c) <= 100.0 * TargetAt(t, c) {
      WeightedRange(t, counts, c);
    }
    SumAtMost(ALL, t.Keys, c => WeightedAt(t, counts, c), c => TargetAt(t, c));
  }

  lemma QuotientRange(s: real, w: real)
    requires w > 0.0 && 0.0 <= s <= 100.0 * w
    ensures 0.0 <= s / w <= 100.0
  {
    assert s == w * (s / w);
  }

  /** Overall coverage is a percentage. */
  lemma OverallRange(goal: Goal, rs: seq<LegacyRequest>, ev: seq<Category>)
    ensures 0.0 <= Overall(goal, rs, ev) <= 100.0
  {
    var t := TargetsFor(goal, rs, ev);
    TargetsPositive(goal, rs, ev);
    SumsRange(t, multiset(ev));
    QuotientRange(WeightedSum(t, multiset(ev)), TotalWeight(t));
    Round1Monotone(0.0, WeightedSum(t, multiset(ev)) / TotalWeight(t));
    Round1Monotone(WeightedSum(t, multiset(ev)) / TotalWeight(t), 100.0);
    Round1Hundred();
  }

  lemma {:induction false} SumPicked(cats: seq<Category>, s: set<Category>, picked: set<Category>, f: Category -> real,
                                     w: Category -> real)
    requires picked <= s && forall c :: c in s ==> f(c) == if c in picked then 100.0 * w(c) else 0.0
    ensures SumOver(cats, s, f) == 100.0 * SumOver(cats, picked, w)
  {
    if cats != [] { SumPicked(cats[..|cats| - 1], s, picked, f, w); }
  }

  lemma FullOrEmpty(t: Targets, counts: multiset<Category>, c: Category)
    requires Positive(t) && c in t && (counts[c] as real >= t[c] || counts[c] == 0)
    ensures WeightedAt(t, counts, c) == if counts[c] as real >= t[c] then 100.0 * TargetAt(t, c) else 0.0
  {
    if counts[c] as real >= t[c] {
      PercentExactly(counts[c], t[c]);
    } else {
      assert 0.0 / t[c] == 0.0;
      Round1Hundred();
      assert Percent(0, t[c]) == 0.0;
    }
  }

  /** When every target is either met or without any evidence, overall coverage is the weight of those
      met as a part of the weight of all. */
  lemma OverallExactly(goal: Goal, rs: seq<LegacyRequest>, ev: seq<Category>, met: set<Category>)
    requires var t := TargetsFor(goal, rs, ev);
             && met <= t.Keys
             && forall c :: c in t ==> if c in met then multiset(ev)[c] as real >= t[c] else c !in ev
    ensures var t := TargetsFor(goal, rs, ev);
            && SumOver(ALL, t.Keys, c => TargetAt(t, c)) > 0.0
            && Overall(goal, rs, ev) ==
               Round1(100.0 * SumOver(ALL, met, c => TargetAt(t, c)) / SumOver(ALL, t.Keys, c => TargetAt(t, c)))
  {
    var t, counts := TargetsFor(goal, rs, ev), multiset(ev);
    TargetsPositive(goal, rs, ev);
    forall c | c in t.Keys ensures WeightedAt(t, counts, c) == if c in met then 100.0 * TargetAt(t, c) else 0.0 {
      assert c !in met ==> counts[c] == 0;
      FullOrEmpty(t, counts, c);
    }
    SumPicked(ALL, t.Keys, met, c => WeightedAt(t, counts, c), c => TargetAt(t, c));
  }

  /** One more item of a targeted category: no percentage falls, the weights stay. */
  lemma SumGrows(t: Targets, counts: multiset<Category>, more: multiset<Category>)
    requires Positive(t) && counts <= more
    ensures WeightedSum(t, counts) <= WeightedSum(t, more)
  {
    forall c | c in t.Keys ensures WeightedAt(t, counts, c) <= WeightedAt(t, more, c) {
      PercentGrows(counts[c], more[c], t[c]);
      TimesMonotone(Percent(counts[c], t[c]), Percent(more[c], t[c]), t[c]);
    }
    SumMonotone(ALL, t.Keys, c => WeightedAt(t, counts, c), c => WeightedAt(t, more, c));
  }

  lemma TimesMonotone(p: real, q: real, w: real)
    requires p <= q && w > 0.0
    ensures Times(p, w) <= Times(q, w)
  {
  }

  lemma {:induction false} SumCongruent(cats: seq<Category>, s: set<Category>, f: Category -> real, g: Category -> real)
    requires forall c :: c in s ==> f(c) == g(c)
    ensures SumOver(cats, s, f) == SumOver(cats, s, g)
  {
    if cats != [] { SumCongruent(cats[..|cats| - 1], s, f, g); }
  }

  lemma NewTarget(t: Targets, c: Category)
    requires Positive(t) && c !in t
    ensures TotalWeight(t[c := 1.0]) == TotalWeight(t) + 1.0
  {
    var u := t[c := 1.0];
    assert u.Keys == t.Keys + {c};
    OneMore(u, multiset{}, t.Keys, c);
    SumCongruent(ALL, t.Keys, d => TargetAt(u, d), d => TargetAt(t, d));
  }

  lemma FullPercent()
    ensures Percent(1, 1.0) == 100.0
  {
    Round1Hundred();
    assert 1 as real / 1.0 == 1.0;
  }

  lemma NewWeighted(t: Targets, counts: multiset<Category>, c: Category)
    requires Positive(t) && c !in t && counts[c] == 0
    ensures WeightedSum(t[c := 1.0], counts + multiset{c}) == WeightedSum(t, counts) + 100.0
  {
    var u, more := t[c := 1.0], counts + multiset{c};
    assert u.Keys == t.Keys + {c};
    OneMore(u, more, t.Keys, c);
    forall d | d in t.Keys ensures WeightedAt(u, more, d) == WeightedAt(t, counts, d) {
      assert u[d] == t[d] && more[d] == counts[d];
    }
    SumCongruent(ALL, t.Keys, d => WeightedAt(u, more, d), d => WeightedAt(t, counts, d));
    assert WeightedAt(u, more, c) == 100.0 by { NewFull(u, more, c); }
  }

  lemma NewFull(u: Targets, more: multiset<Category>, c: Category)
    requires c in u && u[c] == 1.0 && more[c] == 1
    ensures WeightedAt(u, more, c) == 100.0
  {
    FullPercent();
  }

  lemma AddFullShare(s: real, w: real)
    requires w > 0.0 && s <= 100.0 * w
    ensures s / w <= (s + 100.0) / (w + 1.0)
  {
    var q := s / w;
    var r := (s + 100.0) / (w + 1.0);
    assert s == q * w;
    assert s + 100.0 == r * (w + 1.0);
    assert q <= 100.0;
    if r < q {
      TimesStrict(r, q, w + 1.0);
      assert q * (w + 1.0) == q * w + q;
    }
  }

  lemma TimesStrict(p: real, q: real, w: real)
    requires p < q && w > 0.0
    ensures p * w < q * w
  {
  }

  /** For a fixed goal and request list, adding an item never lowers overall coverage, whether
      its category was a target or is new, in spite of both roundings. */
  lemma CoverageNeverFalls(goal: Goal, rs: seq<LegacyRequest>, ev: seq<Category>, c: Category)
    ensures Overall(goal, rs, ev) <= Overall(goal, rs, ev + [c])
  {
    var t, u := TargetsFor(goal, rs, ev), TargetsFor(goal, rs, ev + [c]);
    var counts, more := multiset(ev), multiset(ev + [c]);
    assert (ev + [c])[..|ev|] == ev;
    assert more == counts + multiset{c};
    TargetsPositive(goal, rs, ev);
    TargetsPositive(goal, rs, ev + [c]);
    SumsRange(t, counts);
    if c in t {
      assert u == t;
      SumGrows(t, counts, more);
      DivideMonotone(WeightedSum(t, counts), WeightedSum(t, more), TotalWeight(t));
    } else {
      assert u == t[c := 1.0];
      assert counts[c] == 0;
      NewTarget(t, c);
      NewWeighted(t, counts, c);
      AddFullShare(WeightedSum(t, counts), TotalWeight(t));
    }
    Round1Monotone(WeightedSum(t, counts) / TotalWeight(t), WeightedSum(u, more) / TotalWeight(u));
  }

  // ----- The computation -----

  method BuildTargets(goal: Goal, rs: seq<LegacyRequest>, ev: seq<Category>) returns (t: Targets)
    ensures t == TargetsFor(goal, rs, ev)
  {
    var cats := GoalCategories(goal);
    t := map[];
    for i := 0 to |cats|
      invariant t == WithGoal(map[], cats[..i])
    {
      assert cats[..i + 1][..i] == cats[..i];
      t := t[cats[i] := 3.0];
    }
    assert cats[..|cats|] == cats;
    ghost var t1 := t;
    for i := 0 to |rs|
      invariant t == WithRequests(t1, rs[..i])
    {
      assert rs[..i + 1][..i] == rs[..i];
      var w := Weight(rs[i].priority);
      if rs[i].category !in t || w > t[rs[i].category] {
        t := t[rs[i].category := w];
      }
    }
    assert rs[..|rs|] == rs;
    ghost var t2 := t;
    for i := 0 to |ev|
      invariant t == WithEvidence(t2, ev[..i])
    {
      assert ev[..i + 1][..i] == ev[..i];
      if ev[i] !in t {
        t := t[ev[i] := 1.0];
      }
    }
    assert ev[..|ev|] == ev;
  }

  /** The targets are visited in an arbitrary order, the order of a hash map. */
  method Compute(goal: Goal, rs: seq<LegacyRequest>, ev: seq<Category>)
    returns (overall: real, percents: map<Category, real>)
    ensures overall == Overall(goal, rs, ev)
    ensures var t := TargetsFor(goal, rs, ev);
            && percents.Keys == t.Keys
            && forall c :: c in t && t[c] > 0.0 ==> percents[c] == Percent(multiset(ev)[c], t[c])
  {
    var t := BuildTargets(goal, rs, ev);
    TargetsPositive(goal, rs, ev);
    var counts := multiset(ev);
    var total, weighted := 0.0, 0.0;
    percents := map[];
    var rest := t.Keys;
    ghost var done: set<Category> := {};
    NoneYet(t, counts);
    while rest != {}
      invariant done + rest == t.Keys && done !! rest && percents.Keys == done
      invariant total == WeightOf(t, done) && weighted == SumOf(t, counts, done)
      invariant forall c :: c in percents ==> percents[c] == Percent(counts[c], t[c])
      decreases rest
    {
      var c :| c in rest;
      OneMore(t, counts, done, c);
      rest, done := rest - {c}, done + {c};
      var pct := Percent(counts[c], t[c]);
      percents := percents[c := pct];
      total := total + t[c];
      weighted := weighted + Times(pct, t[c]);
    }
    assert done == t.Keys;
    overall := if total > 0.0 then Round1(weighted / total) else 0.0;
  }

  lemma {:induction false} EmptySums(cats: seq<Category>, f: Category -> real)
    ensures SumOver(cats, {}, f) == 0.0
  {
    if cats != [] { EmptySums(cats[..|cats| - 1], f); }
  }
}
