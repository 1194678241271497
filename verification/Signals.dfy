/** Signal extraction: one pass over the time-sorted evidence, specified by what the
    evidence contains as a set. The text tests on an item (keyword groups found, negation
    phrases, database metrics) are fixed attributes of the item. */
module Signals {
  import opened Sorting
  import opened Wrappers
  import opened Protocol

  /** Times are in nanoseconds; groups are the keyword groups matched by the item's text. */
  datatype Evidence = Evidence(id: string, time: int, category: Category, entity: string, groups: set<string>,
                               rulesOutDeploy: bool, rulesOutConfig: bool, missingTimeout: bool, healthyDatabase: bool,
                               rows: Option<int>)

  predicate Before(a: Evidence, b: Evidence) {
    if a.time == b.time then Less(a.id, b.id) else a.time < b.time
  }

  function SortedByTime(ev: seq<Evidence>): seq<Evidence> { StableSort(ev, Before) }

  lemma BeforeOrder()
    ensures StrictWeak(Before)
  {
    forall a: Evidence ensures !Before(a, a) { LessIrreflexive(a.id); }
    forall a, b, c | Before(a, b) && Before(b, c) ensures Before(a, c) {
      if a.time == b.time == c.time { LessTransitive(a.id, b.id, c.id); }
    }
    forall a, b, c | !Before(a, b) && !Before(b, c) ensures !Before(a, c) {
      if a.time == b.time == c.time {
        LessTotal(a.id, b.id);
        LessTotal(b.id, c.id);
        if Less(a.id, c.id) && Less(c.id, b.id) { LessTransitive(a.id, c.id, b.id); }
      }
    }
  }

  ghost predicate DistinctEvidence(ev: seq<Evidence>) {
    forall i, j :: 0 <= i < j < |ev| ==> ev[i].id != ev[j].id
  }

  // ----- Tests on one item -----

  predicate IsRecovery(e: Evidence) { "rollback" in e.groups || "recovery" in e.groups }

  predicate IsDeploy(e: Evidence) {
    || (!IsRecovery(e) && !e.rulesOutDeploy && e.category == DeploymentEvents)
    || (e.category != ConfigurationChanges && !e.rulesOutDeploy && "deployment" in e.groups)
  }

  predicate LooksLikeSymptom(e: Evidence) {
    match e.category
    case AlertEvents => true
    case ApplicationLogs => "error" in e.groups || "latency" in e.groups
    case Metrics => "error" in e.groups || "latency" in e.groups
    case TraceEvents => "error" in e.groups || "latency" in e.groups
    case DeploymentEvents => false
    case ConfigurationChanges => false
    case _ => "error" in e.groups
  }

  predicate IsOnset(e: Evidence) { !IsRecovery(e) && LooksLikeSymptom(e) }

  /** The groups that count as signals of the item. */
  function Raises(e: Evidence): set<string> {
    e.groups - (if e.rulesOutDeploy then {"deployment"} else {}) - (if e.rulesOutConfig then {"config"} else {})
  }

  // ----- The summary -----

  datatype Signals = Signals(categories: multiset<Category>, keywords: set<string>, entities: multiset<string>,
                             deployment: Option<Evidence>, onset: Option<Evidence>, recovery: Option<Evidence>,
                             deployBefore: bool, deployAfter: bool)

  const NoSignals := Signals(multiset{}, {}, multiset{}, None, None, None, false, false)

  function CategoriesOf(ev: seq<Evidence>): multiset<Category> {
    if ev == [] then multiset{} else CategoriesOf(ev[..|ev| - 1]) + multiset{ev[|ev| - 1].category}
  }

  function EntitiesOf(ev: seq<Evidence>): multiset<string> {
    if ev == [] then multiset{}
    else EntitiesOf(ev[..|ev| - 1]) + EntityOf(ev[|ev| - 1])
  }

  ghost predicate Raised(ev: seq<Evidence>, name: string) { exists e :: e in ev && name in Raises(e) }

  /** r is the (time, id)-least item of ev that passes the test; none passes when r is None. */
  ghost predicate IsEarliest(ev: seq<Evidence>, test: Evidence -> bool, r: Option<Evidence>) {
    match r
    case None => forall e :: e in ev ==> !test(e)
    case Some(f) => f in ev && test(f) && forall e :: e in ev && test(e) ==> !Before(e, f)
  }

  ghost predicate Collects(sig: Signals, ev: seq<Evidence>) {
    && sig.categories == CategoriesOf(ev)
    && sig.entities == EntitiesOf(ev)
    && (forall name :: name in sig.keywords <==> Raised(ev, name))
    && IsEarliest(ev, IsDeploy, sig.deployment)
    && IsEarliest(ev, IsOnset, sig.onset)
    && IsEarliest(ev, IsRecovery, sig.recovery)
  }

  /** The set-based specification of a summary. */
  ghost predicate Describes(sig: Signals, ev: seq<Evidence>) {
    && Collects(sig, ev)
    && (sig.deployBefore <==>
          sig.deployment.Some? && sig.onset.Some? && sig.deployment.value.time <= sig.onset.value.time)
    && (sig.deployAfter <==>
          sig.deployment.Some? && sig.onset.Some? && sig.deployment.value.time > sig.onset.value.time)
  }

  /** The first match in a sorted list is the earliest. */
  lemma FirstIsEarliest(ev: seq<Evidence>, i: nat, test: Evidence -> bool, r: Option<Evidence>)
    requires Sorted(ev, Before) && i < |ev| && IsEarliest(ev[..i], test, r)
    ensures IsEarliest(ev[..i + 1], test, if r.None? && test(ev[i]) then Some(ev[i]) else r)
  {
    assert ev[..i + 1] == ev[..i] + [ev[i]];
    LessIrreflexive(ev[i].id);
    if r.Some? {
      var k :| 0 <= k < i && ev[k] == r.value;
      assert !Before(ev[i], ev[k]);
    }
  }

  lemma FilterSnoc<T>(s: seq<T>, x: T, keep: T -> bool)
    ensures |Filter(s + [x], keep)| == |Filter(s, keep)| + if keep(x) then 1 else 0
  {
    FilterConcat(s, [x], keep);
  }

  lemma {:induction false} CategoriesByMultiset(ev: seq<Evidence>, c: Category)
    ensures CategoriesOf(ev)[c] == |Filter(ev, (e: Evidence) => e.category == c)|
  {
    if ev != [] {
      var n := |ev| - 1;
      CategoriesByMultiset(ev[..n], c);
      assert ev == ev[..n] + [ev[n]];
      FilterSnoc(ev[..n], ev[n], (e: Evidence) => e.category == c);
    }
  }

  predicate At(e: Evidence, name: string) { e.entity == name && name != "" }

  lemma {:induction false} EntitiesByMultiset(ev: seq<Evidence>, name: string)
    ensures EntitiesOf(ev)[name] == |Filter(ev, (e: Evidence) => At(e, name))|
  {
    if ev != [] {
      var n := |ev| - 1;
      EntitiesByMultiset(ev[..n], name);
      assert ev == ev[..n] + [ev[n]];
      FilterSnoc(ev[..n], ev[n], (e: Evidence) => At(e, name));
      EntityAt(ev[n], name);
    }
  }

  function EntityOf(e: Evidence): multiset<string> { if e.entity != "" then multiset{e.entity} else multiset{} }

  lemma EntityAt(e: Evidence, name: string)
    ensures EntityOf(e)[name] == if At(e, name) then 1 else 0
  {
  }

  lemma {:induction false} FilterSize<T>(s: seq<T>, t: seq<T>, keep: T -> bool)
    requires multiset(s) <= multiset(t)
    ensures |Filter(s, keep)| <= |Filter(t, keep)|
  {
    if s != [] {
      assert s == [s[0]] + s[1..];
      assert multiset(s) == multiset(s[1..]) + multiset{s[0]};
      assert s[0] in multiset(t);
      var j :| 0 <= j < |t| && t[j] == s[0];
      var rest := t[..j] + t[j + 1..];
      assert t == t[..j] + [t[j]] + t[j + 1..];
      assert multiset(t) == multiset(rest) + multiset{t[j]};
      assert multiset(s[1..]) <= multiset(rest) by {
        forall x ensures multiset(s[1..])[x] <= multiset(rest)[x] {
          assert multiset(s)[x] <= multiset(t)[x];
        }
      }
      FilterSize(s[1..], rest, keep);
      FilterConcat(t[..j], [t[j]], keep);
      FilterConcat(t[..j] + [t[j]], t[j + 1..], keep);
      FilterConcat(t[..j], t[j + 1..], keep);
    }
  }

  /** More evidence, no fewer of anything. */
  lemma CountsGrow(s: seq<Evidence>, t: seq<Evidence>)
    requires multiset(s) <= multiset(t)
    ensures CategoriesOf(s) <= CategoriesOf(t) && EntitiesOf(s) <= EntitiesOf(t)
  {
    forall c ensures CategoriesOf(s)[c] <= CategoriesOf(t)[c] {
      CategoriesByMultiset(s, c);
      CategoriesByMultiset(t, c);
      FilterSize(s, t, (e: Evidence) => e.category == c);
    }
    forall name ensures EntitiesOf(s)[name] <= EntitiesOf(t)[name] {
      EntitiesByMultiset(s, name);
      EntitiesByMultiset(t, name);
      FilterSize(s, t, (e: Evidence) => At(e, name));
    }
  }

  lemma CountsSame(s: seq<Evidence>, t: seq<Evidence>)
    requires multiset(s) == multiset(t)
    ensures CategoriesOf(s) == CategoriesOf(t) && EntitiesOf(s) == EntitiesOf(t)
  {
    CountsGrow(s, t);
    CountsGrow(t, s);
  }

  // ----- What a summary says about the items -----

  /** A deployment that is not ruled out: an event of that category that reports no recovery, or an
      item of another category but a configuration change whose text is about a deployment. */
  predicate Deploys(e: Evidence) {
    && !e.rulesOutDeploy
    && (|| (e.category == DeploymentEvents && "rollback" !in e.groups && "recovery" !in e.groups)
        || ("deployment" in e.groups && e.category != ConfigurationChanges))
  }

  /** Alerts, errors outside deployments and configuration changes, and latency in logs, metrics
      and traces; never what reports a recovery. */
  predicate Symptomatic(e: Evidence) {
    && "rollback" !in e.groups && "recovery" !in e.groups
    && (|| e.category == AlertEvents
        || ("error" in e.groups && e.category !in {DeploymentEvents, ConfigurationChanges})
        || ("latency" in e.groups && e.category in {ApplicationLogs, Metrics, TraceEvents}))
  }

  ghost predicate EarliestWhere(passing: set<Evidence>, r: Option<Evidence>) {
    match r
    case None => passing == {}
    case Some(f) =>
      f in passing && forall e :: e in passing ==> f.time < e.time || (f.time == e.time && !Less(e.id, f.id))
  }

  predicate ReportsRecovery(e: Evidence) { "rollback" in e.groups || "recovery" in e.groups }

  lemma TestsMean(e: Evidence)
    ensures IsDeploy(e) <==> Deploys(e)
    ensures IsOnset(e) <==> Symptomatic(e)
    ensures IsRecovery(e) <==> ReportsRecovery(e)
  {
  }

  lemma EarliestMeans(ev: seq<Evidence>, test: Evidence -> bool, r: Option<Evidence>, passing: set<Evidence>)
    requires IsEarliest(ev, test, r) && forall e :: e in passing <==> e in ev && test(e)
    ensures EarliestWhere(passing, r)
  {
    if r.Some? {
      forall e | e in passing ensures r.value.time < e.time || (r.value.time == e.time && !Less(e.id, r.value.id)) {
        assert !Before(e, r.value);
      }
    }
  }

  /** The keywords are the groups found in some item, but a deployment or configuration group counts
      only in an item that does not rule it out. */
  lemma KeywordsMean(sig: Signals, ev: seq<Evidence>)
    requires Describes(sig, ev)
    ensures "deployment" in sig.keywords <==> exists e :: e in ev && "deployment" in e.groups && !e.rulesOutDeploy
    ensures "config" in sig.keywords <==> exists e :: e in ev && "config" in e.groups && !e.rulesOutConfig
    ensures forall name :: name != "deployment" && name != "config" ==>
      (name in sig.keywords <==> exists e :: e in ev && name in e.groups)
  {
    assert forall name :: name in sig.keywords <==> Raised(ev, name);
    forall name | name != "deployment" && name != "config"
      ensures Raised(ev, name) <==> exists e :: e in ev && name in e.groups {
      forall e: Evidence ensures name in Raises(e) <==> name in e.groups {}
    }
    assert "deployment" != "config";
    forall e: Evidence ensures "deployment" in Raises(e) <==> "deployment" in e.groups && !e.rulesOutDeploy {}
    forall e: Evidence ensures "config" in Raises(e) <==> "config" in e.groups && !e.rulesOutConfig {}
  }

  /** The first deployment, onset and recovery are the earliest items of their kind. */
  lemma FirstItemsMean(sig: Signals, ev: seq<Evidence>)
    requires Describes(sig, ev)
    ensures EarliestWhere((set e | e in ev && Deploys(e)), sig.deployment)
    ensures EarliestWhere((set e | e in ev && Symptomatic(e)), sig.onset)
    ensures EarliestWhere((set e | e in ev && ReportsRecovery(e)), sig.recovery)
    ensures sig.onset.Some? ==> sig.onset != sig.recovery
  {
    forall e ensures IsDeploy(e) <==> Deploys(e) { TestsMean(e); }
    forall e ensures IsOnset(e) <==> Symptomatic(e) { TestsMean(e); }
    forall e ensures IsRecovery(e) <==> ReportsRecovery(e) { TestsMean(e); }
    EarliestMeans(ev, IsDeploy, sig.deployment, set e | e in ev && Deploys(e));
    EarliestMeans(ev, IsOnset, sig.onset, set e | e in ev && Symptomatic(e));
    EarliestMeans(ev, IsRecovery, sig.recovery, set e | e in ev && ReportsRecovery(e));
  }

  /** An added item that rules a deployment out neither raises that keyword nor changes the first
      deployment. */
  lemma RuledOutAddsNoDeployment(s1: Signals, s2: Signals, ev: seq<Evidence>, e: Evidence)
    requires DistinctEvidence(ev + [e]) && e.rulesOutDeploy && Describes(s1, ev) && Describes(s2, ev + [e])
    ensures s1.deployment == s2.deployment
    ensures "deployment" in s1.keywords <==> "deployment" in s2.keywords
  {
    var more := ev + [e];
    assert forall x :: x in more <==> x in ev || x == e;
    assert more[..|ev|] == ev;
    assert IsEarliest(more, IsDeploy, s1.deployment) by { assert !IsDeploy(e); }
    EarliestUnique(more, IsDeploy, s1.deployment, s2.deployment);
    KeywordsMean(s1, ev);
    KeywordsMean(s2, more);
  }

  /** The specification does not depend on the order of the evidence. */
  lemma DescribesPermutation(sig: Signals, s: seq<Evidence>, t: seq<Evidence>)
    requires Describes(sig, s) && multiset(s) == multiset(t)
    ensures Describes(sig, t)
  {
    CountsSame(s, t);
    forall e ensures e in s <==> e in t { assert e in multiset(s) <==> e in multiset(t); }
    forall name ensures Raised(s, name) <==> Raised(t, name) { }
  }

  lemma EarliestUnique(ev: seq<Evidence>, test: Evidence -> bool, a: Option<Evidence>, b: Option<Evidence>)
    requires DistinctEvidence(ev) && IsEarliest(ev, test, a) && IsEarliest(ev, test, b)
    ensures a == b
  {
    if a.Some? && b.Some? {
      LessTotal(a.value.id, b.value.id);
      var i :| 0 <= i < |ev| && ev[i] == a.value;
      var j :| 0 <= j < |ev| && ev[j] == b.value;
    }
  }

  /** With distinct ids a summary is determined by the evidence as a set: permuting or
      re-batching the evidence gives the same signals. */
  lemma SignalsDetermined(s1: Signals, s2: Signals, ev1: seq<Evidence>, ev2: seq<Evidence>)
    requires DistinctEvidence(ev1) && multiset(ev1) == multiset(ev2)
    requires Describes(s1, ev1) && Describes(s2, ev2)
    ensures s1 == s2
  {
    DescribesPermutation(s2, ev2, ev1);
    EarliestUnique(ev1, IsDeploy, s1.deployment, s2.deployment);
    EarliestUnique(ev1, IsOnset, s1.onset, s2.onset);
    EarliestUnique(ev1, IsRecovery, s1.recovery, s2.recovery);
    assert s1.keywords == s2.keywords;
  }

  /** The time order, on which lock detection works, does not depend on the order of arrival. */
  lemma TimeOrderDetermined(ev1: seq<Evidence>, ev2: seq<Evidence>)
    requires DistinctEvidence(ev1) && multiset(ev1) == multiset(ev2)
    ensures SortedByTime(ev1) == SortedByTime(ev2)
  {
    BeforeOrder();
    NoDuplicatesCounts(ev1);
    forall x, y | x in multiset(ev1) && y in multiset(ev1) && x != y ensures Before(x, y) || Before(y, x) {
      var i :| 0 <= i < |ev1| && ev1[i] == x;
      var j :| 0 <= j < |ev1| && ev1[j] == y;
      LessTotal(x.id, y.id);
    }
    SortOrderIndependent(ev1, ev2, Before);
  }

  // ----- Monotonicity -----

  /** A later summary has found at least the item found before, or an earlier one. */
  ghost predicate NotLater(r: Option<Evidence>, old0: Option<Evidence>) {
    old0.Some? ==> r.Some? && !Before(old0.value, r.value)
  }

  ghost predicate Grown(more: Signals, sig: Signals) {
    && sig.categories <= more.categories && sig.keywords <= more.keywords && sig.entities <= more.entities
    && NotLater(more.deployment, sig.deployment)
    && NotLater(more.onset, sig.onset)
    && NotLater(more.recovery, sig.recovery)
  }

  /** Added evidence never removes a keyword or a count, and never moves the first
      deployment, the onset or the recovery later. */
  lemma MoreEvidenceGrows(sig: Signals, more: Signals, ev: seq<Evidence>, added: seq<Evidence>)
    requires Describes(sig, ev) && Describes(more, ev + added)
    ensures Grown(more, sig)
  {
    assert multiset(ev + added) == multiset(ev) + multiset(added);
    CountsGrow(ev, ev + added);
    assert forall e :: e in ev ==> e in ev + added;
    forall name | name in sig.keywords ensures name in more.keywords {
      var e :| e in ev && name in Raises(e);
      assert e in ev + added;
    }
  }

  predicate Has(sig: Signals, c: Category) { sig.categories[c] > 0 }

  predicate SignalTriggered(sig: Signals, t: string) {
    || t in sig.keywords
    || (t == "config" && Has(sig, ConfigurationChanges))
    || (t == "restart" && ("restart" in sig.keywords || "memory" in sig.keywords))
    || (t == "deploy_detected" && sig.deployment.Some?)
    || (t == "database" && Has(sig, DatabaseEvents))
    || (t == "cert" && Has(sig, SecurityEvents))
    || (t == "dns" && Has(sig, NetworkEvents))
    || (t == "memory" && "restart" in sig.keywords)
    || (t == "dependency" && Has(sig, TraceEvents))
    || (t == "auth" && Has(sig, SecurityEvents))
    || (t == "human" && Has(sig, HumanContext))
    || (t == "capacity" && Has(sig, Metrics))
    || (t == "performance" && "latency" in sig.keywords)
    || (t == "infrastructure" && Has(sig, InfrastructureEvents))
    || (t == "kubernetes" && "restart" in sig.keywords)
    || (t == "storage" && Has(sig, InfrastructureEvents))
    || (t == "loadbalancer" && Has(sig, NetworkEvents))
    || (t == "featureflag" && Has(sig, ConfigurationChanges))
  }

  /** A trigger that fires keeps firing when evidence is added. */
  lemma NeverUntriggered(sig: Signals, more: Signals, ev: seq<Evidence>, added: seq<Evidence>, t: string)
    requires Describes(sig, ev) && Describes(more, ev + added) && SignalTriggered(sig, t)
    ensures SignalTriggered(more, t)
  {
    MoreEvidenceGrows(sig, more, ev, added);
    forall c ensures sig.categories[c] <= more.categories[c] { }
  }

  // ----- The pass -----

  lemma RaisedSnoc(ev: seq<Evidence>, i: nat, name: string)
    requires i < |ev|
    ensures Raised(ev[..i + 1], name) <==> Raised(ev[..i], name) || name in Raises(ev[i])
  {
    assert ev[..i + 1] == ev[..i] + [ev[i]];
    if name in Raises(ev[i]) { assert ev[i] in ev[..i + 1]; }
  }

  function OrElse(r: Option<Evidence>, test: bool, e: Evidence): Option<Evidence> {
    if r.None? && test then Some(e) else r
  }

  /** What one item adds to a summary of earlier items. */
  function Absorb(sig: Signals, e: Evidence): Signals {
    sig.(categories := sig.categories + multiset{e.category},
         entities := sig.entities + EntityOf(e),
         keywords := sig.keywords + Raises(e),
         deployment := OrElse(sig.deployment, IsDeploy(e), e),
         onset := OrElse(sig.onset, IsOnset(e), e),
         recovery := OrElse(sig.recovery, IsRecovery(e), e))
  }

  lemma CollectStep(sig: Signals, ev: seq<Evidence>, i: nat)
    requires Sorted(ev, Before) && i < |ev| && Collects(sig, ev[..i])
    ensures Collects(Absorb(sig, ev[i]), ev[..i + 1])
  {
    assert ev[..i + 1][..i] == ev[..i];
    FirstIsEarliest(ev, i, IsDeploy, sig.deployment);
    FirstIsEarliest(ev, i, IsOnset, sig.onset);
    FirstIsEarliest(ev, i, IsRecovery, sig.recovery);
    forall name ensures name in Absorb(sig, ev[i]).keywords <==> Raised(ev[..i + 1], name) {
      RaisedSnoc(ev, i, name);
    }
  }

  /** The body of the loop. */
  method Record(before: Signals, e: Evidence) returns (sig: Signals)
    ensures sig == Absorb(before, e)
  {
    sig := before.(categories := before.categories + multiset{e.category});
    if e.entity != "" {
      sig := sig.(entities := sig.entities + multiset{e.entity});
    }
    sig := sig.(keywords := sig.keywords + Raises(e));
    if IsDeploy(e) && sig.deployment.None? {
      sig := sig.(deployment := Some(e));
    }
    if IsRecovery(e) && sig.recovery.None? {
      sig := sig.(recovery := Some(e));
    }
    if IsOnset(e) && sig.onset.None? {
      sig := sig.(onset := Some(e));
    }
  }

  /** One pass over the evidence in (time, id) order. */
  method Analyze(evidence: seq<Evidence>) returns (sig: Signals)
    ensures Describes(sig, evidence)
  {
    var ordered := SortedByTime(evidence);
    BeforeOrder();
    SortSorts(evidence, Before);
    sig := NoSignals;
    for i := 0 to |ordered|
      invariant Collects(sig, ordered[..i])
      invariant !sig.deployBefore && !sig.deployAfter
    {
      CollectStep(sig, ordered, i);
      sig := Record(sig, ordered[i]);
    }
    assert ordered[..|ordered|] == ordered;
    if sig.deployment.Some? && sig.onset.Some? {
      if sig.deployment.value.time <= sig.onset.value.time {
        sig := sig.(deployBefore := true);
      } else {
        sig := sig.(deployAfter := true);
      }
    }
    SortKeeps(evidence, Before);
    DescribesPermutation(sig, ordered, evidence);
  }
}
