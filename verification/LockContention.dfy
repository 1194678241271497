/** Lock-queue detection: database events of one entity are sorted by time in place, cut
    greedily into runs that span at most the release window, and searched for a run with
    both a holder and a waiter. */
module LockContention {
  import opened InsertionSort
  import opened Sorting
  import opened Wrappers
  import opened Protocol
  import opened Signals

  /** Two seconds. */
  const RELEASE_WINDOW: int := 2_000_000_000

  predicate Earlier(a: Evidence, b: Evidence) { a.time < b.time }

  function TimeOf(e: Evidence): int { e.time }

  // ----- Greedy clusters -----

  function Concat(segs: seq<seq<Evidence>>): seq<Evidence> {
    if segs == [] then [] else segs[0] + Concat(segs[1..])
  }

  lemma {:induction false} ConcatSnoc(segs: seq<seq<Evidence>>, g: seq<Evidence>)
    ensures Concat(segs + [g]) == Concat(segs) + g
  {
    if segs == [] {
      assert segs + [g] == [g] && Concat([g]) == g + Concat([]);
    } else {
      ConcatSnoc(segs[1..], g);
      assert (segs + [g])[1..] == segs[1..] + [g];
    }
  }

  /** A segment: some events, none later than the window after the first. */
  ghost predicate Compact(g: seq<Evidence>, window: int) {
    g != [] && forall e :: e in g ==> e.time - g[0].time <= window
  }

  predicate Apart(g: seq<Evidence>, h: seq<Evidence>, window: int) {
    g != [] && h != [] && h[0].time - g[0].time > window
  }

  ghost predicate Consecutive(segs: seq<seq<Evidence>>, window: int) {
    forall k, l :: 0 <= k < l < |segs| && l == k + 1 ==> Apart(segs[k], segs[l], window)
  }

  /** The greedy segmentation: a new segment starts with the first event that is more than
      the window after the start of the current one. */
  ghost predicate Greedy(s: seq<Evidence>, segs: seq<seq<Evidence>>, window: int) {
    && Concat(segs) == s
    && (forall g :: g in segs ==> Compact(g, window))
    && Consecutive(segs, window)
  }

  predicate Long(g: seq<Evidence>) { |g| >= 2 }

  /** There is only one greedy segmentation. */
  lemma {:induction false} GreedyUnique(s: seq<Evidence>, a: seq<seq<Evidence>>, b: seq<seq<Evidence>>, window: int)
    requires Greedy(s, a, window) && Greedy(s, b, window)
    ensures a == b
    decreases |a|
  {
    assert a != [] ==> a[0] in a;
    assert b != [] ==> b[0] in b;
    if a != [] && b != [] {
      NotShorter(s, a, b, window);
      NotShorter(s, b, a, window);
      assert s[..|a[0]|] == a[0] && s[..|b[0]|] == b[0];
      assert s[|a[0]|..] == Concat(a[1..]) && s[|b[0]|..] == Concat(b[1..]);
      assert Greedy(s[|a[0]|..], a[1..], window) && Greedy(s[|a[0]|..], b[1..], window);
      GreedyUnique(s[|a[0]|..], a[1..], b[1..], window);
    }
  }

  lemma WithinFirst(s: seq<Evidence>, segs: seq<seq<Evidence>>, window: int, i: nat)
    requires Greedy(s, segs, window) && segs != [] && i < |segs[0]|
    ensures |segs[0]| <= |s| && s[i].time - s[0].time <= window
  {
    assert segs[0] in segs;
    assert s == segs[0] + Concat(segs[1..]);
    assert s[i] == segs[0][i] && segs[0][i] in segs[0];
  }

  lemma GapAfterFirst(s: seq<Evidence>, segs: seq<seq<Evidence>>, window: int)
    requires Greedy(s, segs, window) && segs != [] && |segs[0]| < |s|
    ensures s[|segs[0]|].time - s[0].time > window
  {
    assert segs[0] in segs;
    assert s == segs[0] + Concat(segs[1..]);
    assert segs[1..] != [] && segs[1] in segs;
    assert Concat(segs[1..]) == segs[1] + Concat(segs[1..][1..]);
    assert s[|segs[0]|] == segs[1][0];
    assert Apart(segs[0], segs[1], window);
  }

  lemma NotShorter(s: seq<Evidence>, a: seq<seq<Evidence>>, b: seq<seq<Evidence>>, window: int)
    requires Greedy(s, a, window) && Greedy(s, b, window) && a != [] && b != []
    ensures |a[0]| >= |b[0]|
  {
    if |a[0]| < |b[0]| {
      WithinFirst(s, b, window, |a[0]|);
      GapAfterFirst(s, a, window);
    }
  }

  lemma CloseSegment(s: seq<Evidence>, segs: seq<seq<Evidence>>, start: nat, i: nat, window: int)
    requires start < i <= |s| && Greedy(s[..start], segs, window)
    requires segs != [] ==> Apart(segs[|segs| - 1], s[start..i], window)
    requires forall j :: start <= j < i ==> s[j].time - s[start].time <= window
    ensures Greedy(s[..i], segs + [s[start..i]], window)
  {
    ConcatSnoc(segs, s[start..i]);
    assert s[..i] == s[..start] + s[start..i];
    forall g | g in segs + [s[start..i]] ensures Compact(g, window) {
      assert g in segs || g == s[start..i];
    }
  }

  lemma LongSnoc(segs: seq<seq<Evidence>>, g: seq<Evidence>)
    ensures Filter(segs + [g], Long) == Filter(segs, Long) + if Long(g) then [g] else []
  {
    FilterConcat(segs, [g], Long);
  }

  /** The clusters are the segments of at least two events of the greedy segmentation, the
      events taken in stable time order; there are none for no events. */
  method ClusterByTimestamp(evs: seq<Evidence>, window: int)
    returns (clusters: seq<seq<Evidence>>, ghost segs: seq<seq<Evidence>>)
    requires window >= 0
    ensures Greedy(StableSort(evs, Earlier), segs, window) && clusters == Filter(segs, Long)
  {
    if evs == [] {
      return [], [];
    }
    var a := new Evidence[|evs|](i requires 0 <= i < |evs| => evs[i]);
    assert a[..] == evs;
    SortInPlace(a, TimeOf);
    SortLastIsStableSort(evs, TimeOf, Earlier);
    SortKeeps(evs, Earlier);
    clusters, segs := Segment(a[..], window);
  }

  method Segment(s: seq<Evidence>, window: int) returns (clusters: seq<seq<Evidence>>, ghost segs: seq<seq<Evidence>>)
    requires window >= 0 && s != []
    ensures Greedy(s, segs, window) && clusters == Filter(segs, Long)
  {
    clusters, segs := [], [];
    var start := 0;
    for i := 1 to |s| + 1
      invariant start < i && (start == i - 1 || start < |s|)
      invariant i <= |s| ==> Greedy(s[..start], segs, window)
      invariant i <= |s| && segs != [] ==> segs[|segs| - 1] != [] && s[start].time - segs[|segs| - 1][0].time > window
      invariant i <= |s| ==> forall j :: start <= j < i ==> s[j].time - s[start].time <= window
      invariant i == |s| + 1 ==> Greedy(s, segs, window)
      invariant clusters == Filter(segs, Long)
    {
      if i == |s| || s[i].time - s[start].time > window {
        CloseSegment(s, segs, start, i, window);
        LongSnoc(segs, s[start..i]);
        segs := segs + [s[start..i]];
        if i - start >= 2 {
          clusters := clusters + [s[start..i]];
        }
        start := i;
        assert i == |s| ==> s[..i] == s;
      }
    }
  }

  // ----- Lock queues -----

  predicate Holder(e: Evidence) { e.rows.Some? && e.rows.value > 0 }

  predicate Waiter(e: Evidence) { e.rows.Some? && e.rows.value == 0 }

  predicate DatabaseEventOf(e: Evidence, entity: string) {
    e.category == DatabaseEvents && e.entity == entity && entity != ""
  }

  /** A cluster with both a holder and a waiter. */
  ghost predicate Queue(g: seq<Evidence>) {
    (exists h :: h in g && Holder(h)) && exists w :: w in g && Waiter(w)
  }

  function EventsOf(ordered: seq<Evidence>, entity: string): seq<Evidence> {
    Filter(ordered, (e: Evidence) => DatabaseEventOf(e, entity))
  }

  /** g is a segment of the entity's greedy segmentation and holds a lock queue. */
  ghost predicate QueueOf(ordered: seq<Evidence>, entity: string, g: seq<Evidence>) {
    Queue(g) && exists segs :: g in segs && Greedy(StableSort(EventsOf(ordered, entity), Earlier), segs, RELEASE_WINDOW)
  }

  ghost predicate Contended(ordered: seq<Evidence>, entity: string) {
    exists g :: QueueOf(ordered, entity, g)
  }

  datatype Lock = Lock(present: bool, entity: string, holders: seq<string>, waiters: seq<string>, serialized: bool,
                       missingTimeouts: bool, healthyMetrics: bool)

  function Ids(g: seq<Evidence>, keep: Evidence -> bool): seq<string> {
    if g == [] then []
    else Ids(g[..|g| - 1], keep) + if keep(g[|g| - 1]) then [g[|g| - 1].id] else []
  }

  lemma {:induction false} IdsMembers(g: seq<Evidence>, keep: Evidence -> bool)
    ensures forall id :: id in Ids(g, keep) <==> exists e :: e in g && keep(e) && e.id == id
  {
    if g != [] {
      var n := |g| - 1;
      IdsMembers(g[..n], keep);
      assert forall e :: e in g <==> e in g[..n] || e == g[n];
    }
  }

  method PartitionLockQueue(g: seq<Evidence>) returns (holders: seq<string>, waiters: seq<string>)
    ensures holders == Ids(g, Holder) && waiters == Ids(g, Waiter)
    ensures holders != [] && waiters != [] <==> Queue(g)
  {
    holders, waiters := [], [];
    for i := 0 to |g|
      invariant holders == Ids(g[..i], Holder) && waiters == Ids(g[..i], Waiter)
    {
      assert g[..i + 1][..i] == g[..i];
      if g[i].rows.None? {
        continue;
      }
      if g[i].rows.value > 0 {
        holders := holders + [g[i].id];
      } else if g[i].rows.value == 0 {
        waiters := waiters + [g[i].id];
      }
    }
    assert g[..|g|] == g;
    IdsSome(g, Holder);
    IdsSome(g, Waiter);
  }

  lemma IdsSome(g: seq<Evidence>, keep: Evidence -> bool)
    ensures Ids(g, keep) != [] <==> exists e :: e in g && keep(e)
  {
    IdsMembers(g, keep);
    var ids := Ids(g, keep);
    assert ids != [] ==> ids[0] in ids;
    if e :| e in g && keep(e) {
      assert e.id in ids;
    }
  }

  /** A lone event cannot be both holder and waiter. */
  lemma QueueIsLong(g: seq<Evidence>)
    requires Queue(g)
    ensures Long(g)
  {
    var h :| h in g && Holder(h);
    var w :| w in g && Waiter(w);
  }

  /** The first queue among the clusters of one entity. */
  method FindQueue(evs: seq<Evidence>) returns (found: Option<seq<Evidence>>, ghost segs: seq<seq<Evidence>>)
    ensures Greedy(StableSort(evs, Earlier), segs, RELEASE_WINDOW)
    ensures found.Some? ==> found.value in segs && Queue(found.value)
    ensures found.None? ==> forall g :: g in segs ==> !Queue(g)
  {
    var clusters;
    clusters, segs := ClusterByTimestamp(evs, RELEASE_WINDOW);
    FilterMembers(segs, Long);
    found := None;
    for i := 0 to |clusters|
      invariant forall k :: 0 <= k < i ==> !Queue(clusters[k])
    {
      assert clusters[i] in clusters;
      var holders, waiters := PartitionLockQueue(clusters[i]);
      if holders != [] && waiters != [] {
        return Some(clusters[i]), segs;
      }
    }
    forall g | g in segs ensures !Queue(g) {
      assert Long(g) ==> g in clusters;
      if Queue(g) { QueueIsLong(g); }
    }
  }

  /** Entities are tried in an arbitrary order, the order of a hash map; whether a queue is
      found does not depend on it, only which one. */
  method FindLock(ordered: seq<Evidence>) returns (lock: Option<(string, seq<Evidence>)>)
    ensures lock.None? ==> forall entity :: !Contended(ordered, entity)
    ensures lock.Some? ==> Contended(ordered, lock.value.0)
    ensures lock.Some? ==> QueueOf(ordered, lock.value.0, lock.value.1)
  {
    lock := None;
    var rest := set e | e in ordered && DatabaseEventOf(e, e.entity) :: e.entity;
    ghost var all := rest;
    while rest != {}
      invariant rest <= all
      invariant forall entity :: entity in all && entity !in rest ==> !Contended(ordered, entity)
      decreases rest
    {
      var entity :| entity in rest;
      rest := rest - {entity};
      var evs := EventsOf(ordered, entity);
      var found, segs := FindQueue(evs);
      if |evs| >= 2 && found.Some? {
        assert QueueOf(ordered, entity, found.value);
        return Some((entity, found.value));
      }
      NotContended(ordered, entity, segs, found);
    }
    forall entity ensures !Contended(ordered, entity) {
      if entity !in all { NoEvents(ordered, entity); }
    }
  }

  lemma NotContended(ordered: seq<Evidence>, entity: string, segs: seq<seq<Evidence>>, found: Option<seq<Evidence>>)
    requires Greedy(StableSort(EventsOf(ordered, entity), Earlier), segs, RELEASE_WINDOW)
    requires |EventsOf(ordered, entity)| < 2 || found.None?
    requires found.None? ==> forall g :: g in segs ==> !Queue(g)
    ensures !Contended(ordered, entity)
  {
    var s := StableSort(EventsOf(ordered, entity), Earlier);
    SortKeeps(EventsOf(ordered, entity), Earlier);
    forall other, g | Greedy(s, other, RELEASE_WINDOW) && g in other ensures !Queue(g) {
      GreedyUnique(s, segs, other, RELEASE_WINDOW);
      if Queue(g) {
        QueueIsLong(g);
        PartLength(other, g);
      }
    }
  }

  lemma {:induction false} PartLength(segs: seq<seq<Evidence>>, g: seq<Evidence>)
    requires g in segs
    ensures |g| <= |Concat(segs)|
    ensures forall e :: e in g ==> e in Concat(segs)
  {
    if segs[0] != g {
      assert g in segs[1..];
      PartLength(segs[1..], g);
    }
  }

  lemma NoEvents(ordered: seq<Evidence>, entity: string)
    requires forall e :: e in ordered ==> !DatabaseEventOf(e, entity)
    ensures !Contended(ordered, entity)
  {
    var evs := EventsOf(ordered, entity);
    assert evs == [] || evs[0] in evs;
    FilterMembers(ordered, (e: Evidence) => DatabaseEventOf(e, entity));
    forall segs, g | Greedy([], segs, RELEASE_WINDOW) && g in segs ensures !Queue(g) {
      PartLength(segs, g);
    }
  }

  predicate MissingTimeout(e: Evidence) { e.category == ConfigurationChanges && e.missingTimeout }

  predicate HealthyMetrics(e: Evidence) { e.category == Metrics && e.healthyDatabase }

  method AnyItem(ev: seq<Evidence>, test: Evidence -> bool) returns (b: bool)
    ensures b <==> exists e :: e in ev && test(e)
  {
    for i := 0 to |ev|
      invariant forall k :: 0 <= k < i ==> !test(ev[k])
    {
      if test(ev[i]) {
        return true;
      }
    }
    return false;
  }

  /** The whole detector on evidence in time order. */
  method AnalyzeLockContention(ordered: seq<Evidence>) returns (lc: Lock)
    ensures lc.present <==> exists entity :: Contended(ordered, entity)
    ensures lc.serialized == lc.present
    ensures lc.present ==> QueueReported(ordered, lc)
    ensures !lc.present ==> lc.entity == "" && lc.holders == [] && lc.waiters == []
    ensures lc.missingTimeouts <==> exists e :: e in ordered && MissingTimeout(e)
    ensures lc.healthyMetrics <==> exists e :: e in ordered && HealthyMetrics(e)
  {
    var found := FindLock(ordered);
    var entity, holders, waiters := "", [], [];
    if found.Some? {
      entity := found.value.0;
      holders, waiters := PartitionLockQueue(found.value.1);
    }
    var missing := AnyItem(ordered, MissingTimeout);
    var healthy := AnyItem(ordered, HealthyMetrics);
    lc := Lock(found.Some?, entity, holders, waiters, found.Some?, missing, healthy);
  }

  /** The reported holders and waiters are those of one queue of the reported entity. */
  ghost predicate QueueReported(ordered: seq<Evidence>, lc: Lock) {
    exists g :: QueueOf(ordered, lc.entity, g) && lc.holders == Ids(g, Holder) && lc.waiters == Ids(g, Waiter)
  }

  /** What is reported are the ids of the queue's events with a positive row count and of those with
      none; there is one of each. */
  lemma ReportMeans(ordered: seq<Evidence>, lc: Lock) returns (g: seq<Evidence>)
    requires QueueReported(ordered, lc)
    ensures QueueOf(ordered, lc.entity, g) && lc.holders != [] && lc.waiters != []
    ensures forall id :: id in lc.holders <==> exists e :: e in g && e.rows.Some? && e.rows.value > 0 && e.id == id
    ensures forall id :: id in lc.waiters <==> exists e :: e in g && e.rows == Some(0) && e.id == id
  {
    g :| QueueOf(ordered, lc.entity, g) && lc.holders == Ids(g, Holder) && lc.waiters == Ids(g, Waiter);
    IdsMembers(g, Holder);
    IdsMembers(g, Waiter);
    var h :| h in g && Holder(h);
    var w :| w in g && Waiter(w);
    assert h.id in lc.holders && w.id in lc.waiters;
  }

  /** Detection is sound: a holder and a waiter on one entity within two seconds. */
  lemma ContentionIsReal(ordered: seq<Evidence>, entity: string) returns (h: Evidence, w: Evidence)
    requires Contended(ordered, entity)
    ensures h in ordered && w in ordered && DatabaseEventOf(h, entity) && DatabaseEventOf(w, entity)
    ensures Holder(h) && Waiter(w) && -RELEASE_WINDOW <= h.time - w.time <= RELEASE_WINDOW
    ensures h.category == DatabaseEvents == w.category && h.entity == entity == w.entity && entity != ""
    ensures h.rows.Some? && h.rows.value > 0 && w.rows == Some(0) && -2_000_000_000 <= h.time - w.time <= 2_000_000_000
  {
    var evs := EventsOf(ordered, entity);
    var s := StableSort(evs, Earlier);
    var g :| QueueOf(ordered, entity, g);
    var segs :| g in segs && Greedy(s, segs, RELEASE_WINDOW);
    h :| h in g && Holder(h);
    w :| w in g && Waiter(w);
    SortMembers(evs, Earlier);
    FilterMembers(ordered, (e: Evidence) => DatabaseEventOf(e, entity));
    SortSorts(evs, Earlier);
    PartLength(segs, g);
    FirstIsLeast(s, segs, g);
  }

  lemma {:induction false} FirstIsLeast(s: seq<Evidence>, segs: seq<seq<Evidence>>, g: seq<Evidence>)
    requires Concat(segs) == s && Sorted(s, Earlier) && g in segs && g != []
    ensures forall e :: e in g ==> g[0].time <= e.time
    decreases |segs|
  {
    if segs[0] == g {
      forall e | e in g ensures g[0].time <= e.time {
        var i :| 0 <= i < |g| && g[i] == e;
        assert s[i] == e && s[0] == g[0];
        assert i > 0 ==> !Earlier(s[i], s[0]);
      }
    } else {
      assert s[|segs[0]|..] == Concat(segs[1..]);
      FirstIsLeast(s[|segs[0]|..], segs[1..], g);
    }
  }

  // ----- What greedy cutting misses -----

  function At(id: string, time: int, rows: Option<int>): Evidence {
    Evidence(id, time, DatabaseEvents, "orders", {}, false, false, false, false, rows)
  }

  /** Detection is not complete: an earlier event can end a segment between a holder and a
      waiter that are within the window of each other. */
  lemma GreedyCutsSplitQueue()
    ensures var a, h, w := At("a", 0, None), At("h", 1_500_000_000, Some(1)), At("w", 3_000_000_000, Some(0));
            Holder(h) && Waiter(w) && w.time - h.time <= RELEASE_WINDOW && !Contended([a, h, w], "orders")
  {
    var a, h, w := At("a", 0, None), At("h", 1_500_000_000, Some(1)), At("w", 3_000_000_000, Some(0));
    var s := [a, h, w];
    ThreeSorted(a, h, w);
    TwoSegments(a, h, w);
    forall other, g | Greedy(s, other, RELEASE_WINDOW) && g in other ensures !Queue(g) {
      GreedyUnique(s, [[a, h], [w]], other, RELEASE_WINDOW);
      assert g == [a, h] || g == [w];
    }
  }

  lemma TwoSegments(a: Evidence, b: Evidence, c: Evidence)
    requires a.time <= b.time <= a.time + RELEASE_WINDOW < c.time
    ensures Greedy([a, b, c], [[a, b], [c]], RELEASE_WINDOW)
  {
    var segs := [[a, b], [c]];
    assert segs[1..] == [[c]] && segs[1..][1..] == [];
    assert Concat(segs[1..]) == [c] + Concat([]);
    assert Concat(segs) == [a, b] + Concat(segs[1..]) == [a, b, c];
    assert forall e :: e in [a, b] ==> e.time - a.time <= RELEASE_WINDOW;
  }

  lemma ThreeSorted(a: Evidence, b: Evidence, c: Evidence)
    requires DatabaseEventOf(a, "orders") && DatabaseEventOf(b, "orders") && DatabaseEventOf(c, "orders")
    requires a.time < b.time < c.time
    ensures StableSort(EventsOf([a, b, c], "orders"), Earlier) == [a, b, c]
  {
    var keep := (e: Evidence) => DatabaseEventOf(e, "orders");
    assert [a, b, c][1..] == [b, c] && [b, c][1..] == [c] && [c][1..] == [];
    assert Filter([c], keep) == [c];
    assert Filter([b, c], keep) == [b] + Filter([c], keep);
    assert Filter([a, b, c], keep) == [a] + Filter([b, c], keep) == [a, b, c];
    assert StableSort([c], Earlier) == [c];
    assert StableSort([b, c], Earlier) == Insert(b, StableSort([c], Earlier), Earlier) == [b, c];
    assert StableSort([a, b, c], Earlier) == Insert(a, StableSort([b, c], Earlier), Earlier) == [a, b, c];
  }

  // ----- When nothing is missed -----

  predicate Within(a: Evidence, b: Evidence) { -RELEASE_WINDOW <= a.time - b.time <= RELEASE_WINDOW }

  /** Being within the window of each other is transitive on these events. */
  ghost predicate WindowTransitive(evs: seq<Evidence>) {
    forall a, b, c :: a in evs && b in evs && c in evs && Within(a, b) && Within(b, c) ==> Within(a, c)
  }

  ghost predicate Together(segs: seq<seq<Evidence>>, x: Evidence, y: Evidence) {
    exists g :: g in segs && x in g && y in g
  }

  ghost predicate Segmented(s: seq<Evidence>, segs: seq<seq<Evidence>>) {
    Sorted(s, Earlier) && Greedy(s, segs, RELEASE_WINDOW)
  }

  lemma SegmentedRest(s: seq<Evidence>, segs: seq<seq<Evidence>>)
    requires Segmented(s, segs) && segs != []
    ensures segs[0] != [] && s == segs[0] + Concat(segs[1..]) && Segmented(Concat(segs[1..]), segs[1..])
  {
    assert segs[0] in segs;
    assert s[|segs[0]|..] == Concat(segs[1..]);
    forall g | g in segs[1..] ensures Compact(g, RELEASE_WINDOW) { assert g in segs; }
  }

  lemma InFirst(s: seq<Evidence>, segs: seq<seq<Evidence>>, e: Evidence)
    requires Segmented(s, segs) && segs != [] && e in segs[0]
    ensures s != [] && 0 <= e.time - s[0].time <= RELEASE_WINDOW
  {
    SegmentedRest(s, segs);
    var i :| 0 <= i < |segs[0]| && segs[0][i] == e;
    assert s[0] == segs[0][0] && s[i] == e && segs[0] in segs;
    assert i > 0 ==> !Earlier(s[i], s[0]);
  }

  lemma InRest(s: seq<Evidence>, segs: seq<seq<Evidence>>, e: Evidence)
    requires Segmented(s, segs) && segs != [] && e in Concat(segs[1..])
    ensures s != [] && e.time - s[0].time > RELEASE_WINDOW
  {
    SegmentedRest(s, segs);
    var n, rest := |segs[0]|, Concat(segs[1..]);
    var i :| 0 <= i < |rest| && rest[i] == e;
    assert s[n + i] == e && s[n] == rest[0];
    GapAfterFirst(s, segs, RELEASE_WINDOW);
    assert i > 0 ==> !Earlier(s[n + i], s[n]);
  }

  lemma {:induction false} EachInSome(segs: seq<seq<Evidence>>, e: Evidence)
    requires e in Concat(segs)
    ensures exists g :: g in segs && e in g
  {
    if e in segs[0] { assert segs[0] in segs; } else {
      EachInSome(segs[1..], e);
      var g :| g in segs[1..] && e in g;
      assert g in segs;
    }
  }

  /** On transitive events the segments are the classes of events within the window. */
  lemma {:induction false} PairsTogether(s: seq<Evidence>, segs: seq<seq<Evidence>>, x: Evidence, y: Evidence)
    requires Segmented(s, segs) && WindowTransitive(s) && x in s && y in s && Within(x, y)
    ensures Together(segs, x, y)
    decreases |segs|
  {
    SegmentedRest(s, segs);
    assert segs[0] in segs;
    var rest := Concat(segs[1..]);
    assert s[0] in s && forall e :: e in s <==> e in segs[0] || e in rest;
    if x in segs[0] {
      InFirst(s, segs, x);
      assert Within(s[0], x) && Within(s[0], y);
      if y in rest { InRest(s, segs, y); }
    } else if y in segs[0] {
      InFirst(s, segs, y);
      assert Within(s[0], y) && Within(y, x) && Within(s[0], x);
      InRest(s, segs, x);
    } else {
      PairsTogether(rest, segs[1..], x, y);
      var g :| g in segs[1..] && x in g && y in g;
      assert g in segs;
    }
  }

  lemma {:induction false} TogetherIsWithin(s: seq<Evidence>, segs: seq<seq<Evidence>>, a: Evidence, b: Evidence,
                                            c: Evidence)
    requires Segmented(s, segs) && Together(segs, a, b) && Together(segs, b, c)
    ensures Within(a, c)
    decreases |segs|
  {
    SegmentedRest(s, segs);
    var g :| g in segs && a in g && b in g;
    var h :| h in segs && b in h && c in h;
    if b in segs[0] {
      InFirst(s, segs, b);
      if g != segs[0] { RestHolds(segs, g, b); InRest(s, segs, b); }
      if h != segs[0] { RestHolds(segs, h, b); InRest(s, segs, b); }
      InFirst(s, segs, a);
      InFirst(s, segs, c);
    } else {
      assert g in segs[1..] && h in segs[1..];
      TogetherIsWithin(Concat(segs[1..]), segs[1..], a, b, c);
    }
  }

  lemma RestHolds(segs: seq<seq<Evidence>>, g: seq<Evidence>, e: Evidence)
    requires g in segs && g != segs[0] && e in g
    ensures e in Concat(segs[1..])
  {
    assert g in segs[1..];
    PartLength(segs[1..], g);
  }

  /** Where transitivity fails, a pair within the window is split. */
  lemma SplitPair(s: seq<Evidence>, segs: seq<seq<Evidence>>) returns (x: Evidence, y: Evidence)
    requires Segmented(s, segs) && !WindowTransitive(s)
    ensures x in s && y in s && Within(x, y) && !Together(segs, x, y)
  {
    var a, b, c :| a in s && b in s && c in s && Within(a, b) && Within(b, c) && !Within(a, c);
    if Together(segs, a, b) && Together(segs, b, c) { TogetherIsWithin(s, segs, a, b, c); }
    if Together(segs, a, b) { x, y := b, c; } else { x, y := a, b; }
  }

  lemma {:induction false} SegmentationExists(s: seq<Evidence>) returns (segs: seq<seq<Evidence>>)
    ensures Greedy(s, segs, RELEASE_WINDOW)
  {
    if s == [] {
      segs := [];
    } else {
      var n := |s| - 1;
      var before: seq<seq<Evidence>> := SegmentationExists(s[..n]);
      assert before != [] ==> before[|before| - 1] in before;
      if before != [] && s[n].time - before[|before| - 1][0].time <= RELEASE_WINDOW {
        segs := LongerLast(s[..n], before, s[n]);
        assert s == s[..n] + [s[n]];
      } else {
        segs := before + [[s[n]]];
        ConcatSnoc(before, [s[n]]);
        assert s == s[..n] + [s[n]];
        forall g | g in segs ensures Compact(g, RELEASE_WINDOW) { assert g in before || g == [s[n]]; }
      }
    }
  }

  lemma LongerLast(s: seq<Evidence>, segs: seq<seq<Evidence>>, e: Evidence) returns (r: seq<seq<Evidence>>)
    requires Greedy(s, segs, RELEASE_WINDOW) && segs != []
    requires segs[|segs| - 1] != [] && e.time - segs[|segs| - 1][0].time <= RELEASE_WINDOW
    ensures Greedy(s + [e], r, RELEASE_WINDOW)
  {
    var m := |segs| - 1;
    var last := segs[m];
    assert last in segs && segs == segs[..m] + [last];
    r := segs[..m] + [last + [e]];
    ConcatSnoc(segs[..m], last);
    ConcatSnoc(segs[..m], last + [e]);
    assert Concat(segs[..m]) + (last + [e]) == (Concat(segs[..m]) + last) + [e];
    forall g | g in r ensures Compact(g, RELEASE_WINDOW) {
      assert g in segs[..m] || g == last + [e];
    }
    forall k, l | 0 <= k < l < |r| && l == k + 1 ensures Apart(r[k], r[l], RELEASE_WINDOW) {
      assert Apart(segs[k], segs[l], RELEASE_WINDOW);
    }
  }

  // ----- The same events with other row counts -----

  function Relabel(e: Evidence, rowsOf: Evidence -> Option<int>): Evidence { e.(rows := rowsOf(e)) }

  function RelabelAll(s: seq<Evidence>, rowsOf: Evidence -> Option<int>): (r: seq<Evidence>)
    ensures |r| == |s|
  {
    if s == [] then [] else [Relabel(s[0], rowsOf)] + RelabelAll(s[1..], rowsOf)
  }

  function RelabelEach(segs: seq<seq<Evidence>>, rowsOf: Evidence -> Option<int>): (r: seq<seq<Evidence>>)
    ensures |r| == |segs|
  {
    if segs == [] then [] else [RelabelAll(segs[0], rowsOf)] + RelabelEach(segs[1..], rowsOf)
  }

  lemma {:induction false} RelabelAt(s: seq<Evidence>, rowsOf: Evidence -> Option<int>)
    ensures forall i :: 0 <= i < |s| ==> RelabelAll(s, rowsOf)[i] == Relabel(s[i], rowsOf)
  {
    if s != [] { RelabelAt(s[1..], rowsOf); }
  }

  lemma RelabelMembers(s: seq<Evidence>, rowsOf: Evidence -> Option<int>)
    ensures forall e :: e in s ==> Relabel(e, rowsOf) in RelabelAll(s, rowsOf)
    ensures forall f :: f in RelabelAll(s, rowsOf) ==> exists e :: e in s && f == Relabel(e, rowsOf)
  {
    RelabelAt(s, rowsOf);
    forall e | e in s ensures Relabel(e, rowsOf) in RelabelAll(s, rowsOf) {
      var i :| 0 <= i < |s| && s[i] == e;
      assert RelabelAll(s, rowsOf)[i] == Relabel(e, rowsOf);
    }
    forall f | f in RelabelAll(s, rowsOf) ensures exists e :: e in s && f == Relabel(e, rowsOf) {
      var i :| 0 <= i < |s| && RelabelAll(s, rowsOf)[i] == f;
      assert s[i] in s;
    }
  }

  lemma {:induction false} RelabelEachAt(segs: seq<seq<Evidence>>, rowsOf: Evidence -> Option<int>)
    ensures forall i :: 0 <= i < |segs| ==> RelabelEach(segs, rowsOf)[i] == RelabelAll(segs[i], rowsOf)
  {
    if segs != [] { RelabelEachAt(segs[1..], rowsOf); }
  }

  lemma {:induction false} RelabelConcat(s: seq<Evidence>, t: seq<Evidence>, rowsOf: Evidence -> Option<int>)
    ensures RelabelAll(s + t, rowsOf) == RelabelAll(s, rowsOf) + RelabelAll(t, rowsOf)
  {
    if s == [] {
      assert s + t == t;
    } else {
      calc {
        RelabelAll(s + t, rowsOf);
        { assert (s + t)[1..] == s[1..] + t; }
        [Relabel(s[0], rowsOf)] + RelabelAll(s[1..] + t, rowsOf);
        { RelabelConcat(s[1..], t, rowsOf); }
        [Relabel(s[0], rowsOf)] + (RelabelAll(s[1..], rowsOf) + RelabelAll(t, rowsOf));
        RelabelAll(s, rowsOf) + RelabelAll(t, rowsOf);
      }
    }
  }

  lemma {:induction false} RelabelInsert(x: Evidence, s: seq<Evidence>, rowsOf: Evidence -> Option<int>)
    ensures RelabelAll(Insert(x, s, Earlier), rowsOf) == Insert(Relabel(x, rowsOf), RelabelAll(s, rowsOf), Earlier)
  {
    if s == [] || !Earlier(s[0], x) {
      assert ([x] + s)[1..] == s;
    } else {
      RelabelInsert(x, s[1..], rowsOf);
      assert ([s[0]] + Insert(x, s[1..], Earlier))[1..] == Insert(x, s[1..], Earlier);
      assert RelabelAll(s, rowsOf)[1..] == RelabelAll(s[1..], rowsOf);
    }
  }

  lemma {:induction false} RelabelSort(s: seq<Evidence>, rowsOf: Evidence -> Option<int>)
    ensures RelabelAll(StableSort(s, Earlier), rowsOf) == StableSort(RelabelAll(s, rowsOf), Earlier)
  {
    if s != [] {
      RelabelSort(s[1..], rowsOf);
      RelabelInsert(s[0], StableSort(s[1..], Earlier), rowsOf);
      assert RelabelAll(s, rowsOf)[1..] == RelabelAll(s[1..], rowsOf);
    }
  }

  lemma {:induction false} RelabelEvents(s: seq<Evidence>, entity: string, rowsOf: Evidence -> Option<int>)
    ensures RelabelAll(EventsOf(s, entity), rowsOf) == EventsOf(RelabelAll(s, rowsOf), entity)
  {
    if s != [] {
      RelabelEvents(s[1..], entity, rowsOf);
      assert RelabelAll(s, rowsOf)[1..] == RelabelAll(s[1..], rowsOf);
      assert ([s[0]] + EventsOf(s[1..], entity))[1..] == EventsOf(s[1..], entity);
    }
  }

  lemma {:induction false} RelabelJoined(segs: seq<seq<Evidence>>, rowsOf: Evidence -> Option<int>)
    ensures Concat(RelabelEach(segs, rowsOf)) == RelabelAll(Concat(segs), rowsOf)
  {
    if segs != [] {
      RelabelJoined(segs[1..], rowsOf);
      RelabelConcat(segs[0], Concat(segs[1..]), rowsOf);
      assert RelabelEach(segs, rowsOf)[1..] == RelabelEach(segs[1..], rowsOf);
    }
  }

  /** The segmentation depends on the times only. */
  lemma RelabelGreedy(s: seq<Evidence>, segs: seq<seq<Evidence>>, rowsOf: Evidence -> Option<int>)
    requires Greedy(s, segs, RELEASE_WINDOW)
    ensures Greedy(RelabelAll(s, rowsOf), RelabelEach(segs, rowsOf), RELEASE_WINDOW)
  {
    RelabelJoined(segs, rowsOf);
    RelabelEachAt(segs, rowsOf);
    var r := RelabelEach(segs, rowsOf);
    forall g | g in r ensures Compact(g, RELEASE_WINDOW) {
      var i :| 0 <= i < |r| && r[i] == g;
      assert segs[i] in segs;
      RelabelAt(segs[i], rowsOf);
      RelabelMembers(segs[i], rowsOf);
    }
    forall k, l | 0 <= k < l < |r| && l == k + 1 ensures Apart(r[k], r[l], RELEASE_WINDOW) {
      assert Apart(segs[k], segs[l], RELEASE_WINDOW);
      RelabelAt(segs[k], rowsOf);
      RelabelAt(segs[l], rowsOf);
    }
  }

  function TimeOrdered(ordered: seq<Evidence>, entity: string): seq<Evidence> {
    StableSort(EventsOf(ordered, entity), Earlier)
  }

  lemma RelabelSegments(ordered: seq<Evidence>, entity: string, segs: seq<seq<Evidence>>,
                        rowsOf: Evidence -> Option<int>)
    requires Greedy(TimeOrdered(ordered, entity), segs, RELEASE_WINDOW)
    ensures Greedy(TimeOrdered(RelabelAll(ordered, rowsOf), entity), RelabelEach(segs, rowsOf), RELEASE_WINDOW)
  {
    RelabelEvents(ordered, entity, rowsOf);
    RelabelSort(EventsOf(ordered, entity), rowsOf);
    RelabelGreedy(TimeOrdered(ordered, entity), segs, rowsOf);
  }

  lemma RelabelEachMembers(segs: seq<seq<Evidence>>, rowsOf: Evidence -> Option<int>, q: seq<Evidence>)
    ensures q in RelabelEach(segs, rowsOf) <==> exists g :: g in segs && q == RelabelAll(g, rowsOf)
  {
    RelabelEachAt(segs, rowsOf);
    var all := RelabelEach(segs, rowsOf);
    if q in all {
      var i :| 0 <= i < |all| && all[i] == q;
      assert segs[i] in segs;
    }
    if g :| g in segs && q == RelabelAll(g, rowsOf) {
      var i :| 0 <= i < |segs| && segs[i] == g;
      assert all[i] == q;
    }
  }

  lemma ContendedIn(ordered: seq<Evidence>, entity: string, segs: seq<seq<Evidence>>)
    requires Greedy(TimeOrdered(ordered, entity), segs, RELEASE_WINDOW)
    ensures Contended(ordered, entity) <==> exists q :: q in segs && Queue(q)
  {
    if q :| q in segs && Queue(q) { assert QueueOf(ordered, entity, q); }
    if Contended(ordered, entity) {
      var q :| QueueOf(ordered, entity, q);
      var other :| q in other && Greedy(TimeOrdered(ordered, entity), other, RELEASE_WINDOW);
      GreedyUnique(TimeOrdered(ordered, entity), other, segs, RELEASE_WINDOW);
    }
  }

  /** Contention of the relabelled events is a queue in one of the same segments. */
  lemma RelabelContended(ordered: seq<Evidence>, entity: string, segs: seq<seq<Evidence>>,
                         rowsOf: Evidence -> Option<int>)
    requires Greedy(TimeOrdered(ordered, entity), segs, RELEASE_WINDOW)
    ensures Contended(RelabelAll(ordered, rowsOf), entity) <==> exists g :: g in segs && Queue(RelabelAll(g, rowsOf))
  {
    RelabelSegments(ordered, entity, segs, rowsOf);
    var all := RelabelEach(segs, rowsOf);
    ContendedIn(RelabelAll(ordered, rowsOf), entity, all);
    if q :| q in all && Queue(q) { RelabelEachMembers(segs, rowsOf, q); }
    if g :| g in segs && Queue(RelabelAll(g, rowsOf)) { RelabelEachMembers(segs, rowsOf, RelabelAll(g, rowsOf)); }
  }

  // ----- The theorem -----

  /** A holder and a waiter of the entity within the window of each other. */
  ghost predicate PairWithin(ordered: seq<Evidence>, entity: string) {
    exists h, w :: h in ordered && w in ordered && DatabaseEventOf(h, entity) && DatabaseEventOf(w, entity)
      && Holder(h) && Waiter(w) && Within(h, w)
  }

  /** Whatever rows the events report, a pair within the window is detected. */
  ghost predicate DetectsAll(ordered: seq<Evidence>, entity: string) {
    forall rowsOf: Evidence -> Option<int> ::
      PairWithin(RelabelAll(ordered, rowsOf), entity) ==> Contended(RelabelAll(ordered, rowsOf), entity)
  }

  lemma EntityEvents(ordered: seq<Evidence>, entity: string)
    ensures forall e :: e in TimeOrdered(ordered, entity) <==> e in ordered && DatabaseEventOf(e, entity)
    ensures Sorted(TimeOrdered(ordered, entity), Earlier)
  {
    FilterMembers(ordered, (e: Evidence) => DatabaseEventOf(e, entity));
    SortMembers(EventsOf(ordered, entity), Earlier);
    SortSorts(EventsOf(ordered, entity), Earlier);
  }

  predicate HolderFor(e: Evidence, rowsOf: Evidence -> Option<int>) { Holder(Relabel(e, rowsOf)) }

  predicate WaiterFor(e: Evidence, rowsOf: Evidence -> Option<int>) { Waiter(Relabel(e, rowsOf)) }

  lemma QueueFor(g: seq<Evidence>, rowsOf: Evidence -> Option<int>)
    ensures Queue(RelabelAll(g, rowsOf)) <==>
      (exists x :: x in g && HolderFor(x, rowsOf)) && exists y :: y in g && WaiterFor(y, rowsOf)
  {
    RelabelMembers(g, rowsOf);
  }

  lemma EventOrigin(ordered: seq<Evidence>, entity: string, rowsOf: Evidence -> Option<int>, f: Evidence)
    returns (e: Evidence)
    requires f in RelabelAll(ordered, rowsOf) && DatabaseEventOf(f, entity)
    ensures e in TimeOrdered(ordered, entity) && f == Relabel(e, rowsOf)
  {
    RelabelMembers(ordered, rowsOf);
    e :| e in ordered && f == Relabel(e, rowsOf);
    EntityEvents(ordered, entity);
  }

  lemma EventImage(ordered: seq<Evidence>, entity: string, rowsOf: Evidence -> Option<int>, e: Evidence)
    requires e in TimeOrdered(ordered, entity)
    ensures Relabel(e, rowsOf) in RelabelAll(ordered, rowsOf) && DatabaseEventOf(Relabel(e, rowsOf), entity)
  {
    EntityEvents(ordered, entity);
    RelabelMembers(ordered, rowsOf);
  }

  lemma PairFor(ordered: seq<Evidence>, entity: string, rowsOf: Evidence -> Option<int>)
    returns (x: Evidence, y: Evidence)
    requires PairWithin(RelabelAll(ordered, rowsOf), entity)
    ensures x in TimeOrdered(ordered, entity) && y in TimeOrdered(ordered, entity)
    ensures HolderFor(x, rowsOf) && WaiterFor(y, rowsOf) && Within(x, y)
  {
    var r := RelabelAll(ordered, rowsOf);
    var h, w :| h in r && w in r && DatabaseEventOf(h, entity) && DatabaseEventOf(w, entity)
                && Holder(h) && Waiter(w) && Within(h, w);
    x := EventOrigin(ordered, entity, rowsOf, h);
    y := EventOrigin(ordered, entity, rowsOf, w);
  }

  lemma PairShows(ordered: seq<Evidence>, entity: string, rowsOf: Evidence -> Option<int>, x: Evidence, y: Evidence)
    requires x in TimeOrdered(ordered, entity) && y in TimeOrdered(ordered, entity)
    requires HolderFor(x, rowsOf) && WaiterFor(y, rowsOf) && Within(x, y)
    ensures PairWithin(RelabelAll(ordered, rowsOf), entity)
  {
    EventImage(ordered, entity, rowsOf, x);
    EventImage(ordered, entity, rowsOf, y);
  }

  lemma TransitiveDetects(ordered: seq<Evidence>, entity: string, rowsOf: Evidence -> Option<int>)
    requires WindowTransitive(TimeOrdered(ordered, entity)) && PairWithin(RelabelAll(ordered, rowsOf), entity)
    ensures Contended(RelabelAll(ordered, rowsOf), entity)
  {
    var s := TimeOrdered(ordered, entity);
    var segs := SegmentationExists(s);
    EntityEvents(ordered, entity);
    var x, y := PairFor(ordered, entity, rowsOf);
    PairsTogether(s, segs, x, y);
    var g :| g in segs && x in g && y in g;
    QueueFor(g, rowsOf);
    RelabelContended(ordered, entity, segs, rowsOf);
  }

  /** The row counts that make x a holder, y a waiter and nothing else either. */
  function HolderAndWaiter(x: Evidence, y: Evidence): Evidence -> Option<int> {
    (e: Evidence) => if e == x then Some(1) else if e == y then Some(0) else None
  }

  lemma OnlyThese(x: Evidence, y: Evidence, e: Evidence)
    requires x != y
    ensures HolderFor(e, HolderAndWaiter(x, y)) <==> e == x
    ensures WaiterFor(e, HolderAndWaiter(x, y)) <==> e == y
  {
  }

  lemma SplitUndetected(ordered: seq<Evidence>, entity: string, segs: seq<seq<Evidence>>, x: Evidence, y: Evidence)
    requires Greedy(TimeOrdered(ordered, entity), segs, RELEASE_WINDOW) && x != y && !Together(segs, x, y)
    ensures !Contended(RelabelAll(ordered, HolderAndWaiter(x, y)), entity)
  {
    var rowsOf := HolderAndWaiter(x, y);
    RelabelContended(ordered, entity, segs, rowsOf);
    forall g | g in segs ensures !Queue(RelabelAll(g, rowsOf)) {
      QueueFor(g, rowsOf);
      forall e ensures HolderFor(e, rowsOf) <==> e == x { OnlyThese(x, y, e); }
      forall e ensures WaiterFor(e, rowsOf) <==> e == y { OnlyThese(x, y, e); }
    }
  }

  lemma SplitMissed(ordered: seq<Evidence>, entity: string)
    requires !WindowTransitive(TimeOrdered(ordered, entity))
    ensures !DetectsAll(ordered, entity)
  {
    var s := TimeOrdered(ordered, entity);
    var segs := SegmentationExists(s);
    EntityEvents(ordered, entity);
    var x, y := SplitPair(s, segs);
    EachInSome(segs, x);
    OnlyThese(x, y, x);
    OnlyThese(x, y, y);
    PairShows(ordered, entity, HolderAndWaiter(x, y), x, y);
    SplitUndetected(ordered, entity, segs, x, y);
  }

  /** Detection misses nothing, whatever row counts the entity's events report, exactly when
      being within the window of each other is transitive on their times. */
  lemma CompleteExactly(ordered: seq<Evidence>, entity: string)
    ensures DetectsAll(ordered, entity) <==> WindowTransitive(EventsOf(ordered, entity))
  {
    SortMembers(EventsOf(ordered, entity), Earlier);
    assert WindowTransitive(EventsOf(ordered, entity)) <==> WindowTransitive(TimeOrdered(ordered, entity));
    if WindowTransitive(TimeOrdered(ordered, entity)) {
      forall rowsOf: Evidence -> Option<int> | PairWithin(RelabelAll(ordered, rowsOf), entity)
        ensures Contended(RelabelAll(ordered, rowsOf), entity)
      {
        TransitiveDetects(ordered, entity, rowsOf);
      }
    } else {
      SplitMissed(ordered, entity);
    }
  }
}
