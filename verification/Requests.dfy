/** Which evidence the protocol asks for at the end of a run, and when it asks for none. */
module Requests {
  import opened Sorting
  import opened Protocol
  import opened PlanRuns

  lemma GainOrder()
    ensures StrictWeak(Gainful)
  {
  }

  lemma OpenMembers(qs: seq<Question>)
    ensures forall q :: q in OpenQuestions(qs) <==> q in qs && q.Open()
  {
    var f := Filter(qs, (q: Question) => q.Open());
    FilterMembers(qs, (q: Question) => q.Open());
    SortMembers(f, Prior);
  }

  ghost predicate Wanted(qs: seq<Question>, present: set<Category>, r: Request) {
    exists q :: q in qs && q.Open() && MissingOf(q.required, present) != [] && r == RequestFor(q, present)
  }

  lemma {:induction false} CandidateMembers(open: seq<Question>, present: set<Category>)
    ensures forall r :: r in Candidates(open, present) <==>
      exists q :: q in open && MissingOf(q.required, present) != [] && r == RequestFor(q, present)
  {
    if open != [] {
      var n := |open| - 1;
      CandidateMembers(open[..n], present);
      assert forall q :: q in open <==> q in open[..n] || q == open[n];
    }
  }

  /** All requests that could be made, best first. */
  function Ranking(qs: seq<Question>, present: set<Category>): seq<Request> {
    StableSort(Candidates(OpenQuestions(qs), present), Gainful)
  }

  lemma RankingMembers(qs: seq<Question>, present: set<Category>)
    ensures forall r :: r in Ranking(qs, present) <==> Wanted(qs, present, r)
    ensures Sorted(Ranking(qs, present), Gainful)
  {
    var open := OpenQuestions(qs);
    OpenMembers(qs);
    CandidateMembers(open, present);
    SortMembers(Candidates(open, present), Gainful);
    GainOrder();
    SortSorts(Candidates(open, present), Gainful);
  }

  /** The requests are at most two, for open questions that lack evidence; every requested
      category is absent; none left out would gain more than one made; and there is one
      whenever some open question lacks evidence. */
  lemma RequestsAreBest(qs: seq<Question>, present: set<Category>)
    ensures var rs := ChosenRequests(qs, present);
            && |rs| <= 2
            && (forall r :: r in rs ==> Wanted(qs, present, r))
            && (forall r, c :: r in rs && c in r.categories ==> c !in present)
            && (forall r :: r in rs ==> r.categories != [])
            && (forall r, t :: r in rs && Wanted(qs, present, t) && t !in rs ==> t.gain <= r.gain)
            && ((exists t :: Wanted(qs, present, t) && t !in rs) ==> |rs| == 2)
  {
    var all := Ranking(qs, present);
    var rs := ChosenRequests(qs, present);
    RankingMembers(qs, present);
    forall r | r in rs ensures r in all && Wanted(qs, present, r) && r.categories != [] {
    }
    forall r, c | r in rs && c in r.categories ensures c !in present {
      var q :| q in qs && q.Open() && MissingOf(q.required, present) != [] && r == RequestFor(q, present);
      FilterMembers(q.required, (c: Category) => c !in present);
    }
    forall r, t | r in rs && Wanted(qs, present, t) && t !in rs ensures t.gain <= r.gain {
      var i :| 0 <= i < |rs| && rs[i] == r;
      var j :| 0 <= j < |all| && all[j] == t;
      assert j >= |rs| && all[i] == r;
      assert !Gainful(all[j], all[i]);
    }
  }

  ghost predicate AllPresent(qs: seq<Question>, present: set<Category>) {
    forall q, c :: q in qs && q.Open() && c in q.required ==> c in present
  }

  lemma NoneMissing(required: seq<Category>, present: set<Category>)
    ensures MissingOf(required, present) == [] <==> forall c :: c in required ==> c in present
  {
    FilterMembers(required, (c: Category) => c !in present);
    if MissingOf(required, present) != [] {
      assert MissingOf(required, present)[0] in MissingOf(required, present);
    }
  }

  lemma {:induction false} LegacyCategories(rs: seq<Request>)
    ensures forall l :: l in Legacy(rs) ==> exists r :: r in rs && l.category in r.categories
    ensures (forall r :: r in rs ==> r.categories != []) ==> |Legacy(rs)| == |rs|
  {
    if rs != [] {
      var n := |rs| - 1;
      LegacyCategories(rs[..n]);
      assert rs[n] in rs && forall r :: r in rs[..n] ==> r in rs;
    }
  }

  lemma {:induction false} CategoryRequestsMembers(q: Question, cats: seq<Category>)
    ensures forall l :: l in CategoryRequests(q, cats) ==> l.category in cats
  {
    if cats != [] {
      CategoryRequestsMembers(q, cats[..|cats| - 1]);
    }
  }

  lemma {:induction false} FallbackMembers(open: seq<Question>)
    ensures forall l :: l in Fallback(open) ==> exists q :: q in open && l.category in q.required
  {
    if open != [] {
      var n := |open| - 1;
      FallbackMembers(open[..n]);
      CategoryRequestsMembers(open[n], open[n].required);
      assert open[n] in open && forall q :: q in open[..n] ==> q in open;
    }
  }

  /** Some open question lacks evidence exactly when a request is made. */
  lemma RequestsMade(qs: seq<Question>, present: set<Category>)
    ensures ChosenRequests(qs, present) == [] <==> AllPresent(qs, present)
  {
    var all := Ranking(qs, present);
    RankingMembers(qs, present);
    assert ChosenRequests(qs, present) == [] <==> all == [];
    if all != [] {
      assert Wanted(qs, present, all[0]) by { assert all[0] in all; }
      var q :| q in qs && q.Open() && MissingOf(q.required, present) != [] && all[0] == RequestFor(q, present);
      NoneMissing(q.required, present);
    }
    if !AllPresent(qs, present) {
      var q, c :| q in qs && q.Open() && c in q.required && c !in present;
      NoneMissing(q.required, present);
      assert Wanted(qs, present, RequestFor(q, present));
    }
  }

  /** Missing evidence is reported exactly as long as some open question lacks evidence. */
  lemma MissingEvidenceExact(qs: seq<Question>, present: set<Category>)
    ensures MissingEvidence(qs, present) == [] <==> AllPresent(qs, present)
  {
    var rs := ChosenRequests(qs, present);
    var required := RequiredEvidence(qs, present);
    RequestsMade(qs, present);
    RequestsAreBest(qs, present);
    LegacyCategories(rs);
    FilterMembers(required, (r: LegacyRequest) => r.category !in present);
    var missing := MissingEvidence(qs, present);
    assert missing != [] ==> missing[0] in missing;
    if AllPresent(qs, present) {
      FallbackMembers(OpenQuestions(qs));
      OpenMembers(qs);
    } else {
      var l := Legacy(rs)[0];
      assert l in Legacy(rs);
      assert l in required && l.category !in present;
    }
  }

  // ----- Which questions are asked about -----

  /** What a request is worth: a third of the question's priority and eight for each missing
      category, kept within 10 and 40. */
  function Worth(q: Question, present: set<Category>): real {
    var v := q.priority as real / 3.0 + 8.0 * |Filter(q.required, (c: Category) => c !in present)| as real;
    if v >= 40.0 then 40.0 else if v <= 10.0 then 10.0 else v
  }

  predicate Lacking(q: Question, present: set<Category>) {
    q.Open() && exists c | c in q.required :: c !in present
  }

  predicate Urgency(q: Question, p: Priority) {
    (p == High <==> q.priority >= 80) && (p == Low <==> q.priority < 50)
  }

  /** The request for a question: all its missing categories, its urgency and its worth. */
  ghost predicate Names(q: Question, present: set<Category>, r: Request) {
    && r.questionId == q.id
    && r.categories == Filter(q.required, (c: Category) => c !in present)
    && (forall c :: c in r.categories <==> c in q.required && c !in present)
    && Urgency(q, r.priority)
    && r.gain == Worth(q, present)
  }

  lemma RequestNames(q: Question, present: set<Category>)
    ensures Names(q, present, RequestFor(q, present))
    ensures MissingOf(q.required, present) != [] <==> exists c :: c in q.required && c !in present
  {
    FilterMembers(q.required, (c: Category) => c !in present);
    NoneMissing(q.required, present);
  }

  lemma WantedNames(qs: seq<Question>, present: set<Category>, r: Request)
    ensures Wanted(qs, present, r) <==> exists q :: q in qs && Lacking(q, present) && r == RequestFor(q, present)
  {
    forall q: Question ensures MissingOf(q.required, present) != [] <==> exists c :: c in q.required && c !in present {
      RequestNames(q, present);
    }
  }

  /** Worth more, or as much with a higher priority, or both the same and earlier in the plan. */
  predicate Better(qs: seq<Question>, present: set<Category>, i: nat, j: nat)
    requires i < |qs| && j < |qs|
  {
    var v, w := Worth(qs[i], present), Worth(qs[j], present);
    v > w || (v == w && (qs[i].priority > qs[j].priority || (qs[i].priority == qs[j].priority && i < j)))
  }

  lemma PriorOrder()
    ensures StrictWeak(Prior)
  {
  }

  lemma PrecedesAppend<T>(s: seq<T>, t: seq<T>, x: T, y: T)
    requires Precedes(s, x, y)
    ensures Precedes(s + t, x, y)
  {
    var i, j :| 0 <= i < j < |s| && s[i] == x && s[j] == y;
    assert (s + t)[i] == x && (s + t)[j] == y;
  }

  lemma {:induction false} CandidatesPrecede(open: seq<Question>, present: set<Category>, a: Question, b: Question)
    requires Precedes(open, a, b) && MissingOf(a.required, present) != [] && MissingOf(b.required, present) != []
    ensures Precedes(Candidates(open, present), RequestFor(a, present), RequestFor(b, present))
  {
    var i, j :| 0 <= i < j < |open| && open[i] == a && open[j] == b;
    var n := |open| - 1;
    var less := Candidates(open[..n], present);
    if j < n {
      assert open[..n][i] == a && open[..n][j] == b;
      CandidatesPrecede(open[..n], present, a, b);
      PrecedesAppend(less, if MissingOf(open[n].required, present) == [] then [] else [RequestFor(open[n], present)],
                     RequestFor(a, present), RequestFor(b, present));
    } else {
      CandidateMembers(open[..n], present);
      assert open[..n][i] == a;
      assert RequestFor(a, present) in less;
      var k :| 0 <= k < |less| && less[k] == RequestFor(a, present);
      var all := Candidates(open, present);
      assert all == less + [RequestFor(b, present)];
      assert all[k] == RequestFor(a, present) && all[|less|] == RequestFor(b, present);
    }
  }

  lemma OpenPrecede(qs: seq<Question>, i: nat, j: nat)
    requires i < |qs| && j < |qs| && qs[i].Open() && qs[j].Open()
    requires qs[i].priority > qs[j].priority || (qs[i].priority == qs[j].priority && i < j)
    ensures Precedes(OpenQuestions(qs), qs[i], qs[j])
  {
    var keep := (q: Question) => q.Open();
    OpenMembers(qs);
    PriorOrder();
    if qs[i].priority > qs[j].priority {
      SortSorts(Filter(qs, keep), Prior);
      SortedPrecedes(OpenQuestions(qs), Prior, qs[i], qs[j]);
    } else {
      FilterKeepsOrder(qs, keep, qs[i], qs[j]);
      SortStable(Filter(qs, keep), Prior, qs[i], qs[j]);
    }
  }

  /** The better of two questions that lack evidence comes first in the ranking. */
  lemma BetterFirst(qs: seq<Question>, present: set<Category>, i: nat, j: nat)
    requires i < |qs| && j < |qs| && Lacking(qs[i], present) && Lacking(qs[j], present) && Better(qs, present, i, j)
    ensures Precedes(Ranking(qs, present), RequestFor(qs[i], present), RequestFor(qs[j], present))
  {
    var a, b := RequestFor(qs[i], present), RequestFor(qs[j], present);
    RequestNames(qs[i], present);
    RequestNames(qs[j], present);
    RankingMembers(qs, present);
    GainOrder();
    assert Wanted(qs, present, a) && Wanted(qs, present, b);
    if Worth(qs[i], present) > Worth(qs[j], present) {
      SortedPrecedes(Ranking(qs, present), Gainful, a, b);
    } else {
      OpenPrecede(qs, i, j);
      CandidatesPrecede(OpenQuestions(qs), present, qs[i], qs[j]);
      SortStable(Candidates(OpenQuestions(qs), present), Gainful, a, b);
    }
  }

  lemma DistinctSnoc<T>(s: seq<T>, x: T)
    requires NoDuplicates(s) && x !in s
    ensures NoDuplicates(s + [x])
  {
    var r := s + [x];
    forall i, j | 0 <= i < j < |r| ensures r[i] != r[j] {
      assert r[i] == s[i] && s[i] in s;
    }
  }

  lemma {:induction false} CandidatesDistinct(open: seq<Question>, present: set<Category>)
    requires DistinctIds(open)
    ensures NoDuplicates(Candidates(open, present))
  {
    if open != [] {
      var n := |open| - 1;
      CandidatesDistinct(open[..n], present);
      CandidateMembers(open[..n], present);
      assert forall q :: q in open[..n] ==> q.id != open[n].id;
      DistinctSnoc(Candidates(open[..n], present), RequestFor(open[n], present));
    }
  }

  lemma DistinctCons(q: Question, rest: seq<Question>)
    requires DistinctIds(rest) && forall x :: x in rest ==> x.id != q.id
    ensures DistinctIds([q] + rest)
  {
    var r := [q] + rest;
    forall i, j | 0 <= i < j < |r| ensures r[i].id != r[j].id {
      assert r[j] == rest[j - 1] && rest[j - 1] in rest;
    }
  }

  lemma {:induction false} FilterDistinct(qs: seq<Question>, keep: Question -> bool)
    requires DistinctIds(qs)
    ensures DistinctIds(Filter(qs, keep))
  {
    if qs != [] {
      var rest := Filter(qs[1..], keep);
      FilterDistinct(qs[1..], keep);
      FilterMembers(qs[1..], keep);
      forall q | q in rest ensures q.id != qs[0].id { assert q in qs[1..]; }
      DistinctCons(qs[0], rest);
    }
  }

  lemma OpenDistinct(qs: seq<Question>)
    requires DistinctIds(qs)
    ensures DistinctIds(OpenQuestions(qs))
  {
    var f := Filter(qs, (q: Question) => q.Open());
    FilterDistinct(qs, (q: Question) => q.Open());
    SortDistinct(f, Prior);
    SortMembers(f, Prior);
    var open := OpenQuestions(qs);
    forall i, j | 0 <= i < j < |open| ensures open[i].id != open[j].id {
      assert open[i] in f && open[j] in f && open[i] != open[j];
    }
  }

  lemma RankingDistinct(qs: seq<Question>, present: set<Category>)
    requires DistinctIds(qs)
    ensures NoDuplicates(Ranking(qs, present))
  {
    OpenDistinct(qs);
    CandidatesDistinct(OpenQuestions(qs), present);
    SortDistinct(Candidates(OpenQuestions(qs), present), Gainful);
  }

  /** What stands before one of the first two is one of them. */
  lemma TakenFirst(all: seq<Request>, a: Request, b: Request)
    requires NoDuplicates(all) && Precedes(all, a, b) && b in TakeTwo(all)
    ensures a in TakeTwo(all)
    ensures a == all[0]
  {
    var i, j :| 0 <= i < j < |all| && all[i] == a && all[j] == b;
    var k :| 0 <= k < |TakeTwo(all)| && TakeTwo(all)[k] == b;
    assert all[k] == b;
    assert j == k;
    assert TakeTwo(all)[i] == a;
  }

  predicate AskedAbout(rs: seq<Request>, id: string) { exists r | r in rs :: r.questionId == id }

  /** The question's own request is among those made. */
  lemma AskedItself(qs: seq<Question>, present: set<Category>, i: nat)
    requires DistinctIds(qs) && i < |qs| && AskedAbout(ChosenRequests(qs, present), qs[i].id)
    ensures Lacking(qs[i], present) && RequestFor(qs[i], present) in ChosenRequests(qs, present)
  {
    RequestsAreBest(qs, present);
    var r :| r in ChosenRequests(qs, present) && r.questionId == qs[i].id;
    WantedNames(qs, present, r);
    var q :| q in qs && Lacking(q, present) && r == RequestFor(q, present);
    var j :| 0 <= j < |qs| && qs[j] == q;
    assert i == j;
  }

  /** Of the open questions that lack evidence the best two are asked about: worth most, then of the
      highest priority, then first in the plan. */
  lemma BestAreAsked(qs: seq<Question>, present: set<Category>, i: nat, j: nat)
    requires DistinctIds(qs) && i < |qs| && j < |qs| && Lacking(qs[j], present)
    requires AskedAbout(ChosenRequests(qs, present), qs[i].id)
    requires !AskedAbout(ChosenRequests(qs, present), qs[j].id)
    ensures Better(qs, present, i, j)
  {
    var all := Ranking(qs, present);
    var a, b := RequestFor(qs[i], present), RequestFor(qs[j], present);
    AskedItself(qs, present, i);
    RankingDistinct(qs, present);
    if Better(qs, present, j, i) {
      BetterFirst(qs, present, j, i);
      TakenFirst(all, b, a);
    }
  }

  /** No question that is left out has a higher priority and lacks as much as one asked about. */
  lemma NoneOverlooked(qs: seq<Question>, present: set<Category>, i: nat, j: nat)
    requires DistinctIds(qs) && i < |qs| && j < |qs| && Lacking(qs[j], present)
    requires AskedAbout(ChosenRequests(qs, present), qs[i].id)
    requires !AskedAbout(ChosenRequests(qs, present), qs[j].id)
    ensures var absent := (c: Category) => c !in present;
            qs[j].priority <= qs[i].priority || |Filter(qs[j].required, absent)| < |Filter(qs[i].required, absent)|
  {
    BestAreAsked(qs, present, i, j);
  }

  /** Each request is for one open question, whose missing categories it all names. */
  lemma RequestsName(qs: seq<Question>, present: set<Category>, r: Request)
    requires r in ChosenRequests(qs, present)
    ensures exists q :: q in qs && Lacking(q, present) && Names(q, present, r)
  {
    RequestsAreBest(qs, present);
    WantedNames(qs, present, r);
    var q :| q in qs && Lacking(q, present) && r == RequestFor(q, present);
    RequestNames(q, present);
  }

  lemma RequestItself(qs: seq<Question>, present: set<Category>, i: nat, r: Request)
    requires DistinctIds(qs) && i < |qs| && Wanted(qs, present, r) && r.questionId == qs[i].id
    ensures r == RequestFor(qs[i], present)
  {
    WantedNames(qs, present, r);
    var q :| q in qs && Lacking(q, present) && r == RequestFor(q, present);
    RequestNames(q, present);
    var j :| 0 <= j < |qs| && qs[j] == q;
    assert qs[j].id == qs[i].id;
  }

  lemma FirstIsOther(qs: seq<Question>, present: set<Category>)
    requires DistinctIds(qs) && |ChosenRequests(qs, present)| == 2
    ensures NoDuplicates(Ranking(qs, present))
    ensures ChosenRequests(qs, present)[0] == Ranking(qs, present)[0]
    ensures ChosenRequests(qs, present)[0] != ChosenRequests(qs, present)[1]
  {
    RankingDistinct(qs, present);
  }

  /** The first of two requests is for the better question. */
  lemma RequestsInOrder(qs: seq<Question>, present: set<Category>, i: nat, j: nat)
    requires DistinctIds(qs) && i < |qs| && j < |qs| && |ChosenRequests(qs, present)| == 2
    requires ChosenRequests(qs, present)[0].questionId == qs[i].id
    requires ChosenRequests(qs, present)[1].questionId == qs[j].id
    ensures i != j && Better(qs, present, i, j)
  {
    var rs := ChosenRequests(qs, present);
    RequestsAreBest(qs, present);
    assert rs[0] in rs && rs[1] in rs;
    RequestItself(qs, present, i, rs[0]);
    RequestItself(qs, present, j, rs[1]);
    AskedItself(qs, present, i);
    AskedItself(qs, present, j);
    FirstIsOther(qs, present);
    if Better(qs, present, j, i) {
      BetterFirst(qs, present, j, i);
      TakenFirst(Ranking(qs, present), rs[1], rs[0]);
    }
  }

  // ----- The lists of categories -----

  lemma {:induction false} LegacyAt(rs: seq<Request>)
    requires forall r :: r in rs ==> r.categories != []
    ensures |Legacy(rs)| == |rs|
    ensures forall i :: 0 <= i < |rs| ==> rs[i].categories != []
    ensures forall i :: 0 <= i < |rs| ==> Legacy(rs)[i] == LegacyRequest(rs[i].categories[0], rs[i].priority)
  {
    if rs != [] {
      var n := |rs| - 1;
      LegacyAt(rs[..n]);
      assert rs[n] in rs;
    }
  }

  lemma {:induction false} CategoryRequestsExactly(q: Question, cats: seq<Category>)
    ensures forall l :: l in CategoryRequests(q, cats) <==> l.category in cats && Urgency(q, l.priority)
  {
    if cats != [] {
      var n := |cats| - 1;
      CategoryRequestsExactly(q, cats[..n]);
      assert cats == cats[..n] + [cats[n]];
    }
  }

  lemma {:induction false} FallbackExactly(open: seq<Question>)
    ensures forall l :: l in Fallback(open) <==>
      exists q :: q in open && l.category in q.required && Urgency(q, l.priority)
  {
    if open != [] {
      var n := |open| - 1;
      FallbackExactly(open[..n]);
      CategoryRequestsExactly(open[n], open[n].required);
      assert forall q :: q in open <==> q in open[..n] || q == open[n];
    }
  }

  /** The evidence listed: while some is missing, the first category of each request, all of it
      missing; otherwise whatever the open questions require, none of it missing. */
  lemma EvidenceListed(qs: seq<Question>, present: set<Category>)
    ensures var rs, listed := ChosenRequests(qs, present), RequiredEvidence(qs, present);
            if AllPresent(qs, present) then
              MissingEvidence(qs, present) == []
              && forall l :: l in listed <==>
                   exists q :: q in qs && q.Open() && l.category in q.required && Urgency(q, l.priority)
            else
              MissingEvidence(qs, present) == listed && |listed| == |rs|
              && forall i :: 0 <= i < |rs| ==>
                   rs[i].categories != [] && listed[i] == LegacyRequest(rs[i].categories[0], rs[i].priority)
  {
    var rs := ChosenRequests(qs, present);
    RequestsMade(qs, present);
    RequestsAreBest(qs, present);
    MissingEvidenceExact(qs, present);
    LegacyAt(rs);
    if AllPresent(qs, present) {
      FallbackExactly(OpenQuestions(qs));
      OpenMembers(qs);
    } else {
      forall l | l in Legacy(rs) ensures l.category !in present {
        var i :| 0 <= i < |rs| && l == Legacy(rs)[i];
        assert rs[i] in rs && rs[i].categories[0] in rs[i].categories;
      }
      KeepAll(Legacy(rs), (r: LegacyRequest) => r.category !in present);
    }
  }

  lemma {:induction false} KeepAll<T>(s: seq<T>, keep: T -> bool)
    requires forall x :: x in s ==> keep(x)
    ensures Filter(s, keep) == s
  {
    if s != [] { KeepAll(s[1..], keep); }
  }
}
