/** From scored archetype candidates to the ranked hypothesis field. */
module Archetypes {
  import opened Sorting
  import opened Hypotheses

  datatype Candidate = Candidate(hypothesisId: string, score: real, alwaysKeep: bool)

  predicate Keep(c: Candidate) { c.score > 0.0 || c.alwaysKeep }

  function Scores(cs: seq<Candidate>): (xs: seq<real>)
    ensures |xs| == |cs|
  {
    if cs == [] then [] else Scores(cs[..|cs| - 1]) + [cs[|cs| - 1].score]
  }

  /** The divisor: 1 when no score is positive in total. */
  function Divisor(cs: seq<Candidate>): (t: real)
    ensures t > 0.0
  {
    var total := Sum(Scores(cs));
    if total <= 0.0 then 1.0 else total
  }

  function Field(cs: seq<Candidate>, total: real): (hs: seq<Hypothesis>)
    requires total > 0.0
    ensures |hs| == |cs|
  {
    if cs == [] then []
    else
      var c := cs[|cs| - 1];
      Field(cs[..|cs| - 1], total) + [Hypothesis(c.hypothesisId, Round1(Share(c.score, total)), Proposed)]
  }

  /** More confident first, then by id. */
  predicate Ahead(a: Hypothesis, b: Hypothesis) {
    if a.confidence != b.confidence then a.confidence > b.confidence else Less(a.id, b.id)
  }

  lemma AheadOrder()
    ensures StrictWeak(Ahead)
  {
    forall a: Hypothesis ensures !Ahead(a, a) { LessIrreflexive(a.id); }
    forall a, b, c | Ahead(a, b) && Ahead(b, c) ensures Ahead(a, c) {
      if a.confidence == b.confidence == c.confidence { LessTransitive(a.id, b.id, c.id); }
    }
    forall a, b, c | !Ahead(a, b) && !Ahead(b, c) ensures !Ahead(a, c) {
      if a.confidence == b.confidence == c.confidence {
        LessTotal(a.id, b.id);
        LessTotal(b.id, c.id);
        if Less(a.id, c.id) && Less(c.id, b.id) { LessTransitive(a.id, c.id, b.id); }
      }
    }
  }

  function StatusAt(i: nat, confidence: real): HypothesisStatus {
    if i == 0 && confidence >= 60.0 then Leading
    else if i == 0 && confidence >= 35.0 then Supported
    else if confidence < 8.0 then Refuted
    else Proposed
  }

  method AssignStatuses(hs: array<Hypothesis>)
    modifies hs
    ensures forall i :: 0 <= i < hs.Length ==> hs[i] == old(hs[i]).(status := StatusAt(i, old(hs[i]).confidence))
  {
    for i := 0 to hs.Length
      invariant forall k :: 0 <= k < i ==> hs[k] == old(hs[k]).(status := StatusAt(k, old(hs[k]).confidence))
      invariant forall k :: i <= k < hs.Length ==> hs[k] == old(hs[k])
    {
      if i == 0 && hs[i].confidence >= 60.0 {
        hs[i] := hs[i].(status := Leading);
      } else if i == 0 && hs[i].confidence >= 35.0 {
        hs[i] := hs[i].(status := Supported);
      } else if hs[i].confidence < 8.0 {
        hs[i] := hs[i].(status := Refuted);
      } else {
        hs[i] := hs[i].(status := Proposed);
      }
    }
  }

  ghost predicate Ranked(cs: seq<Candidate>, rs: seq<Hypothesis>) {
    var kept := Filter(cs, Keep);
    var sorted := StableSort(Field(kept, Divisor(kept)), Ahead);
    && |rs| == |sorted|
    && forall i :: 0 <= i < |rs| ==> rs[i] == sorted[i].(status := StatusAt(i, sorted[i].confidence))
  }

  method TotalScore(kept: seq<Candidate>) returns (total: real)
    ensures total == Sum(Scores(kept))
  {
    total := 0.0;
    for i := 0 to |kept|
      invariant total == Sum(Scores(kept[..i]))
    {
      assert kept[..i + 1][..i] == kept[..i];
      assert Scores(kept[..i + 1])[..i] == Scores(kept[..i]);
      total := total + kept[i].score;
    }
    assert kept[..|kept|] == kept;
  }

  method CandidatesToHypotheses(cs: seq<Candidate>) returns (rs: array<Hypothesis>)
    ensures Ranked(cs, rs[..])
  {
    var kept := Filter(cs, Keep);
    var total := TotalScore(kept);
    if total <= 0.0 {
      total := 1.0;
    }
    var out: seq<Hypothesis> := [];
    for i := 0 to |kept|
      invariant out == Field(kept[..i], total)
    {
      assert kept[..i + 1][..i] == kept[..i];
      out := out + [Hypothesis(kept[i].hypothesisId, Round1(Share(kept[i].score, total)), Proposed)];
    }
    assert kept[..|kept|] == kept;
    var sorted := StableSort(out, Ahead);
    rs := new Hypothesis[|sorted|](i requires 0 <= i < |sorted| => sorted[i]);
    AssignStatuses(rs);
  }

  // ----- Properties of the field -----

  function Total(hs: seq<Hypothesis>): real { if hs == [] then 0.0 else hs[0].confidence + Total(hs[1..]) }

  lemma {:induction false} TotalInsert(x: Hypothesis, s: seq<Hypothesis>)
    ensures Total(Insert(x, s, Ahead)) == x.confidence + Total(s)
  {
    if s == [] || !Ahead(s[0], x) {
      assert ([x] + s)[1..] == s;
    } else {
      TotalInsert(x, s[1..]);
      assert ([s[0]] + Insert(x, s[1..], Ahead))[1..] == Insert(x, s[1..], Ahead);
    }
  }

  lemma {:induction false} TotalSort(s: seq<Hypothesis>)
    ensures Total(StableSort(s, Ahead)) == Total(s)
  {
    if s != [] {
      TotalSort(s[1..]);
      TotalInsert(s[0], StableSort(s[1..], Ahead));
    }
  }

  lemma {:induction false} TotalSnoc(s: seq<Hypothesis>, x: Hypothesis)
    ensures Total(s + [x]) == Total(s) + x.confidence
  {
    if s == [] {
      assert [] + [x] == [x];
    } else {
      TotalSnoc(s[1..], x);
      assert (s + [x])[1..] == s[1..] + [x];
    }
  }

  lemma {:induction false} SameTotal(a: seq<Hypothesis>, b: seq<Hypothesis>)
    requires |a| == |b| && forall i :: 0 <= i < |a| ==> a[i].confidence == b[i].confidence
    ensures Total(a) == Total(b)
  {
    if a != [] { SameTotal(a[1..], b[1..]); }
  }

  lemma {:induction false} FieldShares(cs: seq<Candidate>, total: real)
    requires total > 0.0
    ensures |Field(cs, total)| == |cs| == |Scores(cs)| && Total(Field(cs, total)) == Sum(Shares(Scores(cs), total))
    ensures forall i :: 0 <= i < |cs| ==> Field(cs, total)[i].confidence == Shares(Scores(cs), total)[i]
                                          && Scores(cs)[i] == cs[i].score
  {
    SharesAt(Scores(cs), total);
    if cs != [] {
      var n := |cs| - 1;
      FieldShares(cs[..n], total);
      SharesAt(Scores(cs[..n]), total);
      TotalSnoc(Field(cs[..n], total), Field(cs, total)[n]);
      assert Scores(cs)[..n] == Scores(cs[..n]);
      assert Shares(Scores(cs), total)[..n] == Shares(Scores(cs[..n]), total);
    }
  }

  lemma KeptNonNegative(cs: seq<Candidate>)
    requires forall c :: c in cs ==> c.score >= 0.0
    ensures NonNegative(Scores(Filter(cs, Keep)))
  {
    var kept := Filter(cs, Keep);
    FilterMembers(cs, Keep);
    FieldShares(kept, 1.0);
    forall i | 0 <= i < |kept| ensures Scores(kept)[i] >= 0.0 { assert kept[i] in kept; }
  }

  lemma RankedTotal(cs: seq<Candidate>, rs: seq<Hypothesis>)
    requires Ranked(cs, rs) && NonNegative(Scores(Filter(cs, Keep))) && Sum(Scores(Filter(cs, Keep))) > 0.0
    ensures 100.0 - 0.05 * |rs| as real <= Total(rs) <= 100.0 + 0.05 * |rs| as real
  {
    var kept := Filter(cs, Keep);
    var field := Field(kept, Divisor(kept));
    SharesProportional(Scores(kept));
    FieldShares(kept, Divisor(kept));
    SortKeeps(field, Ahead);
    TotalSort(field);
    SameTotal(StableSort(field, Ahead), rs);
  }

  lemma FieldInRange(cs: seq<Candidate>)
    requires NonNegative(Scores(cs)) && Sum(Scores(cs)) > 0.0
    ensures forall h :: h in Field(cs, Divisor(cs)) ==> 0.0 <= h.confidence <= 100.0
  {
    SharesProportional(Scores(cs));
    FieldShares(cs, Divisor(cs));
  }

  /** What a place in the ranking and a confidence say about the status. */
  ghost predicate FitStatus(i: int, h: Hypothesis) {
    && (h.status == Leading <==> i == 0 && h.confidence >= 60.0)
    && (h.status == Supported <==> i == 0 && 35.0 <= h.confidence < 60.0)
    && (h.status == Refuted <==> h.confidence < 8.0)
    && h.status != Accepted
  }

  /** The entries are those of the candidates with a positive score or to be kept in any case. */
  lemma EntriesAreKept(cs: seq<Candidate>, rs: seq<Hypothesis>)
    requires Ranked(cs, rs)
    ensures |rs| == |Filter(cs, (c: Candidate) => c.score > 0.0 || c.alwaysKeep)|
    ensures forall h :: h in rs ==> exists c :: c in cs && (c.score > 0.0 || c.alwaysKeep) && h.id == c.hypothesisId
  {
    var kept := Filter(cs, Keep);
    var field := Field(kept, Divisor(kept));
    SameFilter(cs, Keep, (c: Candidate) => c.score > 0.0 || c.alwaysKeep);
    SortKeeps(field, Ahead);
    forall h | h in rs ensures exists c :: c in cs && (c.score > 0.0 || c.alwaysKeep) && h.id == c.hypothesisId {
      var i :| 0 <= i < |rs| && rs[i] == h;
      var c := CandidateOf(cs, StableSort(field, Ahead)[i]);
    }
  }

  lemma CandidateOf(cs: seq<Candidate>, h: Hypothesis) returns (c: Candidate)
    requires var kept := Filter(cs, Keep); h in StableSort(Field(kept, Divisor(kept)), Ahead)
    ensures c in cs && Keep(c) && h.id == c.hypothesisId
  {
    var kept := Filter(cs, Keep);
    var field := Field(kept, Divisor(kept));
    SortMembers(field, Ahead);
    var k :| 0 <= k < |field| && field[k] == h;
    FieldAt(kept, Divisor(kept), k);
    FilterMembers(cs, Keep);
    c := kept[k];
  }

  /** They are ranked by confidence and, where it is equal, by id; only the first can lead or be supported. */
  lemma RankingExactly(cs: seq<Candidate>, rs: seq<Hypothesis>)
    requires Ranked(cs, rs)
    ensures forall i, j :: 0 <= i < j < |rs| ==> rs[i].confidence >= rs[j].confidence
    ensures forall i, j :: 0 <= i < j < |rs| && rs[i].confidence == rs[j].confidence ==> !Less(rs[j].id, rs[i].id)
    ensures forall i :: 0 <= i < |rs| ==> FitStatus(i, rs[i])
  {
    var kept := Filter(cs, Keep);
    var sorted := StableSort(Field(kept, Divisor(kept)), Ahead);
    AheadOrder();
    SortSorts(Field(kept, Divisor(kept)), Ahead);
    forall i, j | 0 <= i < j < |rs|
      ensures rs[i].confidence >= rs[j].confidence
      ensures rs[i].confidence == rs[j].confidence ==> !Less(rs[j].id, rs[i].id) {
      assert !Ahead(sorted[j], sorted[i]);
    }
  }

  lemma {:induction false} SameFilter<T>(s: seq<T>, a: T -> bool, b: T -> bool)
    requires forall x :: x in s ==> (a(x) <==> b(x))
    ensures Filter(s, a) == Filter(s, b)
  {
    if s != [] { SameFilter(s[1..], a, b); }
  }

  /** With non-negative scores, one of them positive: the confidences are within 0 and 100,
      add up to 100 up to 0.05 per entry, fall along the ranking, and only the first entry
      can lead or be supported. */
  lemma RankedField(cs: seq<Candidate>, rs: seq<Hypothesis>)
    requires Ranked(cs, rs) && (forall c :: c in cs ==> c.score >= 0.0) && Sum(Scores(Filter(cs, Keep))) > 0.0
    ensures forall i :: 0 <= i < |rs| ==> 0.0 <= rs[i].confidence <= 100.0
    ensures 100.0 - 0.05 * |rs| as real <= Total(rs) <= 100.0 + 0.05 * |rs| as real
    ensures forall i, j :: 0 <= i < j < |rs| ==> rs[i].confidence >= rs[j].confidence
    ensures forall i :: 0 <= i < |rs| ==> FitStatus(i, rs[i])
  {
    var kept := Filter(cs, Keep);
    var field := Field(kept, Divisor(kept));
    var sorted := StableSort(field, Ahead);
    KeptNonNegative(cs);
    RankedTotal(cs, rs);
    FieldInRange(kept);
    SortMembers(field, Ahead);
    forall i | 0 <= i < |rs| ensures 0.0 <= rs[i].confidence <= 100.0 {
      assert sorted[i] in sorted;
    }
    AheadOrder();
    SortSorts(field, Ahead);
    forall i, j | 0 <= i < j < |rs| ensures rs[i].confidence >= rs[j].confidence {
      assert !Ahead(sorted[j], sorted[i]);
    }
  }

  /** The confidence that a kept candidate is given. */
  function ConfidenceOf(cs: seq<Candidate>, c: Candidate): real {
    Round1(Share(c.score, Divisor(Filter(cs, Keep))))
  }

  lemma {:induction false} FieldAt(cs: seq<Candidate>, total: real, i: nat)
    requires total > 0.0 && i < |cs|
    ensures Field(cs, total)[i] == Hypothesis(cs[i].hypothesisId, Round1(Share(cs[i].score, total)), Proposed)
  {
    if i < |cs| - 1 { FieldAt(cs[..|cs| - 1], total, i); }
  }

  /** Every kept candidate has its entry. */
  lemma EntryOf(cs: seq<Candidate>, rs: seq<Hypothesis>, c: Candidate) returns (i: nat)
    requires Ranked(cs, rs) && c in cs && Keep(c)
    ensures i < |rs| && rs[i].id == c.hypothesisId && rs[i].confidence == ConfidenceOf(cs, c)
  {
    var kept := Filter(cs, Keep);
    var field := Field(kept, Divisor(kept));
    var sorted := StableSort(field, Ahead);
    FilterMembers(cs, Keep);
    var k :| 0 <= k < |kept| && kept[k] == c;
    FieldAt(kept, Divisor(kept), k);
    SortMembers(field, Ahead);
    assert field[k] in sorted;
    i :| 0 <= i < |sorted| && sorted[i] == field[k];
  }

  /** A candidate with a higher score is never given less confidence, whatever the signs of
      the scores. */
  lemma ScoresKeepOrder(cs: seq<Candidate>, rs: seq<Hypothesis>, c: Candidate, d: Candidate) returns (i: nat, j: nat)
    requires Ranked(cs, rs) && c in cs && d in cs && Keep(c) && Keep(d) && c.score <= d.score
    ensures i < |rs| && rs[i].id == c.hypothesisId && rs[i].confidence == ConfidenceOf(cs, c)
    ensures j < |rs| && rs[j].id == d.hypothesisId && rs[j].confidence == ConfidenceOf(cs, d)
    ensures rs[i].confidence <= rs[j].confidence
  {
    i := EntryOf(cs, rs, c);
    j := EntryOf(cs, rs, d);
    var total := Divisor(Filter(cs, Keep));
    ShareMonotone(c.score, d.score, total);
    Round1Monotone(Share(c.score, total), Share(d.score, total));
  }
}
