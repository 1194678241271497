/** Merging by weighted vote: the confidence changes proposed for a hypothesis become one,
    their average weighted by the reasoners' priorities. */
module WeightedMerge {
  import opened Wrappers
  import opened Applier
  import O = Orchestration

  datatype Vote = Vote(action: Action, weight: int)

  predicate IsDelta(a: Action) { a.Increase? || a.Decrease? }

  /** Kinds of which only the last proposal survives, in the place of the first. */
  predicate Replaces(a: Action) { a.ReplaceHypotheses? || a.UpdateGraph? || (a.SetSlot? && a.slot == Timeline) }

  predicate SameKind(a: Action, b: Action) {
    || (a.ReplaceHypotheses? && b.ReplaceHypotheses?)
    || (a.UpdateGraph? && b.UpdateGraph?)
    || (a.SetSlot? && b.SetSlot? && a.slot == b.slot)
  }

  function VotesOf(acts: seq<Action>, weight: int): seq<Vote> {
    if acts == [] then [] else VotesOf(acts[..|acts| - 1], weight) + [Vote(acts[|acts| - 1], weight)]
  }

  function Votes(results: seq<O.Proposal<Action>>): seq<Vote> {
    if results == [] then []
    else
      var r := results[|results| - 1];
      Votes(results[..|results| - 1]) + VotesOf(r.actions, O.ReasonerPriority(r.reasoner))
  }

  function Signed(a: Action): real
    requires IsDelta(a)
  {
    if a.Increase? then a.delta else -a.delta
  }

  predicate Concerns(v: Vote, id: string) { IsDelta(v.action) && v.action.hypothesisId == id }

  function VotesFor(votes: seq<Vote>, id: string): seq<Vote> {
    if votes == [] then []
    else VotesFor(votes[..|votes| - 1], id) + if Concerns(votes[|votes| - 1], id) then [votes[|votes| - 1]] else []
  }

  function Part(v: Vote, id: string): real { if Concerns(v, id) then Signed(v.action) * v.weight as real else 0.0 }

  function Weigh(v: Vote, id: string): real { if Concerns(v, id) then v.weight as real else 0.0 }

  function Total(votes: seq<Vote>, id: string): real {
    if votes == [] then 0.0 else Total(votes[..|votes| - 1], id) + Part(votes[|votes| - 1], id)
  }

  function Weight(votes: seq<Vote>, id: string): real {
    if votes == [] then 0.0 else Weight(votes[..|votes| - 1], id) + Weigh(votes[|votes| - 1], id)
  }

  /** The weighted mean of the changes proposed for one hypothesis. */
  function Average(votes: seq<Vote>, id: string): real {
    if Weight(votes, id) == 0.0 then 0.0 else Total(votes, id) / Weight(votes, id)
  }

  lemma {:induction false} ForSame(votes: seq<Vote>, id: string)
    ensures Total(VotesFor(votes, id), id) == Total(votes, id)
    ensures Weight(VotesFor(votes, id), id) == Weight(votes, id)
  {
    if votes != [] {
      ForSame(votes[..|votes| - 1], id);
      var x, v := VotesFor(votes[..|votes| - 1], id), votes[|votes| - 1];
      assert (x + [v])[..|x|] == x && x + [] == x;
    }
  }

  method WeightedAverageDelta(items: seq<Vote>, ghost votes: seq<Vote>, ghost id: string) returns (avg: real)
    requires items == VotesFor(votes, id)
    ensures avg == Average(votes, id)
  {
    ForConcern(votes, id);
    var sum, wsum := 0.0, 0.0;
    for i := 0 to |items|
      invariant sum == Total(items[..i], id) && wsum == Weight(items[..i], id)
    {
      assert items[..i + 1][..i] == items[..i];
      assert items[i] in items;
      var d := items[i].action.delta;
      if items[i].action.Decrease? {
        d := -d;
      }
      var w := items[i].weight as real;
      sum := sum + d * w;
      wsum := wsum + w;
    }
    assert items[..|items|] == items;
    ForSame(votes, id);
    if wsum == 0.0 {
      return 0.0;
    }
    return sum / wsum;
  }

  lemma {:induction false} ForConcern(votes: seq<Vote>, id: string)
    ensures forall v :: v in VotesFor(votes, id) ==> v in votes && Concerns(v, id)
    ensures VotesFor(votes, id) == [] <==> forall v :: v in votes ==> !Concerns(v, id)
  {
    if votes != [] {
      ForConcern(votes[..|votes| - 1], id);
      assert votes == votes[..|votes| - 1] + [votes[|votes| - 1]];
    }
  }

  // ----- The passthrough list -----

  function KindAt(list: seq<Action>, a: Action): (r: Option<nat>)
    ensures r.Some? ==> r.value < |list|
  {
    if list == [] then None
    else if SameKind(list[0], a) then Some(0)
    else match KindAt(list[1..], a)
      case None => None
      case Some(i) => Some(i + 1)
  }

  function Put(list: seq<Action>, a: Action): seq<Action> {
    if !Replaces(a) then list + [a]
    else match KindAt(list, a)
      case None => list + [a]
      case Some(i) => list[i := a]
  }

  function Passed(votes: seq<Vote>): seq<Action> {
    if votes == [] then []
    else
      var a := votes[|votes| - 1].action;
      if IsDelta(a) then Passed(votes[..|votes| - 1]) else Put(Passed(votes[..|votes| - 1]), a)
  }

  method ReplaceAction(list: seq<Action>, a: Action) returns (out: seq<Action>)
    requires Replaces(a)
    ensures out == Put(list, a)
  {
    for i := 0 to |list|
      invariant KindAt(list, a) == match KindAt(list[i..], a) case None => None case Some(k) => Some(k + i)
    {
      assert list[i..][1..] == list[i + 1..];
      if SameKind(list[i], a) {
        return list[i := a];
      }
    }
    return list + [a];
  }

  // ----- The merge -----

  ghost predicate Gathered(votes: seq<Vote>, deltas: map<string, seq<Vote>>) {
    && (forall id :: id in deltas ==> deltas[id] == VotesFor(votes, id))
    && (forall id :: id !in deltas ==> VotesFor(votes, id) == [])
  }

  lemma Gather(votes: seq<Vote>, deltas: map<string, seq<Vote>>, v: Vote)
    requires Gathered(votes, deltas)
    ensures !IsDelta(v.action) ==> Gathered(votes + [v], deltas)
    ensures IsDelta(v.action) ==>
      var id := v.action.hypothesisId;
      Gathered(votes + [v], deltas[id := (if id in deltas then deltas[id] else []) + [v]])
  {
    assert (votes + [v])[..|votes|] == votes;
  }

  /** One action of a reasoner of weight w. */
  method Take(a: Action, w: int, passed0: seq<Action>, deltas0: map<string, seq<Vote>>, ghost votes: seq<Vote>)
    returns (passed: seq<Action>, deltas: map<string, seq<Vote>>)
    requires passed0 == Passed(votes) && Gathered(votes, deltas0)
    ensures passed == Passed(votes + [Vote(a, w)]) && Gathered(votes + [Vote(a, w)], deltas)
  {
    passed, deltas := passed0, deltas0;
    assert (votes + [Vote(a, w)])[..|votes|] == votes;
    Gather(votes, deltas, Vote(a, w));
    if IsDelta(a) {
      var id := a.hypothesisId;
      deltas := deltas[id := (if id in deltas then deltas[id] else []) + [Vote(a, w)]];
    } else if Replaces(a) {
      passed := ReplaceAction(passed, a);
    } else {
      passed := passed + [a];
    }
  }

  lemma VotesOfSnoc(before: seq<Vote>, acts: seq<Action>, w: int, j: nat)
    requires j < |acts|
    ensures before + VotesOf(acts[..j + 1], w) == (before + VotesOf(acts[..j], w)) + [Vote(acts[j], w)]
  {
    assert acts[..j + 1][..j] == acts[..j];
  }

  lemma VotesSnoc(results: seq<O.Proposal<Action>>, i: nat)
    requires i < |results|
    ensures Votes(results[..i + 1]) == Votes(results[..i])
      + VotesOf(results[i].actions, O.ReasonerPriority(results[i].reasoner))
  {
    assert results[..i + 1][..i] == results[..i];
  }

  /** All actions of one reasoner. */
  method TakeAll(acts: seq<Action>, w: int, passed0: seq<Action>, deltas0: map<string, seq<Vote>>,
                 ghost votes: seq<Vote>)
    returns (passed: seq<Action>, deltas: map<string, seq<Vote>>)
    requires passed0 == Passed(votes) && Gathered(votes, deltas0)
    ensures passed == Passed(votes + VotesOf(acts, w)) && Gathered(votes + VotesOf(acts, w), deltas)
  {
    passed, deltas := passed0, deltas0;
    assert votes + VotesOf(acts[..0], w) == votes;
    for j := 0 to |acts|
      invariant passed == Passed(votes + VotesOf(acts[..j], w)) && Gathered(votes + VotesOf(acts[..j], w), deltas)
    {
      VotesOfSnoc(votes, acts, w, j);
      passed, deltas := Take(acts[j], w, passed, deltas, votes + VotesOf(acts[..j], w));
    }
    assert acts[..|acts|] == acts;
  }

  method Separate(results: seq<O.Proposal<Action>>) returns (passed: seq<Action>, deltas: map<string, seq<Vote>>)
    ensures passed == Passed(Votes(results)) && Gathered(Votes(results), deltas)
  {
    passed, deltas := [], map[];
    for i := 0 to |results|
      invariant passed == Passed(Votes(results[..i])) && Gathered(Votes(results[..i]), deltas)
    {
      VotesSnoc(results, i);
      var w := O.ReasonerPriority(results[i].reasoner);
      passed, deltas := TakeAll(results[i].actions, w, passed, deltas, Votes(results[..i]));
    }
    assert results[..|results|] == results;
  }

  function DeltaAction(id: string, avg: real): Action { if avg < 0.0 then Decrease(id, -avg) else Increase(id, avg) }

  predicate IsMerged(votes: seq<Vote>, ids: set<string>, a: Action) {
    && IsDelta(a) && a.delta > 0.0
    && a.hypothesisId in ids && a == DeltaAction(a.hypothesisId, Average(votes, a.hypothesisId))
  }

  /** merged holds, in some order, one change for each hypothesis whose average is not zero. */
  ghost predicate OneEach(votes: seq<Vote>, merged: seq<Action>, ids: set<string>) {
    && (forall a :: a in merged ==> IsMerged(votes, ids, a))
    && (forall id :: id in ids && Average(votes, id) != 0.0 ==> DeltaAction(id, Average(votes, id)) in merged)
    && (forall i, j :: 0 <= i < j < |merged| ==> merged[i] != merged[j])
  }

  lemma EachOnce(votes: seq<Vote>, merged: seq<Action>, ids: set<string>, i: nat, j: nat)
    requires OneEach(votes, merged, ids) && i < j < |merged|
    ensures IsDelta(merged[i]) && IsDelta(merged[j]) && merged[i].hypothesisId != merged[j].hypothesisId
  {
    assert IsMerged(votes, ids, merged[i]) && IsMerged(votes, ids, merged[j]);
  }

  lemma AddOne(votes: seq<Vote>, merged: seq<Action>, ids: set<string>, id: string)
    requires OneEach(votes, merged, ids) && id !in ids
    ensures Average(votes, id) == 0.0 ==> OneEach(votes, merged, ids + {id})
    ensures Average(votes, id) != 0.0 ==> OneEach(votes, merged + [DeltaAction(id, Average(votes, id))], ids + {id})
  {
    var a := DeltaAction(id, Average(votes, id));
    assert a !in merged;
    forall x | x in merged + [a] ensures x in merged || x == a {}
  }

  /** The map of gathered changes is walked in an arbitrary order. */
  method MergeWeighted(results: seq<O.Proposal<Action>>)
    returns (out: seq<Action>, ghost merged: seq<Action>, ghost ids: set<string>)
    ensures out == Passed(Votes(results)) + merged && OneEach(Votes(results), merged, ids)
    ensures forall id :: id !in ids ==> VotesFor(Votes(results), id) == []
  {
    var deltas: map<string, seq<Vote>>;
    out, deltas := Separate(results);
    merged, ids := [], {};
    ghost var votes := Votes(results);
    var rest := deltas.Keys;
    while rest != {}
      invariant rest <= deltas.Keys && ids == deltas.Keys - rest
      invariant out == Passed(votes) + merged && OneEach(votes, merged, ids)
      decreases rest
    {
      var id :| id in rest;
      AddOne(votes, merged, ids, id);
      rest := rest - {id};
      ids := ids + {id};
      var avg := WeightedAverageDelta(deltas[id], votes, id);
      if avg == 0.0 {
        continue;
      }
      out := out + [DeltaAction(id, avg)];
      merged := merged + [DeltaAction(id, avg)];
    }
  }

  // ----- Bounds -----

  ghost predicate InRange(votes: seq<Vote>) {
    forall v :: v in votes && IsDelta(v.action) ==> 0.0 < v.action.delta <= 50.0
  }

  lemma ScaleBounds(d: real, w: real)
    requires -50.0 <= d <= 50.0 && w > 0.0
    ensures -50.0 * w <= d * w <= 50.0 * w
  {
    assert (50.0 - d) * w >= 0.0 && (d + 50.0) * w >= 0.0;
  }

  lemma PartBounds(v: Vote, id: string)
    requires v.weight > 0 && (IsDelta(v.action) ==> 0.0 < v.action.delta <= 50.0)
    ensures Weigh(v, id) >= 0.0 && -50.0 * Weigh(v, id) <= Part(v, id) <= 50.0 * Weigh(v, id)
  {
    if Concerns(v, id) {
      var d, w := Signed(v.action), v.weight as real;
      ScaleBounds(d, w);
      assert Weigh(v, id) == w;
      assert Part(v, id) == d * w;
      assert -50.0 * w <= d * w;
    }
  }

  lemma {:induction false} TotalBounds(votes: seq<Vote>, id: string)
    requires InRange(votes) && forall v :: v in votes ==> v.weight > 0
    ensures Weight(votes, id) >= 0.0
    ensures -50.0 * Weight(votes, id) <= Total(votes, id) <= 50.0 * Weight(votes, id)
  {
    if votes != [] {
      var v := votes[|votes| - 1];
      TotalBounds(votes[..|votes| - 1], id);
      assert v in votes;
      PartBounds(v, id);
    }
  }

  lemma QuotientBounds(x: real, w: real)
    requires w > 0.0 && -50.0 * w <= x <= 50.0 * w
    ensures -50.0 <= x / w <= 50.0
  {
    var q := x / w;
    assert x == q * w;
    assert q > 50.0 ==> (q - 50.0) * w > 0.0;
    assert q < -50.0 ==> (q + 50.0) * w < 0.0;
  }

  lemma {:induction false} OfWeights(acts: seq<Action>, w: int)
    ensures forall v :: v in VotesOf(acts, w) ==> v.weight == w
  {
    if acts != [] { OfWeights(acts[..|acts| - 1], w); }
  }

  lemma {:induction false} Positive(results: seq<O.Proposal<Action>>)
    ensures forall v :: v in Votes(results) ==> v.weight > 0
  {
    if results != [] {
      var r := results[|results| - 1];
      Positive(results[..|results| - 1]);
      OfWeights(r.actions, O.ReasonerPriority(r.reasoner));
    }
  }

  /** If all proposed changes are acceptable to the validator, so are the merged ones: at most
      one per hypothesis, each within (0, 50]. */
  lemma MergedInRange(results: seq<O.Proposal<Action>>, merged: seq<Action>, ids: set<string>, a: Action)
    requires OneEach(Votes(results), merged, ids) && InRange(Votes(results)) && a in merged
    ensures IsDelta(a) && 0.0 < a.delta <= 50.0
    ensures a.hypothesisId != "" ==> ValidateDelta(a.hypothesisId, a.delta).None?
  {
    var votes, id := Votes(results), a.hypothesisId;
    Positive(results);
    TotalBounds(votes, id);
    if Weight(votes, id) != 0.0 { QuotientBounds(Total(votes, id), Weight(votes, id)); }
  }

  // ----- Order of arrival -----

  lemma {:induction false} TotalConcat(u: seq<Vote>, v: seq<Vote>, id: string)
    ensures Total(u + v, id) == Total(u, id) + Total(v, id)
    ensures Weight(u + v, id) == Weight(u, id) + Weight(v, id)
  {
    if v == [] {
      assert u + v == u;
    } else {
      TotalConcat(u, v[..|v| - 1], id);
      assert (u + v)[..|u + v| - 1] == u + v[..|v| - 1];
    }
  }

  /** The sums, and so the merged change, do not depend on the order of the votes. */
  lemma {:induction false} AverageSymmetric(s: seq<Vote>, t: seq<Vote>, id: string)
    requires multiset(s) == multiset(t)
    ensures Total(s, id) == Total(t, id) && Weight(s, id) == Weight(t, id) && Average(s, id) == Average(t, id)
    decreases |s|
  {
    assert t != [] ==> t[0] in multiset(s);
    if s != [] {
      assert s[0] in multiset(t);
      var j :| 0 <= j < |t| && t[j] == s[0];
      O.TakeOut(s, t, j);
      AverageSymmetric(s[1..], t[..j] + t[j + 1..], id);
      assert s == [s[0]] + s[1..];
      TotalConcat([s[0]], s[1..], id);
      TotalConcat(t[..j] + [s[0]], t[j + 1..], id);
      TotalConcat(t[..j], [s[0]], id);
      TotalConcat(t[..j], t[j + 1..], id);
    }
  }

  // ----- What passes through -----

  function Actions(votes: seq<Vote>): seq<Action> {
    if votes == [] then [] else Actions(votes[..|votes| - 1]) + [votes[|votes| - 1].action]
  }

  function Ordinary(acts: seq<Action>): seq<Action> {
    if acts == [] then []
    else
      var a := acts[|acts| - 1];
      Ordinary(acts[..|acts| - 1]) + if IsDelta(a) || Replaces(a) then [] else [a]
  }

  function LastOfKind(acts: seq<Action>, a: Action): Option<Action> {
    if acts == [] then None
    else if SameKind(acts[|acts| - 1], a) then Some(acts[|acts| - 1])
    else LastOfKind(acts[..|acts| - 1], a)
  }

  /** Of each replacing kind p holds the last proposal and nothing else; the other actions
      are all there, in order. */
  ghost predicate LastWins(acts: seq<Action>, p: seq<Action>) {
    && Ordinary(p) == Ordinary(acts)
    && (forall x :: x in p && Replaces(x) ==> LastOfKind(acts, x) == Some(x))
    && (forall x :: x in acts && Replaces(x) ==> LastOfKind(acts, x).Some? && LastOfKind(acts, x).value in p)
    && (forall i, j :: 0 <= i < j < |p| && Replaces(p[i]) ==> !SameKind(p[i], p[j]))
  }

  lemma {:induction false} FindKind(list: seq<Action>, a: Action)
    ensures match KindAt(list, a)
            case None => forall x :: x in list ==> !SameKind(x, a)
            case Some(i) => i < |list| && SameKind(list[i], a)
  {
    if list != [] && !SameKind(list[0], a) { FindKind(list[1..], a); }
  }

  lemma {:induction false} OrdinaryUpdate(list: seq<Action>, i: nat, a: Action)
    requires i < |list| && Replaces(a) && Replaces(list[i])
    ensures Ordinary(list[i := a]) == Ordinary(list)
  {
    var n := |list| - 1;
    if i == n {
      assert list[i := a][..n] == list[..n];
    } else {
      assert list[i := a][..n] == list[..n][i := a];
      OrdinaryUpdate(list[..n], i, a);
    }
  }

  lemma PutOrdinary(list: seq<Action>, a: Action)
    requires !IsDelta(a)
    ensures Ordinary(Put(list, a)) == Ordinary(list) + if Replaces(a) then [] else [a]
  {
    FindKind(list, a);
    assert (list + [a])[..|list|] == list;
    if Replaces(a) && KindAt(list, a).Some? { OrdinaryUpdate(list, KindAt(list, a).value, a); }
  }

  lemma PutMembers(list: seq<Action>, a: Action)
    requires forall i, j :: 0 <= i < j < |list| && Replaces(list[i]) ==> !SameKind(list[i], list[j])
    ensures a in Put(list, a)
    ensures forall x :: x in Put(list, a) ==> x == a || (x in list && !(Replaces(a) && SameKind(x, a)))
    ensures forall x :: x in list && !SameKind(x, a) ==> x in Put(list, a)
    ensures forall i, j :: 0 <= i < j < |Put(list, a)| && Replaces(Put(list, a)[i]) ==>
      !SameKind(Put(list, a)[i], Put(list, a)[j])
  {
    FindKind(list, a);
    var p := Put(list, a);
    if Replaces(a) && KindAt(list, a).Some? {
      var k := KindAt(list, a).value;
      forall x | x in list && !SameKind(x, a) ensures x in p {
        var i :| 0 <= i < |list| && list[i] == x;
        assert p[i] == x;
      }
      assert p[k] == a;
    } else {
      assert p[|list|] == a;
    }
  }

  lemma LastSnoc(acts: seq<Action>, a: Action, x: Action)
    ensures LastOfKind(acts + [a], x) == if SameKind(a, x) then Some(a) else LastOfKind(acts, x)
  {
    assert (acts + [a])[..|acts|] == acts;
  }

  lemma PutLast(acts: seq<Action>, p: seq<Action>, a: Action, x: Action)
    requires LastWins(acts, p) && x in Put(p, a) && Replaces(x)
    ensures LastOfKind(acts + [a], x) == Some(x)
  {
    PutMembers(p, a);
    LastSnoc(acts, a, x);
  }

  lemma PutPresent(acts: seq<Action>, p: seq<Action>, a: Action, x: Action)
    requires LastWins(acts, p) && x in acts + [a] && Replaces(x)
    ensures LastOfKind(acts + [a], x).Some? && LastOfKind(acts + [a], x).value in Put(p, a)
  {
    PutMembers(p, a);
    LastSnoc(acts, a, x);
    if !SameKind(a, x) { LastKind(acts, x); }
  }

  lemma LastWinsSnoc(acts: seq<Action>, p: seq<Action>, a: Action)
    requires LastWins(acts, p) && !IsDelta(a)
    ensures LastWins(acts + [a], Put(p, a))
  {
    var q := Put(p, a);
    assert Ordinary(q) == Ordinary(acts + [a]) by {
      PutOrdinary(p, a);
      assert (acts + [a])[..|acts|] == acts;
    }
    forall x | x in q && Replaces(x) ensures LastOfKind(acts + [a], x) == Some(x) { PutLast(acts, p, a, x); }
    forall x | x in acts + [a] && Replaces(x)
      ensures LastOfKind(acts + [a], x).Some? && LastOfKind(acts + [a], x).value in q
    {
      PutPresent(acts, p, a, x);
    }
    forall i, j | 0 <= i < j < |q| && Replaces(q[i]) ensures !SameKind(q[i], q[j]) { PutMembers(p, a); }
  }

  lemma {:induction false} LastKind(acts: seq<Action>, x: Action)
    ensures LastOfKind(acts, x).Some? ==> SameKind(LastOfKind(acts, x).value, x)
  {
    if acts != [] { LastKind(acts[..|acts| - 1], x); }
  }

  /** The passed list keeps the ordinary actions in order and the last of each replacing kind. */
  lemma {:induction false} PassedMeaning(votes: seq<Vote>)
    ensures LastWins(Actions(votes), Passed(votes))
  {
    if votes != [] {
      var n, a := |votes| - 1, votes[|votes| - 1].action;
      PassedMeaning(votes[..n]);
      var acts := Actions(votes[..n]);
      if IsDelta(a) {
        assert (acts + [a])[..|acts|] == acts;
        forall x ensures LastOfKind(acts + [a], x) == LastOfKind(acts, x) { LastSnoc(acts, a, x); }
      } else {
        LastWinsSnoc(acts, Passed(votes[..n]), a);
      }
    }
  }
}
