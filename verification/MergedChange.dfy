/** What the weighted merge makes of the proposed changes: which way the merged change goes and how
    far, said in terms of the proposals alone. */
module MergedChange {
  import opened Sorting
  import opened Wrappers
  import opened Applier
  import opened WeightedMerge
  import O = Orchestration

  // ----- What is proposed -----

  predicate Changes(a: Action, id: string) { (a.Increase? || a.Decrease?) && a.hypothesisId == id }

  /** The decreases, or the increases, that a list proposes for a hypothesis, each times w. */
  function Pushed(acts: seq<Action>, w: int, id: string, down: bool): real {
    if acts == [] then 0.0
    else
      Pushed(acts[..|acts| - 1], w, id, down) + Push(acts[|acts| - 1], w, id, down)
  }

  function Push(a: Action, w: int, id: string, down: bool): real {
    if Changes(a, id) && a.Decrease? == down then a.delta * w as real else 0.0
  }

  function Backed(acts: seq<Action>, w: int, id: string): real {
    if acts == [] then 0.0
    else Backed(acts[..|acts| - 1], w, id) + if Changes(acts[|acts| - 1], id) then w as real else 0.0
  }

  /** The same over all reasoners, each counting as much as its priority. */
  function Weighted(results: seq<O.Proposal<Action>>, id: string, down: bool): real {
    if results == [] then 0.0
    else
      var r := results[|results| - 1];
      Weighted(results[..|results| - 1], id, down) + Pushed(r.actions, O.ReasonerPriority(r.reasoner), id, down)
  }

  function Backing(results: seq<O.Proposal<Action>>, id: string): real {
    if results == [] then 0.0
    else
      var r := results[|results| - 1];
      Backing(results[..|results| - 1], id) + Backed(r.actions, O.ReasonerPriority(r.reasoner), id)
  }

  lemma OnePart(a: Action, w: int, id: string)
    ensures Part(Vote(a, w), id) == Push(a, w, id, false) - Push(a, w, id, true)
    ensures Weigh(Vote(a, w), id) == if Changes(a, id) then w as real else 0.0
  {
    if Changes(a, id) && a.Decrease? { assert (-a.delta) * w as real == -(a.delta * w as real); }
  }

  lemma OneMore(acts: seq<Action>, w: int, id: string)
    requires acts != []
    ensures var n := |acts| - 1;
            && Total(VotesOf(acts, w), id) ==
               Total(VotesOf(acts[..n], w), id) + (Push(acts[n], w, id, false) - Push(acts[n], w, id, true))
            && Weight(VotesOf(acts, w), id) ==
               Weight(VotesOf(acts[..n], w), id) + if Changes(acts[n], id) then w as real else 0.0
  {
    var n := |acts| - 1;
    var less := VotesOf(acts[..n], w);
    assert (less + [Vote(acts[n], w)])[..|less|] == less;
    OnePart(acts[n], w, id);
  }

  lemma {:induction false} OneReasoner(acts: seq<Action>, w: int, id: string)
    ensures Total(VotesOf(acts, w), id) == Pushed(acts, w, id, false) - Pushed(acts, w, id, true)
    ensures Weight(VotesOf(acts, w), id) == Backed(acts, w, id)
  {
    if acts != [] {
      var n := |acts| - 1;
      OneReasoner(acts[..n], w, id);
      OneMore(acts, w, id);
    }
  }

  /** The sums that are averaged are those of the proposals. */
  lemma {:induction false} SumsOfProposals(results: seq<O.Proposal<Action>>, id: string)
    ensures Total(Votes(results), id) == Weighted(results, id, false) - Weighted(results, id, true)
    ensures Weight(Votes(results), id) == Backing(results, id)
  {
    if results != [] {
      var n := |results| - 1;
      var w := O.ReasonerPriority(results[n].reasoner);
      SumsOfProposals(results[..n], id);
      OneReasoner(results[n].actions, w, id);
      TotalConcat(Votes(results[..n]), VotesOf(results[n].actions, w), id);
    }
  }

  // ----- Which way the merged change goes -----

  /** merged is what the weighted merge appends for these results. */
  ghost predicate MergedFrom(results: seq<O.Proposal<Action>>, merged: seq<Action>, ids: set<string>) {
    OneEach(Votes(results), merged, ids) && forall id :: id !in ids ==> VotesFor(Votes(results), id) == []
  }

  lemma {:induction false} NoVotesNoTotal(votes: seq<Vote>, id: string)
    requires VotesFor(votes, id) == []
    ensures Total(votes, id) == 0.0 && Weight(votes, id) == 0.0
  {
    ForSame(votes, id);
  }

  lemma {:induction false} WeightPositive(votes: seq<Vote>, id: string)
    requires forall v :: v in votes ==> v.weight > 0
    ensures Weight(votes, id) >= 0.0
    ensures Weight(votes, id) == 0.0 ==> Total(votes, id) == 0.0
  {
    if votes != [] {
      WeightPositive(votes[..|votes| - 1], id);
      assert votes[|votes| - 1] in votes;
    }
  }

  lemma QuotientSigns(up: real, down: real, w: real)
    requires w > 0.0
    ensures (up - down) / w < 0.0 <==> down > up
    ensures (up - down) / w == 0.0 <==> down == up
    ensures -((up - down) / w) == (down - up) / w
  {
    var q, r := (up - down) / w, (down - up) / w;
    assert q * w == up - down && r * w == down - up;
    assert (q + r) * w == 0.0;
    assert q < 0.0 ==> q * w < 0.0;
    assert q > 0.0 ==> q * w > 0.0;
  }

  lemma AverageIs(results: seq<O.Proposal<Action>>, id: string)
    ensures var up, down, w := Weighted(results, id, false), Weighted(results, id, true), Backing(results, id);
            && w >= 0.0 && (w == 0.0 ==> up == down)
            && Average(Votes(results), id) == if w == 0.0 then 0.0 else (up - down) / w
  {
    SumsOfProposals(results, id);
    Positive(results);
    WeightPositive(Votes(results), id);
  }

  lemma AverageOf(results: seq<O.Proposal<Action>>, id: string)
    ensures var avg, up, down := Average(Votes(results), id), Weighted(results, id, false), Weighted(results, id, true);
            && (avg < 0.0 <==> down > up) && (avg == 0.0 <==> down == up)
            && (down > up ==> Backing(results, id) > 0.0 && -avg == (down - up) / Backing(results, id))
            && (up > down ==> Backing(results, id) > 0.0 && avg == (up - down) / Backing(results, id))
  {
    AverageIs(results, id);
    if Backing(results, id) > 0.0 {
      QuotientSigns(Weighted(results, id, false), Weighted(results, id, true), Backing(results, id));
    }
  }

  /** The merged change for a hypothesis is a decrease exactly when the weighted decreases outweigh
      the weighted increases, an increase in the opposite case, and there is none when they are
      even; its size is the difference over the weight of all who proposed one. */
  lemma MergedDirection(results: seq<O.Proposal<Action>>, merged: seq<Action>, ids: set<string>, id: string)
    requires MergedFrom(results, merged, ids)
    ensures var up, down := Weighted(results, id, false), Weighted(results, id, true);
            var w := Backing(results, id);
            && ((exists a :: a in merged && Changes(a, id)) <==> up != down)
            && forall a :: a in merged && Changes(a, id) ==>
                 w > 0.0 && a == if down > up then Decrease(id, (down - up) / w) else Increase(id, (up - down) / w)
  {
    var votes := Votes(results);
    AverageOf(results, id);
    forall a | a in merged && Changes(a, id)
      ensures id in ids && a == DeltaAction(id, Average(votes, id)) && a.delta > 0.0 {
      assert IsMerged(votes, ids, a);
    }
    SumsOfProposals(results, id);
    if id !in ids { NoVotesNoTotal(votes, id); }
    if Average(votes, id) != 0.0 {
      assert DeltaAction(id, Average(votes, id)) in merged;
    }
  }

  // ----- When all agree on the direction -----

  /** Every change proposed for the hypothesis goes this way and is at least lo and at most hi. */
  ghost predicate AllWithin(acts: seq<Action>, id: string, down: bool, lo: real, hi: real) {
    forall a :: a in acts && Changes(a, id) ==> a.Decrease? == down && lo <= a.delta <= hi
  }

  ghost predicate Agreed(results: seq<O.Proposal<Action>>, id: string, down: bool, lo: real, hi: real) {
    forall r :: r in results ==> AllWithin(r.actions, id, down, lo, hi)
  }

  /** x is at least lo and at most hi for each unit of sum. */
  predicate Within(lo: real, hi: real, sum: real, x: real) { lo * sum <= x <= hi * sum }

  lemma WithinOne(lo: real, hi: real, w: real, d: real)
    requires lo <= d <= hi && w >= 0.0
    ensures Within(lo, hi, w, d * w)
  {
    assert (d - lo) * w >= 0.0 && (hi - d) * w >= 0.0;
  }

  lemma WithinSum(lo: real, hi: real, s: real, x: real, t: real, y: real)
    requires Within(lo, hi, s, x) && Within(lo, hi, t, y)
    ensures Within(lo, hi, s + t, x + y)
  {
  }

  lemma NothingWithin(lo: real, hi: real)
    ensures Within(lo, hi, 0.0, 0.0)
  {
  }

  lemma PartWithin(a: Action, w: nat, id: string, down: bool, lo: real, hi: real)
    requires Changes(a, id) ==> a.Decrease? == down && lo <= a.delta <= hi
    ensures Within(lo, hi, if Changes(a, id) then w as real else 0.0, Push(a, w, id, down))
  {
    if Changes(a, id) {
      WithinOne(lo, hi, w as real, a.delta);
    } else {
      NothingWithin(lo, hi);
    }
  }

  lemma {:induction false} PushedWithin(acts: seq<Action>, w: nat, id: string, down: bool, lo: real, hi: real)
    requires AllWithin(acts, id, down, lo, hi)
    ensures Pushed(acts, w, id, !down) == 0.0
    ensures Within(lo, hi, Backed(acts, w, id), Pushed(acts, w, id, down))
  {
    if acts == [] {
      NothingWithin(lo, hi);
    } else {
      var less, a := acts[..|acts| - 1], acts[|acts| - 1];
      PushedWithin(less, w, id, down, lo, hi);
      assert a in acts;
      PartWithin(a, w, id, down, lo, hi);
      WithinSum(lo, hi, Backed(less, w, id), Pushed(less, w, id, down),
                if Changes(a, id) then w as real else 0.0, Push(a, w, id, down));
    }
  }

  lemma {:induction false} WeightedWithin(results: seq<O.Proposal<Action>>, id: string, down: bool, lo: real, hi: real)
    requires Agreed(results, id, down, lo, hi)
    ensures Weighted(results, id, !down) == 0.0
    ensures Within(lo, hi, Backing(results, id), Weighted(results, id, down))
  {
    if results == [] {
      NothingWithin(lo, hi);
    } else {
      var less, r := results[..|results| - 1], results[|results| - 1];
      var w := O.ReasonerPriority(r.reasoner);
      assert r in results;
      WeightedWithin(less, id, down, lo, hi);
      PushedWithin(r.actions, w, id, down, lo, hi);
      WithinSum(lo, hi, Backing(less, id), Weighted(less, id, down), Backed(r.actions, w, id),
                Pushed(r.actions, w, id, down));
    }
  }

  lemma {:induction false} BackedCounts(acts: seq<Action>, w: nat, id: string, a: Action)
    requires w > 0
    ensures Backed(acts, w, id) >= 0.0
    ensures a in acts && Changes(a, id) ==> Backed(acts, w, id) > 0.0
  {
    if acts != [] {
      var n := |acts| - 1;
      BackedCounts(acts[..n], w, id, a);
      assert acts == acts[..n] + [acts[n]];
    }
  }

  lemma {:induction false} BackingCounts(results: seq<O.Proposal<Action>>, id: string, r: O.Proposal<Action>, a: Action)
    ensures Backing(results, id) >= 0.0
    ensures r in results && a in r.actions && Changes(a, id) ==> Backing(results, id) > 0.0
  {
    if results != [] {
      var n := |results| - 1;
      BackingCounts(results[..n], id, r, a);
      BackedCounts(results[n].actions, O.ReasonerPriority(results[n].reasoner), id, a);
      assert results == results[..n] + [results[n]];
    }
  }

  lemma QuotientWithin(x: real, w: real, lo: real, hi: real)
    requires w > 0.0 && lo > 0.0 && Within(lo, hi, w, x)
    ensures x > 0.0 && lo <= x / w <= hi
  {
    var q := x / w;
    assert q * w == x;
    assert q < lo ==> (lo - q) * w > 0.0;
    assert q > hi ==> (q - hi) * w > 0.0;
    assert lo * w > 0.0;
  }

  /** When all who propose a change for a hypothesis agree on its direction, the merged change exists,
      goes that way and lies between the least and the greatest of theirs. */
  lemma AgreementKept(results: seq<O.Proposal<Action>>, merged: seq<Action>, ids: set<string>, id: string,
                      down: bool, lo: real, hi: real)
    requires MergedFrom(results, merged, ids) && Agreed(results, id, down, lo, hi) && lo > 0.0
    requires exists r, a :: r in results && a in r.actions && Changes(a, id)
    ensures exists a :: a in merged && Changes(a, id)
    ensures forall a :: a in merged && Changes(a, id) ==> a.Decrease? == down && lo <= a.delta <= hi
  {
    var r, a :| r in results && a in r.actions && Changes(a, id);
    var w, x := Backing(results, id), Weighted(results, id, down);
    assert w > 0.0 by { BackingCounts(results, id, r, a); }
    assert Weighted(results, id, !down) == 0.0 && x > 0.0 && lo <= x / w <= hi by {
      WeightedWithin(results, id, down, lo, hi);
      QuotientWithin(x, w, lo, hi);
    }
    MergedDirection(results, merged, ids, id);
  }

  // ----- What passes through -----

  /** All proposed actions, in the order of the results. */
  function Proposed(results: seq<O.Proposal<Action>>): seq<Action> {
    if results == [] then [] else Proposed(results[..|results| - 1]) + results[|results| - 1].actions
  }

  /** Both replace the hypotheses, or the graph, or the timeline. */
  predicate Overwrites(a: Action, b: Action) {
    || (a.ReplaceHypotheses? && b.ReplaceHypotheses?)
    || (a.UpdateGraph? && b.UpdateGraph?)
    || (a.SetSlot? && b.SetSlot? && a.slot == Timeline && b.slot == Timeline)
  }

  predicate Kept(a: Action) { !a.Increase? && !a.Decrease? && !Overwrites(a, a) }

  ghost predicate LastProposed(acts: seq<Action>, x: Action) {
    exists k :: 0 <= k < |acts| && acts[k] == x && forall l :: k < l < |acts| ==> !Overwrites(acts[l], x)
  }

  lemma KindsMean(a: Action, b: Action)
    ensures Replaces(a) <==> Overwrites(a, a)
    ensures Replaces(a) ==> (SameKind(b, a) <==> Overwrites(b, a)) && (SameKind(a, b) <==> Overwrites(a, b))
  {
  }

  lemma {:induction false} ActionsOf(acts: seq<Action>, w: int)
    ensures Actions(VotesOf(acts, w)) == acts
  {
    if acts != [] {
      var n := |acts| - 1;
      var less := VotesOf(acts[..n], w);
      ActionsOf(acts[..n], w);
      assert (less + [Vote(acts[n], w)])[..|less|] == less;
    }
  }

  lemma {:induction false} ActionsConcat(u: seq<Vote>, v: seq<Vote>)
    ensures Actions(u + v) == Actions(u) + Actions(v)
  {
    if v == [] {
      assert u + v == u;
    } else {
      ActionsConcat(u, v[..|v| - 1]);
      assert (u + v)[..|u + v| - 1] == u + v[..|v| - 1];
    }
  }

  lemma {:induction false} ActionsProposed(results: seq<O.Proposal<Action>>)
    ensures Actions(Votes(results)) == Proposed(results)
  {
    if results != [] {
      var n := |results| - 1;
      var w := O.ReasonerPriority(results[n].reasoner);
      ActionsProposed(results[..n]);
      ActionsConcat(Votes(results[..n]), VotesOf(results[n].actions, w));
      ActionsOf(results[n].actions, w);
    }
  }

  lemma {:induction false} OrdinaryKept(acts: seq<Action>)
    ensures Ordinary(acts) == Filter(acts, a => Kept(a))
  {
    if acts != [] {
      var n := |acts| - 1;
      OrdinaryKept(acts[..n]);
      FilterConcat(acts[..n], [acts[n]], a => Kept(a));
      assert acts == acts[..n] + [acts[n]];
    }
  }

  lemma {:induction false} LastIsProposed(acts: seq<Action>, x: Action)
    requires Overwrites(x, x) && LastOfKind(acts, x) == Some(x)
    ensures LastProposed(acts, x)
  {
    var n := |acts| - 1;
    KindsMean(x, acts[n]);
    if SameKind(acts[n], x) {
      assert acts[n] == x;
    } else {
      LastIsProposed(acts[..n], x);
      var k :| 0 <= k < n && acts[..n][k] == x && forall l :: k < l < n ==> !Overwrites(acts[..n][l], x);
      assert acts[k] == x;
      forall l | k < l < |acts| ensures !Overwrites(acts[l], x) {
        if l < n { assert acts[..n][l] == acts[l]; }
      }
    }
  }

  lemma {:induction false} PassedNoChange(votes: seq<Vote>)
    ensures forall x :: x in Passed(votes) ==> !x.Increase? && !x.Decrease?
  {
    if votes != [] {
      PassedNoChange(votes[..|votes| - 1]);
      var p, a := Passed(votes[..|votes| - 1]), votes[|votes| - 1].action;
      forall x | x in Put(p, a) ensures x == a || x in p {}
    }
  }

  /** Before the changes come the other actions: of those that replace the hypotheses, the graph or
      the timeline the last one proposed, once, and everything else as proposed and in that order. */
  lemma PassedExactly(results: seq<O.Proposal<Action>>)
    ensures var acts, p := Proposed(results), Passed(Votes(results));
            && (forall x :: x in p ==> !x.Increase? && !x.Decrease?)
            && Filter(p, a => Kept(a)) == Filter(acts, a => Kept(a))
            && (forall x :: x in p && Overwrites(x, x) ==> LastProposed(acts, x))
            && (forall x :: x in acts && Overwrites(x, x) ==> exists y :: y in p && Overwrites(y, x))
            && (forall i, j :: 0 <= i < j < |p| ==> !Overwrites(p[i], p[j]))
  {
    var acts, p := Proposed(results), Passed(Votes(results));
    ActionsProposed(results);
    PassedMeaning(Votes(results));
    PassedNoChange(Votes(results));
    OrdinaryKept(acts);
    OrdinaryKept(p);
    forall x | x in p && Overwrites(x, x) ensures LastProposed(acts, x) {
      KindsMean(x, x);
      LastIsProposed(acts, x);
    }
    forall x | x in acts && Overwrites(x, x) ensures exists y :: y in p && Overwrites(y, x) {
      KindsMean(x, x);
      LastKind(acts, x);
      KindsMean(x, LastOfKind(acts, x).value);
    }
    forall i, j | 0 <= i < j < |p| ensures !Overwrites(p[i], p[j]) { KindsMean(p[i], p[j]); }
  }
}
