/** Hypothesis confidences: rounding to tenths, the three normalisations, and the effects of
    resolved questions. Confidences are real numbers. */
module Hypotheses {
  import opened Wrappers
  import opened Protocol

  datatype HypothesisStatus = Proposed | Supported | Leading | Refuted | Accepted

  datatype Hypothesis = Hypothesis(id: string, confidence: real, status: HypothesisStatus)

  // ----- Rounding -----

  function Trunc(x: real): int { if x >= 0.0 then x.Floor else -(-x).Floor }

  /** Adds half a tenth and truncates toward zero. */
  function Round1(v: real): real { Trunc(v * 10.0 + 0.5) as real / 10.0 }

  /** Half away from zero. */
  function RoundHalfAway(v: real): real {
    if v >= 0.0 then (v * 10.0 + 0.5).Floor as real / 10.0
    else -((-v * 10.0 + 0.5).Floor as real / 10.0)
  }

  lemma Round1Near(v: real)
    requires v >= 0.0
    ensures v - 0.05 <= Round1(v) <= v + 0.05 && Round1(v) >= 0.0
    ensures Round1(v) == RoundHalfAway(v)
  {
  }

  lemma Round1Monotone(v: real, w: real)
    requires v <= w
    ensures Round1(v) <= Round1(w)
  {
    TruncMonotone(v * 10.0 + 0.5, w * 10.0 + 0.5);
  }

  lemma TruncMonotone(x: real, y: real)
    requires x <= y
    ensures Trunc(x) <= Trunc(y)
  {
  }

  lemma Round1Hundred()
    ensures Round1(100.0) == 100.0 && Round1(0.0) == 0.0
  {
    assert 100.0 * 10.0 + 0.5 == 1000.5;
    assert (1000.5).Floor == 1000;
  }

  /** Round1 is rounding to the nearest tenth exactly for arguments from -0.05 up, and for
      the negative odd multiples of 0.05; any other negative argument comes out too high. */
  lemma Round1Exact(v: real)
    ensures v - 0.05 <= Round1(v) <= v + 0.05 <==>
            v * 10.0 >= -0.5 || (v * 10.0 + 0.5).Floor as real == v * 10.0 + 0.5
  {
    var x := v * 10.0 + 0.5;
    assert Round1(v) == Trunc(x) as real / 10.0;
    if x < 0.0 {
      var n := (-x).Floor;
      assert Trunc(x) == -n;
      assert n as real <= -x < n as real + 1.0;
      if x.Floor as real == x { assert n == -x.Floor; }
    }
  }

  /** A whole number that is changed by rounding. */
  lemma Round1NotIdentityOnNegatives()
    ensures Round1(-1.0) == -0.9
  {
    assert -1.0 * 10.0 + 0.5 == -9.5;
    assert (9.5).Floor == 9;
  }

  // ----- Shares of a total -----

  function Sum(xs: seq<real>): real { if xs == [] then 0.0 else Sum(xs[..|xs| - 1]) + xs[|xs| - 1] }

  ghost predicate NonNegative(xs: seq<real>) { forall i :: 0 <= i < |xs| ==> xs[i] >= 0.0 }

  function Share(x: real, total: real): real
    requires total > 0.0
  {
    x / total * 100.0
  }

  lemma ShareBounds(x: real, total: real)
    requires 0.0 <= x <= total && total > 0.0
    ensures 0.0 <= Share(x, total) <= 100.0
  {
    assert x == total * (x / total);
    assert 0.0 <= x / total <= 1.0;
  }

  lemma ShareMonotone(x: real, y: real, total: real)
    requires x <= y && total > 0.0
    ensures Share(x, total) <= Share(y, total)
  {
    assert (y - x) / total >= 0.0;
    assert y / total == x / total + (y - x) / total;
  }

  lemma ShareAdds(x: real, y: real, total: real)
    requires total > 0.0
    ensures Share(x + y, total) == Share(x, total) + Share(y, total)
  {
    assert (x + y) / total == x / total + y / total;
  }

  lemma ShareWhole(total: real)
    requires total > 0.0
    ensures Share(total, total) == 100.0
  {
    assert total / total == 1.0;
  }

  lemma {:induction false} PartsBelowSum(xs: seq<real>, i: nat)
    requires NonNegative(xs) && i < |xs|
    ensures 0.0 <= xs[i] <= Sum(xs)
  {
    var n := |xs| - 1;
    SumNonNegative(xs[..n]);
    if i < n { PartsBelowSum(xs[..n], i); }
  }

  lemma {:induction false} SumNonNegative(xs: seq<real>)
    requires NonNegative(xs)
    ensures Sum(xs) >= 0.0
  {
    if xs != [] {
      SumNonNegative(xs[..|xs| - 1]);
    }
  }

  function Shares(xs: seq<real>, total: real): (ys: seq<real>)
    requires total > 0.0
    ensures |ys| == |xs|
  {
    if xs == [] then [] else Shares(xs[..|xs| - 1], total) + [Round1(Share(xs[|xs| - 1], total))]
  }

  lemma {:induction false} SharesAt(xs: seq<real>, total: real)
    requires total > 0.0
    ensures |Shares(xs, total)| == |xs|
    ensures forall i :: 0 <= i < |xs| ==> Shares(xs, total)[i] == Round1(Share(xs[i], total))
  {
    if xs != [] { SharesAt(xs[..|xs| - 1], total); }
  }

  lemma {:induction false} SharesNearSum(xs: seq<real>, total: real)
    requires total > 0.0 && NonNegative(xs)
    ensures Share(Sum(xs), total) - 0.05 * |xs| as real <= Sum(Shares(xs, total))
    ensures Sum(Shares(xs, total)) <= Share(Sum(xs), total) + 0.05 * |xs| as real
  {
    if xs == [] {
    } else {
      var n := |xs| - 1;
        SharesNearSum(xs[..n], total);
      ShareAdds(Sum(xs[..n]), xs[n], total);
      ShareMonotone(0.0, xs[n], total);
      Round1Near(Share(xs[n], total));
      assert Shares(xs, total)[..|Shares(xs, total)| - 1] == Shares(xs[..n], total);
    }
  }

  /** ys shares out 100 in the order of xs: each part within 0 and 100, the sum right up to
      0.05 per part. */
  ghost predicate Proportional(xs: seq<real>, ys: seq<real>) {
    && |ys| == |xs|
    && (forall i :: 0 <= i < |ys| ==> 0.0 <= ys[i] <= 100.0)
    && (forall i, j :: 0 <= i < |xs| && 0 <= j < |xs| && xs[i] <= xs[j] ==> ys[i] <= ys[j])
    && 100.0 - 0.05 * |xs| as real <= Sum(ys) <= 100.0 + 0.05 * |xs| as real
  }

  /** Rounded shares of a positive total of non-negative parts. */
  lemma SharesProportional(xs: seq<real>)
    requires NonNegative(xs) && Sum(xs) > 0.0
    ensures Proportional(xs, Shares(xs, Sum(xs)))
  {
    var t := Sum(xs);
    SharesAt(xs, t);
    SharesNearSum(xs, t);
    ShareWhole(t);
    Round1Hundred();
    forall i | 0 <= i < |xs| ensures 0.0 <= Round1(Share(xs[i], t)) <= 100.0 {
      PartsBelowSum(xs, i);
      ShareBounds(xs[i], t);
      Round1Monotone(Share(xs[i], t), 100.0);
      Round1Monotone(0.0, Share(xs[i], t));
    }
    forall i, j | 0 <= i < |xs| && 0 <= j < |xs| && xs[i] <= xs[j]
      ensures Round1(Share(xs[i], t)) <= Round1(Share(xs[j], t)) {
      ShareMonotone(xs[i], xs[j], t);
      Round1Monotone(Share(xs[i], t), Share(xs[j], t));
    }
  }

  // ----- The protocol's normalisation -----

  function Zeroed(c: real): real { if c < 0.0 then 0.0 else c }

  function ZeroedAll(hs: seq<Hypothesis>): (xs: seq<real>)
    ensures |xs| == |hs|
  {
    if hs == [] then [] else ZeroedAll(hs[..|hs| - 1]) + [Zeroed(hs[|hs| - 1].confidence)]
  }

  lemma {:induction false} ZeroedAt(hs: seq<Hypothesis>)
    ensures |ZeroedAll(hs)| == |hs| && NonNegative(ZeroedAll(hs))
    ensures forall i :: 0 <= i < |hs| ==> ZeroedAll(hs)[i] == Zeroed(hs[i].confidence)
  {
    if hs != [] { ZeroedAt(hs[..|hs| - 1]); }
  }

  /** What the normalisation stores in each entry. */
  function Normal(hs: seq<Hypothesis>, h: Hypothesis): Hypothesis {
    var total := Sum(ZeroedAll(hs));
    if total <= 0.0 then h.(confidence := Zeroed(h.confidence))
    else h.(confidence := Round1(Share(Zeroed(h.confidence), total)))
  }

  ghost predicate NormalizedFrom(hs: seq<Hypothesis>, rs: seq<Hypothesis>) {
    |rs| == |hs| && forall i :: 0 <= i < |hs| ==> rs[i] == Normal(hs, hs[i])
  }

  function ZeroedEntry(h: Hypothesis): Hypothesis { if h.confidence < 0.0 then h.(confidence := 0.0) else h }

  lemma ZeroedSnoc(hs: seq<Hypothesis>, i: nat)
    requires i < |hs|
    ensures Sum(ZeroedAll(hs[..i + 1])) == Sum(ZeroedAll(hs[..i])) + ZeroedEntry(hs[i]).confidence
  {
    assert hs[..i + 1][..i] == hs[..i];
    var zs := ZeroedAll(hs[..i + 1]);
    assert zs[..|zs| - 1] == ZeroedAll(hs[..i]);
  }

  method ZeroNegatives(hs: array<Hypothesis>) returns (total: real)
    modifies hs
    ensures Mapped(old(hs[..]), hs[..], h => ZeroedEntry(h))
    ensures total == Sum(ZeroedAll(old(hs[..])))
  {
    ghost var before := hs[..];
    total := 0.0;
    for i := 0 to hs.Length
      invariant total == Sum(ZeroedAll(before[..i]))
      invariant forall k :: 0 <= k < i ==> hs[k] == ZeroedEntry(before[k])
      invariant forall k :: i <= k < hs.Length ==> hs[k] == before[k]
    {
      ZeroedSnoc(before, i);
      if hs[i].confidence < 0.0 {
        hs[i] := hs[i].(confidence := 0.0);
      }
      total := total + hs[i].confidence;
    }
    assert before[..hs.Length] == before;
  }

  method Scale(hs: array<Hypothesis>, total: real)
    requires total > 0.0
    modifies hs
    ensures Mapped(old(hs[..]), hs[..], (h: Hypothesis) => h.(confidence := Round1(Share(h.confidence, total))))
  {
    ghost var before := hs[..];
    for i := 0 to hs.Length
      invariant forall k :: 0 <= k < i ==> hs[k] == before[k].(confidence := Round1(Share(before[k].confidence, total)))
      invariant forall k :: i <= k < hs.Length ==> hs[k] == before[k]
    {
      hs[i] := hs[i].(confidence := Round1(Share(hs[i].confidence, total)));
    }
  }

  method NormalizeAll(hs: array<Hypothesis>)
    modifies hs
    ensures NormalizedFrom(old(hs[..]), hs[..])
  {
    var total := ZeroNegatives(hs);
    if total <= 0.0 {
      return;
    }
    Scale(hs, total);
  }

  function Confidences(hs: seq<Hypothesis>): seq<real> { seq(|hs|, i requires 0 <= i < |hs| => hs[i].confidence) }

  lemma NormalizedShares(hs: seq<Hypothesis>, rs: seq<Hypothesis>)
    requires NormalizedFrom(hs, rs) && Sum(ZeroedAll(hs)) > 0.0
    ensures Confidences(rs) == Shares(ZeroedAll(hs), Sum(ZeroedAll(hs)))
  {
    ZeroedAt(hs);
    SharesAt(ZeroedAll(hs), Sum(ZeroedAll(hs)));
  }

  lemma NormalizedZeros(hs: seq<Hypothesis>, rs: seq<Hypothesis>)
    requires NormalizedFrom(hs, rs) && Sum(ZeroedAll(hs)) <= 0.0
    ensures forall i :: 0 <= i < |hs| ==> rs[i].confidence == 0.0
  {
    ZeroedAt(hs);
    forall i | 0 <= i < |hs| ensures rs[i].confidence == 0.0 {
      PartsBelowSum(ZeroedAll(hs), i);
    }
  }

  /** The protocol's normalisation shares out 100 in proportion to the confidences, negative
      ones counting as zero; if none is positive they all become zero. Ids and statuses stay. */
  lemma NormalizedField(hs: seq<Hypothesis>, rs: seq<Hypothesis>)
    requires NormalizedFrom(hs, rs)
    ensures forall i :: 0 <= i < |hs| ==> rs[i].id == hs[i].id && rs[i].status == hs[i].status
    ensures Sum(ZeroedAll(hs)) > 0.0 ==> Proportional(ZeroedAll(hs), Confidences(rs))
    ensures Sum(ZeroedAll(hs)) <= 0.0 ==> forall i :: 0 <= i < |hs| ==> rs[i].confidence == 0.0
  {
    ZeroedAt(hs);
    if Sum(ZeroedAll(hs)) > 0.0 {
      NormalizedShares(hs, rs);
      SharesProportional(ZeroedAll(hs));
    } else {
      NormalizedZeros(hs, rs);
    }
  }

  // ----- Effects of resolved questions -----

  function FindPlaybookQuestion(pb: Playbook, id: string): Option<PlaybookQuestion> {
    if pb == [] then None else if pb[0].id == id then Some(pb[0]) else FindPlaybookQuestion(pb[1..], id)
  }

  predicate Applies(eff: Effect, res: Resolution) { eff.whenTrue == (res.status == Confirmed) }

  function Affected(h: Hypothesis, eff: Effect): Hypothesis {
    if h.id != eff.hypothesisId then h
    else h.(confidence := Clamp(h.confidence + if eff.increase then eff.amount else -eff.amount, 0.0, 100.0))
  }

  function AfterEffects(h: Hypothesis, effs: seq<Effect>, res: Resolution): Hypothesis {
    if effs == [] then h
    else
      var before := AfterEffects(h, effs[..|effs| - 1], res);
      if Applies(effs[|effs| - 1], res) then Affected(before, effs[|effs| - 1]) else before
  }

  function EffectsOf(pb: Playbook, res: Resolution): seq<Effect> {
    match FindPlaybookQuestion(pb, res.questionId)
    case None => []
    case Some(pq) => pq.effects
  }

  function AfterResolutions(h: Hypothesis, pb: Playbook, resolved: seq<Resolution>): Hypothesis {
    if resolved == [] then h
    else
      var res := resolved[|resolved| - 1];
      AfterEffects(AfterResolutions(h, pb, resolved[..|resolved| - 1]), EffectsOf(pb, res), res)
  }

  // ----- Which way an effect goes -----

  /** The effect is about h and meant for this outcome: whenTrue for a confirmed question, the
      others for a refused one. */
  predicate Concerns(eff: Effect, h: Hypothesis, res: Resolution) {
    && eff.hypothesisId == h.id
    && ((eff.whenTrue && res.status == Confirmed) || (!eff.whenTrue && res.status == Refused))
  }

  predicate GoesUp(eff: Effect) { if eff.increase then eff.amount >= 0.0 else eff.amount <= 0.0 }

  predicate GoesDown(eff: Effect) { if eff.increase then eff.amount <= 0.0 else eff.amount >= 0.0 }

  predicate IsPercentage(c: real) { 0.0 <= c <= 100.0 }

  /** A single effect: added or subtracted and kept within 0 and 100 if it concerns the hypothesis. */
  lemma OneEffect(h: Hypothesis, eff: Effect, res: Resolution)
    ensures var v := if eff.increase then h.confidence + eff.amount else h.confidence - eff.amount;
            AfterEffects(h, [eff], res) ==
            if !Concerns(eff, h, res) then h
            else h.(confidence := if v < 0.0 then 0.0 else if v > 100.0 then 100.0 else v)
  {
    assert [eff][..0] == [];
    assert AfterEffects(h, [], res) == h;
  }

  /** Effects that raise never lower a hypothesis, effects that lower never raise it, and without
      any that concerns it, it stays as it is. */
  lemma {:induction false} EffectsGo(h: Hypothesis, effs: seq<Effect>, res: Resolution)
    requires IsPercentage(h.confidence)
    ensures var r := AfterEffects(h, effs, res);
            && r.id == h.id && r.status == h.status && IsPercentage(r.confidence)
            && ((forall e :: e in effs && Concerns(e, h, res) ==> GoesUp(e)) ==> r.confidence >= h.confidence)
            && ((forall e :: e in effs && Concerns(e, h, res) ==> GoesDown(e)) ==> r.confidence <= h.confidence)
            && ((forall e :: e in effs ==> !Concerns(e, h, res)) ==> r == h)
  {
    if effs != [] {
      var n := |effs| - 1;
      EffectsGo(h, effs[..n], res);
      assert effs[n] in effs && forall e :: e in effs[..n] ==> e in effs;
    }
  }

  ghost predicate OnlyUp(h: Hypothesis, pb: Playbook, resolved: seq<Resolution>) {
    forall res, e :: res in resolved && e in EffectsOf(pb, res) && Concerns(e, h, res) ==> GoesUp(e)
  }

  ghost predicate OnlyDown(h: Hypothesis, pb: Playbook, resolved: seq<Resolution>) {
    forall res, e :: res in resolved && e in EffectsOf(pb, res) && Concerns(e, h, res) ==> GoesDown(e)
  }

  ghost predicate NoneConcerns(h: Hypothesis, pb: Playbook, resolved: seq<Resolution>) {
    forall res, e :: res in resolved && e in EffectsOf(pb, res) ==> !Concerns(e, h, res)
  }

  lemma FewerResolutions(h: Hypothesis, pb: Playbook, resolved: seq<Resolution>)
    requires resolved != []
    ensures var less := resolved[..|resolved| - 1];
            && (OnlyUp(h, pb, resolved) ==> OnlyUp(h, pb, less))
            && (OnlyDown(h, pb, resolved) ==> OnlyDown(h, pb, less))
            && (NoneConcerns(h, pb, resolved) ==> NoneConcerns(h, pb, less))
  {
    forall x | x in resolved[..|resolved| - 1] ensures x in resolved {}
  }

  /** Before the normalisation, resolutions whose effects all raise a hypothesis leave it no lower,
      those whose effects all lower it no higher, and it stays as it is if none concerns it. */
  lemma {:induction false} ResolutionsGo(h: Hypothesis, pb: Playbook, resolved: seq<Resolution>)
    requires IsPercentage(h.confidence)
    ensures var r := AfterResolutions(h, pb, resolved);
            && r.id == h.id && r.status == h.status && IsPercentage(r.confidence)
            && (OnlyUp(h, pb, resolved) ==> r.confidence >= h.confidence)
            && (OnlyDown(h, pb, resolved) ==> r.confidence <= h.confidence)
            && (NoneConcerns(h, pb, resolved) ==> r == h)
  {
    if resolved != [] {
      var n := |resolved| - 1;
      var res := resolved[n];
      var before := AfterResolutions(h, pb, resolved[..n]);
      ResolutionsGo(h, pb, resolved[..n]);
      FewerResolutions(h, pb, resolved);
      EffectsGo(before, EffectsOf(pb, res), res);
      assert res in resolved;
      forall e ensures Concerns(e, before, res) <==> Concerns(e, h, res) {}
    }
  }

  ghost predicate FirstEntry(pb: Playbook, id: string, i: int) {
    0 <= i < |pb| && pb[i].id == id && forall j :: 0 <= j < i ==> pb[j].id != id
  }

  lemma {:induction false} EntryFound(pb: Playbook, id: string)
    ensures match FindPlaybookQuestion(pb, id)
            case None => forall pq :: pq in pb ==> pq.id != id
            case Some(pq) => exists i :: FirstEntry(pb, id, i) && pb[i] == pq
  {
    if pb != [] {
      if pb[0].id == id {
        assert FirstEntry(pb, id, 0);
      } else {
        EntryFound(pb[1..], id);
        if i :| FirstEntry(pb[1..], id, i) {
          assert pb[i + 1] == pb[1..][i];
          forall j | 0 <= j < i + 1 ensures pb[j].id != id { assert j > 0 ==> pb[j] == pb[1..][j - 1]; }
          assert FirstEntry(pb, id, i + 1);
        }
      }
    }
  }

  /** A resolution has the effects of the first playbook entry with the question's id, or none. */
  lemma EffectsFound(pb: Playbook, res: Resolution)
    ensures if forall pq :: pq in pb ==> pq.id != res.questionId then EffectsOf(pb, res) == []
            else exists i :: FirstEntry(pb, res.questionId, i) && EffectsOf(pb, res) == pb[i].effects
  {
    EntryFound(pb, res.questionId);
  }

  ghost predicate Mapped(hs: seq<Hypothesis>, rs: seq<Hypothesis>, f: Hypothesis -> Hypothesis) {
    |rs| == |hs| && forall i :: 0 <= i < |hs| ==> rs[i] == f(hs[i])
  }

  method ApplyEffect(hs: array<Hypothesis>, eff: Effect)
    modifies hs
    ensures Mapped(old(hs[..]), hs[..], h => Affected(h, eff))
  {
    ghost var before := hs[..];
    for i := 0 to hs.Length
      invariant forall k :: 0 <= k < i ==> hs[k] == Affected(before[k], eff)
      invariant forall k :: i <= k < hs.Length ==> hs[k] == before[k]
    {
      if hs[i].id != eff.hypothesisId {
        continue;
      }
      var delta := if eff.increase then eff.amount else -eff.amount;
      hs[i] := hs[i].(confidence := Clamp(hs[i].confidence + delta, 0.0, 100.0));
    }
  }

  function AdjustAll(hs: seq<Hypothesis>, pb: Playbook, resolved: seq<Resolution>): (rs: seq<Hypothesis>)
    ensures |rs| == |hs| && forall i :: 0 <= i < |hs| ==> rs[i] == AfterResolutions(hs[i], pb, resolved)
  {
    seq(|hs|, i requires 0 <= i < |hs| => AfterResolutions(hs[i], pb, resolved))
  }

  /** rs is the field hs with the effects of the resolutions and normalised. */
  ghost predicate Effected(hs: seq<Hypothesis>, pb: Playbook, resolved: seq<Resolution>, rs: seq<Hypothesis>) {
    NormalizedFrom(AdjustAll(hs, pb, resolved), rs)
  }

  method ApplyPlaybookEffects(hs: array<Hypothesis>, pb: Playbook, resolved: seq<Resolution>)
    modifies hs
    ensures Effected(old(hs[..]), pb, resolved, hs[..])
  {
    ghost var before := hs[..];
    if hs.Length == 0 {
      return;
    }
    for r := 0 to |resolved|
      invariant Mapped(before, hs[..], h => AfterResolutions(h, pb, resolved[..r]))
    {
      var res := resolved[r];
      var effs := EffectsOf(pb, res);
      ghost var mid := hs[..];
      for e := 0 to |effs|
        invariant Mapped(mid, hs[..], h => AfterEffects(h, effs[..e], res))
      {
        assert effs[..e + 1][..e] == effs[..e];
        if Applies(effs[e], res) {
          ApplyEffect(hs, effs[e]);
        }
      }
      assert effs[..|effs|] == effs;
      assert resolved[..r + 1][..r] == resolved[..r];
    }
    assert resolved[..|resolved|] == resolved;
    assert hs[..] == AdjustAll(before, pb, resolved);
    NormalizeAll(hs);
  }

  // ----- Who leads afterwards -----

  /** No entry is more confident than the first. */
  predicate FirstLeads(hs: seq<Hypothesis>) { forall i :: 0 <= i < |hs| ==> hs[i].confidence <= hs[0].confidence }

  /** A step from one tenth of a percent of the total to the next, at which shares round up, lies
      above x and not above y. */
  predicate Parts(x: real, y: real, total: real, m: int) { x * 2000.0 < (2 * m - 1) as real * total <= y * 2000.0 }

  lemma ScaledShare(x: real, total: real, b: real)
    requires total > 0.0
    ensures Share(x, total) * 10.0 + 0.5 < b <==> x * 2000.0 < (2.0 * b - 1.0) * total
  {
    var q := x / total;
    assert q * total == x && Share(x, total) == q * 100.0;
    var r := q * 2000.0 - (2.0 * b - 1.0);
    assert r * total == x * 2000.0 - (2.0 * b - 1.0) * total;
    assert r < 0.0 ==> r * total < 0.0;
    assert r >= 0.0 ==> r * total >= 0.0;
  }

  /** Of two shares the second is rounded to more exactly when such a step parts them. */
  lemma RoundsApart(x: real, y: real, total: real)
    requires x >= 0.0 && y >= 0.0 && total > 0.0
    ensures Round1(Share(x, total)) < Round1(Share(y, total)) <==> exists m :: Parts(x, y, total, m)
  {
    ShareMonotone(0.0, x, total);
    ShareMonotone(0.0, y, total);
    FloorsApart(Share(x, total), Share(y, total));
    SameSteps(x, y, total);
  }

  lemma SameSteps(x: real, y: real, total: real)
    requires total > 0.0
    ensures (exists m :: Steps(Share(x, total), Share(y, total), m)) <==> exists m :: Parts(x, y, total, m)
  {
    if m :| Steps(Share(x, total), Share(y, total), m) { StepsParts(x, y, total, m); }
    if m :| Parts(x, y, total, m) { StepsParts(x, y, total, m); }
  }

  predicate Steps(s: real, t: real, m: int) { s * 10.0 + 0.5 < m as real <= t * 10.0 + 0.5 }

  lemma FloorsApart(s: real, t: real)
    requires s >= 0.0 && t >= 0.0
    ensures Round1(s) < Round1(t) <==> exists m :: Steps(s, t, m)
  {
    var u, v := s * 10.0 + 0.5, t * 10.0 + 0.5;
    assert Round1(s) == u.Floor as real / 10.0 && Round1(t) == v.Floor as real / 10.0;
    if Round1(s) < Round1(t) {
      FloorStep(u, v, v.Floor);
      assert Steps(s, t, v.Floor);
    }
    if m :| Steps(s, t, m) { FloorStep(u, v, m); }
  }

  lemma FloorStep(u: real, v: real, m: int)
    ensures u.Floor < v.Floor ==> u < v.Floor as real <= v
    ensures u < m as real <= v ==> u.Floor < v.Floor
  {
    assert u < (u.Floor + 1) as real;
    if u < m as real <= v {
      assert (u.Floor as real) < m as real;
      assert m <= v.Floor;
    }
  }

  lemma StepsParts(x: real, y: real, total: real, m: int)
    requires total > 0.0
    ensures Steps(Share(x, total), Share(y, total), m) <==> Parts(x, y, total, m)
  {
    ScaledShare(x, total, m as real);
    ScaledShare(y, total, m as real);
  }

  /** The tenth of a percent that an entry of the adjusted field is given. */
  function ShareOf(mid: seq<Hypothesis>, i: nat): real
    requires i < |mid| && Sum(ZeroedAll(mid)) > 0.0
  {
    Round1(Share(Zeroed(mid[i].confidence), Sum(ZeroedAll(mid))))
  }

  /** The first entry leads afterwards if the effects leave it ahead. */
  lemma AheadStaysAhead(hs: seq<Hypothesis>, pb: Playbook, resolved: seq<Resolution>, rs: seq<Hypothesis>)
    requires Effected(hs, pb, resolved, rs) && FirstLeads(AdjustAll(hs, pb, resolved))
    ensures FirstLeads(rs)
  {
    var mid := AdjustAll(hs, pb, resolved);
    NormalizedField(mid, rs);
    ZeroedAt(mid);
    if Sum(ZeroedAll(mid)) > 0.0 {
      forall i | 0 <= i < |rs| ensures rs[i].confidence <= rs[0].confidence {
        assert ZeroedAll(mid)[i] <= ZeroedAll(mid)[0];
        assert Confidences(rs)[i] <= Confidences(rs)[0];
      }
    }
  }

  /** It loses the lead exactly when, in the adjusted field before the normalisation, a step of the
      rounding parts it from a more confident entry. */
  lemma LosesLeadExactly(hs: seq<Hypothesis>, pb: Playbook, resolved: seq<Resolution>, rs: seq<Hypothesis>)
    requires Effected(hs, pb, resolved, rs)
    ensures var mid := AdjustAll(hs, pb, resolved);
            var total := Sum(ZeroedAll(mid));
            !FirstLeads(rs) <==>
              && total > 0.0
              && exists i, m :: 0 <= i < |mid| && Parts(Zeroed(mid[0].confidence), Zeroed(mid[i].confidence), total, m)
  {
    var mid := AdjustAll(hs, pb, resolved);
    var total := Sum(ZeroedAll(mid));
    NormalizedField(mid, rs);
    if total > 0.0 {
      forall i | 0 <= i < |rs|
        ensures rs[i].confidence > rs[0].confidence <==>
          exists m :: Parts(Zeroed(mid[0].confidence), Zeroed(mid[i].confidence), total, m) {
        assert rs[i].confidence == ShareOf(mid, i) && rs[0].confidence == ShareOf(mid, 0);
        RoundsApart(Zeroed(mid[0].confidence), Zeroed(mid[i].confidence), total);
      }
    }
  }

  /** An entry that ends a whole tenth of a percent of the field ahead of the first takes the lead. */
  lemma FarAheadTakesLead(hs: seq<Hypothesis>, pb: Playbook, resolved: seq<Resolution>, rs: seq<Hypothesis>, i: nat)
    requires Effected(hs, pb, resolved, rs) && i < |hs|
    requires var mid := AdjustAll(hs, pb, resolved);
             var total := Sum(ZeroedAll(mid));
             total > 0.0 && Share(Zeroed(mid[i].confidence), total) >= Share(Zeroed(mid[0].confidence), total) + 0.1
    ensures rs[i].confidence > rs[0].confidence
  {
    var mid := AdjustAll(hs, pb, resolved);
    var total := Sum(ZeroedAll(mid));
    var a, b := Share(Zeroed(mid[0].confidence), total), Share(Zeroed(mid[i].confidence), total);
    ZeroedAt(mid);
    PartsBelowSum(ZeroedAll(mid), 0);
    ShareBounds(Zeroed(mid[0].confidence), total);
    TenthApart(a, b);
  }

  lemma TenthApart(a: real, b: real)
    requires 0.0 <= a && a + 0.1 <= b
    ensures Round1(a) < Round1(b)
  {
    assert (b * 10.0 + 0.5).Floor >= (a * 10.0 + 0.5 + 1.0).Floor;
  }

  const Doubt := PlaybookQuestion("q", 50, [ApplicationLogs], [], [Effect(true, false, "a", 50.0)], "", [])
  const Sixty := Hypothesis("a", 60.0, Leading)
  const Forty := Hypothesis("b", 40.0, Proposed)

  /** One confirmed question takes 50 from the leader of two: 60 and 40 become 20 and 80,
      and the entries stay where they are. */
  lemma FirstNeedNotLead(rs: seq<Hypothesis>)
    requires Effected([Sixty, Forty], [Doubt], [Resolution("q", Confirmed, 90.0)], rs)
    ensures rs == [Sixty.(confidence := 20.0), Forty.(confidence := 80.0)] && !FirstLeads(rs)
  {
    var res := Resolution("q", Confirmed, 90.0);
    var mid := AdjustAll([Sixty, Forty], [Doubt], [res]);
    assert EffectsOf([Doubt], res) == [Effect(true, false, "a", 50.0)];
    DoubtEffect(Sixty, res);
    DoubtEffect(Forty, res);
    assert mid == [Sixty.(confidence := 10.0), Forty];
    TenAndForty(mid);
    assert rs[0] == Normal(mid, mid[0]) && rs[1] == Normal(mid, mid[1]);
  }

  lemma DoubtEffect(h: Hypothesis, res: Resolution)
    requires res == Resolution("q", Confirmed, 90.0)
    ensures AfterResolutions(h, [Doubt], [res]) == Affected(h, Effect(true, false, "a", 50.0))
  {
    var effs := [Effect(true, false, "a", 50.0)];
    assert EffectsOf([Doubt], res) == effs;
    assert [res][..0] == [] && effs[..0] == [];
    assert AfterResolutions(h, [Doubt], []) == h;
    assert AfterEffects(h, [], res) == h;
  }

  lemma TenAndForty(mid: seq<Hypothesis>)
    requires mid == [Sixty.(confidence := 10.0), Forty]
    ensures Sum(ZeroedAll(mid)) == 50.0
    ensures Round1(Share(10.0, 50.0)) == 20.0 && Round1(Share(40.0, 50.0)) == 80.0
  {
    assert mid[..1] == [mid[0]] && [mid[0]][..0] == [];
    assert ZeroedAll([mid[0]]) == [10.0] && ZeroedAll(mid) == [10.0, 40.0];
    assert [10.0, 40.0][..1] == [10.0] && [10.0][..0] == [];
    assert Sum([10.0]) == 10.0;
    assert Share(10.0, 50.0) == 20.0 && Share(40.0, 50.0) == 80.0;
    assert (200.5).Floor == 200 && (800.5).Floor == 800;
  }
}
