/** When the stored log of applied actions is the list that was applied, and so can be replayed. A
    replacement's slice is shared with the session; which later actions show through in it depends
    on what happens while it is. */
module LogReplay {
  import opened Wrappers
  import opened Hypotheses
  import opened Applier
  import opened ActionLog

  // ----- Actions that show through -----

  /** a changes hypotheses of hs in place: every change of a confidence does, since the field is
      shared out afresh, and a change of status does if it concerns one of them. */
  predicate Touches(hs: seq<Hypothesis>, a: Action) {
    || a.Increase? || a.Decrease?
    || ((a.RejectHypothesis? || a.PromoteHypothesis?) && HypothesisAt(hs, a.hypothesisId).Some?)
  }

  /** No action touches hs before the session's list is replaced or outgrows the spare room. */
  predicate Untouched(hs: seq<Hypothesis>, spare: nat, later: seq<Action>)
    decreases |later|
  {
    || later == [] || later[0].ReplaceHypotheses? || (later[0].CreateHypothesis? && spare == 0)
    || (&& !Touches(hs, later[0])
        && Untouched(hs, if later[0].CreateHypothesis? then spare - 1 else spare, later[1..]))
  }

  predicate SameIds(hs: seq<Hypothesis>, rs: seq<Hypothesis>) {
    |hs| == |rs| && forall i | 0 <= i < |hs| :: hs[i].id == rs[i].id
  }

  lemma {:induction false} FoundAlike(hs: seq<Hypothesis>, rs: seq<Hypothesis>, id: string)
    requires SameIds(hs, rs)
    ensures HypothesisAt(hs, id) == HypothesisAt(rs, id)
  {
    if hs != [] { FoundAlike(hs[1..], rs[1..], id); }
  }

  lemma {:induction false} FoundIn(hs: seq<Hypothesis>, z: seq<Hypothesis>, id: string)
    ensures HypothesisAt(hs + z, id) ==
      if HypothesisAt(hs, id).Some? then HypothesisAt(hs, id)
      else match HypothesisAt(z, id) case None => None case Some(i) => Some(|hs| + i)
  {
    if hs == [] {
      assert hs + z == z;
    } else {
      assert (hs + z)[1..] == hs[1..] + z;
      FoundIn(hs[1..], z, id);
    }
  }

  /** h with its hypotheses replaced. */
  function With(h: Held, hs: seq<Hypothesis>): Held { h.(s := h.s.(hypotheses := hs)) }

  /** What an action that touches no hypothesis of hs makes of those that were added to them. */
  function Extra(hs: seq<Hypothesis>, z: seq<Hypothesis>, a: Action): seq<Hypothesis> {
    match a
    case CreateHypothesis(Some(x)) => if x.id == "" || HypothesisAt(hs + z, x.id).Some? then z else z + [x]
    case RejectHypothesis(id) => if id == "" then z else WithStatus(z, id, Refuted)
    case PromoteHypothesis(id) => if id == "" then z else WithStatus(z, id, Leading)
    case _ => z
  }

  lemma ExtraAlike(hs: seq<Hypothesis>, rs: seq<Hypothesis>, z: seq<Hypothesis>, a: Action)
    requires SameIds(hs, rs)
    ensures Extra(hs, z, a) == Extra(rs, z, a) && (Touches(hs, a) <==> Touches(rs, a))
  {
    if a.CreateHypothesis? && a.hypothesis.Some? { FoundAlike(hs + z, rs + z, a.hypothesis.value.id); }
    if a.RejectHypothesis? || a.PromoteHypothesis? { FoundAlike(hs, rs, a.hypothesisId); }
  }

  lemma StatusElsewhere(hs: seq<Hypothesis>, z: seq<Hypothesis>, id: string, status: HypothesisStatus)
    requires HypothesisAt(hs, id).None?
    ensures WithStatus(hs + z, id, status) == hs + WithStatus(z, id, status)
  {
    FoundIn(hs, z, id);
  }

  /** An action that does not touch hs leaves it alone. */
  lemma Passes(h: Held, hs: seq<Hypothesis>, z: seq<Hypothesis>, a: Action)
    requires WellHeld(h) && h.s.hypotheses == hs + z && !a.ReplaceHypotheses? && !Touches(hs, a)
    ensures After(h, a).s.hypotheses == hs + Extra(hs, z, a)
  {
    match a
    case RejectHypothesis(id) => StatusElsewhere(hs, z, id, Refuted);
    case PromoteHypothesis(id) => StatusElsewhere(hs, z, id, Leading);
    case CreateHypothesis(Some(x)) => assert (hs + z) + [x] == hs + (z + [x]);
    case _ =>
  }

  /** The rest of the state does not depend on the hypotheses. */
  lemma RestAlike(h: Held, hs: seq<Hypothesis>, a: Action)
    requires WellHeld(h)
    ensures With(After(With(h, hs), a), []) == With(After(h, a), [])
  {
    ValidAlike(h, hs, a);
    if ForHypotheses(a) {
      OnlyHypotheses(h, a);
      OnlyHypotheses(With(h, hs), a);
    } else if ForPlan(a) {
      PlanAlike(h, hs, a);
    } else if a.LinkNodes? {
      LinkAlike(h, hs, a);
    } else {
      OtherAlike(h, hs, a);
    }
  }

  lemma PlanAlike(h: Held, hs: seq<Hypothesis>, a: Action)
    requires WellHeld(h) && ForPlan(a)
    ensures With(After(With(h, hs), a), []) == With(After(h, a), [])
  {
    OnlyPlan(h, a);
    OnlyPlan(With(h, hs), a);
  }

  lemma OtherAlike(h: Held, hs: seq<Hypothesis>, a: Action)
    requires WellHeld(h) && !ForHypotheses(a) && !ForPlan(a) && !a.LinkNodes?
    ensures With(After(With(h, hs), a), []) == With(After(h, a), [])
  {
    OnlyRest(h, a);
    OnlyRest(With(h, hs), a);
  }

  lemma LinkAlike(h: Held, hs: seq<Hypothesis>, a: Action)
    requires WellHeld(h) && a.LinkNodes?
    ensures With(After(With(h, hs), a), []) == With(After(h, a), [])
  {
  }

  lemma ValidAlike(h: Held, hs: seq<Hypothesis>, a: Action)
    ensures Validate(With(h, hs), a) == Validate(h, a)
  {
  }

  lemma {:induction false} LentUntouched(n: nat, spare: nat, h: Held, hs: seq<Hypothesis>, z: seq<Hypothesis>,
                                         later: seq<Action>)
    requires WellHeld(h) && h.s.hypotheses == hs + z && n == |hs| && Untouched(hs, spare, later)
    ensures Lent(n, spare, h, later) == hs
    decreases |later|
  {
    if later != [] && !later[0].ReplaceHypotheses? && !(later[0].CreateHypothesis? && spare == 0) {
      var a := later[0];
      Passes(h, hs, z, a);
      LentUntouched(n, if a.CreateHypothesis? then spare - 1 else spare, After(h, a), hs, Extra(hs, z, a), later[1..]);
    }
  }

  lemma EntryFaithful(h: Held, hs: seq<Hypothesis>, spare: nat, later: seq<Action>)
    requires WellHeld(h) && (hs == [] || Untouched(hs, spare, later))
    ensures StoredFirst(h, [ReplaceHypotheses(hs, spare)] + later) == ReplaceHypotheses(hs, spare)
  {
    var a := ReplaceHypotheses(hs, spare);
    assert ([a] + later)[1..] == later && ([a] + later)[0] == a;
    assert After(h, a).s.hypotheses == hs + [];
    if Untouched(hs, spare, later) { LentUntouched(|hs|, spare, After(h, a), hs, [], later); }
  }

  /** Every replacement in the list stays untouched. */
  predicate AllUntouched(acts: seq<Action>) {
    forall i | 0 <= i < |acts| :: acts[i].ReplaceHypotheses? ==>
      acts[i].hypotheses == [] || Untouched(acts[i].hypotheses, acts[i].spare, acts[i + 1..])
  }

  /** The stored log is the list of applied actions, and so can be replayed, if no replacement is
      touched while it is shared. */
  lemma {:induction false} LogFaithful(h: Held, applied: seq<Action>)
    requires WellHeld(h) && AllUntouched(applied)
    ensures Stored(h, applied) == applied
    decreases |applied|
  {
    if applied != [] {
      var a := applied[0];
      assert applied == [a] + applied[1..];
      forall i | 0 <= i < |applied[1..]| && applied[1..][i].ReplaceHypotheses?
        ensures var b := applied[1..][i]; b.hypotheses == [] || Untouched(b.hypotheses, b.spare, applied[1..][i + 1..])
      {
        assert applied[i + 1] == applied[1..][i] && applied[i + 2..] == applied[1..][i + 1..];
      }
      LogFaithful(After(h, a), applied[1..]);
      if a.ReplaceHypotheses? { EntryFaithful(h, a.hypotheses, a.spare, applied[1..]); }
    }
  }

  // ----- Contents that an action in place makes equal -----

  lemma RulingAlike(h: Held, hs: seq<Hypothesis>, rs: seq<Hypothesis>, a: Action)
    requires WellHeld(h) && SameIds(hs, rs)
    ensures Ruling(With(h, hs), a) == Ruling(With(h, rs), a)
  {
    if a.Increase? || a.Decrease? || a.RejectHypothesis? || a.PromoteHypothesis? { FoundAlike(hs, rs, a.hypothesisId); }
    if a.CreateHypothesis? && a.hypothesis.Some? { FoundAlike(hs, rs, a.hypothesis.value.id); }
  }

  /** The same contents but for one confidence, which the change clamps to the same value. */
  lemma ClampedAlike(hs: seq<Hypothesis>, z: seq<Hypothesis>, i: nat, delta: real)
    returns (u: seq<Hypothesis>, v: seq<Hypothesis>)
    requires i < |hs| && delta != 0.0
    ensures SameIds(hs, u) && SameIds(hs, v) && u != v
    ensures Shifted(u + z, i, delta) == Shifted(v + z, i, delta)
  {
    var x := if delta > 0.0 then 100.0 else 0.0;
    u, v := hs[i := hs[i].(confidence := x)], hs[i := hs[i].(confidence := x - delta / 2.0)];
    assert u[i] != v[i];
    assert Shifted(u + z, i, delta) == Shifted(v + z, i, delta);
  }

  lemma StatusAlike(hs: seq<Hypothesis>, z: seq<Hypothesis>, id: string, status: HypothesisStatus)
    returns (u: seq<Hypothesis>, v: seq<Hypothesis>)
    requires HypothesisAt(hs, id).Some?
    ensures SameIds(hs, u) && SameIds(hs, v) && u != v
    ensures WithStatus(u + z, id, status) == WithStatus(v + z, id, status)
  {
    var i := HypothesisAt(hs, id).value;
    FindHypothesis(hs, id);
    u, v := hs[i := hs[i].(status := Proposed)], hs[i := hs[i].(status := Supported)];
    assert u[i] != v[i];
    FoundIn(u, z, id);
    FoundIn(v, z, id);
    FoundAlike(hs, u, id);
    FoundAlike(hs, v, id);
    assert WithStatus(u + z, id, status) == WithStatus(v + z, id, status);
  }

  // ----- A confidence that leaves nothing to the others -----

  /** The first hypothesis has confidence c and the others are refuted. */
  function Dominated(hs: seq<Hypothesis>, c: real): seq<Hypothesis>
    requires hs != []
  {
    [hs[0].(confidence := c, status := Proposed)] + AllRefuted(hs[1..])
  }

  function AllRefuted(hs: seq<Hypothesis>): (rs: seq<Hypothesis>)
    ensures SameIds(hs, rs) && forall h :: h in rs ==> h.status == Refuted
  {
    if hs == [] then [] else AllRefuted(hs[..|hs| - 1]) + [hs[|hs| - 1].(status := Refuted)]
  }

  function Size(x: real): real { if x < 0.0 then -x else x }

  function Mass(z: seq<Hypothesis>): (m: real)
    ensures m >= 0.0
  {
    if z == [] then 0.0 else Mass(z[..|z| - 1]) + Size(z[|z| - 1].confidence)
  }

  lemma ActiveEnd(hs: seq<Hypothesis>)
    requires hs != []
    ensures var n := |hs| - 1;
            Sum(Active(hs)) == Sum(Active(hs[..n])) + if hs[n].status == Refuted then 0.0 else hs[n].confidence
  {
    var n := |hs| - 1;
    assert hs[..n + 1] == hs;
    ActiveSnoc(hs, n);
  }

  lemma {:induction false} MassBounds(z: seq<Hypothesis>)
    ensures forall h :: h in z ==> Size(h.confidence) <= Mass(z)
    ensures Size(Sum(Active(z))) <= Mass(z)
  {
    if z != [] {
      var n := |z| - 1;
      MassBounds(z[..n]);
      assert z == z[..n] + [z[n]];
      ActiveEnd(z);
    }
  }

  lemma {:induction false} ActiveConcat(u: seq<Hypothesis>, z: seq<Hypothesis>)
    ensures Sum(Active(u + z)) == Sum(Active(u)) + Sum(Active(z))
    decreases |z|
  {
    if z == [] {
      assert u + z == u;
    } else {
      var n := |z| - 1;
      assert (u + z)[..|u + z| - 1] == u + z[..n];
      ActiveConcat(u, z[..n]);
      ActiveEnd(z);
      ActiveEnd(u + z);
    }
  }

  lemma {:induction false} RefutedInactive(hs: seq<Hypothesis>)
    requires forall h :: h in hs ==> h.status == Refuted
    ensures Active(hs) == []
  {
    if hs != [] {
      assert hs[|hs| - 1] in hs;
      RefutedInactive(hs[..|hs| - 1]);
    }
  }

  lemma DominatedTotal(hs: seq<Hypothesis>, z: seq<Hypothesis>, c: real)
    requires hs != []
    ensures Sum(Active(Dominated(hs, c) + z)) == c + Sum(Active(z))
  {
    var first, others := [hs[0].(confidence := c, status := Proposed)], AllRefuted(hs[1..]);
    ActiveConcat(first + others, z);
    ActiveConcat(first, others);
    RefutedInactive(others);
    assert first[..0] == [] && Active(first) == [c] && [c][..0] == [];
  }

  lemma ShareNear(x: real, y: real, total: real)
    requires total > 0.0 && Size(x - y) * 2500.0 <= total
    ensures Size(Share(x, total) - Share(y, total)) <= 0.04
  {
    assert Share(x, total) - Share(y, total) == (x - y) / total * 100.0;
    var q := (x - y) / total;
    assert q * total == x - y;
    assert q > 0.0004 ==> (q - 0.0004) * total > 0.0;
    assert q < -0.0004 ==> (q + 0.0004) * total < 0.0;
  }

  /** Next to a large confidence the others round to nothing and it to everything. */
  lemma SharesSwallowed(c: real, y: real, t: real, x: real)
    requires c >= 10000.0 * (1.0 + y) && y >= 0.0 && Size(x) <= y && Size(t - c) <= y
    ensures t > 0.0 && RoundHalfAway(Share(x, t)) == 0.0 && RoundHalfAway(Share(c, t)) == 100.0
  {
    ShareNear(x, 0.0, t);
    ShareNear(c, t, t);
    WholeShare(t);
    RoundsAway(Share(x, t), Share(c, t));
  }

  lemma WholeShare(t: real)
    requires t > 0.0
    ensures Share(0.0, t) == 0.0 && Share(t, t) == 100.0
  {
    var q := t / t;
    assert q * t == t;
    assert q > 1.0 ==> (q - 1.0) * t > 0.0;
    assert q < 1.0 ==> (1.0 - q) * t > 0.0;
  }

  lemma RoundsAway(v: real, w: real)
    requires -0.04 <= v <= 0.04 && 99.96 <= w <= 100.04
    ensures RoundHalfAway(v) == 0.0 && RoundHalfAway(w) == 100.0
  {
    assert (w * 10.0 + 0.5).Floor == 1000;
    assert v >= 0.0 ==> (v * 10.0 + 0.5).Floor == 0;
    assert v < 0.0 ==> (-v * 10.0 + 0.5).Floor == 0;
  }

  /** What normalisation makes of a dominated field, whatever the large confidence is. */
  function Swallowed(hs: seq<Hypothesis>, z: seq<Hypothesis>): seq<Hypothesis>
    requires hs != []
  {
    Dominated(hs, 100.0)
    + seq(|z|, i requires 0 <= i < |z| => if z[i].status == Refuted then z[i] else z[i].(confidence := 0.0))
  }

  lemma DominatedNormalized(hs: seq<Hypothesis>, z: seq<Hypothesis>, c: real)
    requires hs != [] && c >= 10000.0 * (1.0 + Mass(z))
    ensures Normalized(Dominated(hs, c) + z) == Swallowed(hs, z)
  {
    var all, total := Dominated(hs, c) + z, c + Sum(Active(z));
    DominatedTotal(hs, z, c);
    MassBounds(z);
    SharesSwallowed(c, Mass(z), total, 0.0);
    forall i | 0 <= i < |all| ensures Normalized(all)[i] == Swallowed(hs, z)[i] {
      RescaledAt(all, total, i);
      DominatedAt(hs, z, c, total, i);
    }
  }

  lemma DominatedAt(hs: seq<Hypothesis>, z: seq<Hypothesis>, c: real, total: real, i: nat)
    requires hs != [] && c >= 10000.0 * (1.0 + Mass(z)) && Size(total - c) <= Mass(z) && total > 0.0
    requires i < |Dominated(hs, c) + z|
    ensures i < |Swallowed(hs, z)| && Rescaled((Dominated(hs, c) + z)[i], total) == Swallowed(hs, z)[i]
  {
    var all := Dominated(hs, c) + z;
    MassBounds(z);
    if i >= |hs| {
      assert all[i] == z[i - |hs|];
      SharesSwallowed(c, Mass(z), total, all[i].confidence);
    } else if i > 0 {
      assert all[i] == AllRefuted(hs[1..])[i - 1] && all[i] in AllRefuted(hs[1..]);
    } else {
      SharesSwallowed(c, Mass(z), total, 0.0);
    }
  }

  lemma DominatedIds(hs: seq<Hypothesis>, c: real)
    requires hs != []
    ensures SameIds(hs, Dominated(hs, c)) && Dominated(hs, c)[0].confidence == c
  {
  }

  lemma ShiftedBeyond(u: seq<Hypothesis>, z: seq<Hypothesis>, i: nat, delta: real)
    requires |u| <= i < |u + z|
    ensures Shifted(u + z, i, delta) == u + Shifted(z, i - |u|, delta)
  {
  }

  /** A change of an added hypothesis shares the field out afresh as well. */
  lemma SwallowedAlike(hs: seq<Hypothesis>, z: seq<Hypothesis>, i: nat, delta: real)
    returns (u: seq<Hypothesis>, v: seq<Hypothesis>)
    requires hs != [] && |hs| <= i < |hs + z|
    ensures SameIds(hs, u) && SameIds(hs, v) && u != v
    ensures Normalized(Shifted(u + z, i, delta)) == Normalized(Shifted(v + z, i, delta))
  {
    var z' := Shifted(z, i - |hs|, delta);
    var c := 10000.0 * (1.0 + Mass(z'));
    u, v := Dominated(hs, c), Dominated(hs, c + 1.0);
    DominatedIds(hs, c);
    DominatedIds(hs, c + 1.0);
    ShiftedBeyond(u, z, i, delta);
    ShiftedBeyond(v, z, i, delta);
    DominatedNormalized(hs, z', c);
    DominatedNormalized(hs, z', c + 1.0);
  }

  lemma AdjustedAlike(hs: seq<Hypothesis>, z: seq<Hypothesis>, id: string, delta: real)
    returns (u: seq<Hypothesis>, v: seq<Hypothesis>)
    requires hs != [] && delta != 0.0 && HypothesisAt(hs + z, id).Some?
    ensures SameIds(hs, u) && SameIds(hs, v) && u != v
    ensures Adjusted(u + z, id, delta) == Adjusted(v + z, id, delta)
  {
    var i := HypothesisAt(hs + z, id).value;
    FindHypothesis(hs + z, id);
    if i < |hs| { u, v := ClampedAlike(hs, z, i, delta); } else { u, v := SwallowedAlike(hs, z, i, delta); }
    AdjustedAt(hs, u, z, id, delta);
    AdjustedAt(hs, v, z, id, delta);
  }

  lemma AdjustedAt(hs: seq<Hypothesis>, u: seq<Hypothesis>, z: seq<Hypothesis>, id: string, delta: real)
    requires SameIds(hs, u) && HypothesisAt(hs + z, id).Some?
    ensures var i := HypothesisAt(hs + z, id).value;
            i < |u + z| && Adjusted(u + z, id, delta) == Normalized(Shifted(u + z, i, delta))
  {
    FoundAlike(hs + z, u + z, id);
    FindHypothesis(u + z, id);
  }

  // ----- One replacement, exactly -----

  lemma EffectAlike(h: Held, hs: seq<Hypothesis>, a: Action)
    requires WellHeld(h) && Validate(h, a).None? && ForHypotheses(a)
    ensures After(With(h, hs), a) == With(h, EffectOnHypotheses(hs, a))
  {
    OnlyHypotheses(With(h, hs), a);
  }

  lemma TouchAlike(h: Held, hs: seq<Hypothesis>, z: seq<Hypothesis>, a: Action)
    returns (u: seq<Hypothesis>, v: seq<Hypothesis>)
    requires WellHeld(h) && hs != [] && h.s.hypotheses == hs + z && Touches(hs, a) && Ruling(h, a).None?
    ensures SameIds(hs, u) && SameIds(hs, v) && u != v
    ensures After(With(h, u + z), a) == After(With(h, v + z), a)
  {
    match a {
      case Increase(id, delta) => u, v := AdjustedAlike(hs, z, id, delta);
      case Decrease(id, delta) => u, v := AdjustedAlike(hs, z, id, -delta);
      case RejectHypothesis(id) => u, v := StatusAlike(hs, z, id, Refuted);
      case PromoteHypothesis(id) => u, v := StatusAlike(hs, z, id, Leading);
    }
    EffectAlike(h, u + z, a);
    EffectAlike(h, v + z, a);
  }

  lemma PassesAlike(h: Held, hs: seq<Hypothesis>, u: seq<Hypothesis>, z: seq<Hypothesis>, a: Action)
    requires WellHeld(h) && h.s.hypotheses == hs + z && SameIds(hs, u)
    requires !a.ReplaceHypotheses? && !Touches(hs, a)
    ensures After(With(h, u + z), a) == With(After(h, a), u + Extra(hs, z, a))
  {
    ExtraAlike(hs, u, z, a);
    Passes(With(h, u + z), u, z, a);
    RestAlike(h, u + z, a);
  }

  /** Two contents of a touched replacement that are stored as the same. */
  lemma {:induction false} Spoiled(h: Held, hs: seq<Hypothesis>, z: seq<Hypothesis>, spare: nat, later: seq<Action>)
    returns (u: seq<Hypothesis>, v: seq<Hypothesis>)
    requires WellHeld(h) && hs != [] && h.s.hypotheses == hs + z
    requires Run(h, later).refused == [] && !Untouched(hs, spare, later)
    ensures SameIds(hs, u) && SameIds(hs, v) && u != v
    ensures Lent(|hs|, spare, With(h, u + z), later) == Lent(|hs|, spare, With(h, v + z), later)
    decreases |later|
  {
    var a := later[0];
    var left := if a.CreateHypothesis? then spare - 1 else spare;
    if Touches(hs, a) {
      u, v := TouchAlike(h, hs, z, a);
    } else {
      Passes(h, hs, z, a);
      u, v := Spoiled(After(h, a), hs, Extra(hs, z, a), left, later[1..]);
      PassesAlike(h, hs, u, z, a);
      PassesAlike(h, hs, v, z, a);
    }
  }

  lemma {:induction false} UntouchedAlike(hs: seq<Hypothesis>, rs: seq<Hypothesis>, spare: nat,
                                          later: seq<Action>, changed: seq<Action>)
    requires SameIds(hs, rs) && SameButContents(later, changed)
    ensures Untouched(hs, spare, later) <==> Untouched(rs, spare, changed)
    decreases |later|
  {
    if later != [] && !later[0].ReplaceHypotheses? && !(later[0].CreateHypothesis? && spare == 0) {
      ExtraAlike(hs, rs, [], later[0]);
      UntouchedAlike(hs, rs, if later[0].CreateHypothesis? then spare - 1 else spare, later[1..], changed[1..]);
    }
  }

  ghost predicate FaithfulFor(h: Held, hs: seq<Hypothesis>, spare: nat, later: seq<Action>)
    requires WellHeld(h)
  {
    forall rs :: SameIds(hs, rs) ==>
      StoredFirst(h, [ReplaceHypotheses(rs, spare)] + later) == ReplaceHypotheses(rs, spare)
  }

  /** A replacement that was applied is stored as it was, whatever its contents, exactly when it is
      empty or stays untouched while it is shared. */
  lemma EntryExactly(h: Held, hs: seq<Hypothesis>, spare: nat, later: seq<Action>)
    requires WellHeld(h) && Run(h, [ReplaceHypotheses(hs, spare)] + later).refused == []
    ensures FaithfulFor(h, hs, spare, later) <==> hs == [] || Untouched(hs, spare, later)
  {
    if hs == [] || Untouched(hs, spare, later) {
      forall rs | SameIds(hs, rs)
        ensures StoredFirst(h, [ReplaceHypotheses(rs, spare)] + later) == ReplaceHypotheses(rs, spare)
      {
        UntouchedAlike(hs, rs, spare, later, later);
        EntryFaithful(h, rs, spare, later);
      }
    } else {
      var a := ReplaceHypotheses(hs, spare);
      assert ([a] + later)[0] == a && ([a] + later)[1..] == later && After(h, a) == With(h, hs);
      var u, v := SpoiledAlone(h, hs, spare, later);
      ReplacedEntry(h, u, spare, later);
      ReplacedEntry(h, v, spare, later);
    }
  }

  lemma SpoiledAlone(h: Held, hs: seq<Hypothesis>, spare: nat, later: seq<Action>)
    returns (u: seq<Hypothesis>, v: seq<Hypothesis>)
    requires WellHeld(h) && hs != [] && Run(With(h, hs), later).refused == [] && !Untouched(hs, spare, later)
    ensures SameIds(hs, u) && SameIds(hs, v) && u != v
    ensures Lent(|hs|, spare, With(h, u), later) == Lent(|hs|, spare, With(h, v), later)
  {
    assert hs + [] == hs;
    u, v := Spoiled(With(h, hs), hs, [], spare, later);
    assert u + [] == u && v + [] == v;
    assert With(With(h, hs), u) == With(h, u) && With(With(h, hs), v) == With(h, v);
  }

  lemma ReplacedEntry(h: Held, hs: seq<Hypothesis>, spare: nat, later: seq<Action>)
    requires WellHeld(h)
    ensures StoredFirst(h, [ReplaceHypotheses(hs, spare)] + later) ==
      ReplaceHypotheses(Lent(|hs|, spare, With(h, hs), later), spare)
  {
    var a := ReplaceHypotheses(hs, spare);
    assert ([a] + later)[0] == a && ([a] + later)[1..] == later && After(h, a) == With(h, hs);
  }

  // ----- A whole log, exactly -----

  /** The same actions, up to the confidences and statuses in replacements. */
  ghost predicate SameButContents(acts: seq<Action>, changed: seq<Action>) {
    && |acts| == |changed|
    && forall i :: 0 <= i < |acts| ==>
         || acts[i] == changed[i]
         || (&& acts[i].ReplaceHypotheses? && changed[i].ReplaceHypotheses?
             && acts[i].spare == changed[i].spare && SameIds(acts[i].hypotheses, changed[i].hypotheses))
  }

  /** What is left of a run after its first actions. */
  lemma {:induction false} RunRest(h: Held, before: seq<Action>, rest: seq<Action>)
    requires WellHeld(h) && Run(h, before + rest).refused == []
    ensures Run(Run(h, before).held, rest).refused == []
    decreases |before|
  {
    if before == [] {
      assert before + rest == rest;
    } else {
      assert (before + rest)[1..] == before[1..] + rest;
      RunRest(After(h, before[0]), before[1..], rest);
    }
  }

  ghost predicate AlwaysFaithful(h: Held, applied: seq<Action>)
    requires WellHeld(h)
  {
    forall acts :: SameButContents(applied, acts) ==> Stored(h, acts) == acts
  }

  lemma AllUntouchedAlike(applied: seq<Action>, acts: seq<Action>)
    requires SameButContents(applied, acts) && AllUntouched(applied)
    ensures AllUntouched(acts)
  {
    forall i | 0 <= i < |acts| && acts[i].ReplaceHypotheses?
      ensures acts[i].hypotheses == [] || Untouched(acts[i].hypotheses, acts[i].spare, acts[i + 1..])
    {
      var a := applied[i];
      assert a.ReplaceHypotheses? && SameIds(a.hypotheses, acts[i].hypotheses);
      UntouchedAlike(a.hypotheses, acts[i].hypotheses, a.spare, applied[i + 1..], acts[i + 1..]);
    }
  }

  lemma SplitAt<T>(s: seq<T>, i: nat)
    requires i < |s|
    ensures s == s[..i] + ([s[i]] + s[i + 1..])
  {
  }

  /** A log of applied actions is stored as it was, whatever the contents of its replacements,
      exactly when no replacement is touched while it is shared. */
  lemma LogExactly(h: Held, applied: seq<Action>)
    requires WellHeld(h) && Run(h, applied).refused == []
    ensures AlwaysFaithful(h, applied) <==> AllUntouched(applied)
  {
    if AllUntouched(applied) {
      forall acts | SameButContents(applied, acts) ensures Stored(h, acts) == acts {
        AllUntouchedAlike(applied, acts);
        LogFaithful(h, acts);
      }
    } else {
      var i :| 0 <= i < |applied| && applied[i].ReplaceHypotheses? && applied[i].hypotheses != []
               && !Untouched(applied[i].hypotheses, applied[i].spare, applied[i + 1..]);
      var before, later := applied[..i], applied[i + 1..];
      SplitAt(applied, i);
      SpoiltLog(h, before, applied[i], later);
    }
  }

  lemma SpoiltLog(h: Held, before: seq<Action>, a: Action, later: seq<Action>)
    requires WellHeld(h) && Run(h, before + ([a] + later)).refused == []
    requires a.ReplaceHypotheses? && a.hypotheses != [] && !Untouched(a.hypotheses, a.spare, later)
    ensures !AlwaysFaithful(h, before + ([a] + later))
  {
    RunRest(h, before, [a] + later);
    var rs := SpoiltContent(Run(h, before).held, a.hypotheses, a.spare, later);
    OtherEntry(h, before, ReplaceHypotheses(rs, a.spare), later);
    ContentsAlike(before, a, rs, later);
    Unfaithful(h, before + ([a] + later), before + ([ReplaceHypotheses(rs, a.spare)] + later));
  }

  lemma OtherEntry(h: Held, before: seq<Action>, b: Action, later: seq<Action>)
    requires WellHeld(h) && StoredFirst(Run(h, before).held, [b] + later) != b
    ensures Stored(h, before + ([b] + later)) != before + ([b] + later)
  {
    var rest := [b] + later;
    assert rest[0] == b;
    StoresOther(h, before, rest);
  }

  lemma SpoiltContent(h: Held, hs: seq<Hypothesis>, spare: nat, later: seq<Action>) returns (rs: seq<Hypothesis>)
    requires WellHeld(h) && Run(h, [ReplaceHypotheses(hs, spare)] + later).refused == []
    requires hs != [] && !Untouched(hs, spare, later)
    ensures SameIds(hs, rs)
    ensures StoredFirst(h, [ReplaceHypotheses(rs, spare)] + later) != ReplaceHypotheses(rs, spare)
  {
    EntryExactly(h, hs, spare, later);
    rs :| SameIds(hs, rs)
          && StoredFirst(h, [ReplaceHypotheses(rs, spare)] + later) != ReplaceHypotheses(rs, spare);
  }

  lemma Unfaithful(h: Held, applied: seq<Action>, acts: seq<Action>)
    requires WellHeld(h) && SameButContents(applied, acts) && Stored(h, acts) != acts
    ensures !AlwaysFaithful(h, applied)
  {
  }

  /** An entry that is stored as another action shows in the whole log. */
  lemma {:induction false} StoresOther(h: Held, before: seq<Action>, rest: seq<Action>)
    requires WellHeld(h) && rest != [] && StoredFirst(Run(h, before).held, rest) != rest[0]
    ensures Stored(h, before + rest) != before + rest
    decreases |before|
  {
    if before == [] {
      assert before + rest == rest;
      assert Stored(h, rest)[0] == StoredFirst(h, rest);
    } else {
      var a := before[0];
      StoresOther(After(h, a), before[1..], rest);
      assert before + rest == [a] + (before[1..] + rest);
      StoredTail(h, a, before[1..] + rest);
    }
  }

  lemma StoredTail(h: Held, a: Action, tail: seq<Action>)
    requires WellHeld(h) && Stored(After(h, a), tail) != tail
    ensures Stored(h, [a] + tail) != [a] + tail
  {
    assert ([a] + tail)[0] == a && ([a] + tail)[1..] == tail;
    var x := StoredFirst(h, [a] + tail);
    assert Stored(h, [a] + tail) == [x] + Stored(After(h, a), tail);
    assert ([x] + Stored(After(h, a), tail))[1..] == Stored(After(h, a), tail);
  }

  lemma ContentsAlike(before: seq<Action>, a: Action, rs: seq<Hypothesis>, later: seq<Action>)
    requires a.ReplaceHypotheses? && SameIds(a.hypotheses, rs)
    ensures SameButContents(before + ([a] + later), before + ([ReplaceHypotheses(rs, a.spare)] + later))
  {
  }

  // ----- The same actions are applied whatever the contents -----

  lemma {:induction false} RescaledIds(hs: seq<Hypothesis>, total: real)
    requires total > 0.0
    ensures SameIds(hs, RescaledAll(hs, total))
  {
    if hs != [] { RescaledIds(hs[..|hs| - 1], total); }
  }

  lemma AdjustedIds(hs: seq<Hypothesis>, id: string, delta: real)
    ensures SameIds(hs, Adjusted(hs, id, delta))
  {
    if HypothesisAt(hs, id).Some? {
      FindHypothesis(hs, id);
      var mid := Shifted(hs, HypothesisAt(hs, id).value, delta);
      if Sum(Active(mid)) > 0.0 { RescaledIds(mid, Sum(Active(mid))); }
    }
  }

  lemma EffectIds(hs: seq<Hypothesis>, a: Action)
    requires !a.ReplaceHypotheses? && !(a.CreateHypothesis? && a.hypothesis.Some?)
    ensures SameIds(hs, EffectOnHypotheses(hs, a))
  {
    match a
    case Increase(id, delta) => AdjustedIds(hs, id, delta);
    case Decrease(id, delta) => AdjustedIds(hs, id, -delta);
    case RejectHypothesis(id) => FindHypothesis(hs, id);
    case PromoteHypothesis(id) => FindHypothesis(hs, id);
    case _ =>
  }

  lemma HypothesesAfter(h: Held, a: Action)
    requires WellHeld(h)
    ensures After(h, a).s.hypotheses ==
      if Validate(h, a).Some? then h.s.hypotheses else EffectOnHypotheses(h.s.hypotheses, a)
  {
  }

  lemma IdsAfter(h: Held, hs: seq<Hypothesis>, a: Action)
    requires WellHeld(h) && SameIds(h.s.hypotheses, hs)
    ensures SameIds(After(h, a).s.hypotheses, After(With(h, hs), a).s.hypotheses)
  {
    HypothesesAfter(h, a);
    HypothesesAfter(With(h, hs), a);
    if a.CreateHypothesis? && a.hypothesis.Some? {
      FoundAlike(h.s.hypotheses, hs, a.hypothesis.value.id);
    } else if !a.ReplaceHypotheses? {
      EffectIds(h.s.hypotheses, a);
      EffectIds(hs, a);
    }
  }

  lemma {:induction false} AppliedAlike(h: Held, hs: seq<Hypothesis>, acts: seq<Action>, changed: seq<Action>)
    requires WellHeld(h) && SameIds(h.s.hypotheses, hs) && SameButContents(acts, changed)
    requires Run(h, acts).refused == []
    ensures Run(With(h, hs), changed).refused == []
    decreases |acts|
  {
    if acts != [] {
      var a, b := acts[0], changed[0];
      RulingAlike(h, h.s.hypotheses, hs, a);
      var rs := After(With(h, hs), b).s.hypotheses;
      if a == b {
        IdsAfter(h, hs, a);
      }
      RestAlike(h, hs, a);
      assert After(With(h, hs), b) == With(After(h, a), rs);
      AppliedAlike(After(h, a), rs, acts[1..], changed[1..]);
    }
  }

  // ----- A log that misleads -----

  lemma ExampleShares()
    ensures RoundHalfAway(Share(60.0, 100.0)) == 60.0 && RoundHalfAway(Share(40.0, 100.0)) == 40.0
    ensures RoundHalfAway(Share(70.0, 110.0)) == 63.6
  {
    assert (600.5).Floor == 600 && (400.5).Floor == 400;
    assert 636.0 <= Share(70.0, 110.0) * 10.0 + 0.5 < 637.0;
  }

  /** A stored log that does not replay: the stored replacement already holds the raised
      confidence, which the replay raises again. */
  lemma LogMisleads(h: Held)
    requires WellHeld(h)
    ensures var acts := [ReplaceHypotheses(Pair(50.0, 40.0), 0), Increase("a", 10.0)];
            && Run(h, acts).applied == acts
            && Run(h, Stored(h, acts)).held != Run(h, acts).held
  {
    ExampleShares();
    PairRaised(50.0, 40.0, true);
    PairRaised(60.0, 40.0, true);
    var again := Adjusted(Pair(60.0, 40.0), "a", 10.0);
    assert again[0].confidence == 63.6;
    TwoActions(h, Pair(50.0, 40.0), Pair(60.0, 40.0));
    TwoActions(h, Pair(60.0, 40.0), again);
  }

  lemma TwoActions(h: Held, hs: seq<Hypothesis>, rs: seq<Hypothesis>)
    requires WellHeld(h) && HypothesisAt(hs, "a").Some? && Adjusted(hs, "a", 10.0) == rs
    ensures var acts := [ReplaceHypotheses(hs, 0), Increase("a", 10.0)];
            && Run(h, acts) == Result(Held(h.s.(hypotheses := rs), h.g), acts, [])
            && Stored(h, acts) == [ReplaceHypotheses(rs, 0), Increase("a", 10.0)]
  {
    var a, b := ReplaceHypotheses(hs, 0), Increase("a", 10.0);
    assert [a, b][1..] == [b] && [b][1..] == [];
    var h1 := After(h, a);
    assert h1 == Held(h.s.(hypotheses := hs), h.g);
    var h2 := After(h1, b);
    assert h2 == Held(h.s.(hypotheses := rs), h.g);
    assert Run(h1, [b]) == Result(h2, [b], []);
    assert Lent(|hs|, 0, h1, [b]) == Lent(|hs|, 0, h2, []) == rs[..|hs|] == rs;
    assert Stored(h1, [b]) == [b];
  }
}
