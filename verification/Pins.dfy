/**
 The pin plan: every role claims its GPIO in turn, and a plan is valid exactly when the
 claims are eligible and pairwise distinct and its shape is allowed.
 */
module Pins {
  import opened Collections
  import opened Options

  // ---------- The plan ----------

  /** `OtherEngine` and `OtherIndicator` stand for values outside the enumerations. */
  datatype Engine = Direct | I2c | OtherEngine

  datatype Indicator = Onboard | External | Disabled | OtherIndicator

  datatype PinPlan = PinPlan(
    engine: Engine, rf: Option<nat>, i2cPair: Option<nat>, button: Option<nat>, amplifier: Option<nat>,
    lpf: seq<nat>, indicator: Indicator, indicatorGp: Option<nat>)

  datatype Role = Rf | I2cBus | I2cSda | I2cScl | Button | Amplifier | Lpf | LpfPin(index: nat) | IndicatorRole

  datatype PinError = EngineAllocation | InvalidGp | PinConflict | InvalidPair | TooManySelectors | IndicatorAllocation

  /** What a validation says: the error, the role it was found for and, where a pin is to
      blame, the pin and the role that owns it already. */
  datatype Verdict = Accepted | Refused(error: PinError, role: Role, gp: Option<nat>, owner: Option<Role>)

  const OWNERS := 29

  predicate Eligible(gp: nat) {
    gp <= 22 || 26 <= gp <= 28
  }

  /** Data and clock pin of each I2C pair. */
  function I2cPairs(): seq<(nat, nat)> {
    [(0, 1), (4, 5), (8, 9), (12, 13), (16, 17), (20, 21),
     (2, 3), (6, 7), (10, 11), (14, 15), (18, 19), (26, 27)]
  }

  // ---------- What is checked, in order ----------

  datatype Check = Take(gp: nat, role: Role) | Demand(met: bool, error: PinError, who: Role)

  predicate EngineFits(p: PinPlan) {
    || (p.engine == Direct && p.rf.Some? && p.i2cPair.None?)
    || (p.engine == I2c && p.rf.None? && p.i2cPair.Some?)
  }

  predicate IndicatorFits(p: PinPlan) {
    p.indicator != OtherIndicator && (p.indicator == External <==> p.indicatorGp.Some?)
  }

  function MaybeTake(gp: Option<nat>, role: Role): seq<Check> {
    if gp.Some? then [Take(gp.value, role)] else []
  }

  function PairChecks(pair: Option<nat>): seq<Check> {
    if pair.None? then []
    else if pair.value >= |I2cPairs()| then [Demand(false, InvalidPair, I2cBus)]
    else [Take(I2cPairs()[pair.value].0, I2cSda), Take(I2cPairs()[pair.value].1, I2cScl)]
  }

  function LpfChecks(lpf: seq<nat>): seq<Check> {
    seq(|lpf|, i requires 0 <= i < |lpf| => Take(lpf[i], LpfPin(i)))
  }

  function RfChecks(p: PinPlan): seq<Check> {
    [Demand(EngineFits(p), EngineAllocation, Rf)] + MaybeTake(p.rf, Rf) + PairChecks(p.i2cPair)
  }

  function SwitchChecks(p: PinPlan): seq<Check> {
    MaybeTake(p.button, Button) + MaybeTake(p.amplifier, Amplifier)
  }

  function FilterChecks(p: PinPlan): seq<Check> {
    [Demand(|p.lpf| <= 26, TooManySelectors, Lpf)] + LpfChecks(p.lpf)
  }

  function IndicatorChecks(p: PinPlan): seq<Check> {
    [Demand(IndicatorFits(p), IndicatorAllocation, IndicatorRole)] + MaybeTake(p.indicatorGp, IndicatorRole)
  }

  function Checks(p: PinPlan): seq<Check> {
    RfChecks(p) + SwitchChecks(p) + FilterChecks(p) + IndicatorChecks(p)
  }

  /** The role that the checks so far gave this pin to. */
  function Owner(checks: seq<Check>, gp: nat): Option<Role> {
    if checks == [] then None
    else
      var last := checks[|checks| - 1];
      if last.Take? && last.gp == gp then Some(last.role) else Owner(checks[..|checks| - 1], gp)
  }

  /** What one check says after those before it. */
  function Judge(before: seq<Check>, check: Check): Verdict {
    match check
    case Take(gp, role) =>
      if !Eligible(gp) then Refused(InvalidGp, role, Some(gp), None)
      else if Owner(before, gp).Some? then Refused(PinConflict, role, Some(gp), Owner(before, gp))
      else Accepted
    case Demand(met, error, who) => if met then Accepted else Refused(error, who, None, None)
  }

  /** The first check that fails decides. */
  function JudgeAll(checks: seq<Check>): Verdict {
    if checks == [] then Accepted
    else
      var init := checks[..|checks| - 1];
      if JudgeAll(init) != Accepted then JudgeAll(init) else Judge(init, checks[|checks| - 1])
  }

  // ---------- The validation ----------

  class Validation {
    var error: Option<PinError>
    var role: Role
    var owner: Option<Role>
    var gp: Option<nat>
    const owners: array<Option<Role>>

    constructor ()
      ensures fresh(owners) && owners.Length == OWNERS
      ensures error == None && owner == None && gp == None && Records([])
    {
      error, role, owner, gp := None, Rf, None, None;
      owners := new Option<Role>[OWNERS](_ => None);
    }

    function Says(): Verdict
      reads this
    {
      if error.None? then Accepted else Refused(error.value, role, gp, owner)
    }

    /** The table names the owner of every pin after these checks. */
    ghost predicate Records(checks: seq<Check>)
      reads this, owners
    {
      owners.Length == OWNERS && forall pin :: 0 <= pin < OWNERS ==> owners[pin] == Owner(checks, pin)
    }

    /** Nothing has failed in these checks. */
    ghost predicate Passed(checks: seq<Check>)
      reads this, owners
    {
      Records(checks) && JudgeAll(checks) == Accepted && error == None && owner == None && gp == None
    }

    method Fail(newError: PinError, newRole: Role)
      modifies this
      ensures error == Some(newError) && role == newRole && owner == old(owner) && gp == old(gp)
    {
      error := Some(newError);
      role := newRole;
    }

    method Insist(met: bool, newError: PinError, newRole: Role, ghost before: seq<Check>) returns (ok: bool)
      requires Passed(before)
      modifies this
      ensures ok == met == (Says() == Accepted)
      ensures ok ==> Passed(before + [Demand(met, newError, newRole)])
      ensures Says() == JudgeAll(before + [Demand(met, newError, newRole)])
    {
      ghost var all := before + [Demand(met, newError, newRole)];
      assert all[..|all| - 1] == before;
      if !met {
        Fail(newError, newRole);
      }
      ok := met;
    }

    method Claim(pin: nat, claimant: Role, ghost before: seq<Check>) returns (ok: bool)
      requires Passed(before)
      modifies this, owners
      ensures Says() == JudgeAll(before + [Take(pin, claimant)])
      ensures ok == (Says() == Accepted)
      ensures ok ==> Passed(before + [Take(pin, claimant)])
    {
      ghost var all := before + [Take(pin, claimant)];
      assert all[..|all| - 1] == before;
      if !Eligible(pin) {
        Fail(InvalidGp, claimant);
        gp := Some(pin);
        return false;
      }
      if owners[pin].Some? {
        Fail(PinConflict, claimant);
        gp := Some(pin);
        owner := owners[pin];
        return false;
      }
      owners[pin] := Some(claimant);
      return true;
    }

    method ClaimMaybe(pin: Option<nat>, claimant: Role, ghost before: seq<Check>) returns (ok: bool)
      requires Passed(before)
      modifies this, owners
      ensures Says() == JudgeAll(before + MaybeTake(pin, claimant))
      ensures ok == (Says() == Accepted)
      ensures ok ==> Passed(before + MaybeTake(pin, claimant))
    {
      if pin.Some? {
        ok := Claim(pin.value, claimant, before);
      } else {
        assert before + [] == before;
        return true;
      }
    }
  }

  /** Once a check has failed, those after it change nothing. */
  lemma {:induction false} JudgeStops(a: seq<Check>, b: seq<Check>)
    requires JudgeAll(a) != Accepted
    ensures JudgeAll(a + b) == JudgeAll(a)
    decreases |b|
  {
    if b == [] {
      assert a + b == a;
    } else {
      var init := b[..|b| - 1];
      JudgeStops(a, init);
      assert (a + b)[..|a + b| - 1] == a + init;
    }
  }

  lemma JudgeStopsAt(whole: seq<Check>, part: seq<Check>)
    requires part <= whole && JudgeAll(part) != Accepted
    ensures JudgeAll(whole) == JudgeAll(part)
  {
    JudgeStops(part, whole[|part|..]);
    assert part + whole[|part|..] == whole;
  }

  method CheckRf(v: Validation, p: PinPlan, ghost before: seq<Check>) returns (ok: bool)
    requires v.Passed(before)
    modifies v, v.owners
    ensures v.Says() == JudgeAll(before + RfChecks(p))
    ensures ok == (v.Says() == Accepted)
    ensures ok ==> v.Passed(before + RfChecks(p))
  {
    hide Owner, JudgeAll;
    ghost var engine, rf := [Demand(EngineFits(p), EngineAllocation, Rf)], MaybeTake(p.rf, Rf);
    ghost var all := before + engine + rf + PairChecks(p.i2cPair);
    assert before + RfChecks(p) == all;
    ok := v.Insist(EngineFits(p), EngineAllocation, Rf, before);
    if !ok { JudgeStopsAt(all, before + engine); return; }
    ok := v.ClaimMaybe(p.rf, Rf, before + engine);
    if !ok { JudgeStopsAt(all, before + engine + rf); return; }
    ok := ClaimPair(v, p.i2cPair, before + engine + rf);
  }

  method CheckSwitches(v: Validation, p: PinPlan, ghost before: seq<Check>) returns (ok: bool)
    requires v.Passed(before)
    modifies v, v.owners
    ensures v.Says() == JudgeAll(before + SwitchChecks(p))
    ensures ok == (v.Says() == Accepted)
    ensures ok ==> v.Passed(before + SwitchChecks(p))
  {
    hide Owner, JudgeAll;
    ghost var button := MaybeTake(p.button, Button);
    ghost var all := before + button + MaybeTake(p.amplifier, Amplifier);
    assert before + SwitchChecks(p) == all;
    ok := v.ClaimMaybe(p.button, Button, before);
    if !ok { JudgeStopsAt(all, before + button); return; }
    ok := v.ClaimMaybe(p.amplifier, Amplifier, before + button);
  }

  method CheckFilters(v: Validation, p: PinPlan, ghost before: seq<Check>) returns (ok: bool)
    requires v.Passed(before)
    modifies v, v.owners
    ensures v.Says() == JudgeAll(before + FilterChecks(p))
    ensures ok == (v.Says() == Accepted)
    ensures ok ==> v.Passed(before + FilterChecks(p))
  {
    hide Owner, JudgeAll;
    ghost var count := [Demand(|p.lpf| <= 26, TooManySelectors, Lpf)];
    ghost var all := before + count + LpfChecks(p.lpf);
    assert before + FilterChecks(p) == all;
    ok := v.Insist(|p.lpf| <= 26, TooManySelectors, Lpf, before);
    if !ok { JudgeStopsAt(all, before + count); return; }
    ok := ClaimSelectors(v, p.lpf, before + count);
  }

  method CheckIndicator(v: Validation, p: PinPlan, ghost before: seq<Check>) returns (ok: bool)
    requires v.Passed(before)
    modifies v, v.owners
    ensures v.Says() == JudgeAll(before + IndicatorChecks(p))
    ensures ok == (v.Says() == Accepted)
    ensures ok ==> v.Passed(before + IndicatorChecks(p))
  {
    hide Owner, JudgeAll;
    ghost var light := [Demand(IndicatorFits(p), IndicatorAllocation, IndicatorRole)];
    ghost var all := before + light + MaybeTake(p.indicatorGp, IndicatorRole);
    assert before + IndicatorChecks(p) == all;
    ok := v.Insist(IndicatorFits(p), IndicatorAllocation, IndicatorRole, before);
    if !ok { JudgeStopsAt(all, before + light); return; }
    ok := v.ClaimMaybe(p.indicatorGp, IndicatorRole, before + light);
  }

  method Validate(p: PinPlan) returns (v: Validation)
    ensures fresh(v)
    ensures v.Says() == JudgeAll(Checks(p))
    ensures v.Says() == Accepted ==> v.Passed(Checks(p))
  {
    v := new Validation();
    hide Owner, JudgeAll, RfChecks, SwitchChecks, FilterChecks, IndicatorChecks;
    NothingFails();
    ghost var rf, switches, filters := RfChecks(p), SwitchChecks(p), FilterChecks(p);
    assert [] + rf == rf;
    var ok := CheckRf(v, p, []);
    if !ok { JudgeStopsAt(Checks(p), rf); return; }
    ok := CheckSwitches(v, p, rf);
    if !ok { JudgeStopsAt(Checks(p), rf + switches); return; }
    ok := CheckFilters(v, p, rf + switches);
    if !ok { JudgeStopsAt(Checks(p), rf + switches + filters); return; }
    ok := CheckIndicator(v, p, rf + switches + filters);
  }

  lemma NothingFails()
    ensures JudgeAll([]) == Accepted
  {}

  method ClaimPair(v: Validation, pair: Option<nat>, ghost before: seq<Check>) returns (ok: bool)
    requires v.Passed(before)
    modifies v, v.owners
    ensures v.Says() == JudgeAll(before + PairChecks(pair))
    ensures ok == (v.Says() == Accepted)
    ensures ok ==> v.Passed(before + PairChecks(pair))
  {
    assert before + [] == before;
    if pair.None? { return true; }
    if pair.value >= |I2cPairs()| {
      ok := v.Insist(false, InvalidPair, I2cBus, before);
      return;
    }
    var pins := I2cPairs()[pair.value];
    ghost var sda := [Take(pins.0, I2cSda)];
    ghost var scl := [Take(pins.1, I2cScl)];
    assert before + PairChecks(pair) == before + sda + scl;
    ok := v.Claim(pins.0, I2cSda, before);
    if !ok { JudgeStopsAt(before + sda + scl, before + sda); return; }
    ok := v.Claim(pins.1, I2cScl, before + sda);
  }

  method ClaimSelectors(v: Validation, lpf: seq<nat>, ghost before: seq<Check>) returns (ok: bool)
    requires v.Passed(before)
    modifies v, v.owners
    ensures v.Says() == JudgeAll(before + LpfChecks(lpf))
    ensures ok == (v.Says() == Accepted)
    ensures ok ==> v.Passed(before + LpfChecks(lpf))
  {
    ghost var all := before + LpfChecks(lpf);
    assert before + LpfChecks(lpf)[..0] == before;
    for i := 0 to |lpf|
      invariant v.Passed(before + LpfChecks(lpf)[..i])
    {
      ghost var done := before + LpfChecks(lpf)[..i];
      ok := v.Claim(lpf[i], LpfPin(i), done);
      assert done + [Take(lpf[i], LpfPin(i))] == before + LpfChecks(lpf)[..i + 1];
      if !ok { JudgeStopsAt(all, before + LpfChecks(lpf)[..i + 1]); return; }
    }
    assert LpfChecks(lpf)[..|lpf|] == LpfChecks(lpf);
    ok := true;
  }

  // ---------- What validity means ----------

  predicate AllEligible(gps: seq<nat>) {
    forall i :: 0 <= i < |gps| ==> Eligible(gps[i])
  }

  function Maybe(gp: Option<nat>): seq<nat> {
    if gp.Some? then [gp.value] else []
  }

  function PairPins(pair: Option<nat>): seq<nat>
    requires pair.Some? ==> pair.value < |I2cPairs()|
  {
    if pair.None? then [] else [I2cPairs()[pair.value].0, I2cPairs()[pair.value].1]
  }

  /** Every pin the plan uses. */
  function PinsOf(p: PinPlan): seq<nat>
    requires p.i2cPair.Some? ==> p.i2cPair.value < |I2cPairs()|
  {
    Maybe(p.rf) + PairPins(p.i2cPair) + Maybe(p.button) + Maybe(p.amplifier) + p.lpf + Maybe(p.indicatorGp)
  }

  predicate Sound(p: PinPlan) {
    && EngineFits(p) && IndicatorFits(p) && |p.lpf| <= 26
    && (p.i2cPair.Some? ==> p.i2cPair.value < |I2cPairs()|)
    && AllEligible(PinsOf(p)) && Distinct(PinsOf(p))
  }

  /** The pins these checks claim. */
  function Taken(checks: seq<Check>): seq<nat> {
    if checks == [] then []
    else
      var last := checks[|checks| - 1];
      Taken(checks[..|checks| - 1]) + if last.Take? then [last.gp] else []
  }

  predicate AllMet(checks: seq<Check>) {
    forall i :: 0 <= i < |checks| ==> checks[i].Demand? ==> checks[i].met
  }

  lemma {:induction false} TakenConcat(a: seq<Check>, b: seq<Check>)
    ensures Taken(a + b) == Taken(a) + Taken(b)
    decreases |b|
  {
    if b == [] {
      assert a + b == a;
    } else {
      TakenConcat(a, b[..|b| - 1]);
      assert (a + b)[..|a + b| - 1] == a + b[..|b| - 1];
    }
  }

  lemma {:induction false} TakenLpf(lpf: seq<nat>)
    ensures Taken(LpfChecks(lpf)) == lpf
    decreases |lpf|
  {
    if lpf == [] {
    } else {
      var init := lpf[..|lpf| - 1];
      TakenLpf(init);
      assert LpfChecks(lpf)[..|lpf| - 1] == LpfChecks(init);
      assert lpf == init + [lpf[|lpf| - 1]];
    }
  }

  /** A pin has an owner exactly when some check claimed it. */
  lemma {:induction false} OwnedExactly(checks: seq<Check>, gp: nat)
    ensures Owner(checks, gp).Some? <==> exists i :: 0 <= i < |Taken(checks)| && Taken(checks)[i] == gp
    decreases |checks|
  {
    if checks == [] {
    } else {
      var init, last := checks[..|checks| - 1], checks[|checks| - 1];
      OwnedExactly(init, gp);
      if last.Take? {
        assert Taken(checks) == Taken(init) + [last.gp];
        OneMoreTaken(Taken(init), last.gp, gp);
      } else {
        assert Taken(checks) == Taken(init);
      }
    }
  }

  lemma OneMoreTaken(gps: seq<nat>, more: nat, gp: nat)
    ensures (exists i :: 0 <= i < |gps + [more]| && (gps + [more])[i] == gp)
            <==> more == gp || exists i :: 0 <= i < |gps| && gps[i] == gp
  {
    var all := gps + [more];
    if more == gp {
      assert all[|gps|] == gp;
    } else {
      assert forall i :: 0 <= i < |gps| ==> all[i] == gps[i];
    }
  }

  /** All checks pass exactly when every demand is met and the claimed pins are eligible
      and pairwise distinct. */
  lemma {:induction false} JudgeAllExactly(checks: seq<Check>)
    ensures JudgeAll(checks) == Accepted
            <==> AllMet(checks) && AllEligible(Taken(checks)) && Distinct(Taken(checks))
    decreases |checks|
  {
    if checks == [] {
    } else {
      var init, last := checks[..|checks| - 1], checks[|checks| - 1];
      JudgeAllExactly(init);
      AllMetSplits(checks);
      if last.Take? {
        OwnedExactly(init, last.gp);
        AllEligibleSplits(Taken(init), last.gp);
        DistinctSplits(Taken(init), last.gp);
      } else {
        assert Taken(checks) == Taken(init);
      }
    }
  }

  lemma AllMetSplits(checks: seq<Check>)
    requires checks != []
    ensures
      var last := checks[|checks| - 1];
      AllMet(checks) <==> AllMet(checks[..|checks| - 1]) && (last.Demand? ==> last.met)
  {
    var init := checks[..|checks| - 1];
    if AllMet(checks) {
      forall i | 0 <= i < |init| ensures init[i].Demand? ==> init[i].met { assert init[i] == checks[i]; }
    }
  }

  lemma AllEligibleSplits(gps: seq<nat>, gp: nat)
    ensures AllEligible(gps + [gp]) <==> AllEligible(gps) && Eligible(gp)
  {
    var all := gps + [gp];
    if AllEligible(all) {
      assert all[|gps|] == gp;
      forall i | 0 <= i < |gps| ensures Eligible(gps[i]) { assert all[i] == gps[i]; }
    }
  }

  lemma TakenMaybe(gp: Option<nat>, role: Role)
    ensures Taken(MaybeTake(gp, role)) == Maybe(gp)
  {
    if gp.Some? {
      assert [Take(gp.value, role)][..0] == [];
    }
  }

  lemma TakenPair(pair: Option<nat>)
    requires pair.Some? ==> pair.value < |I2cPairs()|
    ensures Taken(PairChecks(pair)) == PairPins(pair)
  {
    hide I2cPairs;
    if pair.Some? {
      var checks := PairChecks(pair);
      assert checks[..1] == [checks[0]] && checks[..1][..0] == [];
      assert Taken(checks[..1]) == [checks[0].gp];
    }
  }

  lemma TakenDemand(met: bool, error: PinError, who: Role)
    ensures Taken([Demand(met, error, who)]) == []
  {}

  lemma TakenRf(p: PinPlan)
    requires p.i2cPair.Some? ==> p.i2cPair.value < |I2cPairs()|
    ensures Taken(RfChecks(p)) == Maybe(p.rf) + PairPins(p.i2cPair)
  {
    hide Taken, I2cPairs, MaybeTake, PairChecks, EngineFits;
    var engine := [Demand(EngineFits(p), EngineAllocation, Rf)];
    TakenDemand(EngineFits(p), EngineAllocation, Rf);
    TakenMaybe(p.rf, Rf);
    TakenPair(p.i2cPair);
    TakenConcat(engine, MaybeTake(p.rf, Rf));
    TakenConcat(engine + MaybeTake(p.rf, Rf), PairChecks(p.i2cPair));
  }

  lemma TakenOthers(p: PinPlan)
    ensures Taken(SwitchChecks(p)) == Maybe(p.button) + Maybe(p.amplifier)
    ensures Taken(FilterChecks(p)) == p.lpf
    ensures Taken(IndicatorChecks(p)) == Maybe(p.indicatorGp)
  {
    hide Taken, MaybeTake, LpfChecks, IndicatorFits;
    TakenMaybe(p.button, Button);
    TakenMaybe(p.amplifier, Amplifier);
    TakenConcat(MaybeTake(p.button, Button), MaybeTake(p.amplifier, Amplifier));
    TakenDemand(|p.lpf| <= 26, TooManySelectors, Lpf);
    TakenLpf(p.lpf);
    TakenConcat([Demand(|p.lpf| <= 26, TooManySelectors, Lpf)], LpfChecks(p.lpf));
    var light := [Demand(IndicatorFits(p), IndicatorAllocation, IndicatorRole)];
    TakenDemand(IndicatorFits(p), IndicatorAllocation, IndicatorRole);
    TakenMaybe(p.indicatorGp, IndicatorRole);
    TakenConcat(light, MaybeTake(p.indicatorGp, IndicatorRole));
  }

  /** The checks of a plan claim exactly its pins. */
  lemma TakenIsPins(p: PinPlan)
    requires p.i2cPair.Some? ==> p.i2cPair.value < |I2cPairs()|
    ensures Taken(Checks(p)) == PinsOf(p)
  {
    hide Taken, I2cPairs, RfChecks, SwitchChecks, FilterChecks, IndicatorChecks;
    TakenRf(p);
    TakenOthers(p);
    TakenConcat(RfChecks(p), SwitchChecks(p));
    TakenConcat(RfChecks(p) + SwitchChecks(p), FilterChecks(p));
    TakenConcat(RfChecks(p) + SwitchChecks(p) + FilterChecks(p), IndicatorChecks(p));
  }

  lemma AllMetConcat(a: seq<Check>, b: seq<Check>)
    ensures AllMet(a + b) <==> AllMet(a) && AllMet(b)
  {
    var all := a + b;
    if AllMet(all) {
      forall i | 0 <= i < |a| ensures a[i].Demand? ==> a[i].met { assert all[i] == a[i]; }
      forall i | 0 <= i < |b| ensures b[i].Demand? ==> b[i].met { assert all[|a| + i] == b[i]; }
    }
  }

  lemma AllMetOne(met: bool, error: PinError, who: Role)
    ensures AllMet([Demand(met, error, who)]) <==> met
  {
    assert [Demand(met, error, who)][0].met == met;
  }

  lemma AllMetClaims(checks: seq<Check>)
    requires forall i :: 0 <= i < |checks| ==> checks[i].Take?
    ensures AllMet(checks)
  {}

  lemma AllMetPair(pair: Option<nat>)
    ensures AllMet(PairChecks(pair)) <==> (pair.Some? ==> pair.value < |I2cPairs()|)
  {
    hide I2cPairs;
    if pair.Some? && pair.value >= |I2cPairs()| {
      AllMetOne(false, InvalidPair, I2cBus);
    }
  }

  /** The demands of a plan are those on its shape. */
  lemma AllMetExactly(p: PinPlan)
    ensures AllMet(Checks(p)) <==>
            && EngineFits(p) && IndicatorFits(p) && |p.lpf| <= 26
            && (p.i2cPair.Some? ==> p.i2cPair.value < |I2cPairs()|)
  {
    var engine := [Demand(EngineFits(p), EngineAllocation, Rf)];
    var count := [Demand(|p.lpf| <= 26, TooManySelectors, Lpf)];
    var light := [Demand(IndicatorFits(p), IndicatorAllocation, IndicatorRole)];
    AllMetOne(EngineFits(p), EngineAllocation, Rf);
    AllMetOne(|p.lpf| <= 26, TooManySelectors, Lpf);
    AllMetOne(IndicatorFits(p), IndicatorAllocation, IndicatorRole);
    AllMetPair(p.i2cPair);
    AllMetClaims(MaybeTake(p.rf, Rf));
    AllMetClaims(SwitchChecks(p));
    AllMetClaims(LpfChecks(p.lpf));
    AllMetClaims(MaybeTake(p.indicatorGp, IndicatorRole));
    hide AllMet, I2cPairs, MaybeTake, PairChecks, LpfChecks, SwitchChecks, EngineFits, IndicatorFits;
    AllMetConcat(engine, MaybeTake(p.rf, Rf));
    AllMetConcat(engine + MaybeTake(p.rf, Rf), PairChecks(p.i2cPair));
    AllMetConcat(count, LpfChecks(p.lpf));
    AllMetConcat(light, MaybeTake(p.indicatorGp, IndicatorRole));
    AllMetConcat(RfChecks(p), SwitchChecks(p));
    AllMetConcat(RfChecks(p) + SwitchChecks(p), FilterChecks(p));
    AllMetConcat(RfChecks(p) + SwitchChecks(p) + FilterChecks(p), IndicatorChecks(p));
  }

  /** Validation accepts a plan exactly when its engine, pair, selector count and indicator
      are allowed and all its pins are eligible and pairwise distinct. */
  lemma ValidExactly(p: PinPlan)
    ensures JudgeAll(Checks(p)) == Accepted <==> Sound(p)
  {
    hide JudgeAll, Checks, AllMet, Taken, I2cPairs, EngineFits, IndicatorFits;
    JudgeAllExactly(Checks(p));
    AllMetExactly(p);
    if p.i2cPair.Some? ==> p.i2cPair.value < |I2cPairs()| {
      TakenIsPins(p);
    }
  }

  /** The first failing check, and that everything before it passed. */
  lemma {:induction false} FirstFailure(checks: seq<Check>) returns (n: nat)
    requires JudgeAll(checks) != Accepted
    ensures n < |checks| && JudgeAll(checks[..n]) == Accepted && JudgeAll(checks) == Judge(checks[..n], checks[n])
    decreases |checks|
  {
    var init := checks[..|checks| - 1];
    if JudgeAll(init) != Accepted {
      n := FirstFailure(init);
      assert init[..n] == checks[..n];
    } else {
      n := |checks| - 1;
    }
  }

  /** A reported owner really claimed the pin earlier. */
  lemma {:induction false} OwnerClaimed(checks: seq<Check>, gp: nat) returns (i: nat)
    requires Owner(checks, gp).Some?
    ensures i < |checks| && checks[i] == Take(gp, Owner(checks, gp).value)
    decreases |checks|
  {
    var last := checks[|checks| - 1];
    if last.Take? && last.gp == gp {
      i := |checks| - 1;
    } else {
      i := OwnerClaimed(checks[..|checks| - 1], gp);
    }
  }

  /** A reported conflict names two roles of the plan that claim one pin, the owner first,
      with everything before the second claim in order. */
  lemma ConflictIsReal(p: PinPlan) returns (first: nat, second: nat)
    requires JudgeAll(Checks(p)).Refused? && JudgeAll(Checks(p)).error == PinConflict
    ensures
      var v := JudgeAll(Checks(p));
      && first < second < |Checks(p)| && v.gp.Some? && v.owner.Some?
      && Checks(p)[first] == Take(v.gp.value, v.owner.value) && Checks(p)[second] == Take(v.gp.value, v.role)
      && JudgeAll(Checks(p)[..second]) == Accepted
  {
    second := FirstFailure(Checks(p));
    if Checks(p)[second].Demand? { NoDemandIsConflict(p, second); }
    first := OwnerClaimed(Checks(p)[..second], Checks(p)[second].gp);
  }

  lemma NoDemandIsConflict(p: PinPlan, n: nat)
    requires n < |Checks(p)| && Checks(p)[n].Demand?
    ensures Checks(p)[n].error != PinConflict
  {}
}
