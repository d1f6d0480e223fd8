/**
 The output filter bank: named selectors on pins, and named frequency ranges that each
 need one selector. An accepted bank never leaves a frequency in doubt.
 */
module Filters {
  import opened Collections
  import opened Options
  import opened Pins

  const MAXIMUM_OUTPUTS := 5
  const MAXIMUM_RANGES := 10
  const MAXIMUM_DELAY_MS := 250
  const MAXIMUM_HZ := 1_000_000_000

  datatype FilterOutput = FilterOutput(id: nat, gp: nat, name: string)

  datatype FilterRange = FilterRange(name: string, selector: nat, lowHz: nat, highHz: nat)

  /** The two tables have a fixed size; only the counted part is in use. */
  datatype FilterSettings = FilterSettings(
    releaseMs: nat, settleMs: nat, outputCount: nat, rangeCount: nat,
    outputs: seq<FilterOutput>, ranges: seq<FilterRange>)
  {
    predicate Shaped() { |outputs| == MAXIMUM_OUTPUTS && |ranges| == MAXIMUM_RANGES }
  }

  datatype Finding =
    | Fine | FilterLimits | InvalidSelector | DuplicateSelector | FilterAllocation(verdict: Verdict)
    | InvalidRange | DuplicateRange | AmbiguousRange

  // ---------- What a sound bank is ----------

  predicate NameChar(c: char) {
    'a' <= c <= 'z' || 'A' <= c <= 'Z' || '0' <= c <= '9' || c == ' ' || c == '-' || c == '_' || c == '/'
  }

  predicate GoodName(s: string) {
    && 0 < |s| <= 16 && s[0] != ' ' && s[|s| - 1] != ' '
    && forall i :: 0 <= i < |s| ==> NameChar(s[i])
  }

  predicate WithinLimits(s: FilterSettings) {
    && s.outputCount <= MAXIMUM_OUTPUTS && s.rangeCount <= MAXIMUM_RANGES
    && s.releaseMs <= MAXIMUM_DELAY_MS && s.settleMs <= MAXIMUM_DELAY_MS
  }

  predicate GoodOutput(o: FilterOutput) { 0 < o.id <= MAXIMUM_OUTPUTS && GoodName(o.name) }

  predicate SameOutput(a: FilterOutput, b: FilterOutput) { a.id == b.id || a.name == b.name }

  predicate Selects(outputs: seq<FilterOutput>, selector: nat) {
    exists j :: 0 <= j < |outputs| && outputs[j].id == selector
  }

  predicate GoodRange(outputs: seq<FilterOutput>, r: FilterRange) {
    Selects(outputs, r.selector) && GoodName(r.name) && 0 < r.lowHz <= r.highHz <= MAXIMUM_HZ
  }

  predicate Holds(r: FilterRange, hz: nat) { r.lowHz <= hz <= r.highHz }

  /** Two ranges send some frequency to different selectors. */
  ghost predicate Doubtful(a: FilterRange, b: FilterRange) {
    a.selector != b.selector && exists hz :: Holds(a, hz) && Holds(b, hz)
  }

  predicate OutputsSound(outputs: seq<FilterOutput>) {
    && (forall i :: 0 <= i < |outputs| ==> GoodOutput(outputs[i]))
    && forall j, i :: 0 <= j < i < |outputs| ==> !SameOutput(outputs[j], outputs[i])
  }

  ghost predicate RangesSound(outputs: seq<FilterOutput>, ranges: seq<FilterRange>) {
    && (forall i :: 0 <= i < |ranges| ==> GoodRange(outputs, ranges[i]))
    && forall j, i :: 0 <= j < i < |ranges| ==> ranges[j].name != ranges[i].name && !Doubtful(ranges[j], ranges[i])
  }

  function Gps(outputs: seq<FilterOutput>): seq<nat> {
    seq(|outputs|, i requires 0 <= i < |outputs| => outputs[i].gp)
  }

  /** The plan with the filter selectors added to its own. */
  function Combined(s: FilterSettings, pins: PinPlan): PinPlan
    requires s.outputCount <= |s.outputs|
  {
    pins.(lpf := pins.lpf + Gps(s.outputs[..s.outputCount]))
  }

  ghost predicate BankSound(s: FilterSettings, pins: PinPlan)
    requires s.Shaped()
  {
    && WithinLimits(s) && OutputsSound(s.outputs[..s.outputCount]) && Sound(Combined(s, pins))
    && RangesSound(s.outputs[..s.outputCount], s.ranges[..s.rangeCount])
  }

  // ---------- The validation ----------

  method NameValid(s: string) returns (ok: bool)
    ensures ok <==> GoodName(s)
  {
    if s == [] || |s| > 16 || s[0] == ' ' || s[|s| - 1] == ' ' { return false; }
    for i := 0 to |s|
      invariant forall k :: 0 <= k < i ==> NameChar(s[k])
    {
      if !NameChar(s[i]) { return false; }
    }
    return true;
  }

  /** Two non-empty ranges overlap exactly when each begins before the other ends. */
  lemma OverlapExactly(a: FilterRange, b: FilterRange)
    requires a.lowHz <= a.highHz && b.lowHz <= b.highHz
    ensures (exists hz :: Holds(a, hz) && Holds(b, hz)) <==> b.lowHz <= a.highHz && a.lowHz <= b.highHz
  {
    if b.lowHz <= a.highHz && a.lowHz <= b.highHz {
      var hz := if a.lowHz <= b.lowHz then b.lowHz else a.lowHz;
      assert Holds(a, hz) && Holds(b, hz);
    }
  }

  lemma OutputsSoundGrow(outputs: seq<FilterOutput>, o: FilterOutput)
    requires OutputsSound(outputs) && GoodOutput(o)
    requires forall k :: 0 <= k < |outputs| ==> !SameOutput(outputs[k], o)
    ensures OutputsSound(outputs + [o])
  {}

  method CheckOutputs(outputs: seq<FilterOutput>, pins: PinPlan) returns (r: Finding, combined: PinPlan)
    ensures r == Fine || r == InvalidSelector || r == DuplicateSelector
    ensures r == Fine <==> OutputsSound(outputs)
    ensures r == Fine ==> combined == pins.(lpf := pins.lpf + Gps(outputs))
    ensures r == InvalidSelector ==> exists i :: 0 <= i < |outputs| && !GoodOutput(outputs[i])
    ensures r == DuplicateSelector ==> exists j, i :: 0 <= j < i < |outputs| && SameOutput(outputs[j], outputs[i])
  {
    combined := pins;
    assert Gps(outputs[..0]) == [];
    for i := 0 to |outputs|
      invariant OutputsSound(outputs[..i])
      invariant combined == pins.(lpf := pins.lpf + Gps(outputs[..i]))
    {
      var o := outputs[i];
      var named := NameValid(o.name);
      if o.id == 0 || o.id > MAXIMUM_OUTPUTS || !named {
        assert !GoodOutput(outputs[i]);
        return InvalidSelector, combined;
      }
      for j := 0 to i
        invariant forall k :: 0 <= k < j ==> !SameOutput(outputs[..i][k], o)
      {
        if outputs[j].id == o.id || outputs[j].name == o.name {
          assert SameOutput(outputs[j], outputs[i]);
          assert outputs[j] == outputs[..i][j];
          return DuplicateSelector, combined;
        }
      }
      combined := combined.(lpf := combined.lpf + [o.gp]);
      assert Gps(outputs[..i + 1]) == Gps(outputs[..i]) + [o.gp];
      OutputsSoundGrow(outputs[..i], o);
      assert outputs[..i + 1] == outputs[..i] + [o];
    }
    assert outputs[..|outputs|] == outputs;
    r := Fine;
  }

  method CheckRanges(outputs: seq<FilterOutput>, ranges: seq<FilterRange>) returns (r: Finding)
    ensures r == Fine || r == InvalidRange || r == DuplicateRange || r == AmbiguousRange
    ensures r == Fine <==> RangesSound(outputs, ranges)
    ensures r == InvalidRange ==> exists i :: 0 <= i < |ranges| && !GoodRange(outputs, ranges[i])
    ensures r == DuplicateRange ==> exists j, i :: 0 <= j < i < |ranges| && ranges[j].name == ranges[i].name
    ensures r == AmbiguousRange ==> exists j, i :: 0 <= j < i < |ranges| && Doubtful(ranges[j], ranges[i])
  {
    for i := 0 to |ranges|
      invariant RangesSound(outputs, ranges[..i])
    {
      var range := ranges[i];
      var found := false;
      for j := 0 to |outputs|
        invariant found <==> Selects(outputs[..j], range.selector)
      {
        found := found || outputs[j].id == range.selector;
        SelectsSplits(outputs, j, range.selector);
      }
      assert outputs[..|outputs|] == outputs;
      var named := NameValid(range.name);
      if !found || !named || range.lowHz == 0 || range.highHz > MAXIMUM_HZ || range.lowHz > range.highHz {
        assert !GoodRange(outputs, ranges[i]);
        return InvalidRange;
      }
      for j := 0 to i
        invariant forall k :: 0 <= k < j ==> ranges[k].name != range.name && !Doubtful(ranges[k], range)
      {
        var p := ranges[j];
        assert p == ranges[..i][j];
        OverlapExactly(p, range);
        if p.name == range.name { return DuplicateRange; }
        if p.selector != range.selector && range.lowHz <= p.highHz && p.lowHz <= range.highHz {
          assert Doubtful(ranges[j], ranges[i]);
          return AmbiguousRange;
        }
      }
      assert ranges[..i + 1] == ranges[..i] + [range];
    }
    assert ranges[..|ranges|] == ranges;
    r := Fine;
  }

  lemma SelectsSplits(outputs: seq<FilterOutput>, j: nat, selector: nat)
    requires j < |outputs|
    ensures Selects(outputs[..j + 1], selector) <==> Selects(outputs[..j], selector) || outputs[j].id == selector
  {
    var longer := outputs[..j + 1];
    if Selects(outputs[..j], selector) {
      var k :| 0 <= k < j && outputs[..j][k].id == selector;
      assert longer[k].id == selector;
    }
    if outputs[j].id == selector { assert longer[j].id == selector; }
    if Selects(longer, selector) {
      var k :| 0 <= k < j + 1 && longer[k].id == selector;
      if k < j { assert outputs[..j][k].id == selector; }
    }
  }

  /** The bank is accepted exactly when it is sound; each refusal is true, and comes only
      once everything checked before it is in order. */
  method ValidateFilters(s: FilterSettings, pins: PinPlan) returns (r: Finding)
    requires s.Shaped()
    ensures r == Fine <==> BankSound(s, pins)
    ensures r == FilterLimits <==> !WithinLimits(s)
    ensures r == InvalidSelector ==>
              WithinLimits(s) && exists i :: 0 <= i < s.outputCount && !GoodOutput(s.outputs[i])
    ensures r == DuplicateSelector ==>
              WithinLimits(s) && exists j, i :: 0 <= j < i < s.outputCount && SameOutput(s.outputs[j], s.outputs[i])
    ensures r.FilterAllocation? ==>
              && WithinLimits(s) && OutputsSound(s.outputs[..s.outputCount]) && !Sound(Combined(s, pins))
              && r.verdict == JudgeAll(Checks(Combined(s, pins)))
    ensures r == InvalidRange || r == DuplicateRange || r == AmbiguousRange ==>
              WithinLimits(s) && OutputsSound(s.outputs[..s.outputCount]) && Sound(Combined(s, pins))
    ensures r == InvalidRange ==>
              exists i :: 0 <= i < s.rangeCount && !GoodRange(s.outputs[..s.outputCount], s.ranges[i])
    ensures r == DuplicateRange ==> exists j, i :: 0 <= j < i < s.rangeCount && s.ranges[j].name == s.ranges[i].name
    ensures r == AmbiguousRange ==> exists j, i :: 0 <= j < i < s.rangeCount && Doubtful(s.ranges[j], s.ranges[i])
  {
    if s.outputCount > |s.outputs| || s.rangeCount > |s.ranges|
       || s.releaseMs > MAXIMUM_DELAY_MS || s.settleMs > MAXIMUM_DELAY_MS {
      return FilterLimits;
    }
    hide Sound, JudgeAll, Checks;
    var outputs, ranges := s.outputs[..s.outputCount], s.ranges[..s.rangeCount];
    var combined;
    r, combined := CheckOutputs(outputs, pins);
    if r != Fine { return; }
    var allocation := Validate(combined);
    ValidExactly(Combined(s, pins));
    if allocation.Says() != Accepted { return FilterAllocation(allocation.Says()); }
    r := CheckRanges(outputs, ranges);
  }

  // ---------- What an accepted bank gives ----------

  /** All ranges of an accepted bank that hold a frequency name one selector, and exactly
      one output in use has its number. */
  lemma FrequencyHasOneOutput(s: FilterSettings, pins: PinPlan, hz: nat, i: nat, k: nat) returns (output: nat)
    requires s.Shaped() && BankSound(s, pins)
    requires i < s.rangeCount && k < s.rangeCount && Holds(s.ranges[i], hz) && Holds(s.ranges[k], hz)
    ensures s.ranges[i].selector == s.ranges[k].selector
    ensures output < s.outputCount && s.outputs[output].id == s.ranges[i].selector
    ensures forall j :: 0 <= j < s.outputCount && s.outputs[j].id == s.ranges[i].selector ==> j == output
  {
    var outputs, ranges := s.outputs[..s.outputCount], s.ranges[..s.rangeCount];
    assert ranges[i] == s.ranges[i] && ranges[k] == s.ranges[k];
    assert GoodRange(outputs, ranges[i]);
    output :| 0 <= output < |outputs| && outputs[output].id == ranges[i].selector;
    forall j | 0 <= j < s.outputCount && s.outputs[j].id == s.ranges[i].selector ensures j == output {
      assert outputs[j] == s.outputs[j];
      assert SameOutput(outputs[j], outputs[output]);
    }
    if s.ranges[i].selector != s.ranges[k].selector {
      assert Doubtful(ranges[i], ranges[k]) && Doubtful(ranges[k], ranges[i]);
    }
  }

  /** The pin of an output in use is eligible, and no other role of the combined plan and
      no other output has it. */
  lemma OutputPinIsItsOwn(s: FilterSettings, pins: PinPlan, output: nat)
    requires s.Shaped() && BankSound(s, pins) && output < s.outputCount
    ensures Eligible(s.outputs[output].gp)
    ensures forall k :: 0 <= k < |PinsOf(pins)| ==> PinsOf(pins)[k] != s.outputs[output].gp
    ensures forall j :: 0 <= j < s.outputCount && j != output ==> s.outputs[j].gp != s.outputs[output].gp
  {
    hide I2cPairs, GoodOutput, GoodRange, Eligible;
    var before := Maybe(pins.rf) + PairPins(pins.i2cPair) + Maybe(pins.button) + Maybe(pins.amplifier) + pins.lpf;
    var gps := Gps(s.outputs[..s.outputCount]);
    var after := Maybe(pins.indicatorGp);
    assert PinsOf(Combined(s, pins)) == before + gps + after;
    assert PinsOf(pins) == before + after;
    InTheMiddle(before, gps, after, output);
    assert gps[output] == s.outputs[output].gp;
    forall j | 0 <= j < s.outputCount && j != output ensures s.outputs[j].gp != s.outputs[output].gp {
      assert gps[j] == s.outputs[j].gp;
    }
  }

  lemma InTheMiddle(before: seq<nat>, gps: seq<nat>, after: seq<nat>, k: nat)
    requires k < |gps| && Distinct(before + gps + after) && AllEligible(before + gps + after)
    ensures Eligible(gps[k])
    ensures forall i :: 0 <= i < |before + after| ==> (before + after)[i] != gps[k]
    ensures forall j :: 0 <= j < |gps| && j != k ==> gps[j] != gps[k]
  {
    var all := before + gps + after;
    var at := |before| + k;
    assert all[at] == gps[k];
    forall i | 0 <= i < |before + after| ensures (before + after)[i] != gps[k] {
      assert (before + after)[i] == all[if i < |before| then i else i + |gps|];
    }
    forall j | 0 <= j < |gps| && j != k ensures gps[j] != gps[k] {
      assert all[|before| + j] == gps[j];
    }
  }
}
