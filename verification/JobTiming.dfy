/**
 The event lists that clients build for one WSPR frame, and the semantic check a LOAD
 request has to pass: the boundaries are right to a third of a nanosecond (or to one
 500 ns sample group), errors never add up, and the check accepts both lists.
 */
module JobTiming {
  import opened Options

  datatype Event = Event(offsetNs: nat, durationNs: nat, rfOn: bool, frequencyNhz: nat)

  datatype Job = Job(mode: string, totalDurationNs: nat, events: seq<Event>, allowFrequencyAdjustment: bool)

  datatype FrequencyRange = FrequencyRange(minimumNhz: nat, maximumNhz: nat)

  /** The messages whose meaning is checked; the rest pass untouched. */
  datatype Message =
    | Load(job: Job)
    | Caps(minimumArmLeadNs: nat, maximumArmAheadNs: nat, ranges: seq<FrequencyRange>)
    | Other

  const U64_MAX := 0xFFFF_FFFF_FFFF_FFFF
  const MAXIMUM_JOB_NS := 86_400_000_000_000
  const SYMBOL_NS_NUMERATOR := 8192 * 1_000_000_000
  const SYMBOL_NS_DENOMINATOR := 12000
  const SYMBOLS := 162
  const FRAME_DURATION_NS := 110_592_000_000
  const GROUP_NS := 500

  // ---------- The semantic check ----------

  datatype SemanticError =
    | WrongOffset(index: nat) | DurationOverflow(index: nat) | WrongEnd | TooLong
    | ArmLead | RangeOrder(index: nat)

  /** Where an event has to start: the end of the one before it. */
  function StartOf(events: seq<Event>, i: nat): nat
    requires i <= |events|
  {
    if i == 0 then 0 else StartOf(events, i - 1) + events[i - 1].durationNs
  }

  predicate StartsAt(events: seq<Event>, i: nat)
    requires i < |events|
  {
    events[i].offsetNs == StartOf(events, i)
  }

  /** The events follow each other from 0 without gap or overlap and end at the total. */
  predicate Contiguous(job: Job) {
    && (forall i :: 0 <= i < |job.events| ==> StartsAt(job.events, i))
    && StartOf(job.events, |job.events|) == job.totalDurationNs
  }

  predicate Ordered(r: FrequencyRange) { r.minimumNhz <= r.maximumNhz }

  predicate Sound(message: Message) {
    match message
    case Load(job) => Contiguous(job) && job.totalDurationNs <= MAXIMUM_JOB_NS
    case Caps(lead, ahead, ranges) => lead <= ahead && forall i :: 0 <= i < |ranges| ==> Ordered(ranges[i])
    case Other => true
  }

  predicate Reports(errors: seq<SemanticError>, error: SemanticError) {
    exists k :: 0 <= k < |errors| && errors[k] == error
  }

  lemma {:induction false} StartGrows(events: seq<Event>, i: nat, j: nat)
    requires i <= j <= |events|
    ensures StartOf(events, i) <= StartOf(events, j)
    decreases j
  {
    if i < j { StartGrows(events, i, j - 1); }
  }

  /** A walk without overflow is complete; one with an overflow is not empty. */
  lemma {:induction false} WalksAll(events: seq<Event>, i: nat)
    requires i <= |events|
    ensures !Overflows(events) ==> Walked(events, i) == |events|
    ensures i < |events| ==> Walked(events, i) > i
    decreases |events| - i
  {
    if i == |events| {
    } else {
      StartGrows(events, i + 1, |events|);
      WalksAll(events, i + 1);
    }
  }

  /** No report at all means the job is sound, and a sound job draws none. */
  lemma NothingReported(job: Job, errors: seq<SemanticError>)
    requires forall error :: Reports(errors, error) <==> Deserved(job, error)
    ensures errors == [] <==> Sound(Load(job))
  {
    if errors == [] {
      var last := Walked(job.events, 0) - 1;
      assert last >= 0 ==> !Deserved(job, DurationOverflow(last));
      assert !Deserved(job, WrongEnd) && !Deserved(job, TooLong);
      WalksAll(job.events, 0);
      forall i | 0 <= i < |job.events| ensures StartsAt(job.events, i) {
        assert !Deserved(job, WrongOffset(i));
      }
    } else if Sound(Load(job)) {
      assert Reports(errors, errors[0]);
    }
  }

  method ValidateMessageSemantics(message: Message) returns (errors: seq<SemanticError>)
    ensures errors == [] <==> Sound(message)
    ensures message.Other? ==> errors == []
  {
    match message
    case Caps(lead, ahead, ranges) =>
      errors := CheckCaps(lead, ahead, ranges);
    case Load(job) =>
      errors := CheckLoad(job);
      NothingReported(job, errors);
    case Other =>
      errors := [];
  }

  method CheckCaps(lead: nat, ahead: nat, ranges: seq<FrequencyRange>) returns (errors: seq<SemanticError>)
    ensures errors == [] <==> Sound(Caps(lead, ahead, ranges))
  {
    errors := if lead > ahead then [ArmLead] else [];
    for i := 0 to |ranges|
      invariant errors == [] <==> lead <= ahead && forall k :: 0 <= k < i ==> Ordered(ranges[k])
    {
      if ranges[i].minimumNhz > ranges[i].maximumNhz {
        assert !Ordered(ranges[i]);
        errors := errors + [RangeOrder(i)];
      }
    }
  }

  /** A report for each misplaced event among the first n. */
  function Misplaced(events: seq<Event>, n: nat): seq<SemanticError>
    requires n <= |events|
  {
    if n == 0 then []
    else Misplaced(events, n - 1) + if StartsAt(events, n - 1) then [] else [WrongOffset(n - 1)]
  }

  lemma ReportsConcat(a: seq<SemanticError>, b: seq<SemanticError>, error: SemanticError)
    ensures Reports(a + b, error) <==> Reports(a, error) || Reports(b, error)
  {
    if Reports(a, error) {
      var k :| 0 <= k < |a| && a[k] == error;
      assert (a + b)[k] == error;
    }
    if Reports(b, error) {
      var k :| 0 <= k < |b| && b[k] == error;
      assert (a + b)[|a| + k] == error;
    }
  }

  lemma ReportsOne(one: SemanticError, error: SemanticError)
    ensures Reports([one], error) <==> one == error
  {
    assert [one][0] == one;
  }

  lemma {:induction false} MisplacedReports(events: seq<Event>, n: nat, error: SemanticError)
    requires n <= |events|
    ensures Reports(Misplaced(events, n), error)
            <==> error.WrongOffset? && error.index < n && !StartsAt(events, error.index)
    decreases n
  {
    if n == 0 {
    } else {
      MisplacedReports(events, n - 1, error);
      if StartsAt(events, n - 1) {
        assert Misplaced(events, n) == Misplaced(events, n - 1);
      } else {
        ReportsConcat(Misplaced(events, n - 1), [WrongOffset(n - 1)], error);
        ReportsOne(WrongOffset(n - 1), error);
      }
    }
  }

  /** How many events are walked from i on: up to the first whose end does not fit in 64
      bits, that one included. */
  function Walked(events: seq<Event>, i: nat): (stop: nat)
    requires i <= |events|
    ensures i <= stop <= |events|
    decreases |events| - i
  {
    if i == |events| then i else if StartOf(events, i + 1) > U64_MAX then i + 1 else Walked(events, i + 1)
  }

  /** Where the walk ends: the start of the event that does not fit, or the end of all. */
  function Reached(events: seq<Event>): nat {
    if Overflows(events) && events != [] then StartOf(events, Walked(events, 0) - 1) else StartOf(events, |events|)
  }

  predicate Overflows(events: seq<Event>) { StartOf(events, |events|) > U64_MAX }

  /** What is to be reported: every misplaced event among those walked; the last of them if
      its end does not fit in 64 bits; an end that is not the total; an excessive total. */
  predicate Deserved(job: Job, error: SemanticError) {
    match error
    case WrongOffset(i) => i < Walked(job.events, 0) && !StartsAt(job.events, i)
    case DurationOverflow(i) => Overflows(job.events) && i == Walked(job.events, 0) - 1
    case WrongEnd => Reached(job.events) != job.totalDurationNs
    case TooLong => job.totalDurationNs > MAXIMUM_JOB_NS
    case _ => false
  }

  method CheckLoad(job: Job) returns (errors: seq<SemanticError>)
    ensures forall error :: Reports(errors, error) <==> Deserved(job, error)
  {
    var events := job.events;
    var expected := 0;
    errors := [];
    ghost var stop, overflow := 0, false;
    for i := 0 to |events|
      invariant stop == i && !overflow && Walked(events, 0) == Walked(events, i)
      invariant expected == StartOf(events, i) <= U64_MAX
      invariant errors == Misplaced(events, i)
    {
      var event := events[i];
      stop := i + 1;
      if event.offsetNs != expected { errors := errors + [WrongOffset(i)]; }
      assert errors == Misplaced(events, i + 1);
      if expected > U64_MAX - event.durationNs {
        errors := errors + [DurationOverflow(i)];
        overflow := true;
        StartGrows(events, i + 1, |events|);
        break;
      }
      expected := expected + event.durationNs;
    }
    assert stop == Walked(events, 0) && overflow == Overflows(events) && expected == Reached(events);
    ghost var misplaced, wide := Misplaced(events, stop), if overflow then [DurationOverflow(stop - 1)] else [];
    assert errors == misplaced + wide;
    ghost var end := if expected != job.totalDurationNs then [WrongEnd] else [];
    if expected != job.totalDurationNs { errors := errors + [WrongEnd]; }
    ghost var long := if job.totalDurationNs > MAXIMUM_JOB_NS then [TooLong] else [];
    if job.totalDurationNs > MAXIMUM_JOB_NS { errors := errors + [TooLong]; }
    assert errors == misplaced + wide + end + long;
    forall error
      ensures Reports(errors, error) <==> Deserved(job, error)
    {
      ReportsConcat(misplaced, wide, error);
      ReportsConcat(misplaced + wide, end, error);
      ReportsConcat(misplaced + wide + end, long, error);
      MisplacedReports(events, stop, error);
      if overflow { ReportsOne(DurationOverflow(stop - 1), error); }
      ReportsOne(WrongEnd, error);
      ReportsOne(TooLong, error);
    }
  }

  // ---------- The two jobs ----------

  /** The source's rounding division of non-negative numbers. */
  function RoundedRatio(value: nat, numerator: nat, denominator: nat): nat
    requires denominator > 0
  {
    (value * numerator + denominator / 2) / denominator
  }

  /** The integer nearest to the ratio, the larger one when two are equally near. */
  lemma RoundedIsNearest(value: nat, numerator: nat, denominator: nat)
    requires denominator > 0
    ensures
      var error := 2 * (RoundedRatio(value, numerator, denominator) * denominator - value * numerator);
      0 < error + denominator && error <= denominator
  {
    var x := value * numerator + denominator / 2;
    assert x == (x / denominator) * denominator + x % denominator;
  }

  function Boundary(k: nat): nat {
    RoundedRatio(k, SYMBOL_NS_NUMERATOR, SYMBOL_NS_DENOMINATOR)
  }

  /** Boundary k is within a third of a nanosecond of k symbols of 8192/12000 s, and exact
      at every third symbol: nothing accumulates. */
  lemma BoundaryError(k: nat)
    ensures -1 <= 3 * Boundary(k) - k * 2_048_000_000 <= 1
    ensures SYMBOL_NS_NUMERATOR * 3 == SYMBOL_NS_DENOMINATOR * 2_048_000_000
    ensures k % 3 == 0 ==> 3 * Boundary(k) == k * 2_048_000_000
  {
    RoundedIsNearest(k, SYMBOL_NS_NUMERATOR, SYMBOL_NS_DENOMINATOR);
  }

  predicate GoodSymbols(symbols: string) {
    |symbols| == SYMBOLS && forall i :: 0 <= i < |symbols| ==> '0' <= symbols[i] <= '3'
  }

  predicate GoodFrequency(frequencyHz: int) { 100_000 <= frequencyHz <= 68_999_994 }

  function ToneNhz(frequencyHz: nat, symbol: char): nat
    requires '0' <= symbol <= '3'
  {
    frequencyHz * 1_000_000_000 + (symbol as nat - '0' as nat) * 1_464_843_750
  }

  /** Every event lasts the same to the nanosecond. */
  lemma BoundaryGrows(k: nat)
    ensures 682_666_666 <= Boundary(k + 1) - Boundary(k) <= 682_666_667
  {
    BoundaryError(k);
    BoundaryError(k + 1);
  }

  function SymbolEvent(symbols: string, frequencyHz: nat, k: nat): Event
    requires k < |symbols| && '0' <= symbols[k] <= '3'
  {
    BoundaryGrows(k);
    Event(Boundary(k), Boundary(k + 1) - Boundary(k), true, ToneNhz(frequencyHz, symbols[k]))
  }

  /** The job identifier is a digest and is not part of this model. */
  function SymbolJob(symbols: string, frequencyHz: nat): Job
    requires GoodSymbols(symbols)
  {
    Job("wspr", Boundary(SYMBOLS),
        seq(SYMBOLS, k requires 0 <= k < SYMBOLS => SymbolEvent(symbols, frequencyHz, k)), true)
  }

  /** None stands for the raised ValueError. */
  method MakeJob(symbols: string, frequencyHz: int) returns (job: Option<Job>)
    ensures job.Some? <==> GoodSymbols(symbols) && GoodFrequency(frequencyHz)
    ensures job.Some? ==> job.value == SymbolJob(symbols, frequencyHz)
  {
    if |symbols| != SYMBOLS { return None; }
    for i := 0 to |symbols|
      invariant forall j :: 0 <= j < i ==> '0' <= symbols[j] <= '3'
    {
      if !('0' <= symbols[i] <= '3') { return None; }
    }
    if !(100_000 <= frequencyHz <= 68_999_994) { return None; }
    var events: seq<Event> := [];
    for index := 0 to |symbols|
      invariant |events| == index
      invariant forall k :: 0 <= k < index ==> events[k] == SymbolEvent(symbols, frequencyHz, k)
    {
      var begin := RoundedRatio(index, SYMBOL_NS_NUMERATOR, SYMBOL_NS_DENOMINATOR);
      var end := RoundedRatio(index + 1, SYMBOL_NS_NUMERATOR, SYMBOL_NS_DENOMINATOR);
      BoundaryGrows(index);
      var toneNhz := frequencyHz * 1_000_000_000 + (symbols[index] as int - '0' as int) * 1_464_843_750;
      events := events + [Event(begin, end - begin, true, toneNhz)];
    }
    job := Some(Job("wspr", RoundedRatio(162, SYMBOL_NS_NUMERATOR, SYMBOL_NS_DENOMINATOR), events, true));
  }

  /** The first k events of a symbol job last exactly to boundary k. */
  lemma {:induction false} SymbolStart(symbols: string, frequencyHz: nat, k: nat)
    requires GoodSymbols(symbols) && k <= SYMBOLS
    ensures StartOf(SymbolJob(symbols, frequencyHz).events, k) == Boundary(k)
    decreases k
  {
    hide Boundary;
    if k == 0 {
      BoundaryError(0);
    } else {
      SymbolStart(symbols, frequencyHz, k - 1);
    }
  }

  /** Every job the client makes passes the semantic check. */
  lemma SymbolJobSound(symbols: string, frequencyHz: nat)
    requires GoodSymbols(symbols)
    ensures Sound(Load(SymbolJob(symbols, frequencyHz)))
  {
    hide Boundary, StartOf;
    forall k | 0 <= k < SYMBOLS ensures StartsAt(SymbolJob(symbols, frequencyHz).events, k) {
      SymbolStart(symbols, frequencyHz, k);
    }
    SymbolStart(symbols, frequencyHz, SYMBOLS);
    BoundaryError(SYMBOLS);
  }

  /** Different symbols sound different tones, one tone step is one cycle per symbol, and
      every tone stays below half of the 138 MHz clock. */
  lemma TonesAreDistinct(frequencyHz: nat, a: char, b: char)
    requires GoodFrequency(frequencyHz) && '0' <= a <= '3' && '0' <= b <= '3'
    ensures ToneNhz(frequencyHz, a) == ToneNhz(frequencyHz, b) <==> a == b
    ensures (ToneNhz(frequencyHz, a) - ToneNhz(frequencyHz, b)) * SYMBOL_NS_NUMERATOR
            == (a as int - b as int) * SYMBOL_NS_DENOMINATOR * 1_000_000_000_000_000_000
    ensures 2 * ToneNhz(frequencyHz, a) < 138_000_000 * 1_000_000_000
  {}

  /** What the air carries: every event is on, symbol 0 sounds exactly the given frequency, each
      step above it adds 12000/8192 Hz, and 162 symbols take 110.592 s to the nanosecond. */
  lemma SymbolJobSays(symbols: string, frequencyHz: nat, k: nat)
    requires GoodSymbols(symbols) && k < SYMBOLS
    ensures
      var event := SymbolJob(symbols, frequencyHz).events[k];
      var step := symbols[k] as int - '0' as int;
      && event.rfOn && 8192 * (event.frequencyNhz - frequencyHz * 1_000_000_000) == step * 12_000 * 1_000_000_000
      && symbols[k] == ('0' as int + (event.frequencyNhz - frequencyHz * 1_000_000_000) / 1_464_843_750) as char
    ensures SymbolJob(symbols, frequencyHz).totalDurationNs == 110_592_000_000
  {
    BoundaryError(SYMBOLS);
    var hz := frequencyHz * 1_000_000_000;
    var step := symbols[k] as int - '0' as int;
    assert SymbolJob(symbols, frequencyHz).events[k] == SymbolEvent(symbols, frequencyHz, k);
    assert ToneNhz(frequencyHz, symbols[k]) - hz == step * 1_464_843_750;
    assert step * 1_464_843_750 / 1_464_843_750 == step;
  }

  /** The sample-aligned job is one tone of 135.5 kHz, on throughout. */
  lemma AlignedJobSays(nonce: string, k: nat)
    requires Identity(nonce) && k < SYMBOLS
    ensures
      var job := SampleAlignedJob(nonce).value;
      && job.events[k].rfOn && job.events[k].frequencyNhz == 135_500 * 1_000_000_000
      && job.totalDurationNs == SymbolJob(seq(SYMBOLS, _ => '0'), 0).totalDurationNs
  {
    BoundaryError(SYMBOLS);
  }

  /** A nonce: 32 lower-case hexadecimal digits, not all of them 0. */
  predicate Identity(value: string) {
    && |value| == 32 && (forall i :: 0 <= i < 32 ==> '0' <= value[i] <= '9' || 'a' <= value[i] <= 'f')
    && exists i :: 0 <= i < 32 && value[i] != '0'
  }

  function AlignedBoundary(k: nat): nat {
    k * FRAME_DURATION_NS / (SYMBOLS * GROUP_NS) * GROUP_NS
  }

  /** An aligned boundary is a whole number of 69-sample groups at 138 MHz and comes less
      than one group, 500 ns, before its exact place. */
  lemma AlignedBoundaryError(k: nat)
    ensures AlignedBoundary(k) % GROUP_NS == 0 && AlignedBoundary(k) * 138 == AlignedBoundary(k) / GROUP_NS * 69 * 1000
    ensures 0 <= k * FRAME_DURATION_NS - SYMBOLS * AlignedBoundary(k) < SYMBOLS * GROUP_NS
    ensures AlignedBoundary(SYMBOLS) == FRAME_DURATION_NS && AlignedBoundary(0) == 0
  {}

  lemma AlignedBoundaryGrows(k: nat)
    ensures AlignedBoundary(k) <= AlignedBoundary(k + 1)
  {
    AlignedBoundaryError(k);
    AlignedBoundaryError(k + 1);
  }

  function AlignedEvent(k: nat): Event {
    AlignedBoundaryGrows(k);
    Event(AlignedBoundary(k), AlignedBoundary(k + 1) - AlignedBoundary(k), true, 135_500_000_000_000)
  }

  /** None stands for a refused nonce. */
  function SampleAlignedJob(nonce: string): Option<Job> {
    if !Identity(nonce) then None
    else Some(Job("tone", FRAME_DURATION_NS, seq(SYMBOLS, k requires 0 <= k < SYMBOLS => AlignedEvent(k)), true))
  }

  lemma {:induction false} AlignedStart(events: seq<Event>, k: nat)
    requires |events| == SYMBOLS && k <= SYMBOLS && forall i :: 0 <= i < SYMBOLS ==> events[i] == AlignedEvent(i)
    ensures StartOf(events, k) == AlignedBoundary(k)
    decreases k
  {
    hide AlignedBoundary;
    if k == 0 {
      AlignedBoundaryError(0);
    } else {
      AlignedStart(events, k - 1);
      assert events[k - 1] == AlignedEvent(k - 1);
    }
  }

  lemma AlignedJobSound(nonce: string)
    requires Identity(nonce)
    ensures Sound(Load(SampleAlignedJob(nonce).value))
  {
    hide AlignedBoundary, StartOf;
    var events := SampleAlignedJob(nonce).value.events;
    forall k | 0 <= k < SYMBOLS ensures StartsAt(events, k) {
      AlignedStart(events, k);
      assert events[k] == AlignedEvent(k);
    }
    AlignedStart(events, SYMBOLS);
    AlignedBoundaryError(SYMBOLS);
  }

  /** An aligned boundary is never later than the rounded one, nor more than 500 ns earlier. */
  lemma BoundariesAgree(k: nat)
    ensures 0 <= Boundary(k) - AlignedBoundary(k) <= GROUP_NS
  {
    BoundaryError(k);
    AlignedBoundaryError(k);
    hide Boundary, AlignedBoundary;
  }
}
