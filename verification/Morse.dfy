/**
 The Morse message compiler: measuring a message without unrolling it, unrolling it to
 events, and reading the text back from the events.
 */
module Morse {
  import opened Callsign
  import opened MorseCode

  const MAX_U64 := 0xFFFF_FFFF_FFFF_FFFF

  type u64 = n: int | 0 <= n <= MAX_U64
  type u32 = n: int | 0 <= n <= 0xFFFF_FFFF

  const MAX_CHARACTERS := 32
  const MAX_DURATION := 3_600_000_000_000
  const MAX_EVENTS := 512
  const TAIL := 1000

  datatype Message = Message(mode: string, text: string, mark: u64, space: u64, dot: u64, dash: u64,
                             intraGap: u64, characterGap: u64, wordGap: u64, repeats: u32, repeatGap: u64)

  // ---------- One pass over the text ----------

  /** A mark or a gap; a gap without a frequency is silence. */
  datatype Element = Element(duration: u64, frequency: Tone)

  datatype Tone = Silent | At(nhz: u64)

  function MarkOf(m: Message, c: char): Element {
    Element(if m.mode == "dfcw" || c == '.' then m.dot else m.dash,
            At(if m.mode == "dfcw" && c == '-' then m.space else m.mark))
  }

  function GapOf(m: Message, duration: u64): Element {
    Element(duration, if m.mode == "fskcw" then At(m.space) else Silent)
  }

  /** The marks of a code and the gaps inside it. */
  function Marks(m: Message, code: string): (elements: seq<Element>)
    decreases |code|
  {
    if code == "" then []
    else [MarkOf(m, code[0])] + (if |code| > 1 then [GapOf(m, m.intraGap)] else []) + Marks(m, code[1..])
  }

  predicate AllSpaces(text: string) {
    forall i :: 0 <= i < |text| ==> Space(text[i])
  }

  /** The gap after a character with `rest` still to come. */
  function GapAfter(m: Message, rest: string): seq<Element> {
    if AllSpaces(rest) then []
    else [GapOf(m, if Space(rest[0]) then m.wordGap else m.characterGap)]
  }

  function Pattern(m: Message, text: string): (elements: seq<Element>)
    decreases |text|
  {
    if text == "" then []
    else if Space(text[0]) then Pattern(m, text[1..])
    else Marks(m, Code(text[0])) + GapAfter(m, text[1..]) + Pattern(m, text[1..])
  }

  function Duration(elements: seq<Element>): nat
    decreases |elements|
  {
    if elements == [] then 0 else elements[0].duration + Duration(elements[1..])
  }

  lemma {:induction false} DurationAppend(a: seq<Element>, b: seq<Element>)
    ensures Duration(a + b) == Duration(a) + Duration(b)
    decreases |a|
  {
    if a == [] {
      assert a + b == b;
    } else {
      assert (a + b)[1..] == a[1..] + b;
      DurationAppend(a[1..], b);
    }
  }

  // ---------- What is refused ----------

  datatype Refusal =
    | Length | Placeholder | Mode | Frequency | Timing | Character | NoMarks | Overflow | TooLong | TooMany

  function UpperText(text: string): (upper: string)
    ensures |upper| == |text|
  {
    seq(|text|, i requires 0 <= i < |text| => Upper(text[i]))
  }

  predicate LettersAt(upper: string, at: int) {
    0 <= at <= |upper| - 6 && upper[at..at + 6] == PLACEHOLDER
  }

  /** The placeholder callsign standing at `at` as a word of its own. */
  predicate PlaceholderAt(upper: string, at: int) {
    && LettersAt(upper, at)
    && (at == 0 || !Alnum(upper[at - 1])) && (at + 6 == |upper| || !Alnum(upper[at + 6]))
  }

  predicate BadFrequency(m: Message) {
    m.mark == 0 || (m.mode != "qrss" && (m.space == 0 || m.mark == m.space || (m.mode == "fskcw" && m.mark < m.space)))
  }

  predicate BadTiming(m: Message) {
    m.dot == 0 || m.dash == 0 || m.intraGap == 0 || m.characterGap == 0 || m.wordGap == 0
    || m.repeats == 0 || m.repeats > 512 || (m.repeats > 1 && m.repeatGap == 0)
  }

  predicate Keyed(text: string) {
    forall i :: 0 <= i < |text| ==> Space(text[i]) || Keyable(text[i])
  }

  datatype Verdict = Refused(reason: Refusal) | Measured(duration: nat, events: nat)

  /** The duration of the whole message, without a bound. */
  function Total(m: Message): nat
    requires m.repeats >= 1
  {
    Times(Duration(Pattern(m, m.text)), m.repeats) + Times(m.repeatGap, m.repeats - 1) + TAIL
  }

  function Times(a: nat, b: nat): nat { a * b }

  function Over(a: nat, b: nat): nat
    requires b > 0
  {
    a / b
  }

  function Min(a: nat, b: nat): nat { if a < b then a else b }

  datatype Check = Fine | Faulty(reason: Refusal)

  /** What is wrong with the input itself, in the order it is checked. */
  function InputCheck(m: Message): (check: Check)
    ensures check.Fine? ==> m.repeats >= 1
  {
    if m.text == "" || |m.text| > MAX_CHARACTERS then Faulty(Length)
    else if HasPlaceholder(UpperText(m.text)) then Faulty(Placeholder)
    else if m.mode != "qrss" && m.mode != "fskcw" && m.mode != "dfcw" then Faulty(Mode)
    else if BadFrequency(m) then Faulty(Frequency)
    else if BadTiming(m) then Faulty(Timing)
    else if !Keyed(m.text) then Faulty(Character)
    else Fine
  }

  predicate HasPlaceholder(upper: string) {
    exists at :: 0 <= at < |upper| && PlaceholderAt(upper, at)
  }

  function EventCount(m: Message): nat {
    Times(|Pattern(m, m.text)|, m.repeats) + m.repeats
  }

  /** The verdict in unbounded arithmetic: overflow means the total exceeds 64 bits. */
  function Judged(m: Message, eventLimit: nat, durationLimit: nat): Verdict {
    if InputCheck(m).Faulty? then Refused(InputCheck(m).reason)
    else if Pattern(m, m.text) == [] then Refused(NoMarks)
    else if Total(m) > MAX_U64 then Refused(Overflow)
    else if Total(m) > Min(durationLimit, MAX_DURATION) then Refused(TooLong)
    else if EventCount(m) > Min(eventLimit, MAX_EVENTS) then Refused(TooMany)
    else Measured(Total(m), EventCount(m))
  }

  // ---------- Measuring ----------

  datatype Tally = Tally(duration: u64, overflow: bool, events: nat)

  function Emit(t: Tally, duration: u64): Tally {
    if duration > MAX_U64 - t.duration then Tally(t.duration, true, t.events + 1)
    else Tally(t.duration + duration, t.overflow, t.events + 1)
  }

  /** The tally of these elements: exact until their sum leaves 64 bits. */
  predicate Tallies(t: Tally, elements: seq<Element>) {
    && t.events == |elements| && t.overflow == (Duration(elements) > MAX_U64)
    && t.duration <= Duration(elements) && (!t.overflow ==> t.duration == Duration(elements))
  }

  lemma EmitTallies(t: Tally, elements: seq<Element>, e: Element)
    requires Tallies(t, elements)
    ensures Tallies(Emit(t, e.duration), elements + [e])
  {
    DurationAppend(elements, [e]);
    assert Duration([e]) == e.duration + Duration([]);
  }

  /** Where the ink after `from` begins. */
  method SkipSpaces(text: string, from: nat) returns (next: nat)
    requires from <= |text|
    ensures from <= next <= |text| && AllSpaces(text[from..next])
    ensures next < |text| ==> !Space(text[next])
  {
    next := from;
    while next < |text| && Space(text[next])
      invariant from <= next <= |text| && forall i :: from <= i < next ==> Space(text[i])
    {
      next := next + 1;
    }
  }

  lemma GapFromSkip(m: Message, text: string, from: nat, next: nat)
    requires from <= next <= |text| && AllSpaces(text[from..next]) && (next < |text| ==> !Space(text[next]))
    ensures GapAfter(m, text[from..])
            == if next < |text| then [GapOf(m, if next == from then m.characterGap else m.wordGap)] else []
  {
    var rest := text[from..];
    if next < |text| {
      assert rest[next - from] == text[next];
      if next > from {
        assert text[from..next][0] == rest[0];
      }
    } else {
      assert text[from..next] == rest;
    }
  }

  lemma CodeStep(m: Message, done: seq<Element>, code: string, n: nat)
    requires n < |code|
    ensures var gap := if n + 1 < |code| then [GapOf(m, m.intraGap)] else [];
            done + Marks(m, code[n..]) == ((done + [MarkOf(m, code[n])]) + gap) + Marks(m, code[n + 1..])
  {
    assert code[n..][1..] == code[n + 1..];
    var gap := if n + 1 < |code| then [GapOf(m, m.intraGap)] else [];
    assert Marks(m, code[n..]) == [MarkOf(m, code[n])] + gap + Marks(m, code[n + 1..]);
  }

  lemma TextStep(m: Message, done: seq<Element>, text: string, i: nat)
    requires i < |text|
    ensures done + Pattern(m, text[i..])
            == if Space(text[i]) then done + Pattern(m, text[i + 1..])
               else ((done + Marks(m, Code(text[i]))) + GapAfter(m, text[i + 1..])) + Pattern(m, text[i + 1..])
  {
    assert text[i..][1..] == text[i + 1..];
  }

  method MeasurePattern(m: Message) returns (tally: Tally)
    ensures Tallies(tally, Pattern(m, m.text))
  {
    hide Tallies, Emit, Marks, Pattern, Space, Code, MarkOf, GapOf, GapAfter, AllSpaces;
    var text := m.text;
    tally := Tally(0, false, 0);
    ghost var done: seq<Element> := [];
    PatternStarts(m, tally);
    for i := 0 to |text|
      invariant Tallies(tally, done)
      invariant done + Pattern(m, text[i..]) == Pattern(m, text)
    {
      TextStep(m, done, text, i);
      if Space(text[i]) {
        continue;
      }
      var code := Code(text[i]);
      ghost var before := done;
      assert code[0..] == code;
      for n := 0 to |code|
        invariant Tallies(tally, done)
        invariant done + Marks(m, code[n..]) == before + Marks(m, code)
      {
        CodeStep(m, done, code, n);
        var mark := MarkOf(m, code[n]);
        EmitTallies(tally, done, mark);
        tally, done := Emit(tally, mark.duration), done + [mark];
        assert done + [] == done;
        if n + 1 < |code| {
          EmitTallies(tally, done, GapOf(m, m.intraGap));
          GapLasts(m, m.intraGap);
          tally, done := Emit(tally, m.intraGap), done + [GapOf(m, m.intraGap)];
        }
      }
      MarksEnd(m, code);
      assert done + [] == done;
      var next := SkipSpaces(text, i + 1);
      GapFromSkip(m, text, i + 1, next);
      if next < |text| {
        var gap := if next == i + 1 then m.characterGap else m.wordGap;
        EmitTallies(tally, done, GapOf(m, gap));
        GapLasts(m, gap);
        tally, done := Emit(tally, gap), done + [GapOf(m, gap)];
      }
    }
    PatternEnds(m, text);
    assert done + [] == done;
  }

  lemma PatternStarts(m: Message, tally: Tally)
    requires tally == Tally(0, false, 0)
    ensures Tallies(tally, []) && [] + Pattern(m, m.text[0..]) == Pattern(m, m.text)
  {
    assert m.text[0..] == m.text;
  }

  lemma PatternEnds(m: Message, text: string)
    ensures Pattern(m, text[|text|..]) == []
  {}

  lemma MarksEnd(m: Message, code: string)
    ensures Marks(m, code[|code|..]) == []
  {}

  lemma GapLasts(m: Message, gap: u64)
    ensures GapOf(m, gap).duration == gap
  {}

  /** The placeholder's next place at or after `from`, or -1. */
  method Find(upper: string, from: nat) returns (at: int)
    ensures -1 <= at && (at >= 0 ==> from <= at && LettersAt(upper, at))
    ensures forall i :: from <= i && (at < 0 || i < at) ==> !LettersAt(upper, i)
  {
    at := from;
    while at + 6 <= |upper|
      invariant from <= at
      invariant forall i :: from <= i < at ==> !LettersAt(upper, i)
      decreases |upper| - at
    {
      if upper[at..at + 6] == PLACEHOLDER {
        return;
      }
      at := at + 1;
    }
    at := -1;
  }

  method RefusesPlaceholder(upper: string) returns (refuses: bool)
    ensures refuses == HasPlaceholder(upper)
  {
    var at := Find(upper, 0);
    while at >= 0
      invariant -1 <= at && (at >= 0 ==> LettersAt(upper, at))
      invariant forall i :: 0 <= i && (at < 0 || i < at) ==> !PlaceholderAt(upper, i)
      decreases if at < 0 then 0 else |upper| - at
    {
      if (at == 0 || !Alnum(upper[at - 1])) && (at + 6 == |upper| || !Alnum(upper[at + 6])) {
        assert PlaceholderAt(upper, at);
        return true;
      }
      at := Find(upper, at + 1);
    }
    return false;
  }

  method CheckInput(m: Message) returns (check: Check)
    ensures check == InputCheck(m)
  {
    if m.text == "" || |m.text| > MAX_CHARACTERS {
      return Faulty(Length);
    }
    var placeholder := RefusesPlaceholder(UpperText(m.text));
    if placeholder {
      return Faulty(Placeholder);
    }
    if m.mode != "qrss" && m.mode != "fskcw" && m.mode != "dfcw" {
      return Faulty(Mode);
    }
    if BadFrequency(m) {
      return Faulty(Frequency);
    }
    if BadTiming(m) {
      return Faulty(Timing);
    }
    for i := 0 to |m.text|
      invariant forall j :: 0 <= j < i ==> Space(m.text[j]) || Keyable(m.text[j])
    {
      if !Space(m.text[i]) && !Keyable(m.text[i]) {
        return Faulty(Character);
      }
    }
    return Fine;
  }

  method Measure(m: Message, eventLimit: nat, durationLimit: nat) returns (verdict: Verdict)
    ensures verdict == Judged(m, eventLimit, durationLimit)
  {
    hide InputCheck, Pattern, Duration, Times, Over;
    var check := CheckInput(m);
    if check.Faulty? {
      return Refused(check.reason);
    }
    var tally := MeasurePattern(m);
    if tally.events == 0 {
      return Refused(NoMarks);
    }
    TotalBounds(m, tally);
    if tally.overflow || tally.duration > Over(MAX_U64, m.repeats)
       || (m.repeats > 1 && m.repeatGap > Over(MAX_U64, m.repeats - 1)) {
      return Refused(Overflow);
    }
    var repeated, gaps := Times(tally.duration, m.repeats), Times(m.repeatGap, m.repeats - 1);
    if gaps > MAX_U64 - repeated || TAIL > MAX_U64 - repeated - gaps {
      return Refused(Overflow);
    }
    var duration := repeated + gaps + TAIL;
    var events := Times(tally.events, m.repeats) + m.repeats;
    if duration > Min(durationLimit, MAX_DURATION) {
      return Refused(TooLong);
    }
    if events > Min(eventLimit, MAX_EVENTS) {
      return Refused(TooMany);
    }
    return Measured(duration, events);
  }

  lemma QuotientBound(a: nat, b: nat, limit: nat)
    requires b >= 1
    ensures a > limit / b <==> a * b > limit
  {
    var q, r := limit / b, limit % b;
    assert limit == b * q + r;
    if a > q {
      Product(a, q + 1, b);
      assert (q + 1) * b == b * q + b;
    } else {
      Product(q, a, b);
      assert q * b == b * q;
    }
  }

  lemma Product(a: nat, b: nat, c: nat)
    requires a >= b
    ensures a * c >= b * c
  {}

  /** The 64-bit tests decide exactly whether the unbounded total leaves 64 bits. */
  lemma TotalBounds(m: Message, tally: Tally)
    requires Tallies(tally, Pattern(m, m.text)) && m.repeats >= 1
    ensures tally.overflow ==> Total(m) > MAX_U64
    ensures !tally.overflow && tally.duration > Over(MAX_U64, m.repeats) ==> Total(m) > MAX_U64
    ensures m.repeats > 1 && m.repeatGap > Over(MAX_U64, m.repeats - 1) ==> Total(m) > MAX_U64
    ensures !tally.overflow && tally.duration <= Over(MAX_U64, m.repeats)
            ==> Times(tally.duration, m.repeats) <= MAX_U64
  {
    hide Pattern, Duration;
    var once, r := Duration(Pattern(m, m.text)), m.repeats;
    QuotientBound(tally.duration, r, MAX_U64);
    if r > 1 {
      QuotientBound(m.repeatGap, r - 1, MAX_U64);
    }
    Product(r, 1, once);
    assert once * r == r * once;
    assert m.repeatGap * (r - 1) >= 0;
  }

  // ---------- Unrolling ----------

  datatype Event = Event(offset: u64, duration: u64, frequency: Tone)

  /** Elements laid end to end from an offset. */
  function Placed(elements: seq<Element>, offset: nat): (events: seq<Event>)
    requires offset + Duration(elements) <= MAX_U64
    ensures |events| == |elements|
    decreases |elements|
  {
    if elements == [] then []
    else [Event(offset, elements[0].duration, elements[0].frequency)]
         + Placed(elements[1..], offset + elements[0].duration)
  }

  /** The first k repetitions, with the gap that follows all but the last of them. */
  function Repetitions(m: Message, k: nat): seq<Element>
    requires k <= m.repeats
  {
    if k == 0 then []
    else Repetitions(m, k - 1) + Pattern(m, m.text) + (if k < m.repeats then [Element(m.repeatGap, Silent)] else [])
  }

  function Whole(m: Message): seq<Element>
    requires m.repeats >= 1
  {
    Repetitions(m, m.repeats) + [Element(TAIL, Silent)]
  }

  lemma {:induction false} RepetitionsMeasure(m: Message, k: nat)
    requires k <= m.repeats
    ensures var gaps := if k < m.repeats || k == 0 then k else k - 1;
            && |Repetitions(m, k)| == |Pattern(m, m.text)| * k + gaps
            && Duration(Repetitions(m, k)) == Duration(Pattern(m, m.text)) * k + m.repeatGap * gaps
  {
    hide Pattern;
    if k == 0 {
    } else {
      RepetitionsMeasure(m, k - 1);
      var before, once := Repetitions(m, k - 1), Pattern(m, m.text);
      var gap := if k < m.repeats then [Element(m.repeatGap, Silent)] else [];
      DurationAppend(before + once, gap);
      DurationAppend(before, once);
      assert Duration(gap) == if k < m.repeats then m.repeatGap else 0;
      Distribute(|once|, k);
      Distribute(Duration(once), k);
      Distribute(m.repeatGap, k);
    }
  }

  lemma Distribute(a: nat, k: nat)
    requires k >= 1
    ensures a * k == a * (k - 1) + a
  {}

  /** The unrolled list is as long as was measured, in events and in time. */
  lemma WholeMeasures(m: Message)
    requires m.repeats >= 1
    ensures Duration(Whole(m)) == Total(m) && |Whole(m)| == EventCount(m)
  {
    hide Pattern;
    RepetitionsMeasure(m, m.repeats);
    DurationAppend(Repetitions(m, m.repeats), [Element(TAIL, Silent)]);
    assert Duration([Element(TAIL, Silent)]) == TAIL;
  }

  datatype Failure = NoFailure | LimitExceeded | AllocationFailed

  const PAGE_EVENTS := 64

  /** The pages that so many events take. */
  function Needed(count: nat): nat { (count + PAGE_EVENTS - 1) / PAGE_EVENTS }

  /** Bounded pages of events, allocated in order; `memory` is how many more pages the
      allocator can give. */
  class EventList {
    var events: seq<Event>
    var pages: nat
    var failure: Failure

    predicate Valid()
      reads this
    {
      |events| <= PAGE_EVENTS * pages && pages <= Needed(MAX_EVENTS)
    }

    constructor ()
      ensures Valid() && events == [] && pages == 0 && failure == NoFailure
    {
      events, pages, failure := [], 0, NoFailure;
    }

    method Reserve(count: nat, memory: nat) returns (ok: bool)
      requires Valid()
      modifies this
      ensures Valid() && events == old(events)
      ensures ok <==> count <= MAX_EVENTS && Needed(count) <= old(pages) + memory
      ensures ok ==> count <= PAGE_EVENTS * pages
      ensures pages == if count > MAX_EVENTS || Needed(count) <= old(pages) then old(pages)
                       else Min(Needed(count), old(pages) + memory)
      ensures failure == if ok then old(failure)
                         else if count > MAX_EVENTS then LimitExceeded else AllocationFailed
    {
      if count > MAX_EVENTS {
        failure := LimitExceeded;
        return false;
      }
      var needed := Needed(count);
      var had := pages;
      for page := 0 to needed
        invariant Valid() && events == old(events) && failure == old(failure)
        invariant pages == if page <= had then had else page
        invariant pages <= had + memory
      {
        if page < pages {
          continue;
        }
        if page - had == memory {
          failure := AllocationFailed;
          return false;
        }
        pages := page + 1;
      }
      return true;
    }

    method PushBack(value: Event, memory: nat) returns (ok: bool)
      requires Valid()
      modifies this
      ensures Valid() && pages >= old(pages)
      ensures ok <==> |old(events)| < MAX_EVENTS && Needed(|old(events)| + 1) <= old(pages) + memory
      ensures events == if ok then old(events) + [value] else old(events)
      ensures failure == if ok then old(failure)
                         else if |old(events)| < MAX_EVENTS then AllocationFailed
                         else if old(failure) == NoFailure then LimitExceeded else old(failure)
    {
      ok := false;
      if |events| < MAX_EVENTS {
        ok := Reserve(|events| + 1, memory);
      }
      if !ok {
        if failure == NoFailure { failure := LimitExceeded; }
        return;
      }
      events := events + [value];
    }
  }

  datatype Compiled = Rejected(reason: Refusal) | Exhausted | Job(total: u64, events: seq<Event>)

  predicate Fits(list: EventList, offset: nat, whole: seq<Element>, done: seq<Element>, rest: seq<Element>)
    reads list
  {
    && list.Valid() && |whole| <= PAGE_EVENTS * list.pages && |whole| <= MAX_EVENTS && Duration(whole) <= MAX_U64
    && done + rest == whole && offset == Duration(done) && Duration(done) <= MAX_U64
    && list.events == Placed(done, 0)
  }

  lemma {:induction false} PlacedAppend(elements: seq<Element>, e: Element, offset: nat)
    requires offset + Duration(elements) + e.duration <= MAX_U64
    ensures Duration(elements + [e]) == Duration(elements) + e.duration
    ensures Placed(elements + [e], offset)
            == Placed(elements, offset) + [Event(offset + Duration(elements), e.duration, e.frequency)]
    decreases |elements|
  {
    DurationAppend(elements, [e]);
    assert Duration([e]) == e.duration + Duration([]);
    if elements == [] {
      assert elements + [e] == [e];
    } else {
      assert (elements + [e])[1..] == elements[1..] + [e];
      PlacedAppend(elements[1..], e, offset + elements[0].duration);
    }
  }

  /** One emitted event: it is stored without asking for memory again, and the offset does not wrap. */
  method EmitEvent(list: EventList, offset0: u64, e: Element, more: nat, ghost whole: seq<Element>,
                   ghost done: seq<Element>, ghost rest: seq<Element>)
    returns (offset: u64, stored: bool)
    requires Fits(list, offset0, whole, done, [e] + rest)
    modifies list
    ensures stored && Fits(list, offset, whole, done + [e], rest)
  {
    assert (done + [e]) + rest == whole;
    DurationAppend(done + [e], rest);
    DurationAppend(done, [e]);
    assert Duration([e]) == e.duration + Duration([]);
    PlacedAppend(done, e, 0);
    stored := list.PushBack(Event(offset0, e.duration, e.frequency), more);
    offset := (offset0 + e.duration) % (MAX_U64 + 1);
  }

  /** The marks of one character, with the gaps between them. */
  method UnrollCode(m: Message, list: EventList, offset0: u64, code: string, more: nat, ghost whole: seq<Element>,
                    ghost start: seq<Element>, ghost rest: seq<Element>)
    returns (offset: u64, stored: bool)
    requires Fits(list, offset0, whole, start, Marks(m, code) + rest)
    modifies list
    ensures stored && Fits(list, offset, whole, start + Marks(m, code), rest)
  {
    hide Fits, Marks, MarkOf, GapOf, Duration;
    offset, stored := offset0, true;
    ghost var done := start;
    assert code[0..] == code;
    for n := 0 to |code|
      invariant stored && Fits(list, offset, whole, done, Marks(m, code[n..]) + rest)
      invariant done + Marks(m, code[n..]) == start + Marks(m, code)
    {
      CodeStep(m, done, code, n);
      ghost var later := Marks(m, code[n + 1..]) + rest;
      ghost var gap := if n + 1 < |code| then [GapOf(m, m.intraGap)] else [];
      MarksStep(m, code, n);
      assert Marks(m, code[n..]) + rest == [MarkOf(m, code[n])] + (gap + later);
      offset, stored := EmitEvent(list, offset, MarkOf(m, code[n]), more, whole, done, gap + later);
      done := done + [MarkOf(m, code[n])];
      assert done + [] == done && [] + later == later;
      if n + 1 < |code| {
        offset, stored := EmitEvent(list, offset, GapOf(m, m.intraGap), more, whole, done, later);
        done := done + [GapOf(m, m.intraGap)];
      }
    }
    MarksEnd(m, code);
    assert done + [] == done && [] + rest == rest;
  }

  method UnrollPattern(m: Message, list: EventList, offset0: u64, more: nat, ghost whole: seq<Element>,
                       ghost before: seq<Element>, ghost after: seq<Element>)
    returns (offset: u64, stored: bool)
    requires Fits(list, offset0, whole, before, Pattern(m, m.text) + after)
    modifies list
    ensures stored && Fits(list, offset, whole, before + Pattern(m, m.text), after)
  {
    hide Fits, Marks, Pattern, Space, Code, MarkOf, GapOf, GapAfter, AllSpaces, Duration;
    var text := m.text;
    offset, stored := offset0, true;
    ghost var done: seq<Element> := before;
    assert text[0..] == text;
    for i := 0 to |text|
      invariant stored && Fits(list, offset, whole, done, Pattern(m, text[i..]) + after)
      invariant done + Pattern(m, text[i..]) == before + Pattern(m, text)
    {
      TextStep(m, done, text, i);
      PatternStep(m, text, i);
      if Space(text[i]) {
        continue;
      }
      var code := Code(text[i]);
      ghost var gaps := GapAfter(m, text[i + 1..]);
      ghost var rest := gaps + (Pattern(m, text[i + 1..]) + after);
      assert Pattern(m, text[i..]) + after == Marks(m, code) + rest;
      offset, stored := UnrollCode(m, list, offset, code, more, whole, done, rest);
      done := done + Marks(m, code);
      var next := SkipSpaces(text, i + 1);
      GapFromSkip(m, text, i + 1, next);
      ghost var tail := Pattern(m, text[i + 1..]) + after;
      assert [] + tail == tail;
      if next < |text| {
        var gap := GapOf(m, if next == i + 1 then m.characterGap else m.wordGap);
        offset, stored := EmitEvent(list, offset, gap, more, whole, done, tail);
        done := done + [gap];
      }
    }
    PatternEnds(m, text);
    assert done + [] == done && [] + after == after;
  }

  lemma PatternStep(m: Message, text: string, i: nat)
    requires i < |text|
    ensures Pattern(m, text[i..])
            == if Space(text[i]) then Pattern(m, text[i + 1..])
               else Marks(m, Code(text[i])) + GapAfter(m, text[i + 1..]) + Pattern(m, text[i + 1..])
  {
    assert text[i..][1..] == text[i + 1..];
  }

  lemma MarksStep(m: Message, code: string, n: nat)
    requires n < |code|
    ensures Marks(m, code[n..]) == [MarkOf(m, code[n])] + (if n + 1 < |code| then [GapOf(m, m.intraGap)] else [])
                                   + Marks(m, code[n + 1..])
  {
    assert code[n..][1..] == code[n + 1..];
  }

  /** `memory` is what the allocator can give for the one reservation, `more` what it could
      give for any later request. */
  method Compile(m: Message, eventLimit: nat, durationLimit: nat, memory: nat, more: nat) returns (result: Compiled)
    ensures match Judged(m, eventLimit, durationLimit)
            case Refused(reason) => result == Rejected(reason)
            case Measured(duration, events) =>
              Duration(Whole(m)) == duration == Total(m) <= MAX_U64 && |Whole(m)| == events <= MAX_EVENTS
              && result == if Needed(events) <= memory then Job(duration, Placed(Whole(m), 0)) else Exhausted
  {
    hide Pattern, Duration, Fits, Whole, InputCheck;
    var verdict := Measure(m, eventLimit, durationLimit);
    if verdict.Refused? {
      return Rejected(verdict.reason);
    }
    WholeMeasures(m);
    ghost var whole := Whole(m);
    var list := new EventList();
    var reserved := list.Reserve(verdict.events, memory);
    if !reserved {
      return Exhausted;
    }
    var offset, stored := 0, true;
    FitsStart(m, list);
    for k := 0 to m.repeats
      invariant stored && Fits(list, offset, whole, Repetitions(m, k), Remaining(m, k))
    {
      RemainingStep(m, k);
      ghost var before, once := Repetitions(m, k), Pattern(m, m.text);
      ghost var gap := if k + 1 < m.repeats then [Element(m.repeatGap, Silent)] else [];
      ghost var later := Remaining(m, k + 1);
      var ok;
      offset, ok := UnrollPattern(m, list, offset, more, whole, before, gap + later);
      stored := stored && ok;
      assert (before + once) + [] == before + once && [] + later == later;
      if k + 1 < m.repeats {
        offset, ok := EmitEvent(list, offset, Element(m.repeatGap, Silent), more, whole, before + once, later);
        stored := stored && ok;
      }
    }
    FitsEnd(m, list, offset);
    var done;
    offset, done := EmitEvent(list, offset, Element(TAIL, Silent), more, whole, Repetitions(m, m.repeats), []);
    if !stored || !done {
      return Exhausted;
    }
    WholeFits(m, list, offset);
    result := Job(verdict.duration, list.events);
  }

  /** The elements from repetition k on. */
  function Remaining(m: Message, k: nat): seq<Element>
    requires k <= m.repeats
    decreases m.repeats - k
  {
    if k == m.repeats then [Element(TAIL, Silent)]
    else Pattern(m, m.text) + ((if k + 1 < m.repeats then [Element(m.repeatGap, Silent)] else []) + Remaining(m, k + 1))
  }

  lemma RemainingStep(m: Message, k: nat)
    requires k < m.repeats
    ensures var gap := if k + 1 < m.repeats then [Element(m.repeatGap, Silent)] else [];
            && Remaining(m, k) == Pattern(m, m.text) + (gap + Remaining(m, k + 1))
            && Repetitions(m, k + 1) == (Repetitions(m, k) + Pattern(m, m.text)) + gap
  {}

  lemma {:induction false} RemainingCompletes(m: Message, k: nat)
    requires k <= m.repeats && m.repeats >= 1
    ensures Repetitions(m, k) + Remaining(m, k) == Whole(m)
    decreases m.repeats - k
  {
    hide Pattern;
    if k == m.repeats {
    } else {
      RemainingStep(m, k);
      RemainingCompletes(m, k + 1);
      var gap := if k + 1 < m.repeats then [Element(m.repeatGap, Silent)] else [];
      var a, b, c := Repetitions(m, k), Pattern(m, m.text), Remaining(m, k + 1);
      assert a + (b + (gap + c)) == ((a + b) + gap) + c;
    }
  }

  lemma FitsStart(m: Message, list: EventList)
    requires m.repeats >= 1 && list.Valid() && list.events == []
    requires |Whole(m)| <= PAGE_EVENTS * list.pages && |Whole(m)| <= MAX_EVENTS && Duration(Whole(m)) <= MAX_U64
    ensures Fits(list, 0, Whole(m), Repetitions(m, 0), Remaining(m, 0))
  {
    RemainingCompletes(m, 0);
  }

  lemma FitsEnd(m: Message, list: EventList, offset: nat)
    requires m.repeats >= 1 && Fits(list, offset, Whole(m), Repetitions(m, m.repeats), Remaining(m, m.repeats))
    ensures Fits(list, offset, Whole(m), Repetitions(m, m.repeats), [Element(TAIL, Silent)] + [])
  {
    assert [Element(TAIL, Silent)] + [] == [Element(TAIL, Silent)];
  }

  lemma WholeFits(m: Message, list: EventList, offset: nat)
    requires m.repeats >= 1
    requires Fits(list, offset, Whole(m), Repetitions(m, m.repeats) + [Element(TAIL, Silent)], [])
    ensures Duration(Whole(m)) <= MAX_U64 && list.events == Placed(Whole(m), 0)
  {}
}
