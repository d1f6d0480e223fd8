/**
 A receiver of compiled messages. It knows the settings and the alphabet and nothing of
 the compiler: it compares durations and frequencies.
 */
module MorseReceiver {
  import opened MorseCode
  import opened Morse
  import opened MorseReading

  // ---------- The receiver ----------

  datatype Pause = InCharacter | InWord | BetweenWords | Unknown

  function HeardMark(m: Message, e: Element): char {
    if m.mode == "dfcw" then
      if e == Element(m.dot, At(m.mark)) then '.' else if e == Element(m.dot, At(m.space)) then '-' else '?'
    else
      if e == Element(m.dot, At(m.mark)) then '.' else if e == Element(m.dash, At(m.mark)) then '-' else '?'
  }

  function HeardPause(m: Message, e: Element): Pause {
    var tone := if m.mode == "fskcw" then At(m.space) else Silent;
    if e == Element(m.intraGap, tone) then InCharacter
    else if e == Element(m.characterGap, tone) then InWord
    else if e == Element(m.wordGap, tone) then BetweenWords
    else Unknown
  }

  /** Marks and pauses in turn, `code` being what is heard of the character so far. */
  function Received(m: Message, elements: seq<Element>, code: string): string
    decreases |elements|
  {
    if elements == [] then ""
    else
      var longer := code + [HeardMark(m, elements[0])];
      if |elements| == 1 then [AtKey(Key(longer))]
      else
        match HeardPause(m, elements[1])
        case InCharacter => Received(m, elements[2..], longer)
        case InWord => [AtKey(Key(longer))] + Received(m, elements[2..], "")
        case BetweenWords => [AtKey(Key(longer)), ' '] + Received(m, elements[2..], "")
        case Unknown => "?"
  }

  function Heard(events: seq<Event>): (elements: seq<Element>)
    ensures |elements| == |events|
  {
    seq(|events|, i requires 0 <= i < |events| => Element(events[i].duration, events[i].frequency))
  }

  // ---------- What the compiler keys, under any settings ----------

  /** How long each mark lasts and at which frequency, and what sounds in the gaps. */
  lemma KeyedAs(m: Message, gap: u64)
    ensures m.mode != "dfcw" ==> MarkOf(m, '.') == Element(m.dot, At(m.mark))
    ensures m.mode != "dfcw" ==> MarkOf(m, '-') == Element(m.dash, At(m.mark))
    ensures m.mode == "dfcw" ==> MarkOf(m, '.') == Element(m.dot, At(m.mark))
    ensures m.mode == "dfcw" ==> MarkOf(m, '-') == Element(m.dot, At(m.space))
    ensures m.mode == "fskcw" ==> GapOf(m, gap) == Element(gap, At(m.space))
    ensures m.mode != "fskcw" ==> GapOf(m, gap) == Element(gap, Silent)
  {}

  // ---------- The text is received ----------

  lemma MarkIsHeard(m: Message, c: char)
    requires Distinguishable(m) && (c == '.' || c == '-')
    ensures HeardMark(m, MarkOf(m, c)) == c
  {}

  lemma PausesAreHeard(m: Message)
    requires Distinguishable(m)
    ensures HeardPause(m, GapOf(m, m.intraGap)) == InCharacter
    ensures HeardPause(m, GapOf(m, m.characterGap)) == InWord
    ensures HeardPause(m, GapOf(m, m.wordGap)) == BetweenWords
  {}

  function BlankFor(m: Message, gap: Element): string {
    if gap == GapOf(m, m.wordGap) then " " else ""
  }

  /** What the rest of a text adds once its first character is complete. */
  function After(m: Message, rest: seq<Element>): string {
    if rest == [] then "" else BlankFor(m, rest[0]) + Received(m, rest[1..], "")
  }

  lemma {:induction false} CodeIsReceived(m: Message, code: string, n: nat, rest: seq<Element>)
    requires Distinguishable(m) && DotsAndDashes(code) && n < |code| && Follows(m, rest)
    ensures Received(m, Marks(m, code[n..]) + rest, code[..n]) == [AtKey(Key(code))] + After(m, rest)
    decreases |code| - n
  {
    var all := Marks(m, code[n..]) + rest;
    MarksSplit(m, code[n..], rest);
    MarkIsHeard(m, code[n]);
    PausesAreHeard(m);
    assert code[..n] + [code[n]] == code[..n + 1];
    hide HeardMark, HeardPause, Marks, MarkOf, GapOf, Key, AtKey, Distinguishable;
    if n + 1 < |code| {
      assert code[n..][1..] == code[n + 1..];
      CodeIsReceived(m, code, n + 1, rest);
    } else {
      assert code[..n + 1] == code;
      LastIsReceived(m, all, code[..n], code, rest);
    }
  }

  /** The last mark of a character, with a pause or the end behind it. */
  lemma LastIsReceived(m: Message, all: seq<Element>, sofar: string, code: string, rest: seq<Element>)
    requires Distinguishable(m) && all != [] && all[1..] == rest && Follows(m, rest)
    requires sofar + [HeardMark(m, all[0])] == code
    ensures Received(m, all, sofar) == [AtKey(Key(code))] + After(m, rest)
  {
    PausesAreHeard(m);
    hide HeardMark, HeardPause, MarkOf, GapOf, Key, AtKey, Distinguishable;
    if rest == [] {
      assert [AtKey(Key(code))] + "" == [AtKey(Key(code))];
    } else {
      assert all[1] == rest[0] && all[2..] == rest[1..];
      var later := Received(m, rest[1..], "");
      assert [AtKey(Key(code)), ' '] + later == [AtKey(Key(code))] + (" " + later);
      assert "" + later == later;
    }
  }

  /** Under distinguishable settings the elements of any text of known characters are
      received as its normal form. */
  lemma {:induction false} TextIsReceived(m: Message, text: string)
    requires Distinguishable(m) && Keyed(text)
    ensures Received(m, Pattern(m, text), "") == Normal(text)
    decreases |text|
  {
    hide Received, Marks, Code, Space, Upper, Distinguishable;
    if text == "" {
      NothingReceived(m);
    } else {
      var rest := text[1..];
      assert Keyed(rest);
      TextIsReceived(m, rest);
      if !Space(text[0]) {
        InkIsReceived(m, text);
      }
    }
  }

  lemma NothingReceived(m: Message)
    ensures Received(m, [], "") == ""
  {}

  lemma CharacterIsReceived(m: Message, c: char, rest: seq<Element>)
    requires Distinguishable(m) && Follows(m, rest) && !Space(c) && Keyable(c)
    ensures Received(m, Marks(m, Code(c)) + rest, "") == [Upper(c)] + After(m, rest)
  {
    CodeIsKeyed(c);
    CharacterIsKnown(c);
    var code := Code(c);
    assert code[0..] == code && code[..0] == "";
    hide Marks, Code, Received, AtKey, Key, Follows, After, Upper, Distinguishable;
    CodeIsReceived(m, code, 0, rest);
  }

  lemma InkIsReceived(m: Message, text: string)
    requires Distinguishable(m) && Keyed(text) && text != "" && !Space(text[0])
    requires Received(m, Pattern(m, text[1..]), "") == Normal(text[1..])
    ensures Received(m, Pattern(m, text), "") == [Upper(text[0])] + BlankAfter(text[1..]) + Normal(text[1..])
  {
    var c, rest := text[0], text[1..];
    PatternIsMarksAndTail(m, text);
    TailFollows(m, rest);
    assert Keyable(c);
    hide *;
    CharacterIsReceived(m, c, Tail(m, rest));
    TailIsReceived(m, rest);
    Joins([Upper(c)], BlankAfter(rest), Normal(rest));
  }

  lemma Joins(a: string, b: string, c: string)
    ensures a + (b + c) == a + b + c
  {}

  lemma CharacterIsKnown(c: char)
    requires Code(c) != ""
    ensures AtKey(Key(Code(c))) == Upper(c)
  {
    TableReadsBack(Upper(c));
  }

  lemma TailIsReceived(m: Message, rest: string)
    requires Distinguishable(m) && Received(m, Pattern(m, rest), "") == Normal(rest)
    ensures After(m, Tail(m, rest)) == BlankAfter(rest) + Normal(rest)
  {
    TailFollows(m, rest);
    if AllSpaces(rest) {
      SpacesAreSilent(m, rest);
    } else {
      var gap := GapAfter(m, rest)[0];
      assert Tail(m, rest)[0] == gap && Tail(m, rest)[1..] == Pattern(m, rest);
    }
    hide Pattern, Received, AllSpaces;
  }

  // ---------- The events of a compiled message ----------

  lemma HeardPlaced(elements: seq<Element>, offset: nat)
    requires offset + Duration(elements) <= MAX_U64
    ensures Heard(Placed(elements, offset)) == elements
  {
    forall i | 0 <= i < |elements| ensures Heard(Placed(elements, offset))[i] == elements[i] {
      PlacedAt(elements, offset, i);
    }
    hide Placed, Duration;
  }

  /** The k-th repetition and the gap behind it. */
  lemma RepetitionAt(m: Message, k: nat)
    requires k < m.repeats
    ensures
      var once, start := Pattern(m, m.text), |Repetitions(m, k)|;
      && start + |once| < |Whole(m)|
      && Whole(m)[start..start + |once|] == once
      && Whole(m)[start + |once|] == Element(if k + 1 < m.repeats then m.repeatGap else TAIL, Silent)
  {
    hide Pattern, Duration;
    RemainingCompletes(m, k);
    RemainingStep(m, k);
    var once, before := Pattern(m, m.text), Repetitions(m, k);
    var later := (if k + 1 < m.repeats then [Element(m.repeatGap, Silent)] else []) + Remaining(m, k + 1);
    assert later[0] == Element(if k + 1 < m.repeats then m.repeatGap else TAIL, Silent);
    hide Repetitions, Remaining, Whole;
    assert Whole(m) == before + (once + later);
  }

  lemma AtLeastOnce(k: nat, d: nat)
    requires k >= 1
    ensures Times(k, d) >= d
  {
    var before := k - 1;
    assert k * d == before * d + d;
  }

  lemma TimesJoin(a: nat, b: nat, d: nat)
    ensures Times(a + b, d) == Times(a, d) + Times(b, d)
  {}

  /** A multiple is divided without a rest. */
  lemma PeriodIs(n: nat, d: nat)
    requires d >= 1
    ensures Over(Times(n, d), d) == n
  {
    var q, r := Over(Times(n, d), d), Times(n, d) % d;
    assert Times(n, d) == Times(q, d) + r;
    hide Times, Over;
    if q < n {
      TimesJoin(q, n - q, d);
      AtLeastOnce(n - q, d);
    } else if q > n {
      TimesJoin(n, q - n, d);
      AtLeastOnce(q - n, d);
    }
  }

  lemma StartIs(n: nat, k: nat)
    ensures Times(n + 1, k) == n * k + k
  {}

  /** The events of the k-th repetition; the receiver counts them and knows the repeats. */
  function Period(m: Message, events: seq<Event>): nat
    requires m.repeats >= 1
  {
    Over(|events|, m.repeats)
  }

  lemma PeriodOf(m: Message)
    requires m.repeats >= 1 && Duration(Whole(m)) <= MAX_U64
    ensures Period(m, Placed(Whole(m), 0)) == |Pattern(m, m.text)| + 1
  {
    WholeMeasures(m);
    hide Pattern, Duration, Whole, Placed;
    var n := |Pattern(m, m.text)|;
    StartIs(n, m.repeats);
    PeriodIs(n + 1, m.repeats);
  }

  lemma RepetitionStart(m: Message, k: nat)
    requires k < m.repeats
    ensures |Repetitions(m, k)| == Times(|Pattern(m, m.text)| + 1, k)
  {
    hide Pattern, Duration;
    RepetitionsMeasure(m, k);
    StartIs(|Pattern(m, m.text)|, k);
  }

  /** From `start` on, one repetition is received as its normal text and followed by its gap. */
  predicate Says(m: Message, events: seq<Event>, start: nat, period: nat, gap: nat)
  {
    && 0 < period && start + period <= |events|
    && Received(m, Heard(events[start..start + period - 1]), "") == Normal(m.text)
    && events[start + period - 1].frequency == Silent && events[start + period - 1].duration == gap
  }

  lemma RepetitionIsReceived(m: Message, events: seq<Event>, k: nat)
    requires k < m.repeats && Distinguishable(m) && Keyed(m.text) && Heard(events) == Whole(m)
    ensures var n := |Pattern(m, m.text)|;
            Says(m, events, Times(n + 1, k), n + 1, if k + 1 < m.repeats then m.repeatGap else 1000)
  {
    hide Pattern, Whole, Received, Normal, Keyed, Distinguishable, Repetitions, Heard, Duration, Says;
    hide Times;
    var n, start := |Pattern(m, m.text)|, |Repetitions(m, k)|;
    RepetitionStart(m, k);
    RepetitionAt(m, k);
    TextIsReceived(m, m.text);
    SliceIsHeard(events, start, n, Whole(m));
    SaysFrom(m, events, start, n, if k + 1 < m.repeats then m.repeatGap else 1000);
  }

  lemma SaysFrom(m: Message, events: seq<Event>, start: nat, n: nat, gap: nat)
    requires start + n < |events| && Received(m, Heard(events[start..start + n]), "") == Normal(m.text)
    requires events[start + n].frequency == Silent && events[start + n].duration == gap
    ensures Says(m, events, start, n + 1, gap)
  {
    hide Received, Heard, Normal;
  }

  lemma AcceptedFits(m: Message, eventLimit: nat, durationLimit: nat)
    requires Judged(m, eventLimit, durationLimit).Measured?
    ensures m.repeats >= 1 && Keyed(m.text) && Duration(Whole(m)) <= MAX_U64
  {
    hide Pattern, Whole, Duration, Total, EventCount;
    AcceptedIsInk(m, eventLimit, durationLimit);
    WholeMeasures(m);
  }

  /** Every repetition of an accepted message is received as its normal text, and is followed
      by a silent gap: the repeat gap, or 1000 ns after the last. */
  lemma EveryRepetitionIsReceived(m: Message, eventLimit: nat, durationLimit: nat, k: nat)
    requires Judged(m, eventLimit, durationLimit).Measured? && Distinguishable(m) && k < m.repeats
    ensures Duration(Whole(m)) <= MAX_U64
    ensures var events := Placed(Whole(m), 0);
            Says(m, events, Times(Period(m, events), k), Period(m, events),
                 if k + 1 < m.repeats then m.repeatGap else 1000)
  {
    hide *;
    AcceptedFits(m, eventLimit, durationLimit);
    PeriodOf(m);
    HeardPlaced(Whole(m), 0);
    RepetitionIsReceived(m, Placed(Whole(m), 0), k);
  }

  lemma SliceIsHeard(events: seq<Event>, start: nat, n: nat, elements: seq<Element>)
    requires Heard(events) == elements && start + n < |events|
    ensures Heard(events[start..start + n]) == elements[start..start + n]
    ensures elements[start + n] == Element(events[start + n].duration, events[start + n].frequency)
  {}
}
