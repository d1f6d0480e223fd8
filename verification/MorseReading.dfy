/**
 What a compiled message says: its events in time, and exactly when its text can be
 read back from them.
 */
module MorseReading {
  import opened MorseCode
  import opened Morse

  // ---------- The events in time ----------

  lemma {:induction false} PlacedAt(elements: seq<Element>, offset: nat, i: nat)
    requires offset + Duration(elements) <= MAX_U64 && i < |elements|
    ensures var event := Placed(elements, offset)[i];
            && event.offset == offset + Duration(elements[..i])
            && event.duration == elements[i].duration && event.frequency == elements[i].frequency
    decreases |elements|
  {
    if i == 0 {
    } else {
      PlacedAt(elements[1..], offset + elements[0].duration, i - 1);
      assert elements[..i][1..] == elements[1..][..i - 1];
    }
  }

  lemma DurationTo(elements: seq<Element>, i: nat)
    requires i < |elements|
    ensures Duration(elements[..i + 1]) == Duration(elements[..i]) + elements[i].duration
  {
    assert elements[..i + 1] == elements[..i] + [elements[i]];
    DurationAppend(elements[..i], [elements[i]]);
    assert Duration([elements[i]]) == elements[i].duration + Duration([]);
  }

  /** Marks and gaps, whatever the keying mode makes of them on the air. */
  predicate IsMark(m: Message, e: Element) {
    e == MarkOf(m, '.') || e == MarkOf(m, '-')
  }

  predicate IsGap(m: Message, e: Element) {
    || e == GapOf(m, m.intraGap) || e == GapOf(m, m.characterGap) || e == GapOf(m, m.wordGap)
    || e == Element(m.repeatGap, Silent) || e == Element(TAIL, Silent)
  }

  predicate Even(i: int) { i % 2 == 0 }

  predicate Alternates(m: Message, elements: seq<Element>) {
    forall i :: 0 <= i < |elements| ==> if Even(i) then IsMark(m, elements[i]) else IsGap(m, elements[i])
  }

  lemma EvenShift(i: int, shift: int)
    requires shift % 2 == 0
    ensures Even(i - shift) == Even(i)
  {}

  lemma AlternatesAppend(m: Message, a: seq<Element>, b: seq<Element>)
    requires Alternates(m, a) && Alternates(m, b) && |a| % 2 == 0
    ensures Alternates(m, a + b)
  {
    hide IsMark, IsGap, Even;
    forall i | 0 <= i < |a + b| ensures if Even(i) then IsMark(m, (a + b)[i]) else IsGap(m, (a + b)[i]) {
      if i >= |a| {
        EvenShift(i, |a|);
        assert (a + b)[i] == b[i - |a|];
      }
    }
  }

  lemma AlternatesGap(m: Message, a: seq<Element>, gap: Element)
    requires Alternates(m, a) && |a| % 2 == 1 && IsGap(m, gap)
    ensures Alternates(m, a + [gap])
  {
    hide IsMark, IsGap;
  }

  lemma {:induction false} MarksAlternate(m: Message, code: string)
    requires code != "" && DotsAndDashes(code)
    ensures Alternates(m, Marks(m, code)) && |Marks(m, code)| % 2 == 1
    decreases |code|
  {
    hide MarkOf, GapOf;
    var mark := [MarkOf(m, code[0])];
    if |code| > 1 {
      MarksAlternate(m, code[1..]);
      AlternatesGap(m, mark, GapOf(m, m.intraGap));
      AlternatesAppend(m, mark + [GapOf(m, m.intraGap)], Marks(m, code[1..]));
    } else {
      assert Marks(m, code[1..]) == [] && mark + [] + [] == mark;
    }
  }

  lemma {:induction false} PatternAlternates(m: Message, text: string)
    requires Keyed(text)
    ensures Alternates(m, Pattern(m, text))
    ensures if AllSpaces(text) then Pattern(m, text) == [] else |Pattern(m, text)| % 2 == 1
    decreases |text|
  {
    hide MarkOf, GapOf, Space, Code, Keyable;
    if text == "" {
    } else {
      var rest := text[1..];
      assert text == [text[0]] + rest;
      PatternAlternates(m, rest);
      if Space(text[0]) {
        assert AllSpaces(text) == AllSpaces(rest);
      } else {
        assert !AllSpaces(text);
        InkAlternates(m, text);
      }
    }
  }

  lemma InkAlternates(m: Message, text: string)
    requires Keyed(text) && text != "" && !Space(text[0])
    requires Alternates(m, Pattern(m, text[1..]))
    requires if AllSpaces(text[1..]) then Pattern(m, text[1..]) == [] else |Pattern(m, text[1..])| % 2 == 1
    ensures Alternates(m, Pattern(m, text)) && |Pattern(m, text)| % 2 == 1
  {
    PatternIsMarksAndTail(m, text);
    CodeIsKeyed(text[0]);
    var rest := text[1..];
    if !AllSpaces(rest) {
      GapAfterIsGap(m, rest);
    }
    hide *;
    MarksAlternate(m, Code(text[0]));
    TailAlternates(m, Marks(m, Code(text[0])), rest);
  }

  lemma TailAlternates(m: Message, marks: seq<Element>, rest: string)
    requires Alternates(m, marks) && |marks| % 2 == 1 && Alternates(m, Pattern(m, rest))
    requires if AllSpaces(rest) then Pattern(m, rest) == []
             else |Pattern(m, rest)| % 2 == 1 && |GapAfter(m, rest)| == 1 && IsGap(m, GapAfter(m, rest)[0])
    ensures Alternates(m, marks + Tail(m, rest)) && |marks + Tail(m, rest)| % 2 == 1
  {
    hide Alternates, Pattern, AllSpaces, IsGap;
    var gap, later := GapAfter(m, rest), Pattern(m, rest);
    if AllSpaces(rest) {
      assert marks + Tail(m, rest) == marks;
    } else {
      AlternatesGap(m, marks, gap[0]);
      AlternatesAppend(m, marks + gap, later);
      assert gap == [gap[0]] && marks + Tail(m, rest) == (marks + gap) + later;
    }
  }

  lemma CodeIsKeyed(c: char)
    requires !Space(c) && (Space(c) || Keyable(c))
    ensures Code(c) != "" && DotsAndDashes(Code(c))
  {
    TableIsKeyed(Upper(c));
  }

  lemma GapAfterIsGap(m: Message, rest: string)
    requires !AllSpaces(rest)
    ensures |GapAfter(m, rest)| == 1 && IsGap(m, GapAfter(m, rest)[0])
  {}

  lemma {:induction false} RepetitionsAlternate(m: Message, k: nat)
    requires k <= m.repeats && Keyed(m.text) && !AllSpaces(m.text)
    ensures Alternates(m, Repetitions(m, k))
    ensures |Repetitions(m, k)| % 2 == if k == m.repeats && k > 0 then 1 else 0
  {
    hide Pattern, MarkOf, GapOf, Keyed, AllSpaces;
    if k == 0 {
    } else {
      RepetitionsAlternate(m, k - 1);
      PatternAlternates(m, m.text);
      var before, once := Repetitions(m, k - 1), Pattern(m, m.text);
      AlternatesAppend(m, before, once);
      if k < m.repeats {
        AlternatesGap(m, before + once, Element(m.repeatGap, Silent));
      } else {
        assert before + once + [] == before + once;
      }
    }
  }

  lemma {:induction false} PatternIsInk(m: Message, text: string)
    requires Pattern(m, text) != []
    ensures !AllSpaces(text)
    decreases |text|
  {
    if Space(text[0]) {
      PatternIsInk(m, text[1..]);
      var i :| 0 <= i < |text[1..]| && !Space(text[1..][i]);
      assert !Space(text[i + 1]);
    }
  }

  lemma AcceptedIsInk(m: Message, eventLimit: nat, durationLimit: nat)
    requires Judged(m, eventLimit, durationLimit).Measured?
    ensures m.repeats >= 1 && Keyed(m.text) && !AllSpaces(m.text) && |Whole(m)| > 0
    ensures Total(m) <= MAX_U64 && EventCount(m) <= MAX_EVENTS
  {
    hide Pattern, Total, EventCount, AllSpaces;
    PatternIsInk(m, m.text);
  }

  /** An accepted job's events: contiguous from 0, marks and gaps in turn, a final gap, and
      an end at the total; never more than 512. */
  lemma JobTimeline(m: Message, eventLimit: nat, durationLimit: nat)
    requires Judged(m, eventLimit, durationLimit).Measured?
    ensures Duration(Whole(m)) == Judged(m, eventLimit, durationLimit).duration <= MAX_U64
    ensures var events := Placed(Whole(m), 0);
            && 0 < |events| <= MAX_EVENTS && |events| % 2 == 0 && events[0].offset == 0
            && (forall i :: 0 <= i < |events| - 1 ==> events[i + 1].offset == events[i].offset + events[i].duration)
            && events[|events| - 1].offset + events[|events| - 1].duration == Total(m)
    ensures Alternates(m, Whole(m))
  {
    hide Pattern, Duration, MarkOf, GapOf, Placed, Repetitions, InputCheck, Total, EventCount, AllSpaces;
    WholeMeasures(m);
    AcceptedIsInk(m, eventLimit, durationLimit);
    RepetitionsAlternate(m, m.repeats);
    AlternatesGap(m, Repetitions(m, m.repeats), Element(TAIL, Silent));
    PlacedTouch(Whole(m));
  }

  /** Placed elements begin at 0, each where the one before ends, and end at their sum. */
  lemma PlacedTouch(elements: seq<Element>)
    requires elements != [] && Duration(elements) <= MAX_U64
    ensures var events := Placed(elements, 0);
            && events[0].offset == 0
            && (forall i :: 0 <= i < |events| - 1 ==> events[i + 1].offset == events[i].offset + events[i].duration)
            && events[|events| - 1].offset + events[|events| - 1].duration == Duration(elements)
  {
    hide Placed, Duration;
    var events, n := Placed(elements, 0), |elements|;
    PlacedAt(elements, 0, 0);
    assert elements[..0] == [];
    NoTime();
    forall i | 0 <= i < n - 1 ensures events[i + 1].offset == events[i].offset + events[i].duration {
      PlacedAt(elements, 0, i);
      PlacedAt(elements, 0, i + 1);
      DurationTo(elements, i);
    }
    PlacedAt(elements, 0, n - 1);
    DurationTo(elements, n - 1);
    assert elements[..n] == elements;
  }

  lemma NoTime()
    ensures Duration([]) == 0
  {}

  // ---------- Reading the text back ----------

  /** One blank stands for any run of whitespace between characters. */
  function BlankAfter(rest: string): string {
    if AllSpaces(rest) then "" else if Space(rest[0]) then " " else ""
  }

  /** Upper case, no blank at either end, one blank for each run of whitespace. */
  function Normal(text: string): (normal: string)
    decreases |text|
  {
    if text == "" then ""
    else if Space(text[0]) then Normal(text[1..])
    else [Upper(text[0])] + BlankAfter(text[1..]) + Normal(text[1..])
  }

  /** The settings under which marks differ from each other and gaps from each other. */
  predicate Distinguishable(m: Message) {
    && m.intraGap != m.characterGap && m.intraGap != m.wordGap && m.characterGap != m.wordGap
    && (if m.mode == "dfcw" then m.mark != m.space else m.dot != m.dash)
  }

  lemma MarksTell(m: Message, a: char, b: char)
    requires Distinguishable(m) && (a == '.' || a == '-') && (b == '.' || b == '-')
    requires MarkOf(m, a) == MarkOf(m, b)
    ensures a == b
  {}

  /** What may follow a code: nothing, or a gap between characters or words. */
  predicate Follows(m: Message, rest: seq<Element>) {
    rest != [] ==> rest[0] == GapOf(m, m.characterGap) || rest[0] == GapOf(m, m.wordGap)
  }

  lemma IntraGapTells(m: Message, rest: seq<Element>)
    requires Distinguishable(m) && Follows(m, rest) && rest != []
    ensures rest[0] != GapOf(m, m.intraGap)
  {}

  lemma MarksSplit(m: Message, code: string, rest: seq<Element>)
    requires code != ""
    ensures var all := Marks(m, code) + rest;
            && all[0] == MarkOf(m, code[0])
            && (|code| == 1 ==> all[1..] == rest)
            && (|code| > 1 ==> |all| > 2 && all[1] == GapOf(m, m.intraGap) && all[2..] == Marks(m, code[1..]) + rest)
  {
    var mark, gap, later := MarkOf(m, code[0]), GapOf(m, m.intraGap), Marks(m, code[1..]);
    if |code| == 1 {
      assert later == [] && Marks(m, code) == [mark];
    } else {
      MarksStart(m, code[1..]);
      assert Marks(m, code) == [mark] + [gap] + later;
      SplitTwo(mark, gap, later, rest);
    }
  }

  lemma MarksStart(m: Message, code: string)
    requires code != ""
    ensures Marks(m, code) != []
  {}

  lemma SplitTwo<T>(a: T, b: T, later: seq<T>, rest: seq<T>)
    ensures var all := [a] + [b] + later + rest; all[0] == a && all[1] == b && all[2..] == later + rest
  {}

  lemma {:induction false} CodesReadBack(m: Message, a: string, b: string, x: seq<Element>, y: seq<Element>)
    requires Distinguishable(m) && a != "" && b != "" && DotsAndDashes(a) && DotsAndDashes(b)
    requires Follows(m, x) && Follows(m, y)
    requires Marks(m, a) + x == Marks(m, b) + y
    ensures a == b && x == y
    decreases |a|
  {
    MarksSplit(m, a, x);
    MarksSplit(m, b, y);
    MarksTell(m, a[0], b[0]);
    hide Marks, MarkOf, GapOf, Follows, Distinguishable;
    var all := Marks(m, a) + x;
    if |a| > 1 && |b| > 1 {
      assert DotsAndDashes(a[1..]) && DotsAndDashes(b[1..]);
      CodesReadBack(m, a[1..], b[1..], x, y);
      assert a == [a[0]] + a[1..] && b == [b[0]] + b[1..];
    } else if |a| > 1 {
      assert all[1] == y[0];
      IntraGapTells(m, y);
    } else if |b| > 1 {
      assert all[1] == x[0];
      IntraGapTells(m, x);
    } else {
      assert a == [a[0]] && b == [b[0]];
    }
  }

  /** What follows the marks of a character with `rest` still to come. */
  function Tail(m: Message, rest: string): seq<Element> {
    GapAfter(m, rest) + Pattern(m, rest)
  }

  lemma {:induction false} SpacesAreSilent(m: Message, text: string)
    requires AllSpaces(text)
    ensures Pattern(m, text) == [] && Normal(text) == ""
    decreases |text|
  {
    if text == "" {
    } else {
      SpacesAreSilent(m, text[1..]);
    }
  }

  lemma TailFollows(m: Message, rest: string)
    ensures Follows(m, Tail(m, rest)) && (Tail(m, rest) == [] <==> AllSpaces(rest))
  {
    if AllSpaces(rest) {
      SpacesAreSilent(m, rest);
    }
  }

  lemma TailsReadBack(m: Message, a: string, b: string)
    requires Distinguishable(m) && Tail(m, a) == Tail(m, b)
    ensures BlankAfter(a) == BlankAfter(b) && Pattern(m, a) == Pattern(m, b)
  {
    TailFollows(m, a);
    TailFollows(m, b);
    hide Pattern, AllSpaces;
    if !AllSpaces(a) {
      assert Tail(m, a)[0] == GapAfter(m, a)[0] && Tail(m, a)[1..] == Pattern(m, a);
      assert Tail(m, b)[0] == GapAfter(m, b)[0] && Tail(m, b)[1..] == Pattern(m, b);
    } else {
      assert [] + Pattern(m, a) == Pattern(m, a) && [] + Pattern(m, b) == Pattern(m, b);
    }
  }

  lemma {:induction false} PatternsReadBack(m: Message, a: string, b: string)
    requires Distinguishable(m) && Keyed(a) && Keyed(b) && Pattern(m, a) == Pattern(m, b)
    ensures Normal(a) == Normal(b)
    decreases |a| + |b|
  {
    if a != "" && Space(a[0]) {
      assert Keyed(a[1..]);
      PatternsReadBack(m, a[1..], b);
    } else if b != "" && Space(b[0]) {
      assert Keyed(b[1..]);
      PatternsReadBack(m, a, b[1..]);
    } else if a == "" || b == "" {
      InkIsHeard(m, a);
      InkIsHeard(m, b);
    } else {
      InkReadsBack(m, a, b);
      assert Keyed(a[1..]) && Keyed(b[1..]);
      PatternsReadBack(m, a[1..], b[1..]);
    }
  }

  lemma InkIsHeard(m: Message, text: string)
    requires Keyed(text) && (text != "" ==> !Space(text[0]))
    ensures Pattern(m, text) == [] <==> text == ""
  {
    if text != "" {
      CodeIsKeyed(text[0]);
      MarksSplit(m, Code(text[0]), []);
    }
  }

  lemma InkReadsBack(m: Message, a: string, b: string)
    requires Distinguishable(m) && Keyed(a) && Keyed(b) && a != "" && b != "" && !Space(a[0]) && !Space(b[0])
    requires Pattern(m, a) == Pattern(m, b)
    ensures Upper(a[0]) == Upper(b[0]) && BlankAfter(a[1..]) == BlankAfter(b[1..])
    ensures Pattern(m, a[1..]) == Pattern(m, b[1..])
  {
    PatternIsMarksAndTail(m, a);
    PatternIsMarksAndTail(m, b);
    CodeIsKeyed(a[0]);
    CodeIsKeyed(b[0]);
    TailFollows(m, a[1..]);
    TailFollows(m, b[1..]);
    hide Pattern, Code, Marks, Follows, Tail, Distinguishable, BlankAfter, Upper;
    CodesReadBack(m, Code(a[0]), Code(b[0]), Tail(m, a[1..]), Tail(m, b[1..]));
    CodesDiffer(a[0], b[0]);
    TailsReadBack(m, a[1..], b[1..]);
  }

  lemma PatternIsMarksAndTail(m: Message, text: string)
    requires text != "" && !Space(text[0])
    ensures Pattern(m, text) == Marks(m, Code(text[0])) + Tail(m, text[1..])
  {
    hide Marks, Code, GapAfter;
    var rest := text[1..];
    assert Marks(m, Code(text[0])) + GapAfter(m, rest) + Pattern(m, rest)
           == Marks(m, Code(text[0])) + (GapAfter(m, rest) + Pattern(m, rest));
  }

  // ---------- Exactly when it can be read ----------

  /** The normal form is keyed to the same elements. */
  lemma {:induction false} NormalKeepsPattern(m: Message, text: string)
    requires Keyed(text)
    ensures Pattern(m, Normal(text)) == Pattern(m, text)
    ensures Normal(text) == "" <==> AllSpaces(text)
    ensures Normal(text) != "" ==> !Space(Normal(text)[0])
    decreases |text|
  {
    if text == "" {
    } else {
      var rest := text[1..];
      assert text == [text[0]] + rest;
      NormalKeepsPattern(m, rest);
      if Space(text[0]) {
        assert AllSpaces(text) == AllSpaces(rest);
      } else {
        UpperIsKeyed(text[0]);
        OneNormalLetter(m, text[0], rest);
      }
    }
  }

  lemma UpperIsKeyed(c: char)
    ensures Upper(Upper(c)) == Upper(c) && Code(Upper(c)) == Code(c) && Space(Upper(c)) == Space(c)
  {}

  lemma OneNormalLetter(m: Message, c: char, rest: string)
    requires !Space(c) && Pattern(m, Normal(rest)) == Pattern(m, rest)
    requires Normal(rest) == "" <==> AllSpaces(rest)
    requires Normal(rest) != "" ==> !Space(Normal(rest)[0])
    ensures Pattern(m, [Upper(c)] + BlankAfter(rest) + Normal(rest)) == Pattern(m, [c] + rest)
  {
    var after := BlankAfter(rest) + Normal(rest);
    var normal := [Upper(c)] + after;
    UpperIsKeyed(c);
    assert [Upper(c)] + BlankAfter(rest) + Normal(rest) == normal;
    assert normal[1..] == after && ([c] + rest)[1..] == rest;
    PatternIsMarksAndTail(m, normal);
    PatternIsMarksAndTail(m, [c] + rest);
    BlankKeepsTail(m, rest);
  }

  lemma BlankKeepsTail(m: Message, rest: string)
    requires Pattern(m, Normal(rest)) == Pattern(m, rest)
    requires Normal(rest) == "" <==> AllSpaces(rest)
    requires Normal(rest) != "" ==> !Space(Normal(rest)[0])
    ensures Tail(m, BlankAfter(rest) + Normal(rest)) == Tail(m, rest)
  {
    var after := BlankAfter(rest) + Normal(rest);
    if AllSpaces(rest) {
      SpacesAreSilent(m, rest);
      assert after == "";
    } else if Space(rest[0]) {
      assert after[0] == ' ' && after[1..] == Normal(rest) && after[1] == Normal(rest)[0];
      assert !AllSpaces(after);
    } else {
      assert after == Normal(rest);
    }
  }

  /** Texts that agree after normalisation are keyed alike under any settings. */
  lemma SameNormalSamePattern(m: Message, a: string, b: string)
    requires Keyed(a) && Keyed(b) && Normal(a) == Normal(b)
    ensures Pattern(m, a) == Pattern(m, b)
  {
    NormalKeepsPattern(m, a);
    NormalKeepsPattern(m, b);
  }

  lemma LetterPatterns(m: Message)
    ensures Pattern(m, "E") == [MarkOf(m, '.')] && Pattern(m, "T") == [MarkOf(m, '-')]
    ensures Pattern(m, "I") == [MarkOf(m, '.'), GapOf(m, m.intraGap), MarkOf(m, '.')]
  {
    var dot := MarkOf(m, '.');
    hide MarkOf, GapOf, Pattern;
    assert Marks(m, ".") == [dot] by { assert "."[1..] == ""; }
    assert Marks(m, "-") == [MarkOf(m, '-')] by { assert "-"[1..] == ""; }
    assert ".."[1..] == ".";
    assert Marks(m, "..") == [dot, GapOf(m, m.intraGap), dot];
    OneLetter(m, "E");
    OneLetter(m, "T");
    OneLetter(m, "I");
  }

  lemma PairPatterns(m: Message)
    ensures Pattern(m, "EE") == [MarkOf(m, '.'), GapOf(m, m.characterGap), MarkOf(m, '.')]
    ensures Pattern(m, "E E") == [MarkOf(m, '.'), GapOf(m, m.wordGap), MarkOf(m, '.')]
  {
    LetterPatterns(m);
    PatternIsMarksAndTail(m, "EE");
    PatternIsMarksAndTail(m, "E E");
    assert Marks(m, ".") == [MarkOf(m, '.')] by { assert "."[1..] == ""; }
    assert "EE"[1..] == "E" && !AllSpaces("E") by { assert !Space("E"[0]); }
    assert "E E"[1..] == " E" && " E"[1..] == "E";
    assert !AllSpaces(" E") by { assert !Space(" E"[1]); }
    assert Pattern(m, " E") == Pattern(m, "E");
    hide MarkOf, GapOf, Marks;
  }

  lemma OneLetter(m: Message, text: string)
    requires |text| == 1 && !Space(text[0])
    ensures Pattern(m, text) == Marks(m, Code(text[0]))
  {
    hide Marks, Code;
    PatternIsMarksAndTail(m, text);
    assert Tail(m, "") == [];
  }

  lemma ShortNormals()
    ensures Normal("E") == "E" && Normal("T") == "T" && Normal("I") == "I"
    ensures Normal("EE") == "EE" && Normal("E E") == "E E"
  {
    assert AllSpaces("") && !Space('E') && !Space('T') && !Space('I');
    assert "E"[1..] == "" && "T"[1..] == "" && "I"[1..] == "";
    assert Normal("E") == "E" && Normal("T") == "T" && Normal("I") == "I";
    assert "EE"[1..] == "E" && !AllSpaces("E") by { assert !Space("E"[0]); }
    assert "E E"[1..] == " E" && " E"[1..] == "E";
    assert !AllSpaces(" E") by { assert !Space(" E"[1]); }
    assert Normal(" E") == "E";
  }

  /** Two texts of one message's settings that say different things in the same elements. */
  predicate Confused(m: Message, a: string, b: string) {
    Keyed(a) && Keyed(b) && Normal(a) != Normal(b) && Pattern(m, a) == Pattern(m, b)
  }

  /** Text can be read back exactly under distinguishable settings. */
  lemma ReadableExactly(m: Message)
    ensures Distinguishable(m) <==> forall a, b :: !Confused(m, a, b)
  {
    if Distinguishable(m) {
      forall a, b ensures !Confused(m, a, b) {
        if Keyed(a) && Keyed(b) && Pattern(m, a) == Pattern(m, b) {
          PatternsReadBack(m, a, b);
        }
      }
    } else {
      LetterPatterns(m);
      PairPatterns(m);
      ShortNormals();
      ShortKeyed();
      hide Pattern, Normal, Keyed, Marks;
      assert Confused(m, "E", "T") || Confused(m, "I", "EE") || Confused(m, "I", "E E") || Confused(m, "EE", "E E");
    }
  }

  lemma ShortKeyed()
    ensures Keyed("E") && Keyed("T") && Keyed("I") && Keyed("EE") && Keyed("E E")
  {}

  lemma {:induction false} PlacedTells(a: seq<Element>, b: seq<Element>, offset: nat)
    requires offset + Duration(a) <= MAX_U64 && offset + Duration(b) <= MAX_U64
    requires Placed(a, offset) == Placed(b, offset)
    ensures a == b
    decreases |a|
  {
    if a == [] {
    } else {
      assert |Placed(a, offset)| == |a| && |Placed(b, offset)| == |b|;
      var x, y := Placed(a, offset), Placed(b, offset);
      assert x[1..] == y[1..];
      PlacedTells(a[1..], b[1..], offset + a[0].duration);
      assert a == [a[0]] + a[1..] && b == [b[0]] + b[1..];
    }
  }

  lemma {:induction false} RepetitionsBegin(m: Message, k: nat)
    requires 1 <= k <= m.repeats
    ensures Pattern(m, m.text) <= Repetitions(m, k)
  {
    hide Pattern;
    if k > 1 {
      RepetitionsBegin(m, k - 1);
    } else {
      assert Repetitions(m, 0) == [];
    }
  }

  /** Two accepted messages that differ in their text compile to the same events exactly
      when the texts agree after normalisation, provided the settings are distinguishable. */
  lemma EventsReadBack(m: Message, other: string, eventLimit: nat, durationLimit: nat)
    requires Judged(m, eventLimit, durationLimit).Measured?
    requires Judged(m.(text := other), eventLimit, durationLimit).Measured?
    requires Distinguishable(m)
    ensures Duration(Whole(m)) <= MAX_U64 && Duration(Whole(m.(text := other))) <= MAX_U64
    ensures Placed(Whole(m), 0) == Placed(Whole(m.(text := other)), 0) <==> Normal(m.text) == Normal(other)
  {
    var n := m.(text := other);
    WholeMeasures(m);
    WholeMeasures(n);
    hide Duration, Placed, Normal, Distinguishable, InputCheck, Keyed;
    assert Keyed(m.text) && Keyed(other) by { AcceptedIsKeyed(m); AcceptedIsKeyed(n); }
    PatternIgnoresText(m, other, m.text);
    PatternIgnoresText(m, other, other);
    if Placed(Whole(m), 0) == Placed(Whole(n), 0) {
      PlacedTells(Whole(m), Whole(n), 0);
      SamePattern(m, n);
      PatternsReadBack(m, m.text, other);
    }
    if Normal(m.text) == Normal(other) {
      SameNormalSamePattern(m, m.text, other);
      SameRepetitions(m, n, m.repeats);
    }
  }

  lemma AcceptedIsKeyed(m: Message)
    requires InputCheck(m).Fine?
    ensures Keyed(m.text)
  {}

  /** The elements of a text depend on the settings, not on the message's own text. */
  lemma {:induction false} PatternIgnoresText(m: Message, other: string, text: string)
    ensures Pattern(m.(text := other), text) == Pattern(m, text)
    decreases |text|
  {
    if text == "" {
    } else {
      PatternIgnoresText(m, other, text[1..]);
      MarksIgnoreText(m, other, Code(text[0]));
    }
  }

  lemma {:induction false} MarksIgnoreText(m: Message, other: string, code: string)
    ensures Marks(m.(text := other), code) == Marks(m, code)
    decreases |code|
  {
    if code == "" {
    } else {
      MarksIgnoreText(m, other, code[1..]);
    }
  }

  lemma SamePattern(m: Message, n: Message)
    requires m.repeats == n.repeats >= 1 && Whole(m) == Whole(n)
    ensures Pattern(m, m.text) == Pattern(n, n.text)
  {
    hide Pattern;
    WholeMeasures(m);
    WholeMeasures(n);
    var p, q := Pattern(m, m.text), Pattern(n, n.text);
    SameFactor(|p|, |q|, m.repeats);
    RepetitionsBegin(m, m.repeats);
    RepetitionsBegin(n, n.repeats);
    assert p == Whole(m)[..|p|] && q == Whole(n)[..|q|];
  }

  lemma SameFactor(a: nat, b: nat, k: nat)
    requires k >= 1 && a * k == b * k
    ensures a == b
  {}

  lemma {:induction false} SameRepetitions(m: Message, n: Message, k: nat)
    requires k <= m.repeats == n.repeats && m.repeatGap == n.repeatGap
    requires Pattern(m, m.text) == Pattern(n, n.text)
    ensures Repetitions(m, k) == Repetitions(n, k)
  {
    hide Pattern;
    if k == 0 {
    } else {
      SameRepetitions(m, n, k - 1);
    }
  }
}
