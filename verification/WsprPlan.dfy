/**
 WSPR transmission planning: which frames carry a station, and exactly which extended
 calls share a Type 2 payload.
 */
module WsprPlan {
  import opened Callsign
  import opened Options
  import opened WsprChannel
  import opened WsprMessage
  import WsprHash

  // ---------- Ordinary frames ----------

  /** The symbols of an ordinary message, or None when the call, square or power is not one. */
  method WsprType1(call: string, grid: string, dbm: nat) returns (symbols: Option<seq<nat>>)
    ensures symbols == if BaseCall(call) && Square(grid) && StationPower(dbm)
                       then Some(Symbols(Type1Payload(call, grid, dbm))) else None
  {
    hide Symbols, Packed, StationPower, Square, SquareIndex, BitOr;
    if call == PLACEHOLDER || |call| < 3 || |call| > 6 || !Square(grid) || !StationPower(dbm) {
      return None;
    }
    var offset := Lead(call);
    if offset + |call| > 6 {
      return None;
    }
    var padded := Blanks(offset) + call + Blanks(6 - offset - |call|);
    if !(Alnum(padded[0]) || padded[0] == ' ') || !Alnum(padded[1]) || !Digit(padded[2]) || !Letter(padded[3]) {
      return None;
    }
    for i := 3 to 6
      invariant forall j :: 3 <= j < i ==> Letter(padded[j]) || padded[j] == ' '
    {
      if !(Letter(padded[i]) || padded[i] == ' ') {
        return None;
      }
    }
    for i := 0 to |call|
      invariant forall j :: 0 <= j < i ==> Alnum(call[j])
    {
      if !Alnum(call[i]) {
        return None;
      }
    }
    var n := PackSix(padded);
    var m := SquareIndex(grid) * 128 + dbm + 64;
    assert m == Type1Field(grid, dbm);
    PayloadFits(padded, m);
    OrIsPayload(n, m);
    var sent := ChannelSymbols(BitOr(n * 0x40_0000, m));
    symbols := Some(sent);
  }

  lemma PayloadFits(six: string, m: nat)
    requires Packable(six) && m < 0x40_0000
    ensures Payload(Packed(six), m) < 0x4_0000_0000_0000
  {
    PayloadSplits(Packed(six), m);
  }

  method WsprType1FromStation(call: string, locator: string, dbm: nat) returns (symbols: Option<seq<nat>>)
    ensures symbols == if Station(call, locator, dbm) && BaseCall(call)
                       then Some(Symbols(Type1Payload(call, locator[..4], dbm))) else None
  {
    hide Symbols, StationPower, BaseCall, Type1Payload;
    var valid := ValidStationCallsign(call);
    if !valid || !StationLocator(locator) || !StationPower(dbm) {
      return None;
    }
    symbols := WsprType1(call, locator[..4], dbm);
  }

  method PackBase(call: string) returns (n: Option<nat>)
    ensures n == if BaseCall(call) then Some(Packed(Padded(call))) else None
  {
    hide Symbols, Packed, Type1Payload, BaseCall;
    var symbols := WsprType1(call, "AA00", 0);
    if symbols.None? {
      return None;
    }
    BaseIsPackable(call);
    var six := PackSix(Padded(call));
    n := Some(six);
  }

  lemma BaseIsPackable(call: string)
    requires BaseCall(call)
    ensures 3 <= |call| <= 6 && Lead(call) + |call| <= 6 && Packable(Padded(call))
  {}

  // ---------- Extended calls ----------

  /** Where the first slash stands, or -1. */
  function FindSlash(call: string): (at: int)
    ensures -1 <= at < |call|
    ensures at >= 0 ==> call[at] == '/'
    ensures forall i :: 0 <= i < |call| && (at < 0 || i < at) ==> call[i] != '/'
  {
    if call == [] then -1
    else if call[0] == '/' then 0
    else
      var later := FindSlash(call[1..]);
      assert forall i :: 1 <= i < |call| ==> call[i] == call[1..][i - 1];
      if later < 0 then -1 else later + 1
  }

  predicate OneSlash(call: string) {
    FindSlash(call) >= 0 && FindSlash(call[FindSlash(call) + 1..]) < 0
  }

  function LeftOf(call: string): string
    requires OneSlash(call)
  {
    call[..FindSlash(call)]
  }

  function RightOf(call: string): string
    requires OneSlash(call)
  {
    call[FindSlash(call) + 1..]
  }

  predicate OneMark(suffix: string) { |suffix| == 1 && Alnum(suffix[0]) }

  predicate TwoDigits(suffix: string) { |suffix| == 2 && Digit(suffix[0]) && Digit(suffix[1]) }

  /** An ordinary call with a suffix. A prefix that is itself an ordinary call counts as
      one only when what follows it is a suffix. */
  predicate Suffixed(call: string) {
    OneSlash(call) && BaseCall(LeftOf(call)) && (OneMark(RightOf(call)) || TwoDigits(RightOf(call)))
  }

  /** An ordinary call behind a prefix of one to three characters. */
  predicate Prefixed(call: string) {
    && OneSlash(call) && !Suffixed(call) && BaseCall(RightOf(call))
    && 1 <= |LeftOf(call)| <= 3 && AllAlnum(LeftOf(call))
  }

  predicate Compound(call: string) {
    Suffixed(call) || Prefixed(call)
  }

  function BaseOf(call: string): (base: string)
    requires Compound(call)
    ensures BaseCall(base)
  {
    if Suffixed(call) then LeftOf(call) else RightOf(call)
  }

  function SuffixCode(suffix: string): nat
    requires OneMark(suffix) || TwoDigits(suffix)
  {
    if OneMark(suffix) then 60000 + Code(suffix[0])
    else 60026 + 10 * (suffix[0] as int - '0' as int) + (suffix[1] as int - '0' as int)
  }

  /** Three base-37 digits, blanks first. */
  function PrefixCode(prefix: string): nat
    requires 1 <= |prefix| <= 3 && AllAlnum(prefix)
  {
    var three := Blanks(3 - |prefix|) + prefix;
    (Code(three[0]) * 37 + Code(three[1])) * 37 + Code(three[2])
  }

  function Extension(call: string): (extension: nat)
    requires Compound(call)
    ensures extension < 65536 && (Suffixed(call) <==> extension >= 60000)
  {
    if Suffixed(call) then SuffixCode(RightOf(call)) else PrefixCode(LeftOf(call))
  }

  function Type2Payload(call: string, dbm: nat): nat
    requires Compound(call) && StationPower(dbm)
  {
    Payload(Packed(Padded(BaseOf(call))), Type2Field(Extension(call), dbm))
  }

  datatype Frame = Frame(kind: WsprType, payload: nat, symbols: seq<nat>)

  function FrameOf(kind: WsprType, payload: nat): Frame {
    Frame(kind, payload, Symbols(payload))
  }

  /** The shifted n and the masked field have no bit in common; nothing of the field is
      dropped when m is below 2^22. */
  method MakeFrame(kind: WsprType, n: nat, m: nat) returns (frame: Frame)
    requires n < 0x1_0000_0000
    ensures frame == FrameOf(kind, BitOr(n * 0x40_0000, m % 0x40_0000)) == FrameOf(kind, Payload(n, m % 0x40_0000))
  {
    hide BitOr, Symbols;
    OrIsPayload(n, m % 0x40_0000);
    var payload := BitOr(n * 0x40_0000, m % 0x40_0000);
    var symbols := ChannelSymbols(payload);
    frame := Frame(kind, payload, symbols);
  }

  lemma Type2FieldIs(extension: nat, dbm: nat)
    requires extension < 65536 && StationPower(dbm)
    ensures Type2Field(extension, dbm) == Type2Field(extension, dbm) % 0x40_0000
    ensures Type2Field(extension, dbm) == extension % 32768 * 128 + dbm + if extension >= 32768 then 66 else 65
  {
    hide StationPower;
  }

  method MakeCompound(call: string, dbm: nat) returns (frame: Option<Frame>)
    requires StationPower(dbm)
    ensures frame == if Compound(call) then Some(FrameOf(Type2, Type2Payload(call, dbm))) else None
  {
    hide Symbols, Packed, BaseCall, Padded, Payload, StationPower, Type2Field, FrameOf, BitOr;
    var slash := FindSlash(call);
    if slash < 0 || FindSlash(call[slash + 1..]) >= 0 {
      return None;
    }
    var left, right := call[..slash], call[slash + 1..];
    PowerBound(dbm);
    var n := PackBase(left);
    if n.Some? && ((|right| == 1 && Alnum(right[0])) || (|right| == 2 && Digit(right[0]) && Digit(right[1]))) {
      PackedFits(left);
      var extension;
      if |right| == 1 {
        extension := 60000 + Code(right[0]);
      } else {
        extension := 60026 + 10 * (right[0] as int - '0' as int) + (right[1] as int - '0' as int);
      }
      Type2FieldIs(extension, dbm);
      var f := MakeFrame(Type2, n.value, extension % 32768 * 128 + dbm + 66);
      return Some(f);
    }
    n := PackBase(right);
    if n.None? || left == [] || |left| > 3 || exists i :: 0 <= i < |left| && !Alnum(left[i]) {
      return None;
    }
    PackedFits(right);
    var extension := PackPrefix(left);
    Type2FieldIs(extension, dbm);
    var f := MakeFrame(Type2, n.value, extension % 32768 * 128 + dbm + (if extension >= 32768 then 66 else 65));
    frame := Some(f);
  }

  lemma Fits32(n: nat)
    requires n < 0x1_0000_0000
    ensures W32(n) == n
  {}

  method PackPrefix(left: string) returns (extension: nat)
    requires 1 <= |left| <= 3 && AllAlnum(left)
    ensures extension == PrefixCode(left)
  {
    hide Base37, PrefixCode, Code, W32;
    var blanks := 3 - |left|;
    var three := Blanks(blanks) + left;
    extension := 0;
    Base37Starts(three);
    for i := 0 to blanks
      invariant extension == Base37(three[..i])
    {
      Base37Step(three, i);
      Fits32(extension * 37 + 36);
      extension := W32(extension * 37 + 36);
    }
    for i := 0 to |left|
      invariant extension == Base37(three[..blanks + i])
    {
      Base37Step(three, blanks + i);
      Fits32(extension * 37 + Code(left[i]));
      extension := W32(extension * 37 + Code(left[i]));
    }
    assert three[..3] == three;
    Base37OfThree(three);
    PrefixIs(left);
  }

  lemma Base37Starts(s: string)
    ensures Base37(s[..0]) == 0 && Code(' ') == 36
  {}

  lemma PrefixIs(prefix: string)
    requires 1 <= |prefix| <= 3 && AllAlnum(prefix)
    ensures var three := Blanks(3 - |prefix|) + prefix;
            PrefixCode(prefix) == (Code(three[0]) * 37 + Code(three[1])) * 37 + Code(three[2])
  {}

  lemma Base37Step(s: string, i: nat)
    requires i < |s| == 3
    ensures Base37(s[..i + 1]) == Base37(s[..i]) * 37 + Code(s[i]) < 0x1_0000_0000
  {
    assert s[..i + 1] == s[..i] + [s[i]];
    Base37Fits(s[..i], s[i]);
  }

  function Base37(s: string): nat {
    if s == [] then 0 else Base37(s[..|s| - 1]) * 37 + Code(s[|s| - 1])
  }

  lemma Base37Fits(s: string, c: char)
    requires |s| <= 2
    ensures Base37(s) * 37 + Code(c) == Base37(s + [c]) < 0x1_0000_0000
  {
    assert (s + [c])[..|s|] == s;
    if |s| > 0 {
      assert |s[..|s| - 1]| <= 1;
    }
  }

  lemma Base37OfThree(s: string)
    requires |s| == 3
    ensures Base37(s) == (Code(s[0]) * 37 + Code(s[1])) * 37 + Code(s[2])
  {
    assert s[..2][..1] == s[..1] && s[..1][..0] == [];
    assert Base37(s[..1]) == Code(s[0]);
    assert Base37(s[..2]) == Code(s[0]) * 37 + Code(s[1]);
  }

  lemma PowerBound(dbm: nat)
    requires StationPower(dbm)
    ensures dbm <= 60
  {}

  lemma PackedFits(call: string)
    requires BaseCall(call)
    ensures 3 <= |call| <= 6 && Lead(call) + |call| <= 6 && Packable(Padded(call))
    ensures Packed(Padded(call)) < 0x1000_0000
  {}

  // ---------- Hashed calls ----------

  function OctetOf(c: char): WsprHash.octet { (c as int % 256) as bv8 }

  function Octets(call: string): seq<WsprHash.octet> {
    seq(|call|, i requires 0 <= i < |call| => OctetOf(call[i]))
  }

  function CallHash(call: string): (hash: nat)
    ensures hash < 32768
  {
    WsprHash.Hash(Octets(call))
  }

  function Type3Payload(call: string, locator: string, dbm: nat): nat
    requires SixLocator(locator) && StationPower(dbm)
  {
    Payload(Packed(Rotated(locator)), Type3Field(CallHash(call), dbm))
  }

  method MakeHashed(call: string, locator: string, dbm: nat) returns (frame: Frame)
    requires SixLocator(locator) && StationPower(dbm)
    ensures frame == FrameOf(Type3, Type3Payload(call, locator, dbm))
  {
    hide Symbols, Packed, Payload, CallHash, Packable, Rotated, SixLocator, StationPower, FrameOf, Type3Field;
    hide WsprHash.Hash;
    var rotated := Rotate(locator);
    var n := PackSix(rotated);
    var hash := WsprHash.WsprHash(Octets(call));
    PowerBound(dbm);
    HashIs(call);
    Type3FieldIs(hash, dbm);
    frame := MakeFrame(Type3, n, hash * 128 + 63 - dbm);
  }

  method Rotate(grid: string) returns (rotated: string)
    requires SixLocator(grid)
    ensures rotated == Rotated(grid) && |rotated| == 6
  {
    hide SixLocator;
    rotated := "";
    assert |grid| == 6 by { SixIsSix(grid); }
    for i := 0 to 6
      invariant |rotated| == i && forall j :: 0 <= j < i ==> rotated[j] == if j == 5 then grid[0] else grid[j + 1]
    {
      rotated := rotated + [grid[(i + 1) % 6]];
    }
  }

  lemma SixIsSix(locator: string)
    requires SixLocator(locator)
    ensures |locator| == 6
  {}

  lemma Type3FieldIs(hash: nat, dbm: nat)
    requires hash < 32768 && StationPower(dbm)
    ensures dbm <= 60 && Type3Field(hash, dbm) == hash * 128 + 63 - dbm == (hash * 128 + 63 - dbm) % 0x40_0000
  {
    PowerBound(dbm);
  }

  lemma HashIs(call: string)
    ensures CallHash(call) == WsprHash.Hash(Octets(call))
  {}

  // ---------- The plan ----------

  predicate LetterOverlap(suffix: string) { |suffix| == 1 && 'Q' <= suffix[0] <= 'Z' }

  predicate NumberOverlap(suffix: string) { |suffix| == 2 && suffix[0] == '0' && Digit(suffix[1]) }

  predicate Ambiguous(call: string)
    requires OneSlash(call)
  {
    LetterOverlap(RightOf(call)) || NumberOverlap(RightOf(call))
  }

  /** The suffix Q..Z in place of 00..09 and the other way round. */
  function OtherSuffix(suffix: string): string
    requires LetterOverlap(suffix) || NumberOverlap(suffix)
  {
    if LetterOverlap(suffix) then ['0', ('0' as int + (suffix[0] as int - 'Q' as int)) as char]
    else [('Q' as int + (suffix[1] as int - '0' as int)) as char]
  }

  function Alternate(call: string): string
    requires OneSlash(call) && Ambiguous(call)
  {
    LeftOf(call) + "/" + OtherSuffix(RightOf(call))
  }

  /** `alternate` is empty unless the Type 2 frame is ambiguous. */
  datatype Plan = Plan(frames: seq<Frame>, ambiguous: bool, alternate: string)

  function Planned(call: string, locator: string, dbm: nat): (plan: Option<Plan>)
    ensures plan.Some? ==> 1 <= |plan.value.frames| <= 2
  {
    if !Station(call, locator, dbm) then None
    else if call[0] == '<' then
      if |locator| == 6 && (BaseCall(Inner(call)) || Compound(Inner(call)))
      then Some(Plan([FrameOf(Type3, Type3Payload(Inner(call), locator, dbm))], false, "")) else None
    else if BaseCall(call) then Some(Plan([FrameOf(Type1, Type1Payload(call, locator[..4], dbm))], false, ""))
    else if Compound(call) then
      var second := if |locator| == 6 then [FrameOf(Type3, Type3Payload(call, locator, dbm))] else [];
      Some(Plan([FrameOf(Type2, Type2Payload(call, dbm))] + second,
                Ambiguous(call), if Ambiguous(call) then Alternate(call) else ""))
    else None
  }

  /** The call that shares this one's Type 2 payload, written in place. */
  method FindAlternate(call: string, slash: nat) returns (ambiguous: bool, alternate: string)
    requires OneSlash(call) && slash == FindSlash(call) && (Ambiguous(call) ==> |LeftOf(call)| <= 6)
    ensures ambiguous == Ambiguous(call)
    ensures alternate == if ambiguous then Alternate(call) else ""
    ensures |alternate| <= MAX_TOKEN
  {
    var suffix := call[slash + 1..];
    var letterOverlap := |suffix| == 1 && 'Q' <= suffix[0] <= 'Z';
    var numberOverlap := |suffix| == 2 && suffix[0] == '0' && Digit(suffix[1]);
    ambiguous, alternate := letterOverlap || numberOverlap, "";
    if ambiguous {
      alternate := call[..slash + 1];
      assert alternate == LeftOf(call) + "/";
      if letterOverlap {
        alternate := alternate + ['0'];
        alternate := alternate + [('0' as int + (suffix[0] as int - 'Q' as int)) as char];
      } else {
        alternate := alternate + [('Q' as int + (suffix[1] as int - '0' as int)) as char];
      }
    }
  }

  method PlanStation(call: string, locator: string, dbm: nat) returns (plan: Option<Plan>)
    ensures plan == Planned(call, locator, dbm)
    ensures plan.Some? ==> |plan.value.alternate| <= MAX_TOKEN
  {
    hide Symbols, Packed, Payload, CallHash, StationPower, BaseCall, Padded, Segments, Prefixed, Suffixed;
    hide Type2Payload, Square, BitOr;
    var valid := ValidStationCallsign(call);
    if !valid || !StationLocator(locator) || !StationPower(dbm) {
      return None;
    }
    if call[0] == '<' {
      if |locator| != 6 {
        return None;
      }
      OpeningIsBracketed(call);
      var inner := call[1..|call| - 1];
      var base := PackBase(inner);
      var compound := MakeCompound(inner, dbm);
      if base.None? && compound.None? {
        return None;
      }
      var frame := MakeHashed(inner, locator, dbm);
      return Some(Plan([frame], false, ""));
    }
    var single := WsprType1FromStation(call, locator, dbm);
    if single.Some? {
      var m := ((179 - 10 * (locator[0] as int - 'A' as int) - (locator[2] as int - '0' as int)) * 180
                + 10 * (locator[1] as int - 'A' as int) + (locator[3] as int - '0' as int)) * 128 + dbm + 64;
      assert m == Type1Field(locator[..4], dbm);
      var n := PackBase(call);
      OrIsPayload(n.value, m);
      return Some(Plan([Frame(Type1, BitOr(n.value * 0x40_0000, m), single.value)], false, ""));
    }
    var type2 := MakeCompound(call, dbm);
    if type2.None? {
      return None;
    }
    var frames := [type2.value];
    if |locator| == 6 {
      var hashed := MakeHashed(call, locator, dbm);
      frames := frames + [hashed];
    }
    CompoundHasSlash(call);
    var slash := FindSlash(call);
    var ambiguous, alternate := FindAlternate(call, slash);
    assert frames == [type2.value] + frames[1..];
    plan := Some(Plan(frames, ambiguous, alternate));
  }

  lemma OpeningIsBracketed(call: string)
    requires StationCall(call) && call[0] == '<'
    ensures Bracketed(call) && Inner(call) == call[1..|call| - 1]
  {}

  lemma CompoundHasSlash(call: string)
    requires Compound(call)
    ensures OneSlash(call) && (Ambiguous(call) ==> |LeftOf(call)| <= 6)
  {}

  // ---------- What a receiver makes of an extension number ----------

  /** The character a receiver writes for a base-37 digit. */
  function Spelled(digit: nat): char
    requires digit < 37
  {
    "0123456789ABCDEFGHIJKLMNOPQRSTUVWXYZ "[digit]
  }

  function Trimmed(s: string): string {
    if s != "" && s[0] == ' ' then Trimmed(s[1..]) else s
  }

  /** The calls that a base call and an extension number can stand for: a suffix of one
      character, a suffix of two digits, or a prefix in three base-37 digits. */
  function Expansions(base: string, extension: nat): (calls: set<string>)
  {
    (if 60000 <= extension < 60036 then {base + "/" + [Spelled(extension - 60000)]} else {})
    + (if 60026 <= extension < 60126
       then {base + "/" + [Spelled((extension - 60026) / 10), Spelled((extension - 60026) % 10)]} else {})
    + (if extension < 50653
       then {Trimmed([Spelled(extension / 37 / 37), Spelled(extension / 37 % 37), Spelled(extension % 37)])
             + "/" + base} else {})
  }

  /** The call itself and, where the suffix ranges meet, its alternate. */
  function Meant(call: string): set<string>
    requires OneSlash(call)
  {
    if Ambiguous(call) then {call, Alternate(call)} else {call}
  }

  lemma DigitSpelled(n: nat)
    requires n < 10
    ensures Spelled(n) as int == '0' as int + n
  {}

  lemma LetterSpelled(n: nat)
    requires n < 26
    ensures Spelled(10 + n) as int == 'A' as int + n
  {
    var letters := "ABCDEFGHIJKLMNOPQRSTUVWXYZ";
    assert "0123456789ABCDEFGHIJKLMNOPQRSTUVWXYZ " == "0123456789" + letters + " ";
    assert forall i :: 0 <= i < 26 ==> letters[i] as int == 'A' as int + i;
  }

  /** The encoder's digits are spelled as the characters they came from. */
  lemma SpelledBack(c: char)
    requires Alnum(c) || c == ' '
    ensures Spelled(Code(c)) == c
  {
    if Digit(c) {
      DigitSpelled(Code(c));
    } else if Letter(c) {
      LetterSpelled(Code(c) - 10);
    }
  }

  lemma MarkExpands(base: string, suffix: string)
    requires OneMark(suffix)
    ensures base + "/" + [Spelled(SuffixCode(suffix) - 60000)] == base + "/" + suffix
  {
    SpelledBack(suffix[0]);
    assert suffix == [suffix[0]];
  }

  lemma DigitsExpand(base: string, suffix: string)
    requires TwoDigits(suffix)
    ensures
      var e := SuffixCode(suffix) - 60026;
      0 <= e < 100 && base + "/" + [Spelled(e / 10), Spelled(e % 10)] == base + "/" + suffix
  {
    hide Spelled;
    SpelledBack(suffix[0]);
    SpelledBack(suffix[1]);
    Digits10(suffix[0] as int - '0' as int, suffix[1] as int - '0' as int);
    assert suffix == [suffix[0], suffix[1]];
  }

  /** A suffix stands for itself and for the one that shares its code. */
  lemma SuffixExpands(base: string, suffix: string)
    requires OneMark(suffix) || TwoDigits(suffix)
    ensures Expansions(base, SuffixCode(suffix))
            == if LetterOverlap(suffix) || NumberOverlap(suffix)
               then {base + "/" + suffix, base + "/" + OtherSuffix(suffix)} else {base + "/" + suffix}
  {
    hide SuffixCode;
    SuffixRange(suffix);
    if OneMark(suffix) { MarkExpands(base, suffix); } else { DigitsExpand(base, suffix); }
    if LetterOverlap(suffix) || NumberOverlap(suffix) {
      OtherTwice(suffix);
      var other := OtherSuffix(suffix);
      SuffixCodesCollide(suffix, other);
      SuffixRange(other);
      if OneMark(other) { MarkExpands(base, other); } else { DigitsExpand(base, other); }
    }
  }

  lemma SuffixRange(suffix: string)
    requires OneMark(suffix) || TwoDigits(suffix)
    ensures OneMark(suffix) ==> 60000 <= SuffixCode(suffix) < 60036
    ensures OneMark(suffix) ==> (SuffixCode(suffix) >= 60026 <==> LetterOverlap(suffix))
    ensures TwoDigits(suffix) ==> 60026 <= SuffixCode(suffix) < 60126
    ensures TwoDigits(suffix) ==> (SuffixCode(suffix) < 60036 <==> NumberOverlap(suffix))
  {}

  lemma PrefixExpands(base: string, prefix: string)
    requires 1 <= |prefix| <= 3 && AllAlnum(prefix)
    ensures Expansions(base, PrefixCode(prefix)) == {prefix + "/" + base}
  {
    var three := Blanks(3 - |prefix|) + prefix;
    PrefixIs(prefix);
    ThreeDigits(Code(three[0]), Code(three[1]), Code(three[2]));
    hide PrefixCode, Code, Spelled, Trimmed;
    SpelledBack(three[0]);
    SpelledBack(three[1]);
    SpelledBack(three[2]);
    assert three == [three[0], three[1], three[2]];
    TrimBlanks(3 - |prefix|, prefix);
  }

  lemma ThreeDigits(a: nat, b: nat, c: nat)
    requires a < 37 && b < 37 && c < 37
    ensures var n := (a * 37 + b) * 37 + c; n < 50653 && n / 37 / 37 == a && n / 37 % 37 == b && n % 37 == c
  {
    Digit37((a * 37 + b), c, ((a * 37 + b) * 37 + c) / 37, ((a * 37 + b) * 37 + c) % 37);
    Digit37(a, b, (a * 37 + b) / 37, (a * 37 + b) % 37);
  }

  lemma {:induction false} TrimBlanks(n: nat, s: string)
    requires s != "" && s[0] != ' '
    ensures Trimmed(Blanks(n) + s) == s
  {
    if n == 0 {
      assert Blanks(0) + s == s;
    } else {
      TrimBlanks(n - 1, s);
      assert (Blanks(n) + s)[1..] == Blanks(n - 1) + s;
    }
  }

  /** From the base call and the number sent, a receiver gets back exactly the call, or the
      call and its alternate. */
  lemma ExtensionExpands(call: string)
    requires Compound(call)
    ensures OneSlash(call) && Expansions(BaseOf(call), Extension(call)) == Meant(call)
  {
    hide BaseCall, SuffixCode, PrefixCode, Expansions, FindSlash;
    SlashSplits(call);
    if Suffixed(call) {
      SuffixExpands(LeftOf(call), RightOf(call));
    } else {
      PrefixedIsPlain(call);
      PrefixExpands(RightOf(call), LeftOf(call));
    }
  }

  // ---------- Every planned frame decodes ----------

  /** What a receiver should get from the frames of a station. */
  predicate Carries(frame: Frame, call: string, locator: string, dbm: nat) {
    && frame.payload < 0x4_0000_0000_0000 && frame.symbols == Symbols(frame.payload)
    && KindOf(frame.payload) == frame.kind && Decodable(frame.payload)
    && match frame.kind
       case Type1 => |locator| >= 4 && DecodePayload(frame.payload) == Ordinary(call, locator[..4], dbm)
       case Type2 =>
         && Compound(call) && DecodePayload(frame.payload) == Extended(BaseOf(call), Extension(call), dbm)
         && OneSlash(call) && Expansions(BaseOf(call), Extension(call)) == Meant(call)
       case Type3 => DecodePayload(frame.payload) == Hashed(locator, CallHash(Inner(call)), dbm)
  }

  lemma PlanDecodes(call: string, locator: string, dbm: nat)
    requires Planned(call, locator, dbm).Some?
    ensures var plan := Planned(call, locator, dbm).value;
            forall i :: 0 <= i < |plan.frames| ==> Carries(plan.frames[i], call, locator, dbm)
  {
    hide Symbols, Type1Payload, Type2Payload, Type3Payload, BaseCall, StationPower, Extension, CallHash, Decodable;
    hide DecodePayload, KindOf, Segments, Prefixed, Suffixed, Compound, BaseOf, Ambiguous, Alternate;
    hide Expansions, Meant, OneSlash;
    if call[0] == '<' {
      HashedCarries(Inner(call), call, locator, dbm);
    } else if BaseCall(call) {
      OrdinaryCarries(call, locator, dbm);
    } else {
      ExtendedCarries(call, locator, dbm);
      if |locator| == 6 {
        OpenIsInner(call);
        HashedCarries(call, call, locator, dbm);
      }
    }
  }

  function KindsFor(call: string, locator: string): seq<WsprType> {
    if Bracketed(call) then [Type3]
    else if BaseCall(call) then [Type1]
    else if |locator| == 4 then [Type2]
    else [Type2, Type3]
  }

  predicate Sendable(call: string) { BaseCall(call) || Compound(call) }

  /** Which stations have a plan, and of which types its frames are: a bracketed call needs
      six characters of locator for its one frame, an extended one sends a second frame when
      it has them. */
  lemma PlanShape(call: string, locator: string, dbm: nat)
    ensures Planned(call, locator, dbm).Some?
            <==> Station(call, locator, dbm) && Sendable(Inner(call)) && (Bracketed(call) ==> |locator| == 6)
    ensures Planned(call, locator, dbm).Some? ==>
              Kinds(Planned(call, locator, dbm).value.frames) == KindsFor(call, locator)
  {
    hide Symbols, Type1Payload, Type2Payload, Type3Payload, BaseCall, StationPower, Prefixed, Suffixed;
    hide Ambiguous, Alternate;
    if Station(call, locator, dbm) {
      if call[0] == '<' { OpeningIsBracketed(call); } else { OpenIsInner(call); }
    }
  }

  function Kinds(frames: seq<Frame>): seq<WsprType> {
    seq(|frames|, i requires 0 <= i < |frames| => frames[i].kind)
  }

  lemma OpenIsInner(call: string)
    requires call != "" && call[0] != '<'
    ensures Inner(call) == call
  {}

  lemma OrdinaryCarries(call: string, locator: string, dbm: nat)
    requires BaseCall(call) && StationLocator(locator) && StationPower(dbm)
    ensures Carries(FrameOf(Type1, Type1Payload(call, locator[..4], dbm)), call, locator, dbm)
  {
    hide Symbols, Type1Payload, BaseCall, StationPower, Decodable, DecodePayload, KindOf;
    Type1Decodes(call, locator[..4], dbm);
  }

  lemma ExtendedCarries(call: string, locator: string, dbm: nat)
    requires Compound(call) && StationPower(dbm)
    ensures Carries(FrameOf(Type2, Type2Payload(call, dbm)), call, locator, dbm)
  {
    hide Symbols, BaseCall, StationPower, Decodable, DecodePayload, KindOf, Compound, Extension, BaseOf;
    Type2Decodes(BaseOf(call), Extension(call), dbm);
    ExtensionExpands(call);
    hide Expansions, Meant, OneSlash;
  }

  lemma HashedCarries(hashed: string, call: string, locator: string, dbm: nat)
    requires SixLocator(locator) && StationPower(dbm) && Inner(call) == hashed
    ensures Carries(FrameOf(Type3, Type3Payload(hashed, locator, dbm)), call, locator, dbm)
  {
    hide Symbols, StationPower, Decodable, DecodePayload, KindOf, SixLocator, CallHash, Inner;
    Type3Decodes(locator, CallHash(hashed), dbm);
  }

  /** The symbols on the air give the frame's payload back. */
  lemma FrameReadsBack(frame: Frame, call: string, locator: string, dbm: nat, phase: bit)
    requires Carries(frame, call, locator, dbm)
    ensures forall p :: 0 <= p < SYMBOLS ==> frame.symbols[p] <= 3
    ensures |frame.symbols| == SYMBOLS && ReadSymbols(frame.symbols, phase) == frame.payload
  {
    hide Symbols, ReadSymbols, Decodable, DecodePayload, KindOf, Extension, CallHash, Expansions, Meant;
    FiftyBits(50);
    ChannelReadsBack(frame.payload, phase);
  }

  lemma FiftyBits(n: nat)
    requires n == 50
    ensures Pow2(n) == 0x4_0000_0000_0000
  {
    assert Pow2(10) == 1024;
    TimesThousand(10);
    TimesThousand(20);
    TimesThousand(30);
    TimesThousand(40);
  }

  // ---------- Which calls share a Type 2 payload ----------

  /** The one is the other with its suffix Q..Z written 00..09 or the other way round. */
  predicate Twins(call: string, other: string) {
    OneSlash(call) && Ambiguous(call) && other == Alternate(call)
  }

  lemma SlashSplits(call: string)
    requires OneSlash(call)
    ensures call == LeftOf(call) + "/" + RightOf(call)
  {}

  lemma SlashJoins(left: string, right: string)
    requires forall i :: 0 <= i < |left| ==> left[i] != '/'
    requires forall i :: 0 <= i < |right| ==> right[i] != '/'
    ensures var call := left + "/" + right; OneSlash(call) && LeftOf(call) == left && RightOf(call) == right
  {
    var call := left + "/" + right;
    assert call[|left|] == '/';
    assert FindSlash(call) == |left|;
    assert call[|left| + 1..] == right;
  }

  lemma CodesAgree(a: char, b: char)
    requires Alnum(a) && Alnum(b) && Code(a) == Code(b)
    ensures a == b
  {
    CharOfCode(a);
    CharOfCode(b);
  }

  /** Two suffixes share a code exactly when they are equal or Q..Z against 00..09. */
  lemma SuffixCodesCollide(a: string, b: string)
    requires (OneMark(a) || TwoDigits(a)) && (OneMark(b) || TwoDigits(b))
    ensures SuffixCode(a) == SuffixCode(b)
            <==> a == b || ((LetterOverlap(a) || NumberOverlap(a)) && b == OtherSuffix(a))
  {
    if OneMark(a) && OneMark(b) {
      if SuffixCode(a) == SuffixCode(b) {
        CodesAgree(a[0], b[0]);
      }
    } else if TwoDigits(a) && TwoDigits(b) {
    } else if OneMark(a) {
      MarkAgainstDigits(a, b);
    } else {
      MarkAgainstDigits(b, a);
    }
  }

  lemma MarkAgainstDigits(mark: string, digits: string)
    requires OneMark(mark) && TwoDigits(digits)
    ensures SuffixCode(mark) == SuffixCode(digits) <==> LetterOverlap(mark) && digits == OtherSuffix(mark)
    ensures SuffixCode(mark) == SuffixCode(digits) <==> NumberOverlap(digits) && mark == OtherSuffix(digits)
  {
    var ten, one := digits[0] as int - '0' as int, digits[1] as int - '0' as int;
    if SuffixCode(mark) == SuffixCode(digits) {
      assert Code(mark[0]) == 26 + 10 * ten + one;
      assert ten == 0;
    }
  }

  lemma PrefixCodesDiffer(a: string, b: string)
    requires 1 <= |a| <= 3 && AllAlnum(a) && 1 <= |b| <= 3 && AllAlnum(b)
    requires PrefixCode(a) == PrefixCode(b)
    ensures a == b
  {
    var x, y := Blanks(3 - |a|) + a, Blanks(3 - |b|) + b;
    Base37Digits(x, y);
    forall i | 0 <= i < 3 ensures x[i] == y[i] {
      assert i < 3 - |a| ==> x[i] == ' ';
      assert i < 3 - |b| ==> y[i] == ' ';
      CharOfCode(x[i]);
      CharOfCode(y[i]);
    }
    assert x == y;
    assert Alnum(a[0]) && Alnum(b[0]) && !Alnum(' ');
    assert x[3 - |a|] == a[0] && y[3 - |b|] == b[0];
    assert |a| == |b|;
    assert a == x[3 - |a|..] && b == y[3 - |b|..];
  }

  lemma Base37Digits(x: string, y: string)
    requires |x| == |y| == 3
    requires (Code(x[0]) * 37 + Code(x[1])) * 37 + Code(x[2]) == (Code(y[0]) * 37 + Code(y[1])) * 37 + Code(y[2])
    ensures forall i :: 0 <= i < 3 ==> Code(x[i]) == Code(y[i])
  {
    hide Code;
    Digit37(Code(x[0]) * 37 + Code(x[1]), Code(x[2]), Code(y[0]) * 37 + Code(y[1]), Code(y[2]));
    Digit37(Code(x[0]), Code(x[1]), Code(y[0]), Code(y[1]));
  }

  lemma Digit37(q: nat, r: nat, u: nat, v: nat)
    requires r < 37 && v < 37 && q * 37 + r == u * 37 + v
    ensures q == u && r == v
  {}

  lemma ExtensionDecides(a: string, b: string)
    requires Compound(a) && Compound(b)
    ensures BaseOf(a) == BaseOf(b) && Extension(a) == Extension(b) <==> a == b || Twins(a, b)
  {
    hide BaseCall, SuffixCode, PrefixCode, Ambiguous, OneMark, TwoDigits, OneSlash, LeftOf, RightOf, Alternate;
    if Suffixed(a) && Suffixed(b) {
      SuffixedDecides(a, b);
    } else if Prefixed(a) && Prefixed(b) {
      SlashSplits(a);
      SlashSplits(b);
      PrefixedIsPlain(a);
      if Extension(a) == Extension(b) {
        PrefixCodesDiffer(LeftOf(a), LeftOf(b));
      }
    } else if Suffixed(a) {
      if Twins(a, b) { TwinIsSuffixed(a); }
    } else {
      PrefixedIsPlain(a);
    }
  }

  lemma PrefixedIsPlain(call: string)
    requires OneSlash(call) && BaseCall(RightOf(call))
    ensures !Ambiguous(call)
  {}

  lemma SuffixedDecides(a: string, b: string)
    requires Suffixed(a) && Suffixed(b)
    ensures LeftOf(a) == LeftOf(b) && SuffixCode(RightOf(a)) == SuffixCode(RightOf(b)) <==> a == b || Twins(a, b)
  {
    hide BaseCall, SuffixCode;
    SlashSplits(a);
    SlashSplits(b);
    SuffixCodesCollide(RightOf(a), RightOf(b));
    if Twins(a, b) {
      TwinSplits(a);
    }
  }

  lemma BaseHasNoSlash(call: string)
    requires BaseCall(call)
    ensures forall i :: 0 <= i < |call| ==> call[i] != '/'
  {}

  lemma TwinSplits(call: string)
    requires Suffixed(call) && Ambiguous(call)
    ensures var other := Alternate(call);
            OneSlash(other) && LeftOf(other) == LeftOf(call) && RightOf(other) == OtherSuffix(RightOf(call))
  {
    BaseHasNoSlash(LeftOf(call));
    hide BaseCall, FindSlash;
    SlashJoins(LeftOf(call), OtherSuffix(RightOf(call)));
  }

  lemma TwinIsSuffixed(call: string)
    requires Suffixed(call) && Ambiguous(call)
    ensures var other := Alternate(call);
            Suffixed(other) && Ambiguous(other) && Alternate(other) == call && other != call
  {
    hide BaseCall, FindSlash;
    TwinSplits(call);
    SlashSplits(call);
    OtherTwice(RightOf(call));
  }

  lemma OtherTwice(suffix: string)
    requires LetterOverlap(suffix) || NumberOverlap(suffix)
    ensures var other := OtherSuffix(suffix);
            && (LetterOverlap(other) || NumberOverlap(other)) && (OneMark(other) || TwoDigits(other))
            && OtherSuffix(other) == suffix && other != suffix
  {}

  /** Two extended calls share a Type 2 payload exactly when the powers agree and the calls
      are equal or twins. */
  lemma Type2Collisions(a: string, b: string, dbmA: nat, dbmB: nat)
    requires Compound(a) && Compound(b) && StationPower(dbmA) && StationPower(dbmB)
    ensures Type2Payload(a, dbmA) == Type2Payload(b, dbmB) <==> dbmA == dbmB && (a == b || Twins(a, b))
  {
    hide Compound, BaseOf, Extension, BaseCall, StationPower, DecodePayload, Decodable, KindOf, Twins, Payload, Packed;
    Type2Decodes(BaseOf(a), Extension(a), dbmA);
    Type2Decodes(BaseOf(b), Extension(b), dbmB);
    ExtensionDecides(a, b);
  }

  /** The alternate call is planned for the same station, names the first call back and
      sends the same Type 2 payload. */
  lemma AlternateIsMutual(call: string, locator: string, dbm: nat)
    requires Planned(call, locator, dbm).Some? && Planned(call, locator, dbm).value.ambiguous
    ensures var plan := Planned(call, locator, dbm).value;
            var other := Planned(plan.alternate, locator, dbm);
            && plan.alternate != call && other.Some? && other.value.ambiguous && other.value.alternate == call
            && other.value.frames[0] == plan.frames[0]
  {
    hide Planned;
    AmbiguousPlan(call, locator, dbm);
    var alternate := Alternate(call);
    AmbiguousIsSuffixed(call);
    TwinIsSuffixed(call);
    TwinIsStation(call);
    CompoundIsNoBase(alternate);
    hide FrameOf, Type2Payload, BaseCall, StationPower, Segments, Suffixed, Prefixed, Alternate, OneSlash;
    ExtendedPlan(alternate, locator, dbm);
    Type2Collisions(call, alternate, dbm, dbm);
  }

  /** What an ambiguous plan shows of its call. */
  lemma AmbiguousPlan(call: string, locator: string, dbm: nat)
    requires Planned(call, locator, dbm).Some? && Planned(call, locator, dbm).value.ambiguous
    ensures Station(call, locator, dbm) && call[0] != '<' && Compound(call) && OneSlash(call) && Ambiguous(call)
    ensures
      var plan := Planned(call, locator, dbm).value;
      plan.alternate == Alternate(call) && plan.frames[0] == FrameOf(Type2, Type2Payload(call, dbm))
  {
    hide FrameOf, Type1Payload, Type2Payload, Type3Payload, BaseCall, StationPower, Segments, Prefixed, Suffixed;
    hide Ambiguous, Alternate;
    if Compound(call) { CompoundHasSlash(call); }
  }

  /** The plan of an extended call. */
  lemma ExtendedPlan(call: string, locator: string, dbm: nat)
    requires Station(call, locator, dbm) && call[0] != '<' && Compound(call) && OneSlash(call) && !BaseCall(call)
    ensures Planned(call, locator, dbm).Some?
    ensures
      var plan := Planned(call, locator, dbm).value;
      && plan.ambiguous == Ambiguous(call) && (plan.ambiguous ==> plan.alternate == Alternate(call))
      && plan.frames[0] == FrameOf(Type2, Type2Payload(call, dbm))
  {
    hide FrameOf, Type1Payload, Type2Payload, Type3Payload, BaseCall, StationPower, Segments, Prefixed, Suffixed;
    hide Ambiguous, Alternate;
  }

  lemma AmbiguousIsSuffixed(call: string)
    requires Compound(call) && Ambiguous(call)
    ensures Suffixed(call)
  {}

  lemma CompoundIsNoBase(call: string)
    requires OneSlash(call)
    ensures !BaseCall(call)
  {
    if BaseCall(call) {
      BaseHasNoSlash(call);
    }
  }

  lemma TwinIsStation(call: string)
    requires Suffixed(call) && Ambiguous(call) && StationCall(call) && call[0] != '<'
    ensures StationCall(Alternate(call)) && Alternate(call)[0] != '<'
  {
    var left := LeftOf(call);
    BaseShape(left);
    hide BaseCall, FindSlash;
    ExtendedIsStation(left, OtherSuffix(RightOf(call)));
  }

  lemma ExtendedIsStation(left: string, right: string)
    requires 3 <= |left| <= 6 && AllAlnum(left) && 1 <= |right| <= 2 && AllAlnum(right)
    requires exists i :: 0 <= i < |left| && Letter(left[i])
    requires exists i :: 0 <= i < |left| && Digit(left[i])
    ensures var call := left + "/" + right; StationCall(call) && call[0] != '<'
  {
    var call := left + "/" + right;
    assert forall i :: 0 <= i < |left| ==> call[i] == left[i] && Alnum(call[i]);
    assert call[|left|] == '/' && forall i :: |left| < i < |call| ==> Alnum(call[i]);
    var l :| 0 <= l < |left| && Letter(left[l]);
    var d :| 0 <= d < |left| && Digit(left[d]);
    assert Letter(call[l]) && Digit(call[d]);
    assert '/' !in PLACEHOLDER && '/' in call;
  }

  lemma BaseShape(call: string)
    requires BaseCall(call)
    ensures 3 <= |call| <= 6 && AllAlnum(call)
    ensures exists i :: 0 <= i < |call| && Letter(call[i])
    ensures exists i :: 0 <= i < |call| && Digit(call[i])
  {
    var six, lead := Padded(call), Lead(call);
    assert forall i :: 0 <= i < |call| ==> six[lead + i] == call[i];
    assert Digit(six[2]) && six[2] == call[2 - lead];
    assert Letter(six[3]) && six[3] == call[3 - lead];
  }

  /** The ambiguity flag is set exactly when some other accepted call sends the same payload. */
  lemma AmbiguityIsExact(call: string, locator: string, dbm: nat)
    requires Planned(call, locator, dbm).Some? && Planned(call, locator, dbm).value.frames[0].kind == Type2
    ensures Planned(call, locator, dbm).value.ambiguous <==>
            exists other, where, power ::
              && other != call && Planned(other, where, power).Some?
              && Planned(other, where, power).value.frames[0].payload
                 == Planned(call, locator, dbm).value.frames[0].payload
  {
    var plan := Planned(call, locator, dbm).value;
    if plan.ambiguous {
      AlternateIsMutual(call, locator, dbm);
    } else if other, where, power :|
        && other != call && Planned(other, where, power).Some?
        && Planned(other, where, power).value.frames[0].payload == plan.frames[0].payload {
      NeverShared(call, locator, dbm, other, where, power);
    }
  }

  lemma NeverShared(call: string, locator: string, dbm: nat, other: string, where: string, power: nat)
    requires Planned(call, locator, dbm).Some? && Planned(call, locator, dbm).value.frames[0].kind == Type2
    requires Planned(other, where, power).Some? && other != call
    requires Planned(other, where, power).value.frames[0].payload == Planned(call, locator, dbm).value.frames[0].payload
    ensures Planned(call, locator, dbm).value.ambiguous
  {
    hide Planned;
    FirstIsExtended(call, locator, dbm);
    FirstKind(call, locator, dbm);
    FirstKind(other, where, power);
    FirstIsExtended(other, where, power);
    hide Type2Payload, StationPower, Compound, Ambiguous, Twins, KindOf;
    Type2Collisions(call, other, dbm, power);
    TwinsAreAmbiguous(call, other);
  }

  lemma TwinsAreAmbiguous(call: string, other: string)
    ensures Twins(call, other) ==> OneSlash(call) && Ambiguous(call)
  {}

  lemma FirstKind(call: string, locator: string, dbm: nat)
    requires Planned(call, locator, dbm).Some?
    ensures var first := Planned(call, locator, dbm).value.frames[0]; KindOf(first.payload) == first.kind
  {
    hide Planned, Decodable, DecodePayload, KindOf;
    PlanDecodes(call, locator, dbm);
    var first := Planned(call, locator, dbm).value.frames[0];
    assert Carries(first, call, locator, dbm);
  }

  lemma FirstIsExtended(call: string, locator: string, dbm: nat)
    requires Planned(call, locator, dbm).Some? && Planned(call, locator, dbm).value.frames[0].kind == Type2
    ensures Compound(call) && OneSlash(call) && StationPower(dbm)
    ensures
      var plan := Planned(call, locator, dbm).value;
      plan.ambiguous == Ambiguous(call) && plan.frames[0].payload == Type2Payload(call, dbm)
  {
    hide Symbols, Type1Payload, Type2Payload, Type3Payload, BaseCall, StationPower, Segments, Prefixed, Suffixed;
    hide Ambiguous, Alternate;
    if Compound(call) { CompoundHasSlash(call); }
  }
}
