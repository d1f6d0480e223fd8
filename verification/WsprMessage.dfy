/**
 WSPR message packing: the call, locator and power grammars, the mixed-radix fields of
 the three message types, and their decoders.
 */
module WsprMessage {
  import opened Callsign
  import opened Options
  import opened WsprChannel

  // ---------- Characters ----------

  function Code(c: char): (code: nat)
    ensures code <= 36
  {
    if Digit(c) then c as int - '0' as int
    else if Letter(c) then c as int - 'A' as int + 10
    else 36
  }

  /** The character of a code; 36 is the padding blank. */
  function CharOf(code: nat): (c: char)
    requires code <= 36
    ensures Code(c) == code
  {
    if code < 10 then (code + '0' as int) as char
    else if code < 36 then (code - 10 + 'A' as int) as char
    else ' '
  }

  lemma CharOfCode(c: char)
    requires Alnum(c) || c == ' '
    ensures CharOf(Code(c)) == c
  {}

  predicate AllAlnum(s: string) {
    forall i :: 0 <= i < |s| ==> Alnum(s[i])
  }

  // ---------- Six packed characters ----------

  /** Alphanumeric or blank, alphanumeric, digit, then three letters or blanks. */
  predicate Packable(six: string) {
    && |six| == 6
    && (Alnum(six[0]) || six[0] == ' ') && Alnum(six[1]) && Digit(six[2])
    && forall i :: 3 <= i < 6 ==> Letter(six[i]) || six[i] == ' '
  }

  function Packed(six: string): (n: nat)
    requires Packable(six)
    ensures n < 0x1000_0000
  {
    var head := (Code(six[0]) * 36 + Code(six[1])) * 10 + Code(six[2]);
    ((head * 27 + (Code(six[3]) - 10)) * 27 + (Code(six[4]) - 10)) * 27 + (Code(six[5]) - 10)
  }

  function Unpacked(n: nat): (six: string)
    requires n < 37 * 36 * 10 * 27 * 27 * 27
  {
    var head := n / 27 / 27 / 27;
    [CharOf(head / 10 / 36), CharOf(head / 10 % 36), CharOf(head % 10),
     CharOf(n / 27 / 27 % 27 + 10), CharOf(n / 27 % 27 + 10), CharOf(n % 27 + 10)]
  }

  lemma Digits27(q: nat, r: nat)
    requires r < 27
    ensures (q * 27 + r) / 27 == q && (q * 27 + r) % 27 == r
  {}

  lemma Digits10(q: nat, r: nat)
    requires r < 10
    ensures (q * 10 + r) / 10 == q && (q * 10 + r) % 10 == r
  {}

  lemma Digits36(q: nat, r: nat)
    requires r < 36
    ensures (q * 36 + r) / 36 == q && (q * 36 + r) % 36 == r
  {}

  lemma PackableCodes(six: string)
    requires Packable(six)
    ensures Code(six[0]) < 37 && Code(six[1]) < 36 && Code(six[2]) < 10
    ensures 10 <= Code(six[3]) < 37 && 10 <= Code(six[4]) < 37 && 10 <= Code(six[5]) < 37
  {}

  lemma PackableChars(six: string)
    requires Packable(six)
    ensures forall i :: 0 <= i < 6 ==> CharOf(Code(six[i])) == six[i]
  {
    hide Code, CharOf;
    forall i | 0 <= i < 6 ensures CharOf(Code(six[i])) == six[i] {
      CharOfCode(six[i]);
    }
  }

  lemma HeadUnpacks(a: nat, b: nat, c: nat)
    requires a < 37 && b < 36 && c < 10
    ensures
      var head := (a * 36 + b) * 10 + c;
      head / 10 / 36 == a && head / 10 % 36 == b && head % 10 == c && head < 37 * 36 * 10
  {
    Digits36(a, b);
    Digits10(a * 36 + b, c);
  }

  lemma TailUnpacks(head: nat, d: nat, e: nat, f: nat)
    requires d < 27 && e < 27 && f < 27
    ensures
      var n := ((head * 27 + d) * 27 + e) * 27 + f;
      n / 27 / 27 / 27 == head && n / 27 / 27 % 27 == d && n / 27 % 27 == e && n % 27 == f
  {
    Digits27(head, d);
    Digits27(head * 27 + d, e);
    Digits27((head * 27 + d) * 27 + e, f);
  }

  lemma UnpackInverts(six: string)
    requires Packable(six)
    ensures Packed(six) < 37 * 36 * 10 * 27 * 27 * 27
    ensures Unpacked(Packed(six)) == six
  {
    PackableCodes(six);
    PackableChars(six);
    HeadUnpacks(Code(six[0]), Code(six[1]), Code(six[2]));
    TailUnpacks((Code(six[0]) * 36 + Code(six[1])) * 10 + Code(six[2]),
                Code(six[3]) - 10, Code(six[4]) - 10, Code(six[5]) - 10);
    hide Code, CharOf;
  }

  /** Unsigned 32-bit arithmetic. */
  function W32(n: int): nat { n % 0x1_0000_0000 }

  /** The packing as far as character i. */
  function PackedTo(call: string, i: nat): int
    requires |call| == 6 && 3 <= i <= 6
  {
    if i == 3 then (Code(call[0]) * 36 + Code(call[1])) * 10 + Code(call[2])
    else PackedTo(call, i - 1) * 27 + (Code(call[i - 1]) - 10)
  }

  lemma {:induction false} PackedToFits(call: string, i: nat)
    requires Packable(call) && 3 <= i <= 6
    ensures 0 <= PackedTo(call, i) < (match i case 3 => 13320 case 4 => 359640 case 5 => 9710280 case _ => 0x1000_0000)
    ensures i == 6 ==> PackedTo(call, i) == Packed(call)
  {
    if i == 3 {
    } else {
      PackedToFits(call, i - 1);
      assert Code(call[i - 1]) >= 10;
    }
    if i == 6 {
      assert PackedTo(call, 5) == PackedTo(call, 4) * 27 + (Code(call[4]) - 10);
      assert PackedTo(call, 4) == PackedTo(call, 3) * 27 + (Code(call[3]) - 10);
    }
  }

  /** For packable characters no step of the packing wraps. */
  method PackSix(call: string) returns (n: nat)
    requires |call| == 6
    ensures Packable(call) ==> n == Packed(call)
  {
    hide Packed, Packable;
    n := Code(call[0]);
    n := W32(n * 36 + Code(call[1]));
    n := W32(n * 10 + Code(call[2]));
    for i := 3 to 6
      invariant Packable(call) ==> n == PackedTo(call, i)
    {
      n := W32(n * 27 + Code(call[i]) - 10);
      if Packable(call) {
        PackedToFits(call, i + 1);
      }
    }
    if Packable(call) {
      PackedToFits(call, 6);
    }
  }

  // ---------- Station grammar ----------

  const MAX_TOKEN := 12

  predicate StationPower(dbm: nat) {
    dbm in {0, 3, 7, 10, 13, 17, 20, 23, 27, 30, 33, 37, 40, 43, 47, 50, 53, 57, 60}
  }

  /** The powers of a station, up to 60 dBm, are told by their last digit. */
  lemma PowersAre(dbm: nat)
    ensures StationPower(dbm) <==> dbm <= 60 && dbm % 10 in {0, 3, 7}
  {
    if dbm <= 60 {
      var tens, ones := dbm / 10, dbm % 10;
      assert tens in {0, 1, 2, 3, 4, 5, 6};
    }
  }

  predicate Square(grid: string) {
    && |grid| == 4 && 'A' <= grid[0] <= 'R' && 'A' <= grid[1] <= 'R' && Digit(grid[2]) && Digit(grid[3])
  }

  predicate StationLocator(locator: string) {
    && (|locator| == 4 || |locator| == 6) && Square(locator[..4])
    && (|locator| == 6 ==> 'A' <= locator[4] <= 'X' && 'A' <= locator[5] <= 'X')
  }

  predicate Bracketed(call: string) {
    |call| >= 2 && call[0] == '<' && call[|call| - 1] == '>'
  }

  function Inner(call: string): string {
    if Bracketed(call) then call[1..|call| - 1] else call
  }

  predicate HasLetter(s: string) { exists i :: 0 <= i < |s| && Letter(s[i]) }

  predicate HasDigit(s: string) { exists i :: 0 <= i < |s| && Digit(s[i]) }

  /** Letters and digits, and slashes that do not touch. */
  predicate Slashed(s: string) {
    && (forall i :: 0 <= i < |s| ==> Alnum(s[i]) || s[i] == '/')
    && (forall i :: 0 < i < |s| ==> s[i - 1] != '/' || s[i] != '/')
  }

  /** Uppercase letters and digits, at least one of each, in nonempty slash-separated segments. */
  predicate Segments(s: string) {
    && |s| >= 3 && s != PLACEHOLDER && s[0] != '/' && s[|s| - 1] != '/'
    && Slashed(s) && HasLetter(s) && HasDigit(s)
  }

  predicate StationCall(call: string) {
    3 <= |call| <= MAX_TOKEN && Segments(Inner(call))
  }

  predicate Station(call: string, locator: string, dbm: nat) {
    StationCall(call) && StationLocator(locator) && StationPower(dbm)
  }

  lemma NoCharacters(s: string)
    ensures !HasLetter(s[..0]) && !HasDigit(s[..0]) && Slashed(s[..0])
  {}

  lemma OneMoreCharacter(s: string, i: nat)
    requires i < |s|
    ensures HasLetter(s[..i + 1]) <==> HasLetter(s[..i]) || Letter(s[i])
    ensures HasDigit(s[..i + 1]) <==> HasDigit(s[..i]) || Digit(s[i])
    ensures Slashed(s[..i]) && (Alnum(s[i]) || (s[i] == '/' && (i == 0 || s[i - 1] != '/'))) ==> Slashed(s[..i + 1])
    ensures Slashed(s) ==> Alnum(s[i]) || (s[i] == '/' && (i == 0 || s[i - 1] != '/'))
  {
    var shorter, longer := s[..i], s[..i + 1];
    assert longer[i] == s[i];
    if HasLetter(shorter) {
      var j :| 0 <= j < |shorter| && Letter(shorter[j]);
      assert Letter(longer[j]);
    }
    if HasDigit(shorter) {
      var j :| 0 <= j < |shorter| && Digit(shorter[j]);
      assert Digit(longer[j]);
    }
    if HasLetter(longer) && !Letter(s[i]) {
      var j :| 0 <= j < |longer| && Letter(longer[j]);
      assert Letter(shorter[j]);
    }
    if HasDigit(longer) && !Digit(s[i]) {
      var j :| 0 <= j < |longer| && Digit(longer[j]);
      assert Digit(shorter[j]);
    }
  }

  method ValidStationCallsign(call0: string) returns (valid: bool)
    ensures valid == StationCall(call0)
  {
    hide HasLetter, HasDigit, Slashed;
    var call := call0;
    if |call| < 3 || |call| > MAX_TOKEN {
      return false;
    }
    if call[0] == '<' && call[|call| - 1] == '>' {
      call := call[1..|call| - 1];
    }
    if call == PLACEHOLDER || |call| < 3 || call[0] == '/' || call[|call| - 1] == '/' {
      return false;
    }
    var hasLetter, hasDigit, slash := false, false, false;
    NoCharacters(call);
    for i := 0 to |call|
      invariant hasLetter == HasLetter(call[..i]) && hasDigit == HasDigit(call[..i])
      invariant slash == (i > 0 && call[i - 1] == '/') && Slashed(call[..i])
    {
      var c := call[i];
      OneMoreCharacter(call, i);
      if (!Letter(c) && !Digit(c) && c != '/') || (c == '/' && slash) {
        return false;
      }
      hasLetter := hasLetter || Letter(c);
      hasDigit := hasDigit || Digit(c);
      slash := c == '/';
    }
    assert call[..|call|] == call;
    return hasLetter && hasDigit;
  }

  // ---------- Ordinary calls ----------

  /** The digit of a call stands third: a call with it second gets a leading blank. */
  function Lead(call: string): nat
    requires |call| >= 3
  {
    if Digit(call[2]) then 0 else 1
  }

  function Blanks(n: nat): string { seq(n, _ => ' ') }

  function Padded(call: string): (six: string)
    requires |call| >= 3 && Lead(call) + |call| <= 6
    ensures |six| == 6
  {
    Blanks(Lead(call)) + call + Blanks(6 - Lead(call) - |call|)
  }

  predicate BaseCall(call: string) {
    && call != PLACEHOLDER && 3 <= |call| <= 6 && Lead(call) + |call| <= 6
    && Packable(Padded(call)) && Letter(Padded(call)[3]) && AllAlnum(call)
  }

  function Unpadded(six: string): string
    requires |six| == 6
  {
    var start := if six[0] == ' ' then 1 else 0;
    var end := if six[4] == ' ' then 4 else if six[5] == ' ' then 5 else 6;
    six[start..end]
  }

  lemma UnpadInverts(call: string)
    requires BaseCall(call)
    ensures Unpadded(Padded(call)) == call
  {
    var six, lead := Padded(call), Lead(call);
    assert forall i :: 0 <= i < |call| ==> six[lead + i] == call[i] && six[lead + i] != ' ';
    assert six[3] != ' ';
    assert six[lead..lead + |call|] == call;
  }

  // ---------- Fields ----------

  function Payload(n: nat, m: nat): nat { n * 0x40_0000 + m }

  /** Bitwise or. */
  function BitOr(a: nat, b: nat): nat {
    if a == 0 then b
    else if b == 0 then a
    else 2 * BitOr(a / 2, b / 2) + if a % 2 == 1 || b % 2 == 1 then 1 else 0
  }

  lemma {:induction false} OrDisjoint(n: nat, m: nat, k: nat)
    requires m < Pow2(k)
    ensures BitOr(n * Pow2(k), m) == n * Pow2(k) + m
    decreases k
  {
    if k == 0 {
    } else {
      var shifted := n * Pow2(k - 1);
      TimesTwo(n, Pow2(k - 1));
      OrDisjoint(n, m / 2, k - 1);
      OrStep(shifted, m);
    }
  }

  lemma TimesTwo(n: nat, p: nat)
    ensures n * (2 * p) == 2 * (n * p)
  {}

  lemma OrStep(shifted: nat, m: nat)
    ensures BitOr(2 * shifted, m) == 2 * BitOr(shifted, m / 2) + m % 2
  {}

  lemma TwentyTwoBits(k: nat)
    requires k == 22
    ensures Pow2(k) == 0x40_0000
  {
    TimesThousand(2);
    TimesThousand(12);
  }

  /** The two fields of a payload have no bit in common. */
  lemma OrIsPayload(n: nat, m: nat)
    requires m < 0x40_0000
    ensures BitOr(n * 0x40_0000, m) == Payload(n, m)
  {
    TwentyTwoBits(22);
    hide BitOr, Pow2;
    OrDisjoint(n, m, 22);
  }

  function SquareIndex(grid: string): (index: nat)
    requires Square(grid)
    ensures index <= 179 * 180 + 179
  {
    (179 - 10 * (grid[0] as int - 'A' as int) - (grid[2] as int - '0' as int)) * 180
    + 10 * (grid[1] as int - 'A' as int) + (grid[3] as int - '0' as int)
  }

  function Type1Field(grid: string, dbm: nat): (m: nat)
    requires Square(grid) && StationPower(dbm)
    ensures m < 0x40_0000
  {
    SquareIndex(grid) * 128 + dbm + 64
  }

  function Type1Payload(call: string, grid: string, dbm: nat): nat
    requires BaseCall(call) && Square(grid) && StationPower(dbm)
  {
    Payload(Packed(Padded(call)), Type1Field(grid, dbm))
  }

  function Type2Field(extension: nat, dbm: nat): (m: nat)
    requires extension < 65536 && StationPower(dbm)
    ensures m < 0x40_0000
  {
    extension % 32768 * 128 + dbm + (if extension >= 32768 then 66 else 65)
  }

  function Type3Field(hash: nat, dbm: nat): (m: nat)
    requires hash < 32768 && StationPower(dbm)
    ensures m < 0x40_0000
  {
    hash * 128 + 63 - dbm
  }

  // ---------- Decoders ----------

  datatype WsprType = Type1 | Type2 | Type3

  function CallBits(payload: nat): nat { payload / 0x40_0000 }

  function FieldBits(payload: nat): nat { payload % 0x40_0000 }

  /** The low seven bits, in which the power and the type are told. */
  function PowerBits(payload: nat): (low: nat)
    ensures low < 128
  {
    FieldBits(payload) % 128
  }

  lemma PowerBitsAreLowest(payload: nat)
    ensures PowerBits(payload) == payload % 128
  {
    var q, r := payload / 0x40_0000, payload % 0x40_0000;
    assert payload == 128 * (0x8000 * q + r / 128) + r % 128;
  }

  function KindOf(payload: nat): WsprType {
    var low := PowerBits(payload);
    if low < 64 then Type3
    else if (low - 64) % 10 in {0, 3, 7} then Type1
    else Type2
  }

  /** The low seven bits of a payload alone decide its type. */
  lemma LowSevenBitsDecide(a: nat, b: nat)
    requires a % 128 == b % 128
    ensures KindOf(a) == KindOf(b)
  {
    hide PowerBits;
    PowerBitsAreLowest(a);
    PowerBitsAreLowest(b);
  }

  lemma PayloadSplits(n: nat, m: nat)
    requires m < 0x40_0000
    ensures CallBits(Payload(n, m)) == n && FieldBits(Payload(n, m)) == m
    ensures PowerBits(Payload(n, m)) == m % 128
    ensures n < 0x1000_0000 ==> Payload(n, m) < 0x4_0000_0000_0000
  {}

  datatype Heard =
    | Ordinary(call: string, square: string, dbm: nat)
    | Extended(base: string, extension: nat, dbm: nat)
    | Hashed(locator: string, hash: nat, dbm: nat)

  function SquareOf(index: nat): string
    requires index < 180 * 180
  {
    var lon, lat := 179 - index / 180, index % 180;
    [('A' as int + lon / 10) as char, ('A' as int + lat / 10) as char,
     ('0' as int + lon % 10) as char, ('0' as int + lat % 10) as char]
  }

  predicate Decodable(payload: nat) {
    && CallBits(payload) < 37 * 36 * 10 * 27 * 27 * 27
    && match KindOf(payload)
       case Type1 => FieldBits(payload) / 128 < 180 * 180
       case Type2 => PowerBits(payload) >= 65
       case Type3 => true
  }

  function DecodePayload(payload: nat): Heard
    requires Decodable(payload)
  {
    var six, m, low := Unpacked(CallBits(payload)), FieldBits(payload) / 128, PowerBits(payload);
    match KindOf(payload)
    case Type1 => Ordinary(Unpadded(six), SquareOf(m), low - 64)
    case Type2 =>
      if (low - 64) % 10 in {1, 4, 8} then Extended(Unpadded(six), m, low - 65)
      else Extended(Unpadded(six), m + 32768, if low >= 66 then low - 66 else 0)
    case Type3 => Hashed(six[5..] + six[..5], m, 63 - low)
  }

  lemma SquareReadsBack(grid: string)
    requires Square(grid)
    ensures SquareOf(SquareIndex(grid)) == grid
  {
    var lon := 10 * (grid[0] as int - 'A' as int) + (grid[2] as int - '0' as int);
    var lat := 10 * (grid[1] as int - 'A' as int) + (grid[3] as int - '0' as int);
    var index := (179 - lon) * 180 + lat;
    assert index / 180 == 179 - lon && index % 180 == lat;
  }

  /** Every index below 180 * 180 is that of a square: no other squares are needed. */
  lemma EverySquareIsUsed(index: nat)
    requires index < 180 * 180
    ensures Square(SquareOf(index)) && SquareIndex(SquareOf(index)) == index
  {
    var lon, lat := 179 - index / 180, index % 180;
    assert lon == lon / 10 * 10 + lon % 10 && lat == lat / 10 * 10 + lat % 10;
  }

  lemma PowerResidue(dbm: nat)
    requires StationPower(dbm)
    ensures dbm <= 60 && dbm % 10 in {0, 3, 7}
    ensures (dbm + 1) % 10 in {1, 4, 8} && (dbm + 2) % 10 in {2, 5, 9}
  {}

  lemma Type1Decodes(call: string, grid: string, dbm: nat)
    requires BaseCall(call) && Square(grid) && StationPower(dbm)
    ensures var payload := Type1Payload(call, grid, dbm);
            && payload < 0x4_0000_0000_0000 && KindOf(payload) == Type1
            && Decodable(payload) && DecodePayload(payload) == Ordinary(call, grid, dbm)
  {
    var six, m := Padded(call), Type1Field(grid, dbm);
    PayloadSplits(Packed(six), m);
    UnpackInverts(six);
    UnpadInverts(call);
    SquareReadsBack(grid);
    PowerResidue(dbm);
    LowSeven(SquareIndex(grid), dbm + 64);
    hide StationPower, Packed, Unpacked, Unpadded, Padded, Payload, SquareIndex, SquareOf, CallBits, FieldBits;
    hide PowerBits;
  }

  lemma LowSeven(high: nat, low: nat)
    requires low < 128
    ensures (high * 128 + low) / 128 == high && (high * 128 + low) % 128 == low
  {}

  /** The extra power step carries the sixteenth bit of the extension. */
  lemma Type2FieldReads(extension: nat, dbm: nat)
    requires extension < 65536 && StationPower(dbm)
    ensures var m := Type2Field(extension, dbm);
            && m / 128 == extension % 32768 && m % 128 == dbm + (if extension >= 32768 then 66 else 65)
            && ((m % 128 - 64) % 10 in {1, 4, 8} <==> extension < 32768) && (m % 128 - 64) % 10 !in {0, 3, 7}
            && extension == m / 128 + (if extension >= 32768 then 32768 else 0)
  {
    PowerResidue(dbm);
    hide StationPower;
    LowSeven(extension % 32768, dbm + if extension >= 32768 then 66 else 65);
  }

  lemma Type2Decodes(base: string, extension: nat, dbm: nat)
    requires BaseCall(base) && extension < 65536 && StationPower(dbm)
    ensures var payload := Payload(Packed(Padded(base)), Type2Field(extension, dbm));
            && payload < 0x4_0000_0000_0000 && KindOf(payload) == Type2
            && Decodable(payload) && DecodePayload(payload) == Extended(base, extension, dbm)
  {
    var six, m := Padded(base), Type2Field(extension, dbm);
    PayloadSplits(Packed(six), m);
    UnpackInverts(six);
    UnpadInverts(base);
    Type2FieldReads(extension, dbm);
    hide Type2Field, StationPower, Packed, Unpacked, Unpadded, Padded, Payload, CallBits, FieldBits, PowerBits;
  }

  predicate SixLocator(locator: string) {
    StationLocator(locator) && |locator| == 6
  }

  /** The first letter goes last, where a letter belongs. */
  function Rotated(locator: string): (six: string)
    requires SixLocator(locator)
    ensures Packable(six)
  {
    locator[1..] + [locator[0]]
  }

  lemma Type3Decodes(locator: string, hash: nat, dbm: nat)
    requires SixLocator(locator) && hash < 32768 && StationPower(dbm)
    ensures var payload := Payload(Packed(Rotated(locator)), Type3Field(hash, dbm));
            && payload < 0x4_0000_0000_0000 && KindOf(payload) == Type3
            && Decodable(payload) && DecodePayload(payload) == Hashed(locator, hash, dbm)
  {
    var six, m := Rotated(locator), Type3Field(hash, dbm);
    PayloadSplits(Packed(six), m);
    UnpackInverts(six);
    PowerResidue(dbm);
    LowSeven(hash, 63 - dbm);
    assert six[5..] + six[..5] == locator;
    hide StationPower, Packed, Unpacked, Payload, CallBits, FieldBits, PowerBits;
  }
}
