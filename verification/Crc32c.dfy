/**
 CRC-32C (section 12.1 of RFC 3720), computed one bit at a time over a reflected register,
 and the proof that it detects every error confined to four consecutive bytes.

 The word operations have names of their own so that the inductive proofs below see
 them only through the few laws they need.
 */
module Crc32c {
  import opened Bytes
  import opened Octets
  import opened Words

  const POLYNOMIAL: bv32 := 0x82F63B78

  function Widen(b: byte): bv32 { Octet(b) as bv32 }

  /** One shift of the register. */
  function Step(crc: bv32): bv32 {
    (crc >> 1) ^ (if crc & 1 == 1 then POLYNOMIAL else 0)
  }

  function Steps(n: nat, crc: bv32): bv32 {
    if n == 0 then crc else Steps(n - 1, Step(crc))
  }

  function Absorb(crc: bv32, data: seq<byte>): bv32
    decreases |data|
  {
    if data == [] then crc else Absorb(Steps(8, Xor(crc, Widen(data[0]))), data[1..])
  }

  function Checksum(data: seq<byte>): bv32 {
    Xor(Absorb(0xFFFFFFFF, data), 0xFFFFFFFF)
  }

  /** The nested loops of the two crc32c functions. */
  method Compute(data: seq<byte>) returns (crc: bv32)
    ensures crc == Checksum(data)
  {
    crc := 0xFFFFFFFF;
    for i := 0 to |data|
      invariant Absorb(crc, data[i..]) == Absorb(0xFFFFFFFF, data)
    {
      ghost var rest := data[i..];
      assert rest[0] == data[i] && rest[1..] == data[i + 1..];
      ghost var start := Xor(crc, Widen(rest[0]));
      crc := Xor(crc, Widen(data[i]));
      for bit := 0 to 8
        invariant Steps(8 - bit, crc) == Steps(8, start)
      {
        crc := Step(crc);
      }
    }
    crc := Xor(crc, 0xFFFFFFFF);
  }

  // ---------- Laws of the word operations ----------

  lemma CancelXor(a: bv32, b: bv32, mask: bv32)
    requires Xor(a, mask) == Xor(b, mask)
    ensures a == b
  {
    XorLaws(a, mask);
    XorLaws(b, mask);
  }

  function Half(crc: bv32): bv32 { crc >> 1 }

  predicate Odd(crc: bv32) { crc & 1 == 1 }

  lemma StepOdd(crc: bv32)
    requires Odd(crc)
    ensures Step(crc) == Xor(Half(crc), POLYNOMIAL)
  {}

  lemma StepEven(crc: bv32)
    requires !Odd(crc)
    ensures Step(crc) == Half(crc)
  {}

  lemma HalfLinear(a: bv32, b: bv32)
    ensures Half(Xor(a, b)) == Xor(Half(a), Half(b))
  {}

  lemma OddLinear(a: bv32, b: bv32)
    ensures Odd(Xor(a, b)) == (Odd(a) != Odd(b))
  {}

  lemma XorRight(u: bv32, v: bv32, p: bv32)
    ensures Xor(u, Xor(v, p)) == Xor(Xor(u, v), p)
  {}

  lemma XorLeft(u: bv32, v: bv32, p: bv32)
    ensures Xor(Xor(u, p), v) == Xor(Xor(u, v), p)
  {
    XorLaws(Xor(u, p), v);
    XorRight(v, u, p);
    XorLaws(u, v);
  }

  lemma XorTwice(u: bv32, v: bv32, p: bv32)
    ensures Xor(Xor(u, p), Xor(v, p)) == Xor(u, v)
  {
    var w := Xor(v, p);
    XorLeft(u, w, p);
    XorRight(u, v, p);
    XorLaws(Xor(u, v), p);
  }

  lemma StepLinear(a: bv32, b: bv32)
    ensures Step(Xor(a, b)) == Xor(Step(a), Step(b))
  {
    var u, v := Half(a), Half(b);
    HalfLinear(a, b);
    OddLinear(a, b);
    if Odd(a) {
      StepOdd(a);
      if Odd(b) {
        StepOdd(b);
        StepEven(Xor(a, b));
        XorTwice(u, v, POLYNOMIAL);
      } else {
        StepEven(b);
        StepOdd(Xor(a, b));
        XorLeft(u, v, POLYNOMIAL);
      }
    } else {
      StepEven(a);
      if Odd(b) {
        StepOdd(b);
        StepOdd(Xor(a, b));
        XorRight(u, v, POLYNOMIAL);
      } else {
        StepEven(b);
        StepEven(Xor(a, b));
      }
    }
  }

  /** The polynomial has its top bit set, so no state follows from two. */
  lemma StepInjective(a: bv32, b: bv32)
    requires Step(a) == Step(b)
    ensures a == b
  {}

  // ---------- The register is linear and the shift invertible ----------

  lemma {:induction false} StepsLinear(n: nat, a: bv32, b: bv32)
    ensures Steps(n, Xor(a, b)) == Xor(Steps(n, a), Steps(n, b))
  {
    if n == 0 {
    } else {
      StepLinear(a, b);
      StepsLinear(n - 1, Step(a), Step(b));
    }
  }

  lemma {:induction false} StepsInjective(n: nat, a: bv32, b: bv32)
    requires Steps(n, a) == Steps(n, b)
    ensures a == b
  {
    if n == 0 {
    } else {
      StepsInjective(n - 1, Step(a), Step(b));
      StepInjective(a, b);
    }
  }

  lemma {:induction false} StepsAdd(m: nat, n: nat, crc: bv32)
    ensures Steps(m + n, crc) == Steps(n, Steps(m, crc))
  {
    if m == 0 {
    } else {
      StepsAdd(m - 1, n, Step(crc));
    }
  }

  lemma {:induction false} AbsorbAppend(crc: bv32, a: seq<byte>, b: seq<byte>)
    ensures Absorb(crc, a + b) == Absorb(Absorb(crc, a), b)
    decreases |a|
  {
    if a == [] {
      assert a + b == b;
    } else {
      assert (a + b)[1..] == a[1..] + b;
      AbsorbAppend(Steps(8, Xor(crc, Widen(a[0]))), a[1..], b);
    }
  }

  /** The same bytes lead two different states to two different states. */
  lemma {:induction false} AbsorbInjective(a: bv32, b: bv32, data: seq<byte>)
    requires Absorb(a, data) == Absorb(b, data)
    ensures a == b
    decreases |data|
  {
    if data == [] {
    } else {
      var x := Widen(data[0]);
      AbsorbInjective(Steps(8, Xor(a, x)), Steps(8, Xor(b, x)), data[1..]);
      StepsInjective(8, Xor(a, x), Xor(b, x));
      CancelXor(a, b, x);
    }
  }

  // ---------- A window of up to four bytes acts like one word ----------

  /** One more byte below a word. */
  function Below(x: byte, word: bv32): bv32 { Paired(Octet(x), word) }

  function Paired(x: bv8, word: bv32): bv32 { (x as bv32) | (word << 8) }

  /** The window as a little-endian word. */
  function Word(window: seq<byte>): bv32
    requires |window| <= 4
  {
    if window == [] then 0 else Below(window[0], Word(window[1..]))
  }

  /** The words of n bytes. */
  predicate Fits(n: nat, word: bv32) {
    match n
    case 0 => word == 0
    case 1 => word <= 0xFF
    case 2 => word <= 0xFFFF
    case 3 => word <= 0xFFFFFF
    case _ => true
  }

  lemma PairedFits(x: bv8, u: bv32)
    ensures u == 0 ==> Paired(x, u) <= 0xFF
    ensures u <= 0xFF ==> Paired(x, u) <= 0xFFFF
    ensures u <= 0xFFFF ==> Paired(x, u) <= 0xFFFFFF
  {}

  lemma BelowInjective(x: byte, u: bv32, y: byte, v: bv32)
    requires u <= 0xFFFFFF && v <= 0xFFFFFF && Below(x, u) == Below(y, v)
    ensures x == y && u == v
  {
    hide Octet, ByteOf, Paired;
    PairedInjective(Octet(x), u, Octet(y), v);
    ByteReadsBack(x);
    ByteReadsBack(y);
  }

  lemma PairedInjective(x: bv8, u: bv32, y: bv8, v: bv32)
    requires u <= 0xFFFFFF && v <= 0xFFFFFF && Paired(x, u) == Paired(y, v)
    ensures x == y && u == v
  {}

  function Double(u: bv32): bv32 { u << 1 }

  /** An even register only shifts. */
  lemma Halve(half: bv32, bound: bv32)
    requires half <= bound <= 0x3FFFFFFF || half <= bound == 0x7FFFFFFF
    ensures Step(Double(half)) == half
    ensures bound <= 0x3FFFFFFF ==> Double(half) <= (bound << 1) | 1
  {}

  lemma EightDoubles(u: bv32)
    ensures Double(Double(Double(Double(Double(Double(Double(Double(u)))))))) == u << 8
  {}

  /** A word in the upper three bytes comes down unchanged. */
  lemma EightShifts(u: bv32)
    requires u <= 0xFFFFFF
    ensures Steps(8, u << 8) == u
  {
    var h1 := Double(u);
    var h2 := Double(h1);
    var h3 := Double(h2);
    var h4 := Double(h3);
    var h5 := Double(h4);
    var h6 := Double(h5);
    var h7 := Double(h6);
    Halve(u, 0xFFFFFF);
    Halve(h1, 0x1FFFFFF);
    Halve(h2, 0x3FFFFFF);
    Halve(h3, 0x7FFFFFF);
    Halve(h4, 0xFFFFFFF);
    Halve(h5, 0x1FFFFFFF);
    Halve(h6, 0x3FFFFFFF);
    Halve(h7, 0x7FFFFFFF);
    EightDoubles(u);
    EightSteps(Double(h7), h4, u);
  }

  lemma EightSteps(crc: bv32, half: bv32, end: bv32)
    requires Step(Step(Step(Step(crc)))) == half
    requires Step(Step(Step(Step(half)))) == end
    ensures Steps(8, crc) == end
  {
    assert Steps(8, crc) == Steps(6, Step(Step(crc)));
    assert Steps(6, Step(Step(crc))) == Steps(4, half);
    assert Steps(4, half) == Steps(2, Step(Step(half)));
    assert Steps(2, Step(Step(half))) == Steps(0, end);
  }

  lemma BelowAsXor(crc: bv32, x: byte, u: bv32)
    ensures Xor(crc, Below(x, u)) == Xor(Xor(crc, Widen(x)), u << 8)
  {
    hide Octet;
    PairedIsXor(crc, Octet(x), u);
  }

  lemma PairedIsXor(crc: bv32, x: bv8, u: bv32)
    ensures Xor(crc, Paired(x, u)) == Xor(Xor(crc, x as bv32), u << 8)
  {}

  /** Bytes still to come can be folded into the register eight shifts early. */
  lemma AbsorbEarly(crc: bv32, x: byte, u: bv32)
    requires u <= 0xFFFFFF
    ensures Xor(Steps(8, Xor(crc, Widen(x))), u) == Steps(8, Xor(crc, Below(x, u)))
  {
    hide Octet, Paired;
    var early := u << 8;
    BelowAsXor(crc, x, u);
    StepsLinear(8, Xor(crc, Widen(x)), early);
    EightShifts(u);
  }

  lemma {:induction false} WordFits(window: seq<byte>)
    requires |window| <= 4
    ensures Fits(|window|, Word(window))
  {
    hide Octet, Paired;
    if window == [] {
    } else {
      WordFits(window[1..]);
      PairedFits(Octet(window[0]), Word(window[1..]));
    }
  }

  lemma {:induction false} WordInjective(a: seq<byte>, b: seq<byte>)
    requires |a| == |b| <= 4 && Word(a) == Word(b)
    ensures a == b
  {
    hide Octet, Paired;
    if a == [] {
    } else {
      ThreeBytes(a[1..]);
      ThreeBytes(b[1..]);
      BelowInjective(a[0], Word(a[1..]), b[0], Word(b[1..]));
      WordInjective(a[1..], b[1..]);
      assert a == [a[0]] + a[1..] && b == [b[0]] + b[1..];
    }
  }

  lemma ThreeBytes(window: seq<byte>)
    requires |window| <= 3
    ensures Word(window) <= 0xFFFFFF
  {
    WordFits(window);
    FitsBound(|window|, Word(window));
  }

  lemma FitsBound(n: nat, word: bv32)
    requires n <= 3 && Fits(n, word)
    ensures word <= 0xFFFFFF
  {}

  lemma {:induction false} AbsorbWindow(crc: bv32, window: seq<byte>)
    requires |window| <= 4
    ensures Absorb(crc, window) == Steps(8 * |window|, Xor(crc, Word(window)))
    decreases |window|
  {
    hide Octet, Paired;
    if window == [] {
      XorLaws(crc, 0);
    } else {
      var rest := window[1..];
      var u, next := Word(rest), Steps(8, Xor(crc, Widen(window[0])));
      ThreeBytes(rest);
      AbsorbWindow(next, rest);
      AbsorbEarly(crc, window[0], u);
      StepsAdd(8, 8 * |rest|, Xor(crc, Word(window)));
    }
  }

  /** Damage confined to four consecutive bytes always changes the checksum. */
  lemma BurstDetected(before: seq<byte>, sent: seq<byte>, received: seq<byte>, after: seq<byte>)
    requires |sent| == |received| <= 4 && sent != received
    ensures Checksum(before + sent + after) != Checksum(before + received + after)
  {
    var crc := Absorb(0xFFFFFFFF, before);
    AbsorbAppend(0xFFFFFFFF, before + sent, after);
    AbsorbAppend(0xFFFFFFFF, before, sent);
    AbsorbAppend(0xFFFFFFFF, before + received, after);
    AbsorbAppend(0xFFFFFFFF, before, received);
    var s, r := Absorb(crc, sent), Absorb(crc, received);
    if Checksum(before + sent + after) == Checksum(before + received + after) {
      CancelXor(Absorb(s, after), Absorb(r, after), 0xFFFFFFFF);
      AbsorbInjective(s, r, after);
      AbsorbWindow(crc, sent);
      AbsorbWindow(crc, received);
      StepsInjective(8 * |sent|, Xor(crc, Word(sent)), Xor(crc, Word(received)));
      XorLaws(crc, Word(sent));
      XorLaws(crc, Word(received));
      CancelXor(Word(sent), Word(received), crc);
      WordInjective(sent, received);
    }
  }

  // ---------- The residue and the check value ----------

  function Four(crc: bv32): bv32 { Step(Step(Step(Step(crc)))) }

  lemma FourSteps(n: nat, crc: bv32)
    requires n >= 4
    ensures Steps(n, crc) == Steps(n - 4, Four(crc))
  {
    hide Step;
    assert Steps(n, crc) == Steps(n - 1, Step(crc)) == Steps(n - 2, Step(Step(crc)));
    assert Steps(n - 2, Step(Step(crc))) == Steps(n - 3, Step(Step(Step(crc))));
  }

  lemma FoursOfOnes()
    ensures Four(0xFFFFFFFF) == 0xFC91908A
    ensures Four(0xFC91908A) == 0xAD82ACAE
    ensures Four(0xAD82ACAE) == 0xE9E882D0
    ensures Four(0xE9E882D0) == 0x0E9E882D
    ensures Four(0x0E9E882D) == 0xD33A0929
    ensures Four(0xD33A0929) == 0x9F9B5C85
    ensures Four(0x9F9B5C85) == 0x58DC6F1B
    ensures Four(0x58DC6F1B) == 0xB798B438
  {}

  lemma ResidueOfOnes()
    ensures Steps(32, 0xFFFFFFFF) == 0xB798B438
  {
    FoursOfOnes();
    hide Four;
    FourSteps(32, 0xFFFFFFFF);
    FourSteps(28, 0xFC91908A);
    FourSteps(24, 0xAD82ACAE);
    FourSteps(20, 0xE9E882D0);
    FourSteps(16, 0x0E9E882D);
    FourSteps(12, 0xD33A0929);
    FourSteps(8, 0x9F9B5C85);
    FourSteps(4, 0x58DC6F1B);
  }

  lemma XorSwaps(crc: bv32, word: bv32, ones: bv32)
    requires Xor(crc, word) == ones
    ensures word == Xor(crc, ones)
  {}

  /** A checksum sent low byte first behind its data leaves the residue of CRC-32C, and
      nothing else does. */
  lemma ResidueExactly(data: seq<byte>, tail: seq<byte>)
    requires |tail| == 4
    ensures Checksum(data + tail) == 0x48674BC7 <==> Word(tail) == Checksum(data)
  {
    var crc, ones: bv32 := Absorb(0xFFFFFFFF, data), 0xFFFFFFFF;
    AbsorbAppend(0xFFFFFFFF, data, tail);
    AbsorbWindow(crc, tail);
    ResidueOfOnes();
    assert Xor(0xB798B438, ones) == 0x48674BC7;
    hide Step, Steps, Word, Absorb, Xor;
    if Checksum(data + tail) == 0x48674BC7 {
      CancelXor(Absorb(crc, tail), 0xB798B438, ones);
      StepsInjective(32, Xor(crc, Word(tail)), ones);
      XorSwaps(crc, Word(tail), ones);
    }
    if Word(tail) == Checksum(data) {
      XorRight(crc, crc, ones);
      XorLaws(crc, crc);
      XorLaws(crc, ones);
      XorSwaps(crc, ones, Word(tail));
    }
  }

  lemma WidenedOctet(v: bv8, b: byte)
    requires ByteOf(v) == b
    ensures Widen(b) == v as bv32
  {
    OctetReadsBack(v);
    hide ByteOf, Octet;
  }

  lemma NoSteps(crc: bv32)
    ensures Steps(0, crc) == crc
  {}

  lemma TwoFours(mixed: bv32, half: bv32, next: bv32)
    requires Four(mixed) == half && Four(half) == next
    ensures Steps(8, mixed) == next
  {
    hide Four, Steps;
    FourSteps(8, mixed);
    FourSteps(4, half);
    NoSteps(next);
  }

  lemma AbsorbFirst(crc: bv32, data: seq<byte>)
    requires data != []
    ensures Absorb(crc, data) == Absorb(Steps(8, Xor(crc, Widen(data[0]))), data[1..])
  {
    hide Steps, Xor, Widen;
  }

  lemma AbsorbOne(crc: bv32, data: seq<byte>, v: bv8, mixed: bv32, half: bv32, next: bv32)
    requires data != [] && ByteOf(v) == data[0] && mixed == Xor(crc, v as bv32)
    requires Four(mixed) == half && Four(half) == next
    ensures Absorb(crc, data) == Absorb(next, data[1..])
  {
    hide Four, Widen, ByteOf, Steps, Absorb, Xor;
    WidenedOctet(v, data[0]);
    TwoFours(mixed, half, next);
    AbsorbFirst(crc, data);
  }

  function Figures(): seq<byte> { [0x31, 0x32, 0x33, 0x34, 0x35, 0x36, 0x37, 0x38, 0x39] }

  lemma FigureOctets()
    ensures ByteOf(0x31) == 0x31
    ensures ByteOf(0x32) == 0x32
    ensures ByteOf(0x33) == 0x33
    ensures ByteOf(0x34) == 0x34
    ensures ByteOf(0x35) == 0x35
    ensures ByteOf(0x36) == 0x36
    ensures ByteOf(0x37) == 0x37
    ensures ByteOf(0x38) == 0x38
    ensures ByteOf(0x39) == 0x39
  {}

  lemma FirstFigures()
    ensures Absorb(0xFFFFFFFF, Figures()[0..]) == Absorb(0xEF84D04D, Figures()[3..])
  {
    FigureOctets();
    hide Absorb, ByteOf;
    AbsorbOne(0xFFFFFFFF, Figures()[0..], 0x31, 0xFFFFFFCE, 0xECCF57E6, 0x6F0A661C);
    AbsorbOne(0x6F0A661C, Figures()[1..], 0x32, 0x6F0A662E, 0xE5C00E78, 0x8CAA3B9F);
    AbsorbOne(0x8CAA3B9F, Figures()[2..], 0x33, 0x8CAA3BAC, 0xCB47857E, 0xEF84D04D);
  }

  lemma NextFigures()
    ensures Absorb(0xEF84D04D, Figures()[3..]) == Absorb(0xBECA8E79, Figures()[6..])
  {
    FigureOctets();
    hide Absorb, ByteOf;
    AbsorbOne(0xEF84D04D, Figures()[3..], 0x34, 0xEF84D079, 0x9C50B110, 0x09C50B11);
    AbsorbOne(0x09C50B11, Figures()[4..], 0x35, 0x09C50B24, 0x41E74D0E, 0xE72EDCCA);
    AbsorbOne(0xE72EDCCA, Figures()[5..], 0x36, 0xE72EDCFC, 0xCDFFCB0B, 0xBECA8E79);
  }

  lemma LastFigures()
    ensures Absorb(0xBECA8E79, Figures()[6..]) == Absorb(0x1CF96D7C, Figures()[9..])
  {
    FigureOctets();
    hide Absorb, ByteOf;
    AbsorbOne(0xBECA8E79, Figures()[6..], 0x37, 0xBECA8E4E, 0xE8DC00FE, 0xEDBD6815);
    AbsorbOne(0xEDBD6815, Figures()[7..], 0x38, 0xEDBD682D, 0xDD083729, 0x9F787F65);
    AbsorbOne(0x9F787F65, Figures()[8..], 0x39, 0x9F787F5C, 0xCA7AA131, 0x1CF96D7C);
  }

  /** The check value: the checksum of the figures 1 to 9. */
  lemma CheckValue()
    ensures Checksum(Figures()) == 0xE3069283
  {
    FirstFigures();
    NextFigures();
    LastFigures();
    NothingAbsorbed(0x1CF96D7C);
    assert Figures()[0..] == Figures() && Figures()[9..] == [];
    assert Xor(0x1CF96D7C, 0xFFFFFFFF) == 0xE3069283;
    hide Absorb, Xor, Figures;
  }

  lemma NothingAbsorbed(crc: bv32)
    ensures Absorb(crc, []) == crc
  {}
}
