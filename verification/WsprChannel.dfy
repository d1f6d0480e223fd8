/**
 WSPR channel coding: 50 payload bits and 31 flush bits through a rate-1/2 convolutional
 code, the 162 coded bits interleaved by 8-bit reversal and laid over the sync vector.
 */
module WsprChannel {
  import opened Collections

  const PAYLOAD_BITS := 50
  const CODED_STEPS := 81
  const SYMBOLS := 162
  const TAPS_A: bv32 := 0xf2d05351
  const TAPS_B: bv32 := 0xe4613c47

  /** The sync vector, as the source writes it. */
  function SyncRow(r: nat): (row: seq<bit>)
    requires r < 7
    ensures |row| == if r < 6 then 24 else 18
  {
    match r
    case 0 => [1, 1, 0, 0, 0, 0, 0, 0, 1, 0, 0, 0, 1, 1, 1, 0, 0, 0, 1, 0, 0, 1, 0, 1]
    case 1 => [1, 1, 1, 0, 0, 0, 0, 0, 0, 0, 1, 0, 0, 1, 0, 1, 0, 0, 0, 0, 0, 0, 1, 0]
    case 2 => [1, 1, 0, 0, 1, 1, 0, 1, 0, 0, 0, 1, 1, 0, 1, 0, 0, 0, 0, 1, 1, 0, 1, 0]
    case 3 => [1, 0, 1, 0, 1, 0, 0, 1, 0, 0, 1, 0, 1, 1, 0, 0, 0, 1, 1, 0, 1, 0, 1, 0]
    case 4 => [0, 0, 1, 0, 0, 0, 0, 0, 1, 0, 0, 1, 0, 0, 1, 1, 1, 0, 1, 1, 0, 0, 1, 1]
    case 5 => [0, 1, 0, 0, 0, 1, 1, 1, 0, 0, 0, 0, 0, 1, 0, 1, 0, 0, 1, 1, 0, 0, 0, 0]
    case _ => [0, 0, 0, 1, 1, 0, 1, 0, 1, 1, 0, 0, 0, 1, 1, 0, 0, 0]
  }

  function Sync(): (sync: seq<bit>)
    ensures |sync| == SYMBOLS
  {
    SyncRow(0) + SyncRow(1) + SyncRow(2) + SyncRow(3) + SyncRow(4) + SyncRow(5) + SyncRow(6)
  }

  lemma SyncAt(r: nat, i: nat)
    requires r < 7 && i < |SyncRow(r)|
    ensures Sync()[24 * r + i] == SyncRow(r)[i]
  {
    hide SyncRow;
  }

  /** A sync bit below a coded bit. */
  function Tone(sync: bit, coded: bit): (tone: nat)
    ensures tone <= 3 && tone % 2 == sync && tone / 2 == coded
  {
    (sync as int) + 2 * (coded as int)
  }

  // ---------- Payload bits ----------

  function Pow2(n: nat): (p: nat)
    ensures p > 0
  {
    if n == 0 then 1 else 2 * Pow2(n - 1)
  }

  lemma TimesThousand(n: nat)
    ensures Pow2(n + 10) == 1024 * Pow2(n)
  {
    var p := Pow2(n);
    assert Pow2(n + 2) == 4 * p;
    assert Pow2(n + 4) == 4 * Pow2(n + 2);
    assert Pow2(n + 6) == 4 * Pow2(n + 4);
    assert Pow2(n + 8) == 4 * Pow2(n + 6);
    assert Pow2(n + 10) == 4 * Pow2(n + 8);
  }

  type bit = b: int | 0 <= b <= 1

  /** The low n bits of a payload, most significant first. */
  function Bits(payload: nat, n: nat): (bits: seq<bit>)
    ensures |bits| == n
  {
    if n == 0 then [] else Bits(payload / 2, n - 1) + [payload % 2]
  }

  function Value(bits: seq<bit>): nat {
    if bits == [] then 0 else 2 * Value(bits[..|bits| - 1]) + bits[|bits| - 1]
  }

  lemma {:induction false} BitsValue(payload: nat, n: nat)
    requires payload < Pow2(n)
    ensures Value(Bits(payload, n)) == payload
  {
    if n == 0 {
    } else {
      BitsValue(payload / 2, n - 1);
      assert Bits(payload, n)[..n - 1] == Bits(payload / 2, n - 1);
    }
  }

  lemma {:induction false} HalveShifted(payload: nat, n: nat)
    ensures (payload / 2) / Pow2(n) == payload / Pow2(n + 1)
    decreases n
  {
    var p := Pow2(n);
    var q, r := payload / (2 * p), payload % (2 * p);
    assert payload == q * (2 * p) + r;
    var h := payload / 2;
    assert h == q * p + r / 2;
    assert 0 <= r / 2 < p;
    QuotientIs(h, p, q, r / 2);
  }

  lemma QuotientIs(n: int, d: int, q: int, r: int)
    requires 0 <= r < d && n == q * d + r
    ensures n / d == q
  {
    var e, s := n / d, n % d;
    assert n == d * e + s;
    if e < q {
      AtLeast(q - e, d);
    } else if e > q {
      AtLeast(e - q, d);
    }
  }

  lemma AtLeast(k: int, d: int)
    requires k >= 1 && d >= 0
    ensures k * d >= d
  {}

  /** Bit i of the loop, counted from the top. */
  lemma {:induction false} BitAt(payload: nat, n: nat, i: nat)
    requires i < n
    ensures Bits(payload, n)[i] == payload / Pow2(n - 1 - i) % 2
  {
    if i == n - 1 {
    } else {
      BitAt(payload / 2, n - 1, i);
      HalveShifted(payload, n - 2 - i);
    }
  }

  // ---------- The convolutional code ----------

  function Low(word: bv32): bit { if word & 1 == 1 then 1 else 0 }

  function Rest(word: bv32): bv32 { word >> 1 }

  lemma RestIsLess(word: bv32)
    ensures word != 0 ==> Rest(word) < word
    ensures word == 0 ==> Rest(word) == 0 && Low(word) == 0
  {}

  /** The population count. */
  function Ones(word: bv32): nat
    decreases word
  {
    RestIsLess(word);
    if word == 0 then 0 else Low(word) + Ones(Rest(word))
  }

  function Parity(word: bv32): bit {
    Ones(word) % 2
  }

  function Shifted(shift: bv32, b: bit): bv32 {
    (shift << 1) | (if b == 1 then 1 else 0)
  }

  function Tapped(shift: bv32, taps: bv32): bv32 { shift & taps }

  /** The coded bits, two for each bit shifted in. */
  function Encode(bits: seq<bit>, shift: bv32): (coded: seq<bit>)
    ensures |coded| == 2 * |bits|
    decreases |bits|
  {
    if bits == [] then []
    else
      var next := Shifted(shift, bits[0]);
      [Parity(Tapped(next, TAPS_A)), Parity(Tapped(next, TAPS_B))] + Encode(bits[1..], next)
  }

  function Source(payload: nat): (bits: seq<bit>)
    ensures |bits| == CODED_STEPS
  {
    Bits(payload, PAYLOAD_BITS) + seq(CODED_STEPS - PAYLOAD_BITS, _ => 0)
  }

  function Coded(payload: nat): (coded: seq<bit>)
    ensures |coded| == SYMBOLS
  {
    Encode(Source(payload), 0)
  }

  /** The newest bit and the rest of what the taps select. */
  lemma NewestIsLow(shift: bv32, taps: bv32, b: bit)
    requires Low(taps) == 1
    ensures Low(Tapped(Shifted(shift, b), taps)) == b
  {}

  lemma NewestUntapped(shift: bv32, taps: bv32, b: bit)
    requires Low(taps) == 0
    ensures Low(Tapped(Shifted(shift, b), taps)) == 0
  {}

  lemma RestIsOlder(shift: bv32, taps: bv32, b: bit)
    ensures Rest(Tapped(Shifted(shift, b), taps)) == Tapped(shift, Rest(taps))
  {}

  lemma OnesStep(word: bv32)
    ensures Ones(word) == Low(word) + Ones(Rest(word))
  {
    RestIsLess(word);
  }

  /** A tap word that has the lowest bit counts the newest bit. */
  lemma OnesShifted(shift: bv32, taps: bv32, b: bit)
    ensures Ones(Tapped(Shifted(shift, b), taps)) == Low(taps) * b + Ones(Tapped(shift, Rest(taps)))
  {
    OnesStep(Tapped(Shifted(shift, b), taps));
    RestIsOlder(shift, taps, b);
    if Low(taps) == 1 {
      NewestIsLow(shift, taps, b);
    } else {
      NewestUntapped(shift, taps, b);
    }
  }

  function Taps(phase: bit): bv32 {
    if phase == 0 then TAPS_A else TAPS_B
  }

  /** What listening to one stream says about the newest bit. */
  function Heard(coded: bit, shift: bv32, phase: bit): bit {
    (coded + Parity(Tapped(Shifted(shift, 0), Taps(phase)))) % 2
  }

  /** A sequential decoder of an undamaged stream. `phase` picks the stream it listens to. */
  function Decode(coded: seq<bit>, shift: bv32, phase: bit): (bits: seq<bit>)
    ensures |bits| == |coded| / 2
    decreases |coded|
  {
    if |coded| < 2 then []
    else
      var b := Heard(coded[phase], shift, phase);
      [b] + Decode(coded[2..], Shifted(shift, b), phase)
  }

  lemma {:induction false} DecodeInverts(bits: seq<bit>, shift: bv32, phase: bit)
    ensures Decode(Encode(bits, shift), shift, phase) == bits
    decreases |bits|
  {
    if bits == [] {
    } else {
      var b := bits[0];
      hide Shifted, Tapped, Parity, Heard, Taps;
      var coded, next := Encode(bits, shift), Shifted(shift, b);
      assert coded[2..] == Encode(bits[1..], next);
      assert coded[phase] == Parity(Tapped(next, Taps(phase))) by { TapsOf(phase); }
      DecodeInverts(bits[1..], next, phase);
      NewestBit(shift, b, phase);
      assert bits == [b] + bits[1..];
    }
  }

  lemma TapsOf(phase: bit)
    ensures Taps(phase) == if phase == 0 then TAPS_A else TAPS_B
  {}

  lemma NewestBit(shift: bv32, b: bit, phase: bit)
    ensures Heard(Parity(Tapped(Shifted(shift, b), Taps(phase))), shift, phase) == b
  {
    hide Tapped, Shifted, Low, Rest, Ones;
    TapsHaveLowBit();
    OnesShifted(shift, Taps(phase), b);
    OnesShifted(shift, Taps(phase), 0);
  }

  lemma TapsHaveLowBit()
    ensures Low(TAPS_A) == 1 && Low(TAPS_B) == 1
  {}

  // ---------- The shift register is a convolution ----------

  /** The payload bits that a tap word selects around step i, without any register. */
  function Selected(bits: seq<bit>, i: int, taps: bv32): nat
    requires i < |bits|
    decreases i
  {
    if i < 0 then 0 else Low(taps) * bits[i] + Selected(bits, i - 1, Rest(taps))
  }

  function Register(bits: seq<bit>): bv32 {
    if bits == [] then 0 else Shifted(Register(bits[..|bits| - 1]), bits[|bits| - 1])
  }

  lemma {:induction false} RegisterSelects(bits: seq<bit>, n: nat, taps: bv32)
    requires n <= |bits|
    ensures Ones(Tapped(Register(bits[..n]), taps)) == Selected(bits, n - 1, taps)
  {
    if n == 0 {
      NothingTapped(taps);
    } else {
      assert bits[..n][..n - 1] == bits[..n - 1];
      RegisterSelects(bits, n - 1, Rest(taps));
      OnesShifted(Register(bits[..n - 1]), taps, bits[n - 1]);
    }
  }

  lemma NothingTapped(taps: bv32)
    ensures Ones(Tapped(0, taps)) == 0
  {
    assert Tapped(0, taps) == 0;
  }

  lemma {:induction false} EncodeAt(bits: seq<bit>, n: nat, i: nat)
    requires n <= i < |bits|
    ensures Encode(bits[n..], Register(bits[..n]))[2 * (i - n)] == Parity(Tapped(Register(bits[..i + 1]), TAPS_A))
    ensures Encode(bits[n..], Register(bits[..n]))[2 * (i - n) + 1] == Parity(Tapped(Register(bits[..i + 1]), TAPS_B))
    decreases i - n
  {
    hide Shifted, Tapped, Parity;
    assert bits[..n + 1][..n] == bits[..n] && bits[n..][1..] == bits[n + 1..];
    assert Register(bits[..n + 1]) == Shifted(Register(bits[..n]), bits[n]);
    if n == i {
    } else {
      EncodeAt(bits, n + 1, i);
    }
  }

  /** Each coded bit is the parity of the source bits its tap word selects. */
  lemma CodedIsConvolution(payload: nat, i: nat)
    requires i < CODED_STEPS
    ensures Coded(payload)[2 * i] == Selected(Source(payload), i, TAPS_A) % 2
    ensures Coded(payload)[2 * i + 1] == Selected(Source(payload), i, TAPS_B) % 2
  {
    var bits := Source(payload);
    assert bits[0..] == bits && bits[..0] == [];
    EncodeAt(bits, 0, i);
    RegisterSelects(bits, i + 1, TAPS_A);
    RegisterSelects(bits, i + 1, TAPS_B);
  }

  /** A source bit; before the first and after the last there are none. */
  function Back(bits: seq<bit>, j: int): (b: bit) { if 0 <= j < |bits| then bits[j] else 0 }

  lemma SelectedOnce(bits: seq<bit>, i: int, taps: bv32)
    requires i < |bits|
    ensures Selected(bits, i, taps) == (if Low(taps) == 1 then Back(bits, i) else 0) + Selected(bits, i - 1, Rest(taps))
  {}

  lemma SelectedFour(bits: seq<bit>, i: int, taps: bv32, rest: bv32, a: bit, b: bit, c: bit, d: bit)
    requires i < |bits| && rest == taps >> 4
    requires Low(taps) == a && Low(taps >> 1) == b && Low(taps >> 2) == c && Low(taps >> 3) == d
    ensures Selected(bits, i, taps)
            == (if a == 1 then Back(bits, i) else 0) + (if b == 1 then Back(bits, i - 1) else 0)
               + (if c == 1 then Back(bits, i - 2) else 0) + (if d == 1 then Back(bits, i - 3) else 0)
               + Selected(bits, i - 4, rest)
  {
    assert Rest(taps) == taps >> 1 && Rest(taps >> 1) == taps >> 2 && Rest(taps >> 2) == taps >> 3;
    assert Rest(taps >> 3) == taps >> 4;
    hide Rest, Low, Selected, Back;
    SelectedOnce(bits, i, taps);
    SelectedOnce(bits, i - 1, taps >> 1);
    SelectedOnce(bits, i - 2, taps >> 2);
    SelectedOnce(bits, i - 3, taps >> 3);
  }

  lemma {:induction false} NoTapsSelectNothing(bits: seq<bit>, i: int)
    requires i < |bits|
    ensures Selected(bits, i, 0) == 0
    decreases i
  {
    RestIsLess(0);
    if i < 0 {
    } else {
      NoTapsSelectNothing(bits, i - 1);
    }
  }

  /** The two parity sums of the code. */
  function SumA(bits: seq<bit>, i: nat): nat {
    Back(bits, i) + Back(bits, i - 4) + Back(bits, i - 6) + Back(bits, i - 8) + Back(bits, i - 9)
    + Back(bits, i - 12) + Back(bits, i - 14) + Back(bits, i - 20) + Back(bits, i - 22) + Back(bits, i - 23)
    + Back(bits, i - 25) + Back(bits, i - 28) + Back(bits, i - 29) + Back(bits, i - 30)
    + Back(bits, i - 31)
  }

  function SumB(bits: seq<bit>, i: nat): nat {
    Back(bits, i) + Back(bits, i - 1) + Back(bits, i - 2) + Back(bits, i - 6) + Back(bits, i - 10)
    + Back(bits, i - 11) + Back(bits, i - 12) + Back(bits, i - 13) + Back(bits, i - 16) + Back(bits, i - 21)
    + Back(bits, i - 22) + Back(bits, i - 26) + Back(bits, i - 29) + Back(bits, i - 30)
    + Back(bits, i - 31)
  }

  lemma TapsOfA(bits: seq<bit>, i: nat)
    requires i < |bits|
    ensures Selected(bits, i, TAPS_A) == SumA(bits, i)
  {
    hide Selected, Back;
    SelectedFour(bits, i, 0xf2d0_5351, 0x0f2d_0535, 1, 0, 0, 0);
    SelectedFour(bits, i - 4, 0x0f2d_0535, 0x00f2_d053, 1, 0, 1, 0);
    SelectedFour(bits, i - 8, 0x00f2_d053, 0x000f_2d05, 1, 1, 0, 0);
    SelectedFour(bits, i - 12, 0x000f_2d05, 0x0000_f2d0, 1, 0, 1, 0);
    SelectedFour(bits, i - 16, 0x0000_f2d0, 0x0000_0f2d, 0, 0, 0, 0);
    SelectedFour(bits, i - 20, 0x0000_0f2d, 0x0000_00f2, 1, 0, 1, 1);
    SelectedFour(bits, i - 24, 0x0000_00f2, 0x0000_000f, 0, 1, 0, 0);
    SelectedFour(bits, i - 28, 0x0000_000f, 0x0000_0000, 1, 1, 1, 1);
    NoTapsSelectNothing(bits, i - 32);
  }

  lemma TapsOfB(bits: seq<bit>, i: nat)
    requires i < |bits|
    ensures Selected(bits, i, TAPS_B) == SumB(bits, i)
  {
    hide Selected, Back;
    SelectedFour(bits, i, 0xe461_3c47, 0x0e46_13c4, 1, 1, 1, 0);
    SelectedFour(bits, i - 4, 0x0e46_13c4, 0x00e4_613c, 0, 0, 1, 0);
    SelectedFour(bits, i - 8, 0x00e4_613c, 0x000e_4613, 0, 0, 1, 1);
    SelectedFour(bits, i - 12, 0x000e_4613, 0x0000_e461, 1, 1, 0, 0);
    SelectedFour(bits, i - 16, 0x0000_e461, 0x0000_0e46, 1, 0, 0, 0);
    SelectedFour(bits, i - 20, 0x0000_0e46, 0x0000_00e4, 0, 1, 1, 0);
    SelectedFour(bits, i - 24, 0x0000_00e4, 0x0000_000e, 0, 0, 1, 0);
    SelectedFour(bits, i - 28, 0x0000_000e, 0x0000_0000, 0, 1, 1, 1);
    NoTapsSelectNothing(bits, i - 32);
  }

  /** The two parity equations of the code, with no register and no tap word. */
  lemma CodedIsSum(payload: nat, i: nat)
    requires i < CODED_STEPS
    ensures Coded(payload)[2 * i] == SumA(Source(payload), i) % 2
    ensures Coded(payload)[2 * i + 1] == SumB(Source(payload), i) % 2
  {
    hide Coded, Source, Selected, SumA, SumB;
    CodedIsConvolution(payload, i);
    TapsOfA(Source(payload), i);
    TapsOfB(Source(payload), i);
  }

  // ---------- The interleaver ----------

  /** The four bits of a nibble in the opposite order. */
  function ReverseNibble(x: nat): (r: nat)
    requires x < 16
    ensures r < 16
  {
    match x
    case 0 => 0
    case 1 => 8
    case 2 => 4
    case 3 => 12
    case 4 => 2
    case 5 => 10
    case 6 => 6
    case 7 => 14
    case 8 => 1
    case 9 => 9
    case 10 => 5
    case 11 => 13
    case 12 => 3
    case 13 => 11
    case 14 => 7
    case 15 => 15
  }

  lemma NibbleTwice(x: nat)
    requires x < 16
    ensures ReverseNibble(ReverseNibble(x)) == x
  {}

  lemma NibbleBits(x: nat)
    requires x < 16
    ensures ReverseNibble(x) == 8 * (x % 2) + 4 * (x / 2 % 2) + 2 * (x / 4 % 2) + x / 8
  {
    match x
    case 0 =>
    case 1 =>
    case 2 =>
    case 3 =>
    case 4 =>
    case 5 =>
    case 6 =>
    case 7 =>
    case 8 =>
    case 9 =>
    case 10 =>
    case 11 =>
    case 12 =>
    case 13 =>
    case 14 =>
    case 15 =>
  }

  /** The eight bits of i in the opposite order. */
  function Reverse(i: nat): (r: nat)
    requires i < 256
    ensures r < 256
  {
    16 * ReverseNibble(i % 16) + ReverseNibble(i / 16)
  }

  lemma ReverseTwice(i: nat)
    requires i < 256
    ensures Reverse(Reverse(i)) == i
  {
    var high, low := ReverseNibble(i % 16), ReverseNibble(i / 16);
    NibbleTwice(i % 16);
    NibbleTwice(i / 16);
    hide ReverseNibble;
    SplitByte(high, low);
  }

  lemma SplitByte(high: nat, low: nat)
    requires high < 16 && low < 16
    ensures (16 * high + low) % 16 == low && (16 * high + low) / 16 == high
  {}

  /** The positions filled after n turns of the interleaving loop, in order. */
  function Order(n: nat): (order: seq<nat>)
    requires n <= 256
  {
    if n == 0 then []
    else Order(n - 1) + (if Reverse(n - 1) < SYMBOLS then [Reverse(n - 1)] else [])
  }

  lemma {:induction false} OrderHas(n: nat, p: nat)
    requires n <= 256 && p < 256
    ensures p in Order(n) <==> p < SYMBOLS && Reverse(p) < n
  {
    hide Reverse;
    if n == 0 {
    } else {
      OrderHas(n - 1, p);
      ReverseTwice(p);
      ReverseTwice(n - 1);
    }
  }

  lemma {:induction false} OrderDistinct(n: nat)
    requires n <= 256
    ensures Distinct(Order(n)) && forall p :: p in Order(n) ==> p < SYMBOLS
  {
    hide Reverse;
    if n == 0 {
    } else {
      OrderDistinct(n - 1);
      ReverseTwice(n - 1);
      OrderHas(n - 1, Reverse(n - 1));
    }
  }

  function Below(n: nat): set<nat> {
    if n == 0 then {} else Below(n - 1) + {n - 1}
  }

  lemma {:induction false} BelowMembers(n: nat)
    ensures |Below(n)| == n && forall p: nat :: p in Below(n) <==> p < n
  {
    if n == 0 {
    } else {
      BelowMembers(n - 1);
    }
  }

  lemma DistinctCount(s: seq<nat>, n: nat)
    requires Distinct(s) && forall p: nat :: p in s <==> p < n
    ensures |s| == n
  {
    BelowMembers(n);
    MembersCount(s);
    forall p: nat ensures p in Members(s) <==> p in Below(n) {
      MemberOf(s, p);
    }
    assert Members(s) == Below(n);
  }

  /** The loop visits each of the 162 positions exactly once. */
  lemma OrderIsPermutation(n: nat)
    requires n == 256
    ensures |Order(n)| == SYMBOLS && Distinct(Order(n))
    ensures forall p: nat :: p in Order(n) <==> p < SYMBOLS
  {
    hide Order, Reverse;
    OrderDistinct(n);
    forall p: nat ensures p in Order(n) <==> p < SYMBOLS {
      if p < n {
        OrderHas(n, p);
      }
    }
    DistinctCount(Order(n), SYMBOLS);
  }

  lemma {:induction false} OrderGrows(m: nat, n: nat)
    requires m <= n <= 256
    ensures Order(m) <= Order(n)
  {
    if m == n {
    } else {
      OrderGrows(m, n - 1);
    }
  }

  // ---------- The symbols ----------

  /** Which coded bit position p carries: how many positions are filled before it. */
  function Rank(p: nat): (rank: nat)
    requires p < SYMBOLS
    ensures rank < SYMBOLS
  {
    RankIsPlace(p, 256);
    |Order(Reverse(p))|
  }

  lemma RankIsPlace(p: nat, n: nat)
    requires p < SYMBOLS && n == 256
    ensures var rank := |Order(Reverse(p))|; rank < SYMBOLS == |Order(n)| && Order(n)[rank] == p
  {
    hide Order, Reverse;
    var r := Reverse(p);
    ReverseTwice(p);
    OrderNext(r);
    OrderGrows(r + 1, n);
    OrderIsPermutation(n);
  }

  lemma OrderNext(i: nat)
    requires i < 256
    ensures Order(i + 1) == Order(i) + (if Reverse(i) < SYMBOLS then [Reverse(i)] else [])
  {}

  lemma OrderShort(n: nat)
    requires n <= 256
    ensures |Order(n)| <= SYMBOLS
  {
    hide Order, Reverse;
    var all := 256;
    OrderGrows(n, all);
    OrderIsPermutation(all);
  }

  /** The closed form of the interleaved symbols. */
  function Symbols(payload: nat): (symbols: seq<nat>)
    ensures |symbols| == SYMBOLS
  {
    hide Sync;
    seq(SYMBOLS, p requires 0 <= p < SYMBOLS => Tone(Sync()[p], Coded(payload)[Rank(p)]))
  }

  /** The bits of i reversed as far as the inner loop has come. */
  function ReverseLow(i: nat, k: nat): nat {
    if k == 0 then 0 else 2 * ReverseLow(i, k - 1) + i / Pow2(k - 1) % 2
  }

  lemma ReverseLowNext(i: nat, k: nat, p: nat)
    requires Pow2(k) == p
    ensures ReverseLow(i, k + 1) == 2 * ReverseLow(i, k) + i / p % 2
    ensures Pow2(k + 1) == 2 * p
  {}

  lemma ReverseLowAll(i: nat)
    requires i < 256
    ensures ReverseLow(i, 8) == Reverse(i)
  {
    ReverseLowNext(i, 0, 1);
    ReverseLowNext(i, 1, 2);
    ReverseLowNext(i, 2, 4);
    ReverseLowNext(i, 3, 8);
    ReverseLowNext(i, 4, 16);
    ReverseLowNext(i, 5, 32);
    ReverseLowNext(i, 6, 64);
    ReverseLowNext(i, 7, 128);
    LowNibble(i);
    HighNibble(i);
    NibbleBits(i % 16);
    NibbleBits(i / 16);
  }

  /** The bits of a byte are those of its nibbles. */
  lemma Above(q: nat, x: nat)
    requires x < 16
    ensures (16 * q + x) / 2 == 8 * q + x / 2
    ensures (16 * q + x) / 4 == 4 * q + x / 4
    ensures (16 * q + x) / 8 == 2 * q + x / 8
  {}

  lemma EvenAbove(k: nat, y: nat)
    ensures (2 * k + y) % 2 == y % 2
  {}

  lemma LowNibble(i: nat)
    requires i < 256
    ensures i % 16 % 2 == i % 2 && i % 16 / 2 % 2 == i / 2 % 2
    ensures i % 16 / 4 % 2 == i / 4 % 2 && i % 16 / 8 == i / 8 % 2
  {
    var q, x := i / 16, i % 16;
    Above(q, x);
    EvenAbove(8 * q, x);
    EvenAbove(4 * q, x / 2);
    EvenAbove(2 * q, x / 4);
    EvenAbove(q, x / 8);
  }

  lemma HighNibble(i: nat)
    requires i < 256
    ensures i / 16 / 2 == i / 32 && i / 16 / 4 == i / 64 && i / 16 / 8 == i / 128 && i / 128 % 2 == i / 128
  {}

  /** The first loop: the register takes the payload's bits and 31 zeros. */
  method Convolve(payload: nat, coded: array<bit>)
    requires payload < 0x1_0000_0000_0000_0000 && coded.Length == SYMBOLS
    modifies coded
    ensures coded[..] == Coded(payload)
  {
    hide Shifted, Tapped, Parity, Bits, Encode, Coded, Source;
    var shift: bv32 := 0;
    ghost var bits := Source(payload);
    assert bits[0..] == bits && coded[..0] == [];
    CodedStarts(payload);
    for i := 0 to CODED_STEPS
      invariant coded[..2 * i] + Encode(bits[i..], shift) == Coded(payload)
    {
      var b: bit := if i < PAYLOAD_BITS then payload / Pow2(PAYLOAD_BITS - 1 - i) % 2 else 0;
      SourceAt(payload, i);
      EncodeStep(bits, i, shift);
      ghost var done := coded[..2 * i];
      shift := Shifted(shift, b);
      coded[2 * i] := Parity(Tapped(shift, TAPS_A));
      coded[2 * i + 1] := Parity(Tapped(shift, TAPS_B));
      assert coded[..2 * (i + 1)] == done + [coded[2 * i], coded[2 * i + 1]];
      CodedGrows(done, coded[2 * i], coded[2 * i + 1], Encode(bits[i + 1..], shift));
    }
    assert coded[..2 * CODED_STEPS] == coded[..] && bits[CODED_STEPS..] == [];
    assert Encode([], shift) == [] && coded[..] + [] == coded[..];
  }

  /** Eight turns reverse the bits of an index. */
  method Reversed(i: nat) returns (reversed: nat)
    requires i < 256
    ensures reversed == Reverse(i)
  {
    hide Reverse, Pow2;
    reversed := 0;
    for k := 0 to 8
      invariant reversed == ReverseLow(i, k)
    {
      reversed := 2 * reversed + i / Pow2(k) % 2;
    }
    ReverseLowAll(i);
  }

  lemma OnlyOneReverses(i: nat)
    requires i < 256
    ensures forall p :: 0 <= p < SYMBOLS ==> (Reverse(p) == i <==> p == Reverse(i))
  {
    hide Reverse;
    forall p | 0 <= p < SYMBOLS ensures Reverse(p) == i <==> p == Reverse(i) {
      ReverseTwice(p);
      ReverseTwice(i);
    }
  }

  method ChannelSymbols(payload: nat) returns (symbols: seq<nat>)
    requires payload < 0x1_0000_0000_0000_0000
    ensures symbols == Symbols(payload)
  {
    hide Order, Reverse, Rank, Sync, Tone, Coded;
    var coded := new bit[SYMBOLS](_ => 0);
    var sync: seq<bit> := Sync();
    var result := new nat[SYMBOLS](p requires 0 <= p < SYMBOLS => sync[p]);
    Convolve(payload, coded);
    var source := 0;
    OrderStarts();
    for i := 0 to 256
      invariant source == |Order(i)|
      invariant coded[..] == Coded(payload)
      invariant forall p :: 0 <= p < SYMBOLS ==>
                  result[p] == if Reverse(p) < i then Tone(sync[p], Coded(payload)[Rank(p)]) else sync[p]
    {
      var reversed := Reversed(i);
      OrderNext(i);
      OrderShort(i + 1);
      OnlyOneReverses(i);
      if reversed < SYMBOLS {
        RankOf(reversed);
        assert coded[..][source] == coded[source];
        ToneIs(sync[reversed], coded[source]);
        result[reversed] := result[reversed] + 2 * (coded[source] as int);
        source := source + 1;
      }
    }
    symbols := result[..];
  }

  lemma CodedStarts(payload: nat)
    ensures Coded(payload) == [] + Encode(Source(payload), 0)
  {
    hide Encode, Source;
  }

  lemma SourceAt(payload: nat, i: nat)
    requires i < CODED_STEPS
    ensures Source(payload)[i] == if i < PAYLOAD_BITS then payload / Pow2(PAYLOAD_BITS - 1 - i) % 2 else 0
  {
    if i < PAYLOAD_BITS {
      BitAt(payload, PAYLOAD_BITS, i);
    }
  }

  lemma EncodeStep(bits: seq<bit>, i: nat, shift: bv32)
    requires i < |bits|
    ensures var next := Shifted(shift, bits[i]);
            Encode(bits[i..], shift)
            == [Parity(Tapped(next, TAPS_A)), Parity(Tapped(next, TAPS_B))] + Encode(bits[i + 1..], next)
  {
    hide Shifted, Tapped, Parity;
    assert bits[i..][1..] == bits[i + 1..];
  }

  lemma ToneIs(sync: bit, coded: bit)
    ensures Tone(sync, coded) == (sync as int) + 2 * (coded as int)
  {}

  lemma CodedGrows(done: seq<bit>, a: bit, b: bit, rest: seq<bit>)
    ensures done + ([a, b] + rest) == (done + [a, b]) + rest
  {}

  lemma OrderStarts()
    ensures Order(0) == []
  {}

  lemma RankOf(p: nat)
    requires p < SYMBOLS
    ensures Rank(p) == |Order(Reverse(p))| && Reverse(Reverse(p)) == p
  {
    ReverseTwice(p);
  }

  // ---------- Reading the symbols back ----------

  function Deinterleaved(symbols: seq<nat>): (coded: seq<bit>)
    requires |symbols| == SYMBOLS && forall p :: 0 <= p < SYMBOLS ==> symbols[p] <= 3
    ensures |coded| == SYMBOLS
  {
    var order := OrderOf(256);
    seq(SYMBOLS, j requires 0 <= j < SYMBOLS => symbols[order[j]] / 2)
  }

  function OrderOf(n: nat): (order: seq<nat>)
    requires n == 256
    ensures |order| == SYMBOLS && forall j :: 0 <= j < SYMBOLS ==> order[j] < SYMBOLS
  {
    hide Order;
    OrderIsPermutation(n);
    assert forall j :: 0 <= j < SYMBOLS ==> Order(n)[j] in Order(n);
    Order(n)
  }

  /** The payload heard from either of the two coded streams. */
  function ReadSymbols(symbols: seq<nat>, phase: bit): nat
    requires |symbols| == SYMBOLS && forall p :: 0 <= p < SYMBOLS ==> symbols[p] <= 3
  {
    Value(Decode(Deinterleaved(symbols), 0, phase)[..PAYLOAD_BITS])
  }

  lemma SymbolsCarrySync(payload: nat, p: nat)
    requires p < SYMBOLS
    ensures Symbols(payload)[p] <= 3 && Symbols(payload)[p] % 2 == Sync()[p]
    ensures Symbols(payload)[p] / 2 == Coded(payload)[Rank(p)]
  {
    hide Sync, Rank, Coded;
  }

  lemma DeinterleaveInverts(payload: nat)
    ensures forall p :: 0 <= p < SYMBOLS ==> Symbols(payload)[p] <= 3
    ensures Deinterleaved(Symbols(payload)) == Coded(payload)
  {
    var symbols := Symbols(payload);
    forall p | 0 <= p < SYMBOLS ensures symbols[p] <= 3 {
      SymbolsCarrySync(payload, p);
    }
    var n := 256;
    var order := OrderOf(n);
    forall j | 0 <= j < SYMBOLS ensures Deinterleaved(symbols)[j] == Coded(payload)[j] {
      SymbolsCarrySync(payload, order[j]);
      PlaceIsRank(j, n);
    }
  }

  lemma PlaceIsRank(j: nat, n: nat)
    requires j < SYMBOLS && n == 256
    ensures OrderOf(n)[j] < SYMBOLS && Rank(OrderOf(n)[j]) == j
  {
    hide Order, Reverse;
    OrderIsPermutation(n);
    var p := Order(n)[j];
    assert p in Order(n);
    RankIsPlace(p, n);
    RankOf(p);
  }

  /** Every 50-bit payload is recovered from its symbols, from either stream alone. */
  lemma ChannelReadsBack(payload: nat, phase: bit)
    requires payload < Pow2(PAYLOAD_BITS)
    ensures forall p :: 0 <= p < SYMBOLS ==> Symbols(payload)[p] <= 3
    ensures ReadSymbols(Symbols(payload), phase) == payload
  {
    hide Bits, Encode, Decode, Deinterleaved, Symbols;
    DeinterleaveInverts(payload);
    DecodeInverts(Source(payload), 0, phase);
    assert Source(payload)[..PAYLOAD_BITS] == Bits(payload, PAYLOAD_BITS);
    BitsValue(payload, PAYLOAD_BITS);
  }
}
