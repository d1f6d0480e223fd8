/**
 The WTP frame: magic, version 1, encoding 1, no flags, a big-endian length and
 checksum, then the payload.
 */
module WtpFrame {
  import opened Bytes
  import opened Crc32c
  import opened Octets

  const MAGIC: seq<byte> := [0x57, 0x54, 0x50, 0x46]
  const HEADER_SIZE := 16
  const MAX_PAYLOAD := 65536

  function Upper(n: nat): nat { n / 256 }

  function Lower(n: nat): byte { n % 256 }

  function More(high: nat, low: byte): nat { 256 * high + low }

  function BigEndian(n: nat): (field: seq<byte>)
    requires n < 0x1_0000_0000
    ensures |field| == 4 && ReadBigEndian(field) == n
  {
    UpperBound(n);
    FourDigits(n);
    [Upper(Upper(Upper(n))), Lower(Upper(Upper(n))), Lower(Upper(n)), Lower(n)]
  }

  function ReadBigEndian(field: seq<byte>): nat
    requires |field| == 4
  {
    More(More(More(field[0], field[1]), field[2]), field[3])
  }

  lemma UpperBound(n: nat)
    requires n < 0x1_0000_0000
    ensures Upper(Upper(Upper(n))) < 256
  {}

  lemma Digits(n: nat)
    ensures More(Upper(n), Lower(n)) == n
  {}

  lemma FourDigits(n: nat)
    ensures More(More(More(Upper(Upper(Upper(n))), Lower(Upper(Upper(n)))), Lower(Upper(n))), Lower(n)) == n
  {
    hide Upper, Lower, More;
    Digits(n);
    Digits(Upper(n));
    Digits(Upper(Upper(n)));
  }

  function WordBytes(w: bv32): (field: seq<byte>)
    ensures |field| == 4
  {
    [ByteOf((w >> 24) as bv8), ByteOf(((w >> 16) & 0xFF) as bv8),
     ByteOf(((w >> 8) & 0xFF) as bv8), ByteOf((w & 0xFF) as bv8)]
  }

  function ReadWord(field: seq<byte>): bv32
    requires |field| == 4
  {
    JoinWord(Octet(field[0]), Octet(field[1]), Octet(field[2]), Octet(field[3]))
  }

  function JoinWord(a: bv8, b: bv8, c: bv8, d: bv8): bv32 {
    ((a as bv32) << 24) | ((b as bv32) << 16) | ((c as bv32) << 8) | (d as bv32)
  }

  lemma WordReadsBack(w: bv32)
    ensures ReadWord(WordBytes(w)) == w
  {
    JoinSplit(w);
    hide Octet, ByteOf, JoinWord;
    OctetReadsBack((w >> 24) as bv8);
    OctetReadsBack(((w >> 16) & 0xFF) as bv8);
    OctetReadsBack(((w >> 8) & 0xFF) as bv8);
    OctetReadsBack((w & 0xFF) as bv8);
  }

  lemma JoinSplit(w: bv32)
    ensures JoinWord((w >> 24) as bv8, ((w >> 16) & 0xFF) as bv8, ((w >> 8) & 0xFF) as bv8, (w & 0xFF) as bv8) == w
  {}

  function Header(length: nat, checksum: bv32): (header: seq<byte>)
    requires length < 0x1_0000_0000
    ensures |header| == HEADER_SIZE
  {
    MAGIC + [1, 1] + [0, 0] + BigEndian(length) + WordBytes(checksum)
  }

  /** The length field is 32 bits wide: packing a longer payload raises. */
  function Frame(payload: seq<byte>): seq<byte>
    requires |payload| < 0x1_0000_0000
  {
    Header(|payload|, Checksum(payload)) + payload
  }

  predicate MagicAt(buffer: seq<byte>, at: int) {
    && 0 <= at <= |buffer| - 4
    && buffer[at] == MAGIC[0] && buffer[at + 1] == MAGIC[1] && buffer[at + 2] == MAGIC[2] && buffer[at + 3] == MAGIC[3]
  }

  function Length(buffer: seq<byte>): nat
    requires |buffer| >= HEADER_SIZE
  {
    ReadBigEndian(buffer[8..12])
  }

  function ChecksumField(buffer: seq<byte>): bv32
    requires |buffer| >= HEADER_SIZE
  {
    ReadWord(buffer[12..16])
  }

  /** Version, encoding and flags are the only ones known and the length is in range. */
  predicate FieldsValid(buffer: seq<byte>)
    requires |buffer| >= HEADER_SIZE
  {
    buffer[4] == 1 && buffer[5] == 1 && buffer[6] == 0 && buffer[7] == 0 && 1 <= Length(buffer) <= MAX_PAYLOAD
  }

  function Payload(buffer: seq<byte>): seq<byte>
    requires |buffer| >= HEADER_SIZE && |buffer| >= HEADER_SIZE + Length(buffer)
  {
    buffer[HEADER_SIZE..HEADER_SIZE + Length(buffer)]
  }

  /** A header reads back whatever follows it. */
  lemma HeaderReadsBack(length: nat, checksum: bv32, rest: seq<byte>)
    requires 1 <= length <= MAX_PAYLOAD
    ensures var buffer := Header(length, checksum) + rest;
            && MagicAt(buffer, 0) && FieldsValid(buffer)
            && Length(buffer) == length && ChecksumField(buffer) == checksum
  {
    hide BigEndian, ReadBigEndian, WordBytes, ReadWord;
    var buffer := Header(length, checksum) + rest;
    WordReadsBack(checksum);
    assert buffer[8..12] == BigEndian(length);
    assert buffer[12..16] == WordBytes(checksum);
  }

  /** The header of the protocol's framing vector. */
  lemma KnownHeader()
    ensures Header(157, 0x59DBA00C)
            == [0x57, 0x54, 0x50, 0x46, 1, 1, 0, 0, 0, 0, 0, 0x9D, 0x59, 0xDB, 0xA0, 0x0C]
  {
    hide BigEndian, WordBytes;
    KnownLength();
    KnownBytes();
  }

  lemma KnownLength()
    ensures BigEndian(157) == [0, 0, 0, 0x9D]
  {
    assert Upper(157) == 0 && Lower(157) == 0x9D && Upper(0) == 0 && Lower(0) == 0;
    hide Upper, Lower;
  }

  lemma KnownBytes()
    ensures WordBytes(0x59DBA00C) == [0x59, 0xDB, 0xA0, 0x0C]
  {}

  lemma DigitsBack(high: nat, low: byte)
    ensures Upper(More(high, low)) == high && Lower(More(high, low)) == low
  {}

  lemma FieldBound(field: seq<byte>)
    requires |field| == 4
    ensures ReadBigEndian(field) < 0x1_0000_0000
  {}

  lemma BigEndianCanonical(field: seq<byte>)
    requires |field| == 4
    ensures ReadBigEndian(field) < 0x1_0000_0000 && BigEndian(ReadBigEndian(field)) == field
  {
    FieldBound(field);
    hide Upper, Lower, More;
    DigitsBack(field[0], field[1]);
    DigitsBack(More(field[0], field[1]), field[2]);
    DigitsBack(More(More(field[0], field[1]), field[2]), field[3]);
  }

  lemma WordCanonical(field: seq<byte>)
    requires |field| == 4
    ensures WordBytes(ReadWord(field)) == field
  {
    hide JoinWord, Octet, ByteOf;
    var a, b, c, d := Octet(field[0]), Octet(field[1]), Octet(field[2]), Octet(field[3]);
    SplitJoin(a, b, c, d);
    ByteReadsBack(field[0]);
    ByteReadsBack(field[1]);
    ByteReadsBack(field[2]);
    ByteReadsBack(field[3]);
  }

  lemma SplitJoin(a: bv8, b: bv8, c: bv8, d: bv8)
    ensures var w := JoinWord(a, b, c, d);
            && (w >> 24) as bv8 == a && ((w >> 16) & 0xFF) as bv8 == b
            && ((w >> 8) & 0xFF) as bv8 == c && (w & 0xFF) as bv8 == d
  {}

  /** The only sixteen bytes that read as these fields are the header made of them. */
  lemma HeaderCanonical(buffer: seq<byte>)
    requires |buffer| >= HEADER_SIZE && MagicAt(buffer, 0) && FieldsValid(buffer)
    ensures buffer[..HEADER_SIZE] == Header(Length(buffer), ChecksumField(buffer))
  {
    hide ReadBigEndian, ReadWord, WordBytes, BigEndian;
    BigEndianCanonical(buffer[8..12]);
    WordCanonical(buffer[12..16]);
    assert buffer[..4] == MAGIC && buffer[4..8] == [1, 1] + [0, 0];
    assert buffer[..HEADER_SIZE] == buffer[..4] + buffer[4..8] + buffer[8..12] + buffer[12..16];
  }

  /** A frame's fields do not depend on what follows them. */
  lemma FieldsArePrefix(a: seq<byte>, b: seq<byte>)
    requires |a| >= HEADER_SIZE
    ensures FieldsValid(a + b) == FieldsValid(a)
    ensures Length(a + b) == Length(a) && ChecksumField(a + b) == ChecksumField(a)
    ensures |a| >= HEADER_SIZE + Length(a) ==> Payload(a + b) == Payload(a)
  {
    assert (a + b)[8..12] == a[8..12] && (a + b)[12..16] == a[12..16];
  }

  function Concat<T>(parts: seq<seq<T>>): seq<T> {
    if parts == [] then [] else parts[0] + Concat(parts[1..])
  }

  lemma {:induction false} ConcatAppend<T>(a: seq<seq<T>>, b: seq<seq<T>>)
    ensures Concat(a + b) == Concat(a) + Concat(b)
  {
    if a == [] {
      assert a + b == b;
    } else {
      assert (a + b)[1..] == a[1..] + b;
      ConcatAppend(a[1..], b);
    }
  }
}
