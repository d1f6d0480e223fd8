/**
 Answers of the reference implementation (WSJT-X) that the repository's tests are held to,
 derived from the model: they fix every constant of packing and hashing.
 */
module WsprOracle {
  import opened Callsign
  import opened WsprChannel
  import opened WsprMessage
  import opened WsprPlan
  import WsprHash

  // ---------- Payloads ----------

  lemma KnownBase()
    ensures BaseCall("AA0NT") && Packed(Padded("AA0NT")) == 72837116
  {}

  /** The extended calls of the station on either side of the slash. */
  lemma KnownSuffix(right: string)
    requires OneMark(right) || TwoDigits(right)
    ensures Compound("AA0NT/" + right)
    ensures Type2Payload("AA0NT/" + right, 20) == Payload(72837116, Type2Field(SuffixCode(right), 20))
  {
    KnownBase();
    hide BaseCall, FindSlash, SuffixCode, Packed, Payload, Type2Field, Padded;
    SlashJoins("AA0NT", right);
    assert "AA0NT" + "/" + right == "AA0NT/" + right;
  }

  lemma KnownPrefix(left: string)
    requires 2 <= |left| <= 3 && AllAlnum(left) && !BaseCall(left)
    ensures Compound(left + "/AA0NT")
    ensures Type2Payload(left + "/AA0NT", 20) == Payload(72837116, Type2Field(PrefixCode(left), 20))
  {
    KnownBase();
    hide BaseCall, FindSlash, SuffixCode, PrefixCode, Packed, Payload, Type2Field, Padded;
    SlashJoins(left, "AA0NT");
    assert left + "/" + "AA0NT" == left + "/AA0NT";
  }

  lemma SuffixPayloads()
    ensures Compound("AA0NT/P") && Type2Payload("AA0NT/P", 20) == 305501010476246
    ensures Compound("AA0NT/99") && Type2Payload("AA0NT/99", 20) == 305501010489046
  {
    hide Compound, Type2Payload;
    KnownSuffix("P");
    KnownSuffix("99");
    assert "AA0NT/" + "P" == "AA0NT/P" && "AA0NT/" + "99" == "AA0NT/99";
  }

  lemma PrefixPayloads()
    ensures Compound("PJ4/AA0NT") && Type2Payload("PJ4/AA0NT", 20) == 305501007264342
    ensures Compound("W0/AA0NT") && Type2Payload("W0/AA0NT", 20) == 305501009252950
  {
    hide Compound, Type2Payload;
    KnownPrefix("PJ4");
    KnownPrefix("W0");
    assert "PJ4" + "/AA0NT" == "PJ4/AA0NT" && "W0" + "/AA0NT" == "W0/AA0NT";
  }

  // ---------- The hash ----------

  lemma Thirteen(n: nat)
    requires n == 13
    ensures (n % 0x1_0000_0000) as bv32 == 13
  {
    assert n % 0x1_0000_0000 == 13;
  }

  lemma KnownStart(n: nat)
    requires n == 13
    ensures WsprHash.Start(n) == WsprHash.State(0xdeadbf8e, 0xdeadbf8e, 0xdeadbf8e)
  {
    Thirteen(n);
  }

  lemma KnownQuads(block: seq<WsprHash.octet>)
    requires block == [0x41, 0x31, 0x42, 0x32, 0x43, 0x33, 0x44, 0x34, 0x45, 0x35, 0x46, 0x36]
    ensures WsprHash.QuadAt(block, 0) == 0x32423141 && WsprHash.QuadAt(block, 4) == 0x34443343
    ensures WsprHash.QuadAt(block, 8) == 0x36463545
  {
    WsprHash.QuadIsOr(0x41, 0x31, 0x42, 0x32);
    WsprHash.QuadIsOr(0x43, 0x33, 0x44, 0x34);
    WsprHash.QuadIsOr(0x45, 0x35, 0x46, 0x36);
    hide WsprHash.Quad;
  }

  lemma KnownLast(block: seq<WsprHash.octet>)
    requires block == [0x47]
    ensures WsprHash.QuadAt(block, 0) == 0x47 && WsprHash.QuadAt(block, 4) == 0 == WsprHash.QuadAt(block, 8)
  {
    WsprHash.QuadIsOr(0x47, 0, 0, 0);
    WsprHash.QuadIsOr(0, 0, 0, 0);
    hide WsprHash.Quad;
  }

  lemma KnownMix(s: WsprHash.State)
    requires s == WsprHash.State(0x10eff0cf, 0x12f1f2d1, 0x14f3f4d3)
    ensures WsprHash.Mixed(s) == WsprHash.State(0x192a34a5, 0xb659256a, 0xb4096230)
  {
    WsprHash.SixTurns(s);
  }

  lemma KnownClose(s: WsprHash.State)
    requires s == WsprHash.State(0x192a34ec, 0xb659256a, 0xb4096230)
    ensures WsprHash.Closed(s) == WsprHash.State(0x32d96306, 0xf4c59145, 0x7677310d)
  {
    WsprHash.SevenSteps(s);
  }

  lemma KnownFirst(text: seq<WsprHash.octet>)
    requires text == [0x41, 0x31, 0x42, 0x32, 0x43, 0x33, 0x44, 0x34, 0x45, 0x35, 0x46, 0x36, 0x47]
    ensures WsprHash.Digest(WsprHash.Start(13), text)
            == WsprHash.Digest(WsprHash.State(0x192a34a5, 0xb659256a, 0xb4096230), [0x47])
  {
    var block := text[..12];
    assert block == [0x41, 0x31, 0x42, 0x32, 0x43, 0x33, 0x44, 0x34, 0x45, 0x35, 0x46, 0x36] && text[12..] == [0x47];
    KnownStart(13);
    KnownQuads(block);
    hide WsprHash.QuadAt, WsprHash.Start, WsprHash.Mixed, WsprHash.Closed;
    KnownMix(WsprHash.State(0x10eff0cf, 0x12f1f2d1, 0x14f3f4d3));
  }

  lemma KnownSecond()
    ensures WsprHash.Digest(WsprHash.State(0x192a34a5, 0xb659256a, 0xb4096230), [0x47])
            == WsprHash.State(0x32d96306, 0xf4c59145, 0x7677310d)
  {
    var s := WsprHash.State(0x192a34a5, 0xb659256a, 0xb4096230);
    KnownLast([0x47]);
    hide WsprHash.QuadAt, WsprHash.Mixed, WsprHash.Closed;
    assert WsprHash.Digest(s, [0x47]) == WsprHash.Closed(WsprHash.Added(s, [0x47]));
    KnownClose(WsprHash.State(0x192a34ec, 0xb659256a, 0xb4096230));
  }

  /** The hash of "A1B2C3D4E5F6G", which takes one block mix and one closing sequence. */
  lemma KnownHash()
    ensures WsprHash.Hash([0x41, 0x31, 0x42, 0x32, 0x43, 0x33, 0x44, 0x34, 0x45, 0x35, 0x46, 0x36, 0x47]) == 12557
  {
    var text: seq<WsprHash.octet> := [0x41, 0x31, 0x42, 0x32, 0x43, 0x33, 0x44, 0x34, 0x45, 0x35, 0x46, 0x36, 0x47];
    hide WsprHash.Digest, WsprHash.Start, WsprHash.Cut;
    KnownFirst(text);
    KnownSecond();
    KnownCut(0x7677310d);
  }

  lemma KnownCut(word: bv32)
    requires word == 0x7677310d
    ensures WsprHash.Cut(word) == 12557
  {}

  // ---------- A hashed call ----------

  lemma CallOctets()
    ensures Octets("AA0NT") == [0x41, 0x41, 0x30, 0x4E, 0x54]
  {
    OctetOfA('A');
    OctetOfZero('0');
    OctetOfN('N');
    OctetOfT('T');
    hide OctetOf;
  }

  lemma OctetOfA(c: char)
    requires c == 'A'
    ensures OctetOf(c) == 0x41
  {
    assert c as int % 256 == 0x41;
  }

  lemma OctetOfZero(c: char)
    requires c == '0'
    ensures OctetOf(c) == 0x30
  {
    assert c as int % 256 == 0x30;
  }

  lemma OctetOfN(c: char)
    requires c == 'N'
    ensures OctetOf(c) == 0x4E
  {
    assert c as int % 256 == 0x4E;
  }

  lemma OctetOfT(c: char)
    requires c == 'T'
    ensures OctetOf(c) == 0x54
  {
    assert c as int % 256 == 0x54;
  }

  lemma Five(n: nat)
    requires n == 5
    ensures (n % 0x1_0000_0000) as bv32 == 5
  {
    assert n % 0x1_0000_0000 == 5;
  }

  lemma CallStart(n: nat)
    requires n == 5
    ensures WsprHash.Start(n) == WsprHash.State(0xdeadbf86, 0xdeadbf86, 0xdeadbf86)
  {
    Five(n);
  }

  lemma CallQuads(call: seq<WsprHash.octet>)
    requires call == [0x41, 0x41, 0x30, 0x4E, 0x54]
    ensures WsprHash.QuadAt(call, 0) == 0x4E304141 && WsprHash.QuadAt(call, 4) == 0x54 && WsprHash.QuadAt(call, 8) == 0
  {
    WsprHash.QuadIsOr(0x41, 0x41, 0x30, 0x4E);
    WsprHash.QuadIsOr(0x54, 0, 0, 0);
    WsprHash.QuadIsOr(0, 0, 0, 0);
    hide WsprHash.Quad;
  }

  lemma CallClose(s: WsprHash.State)
    requires s == WsprHash.State(0x2cde00c7, 0xdeadbfda, 0xdeadbf86)
    ensures WsprHash.Closed(s) == WsprHash.State(0x5199c874, 0x7cb2145b, 0xd69f4ae1)
  {
    WsprHash.SevenSteps(s);
  }

  lemma CallCut(word: bv32)
    requires word == 0xd69f4ae1
    ensures WsprHash.Cut(word) == 19169
  {}

  lemma KnownCallHash()
    ensures CallHash("AA0NT") == 19169
  {
    var call: seq<WsprHash.octet> := [0x41, 0x41, 0x30, 0x4E, 0x54];
    CallOctets();
    CallStart(5);
    CallQuads(call);
    hide Octets, WsprHash.QuadAt, WsprHash.Start, WsprHash.Mixed, WsprHash.Closed, WsprHash.Cut;
    var s := WsprHash.Start(5);
    assert WsprHash.Digest(s, call) == WsprHash.Closed(WsprHash.Added(s, call));
    CallClose(WsprHash.State(0x2cde00c7, 0xdeadbfda, 0xdeadbf86));
    CallCut(0xd69f4ae1);
  }

  lemma KnownLocator()
    ensures SixLocator("EM18IG") && Rotated("EM18IG") == "M18IGE" && Packed("M18IGE") == 156249652
  {
    assert "EM18IG"[..4] == "EM18" && "EM18IG"[1..] + ['E'] == "M18IGE";
  }

  /** The frame of <AA0NT>. */
  lemma HashedPayload()
    ensures SixLocator("EM18IG") && Type3Payload("AA0NT", "EM18IG", 20) == 655358542835883
  {
    KnownCallHash();
    KnownLocator();
    hide CallHash, SixLocator, Rotated, Packed;
  }

  // ---------- The sync vector ----------

  /** The reference's symbols of AA0NT/P, in rows. */
  function KnownRow(r: nat): (row: string)
    requires r < 7
    ensures |row| == if r < 6 then 24 else 18
  {
    match r
    case 0 => "132002023020113200302103"
    case 1 => "113200002032032102202230"
    case 2 => "112233210203121022213032"
    case 3 => "323230210232330223321012"
    case 4 => "223220003221221112330013"
    case 5 => "010021310200212102130220"
    case _ => "202110303322013200"
  }

  /** The characters '0' and '2' are even. */
  lemma RowZero(i: nat)
    requires i < 24
    ensures (KnownRow(0)[i] as int) % 2 == SyncRow(0)[i]
  {}

  lemma RowOne(i: nat)
    requires i < 24
    ensures (KnownRow(1)[i] as int) % 2 == SyncRow(1)[i]
  {}

  lemma RowTwo(i: nat)
    requires i < 24
    ensures (KnownRow(2)[i] as int) % 2 == SyncRow(2)[i]
  {}

  lemma RowThree(i: nat)
    requires i < 24
    ensures (KnownRow(3)[i] as int) % 2 == SyncRow(3)[i]
  {}

  lemma RowFour(i: nat)
    requires i < 24
    ensures (KnownRow(4)[i] as int) % 2 == SyncRow(4)[i]
  {}

  lemma RowFive(i: nat)
    requires i < 24
    ensures (KnownRow(5)[i] as int) % 2 == SyncRow(5)[i]
  {}

  lemma RowSix(i: nat)
    requires i < 18
    ensures (KnownRow(6)[i] as int) % 2 == SyncRow(6)[i]
  {}

  lemma KnownRows(r: nat, i: nat)
    requires r < 7 && i < if r < 6 then 24 else 18
    ensures (KnownRow(r)[i] as int) % 2 == SyncRow(r)[i]
  {
    hide KnownRow, SyncRow;
    match r
    case 0 => RowZero(i);
    case 1 => RowOne(i);
    case 2 => RowTwo(i);
    case 3 => RowThree(i);
    case 4 => RowFour(i);
    case 5 => RowFive(i);
    case _ => RowSix(i);
  }

  /** The low bits of all symbols are those of the reference, whatever is sent. */
  lemma SyncIsKnown(payload: nat, r: nat, i: nat)
    requires r < 7 && i < |KnownRow(r)|
    ensures Symbols(payload)[24 * r + i] % 2 == (KnownRow(r)[i] as int) % 2
  {
    hide Symbols, KnownRow, SyncRow;
    SymbolsCarrySync(payload, 24 * r + i);
    SyncAt(r, i);
    KnownRows(r, i);
  }
}
