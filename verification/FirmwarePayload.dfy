/**
 The comparison of an image's pages with the load segments of the linked ARM program.
 */
module FirmwarePayload {
  import opened Bytes
  import opened Uf2

  // ---------- The program ----------

  const PROGRAM_HEADER := 32

  function HeaderOffset(elf: seq<byte>): nat
    requires |elf| >= 52
  {
    U32(elf, 28)
  }

  function HeaderCount(elf: seq<byte>): nat
    requires |elf| >= 52
  {
    U16(elf, 44)
  }

  /** A little-endian 32-bit ARM program with a bounded table of program headers. */
  predicate ElfHeader(elf: seq<byte>) {
    && |elf| >= 52 && elf[..7] == [0x7F, 0x45, 0x4C, 0x46, 1, 1, 1] && U16(elf, 18) == 40
    && U16(elf, 42) == PROGRAM_HEADER && 0 < HeaderCount(elf) <= 64
    && HeaderOffset(elf) + PROGRAM_HEADER * HeaderCount(elf) <= |elf|
  }

  datatype Segment = Segment(kind: nat, fileOffset: nat, address: nat, size: nat)

  function SegmentAt(elf: seq<byte>, i: nat): Segment
    requires ElfHeader(elf) && i < HeaderCount(elf)
  {
    var at := HeaderOffset(elf) + PROGRAM_HEADER * i;
    Segment(U32(elf, at), U32(elf, at + 4), U32(elf, at + 12), U32(elf, at + 16))
  }

  predicate Loads(s: Segment) { s.kind == 1 && s.size > 0 }

  predicate LoadsAt(s: Segment, address: nat) { Loads(s) && s.address <= address < s.address + s.size }

  /** Some load segment among the first n covers this address. */
  predicate Covered(elf: seq<byte>, n: nat, address: nat)
    requires ElfHeader(elf) && n <= HeaderCount(elf)
  {
    exists i :: 0 <= i < n && LoadsAt(SegmentAt(elf, i), address)
  }

  // ---------- The pages ----------

  datatype Gathering = Bad | Good(pages: map<nat, seq<byte>>, e10: nat)

  /** The number of block starts, a last partial block included. */
  function Starts(uf2: seq<byte>): nat { (|uf2| + BLOCK - 1) / BLOCK }

  function OnePage(uf2: seq<byte>, k: nat, before: Gathering): Gathering {
    var at := BLOCK * k;
    if before.Bad? || at + 20 > |uf2| then Bad
    else if U32(uf2, at + 12) == E10_ADDRESS then
      if before.e10 + 1 > 1 then Bad else Good(before.pages, before.e10 + 1)
    else if at + 32 > |uf2| then Bad
    else if && U32(uf2, at + 8) == 0x2000 && U32(uf2, at + 28) == 0xE48BFF59 && U32(uf2, at + 20) == |before.pages|
            && U32(uf2, at + 24) == |uf2| / BLOCK - 1 && U32(uf2, at + 16) == PAGE && U32(uf2, at + 12) % PAGE == 0
            && U32(uf2, at + 12) !in before.pages
    then
      var page := uf2[at + 32..if at + 288 <= |uf2| then at + 288 else |uf2|];
      Good(before.pages[U32(uf2, at + 12) := page], before.e10)
    else Bad
  }

  function GatheredPages(uf2: seq<byte>, k: nat): Gathering {
    if k == 0 then Good(map[], 0) else OnePage(uf2, k - 1, GatheredPages(uf2, k - 1))
  }

  // ---------- The comparison ----------

  predicate ByteMatches(pages: map<nat, seq<byte>>, address: nat, b: byte) {
    var page := address - address % PAGE;
    page in pages && address % PAGE < |pages[page]| && pages[page][address % PAGE] == b
  }

  predicate LoadMatches(elf: seq<byte>, s: Segment, pages: map<nat, seq<byte>>, n: nat)
    requires s.fileOffset + n < |elf|
  {
    ByteMatches(pages, s.address + n, elf[s.fileOffset + n])
  }

  predicate SegmentMatches(elf: seq<byte>, s: Segment, pages: map<nat, seq<byte>>, end: nat) {
    Loads(s) ==>
      && FLASH_BASE <= s.address && s.address + s.size <= end && s.fileOffset + s.size <= |elf|
      && forall n :: 0 <= n < s.size ==> LoadMatches(elf, s, pages, n)
  }

  predicate OnlyPadding(elf: seq<byte>, page: seq<byte>, address: nat)
    requires ElfHeader(elf)
  {
    forall k :: 0 <= k < |page| ==> Covered(elf, HeaderCount(elf), address + k) || page[k] == 0 || page[k] == 255
  }

  /** The first n segments match their pages. */
  predicate MatchesTo(elf: seq<byte>, pages: map<nat, seq<byte>>, end: nat, n: nat)
    requires ElfHeader(elf) && n <= HeaderCount(elf)
  {
    forall i :: 0 <= i < n ==> SegmentMatches(elf, SegmentAt(elf, i), pages, end)
  }

  predicate LoadsSome(elf: seq<byte>, n: nat)
    requires ElfHeader(elf) && n <= HeaderCount(elf)
  {
    exists i :: 0 <= i < n && Loads(SegmentAt(elf, i))
  }

  /** Every loaded byte stands in its page and every other byte of a page is padding. */
  predicate PayloadMatches(elf: seq<byte>, uf2: seq<byte>, end: nat) {
    var gathered := GatheredPages(uf2, Starts(uf2));
    && ElfHeader(elf) && gathered.Good? && gathered.e10 == 1
    && MatchesTo(elf, gathered.pages, end, HeaderCount(elf)) && LoadsSome(elf, HeaderCount(elf))
    && forall a :: a in gathered.pages ==> OnlyPadding(elf, gathered.pages[a], a)
  }

  method GatherPages(uf2: seq<byte>) returns (gathered: Gathering)
    ensures gathered == GatheredPages(uf2, Starts(uf2))
  {
    var pages: map<nat, seq<byte>>, e10 := map[], 0;
    for k := 0 to Starts(uf2)
      invariant GatheredPages(uf2, k) == Good(pages, e10)
    {
      var next := OnePage(uf2, k, Good(pages, e10));
      if next.Bad? {
        BadStays(uf2, k + 1, Starts(uf2));
        return Bad;
      }
      pages, e10 := next.pages, next.e10;
    }
    gathered := Good(pages, e10);
  }

  lemma {:induction false} BadStays(uf2: seq<byte>, k: nat, n: nat)
    requires k <= n && GatheredPages(uf2, k).Bad?
    ensures GatheredPages(uf2, n).Bad?
    decreases n - k
  {
    if k == n {
    } else {
      BadStays(uf2, k, n - 1);
    }
  }

  method CompareSegment(elf: seq<byte>, s: Segment, pages: map<nat, seq<byte>>, end: nat, covered0: set<nat>)
    returns (covered: set<nat>, matches: bool)
    requires Loads(s)
    ensures matches == SegmentMatches(elf, s, pages, end)
    ensures matches ==> forall a :: a in covered <==> a in covered0 || LoadsAt(s, a)
  {
    covered := covered0;
    if !(FLASH_BASE <= s.address && s.address + s.size <= end && s.fileOffset + s.size <= |elf|) {
      return covered, false;
    }
    for n := 0 to s.size
      invariant forall j :: 0 <= j < n ==> LoadMatches(elf, s, pages, j)
      invariant forall a :: a in covered <==> a in covered0 || s.address <= a < s.address + n
    {
      if !LoadMatches(elf, s, pages, n) {
        return covered, false;
      }
      covered := covered + {s.address + n};
    }
    matches := true;
  }

  lemma NothingMatched(elf: seq<byte>, pages: map<nat, seq<byte>>, end: nat)
    requires ElfHeader(elf)
    ensures MatchesTo(elf, pages, end, 0) && !LoadsSome(elf, 0) && forall a :: !Covered(elf, 0, a)
  {}

  lemma MatchesNext(elf: seq<byte>, pages: map<nat, seq<byte>>, end: nat, n: nat)
    requires ElfHeader(elf) && n < HeaderCount(elf)
    ensures MatchesTo(elf, pages, end, n + 1)
            <==> MatchesTo(elf, pages, end, n) && SegmentMatches(elf, SegmentAt(elf, n), pages, end)
    ensures LoadsSome(elf, n + 1) <==> LoadsSome(elf, n) || Loads(SegmentAt(elf, n))
    ensures MatchesTo(elf, pages, end, HeaderCount(elf)) ==> SegmentMatches(elf, SegmentAt(elf, n), pages, end)
  {
    hide ElfHeader, SegmentAt, SegmentMatches, Loads;
    if LoadsSome(elf, n) {
      var i :| 0 <= i < n && Loads(SegmentAt(elf, i));
      assert 0 <= i < n + 1;
    }
  }

  method VerifyPayload(elf: seq<byte>, uf2: seq<byte>, end: nat) returns (matches: bool)
    ensures matches == PayloadMatches(elf, uf2, end)
  {
    hide GatheredPages, SegmentMatches, LoadsAt, OnePage, MatchesTo, LoadsSome, Covered, SegmentAt;
    if !ElfHeader(elf) {
      return false;
    }
    var gathered := GatherPages(uf2);
    if gathered.Bad? {
      return false;
    }
    var pages, covered: set<nat> := gathered.pages, {};
    var any := false;
    NothingMatched(elf, pages, end);
    for i := 0 to HeaderCount(elf)
      invariant MatchesTo(elf, pages, end, i) && any == LoadsSome(elf, i)
      invariant forall a :: a in covered <==> Covered(elf, i, a)
    {
      var s := SegmentAt(elf, i);
      CoveredNext(elf, i);
      MatchesNext(elf, pages, end, i);
      if !Loads(s) {
        SkippedMatches(elf, s, pages, end);
        continue;
      }
      var matched;
      covered, matched := CompareSegment(elf, s, pages, end, covered);
      if !matched {
        return false;
      }
      any := true;
    }
    if gathered.e10 != 1 || !any {
      return false;
    }
    var rest := pages.Keys;
    while rest != {}
      invariant rest <= pages.Keys
      invariant forall a :: a in pages && a !in rest ==> OnlyPadding(elf, pages[a], a)
      decreases rest
    {
      var a :| a in rest;
      rest := rest - {a};
      if !forall k :: 0 <= k < |pages[a]| ==> a + k in covered || pages[a][k] == 0 || pages[a][k] == 255 {
        return false;
      }
    }
    matches := true;
  }

  lemma CoveredNext(elf: seq<byte>, n: nat)
    requires ElfHeader(elf) && n < HeaderCount(elf)
    ensures forall a :: Covered(elf, n + 1, a) <==> Covered(elf, n, a) || LoadsAt(SegmentAt(elf, n), a)
    ensures !Loads(SegmentAt(elf, n)) ==> forall a :: !LoadsAt(SegmentAt(elf, n), a)
  {
    hide ElfHeader, SegmentAt;
  }

  lemma SkippedMatches(elf: seq<byte>, s: Segment, pages: map<nat, seq<byte>>, end: nat)
    requires !Loads(s)
    ensures SegmentMatches(elf, s, pages, end)
  {}

  // ---------- Against the installer's image ----------

  /** The pages compared are the pages of the installer's image. */
  lemma {:induction false} PagesAreTheBlocks(uf2: seq<byte>, end: nat, k: nat, i: nat)
    requires Accepted(uf2, end) && 1 <= i < k <= Count(uf2) && GatheredPages(uf2, k).Good?
    ensures HasBlock(uf2, i) && Address(uf2, i) in GatheredPages(uf2, k).pages
    ensures GatheredPages(uf2, k).pages[Address(uf2, i)] == Uf2.Payload(uf2, i)
  {
    hide Accepted, OnePage, HasBlock, WholeBlocks, Count, SupportedEnd, E10Block, AppBlock, Address, Uf2.Payload;
    AcceptedBlocks(uf2, end);
    var before := GatheredPages(uf2, k - 1);
    OnePageKeeps(uf2, k - 1, before);
    if i < k - 1 {
      PagesAreTheBlocks(uf2, end, k - 1, i);
    } else {
      OnePageReads(uf2, end, i, before);
    }
  }

  lemma OnePageKeeps(uf2: seq<byte>, k: nat, before: Gathering)
    requires OnePage(uf2, k, before).Good?
    ensures before.Good?
    ensures forall a :: a in before.pages ==> a in OnePage(uf2, k, before).pages
                                              && OnePage(uf2, k, before).pages[a] == before.pages[a]
  {
    hide U32;
  }

  lemma OnePageReads(uf2: seq<byte>, end: nat, k: nat, before: Gathering)
    requires HasBlock(uf2, k) && AppBlock(uf2, k, end) && OnePage(uf2, k, before).Good?
    ensures Address(uf2, k) in OnePage(uf2, k, before).pages
    ensures OnePage(uf2, k, before).pages[Address(uf2, k)] == Uf2.Payload(uf2, k)
  {
    hide U32, Magic, All;
  }

  lemma WholeStarts(uf2: seq<byte>)
    requires WholeBlocks(uf2)
    ensures Starts(uf2) == Count(uf2)
  {}

  /** What the installer writes is the linked program: each loaded byte at its address, and
      nothing but padding elsewhere. */
  lemma ImageIsProgram(elf: seq<byte>, uf2: seq<byte>, end: nat, limit: nat, image: seq<byte>)
    requires Accepted(uf2, end) && IsImage(image, uf2) && PayloadMatches(elf, uf2, limit)
    ensures forall i, n :: 0 <= i < HeaderCount(elf) && Loads(SegmentAt(elf, i)) && 0 <= n < SegmentAt(elf, i).size ==>
              LoadedAt(elf, SegmentAt(elf, i), n, image)
    ensures forall at :: 0 <= at < |image| && !Covered(elf, HeaderCount(elf), FLASH_BASE + at) ==>
              image[at] == 0 || image[at] == 255
  {
    hide EraseExtent, DistinctAddresses, Holds, GatheredPages, Accepted, IsImage, SegmentMatches, Covered;
    assert WholeBlocks(uf2) by { AcceptedIsWhole(uf2, end); }
    WholeStarts(uf2);
    forall i, n | 0 <= i < HeaderCount(elf) && Loads(SegmentAt(elf, i)) && 0 <= n < SegmentAt(elf, i).size
      ensures LoadedAt(elf, SegmentAt(elf, i), n, image)
    {
      LoadedByte(elf, uf2, end, limit, image, i, n);
    }
    forall at | 0 <= at < |image| && !Covered(elf, HeaderCount(elf), FLASH_BASE + at)
      ensures image[at] == 0 || image[at] == 255
    {
      PaddedByte(elf, uf2, end, limit, image, at);
    }
  }

  lemma AcceptedIsWhole(uf2: seq<byte>, end: nat)
    requires Accepted(uf2, end)
    ensures WholeBlocks(uf2)
  {}

  predicate LoadedAt(elf: seq<byte>, s: Segment, n: nat, image: seq<byte>) {
    && s.fileOffset + n < |elf| && FLASH_BASE <= s.address + n < FLASH_BASE + |image|
    && image[s.address + n - FLASH_BASE] == elf[s.fileOffset + n]
  }

  lemma PageKeys(uf2: seq<byte>, end: nat, address: nat)
    requires Accepted(uf2, end) && WholeBlocks(uf2) && GatheredPages(uf2, Count(uf2)).Good?
    requires address in GatheredPages(uf2, Count(uf2)).pages
    ensures Holds(uf2, address)
  {
    KeysAreAddresses(uf2, end, Count(uf2), address);
  }

  lemma {:induction false} KeysAreAddresses(uf2: seq<byte>, end: nat, k: nat, address: nat)
    requires Accepted(uf2, end) && WholeBlocks(uf2) && k <= Count(uf2) && GatheredPages(uf2, k).Good?
    requires address in GatheredPages(uf2, k).pages
    ensures Holds(uf2, address)
  {
    hide Accepted, OnePage, WholeBlocks, Holds, Count, Address;
    BlocksExist(uf2);
    if k == 0 {
    } else {
      var before := GatheredPages(uf2, k - 1);
      OnePageAdds(uf2, k - 1, before);
      if address in before.pages {
        KeysAreAddresses(uf2, end, k - 1, address);
      } else {
        PageIsHeld(uf2, end, k - 1);
      }
    }
  }

  lemma OnePageAdds(uf2: seq<byte>, k: nat, before: Gathering)
    requires HasBlock(uf2, k) && OnePage(uf2, k, before).Good?
    ensures before.Good?
    ensures forall a :: a in OnePage(uf2, k, before).pages ==>
              a in before.pages || (a == Address(uf2, k) && a != E10_ADDRESS)
  {
    assert U32(uf2, BLOCK * k + 12) == Address(uf2, k);
    hide U32, Address;
  }

  lemma PageIsHeld(uf2: seq<byte>, end: nat, k: nat)
    requires Accepted(uf2, end) && WholeBlocks(uf2) && HasBlock(uf2, k) && k < Count(uf2)
    ensures Address(uf2, k) == E10_ADDRESS || Holds(uf2, Address(uf2, k))
  {
    hide EraseExtent, DistinctAddresses, Pages, Address;
    BlocksExist(uf2);
    assert k == 0 ==> E10Block(uf2, 0);
  }

  lemma LoadedByte(elf: seq<byte>, uf2: seq<byte>, end: nat, limit: nat, image: seq<byte>, i: nat, n: nat)
    requires Accepted(uf2, end) && IsImage(image, uf2) && PayloadMatches(elf, uf2, limit)
    requires i < HeaderCount(elf) && Loads(SegmentAt(elf, i)) && n < SegmentAt(elf, i).size
    ensures LoadedAt(elf, SegmentAt(elf, i), n, image)
  {
    hide Accepted, IsImage, GatheredPages, Covered, Uf2.Payload, Address, ElfHeader, SegmentAt;
    AcceptedIsWhole(uf2, end);
    WholeStarts(uf2);
    BlocksExist(uf2);
    var s := SegmentAt(elf, i);
    var pages := GatheredPages(uf2, Count(uf2)).pages;
    var address := s.address + n;
    assert LoadMatches(elf, s, pages, n);
    var page := address - address % PAGE;
    PageKeys(uf2, end, page);
    var b :| 1 <= b < Count(uf2) && Address(uf2, b) == page;
    PagesAreTheBlocks(uf2, end, Count(uf2), b);
    PageByte(uf2, image, b, address % PAGE);
  }

  lemma PaddedByte(elf: seq<byte>, uf2: seq<byte>, end: nat, limit: nat, image: seq<byte>, at: nat)
    requires Accepted(uf2, end) && IsImage(image, uf2) && PayloadMatches(elf, uf2, limit)
    requires at < |image| && !Covered(elf, HeaderCount(elf), FLASH_BASE + at)
    ensures image[at] == 0 || image[at] == 255
  {
    hide Accepted, IsImage, GatheredPages, Covered, Uf2.Payload, Address, ElfHeader, SegmentAt;
    var b := PageOf(uf2, end, image, at);
    WholeStarts(uf2);
    PagesAreTheBlocks(uf2, end, Count(uf2), b);
    var address := Address(uf2, b);
    var pages := GatheredPages(uf2, Count(uf2)).pages;
    assert OnlyPadding(elf, pages[address], address);
    assert address + at % PAGE == FLASH_BASE + at;
  }
}
