/**
 Files as a linker's converter writes them: every image that fits the flash has one that
 the installer accepts and from which it takes exactly that image.
 */
module Uf2Writer {
  import opened Bytes
  import opened Uf2

  // ---------- Words ----------

  function LittleEndian(n: nat): (bytes: seq<byte>)
    requires n < 0x1_0000_0000
    ensures |bytes| == 4
  {
    [n % 0x100, n / 0x100 % 0x100, n / 0x1_0000 % 0x100, n / 0x100_0000]
  }

  lemma WordReadsBack(n: nat, data: seq<byte>, at: nat)
    requires n < 0x1_0000_0000 && at + 4 <= |data| && data[at..at + 4] == LittleEndian(n)
    ensures U32(data, at) == n
  {
    var a, b, c := n / 0x100, n / 0x1_0000, n / 0x100_0000;
    FourBytes(data, at, n % 0x100, a % 0x100, b % 0x100, c);
    assert n == 0x100 * a + n % 0x100 && a == 0x100 * b + a % 0x100 && b == 0x100 * c + b % 0x100;
  }

  // ---------- Blocks ----------

  function Filled(n: nat, b: byte): (bytes: seq<byte>)
    ensures |bytes| == n && All(bytes, b)
  {
    seq(n, _ => b)
  }

  function Header(flags: nat, address: nat, number: nat, total: nat, family: nat): (bytes: seq<byte>)
    requires flags < 0x1_0000_0000 && address < 0x1_0000_0000 && number < 0x1_0000_0000
    requires total < 0x1_0000_0000 && family < 0x1_0000_0000
    ensures |bytes| == 32
  {
    LittleEndian(0x0A324655) + LittleEndian(0x9E5D5157) + LittleEndian(flags) + LittleEndian(address)
    + LittleEndian(256) + LittleEndian(number) + LittleEndian(total) + LittleEndian(family)
  }

  /** A block of 512 bytes: header, page, padding and the closing magic. */
  function Block(header: seq<byte>, page: seq<byte>, padding: seq<byte>): (bytes: seq<byte>)
    requires |header| == 32 && |page| == PAGE && |padding| == 220
    ensures |bytes| == BLOCK
  {
    header + page + padding + LittleEndian(0x0AB16F30)
  }

  function FirstBlock(): (bytes: seq<byte>)
    ensures |bytes| == BLOCK
  {
    Block(Header(0xA000, 0x10FF_FF00, 0, 2, 0xE48BFF57), Filled(PAGE, 0xEF),
          [0x04, 0xE3, 0x57, 0x99] + Filled(216, 0))
  }

  /** The image is whole pages and below 4 MiB. */
  predicate Paged(image: seq<byte>) {
    0 < |image| <= 0x3F_0000 && |image| % PAGE == 0
  }

  function PageCount(image: seq<byte>): nat { |image| / PAGE }

  function HeaderOf(image: seq<byte>, k: nat): (header: seq<byte>)
    requires Paged(image) && k < PageCount(image)
    ensures |header| == 32
  {
    Header(0x2000, 0x1000_0000 + 256 * k, k, PageCount(image), 0xE48BFF59)
  }

  function PageAt(image: seq<byte>, k: nat): (page: seq<byte>)
    requires Paged(image) && k < PageCount(image)
    ensures |page| == PAGE
  {
    image[PAGE * k..PAGE * k + PAGE]
  }

  function PageBlock(image: seq<byte>, k: nat): (bytes: seq<byte>)
    requires Paged(image) && k < PageCount(image)
    ensures |bytes| == BLOCK
  {
    Block(HeaderOf(image, k), PageAt(image, k), Filled(220, 0))
  }

  function FileTo(image: seq<byte>, k: nat): (data: seq<byte>)
    requires Paged(image) && k <= PageCount(image)
    ensures |data| == BLOCK * (k + 1)
  {
    if k == 0 then FirstBlock() else FileTo(image, k - 1) + PageBlock(image, k - 1)
  }

  function File(image: seq<byte>): seq<byte>
    requires Paged(image)
  {
    FileTo(image, PageCount(image))
  }

  // ---------- The blocks of a file ----------

  lemma {:induction false} BlocksOfFile(image: seq<byte>, n: nat, i: nat)
    requires Paged(image) && i <= n <= PageCount(image)
    ensures FileTo(image, n)[BLOCK * i..BLOCK * (i + 1)] == if i == 0 then FirstBlock() else PageBlock(image, i - 1)
    decreases n
  {
    hide FirstBlock, PageBlock;
    var all := FileTo(image, n);
    if n == 0 {
      assert all[..BLOCK] == all;
    } else {
      var before := FileTo(image, n - 1);
      assert all == before + PageBlock(image, n - 1);
      if i < n {
        BlocksOfFile(image, n - 1, i);
        assert all[BLOCK * i..BLOCK * (i + 1)] == before[BLOCK * i..BLOCK * (i + 1)];
      } else {
        assert all[BLOCK * i..] == PageBlock(image, n - 1);
      }
    }
  }

  /** What a block shows of its parts, wherever it stands. */
  lemma BlockShows(data: seq<byte>, i: nat, header: seq<byte>, page: seq<byte>, padding: seq<byte>)
    requires HasBlock(data, i) && |header| == 32 && |page| == PAGE && |padding| == 220
    requires data[BLOCK * i..BLOCK * (i + 1)] == Block(header, page, padding)
    ensures Part(data, i, 0, 32) == header && Payload(data, i) == page && Part(data, i, 288, 508) == padding
    ensures Field(data, i, 508) == 0x0AB16F30
  {
    hide LittleEndian;
    var at, block := BLOCK * i, Block(header, page, padding);
    SliceOfSlice(data, at, at + BLOCK, 0, 32);
    SliceOfSlice(data, at, at + BLOCK, 32, 288);
    SliceOfSlice(data, at, at + BLOCK, 288, 508);
    SliceOfSlice(data, at, at + BLOCK, 508, 512);
    BlockSplits(header, page, padding, LittleEndian(0x0AB16F30));
    assert block == header + page + padding + LittleEndian(0x0AB16F30) && data[at..at + BLOCK] == block;
    WordReadsBack(0x0AB16F30, data, at + 508);
  }

  lemma BlockSplits(header: seq<byte>, page: seq<byte>, padding: seq<byte>, magic: seq<byte>)
    requires |header| == 32 && |page| == PAGE && |padding| == 220 && |magic| == 4
    ensures var block := header + page + padding + magic;
            block[0..32] == header && block[32..288] == page && block[288..508] == padding && block[508..512] == magic
  {}

  lemma FieldReads(data: seq<byte>, i: nat, at: nat, header: seq<byte>, n: nat)
    requires HasBlock(data, i) && |header| == 32 && at + 4 <= 32 && n < 0x1_0000_0000
    requires Part(data, i, 0, 32) == header && header[at..at + 4] == LittleEndian(n)
    ensures Field(data, i, at) == n
  {
    SliceOfSlice(data, BLOCK * i, BLOCK * i + 32, at, at + 4);
    WordReadsBack(n, data, BLOCK * i + at);
  }

  lemma SliceOfSlice(data: seq<byte>, a: nat, b: nat, from: nat, to: nat)
    requires a <= b <= |data| && from <= to <= b - a
    ensures data[a..b][from..to] == data[a + from..a + to]
  {
    var x, y := data[a..b][from..to], data[a + from..a + to];
    assert |x| == |y| && forall k :: 0 <= k < |x| ==> x[k] == y[k];
  }

  lemma HeaderShows(data: seq<byte>, i: nat, flags: nat, address: nat, number: nat, total: nat, family: nat)
    requires flags < 0x1_0000_0000 && address < 0x1_0000_0000 && number < 0x1_0000_0000
    requires total < 0x1_0000_0000 && family < 0x1_0000_0000
    requires HasBlock(data, i) && Part(data, i, 0, 32) == Header(flags, address, number, total, family)
    ensures Field(data, i, 0) == 0x0A324655 && Field(data, i, 4) == 0x9E5D5157 && Field(data, i, 8) == flags
    ensures Address(data, i) == address && Field(data, i, 16) == PAGE && Field(data, i, 20) == number
    ensures Field(data, i, 24) == total && Field(data, i, 28) == family
  {
    var header := Header(flags, address, number, total, family);
    hide LittleEndian, Part, Field;
    FieldReads(data, i, 0, header, 0x0A324655);
    FieldReads(data, i, 4, header, 0x9E5D5157);
    FieldReads(data, i, 8, header, flags);
    FieldReads(data, i, 12, header, address);
    FieldReads(data, i, 16, header, PAGE);
    FieldReads(data, i, 20, header, number);
    FieldReads(data, i, 24, header, total);
    FieldReads(data, i, 28, header, family);
  }

  lemma FileShape(image: seq<byte>)
    requires Paged(image)
    ensures var data := File(image);
            && WholeBlocks(data) && Count(data) == PageCount(image) + 1 && |data| <= MAX_DOWNLOAD
            && forall i :: 0 <= i < Count(data) ==> HasBlock(data, i)
  {
    BlocksExist(File(image));
  }

  lemma FirstIsE10(image: seq<byte>)
    requires Paged(image)
    ensures HasBlock(File(image), 0) && E10Block(File(image), 0)
  {
    var data := File(image);
    FileShape(image);
    BlocksOfFile(image, PageCount(image), 0);
    var header, page := Header(0xA000, 0x10FF_FF00, 0, 2, 0xE48BFF57), Filled(PAGE, 0xEF);
    var padding: seq<byte> := [0x04, 0xE3, 0x57, 0x99] + Filled(216, 0);
    hide File, Header, Field, Filled, Block;
    BlockShows(data, 0, header, page, padding);
    HeaderShows(data, 0, 0xA000, 0x10FF_FF00, 0, 2, 0xE48BFF57);
    assert Part(data, 0, 288, 292) == padding[..4] && Part(data, 0, 292, 508) == padding[4..];
  }

  /** What the file shows of page k at block k + 1. */
  lemma PageShows(image: seq<byte>, k: nat)
    requires Paged(image) && k < PageCount(image)
    ensures
      var data, i := File(image), k + 1;
      && HasBlock(data, i) && Magic(data, i) && Field(data, i, 16) == PAGE && Field(data, i, 8) == 0x2000
      && Field(data, i, 20) == k && Field(data, i, 24) == PageCount(image) && Field(data, i, 28) == 0xE48BFF59
      && Address(data, i) == FLASH_BASE + PAGE * k && Payload(data, i) == image[PAGE * k..PAGE * k + PAGE]
      && All(Part(data, i, 288, 508), 0)
  {
    var data, n := File(image), PageCount(image);
    FileShape(image);
    BlocksOfFile(image, n, k + 1);
    PageFits(image, k);
    hide Header, Field, Filled, Block, WholeBlocks, Count, PageCount, Paged, Payload, Part, All, HasBlock, Address;
    hide FileTo;
    BlockShows(data, k + 1, HeaderOf(image, k), PageAt(image, k), Filled(220, 0));
    hide File, PageBlock;
    HeaderShows(data, k + 1, 0x2000, 0x1000_0000 + 256 * k, k, n, 0xE48BFF59);
  }

  lemma PageIsApp(image: seq<byte>, end: nat, k: nat)
    requires Paged(image) && k < PageCount(image) && FLASH_BASE + |image| <= end <= 0x103F_0000
    ensures Count(File(image)) == PageCount(image) + 1
    ensures HasBlock(File(image), k + 1) && AppBlock(File(image), k + 1, end)
    ensures Address(File(image), k + 1) == FLASH_BASE + PAGE * k
  {
    FileShape(image);
    PageShows(image, k);
    PageFits(image, k);
    PageAddress(k);
    hide File, Field, Address, Payload, Part, All, Magic, HasBlock, PageCount, Paged, Count, WholeBlocks;
  }

  lemma PageAddress(k: nat)
    ensures (FLASH_BASE + PAGE * k) % PAGE == 0
  {}

  lemma PageFits(image: seq<byte>, k: nat)
    requires Paged(image) && k < PageCount(image)
    ensures PAGE * k + PAGE <= |image| && FLASH_BASE + PAGE * k < 0x1_0000_0000 && PageCount(image) < 0x1_0000_0000
    ensures |image| == PAGE * PageCount(image)
  {}

  /** Block i is the page at its place from the base on. */
  predicate InPlace(data: seq<byte>, end: nat, i: nat)
    requires WholeBlocks(data) && i < Count(data)
  {
    BlocksExist(data);
    AppBlock(data, i, end) && Address(data, i) == FLASH_BASE + PAGE * (i - 1)
  }

  predicate InOrder(data: seq<byte>, end: nat, n: nat) {
    && WholeBlocks(data) && Count(data) == n + 1
    && forall i :: 1 <= i <= n ==> InPlace(data, end, i)
  }

  lemma PageInPlace(image: seq<byte>, end: nat, i: nat)
    requires Paged(image) && 1 <= i <= PageCount(image) && FLASH_BASE + |image| <= end <= 0x103F_0000
    ensures WholeBlocks(File(image)) && i < Count(File(image)) && InPlace(File(image), end, i)
  {
    FileShape(image);
    hide File, AppBlock, HasBlock, Address, PageCount, Paged, Count, WholeBlocks;
    PageIsApp(image, end, i - 1);
  }

  lemma FileInOrder(image: seq<byte>, end: nat)
    requires Paged(image) && FLASH_BASE + |image| <= end <= 0x103F_0000
    ensures InOrder(File(image), end, PageCount(image))
  {
    var data, n := File(image), PageCount(image);
    FileShape(image);
    hide File, InPlace, PageCount, Paged, Count, WholeBlocks;
    forall i | 1 <= i <= n ensures InPlace(data, end, i) {
      PageInPlace(image, end, i);
    }
  }

  lemma OrderIsDistinct(data: seq<byte>, end: nat, n: nat)
    requires InOrder(data, end, n)
    ensures Pages(data, end) && DistinctAddresses(data)
  {
    hide AppBlock, HasBlock, Address, Count, WholeBlocks;
    BlocksExist(data);
    forall i | 1 <= i <= n ensures AppBlock(data, i, end) {
      assert InPlace(data, end, i);
    }
    forall i, j | 1 <= i < j <= n ensures Address(data, i) != Address(data, j) {
      assert InPlace(data, end, i) && InPlace(data, end, j);
      Apart(i, j);
    }
  }

  lemma Apart(i: nat, j: nat)
    requires i < j
    ensures FLASH_BASE + PAGE * (i - 1) < FLASH_BASE + PAGE * (j - 1)
  {}

  lemma OrderHolds(data: seq<byte>, end: nat, n: nat, k: nat)
    requires InOrder(data, end, n) && k < n
    ensures WholeBlocks(data) && Holds(data, FLASH_BASE + PAGE * k)
  {
    hide AppBlock, HasBlock, Address, Count, WholeBlocks;
    BlocksExist(data);
    var i := k + 1;
    assert InPlace(data, end, i);
    assert Address(data, i) == FLASH_BASE + PAGE * k;
  }

  /** The installer accepts the file of every image whose erase sectors end in time. */
  lemma FileIsAccepted(image: seq<byte>, end: nat)
    requires Paged(image) && SupportedEnd(end) && FLASH_BASE + EraseExtent(|image|) <= end
    ensures Accepted(File(image), end)
  {
    var data, n := File(image), PageCount(image);
    FileShape(image);
    FirstIsE10(image);
    PageFits(image, 0);
    assert |image| <= EraseExtent(|image|);
    hide File, E10Block, EraseExtent, HasBlock, Pages, DistinctAddresses, Holds, PageCount, Paged, Count, WholeBlocks;
    hide InOrder;
    FileInOrder(image, end);
    OrderIsDistinct(data, end, n);
    forall k | 0 <= k < n ensures Holds(data, FLASH_BASE + PAGE * k) {
      OrderHolds(data, end, n, k);
    }
  }

  lemma PageInImage(image: seq<byte>, i: nat)
    requires Paged(image) && 1 <= i <= PageCount(image)
    ensures
      var data := File(image);
      && HasBlock(data, i) && FLASH_BASE <= Address(data, i) && Address(data, i) - FLASH_BASE + PAGE <= |image|
      && image[Address(data, i) - FLASH_BASE..Address(data, i) - FLASH_BASE + PAGE] == Payload(data, i)
  {
    hide File, HasBlock, Address, Payload, PageCount, Paged, Part, Field, Magic, All;
    PageShows(image, i - 1);
    PageFits(image, i - 1);
  }

  lemma FileHolds(image: seq<byte>)
    requires Paged(image)
    ensures WholeBlocks(File(image)) && IsImage(image, File(image))
  {
    var data, n := File(image), PageCount(image);
    FileShape(image);
    PageFits(image, 0);
    hide File, HasBlock, Address, Payload, PageCount, Paged, Count, WholeBlocks;
    forall i | 1 <= i < n + 1
      ensures FLASH_BASE <= Address(data, i) && Address(data, i) - FLASH_BASE + PAGE <= |image|
      ensures image[Address(data, i) - FLASH_BASE..Address(data, i) - FLASH_BASE + PAGE] == Payload(data, i)
    {
      PageInImage(image, i);
    }
  }

  lemma SameByte(data: seq<byte>, end: nat, image: seq<byte>, other: seq<byte>, at: nat)
    requires Accepted(data, end) && IsImage(image, data) && IsImage(other, data) && at < |image|
    ensures at < |other| && other[at] == image[at]
  {
    hide Accepted, IsImage, WholeBlocks, HasBlock, Address, Payload, Count;
    var i := PageOf(data, end, image, at);
    PageByte(data, other, i, at % PAGE);
    Within(at, Address(data, i));
  }

  lemma Within(at: nat, address: int)
    requires address == FLASH_BASE + at - at % PAGE
    ensures address - FLASH_BASE + at % PAGE == at
  {}

  /** An accepted file has one image. */
  lemma OneImage(data: seq<byte>, end: nat, image: seq<byte>, other: seq<byte>)
    requires Accepted(data, end) && IsImage(image, data) && IsImage(other, data)
    ensures other == image
  {
    assert |other| == |image|;
    hide Accepted, IsImage, WholeBlocks;
    forall at | 0 <= at < |image| ensures other[at] == image[at] {
      SameByte(data, end, image, other, at);
    }
  }

  /** From the file of an image the installer takes exactly that image. */
  lemma FileGivesBack(image: seq<byte>, end: nat, other: seq<byte>)
    requires Paged(image) && SupportedEnd(end) && FLASH_BASE + EraseExtent(|image|) <= end
    ensures Accepted(File(image), end)
    ensures IsImage(other, File(image)) <==> other == image
  {
    hide Accepted, IsImage, EraseExtent, File, WholeBlocks, Paged, SupportedEnd;
    FileIsAccepted(image, end);
    FileHolds(image);
    if IsImage(other, File(image)) { OneImage(File(image), end, image, other); }
  }
}
