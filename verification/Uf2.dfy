/**
 The application image: what the installer accepts as one, and the independent boundary
 check.
 */
module Uf2 {
  import opened Bytes
  import opened Collections
  import opened Options


  const BLOCK := 512
  const PAGE := 256
  const SECTOR := 4096
  const FLASH_BASE := 0x1000_0000
  const E10_ADDRESS := 0x10FF_FF00
  const MAX_DOWNLOAD := 16 * 1024 * 1024

  predicate SupportedEnd(end: nat) {
    end == 0x103EC000 || end == 0x103EE000 || end == 0x103F0000
  }

  // ---------- Blocks ----------

  function Count(data: seq<byte>): nat { |data| / BLOCK }

  predicate HasBlock(data: seq<byte>, i: nat) { BLOCK * (i + 1) <= |data| }

  function Field(data: seq<byte>, i: nat, at: nat): nat
    requires HasBlock(data, i) && at + 4 <= BLOCK
  {
    U32(data, BLOCK * i + at)
  }

  function Address(data: seq<byte>, i: nat): nat
    requires HasBlock(data, i)
  {
    Field(data, i, 12)
  }

  function Part(data: seq<byte>, i: nat, from: nat, to: nat): seq<byte>
    requires HasBlock(data, i) && from <= to <= BLOCK
  {
    data[BLOCK * i + from..BLOCK * i + to]
  }

  function Payload(data: seq<byte>, i: nat): (page: seq<byte>)
    requires HasBlock(data, i)
    ensures |page| == PAGE
  {
    Part(data, i, 32, 288)
  }

  predicate All(data: seq<byte>, b: byte) {
    forall i :: 0 <= i < |data| ==> data[i] == b
  }

  predicate Magic(data: seq<byte>, i: nat)
    requires HasBlock(data, i)
  {
    Field(data, i, 0) == 0x0A324655 && Field(data, i, 4) == 0x9E5D5157 && Field(data, i, 508) == 0x0AB16F30
  }

  /** The first block: the absolute-family workaround for erratum E10. */
  predicate E10Block(data: seq<byte>, i: nat)
    requires HasBlock(data, i)
  {
    && Magic(data, i) && Field(data, i, 16) == PAGE && Address(data, i) == E10_ADDRESS
    && i == 0 && Field(data, i, 20) == 0 && Field(data, i, 24) == 2
    && Field(data, i, 8) == 0xA000 && Field(data, i, 28) == 0xE48BFF57
    && All(Payload(data, i), 0xEF) && Part(data, i, 288, 292) == [0x04, 0xE3, 0x57, 0x99]
    && All(Part(data, i, 292, 508), 0)
  }

  /** A page of the application. */
  predicate AppBlock(data: seq<byte>, i: nat, end: nat)
    requires HasBlock(data, i)
  {
    && Magic(data, i) && Field(data, i, 16) == PAGE && Address(data, i) != E10_ADDRESS
    && Field(data, i, 20) == i - 1 && Field(data, i, 24) == Count(data) - 1
    && Field(data, i, 8) == 0x2000 && Field(data, i, 28) == 0xE48BFF59 && Address(data, i) % PAGE == 0
    && FLASH_BASE <= Address(data, i) && Address(data, i) + PAGE <= end
    && All(Part(data, i, 288, 508), 0)
  }

  predicate WholeBlocks(data: seq<byte>) {
    data != [] && |data| % BLOCK == 0
  }

  lemma BlocksExist(data: seq<byte>)
    requires WholeBlocks(data)
    ensures |data| == BLOCK * Count(data) && Count(data) >= 1
    ensures forall i :: 0 <= i < Count(data) ==> HasBlock(data, i)
  {}

  /** The blocks before `index`, the first aside, are pages of the application. */
  predicate PagesTo(data: seq<byte>, end: nat, index: nat)
    requires WholeBlocks(data) && index <= Count(data)
  {
    BlocksExist(data);
    forall i :: 1 <= i < index ==> AppBlock(data, i, end)
  }

  predicate Pages(data: seq<byte>, end: nat)
    requires WholeBlocks(data)
  {
    PagesTo(data, end, Count(data))
  }

  predicate DistinctTo(data: seq<byte>, index: nat)
    requires WholeBlocks(data) && index <= Count(data)
  {
    BlocksExist(data);
    forall i, j :: 1 <= i < j < index ==> Address(data, i) != Address(data, j)
  }

  predicate DistinctAddresses(data: seq<byte>)
    requires WholeBlocks(data)
  {
    DistinctTo(data, Count(data))
  }

  /** Some block is at this address. */
  predicate Holds(data: seq<byte>, address: nat)
    requires WholeBlocks(data)
  {
    BlocksExist(data);
    exists i :: 1 <= i < Count(data) && Address(data, i) == address
  }

  /** One E10 block, then pages in any order that fill the flash from its base without a
      gap and whose erase sectors end by the application's end. */
  predicate Accepted(data: seq<byte>, end: nat) {
    && SupportedEnd(end) && WholeBlocks(data) && |data| <= MAX_DOWNLOAD
    && (BlocksExist(data); E10Block(data, 0))
    && Count(data) >= 2 && Pages(data, end) && DistinctAddresses(data)
    && (forall k :: 0 <= k < Count(data) - 1 ==> Holds(data, FLASH_BASE + PAGE * k))
    && FLASH_BASE + EraseExtent(PAGE * (Count(data) - 1)) <= end
  }

  /** The bytes erased for an image of this length: whole sectors. */
  function EraseExtent(length: nat): (extent: nat)
    ensures extent >= length && extent % SECTOR == 0
  {
    (length + SECTOR - 1) / SECTOR * SECTOR
  }

  /** Each page stands at its address. */
  predicate IsImage(image: seq<byte>, data: seq<byte>)
    requires WholeBlocks(data)
  {
    BlocksExist(data);
    && |image| == PAGE * (Count(data) - 1)
    && forall i :: 1 <= i < Count(data) ==>
         && FLASH_BASE <= Address(data, i) && Address(data, i) - FLASH_BASE + PAGE <= |image|
         && image[Address(data, i) - FLASH_BASE..Address(data, i) - FLASH_BASE + PAGE] == Payload(data, i)
  }

  // ---------- Sorting the addresses ----------

  predicate Increasing(s: seq<nat>) {
    forall i, j :: 0 <= i < j < |s| ==> s[i] < s[j]
  }

  method Least(keys: set<nat>) returns (least: nat)
    requires keys != {}
    ensures least in keys && forall k :: k in keys ==> least <= k
  {
    least :| least in keys;
    var rest := keys - {least};
    while rest != {}
      invariant least in keys && rest <= keys
      invariant forall k :: k in keys && k !in rest ==> least <= k
      decreases rest
    {
      var k :| k in rest;
      rest := rest - {k};
      if k < least {
        least := k;
      }
    }
  }

  method Sorted(keys: set<nat>) returns (s: seq<nat>)
    ensures Increasing(s) && |s| == |keys| && forall k :: k in s <==> k in keys
  {
    s := [];
    var rest := keys;
    while rest != {}
      invariant rest <= keys && Increasing(s) && |s| + |rest| == |keys|
      invariant forall k :: k in s <==> k in keys && k !in rest
      invariant forall i, k :: 0 <= i < |s| && k in rest ==> s[i] < k
      decreases rest
    {
      var k := Least(rest);
      s, rest := s + [k], rest - {k};
    }
  }

  /** Increasing sequences with the same members are the same sequence. */
  lemma {:induction false} SortedOnce(a: seq<nat>, b: seq<nat>)
    requires Increasing(a) && Increasing(b) && |a| == |b| && forall k :: k in a <==> k in b
    ensures a == b
  {
    if a == [] {
    } else {
      var last := |a| - 1;
      var x, y := a[..last], b[..last];
      assert a == x + [a[last]] && b == y + [b[last]];
      LastIsGreatest(a, b[last]);
      LastIsGreatest(b, a[last]);
      forall k ensures k in x <==> k in y {
        WithoutLast(a, k);
        WithoutLast(b, k);
      }
      SortedOnce(x, y);
    }
  }

  lemma LastIsGreatest(s: seq<nat>, k: nat)
    requires Increasing(s) && k in s
    ensures k <= s[|s| - 1]
  {}

  lemma WithoutLast(s: seq<nat>, k: nat)
    requires Increasing(s) && s != []
    ensures k in s[..|s| - 1] <==> k in s && k != s[|s| - 1]
  {
    assert s == s[..|s| - 1] + [s[|s| - 1]];
  }

  function Range(n: nat): (s: seq<nat>)
    ensures |s| == n && forall k :: 0 <= k < n ==> s[k] == FLASH_BASE + PAGE * k
  {
    seq(n, k requires 0 <= k < n => FLASH_BASE + PAGE * k)
  }

  // ---------- Reading the blocks ----------

  /** The addresses of the first `index` blocks. */
  predicate Known(data: seq<byte>, address: nat, index: nat)
    requires WholeBlocks(data) && index <= Count(data)
  {
    BlocksExist(data);
    exists i :: 1 <= i < index && Address(data, i) == address
  }

  /** The pages of the first `index` blocks, by address. */
  predicate Gathered(data: seq<byte>, blocks: map<nat, seq<byte>>, index: nat)
    requires WholeBlocks(data) && index <= Count(data)
  {
    BlocksExist(data);
    && (forall i :: 1 <= i < index ==> Address(data, i) in blocks && blocks[Address(data, i)] == Payload(data, i))
    && (forall a :: a in blocks ==> Known(data, a, index))
    && |blocks| == if index == 0 then 0 else index - 1
  }

  lemma NothingGathered(data: seq<byte>, end: nat, index: nat)
    requires WholeBlocks(data) && index <= 1
    ensures index <= Count(data) && PagesTo(data, end, index) && DistinctTo(data, index) && Gathered(data, map[], index)
  {
    BlocksExist(data);
  }

  lemma OnePageMore(data: seq<byte>, end: nat, index: nat)
    requires WholeBlocks(data) && 1 <= index < Count(data)
    ensures HasBlock(data, index)
    ensures PagesTo(data, end, index + 1) <==> PagesTo(data, end, index) && AppBlock(data, index, end)
    ensures Pages(data, end) ==> PagesTo(data, end, index + 1)
  {
    hide AppBlock;
    BlocksExist(data);
  }

  /** The pages by address, when every block is one the installer knows. */
  method GatherBlocks(data: seq<byte>, end: nat) returns (blocks: map<nat, seq<byte>>, workaround: nat, ok: bool)
    requires SupportedEnd(end) && WholeBlocks(data)
    ensures HasBlock(data, 0)
    ensures ok <==> E10Block(data, 0) && Pages(data, end) && DistinctAddresses(data)
    ensures ok ==> workaround == 1 && Gathered(data, blocks, Count(data))
  {
    hide E10Block, AppBlock, Field, Payload, Address, PagesTo, DistinctTo, Gathered;
    var count := Count(data);
    BlocksExist(data);
    blocks, workaround, ok := map[], 0, true;
    NothingGathered(data, end, 0);
    NothingGathered(data, end, 1);
    for index := 0 to count
      invariant workaround == (if index == 0 then 0 else 1) && ok
      invariant index > 0 ==> E10Block(data, 0)
      invariant PagesTo(data, end, index) && DistinctTo(data, index) && Gathered(data, blocks, index)
      invariant index <= 1 ==> blocks == map[]
    {
      var e10, fits := BlockKind(data, index, end);
      if e10 {
        workaround := workaround + 1;
        continue;
      }
      var address := Address(data, index);
      if index > 0 { OnePageMore(data, end, index); }
      if !fits {
        ok := false;
        return;
      }
      if address in blocks {
        SharedAddress(data, blocks, index);
        ok := false;
        return;
      }
      GatherOne(data, blocks, index);
      blocks := blocks[address := Payload(data, index)];
    }
  }

  lemma SharedAddress(data: seq<byte>, blocks: map<nat, seq<byte>>, index: nat)
    requires WholeBlocks(data) && 1 <= index < Count(data) && Gathered(data, blocks, index)
    requires HasBlock(data, index) && Address(data, index) in blocks
    ensures !DistinctAddresses(data)
  {
    BlocksExist(data);
    var i :| 1 <= i < index && Address(data, i) == Address(data, index);
  }

  lemma GatherOne(data: seq<byte>, blocks: map<nat, seq<byte>>, index: nat)
    requires WholeBlocks(data) && 1 <= index < Count(data) && Gathered(data, blocks, index)
    requires HasBlock(data, index) && Address(data, index) !in blocks
    ensures Gathered(data, blocks[Address(data, index) := Payload(data, index)], index + 1)
    ensures DistinctTo(data, index) ==> DistinctTo(data, index + 1)
  {
    hide Payload, Address, Known, HasBlock, WholeBlocks, Count;
    BlocksExist(data);
    var address := Address(data, index);
    var after := blocks[address := Payload(data, index)];
    OneMoreKey(blocks, address, Payload(data, index));
    forall a | a in after ensures Known(data, a, index + 1) {
      KnownLonger(data, a, index);
    }
    forall i | 1 <= i < index + 1 ensures Address(data, i) in after && after[Address(data, i)] == Payload(data, i) {
      if i < index {
        assert Address(data, i) in blocks;
      }
    }
  }

  lemma OneMoreKey<T>(m: map<nat, T>, key: nat, value: T)
    requires key !in m
    ensures |m[key := value]| == |m| + 1
    ensures forall k :: k in m[key := value] <==> k in m || k == key
  {
    assert m[key := value].Keys == m.Keys + {key};
  }

  lemma KnownLonger(data: seq<byte>, address: nat, index: nat)
    requires WholeBlocks(data) && 1 <= index < Count(data)
    ensures HasBlock(data, index)
    ensures Known(data, address, index) || Address(data, index) == address ==> Known(data, address, index + 1)
  {
    BlocksExist(data);
    hide Address;
  }

  method Uf2Blocks(data: seq<byte>, end: nat) returns (image: Option<seq<byte>>)
    ensures image.Some? <==> Accepted(data, end)
    ensures image.Some? ==> IsImage(image.value, data)
  {
    hide E10Block, Pages, DistinctAddresses, Gathered, Holds, IsImage, EraseExtent, Increasing, Payload, Address;
    if !SupportedEnd(end) || !WholeBlocks(data) || |data| > MAX_DOWNLOAD {
      return None;
    }
    var count := Count(data);
    BlocksExist(data);
    var blocks, workaround, ok := GatherBlocks(data, end);
    if !ok || workaround != 1 {
      return None;
    }
    GatheredCount(data, blocks);
    if |blocks| == 0 {
      return None;
    }
    var addresses := Sorted(blocks.Keys);
    if addresses[0] != FLASH_BASE || exists k :: 0 <= k < |addresses| && addresses[k] != addresses[0] + PAGE * k {
      if Accepted(data, end) {
        AcceptedFillsRange(data, end, blocks, addresses);
      }
      return None;
    }
    assert addresses == Range(count - 1);
    RangeIsHeld(data, blocks, addresses);
    if FLASH_BASE + EraseExtent(addresses[|addresses| - 1] + PAGE - FLASH_BASE) > end {
      return None;
    }
    BlockSizes(data, blocks, addresses);
    var joined := Join(blocks, addresses);
    JoinedIsImage(data, blocks, addresses, joined);
    image := Some(joined);
  }

  lemma GatheredCount(data: seq<byte>, blocks: map<nat, seq<byte>>)
    requires WholeBlocks(data) && Gathered(data, blocks, Count(data))
    ensures |blocks| == |blocks.Keys| == Count(data) - 1
  {}

  lemma BlockSizes(data: seq<byte>, blocks: map<nat, seq<byte>>, addresses: seq<nat>)
    requires WholeBlocks(data) && Gathered(data, blocks, Count(data))
    requires forall k :: k in addresses <==> k in blocks
    ensures forall k :: 0 <= k < |addresses| ==> addresses[k] in blocks && |blocks[addresses[k]]| == PAGE
  {
    hide Payload, Address;
    BlocksExist(data);
    forall k | 0 <= k < |addresses| ensures addresses[k] in blocks && |blocks[addresses[k]]| == PAGE {
      assert addresses[k] in addresses;
      var i :| 1 <= i < Count(data) && Address(data, i) == addresses[k];
    }
  }

  /** The checks of one block: the E10 block at its place, or a page at its number. */
  method BlockKind(data: seq<byte>, index: nat, end: nat) returns (e10: bool, fits: bool)
    requires SupportedEnd(end) && WholeBlocks(data) && index < Count(data)
    ensures HasBlock(data, index)
    ensures index == 0 ==> !fits && e10 == E10Block(data, 0)
    ensures index > 0 ==> !e10 && fits == AppBlock(data, index, end)
  {
    BlocksExist(data);
    if !Magic(data, index) || Field(data, index, 16) != PAGE {
      return false, false;
    }
    if Address(data, index) == E10_ADDRESS {
      e10 := index == 0 && Field(data, index, 20) == 0 && Field(data, index, 24) == 2
             && Field(data, index, 8) == 0xA000 && Field(data, index, 28) == 0xE48BFF57
             && All(Payload(data, index), 0xEF) && Part(data, index, 288, 292) == [0x04, 0xE3, 0x57, 0x99]
             && All(Part(data, index, 292, 508), 0);
      return e10, false;
    }
    e10, fits := false, Field(data, index, 20) == index - 1 && Field(data, index, 24) == Count(data) - 1
                        && Field(data, index, 8) == 0x2000 && Field(data, index, 28) == 0xE48BFF59
                        && Address(data, index) % PAGE == 0
                        && FLASH_BASE <= Address(data, index) && Address(data, index) + PAGE <= end
                        && All(Part(data, index, 288, 508), 0);
  }

  lemma AcceptedFillsRange(data: seq<byte>, end: nat, blocks: map<nat, seq<byte>>, addresses: seq<nat>)
    requires Accepted(data, end) && Gathered(data, blocks, Count(data))
    requires Increasing(addresses) && |addresses| == |blocks| && forall k :: k in addresses <==> k in blocks
    ensures addresses == Range(Count(data) - 1)
  {
    hide E10Block, AppBlock, EraseExtent, Payload, Address, Increasing, HasBlock, Pages, DistinctAddresses, Known;
    BlocksExist(data);
    var n := Count(data) - 1;
    forall k | 0 <= k < n ensures Range(n)[k] in addresses {
      HeldIsGathered(data, blocks, FLASH_BASE + PAGE * k);
    }
    RangeIncreases(n);
    SubsetOfSameSize(Range(n), addresses);
    SortedOnce(Range(n), addresses);
  }

  lemma HeldIsGathered(data: seq<byte>, blocks: map<nat, seq<byte>>, address: nat)
    requires WholeBlocks(data) && Gathered(data, blocks, Count(data)) && Holds(data, address)
    ensures address in blocks
  {
    hide Address, Payload, HasBlock;
    BlocksExist(data);
    var i :| 1 <= i < Count(data) && Address(data, i) == address;
  }

  lemma RangeIncreases(n: nat)
    ensures Increasing(Range(n))
  {}

  /** An increasing sequence inside another of its length has all of its members. */
  lemma SubsetOfSameSize(a: seq<nat>, b: seq<nat>)
    requires Increasing(a) && Increasing(b) && |a| == |b| && forall k :: 0 <= k < |a| ==> a[k] in b
    ensures forall k :: k in a <==> k in b
  {
    IncreasingIsDistinct(a);
    IncreasingIsDistinct(b);
    MembersCount(a);
    MembersCount(b);
    forall k ensures (k in Members(a) <==> k in a) && (k in Members(b) <==> k in b) {
      MemberOf(a, k);
      MemberOf(b, k);
    }
    assert Members(a) <= Members(b);
    SameSizeSubset(Members(a), Members(b));
  }

  lemma {:induction false} IncreasingIsDistinct(s: seq<nat>)
    requires Increasing(s)
    ensures Distinct(s)
  {}

  lemma RangeIsHeld(data: seq<byte>, blocks: map<nat, seq<byte>>, addresses: seq<nat>)
    requires WholeBlocks(data) && Gathered(data, blocks, Count(data))
    requires forall k :: k in addresses <==> k in blocks
    requires addresses == Range(Count(data) - 1)
    ensures forall k :: 0 <= k < Count(data) - 1 ==> Holds(data, FLASH_BASE + PAGE * k)
  {
    BlocksExist(data);
    forall k | 0 <= k < Count(data) - 1 ensures Holds(data, FLASH_BASE + PAGE * k) {
      assert addresses[k] in blocks;
    }
  }

  method Join(blocks: map<nat, seq<byte>>, addresses: seq<nat>) returns (image: seq<byte>)
    requires forall k :: 0 <= k < |addresses| ==> addresses[k] in blocks && |blocks[addresses[k]]| == PAGE
    ensures |image| == PAGE * |addresses|
    ensures forall k :: 0 <= k < |addresses| ==> image[PAGE * k..PAGE * k + PAGE] == blocks[addresses[k]]
  {
    image := [];
    for n := 0 to |addresses|
      invariant |image| == PAGE * n
      invariant forall k :: 0 <= k < n ==> image[PAGE * k..PAGE * k + PAGE] == blocks[addresses[k]]
    {
      ghost var before := image;
      image := image + blocks[addresses[n]];
      forall k | 0 <= k < n ensures image[PAGE * k..PAGE * k + PAGE] == blocks[addresses[k]] {
        assert image[PAGE * k..PAGE * k + PAGE] == before[PAGE * k..PAGE * k + PAGE];
      }
    }
  }

  lemma JoinedIsImage(data: seq<byte>, blocks: map<nat, seq<byte>>, addresses: seq<nat>, image: seq<byte>)
    requires WholeBlocks(data) && Gathered(data, blocks, Count(data))
    requires (forall k :: k in addresses <==> k in blocks) && addresses == Range(Count(data) - 1)
    requires |image| == PAGE * |addresses|
    requires forall k :: 0 <= k < |addresses| ==> image[PAGE * k..PAGE * k + PAGE] == blocks[addresses[k]]
    ensures IsImage(image, data)
  {
    hide Payload, Address;
    BlocksExist(data);
    forall i | 1 <= i < Count(data)
      ensures FLASH_BASE <= Address(data, i) && Address(data, i) - FLASH_BASE + PAGE <= |image|
      ensures image[Address(data, i) - FLASH_BASE..Address(data, i) - FLASH_BASE + PAGE] == Payload(data, i)
    {
      assert Address(data, i) in addresses;
      var k :| 0 <= k < |addresses| && addresses[k] == Address(data, i);
    }
  }

  // ---------- The independent boundary check ----------

  predicate Workaround(data: seq<byte>, i: nat)
    requires HasBlock(data, i)
  {
    && Address(data, i) == E10_ADDRESS && Field(data, i, 8) == 0xA000 && Field(data, i, 28) == 0xE48BFF57
    && Field(data, i, 16) == PAGE && All(Payload(data, i), 0xEF) && Field(data, i, 288) == 0x9957E304
  }

  predicate ValidBlock(data: seq<byte>, i: nat, end: nat)
    requires HasBlock(data, i)
  {
    var size := Field(data, i, 16);
    && Magic(data, i) && 0 < size <= 476
    && (Workaround(data, i) || Field(data, i, 8) % 2 == 1
        || (FLASH_BASE <= Address(data, i) && Address(data, i) + size <= end))
  }

  predicate ValidUf2(data: seq<byte>, end: nat) {
    WholeBlocks(data) && (BlocksExist(data); forall i :: 0 <= i < Count(data) ==> ValidBlock(data, i, end))
  }

  method ValidateUf2(data: seq<byte>, end: nat) returns (valid: bool)
    ensures valid == ValidUf2(data, end)
  {
    hide Field, Payload, Workaround, Magic;
    if !WholeBlocks(data) {
      return false;
    }
    BlocksExist(data);
    for i := 0 to Count(data)
      invariant forall j :: 0 <= j < i ==> ValidBlock(data, j, end)
    {
      var size := Field(data, i, 16);
      if !Magic(data, i) || !(0 < size <= 476) {
        assert !ValidBlock(data, i, end);
        return false;
      }
      var workaround := Workaround(data, i);
      if !workaround && Field(data, i, 8) % 2 != 1
         && !(FLASH_BASE <= Address(data, i) && Address(data, i) + size <= end) {
        assert !ValidBlock(data, i, end);
        return false;
      }
    }
    return true;
  }

  lemma FourBytes(data: seq<byte>, at: nat, a: byte, b: byte, c: byte, d: byte)
    requires at + 4 <= |data| && data[at..at + 4] == [a, b, c, d]
    ensures U32(data, at) == (a as int) + 0x100 * (b as int) + 0x1_0000 * (c as int) + 0x100_0000 * (d as int)
  {
    var field := data[at..at + 4];
    assert field[0] == data[at] && field[1] == data[at + 1] && field[2] == data[at + 2] && field[3] == data[at + 3];
  }

  lemma E10IsWorkaround(data: seq<byte>, i: nat)
    requires HasBlock(data, i) && E10Block(data, i)
    ensures Workaround(data, i)
  {
    FourBytes(data, BLOCK * i + 288, 0x04, 0xE3, 0x57, 0x99);
    hide Magic, All, Payload, U32;
  }

  /** The blocks of an accepted file. */
  lemma AcceptedBlocks(data: seq<byte>, end: nat)
    requires Accepted(data, end)
    ensures SupportedEnd(end) && WholeBlocks(data) && Count(data) >= 2
    ensures forall i :: 0 <= i < Count(data) ==> HasBlock(data, i)
    ensures E10Block(data, 0) && forall i :: 1 <= i < Count(data) ==> AppBlock(data, i, end)
  {
    hide E10Block, AppBlock, EraseExtent, Holds, DistinctAddresses, Address;
    BlocksExist(data);
  }

  /** Whatever the installer accepts, the boundary check accepts with the same end. */
  lemma AcceptedIsValid(data: seq<byte>, end: nat)
    requires Accepted(data, end)
    ensures ValidUf2(data, end)
  {
    hide Accepted, E10Block, AppBlock, ValidBlock, HasBlock, WholeBlocks, Count, SupportedEnd;
    AcceptedBlocks(data, end);
    FirstIsValid(data, end);
    forall i | 0 <= i < Count(data) ensures ValidBlock(data, i, end) {
      if i > 0 {
        PageIsValid(data, i, end);
      }
    }
  }

  lemma FirstIsValid(data: seq<byte>, end: nat)
    requires HasBlock(data, 0) && E10Block(data, 0)
    ensures ValidBlock(data, 0, end)
  {
    E10IsWorkaround(data, 0);
    hide Workaround, Magic, Field;
  }

  lemma PageIsValid(data: seq<byte>, i: nat, end: nat)
    requires HasBlock(data, i) && AppBlock(data, i, end)
    ensures ValidBlock(data, i, end)
  {
    hide Workaround, Magic, Field, All, Part;
  }

  // ---------- What may be written ----------

  /** An accepted image's erase sectors stay below the preserved region. */
  lemma ErasesBelowEnd(data: seq<byte>, end: nat, image: seq<byte>)
    requires Accepted(data, end) && IsImage(image, data)
    ensures 0 < |image| <= EraseExtent(|image|) <= end - FLASH_BASE < 0x40_0000
  {
    hide E10Block, Pages, DistinctAddresses, Holds;
  }

  /** Every byte of a page stands in the image at its address. */
  lemma PageByte(data: seq<byte>, image: seq<byte>, i: nat, k: nat)
    requires WholeBlocks(data) && IsImage(image, data) && 1 <= i < Count(data) && HasBlock(data, i) && k < PAGE
    ensures FLASH_BASE <= Address(data, i) && Address(data, i) + k < FLASH_BASE + |image|
    ensures image[Address(data, i) - FLASH_BASE + k] == Payload(data, i)[k]
  {
    hide Address, Payload;
    var at := Address(data, i) - FLASH_BASE;
    assert image[at..at + PAGE][k] == image[at + k];
  }

  /** Every byte of an image lies in the page of one block. */
  lemma PageOf(data: seq<byte>, end: nat, image: seq<byte>, at: nat) returns (i: nat)
    requires Accepted(data, end) && IsImage(image, data) && at < |image|
    ensures WholeBlocks(data) && 1 <= i < Count(data) && HasBlock(data, i)
    ensures Address(data, i) == FLASH_BASE + at - at % PAGE
    ensures image[at] == Payload(data, i)[at % PAGE]
  {
    hide E10Block, Pages, DistinctAddresses, Payload, Address;
    BlocksExist(data);
    var k := at / PAGE;
    assert Holds(data, FLASH_BASE + PAGE * k);
    i :| 1 <= i < Count(data) && Address(data, i) == FLASH_BASE + PAGE * k;
    assert image[PAGE * k..PAGE * k + PAGE][at % PAGE] == image[at];
  }
}
