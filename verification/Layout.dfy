/** Where the parts of the store lie in shared memory: offsets as the constructors of `simdb`, `CncrHsh`, `CncrStr`
    and `CncrLst` compute them. */
module Layout {

  const TWO32: nat := 0x1_0000_0000

  /** lava_vec<T>::sizeBytes: a size word and the elements. */
  function VecBytes(count: nat, size: nat): nat { 8 + count * size }

  function HshBytes(count: nat): nat { VecBytes(count, 8) + 16 }

  function LstBytes(count: nat): nat { VecBytes(count, 4) + 128 }

  /** Products of two 32-bit numbers wrap around. */
  function Mul32(a: nat, b: nat): nat { a * b % TWO32 }

  function BlockListsOfst(): nat { 8 }

  function CListOfst(blockCount: nat): nat { BlockListsOfst() + VecBytes(blockCount, 24) }

  function BlksOfst(blockCount: nat): nat { CListOfst(blockCount) + LstBytes(blockCount) }

  function StrBytes(blockSize: nat, blockCount: nat): nat { BlksOfst(blockCount) + Mul32(blockSize, blockCount) }

  function OffsetBytes(): nat { 24 }

  function MemSize(blockSize: nat, blockCount: nat): nat {
    HshBytes(blockCount) + StrBytes(blockSize, blockCount) + OffsetBytes()
  }

  // ---------------------------------------------------------------- addresses

  function HshAddr(base: nat): nat { base + OffsetBytes() }

  /** The table is put at the next multiple of 16, if the address is a multiple of 8. */
  function HshAligned(base: nat): (a: nat)
    ensures HshAddr(base) % 8 == 0 ==> a % 16 == 0
  {
    var paddr := HshAddr(base);
    var rem := 16 - paddr % 16;
    paddr + (16 - rem)
  }

  function StrAddr(base: nat, blockCount: nat): nat { base + HshBytes(blockCount) + OffsetBytes() }

  function CListAddr(base: nat, blockCount: nat): nat { StrAddr(base, blockCount) + CListOfst(blockCount) }

  /** The head of the free list: 1 to 64 bytes on, at a multiple of 64. */
  function HeadAddr(base: nat, blockCount: nat): (a: nat)
    ensures a % 64 == 0 && CListAddr(base, blockCount) < a <= CListAddr(base, blockCount) + 64
  {
    var addr := CListAddr(base, blockCount);
    Aligned64(addr);
    addr + (64 - addr % 64)
  }

  lemma Aligned64(addr: nat)
    ensures (addr + (64 - addr % 64)) % 64 == 0
  {
  }

  datatype Region = Region(start: nat, len: nat)

  predicate Disjoint(a: Region, b: Region) {
    a.start + a.len <= b.start || b.start + b.len <= a.start
  }

  predicate Within(a: Region, b: Region) {
    b.start <= a.start && a.start + a.len <= b.start + b.len
  }

  /** Flags and counters, the slots and their size word, the version, the block records and their size word, the
      head, the links and their size word, and the blocks. */
  function Regions(base: nat, blockSize: nat, blockCount: nat): seq<Region> {
    var h, s, l := HshAligned(base), StrAddr(base, blockCount), HeadAddr(base, blockCount) + 64;
    [ Region(base, 4), Region(base + 4, 4), Region(base + 8, 8), Region(base + 16, 8),
      Region(h, 8), Region(h + 8, 8 * blockCount),
      Region(s, 8), Region(s + 8, 8), Region(s + 16, 24 * blockCount),
      Region(HeadAddr(base, blockCount), 8), Region(l, 8), Region(l + 8, 4 * blockCount),
      Region(s + BlksOfst(blockCount), blockSize * blockCount) ]
  }

  predicate Ascending(r: seq<Region>) {
    forall i | 0 <= i < |r| - 1 :: r[i].start + r[i].len <= r[i + 1].start
  }

  lemma {:induction false} AscendingIsDisjoint(r: seq<Region>, i: nat, j: nat)
    requires Ascending(r) && i < j < |r|
    ensures r[i].start + r[i].len <= r[j].start
  {
    if i + 1 < j { AscendingIsDisjoint(r, i, j - 1); }
  }

  lemma RegionsAscend(base: nat, blockSize: nat, blockCount: nat)
    requires base % 4096 == 0
    ensures Ascending(Regions(base, blockSize, blockCount))
  {
    SlotsAt(base);
  }

  /** On a page-aligned base the parts never overlap, whatever the padding in front of the head; and they lie inside
      the memory that was asked for if and only if the size of the block area fits in 32 bits. */
  lemma PartsAreDisjoint(base: nat, blockSize: nat, blockCount: nat)
    requires base % 4096 == 0
    ensures var r := Regions(base, blockSize, blockCount);
      && (forall i, j | 0 <= i < j < |r| :: Disjoint(r[i], r[j]))
      && (blockSize * blockCount < TWO32 <==>
          forall i | 0 <= i < |r| :: Within(r[i], Region(base, MemSize(blockSize, blockCount))))
  {
    var r := Regions(base, blockSize, blockCount);
    RegionsAscend(base, blockSize, blockCount);
    forall i, j | 0 <= i < j < |r| ensures Disjoint(r[i], r[j]) { AscendingIsDisjoint(r, i, j); }
    PartsFit(base, blockSize, blockCount);
  }

  lemma PartsFit(base: nat, blockSize: nat, blockCount: nat)
    requires base % 4096 == 0
    ensures var r := Regions(base, blockSize, blockCount);
      blockSize * blockCount < TWO32 <==>
        forall i | 0 <= i < |r| :: Within(r[i], Region(base, MemSize(blockSize, blockCount)))
  {
    var r, n := Regions(base, blockSize, blockCount), blockSize * blockCount;
    var all := Region(base, MemSize(blockSize, blockCount));
    RegionsAscend(base, blockSize, blockCount);
    assert r[12] == Region(StrAddr(base, blockCount) + BlksOfst(blockCount), n);
    assert all.start + all.len == r[12].start + n % TWO32;
    assert n < TWO32 <==> n <= n % TWO32;
    if n < TWO32 {
      forall i | 0 <= i < |r| ensures Within(r[i], all) {
        if i < 12 { AscendingIsDisjoint(r, i, 12); }
        assert r[0].start == base;
        if i > 0 { AscendingIsDisjoint(r, 0, i); }
      }
    } else {
      assert !Within(r[12], all);
    }
  }

  /** What is swapped atomically is aligned: slots and version to 8 bytes, the head to a line of 64 bytes that it
      has to itself, behind the block records and before the links. */
  lemma AtomicsAreAligned(base: nat, blockSize: nat, blockCount: nat, i: nat)
    requires base % 4096 == 0
    ensures (HshAligned(base) + 8 + 8 * i) % 8 == 0 && StrAddr(base, blockCount) % 8 == 0
    ensures HeadAddr(base, blockCount) % 64 == 0
    ensures var r := Regions(base, blockSize, blockCount);
      r[8].start + r[8].len <= HeadAddr(base, blockCount) && HeadAddr(base, blockCount) + 64 <= r[10].start
  {
  }

  /** The bytes of a block. */
  function Block(base: nat, blockSize: nat, blockCount: nat, b: nat): Region {
    Region(StrAddr(base, blockCount) + BlksOfst(blockCount) + Mul32(b, blockSize), blockSize)
  }

  lemma ProductLess(a: nat, b: nat, n: nat)
    requires a < b
    ensures a * n + n <= b * n
  {
    assert b * n == a * n + (b - a) * n;
    assert (b - a) * n == n + (b - a - 1) * n;
  }

  /** Blocks do not overlap, and each lies in the block area. */
  lemma BlocksAreDisjoint(base: nat, blockSize: nat, blockCount: nat, b: nat, c: nat)
    requires b < c < blockCount && blockSize * blockCount < TWO32
    ensures Disjoint(Block(base, blockSize, blockCount, b), Block(base, blockSize, blockCount, c))
    ensures Within(Block(base, blockSize, blockCount, c), Regions(base, blockSize, blockCount)[12])
  {
    ProductLess(b, c, blockSize);
    ProductLess(c, blockCount, blockSize);
    assert blockCount * blockSize == blockSize * blockCount;
    InRange(b * blockSize);
    InRange(c * blockSize);
  }

  lemma InRange(n: nat)
    requires n < TWO32
    ensures n % TWO32 == n
  {
  }

  lemma SlotsAt(base: nat)
    requires base % 4096 == 0
    ensures HshAligned(base) == base + 32
  {
    var page := base / 4096;
    assert base + 24 == 16 * (256 * page + 1) + 8;
    assert (base + 24) % 16 == 8;
  }

  /** An opener takes the next power of two for the number of slots: from two slots too many on, the slots run into
      the version word. */
  lemma TooManySlotsRunIntoTheStore(base: nat, blockCount: nat, slots: nat)
    requires base % 4096 == 0
    ensures HshAligned(base) + 8 + 8 * slots <= StrAddr(base, blockCount) <==> slots <= blockCount + 1
  {
    SlotsAt(base);
    assert StrAddr(base, blockCount) == base + 48 + 8 * blockCount;
  }

  /** Where everything lies on a page-aligned base, with slots of 8 bytes, records of 24 and links of 4: no part is
      larger than its elements and their size word, but for the paddings in front of the slots, around the head and
      behind the links. */
  lemma WhereThingsAre(base: nat, blockSize: nat, blockCount: nat)
    requires base % 4096 == 0
    ensures HshAligned(base) == base + 32 && StrAddr(base, blockCount) == base + 48 + 8 * blockCount
    ensures CListAddr(base, blockCount) == base + 64 + 32 * blockCount
    ensures StrAddr(base, blockCount) + BlksOfst(blockCount) == base + 200 + 36 * blockCount
    ensures MemSize(blockSize, blockCount) == 200 + 36 * blockCount + blockSize * blockCount % 0x1_0000_0000
    ensures var r := Regions(base, blockSize, blockCount);
      && |r| == 13 && r[5].len == 8 * blockCount && r[8].len == 24 * blockCount && r[11].len == 4 * blockCount
      && r[10].start == HeadAddr(base, blockCount) + 64
  {
    SlotsAt(base);
  }
}
