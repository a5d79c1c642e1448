/**
 * Where things are: block numbers on the SSD and byte offsets at the origin, in the 32-bit
 * arithmetic of the code, and what a request of whole pages covers.
 */
module Addressing {
  import opened CacheTypes
  import opened CacheStore
  import opened Hash
  import opened PageIo
  import opened Sequences
  import opened Sgl

  function ShiftLeft(x: nat, bits: nat): Word {
    (x * Pow2(bits)) % U32
  }

  /** The shifts `init_mapping` derives from the device's block size. */
  function CblockShift(blockSize: nat): nat
    requires blockSize > 0
  {
    Log2(0x8000 / blockSize)
  }

  function PageShift(blockSize: nat): nat
    requires blockSize > 0
  {
    Log2(0x1000 / blockSize)
  }

  /** A block size that divides a page into a power of two of blocks. */
  ghost predicate GoodBlockSize(blockSize: nat) {
    exists s: nat :: s <= 12 && blockSize == Pow2(s)
  }

  lemma Powers()
    ensures Pow2(3) == 8 && Pow2(12) == 0x1000 && Pow2(15) == 0x8000 && Pow2(32) == U32
  {
    WordSize();
    Pow2Adds(3, 12);
    Pow2Adds(4, 8);
    assert Pow2(4) == 16 && Pow2(8) == 256;
  }

  lemma {:induction false} Log2OfQuotient(k: nat, s: nat)
    requires s <= k
    ensures Pow2(s) * Pow2(k - s) == Pow2(k) && Pow2(k) / Pow2(s) == Pow2(k - s)
    ensures Log2(Pow2(k) / Pow2(s)) == k - s
  {
    Pow2Adds(s, k - s);
    QuotientAndRest(Pow2(k), Pow2(k - s), 0, Pow2(s));
    Log2OfPow2(k - s);
  }

  lemma ShiftsOf(s: nat)
    requires s <= 12
    ensures CblockShift(Pow2(s)) == 15 - s && PageShift(Pow2(s)) == 12 - s
    ensures Pow2(15 - s) == PAGES * Pow2(12 - s)
  {
    Powers();
    Log2OfQuotient(15, s);
    Log2OfQuotient(12, s);
    Pow2Adds(3, 12 - s);
  }

  lemma SameFactor(m: nat, a: nat, b: nat)
    requires m > 0 && m * a == m * b
    ensures a == b
  {
    MultipleIsFar(m, a - b);
  }

  lemma ScaleUp(a: nat, b: nat, m: nat)
    requires a <= b
    ensures a * m <= b * m && m * a <= m * b
  {
    assert (b - a) * m == b * m - a * m;
  }

  lemma FitsImpliesGood(t: nat, blockSize: nat)
    requires blockSize > 0
    ensures Pow2(t) * blockSize == Pow2(12) ==> GoodBlockSize(blockSize)
  {
    if Pow2(t) * blockSize == Pow2(12) {
      ScaleUp(1, blockSize, Pow2(t));
      if t > 12 {
        Pow2Monotone(13, t);
      }
      Log2OfQuotient(12, t);
      SameFactor(Pow2(t), blockSize, Pow2(12 - t));
    }
  }

  lemma GoodFits(s: nat)
    requires s <= 12
    ensures Pow2(PageShift(Pow2(s))) * Pow2(s) == 0x1000
  {
    Powers();
    ShiftsOf(s);
    Pow2Adds(12 - s, s);
  }

  /** The shifts give a page exactly its 4096 bytes iff the block size is a power of two up to 4096. */
  lemma PageFitsIff(blockSize: nat)
    requires blockSize > 0
    ensures Pow2(PageShift(blockSize)) * blockSize == 0x1000 <==> GoodBlockSize(blockSize)
  {
    Powers();
    FitsImpliesGood(PageShift(blockSize), blockSize);
    if GoodBlockSize(blockSize) {
      var s: nat :| s <= 12 && blockSize == Pow2(s);
      GoodFits(s);
    }
  }

  // ---------------------------------------------------------------- the SSD

  function ShiftedBlock(cblock: nat, page: nat, cblockShift: nat, pageShift: nat): Word {
    (ShiftLeft(cblock, cblockShift) + ShiftLeft(page % 8, pageShift)) % U32
  }

  /** The first device block of a request inside cache block `cblock`. */
  function TargetBlock(cblock: nat, page: nat, blockSize: nat): Word
    requires blockSize > 0
  {
    ShiftedBlock(cblock, page, CblockShift(blockSize), PageShift(blockSize))
  }

  /** How many device blocks a request of `count` pages transfers. */
  function BlockCount(count: nat, blockSize: nat): Word
    requires blockSize > 0
  {
    ShiftLeft(count, PageShift(blockSize))
  }

  /** Device block `x` is transferred by a request. */
  predicate Transfers(cblock: nat, page: nat, count: nat, blockSize: nat, x: nat)
    requires blockSize > 0
  {
    var first := TargetBlock(cblock, page, blockSize);
    first <= x < first + BlockCount(count, blockSize)
  }

  /** Which cache block a device block belongs to, and which page of it. */
  function OwnerOf(x: nat, s: nat): (int, int)
    requires s <= 12
  {
    (x / Pow2(15 - s), (x % Pow2(15 - s)) / Pow2(12 - s))
  }

  /** The device has room for cache block `cblock` in 32-bit block numbers. */
  predicate Addressable(cblock: nat, s: nat)
    requires s <= 12
  {
    (cblock + 1) * Pow2(15 - s) <= U32
  }

  /** `n` pages of `p` blocks from page `o` on, in a cache block of `m` blocks, eight pages. */
  lemma PagesInBlock(c: nat, o: nat, n: nat, p: nat, m: nat)
    requires o + n <= PAGES && m == PAGES * p
    ensures o * p + n * p <= m && (c + 1) * m == c * m + m
  {
    ScaleUp(o + n, PAGES, p);
    Distribute(o, n, p);
    Distribute(c, 1, m);
  }

  lemma SmallWord(x: int)
    requires 0 <= x < U32
    ensures x % U32 == x
  {
  }

  lemma ProductIsNat(x: nat, m: nat)
    ensures x * m >= 0
  {
  }

  lemma ShiftIsExact(x: nat, bits: nat)
    requires x * Pow2(bits) < U32
    ensures ShiftLeft(x, bits) == x * Pow2(bits)
  {
    ProductIsNat(x, Pow2(bits));
    SmallWord(x * Pow2(bits));
  }

  lemma WordSum(u: int, v: int)
    requires 0 <= u && 0 <= v && u + v < U32
    ensures (u % U32 + v % U32) % U32 == u + v
  {
  }

  lemma SumOfShifts(x: nat, a: nat, page: nat, b: nat)
    requires x * Pow2(a) + page % 8 * Pow2(b) < U32
    ensures ShiftedBlock(x, page, a, b) == x * Pow2(a) + page % 8 * Pow2(b)
  {
    ProductIsNat(x, Pow2(a));
    ProductIsNat(page % 8, Pow2(b));
    WordSum(x * Pow2(a), page % 8 * Pow2(b));
  }

  lemma TargetForm(cblock: nat, page: nat, s: nat)
    requires s <= 12 && cblock * Pow2(15 - s) + page % 8 * Pow2(12 - s) < U32
    ensures TargetBlock(cblock, page, Pow2(s)) == cblock * Pow2(15 - s) + page % 8 * Pow2(12 - s)
  {
    SumOfShifts(cblock, 15 - s, page, 12 - s);
    ShiftsOf(s);
  }

  lemma StartsInside(cblock: nat, o: nat, s: nat)
    requires s <= 12 && Addressable(cblock, s) && o < PAGES
    ensures cblock * Pow2(15 - s) + o * Pow2(12 - s) < U32
  {
    ShiftsOf(s);
    StartsBelow(cblock, o, Pow2(12 - s), Pow2(15 - s));
  }

  /** Without any wrap-around: a request starts `page % 8` pages into its cache block. */
  lemma TargetIsExact(cblock: nat, page: nat, count: nat, s: nat)
    requires s <= 12 && Addressable(cblock, s) && CheckPio(page, count)
    ensures TargetBlock(cblock, page, Pow2(s)) == cblock * Pow2(15 - s) + page % 8 * Pow2(12 - s)
    ensures BlockCount(count, Pow2(s)) == count * Pow2(12 - s)
    ensures TargetBlock(cblock, page, Pow2(s)) + BlockCount(count, Pow2(s)) <= (cblock + 1) * Pow2(15 - s) <= U32
  {
    StartsInside(cblock, page % 8, s);
    TargetForm(cblock, page, s);
    CountIsExact(count, s);
    ShiftsOf(s);
    PagesInBlock(cblock, page % 8, count, Pow2(12 - s), Pow2(15 - s));
  }

  lemma StartsBelow(c: nat, o: nat, p: nat, m: nat)
    requires o < PAGES && 0 < p && m == PAGES * p && (c + 1) * m <= U32
    ensures c * m + o * p < U32
  {
    ScaleUp(o + 1, PAGES, p);
    Distribute(o, 1, p);
    Distribute(c, 1, m);
  }

  lemma PowerRange(s: nat)
    requires s <= 12
    ensures 0 < Pow2(12 - s) <= 0x1000
  {
    Powers();
    Pow2Monotone(12 - s, 12);
  }

  /** Scaling a range of pages up to blocks. */
  lemma InScaledRange(r: nat, o: nat, n: nat, p: nat)
    requires p > 0
    ensures o * p <= r < (o + n) * p <==> o <= r / p < o + n
  {
    var q := r / p;
    assert q * p <= r < (q + 1) * p by {
      assert r == p * q + r % p;
    }
    if q < o {
      ScaleUp(q + 1, o, p);
    } else if q < o + n {
      ScaleUp(o, q, p);
      ScaleUp(q + 1, o + n, p);
    } else {
      ScaleUp(o + n, q, p);
    }
  }

  lemma Distribute(a: nat, b: nat, m: nat)
    ensures (a + b) * m == a * m + b * m
  {
  }

  lemma DivisionOf(x: nat, c: nat, m: nat)
    requires m > 0
    ensures x / m == c <==> c * m <= x < c * m + m
    ensures x / m == c ==> x % m == x - c * m
  {
    InScaledRange(x, c, 1, m);
    Distribute(c, 1, m);
    if x / m == c {
      assert x == m * (x / m) + x % m;
    }
  }

  lemma RangeInBlock(x: nat, c: nat, o: nat, n: nat, p: nat, m: nat)
    requires p > 0 && m > 0 && o * p + n * p <= m
    ensures c * m + o * p <= x < c * m + o * p + n * p <==>
            x / m == c && o <= (x % m) / p < o + n
  {
    DivisionOf(x, c, m);
    InScaledRange(x % m, o, n, p);
    Distribute(o, n, p);
  }

  /**
   * A request transfers exactly the device blocks of its own pages in its own cache block.
   * Hence requests to different cache blocks, or to different pages, never overlap.
   */
  lemma TransfersExactlyItsPages(cblock: nat, page: nat, count: nat, s: nat, x: nat)
    requires s <= 12 && Addressable(cblock, s) && CheckPio(page, count)
    ensures Transfers(cblock, page, count, Pow2(s), x) <==>
            OwnerOf(x, s).0 == cblock && page % 8 <= OwnerOf(x, s).1 < page % 8 + count
  {
    TargetIsExact(cblock, page, count, s);
    ShiftsOf(s);
    PagesInBlock(cblock, page % 8, count, Pow2(12 - s), Pow2(15 - s));
    RangeInBlock(x, cblock, page % 8, count, Pow2(12 - s), Pow2(15 - s));
  }

  lemma RequestsDoNotOverlap(c1: nat, page1: nat, n1: nat, c2: nat, page2: nat, n2: nat, s: nat, x: nat)
    requires s <= 12 && Addressable(c1, s) && Addressable(c2, s) && CheckPio(page1, n1) && CheckPio(page2, n2)
    requires c1 != c2 || page1 % 8 + n1 <= page2 % 8 || page2 % 8 + n2 <= page1 % 8
    ensures !(Transfers(c1, page1, n1, Pow2(s), x) && Transfers(c2, page2, n2, Pow2(s), x))
  {
    TransfersExactlyItsPages(c1, page1, n1, s, x);
    TransfersExactlyItsPages(c2, page2, n2, s, x);
  }

  /** The worker's transfer of a cache block is the full-block request for it. */
  lemma MigrationCoversTheBlock(cblock: nat, s: nat)
    requires s <= 12 && Addressable(cblock, s)
    ensures ShiftLeft(cblock, CblockShift(Pow2(s))) == TargetBlock(cblock, 0, Pow2(s))
    ensures ShiftLeft(1, CblockShift(Pow2(s))) == BlockCount(PAGES, Pow2(s))
  {
    ShiftsOf(s);
    PowerRange(s);
    TargetIsExact(cblock, 0, PAGES, s);
    StartsBelow(cblock, 0, Pow2(12 - s), Pow2(15 - s));
    ShiftIsExact(cblock, 15 - s);
    ShiftIsExact(1, 15 - s);
  }

  // ---------------------------------------------------------------- the origin

  /** The byte offset of a page, as the request path computes it. */
  function OriginOffset(page: Word): Word {
    ShiftLeft(page, 12)
  }

  /** The byte offset of a cache block, as the worker computes it. */
  function BlockOffset(index: Word): Word {
    ShiftLeft(index, 15)
  }

  lemma OffsetForms(page: Word)
    ensures OriginOffset(page) == (page * 0x1000) % U32
    ensures BlockOffset(page) == (page * 0x8000) % U32
  {
    Powers();
  }

  /** The request path and the worker agree on where a page is, even where the offsets wrap. */
  lemma OffsetsAgree(page: Word)
    ensures OriginOffset(page) == (BlockOffset(page / 8) + page % 8 * 0x1000) % U32
  {
    OffsetForms(page);
    OffsetForms(page / 8);
    AddWrapped(page / 8 * 0x8000, page % 8 * 0x1000);
  }

  lemma AddWrapped(a: nat, b: nat)
    ensures (a % U32 + b) % U32 == (a + b) % U32
  {
  }

  /** Page offsets are exact up to 4 GB, and from there on pages share offsets. */
  lemma OffsetIsExactIff(page: Word)
    ensures OriginOffset(page) == page * 0x1000 <==> page < 0x10_0000
  {
    OffsetForms(page);
  }

  lemma OffsetsCollideIff(p: Word, q: Word)
    ensures OriginOffset(p) == OriginOffset(q) <==> p % 0x10_0000 == q % 0x10_0000
  {
    OffsetForms(p);
    OffsetForms(q);
    assert U32 == 0x10_0000 * 0x1000;
    ScaledRest(p);
    ScaledRest(q);
  }

  lemma ScaledRest(p: nat)
    ensures (p * 0x1000) % U32 == p % 0x10_0000 * 0x1000
  {
    var q, r := p / 0x10_0000, p % 0x10_0000;
    QuotientAndRest(p * 0x1000, q, r * 0x1000, U32);
  }

  // ---------------------------------------------------------------- the request checks

  /** A request is accepted iff all its pages are in the block of its first one. */
  lemma CheckPioIff(page: nat, count: nat)
    requires count > 0
    ensures CheckPio(page, count) <==> forall p :: page <= p < page + count ==> p / PAGES == page / PAGES
  {
    var last := page + count - 1;
    if forall p :: page <= p < page + count ==> p / PAGES == page / PAGES {
      assert last / PAGES == page / PAGES;
    }
  }

  /** An accepted request may overwrite iff it covers every page of its block. */
  lemma OverwritableIff(page: nat, count: nat)
    requires CheckPio(page, count)
    ensures Overwritable(page, count) <==>
            forall p :: p / PAGES == page / PAGES ==> page <= p < page + count
  {
    var first := page / PAGES * PAGES;
    if forall p :: p / PAGES == page / PAGES ==> page <= p < page + count {
      assert first / PAGES == page / PAGES && (first + PAGES - 1) / PAGES == page / PAGES;
    }
  }

  // ---------------------------------------------------------------- a request end to end

  /** The SSD byte by byte. */
  type Device = imap<nat, int>

  /** Device byte `y` belongs to a transfer of `count` pages. */
  predicate CoversByte(cblock: nat, page: nat, count: nat, blockSize: nat, y: nat)
    requires blockSize > 0
  {
    Transfers(cblock, page, count, blockSize, y / blockSize)
  }

  function FirstByte(cblock: nat, page: nat, blockSize: nat): nat
    requires blockSize > 0
  {
    TargetBlock(cblock, page, blockSize) * blockSize
  }

  ghost function WriteDevice(dev: Device, at: nat, data: seq<int>): Device {
    imap y: nat | y in dev || at <= y < at + |data| :: if at <= y < at + |data| then data[y - at] else dev[y]
  }

  ghost predicate Holds(dev: Device, at: nat, count: nat) {
    forall y :: at <= y < at + count ==> y in dev
  }

  ghost function ReadDevice(dev: Device, at: nat, count: nat): (data: seq<int>)
    requires Holds(dev, at, count)
    ensures |data| == count
    ensures forall i :: 0 <= i < count ==> data[i] == dev[at + i]
  {
    seq(count, i requires 0 <= i < count => dev[at + i])
  }

  /** How many bytes the device moves for a request: its blocks, whatever the buffers hold. */
  function TransferBytes(count: nat, blockSize: nat): nat
    requires blockSize > 0
  {
    BlockCount(count, blockSize) * blockSize
  }

  /** What the driver gathers from the buffers for that many bytes. */
  function TransferAddresses(buffers: seq<nat>, blockSize: nat): seq<nat>
    requires blockSize > 0 && TransferBytes(|buffers|, blockSize) <= |Flatten(PageVec(buffers))|
  {
    Flatten(PageVec(buffers))[..TransferBytes(|buffers|, blockSize)]
  }

  /** The buffers have room for what the device moves. */
  predicate Fits(buffers: seq<nat>, blockSize: nat)
    requires blockSize > 0
  {
    TransferBytes(|buffers|, blockSize) <= |Flatten(PageVec(buffers))|
  }

  /** They are what building the chain, converting it and gathering from the vector comes to. */
  method GatherTransfer(h: Head, buffers: seq<nat>, blockSize: nat) returns (addresses: seq<nat>)
    requires buffers != [] && blockSize > 0 && Fits(buffers, blockSize)
    ensures addresses == TransferAddresses(buffers, blockSize)
  {
    addresses := RequestAddresses(h, buffers, TransferBytes(|buffers|, blockSize));
  }

  /** `write_cache`: the gathered bytes go to the blocks of the request. */
  ghost function WriteCache(dev: Device, mem: Memory, cblock: nat, page: nat, buffers: seq<nat>, blockSize: nat): Device
    requires blockSize > 0 && Fits(buffers, blockSize) && Mapped(mem, Flatten(PageVec(buffers)))
  {
    WriteDevice(dev, FirstByte(cblock, page, blockSize), Load(mem, TransferAddresses(buffers, blockSize)))
  }

  /** `read_cache`: the blocks of the request come back through the buffers. */
  ghost function ReadCache(dev: Device, mem: Memory, cblock: nat, page: nat, buffers: seq<nat>, blockSize: nat): Memory
    requires blockSize > 0 && Fits(buffers, blockSize)
    requires Holds(dev, FirstByte(cblock, page, blockSize), TransferBytes(|buffers|, blockSize))
  {
    Fill(mem, TransferAddresses(buffers, blockSize),
         ReadDevice(dev, FirstByte(cblock, page, blockSize), TransferBytes(|buffers|, blockSize)))
  }

  /** The transfer of `count` pages is as long in blocks as the buffers are in bytes. */
  lemma TransferLength(count: nat, s: nat)
    requires s <= 12 && count <= PAGES
    ensures BlockCount(count, Pow2(s)) * Pow2(s) == count * PAGE_SIZE
  {
    CountIsExact(count, s);
    Powers();
    Log2OfQuotient(12, s);
    Regroup(count, Pow2(12 - s), Pow2(s));
  }

  lemma CountIsExact(count: nat, s: nat)
    requires s <= 12 && count <= PAGES
    ensures BlockCount(count, Pow2(s)) == count * Pow2(12 - s)
  {
    ShiftsOf(s);
    PowerRange(s);
    ScaleUp(count, PAGES, Pow2(12 - s));
    ShiftIsExact(count, 12 - s);
  }

  lemma Regroup(a: nat, b: nat, c: nat)
    ensures a * b * c == a * (c * b)
  {
  }

  /** With a good block size the device moves exactly the bytes of the buffers. */
  lemma TransferIsAll(buffers: seq<nat>, s: nat)
    requires s <= 12 && |buffers| <= PAGES
    ensures TransferBytes(|buffers|, Pow2(s)) == |buffers| * PAGE_SIZE && Fits(buffers, Pow2(s))
    ensures TransferAddresses(buffers, Pow2(s)) == Flatten(PageVec(buffers))
  {
    TransferLength(|buffers|, s);
    PageVecAt(buffers, 0);
  }

  lemma WriteCacheMovesAll(dev: Device, mem: Memory, cblock: nat, page: nat, buffers: seq<nat>, s: nat)
    requires s <= 12 && |buffers| <= PAGES && Mapped(mem, Flatten(PageVec(buffers)))
    ensures Fits(buffers, Pow2(s))
    ensures WriteCache(dev, mem, cblock, page, buffers, Pow2(s)) ==
            WriteDevice(dev, FirstByte(cblock, page, Pow2(s)), Load(mem, Flatten(PageVec(buffers))))
  {
    TransferIsAll(buffers, s);
  }

  lemma ReadCacheMovesAll(dev: Device, mem: Memory, cblock: nat, page: nat, buffers: seq<nat>, s: nat)
    requires s <= 12 && |buffers| <= PAGES
    requires Holds(dev, FirstByte(cblock, page, Pow2(s)), |Flatten(PageVec(buffers))|)
    ensures Fits(buffers, Pow2(s)) && TransferBytes(|buffers|, Pow2(s)) == |Flatten(PageVec(buffers))|
    ensures ReadCache(dev, mem, cblock, page, buffers, Pow2(s)) ==
            Fill(mem, Flatten(PageVec(buffers)),
                 ReadDevice(dev, FirstByte(cblock, page, Pow2(s)), |Flatten(PageVec(buffers))|))
  {
    TransferIsAll(buffers, s);
    PageVecAt(buffers, 0);
  }

  lemma ScaledSum(first: nat, second: nat, more: nat, p: nat, b: nat, unit: nat)
    requires b * p == unit && second == first + more * p
    ensures second * b == first * b + more * unit
  {
    Distribute(first, more * p, b);
    Regroup(more, p, b);
  }

  lemma NextSum(first: int, second: int, base: int, o: nat, more: nat, p: nat)
    requires first == base + o * p && second == base + (o + more) * p
    ensures second == first + more * p
  {
    Distribute(o, more, p);
  }

  lemma PageIsItsBlocks(s: nat)
    requires s <= 12
    ensures Pow2(s) * Pow2(12 - s) == PAGE_SIZE
  {
    Powers();
    Log2OfQuotient(12, s);
  }

  /** Pages of one cache block follow each other on the device, 4096 bytes apart. */
  lemma PagesFollow(cblock: nat, page: nat, more: nat, s: nat)
    requires s <= 12 && Addressable(cblock, s) && page % 8 + more < PAGES
    ensures FirstByte(cblock, page + more, Pow2(s)) == FirstByte(cblock, page, Pow2(s)) + more * PAGE_SIZE
  {
    BlocksFollow(cblock, page, more, s);
    PageIsItsBlocks(s);
    ScaledSum(TargetBlock(cblock, page, Pow2(s)), TargetBlock(cblock, page + more, Pow2(s)),
              more, Pow2(12 - s), Pow2(s), PAGE_SIZE);
  }

  lemma BlocksFollow(cblock: nat, page: nat, more: nat, s: nat)
    requires s <= 12 && Addressable(cblock, s) && page % 8 + more < PAGES
    ensures TargetBlock(cblock, page + more, Pow2(s)) == TargetBlock(cblock, page, Pow2(s)) + more * Pow2(12 - s)
  {
    TargetInside(cblock, page, s);
    TargetInside(cblock, page + more, s);
    FollowingPage(page, more);
    NextSum(TargetBlock(cblock, page, Pow2(s)), TargetBlock(cblock, page + more, Pow2(s)),
            cblock * Pow2(15 - s), page % 8, more, Pow2(12 - s));
  }

  lemma FollowingPage(page: nat, more: nat)
    requires page % 8 + more < PAGES
    ensures (page + more) % 8 == page % 8 + more
  {
  }

  lemma TargetInside(cblock: nat, page: nat, s: nat)
    requires s <= 12 && Addressable(cblock, s)
    ensures TargetBlock(cblock, page, Pow2(s)) == cblock * Pow2(15 - s) + page % 8 * Pow2(12 - s)
  {
    StartsInside(cblock, page % 8, s);
    TargetForm(cblock, page, s);
  }

  /** Reading `count` bytes from inside what was just written. */
  lemma ReadInsideWrite(dev: Device, at: nat, data: seq<int>, off: nat, count: nat)
    requires off + count <= |data|
    ensures Holds(WriteDevice(dev, at, data), at + off, count)
    ensures ReadDevice(WriteDevice(dev, at, data), at + off, count) == data[off..off + count]
  {
  }

  /** What was written from address `q` comes back at address `p`. */
  lemma CopyThroughDevice(dev: Device, mem: Memory, at: nat, at2: nat, src: seq<nat>, dst: seq<nat>,
                          x: nat, p: nat, q: nat)
    requires at <= at2 && at2 - at + |dst| <= |src| && NoDup(dst) && Mapped(mem, src)
    requires x < |dst| && dst[x] == p && src[at2 - at + x] == q
    ensures var dev' := WriteDevice(dev, at, Load(mem, src));
            && Holds(dev', at2, |dst|)
            && var mem' := Fill(mem, dst, ReadDevice(dev', at2, |dst|));
               && p in mem' && q in mem && mem'[p] == mem[q]
  {
    CopyAt(dev, mem, at, src, at2 - at, dst, x);
  }

  lemma CopyAt(dev: Device, mem: Memory, at: nat, src: seq<nat>, off: nat, dst: seq<nat>, x: nat)
    requires off + |dst| <= |src| && NoDup(dst) && Mapped(mem, src) && x < |dst|
    ensures var dev' := WriteDevice(dev, at, Load(mem, src));
            && Holds(dev', at + off, |dst|)
            && var mem' := Fill(mem, dst, ReadDevice(dev', at + off, |dst|));
               && dst[x] in mem' && src[off + x] in mem && mem'[dst[x]] == mem[src[off + x]]
  {
    var data := Load(mem, src);
    ReadInsideWrite(dev, at, data, off, |dst|);
    FilledAt(mem, dst, data[off..off + |dst|], x);
    assert data[off..off + |dst|][x] == data[off + x];
  }

  lemma FilledAt(mem: Memory, dst: seq<nat>, data: seq<int>, x: nat)
    requires |data| == |dst| && NoDup(dst) && x < |dst|
    ensures dst[x] in Fill(mem, dst, data) && Fill(mem, dst, data)[dst[x]] == data[x]
  {
    FillIsPointwise(mem, dst, data);
  }

  /** Byte `o` of page `i` of the read is byte `o` of page `more + i` of the write. */
  lemma SameByte(src: seq<nat>, more: nat, dst: seq<nat>, i: nat, o: nat) returns (x: nat)
    requires more + |dst| <= |src| && i < |dst| && o < PAGE_SIZE
    ensures x < |Flatten(PageVec(dst))| && more * PAGE_SIZE + |Flatten(PageVec(dst))| <= |Flatten(PageVec(src))|
    ensures Flatten(PageVec(dst))[x] == dst[i] + o
    ensures Flatten(PageVec(src))[more * PAGE_SIZE + x] == src[more + i] + o
  {
    x := PAGE_SIZE * i + o;
    PageVecAt(src, 0);
    PageVecAt(dst, 0);
    PageAddress(src, more + i, o);
    PageAddress(dst, i, o);
  }

  /** The read of a later page range of what was written from byte `at` on. */
  lemma ReadBackFrom(dev: Device, mem: Memory, at: nat, at2: nat, src: seq<nat>, more: nat, dst: seq<nat>,
                     i: nat, o: nat)
    requires at2 == at + more * PAGE_SIZE && more + |dst| <= |src|
    requires FarApart(dst) && Mapped(mem, Flatten(PageVec(src))) && i < |dst| && o < PAGE_SIZE
    ensures var dev' := WriteDevice(dev, at, Load(mem, Flatten(PageVec(src))));
            && Holds(dev', at2, |Flatten(PageVec(dst))|)
            && var mem' := Fill(mem, Flatten(PageVec(dst)), ReadDevice(dev', at2, |Flatten(PageVec(dst))|));
               && dst[i] + o in mem' && src[more + i] + o in mem && mem'[dst[i] + o] == mem[src[more + i] + o]
  {
    var x := SameByte(src, more, dst, i, o);
    FarApartAddressesDiffer(dst);
    CopyThroughDevice(dev, mem, at, at2, Flatten(PageVec(src)), Flatten(PageVec(dst)), x,
                      dst[i] + o, src[more + i] + o);
  }

  /**
   * An accepted vectored write, then a vectored read of any of its pages: byte by byte the
   * reader's buffers hold what the writer's held for that page.
   */
  lemma WriteThenRead(dev: Device, mem: Memory, cblock: nat, page: nat, src: seq<nat>, more: nat, dst: seq<nat>,
                      s: nat, i: nat, o: nat)
    requires s <= 12 && Addressable(cblock, s) && CheckPio(page, |src|) && more + |dst| <= |src|
    requires FarApart(dst) && Mapped(mem, Flatten(PageVec(src))) && i < |dst| && o < PAGE_SIZE
    ensures Fits(src, Pow2(s)) && Fits(dst, Pow2(s))
    ensures var dev' := WriteCache(dev, mem, cblock, page, src, Pow2(s));
            && Holds(dev', FirstByte(cblock, page + more, Pow2(s)), TransferBytes(|dst|, Pow2(s)))
            && var mem' := ReadCache(dev', mem, cblock, page + more, dst, Pow2(s));
               && dst[i] + o in mem' && src[more + i] + o in mem && mem'[dst[i] + o] == mem[src[more + i] + o]
  {
    WriteCacheMovesAll(dev, mem, cblock, page, src, s);
    PagesFollow(cblock, page, more, s);
    ReadBackFrom(dev, mem, FirstByte(cblock, page, Pow2(s)), FirstByte(cblock, page + more, Pow2(s)),
                 src, more, dst, i, o);
    ReadCacheMovesAll(WriteCache(dev, mem, cblock, page, src, Pow2(s)), mem, cblock, page + more, dst, s);
  }

  /** The bytes a request writes are those of its pages. */
  lemma WritesOnlyItsPages(cblock: nat, page: nat, count: nat, s: nat, y: nat)
    requires s <= 12 && Addressable(cblock, s) && CheckPio(page, count)
    ensures Pow2(s) > 0
    ensures FirstByte(cblock, page, Pow2(s)) <= y < FirstByte(cblock, page, Pow2(s)) + count * PAGE_SIZE <==>
            CoversByte(cblock, page, count, Pow2(s), y)
  {
    TransferLength(count, s);
    var first, n := TargetBlock(cblock, page, Pow2(s)), BlockCount(count, Pow2(s));
    InScaledRange(y, first, n, Pow2(s));
    assert (first + n) * Pow2(s) == first * Pow2(s) + n * Pow2(s);
  }

  /** A write changes no byte of any other cache block or page. */
  lemma OtherPagesAreUntouched(dev: Device, mem: Memory, c1: nat, page1: nat, src: seq<nat>,
                               c2: nat, page2: nat, n2: nat, s: nat, y: nat)
    requires s <= 12 && Addressable(c1, s) && Addressable(c2, s)
    requires CheckPio(page1, |src|) && CheckPio(page2, n2) && Mapped(mem, Flatten(PageVec(src)))
    requires c1 != c2 || page1 % 8 + |src| <= page2 % 8 || page2 % 8 + n2 <= page1 % 8
    requires y in dev && CoversByte(c2, page2, n2, Pow2(s), y)
    ensures Fits(src, Pow2(s)) && y in WriteCache(dev, mem, c1, page1, src, Pow2(s))
    ensures WriteCache(dev, mem, c1, page1, src, Pow2(s))[y] == dev[y]
  {
    WriteCacheMovesAll(dev, mem, c1, page1, src, s);
    PageVecAt(src, 0);
    RequestsDoNotOverlap(c1, page1, |src|, c2, page2, n2, s, y / Pow2(s));
    WritesOnlyItsPages(c1, page1, |src|, s, y);
  }
}
