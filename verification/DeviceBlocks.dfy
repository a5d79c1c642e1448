/**
 * The SSD byte by byte and the SSD as a sequence of blocks of pages. Under any reading of the
 * bytes of a page as its contents, a vectored write patches one block and a vectored read
 * returns a slice of one, which is what the data layer takes a transfer to be.
 */
module DeviceBlocks {
  import opened CacheTypes
  import opened CacheStore
  import opened FlatStore
  import opened Hash
  import opened PageIo
  import opened Sgl
  import opened Addressing

  /** A reading of the bytes of a page. */
  type Reading = seq<int> -> Data

  ghost predicate Complete(dev: Device) {
    forall y: nat :: y in dev
  }

  /** The byte at which page `o` of a cache block starts. */
  function PageByte(cblock: nat, o: nat): nat {
    0x8000 * cblock + PAGE_SIZE * o
  }

  ghost function BlockOf(dev: Device, cblock: nat, read: Reading): Block
    requires Complete(dev)
  {
    seq(PAGES, o requires 0 <= o < PAGES => read(ReadDevice(dev, PageByte(cblock, o), PAGE_SIZE)))
  }

  function PageAddresses(buffer: nat): seq<nat> {
    seq(PAGE_SIZE, j requires 0 <= j < PAGE_SIZE => buffer + j)
  }

  predicate Readable(mem: Memory, buffers: seq<nat>) {
    forall i :: 0 <= i < |buffers| ==> Mapped(mem, PageAddresses(buffers[i]))
  }

  /** What the buffers hold, page by page. */
  function BufferData(mem: Memory, buffers: seq<nat>, read: Reading): seq<Data>
    requires Readable(mem, buffers)
  {
    seq(|buffers|, i requires 0 <= i < |buffers| => read(Load(mem, PageAddresses(buffers[i]))))
  }

  // ---------------------------------------------------------------- where pages are

  /** The block number and the page of a request come to the byte offset of that page. */
  lemma StartsAtPage(cblock: nat, page: nat, s: nat)
    requires s <= 12 && Addressable(cblock, s)
    ensures FirstByte(cblock, page, Pow2(s)) == PageByte(cblock, page % PAGES)
  {
    TargetInside(cblock, page, s);
    PageIsItsBlocks(s);
    BlockIsItsBlocks(s);
    Scaled(TargetBlock(cblock, page, Pow2(s)), cblock, Pow2(15 - s), page % PAGES, Pow2(12 - s), Pow2(s));
  }

  lemma BlockIsItsBlocks(s: nat)
    requires s <= 12
    ensures Pow2(s) * Pow2(15 - s) == 0x8000
  {
    Powers();
    Pow2Adds(s, 15 - s);
  }

  lemma Scaled(t: int, c: int, p: int, o: int, q: int, b: int)
    requires b * p == 0x8000 && b * q == PAGE_SIZE && t == c * p + o * q
    ensures t * b == 0x8000 * c + PAGE_SIZE * o
  {
    assert t * b == c * (b * p) + o * (b * q);
  }

  lemma BuffersAreMapped(mem: Memory, buffers: seq<nat>)
    requires Readable(mem, buffers)
    ensures Mapped(mem, Flatten(PageVec(buffers)))
  {
    var all := Flatten(PageVec(buffers));
    PageVecAt(buffers, 0);
    forall x | 0 <= x < |all|
      ensures all[x] in mem
    {
      PageVecAt(buffers, x);
      assert PageAddresses(buffers[x / PAGE_SIZE])[x % PAGE_SIZE] == all[x];
    }
  }

  // ---------------------------------------------------------------- writes

  /** Page `i` of what is loaded from the buffers. */
  lemma LoadedPage(mem: Memory, buffers: seq<nat>, i: nat)
    requires Readable(mem, buffers) && i < |buffers|
    ensures Mapped(mem, Flatten(PageVec(buffers))) && PAGE_SIZE * i + PAGE_SIZE <= |Flatten(PageVec(buffers))|
    ensures Load(mem, Flatten(PageVec(buffers)))[PAGE_SIZE * i..PAGE_SIZE * i + PAGE_SIZE] ==
            Load(mem, PageAddresses(buffers[i]))
  {
    BuffersAreMapped(mem, buffers);
    PageVecAt(buffers, 0);
    forall j | 0 <= j < PAGE_SIZE
      ensures Flatten(PageVec(buffers))[PAGE_SIZE * i + j] == PageAddresses(buffers[i])[j]
    {
      PageAddress(buffers, i, j);
    }
  }

  lemma WrittenPage(dev: Device, at: nat, data: seq<int>, p: nat)
    requires Complete(dev)
    ensures Complete(WriteDevice(dev, at, data))
    ensures at <= p && p + PAGE_SIZE <= at + |data| ==>
              ReadDevice(WriteDevice(dev, at, data), p, PAGE_SIZE) == data[p - at..p - at + PAGE_SIZE]
    ensures p + PAGE_SIZE <= at || at + |data| <= p ==>
              ReadDevice(WriteDevice(dev, at, data), p, PAGE_SIZE) == ReadDevice(dev, p, PAGE_SIZE)
  {
  }

  /** One page of one cache block after a write. */
  lemma PageAfterWrite(dev: Device, mem: Memory, cblock: nat, at: nat, buffers: seq<nat>, c: nat, o: nat)
    requires Complete(dev) && Readable(mem, buffers) && at + |buffers| <= PAGES && o < PAGES
    ensures Mapped(mem, Flatten(PageVec(buffers)))
    ensures var dev' := WriteDevice(dev, PageByte(cblock, at), Load(mem, Flatten(PageVec(buffers))));
            && Complete(dev')
            && ReadDevice(dev', PageByte(c, o), PAGE_SIZE) ==
               if c == cblock && at <= o < at + |buffers| then Load(mem, PageAddresses(buffers[o - at]))
               else ReadDevice(dev, PageByte(c, o), PAGE_SIZE)
  {
    BuffersAreMapped(mem, buffers);
    PageVecAt(buffers, 0);
    PageOrder(cblock, at, |buffers|, c, o);
    if c == cblock && at <= o < at + |buffers| {
      PageInside(dev, mem, PageByte(cblock, at), buffers, o - at, PageByte(c, o));
    } else {
      WrittenPage(dev, PageByte(cblock, at), Load(mem, Flatten(PageVec(buffers))), PageByte(c, o));
    }
  }

  lemma PageInside(dev: Device, mem: Memory, first: nat, buffers: seq<nat>, i: nat, p: nat)
    requires Complete(dev) && Readable(mem, buffers) && i < |buffers| && p == first + PAGE_SIZE * i
    ensures Mapped(mem, Flatten(PageVec(buffers)))
    ensures var dev' := WriteDevice(dev, first, Load(mem, Flatten(PageVec(buffers))));
            Complete(dev') && ReadDevice(dev', p, PAGE_SIZE) == Load(mem, PageAddresses(buffers[i]))
  {
    LoadedPage(mem, buffers, i);
    WrittenPage(dev, first, Load(mem, Flatten(PageVec(buffers))), p);
  }

  /** A page of a request lies inside its bytes, any other page outside. */
  lemma PageOrder(cblock: nat, at: nat, n: nat, c: nat, o: nat)
    requires at + n <= PAGES && o < PAGES
    ensures if c == cblock && at <= o < at + n
            then PageByte(c, o) == PageByte(cblock, at) + PAGE_SIZE * (o - at)
                 && PAGE_SIZE * (o - at) + PAGE_SIZE <= PAGE_SIZE * n
            else PageByte(c, o) + PAGE_SIZE <= PageByte(cblock, at)
                 || PageByte(cblock, at) + PAGE_SIZE * n <= PageByte(c, o)
  {
  }

  lemma BlockAfterWrite(dev: Device, mem: Memory, cblock: nat, at: nat, buffers: seq<nat>, read: Reading, c: nat)
    requires Complete(dev) && Readable(mem, buffers) && at + |buffers| <= PAGES
    ensures Mapped(mem, Flatten(PageVec(buffers)))
    ensures var dev' := WriteDevice(dev, PageByte(cblock, at), Load(mem, Flatten(PageVec(buffers))));
            && Complete(dev')
            && BlockOf(dev', c, read) ==
               if c == cblock then Patch(BlockOf(dev, c, read), at, BufferData(mem, buffers, read))
               else BlockOf(dev, c, read)
  {
    BuffersAreMapped(mem, buffers);
    var dev' := WriteDevice(dev, PageByte(cblock, at), Load(mem, Flatten(PageVec(buffers))));
    forall o | 0 <= o < PAGES
      ensures ReadDevice(dev', PageByte(c, o), PAGE_SIZE) ==
              if c == cblock && at <= o < at + |buffers| then Load(mem, PageAddresses(buffers[o - at]))
              else ReadDevice(dev, PageByte(c, o), PAGE_SIZE)
    {
      PageAfterWrite(dev, mem, cblock, at, buffers, c, o);
    }
    BlockFromPages(dev, dev', mem, at, buffers, read, c, c == cblock);
  }

  lemma BlockFromPages(dev: Device, dev': Device, mem: Memory, at: nat, buffers: seq<nat>, read: Reading,
                       c: nat, hit: bool)
    requires Complete(dev) && Complete(dev') && Readable(mem, buffers) && at + |buffers| <= PAGES
    requires forall o :: 0 <= o < PAGES ==>
                           ReadDevice(dev', PageByte(c, o), PAGE_SIZE) ==
                           if hit && at <= o < at + |buffers| then Load(mem, PageAddresses(buffers[o - at]))
                           else ReadDevice(dev, PageByte(c, o), PAGE_SIZE)
    ensures BlockOf(dev', c, read) ==
            if hit then Patch(BlockOf(dev, c, read), at, BufferData(mem, buffers, read)) else BlockOf(dev, c, read)
  {
    var b, b', data := BlockOf(dev, c, read), BlockOf(dev', c, read), BufferData(mem, buffers, read);
    forall o | 0 <= o < PAGES
      ensures b'[o] == if hit && at <= o < at + |data| then data[o - at] else b[o]
    {
    }
    if hit {
      assert b' == Patch(b, at, data);
    } else {
      assert b' == b;
    }
  }

  /**
   * `write_cache` on the bytes is a patch of the block with the pages of the buffers, and
   * leaves every other block as it was.
   */
  lemma WriteIsPatch(dev: Device, mem: Memory, cblock: nat, page: nat, buffers: seq<nat>, s: nat, read: Reading, c: nat)
    requires s <= 12 && Addressable(cblock, s) && CheckPio(page, |buffers|)
    requires Complete(dev) && Readable(mem, buffers)
    ensures Fits(buffers, Pow2(s)) && Mapped(mem, Flatten(PageVec(buffers)))
    ensures var dev' := WriteCache(dev, mem, cblock, page, buffers, Pow2(s));
            && Complete(dev')
            && BlockOf(dev', c, read) ==
               if c == cblock then Patch(BlockOf(dev, c, read), page % PAGES, BufferData(mem, buffers, read))
               else BlockOf(dev, c, read)
  {
    BuffersAreMapped(mem, buffers);
    WriteCacheMovesAll(dev, mem, cblock, page, buffers, s);
    StartsAtPage(cblock, page, s);
    BlockAfterWrite(dev, mem, cblock, page % PAGES, buffers, read, c);
  }

  // ---------------------------------------------------------------- reads

  /** Page `i` of what a read fills the buffers with. */
  lemma FilledPage(mem: Memory, buffers: seq<nat>, data: seq<int>, i: nat)
    requires FarApart(buffers) && |data| == |Flatten(PageVec(buffers))| && i < |buffers|
    ensures PAGE_SIZE * i + PAGE_SIZE <= |data|
    ensures var mem' := Fill(mem, Flatten(PageVec(buffers)), data);
            && Mapped(mem', PageAddresses(buffers[i]))
            && Load(mem', PageAddresses(buffers[i])) == data[PAGE_SIZE * i..PAGE_SIZE * i + PAGE_SIZE]
  {
    var all := Flatten(PageVec(buffers));
    FarApartAddressesDiffer(buffers);
    FillIsPointwise(mem, all, data);
    PageVecAt(buffers, 0);
    forall j | 0 <= j < PAGE_SIZE
      ensures PageAddresses(buffers[i])[j] == all[PAGE_SIZE * i + j]
    {
      PageAddress(buffers, i, j);
    }
  }

  lemma BuffersAfterRead(dev: Device, mem: Memory, cblock: nat, at: nat, buffers: seq<nat>, read: Reading)
    requires Complete(dev) && FarApart(buffers) && at + |buffers| <= PAGES
    ensures var n := |Flatten(PageVec(buffers))|;
            var mem' := Fill(mem, Flatten(PageVec(buffers)), ReadDevice(dev, PageByte(cblock, at), n));
            && Readable(mem', buffers)
            && BufferData(mem', buffers, read) == BlockOf(dev, cblock, read)[at..at + |buffers|]
  {
    var data := ReadDevice(dev, PageByte(cblock, at), |Flatten(PageVec(buffers))|);
    var mem' := Fill(mem, Flatten(PageVec(buffers)), data);
    forall i | 0 <= i < |buffers|
      ensures Mapped(mem', PageAddresses(buffers[i]))
      ensures Load(mem', PageAddresses(buffers[i])) == ReadDevice(dev, PageByte(cblock, at + i), PAGE_SIZE)
    {
      FilledPage(mem, buffers, data, i);
      SliceOfDevice(dev, PageByte(cblock, at), |data|, i);
      assert PageByte(cblock, at) + PAGE_SIZE * i == PageByte(cblock, at + i);
    }
    DataFromPages(dev, mem', cblock, at, buffers, read);
  }

  lemma DataFromPages(dev: Device, mem: Memory, cblock: nat, at: nat, buffers: seq<nat>, read: Reading)
    requires Complete(dev) && Readable(mem, buffers) && at + |buffers| <= PAGES
    requires forall i :: 0 <= i < |buffers| ==>
                           Load(mem, PageAddresses(buffers[i])) == ReadDevice(dev, PageByte(cblock, at + i), PAGE_SIZE)
    ensures BufferData(mem, buffers, read) == BlockOf(dev, cblock, read)[at..at + |buffers|]
  {
  }

  /** `read_cache` fills the buffers with the pages of the request, a slice of the block. */
  lemma ReadIsSlice(dev: Device, mem: Memory, cblock: nat, page: nat, buffers: seq<nat>, s: nat, read: Reading)
    requires s <= 12 && Addressable(cblock, s) && CheckPio(page, |buffers|) && Complete(dev) && FarApart(buffers)
    ensures Fits(buffers, Pow2(s))
    ensures Holds(dev, FirstByte(cblock, page, Pow2(s)), TransferBytes(|buffers|, Pow2(s)))
    ensures var mem' := ReadCache(dev, mem, cblock, page, buffers, Pow2(s));
            && Readable(mem', buffers)
            && BufferData(mem', buffers, read) ==
               BlockOf(dev, cblock, read)[page % PAGES..page % PAGES + |buffers|]
  {
    StartsAtPage(cblock, page, s);
    CompleteHolds(dev, FirstByte(cblock, page, Pow2(s)), |Flatten(PageVec(buffers))|);
    ReadCacheMovesAll(dev, mem, cblock, page, buffers, s);
    BuffersAfterRead(dev, mem, cblock, page % PAGES, buffers, read);
  }

  lemma CompleteHolds(dev: Device, at: nat, count: nat)
    requires Complete(dev)
    ensures Holds(dev, at, count)
  {
  }

  lemma SliceOfDevice(dev: Device, at: nat, count: nat, i: nat)
    requires Complete(dev) && PAGE_SIZE * i + PAGE_SIZE <= count
    ensures ReadDevice(dev, at, count)[PAGE_SIZE * i..PAGE_SIZE * i + PAGE_SIZE] ==
            ReadDevice(dev, at + PAGE_SIZE * i, PAGE_SIZE)
  {
  }
}
