/** The specification: one flat store of pages, written and read by (file, page index). */
module FlatStore {
  import opened CacheTypes

  /** Contents of one 4 KB page, kept abstract as a number. */
  type Data = int

  type Block = b: seq<Data> | |b| == PAGES witness [0, 0, 0, 0, 0, 0, 0, 0]

  const ZERO_BLOCK: Block := [0, 0, 0, 0, 0, 0, 0, 0]

  datatype Page = Page(path: Path, index: nat)

  type Flat = f: imap<Page, Data> | forall p: Page :: p in f
    ghost witness imap p: Page | true :: 0

  /** What a run shows to the outside. A discard records the block image it exposes. */
  datatype Event =
    | DidRead(path: Path, page: nat, result: seq<Data>)
    | DidWrite(path: Path, page: nat, data: seq<Data>)
    | DidDiscard(key: Key, image: Block)
    | Internal

  ghost function FlatRead(f: Flat, path: Path, page: nat, count: nat): seq<Data> {
    seq(count, j requires 0 <= j < count => f[Page(path, page + j)])
  }

  predicate Covers(path: Path, page: nat, count: nat, p: Page) {
    p.path == path && page <= p.index < page + count
  }

  ghost function FlatWrite(f: Flat, path: Path, page: nat, data: seq<Data>): Flat {
    imap p: Page | true :: if Covers(path, page, |data|, p) then data[p.index - page] else f[p]
  }

  ghost function FlatApply(f: Flat, e: Event): Flat {
    match e
    case DidWrite(path, page, data) => FlatWrite(f, path, page, data)
    case DidDiscard(k, image) => FlatWrite(f, k.path, PAGES * k.index, image)
    case _ => f
  }

  ghost function Replay(f: Flat, events: seq<Event>): Flat {
    if events == [] then f
    else FlatApply(Replay(f, events[..|events| - 1]), events[|events| - 1])
  }

  lemma ReplayOneMore(f: Flat, before: seq<Event>, e: Event)
    ensures Replay(f, before + [e]) == FlatApply(Replay(f, before), e)
  {
    assert (before + [e])[..|before|] == before;
  }

  predicate Touches(e: Event, p: Page) {
    match e
    case DidWrite(path, page, data) => Covers(path, page, |data|, p)
    case DidDiscard(k, image) => Covers(k.path, PAGES * k.index, PAGES, p)
    case _ => false
  }

  /** The flat store holds, for each page, what the last event that touched it put there. */
  lemma {:induction false} LatestWriteWins(f: Flat, events: seq<Event>, j: nat, p: Page)
    requires j < |events| && events[j].DidWrite? && Touches(events[j], p)
    requires forall i :: j < i < |events| ==> !Touches(events[i], p)
    ensures Replay(f, events)[p] == events[j].data[p.index - events[j].page]
  {
    var n := |events| - 1;
    if j < n {
      LatestWriteWins(f, events[..n], j, p);
      assert !Touches(events[n], p);
    }
  }

  /** A read that agrees with the replay of what came before returns the latest write. */
  lemma FlatReadReturnsLatestWrite(f: Flat, events: seq<Event>, i: nat, j: nat, p: Page)
    requires j < i < |events| && events[i].DidRead? && events[j].DidWrite?
    requires events[i].result ==
             FlatRead(Replay(f, events[..i]), events[i].path, events[i].page, |events[i].result|)
    requires Covers(events[i].path, events[i].page, |events[i].result|, p) && Touches(events[j], p)
    requires forall x :: j < x < i ==> !Touches(events[x], p)
    ensures events[i].result[p.index - events[i].page] == events[j].data[p.index - events[j].page]
  {
    LatestWriteWins(f, events[..i], j, p);
  }

  /** Page `o` of the block under a key. */
  function PageAt(k: Key, o: nat): Page {
    Page(k.path, PAGES * k.index + o)
  }

  /** The block of pages under a key. */
  ghost function FlatBlock(f: Flat, k: Key): Block {
    seq(PAGES, o requires 0 <= o < PAGES => f[PageAt(k, o)])
  }

  function Patch(b: Block, at: nat, data: seq<Data>): Block
    requires at + |data| <= PAGES
  {
    b[..at] + data + b[at + |data|..]
  }

  function KeyOf(path: Path, page: nat): Key
    requires page < U32
  {
    Key(path, page / PAGES)
  }

  /** Seen block by block, a write inside one block patches that block and no other. */
  lemma FlatWriteIsPatch(f: Flat, path: Path, page: nat, data: seq<Data>, k: Key)
    requires page < U32 && page % PAGES + |data| <= PAGES
    ensures FlatBlock(FlatWrite(f, path, page, data), k) ==
            if k == KeyOf(path, page) then Patch(FlatBlock(f, k), page % PAGES, data) else FlatBlock(f, k)
  {
    var g := FlatWrite(f, path, page, data);
    forall o | 0 <= o < PAGES
      ensures Covers(path, page, |data|, PageAt(k, o)) <==>
              k == KeyOf(path, page) && page % PAGES <= o < page % PAGES + |data|
    {
      assert page == PAGES * (page / PAGES) + page % PAGES;
    }
    if k == KeyOf(path, page) {
      assert FlatBlock(g, k) == Patch(FlatBlock(f, k), page % PAGES, data);
    } else {
      assert FlatBlock(g, k) == FlatBlock(f, k);
    }
  }

  /** A read inside one block is a slice of that block. */
  lemma FlatReadIsSlice(f: Flat, path: Path, page: nat, count: nat)
    requires page < U32 && page % PAGES + count <= PAGES
    ensures FlatRead(f, path, page, count) ==
            FlatBlock(f, KeyOf(path, page))[page % PAGES..page % PAGES + count]
  {
    assert page == PAGES * (page / PAGES) + page % PAGES;
  }
}
