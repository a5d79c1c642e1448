/**
 * `Safe` is exact. Whether a step is safe depends on the control state alone, not on what
 * the devices hold; it is safe iff the step is right whatever they hold.
 */
module Exactness {
  import opened CacheTypes
  import opened CacheStore
  import opened FlatStore
  import opened MappingState
  import opened MappingTable
  import opened MappingInvariant
  import opened Protocol
  import opened RequestSteps
  import opened StoreLimits
  import opened StoreRefinement
  import opened WorkerSteps
  import opened Writebacks

  /** The two stores differ at most in the contents of SSD, origin and DMA buffer. */
  predicate SameControl(d: Store, e: Store) {
    && e.sys == d.sys && e.users == d.users && e.unwritten == d.unwritten && |e.ssd| == |d.ssd|
    && (e.io == d.io || (e.io.Loaded? && d.io.Loaded?))
  }

  /** A step keeps the picture of the flat store, and what it reads is what the flat store holds. */
  ghost predicate IsRight(d: Store, f: Flat, op: Op)
    requires StoreInv(d, f) && CanDo(d, op)
  {
    var e, ev := Do(d, op), EventOf(d, op);
    && StoreInv(e, FlatApply(f, ev))
    && (ev.DidRead? ==> ev.result == FlatRead(f, ev.path, ev.page, |ev.result|))
  }

  /** With the same control state everything that decides about a step is the same. */
  lemma SafeIsControl(d: Store, e: Store, op: Op)
    requires StoreSane(d) && StoreSane(e) && SameControl(d, e)
    ensures CanDo(d, op) <==> CanDo(e, op)
    ensures CanDo(d, op) ==> (Safe(d, op) <==> Safe(e, op))
  {
    if CanDo(d, op) && op.Transfer? {
      SafeTransferIsControl(d, e, op.u);
    }
  }

  lemma SafeTransferIsControl(d: Store, e: Store, u: nat)
    requires StoreSane(d) && StoreSane(e) && SameControl(d, e) && CanDo(d, Transfer(u))
    ensures SafeTransfer(d, u) <==> SafeTransfer(e, u)
  {
    assert UserSane(d.users[u], |d.ssd|);
  }

  // ---------------------------------------------------------------- safe steps are right

  lemma SafeIsRight(d: Store, f: Flat, op: Op)
    requires StoreInv(d, f) && CanDo(d, op) && Safe(d, op)
    ensures IsRight(d, f, op)
  {
    OpKeepsInv(d, f, op, FlatApply(f, EventOf(d, op)));
    OpReadsFlat(d, f, op);
  }

  // ---------------------------------------------------------------- contents

  /** A flat store with the same value on every page. */
  ghost function Flood(v: Data): Flat {
    imap p: Page | p.index >= 0 :: v
  }

  function Even(v: Data): Block {
    seq(PAGES, _ => v)
  }

  lemma FloodIsEven(v: Data, k: Key)
    ensures FlatBlock(Flood(v), k) == Even(v)
  {
  }

  /** The devices filled with what the flat store holds. */
  ghost function Picture(d: Store, g: Flat): Store
    requires StoreSane(d)
  {
    d.(ssd := seq(|d.ssd|, i requires 0 <= i < |d.ssd| => FlatBlock(g, d.sys.m.cells[i].key)),
       origin := imap k: Key | true :: FlatBlock(g, k),
       io := if d.io.Loaded? then Loaded(FlatBlock(g, FlightKey(d))) else d.io)
  }

  lemma PictureIsGood(d: Store, f: Flat, g: Flat)
    requires StoreInv(d, f)
    ensures StoreInv(Picture(d, g), g) && SameControl(d, Picture(d, g))
  {
  }

  /** The picture but for the contents of block `c`. */
  ghost function Spoiled(d: Store, g: Flat, c: nat, junk: Block): Store
    requires StoreSane(d) && c < |d.ssd|
  {
    Picture(d, g).(ssd := Picture(d, g).ssd[c := junk])
  }

  /** Block `c` may hold anything unless it is current or just promoted. */
  lemma SpoiledIsGood(d: Store, f: Flat, g: Flat, c: nat, junk: Block)
    requires StoreInv(d, f) && c < |d.ssd|
    requires var k := d.sys.m.cells[c].key;
             junk == FlatBlock(g, k) || (!Current(d, c, k) && !Promoted(d, c, k))
    ensures StoreInv(Spoiled(d, g, c, junk), g) && SameControl(d, Spoiled(d, g, c, junk))
  {
    PictureIsGood(d, f, g);
  }

  /** A value above all the given ones. */
  ghost function Above(data: seq<Data>): (v: Data)
    ensures forall x :: x in data ==> x < v
  {
    if data == [] then 0 else
      var v := Above(data[1..]);
      assert data == [data[0]] + data[1..];
      if data[0] < v then v else data[0] + 1
  }

  /** A write of other values shows on an even block. */
  lemma PatchShows(data: seq<Data>, at: nat)
    requires data != [] && at + |data| <= PAGES
    ensures Patch(Even(Above(data)), at, data) != Even(Above(data))
  {
    assert Patch(Even(Above(data)), at, data)[at] == data[0];
  }

  /** A partial write lets something of the old block through. */
  lemma PartialPatches(v: Data, at: nat, data: seq<Data>)
    requires at < PAGES && at + |data| <= PAGES && !Overwritable(at, |data|)
    ensures Patch(Even(v + 1), at, data) != Patch(Even(v), at, data)
  {
    var o := if at > 0 then 0 else |data|;
    assert Patch(Even(v + 1), at, data)[o] == v + 1;
    assert Patch(Even(v), at, data)[o] == v;
  }

  // ---------------------------------------------------------------- unsafe steps go wrong

  /** The step goes wrong for some contents. */
  ghost predicate CanGoWrong(d: Store, op: Op)
    requires StoreSane(d) && CanDo(d, op)
  {
    exists e: Store, g: Flat :: SameControl(d, e) && StoreInv(e, g) && CanDo(e, op) && !IsRight(e, g, op)
  }

  lemma GoesWrong(d: Store, op: Op, e: Store, g: Flat)
    requires StoreSane(d) && CanDo(d, op)
    requires SameControl(d, e) && StoreInv(e, g) && (CanDo(e, op) ==> !IsRight(e, g, op))
    ensures CanGoWrong(d, op)
  {
    SafeIsControl(d, e, op);
  }

  /** A step of the worker that loses the picture. */
  lemma WorkerBreaks(d: Store, op: Op, e: Store, g: Flat)
    requires StoreSane(d) && CanDo(d, op) && !IsRequest(op)
    requires SameControl(d, e) && StoreInv(e, g) && CanDo(e, op) && !StoreInv(Do(e, op), g)
    ensures CanGoWrong(d, op)
  {
    WorkerShowsNothing(e, op);
    NotKept(e, g, op);
    GoesWrong(d, op, e, g);
  }

  lemma NotKept(e: Store, g: Flat, op: Op)
    requires StoreInv(e, g) && CanDo(e, op) && EventOf(e, op).Internal? && !StoreInv(Do(e, op), g)
    ensures !IsRight(e, g, op)
  {
    assert FlatApply(g, EventOf(e, op)) == g;
  }

  lemma ReadCanGoWrong(d: Store, f: Flat, op: Op)
    requires StoreInv(d, f) && op.Read? && CanDo(d, op) && !Safe(d, op)
    ensures CanGoWrong(d, op)
  {
    var k := KeyOf(op.path, op.page);
    var c := Find(d.sys.m, k).value;
    FindIsExact(d.sys.m, k);
    var e := Spoiled(d, Flood(0), c, Even(7));
    SpoiledIsGood(d, f, Flood(0), c, Even(7));
    FloodIsEven(0, k);
    SeesSeven(e, op, Flood(0), k);
    GoesWrong(d, op, e, Flood(0));
  }

  lemma SeesSeven(e: Store, op: Op, g: Flat, k: Key)
    requires StoreInv(e, g) && op.Read? && CanDo(e, op) && CheckPio(op.page, op.count)
    requires KeyOf(op.path, op.page) == k && FlatBlock(g, k) == Even(0) && Visible(e, k) == Even(7)
    ensures !IsRight(e, g, op)
  {
    var ev := EventOf(e, op);
    FlatReadIsSlice(g, op.path, op.page, op.count);
    assert ev.result[0] == 7;
    assert FlatRead(g, op.path, op.page, op.count)[0] == 0;
    ReadIsWrong(e, g, op);
  }

  lemma ReadIsWrong(e: Store, g: Flat, op: Op)
    requires StoreInv(e, g) && CanDo(e, op)
    requires var ev := EventOf(e, op); ev.DidRead? && ev.result != FlatRead(g, ev.path, ev.page, |ev.result|)
    ensures !IsRight(e, g, op)
  {
  }

  lemma TrimCanGoWrong(d: Store, f: Flat, op: Op)
    requires StoreInv(d, f) && op.Trim? && CanDo(d, op) && !Safe(d, op)
    ensures CanGoWrong(d, op)
  {
    var v := op.junk[0] + 1;
    PictureIsGood(d, f, Flood(v));
    FloodIsEven(v, d.sys.m.cells[op.block].key);
    TrimSpoils(Picture(d, Flood(v)), Flood(v), op.block, op.junk);
    WorkerBreaks(d, op, Picture(d, Flood(v)), Flood(v));
  }

  lemma TrimSpoils(e: Store, g: Flat, b: nat, junk: Block)
    requires StoreInv(e, g) && e.sys.w.Demoting? && e.io.NotStarted? && !TrimIsHarmless(e, b)
    requires junk != FlatBlock(g, e.sys.m.cells[b].key)
    ensures !StoreInv(DoTrim(e, b, junk), g)
  {
    var e' := DoTrim(e, b, junk);
    if StoreInv(e', g) {
      assert false;
    }
  }

  lemma BeginDemotionCanGoWrong(d: Store, f: Flat, op: Op)
    requires StoreInv(d, f) && op.BeginDemotion? && CanDo(d, op) && !Safe(d, op)
    ensures CanGoWrong(d, op)
  {
    var k := d.sys.m.cells[d.sys.m.clean[0]].key;
    var image := OtherBlock(FlatBlock(f, k));
    VictimKeepsKey(d.sys);
    OriginIsAnything(d, f, k, image);
    OutdatedVictim(WithOrigin(d, k, image), f);
    BeginBreaks(d, op, WithOrigin(d, k, image), f);
  }

  lemma BeginBreaks(d: Store, op: Op, e: Store, g: Flat)
    requires StoreSane(d) && op.BeginDemotion? && CanDo(d, op)
    requires SameControl(d, e) && StoreInv(e, g) && !StoreInv(e.(sys := Apply(e.sys, TryDemotion)), g)
    ensures CanGoWrong(d, op)
  {
    WorkerBreaks(d, op, e, g);
  }

  lemma OutdatedVictim(d: Store, f: Flat)
    requires StoreInv(d, f) && d.sys.w.NoFree? && CanDemote(d.sys.m) && d.sys.m.clean[0] < |d.ssd|
    requires var k := d.sys.m.cells[d.sys.m.clean[0]].key; d.origin[k] != FlatBlock(f, k)
    ensures !StoreInv(d.(sys := Apply(d.sys, TryDemotion)), f)
  {
    var e := d.(sys := Apply(d.sys, TryDemotion));
    DemotionBeginKeepsInv(d.sys.m);
    if StoreInv(e, f) {
      VictimIsClean(e, f);
      assert false;
    }
  }

  lemma EndWritebackCanGoWrong(d: Store, f: Flat, op: Op)
    requires StoreInv(d, f) && op.EndWriteback? && CanDo(d, op) && !Safe(d, op)
    ensures CanGoWrong(d, op)
  {
    var image := OtherBlock(FlatBlock(f, FlightKey(d)));
    AnyImageIsGood(d, f, image);
    LooksCleanButIsNot(WithImage(d, image), f);
    WorkerBreaks(d, op, WithImage(d, image), f);
  }

  // ---------------------------------------------------------------- whole writes

  lemma WriteCanGoWrong(d: Store, f: Flat, op: Op)
    requires StoreInv(d, f) && op.Write? && CanDo(d, op) && !Safe(d, op)
    ensures CanGoWrong(d, op)
  {
    if d.sys.w.Demoting? {
      WriteToVictim(d, f, op);
    } else {
      WriteUnderPromotion(d, f, op);
    }
  }

  lemma WriteToVictim(d: Store, f: Flat, op: Op)
    requires StoreInv(d, f) && op.Write? && CanDo(d, op) && CheckPio(op.page, |op.data|)
    requires d.sys.w.Demoting? && KeyOf(op.path, op.page) == FlightKey(d)
    ensures CanGoWrong(d, op)
  {
    var k, v := FlightKey(d), Above(op.data);
    PictureIsGood(d, f, Flood(v));
    FloodIsEven(v, k);
    PictureIsOutdated(d, f, op.path, op.page, op.data);
    VictimLeftBehind(Picture(d, Flood(v)), k, op.page % PAGES, op.data, FlatWrite(Flood(v), op.path, op.page, op.data));
    WriteBreaks(d, op, Picture(d, Flood(v)), Flood(v));
  }

  /** A write to the victim leaves the origin behind. */
  lemma VictimLeftBehind(e: Store, k: Key, at: nat, data: seq<Data>, g: Flat)
    requires ProtocolInv(e.sys) && StoreSane(e) && e.sys.w.Demoting? && k == FlightKey(e) && at + |data| <= PAGES
    requires e.origin[k] != FlatBlock(g, k)
    ensures !StoreInv(DoWrite(e, k, at, data), g)
  {
    FindIsExact(e.sys.m, k);
    HitForm(e, k, at, data);
    if StoreInv(DoWrite(e, k, at, data), g) {
      assert false;
    }
  }

  /** What a promotion has in hand is the current block. */
  lemma ImageIsCurrent(e: Store, g: Flat)
    requires StoreInv(e, g) && e.sys.w.Promoting?
    ensures e.io.Loaded? ==> e.io.buf == FlatBlock(g, FlightKey(e))
    ensures e.io.Stored? ==> e.ssd[e.sys.w.cblock] == FlatBlock(g, FlightKey(e))
  {
  }

  /** A write to the origin outdates the image of the promotion of its block. */
  lemma OutdatedImage(e: Store, f: Flat, e': Store, g: Flat)
    requires StoreInv(e, f) && e.sys.w.Promoting? && !e.io.NotStarted?
    requires StoreSane(e') && e'.sys == e.sys && e'.io == e.io && e'.ssd == e.ssd
    requires FlatBlock(g, FlightKey(e)) != FlatBlock(f, FlightKey(e))
    ensures !StoreInv(e', g)
  {
    ImageIsCurrent(e, f);
    if StoreInv(e', g) {
      ImageIsCurrent(e', g);
      assert false;
    }
  }

  /** After a write of other values the picture of an even store is outdated. */
  lemma PictureIsOutdated(d: Store, f: Flat, path: Path, page: nat, data: seq<Data>)
    requires StoreInv(d, f) && page < 0x10_0000 && CheckPio(page, |data|) && data != []
    ensures var k, v := KeyOf(path, page), Above(data);
            FlatBlock(FlatWrite(Flood(v), path, page, data), k) != Even(v)
  {
    var k, v := KeyOf(path, page), Above(data);
    FlatWriteIsPatch(Flood(v), path, page, data, k);
    FloodIsEven(v, k);
    PatchShows(data, page % PAGES);
  }

  lemma WriteUnderPromotion(d: Store, f: Flat, op: Op)
    requires StoreInv(d, f) && op.Write? && CanDo(d, op) && CheckPio(op.page, |op.data|)
    requires d.sys.w.Promoting? && !d.io.NotStarted? && KeyOf(op.path, op.page) == FlightKey(d)
    ensures CanGoWrong(d, op)
  {
    var v, k := Above(op.data), FlightKey(d);
    var e := Picture(d, Flood(v));
    PictureIsGood(d, f, Flood(v));
    FloodIsEven(v, k);
    PictureIsOutdated(d, f, op.path, op.page, op.data);
    PromotedKeyIsWrittenToOrigin(e, k, op.page % PAGES, op.data);
    OutdatedImage(e, Flood(v), DoWrite(e, k, op.page % PAGES, op.data), FlatWrite(Flood(v), op.path, op.page, op.data));
    WriteBreaks(d, op, e, Flood(v));
  }

  lemma WriteBreaks(d: Store, op: Op, e: Store, g: Flat)
    requires StoreSane(d) && op.Write? && CanDo(d, op) && CheckPio(op.page, |op.data|)
    requires SameControl(d, e) && StoreInv(e, g)
    requires !StoreInv(DoWrite(e, KeyOf(op.path, op.page), op.page % PAGES, op.data),
                       FlatWrite(g, op.path, op.page, op.data))
    ensures CanGoWrong(d, op)
  {
    GoesWrong(d, op, e, g);
  }

  // ---------------------------------------------------------------- transfers of reads

  lemma ReadTransferCanGoWrong(d: Store, f: Flat, u: nat)
    requires StoreInv(d, f) && CanDo(d, Transfer(u)) && d.users[u].ToRead? && !SafeTransfer(d, u)
    ensures CanGoWrong(d, Transfer(u))
  {
    if d.users[u].from.Some? {
      SsdReadCanGoWrong(d, f, u);
    } else {
      OriginReadCanGoWrong(d, f, u);
    }
  }

  /** Zeros under `k`, sevens everywhere else. */
  ghost function AllBut(k: Key): Flat {
    imap p: Page | p.index >= 0 :: if p.path == k.path && p.index / PAGES == k.index then 0 else 7
  }

  lemma AllButIsEven(k: Key, k': Key)
    ensures FlatBlock(AllBut(k), k') == Even(if k' == k then 0 else 7)
  {
  }

  lemma SsdReadCanGoWrong(d: Store, f: Flat, u: nat)
    requires StoreInv(d, f) && CanDo(d, Transfer(u)) && d.users[u].ToRead? && !SafeTransfer(d, u)
    requires d.users[u].from.Some?
    ensures CanGoWrong(d, Transfer(u))
  {
    var p := d.users[u];
    assert UserSane(p, |d.ssd|);
    OtherBlockRead(d, f, u, KeyOf(p.path, p.page), p.from.value);
  }

  /** A read of a block that is not that of its key. */
  lemma OtherBlockRead(d: Store, f: Flat, u: nat, k: Key, c: nat)
    requires StoreInv(d, f) && CanDo(d, Transfer(u)) && c < |d.ssd| && !Current(d, c, k) && !Promoted(d, c, k)
    requires var p := d.users[u];
             p.ToRead? && UserSane(p, |d.ssd|) && KeyOf(p.path, p.page) == k && p.from == Some(c)
    ensures CanGoWrong(d, Transfer(u))
  {
    var g := AllBut(k);
    AllButIsEven(k, d.sys.m.cells[c].key);
    AllButIsEven(k, k);
    SpoiledIsGood(d, f, g, c, Even(7));
    SeenSeven(d, Spoiled(d, g, c, Even(7)), u, g, k);
  }

  lemma ReadsSeven(e: Store, u: nat, g: Flat, k: Key)
    requires StoreSane(e) && CanDo(e, Transfer(u)) && e.users[u].ToRead?
    requires var p := e.users[u];
             && UserSane(p, |e.ssd|) && KeyOf(p.path, p.page) == k && FlatBlock(g, k) == Even(0)
             && (if p.from.Some? then e.ssd[p.from.value] else e.origin[k]) == Even(7)
    ensures var ev := TransferEvent(e, u);
            ev.DidRead? && ev.result != FlatRead(g, ev.path, ev.page, |ev.result|)
  {
    var p, ev := e.users[u], TransferEvent(e, u);
    FlatReadIsSlice(g, p.path, p.page, p.count);
    assert ev.result[0] == 7;
    assert FlatRead(g, p.path, p.page, p.count)[0] == 0;
  }

  lemma SeenSeven(d: Store, e: Store, u: nat, g: Flat, k: Key)
    requires StoreSane(d) && CanDo(d, Transfer(u)) && SameControl(d, e) && StoreInv(e, g)
    requires var p := d.users[u];
             && p.ToRead? && UserSane(p, |e.ssd|) && KeyOf(p.path, p.page) == k && FlatBlock(g, k) == Even(0)
             && (if p.from.Some? then e.ssd[p.from.value] else e.origin[k]) == Even(7)
    ensures CanGoWrong(d, Transfer(u))
  {
    ReadsSeven(e, u, g, k);
    GoesWrong(d, Transfer(u), e, g);
  }

  lemma OriginReadCanGoWrong(d: Store, f: Flat, u: nat)
    requires StoreInv(d, f) && CanDo(d, Transfer(u)) && d.users[u].ToRead? && !SafeTransfer(d, u)
    requires d.users[u].from.None?
    ensures CanGoWrong(d, Transfer(u))
  {
    var p := d.users[u];
    assert UserSane(p, |d.ssd|);
    var k := KeyOf(p.path, p.page);
    var e := WithOrigin(Picture(d, Flood(0)), k, Even(7));
    PictureIsGood(d, f, Flood(0));
    OriginIsAnything(Picture(d, Flood(0)), Flood(0), k, Even(7));
    FloodIsEven(0, k);
    SeenSeven(d, e, u, Flood(0), k);
  }

  // ---------------------------------------------------------------- transfers of writes

  /** User `u` is about to write to block `to`, or to the origin, under key `k`. */
  predicate IsToWrite(d: Store, u: nat, k: Key, to: Option<nat>) {
    && StoreSane(d) && CanDo(d, Transfer(u)) && d.users[u].ToWrite? && UserSane(d.users[u], |d.ssd|)
    && KeyOf(d.users[u].path, d.users[u].page) == k && d.users[u].to == to
  }

  /** The even store of a value that user `u` does not write. */
  ghost function Before(d: Store, u: nat): Flat
    requires StoreSane(d) && CanDo(d, Transfer(u)) && d.users[u].ToWrite?
  {
    Flood(Above(d.users[u].data))
  }

  ghost function After(d: Store, u: nat): Flat
    requires StoreSane(d) && CanDo(d, Transfer(u)) && d.users[u].ToWrite?
  {
    FlatWrite(Before(d, u), d.users[u].path, d.users[u].page, d.users[u].data)
  }

  lemma BeforeAndAfter(d: Store, u: nat, k: Key, to: Option<nat>, k': Key)
    requires IsToWrite(d, u, k, to)
    ensures var p := d.users[u];
            && FlatBlock(Before(d, u), k') == Even(Above(p.data))
            && Patch(Even(Above(p.data)), p.page % PAGES, p.data) != Even(Above(p.data))
            && FlatBlock(After(d, u), k') ==
               if k' == k then Patch(Even(Above(p.data)), p.page % PAGES, p.data) else Even(Above(p.data))
  {
    var p := d.users[u];
    FlatWriteIsPatch(Before(d, u), p.path, p.page, p.data, k');
    FloodIsEven(Above(p.data), k');
    PatchShows(p.data, p.page % PAGES);
  }

  /** The transfer loses the picture of the even store. */
  lemma TransferBreaks(d: Store, f: Flat, u: nat, k: Key, to: Option<nat>)
    requires StoreInv(d, f) && IsToWrite(d, u, k, to)
    requires CanDo(Picture(d, Before(d, u)), Transfer(u))
    requires !StoreInv(DoTransfer(Picture(d, Before(d, u)), u), After(d, u))
    ensures CanGoWrong(d, Transfer(u))
  {
    PictureIsGood(d, f, Before(d, u));
    GoesWrong(d, Transfer(u), Picture(d, Before(d, u)), Before(d, u));
  }

  lemma PictureCanDo(d: Store, f: Flat, u: nat, k: Key, to: Option<nat>)
    requires StoreInv(d, f) && IsToWrite(d, u, k, to)
    ensures StoreInv(Picture(d, Before(d, u)), Before(d, u))
    ensures IsToWrite(Picture(d, Before(d, u)), u, k, to)
  {
    PictureIsGood(d, f, Before(d, u));
  }

  /** A key whose block is neither written nor brought up to date. */
  lemma KeyLeftBehind(d: Store, f: Flat, u: nat, k: Key, c: nat)
    requires StoreInv(d, f) && IsToWrite(d, u, k, Some(c)) && !Serves(d.sys, c, k)
    requires Find(d.sys.m, k).Some? ==> Find(d.sys.m, k).value !in d.unwritten
    ensures CanGoWrong(d, Transfer(u))
  {
    PictureCanDo(d, f, u, k, Some(c));
    BeforeAndAfter(d, u, k, Some(c), k);
    PictureIsEven(d, f, u, k, Some(c));
    LeftBehind(Picture(d, Before(d, u)), u, k, c, After(d, u));
    TransferBreaks(d, f, u, k, Some(c));
  }

  lemma PictureIsEven(d: Store, f: Flat, u: nat, k: Key, to: Option<nat>)
    requires StoreInv(d, f) && IsToWrite(d, u, k, to) && StoreSane(Picture(d, Before(d, u)))
    ensures Picture(d, Before(d, u)).origin[k] == Even(Above(d.users[u].data))
    ensures Visible(Picture(d, Before(d, u)), k) == Even(Above(d.users[u].data))
  {
    FindIsExact(d.sys.m, k);
    BeforeAndAfter(d, u, k, to, k);
  }

  lemma LeftBehind(e: Store, u: nat, k: Key, c: nat, g: Flat)
    requires ProtocolInv(e.sys) && IsToWrite(e, u, k, Some(c)) && !Serves(e.sys, c, k)
    requires Find(e.sys.m, k).Some? ==> Find(e.sys.m, k).value !in e.unwritten
    requires e.origin[k] != FlatBlock(g, k) && Visible(e, k) != FlatBlock(g, k)
    ensures !StoreInv(DoTransfer(e, u), g)
  {
    FindIsExact(e.sys.m, k);
    if StoreInv(DoTransfer(e, u), g) {
      CurrentSomewhere(DoTransfer(e, u), g, k);
      assert false;
    }
  }

  /** Unless its data is still to come, a block is current where it is served or at the origin. */
  lemma CurrentSomewhere(d: Store, f: Flat, k: Key)
    requires StoreInv(d, f) && (Find(d.sys.m, k).Some? ==> Find(d.sys.m, k).value !in d.unwritten)
    ensures Visible(d, k) == FlatBlock(f, k) || d.origin[k] == FlatBlock(f, k)
  {
    FindIsExact(d.sys.m, k);
    if Served(d, k) {
      VisibleIsCurrent(d, f, k);
    } else {
      VictimIsClean(d, f);
    }
  }

  /** A block that is current for another key. */
  lemma OtherKeyOverwritten(d: Store, f: Flat, u: nat, k: Key, c: nat)
    requires StoreInv(d, f) && IsToWrite(d, u, k, Some(c)) && Hashed(d.sys.m, c) && d.sys.m.cells[c].key != k
    requires !(d.io == Trimmed(c) && d.sys.w.Holds(c))
    requires c in d.unwritten ==> Overwritable(d.users[u].page % PAGES, |d.users[u].data|)
    ensures CanGoWrong(d, Transfer(u))
  {
    PictureCanDo(d, f, u, k, Some(c));
    BeforeAndAfter(d, u, k, Some(c), d.sys.m.cells[c].key);
    BlockSpoilt(Picture(d, Before(d, u)), u, k, c, After(d, u));
    TransferBreaks(d, f, u, k, Some(c));
  }

  lemma BlockSpoilt(e: Store, u: nat, k: Key, c: nat, g: Flat)
    requires IsToWrite(e, u, k, Some(c)) && Hashed(e.sys.m, c) && !(e.io == Trimmed(c) && e.sys.w.Holds(c))
    requires c in e.unwritten ==> Overwritable(e.users[u].page % PAGES, |e.users[u].data|)
    requires Patch(e.ssd[c], e.users[u].page % PAGES, e.users[u].data) != FlatBlock(g, e.sys.m.cells[c].key)
    ensures !StoreInv(DoTransfer(e, u), g)
  {
    if StoreInv(DoTransfer(e, u), g) {
      assert false;
    }
  }

  /** A block that a promotion has just filled for another key. */
  lemma PromotionOverwritten(d: Store, f: Flat, u: nat, k: Key, c: nat)
    requires StoreInv(d, f) && IsToWrite(d, u, k, Some(c))
    requires d.sys.w.Promoting? && d.sys.w.Holds(c) && d.io.Stored? && FlightKey(d) != k
    ensures CanGoWrong(d, Transfer(u))
  {
    PictureCanDo(d, f, u, k, Some(c));
    BeforeAndAfter(d, u, k, Some(c), FlightKey(d));
    ImageSpoilt(Picture(d, Before(d, u)), u, k, c, After(d, u));
    TransferBreaks(d, f, u, k, Some(c));
  }

  lemma ImageSpoilt(e: Store, u: nat, k: Key, c: nat, g: Flat)
    requires IsToWrite(e, u, k, Some(c)) && e.sys.w.Promoting? && e.sys.w.Holds(c) && e.io.Stored?
    requires Patch(e.ssd[c], e.users[u].page % PAGES, e.users[u].data) != FlatBlock(g, FlightKey(e))
    ensures !StoreInv(DoTransfer(e, u), g)
  {
    if StoreInv(DoTransfer(e, u), g) {
      ImageIsCurrent(DoTransfer(e, u), g);
      assert false;
    }
  }

  /** A write to the victim under its own key. */
  lemma VictimOverwritten(d: Store, f: Flat, u: nat, k: Key, c: nat)
    requires StoreInv(d, f) && IsToWrite(d, u, k, Some(c)) && IsVictim(d, c) && Serves(d.sys, c, k)
    ensures CanGoWrong(d, Transfer(u))
  {
    PictureCanDo(d, f, u, k, Some(c));
    BeforeAndAfter(d, u, k, Some(c), k);
    PictureIsEven(d, f, u, k, Some(c));
    VictimOutdated(Picture(d, Before(d, u)), u, k, c, After(d, u));
    TransferBreaks(d, f, u, k, Some(c));
  }

  lemma VictimOutdated(e: Store, u: nat, k: Key, c: nat, g: Flat)
    requires IsToWrite(e, u, k, Some(c)) && IsVictim(e, c) && FlightKey(e) == k && e.origin[k] != FlatBlock(g, k)
    ensures !StoreInv(DoTransfer(e, u), g)
  {
    if StoreInv(DoTransfer(e, u), g) {
      VictimIsClean(DoTransfer(e, u), g);
      assert false;
    }
  }

  lemma SsdWriteCanGoWrong(d: Store, f: Flat, u: nat, k: Key, c: nat)
    requires StoreInv(d, f) && IsToWrite(d, u, k, Some(c)) && !SafeTransfer(d, u)
    ensures CanGoWrong(d, Transfer(u))
  {
    if Serves(d.sys, c, k) {
      VictimOverwritten(d, f, u, k, c);
    } else if !(Find(d.sys.m, k).Some? && Find(d.sys.m, k).value in d.unwritten) {
      KeyLeftBehind(d, f, u, k, c);
    } else if Hashed(d.sys.m, c) {
      OtherKeyOverwritten(d, f, u, k, c);
    } else {
      PromotedKeyIsUnhashed(d.sys);
      FindIsExact(d.sys.m, k);
      PromotionOverwritten(d, f, u, k, c);
    }
  }

  /** The image of a promotion is overtaken by a write to the origin. */
  lemma PromotionOvertaken(d: Store, f: Flat, u: nat, k: Key)
    requires StoreInv(d, f) && IsToWrite(d, u, k, None)
    requires d.sys.w.Promoting? && !d.io.NotStarted? && k == FlightKey(d)
    ensures CanGoWrong(d, Transfer(u))
  {
    PictureCanDo(d, f, u, k, None);
    BeforeAndAfter(d, u, k, None, k);
    var e' := DoTransfer(Picture(d, Before(d, u)), u);
    if StoreSane(e') {
      OutdatedImage(Picture(d, Before(d, u)), Before(d, u), e', After(d, u));
    }
    TransferBreaks(d, f, u, k, None);
  }

  /** The block is cached, and what is written to the origin does not show. */
  lemma WrittenBehindCache(d: Store, f: Flat, u: nat, k: Key)
    requires StoreInv(d, f) && IsToWrite(d, u, k, None) && Find(d.sys.m, k).Some? && Served(d, k)
    ensures CanGoWrong(d, Transfer(u))
  {
    PictureCanDo(d, f, u, k, None);
    BeforeAndAfter(d, u, k, None, k);
    PictureIsEven(d, f, u, k, None);
    DoesNotShow(Picture(d, Before(d, u)), u, k, After(d, u));
    TransferBreaks(d, f, u, k, None);
  }

  lemma DoesNotShow(e: Store, u: nat, k: Key, g: Flat)
    requires IsToWrite(e, u, k, None) && Find(e.sys.m, k).Some? && Served(e, k) && Visible(e, k) != FlatBlock(g, k)
    ensures !StoreInv(DoTransfer(e, u), g)
  {
    if StoreInv(DoTransfer(e, u), g) {
      VisibleIsCurrent(DoTransfer(e, u), g, k);
      assert false;
    }
  }

  lemma OriginWriteCanGoWrong(d: Store, f: Flat, u: nat, k: Key)
    requires StoreInv(d, f) && IsToWrite(d, u, k, None) && !SafeTransfer(d, u)
    ensures CanGoWrong(d, Transfer(u))
  {
    FindIsExact(d.sys.m, k);
    if Find(d.sys.m, k).None? {
      PromotionOvertaken(d, f, u, k);
    } else {
      WrittenBehindCache(d, f, u, k);
    }
  }

  lemma TransferCanGoWrong(d: Store, f: Flat, u: nat)
    requires StoreInv(d, f) && CanDo(d, Transfer(u)) && !SafeTransfer(d, u)
    ensures CanGoWrong(d, Transfer(u))
  {
    var p := d.users[u];
    assert UserSane(p, |d.ssd|);
    if p.ToRead? {
      ReadTransferCanGoWrong(d, f, u);
    } else if p.to.Some? {
      SsdWriteCanGoWrong(d, f, u, KeyOf(p.path, p.page), p.to.value);
    } else {
      OriginWriteCanGoWrong(d, f, u, KeyOf(p.path, p.page));
    }
  }

  // ---------------------------------------------------------------- the theorem

  lemma UnsafeCanGoWrong(d: Store, f: Flat, op: Op)
    requires StoreInv(d, f) && CanDo(d, op) && !Safe(d, op)
    ensures CanGoWrong(d, op)
  {
    match op
    case Read(_, _, _) => ReadCanGoWrong(d, f, op);
    case Write(_, _, _) => WriteCanGoWrong(d, f, op);
    case Trim(_, _) => TrimCanGoWrong(d, f, op);
    case EndWriteback(_) => EndWritebackCanGoWrong(d, f, op);
    case BeginDemotion => BeginDemotionCanGoWrong(d, f, op);
    case Transfer(u) => TransferCanGoWrong(d, f, u);
  }

  /**
   * A step that can be done in a good state is right whatever the devices hold, as long as
   * it is good, iff it is `Safe`. So no assumption of the refinement can be dropped or
   * weakened: what is left out of `Safe` goes wrong for some contents of the devices.
   */
  lemma SafeIsExact(d: Store, f: Flat, op: Op)
    requires StoreInv(d, f) && CanDo(d, op)
    ensures (forall e: Store, g: Flat :: SameControl(d, e) && StoreInv(e, g) && CanDo(e, op) ==> IsRight(e, g, op))
            <==> Safe(d, op)
  {
    if Safe(d, op) {
      forall e: Store, g: Flat | SameControl(d, e) && StoreInv(e, g) && CanDo(e, op)
        ensures IsRight(e, g, op)
      {
        SafeIsControl(d, e, op);
        SafeIsRight(e, g, op);
      }
    } else {
      UnsafeCanGoWrong(d, f, op);
    }
  }
}
