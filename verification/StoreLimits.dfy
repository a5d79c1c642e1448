/**
 * Where the cache stops being a flat store: for the assumptions of `Safe` about demotions
 * and promotions, exactly when a step outside them loses data.
 */
module StoreLimits {
  import opened CacheTypes
  import opened CacheStore
  import opened FlatStore
  import opened MappingState
  import opened MappingTable
  import opened MappingInvariant
  import opened Protocol
  import opened RequestSteps
  import opened WorkerSteps
  import opened Writebacks
  import Queue = QueueSpec

  /** Every read would be served the current pages, but for blocks whose data is still to come. */
  ghost predicate AllCurrent(d: Store, f: Flat) {
    StoreSane(d) && forall k: Key :: Served(d, k) ==> Visible(d, k) == FlatBlock(f, k)
  }

  lemma InvIsAllCurrent(d: Store, f: Flat)
    requires StoreInv(d, f)
    ensures AllCurrent(d, f)
  {
    forall k: Key | Served(d, k)
      ensures Visible(d, k) == FlatBlock(f, k)
    {
      VisibleIsCurrent(d, f, k);
    }
  }

  // ---------------------------------------------------------------- the trim

  /** After a trim a key reads back current, whatever the device returns, iff another block serves it. */
  lemma TrimmedVisibleIff(d: Store, f: Flat, b: nat, k: Key, junk: Block)
    requires StoreInv(d, f) && d.sys.w.Demoting? && d.io.NotStarted? && Served(d, k)
    ensures StoreSane(DoTrim(d, b, junk))
    ensures Serves(d.sys, b, k) ==> Visible(DoTrim(d, b, junk), k) == junk
    ensures !Serves(d.sys, b, k) ==> Visible(DoTrim(d, b, junk), k) == FlatBlock(f, k)
  {
    FindIsExact(d.sys.m, k);
    VisibleIsCurrent(d, f, k);
  }

  lemma TrimmedReadIff(d: Store, f: Flat, b: nat, path: Path, page: nat, count: nat, junk: Block)
    requires StoreInv(d, f) && d.sys.w.Demoting? && d.io.NotStarted? && page < 0x10_0000 && CheckPio(page, count)
    requires Served(d, KeyOf(path, page))
    ensures StoreSane(DoTrim(d, b, junk))
    ensures ReadResult(DoTrim(d, b, junk), KeyOf(path, page), page % PAGES, count) ==
            if Serves(d.sys, b, KeyOf(path, page)) then junk[page % PAGES..page % PAGES + count]
            else FlatRead(f, path, page, count)
  {
    FlatReadIsSlice(f, path, page, count);
    TrimmedVisibleIff(d, f, b, KeyOf(path, page), junk);
  }

  lemma HarmlessTrimServes(d: Store, f: Flat, b: nat, k: Key)
    requires StoreInv(d, f) && d.sys.w.Demoting? && TrimIsHarmless(d, b) && Served(d, k)
    ensures Serves(d.sys, b, k) <==> k == FlightKey(d) && d.sys.w.Holds(b)
  {
    FindIsExact(d.sys.m, k);
  }

  /**
   * A read that could be served before the trim of a demotion returns current pages after
   * it, whatever the device returns, iff the trimmed block does not serve the key. When it is
   * otherwise harmless, this is to say that the key is not the victim's or the trimmed
   * block not the victim's own.
   */
  lemma ReadAfterTrimIff(d: Store, f: Flat, b: nat, path: Path, page: nat, count: nat)
    requires StoreInv(d, f) && d.sys.w.Demoting? && d.io.NotStarted?
    requires page < 0x10_0000 && CheckPio(page, count) && count > 0 && Served(d, KeyOf(path, page))
    ensures forall junk: Block :: StoreSane(DoTrim(d, b, junk))
    ensures (forall junk: Block ::
               ReadResult(DoTrim(d, b, junk), KeyOf(path, page), page % PAGES, count) == FlatRead(f, path, page, count))
            <==> !Serves(d.sys, b, KeyOf(path, page))
    ensures TrimIsHarmless(d, b) ==>
              (Serves(d.sys, b, KeyOf(path, page)) <==> KeyOf(path, page) == FlightKey(d) && d.sys.w.Holds(b))
  {
    var k, at := KeyOf(path, page), page % PAGES;
    forall junk: Block
      ensures StoreSane(DoTrim(d, b, junk))
      ensures !Serves(d.sys, b, k) ==> ReadResult(DoTrim(d, b, junk), k, at, count) == FlatRead(f, path, page, count)
    {
      TrimmedReadIff(d, f, b, path, page, count, junk);
    }
    var other := OtherData(FlatRead(f, path, page, count), at);
    TrimmedReadIff(d, f, b, path, page, count, other);
    if TrimIsHarmless(d, b) {
      HarmlessTrimServes(d, f, b, k);
    }
  }

  /** A block whose pages from `at` on differ from the given ones. */
  ghost function OtherData(data: seq<Data>, at: nat): (b: Block)
    requires data != [] && at + |data| <= PAGES
    ensures b[at..at + |data|] != data
  {
    var b: Block := ZERO_BLOCK[at := data[0] + 1];
    assert b[at..at + |data|][0] != data[0];
    b
  }

  /** Whatever the device returns afterwards, trimming block `b` hurts no key but the victim's. */
  ghost predicate TrimHurtsNobody(d: Store, f: Flat, b: nat)
    requires StoreSane(d) && d.sys.w.Demoting?
  {
    forall junk: Block, k: Key :: k != FlightKey(d) && Served(d, k) ==>
                                    Visible(DoTrim(d, b, junk), k) == FlatBlock(f, k)
  }

  /**
   * The trim of a demotion is harmless exactly when the block is the victim's own or
   * belongs to an entry that cannot be looked up or whose data is still to come.
   */
  lemma TrimHurtsNobodyIff(d: Store, f: Flat, b: nat)
    requires StoreInv(d, f) && d.sys.w.Demoting? && d.io.NotStarted?
    ensures TrimHurtsNobody(d, f, b) <==> TrimIsHarmless(d, b)
  {
    if TrimIsHarmless(d, b) {
      forall junk: Block, k: Key | k != FlightKey(d) && Served(d, k)
        ensures Visible(DoTrim(d, b, junk), k) == FlatBlock(f, k)
      {
        TrimmedVisibleIff(d, f, b, k, junk);
      }
    } else {
      var k := d.sys.m.cells[b].key;
      HashedKeysAreUnique(d.sys.m, b, d.sys.w.cblock);
      FindIsExact(d.sys.m, k);
      TrimmedVisibleIff(d, f, b, k, OtherBlock(FlatBlock(f, k)));
    }
  }

  /** A trim that was submitted earlier lands in block `b`. */
  function LateTrim(d: Store, b: nat, junk: Block): Store
    requires b < |d.ssd|
  {
    d.(ssd := d.ssd[b := junk])
  }

  /**
   * The device may carry out a trim long after the demotion that asked for it is over. It may
   * do so at any moment, whatever it returns for the block afterwards, iff the block is then
   * neither the current block of a key nor just filled by a promotion.
   */
  lemma LateTrimIsHarmlessIff(d: Store, f: Flat, b: nat)
    requires StoreInv(d, f) && b < |d.ssd|
    ensures (forall junk: Block :: StoreInv(LateTrim(d, b, junk), f))
            <==> !Current(d, b, d.sys.m.cells[b].key) && !Promoted(d, b, d.sys.m.cells[b].key)
  {
    var k := d.sys.m.cells[b].key;
    if Current(d, b, k) || Promoted(d, b, k) {
      LateTrimShows(d, f, b, OtherBlock(FlatBlock(f, k)));
    } else {
      forall junk: Block
        ensures StoreInv(LateTrim(d, b, junk), f)
      {
        LateTrimIsQuiet(d, f, b, junk);
      }
    }
  }

  lemma LateTrimShows(d: Store, f: Flat, b: nat, junk: Block)
    requires StoreSane(d) && b < |d.ssd| && junk != FlatBlock(f, d.sys.m.cells[b].key)
    requires Current(d, b, d.sys.m.cells[b].key) || Promoted(d, b, d.sys.m.cells[b].key)
    ensures !StoreInv(LateTrim(d, b, junk), f)
  {
  }

  lemma LateTrimIsQuiet(d: Store, f: Flat, b: nat, junk: Block)
    requires StoreInv(d, f) && b < |d.ssd|
    requires !Current(d, b, d.sys.m.cells[b].key) && !Promoted(d, b, d.sys.m.cells[b].key)
    ensures StoreInv(LateTrim(d, b, junk), f)
  {
  }

  // ---------------------------------------------------------------- whole demotions

  /** A demotion from its begin section to its end, with the trim of the victim's own block. */
  ghost function Demoted(d: Store, junk: Block): Store
    requires StoreSane(d) && d.sys.w.NoFree? && CanDemote(d.sys.m)
    requires StoreSane(d.(sys := Apply(d.sys, TryDemotion)))
  {
    FinishDemotion(d.(sys := Apply(d.sys, TryDemotion)), d.sys.m.clean[0], junk)
  }

  /** Whatever the device returns for the trimmed block, every read is served current pages afterwards. */
  ghost predicate DemotesWell(d: Store, f: Flat)
    requires StoreSane(d) && d.sys.w.NoFree? && CanDemote(d.sys.m)
  {
    StoreSane(d.(sys := Apply(d.sys, TryDemotion))) && forall junk: Block :: AllCurrent(Demoted(d, junk), f)
  }

  lemma SettledDemotesWell(d: Store, f: Flat)
    requires StoreInv(d, f) && d.sys.w.NoFree? && CanDemote(d.sys.m) && !Unsettled(d, d.sys.m.clean[0])
    ensures DemotesWell(d, f)
  {
    var e := d.(sys := Apply(d.sys, TryDemotion));
    BeginDemotionStep(d, f);
    forall junk: Block
      ensures AllCurrent(FinishDemotion(e, d.sys.m.clean[0], junk), f)
    {
      FinishedDemotionIsCurrent(e, f, d.sys.m.clean[0], junk);
    }
  }

  /** The demotion begins: its victim keeps its key. */
  lemma VictimKeepsKey(s: Sys)
    requires ProtocolInv(s) && s.w.NoFree? && CanDemote(s.m)
    ensures var c, t := s.m.clean[0], Apply(s, TryDemotion);
            && c < |s.m.cells| && Find(s.m, s.m.cells[c].key) == Some(c)
            && ProtocolInv(t) && |t.m.cells| == |s.m.cells| && t.m.cells[c].key == s.m.cells[c].key
  {
    var c := s.m.clean[0];
    assert c in s.m.clean;
    DemotionBeginKeepsInv(s.m);
    FindIsExact(s.m, s.m.cells[c].key);
    StepKeepsInv(s, TryDemotion);
  }

  lemma OutdatedDemotesBadly(d: Store, f: Flat)
    requires ProtocolInv(d.sys) && StoreSane(d) && d.sys.w.NoFree? && CanDemote(d.sys.m)
    requires d.sys.m.clean[0] < |d.ssd|
    requires var k := d.sys.m.cells[d.sys.m.clean[0]].key; d.origin[k] != FlatBlock(f, k)
    ensures !DemotesWell(d, f)
  {
    VictimKeepsKey(d.sys);
    var e := d.(sys := Apply(d.sys, TryDemotion));
    if StoreSane(e) {
      VictimGoesToOrigin(e, d.sys.m.clean[0], ZERO_BLOCK);
      assert !AllCurrent(Demoted(d, ZERO_BLOCK), f);
    }
  }

  /**
   * A demotion leaves every key readable and current, whatever the origin holds under the
   * victim's key and whatever the trimmed block reads back as, iff no write to the victim
   * is still to come or to be marked when it is picked.
   */
  lemma DemotionIsHarmlessIff(d: Store, f: Flat)
    requires StoreInv(d, f) && d.sys.w.NoFree? && CanDemote(d.sys.m)
    ensures d.sys.m.clean[0] < |d.ssd|
    ensures (forall image: Block :: var e := WithOrigin(d, d.sys.m.cells[d.sys.m.clean[0]].key, image);
                                    StoreInv(e, f) ==> DemotesWell(e, f))
            <==> !Unsettled(d, d.sys.m.clean[0])
  {
    VictimKeepsKey(d.sys);
    var k := d.sys.m.cells[d.sys.m.clean[0]].key;
    if Unsettled(d, d.sys.m.clean[0]) {
      var image := OtherBlock(FlatBlock(f, k));
      OriginIsAnything(d, f, k, image);
      OutdatedDemotesBadly(WithOrigin(d, k, image), f);
    } else {
      forall image: Block | StoreInv(WithOrigin(d, k, image), f)
        ensures DemotesWell(WithOrigin(d, k, image), f)
      {
        SettledDemotesWell(WithOrigin(d, k, image), f);
      }
    }
  }

  // ---------------------------------------------------------------- writes during a demotion

  /** The rest of a demotion: the trim of block `b`, unless it is done, and the end section. */
  ghost function FinishDemotion(d: Store, b: nat, junk: Block): Store
    requires StoreSane(d) && d.sys.w.Demoting?
  {
    var t := if d.io.Trimmed? then d else DoTrim(d, b, junk);
    t.(sys := Apply(t.sys, DemotionDone(true)), io := NotStarted)
  }

  /** The write survives the demotion in progress, whatever the device returns for the trimmed block. */
  ghost predicate KeptByDemotion(d: Store, f: Flat, b: nat, path: Path, page: nat, data: seq<Data>)
    requires StoreSane(d) && d.sys.w.Demoting? && page < U32 && page % PAGES + |data| <= PAGES
  {
    var e := DoWrite(d, KeyOf(path, page), page % PAGES, data);
    && StoreSane(e) && e.sys.w == d.sys.w
    && forall junk: Block :: AllCurrent(FinishDemotion(e, b, junk), FlatWrite(f, path, page, data))
  }

  /** Trimming block `b` spares what is hashed and what a write to `k` is about to hash. */
  predicate TrimSparesWrite(d: Store, b: nat, k: Key, full: bool)
    requires StoreSane(d)
  {
    d.sys.w.Holds(b)
    || !(b < |d.sys.m.cells|
         && ((Hashed(d.sys.m, b) && b !in d.unwritten) || (full && WriteTarget(d.sys, k, full) == Some(b))))
  }

  /** Pages that all differ from the ones in place. */
  ghost function Different(f: Flat, k: Key, at: nat, count: nat): (data: seq<Data>)
    requires at + count <= PAGES
    ensures |data| == count
    ensures count > 0 ==> Patch(FlatBlock(f, k), at, data) != FlatBlock(f, k)
  {
    var data := seq(count, j requires 0 <= j < count => FlatBlock(f, k)[at + j] + 1);
    assert count > 0 ==> Patch(FlatBlock(f, k), at, data)[at] == FlatBlock(f, k)[at] + 1;
    data
  }

  /** Once the demotion is over, the victim's key is served from the origin. */
  lemma VictimGoesToOrigin(e: Store, b: nat, junk: Block)
    requires ProtocolInv(e.sys) && StoreSane(e) && e.sys.w.Demoting?
    ensures StoreSane(FinishDemotion(e, b, junk))
    ensures Served(FinishDemotion(e, b, junk), FlightKey(e))
    ensures Visible(FinishDemotion(e, b, junk), FlightKey(e)) == e.origin[FlightKey(e)]
  {
    var s, t := e.sys, Apply(e.sys, DemotionDone(true));
    EndDemotionView(s);
    NobodyElse(s.m, t.m, s.w.cblock);
    FindIsExact(t.m, FlightKey(e));
  }

  lemma NobodyElse(s: State, t: State, c: nat)
    requires Inv(s) && Inv(t) && |t.cells| == |s.cells| && c < |s.cells| && Hashed(s, c)
    requires forall i :: 0 <= i < |s.cells| ==> t.cells[i].key == s.cells[i].key
    requires forall i :: 0 <= i < |s.cells| ==> (Hashed(t, i) <==> Hashed(s, i) && i != c)
    ensures !KeyHashed(t, s.cells[c].key)
  {
    OthersHaveOtherKeys(s, c);
  }

  /** A block trimmed by the demotion of another entry is served trimmed. */
  lemma TrimmedBlockIsServed(e: Store, b: nat, junk: Block)
    requires ProtocolInv(e.sys) && StoreSane(e) && e.sys.w.Demoting? && !e.io.Trimmed?
    requires b < |e.ssd| && Hashed(e.sys.m, b) && b != e.sys.w.cblock && b !in e.unwritten
    ensures StoreSane(FinishDemotion(e, b, junk)) && Served(FinishDemotion(e, b, junk), e.sys.m.cells[b].key)
    ensures Visible(FinishDemotion(e, b, junk), e.sys.m.cells[b].key) == junk
  {
    var t := Apply(e.sys, DemotionDone(true));
    EndDemotionView(e.sys);
    FindIsExact(t.m, e.sys.m.cells[b].key);
  }

  /** Completing a demotion drops what was written to the victim meanwhile. */
  lemma VictimWriteIsLost(d: Store, f: Flat, b: nat, path: Path, page: nat, data: seq<Data>)
    requires StoreInv(d, f) && d.sys.w.Demoting? && page < 0x10_0000 && CheckPio(page, |data|)
    requires KeyOf(path, page) == FlightKey(d)
    requires Patch(FlatBlock(f, FlightKey(d)), page % PAGES, data) != FlatBlock(f, FlightKey(d))
    ensures !KeptByDemotion(d, f, b, path, page, data)
  {
    var k := FlightKey(d);
    var e := DoWrite(d, k, page % PAGES, data);
    FindIsExact(d.sys.m, k);
    HitForm(d, k, page % PAGES, data);
    VictimGoesToOrigin(e, b, ZERO_BLOCK);
    VictimIsClean(d, f);
    FlatWriteIsPatch(f, path, page, data, k);
    assert !AllCurrent(FinishDemotion(e, b, ZERO_BLOCK), FlatWrite(f, path, page, data));
  }

  /** What a write hashes: nothing but the block it goes to. */
  lemma WriteHashesItsTarget(s: Sys, k: Key, full: bool)
    requires ProtocolInv(s)
    ensures var u := AfterWriteLookup(s, k, full);
            && (WriteTarget(s, k, full).Some? ==> WriteTarget(s, k, full).value < |u.m.cells|)
            && var t := if WriteTarget(s, k, full).Some?
                        then u.(m := SetDirtyAfterWrite(u.m, WriteTarget(s, k, full).value)) else u;
               && ProtocolInv(t) && t.w == s.w && |t.m.cells| == |s.m.cells|
               && forall i :: 0 <= i < |s.m.cells| ==>
                    (Hashed(t.m, i) <==> Hashed(s.m, i) || WriteTarget(s, k, full) == Some(i))
  {
    if Find(s.m, k).Some? {
      HitSections(s, k, full);
    } else if WriteTarget(s, k, full).Some? {
      InsertForm(s, k);
    } else {
      MissOnlyQueues(s, k, full);
    }
  }

  /** Afterwards a trim is harmless iff it spares what was hashed and what the write hashes. */
  lemma TrimAfterWrite(d: Store, k: Key, at: nat, data: seq<Data>, b: nat)
    requires ProtocolInv(d.sys) && StoreSane(d) && at + |data| <= PAGES
    requires d.sys.w.Demoting?
    ensures StoreSane(DoWrite(d, k, at, data))
    ensures TrimIsHarmless(DoWrite(d, k, at, data), b) <==> TrimSparesWrite(d, b, k, Overwritable(at, |data|))
  {
    WriteHashesItsTarget(d.sys, k, Overwritable(at, |data|));
    HitIsSane(d, DoWrite(d, k, at, data));
  }

  lemma OtherWrite(d: Store, f: Flat, path: Path, page: nat, data: seq<Data>, b: nat)
    requires StoreInv(d, f) && d.sys.w.Demoting?
    requires page < 0x10_0000 && CheckPio(page, |data|) && KeyOf(path, page) != FlightKey(d)
    ensures var k, e := KeyOf(path, page), DoWrite(d, KeyOf(path, page), page % PAGES, data);
            && StoreInv(e, FlatWrite(f, path, page, data)) && e.sys.w == d.sys.w && e.io == d.io
            && (TrimIsHarmless(e, b) <==> TrimSparesWrite(d, b, k, Overwritable(page % PAGES, |data|)))
  {
    var k := KeyOf(path, page);
    WriteStep(d, f, path, page, data);
    WriteKeepsMigration(d, k, page % PAGES, data);
    TrimAfterWrite(d, k, page % PAGES, data, b);
  }

  /** A request leaves the migration in flight alone. */
  lemma WriteKeepsMigration(d: Store, k: Key, at: nat, data: seq<Data>)
    requires StoreSane(d) && at + |data| <= PAGES
    ensures DoWrite(d, k, at, data).sys.w == d.sys.w && DoWrite(d, k, at, data).io == d.io
  {
  }

  lemma FinishedDemotionIsCurrent(e: Store, g: Flat, b: nat, junk: Block)
    requires StoreInv(e, g) && e.sys.w.Demoting? && (e.io.Trimmed? || TrimIsHarmless(e, b))
    ensures AllCurrent(FinishDemotion(e, b, junk), g)
  {
    if e.io.Trimmed? {
      EndDemotionStep(e, g);
    } else {
      TrimStep(e, g, b, junk);
      EndDemotionStep(DoTrim(e, b, junk), g);
    }
    InvIsAllCurrent(FinishDemotion(e, b, junk), g);
  }

  lemma OtherWriteIsKept(d: Store, f: Flat, b: nat, path: Path, page: nat, data: seq<Data>)
    requires StoreInv(d, f) && d.sys.w.Demoting?
    requires page < 0x10_0000 && CheckPio(page, |data|) && KeyOf(path, page) != FlightKey(d)
    requires d.io.Trimmed? || TrimSparesWrite(d, b, KeyOf(path, page), Overwritable(page % PAGES, |data|))
    ensures KeptByDemotion(d, f, b, path, page, data)
  {
    var e := DoWrite(d, KeyOf(path, page), page % PAGES, data);
    OtherWrite(d, f, path, page, data, b);
    forall junk: Block
      ensures AllCurrent(FinishDemotion(e, b, junk), FlatWrite(f, path, page, data))
    {
      FinishedDemotionIsCurrent(e, FlatWrite(f, path, page, data), b, junk);
    }
  }

  lemma TrimmedWriteIsNotKept(d: Store, f: Flat, b: nat, path: Path, page: nat, data: seq<Data>)
    requires StoreInv(d, f) && d.sys.w.Demoting? && !d.io.Trimmed?
    requires page < 0x10_0000 && CheckPio(page, |data|) && KeyOf(path, page) != FlightKey(d)
    requires !TrimSparesWrite(d, b, KeyOf(path, page), Overwritable(page % PAGES, |data|))
    ensures !KeptByDemotion(d, f, b, path, page, data)
  {
    var e, g := DoWrite(d, KeyOf(path, page), page % PAGES, data), FlatWrite(f, path, page, data);
    OtherWrite(d, f, path, page, data, b);
    var kb := e.sys.m.cells[b].key;
    var junk := OtherBlock(FlatBlock(g, kb));
    TrimmedBlockIsServed(e, b, junk);
    assert !AllCurrent(FinishDemotion(e, b, junk), g);
  }

  /**
   * A request of `count` pages survives the demotion in progress, whatever it writes and
   * whatever the trimmed block reads back as, iff it is for another block and the trim,
   * unless it is over, spares what is hashed and what the request hashes.
   */
  lemma WriteDuringDemotionIsKeptIff(d: Store, f: Flat, b: nat, path: Path, page: nat, count: nat)
    requires StoreInv(d, f) && d.sys.w.Demoting?
    requires page < 0x10_0000 && CheckPio(page, count) && count > 0
    ensures (forall data: seq<Data> :: |data| == count ==> KeptByDemotion(d, f, b, path, page, data))
            <==> && KeyOf(path, page) != FlightKey(d)
                 && (d.io.Trimmed? || TrimSparesWrite(d, b, KeyOf(path, page), Overwritable(page % PAGES, count)))
  {
    var data := Different(f, KeyOf(path, page), page % PAGES, count);
    if KeyOf(path, page) == FlightKey(d) {
      VictimWriteIsLost(d, f, b, path, page, data);
    } else if d.io.Trimmed? || TrimSparesWrite(d, b, KeyOf(path, page), Overwritable(page % PAGES, count)) {
      forall data: seq<Data> | |data| == count
        ensures KeptByDemotion(d, f, b, path, page, data)
      {
        OtherWriteIsKept(d, f, b, path, page, data);
      }
    } else {
      TrimmedWriteIsNotKept(d, f, b, path, page, data);
    }
  }

  // ---------------------------------------------------------------- writes during a promotion

  /** The rest of a promotion whose image is in the DMA buffer or already on the SSD. */
  ghost function FinishPromotion(d: Store): Store
    requires StoreSane(d) && d.sys.w.Promoting?
  {
    d.(ssd := if d.io.Loaded? then d.ssd[d.sys.w.cblock := d.io.buf] else d.ssd,
       sys := Apply(d.sys, PromotionDone(true)), io := NotStarted)
  }

  ghost predicate KeptByPromotion(d: Store, f: Flat, path: Path, page: nat, data: seq<Data>)
    requires StoreSane(d) && d.sys.w.Promoting? && page < U32 && page % PAGES + |data| <= PAGES
  {
    var e := DoWrite(d, KeyOf(path, page), page % PAGES, data);
    && StoreSane(e) && e.sys.w == d.sys.w
    && AllCurrent(FinishPromotion(e), FlatWrite(f, path, page, data))
  }

  lemma FinishPromotionStep(d: Store, f: Flat)
    requires StoreInv(d, f) && d.sys.w.Promoting? && !d.io.NotStarted?
    ensures StoreSane(FinishPromotion(d)) && StoreInv(FinishPromotion(d), f)
  {
    PromotionTransfer(d, f);
    if d.io.Loaded? {
      EndPromotionStep(d.(io := Stored, ssd := d.ssd[d.sys.w.cblock := d.io.buf]), f, true);
    } else {
      EndPromotionStep(d, f, true);
    }
  }

  lemma FinishedPromotionIsCurrent(e: Store, g: Flat)
    requires StoreInv(e, g) && e.sys.w.Promoting? && !e.io.NotStarted?
    ensures StoreSane(FinishPromotion(e)) && AllCurrent(FinishPromotion(e), g)
  {
    FinishPromotionStep(e, g);
    InvIsAllCurrent(FinishPromotion(e), g);
  }

  lemma OtherWriteIsKeptByPromotion(d: Store, f: Flat, path: Path, page: nat, data: seq<Data>)
    requires StoreInv(d, f) && d.sys.w.Promoting? && !d.io.NotStarted?
    requires page < 0x10_0000 && CheckPio(page, |data|) && KeyOf(path, page) != FlightKey(d)
    ensures KeptByPromotion(d, f, path, page, data)
  {
    WriteStep(d, f, path, page, data);
    WriteKeepsMigration(d, KeyOf(path, page), page % PAGES, data);
    FinishedPromotionIsCurrent(DoWrite(d, KeyOf(path, page), page % PAGES, data), FlatWrite(f, path, page, data));
  }

  /** A write to the key under promotion finds it queued but not hashed and goes to the origin. */
  lemma PromotedKeyIsWrittenToOrigin(d: Store, k: Key, at: nat, data: seq<Data>)
    requires ProtocolInv(d.sys) && StoreSane(d) && d.sys.w.Promoting? && at + |data| <= PAGES && k == FlightKey(d)
    ensures DoWrite(d, k, at, data) == d.(origin := d.origin[k := Patch(d.origin[k], at, data)])
  {
    PromotedKeyIsUnhashed(d.sys);
    FindIsExact(d.sys.m, k);
    assert k in d.sys.queue;
    Queue.QueuedIsContained(d.sys.queue, k);
  }

  /** After a promotion its key is served from the promoted entry. */
  lemma PromotedKeyIsServedFromSsd(e: Store)
    requires ProtocolInv(e.sys) && StoreSane(e) && e.sys.w.Promoting? && e.sys.w.cblock !in e.unwritten
    ensures StoreSane(FinishPromotion(e)) && Served(FinishPromotion(e), FlightKey(e))
    ensures Visible(FinishPromotion(e), FlightKey(e)) == FinishPromotion(e).ssd[e.sys.w.cblock]
  {
    var e' := FinishPromotion(e);
    PromotedKeyIsUnhashed(e.sys);
    StepKeepsInv(e.sys, PromotionDone(true));
    PromotionCompleteKeepsInv(e.sys.m, e.sys.w.cblock, true);
    FindIsExact(e'.sys.m, FlightKey(e));
  }

  lemma PromotedWriteIsLost(d: Store, f: Flat, path: Path, page: nat, data: seq<Data>)
    requires StoreInv(d, f) && d.sys.w.Promoting? && !d.io.NotStarted?
    requires page < 0x10_0000 && CheckPio(page, |data|) && KeyOf(path, page) == FlightKey(d)
    requires Patch(FlatBlock(f, FlightKey(d)), page % PAGES, data) != FlatBlock(f, FlightKey(d))
    ensures !KeptByPromotion(d, f, path, page, data)
  {
    PromotedKeyIsWrittenToOrigin(d, FlightKey(d), page % PAGES, data);
    PromotedKeyIsServedFromSsd(DoWrite(d, FlightKey(d), page % PAGES, data));
    FlatWriteIsPatch(f, path, page, data, FlightKey(d));
  }

  /**
   * Once the image of a promotion has been read, a request survives the promotion whatever
   * it writes iff it is for another block.
   */
  lemma WriteDuringPromotionIsKeptIff(d: Store, f: Flat, path: Path, page: nat, count: nat)
    requires StoreInv(d, f) && d.sys.w.Promoting? && !d.io.NotStarted?
    requires page < 0x10_0000 && CheckPio(page, count) && count > 0
    ensures (forall data: seq<Data> :: |data| == count ==> KeptByPromotion(d, f, path, page, data))
            <==> KeyOf(path, page) != FlightKey(d)
  {
    if KeyOf(path, page) != FlightKey(d) {
      forall data: seq<Data> | |data| == count
        ensures KeptByPromotion(d, f, path, page, data)
      {
        OtherWriteIsKeptByPromotion(d, f, path, page, data);
      }
    } else {
      var data := Different(f, FlightKey(d), page % PAGES, count);
      PromotedWriteIsLost(d, f, path, page, data);
    }
  }
}
