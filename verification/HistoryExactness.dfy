/**
 * `KeepsOrigin` is exact. A safe step leaves only blocks that their keys had before at the
 * origin, whatever the devices hold and whatever has happened so far, iff it keeps to it.
 */
module HistoryExactness {
  import opened CacheTypes
  import opened CacheStore
  import opened FlatStore
  import opened MappingTable
  import opened RequestSteps
  import opened DiscardHistory
  import opened Exactness

  /** The step keeps the origin a picture of the past. */
  ghost predicate KeepsPast(d: Store, f: Flat, before: seq<Event>, op: Op)
    requires StoreSane(d) && CanDo(d, op)
  {
    StoreSane(Do(d, op)) && OriginIsPast(Do(d, op), f, before + [EventOf(d, op)])
  }

  /** A good state whose origin holds blocks of the past. */
  ghost predicate HasPast(d: Store, f: Flat, before: seq<Event>) {
    StoreInv(d, Replay(f, before)) && OriginIsPast(d, f, before)
  }

  lemma KeepsOriginIsControl(d: Store, e: Store, op: Op)
    requires StoreSane(d) && StoreSane(e) && SameControl(d, e) && CanDo(d, op) && CanDo(e, op)
    ensures KeepsOrigin(d, op) <==> KeepsOrigin(e, op)
  {
  }

  /** The step leaves something at the origin, or in hand for it, that is of no time. */
  ghost predicate CanLeaveGarbage(d: Store, op: Op)
    requires StoreSane(d) && CanDo(d, op)
  {
    exists e: Store, f: Flat, before: seq<Event> ::
      SameControl(d, e) && HasPast(e, f, before) && CanDo(e, op) && !KeepsPast(e, f, before, op)
  }

  lemma LeavesGarbage(d: Store, op: Op, e: Store, f: Flat, before: seq<Event>)
    requires StoreSane(d) && CanDo(d, op)
    requires SameControl(d, e) && HasPast(e, f, before) && (CanDo(e, op) ==> !KeepsPast(e, f, before, op))
    ensures CanLeaveGarbage(d, op)
  {
    SafeIsControl(d, e, op);
  }

  // ---------------------------------------------------------------- a write-back reads too early

  lemma PictureHasPast(d: Store, f: Flat, g: Flat, c: nat, junk: Block)
    requires StoreInv(d, f) && c in d.unwritten && c < |d.ssd| && !d.io.Loaded?
    ensures HasPast(Spoiled(d, g, c, junk), g, []) && SameControl(d, Spoiled(d, g, c, junk))
  {
    SpoiledIsGood(d, f, g, c, junk);
    forall k: Key
      ensures WasHeld(g, [], k, Spoiled(d, g, c, junk).origin[k])
    {
      HeldNow(g, [], k, FlatBlock(g, k));
    }
  }

  /** Nothing but the present was ever held. */
  lemma NeverHeld(f: Flat, k: Key, b: Block)
    requires b != FlatBlock(f, k)
    ensures !WasHeld(f, [Internal], k, b)
  {
    forall i: nat | i <= 1
      ensures Replay(f, [Internal][..i]) == f
    {
      assert [Internal][..i] == [] || [Internal][..i] == [Internal];
    }
  }

  lemma EarlyLoadLeavesGarbage(d: Store, f: Flat, op: Op)
    requires StoreInv(d, f) && op.WritebackLoad? && CanDo(d, op) && !KeepsOrigin(d, op)
    ensures CanLeaveGarbage(d, op)
  {
    var c, g := d.sys.w.cblock, Flood(0);
    var e := Spoiled(d, g, c, Even(7));
    PictureHasPast(d, f, g, c, Even(7));
    FloodIsEven(0, FlightKey(d));
    assert Even(7)[0] != Even(0)[0];
    NeverHeld(g, FlightKey(d), Even(7));
    LoadShows(d, op, e, g);
  }

  lemma LoadShows(d: Store, op: Op, e: Store, g: Flat)
    requires StoreSane(d) && op.WritebackLoad? && CanDo(d, op) && SameControl(d, e) && HasPast(e, g, [])
    requires !WasHeld(g, [Internal], FlightKey(d), e.ssd[d.sys.w.cblock])
    ensures CanLeaveGarbage(d, op)
  {
    SafeIsControl(d, e, op);
    LoadsGarbage(e, g, op, FlightKey(d));
    LeavesGarbage(d, op, e, g, []);
  }

  lemma LoadsGarbage(e: Store, g: Flat, op: Op, k: Key)
    requires StoreSane(e) && op.WritebackLoad? && CanDo(e, op) && k == FlightKey(e)
    requires !WasHeld(g, [Internal], k, e.ssd[e.sys.w.cblock])
    ensures !KeepsPast(e, g, [], op)
  {
    assert [] + [EventOf(e, op)] == [Internal];
  }

  // ---------------------------------------------------------------- a part of a block at the origin

  /** One block has gone from `v + 1` to `v`, everything else has been `v + 1` for ever. */
  ghost function Fall(k: Key, v: Data): seq<Event> {
    [DidDiscard(k, Even(v))]
  }

  lemma FallenBlock(k: Key, v: Data, k': Key)
    requires PAGES * k.index < U32
    ensures FlatBlock(Replay(Flood(v + 1), Fall(k, v)), k') == if k' == k then Even(v) else Even(v + 1)
  {
    assert Fall(k, v)[..0] == [];
    FloodIsEven(v + 1, k');
    DiscardPatches(Flood(v + 1), k, Even(v));
  }

  /** The picture of that, with the block at the origin as it was before its fall. */
  ghost function Fallen(d: Store, k: Key, v: Data): Store
    requires StoreSane(d)
  {
    WithOrigin(Picture(d, Replay(Flood(v + 1), Fall(k, v))), k, Even(v + 1))
  }

  lemma FallenHasPast(d: Store, f: Flat, k: Key, v: Data)
    requires StoreInv(d, f) && PAGES * k.index < U32 && !OriginServes(d, k)
    ensures HasPast(Fallen(d, k, v), Flood(v + 1), Fall(k, v)) && SameControl(d, Fallen(d, k, v))
    ensures Fallen(d, k, v).origin[k] == Even(v + 1)
  {
    var g := Replay(Flood(v + 1), Fall(k, v));
    PictureIsGood(d, f, g);
    OriginIsAnything(Picture(d, g), g, k, Even(v + 1));
    forall k': Key
      ensures WasHeld(Flood(v + 1), Fall(k, v), k', Fallen(d, k, v).origin[k'])
    {
      FallenBlock(k, v, k');
      FloodIsEven(v + 1, k');
      assert HeldAt(Flood(v + 1), Fall(k, v), k', Even(v + 1), 0);
    }
    if d.sys.w.WritingBack? && d.io.Loaded? {
      HeldNow(Flood(v + 1), Fall(k, v), FlightKey(d), FlatBlock(g, FlightKey(d)));
    }
  }

  /** The old block with the new pages in it has never been there. */
  lemma MixtureIsNew(k: Key, v: Data, path: Path, page: nat, data: seq<Data>)
    requires PAGES * k.index < U32 && page < U32 && k == KeyOf(path, page) && page % PAGES + |data| <= PAGES
    requires data != [] && v == Above(data) && !Overwritable(page % PAGES, |data|)
    ensures !WasHeld(Flood(v + 1), Fall(k, v) + [DidWrite(path, page, data)], k, Patch(Even(v + 1), page % PAGES, data))
  {
    MixtureDiffers(v, page % PAGES, data);
    FloodIsEven(v + 1, k);
    FallenBlock(k, v, k);
    FallenThenWritten(k, v, path, page, data);
    NotHeldInTwo(Flood(v + 1), Fall(k, v), DidWrite(path, page, data), k, Patch(Even(v + 1), page % PAGES, data));
  }

  lemma FallenThenWritten(k: Key, v: Data, path: Path, page: nat, data: seq<Data>)
    requires PAGES * k.index < U32 && page < U32 && k == KeyOf(path, page) && page % PAGES + |data| <= PAGES
    ensures FlatBlock(Replay(Flood(v + 1), Fall(k, v) + [DidWrite(path, page, data)]), k) ==
            Patch(Even(v), page % PAGES, data)
  {
    FallenBlock(k, v, k);
    ReplayOneMore(Flood(v + 1), Fall(k, v), DidWrite(path, page, data));
    FlatWriteIsPatch(Replay(Flood(v + 1), Fall(k, v)), path, page, data, k);
  }

  lemma NotHeldInTwo(f: Flat, first: seq<Event>, second: Event, k: Key, b: Block)
    requires |first| == 1 && FlatBlock(f, k) != b
    requires FlatBlock(Replay(f, first), k) != b && FlatBlock(Replay(f, first + [second]), k) != b
    ensures !WasHeld(f, first + [second], k, b)
  {
    var events := first + [second];
    forall i: nat | i <= |events|
      ensures FlatBlock(Replay(f, events[..i]), k) != b
    {
      assert events[..i] == if i == 0 then [] else if i == 1 then first else events;
    }
  }

  lemma MixtureDiffers(v: Data, at: nat, data: seq<Data>)
    requires at < PAGES && at + |data| <= PAGES && data != [] && v == Above(data) && !Overwritable(at, |data|)
    ensures var b := Patch(Even(v + 1), at, data);
            b != Even(v + 1) && b != Even(v) && b != Patch(Even(v), at, data)
  {
    assert data[0] in data;
    assert Patch(Even(v + 1), at, data)[at] == data[0];
    assert Even(v + 1)[at] == v + 1 && Even(v)[at] == v;
    PartialPatches(v, at, data);
  }

  lemma PartLeavesGarbage(d: Store, f: Flat, op: Op)
    requires StoreInv(d, f) && op.Transfer? && CanDo(d, op) && Safe(d, op) && !KeepsOrigin(d, op)
    ensures CanLeaveGarbage(d, op)
  {
    var p := d.users[op.u];
    assert UserSane(p, |d.ssd|);
    PartIsUnsettled(d, f, op.u, KeyOf(p.path, p.page));
    PartOverFallen(d, f, op, KeyOf(p.path, p.page));
  }

  lemma PartOverFallen(d: Store, f: Flat, op: Op, k: Key)
    requires StoreInv(d, f) && op.Transfer? && IsToWrite(d, op.u, k, None) && !OriginServes(d, k)
    requires PAGES * k.index < U32 && !Overwritable(d.users[op.u].page % PAGES, |d.users[op.u].data|)
    ensures CanLeaveGarbage(d, op)
  {
    var v := Above(d.users[op.u].data);
    FallenHasPast(d, f, k, v);
    PartIsNew(d, op.u, k, v);
    MixtureShows(d, op, k, v, Fallen(d, k, v));
  }

  lemma PartIsNew(d: Store, u: nat, k: Key, v: Data)
    requires IsToWrite(d, u, k, None) && PAGES * k.index < U32 && v == Above(d.users[u].data)
    requires !Overwritable(d.users[u].page % PAGES, |d.users[u].data|)
    ensures var p := d.users[u];
            !WasHeld(Flood(v + 1), Fall(k, v) + [DidWrite(p.path, p.page, p.data)], k,
                     Patch(Even(v + 1), p.page % PAGES, p.data))
  {
    var p := d.users[u];
    MixtureIsNew(k, v, p.path, p.page, p.data);
  }

  lemma MixtureShows(d: Store, op: Op, k: Key, v: Data, e: Store)
    requires StoreSane(d) && op.Transfer? && IsToWrite(d, op.u, k, None)
    requires SameControl(d, e) && HasPast(e, Flood(v + 1), Fall(k, v)) && e.origin[k] == Even(v + 1)
    requires var p := d.users[op.u];
             !WasHeld(Flood(v + 1), Fall(k, v) + [DidWrite(p.path, p.page, p.data)], k,
                      Patch(Even(v + 1), p.page % PAGES, p.data))
    ensures CanLeaveGarbage(d, op)
  {
    SafeIsControl(d, e, op);
    WritesMixture(e, op, k, v);
    LeavesGarbage(d, op, e, Flood(v + 1), Fall(k, v));
  }

  lemma PartIsUnsettled(d: Store, f: Flat, u: nat, k: Key)
    requires StoreInv(d, f) && CanDo(d, Transfer(u)) && !KeepsOriginTransfer(d, u)
    requires UserSane(d.users[u], |d.ssd|) && d.users[u].ToWrite? && k == KeyOf(d.users[u].path, d.users[u].page)
    ensures !OriginServes(d, k) && IsToWrite(d, u, k, None) && PAGES * k.index < U32
    ensures !Overwritable(d.users[u].page % PAGES, |d.users[u].data|)
  {
    FindIsExact(d.sys.m, k);
    assert d.users[u].page == PAGES * (d.users[u].page / PAGES) + d.users[u].page % PAGES;
  }

  lemma WritesMixture(e: Store, op: Op, k: Key, v: Data)
    requires StoreSane(e) && op.Transfer? && CanDo(e, op) && IsToWrite(e, op.u, k, None)
    requires var p := e.users[op.u];
             && e.origin[k] == Even(v + 1)
             && !WasHeld(Flood(v + 1), Fall(k, v) + [DidWrite(p.path, p.page, p.data)], k,
                         Patch(Even(v + 1), p.page % PAGES, p.data))
    ensures !KeepsPast(e, Flood(v + 1), Fall(k, v), op)
  {
    assert Do(e, op).origin[k] == Patch(Even(v + 1), e.users[op.u].page % PAGES, e.users[op.u].data);
  }

  // ---------------------------------------------------------------- the theorem

  /**
   * A safe step keeps the origin a picture of the past, for all contents of the devices and
   * all histories that have it so, iff it satisfies `KeepsOrigin`.
   */
  lemma KeepsOriginIsExact(d: Store, f: Flat, op: Op)
    requires StoreInv(d, f) && CanDo(d, op) && Safe(d, op)
    ensures (forall e: Store, h: Flat, before: seq<Event> ::
               SameControl(d, e) && HasPast(e, h, before) && CanDo(e, op) ==> KeepsPast(e, h, before, op))
            <==> KeepsOrigin(d, op)
  {
    if KeepsOrigin(d, op) {
      forall e: Store, h: Flat, before: seq<Event> | SameControl(d, e) && HasPast(e, h, before) && CanDo(e, op)
        ensures KeepsPast(e, h, before, op)
      {
        SafeIsControl(d, e, op);
        KeepsOriginIsControl(d, e, op);
        StepKeepsPast(e, h, before, op);
      }
    } else if op.WritebackLoad? {
      EarlyLoadLeavesGarbage(d, f, op);
    } else {
      PartLeavesGarbage(d, f, op);
    }
  }
}
