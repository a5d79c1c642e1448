/**
 * Every step of a user, a whole request or a part of one, keeps the store a picture of the
 * flat store.
 */
module RequestSteps {
  import opened CacheTypes
  import opened CacheStore
  import opened FlatStore
  import opened MappingState
  import opened MappingTable
  import opened MappingInvariant
  import opened Protocol
  import Queue = QueueSpec

  /** `g` is `f` with block `b` under `k`. */
  ghost predicate Patched(f: Flat, g: Flat, k: Key, b: Block) {
    forall k': Key :: FlatBlock(g, k') == if k' == k then b else FlatBlock(f, k')
  }

  lemma WritePatches(f: Flat, path: Path, page: nat, data: seq<Data>)
    requires page < U32 && page % PAGES + |data| <= PAGES
    ensures Patched(f, FlatWrite(f, path, page, data), KeyOf(path, page),
                    Patch(FlatBlock(f, KeyOf(path, page)), page % PAGES, data))
  {
    forall k: Key
      ensures FlatBlock(FlatWrite(f, path, page, data), k) ==
              if k == KeyOf(path, page) then Patch(FlatBlock(f, k), page % PAGES, data) else FlatBlock(f, k)
    {
      FlatWriteIsPatch(f, path, page, data, k);
    }
  }

  /** The two mappings hash the same entries under the same keys. */
  ghost predicate SameTable(s: State, t: State) {
    && Bounded(s) && Bounded(t) && |s.cells| == |t.cells|
    && (forall i :: 0 <= i < |s.cells| ==> (Hashed(t, i) <==> Hashed(s, i)))
    && (forall i :: 0 <= i < |s.cells| && Hashed(s, i) ==> t.cells[i].key == s.cells[i].key)
  }

  ghost predicate SameView(s: State, t: State) {
    && SameTable(s, t)
    && (forall i :: 0 <= i < |s.cells| ==> t.cells[i].key == s.cells[i].key && t.cells[i].dirty == s.cells[i].dirty)
  }

  lemma SameTableSameKeys(s: State, t: State, k: Key)
    requires SameTable(s, t)
    ensures KeyHashed(t, k) <==> KeyHashed(s, k)
  {
    if KeyHashed(s, k) {
      var i :| 0 <= i < |s.cells| && Hashed(s, i) && s.cells[i].key == k;
      assert Hashed(t, i);
    }
    if KeyHashed(t, k) {
      var i :| 0 <= i < |t.cells| && Hashed(t, i) && t.cells[i].key == k;
      assert Hashed(s, i);
    }
  }

  /** A step that changes neither the view nor the data nor the migration in flight. */
  lemma QuietStep(d: Store, t: Sys, f: Flat)
    requires StoreInv(d, f) && ProtocolInv(t) && SameView(d.sys.m, t.m)
    requires t.w == d.sys.w || (!t.w.Busy() && !d.sys.w.Busy())
    ensures StoreSane(d.(sys := t)) && StoreInv(d.(sys := t), f)
  {
    forall k: Key | !KeyHashed(t.m, k)
      ensures d.origin[k] == FlatBlock(f, k)
    {
      SameTableSameKeys(d.sys.m, t.m, k);
    }
  }

  lemma LookupIsQuiet(s: Sys, k: Key)
    requires ProtocolInv(s)
    ensures ProtocolInv(ApplyLookup(s, k)) && SameView(s.m, ApplyLookup(s, k).m)
    ensures ApplyLookup(s, k).w == s.w && ApplyLookup(s, k).m.cells == s.m.cells
  {
    LookupStep(s, k);
    LookupKeepsInv(s.m, k);
  }

  // ---------------------------------------------------------------- reads

  /** Every block that can be served is the current one. */
  lemma VisibleIsCurrent(d: Store, f: Flat, k: Key)
    requires StoreInv(d, f)
    requires Served(d, k)
    ensures Visible(d, k) == FlatBlock(f, k)
  {
    FindIsExact(d.sys.m, k);
  }

  lemma ReadIsFlatRead(d: Store, f: Flat, path: Path, page: nat, count: nat)
    requires StoreInv(d, f) && page < 0x10_0000 && CheckPio(page, count)
    requires count > 0 && Safe(d, Read(path, page, count))
    ensures ReadResult(d, KeyOf(path, page), page % PAGES, count) == FlatRead(f, path, page, count)
  {
    VisibleIsCurrent(d, f, KeyOf(path, page));
    FlatReadIsSlice(f, path, page, count);
  }

  // ---------------------------------------------------------------- writes

  /** What a write that hits entry `c` does to the state. */
  ghost predicate HitBy(d: Store, e: Store, k: Key, c: nat, at: nat, data: seq<Data>) {
    && StoreSane(d) && StoreSane(e) && at + |data| <= PAGES && c < |d.ssd|
    && Hashed(d.sys.m, c) && d.sys.m.cells[c].key == k
    && e.sys.m.cells == d.sys.m.cells[c := d.sys.m.cells[c].(dirty := true)]
    && (forall i :: 0 <= i < |d.ssd| ==> (Hashed(e.sys.m, i) <==> Hashed(d.sys.m, i)))
    && e.sys.w == d.sys.w && e.io == d.io && e.origin == d.origin && e.users == d.users
    && e.ssd == d.ssd[c := Patch(d.ssd[c], at, data)]
    && e.unwritten == (if Overwritable(at, |data|) then d.unwritten - {c} else d.unwritten)
  }

  lemma FullPatch(b: Block, at: nat, data: seq<Data>)
    requires at + |data| <= PAGES && Overwritable(at, |data|)
    ensures Patch(b, at, data) == data
  {
  }

  /** The two sections of a write that hits: the lookup, then marking the entry dirty. */
  lemma HitSections(s: Sys, k: Key, full: bool)
    requires ProtocolInv(s) && Find(s.m, k).Some?
    ensures WriteTarget(s, k, full) == Find(s.m, k)
    ensures var c, u := Find(s.m, k).value, AfterWriteLookup(s, k, full);
            c < |u.m.cells|
            && var t := u.(m := SetDirtyAfterWrite(u.m, c));
            && ProtocolInv(t) && t.w == s.w && Hashed(s.m, c) && s.m.cells[c].key == k
            && t.m.cells == s.m.cells[c := s.m.cells[c].(dirty := true)]
            && (forall i :: 0 <= i < |s.m.cells| ==> (Hashed(t.m, i) <==> Hashed(s.m, i)))
  {
    var c, u := Find(s.m, k).value, ApplyLookup(s, k);
    FindIsExact(s.m, k);
    LookupIsQuiet(s, k);
    SetDirtyStep(u, c);
    SetDirtyKeepsInv(u.m, c);
  }

  /** A write that hits, whether or not it covers its block, changes the hit entry only. */
  lemma HitForm(d: Store, k: Key, at: nat, data: seq<Data>)
    requires ProtocolInv(d.sys) && StoreSane(d) && at + |data| <= PAGES && Find(d.sys.m, k).Some?
    ensures var e := DoWrite(d, k, at, data);
            ProtocolInv(e.sys) && HitBy(d, e, k, Find(d.sys.m, k).value, at, data)
  {
    HitSections(d.sys, k, Overwritable(at, |data|));
    HitIsSane(d, DoWrite(d, k, at, data));
  }

  /** A state that differs in flags and contents only is as well-formed. */
  lemma HitIsSane(d: Store, e: Store)
    requires StoreSane(d) && Sane(e.sys) && |e.sys.m.cells| == |d.sys.m.cells| && e.sys.w == d.sys.w
    requires |e.ssd| == |d.ssd| && e.users == d.users && e.io == d.io
    ensures StoreSane(e)
  {
  }

  lemma WriteHitData(d: Store, f: Flat, g: Flat, k: Key, at: nat, data: seq<Data>, e: Store)
    requires StoreInv(d, f) && at + |data| <= PAGES && Find(d.sys.m, k).Some?
    requires Patched(f, g, k, Patch(FlatBlock(f, k), at, data))
    requires d.sys.w.Demoting? || (d.sys.w.Promoting? && !d.io.NotStarted?) ==> k != FlightKey(d)
    requires ProtocolInv(e.sys) && HitBy(d, e, k, Find(d.sys.m, k).value, at, data)
    ensures StoreInv(e, g)
  {
    var c := Find(d.sys.m, k).value;
    FindIsExact(d.sys.m, k);
    HitOthers(d, f, g, k, at, data, e, c);
    HitFlight(d, f, g, k, at, data, e, c);
    HitUncached(d, f, g, k, at, data, e, c);
  }

  lemma HitOthers(d: Store, f: Flat, g: Flat, k: Key, at: nat, data: seq<Data>, e: Store, c: nat)
    requires StoreInv(d, f) && HitBy(d, e, k, c, at, data)
    requires Patched(f, g, k, Patch(FlatBlock(f, k), at, data))
    requires d.sys.w.Demoting? ==> k != FlightKey(d)
    ensures CachedCurrent(e, g) && CleanCurrent(e, g)
  {
    OthersHaveOtherKeys(d.sys.m, c);
    if Overwritable(at, |data|) {
      FullPatch(d.ssd[c], at, data);
      FullPatch(FlatBlock(f, k), at, data);
    }
  }

  lemma HitFlight(d: Store, f: Flat, g: Flat, k: Key, at: nat, data: seq<Data>, e: Store, c: nat)
    requires StoreInv(d, f) && HitBy(d, e, k, c, at, data)
    requires Patched(f, g, k, Patch(FlatBlock(f, k), at, data))
    requires d.sys.w.Demoting? || (d.sys.w.Promoting? && !d.io.NotStarted?) ==> k != FlightKey(d)
    ensures FlightCurrent(e, g)
  {
    OthersHaveOtherKeys(d.sys.m, c);
  }

  lemma HitUncached(d: Store, f: Flat, g: Flat, k: Key, at: nat, data: seq<Data>, e: Store, c: nat)
    requires StoreInv(d, f) && HitBy(d, e, k, c, at, data)
    requires Patched(f, g, k, Patch(FlatBlock(f, k), at, data))
    ensures UncachedCurrent(e, g)
  {
    forall k': Key
      ensures KeyHashed(d.sys.m, k') ==> KeyHashed(e.sys.m, k')
    {
      HashingGrows(d.sys.m, e.sys.m, k');
    }
    assert KeyHashed(d.sys.m, k);
  }

  /** What is hashed under the same keys stays found. */
  lemma HashingGrows(s: State, t: State, k: Key)
    requires Bounded(s) && Bounded(t) && |s.cells| == |t.cells|
    requires forall i :: 0 <= i < |s.cells| && Hashed(s, i) ==> Hashed(t, i) && t.cells[i].key == s.cells[i].key
    ensures KeyHashed(s, k) ==> KeyHashed(t, k)
  {
    if KeyHashed(s, k) {
      var i :| 0 <= i < |s.cells| && Hashed(s, i) && s.cells[i].key == k;
      assert Hashed(t, i);
    }
  }

  /** A full write of an uncached, unqueued block hashes one fresh dirty entry. */
  lemma InsertForm(s: Sys, k: Key)
    requires ProtocolInv(s) && Find(s.m, k).None? && !Queue.Contains(s.queue, k) && s.m.free != []
    ensures var c := s.m.free[0];
            && c < |s.m.cells| && !Hashed(s.m, c) && !s.m.cells[c].alloc && !KeyHashed(s.m, k)
            && var t := s.(m := SetDirtyAfterWrite(InsertDirty(s.m, k), c));
               && ProtocolInv(t) && t.m.cells == s.m.cells[c := Cell(false, true, true, k)]
               && forall i :: 0 <= i < |s.m.cells| ==> (Hashed(t.m, i) <==> Hashed(s.m, i) || i == c)
  {
    InsertionForm(s, k);
    MarkingForm(s.(m := InsertDirty(s.m, k)), s.m.free[0]);
  }

  /** An insertion hashes the head of the free list, dirty. */
  lemma InsertionForm(s: Sys, k: Key)
    requires ProtocolInv(s) && Find(s.m, k).None? && !Queue.Contains(s.queue, k) && s.m.free != []
    ensures var c, m := s.m.free[0], InsertDirty(s.m, k);
            && c < |s.m.cells| && !Hashed(s.m, c) && !s.m.cells[c].alloc && !KeyHashed(s.m, k)
            && ProtocolInv(s.(m := m)) && m.cells == s.m.cells[c := Cell(false, true, true, k)]
            && forall i :: 0 <= i < |s.m.cells| ==> (Hashed(m, i) <==> Hashed(s.m, i) || i == c)
  {
    FindIsExact(s.m, k);
    InsertStep(s, k);
    InsertDirtyKeepsInv(s.m, k);
  }

  lemma MarkingForm(s: Sys, c: nat)
    requires ProtocolInv(s) && c < |s.m.cells| && s.m.cells[c].alloc
    ensures var t := s.(m := SetDirtyAfterWrite(s.m, c));
            && ProtocolInv(t) && t.m.cells == s.m.cells[c := s.m.cells[c].(dirty := true)]
            && forall i :: 0 <= i < |s.m.cells| ==> (Hashed(t.m, i) <==> Hashed(s.m, i))
  {
    SetDirtyStep(s, c);
    SetDirtyKeepsInv(s.m, c);
  }

  lemma WriteInsert(d: Store, f: Flat, g: Flat, k: Key, data: Block)
    requires StoreInv(d, f)
    requires Find(d.sys.m, k).None? && !Queue.Contains(d.sys.queue, k) && d.sys.m.free != []
    requires Patched(f, g, k, data)
    ensures d.sys.m.free[0] < |d.ssd|
    ensures var c := d.sys.m.free[0];
            var s := d.sys.(m := InsertDirty(d.sys.m, k));
            var e := d.(sys := s.(m := SetDirtyAfterWrite(s.m, c)), ssd := d.ssd[c := data],
                        unwritten := d.unwritten - {c});
            StoreSane(e) && StoreInv(e, g)
  {
    var c := d.sys.m.free[0];
    InsertForm(d.sys, k);
    Queue.QueuedIsContained(d.sys.queue, k);
    var t := d.sys.(m := SetDirtyAfterWrite(InsertDirty(d.sys.m, k), c));
    WriteInsertData(d, f, g, k, data, d.(sys := t, ssd := d.ssd[c := data], unwritten := d.unwritten - {c}), c);
  }

  lemma WriteInsertData(d: Store, f: Flat, g: Flat, k: Key, data: Block, e: Store, c: nat)
    requires StoreInv(d, f) && !KeyHashed(d.sys.m, k) && Patched(f, g, k, data)
    requires c < |d.ssd| && !Hashed(d.sys.m, c) && !d.sys.m.cells[c].alloc
    requires d.sys.w.Promoting? ==> d.sys.w.key != k
    requires ProtocolInv(e.sys) && StoreSane(e)
    requires e.sys.m.cells == d.sys.m.cells[c := Cell(false, true, true, k)]
    requires forall i :: 0 <= i < |d.ssd| ==> (Hashed(e.sys.m, i) <==> Hashed(d.sys.m, i) || i == c)
    requires e.sys.w == d.sys.w && e.io == d.io && e.origin == d.origin && e.ssd == d.ssd[c := data]
    requires e.users == d.users && e.unwritten == d.unwritten - {c}
    ensures StoreInv(e, g)
  {
    InsertedFlight(d, f, g, k, data, e, c);
    InsertedUncached(d, f, g, Some(data), k, e, c);
    FilledCached(d, f, g, k, data, e, c);
    FilledClean(d, f, g, k, data, e, c);
    FilledWritten(d, k, data, e, c);
  }

  /** `e` is `d` with free block `c` hashed under the uncached key `k` and filled with `data`. */
  ghost predicate FilledAs(d: Store, e: Store, k: Key, data: Block, c: nat) {
    && StoreSane(d) && StoreSane(e) && c < |d.ssd| && !Hashed(d.sys.m, c)
    && (forall i :: 0 <= i < |d.ssd| && Hashed(d.sys.m, i) ==> d.sys.m.cells[i].key != k)
    && e.sys.m.cells == d.sys.m.cells[c := Cell(false, true, true, k)]
    && (forall i :: 0 <= i < |d.ssd| ==> (Hashed(e.sys.m, i) <==> Hashed(d.sys.m, i) || i == c))
    && e.sys.w == d.sys.w && e.io == d.io && e.origin == d.origin && e.ssd == d.ssd[c := data]
    && e.users == d.users && e.unwritten == d.unwritten - {c}
  }

  lemma FilledCached(d: Store, f: Flat, g: Flat, k: Key, data: Block, e: Store, c: nat)
    requires FilledAs(d, e, k, data, c) && CachedCurrent(d, f) && Patched(f, g, k, data)
    ensures CachedCurrent(e, g)
  {
    forall i | 0 <= i < |e.ssd| && Hashed(e.sys.m, i) && Current(e, i, e.sys.m.cells[i].key)
      ensures e.ssd[i] == FlatBlock(g, e.sys.m.cells[i].key)
    {
      if i != c {
        assert Current(d, i, d.sys.m.cells[i].key);
      }
    }
  }

  lemma FilledClean(d: Store, f: Flat, g: Flat, k: Key, data: Block, e: Store, c: nat)
    requires FilledAs(d, e, k, data, c) && CleanCurrent(d, f) && Patched(f, g, k, data)
    ensures CleanCurrent(e, g)
  {
    forall i | 0 <= i < |e.ssd| && Hashed(e.sys.m, i) && i != c
      ensures Hashed(d.sys.m, i) && Unsettled(e, i) == Unsettled(d, i)
    {
    }
  }

  lemma FilledWritten(d: Store, k: Key, data: Block, e: Store, c: nat)
    requires FilledAs(d, e, k, data, c) && UnwrittenHashed(d)
    ensures UnwrittenHashed(e)
  {
  }

  /** A fresh entry under `k`, with or without its data, leaves the other keys at the origin. */
  lemma InsertedUncached(d: Store, f: Flat, g: Flat, data: Option<Block>, k: Key, e: Store, c: nat)
    requires StoreSane(d) && UncachedCurrent(d, f) && StoreSane(e) && c < |d.ssd| && !Hashed(d.sys.m, c)
    requires if data.Some? then Patched(f, g, k, data.value) else g == f
    requires e.sys.m.cells == d.sys.m.cells[c := Cell(false, true, true, k)]
    requires forall i :: 0 <= i < |d.ssd| ==> (Hashed(e.sys.m, i) <==> Hashed(d.sys.m, i) || i == c)
    requires e.origin == d.origin
    ensures UncachedCurrent(e, g)
  {
    forall k': Key
      ensures KeyHashed(d.sys.m, k') ==> KeyHashed(e.sys.m, k')
    {
      HashingGrows(d.sys.m, e.sys.m, k');
    }
    assert Hashed(e.sys.m, c);
    assert KeyHashed(e.sys.m, k);
  }

  lemma InsertedFlight(d: Store, f: Flat, g: Flat, k: Key, data: Block, e: Store, c: nat)
    requires StoreInv(d, f) && !KeyHashed(d.sys.m, k) && Patched(f, g, k, data)
    requires c < |d.ssd| && !d.sys.m.cells[c].alloc
    requires d.sys.w.Promoting? ==> d.sys.w.key != k
    requires StoreSane(e)
    requires e.sys.m.cells == d.sys.m.cells[c := Cell(false, true, true, k)]
    requires e.sys.w == d.sys.w && e.io == d.io && e.origin == d.origin && e.ssd == d.ssd[c := data]
    requires e.users == d.users && e.unwritten == d.unwritten - {c}
    ensures FlightCurrent(e, g)
  {
  }

  lemma WriteMiss(d: Store, f: Flat, g: Flat, k: Key, b: Block)
    requires StoreInv(d, f) && !KeyHashed(d.sys.m, k) && Patched(f, g, k, b)
    requires d.sys.w.Promoting? && !d.io.NotStarted? ==> k != FlightKey(d)
    ensures StoreInv(d.(origin := d.origin[k := b]), g)
  {
    forall i | 0 <= i < |d.ssd| && Hashed(d.sys.m, i)
      ensures d.sys.m.cells[i].key != k
    {
    }
  }

  // ---------------------------------------------------------------- discards

  lemma DiscardHit(d: Store, f: Flat, g: Flat, k: Key)
    requires StoreInv(d, f) && Find(d.sys.m, k).Some? && Enabled(d.sys, Remove(k))
    requires Patched(f, g, k, d.origin[k])
    ensures StoreSane(DoDiscard(d, k)) && StoreInv(DoDiscard(d, k), g)
  {
    var c := Find(d.sys.m, k).value;
    FindIsExact(d.sys.m, k);
    DiscardForm(d, k);
    UnhashedUncached(d, f, g, DoDiscard(d, k), c);
    UnhashedOthers(d, f, g, DoDiscard(d, k), c);
  }

  lemma DiscardForm(d: Store, k: Key)
    requires ProtocolInv(d.sys) && StoreSane(d) && Find(d.sys.m, k).Some? && Enabled(d.sys, Remove(k))
    ensures ProtocolInv(DoDiscard(d, k).sys) && Unhashes(d, DoDiscard(d, k), Find(d.sys.m, k).value)
  {
    RemoveForm(d.sys, k);
  }

  lemma RemoveForm(s: Sys, k: Key)
    requires ProtocolInv(s) && Sane(s) && Find(s.m, k).Some? && Enabled(s, Remove(k))
    ensures var c, t := Find(s.m, k).value, Apply(s, Remove(k));
            && ProtocolInv(t) && t.w == s.w && c < |s.m.cells| && Hashed(s.m, c)
            && |t.m.cells| == |s.m.cells| && t.m.cells == s.m.cells[c := t.m.cells[c]]
            && t.m.cells[c].key == s.m.cells[c].key && t.m.cells[c].dirty == s.m.cells[c].dirty
            && forall i :: 0 <= i < |s.m.cells| ==> (Hashed(t.m, i) <==> Hashed(s.m, i) && i != c)
  {
    FindIsExact(s.m, k);
    StepKeepsInv(s, Remove(k));
    RemoveHitKeepsInv(s.m, k);
  }

  /** Entry `c`, not in flight, has left the table. */
  ghost predicate Unhashes(d: Store, e: Store, c: nat) {
    && StoreSane(d) && StoreSane(e) && c < |d.ssd| && Hashed(d.sys.m, c)
    && |e.sys.m.cells| == |d.sys.m.cells|
    && e.sys.m.cells == d.sys.m.cells[c := e.sys.m.cells[c]]
    && e.sys.m.cells[c].key == d.sys.m.cells[c].key && e.sys.m.cells[c].dirty == d.sys.m.cells[c].dirty
    && (forall i :: 0 <= i < |d.ssd| ==> (Hashed(e.sys.m, i) <==> Hashed(d.sys.m, i) && i != c))
    && e.ssd == d.ssd && e.origin == d.origin && e.users == d.users
    && (forall i :: i != c ==> (i in e.unwritten <==> i in d.unwritten))
  }

  lemma UnhashedUncached(d: Store, f: Flat, g: Flat, e: Store, c: nat)
    requires StoreInv(d, f) && Unhashes(d, e, c)
    requires Patched(f, g, d.sys.m.cells[c].key, d.origin[d.sys.m.cells[c].key])
    ensures UncachedCurrent(e, g)
  {
    forall k: Key
      ensures KeyHashed(d.sys.m, k) && k != d.sys.m.cells[c].key ==> KeyHashed(e.sys.m, k)
    {
      if KeyHashed(d.sys.m, k) && k != d.sys.m.cells[c].key {
        var i :| 0 <= i < |d.sys.m.cells| && Hashed(d.sys.m, i) && d.sys.m.cells[i].key == k;
        assert Hashed(e.sys.m, i);
      }
    }
  }

  lemma UnhashedOthers(d: Store, f: Flat, g: Flat, e: Store, c: nat)
    requires StoreInv(d, f) && Unhashes(d, e, c)
    requires Patched(f, g, d.sys.m.cells[c].key, d.origin[d.sys.m.cells[c].key])
    requires (e.sys.w == d.sys.w && e.io == d.io && !d.sys.w.Holds(c))
             || (d.sys.w.Demoting? && d.sys.w.Holds(c) && !e.sys.w.Busy())
    ensures CachedCurrent(e, g) && CleanCurrent(e, g) && FlightCurrent(e, g)
  {
    OthersHaveOtherKeys(d.sys.m, c);
    if d.sys.w.Promoting? {
      PromotedKeyIsUnhashed(d.sys);
    }
  }

  /** A flat store with the same blocks will do. */
  lemma SameBlocks(d: Store, f: Flat, g: Flat)
    requires StoreInv(d, f)
    requires forall k: Key :: FlatBlock(g, k) == FlatBlock(f, k)
    ensures StoreInv(d, g)
  {
  }

  lemma DiscardPatches(f: Flat, k: Key, image: Block)
    requires PAGES * k.index < U32
    ensures Patched(f, FlatApply(f, DidDiscard(k, image)), k, image)
  {
    WritePatches(f, k.path, PAGES * k.index, image);
    assert KeyOf(k.path, PAGES * k.index) == k;
    assert Patch(FlatBlock(f, k), 0, image) == image;
  }

  lemma DiscardStep(d: Store, f: Flat, k: Key)
    requires StoreInv(d, f) && Enabled(d.sys, Remove(k)) && PAGES * k.index < U32
    ensures var e := DoDiscard(d, k);
            StoreSane(e) && StoreInv(e, FlatApply(f, DidDiscard(k, d.origin[k])))
  {
    var g := FlatApply(f, DidDiscard(k, d.origin[k]));
    DiscardPatches(f, k, d.origin[k]);
    FindIsExact(d.sys.m, k);
    if Find(d.sys.m, k).Some? {
      DiscardHit(d, f, g, k);
    } else {
      assert d.origin[k] == FlatBlock(f, k);
      SameBlocks(d, f, g);
    }
  }

  // ---------------------------------------------------------------- whole requests

  lemma HitWriteStep(d: Store, f: Flat, g: Flat, k: Key, at: nat, data: seq<Data>)
    requires StoreInv(d, f) && at + |data| <= PAGES && Find(d.sys.m, k).Some?
    requires Patched(f, g, k, Patch(FlatBlock(f, k), at, data))
    requires d.sys.w.Demoting? || (d.sys.w.Promoting? && !d.io.NotStarted?) ==> k != FlightKey(d)
    ensures StoreSane(DoWrite(d, k, at, data)) && StoreInv(DoWrite(d, k, at, data), g)
  {
    HitForm(d, k, at, data);
    WriteHitData(d, f, g, k, at, data, DoWrite(d, k, at, data));
  }

  lemma InsertWriteStep(d: Store, f: Flat, g: Flat, k: Key, at: nat, data: seq<Data>)
    requires StoreInv(d, f) && Overwritable(at, |data|) && at < PAGES
    requires Find(d.sys.m, k).None? && LookupInsertResult(d.sys, k).Some?
    requires Patched(f, g, k, Patch(FlatBlock(f, k), at, data))
    ensures StoreSane(DoWrite(d, k, at, data)) && StoreInv(DoWrite(d, k, at, data), g)
  {
    assert Patch(FlatBlock(f, k), at, data) == data;
    WriteInsert(d, f, g, k, data);
    assert Patch(d.ssd[d.sys.m.free[0]], at, data) == data;
  }

  lemma WriteStep(d: Store, f: Flat, path: Path, page: nat, data: seq<Data>)
    requires StoreInv(d, f) && page < 0x10_0000 && CheckPio(page, |data|)
    requires d.sys.w.Demoting? || (d.sys.w.Promoting? && !d.io.NotStarted?) ==> KeyOf(path, page) != FlightKey(d)
    ensures var e := DoWrite(d, KeyOf(path, page), page % PAGES, data);
            StoreSane(e) && StoreInv(e, FlatWrite(f, path, page, data))
  {
    WritePatches(f, path, page, data);
    PatchStep(d, f, FlatWrite(f, path, page, data), KeyOf(path, page), page % PAGES, data);
  }

  lemma PatchStep(d: Store, f: Flat, g: Flat, k: Key, at: nat, data: seq<Data>)
    requires StoreInv(d, f) && at + |data| <= PAGES
    requires Patched(f, g, k, Patch(FlatBlock(f, k), at, data))
    requires d.sys.w.Demoting? || (d.sys.w.Promoting? && !d.io.NotStarted?) ==> k != FlightKey(d)
    ensures StoreSane(DoWrite(d, k, at, data)) && StoreInv(DoWrite(d, k, at, data), g)
  {
    if Find(d.sys.m, k).Some? {
      HitWriteStep(d, f, g, k, at, data);
    } else if WriteTarget(d.sys, k, Overwritable(at, |data|)).Some? {
      InsertWriteStep(d, f, g, k, at, data);
    } else {
      MissedWriteStep(d, f, g, k, at, data);
    }
  }

  /** The lookup of a write that misses and inserts nothing: at most the queue grows. */
  lemma MissOnlyQueues(s: Sys, k: Key, full: bool)
    requires ProtocolInv(s) && WriteTarget(s, k, full).None?
    ensures ProtocolInv(AfterWriteLookup(s, k, full))
    ensures AfterWriteLookup(s, k, full).m == s.m && AfterWriteLookup(s, k, full).w == s.w
  {
    if full {
      LookupInsertStep(s, k);
    } else {
      LookupStep(s, k);
    }
  }

  lemma MissedWriteStep(d: Store, f: Flat, g: Flat, k: Key, at: nat, data: seq<Data>)
    requires StoreInv(d, f) && at + |data| <= PAGES && Find(d.sys.m, k).None?
    requires WriteTarget(d.sys, k, Overwritable(at, |data|)).None?
    requires Patched(f, g, k, Patch(FlatBlock(f, k), at, data))
    requires d.sys.w.Promoting? && !d.io.NotStarted? ==> k != FlightKey(d)
    ensures StoreSane(DoWrite(d, k, at, data)) && StoreInv(DoWrite(d, k, at, data), g)
  {
    var e := d.(origin := d.origin[k := Patch(d.origin[k], at, data)]);
    var t := AfterWriteLookup(d.sys, k, Overwritable(at, |data|));
    FindIsExact(d.sys.m, k);
    WriteMiss(d, f, g, k, Patch(d.origin[k], at, data));
    MissOnlyQueues(d.sys, k, Overwritable(at, |data|));
    QueueGrows(e, t, g);
  }

  lemma QueueGrows(d: Store, t: Sys, f: Flat)
    requires StoreInv(d, f) && ProtocolInv(t) && t.m == d.sys.m && t.w == d.sys.w
    ensures StoreSane(d.(sys := t)) && StoreInv(d.(sys := t), f)
  {
    QuietStep(d, t, f);
  }

  lemma ReadStep(d: Store, f: Flat, k: Key)
    requires StoreInv(d, f)
    ensures StoreSane(d.(sys := ApplyLookup(d.sys, k))) && StoreInv(d.(sys := ApplyLookup(d.sys, k)), f)
  {
    LookupIsQuiet(d.sys, k);
    QuietStep(d, ApplyLookup(d.sys, k), f);
  }

  lemma ReadRequest(d: Store, f: Flat, op: Op)
    requires StoreInv(d, f) && op.Read? && CanDo(d, op)
    ensures StoreSane(Do(d, op)) && StoreInv(Do(d, op), FlatApply(f, EventOf(d, op)))
  {
    if CheckPio(op.page, op.count) {
      ReadStep(d, f, KeyOf(op.path, op.page));
    }
  }

  lemma WriteRequest(d: Store, f: Flat, op: Op)
    requires StoreInv(d, f) && op.Write? && CanDo(d, op) && Safe(d, op)
    ensures StoreSane(Do(d, op)) && StoreInv(Do(d, op), FlatApply(f, EventOf(d, op)))
  {
    if CheckPio(op.page, |op.data|) {
      WriteOp(d, op);
      WriteStep(d, f, op.path, op.page, op.data);
    }
  }

  lemma WriteOp(d: Store, op: Op)
    requires StoreSane(d) && op.Write? && CanDo(d, op) && CheckPio(op.page, |op.data|)
    ensures Do(d, op) == DoWrite(d, KeyOf(op.path, op.page), op.page % PAGES, op.data)
    ensures EventOf(d, op) == DidWrite(op.path, op.page, op.data)
  {
  }

  lemma DiscardRequest(d: Store, f: Flat, op: Op)
    requires StoreInv(d, f) && op.Discard? && CanDo(d, op)
    ensures StoreSane(Do(d, op)) && StoreInv(Do(d, op), FlatApply(f, EventOf(d, op)))
  {
    if CheckPio(op.page, op.count) {
      DiscardOp(d, op);
      DiscardStep(d, f, KeyOf(op.path, op.page));
    }
  }

  lemma DiscardOp(d: Store, op: Op)
    requires StoreSane(d) && op.Discard? && CanDo(d, op) && CheckPio(op.page, op.count)
    ensures var k := KeyOf(op.path, op.page);
            && PAGES * k.index < U32 && Enabled(d.sys, Remove(k))
            && Do(d, op) == DoDiscard(d, k) && EventOf(d, op) == DidDiscard(k, d.origin[k])
  {
  }

  // ---------------------------------------------------------------- requests in steps

  /** What users are about to do does not matter to the data, except which blocks they have to mark. */
  lemma UsersDoNotMatter(d: Store, users: seq<Pending>, f: Flat)
    requires StoreInv(d, f)
    requires forall u :: 0 <= u < |users| ==> UserSane(users[u], |d.ssd|)
    requires forall c: nat :: ToMark(c) in users <==> ToMark(c) in d.users
    ensures StoreSane(d.(users := users)) && StoreInv(d.(users := users), f)
  {
    var e := d.(users := users);
    assert forall c: nat :: Unsettled(e, c) <==> Unsettled(d, c);
    assert forall c, k: Key :: Current(e, c, k) <==> Current(d, c, k);
  }

  /** A user that had nothing to mark goes on to something else. */
  lemma SwapUser(users: seq<Pending>, u: nat, p: Pending)
    requires u < |users| && !users[u].ToMark?
    ensures forall c: nat :: ToMark(c) in users[u := p] <==> ToMark(c) in users || ToMark(c) == p
  {
    forall c: nat | ToMark(c) in users
      ensures ToMark(c) in users[u := p]
    {
      var v :| 0 <= v < |users| && users[v] == ToMark(c);
      assert users[u := p][v] == ToMark(c);
    }
    assert users[u := p][u] == p;
  }

  lemma UserGoesOn(d: Store, f: Flat, u: nat, p: Pending)
    requires StoreInv(d, f) && u < |d.users| && !d.users[u].ToMark? && !p.ToMark? && UserSane(p, |d.ssd|)
    ensures var e := d.(users := d.users[u := p]); StoreSane(e) && StoreInv(e, f)
  {
    SwapUser(d.users, u, p);
    UsersDoNotMatter(d, d.users[u := p], f);
  }

  lemma StartReadStep(d: Store, f: Flat, op: Op)
    requires StoreInv(d, f) && op.StartRead? && CanDo(d, op)
    ensures StoreSane(Do(d, op)) && StoreInv(Do(d, op), f)
  {
    var k := KeyOf(op.path, op.page);
    var p := ToRead(op.path, op.page, op.count, Find(d.sys.m, k));
    ReadStep(d, f, k);
    UserGoesOn(d.(sys := ApplyLookup(d.sys, k)), f, op.u, p);
  }

  /** The insertion of a full write, whose data is still to come. */
  lemma InsertLookup(d: Store, f: Flat, k: Key)
    requires StoreInv(d, f) && Find(d.sys.m, k).None? && LookupInsertResult(d.sys, k).Some?
    ensures var e := d.(sys := ApplyLookupInsert(d.sys, k),
                        unwritten := d.unwritten + {LookupInsertResult(d.sys, k).value});
            StoreSane(e) && StoreInv(e, f)
  {
    InsertionForm(d.sys, k);
    var c := d.sys.m.free[0];
    Inserted(d, f, k, d.(sys := ApplyLookupInsert(d.sys, k), unwritten := d.unwritten + {c}), c);
  }

  /** `e` is `d` with free block `c` hashed under `k` and its data still to come. */
  ghost predicate InsertedAs(d: Store, e: Store, k: Key, c: nat) {
    && StoreSane(d) && StoreSane(e) && c < |d.ssd| && !Hashed(d.sys.m, c) && !d.sys.m.cells[c].alloc
    && e == d.(sys := e.sys, unwritten := d.unwritten + {c}) && e.sys.w == d.sys.w
    && e.sys.m.cells == d.sys.m.cells[c := Cell(false, true, true, k)]
    && (forall i :: 0 <= i < |d.ssd| ==> (Hashed(e.sys.m, i) <==> Hashed(d.sys.m, i) || i == c))
  }

  lemma Inserted(d: Store, f: Flat, k: Key, e: Store, c: nat)
    requires StoreInv(d, f) && ProtocolInv(e.sys) && InsertedAs(d, e, k, c)
    ensures StoreInv(e, f)
  {
    InsertedUncached(d, f, f, None, k, e, c);
    InsertedWithoutData(d, f, k, e, c);
  }

  lemma InsertedWithoutData(d: Store, f: Flat, k: Key, e: Store, c: nat)
    requires InsertedAs(d, e, k, c) && CachedCurrent(d, f) && CleanCurrent(d, f) && FlightCurrent(d, f)
    requires d.sys.w.Busy() ==> d.sys.m.cells[d.sys.w.cblock].alloc
    ensures CachedCurrent(e, f) && CleanCurrent(e, f) && FlightCurrent(e, f)
  {
  }

  lemma WriteLookupStep(d: Store, f: Flat, k: Key, full: bool)
    requires StoreInv(d, f)
    ensures WriteTarget(d.sys, k, full).Some? ==> WriteTarget(d.sys, k, full).value < |d.ssd|
    ensures StoreSane(WriteLookup(d, k, full)) && StoreInv(WriteLookup(d, k, full), f)
  {
    if Find(d.sys.m, k).Some? {
      ReadStep(d, f, k);
    } else if WriteTarget(d.sys, k, full).Some? {
      InsertLookup(d, f, k);
    } else {
      MissOnlyQueues(d.sys, k, full);
      QueueGrows(d, AfterWriteLookup(d.sys, k, full), f);
    }
  }

  lemma StartWriteStep(d: Store, f: Flat, op: Op)
    requires StoreInv(d, f) && op.StartWrite? && CanDo(d, op)
    ensures StoreSane(Do(d, op)) && StoreInv(Do(d, op), f)
  {
    var k, full := KeyOf(op.path, op.page), Overwritable(op.page % PAGES, |op.data|);
    var p := ToWrite(op.path, op.page, op.data, WriteTarget(d.sys, k, full));
    WriteLookupStep(d, f, k, full);
    UserGoesOn(WriteLookup(d, k, full), f, op.u, p);
  }

  /** What an unmarked write to block `c` does to the state. */
  ghost predicate TransferredTo(d: Store, e: Store, c: nat, at: nat, data: seq<Data>) {
    && StoreSane(d) && StoreSane(e) && at + |data| <= PAGES && c < |d.ssd|
    && e.sys == d.sys && e.io == d.io && e.origin == d.origin
    && (forall b: nat :: ToMark(b) in e.users <==> ToMark(b) in d.users || b == c)
    && e.ssd == d.ssd[c := Patch(d.ssd[c], at, data)]
    && e.unwritten == (if Overwritable(at, |data|) then d.unwritten - {c} else d.unwritten)
  }

  ghost predicate Transferred(d: Store, e: Store, k: Key, c: nat, at: nat, data: seq<Data>) {
    TransferredTo(d, e, c, at, data) && Serves(d.sys, c, k)
  }

  lemma TransferredOthers(d: Store, f: Flat, g: Flat, k: Key, at: nat, data: seq<Data>, e: Store, c: nat)
    requires StoreInv(d, f) && Transferred(d, e, k, c, at, data)
    requires Patched(f, g, k, Patch(FlatBlock(f, k), at, data))
    requires d.sys.w.Demoting? ==> !d.sys.w.Holds(c)
    ensures CachedCurrent(e, g) && CleanCurrent(e, g)
  {
    OthersHaveOtherKeys(d.sys.m, c);
    if Overwritable(at, |data|) {
      FullPatch(d.ssd[c], at, data);
      FullPatch(FlatBlock(f, k), at, data);
    }
    TransferredClean(d, f, g, k, at, data, e, c);
  }

  lemma TransferredClean(d: Store, f: Flat, g: Flat, k: Key, at: nat, data: seq<Data>, e: Store, c: nat)
    requires StoreSane(d) && CleanCurrent(d, f) && Transferred(d, e, k, c, at, data)
    requires Patched(f, g, k, Patch(FlatBlock(f, k), at, data))
    requires forall i :: 0 <= i < |d.ssd| && i != c && Hashed(d.sys.m, i) ==> d.sys.m.cells[i].key != k
    ensures CleanCurrent(e, g)
  {
  }

  lemma TransferredFlight(d: Store, f: Flat, g: Flat, k: Key, at: nat, data: seq<Data>, e: Store, c: nat)
    requires StoreInv(d, f) && Transferred(d, e, k, c, at, data)
    requires Patched(f, g, k, Patch(FlatBlock(f, k), at, data))
    requires d.sys.w.Demoting? ==> !d.sys.w.Holds(c)
    ensures FlightCurrent(e, g)
  {
    OthersHaveOtherKeys(d.sys.m, c);
    if d.sys.w.Promoting? {
      PromotedKeyIsUnhashed(d.sys);
    }
  }

  lemma TransferredData(d: Store, f: Flat, g: Flat, k: Key, at: nat, data: seq<Data>, e: Store, c: nat)
    requires StoreInv(d, f) && Transferred(d, e, k, c, at, data)
    requires Patched(f, g, k, Patch(FlatBlock(f, k), at, data))
    requires d.sys.w.Demoting? ==> !d.sys.w.Holds(c)
    ensures StoreInv(e, g)
  {
    TransferredOthers(d, f, g, k, at, data, e, c);
    TransferredFlight(d, f, g, k, at, data, e, c);
    assert KeyHashed(d.sys.m, k);
  }

  lemma TransferToSsd(d: Store, f: Flat, u: nat)
    requires StoreInv(d, f) && CanDo(d, Transfer(u)) && SafeTransfer(d, u)
    requires d.users[u].ToWrite? && d.users[u].to.Some?
    ensures var p := d.users[u];
            && UserSane(p, |d.ssd|) && StoreSane(DoTransfer(d, u))
            && StoreInv(DoTransfer(d, u), FlatWrite(f, p.path, p.page, p.data))
  {
    var p := d.users[u];
    var k, at, g := KeyOf(p.path, p.page), p.page % PAGES, FlatWrite(f, p.path, p.page, p.data);
    WritePatches(f, p.path, p.page, p.data);
    SsdTransferForm(d, u, p.to.value);
    if Serves(d.sys, p.to.value, k) {
      TransferredData(d, f, g, k, at, p.data, DoTransfer(d, u), p.to.value);
    } else {
      TransferSuperseded(d, f, g, k, at, p.data, DoTransfer(d, u), p.to.value);
    }
  }

  /** A late write that is overwritten anyway. */
  lemma TransferSuperseded(d: Store, f: Flat, g: Flat, k: Key, at: nat, data: seq<Data>, e: Store, c: nat)
    requires StoreInv(d, f) && TransferredTo(d, e, c, at, data) && !Serves(d.sys, c, k)
    requires Superseded(d, c, k, Overwritable(at, |data|))
    requires Patched(f, g, k, Patch(FlatBlock(f, k), at, data))
    ensures StoreInv(e, g)
  {
    var c2 := Find(d.sys.m, k).value;
    OnlyOwner(d.sys, k);
    SupersededCached(d, f, g, k, at, data, e, c, c2);
    SupersededClean(d, f, g, k, at, data, e, c, c2);
    SupersededFlight(d, f, g, k, at, data, e, c, c2);
  }

  /** What is found under a key is the only entry hashed under it, and not being promoted. */
  lemma OnlyOwner(s: Sys, k: Key)
    requires ProtocolInv(s) && Find(s.m, k).Some?
    ensures Owns(s, Find(s.m, k).value, k)
  {
    FindIsExact(s.m, k);
    OthersHaveOtherKeys(s.m, Find(s.m, k).value);
    assert KeyHashed(s.m, k);
    if s.w.Promoting? {
      PromotedKeyIsUnhashed(s);
    }
  }

  ghost predicate Owns(s: Sys, c: nat, k: Key)
    requires Sane(s)
  {
    && Serves(s, c, k) && KeyHashed(s.m, k) && (s.w.Promoting? ==> s.m.cells[s.w.cblock].key != k)
    && forall i :: 0 <= i < |s.m.cells| && i != c && Hashed(s.m, i) ==> s.m.cells[i].key != k
  }

  lemma SupersededCached(d: Store, f: Flat, g: Flat, k: Key, at: nat, data: seq<Data>, e: Store, c: nat, c2: nat)
    requires TransferredTo(d, e, c, at, data) && c2 != c && c2 in d.unwritten && Owns(d.sys, c2, k)
    requires CachedCurrent(d, f) && Superseded(d, c, k, Overwritable(at, |data|))
    requires Patched(f, g, k, Patch(FlatBlock(f, k), at, data))
    ensures CachedCurrent(e, g)
  {
    forall i | 0 <= i < |e.ssd| && Hashed(e.sys.m, i) && Current(e, i, e.sys.m.cells[i].key)
      ensures e.ssd[i] == FlatBlock(g, e.sys.m.cells[i].key)
    {
      assert i != c && i != c2;
      assert Current(d, i, d.sys.m.cells[i].key);
    }
  }

  lemma SupersededClean(d: Store, f: Flat, g: Flat, k: Key, at: nat, data: seq<Data>, e: Store, c: nat, c2: nat)
    requires TransferredTo(d, e, c, at, data) && c2 != c && c2 in d.unwritten && Owns(d.sys, c2, k)
    requires CleanCurrent(d, f) && UncachedCurrent(d, f)
    requires Patched(f, g, k, Patch(FlatBlock(f, k), at, data))
    ensures CleanCurrent(e, g) && UncachedCurrent(e, g)
  {
  }

  lemma SupersededFlight(d: Store, f: Flat, g: Flat, k: Key, at: nat, data: seq<Data>, e: Store, c: nat, c2: nat)
    requires TransferredTo(d, e, c, at, data) && c2 != c && c2 in d.unwritten && Owns(d.sys, c2, k)
    requires FlightCurrent(d, f) && Superseded(d, c, k, Overwritable(at, |data|))
    requires d.sys.w.Busy() ==> (Hashed(d.sys.m, d.sys.w.cblock) <==> !d.sys.w.Promoting?)
    requires Patched(f, g, k, Patch(FlatBlock(f, k), at, data))
    ensures FlightCurrent(e, g)
  {
    if d.sys.w.Busy() && FlightKey(d) == k {
      assert d.sys.w.cblock == c2;
    }
  }

  lemma OriginWritten(d: Store, f: Flat, g: Flat, k: Key, at: nat, data: seq<Data>)
    requires StoreInv(d, f) && at + |data| <= PAGES && MayWriteOrigin(d, k)
    requires Patched(f, g, k, Patch(FlatBlock(f, k), at, data))
    ensures StoreInv(d.(origin := d.origin[k := Patch(d.origin[k], at, data)]), g)
  {
    FindIsExact(d.sys.m, k);
    if Find(d.sys.m, k).None? {
      WriteMiss(d, f, g, k, Patch(d.origin[k], at, data));
    } else {
      WriteUnderCached(d, f, g, k, Patch(FlatBlock(f, k), at, data), Patch(d.origin[k], at, data),
                       Find(d.sys.m, k).value);
    }
  }

  /** The origin catches up with the victim, or holds anything under a block still to be written. */
  lemma WriteUnderCached(d: Store, f: Flat, g: Flat, k: Key, b: Block, image: Block, c: nat)
    requires StoreInv(d, f) && Serves(d.sys, c, k) && !Current(d, c, k) && Patched(f, g, k, b)
    requires IsVictim(d, c) ==> image == b
    ensures StoreInv(d.(origin := d.origin[k := image]), g)
  {
    OthersHaveOtherKeys(d.sys.m, c);
    assert KeyHashed(d.sys.m, k);
    if d.sys.w.Promoting? {
      PromotedKeyIsUnhashed(d.sys);
    }
  }

  /** Under a victim, an uncached key or a full write, what is written to the origin is current. */
  lemma OriginCatchesUp(d: Store, f: Flat, k: Key, at: nat, data: seq<Data>)
    requires StoreInv(d, f) && at + |data| <= PAGES && MayWriteOrigin(d, k)
    requires Find(d.sys.m, k).Some? && Find(d.sys.m, k).value in d.unwritten ==> Overwritable(at, |data|)
    ensures Patch(d.origin[k], at, data) == Patch(FlatBlock(f, k), at, data)
  {
    FindIsExact(d.sys.m, k);
    if Overwritable(at, |data|) {
      FullPatch(d.origin[k], at, data);
      FullPatch(FlatBlock(f, k), at, data);
    }
  }

  lemma OriginTransferForm(d: Store, u: nat)
    requires StoreSane(d) && CanDo(d, Transfer(u)) && d.users[u].ToWrite? && d.users[u].to.None?
    ensures UserSane(d.users[u], |d.ssd|)
    ensures var k, at := KeyOf(d.users[u].path, d.users[u].page), d.users[u].page % PAGES;
            DoTransfer(d, u) ==
            d.(origin := d.origin[k := Patch(d.origin[k], at, d.users[u].data)], users := d.users[u := Nothing])
  {
    assert UserSane(d.users[u], |d.ssd|);
  }

  lemma SsdTransferForm(d: Store, u: nat, c: nat)
    requires StoreSane(d) && CanDo(d, Transfer(u)) && d.users[u].ToWrite? && d.users[u].to == Some(c)
    ensures UserSane(d.users[u], |d.ssd|)
    ensures TransferredTo(d, DoTransfer(d, u), c, d.users[u].page % PAGES, d.users[u].data)
  {
    assert UserSane(d.users[u], |d.ssd|);
    SwapUser(d.users, u, ToMark(c));
  }

  lemma TransferToOrigin(d: Store, f: Flat, u: nat)
    requires StoreInv(d, f) && CanDo(d, Transfer(u)) && SafeTransfer(d, u)
    requires d.users[u].ToWrite? && d.users[u].to.None?
    ensures var p := d.users[u];
            && UserSane(p, |d.ssd|) && StoreSane(DoTransfer(d, u))
            && StoreInv(DoTransfer(d, u), FlatWrite(f, p.path, p.page, p.data))
  {
    var p := d.users[u];
    var k, at, g := KeyOf(p.path, p.page), p.page % PAGES, FlatWrite(f, p.path, p.page, p.data);
    WritePatches(f, p.path, p.page, p.data);
    OriginWritten(d, f, g, k, at, p.data);
    OriginTransferForm(d, u);
    UserGoesOn(d.(origin := d.origin[k := Patch(d.origin[k], at, p.data)]), g, u, Nothing);
  }

  /** What a request writes to the origin leaves the current block there. */
  lemma TransferLeavesCurrent(d: Store, f: Flat, u: nat)
    requires StoreInv(d, f) && CanDo(d, Transfer(u)) && SafeTransfer(d, u) && KeepsOriginTransfer(d, u)
    requires d.users[u].ToWrite? && d.users[u].to.None?
    ensures var p := d.users[u];
            && UserSane(p, |d.ssd|)
            && DoTransfer(d, u).origin[KeyOf(p.path, p.page)] ==
               FlatBlock(FlatWrite(f, p.path, p.page, p.data), KeyOf(p.path, p.page))
  {
    var p := d.users[u];
    var g := FlatWrite(f, p.path, p.page, p.data);
    assert UserSane(p, |d.ssd|);
    WritePatches(f, p.path, p.page, p.data);
    OriginCatchesUp(d, f, KeyOf(p.path, p.page), p.page % PAGES, p.data);
  }

  lemma TransferStep(d: Store, f: Flat, op: Op)
    requires StoreInv(d, f) && op.Transfer? && CanDo(d, op) && Safe(d, op)
    ensures StoreSane(Do(d, op)) && StoreInv(Do(d, op), FlatApply(f, EventOf(d, op)))
  {
    var u := op.u;
    if d.users[u].ToRead? {
      UserGoesOn(d, f, u, Nothing);
    } else if d.users[u].to.Some? {
      TransferToSsd(d, f, u);
    } else {
      TransferToOrigin(d, f, u);
    }
  }

  /** Where nothing newer is cached, the origin is current. */
  lemma OriginServesCurrent(d: Store, f: Flat, k: Key)
    requires StoreInv(d, f) && OriginServes(d, k)
    ensures d.origin[k] == FlatBlock(f, k)
  {
    FindIsExact(d.sys.m, k);
  }

  /** The same state with another block at the origin under `k`. */
  ghost function WithOrigin(d: Store, k: Key, image: Block): Store {
    d.(origin := d.origin[k := image])
  }

  /** Where something newer may be cached, the origin may hold anything. */
  lemma OriginIsAnything(d: Store, f: Flat, k: Key, image: Block)
    requires StoreInv(d, f) && !OriginServes(d, k)
    ensures StoreInv(WithOrigin(d, k, image), f)
  {
    OnlyOwner(d.sys, k);
    OriginOfUnsettled(d, f, Find(d.sys.m, k).value, k, image);
  }

  lemma OriginOfUnsettled(d: Store, f: Flat, c: nat, k: Key, image: Block)
    requires StoreInv(d, f) && Owns(d.sys, c, k) && !IsVictim(d, c)
    requires d.sys.m.cells[c].dirty || Unsettled(d, c) || (d.sys.w.WritingBack? && d.sys.w.Holds(c) && !d.io.Stored?)
    ensures StoreInv(WithOrigin(d, k, image), f)
  {
    assert d.sys.w.Busy() && FlightKey(d) == k ==> d.sys.w.cblock == c;
  }

  lemma TransferReadsFlat(d: Store, f: Flat, u: nat)
    requires StoreInv(d, f) && CanDo(d, Transfer(u)) && SafeTransfer(d, u) && d.users[u].ToRead?
    ensures var p := d.users[u];
            TransferEvent(d, u) == DidRead(p.path, p.page, FlatRead(f, p.path, p.page, p.count))
  {
    var p := d.users[u];
    assert UserSane(p, |d.ssd|);
    FlatReadIsSlice(f, p.path, p.page, p.count);
    if p.from.None? {
      OriginServesCurrent(d, f, KeyOf(p.path, p.page));
    }
  }

  /** Marking a block dirty settles it. */
  lemma MarkStep(d: Store, f: Flat, op: Op)
    requires StoreInv(d, f) && op.Mark? && CanDo(d, op)
    ensures StoreSane(Do(d, op)) && StoreInv(Do(d, op), f)
  {
    MarkForm(d, op.u);
    Marked(d, f, d.users[op.u].block, DoMark(d, op.u));
  }

  lemma MarkForm(d: Store, u: nat)
    requires ProtocolInv(d.sys) && StoreSane(d) && CanDo(d, Mark(u))
    ensures ProtocolInv(DoMark(d, u).sys) && MarkedBy(d, DoMark(d, u), d.users[u].block)
  {
    var c := d.users[u].block;
    assert UserSane(d.users[u], |d.ssd|) && ToMark(c) in d.users;
    SetDirtyStep(d.sys, c);
    SetDirtyKeepsInv(d.sys.m, c);
    OneMarkLess(d.users, u);
  }

  lemma OneMarkLess(users: seq<Pending>, u: nat)
    requires u < |users| && users[u].ToMark?
    ensures forall c: nat :: c != users[u].block ==> (ToMark(c) in users[u := Nothing] <==> ToMark(c) in users)
    ensures forall c: nat :: ToMark(c) in users[u := Nothing] ==> ToMark(c) in users
  {
    forall c: nat | c != users[u].block && ToMark(c) in users
      ensures ToMark(c) in users[u := Nothing]
    {
      var v :| 0 <= v < |users| && users[v] == ToMark(c);
      assert users[u := Nothing][v] == ToMark(c);
    }
  }

  /** `e` is `d` with block `c` marked dirty if it is in use, and one user the less who has to. */
  ghost predicate MarkedBy(d: Store, e: Store, c: nat) {
    && StoreSane(d) && StoreSane(e) && c < |d.ssd| && ToMark(c) in d.users
    && e.sys.w == d.sys.w && e == d.(sys := e.sys, users := e.users)
    && e.sys.m.cells == (if d.sys.m.cells[c].alloc then d.sys.m.cells[c := d.sys.m.cells[c].(dirty := true)]
                         else d.sys.m.cells)
    && (forall i :: 0 <= i < |d.ssd| ==> (Hashed(e.sys.m, i) <==> Hashed(d.sys.m, i)))
    && (forall b: nat :: b != c ==> (ToMark(b) in e.users <==> ToMark(b) in d.users))
  }

  lemma Marked(d: Store, f: Flat, c: nat, e: Store)
    requires StoreInv(d, f) && ProtocolInv(e.sys) && MarkedBy(d, e, c)
    ensures StoreInv(e, f)
  {
    MarkedUncached(d, f, c, e);
    MarkedCached(d, f, c, e);
    forall i | 0 <= i < |d.ssd| && Hashed(d.sys.m, i)
      ensures d.sys.m.cells[i].alloc
    {
      InChainIsHashed(d.sys.m, HomeBucket(d.sys.m, i), i);
    }
    MarkedSettles(d, f, c, e);
  }

  lemma MarkedSettles(d: Store, f: Flat, c: nat, e: Store)
    requires MarkedBy(d, e, c) && CleanCurrent(d, f) && FlightCurrent(d, f)
    requires forall i :: 0 <= i < |d.ssd| && Hashed(d.sys.m, i) ==> d.sys.m.cells[i].alloc
    requires d.sys.w.Busy() && !d.sys.w.Promoting? ==> d.sys.m.cells[d.sys.w.cblock].alloc
    ensures CleanCurrent(e, f) && FlightCurrent(e, f)
  {
  }

  lemma MarkedCached(d: Store, f: Flat, c: nat, e: Store)
    requires MarkedBy(d, e, c) && CachedCurrent(d, f)
    ensures CachedCurrent(e, f)
  {
  }

  lemma MarkedUncached(d: Store, f: Flat, c: nat, e: Store)
    requires MarkedBy(d, e, c) && UncachedCurrent(d, f)
    ensures UncachedCurrent(e, f)
  {
    forall k: Key
      ensures KeyHashed(d.sys.m, k) ==> KeyHashed(e.sys.m, k)
    {
      HashingGrows(d.sys.m, e.sys.m, k);
    }
  }

  lemma ShowsNothing(d: Store, f: Flat, op: Op)
    requires StoreSane(d) && CanDo(d, op) && (op.StartRead? || op.StartWrite? || op.Mark?)
    ensures FlatApply(f, EventOf(d, op)) == f
  {
  }

  lemma QuietRequestStep(d: Store, f: Flat, op: Op)
    requires StoreInv(d, f) && CanDo(d, op) && (op.StartRead? || op.StartWrite? || op.Mark?)
    ensures StoreSane(Do(d, op)) && StoreInv(Do(d, op), f)
  {
    if op.StartRead? {
      StartReadStep(d, f, op);
    } else if op.StartWrite? {
      StartWriteStep(d, f, op);
    } else {
      MarkStep(d, f, op);
    }
  }

  lemma StepOfRequest(d: Store, f: Flat, op: Op)
    requires StoreInv(d, f) && CanDo(d, op) && Safe(d, op)
    requires op.StartRead? || op.StartWrite? || op.Transfer? || op.Mark?
    ensures StoreSane(Do(d, op)) && StoreInv(Do(d, op), FlatApply(f, EventOf(d, op)))
  {
    if op.Transfer? {
      TransferStep(d, f, op);
    } else {
      QuietRequestStep(d, f, op);
      ShowsNothing(d, f, op);
    }
  }

  // ---------------------------------------------------------------- every step of a user

  /** A step of a user. */
  predicate IsRequest(op: Op) {
    op.Read? || op.Write? || op.Discard? || op.StartRead? || op.StartWrite? || op.Transfer? || op.Mark?
  }

  lemma RequestStep(d: Store, f: Flat, op: Op)
    requires StoreInv(d, f) && CanDo(d, op) && Safe(d, op)
    requires IsRequest(op)
    ensures StoreSane(Do(d, op)) && StoreInv(Do(d, op), FlatApply(f, EventOf(d, op)))
  {
    match op
    case Read(_, _, _) => ReadRequest(d, f, op);
    case Write(_, _, _) => WriteRequest(d, f, op);
    case Discard(_, _, _) => DiscardRequest(d, f, op);
    case _ => StepOfRequest(d, f, op);
  }
}
