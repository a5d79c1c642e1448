/**
 * What a discard exposes. The flat store records the image a discard puts in place; here
 * that image is shown to be one the block had earlier in the run, and exactly when it is
 * the current one.
 */
module DiscardHistory {
  import opened CacheTypes
  import opened CacheStore
  import opened FlatStore
  import opened MappingTable
  import opened Protocol
  import opened RequestSteps
  import opened StoreRefinement
  import opened Writebacks

  /** After `i` of the events the block under `k` was `b`. */
  ghost predicate HeldAt(f: Flat, events: seq<Event>, k: Key, b: Block, i: nat) {
    i <= |events| && FlatBlock(Replay(f, events[..i]), k) == b
  }

  /** The block under `k` was `b` at some point of the run. */
  ghost predicate WasHeld(f: Flat, events: seq<Event>, k: Key, b: Block) {
    exists i: nat :: HeldAt(f, events, k, b, i)
  }

  lemma HeldNow(f: Flat, events: seq<Event>, k: Key, b: Block)
    requires FlatBlock(Replay(f, events), k) == b
    ensures WasHeld(f, events, k, b)
  {
    assert events[..|events|] == events;
    assert HeldAt(f, events, k, b, |events|);
  }

  lemma StaysHeld(f: Flat, before: seq<Event>, e: Event, k: Key, b: Block)
    requires WasHeld(f, before, k, b)
    ensures WasHeld(f, before + [e], k, b)
  {
    var i: nat :| HeldAt(f, before, k, b, i);
    assert (before + [e])[..i] == before[..i];
    assert HeldAt(f, before + [e], k, b, i);
  }

  /** Every origin block, and the image a write-back has in hand, is one its key had before. */
  ghost predicate OriginIsPast(d: Store, f: Flat, events: seq<Event>)
    requires StoreSane(d)
  {
    && (forall k: Key :: WasHeld(f, events, k, d.origin[k]))
    && (d.sys.w.WritingBack? && d.io.Loaded? ==> WasHeld(f, events, FlightKey(d), d.io.buf))
  }

  // ---------------------------------------------------------------- steps

  /** The only ways in which the origin changes: a write that misses, or the end of a write-back's transfer. */
  lemma OriginChanges(d: Store, f: Flat, op: Op, k: Key)
    requires StoreInv(d, f) && CanDo(d, op)
    requires Safe(d, op) && KeepsOrigin(d, op)
    ensures var e := Do(d, op);
            || e.origin[k] == d.origin[k]
            || (op.WritebackStore? && k == FlightKey(d) && e.origin[k] == d.io.buf)
            || (IsRequest(op) && e.origin[k] == FlatBlock(FlatApply(f, EventOf(d, op)), k))
  {
    if IsRequest(op) {
      RequestChangesOrigin(d, f, op, k);
    }
  }

  lemma RequestChangesOrigin(d: Store, f: Flat, op: Op, k: Key)
    requires StoreInv(d, f) && CanDo(d, op)
    requires Safe(d, op) && KeepsOrigin(d, op) && IsRequest(op)
    ensures var e := Do(d, op);
            e.origin[k] == d.origin[k] || e.origin[k] == FlatBlock(FlatApply(f, EventOf(d, op)), k)
  {
    if op.Write? && CheckPio(op.page, |op.data|) {
      WriteChangesOrigin(d, f, op.path, op.page, op.data, k);
    } else if op.Transfer? {
      TransferChangesOrigin(d, f, op.u, k);
    }
  }

  lemma TransferChangesOrigin(d: Store, f: Flat, u: nat, k: Key)
    requires StoreInv(d, f) && CanDo(d, Transfer(u)) && SafeTransfer(d, u) && KeepsOriginTransfer(d, u)
    ensures var e := DoTransfer(d, u);
            e.origin[k] == d.origin[k] || e.origin[k] == FlatBlock(FlatApply(f, TransferEvent(d, u)), k)
  {
    if d.users[u].ToWrite? && d.users[u].to.None? {
      TransferLeavesCurrent(d, f, u);
    }
  }

  lemma WriteChangesOrigin(d: Store, f: Flat, path: Path, page: nat, data: seq<Data>, k: Key)
    requires StoreInv(d, f) && page < 0x10_0000 && CheckPio(page, |data|)
    ensures var e := DoWrite(d, KeyOf(path, page), page % PAGES, data);
            e.origin[k] == d.origin[k] || e.origin[k] == FlatBlock(FlatWrite(f, path, page, data), k)
  {
    var kw, full := KeyOf(path, page), Overwritable(page % PAGES, |data|);
    if WriteTarget(d.sys, kw, full).None? && k == kw {
      FindIsExact(d.sys.m, kw);
      FlatWriteIsPatch(f, path, page, data, k);
    }
  }

  lemma OriginStaysPast(d: Store, f: Flat, before: seq<Event>, op: Op, k: Key)
    requires StoreInv(d, Replay(f, before)) && OriginIsPast(d, f, before) && CanDo(d, op)
    requires Safe(d, op) && KeepsOrigin(d, op)
    ensures WasHeld(f, before + [EventOf(d, op)], k, Do(d, op).origin[k])
  {
    var g, ev := Replay(f, before), EventOf(d, op);
    OriginChanges(d, g, op, k);
    StaysHeld(f, before, ev, k, d.origin[k]);
    if op.WritebackStore? {
      StaysHeld(f, before, ev, FlightKey(d), d.io.buf);
    } else if IsRequest(op) {
      ReplayOneMore(f, before, ev);
      if Do(d, op).origin[k] == FlatBlock(FlatApply(g, ev), k) {
        HeldNow(f, before + [ev], k, Do(d, op).origin[k]);
      }
    }
  }

  lemma BeginLoadsNothing(d: Store, op: Op)
    requires StoreSane(d) && CanDo(d, op)
    ensures Do(d, op).sys.w.WritingBack? && Do(d, op).io.Loaded? ==>
              d.sys.w.WritingBack? && !op.EndWriteback? && (op.WritebackLoad? || d.io == Do(d, op).io)
  {
    if op.Write? && CheckPio(op.page, |op.data|) {
      RequestKeepsWorker(d, KeyOf(op.path, op.page), op.page % PAGES, op.data);
    }
  }

  lemma RequestKeepsWorker(d: Store, k: Key, at: nat, data: seq<Data>)
    requires StoreSane(d) && at + |data| <= PAGES
    ensures DoWrite(d, k, at, data).sys.w == d.sys.w && DoWrite(d, k, at, data).io == d.io
  {
  }

  /** What a write-back loads is the current block of its key. */
  lemma LoadedImageIsPast(d: Store, f: Flat, before: seq<Event>, op: Op)
    requires StoreInv(d, Replay(f, before)) && OriginIsPast(d, f, before) && CanDo(d, op)
    requires Safe(d, op) && KeepsOrigin(d, op)
    requires d.sys.w.WritingBack? && !op.EndWriteback? && StoreSane(Do(d, op)) && Do(d, op).io.Loaded?
    requires op.WritebackLoad? || d.io == Do(d, op).io
    ensures Do(d, op).sys.w.WritingBack?
    ensures WasHeld(f, before + [EventOf(d, op)], FlightKey(Do(d, op)), Do(d, op).io.buf)
  {
    var ev := EventOf(d, op);
    OpKeepsFlight(d, Replay(f, before), op);
    if op.WritebackLoad? {
      HeldNow(f, before, FlightKey(d), d.ssd[d.sys.w.cblock]);
    }
    StaysHeld(f, before, ev, FlightKey(d), Do(d, op).io.buf);
  }

  lemma StepKeepsPast(d: Store, f: Flat, before: seq<Event>, op: Op)
    requires StoreInv(d, Replay(f, before)) && OriginIsPast(d, f, before) && CanDo(d, op)
    requires Safe(d, op) && KeepsOrigin(d, op)
    ensures StoreSane(Do(d, op)) && OriginIsPast(Do(d, op), f, before + [EventOf(d, op)])
  {
    var e := Do(d, op);
    OpKeepsInv(d, Replay(f, before), op, FlatApply(Replay(f, before), EventOf(d, op)));
    forall k: Key
      ensures WasHeld(f, before + [EventOf(d, op)], k, e.origin[k])
    {
      OriginStaysPast(d, f, before, op, k);
    }
    BeginLoadsNothing(d, op);
    if e.sys.w.WritingBack? && e.io.Loaded? {
      LoadedImageIsPast(d, f, before, op);
    }
  }

  // ---------------------------------------------------------------- runs

  /** Whatever a discard put in place, its block had held it earlier in the run. */
  ghost predicate DiscardsGoBack(f: Flat, events: seq<Event>) {
    forall j :: 0 <= j < |events| && events[j].DidDiscard? ==>
                  WasHeld(f, events[..j], events[j].key, events[j].image)
  }

  lemma DiscardsGoBackExtends(f: Flat, before: seq<Event>, e: Event)
    requires DiscardsGoBack(f, before)
    requires e.DidDiscard? ==> WasHeld(f, before, e.key, e.image)
    ensures DiscardsGoBack(f, before + [e])
  {
    var events := before + [e];
    assert events[..|before|] == before;
    assert forall i :: 0 <= i < |before| ==> events[i] == before[i] && events[..i] == before[..i];
  }

  lemma DiscardShowsOrigin(d: Store, f: Flat, before: seq<Event>, op: Op)
    requires StoreSane(d) && OriginIsPast(d, f, before) && CanDo(d, op)
    ensures var e := EventOf(d, op); e.DidDiscard? ==> WasHeld(f, before, e.key, e.image)
  {
  }

  /**
   * In every run that minds its steps, each origin block is one that its key held earlier,
   * and a discard takes its block back to such an earlier state.
   */
  lemma {:induction false} DiscardGoesBack(d: Store, f: Flat, ops: seq<Op>, rules: Rules, e: Store, events: seq<Event>)
    requires InitialStore(d, f) && Run(d, ops, rules) == Some((e, events)) && !rules.AsWritten? && rules.origin
    ensures StoreSane(e) && OriginIsPast(e, f, events) && DiscardsGoBack(f, events)
  {
    InitialStoreInv(d, f);
    if ops == [] {
      forall k: Key
        ensures WasHeld(f, events, k, d.origin[k])
      {
        HeldNow(f, events, k, d.origin[k]);
      }
    } else {
      var n := |ops| - 1;
      var e0, before := RunSplits(d, ops, rules, e, events);
      DiscardGoesBack(d, f, ops[..n], rules, e0, before);
      RunFromGoodState(d, f, ops[..n], rules, e0, before);
      StepKeepsPast(e0, f, before, ops[n]);
      DiscardShowsOrigin(e0, f, before, ops[n]);
      DiscardsGoBackExtends(f, before, EventOf(e0, ops[n]));
    }
  }

  // ---------------------------------------------------------------- what a discard loses

  /** Putting a block in place of itself changes nothing. */
  lemma DiscardOfSame(f: Flat, k: Key)
    ensures FlatApply(f, DidDiscard(k, FlatBlock(f, k))) == f
  {
    var g := FlatApply(f, DidDiscard(k, FlatBlock(f, k)));
    forall p: Page
      ensures g[p] == f[p]
    {
      if Covers(k.path, PAGES * k.index, PAGES, p) {
        assert p == PageAt(k, p.index - PAGES * k.index);
      }
    }
  }

  /** The discard of `k` in `d` leaves flat store `f` as it is, in the state and in what it shows. */
  ghost predicate DiscardChangesNothing(d: Store, f: Flat, k: Key)
    requires StoreSane(d) && Enabled(d.sys, Remove(k))
  {
    StoreInv(DoDiscard(d, k), f) && FlatApply(f, DidDiscard(k, d.origin[k])) == f
  }

  lemma DiscardOfServed(d: Store, f: Flat, k: Key)
    requires StoreInv(d, f) && Enabled(d.sys, Remove(k)) && PAGES * k.index < U32 && OriginServes(d, k)
    ensures DiscardChangesNothing(d, f, k)
  {
    OriginServesCurrent(d, f, k);
    DiscardOfSame(f, k);
    DiscardStep(d, f, k);
  }

  /** A discard that exposes another block than the current one changes the flat store. */
  lemma DiscardShows(d: Store, f: Flat, k: Key)
    requires StoreSane(d) && Enabled(d.sys, Remove(k)) && d.origin[k] != FlatBlock(f, k)
    requires PAGES * k.index < U32
    ensures !DiscardChangesNothing(d, f, k)
  {
    DiscardPatches(f, k, d.origin[k]);
  }

  /**
   * A discard changes nothing, whatever the origin holds, iff the block is not cached or
   * cached clean with nothing left to mark.
   */
  lemma DiscardLosesNothingIff(d: Store, f: Flat, k: Key)
    requires StoreInv(d, f) && Enabled(d.sys, Remove(k)) && PAGES * k.index < U32
    ensures (forall image: Block :: StoreInv(WithOrigin(d, k, image), f) ==>
                                      DiscardChangesNothing(WithOrigin(d, k, image), f, k))
            <==> OriginServes(d, k)
  {
    if OriginServes(d, k) {
      forall image: Block | StoreInv(WithOrigin(d, k, image), f)
        ensures DiscardChangesNothing(WithOrigin(d, k, image), f, k)
      {
        DiscardOfServed(WithOrigin(d, k, image), f, k);
      }
    } else {
      var image := OtherBlock(FlatBlock(f, k));
      OriginIsAnything(d, f, k, image);
      DiscardShows(WithOrigin(d, k, image), f, k);
    }
  }
}
