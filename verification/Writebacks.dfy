/**
 * Write-backs: a write that overtakes one is never lost, and exactly when a failed one
 * does harm.
 */
module Writebacks {
  import opened CacheTypes
  import opened CacheStore
  import opened FlatStore
  import opened MappingState
  import opened MappingTable
  import opened MappingInvariant
  import opened Protocol
  import opened RequestSteps
  import opened StoreRefinement
  import opened WholeRequests
  import opened WorkerSteps

  /** The entry being written back in `d` is still in flight in `e`, under its key, and no less dirty. */
  ghost predicate SameFlight(d: Store, e: Store) {
    && StoreSane(d) && StoreSane(e) && d.sys.w.WritingBack? && e.sys.w == d.sys.w
    && FlightKey(e) == FlightKey(d)
    && (d.sys.m.cells[d.sys.w.cblock].dirty ==> e.sys.m.cells[d.sys.w.cblock].dirty)
    && (d.sys.w.cblock in e.unwritten ==> d.sys.w.cblock in d.unwritten)
  }

  lemma HitKeepsFlight(d: Store, k: Key, at: nat, data: seq<Data>)
    requires ProtocolInv(d.sys) && StoreSane(d) && at + |data| <= PAGES
    requires d.sys.w.WritingBack? && Find(d.sys.m, k).Some?
    ensures SameFlight(d, DoWrite(d, k, at, data))
  {
    HitForm(d, k, at, data);
  }

  lemma InsertKeepsFlight(d: Store, k: Key, at: nat, data: seq<Data>)
    requires ProtocolInv(d.sys) && StoreSane(d) && at < PAGES && Overwritable(at, |data|) && d.sys.w.WritingBack?
    requires Find(d.sys.m, k).None? && LookupInsertResult(d.sys, k).Some?
    ensures SameFlight(d, DoWrite(d, k, at, data))
  {
    InsertForm(d.sys, k);
  }

  lemma MissKeepsFlight(d: Store, k: Key, at: nat, data: seq<Data>)
    requires ProtocolInv(d.sys) && StoreSane(d) && at + |data| <= PAGES && d.sys.w.WritingBack?
    requires WriteTarget(d.sys, k, Overwritable(at, |data|)).None?
    ensures SameFlight(d, DoWrite(d, k, at, data))
  {
    MissOnlyQueues(d.sys, k, Overwritable(at, |data|));
  }

  lemma WriteKeepsFlight(d: Store, k: Key, at: nat, data: seq<Data>)
    requires ProtocolInv(d.sys) && StoreSane(d) && at + |data| <= PAGES && d.sys.w.WritingBack?
    ensures SameFlight(d, DoWrite(d, k, at, data))
  {
    if Find(d.sys.m, k).Some? {
      HitKeepsFlight(d, k, at, data);
    } else if WriteTarget(d.sys, k, Overwritable(at, |data|)).Some? {
      InsertKeepsFlight(d, k, at, data);
    } else {
      MissKeepsFlight(d, k, at, data);
    }
  }

  lemma DiscardKeepsFlight(d: Store, f: Flat, k: Key)
    requires StoreInv(d, f) && Enabled(d.sys, Remove(k)) && d.sys.w.WritingBack?
    ensures SameFlight(d, DoDiscard(d, k))
  {
    if Find(d.sys.m, k).Some? {
      DiscardForm(d, k);
    }
  }

  lemma StartReadKeepsFlight(d: Store, f: Flat, op: Op)
    requires StoreInv(d, f) && d.sys.w.WritingBack? && op.StartRead? && CanDo(d, op)
    ensures SameFlight(d, Do(d, op))
  {
    StartReadStep(d, f, op);
    LookupIsQuiet(d.sys, KeyOf(op.path, op.page));
  }

  lemma StartWriteKeepsFlight(d: Store, f: Flat, op: Op)
    requires StoreInv(d, f) && d.sys.w.WritingBack? && op.StartWrite? && CanDo(d, op)
    ensures SameFlight(d, Do(d, op))
  {
    StartWriteIsSane(d, op.u, op.path, op.page, op.data);
    LookupKeepsEntry(d.sys, KeyOf(op.path, op.page), Overwritable(op.page % PAGES, |op.data|));
  }

  /** The lookup section of a write leaves the entry in flight as it is, and inserts another one. */
  lemma LookupKeepsEntry(s: Sys, k: Key, full: bool)
    requires ProtocolInv(s) && s.w.WritingBack?
    ensures var t := AfterWriteLookup(s, k, full);
            && t.w == s.w && |t.m.cells| == |s.m.cells| && t.m.cells[s.w.cblock] == s.m.cells[s.w.cblock]
            && (Find(s.m, k).None? ==> WriteTarget(s, k, full) != Some(s.w.cblock))
  {
    if Find(s.m, k).Some? {
      LookupIsQuiet(s, k);
    } else if WriteTarget(s, k, full).Some? {
      InsertionForm(s, k);
    } else {
      MissOnlyQueues(s, k, full);
    }
  }

  lemma MarkKeepsFlight(d: Store, f: Flat, op: Op)
    requires StoreInv(d, f) && d.sys.w.WritingBack? && op.Mark? && CanDo(d, op)
    ensures SameFlight(d, Do(d, op))
  {
    assert UserSane(d.users[op.u], |d.ssd|);
    MarkStep(d, f, op);
    SetDirtyKeepsInv(d.sys.m, d.users[op.u].block);
  }

  lemma TransferKeepsFlight(d: Store, op: Op)
    requires StoreSane(d) && d.sys.w.WritingBack? && op.Transfer? && CanDo(d, op)
    ensures SameFlight(d, Do(d, op))
  {
    assert UserSane(d.users[op.u], |d.ssd|);
  }

  /** Until its end section nothing takes the entry of a write-back out of flight or cleans it. */
  lemma OpKeepsFlight(d: Store, f: Flat, op: Op)
    requires StoreInv(d, f) && d.sys.w.WritingBack? && CanDo(d, op) && !op.EndWriteback?
    ensures SameFlight(d, Do(d, op))
  {
    if IsRequest(op) {
      RequestKeepsFlight(d, f, op);
    } else {
      TransferOfImage(d, op);
    }
  }

  lemma TransferOfImage(d: Store, op: Op)
    requires StoreSane(d) && d.sys.w.WritingBack? && CanDo(d, op) && !op.EndWriteback? && !IsRequest(op)
    ensures SameFlight(d, Do(d, op))
  {
  }

  lemma RequestKeepsFlight(d: Store, f: Flat, op: Op)
    requires StoreInv(d, f) && d.sys.w.WritingBack? && CanDo(d, op) && IsRequest(op)
    ensures SameFlight(d, Do(d, op))
  {
    match op
    case Read(_, _, _) => ReadKeepsFlight(d, op);
    case Write(_, _, _) => WriteRequestKeepsFlight(d, op);
    case Discard(_, _, _) => DiscardRequestKeepsFlight(d, f, op);
    case StartRead(_, _, _, _) => StartReadKeepsFlight(d, f, op);
    case StartWrite(_, _, _, _) => StartWriteKeepsFlight(d, f, op);
    case Transfer(_) => TransferKeepsFlight(d, op);
    case Mark(_) => MarkKeepsFlight(d, f, op);
  }

  lemma ReadKeepsFlight(d: Store, op: Op)
    requires ProtocolInv(d.sys) && StoreSane(d) && d.sys.w.WritingBack? && op.Read? && CanDo(d, op)
    ensures SameFlight(d, Do(d, op))
  {
    LookupIsQuiet(d.sys, KeyOf(op.path, op.page));
  }

  lemma WriteRequestKeepsFlight(d: Store, op: Op)
    requires ProtocolInv(d.sys) && StoreSane(d) && d.sys.w.WritingBack? && op.Write? && CanDo(d, op)
    ensures SameFlight(d, Do(d, op))
  {
    if CheckPio(op.page, |op.data|) {
      WriteKeepsFlight(d, KeyOf(op.path, op.page), op.page % PAGES, op.data);
    }
  }

  lemma DiscardRequestKeepsFlight(d: Store, f: Flat, op: Op)
    requires StoreInv(d, f) && d.sys.w.WritingBack? && op.Discard? && CanDo(d, op)
    ensures SameFlight(d, Do(d, op))
  {
    if CheckPio(op.page, op.count) {
      DiscardKeepsFlight(d, f, KeyOf(op.path, op.page));
    }
  }

  lemma StillInFlight(d: Store, e: Store, g: Flat, op: Op)
    requires SameFlight(d, e) && StoreInv(e, g) && CanDo(e, op) && !op.EndWriteback?
    ensures SameFlight(d, Do(e, op))
  {
    OpKeepsFlight(e, g, op);
  }

  lemma {:induction false} RunKeepsFlight(d: Store, f: Flat, ops: seq<Op>, rules: Rules, e: Store, events: seq<Event>)
    requires StoreInv(d, f) && d.sys.w.WritingBack?
    requires Run(d, ops, rules) == Some((e, events)) && !rules.AsWritten?
    requires forall i :: 0 <= i < |ops| ==> !ops[i].EndWriteback?
    ensures SameFlight(d, e)
  {
    if ops != [] {
      var n := |ops| - 1;
      var e0, before := RunSplits(d, ops, rules, e, events);
      RunKeepsFlight(d, f, ops[..n], rules, e0, before);
      RunFromGoodState(d, f, ops[..n], rules, e0, before);
      StillInFlight(d, e0, Replay(f, before), ops[n]);
    }
  }

  /** Entry `c` is on the dirty list, and key `k` is served from it with its current pages. */
  ghost predicate KeptDirty(d: Store, g: Flat, c: nat, k: Key) {
    && StoreSane(d) && StoreInv(d, g)
    && c in d.sys.m.dirty && c < |d.ssd| && d.sys.m.cells[c].key == k
    && d.ssd[c] == FlatBlock(g, k) && Visible(d, k) == FlatBlock(g, k)
  }

  lemma DirtyEntryIsServed(d: Store, g: Flat, c: nat)
    requires StoreInv(d, g) && !d.io.Trimmed? && c < |d.ssd| && c !in d.unwritten
    requires Hashed(d.sys.m, c) && Listed(d.sys.m.cells[c], true)
    ensures KeptDirty(d, g, c, d.sys.m.cells[c].key)
  {
    FindIsExact(d.sys.m, d.sys.m.cells[c].key);
  }

  lemma OvertakenEntryStaysDirty(s: Sys, ok: bool)
    requires ProtocolInv(s) && s.w.WritingBack? && s.m.cells[s.w.cblock].dirty
    ensures var c, t := s.w.cblock, Apply(s, WritebackDone(ok));
            && Bounded(t.m) && c < |t.m.cells| && Hashed(t.m, c)
            && Listed(t.m.cells[c], true) && t.m.cells[c].key == s.m.cells[c].key
  {
    WritebackCompleteKeepsInv(s.m, s.w.cblock, ok);
  }

  /** Whether it succeeds or fails, a write-back of an entry dirtied meanwhile puts it on the dirty list. */
  lemma OvertakenWritebackEnds(d: Store, g: Flat, ok: bool)
    requires StoreInv(d, g) && d.sys.w.WritingBack? && d.sys.m.cells[d.sys.w.cblock].dirty
    requires d.sys.w.cblock !in d.unwritten
    requires CanDo(d, EndWriteback(ok))
    ensures KeptDirty(Do(d, EndWriteback(ok)), g, d.sys.w.cblock, FlightKey(d))
  {
    WritebackOps(d, g, EndWriteback(ok));
    OvertakenEntryStaysDirty(d.sys, ok);
    DirtyEntryIsServed(Do(d, EndWriteback(ok)), g, d.sys.w.cblock);
  }

  lemma WriteDirtiesFlight(d: Store, f: Flat, op: Op)
    requires StoreInv(d, f) && d.sys.w.WritingBack?
    requires op.Write? && CanDo(d, op) && CheckPio(op.page, |op.data|) && KeyOf(op.path, op.page) == FlightKey(d)
    ensures Safe(d, op) && StoreInv(Do(d, op), FlatApply(f, EventOf(d, op)))
    ensures SameFlight(d, Do(d, op)) && Do(d, op).sys.m.cells[d.sys.w.cblock].dirty
    ensures Overwritable(op.page % PAGES, |op.data|) ==> d.sys.w.cblock !in Do(d, op).unwritten
  {
    FindIsExact(d.sys.m, FlightKey(d));
    WriteOp(d, op);
    HitForm(d, FlightKey(d), op.page % PAGES, op.data);
    OpKeepsInv(d, f, op, FlatApply(f, EventOf(d, op)));
    OpKeepsFlight(d, f, op);
  }

  /**
   * A write to a block that is being written back, at any moment between the begin and the
   * end section, followed by any further steps, and the end, successful or not: the entry
   * goes back to the dirty list and its SSD block, which is what is served, is current,
   * whatever image the origin got. Where the block was inserted and its data is still to
   * come, it is current once it is written in full.
   */
  lemma WriteDuringWritebackIsKept(d: Store, f: Flat, op: Op, ops: seq<Op>, rules: Rules,
                                   e: Store, events: seq<Event>, ok: bool)
    requires StoreInv(d, f) && d.sys.w.WritingBack? && !rules.AsWritten?
    requires op.Write? && CanDo(d, op) && CheckPio(op.page, |op.data|) && KeyOf(op.path, op.page) == FlightKey(d)
    requires d.sys.w.cblock in d.unwritten ==> Overwritable(op.page % PAGES, |op.data|)
    requires StoreSane(Do(d, op)) && Run(Do(d, op), ops, rules) == Some((e, events))
    requires forall i :: 0 <= i < |ops| ==> !ops[i].EndWriteback?
    requires ok ==> e.io.Stored?
    ensures StoreSane(e) && CanDo(e, EndWriteback(ok))
    ensures KeptDirty(Do(e, EndWriteback(ok)), Replay(FlatWrite(f, op.path, op.page, op.data), events),
                      d.sys.w.cblock, FlightKey(d))
  {
    var d1, g := Do(d, op), FlatApply(f, EventOf(d, op));
    WriteDirtiesFlight(d, f, op);
    RunFromGoodState(d1, g, ops, rules, e, events);
    RunKeepsFlight(d1, g, ops, rules, e, events);
    OvertakenWritebackEnds(e, Replay(g, events), ok);
  }

  // ---------------------------------------------------------------- what a write-back reads

  /** The same state with other contents of the block in flight. */
  ghost function WithContents(d: Store, junk: Block): Store
    requires StoreSane(d) && d.sys.w.Busy()
  {
    d.(ssd := d.ssd[d.sys.w.cblock := junk])
  }

  lemma AnyContentsAreGood(d: Store, f: Flat, junk: Block)
    requires StoreInv(d, f) && d.sys.w.WritingBack? && d.sys.w.cblock in d.unwritten
    ensures StoreInv(WithContents(d, junk), f)
  {
  }

  /** What a write-back reads is the current block of its key, whatever the device holds, iff its data is there. */
  lemma WritebackReadsCurrentIff(d: Store, f: Flat)
    requires StoreInv(d, f) && d.sys.w.WritingBack?
    ensures (forall junk: Block :: StoreInv(WithContents(d, junk), f) ==> junk == FlatBlock(f, FlightKey(d)))
            <==> d.sys.w.cblock !in d.unwritten
  {
    if d.sys.w.cblock in d.unwritten {
      AnyContentsAreGood(d, f, OtherBlock(FlatBlock(f, FlightKey(d))));
    } else {
      forall junk: Block | StoreInv(WithContents(d, junk), f)
        ensures junk == FlatBlock(f, FlightKey(d))
      {
        assert Hashed(d.sys.m, d.sys.w.cblock);
        assert WithContents(d, junk).ssd[d.sys.w.cblock] == junk;
      }
    }
  }

  // ---------------------------------------------------------------- failed write-backs

  /** The same state with another block at the origin under the key in flight. */
  ghost function WithImage(d: Store, image: Block): Store
    requires StoreSane(d) && d.sys.w.Busy()
  {
    d.(origin := d.origin[FlightKey(d) := image])
  }

  lemma FailedWritebackIsHarmless(d: Store, f: Flat)
    requires StoreInv(d, f) && d.sys.w.WritingBack? && (WrittenAgain(d) || d.io.Stored?)
    ensures StoreInv(Do(d, EndWriteback(false)), f)
  {
    WritebackOps(d, f, EndWriteback(false));
  }

  /** Before its store the origin image of a write-back is not known to be anything. */
  lemma AnyImageIsGood(d: Store, f: Flat, image: Block)
    requires StoreInv(d, f) && d.sys.w.WritingBack? && !d.io.Stored?
    ensures StoreInv(WithImage(d, image), f)
  {
    assert KeyHashed(d.sys.m, FlightKey(d));
    OthersHaveOtherKeys(d.sys.m, d.sys.w.cblock);
  }

  lemma LooksCleanButIsNot(d: Store, f: Flat)
    requires StoreInv(d, f) && d.sys.w.WritingBack? && !WrittenAgain(d)
    requires d.origin[FlightKey(d)] != FlatBlock(f, FlightKey(d))
    ensures !StoreInv(Do(d, EndWriteback(false)), f)
  {
    EndWritebackView(d.sys, false);
    var e := Do(d, EndWriteback(false));
    assert Hashed(e.sys.m, d.sys.w.cblock) && !e.sys.m.cells[d.sys.w.cblock].dirty;
  }

  ghost function OtherBlock(b: Block): (o: Block)
    ensures o != b
  {
    b[0 := b[0] + 1]
  }

  /**
   * A write-back may fail without harm, whatever the origin holds, iff its entry was
   * written again meanwhile, marked or not, or its image has reached the origin.
   */
  lemma FailedWritebackKeepsInvIff(d: Store, f: Flat)
    requires StoreInv(d, f) && d.sys.w.WritingBack?
    ensures (forall image: Block :: StoreInv(WithImage(d, image), f) ==>
                                      StoreInv(Do(WithImage(d, image), EndWriteback(false)), f))
            <==> WrittenAgain(d) || d.io.Stored?
  {
    if WrittenAgain(d) || d.io.Stored? {
      forall image: Block | StoreInv(WithImage(d, image), f)
        ensures StoreInv(Do(WithImage(d, image), EndWriteback(false)), f)
      {
        FailedWritebackIsHarmless(WithImage(d, image), f);
      }
    } else {
      var image := OtherBlock(FlatBlock(f, FlightKey(d)));
      AnyImageIsGood(d, f, image);
      LooksCleanButIsNot(WithImage(d, image), f);
    }
  }
}
