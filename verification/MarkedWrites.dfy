/**
 * The gap between a write's device transfer and `set_dirty_after_write`. Migrations may begin
 * and end in it, any number of times: the written block stays cached and current, and its
 * mark finds it.
 */
module MarkedWrites {
  import opened CacheTypes
  import opened CacheStore
  import opened FlatStore
  import opened MappingState
  import opened MappingTable
  import opened Protocol
  import opened RequestSteps
  import opened StoreRefinement
  import opened WholeRequests
  import opened WorkerSteps

  /** User `u` has yet to mark block `c`, which holds key `k` and is not being demoted. */
  ghost predicate AwaitsMark(d: Store, u: nat, c: nat, k: Key) {
    && StoreSane(d) && u < |d.users| && d.users[u] == ToMark(c)
    && Serves(d.sys, c, k) && !IsVictim(d, c)
  }

  /** `e` follows `d` in that, and no data is still to come that has come before. */
  ghost predicate StillAwaits(d: Store, e: Store, u: nat, c: nat, k: Key) {
    AwaitsMark(e, u, c, k) && (c in e.unwritten ==> c in d.unwritten)
  }

  /** A step between two states of the mapping leaves block `c` with its key. */
  ghost predicate KeepsServing(s: Sys, t: Sys, c: nat, k: Key) {
    && Sane(s) && Sane(t) && |t.m.cells| == |s.m.cells| && Serves(s, c, k)
    && Serves(t, c, k) && (t.w.Demoting? && t.w.Holds(c) ==> s.w.Demoting? && s.w.Holds(c))
  }

  // ---------------------------------------------------------------- sections of users

  lemma LookupServes(s: Sys, k': Key, full: bool, c: nat, k: Key)
    requires ProtocolInv(s) && Sane(s) && Serves(s, c, k)
    ensures KeepsServing(s, AfterWriteLookup(s, k', full), c, k)
    ensures Find(s.m, k').None? ==> WriteTarget(s, k', full) != Some(c)
  {
    if Find(s.m, k').Some? {
      LookupIsQuiet(s, k');
    } else if WriteTarget(s, k', full).Some? {
      InsertionForm(s, k');
    } else {
      MissOnlyQueues(s, k', full);
    }
  }

  lemma WriteServes(s: Sys, k': Key, full: bool, c: nat, k: Key)
    requires ProtocolInv(s) && Sane(s) && Serves(s, c, k)
    ensures var t := AfterWriteLookup(s, k', full);
            WriteTarget(s, k', full).Some? ==>
              && WriteTarget(s, k', full).value < |t.m.cells|
              && KeepsServing(s, t.(m := SetDirtyAfterWrite(t.m, WriteTarget(s, k', full).value)), c, k)
  {
    if Find(s.m, k').Some? {
      HitSections(s, k', full);
    } else if WriteTarget(s, k', full).Some? {
      InsertForm(s, k');
    }
  }

  lemma WriteAwaits(d: Store, op: Op, u: nat, c: nat, k: Key)
    requires ProtocolInv(d.sys) && AwaitsMark(d, u, c, k) && op.Write? && CanDo(d, op)
    ensures StillAwaits(d, Do(d, op), u, c, k)
  {
    if CheckPio(op.page, |op.data|) {
      var k', full := KeyOf(op.path, op.page), Overwritable(op.page % PAGES, |op.data|);
      WriteOp(d, op);
      LookupServes(d.sys, k', full, c, k);
      WriteServes(d.sys, k', full, c, k);
      HitIsSane(d, Do(d, op));
    }
  }

  lemma StartReadAwaits(d: Store, op: Op, u: nat, c: nat, k: Key)
    requires ProtocolInv(d.sys) && AwaitsMark(d, u, c, k) && op.StartRead? && CanDo(d, op)
    ensures StillAwaits(d, Do(d, op), u, c, k)
  {
    StartReadIsSane(d, op.u, op.path, op.page, op.count);
    LookupServes(d.sys, KeyOf(op.path, op.page), false, c, k);
  }

  lemma StartWriteAwaits(d: Store, op: Op, u: nat, c: nat, k: Key)
    requires ProtocolInv(d.sys) && AwaitsMark(d, u, c, k) && op.StartWrite? && CanDo(d, op)
    ensures StillAwaits(d, Do(d, op), u, c, k)
  {
    StartWriteIsSane(d, op.u, op.path, op.page, op.data);
    LookupServes(d.sys, KeyOf(op.path, op.page), Overwritable(op.page % PAGES, |op.data|), c, k);
  }

  lemma ReadAwaits(d: Store, op: Op, u: nat, c: nat, k: Key)
    requires ProtocolInv(d.sys) && AwaitsMark(d, u, c, k) && op.Read? && CanDo(d, op)
    ensures StillAwaits(d, Do(d, op), u, c, k)
  {
    LookupServes(d.sys, KeyOf(op.path, op.page), false, c, k);
  }

  /** Whether the operation discards the block of key `k`. */
  predicate Discards(op: Op, k: Key) {
    op.Discard? && op.page < U32 && CheckPio(op.page, op.count) && KeyOf(op.path, op.page) == k
  }

  lemma DiscardAwaits(d: Store, op: Op, u: nat, c: nat, k: Key)
    requires ProtocolInv(d.sys) && AwaitsMark(d, u, c, k) && op.Discard? && CanDo(d, op) && !Discards(op, k)
    ensures StillAwaits(d, Do(d, op), u, c, k)
  {
    if CheckPio(op.page, op.count) {
      var k' := KeyOf(op.path, op.page);
      DiscardOp(d, op);
      FindIsExact(d.sys.m, k');
      if Find(d.sys.m, k').Some? {
        DiscardForm(d, k');
      }
    }
  }

  lemma MarkAwaits(d: Store, op: Op, u: nat, c: nat, k: Key)
    requires ProtocolInv(d.sys) && AwaitsMark(d, u, c, k) && op.Mark? && CanDo(d, op) && op.u != u
    ensures StillAwaits(d, Do(d, op), u, c, k)
  {
    MarkForm(d, op.u);
  }

  lemma TransferAwaits(d: Store, op: Op, u: nat, c: nat, k: Key)
    requires AwaitsMark(d, u, c, k) && op.Transfer? && CanDo(d, op)
    ensures StillAwaits(d, Do(d, op), u, c, k)
  {
    TransferIsSane(d, op.u);
  }

  lemma RequestAwaits(d: Store, op: Op, u: nat, c: nat, k: Key)
    requires ProtocolInv(d.sys) && AwaitsMark(d, u, c, k) && IsRequest(op) && CanDo(d, op)
    requires op != Mark(u) && !Discards(op, k)
    ensures StillAwaits(d, Do(d, op), u, c, k)
  {
    match op
    case Read(_, _, _) => ReadAwaits(d, op, u, c, k);
    case Write(_, _, _) => WriteAwaits(d, op, u, c, k);
    case Discard(_, _, _) => DiscardAwaits(d, op, u, c, k);
    case StartRead(_, _, _, _) => StartReadAwaits(d, op, u, c, k);
    case StartWrite(_, _, _, _) => StartWriteAwaits(d, op, u, c, k);
    case Transfer(_) => TransferAwaits(d, op, u, c, k);
    case Mark(_) => MarkAwaits(d, op, u, c, k);
  }

  // ---------------------------------------------------------------- sections of the worker

  /** The sections that can put block `c` in flight or take it out, but for a demotion of it. */
  lemma SectionServes(s: Sys, st: Step, c: nat, k: Key)
    requires ProtocolInv(s) && Sane(s) && Enabled(s, st) && Serves(s, c, k) && !(s.w.Demoting? && s.w.Holds(c))
    requires st.Peek? || st.PopWork? || st.TryPromotion? || st.TryWriteback? || st.PromotionDone?
             || st == DemotionDone(true) || st.WritebackDone?
    ensures KeepsServing(s, Apply(s, st), c, k)
  {
    match st
    case Peek =>
    case PopWork =>
    case TryPromotion => TryPromotionBegins(s);
    case TryWriteback => TryWritebackBegins(s);
    case PromotionDone(ok) => EndPromotionView(s, ok);
    case DemotionDone(_) => EndDemotionView(s);
    case WritebackDone(ok) => EndWritebackView(s, ok);
  }

  lemma DemotionServes(s: Sys, c: nat, k: Key)
    requires ProtocolInv(s) && s.w.NoFree? && Serves(s, c, k) && (CanDemote(s.m) ==> s.m.clean[0] != c)
    ensures KeepsServing(s, Apply(s, TryDemotion), c, k)
  {
    TryDemotionBegins(s);
  }

  lemma WorkerAwaits(d: Store, op: Op, u: nat, c: nat, k: Key)
    requires ProtocolInv(d.sys) && AwaitsMark(d, u, c, k) && !IsRequest(op) && CanDo(d, op) && Safe(d, op)
    ensures StillAwaits(d, Do(d, op), u, c, k)
  {
    if op.BeginDemotion? {
      assert Unsettled(d, c);
      DemotionServes(d.sys, c, k);
      SectionAwaits(d, op, u, c, k);
    } else if SectionOf(op).Some? {
      SectionServes(d.sys, SectionOf(op).value, c, k);
      SectionAwaits(d, op, u, c, k);
    } else {
      ImageAwaits(d, op, u, c, k);
    }
  }

  lemma SectionAwaits(d: Store, op: Op, u: nat, c: nat, k: Key)
    requires AwaitsMark(d, u, c, k) && CanDo(d, op) && SectionOf(op).Some? && Enabled(d.sys, SectionOf(op).value)
    requires KeepsServing(d.sys, Apply(d.sys, SectionOf(op).value), c, k)
    ensures StillAwaits(d, Do(d, op), u, c, k)
  {
    var e := Do(d, op);
    assert e.sys == Apply(d.sys, SectionOf(op).value) && e.users == d.users && e.unwritten == d.unwritten;
  }

  lemma ImageAwaits(d: Store, op: Op, u: nat, c: nat, k: Key)
    requires AwaitsMark(d, u, c, k) && CanDo(d, op) && !IsRequest(op) && SectionOf(op).None?
    ensures StillAwaits(d, Do(d, op), u, c, k)
  {
  }

  // ---------------------------------------------------------------- runs

  lemma OpAwaits(d: Store, f: Flat, op: Op, u: nat, c: nat, k: Key)
    requires StoreInv(d, f) && AwaitsMark(d, u, c, k) && CanDo(d, op) && Safe(d, op)
    requires op != Mark(u) && !Discards(op, k)
    ensures StillAwaits(d, Do(d, op), u, c, k)
  {
    if IsRequest(op) {
      RequestAwaits(d, op, u, c, k);
    } else {
      WorkerAwaits(d, op, u, c, k);
    }
  }

  /** User `u` does not mark its block meanwhile, and nobody discards the one under `k`. */
  predicate Spares(ops: seq<Op>, u: nat, k: Key) {
    forall i :: 0 <= i < |ops| ==> ops[i] != Mark(u) && !Discards(ops[i], k)
  }

  lemma SparesSplits(ops: seq<Op>, u: nat, k: Key)
    requires Spares(ops, u, k) && ops != []
    ensures Spares(ops[..|ops| - 1], u, k) && ops[|ops| - 1] != Mark(u) && !Discards(ops[|ops| - 1], k)
  {
  }

  /** As long as its mark is to come and nobody discards it, a written block stays. */
  lemma {:induction false} RunAwaits(d: Store, f: Flat, u: nat, c: nat, k: Key, ops: seq<Op>, rules: Rules,
                                     e: Store, events: seq<Event>)
    requires StoreInv(d, f) && AwaitsMark(d, u, c, k)
    requires Run(d, ops, rules) == Some((e, events)) && !rules.AsWritten?
    requires Spares(ops, u, k)
    ensures StillAwaits(d, e, u, c, k)
  {
    if ops != [] {
      var n := |ops| - 1;
      var e0, before := RunSplits(d, ops, rules, e, events);
      SparesSplits(ops, u, k);
      RunAwaits(d, f, u, c, k, ops[..n], rules, e0, before);
      OneMoreAwaits(d, f, u, c, k, ops[..n], rules, e0, before, ops[n]);
    }
  }

  lemma OneMoreAwaits(d: Store, f: Flat, u: nat, c: nat, k: Key, ops: seq<Op>, rules: Rules,
                      e: Store, events: seq<Event>, op: Op)
    requires StoreInv(d, f) && Run(d, ops, rules) == Some((e, events)) && !rules.AsWritten?
    requires StillAwaits(d, e, u, c, k) && CanDo(e, op) && Allowed(e, op, rules)
    requires op != Mark(u) && !Discards(op, k)
    ensures StillAwaits(d, Do(e, op), u, c, k)
  {
    RunFromGoodState(d, f, ops, rules, e, events);
    AllowedIsSafe(e, op, rules);
    OpAwaits(e, Replay(f, events), op, u, c, k);
  }

  // ---------------------------------------------------------------- the mark

  /**
   * Block `c` holds key `k`, is marked dirty and, when not in flight, on the dirty list; what
   * it holds is current and is what is served, unless its data is still to come.
   */
  ghost predicate IsMarked(d: Store, g: Flat, c: nat, k: Key) {
    && StoreSane(d) && StoreInv(d, g) && Serves(d.sys, c, k) && d.sys.m.cells[c].dirty
    && (!d.sys.w.Holds(c) ==> c in d.sys.m.dirty)
    && (c !in d.unwritten ==> d.ssd[c] == FlatBlock(g, k) && Visible(d, k) == FlatBlock(g, k))
  }

  lemma MarkFinds(d: Store, g: Flat, u: nat, c: nat, k: Key)
    requires StoreInv(d, g) && AwaitsMark(d, u, c, k)
    ensures CanDo(d, Mark(u)) && IsMarked(Do(d, Mark(u)), g, c, k)
  {
    var e := DoMark(d, u);
    MarkForm(d, u);
    MarkStep(d, g, Mark(u));
    HashedIsAllocated(d.sys.m, c);
    MarkedIsServed(e, g, c, k);
  }

  lemma HashedIsAllocated(m: State, c: nat)
    requires Inv(m) && c < |m.cells| && Hashed(m, c)
    ensures m.cells[c].alloc
  {
    InChainIsHashed(m, HomeBucket(m, c), c);
  }

  lemma MarkedIsServed(e: Store, g: Flat, c: nat, k: Key)
    requires StoreInv(e, g) && Serves(e.sys, c, k) && e.sys.m.cells[c].dirty && !IsVictim(e, c)
    ensures IsMarked(e, g, c, k)
  {
    FindIsExact(e.sys.m, k);
    HashedIsAllocated(e.sys.m, c);
    if c !in e.unwritten {
      VisibleIsCurrent(e, g, k);
    }
  }

  /** The transfer of user `u`'s write to its block. */
  ghost predicate WritesBlock(d: Store, u: nat, c: nat, k: Key) {
    && StoreSane(d) && CanDo(d, Transfer(u)) && d.users[u].ToWrite? && d.users[u].to == Some(c)
    && UserSane(d.users[u], |d.ssd|) && k == KeyOf(d.users[u].path, d.users[u].page)
    && Serves(d.sys, c, k) && !IsVictim(d, c)
  }

  lemma TransferStartsWait(d: Store, f: Flat, u: nat, c: nat, k: Key)
    requires StoreInv(d, f) && WritesBlock(d, u, c, k)
    ensures var p := d.users[u];
            && AwaitsMark(DoTransfer(d, u), u, c, k)
            && StoreInv(DoTransfer(d, u), FlatWrite(f, p.path, p.page, p.data))
            && (c in DoTransfer(d, u).unwritten ==> c in d.unwritten && !Overwritable(p.page % PAGES, |p.data|))
  {
    TransferToSsd(d, f, u);
  }

  /**
   * A write is transferred to its block; then come any steps, with any number of write-backs
   * of the block begun and ended, but no discard of it; then the block is marked. It has
   * been cached all the time, it is dirty again, and what it holds and is served is what the
   * write and the steps after it made of it, whatever the write-backs put at the origin.
   */
  lemma TransferredWriteIsKept(d: Store, f: Flat, u: nat, c: nat, k: Key, ops: seq<Op>, rules: Rules,
                               e: Store, events: seq<Event>)
    requires StoreInv(d, f) && WritesBlock(d, u, c, k)
    requires Run(DoTransfer(d, u), ops, rules) == Some((e, events)) && !rules.AsWritten?
    requires Spares(ops, u, k)
    ensures StoreSane(e) && CanDo(e, Mark(u))
    ensures var p, e' := d.users[u], Do(e, Mark(u));
            && IsMarked(e', Replay(FlatWrite(f, p.path, p.page, p.data), events), c, k)
            && (c in e'.unwritten ==> c in d.unwritten && !Overwritable(p.page % PAGES, |p.data|))
  {
    var p := d.users[u];
    var d1, g := DoTransfer(d, u), FlatWrite(f, p.path, p.page, p.data);
    TransferStartsWait(d, f, u, c, k);
    RunFromGoodState(d1, g, ops, rules, e, events);
    RunAwaits(d1, g, u, c, k, ops, rules, e, events);
    MarkFinds(e, Replay(g, events), u, c, k);
  }
}
