/**
 * Concrete runs of the code as written, in a cache of one or two entries, that leave `Safe`
 * and in which a read returns something else than the flat store.
 */
module LostUpdates {
  import opened CacheTypes
  import opened CacheStore
  import opened FlatStore
  import opened MappingState
  import opened MappingTable
  import opened MappingInvariant
  import opened Protocol
  import opened Replacement
  import opened Sequences
  import opened StoreLimits
  import opened RequestSteps
  import opened StoreRefinement
  import opened WholeRequests
  import opened WorkerSteps
  import Queue = QueueSpec

  /** A run the code can do whose reads are not those of the flat store. */
  ghost predicate GoesWrong(d: Store, f: Flat, ops: seq<Op>) {
    && InitialStore(d, f)
    && Run(d, ops, AsWritten).Some?
    && !ReadsAreFlat(f, Run(d, ops, AsWritten).value.1)
  }

  ghost const ZEROS: Flat := imap p: Page | true :: 0

  /** A cache of `n` entries and 8 chains over an origin full of zeros. */
  ghost function Blank(n: nat): Store {
    Store(Init(n, 8, 4), NotStarted, seq(n, _ => SEVENS), imap k: Key | true :: FlatBlock(ZEROS, k), [Nothing], {})
  }

  lemma BlankIsInitial(n: nat)
    ensures InitialStore(Blank(n), ZEROS) && ProtocolInv(Blank(n).sys) && StoreSane(Blank(n))
  {
    assert Blank(n).sys == Init(n, 8, 4);
    InitProtocolInv(n, 8, 4);
  }

  /** A run: the stores it passes with what the flat store has become, and its operations. */
  datatype Path = Path(stores: seq<Store>, flats: seq<Flat>, ops: seq<Op>)

  /** Operation `i` is one the code can do, and leads on. */
  ghost predicate StepAt(p: Path, i: nat)
    requires i < |p.ops| && |p.stores| == |p.flats| == |p.ops| + 1
  {
    var d, op := p.stores[i], p.ops[i];
    && StoreSane(d) && CanDo(d, op) && (op.Trim? ==> op.block == TRIM_BLOCK)
    && p.stores[i + 1] == Do(d, op) && p.flats[i + 1] == FlatApply(p.flats[i], EventOf(d, op))
  }

  /** `p` leads from the blank cache of `n` entries to `e`, and the flat store from zeros to `g`. */
  ghost predicate Leads(n: nat, p: Path, e: Store, g: Flat) {
    && |p.stores| == |p.flats| == |p.ops| + 1
    && p.stores[0] == Blank(n) && p.flats[0] == ZEROS
    && p.stores[|p.ops|] == e && p.flats[|p.ops|] == g && StoreSane(e)
    && forall i :: 0 <= i < |p.ops| ==> StepAt(p, i)
  }

  // ---------------------------------------------------------------- one step

  lemma StartReadKeepsProtocol(d: Store, op: Op)
    requires ProtocolInv(d.sys) && StoreSane(d) && op.StartRead? && CanDo(d, op)
    ensures ProtocolInv(Do(d, op).sys) && StoreSane(Do(d, op))
  {
    LookupIsQuiet(d.sys, KeyOf(op.path, op.page));
  }

  lemma StartWriteKeepsProtocol(d: Store, op: Op)
    requires ProtocolInv(d.sys) && StoreSane(d) && op.StartWrite? && CanDo(d, op)
    ensures ProtocolInv(Do(d, op).sys) && StoreSane(Do(d, op))
  {
    LookupOfWrite(d.sys, KeyOf(op.path, op.page), Overwritable(op.page % PAGES, |op.data|));
    StartWriteIsSane(d, op.u, op.path, op.page, op.data);
  }

  lemma TransferKeepsProtocol(d: Store, u: nat)
    requires ProtocolInv(d.sys) && StoreSane(d) && CanDo(d, Transfer(u))
    ensures ProtocolInv(DoTransfer(d, u).sys) && StoreSane(DoTransfer(d, u))
  {
    assert UserSane(d.users[u], |d.ssd|);
  }

  lemma MarkKeepsProtocol(d: Store, u: nat)
    requires ProtocolInv(d.sys) && StoreSane(d) && CanDo(d, Mark(u))
    ensures ProtocolInv(DoMark(d, u).sys) && StoreSane(DoMark(d, u))
  {
    assert UserSane(d.users[u], |d.ssd|);
    SetDirtyStep(d.sys, d.users[u].block);
  }

  lemma RequestStepKeepsProtocol(d: Store, op: Op)
    requires ProtocolInv(d.sys) && StoreSane(d) && CanDo(d, op)
    requires op.StartRead? || op.StartWrite? || op.Transfer? || op.Mark?
    ensures ProtocolInv(Do(d, op).sys) && StoreSane(Do(d, op))
  {
    if op.StartRead? {
      StartReadKeepsProtocol(d, op);
    } else if op.StartWrite? {
      StartWriteKeepsProtocol(d, op);
    } else if op.Transfer? {
      TransferKeepsProtocol(d, op.u);
    } else {
      MarkKeepsProtocol(d, op.u);
    }
  }

  lemma RequestKeepsProtocol(d: Store, op: Op)
    requires ProtocolInv(d.sys) && StoreSane(d) && CanDo(d, op) && IsRequest(op)
    ensures ProtocolInv(Do(d, op).sys) && StoreSane(Do(d, op))
  {
    match op
    case Read(path, page, _) => LookupIsQuiet(d.sys, KeyOf(path, page));
    case Write(_, _, _) => WriteKeepsProtocol(d, op);
    case Discard(_, _, _) => DiscardKeepsProtocol(d, op);
    case _ => RequestStepKeepsProtocol(d, op);
  }

  lemma WriteKeepsProtocol(d: Store, op: Op)
    requires ProtocolInv(d.sys) && StoreSane(d) && op.Write? && CanDo(d, op)
    ensures ProtocolInv(Do(d, op).sys) && StoreSane(Do(d, op))
  {
    if CheckPio(op.page, |op.data|) {
      WriteOp(d, op);
      WriteHashesItsTarget(d.sys, KeyOf(op.path, op.page), Overwritable(op.page % PAGES, |op.data|));
      HitIsSane(d, Do(d, op));
    }
  }

  lemma DiscardKeepsProtocol(d: Store, op: Op)
    requires ProtocolInv(d.sys) && StoreSane(d) && op.Discard? && CanDo(d, op)
    ensures ProtocolInv(Do(d, op).sys) && StoreSane(Do(d, op))
  {
    if CheckPio(op.page, op.count) {
      StepIsSane(d.sys, Remove(KeyOf(op.path, op.page)));
    }
  }

  /** Every operation, safe or not, keeps the protocol's invariant. */
  lemma OpKeepsProtocol(d: Store, op: Op)
    requires ProtocolInv(d.sys) && StoreSane(d) && CanDo(d, op)
    ensures ProtocolInv(Do(d, op).sys) && StoreSane(Do(d, op))
  {
    if IsRequest(op) {
      RequestKeepsProtocol(d, op);
    } else if SectionOf(op).Some? {
      StepIsSane(d.sys, SectionOf(op).value);
    }
  }

  lemma StepIsSane(s: Sys, st: Step)
    requires ProtocolInv(s) && Sane(s) && Enabled(s, st)
    ensures ProtocolInv(Apply(s, st)) && Sane(Apply(s, st)) && |Apply(s, st).m.cells| == |s.m.cells|
  {
    StepKeepsInv(s, st);
    CellCountIsConstant(s, st);
  }

  ghost function Start(n: nat): Path {
    Path([Blank(n)], [ZEROS], [])
  }

  /** The path as far as its first `m` operations. */
  ghost function UpTo(p: Path, m: nat): Path
    requires m <= |p.ops| && |p.stores| == |p.flats| == |p.ops| + 1
  {
    Path(p.stores[..m + 1], p.flats[..m + 1], p.ops[..m])
  }

  lemma UpToLeads(n: nat, p: Path, e: Store, g: Flat, m: nat)
    requires Leads(n, p, e, g) && m < |p.ops|
    ensures Leads(n, UpTo(p, m), p.stores[m], p.flats[m]) && StepAt(p, m)
  {
    assert StepAt(p, m);
    var q := UpTo(p, m);
    forall i | 0 <= i < |q.ops|
      ensures StepAt(q, i)
    {
      assert StepAt(p, i);
    }
  }

  /** A path is a run of the code as written, and the flat store the replay of what it shows. */
  lemma {:induction false} PathIsRun(n: nat, p: Path, e: Store, g: Flat)
    requires Leads(n, p, e, g)
    ensures var r := Run(Blank(n), p.ops, AsWritten);
            r.Some? && r.value.0 == e && Replay(ZEROS, r.value.1) == g
    decreases |p.ops|
  {
    if p.ops != [] {
      var m := |p.ops| - 1;
      UpToLeads(n, p, e, g, m);
      PathIsRun(n, UpTo(p, m), p.stores[m], p.flats[m]);
      LastStepIsRun(n, p, m);
    }
  }

  lemma LastStepIsRun(n: nat, p: Path, m: nat)
    requires |p.stores| == |p.flats| == |p.ops| + 1 && m + 1 == |p.ops| && StepAt(p, m)
    requires var r := Run(Blank(n), p.ops[..m], AsWritten);
             r.Some? && r.value.0 == p.stores[m] && Replay(ZEROS, r.value.1) == p.flats[m]
    ensures var r := Run(Blank(n), p.ops, AsWritten);
            r.Some? && r.value.0 == p.stores[m + 1] && Replay(ZEROS, r.value.1) == p.flats[m + 1]
  {
    ReplayOneMore(ZEROS, Run(Blank(n), p.ops[..m], AsWritten).value.1, EventOf(p.stores[m], p.ops[m]));
  }

  /** The protocol's invariant holds throughout, whatever becomes of the data. */
  lemma {:induction false} EndIsGood(n: nat, p: Path, e: Store, g: Flat)
    requires Leads(n, p, e, g)
    ensures ProtocolInv(e.sys)
    decreases |p.ops|
  {
    BlankIsInitial(n);
    if p.ops != [] {
      var m := |p.ops| - 1;
      UpToLeads(n, p, e, g, m);
      EndIsGood(n, UpTo(p, m), p.stores[m], p.flats[m]);
      OpKeepsProtocol(p.stores[m], p.ops[m]);
    }
  }

  ghost function Extended(p: Path, e: Store, g: Flat, op: Op): Path {
    Path(p.stores + [e], p.flats + [g], p.ops + [op])
  }

  lemma Go(n: nat, p: Path, e: Store, g: Flat, op: Op) returns (p': Path)
    requires Leads(n, p, e, g) && CanDo(e, op) && (op.Trim? ==> op.block == TRIM_BLOCK)
    ensures Leads(n, p', Do(e, op), FlatApply(g, EventOf(e, op)))
  {
    EndIsGood(n, p, e, g);
    OpKeepsProtocol(e, op);
    p' := Extended(p, Do(e, op), FlatApply(g, EventOf(e, op)), op);
    ExtendedSteps(n, p, e, g, op);
  }

  lemma ExtendedSteps(n: nat, p: Path, e: Store, g: Flat, op: Op)
    requires Leads(n, p, e, g) && CanDo(e, op) && (op.Trim? ==> op.block == TRIM_BLOCK)
    ensures var p' := Extended(p, Do(e, op), FlatApply(g, EventOf(e, op)), op);
            forall i :: 0 <= i < |p'.ops| ==> StepAt(p', i)
  {
    var p' := Extended(p, Do(e, op), FlatApply(g, EventOf(e, op)), op);
    forall i | 0 <= i < |p'.ops|
      ensures StepAt(p', i)
    {
      if i < |p.ops| {
        assert StepAt(p, i);
      }
    }
  }

  /** A step of the worker leaves the flat store alone. */
  lemma Work(n: nat, p: Path, e: Store, g: Flat, op: Op) returns (p': Path, e': Store)
    requires Leads(n, p, e, g) && CanDo(e, op) && !IsRequest(op) && (op.Trim? ==> op.block == TRIM_BLOCK)
    ensures e' == Do(e, op) && Leads(n, p', e', g)
  {
    WorkerShowsNothing(e, op);
    p' := Go(n, p, e, g, op);
    e' := Do(e, op);
  }

  lemma WrongRead(f: Flat, events: seq<Event>, ev: Event)
    requires ev.DidRead? && ev.result != FlatRead(Replay(f, events), ev.path, ev.page, |ev.result|)
    ensures !ReadsAreFlat(f, events + [ev])
  {
    var all := events + [ev];
    assert all[|events|] == ev && all[..|events|] == events;
  }

  /** A one-page read at the start of block `i` of the file. */
  function ReadOf(i: nat): Op {
    Read([], PAGES * i, 1)
  }

  const A: Key := Key([], 0)
  const B: Key := Key([], 1)
  const C: Key := Key([], 2)

  /** A last read of page 0 that is not served the flat store's page goes wrong. */
  lemma FinalRead(n: nat, p: Path, e: Store, g: Flat) returns (bad: seq<Op>)
    requires Leads(n, p, e, g) && Visible(e, A)[0] != g[Page([], 0)]
    ensures GoesWrong(Blank(n), ZEROS, bad)
  {
    bad := p.ops + [ReadOf(0)];
    BlankIsInitial(n);
    PathIsRun(n, p, e, g);
    StaleReadShows(e, g);
    WrongRead(ZEROS, Run(Blank(n), p.ops, AsWritten).value.1, EventOf(e, ReadOf(0)));
    assert bad[..|p.ops|] == p.ops;
  }

  lemma StaleReadShows(e: Store, g: Flat)
    requires StoreSane(e) && Visible(e, A)[0] != g[Page([], 0)]
    ensures var ev := EventOf(e, ReadOf(0));
            ev.DidRead? && ev.result != FlatRead(g, ev.path, ev.page, |ev.result|)
  {
    assert KeyOf([], 0) == A;
    assert ReadResult(e, A, 0, 1)[0] == Visible(e, A)[0];
    assert FlatRead(g, [], 0, 1)[0] == g[Page([], 0)];
  }

  // ---------------------------------------------------------------- promotions

  /** Nothing queued, the worker idle, room in the queue. */
  predicate Quiet(e: Store) {
    e.sys.w.Idle? && e.sys.queue == [] && e.io.NotStarted? && e.sys.capacity == 4
  }

  /** A read that misses queues its key; the worker peeks it. */
  lemma MissAndPeek(n: nat, p: Path, e: Store, g: Flat, i: nat, k: Key) returns (p': Path)
    requires Leads(n, p, e, g) && Quiet(e) && i < 4 && k == Key([], i) && Find(e.sys.m, k).None?
    ensures Leads(n, p', e.(sys := e.sys.(queue := [k], w := Peeked(k))), g)
  {
    assert KeyOf([], PAGES * i) == k;
    assert e.sys.queue + [k] == [k];
    p' := Go(n, p, e, g, ReadOf(i));
    var e1;
    p', e1 := Work(n, p', Do(e, ReadOf(i)), g, WorkerPeek);
  }

  lemma PromotionBegins(n: nat, p: Path, e: Store, g: Flat)
    requires Leads(n, p, e, g) && e.sys.w.Peeked? && e.sys.m.free != []
    ensures var c, e' := e.sys.m.free[0], Do(e, BeginPromotion);
            && c < |e.ssd| && e'.sys.w == Promoting(e.sys.w.key, c)
            && e'.sys.m.cells == e.sys.m.cells[c := Cell(true, false, true, e.sys.w.key)]
            && e'.sys.m.clean == e.sys.m.clean
  {
    EndIsGood(n, p, e, g);
    PromotionBeginKeepsInv(e.sys.m, e.sys.w.key);
  }

  lemma PromotionEnds(n: nat, p: Path, e: Store, g: Flat)
    requires Leads(n, p, e, g) && e.sys.w.Promoting? && e.io.Stored?
    ensures var c, m := e.sys.w.cblock, Do(e, EndPromotion(true)).sys.m;
            && m.cells == e.sys.m.cells[c := e.sys.m.cells[c].(pending := false, alloc := true)]
            && (!e.sys.m.cells[c].dirty ==> m.clean == e.sys.m.clean + [c])
  {
    EndIsGood(n, p, e, g);
    PromotedKeyIsUnhashed(e.sys);
    PromotionCompleteKeepsInv(e.sys.m, e.sys.w.cblock, true);
  }

  /** The worker is promoting key `k` into block `c`, one item queued. */
  predicate Promotes(e: Store, k: Key, c: nat) {
    && e.sys.w == Promoting(k, c) && |e.sys.queue| == 1 && e.sys.capacity == 4
    && c < |e.sys.m.cells| && e.sys.m.cells[c] == Cell(true, false, true, k)
  }

  lemma StartPromotion(n: nat, p: Path, e: Store, g: Flat, i: nat, k: Key) returns (p': Path, e': Store)
    requires Leads(n, p, e, g) && Quiet(e) && i < 4 && k == Key([], i) && Find(e.sys.m, k).None?
    requires e.sys.m.free != []
    ensures Leads(n, p', e', g) && e' == e.(sys := e'.sys)
    ensures var c := e.sys.m.free[0];
            && c < |e.ssd| && Promotes(e', k, c)
            && e'.sys.m.cells == e.sys.m.cells[c := Cell(true, false, true, k)] && e'.sys.m.clean == e.sys.m.clean
  {
    p' := MissAndPeek(n, p, e, g, i, k);
    e' := e.(sys := e.sys.(queue := [k], w := Peeked(k)));
    PromotionBegins(n, p', e', g);
    p', e' := Work(n, p', e', g, BeginPromotion);
  }

  lemma ImageMoves(n: nat, p: Path, e: Store, g: Flat) returns (p': Path, e': Store)
    requires Leads(n, p, e, g) && e.sys.w.Promoting? && e.io.NotStarted?
    ensures Leads(n, p', e', g)
    ensures e' == e.(io := Stored, ssd := e.ssd[e.sys.w.cblock := e.origin[FlightKey(e)]])
  {
    p', e' := Work(n, p, e, g, PromotionLoad);
    p', e' := Work(n, p', e', g, PromotionStore);
  }

  lemma FinishPromoting(n: nat, p: Path, e: Store, g: Flat, k: Key, c: nat) returns (p': Path, e': Store)
    requires Leads(n, p, e, g) && Promotes(e, k, c) && e.io.Stored?
    ensures Leads(n, p', e', g) && Quiet(e') && e' == e.(sys := e'.sys, io := NotStarted)
    ensures e'.sys.m.cells == e.sys.m.cells[c := Cell(false, false, true, k)]
    ensures e'.sys.m.clean == e.sys.m.clean + [c]
  {
    PromotionEnds(n, p, e, g);
    p', e' := Work(n, p, e, g, EndPromotion(true));
    p', e' := PopTheItem(n, p', e', g);
  }

  /** The worker drops the only item and is idle again. */
  lemma PopTheItem(n: nat, p: Path, e: Store, g: Flat) returns (p': Path, e': Store)
    requires Leads(n, p, e, g) && e.sys.w.Completed? && |e.sys.queue| == 1 && e.sys.capacity == 4 && e.io.NotStarted?
    ensures Leads(n, p', e', g) && Quiet(e') && e' == e.(sys := e.sys.(queue := [], w := Idle))
  {
    p', e' := Work(n, p, e, g, WorkerPop);
  }

  /** A whole promotion of block `i` into the head of the free list. */
  lemma Promote(n: nat, p: Path, e: Store, g: Flat, i: nat, k: Key) returns (p': Path, e': Store)
    requires Leads(n, p, e, g) && Quiet(e) && i < 4 && k == Key([], i) && Find(e.sys.m, k).None?
    requires e.sys.m.free != []
    ensures Leads(n, p', e', g) && Quiet(e') && e'.origin == e.origin && e'.users == e.users
    ensures var c := e.sys.m.free[0];
            && c < |e.ssd| && e'.ssd == e.ssd[c := e.origin[k]]
            && e'.sys.m.cells == e.sys.m.cells[c := Cell(false, false, true, k)]
            && e'.sys.m.clean == e.sys.m.clean + [c]
  {
    var c := e.sys.m.free[0];
    p', e' := StartPromotion(n, p, e, g, i, k);
    p', e' := ImageMoves(n, p', e', g);
    p', e' := FinishPromoting(n, p', e', g, k, c);
  }

  // ---------------------------------------------------------------- evictions

  /** On a full cache a miss makes the worker look for something to evict. */
  lemma WantsToEvict(n: nat, p: Path, e: Store, g: Flat, i: nat, k: Key) returns (p': Path)
    requires Leads(n, p, e, g) && Quiet(e) && i < 4 && k == Key([], i) && Find(e.sys.m, k).None?
    requires e.sys.m.free == []
    ensures Leads(n, p', e.(sys := e.sys.(queue := [k], w := NoFree(k))), g)
  {
    p' := MissAndPeek(n, p, e, g, i, k);
    var e1;
    p', e1 := Work(n, p', e.(sys := e.sys.(queue := [k], w := Peeked(k))), g, BeginPromotion);
  }

  lemma DemotionBegins(n: nat, p: Path, e: Store, g: Flat) returns (p': Path, e': Store)
    requires Leads(n, p, e, g) && e.sys.w.NoFree? && CanDemote(e.sys.m)
    ensures Leads(n, p', e', g) && e' == e.(sys := e'.sys)
    ensures var c := e.sys.m.clean[0];
            && c < |e.ssd| && e'.sys.w == Demoting(e.sys.w.key, c)
            && e'.sys.m.cells == e.sys.m.cells[c := e.sys.m.cells[c].(pending := true)]
  {
    EndIsGood(n, p, e, g);
    DemotionBeginKeepsInv(e.sys.m);
    p', e' := Work(n, p, e, g, BeginDemotion);
  }

  lemma WritebackBegins(n: nat, p: Path, e: Store, g: Flat)
    requires Leads(n, p, e, g) && e.sys.w.NoClean? && e.sys.m.dirty != []
    ensures var c, e' := e.sys.m.dirty[0], Do(e, BeginWriteback);
            && c < |e.ssd| && e'.sys.w == WritingBack(e.sys.w.key, c)
            && e'.sys.m.cells == e.sys.m.cells[c := e.sys.m.cells[c].(pending := true, dirty := false)]
  {
    EndIsGood(n, p, e, g);
    DirtyHeadBegins(e.sys);
  }

  lemma DirtyHeadBegins(s: Sys)
    requires ProtocolInv(s) && s.w.NoClean? && s.m.dirty != []
    ensures var c, t := s.m.dirty[0], Apply(s, TryWriteback);
            && c < |s.m.cells| && t.w == WritingBack(s.w.key, c)
            && t.m.cells == s.m.cells[c := s.m.cells[c].(pending := true, dirty := false)]
  {
    assert s.m.dirty[0] in s.m.dirty;
    WritebackBeginKeepsInv(s.m);
  }

  lemma StartWriteback(n: nat, p: Path, e: Store, g: Flat) returns (p': Path, e': Store)
    requires Leads(n, p, e, g) && e.sys.w.NoFree? && !CanDemote(e.sys.m) && e.sys.m.dirty != []
    ensures Leads(n, p', e', g) && e' == e.(sys := e'.sys)
    ensures var c := e.sys.m.dirty[0];
            && c < |e.ssd| && e'.sys.w == WritingBack(e.sys.w.key, c)
            && e'.sys.m.cells == e.sys.m.cells[c := e.sys.m.cells[c].(pending := true, dirty := false)]
            && e'.sys.queue == e.sys.queue && e'.sys.capacity == e.sys.capacity
  {
    p', e' := Work(n, p, e, g, BeginDemotion);
    WritebackBegins(n, p', e', g);
    p', e' := Work(n, p', e', g, BeginWriteback);
  }

  lemma WritebackEnds(n: nat, p: Path, e: Store, g: Flat)
    requires Leads(n, p, e, g) && e.sys.w.WritingBack?
    ensures var c := e.sys.w.cblock;
            Do(e, EndWriteback(false)).sys.m.cells == e.sys.m.cells[c := e.sys.m.cells[c].(pending := false)]
  {
    EndIsGood(n, p, e, g);
    WritebackCompleteKeepsInv(e.sys.m, e.sys.w.cblock, false);
  }

  lemma WritebackFails(n: nat, p: Path, e: Store, g: Flat) returns (p': Path, e': Store)
    requires Leads(n, p, e, g) && e.sys.w.WritingBack? && |e.sys.queue| == 1 && e.sys.capacity == 4
    ensures Leads(n, p', e', g) && Quiet(e') && e'.origin == e.origin && e'.ssd == e.ssd
    ensures var c := e.sys.w.cblock;
            e'.sys.m.cells == e.sys.m.cells[c := e.sys.m.cells[c].(pending := false)]
  {
    WritebackEnds(n, p, e, g);
    p', e' := Work(n, p, e, g, EndWriteback(false));
    p', e' := PopTheItem(n, p', e', g);
  }

  // ---------------------------------------------------------------- a cache of one entry

  lemma NothingFound(m: State, k: Key)
    requires Inv(m) && forall i :: 0 <= i < |m.cells| ==> m.cells[i].alloc ==> m.cells[i].key != k
    ensures Find(m, k).None?
  {
    FindIsExact(m, k);
  }

  /** The lists of a cache of one entry, as its flag bits tell them. */
  lemma OnlyEntryListed(s: Sys)
    requires ProtocolInv(s) && |s.m.cells| == 1 && !s.w.Busy()
    ensures s.m.free == (if s.m.cells[0].alloc then [] else [0])
    ensures s.m.clean == (if Listed(s.m.cells[0], false) then [0] else [])
    ensures s.m.dirty == (if Listed(s.m.cells[0], true) then [0] else [])
  {
    ConservedUnderInv(s);
    assert 0 in s.m.free || 0 in s.m.clean || 0 in s.m.dirty;
  }

  lemma OnlyEntry(n: nat, p: Path, e: Store, g: Flat, k: Key)
    requires Leads(n, p, e, g) && |e.sys.m.cells| == 1 && !e.sys.w.Busy()
    requires e.sys.m.cells[0].alloc ==> e.sys.m.cells[0].key != k
    ensures var m := e.sys.m;
            && m.free == (if m.cells[0].alloc then [] else [0])
            && m.clean == (if Listed(m.cells[0], false) then [0] else [])
            && m.dirty == (if Listed(m.cells[0], true) then [0] else [])
            && Find(m, k).None?
  {
    EndIsGood(n, p, e, g);
    OnlyEntryListed(e.sys);
    NothingFound(e.sys.m, k);
  }

  /** Block A is cached in the only entry, clean or dirty, over an origin of zeros. */
  ghost predicate HoldsA(e: Store, block: Block, dirty: bool) {
    && Quiet(e) && e.sys.m.cells == [Cell(false, dirty, true, A)] && e.ssd == [block]
    && e.origin[A] == ZERO_BLOCK
  }

  lemma BlankOne()
    ensures Leads(1, Start(1), Blank(1), ZEROS) && Quiet(Blank(1)) && |Blank(1).ssd| == 1
    ensures Blank(1).sys.m.cells == [Cell(false, false, false, Key([], 0))] && Blank(1).origin[A] == ZERO_BLOCK
    ensures Find(Blank(1).sys.m, A).None? && Blank(1).sys.m.free == [0]
  {
    BlankIsInitial(1);
    FreshOne();
    assert FlatBlock(ZEROS, A) == ZERO_BLOCK;
  }

  lemma FreshOne()
    ensures var m := InitState(1, 8);
            && m.cells == [Cell(false, false, false, Key([], 0))] && m.free == [0]
            && Bounded(m) && Find(m, A).None?
  {
    InitInv(1, 8);
    NothingFound(InitState(1, 8), A);
  }

  lemma CachedA() returns (p: Path, e: Store)
    ensures Leads(1, p, e, ZEROS) && HoldsA(e, ZERO_BLOCK, false) && e.users == [Nothing]
  {
    BlankOne();
    p, e := Promote(1, Start(1), Blank(1), ZEROS, 0, A);
  }

  /** A is being demoted; its block at the origin is zero. */
  ghost predicate DemotesA(e: Store) {
    && e.sys.w == Demoting(B, 0) && |e.sys.m.cells| == 1 && e.sys.m.cells[0].key == A
    && e.io.NotStarted? && e.origin[A] == ZERO_BLOCK
  }

  lemma EvictionOfABegins(p: Path, e: Store, g: Flat, block: Block) returns (p': Path, e': Store)
    requires Leads(1, p, e, g) && HoldsA(e, block, false)
    ensures Leads(1, p', e', g) && DemotesA(e')
  {
    OnlyEntry(1, p, e, g, B);
    p' := WantsToEvict(1, p, e, g, 1, B);
    p', e' := DemotionBegins(1, p', e.(sys := e.sys.(queue := [B], w := NoFree(B))), g);
  }

  /** The trim and the end section: A is served from the origin again. */
  lemma EvictionOfAEnds(p: Path, e: Store, g: Flat) returns (bad: seq<Op>)
    requires Leads(1, p, e, g) && DemotesA(e) && g[Page([], 0)] != 0
    ensures GoesWrong(Blank(1), ZEROS, bad)
  {
    EndIsGood(1, p, e, g);
    VictimGoesToOrigin(e, TRIM_BLOCK, ZERO_BLOCK);
    var p1, e1 := Work(1, p, e, g, Trim(TRIM_BLOCK, ZERO_BLOCK));
    p1, e1 := Work(1, p1, e1, g, EndDemotion);
    assert e1 == FinishDemotion(e, TRIM_BLOCK, ZERO_BLOCK);
    bad := FinalRead(1, p1, e1, g);
  }

  // ---------------------------------------------------------------- the runs

  const WRITE_A: Op := Write([], 0, [7])

  /** The flat store with a 7 on the first page of block A. */
  ghost const SEVEN: Flat := FlatWrite(ZEROS, [], 0, [7])

  lemma WriteHitsVictim(p: Path, e: Store) returns (p': Path)
    requires Leads(1, p, e, ZEROS) && DemotesA(e)
    ensures Leads(1, p', Do(e, WRITE_A), SEVEN) && DemotesA(Do(e, WRITE_A))
  {
    assert KeyOf([], 0) == A;
    EndIsGood(1, p, e, ZEROS);
    FindIsExact(e.sys.m, A);
    HitSections(e.sys, A, false);
    p' := Go(1, p, e, ZEROS, WRITE_A);
  }

  /** A write that hits the entry being demoted is dropped together with the entry. */
  lemma WriteLostByDemotion() returns (bad: seq<Op>)
    ensures GoesWrong(Blank(1), ZEROS, bad)
  {
    var p, e := CachedA();
    p, e := EvictionOfABegins(p, e, ZEROS, ZERO_BLOCK);
    p := WriteHitsVictim(p, e);
    bad := EvictionOfAEnds(p, Do(e, WRITE_A), SEVEN);
  }

  /**
   * A write between the load and the store of a promotion goes to the origin while the
   * cache fills with the older image: the next read is stale.
   */
  lemma WriteLostByPromotion() returns (bad: seq<Op>)
    ensures GoesWrong(Blank(1), ZEROS, bad)
  {
    BlankOne();
    var p, e := StartPromotion(1, Start(1), Blank(1), ZEROS, 0, A);
    p, e := Work(1, p, e, ZEROS, PromotionLoad);
    p := WriteMissesPromotion(p, e);
    bad := StalePromotion(p, Do(e, WRITE_A));
  }

  ghost predicate PromotesZeros(e: Store) {
    StoreSane(e) && e.sys.w.Promoting? && FlightKey(e) == A && e.io == Loaded(ZERO_BLOCK) && e.unwritten == {}
  }

  lemma WriteMissesPromotion(p: Path, e: Store) returns (p': Path)
    requires Leads(1, p, e, ZEROS) && PromotesZeros(e)
    ensures Leads(1, p', Do(e, WRITE_A), SEVEN) && PromotesZeros(Do(e, WRITE_A))
  {
    assert KeyOf([], 0) == A;
    EndIsGood(1, p, e, ZEROS);
    PromotedKeyIsWrittenToOrigin(e, A, 0, [7]);
    p' := Go(1, p, e, ZEROS, WRITE_A);
  }

  lemma StalePromotion(p: Path, e: Store) returns (bad: seq<Op>)
    requires Leads(1, p, e, SEVEN) && PromotesZeros(e)
    ensures GoesWrong(Blank(1), ZEROS, bad)
  {
    EndIsGood(1, p, e, SEVEN);
    PromotedKeyIsServedFromSsd(e);
    var p1, e1 := Work(1, p, e, SEVEN, PromotionStore);
    p1, e1 := Work(1, p1, e1, SEVEN, EndPromotion(true));
    assert e1 == FinishPromotion(e);
    bad := FinalRead(1, p1, e1, SEVEN);
  }

  const SEVENS: Block := [7, 7, 7, 7, 7, 7, 7, 7]
  const FILL_A: Op := Write([], 0, SEVENS)

  ghost const FILLED: Flat := FlatWrite(ZEROS, [], 0, SEVENS)

  lemma FillsOnlyEntry(e: Store)
    requires ProtocolInv(e.sys) && StoreSane(e) && Quiet(e) && |e.ssd| == 1 && |e.sys.m.cells| == 1
    requires e.origin[A] == ZERO_BLOCK && Find(e.sys.m, A).None? && e.sys.m.free == [0]
    ensures HoldsA(Do(e, FILL_A), SEVENS, true)
  {
    InsertForm(e.sys, A);
    assert KeyOf([], 0) == A;
    assert Patch(e.ssd[0], 0, SEVENS) == SEVENS;
    assert e.sys.m.cells[0 := Cell(false, true, true, A)] == [Cell(false, true, true, A)];
  }

  /** A full write of block A lands in the only entry, dirty. */
  lemma FilledA() returns (p: Path, e: Store)
    ensures Leads(1, p, e, FILLED) && HoldsA(e, SEVENS, true)
  {
    BlankOne();
    BlankIsInitial(1);
    FillsOnlyEntry(Blank(1));
    p := Go(1, Start(1), Blank(1), ZEROS, FILL_A);
    e := Do(Blank(1), FILL_A);
  }

  /** A failed write-back of A leaves it looking clean. */
  lemma WritebackOfAFails(p: Path, e: Store, g: Flat) returns (p': Path, e': Store)
    requires Leads(1, p, e, g) && HoldsA(e, SEVENS, true)
    ensures Leads(1, p', e', g) && HoldsA(e', SEVENS, false)
  {
    OnlyEntry(1, p, e, g, B);
    p' := WantsToEvict(1, p, e, g, 1, B);
    p', e' := StartWriteback(1, p', e.(sys := e.sys.(queue := [B], w := NoFree(B))), g);
    p', e' := WritebackFails(1, p', e', g);
  }

  /** A failed write-back marks its entry clean, and the next demotion drops the only copy. */
  lemma WriteLostByFailedWriteback() returns (bad: seq<Op>)
    ensures GoesWrong(Blank(1), ZEROS, bad)
  {
    var p, e := FilledA();
    p, e := WritebackOfAFails(p, e, FILLED);
    p, e := EvictionOfABegins(p, e, FILLED, SEVENS);
    bad := EvictionOfAEnds(p, e, FILLED);
  }

  // ---------------------------------------------------------------- requests that are overtaken

  const ONES: Block := [1, 1, 1, 1, 1, 1, 1, 1]
  const START_FILL: Op := StartWrite(0, [], 0, ONES)
  const START_WRITE: Op := StartWrite(0, [], 0, [7])

  /** A block that a full write has inserted is read before its data is there. */
  lemma ReadBeforeData() returns (bad: seq<Op>)
    ensures GoesWrong(Blank(1), ZEROS, bad)
  {
    BlankOne();
    var p, e := FillStarts(Start(1), Blank(1));
    EndIsGood(1, p, e, ZEROS);
    FoundInZero(e.sys);
    bad := FinalRead(1, p, e, ZEROS);
  }

  lemma FillStarts(p: Path, e: Store) returns (p': Path, e': Store)
    requires Leads(1, p, e, ZEROS) && Quiet(e) && e.users == [Nothing]
    requires |e.sys.m.cells| == 1 && Find(e.sys.m, A).None? && e.sys.m.free == [0]
    ensures Leads(1, p', e', ZEROS) && e'.ssd == e.ssd && e'.sys.m.cells == [Cell(false, true, true, A)]
  {
    EndIsGood(1, p, e, ZEROS);
    InsertedBlank(e);
    p' := Go(1, p, e, ZEROS, START_FILL);
    e' := Do(e, START_FILL);
  }

  lemma InsertedBlank(e: Store)
    requires ProtocolInv(e.sys) && StoreSane(e) && Quiet(e) && e.users == [Nothing]
    requires |e.sys.m.cells| == 1 && Find(e.sys.m, A).None? && e.sys.m.free == [0]
    ensures CanDo(e, START_FILL) && Do(e, START_FILL).ssd == e.ssd
    ensures Do(e, START_FILL).sys.m.cells == [Cell(false, true, true, A)]
  {
    assert KeyOf([], 0) == A;
    InsertionForm(e.sys, A);
    assert e.sys.m.cells[0 := Cell(false, true, true, A)] == [Cell(false, true, true, A)];
  }

  /** A block is demoted between a write to it and its being marked dirty. */
  lemma WriteLostUnmarked() returns (bad: seq<Op>)
    ensures GoesWrong(Blank(1), ZEROS, bad)
  {
    var p, e := CachedA();
    p, e := UnmarkedWrite(p, e);
    p, e := EvictionOfABegins(p, e, SEVEN, [7, 0, 0, 0, 0, 0, 0, 0]);
    bad := EvictionOfAEnds(p, e, SEVEN);
  }

  lemma UnmarkedWrite(p: Path, e: Store) returns (p': Path, e': Store)
    requires Leads(1, p, e, ZEROS) && HoldsA(e, ZERO_BLOCK, false) && e.users == [Nothing]
    ensures Leads(1, p', e', SEVEN) && HoldsA(e', [7, 0, 0, 0, 0, 0, 0, 0], false)
  {
    EndIsGood(1, p, e, ZEROS);
    HitsCachedA(e);
    p' := Go(1, p, e, ZEROS, START_WRITE);
    p' := Go(1, p', Do(e, START_WRITE), ZEROS, Transfer(0));
    e' := Do(Do(e, START_WRITE), Transfer(0));
  }

  lemma StartsOnCachedA(e: Store)
    requires ProtocolInv(e.sys) && StoreSane(e) && HoldsA(e, ZERO_BLOCK, false) && e.users == [Nothing]
    ensures var e1 := Do(e, START_WRITE);
            && e1 == e.(sys := e1.sys, users := [ToWrite([], 0, [7], Some(0))])
            && StoreSane(e1) && HoldsA(e1, ZERO_BLOCK, false)
  {
    assert KeyOf([], 0) == A;
    FoundInZero(e.sys);
    LookupIsQuiet(e.sys, A);
  }

  lemma HitsCachedA(e: Store)
    requires ProtocolInv(e.sys) && StoreSane(e) && HoldsA(e, ZERO_BLOCK, false) && e.users == [Nothing]
    ensures CanDo(e, START_WRITE)
    ensures var e1 := Do(e, START_WRITE);
            && StoreSane(e1) && CanDo(e1, Transfer(0)) && EventOf(e1, Transfer(0)) == DidWrite([], 0, [7])
            && HoldsA(Do(e1, Transfer(0)), [7, 0, 0, 0, 0, 0, 0, 0], false)
  {
    StartsOnCachedA(e);
    assert Patch(ZERO_BLOCK, 0, [7]) == [7, 0, 0, 0, 0, 0, 0, 0];
  }

  lemma MissesPromoted(e: Store)
    requires ProtocolInv(e.sys) && StoreSane(e) && Promotes(e, A, 0) && e.users == [Nothing]
    ensures CanDo(e, START_WRITE)
    ensures Do(e, START_WRITE) == e.(users := [LATE_WRITE])
  {
    assert KeyOf([], 0) == A;
    PromotedKeyIsUnhashed(e.sys);
    FindIsExact(e.sys.m, A);
    assert A in e.sys.queue;
    Queue.QueuedIsContained(e.sys.queue, A);
  }

  /** A write to the origin that is overtaken by the promotion of its block. */
  lemma WriteLostBehindCache() returns (bad: seq<Op>)
    ensures GoesWrong(Blank(1), ZEROS, bad)
  {
    BlankOne();
    var p, e := StartPromotion(1, Start(1), Blank(1), ZEROS, 0, A);
    p, e := LateWriteStarts(p, e);
    p, e := ImageMoves(1, p, e, ZEROS);
    p, e := FinishPromoting(1, p, e, ZEROS, A, 0);
    p, e := LateWriteLands(p, e);
    bad := FinalRead(1, p, e, SEVEN);
  }

  const LATE_WRITE: Pending := ToWrite([], 0, [7], None)

  lemma LateWriteStarts(p: Path, e: Store) returns (p': Path, e': Store)
    requires Leads(1, p, e, ZEROS) && Promotes(e, A, 0) && e.users == [Nothing]
    ensures Leads(1, p', e', ZEROS) && e' == e.(users := [LATE_WRITE])
  {
    EndIsGood(1, p, e, ZEROS);
    MissesPromoted(e);
    p' := Go(1, p, e, ZEROS, START_WRITE);
    e' := Do(e, START_WRITE);
  }

  /** Block A is cached, and the write goes to the origin. */
  lemma LateWriteLands(p: Path, e: Store) returns (p': Path, e': Store)
    requires Leads(1, p, e, ZEROS) && e.users == [LATE_WRITE] && |e.ssd| == 1 && e.ssd[0][0] == 0
    requires e.sys.m.cells == [CELL_A]
    ensures Leads(1, p', e', SEVEN) && Visible(e', A)[0] == 0
  {
    EndIsGood(1, p, e, ZEROS);
    FoundInZero(e.sys);
    p' := Go(1, p, e, ZEROS, Transfer(0));
    e' := Do(e, Transfer(0));
  }

  // ---------------------------------------------------------------- a cache of two entries

  const CELL_A: Cell := Cell(false, false, true, A)
  const CELL_B: Cell := Cell(false, false, true, B)

  lemma BlankTwo()
    ensures Leads(2, Start(2), Blank(2), ZEROS) && Quiet(Blank(2)) && |Blank(2).ssd| == 2
    ensures |Blank(2).sys.m.cells| == 2 && !Blank(2).sys.m.cells[1].alloc
    ensures Find(Blank(2).sys.m, A).None? && Blank(2).sys.m.free == [0, 1] && Blank(2).sys.m.clean == []
  {
    BlankIsInitial(2);
    FreshTwo();
  }

  lemma FreshTwo()
    ensures var m := InitState(2, 8);
            && |m.cells| == 2 && !m.cells[1].alloc && m.free == [0, 1] && m.clean == []
            && Bounded(m) && Find(m, A).None?
  {
    InitInv(2, 8);
    NothingFound(InitState(2, 8), A);
  }

  lemma SecondIsFree(p: Path, e: Store)
    requires Leads(2, p, e, ZEROS) && |e.sys.m.cells| == 2
    requires e.sys.m.cells[0] == CELL_A && !e.sys.m.cells[1].alloc
    ensures e.sys.m.free != [] && e.sys.m.free[0] == 1 && Find(e.sys.m, B).None?
  {
    EndIsGood(2, p, e, ZEROS);
    NothingFound(e.sys.m, B);
    OneIsFree(e.sys.m);
  }

  lemma OneIsFree(m: State)
    requires Inv(m) && |m.cells| == 2 && m.cells[0].alloc && !m.cells[1].alloc
    ensures m.free != [] && m.free[0] == 1
  {
    assert 1 in m.free && m.free[0] in m.free;
  }

  /** A and B are cached in entries 0 and 1, in this order of use. */
  ghost predicate HoldsAB(e: Store, order: seq<nat>) {
    Quiet(e) && |e.ssd| == 2 && e.sys.m.cells == [CELL_A, CELL_B] && e.sys.m.clean == order
  }

  lemma CachedAB() returns (p: Path, e: Store)
    ensures Leads(2, p, e, ZEROS) && HoldsAB(e, [0, 1])
  {
    BlankTwo();
    p, e := Promote(2, Start(2), Blank(2), ZEROS, 0, A);
    SecondIsFree(p, e);
    p, e := Promote(2, p, e, ZEROS, 1, B);
  }

  /** A read of A makes B the least recently used. */
  lemma ATouched(p: Path, e: Store) returns (p': Path)
    requires Leads(2, p, e, ZEROS) && HoldsAB(e, [0, 1])
    ensures Leads(2, p', Do(e, ReadOf(0)), ZEROS) && HoldsAB(Do(e, ReadOf(0)), [1, 0])
  {
    EndIsGood(2, p, e, ZEROS);
    TouchA(e);
    p' := Go(2, p, e, ZEROS, ReadOf(0));
  }

  lemma TouchA(e: Store)
    requires ProtocolInv(e.sys) && StoreSane(e) && HoldsAB(e, [0, 1])
    ensures HoldsAB(Do(e, ReadOf(0)), [1, 0])
  {
    assert KeyOf([], 0) == A;
    FoundInZero(e.sys);
    TouchFirst(e.sys.m);
  }

  lemma TouchFirst(m: State)
    requires Inv(m) && m.cells == [CELL_A, CELL_B] && m.clean == [0, 1] && Find(m, A) == Some(0)
    ensures var t := MappingState.Lookup(m, A); t.cells == m.cells && t.clean == [1, 0]
  {
    LookupKeepsInv(m, A);
    assert Without([0, 1], 0) == [1];
  }

  lemma CMisses(p: Path, e: Store)
    requires Leads(2, p, e, ZEROS) && HoldsAB(e, [1, 0])
    ensures Find(e.sys.m, C).None? && e.sys.m.free == []
  {
    EndIsGood(2, p, e, ZEROS);
    NothingFound(e.sys.m, C);
    ConservedUnderInv(e.sys);
  }

  /** The demotion of B trims block 0, which holds A: A reads back whatever the device returns. */
  lemma BlockLostByTrim() returns (bad: seq<Op>)
    ensures GoesWrong(Blank(2), ZEROS, bad)
  {
    var p, e := CachedAB();
    p := ATouched(p, e);
    e := Do(e, ReadOf(0));
    CMisses(p, e);
    p := WantsToEvict(2, p, e, ZEROS, 2, C);
    p, e := DemotionBegins(2, p, e.(sys := e.sys.(queue := [C], w := NoFree(C))), ZEROS);
    bad := TrimHitsA(p, e);
  }

  lemma FoundInZero(s: Sys)
    requires ProtocolInv(s) && |s.m.cells| > 0
    requires s.m.cells[0].alloc && !s.m.cells[0].pending && s.m.cells[0].key == A
    ensures Find(s.m, A) == Some(0)
  {
    assert Hashed(s.m, 0);
    FindIsExact(s.m, A);
  }

  lemma TrimHitsA(p: Path, e: Store) returns (bad: seq<Op>)
    requires Leads(2, p, e, ZEROS) && e.sys.w.Demoting? && e.sys.w.cblock == 1 && e.io.NotStarted?
    requires |e.ssd| == 2 && e.sys.m.cells[0] == CELL_A
    ensures GoesWrong(Blank(2), ZEROS, bad)
  {
    EndIsGood(2, p, e, ZEROS);
    FoundInZero(e.sys);
    var p1, e1 := Work(2, p, e, ZEROS, Trim(TRIM_BLOCK, SEVENS));
    bad := FinalRead(2, p1, e1, ZEROS);
  }
}
