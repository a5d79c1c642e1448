/** Every step of the worker keeps the store a picture of the same flat store. */
module WorkerSteps {
  import opened CacheTypes
  import opened CacheStore
  import opened FlatStore
  import opened MappingState
  import opened MappingTable
  import opened MappingInvariant
  import opened Protocol
  import opened RequestSteps

  /**
   * A try section changes nothing that matters, or puts an entry in flight: it hashes
   * nothing new and leaves the other dirty bits alone.
   */
  ghost predicate Begins(s: Sys, t: Sys) {
    && Bounded(s.m) && ProtocolInv(t) && Sane(t) && !s.w.Busy()
    && if t.w.Busy()
       then && SameTable(s.m, t.m)
            && (forall i :: 0 <= i < |s.m.cells| && !t.w.Holds(i) ==> t.m.cells[i].dirty == s.m.cells[i].dirty)
            && !t.m.cells[t.w.cblock].dirty
            && (t.w.Demoting? ==> !s.m.cells[t.w.cblock].dirty)
       else SameView(s.m, t.m)
  }

  lemma BeginStep(d: Store, t: Sys, f: Flat)
    requires StoreInv(d, f) && Begins(d.sys, t) && (t.w.Demoting? ==> !Unsettled(d, t.w.cblock))
    ensures StoreSane(d.(sys := t)) && StoreInv(d.(sys := t), f)
  {
    if t.w.Busy() {
      StartFlight(d, t, f);
    } else {
      QuietStep(d, t, f);
    }
  }

  lemma StartFlight(d: Store, t: Sys, f: Flat)
    requires StoreInv(d, f) && Begins(d.sys, t) && t.w.Busy() && (t.w.Demoting? ==> !Unsettled(d, t.w.cblock))
    ensures StoreSane(d.(sys := t)) && StoreInv(d.(sys := t), f)
  {
    forall k: Key | !KeyHashed(t.m, k)
      ensures d.origin[k] == FlatBlock(f, k)
    {
      SameTableSameKeys(d.sys.m, t.m, k);
    }
  }

  lemma TryPromotionBegins(s: Sys)
    requires ProtocolInv(s) && s.w.Peeked?
    ensures Begins(s, Apply(s, TryPromotion))
  {
    StepKeepsInv(s, TryPromotion);
    if s.m.free != [] {
      PromotionBeginKeepsInv(s.m, s.w.key);
    }
  }

  lemma BeginPromotionStep(d: Store, f: Flat)
    requires StoreInv(d, f) && d.sys.w.Peeked?
    ensures var e := d.(sys := Apply(d.sys, TryPromotion)); StoreSane(e) && StoreInv(e, f)
  {
    TryPromotionBegins(d.sys);
    BeginStep(d, Apply(d.sys, TryPromotion), f);
  }

  lemma TryDemotionBegins(s: Sys)
    requires ProtocolInv(s) && s.w.NoFree?
    ensures Begins(s, Apply(s, TryDemotion))
  {
    StepKeepsInv(s, TryDemotion);
    if CanDemote(s.m) {
      DemotionBeginKeepsInv(s.m);
    }
  }

  lemma BeginDemotionStep(d: Store, f: Flat)
    requires StoreInv(d, f) && d.sys.w.NoFree? && (CanDemote(d.sys.m) ==> !Unsettled(d, d.sys.m.clean[0]))
    ensures var e := d.(sys := Apply(d.sys, TryDemotion)); StoreSane(e) && StoreInv(e, f)
  {
    TryDemotionBegins(d.sys);
    BeginStep(d, Apply(d.sys, TryDemotion), f);
  }

  lemma TryWritebackBegins(s: Sys)
    requires ProtocolInv(s) && s.w.NoClean?
    ensures Begins(s, Apply(s, TryWriteback))
  {
    StepKeepsInv(s, TryWriteback);
    if CanWriteback(s.m) {
      WritebackBeginKeepsInv(s.m);
    }
  }

  lemma BeginWritebackStep(d: Store, f: Flat)
    requires StoreInv(d, f) && d.sys.w.NoClean?
    ensures var e := d.(sys := Apply(d.sys, TryWriteback)); StoreSane(e) && StoreInv(e, f)
  {
    TryWritebackBegins(d.sys);
    BeginStep(d, Apply(d.sys, TryWriteback), f);
  }

  lemma PromotionTransfer(d: Store, f: Flat)
    requires StoreInv(d, f) && d.sys.w.Promoting?
    ensures d.io.NotStarted? ==> StoreInv(d.(io := Loaded(d.origin[FlightKey(d)])), f)
    ensures d.io.Loaded? ==> StoreInv(d.(io := Stored, ssd := d.ssd[d.sys.w.cblock := d.io.buf]), f)
  {
    PromotedKeyIsUnhashed(d.sys);
  }

  lemma EndPromotionView(s: Sys, ok: bool)
    requires ProtocolInv(s) && s.w.Promoting?
    ensures var c, t := s.w.cblock, Apply(s, PromotionDone(ok));
            && ProtocolInv(t) && Sane(t) && t.w.Completed? && !KeyHashed(s.m, s.m.cells[c].key)
            && t.m.cells == s.m.cells[c := s.m.cells[c].(pending := false, alloc := ok)]
            && forall i :: 0 <= i < |s.m.cells| ==> (Hashed(t.m, i) <==> Hashed(s.m, i) || (ok && i == c))
  {
    PromotedKeyIsUnhashed(s);
    StepKeepsInv(s, PromotionDone(ok));
    PromotionCompleteKeepsInv(s.m, s.w.cblock, ok);
  }

  lemma EndPromotionStep(d: Store, f: Flat, ok: bool)
    requires StoreInv(d, f) && d.sys.w.Promoting? && (ok ==> d.io.Stored?)
    ensures var e := d.(sys := Apply(d.sys, PromotionDone(ok)), io := NotStarted);
            StoreSane(e) && StoreInv(e, f)
  {
    EndPromotionView(d.sys, ok);
    PromotedData(d, d.(sys := Apply(d.sys, PromotionDone(ok)), io := NotStarted), f, ok);
  }

  lemma PromotedData(d: Store, e: Store, f: Flat, ok: bool)
    requires StoreInv(d, f) && d.sys.w.Promoting? && (ok ==> d.io.Stored?) && !KeyHashed(d.sys.m, FlightKey(d))
    requires ProtocolInv(e.sys) && StoreSane(e) && !e.sys.w.Busy() && e.io.NotStarted?
    requires e.ssd == d.ssd && e.origin == d.origin && e.users == d.users && e.unwritten == d.unwritten
    requires var c := d.sys.w.cblock;
             && e.sys.m.cells == d.sys.m.cells[c := d.sys.m.cells[c].(pending := false, alloc := ok)]
             && forall i :: 0 <= i < |d.ssd| ==> (Hashed(e.sys.m, i) <==> Hashed(d.sys.m, i) || (ok && i == c))
    ensures StoreInv(e, f)
  {
    forall k: Key
      ensures KeyHashed(d.sys.m, k) ==> KeyHashed(e.sys.m, k)
    {
      HashingGrows(d.sys.m, e.sys.m, k);
    }
    assert CachedCurrent(e, f);
  }

  lemma TrimStep(d: Store, f: Flat, b: nat, junk: Block)
    requires StoreInv(d, f) && d.sys.w.Demoting? && d.io.NotStarted? && TrimIsHarmless(d, b)
    ensures StoreSane(DoTrim(d, b, junk)) && StoreInv(DoTrim(d, b, junk), f)
  {
    TrimmedCached(d, f, b, junk);
  }

  lemma TrimmedCached(d: Store, f: Flat, b: nat, junk: Block)
    requires StoreSane(d) && CachedCurrent(d, f) && d.sys.w.Demoting? && !d.io.Trimmed? && TrimIsHarmless(d, b)
    ensures StoreSane(DoTrim(d, b, junk)) && CachedCurrent(DoTrim(d, b, junk), f)
  {
  }

  lemma EndDemotionView(s: Sys)
    requires ProtocolInv(s) && s.w.Demoting?
    ensures var c, t := s.w.cblock, Apply(s, DemotionDone(true));
            && ProtocolInv(t) && Sane(t) && t.w.Completed? && Hashed(s.m, c)
            && t.m.cells == s.m.cells[c := s.m.cells[c].(pending := false, alloc := false)]
            && forall i :: 0 <= i < |s.m.cells| ==> (Hashed(t.m, i) <==> Hashed(s.m, i) && i != c)
  {
    StepKeepsInv(s, DemotionDone(true));
    DemotionCompleteKeepsInv(s.m, s.w.cblock, true);
  }

  /** The victim's origin pages are current. */
  lemma VictimIsClean(d: Store, f: Flat)
    requires StoreInv(d, f) && d.sys.w.Demoting?
    ensures d.origin[FlightKey(d)] == FlatBlock(f, FlightKey(d))
    ensures Patched(f, f, FlightKey(d), d.origin[FlightKey(d)])
  {
  }

  lemma EndDemotionStep(d: Store, f: Flat)
    requires StoreInv(d, f) && d.sys.w.Demoting?
    ensures var e := d.(sys := Apply(d.sys, DemotionDone(true)), io := NotStarted);
            StoreSane(e) && StoreInv(e, f)
  {
    var e := d.(sys := Apply(d.sys, DemotionDone(true)), io := NotStarted);
    EndDemotionView(d.sys);
    VictimIsClean(d, f);
    UnhashedUncached(d, f, f, e, d.sys.w.cblock);
    UnhashedOthers(d, f, f, e, d.sys.w.cblock);
  }

  lemma WritebackTransfer(d: Store, f: Flat)
    requires StoreInv(d, f) && d.sys.w.WritingBack?
    ensures d.io.NotStarted? ==> StoreInv(d.(io := Loaded(d.ssd[d.sys.w.cblock])), f)
    ensures d.io.Loaded? ==> StoreInv(d.(io := Stored, origin := d.origin[FlightKey(d) := d.io.buf]), f)
  {
    var c := d.sys.w.cblock;
    assert KeyHashed(d.sys.m, FlightKey(d));
    OthersHaveOtherKeys(d.sys.m, c);
  }

  lemma EndWritebackStep(d: Store, f: Flat, ok: bool)
    requires StoreInv(d, f) && d.sys.w.WritingBack? && (ok ==> d.io.Stored?)
    requires ok || WrittenAgain(d) || d.io.Stored?
    ensures var e := d.(sys := Apply(d.sys, WritebackDone(ok)), io := NotStarted);
            StoreSane(e) && StoreInv(e, f)
  {
    EndWritebackView(d.sys, ok);
    StoredIsCurrent(d, f);
    WrittenBack(d, d.(sys := Apply(d.sys, WritebackDone(ok)), io := NotStarted), f);
  }

  lemma StoredIsCurrent(d: Store, f: Flat)
    requires StoreInv(d, f) && d.sys.w.WritingBack? && (WrittenAgain(d) || d.io.Stored?)
    ensures WrittenAgain(d) || d.origin[FlightKey(d)] == FlatBlock(f, FlightKey(d))
  {
  }

  lemma EndWritebackView(s: Sys, ok: bool)
    requires ProtocolInv(s) && s.w.WritingBack?
    ensures var t := Apply(s, WritebackDone(ok));
            ProtocolInv(t) && Sane(t) && SameView(s.m, t.m) && t.w.Completed?
  {
    StepKeepsInv(s, WritebackDone(ok));
    WritebackEndView(s.m, s.w.cblock, ok);
  }

  lemma WritebackEndView(s: State, c: nat, ok: bool)
    requires Inv(s) && c < |s.cells| && s.cells[c].pending && Hashed(s, c)
    ensures SameView(s, WritebackComplete(s, c, ok))
  {
    WritebackCompleteKeepsInv(s, c, ok);
  }

  /** A write-back may end if its entry is dirty again or the origin is up to date. */
  lemma WrittenBack(d: Store, e: Store, f: Flat)
    requires StoreInv(d, f) && d.sys.w.WritingBack?
    requires WrittenAgain(d) || d.origin[FlightKey(d)] == FlatBlock(f, FlightKey(d))
    requires ProtocolInv(e.sys) && StoreSane(e) && SameView(d.sys.m, e.sys.m) && !e.sys.w.Busy()
    requires e.ssd == d.ssd && e.origin == d.origin && e.users == d.users && e.unwritten == d.unwritten
    ensures StoreInv(e, f)
  {
    SameTableUncached(d, e, f);
    SameTableCached(d, e, f);
  }

  lemma SameTableCached(d: Store, e: Store, f: Flat)
    requires StoreSane(d) && CachedCurrent(d, f) && !d.io.Trimmed? && StoreSane(e) && SameTable(d.sys.m, e.sys.m)
    requires e.ssd == d.ssd && e.unwritten == d.unwritten
    ensures CachedCurrent(e, f)
  {
  }

  lemma SameTableUncached(d: Store, e: Store, f: Flat)
    requires StoreSane(d) && UncachedCurrent(d, f) && StoreSane(e)
    requires SameTable(d.sys.m, e.sys.m) && e.origin == d.origin
    ensures UncachedCurrent(e, f)
  {
    forall k: Key | !KeyHashed(e.sys.m, k)
      ensures d.origin[k] == FlatBlock(f, k)
    {
      SameTableSameKeys(d.sys.m, e.sys.m, k);
    }
  }

  // ---------------------------------------------------------------- every step of the worker

  lemma PromotionOps(d: Store, f: Flat, op: Op)
    requires StoreInv(d, f) && CanDo(d, op)
    requires op.BeginPromotion? || op.PromotionLoad? || op.PromotionStore? || op.EndPromotion?
    ensures StoreSane(Do(d, op)) && StoreInv(Do(d, op), f)
  {
    match op
    case BeginPromotion => BeginPromotionStep(d, f);
    case PromotionLoad => PromotionTransfer(d, f);
    case PromotionStore => PromotionTransfer(d, f);
    case EndPromotion(ok) => EndPromotionStep(d, f, ok);
  }

  lemma DemotionOps(d: Store, f: Flat, op: Op)
    requires StoreInv(d, f) && CanDo(d, op) && Safe(d, op)
    requires op.BeginDemotion? || op.Trim? || op.EndDemotion?
    ensures StoreSane(Do(d, op)) && StoreInv(Do(d, op), f)
  {
    match op
    case BeginDemotion => BeginDemotionStep(d, f);
    case Trim(block, junk) => TrimStep(d, f, block, junk);
    case EndDemotion => EndDemotionStep(d, f);
  }

  lemma WritebackOps(d: Store, f: Flat, op: Op)
    requires StoreInv(d, f) && CanDo(d, op) && Safe(d, op)
    requires op.BeginWriteback? || op.WritebackLoad? || op.WritebackStore? || op.EndWriteback?
    ensures StoreSane(Do(d, op)) && StoreInv(Do(d, op), f)
  {
    match op
    case BeginWriteback => BeginWritebackStep(d, f);
    case WritebackLoad => WritebackTransfer(d, f);
    case WritebackStore => WritebackTransfer(d, f);
    case EndWriteback(ok) => EndWritebackStep(d, f, ok);
  }

  lemma QueueOps(d: Store, f: Flat, op: Op)
    requires StoreInv(d, f) && CanDo(d, op) && (op.WorkerPeek? || op.WorkerPop?)
    ensures StoreSane(Do(d, op)) && StoreInv(Do(d, op), f)
  {
    var st := if op.WorkerPeek? then Peek else PopWork;
    StepKeepsInv(d.sys, st);
    QuietStep(d, Apply(d.sys, st), f);
  }

  lemma WorkerStep(d: Store, f: Flat, op: Op)
    requires StoreInv(d, f) && CanDo(d, op) && Safe(d, op) && !IsRequest(op)
    ensures StoreSane(Do(d, op)) && StoreInv(Do(d, op), f)
  {
    if op.BeginPromotion? || op.PromotionLoad? || op.PromotionStore? || op.EndPromotion? {
      PromotionOps(d, f, op);
    } else if op.BeginDemotion? || op.Trim? || op.EndDemotion? {
      DemotionOps(d, f, op);
    } else if op.WorkerPeek? || op.WorkerPop? {
      QueueOps(d, f, op);
    } else {
      WritebackOps(d, f, op);
    }
  }

  /** The critical section an operation of the worker runs, if it runs one. */
  function SectionOf(op: Op): Option<Step> {
    match op
    case WorkerPeek => Some(Peek)
    case BeginPromotion => Some(TryPromotion)
    case EndPromotion(ok) => Some(PromotionDone(ok))
    case BeginDemotion => Some(TryDemotion)
    case EndDemotion => Some(DemotionDone(true))
    case BeginWriteback => Some(TryWriteback)
    case EndWriteback(ok) => Some(WritebackDone(ok))
    case WorkerPop => Some(PopWork)
    case _ => None
  }

  lemma WorkerShowsNothing(d: Store, op: Op)
    requires StoreSane(d) && CanDo(d, op) && !IsRequest(op)
    ensures EventOf(d, op) == Internal
  {
  }
}
