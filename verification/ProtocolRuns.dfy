/**
 * The data layer runs the sections of the protocol and nothing else: what each operation does
 * to the mapping and the queue, and what a lookup tells its user.
 */
module ProtocolRuns {
  import opened CacheTypes
  import opened CacheStore
  import opened FlatStore
  import opened MappingState
  import opened Protocol
  import opened RequestSteps
  import opened StoreRefinement
  import opened WholeRequests
  import opened WorkerSteps

  /** The section in which a write looks its block up, inserting it if it covers the block. */
  function WriteSection(k: Key, full: bool): Step {
    if full then LookupInsert(k) else Lookup(k)
  }

  /** The sections an operation runs: a request its lookup, and after a write to the SSD the mark. */
  function SectionsOf(d: Store, op: Op): seq<Step>
    requires StoreSane(d) && CanDo(d, op)
  {
    match op
    case Read(path, page, count) => if CheckPio(page, count) then [Lookup(KeyOf(path, page))] else []
    case Write(path, page, data) =>
      if !CheckPio(page, |data|) then [] else
        var k, full := KeyOf(path, page), Overwritable(page % PAGES, |data|);
        match WriteTarget(d.sys, k, full) {
          case Some(c) => [WriteSection(k, full), SetDirty(c)]
          case None => [WriteSection(k, full)]
        }
    case Discard(path, page, count) => if CheckPio(page, count) then [Step.Remove(KeyOf(path, page))] else []
    case StartRead(_, path, page, _) => [Lookup(KeyOf(path, page))]
    case StartWrite(_, path, page, data) =>
      [WriteSection(KeyOf(path, page), Overwritable(page % PAGES, |data|))]
    case Transfer(_) => []
    case Mark(u) => [SetDirty(d.users[u].block)]
    case _ => if SectionOf(op).Some? then [SectionOf(op).value] else []
  }

  lemma ExecNothing(s: Sys)
    ensures Exec(s, []) == Some(s)
  {
  }

  lemma ExecSection(s: Sys, st: Step)
    requires Sane(s) && Enabled(s, st)
    ensures Exec(s, [st]) == Some(Apply(s, st))
  {
    assert [st][..0] == [];
  }

  lemma ExecTwo(s: Sys, first: Step, second: Step)
    requires Sane(s) && Enabled(s, first) && Sane(Apply(s, first)) && Enabled(Apply(s, first), second)
    ensures Exec(s, [first, second]) == Some(Apply(Apply(s, first), second))
  {
    assert [first, second][..1] == [first];
    ExecSection(s, first);
  }

  /** The lookup of a write is the section of the protocol, and what it finds is found afterwards. */
  lemma WriteLookupIsSection(s: Sys, k: Key, full: bool)
    requires ProtocolInv(s) && Sane(s)
    ensures AfterWriteLookup(s, k, full) == Apply(s, WriteSection(k, full))
    ensures var t := AfterWriteLookup(s, k, full); Bounded(t.m) && Sane(t) && WriteTarget(s, k, full) == Find(t.m, k)
  {
    LookupOfWrite(s, k, full);
    if Find(s.m, k).Some? {
      HitIsFoundAgain(s, k, full, k);
    } else if full {
      FullMissInserts(s, k);
    }
  }

  lemma WholeWriteRunsSections(d: Store, op: Op)
    requires ProtocolInv(d.sys) && StoreSane(d) && op.Write? && CanDo(d, op) && CheckPio(op.page, |op.data|)
    ensures Exec(d.sys, SectionsOf(d, op)) == Some(Do(d, op).sys)
  {
    var k, full := KeyOf(op.path, op.page), Overwritable(op.page % PAGES, |op.data|);
    WriteLookupIsSection(d.sys, k, full);
    LookupOfWrite(d.sys, k, full);
    WriteOp(d, op);
    match WriteTarget(d.sys, k, full)
    case Some(c) => ExecTwo(d.sys, WriteSection(k, full), SetDirty(c));
    case None => ExecSection(d.sys, WriteSection(k, full));
  }

  lemma UserRunsSections(d: Store, op: Op)
    requires ProtocolInv(d.sys) && StoreSane(d) && CanDo(d, op) && IsRequest(op) && !op.Write?
    ensures Exec(d.sys, SectionsOf(d, op)) == Some(Do(d, op).sys)
  {
    ExecNothing(d.sys);
    match op
    case Read(path, page, _) => ExecSection(d.sys, Lookup(KeyOf(path, page)));
    case Discard(path, page, count) =>
      if CheckPio(page, count) {
        ExecSection(d.sys, Step.Remove(KeyOf(path, page)));
      }
    case StartRead(_, path, page, _) => ExecSection(d.sys, Lookup(KeyOf(path, page)));
    case StartWrite(_, path, page, data) =>
      ExecSection(d.sys, WriteSection(KeyOf(path, page), Overwritable(page % PAGES, |data|)));
    case Transfer(_) =>
    case Mark(u) =>
      assert UserSane(d.users[u], |d.ssd|);
      ExecSection(d.sys, SetDirty(d.users[u].block));
  }

  /** Every operation does to mapping, queue and worker what its sections do, one after the other. */
  lemma OpRunsItsSections(d: Store, op: Op)
    requires ProtocolInv(d.sys) && StoreSane(d) && CanDo(d, op)
    ensures Exec(d.sys, SectionsOf(d, op)) == Some(Do(d, op).sys)
  {
    ExecNothing(d.sys);
    if op.Write? && CheckPio(op.page, |op.data|) {
      WholeWriteRunsSections(d, op);
    } else if IsRequest(op) && !op.Write? {
      UserRunsSections(d, op);
    } else if SectionOf(op).Some? {
      ExecSection(d.sys, SectionOf(op).value);
    }
  }

  // ---------------------------------------------------------------- what a lookup tells its user

  /** A started read is told what a lookup of its block finds, before and after. */
  lemma ReadIsToldWhatIsFound(d: Store, op: Op)
    requires ProtocolInv(d.sys) && StoreSane(d) && op.StartRead? && CanDo(d, op)
    ensures var k, e := KeyOf(op.path, op.page), Do(d, op);
            && Bounded(e.sys.m) && e.users[op.u] == ToRead(op.path, op.page, op.count, Find(d.sys.m, k))
            && Find(e.sys.m, k) == Find(d.sys.m, k)
  {
    var k := KeyOf(op.path, op.page);
    if Find(d.sys.m, k).Some? {
      HitIsFoundAgain(d.sys, k, false, k);
    } else {
      MissIsQueued(d.sys, k);
    }
  }

  /** A started write is told what a lookup of its block finds afterwards. */
  lemma WriteIsToldWhatIsFound(d: Store, op: Op)
    requires ProtocolInv(d.sys) && StoreSane(d) && op.StartWrite? && CanDo(d, op)
    ensures var k, e := KeyOf(op.path, op.page), Do(d, op);
            Bounded(e.sys.m) && e.users[op.u] == ToWrite(op.path, op.page, op.data, Find(e.sys.m, k))
  {
    WriteLookupIsSection(d.sys, KeyOf(op.path, op.page), Overwritable(op.page % PAGES, |op.data|));
  }

  /** The key and whether all of its block is written, for a request that looks its block up. */
  predicate LooksUp(op: Op, k: Key) {
    match op
    case Read(path, page, count) => page < U32 && CheckPio(page, count) && KeyOf(path, page) == k
    case StartRead(_, path, page, _) => page < U32 && KeyOf(path, page) == k
    case Write(path, page, data) =>
      page < U32 && CheckPio(page, |data|) && KeyOf(path, page) == k && !Overwritable(page % PAGES, |data|)
    case StartWrite(_, path, page, data) =>
      page < U32 && KeyOf(path, page) == k && !Overwritable(page % PAGES, |data|)
    case _ => false
  }

  /** A read or a partial write that misses leaves its block queued for promotion, or the ring full. */
  lemma MissedRequestIsQueued(d: Store, op: Op, k: Key)
    requires ProtocolInv(d.sys) && StoreSane(d) && CanDo(d, op) && LooksUp(op, k) && Find(d.sys.m, k).None?
    ensures var q, t := d.sys.queue, Do(d, op).sys;
            && t == d.sys.(queue := t.queue) && q <= t.queue
            && (k in t.queue || |q| == d.sys.capacity - 1)
            && (k !in q && |q| < d.sys.capacity - 1 ==> t.queue == q + [k])
  {
    MissIsQueued(d.sys, k);
    if op.Write? {
      WriteOp(d, op);
    }
  }

  /**
   * The device transfer of a request depends on what its lookup told the user alone: whatever
   * mapping, queue, worker and migration it finds, it does the same and shows the same.
   */
  lemma TransferIgnoresMapping(d: Store, s: Sys, io: Io, u: nat)
    requires StoreSane(d) && StoreSane(d.(sys := s, io := io)) && CanDo(d, Transfer(u))
    ensures CanDo(d.(sys := s, io := io), Transfer(u))
    ensures DoTransfer(d.(sys := s, io := io), u) == DoTransfer(d, u).(sys := s, io := io)
    ensures TransferEvent(d.(sys := s, io := io), u) == TransferEvent(d, u)
  {
  }

  // ---------------------------------------------------------------- nobody is stuck

  /** A user in the middle of a request can always do its next step, and an idle one start any. */
  lemma UserCanStep(d: Store, u: nat, path: Path, page: nat, data: seq<Data>)
    requires StoreSane(d) && u < |d.users| && page < 0x10_0000 && data != [] && CheckPio(page, |data|)
    ensures match d.users[u]
            case Nothing => CanDo(d, StartRead(u, path, page, |data|)) && CanDo(d, StartWrite(u, path, page, data))
            case ToMark(_) => CanDo(d, Mark(u))
            case _ => CanDo(d, Transfer(u))
  {
  }

  /** The next step of the worker where its transfers succeed; it has always got one. */
  function WorkerStepOf(d: Store): Op {
    match d.sys.w
    case Idle => WorkerPeek
    case Peeked(_) => BeginPromotion
    case NoFree(_) => BeginDemotion
    case NoClean(_) => BeginWriteback
    case Promoting(_, _) =>
      if d.io.NotStarted? then PromotionLoad else if d.io.Loaded? then PromotionStore else EndPromotion(true)
    case Demoting(_, c) => if d.io.NotStarted? then Trim(c, ZERO_BLOCK) else EndDemotion
    case WritingBack(_, _) =>
      if d.io.NotStarted? then WritebackLoad else if d.io.Loaded? then WritebackStore else EndWriteback(true)
    case Completed(_) => WorkerPop
  }

  lemma WorkerCanStep(d: Store)
    requires ProtocolInv(d.sys) && StoreSane(d)
    ensures CanDo(d, WorkerStepOf(d)) && !IsRequest(WorkerStepOf(d))
  {
  }

  /** Its transfers may fail at any point, whatever has been done of them. */
  lemma WorkerMayFail(d: Store)
    requires StoreSane(d)
    ensures d.sys.w.Promoting? ==> CanDo(d, EndPromotion(false))
    ensures d.sys.w.WritingBack? ==> CanDo(d, EndWriteback(false))
    ensures d.sys.w.Demoting? && d.io.NotStarted? ==> forall b: nat, junk: Block :: CanDo(d, Trim(b, junk))
  {
  }

  /** Whole requests are taken at any moment, a discard unless its block is in flight. */
  lemma RequestsAreTaken(d: Store, path: Path, page: nat, data: seq<Data>)
    requires StoreSane(d) && page < 0x10_0000 && data != []
    ensures CanDo(d, Read(path, page, |data|)) && CanDo(d, Write(path, page, data))
    ensures CanDo(d, Discard(path, page, |data|)) <==>
            (CheckPio(page, |data|) && Find(d.sys.m, KeyOf(path, page)).Some? ==>
               !d.sys.m.cells[Find(d.sys.m, KeyOf(path, page)).value].pending)
  {
  }

  // ---------------------------------------------------------------- runs

  /** One more step of a run, if it can be done. */
  function Then(s: Option<Sys>, st: Step): Option<Sys> {
    if s.Some? && Sane(s.value) && Enabled(s.value, st) then Some(Apply(s.value, st)) else None
  }

  lemma ExecThen(s: Sys, steps: seq<Step>)
    requires steps != []
    ensures Exec(s, steps) == Then(Exec(s, steps[..|steps| - 1]), steps[|steps| - 1])
  {
  }

  lemma {:induction false} ExecConcat(s: Sys, a: seq<Step>, t: Sys, b: seq<Step>, all: seq<Step>)
    requires Exec(s, a) == Some(t) && all == a + b
    ensures Exec(s, all) == Exec(t, b)
    decreases |b|
  {
    if b == [] {
      assert all == a;
    } else {
      assert all[..|all| - 1] == a + b[..|b| - 1] && all[|all| - 1] == b[|b| - 1];
      ExecConcat(s, a, t, b[..|b| - 1], all[..|all| - 1]);
      ExecThen(s, all);
      ExecThen(t, b);
    }
  }

  lemma ReachableGoesOn(s: Sys, steps: seq<Step>, t: Sys)
    requires Reachable(s) && Exec(s, steps) == Some(t)
    ensures Reachable(t)
  {
    var n: nat, buckets: nat, capacity: nat, before :|
      2 <= buckets && 1 <= capacity && Exec(Init(n, buckets, capacity), before) == Some(s);
    ExecConcat(Init(n, buckets, capacity), before, s, steps, before + steps);
  }

  lemma InitialIsReachable(d: Store, f: Flat)
    requires InitialStore(d, f)
    ensures Reachable(d.sys)
  {
    var n: nat, buckets: nat, capacity: nat :|
      2 <= buckets && 1 <= capacity && d.sys == Init(n, buckets, capacity);
    ExecNothing(d.sys);
  }

  /**
   * Whatever the rules, every run of the data layer is a run of the protocol, so all that holds
   * in every reachable state of the protocol holds here, where data may be lost, as well.
   */
  lemma {:induction false} RunIsProtocolRun(d: Store, f: Flat, ops: seq<Op>, rules: Rules, e: Store, events: seq<Event>)
    requires InitialStore(d, f) && Run(d, ops, rules) == Some((e, events))
    ensures Reachable(e.sys) && ProtocolInv(e.sys)
  {
    if ops == [] {
      InitialIsReachable(d, f);
    } else {
      var e0, before := RunSplits(d, ops, rules, e, events);
      RunIsProtocolRun(d, f, ops[..|ops| - 1], rules, e0, before);
      OpRunsItsSections(e0, ops[|ops| - 1]);
      ReachableGoesOn(e0.sys, SectionsOf(e0, ops[|ops| - 1]), e.sys);
    }
    ReachableInv(e.sys);
  }
}
