/**
 * Any number of users and the one migration worker, interleaved at the granularity of
 * the critical sections under `mapping_lock` and `wq.lock`. A state holds the mapping,
 * the queue and where the worker is inside `do_migration_work`.
 */
module Protocol {
  import opened CacheTypes
  import opened MappingState
  import opened MappingTable
  import opened MappingInvariant
  import opened Sequences
  import Queue = QueueSpec

  datatype Worker =
    | Idle
    | Peeked(key: Key)
    | NoFree(key: Key)
    | NoClean(key: Key)
    | Promoting(key: Key, cblock: nat)
    | Demoting(key: Key, cblock: nat)
    | WritingBack(key: Key, cblock: nat)
    | Completed(key: Key)
  {
    predicate Busy() {
      Promoting? || Demoting? || WritingBack?
    }

    /** Entry `i` is the one in flight. */
    predicate Holds(i: nat) {
      Busy() && i == cblock
    }
  }

  datatype Sys = Sys(m: State, queue: seq<Key>, capacity: nat, w: Worker)

  /** One critical section. `SetDirty` may come late: its block number can be stale. */
  datatype Step =
    | Lookup(k: Key)
    | LookupInsert(k: Key)
    | Remove(k: Key)
    | SetDirty(c: nat)
    | Peek
    | TryPromotion
    | PromotionDone(ok: bool)
    | TryDemotion
    | DemotionDone(ok: bool)
    | TryWriteback
    | WritebackDone(ok: bool)
    | PopWork

  predicate Sane(s: Sys) {
    Bounded(s.m) && (s.w.Busy() ==> s.w.cblock < |s.m.cells|)
  }

  /**
   * Users may step at any time, the worker in its program order. A discard must not hit
   * an entry that is in flight: `remove_mapping` would unlink it from a list it is not on.
   */
  predicate Enabled(s: Sys, st: Step)
    requires Sane(s)
  {
    match st
    case Lookup(_) => true
    case LookupInsert(_) => true
    case Remove(k) => Find(s.m, k).Some? ==> !s.m.cells[Find(s.m, k).value].pending
    case SetDirty(c) => c < |s.m.cells|
    case Peek => s.w.Idle?
    case TryPromotion => s.w.Peeked?
    case PromotionDone(_) => s.w.Promoting?
    case TryDemotion => s.w.NoFree?
    case DemotionDone(_) => s.w.Demoting?
    case TryWriteback => s.w.NoClean?
    case WritebackDone(_) => s.w.WritingBack?
    case PopWork => s.w.Completed? && s.queue != []
  }

  /** The block a full-block write ends up in: a hit or a fresh entry, otherwise none. */
  function LookupInsertResult(s: Sys, k: Key): Option<nat>
    requires Bounded(s.m)
  {
    if Find(s.m, k).Some? then Find(s.m, k)
    else if Queue.Contains(s.queue, k) || s.m.free == [] then None
    else Some(s.m.free[0])
  }

  function ApplyLookup(s: Sys, k: Key): Sys
    requires Bounded(s.m)
  {
    if Find(s.m, k).Some? then s.(m := MappingState.Lookup(s.m, k))
    else s.(queue := Queue.Insert(s.queue, k, s.capacity))
  }

  function ApplyLookupInsert(s: Sys, k: Key): Sys
    requires Bounded(s.m)
  {
    if Find(s.m, k).Some? then s.(m := MappingState.Lookup(s.m, k))
    else if Queue.Contains(s.queue, k) then s
    else if s.m.free == [] then s.(queue := Queue.Insert(s.queue, k, s.capacity))
    else s.(m := InsertDirty(s.m, k))
  }

  function Apply(s: Sys, st: Step): Sys
    requires Sane(s) && Enabled(s, st)
  {
    match st
    case Lookup(k) => ApplyLookup(s, k)
    case LookupInsert(k) => ApplyLookupInsert(s, k)
    case Remove(k) => s.(m := MappingState.Remove(s.m, k))
    case SetDirty(c) => s.(m := SetDirtyAfterWrite(s.m, c))
    case Peek =>
      if s.queue == [] then s else s.(w := Peeked(s.queue[0]))
    case TryPromotion =>
      if s.m.free == [] then s.(w := NoFree(s.w.key))
      else s.(m := PromotionBegin(s.m, s.w.key), w := Promoting(s.w.key, s.m.free[0]))
    case PromotionDone(ok) =>
      s.(m := PromotionComplete(s.m, s.w.cblock, ok), w := Completed(s.w.key))
    case TryDemotion =>
      if !CanDemote(s.m) then s.(w := NoClean(s.w.key))
      else s.(m := DemotionBegin(s.m), w := Demoting(s.w.key, s.m.clean[0]))
    case DemotionDone(ok) =>
      s.(m := DemotionComplete(s.m, s.w.cblock, ok), w := Completed(s.w.key))
    case TryWriteback =>
      if !CanWriteback(s.m) then s.(w := Completed(s.w.key))
      else s.(m := WritebackBegin(s.m), w := WritingBack(s.w.key, s.m.dirty[0]))
    case WritebackDone(ok) =>
      s.(m := WritebackComplete(s.m, s.w.cblock, ok), w := Completed(s.w.key))
    case PopWork =>
      s.(queue := s.queue[1..], w := Idle)
  }

  function Init(n: nat, buckets: nat, capacity: nat): Sys {
    Sys(InitState(n, buckets), [], capacity, Idle)
  }

  // ---------------------------------------------------------------- the invariant

  /** The worker and the flag bits agree on what is in flight, and on whether it is hashed. */
  ghost predicate WorkerInv(s: Sys)
    requires Bounded(s.m)
  {
    && (forall i :: 0 <= i < |s.m.cells| ==> (s.m.cells[i].pending <==> s.w.Holds(i)))
    && (s.w.Busy() ==> s.w.cblock < |s.m.cells| && (Hashed(s.m, s.w.cblock) <==> !s.w.Promoting?))
    && (s.w.Promoting? ==> s.m.cells[s.w.cblock].key == s.w.key)
    && (!s.w.Idle? ==> s.queue != [] && s.queue[0] == s.w.key)
  }

  /** A queued key is not hashed, except the front one between its promotion and its removal. */
  ghost predicate QueueInv(s: Sys)
    requires Bounded(s.m)
  {
    && NoDup(s.queue) && |s.queue| < s.capacity
    && forall i :: 0 <= i < |s.m.cells| && Hashed(s.m, i) && s.m.cells[i].key in s.queue ==>
                     s.w == Completed(s.m.cells[i].key)
  }

  ghost predicate ProtocolInv(s: Sys) {
    Inv(s.m) && WorkerInv(s) && QueueInv(s)
  }

  lemma InitProtocolInv(n: nat, buckets: nat, capacity: nat)
    requires 2 <= buckets && 1 <= capacity
    ensures ProtocolInv(Init(n, buckets, capacity))
  {
    InitInv(n, buckets);
  }

  // ---------------------------------------------------------------- user steps

  lemma LookupStep(s: Sys, k: Key)
    requires ProtocolInv(s)
    ensures ProtocolInv(ApplyLookup(s, k))
  {
    FindIsExact(s.m, k);
    if Find(s.m, k).Some? {
      LookupKeepsInv(s.m, k);
    } else {
      Queue.InsertKeepsDistinct(s.queue, k, s.capacity);
    }
  }

  lemma InsertStep(s: Sys, k: Key)
    requires ProtocolInv(s)
    requires Find(s.m, k).None? && !Queue.Contains(s.queue, k) && s.m.free != []
    ensures ProtocolInv(s.(m := InsertDirty(s.m, k)))
  {
    FindIsExact(s.m, k);
    Queue.QueuedIsContained(s.queue, k);
    InsertDirtyKeepsInv(s.m, k);
  }

  lemma LookupInsertStep(s: Sys, k: Key)
    requires ProtocolInv(s)
    ensures ProtocolInv(ApplyLookupInsert(s, k))
  {
    if Find(s.m, k).Some? || s.m.free == [] {
      LookupStep(s, k);
    } else if !Queue.Contains(s.queue, k) {
      InsertStep(s, k);
    }
  }

  lemma RemoveStep(s: Sys, k: Key)
    requires ProtocolInv(s)
    requires Find(s.m, k).Some? ==> !s.m.cells[Find(s.m, k).value].pending
    ensures ProtocolInv(s.(m := MappingState.Remove(s.m, k)))
  {
    if Find(s.m, k).Some? {
      RemoveHitKeepsInv(s.m, k);
    }
  }

  lemma SetDirtyStep(s: Sys, c: nat)
    requires ProtocolInv(s) && c < |s.m.cells|
    ensures ProtocolInv(s.(m := SetDirtyAfterWrite(s.m, c)))
  {
    SetDirtyKeepsInv(s.m, c);
  }

  // ---------------------------------------------------------------- worker steps

  lemma TryPromotionStep(s: Sys)
    requires ProtocolInv(s) && s.w.Peeked?
    ensures ProtocolInv(Apply(s, TryPromotion))
  {
    if s.m.free != [] {
      PromotionBeginKeepsInv(s.m, s.w.key);
    }
  }

  /** Inside the promotion window the key stays out of the table: it is still queued. */
  lemma PromotedKeyIsUnhashed(s: Sys)
    requires ProtocolInv(s) && s.w.Promoting?
    ensures !KeyHashed(s.m, s.w.key)
  {
    assert s.w.key in s.queue;
  }

  lemma PromotionDoneStep(s: Sys, ok: bool)
    requires ProtocolInv(s) && s.w.Promoting?
    ensures ProtocolInv(Apply(s, PromotionDone(ok)))
  {
    PromotedKeyIsUnhashed(s);
    PromotionCompleteKeepsInv(s.m, s.w.cblock, ok);
  }

  lemma TryDemotionStep(s: Sys)
    requires ProtocolInv(s) && s.w.NoFree?
    ensures ProtocolInv(Apply(s, TryDemotion))
  {
    if CanDemote(s.m) {
      DemotionBeginKeepsInv(s.m);
    }
  }

  lemma DemotionDoneStep(s: Sys, ok: bool)
    requires ProtocolInv(s) && s.w.Demoting?
    ensures ProtocolInv(Apply(s, DemotionDone(ok)))
  {
    DemotionCompleteKeepsInv(s.m, s.w.cblock, ok);
  }

  lemma TryWritebackStep(s: Sys)
    requires ProtocolInv(s) && s.w.NoClean?
    ensures ProtocolInv(Apply(s, TryWriteback))
  {
    if CanWriteback(s.m) {
      WritebackBeginKeepsInv(s.m);
    }
  }

  lemma WritebackDoneStep(s: Sys, ok: bool)
    requires ProtocolInv(s) && s.w.WritingBack?
    ensures ProtocolInv(Apply(s, WritebackDone(ok)))
  {
    WritebackCompleteKeepsInv(s.m, s.w.cblock, ok);
  }

  lemma PopWorkStep(s: Sys)
    requires ProtocolInv(s) && s.w.Completed? && s.queue != []
    ensures ProtocolInv(Apply(s, PopWork))
  {
    var t := Apply(s, PopWork);
    assert forall k :: k in t.queue ==> k in s.queue && k != s.queue[0];
    forall i | 0 <= i < |t.m.cells| && Hashed(t.m, i)
      ensures t.m.cells[i].key !in t.queue
    {
      assert Hashed(s.m, i);
    }
  }

  /** Every step of every party keeps the invariant. */
  lemma StepKeepsInv(s: Sys, st: Step)
    requires ProtocolInv(s) && Sane(s) && Enabled(s, st)
    ensures ProtocolInv(Apply(s, st)) && Sane(Apply(s, st))
  {
    match st
    case Lookup(k) => LookupStep(s, k);
    case LookupInsert(k) => LookupInsertStep(s, k);
    case Remove(k) => RemoveStep(s, k);
    case SetDirty(c) => SetDirtyStep(s, c);
    case Peek =>
    case TryPromotion => TryPromotionStep(s);
    case PromotionDone(ok) => PromotionDoneStep(s, ok);
    case TryDemotion => TryDemotionStep(s);
    case DemotionDone(ok) => DemotionDoneStep(s, ok);
    case TryWriteback => TryWritebackStep(s);
    case WritebackDone(ok) => WritebackDoneStep(s, ok);
    case PopWork => PopWorkStep(s);
  }

  // ---------------------------------------------------------------- runs

  /** The state after a sequence of steps, if every one of them was enabled in turn. */
  function Exec(s: Sys, steps: seq<Step>): Option<Sys> {
    if steps == [] then Some(s)
    else
      var n := |steps| - 1;
      match Exec(s, steps[..n])
      case None => None
      case Some(t) => if Sane(t) && Enabled(t, steps[n]) then Some(Apply(t, steps[n])) else None
  }

  ghost predicate Reachable(t: Sys) {
    exists n: nat, buckets: nat, capacity: nat, steps: seq<Step> ::
      2 <= buckets && 1 <= capacity && Exec(Init(n, buckets, capacity), steps) == Some(t)
  }

  lemma {:induction false} RunKeepsInv(s: Sys, steps: seq<Step>)
    requires ProtocolInv(s)
    ensures Exec(s, steps).Some? ==> ProtocolInv(Exec(s, steps).value)
  {
    if steps != [] {
      var n := |steps| - 1;
      RunKeepsInv(s, steps[..n]);
      if Exec(s, steps).Some? {
        StepKeepsInv(Exec(s, steps[..n]).value, steps[n]);
      }
    }
  }

  lemma ReachableInv(t: Sys)
    requires Reachable(t)
    ensures ProtocolInv(t)
  {
    var n: nat, buckets: nat, capacity: nat, steps :|
      2 <= buckets && 1 <= capacity && Exec(Init(n, buckets, capacity), steps) == Some(t);
    InitProtocolInv(n, buckets, capacity);
    RunKeepsInv(Init(n, buckets, capacity), steps);
  }

  // ---------------------------------------------------------------- what every run guarantees

  /** No interleaving ever leaves two hashed entries under one key. */
  lemma NoKeyIsHashedTwice(t: Sys, i: nat, j: nat)
    requires Reachable(t) && i < |t.m.cells| && j < |t.m.cells| && i != j
    ensures Bounded(t.m)
    ensures Hashed(t.m, i) && Hashed(t.m, j) ==> t.m.cells[i].key != t.m.cells[j].key
  {
    ReachableInv(t);
    if Hashed(t.m, i) && Hashed(t.m, j) {
      HashedKeysAreUnique(t.m, i, j);
    }
  }

  /**
   * A queued key is absent from the table unless it is the front item and its migration
   * has completed but is not yet popped.
   */
  lemma QueuedKeyIsAbsent(t: Sys, j: nat)
    requires Reachable(t) && j < |t.queue|
    ensures Bounded(t.m)
    ensures KeyHashed(t.m, t.queue[j]) ==> j == 0 && t.w == Completed(t.queue[0])
    ensures NoDup(t.queue) && |t.queue| < t.capacity
  {
    ReachableInv(t);
    if KeyHashed(t.m, t.queue[j]) {
      assert t.queue[j] in t.queue;
      assert t.w == Completed(t.queue[j]);
    }
  }

  function Count(b: bool): nat {
    if b then 1 else 0
  }

  /** Every entry is in exactly one place, and the hashed entries are known from the flags. */
  lemma EntriesArePartitioned(t: Sys, i: nat)
    requires Reachable(t) && i < |t.m.cells|
    ensures Bounded(t.m)
    ensures Count(i in t.m.free) + Count(i in t.m.clean) + Count(i in t.m.dirty) + Count(t.w.Holds(i)) == 1
    ensures t.m.cells[i].pending <==> t.w.Holds(i)
    ensures t.m.cells[i].alloc <==> i !in t.m.free
    ensures i in t.m.clean ==> !t.m.cells[i].dirty
    ensures i in t.m.dirty ==> t.m.cells[i].dirty
    ensures Hashed(t.m, i) <==> t.m.cells[i].alloc && !(t.w.Promoting? && t.w.cblock == i)
  {
    ReachableInv(t);
    if Hashed(t.m, i) {
      InChainIsHashed(t.m, HomeBucket(t.m, i), i);
    }
  }

  /** Conservation: the counters of the three lists and the entry in flight add up to the cache. */
  lemma EntriesAreConserved(t: Sys)
    requires Reachable(t)
    ensures t.m.nrAllocated + |t.m.free| == |t.m.cells|
    ensures |t.m.free| + |t.m.clean| + |t.m.dirty| + Count(t.w.Busy()) == |t.m.cells|
  {
    ReachableInv(t);
    ConservedUnderInv(t);
  }

  lemma ConservedUnderInv(t: Sys)
    requires ProtocolInv(t)
    ensures |t.m.free| + |t.m.clean| + |t.m.dirty| + Count(t.w.Busy()) == |t.m.cells|
  {
    var p: seq<nat> := if t.w.Busy() then [t.w.cblock] else [];
    var all := seq(|t.m.cells|, i => i);
    forall x: nat
      ensures x in all <==> x < |t.m.cells|
    {
      if x < |t.m.cells| {
        assert all[x] == x;
      }
    }
    ConcatKeepsDistinct(t.m.free, t.m.clean);
    ConcatKeepsDistinct(t.m.free + t.m.clean, t.m.dirty);
    ConcatKeepsDistinct(t.m.free + t.m.clean + t.m.dirty, p);
    SameElementsSameLength(t.m.free + t.m.clean + t.m.dirty + p, all);
  }

  /** No chain ever reaches a free entry, and completing a demotion unlinks exactly its victim. */
  lemma ChainsReachNoFreeEntry(t: Sys, b: nat, i: nat)
    requires Reachable(t)
    requires b < |t.m.chains| && i in t.m.chains[b]
    ensures i !in t.m.free
  {
    ReachableInv(t);
    InChainIsHashed(t.m, b, i);
  }

  lemma DemotionUnlinksItsVictim(t: Sys, i: nat)
    requires Reachable(t) && t.w.Demoting? && i < |t.m.cells|
    ensures Sane(t)
    ensures var m' := Apply(t, DemotionDone(true)).m;
            && ChainsInv(t.m) && ChainsInv(m') && |m'.cells| == |t.m.cells|
            && (Hashed(m', i) <==> Hashed(t.m, i) && i != t.w.cblock)
            && TableMap(m') == TableMap(t.m) - {t.m.cells[t.w.cblock].key}
  {
    ReachableInv(t);
    assert Apply(t, DemotionDone(true)).m == DemotionComplete(t.m, t.w.cblock, true);
    DemotionCompleteKeepsInv(t.m, t.w.cblock, true);
    DemotionUpdatesMap(t.m, t.w.cblock);
  }

  /**
   * Without its lock the worker reads the key of the entry it is writing back. Until the end of
   * the write-back no section changes it, nor which entry it is.
   */
  lemma KeyInFlightStays(s: Sys, st: Step)
    requires ProtocolInv(s) && Sane(s) && Enabled(s, st) && s.w.WritingBack? && !st.WritebackDone?
    ensures var t := Apply(s, st);
            t.w == s.w && |t.m.cells| == |s.m.cells| && t.m.cells[s.w.cblock].key == s.m.cells[s.w.cblock].key
  {
    match st
    case Lookup(k) => LookupKeepsInv(s.m, k);
    case LookupInsert(k) =>
      FindIsExact(s.m, k);
      if Find(s.m, k).Some? {
        LookupKeepsInv(s.m, k);
      } else if LookupInsertResult(s, k).Some? {
        InsertDirtyKeepsInv(s.m, k);
      }
    case Remove(k) =>
      if Find(s.m, k).Some? {
        RemoveHitKeepsInv(s.m, k);
      }
    case SetDirty(c) => SetDirtyKeepsInv(s.m, c);
  }

  // ---------------------------------------------------------------- what a lookup leads to

  /** After a miss the key is queued, as the youngest item unless it was before, or the ring is full. */
  lemma MissIsQueued(s: Sys, k: Key)
    requires ProtocolInv(s) && Find(s.m, k).None?
    ensures var t := Apply(s, Lookup(k));
            && t == s.(queue := t.queue) && s.queue <= t.queue
            && (k in t.queue <==> k in s.queue || |s.queue| < s.capacity - 1)
            && (k !in s.queue && |s.queue| < s.capacity - 1 ==> t.queue == s.queue + [k])
  {
    Queue.InsertAppends(s.queue, k, s.capacity);
  }

  /** A full write that misses gets the head of the free list if every queued key differs from its own. */
  lemma FullMissInserts(s: Sys, k: Key)
    requires ProtocolInv(s) && Find(s.m, k).None?
    ensures LookupInsertResult(s, k) ==
            if s.m.free != [] && (forall x :: x in s.queue ==> Queue.Differs(x, k)) then Some(s.m.free[0]) else None
    ensures LookupInsertResult(s, k).Some? ==>
              var t := Apply(s, LookupInsert(k));
              && t == s.(m := t.m) && Bounded(t.m) && Find(t.m, k) == LookupInsertResult(s, k)
              && t.m.cells == s.m.cells[s.m.free[0] := Cell(false, true, true, k)]
  {
    Queue.NotContainedIff(s.queue, k);
    if LookupInsertResult(s, k).Some? {
      FindIsExact(s.m, k);
      InsertDirtyKeepsInv(s.m, k);
      FindIsExact(InsertDirty(s.m, k), k);
    }
  }

  /** A full write that misses and is not inserted leaves something like its key queued, or a full ring. */
  lemma FullMissIsQueued(s: Sys, k: Key)
    requires ProtocolInv(s) && Find(s.m, k).None? && LookupInsertResult(s, k).None?
    ensures var t := Apply(s, LookupInsert(k));
            && t == s.(queue := t.queue) && s.queue <= t.queue
            && ((exists x :: x in t.queue && Queue.Resembles(x, k)) || |s.queue| == s.capacity - 1)
            && ((forall x :: x in s.queue ==> Queue.Differs(x, k)) && |s.queue| < s.capacity - 1 ==>
                  t.queue == s.queue + [k])
  {
    var t := Apply(s, LookupInsert(k));
    Queue.ContainsIff(s.queue, k);
    Queue.NotContainedIff(s.queue, k);
    Queue.InsertAppends(s.queue, k, s.capacity);
    Queue.QueuedIsContained(s.queue, k);
    if !Queue.Contains(s.queue, k) && |s.queue| < s.capacity - 1 {
      assert k in t.queue && Queue.Resembles(k, k);
    }
  }

  /** A hit changes neither the queue nor what any key is found under. */
  lemma HitIsFoundAgain(s: Sys, k: Key, full: bool, k': Key)
    requires ProtocolInv(s) && Find(s.m, k).Some?
    ensures var t := Apply(s, if full then LookupInsert(k) else Lookup(k));
            && t == s.(m := t.m) && t.m.cells == s.m.cells && Bounded(t.m) && Find(t.m, k') == Find(s.m, k')
  {
    LookupKeepsInv(s.m, k);
    FindIsExact(s.m, k');
    FindIsExact(MappingState.Lookup(s.m, k), k');
  }

  // ---------------------------------------------------------------- the nested queue lock

  /** What `lookup_mapping_with_insert` still does after a miss and its scan of the queue. */
  function AfterScan(s: Sys, k: Key, queued: bool): Sys
    requires Bounded(s.m)
  {
    if queued then s
    else if s.m.free == [] then s.(queue := Queue.Insert(s.queue, k, s.capacity))
    else s.(m := InsertDirty(s.m, k))
  }

  /** The state after steps of the worker that take the queue lock only, if it can do them in turn. */
  function AfterQueueSteps(s: Sys, steps: seq<Step>): Option<Sys>
    decreases |steps|
  {
    if steps == [] then Some(s)
    else if Sane(s) && (steps[0] == Peek || steps[0] == PopWork) && Enabled(s, steps[0])
    then AfterQueueSteps(Apply(s, steps[0]), steps[1..])
    else None
  }

  /** Such steps touch the queue and the worker only, and add nothing to the queue. */
  lemma {:induction false} QueueStepsOnlyPop(s: Sys, steps: seq<Step>, k: Key)
    requires AfterQueueSteps(s, steps).Some?
    ensures var t := AfterQueueSteps(s, steps).value;
            && t.m == s.m && t.capacity == s.capacity
            && (!Queue.Contains(s.queue, k) ==> !Queue.Contains(t.queue, k))
    decreases |steps|
  {
    if steps != [] {
      if steps[0] == PopWork && !Queue.Contains(s.queue, k) {
        Queue.PopKeepsNotContained(s.queue, k);
      }
      QueueStepsOnlyPop(Apply(s, steps[0]), steps[1..], k);
    }
  }

  /**
   * The worker pops and peeks under the queue lock alone, so it can get in between the scan
   * and the rest, any number of times. The outcome is still that of the section before or
   * after all these steps.
   */
  lemma QueueStepsInsideInsert(s: Sys, k: Key, steps: seq<Step>)
    requires ProtocolInv(s) && Find(s.m, k).None? && AfterQueueSteps(s, steps).Some?
    ensures var u := AfterQueueSteps(s, steps).value;
            && Bounded(u.m)
            && var t := AfterScan(u, k, Queue.Contains(s.queue, k));
               t == ApplyLookupInsert(u, k) || AfterQueueSteps(ApplyLookupInsert(s, k), steps) == Some(t)
  {
    QueueStepsOnlyPop(s, steps, k);
  }
}
