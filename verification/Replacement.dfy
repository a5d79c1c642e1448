/**
 * Replacement order over every run: the demotion victim is the least recently used clean
 * entry, the write-back victim the oldest dirty one. Time is a ghost clock, and the stamp
 * of an entry is set by events, not read off the lists.
 */
module Replacement {
  import opened CacheTypes
  import opened MappingState
  import opened MappingTable
  import opened MappingInvariant
  import opened Protocol
  import opened Sequences

  datatype Timed = Timed(sys: Sys, stamp: seq<nat>, now: nat)

  /**
   * The entry a step uses: a clean lookup hit, an insertion, a dirtying outside a
   * migration, or the entry whose migration ends on a list.
   */
  function Used(s: Sys, st: Step): Option<nat>
    requires Sane(s) && Enabled(s, st)
  {
    match st
    case Lookup(k) => UsedByLookup(s, k)
    case LookupInsert(k) =>
      if Find(s.m, k).Some? then UsedByLookup(s, k) else LookupInsertResult(s, k)
    case SetDirty(c) => if s.m.cells[c].alloc && !s.m.cells[c].pending then Some(c) else None
    case PromotionDone(ok) => if ok then Some(s.w.cblock) else None
    case DemotionDone(ok) => if ok then None else Some(s.w.cblock)
    case WritebackDone(_) => Some(s.w.cblock)
    case _ => None
  }

  function UsedByLookup(s: Sys, k: Key): Option<nat>
    requires Sane(s)
  {
    match Find(s.m, k)
    case Some(e) => if Listed(s.m.cells[e], false) then Some(e) else None
    case None => None
  }

  predicate TimedSane(t: Timed) {
    Sane(t.sys) && |t.stamp| == |t.sys.m.cells|
  }

  function ApplyTimed(t: Timed, st: Step): Timed
    requires TimedSane(t) && Enabled(t.sys, st)
  {
    var u := Used(t.sys, st);
    Timed(Apply(t.sys, st),
          if u.Some? && u.value < |t.stamp| then t.stamp[u.value := t.now] else t.stamp,
          t.now + 1)
  }

  predicate OldestFirst(l: seq<nat>, stamp: seq<nat>) {
    InRange(l, |stamp|) && forall a, b :: 0 <= a < b < |l| ==> stamp[l[a]] < stamp[l[b]]
  }

  ghost predicate OrderInv(t: Timed) {
    && ProtocolInv(t.sys)
    && |t.stamp| == |t.sys.m.cells|
    && (forall i :: 0 <= i < |t.stamp| ==> t.stamp[i] < t.now)
    && OldestFirst(t.sys.m.clean, t.stamp)
    && OldestFirst(t.sys.m.dirty, t.stamp)
  }

  // ---------------------------------------------------------------- list facts

  lemma WithoutKeepsOrder(l: seq<nat>, stamp: seq<nat>, e: nat)
    requires OldestFirst(l, stamp)
    ensures OldestFirst(Without(l, e), stamp)
  {
    if e in l {
      var p := IndexOf(l, e);
      var c := Cut(l, p);
      assert forall j :: 0 <= j < |c| ==> c[j] == l[if j < p then j else j + 1];
    }
  }

  lemma AppendNewest(l: seq<nat>, stamp: seq<nat>, e: nat, now: nat)
    requires OldestFirst(l, stamp) && e < |stamp| && e !in l
    requires forall i :: 0 <= i < |stamp| ==> stamp[i] < now
    ensures OldestFirst(l + [e], stamp[e := now])
  {
    var s' := stamp[e := now];
    assert forall j :: 0 <= j < |l| ==> l[j] in l && s'[l[j]] == stamp[l[j]];
  }

  lemma StampOther(l: seq<nat>, stamp: seq<nat>, e: nat, now: nat)
    requires OldestFirst(l, stamp) && e < |stamp| && e !in l
    ensures OldestFirst(l, stamp[e := now])
  {
    var s' := stamp[e := now];
    assert forall j :: 0 <= j < |l| ==> l[j] in l && s'[l[j]] == stamp[l[j]];
  }

  lemma RequeueNewest(l: seq<nat>, stamp: seq<nat>, e: nat, now: nat)
    requires OldestFirst(l, stamp) && NoDup(l) && e < |stamp|
    requires forall i :: 0 <= i < |stamp| ==> stamp[i] < now
    ensures OldestFirst(Without(l, e) + [e], stamp[e := now])
  {
    WithoutRemovesExactly(l, e);
    WithoutKeepsOrder(l, stamp, e);
    AppendNewest(Without(l, e), stamp, e, now);
  }

  // ---------------------------------------------------------------- steps

  lemma LookupKeepsOrder(t: Timed, k: Key)
    requires OrderInv(t) && Find(t.sys.m, k).Some?
    ensures var m := MappingState.Lookup(t.sys.m, k);
            var u := UsedByLookup(t.sys, k);
            var stamp := if u.Some? then t.stamp[u.value := t.now] else t.stamp;
            OldestFirst(m.clean, stamp) && OldestFirst(m.dirty, stamp)
  {
    var e := Find(t.sys.m, k).value;
    FindIsExact(t.sys.m, k);
    if Listed(t.sys.m.cells[e], false) {
      RequeueNewest(t.sys.m.clean, t.stamp, e, t.now);
      StampOther(t.sys.m.dirty, t.stamp, e, t.now);
    }
  }

  lemma InsertKeepsOrder(t: Timed, k: Key)
    requires OrderInv(t) && t.sys.m.free != [] && Find(t.sys.m, k).None?
    ensures t.sys.m.free[0] < |t.stamp|
    ensures var m := InsertDirty(t.sys.m, k);
            var stamp := t.stamp[t.sys.m.free[0] := t.now];
            OldestFirst(m.clean, stamp) && OldestFirst(m.dirty, stamp)
  {
    FindIsExact(t.sys.m, k);
    InsertDirtyKeepsInv(t.sys.m, k);
    AppendNewest(t.sys.m.dirty, t.stamp, t.sys.m.free[0], t.now);
    StampOther(t.sys.m.clean, t.stamp, t.sys.m.free[0], t.now);
  }

  lemma RemoveKeepsOrder(t: Timed, k: Key)
    requires OrderInv(t)
    requires Find(t.sys.m, k).Some? ==> !t.sys.m.cells[Find(t.sys.m, k).value].pending
    ensures var m := MappingState.Remove(t.sys.m, k);
            OldestFirst(m.clean, t.stamp) && OldestFirst(m.dirty, t.stamp)
  {
    if Find(t.sys.m, k).Some? {
      var e := Find(t.sys.m, k).value;
      RemoveHitKeepsInv(t.sys.m, k);
      WithoutKeepsOrder(t.sys.m.clean, t.stamp, e);
      WithoutKeepsOrder(t.sys.m.dirty, t.stamp, e);
    }
  }

  lemma SetDirtyKeepsOrder(t: Timed, c: nat)
    requires OrderInv(t) && c < |t.stamp|
    ensures var m := SetDirtyAfterWrite(t.sys.m, c);
            var stamp := if t.sys.m.cells[c].alloc && !t.sys.m.cells[c].pending then t.stamp[c := t.now] else t.stamp;
            OldestFirst(m.clean, stamp) && OldestFirst(m.dirty, stamp)
  {
    if t.sys.m.cells[c].alloc && !t.sys.m.cells[c].pending {
      if t.sys.m.cells[c].dirty {
        RequeueNewest(t.sys.m.dirty, t.stamp, c, t.now);
        StampOther(t.sys.m.clean, t.stamp, c, t.now);
      } else {
        WithoutKeepsOrder(t.sys.m.clean, t.stamp, c);
        WithoutRemovesExactly(t.sys.m.clean, c);
        StampOther(Without(t.sys.m.clean, c), t.stamp, c, t.now);
        AppendNewest(t.sys.m.dirty, t.stamp, c, t.now);
      }
    }
  }

  /** The entry in flight is on no list, so putting it on a tail is an append. */
  lemma RejoinKeepsOrder(t: Timed)
    requires OrderInv(t) && t.sys.w.Busy()
    ensures OldestFirst(t.sys.m.clean + [t.sys.w.cblock], t.stamp[t.sys.w.cblock := t.now])
    ensures OldestFirst(t.sys.m.dirty + [t.sys.w.cblock], t.stamp[t.sys.w.cblock := t.now])
    ensures OldestFirst(t.sys.m.clean, t.stamp[t.sys.w.cblock := t.now])
    ensures OldestFirst(t.sys.m.dirty, t.stamp[t.sys.w.cblock := t.now])
  {
    AppendNewest(t.sys.m.clean, t.stamp, t.sys.w.cblock, t.now);
    AppendNewest(t.sys.m.dirty, t.stamp, t.sys.w.cblock, t.now);
    StampOther(t.sys.m.clean, t.stamp, t.sys.w.cblock, t.now);
    StampOther(t.sys.m.dirty, t.stamp, t.sys.w.cblock, t.now);
  }

  lemma CompletionKeepsOrder(t: Timed, st: Step)
    requires OrderInv(t) && TimedSane(t) && Enabled(t.sys, st)
    requires st.PromotionDone? || st.DemotionDone? || st == WritebackDone(true)
    ensures var t' := ApplyTimed(t, st);
            OldestFirst(t'.sys.m.clean, t'.stamp) && OldestFirst(t'.sys.m.dirty, t'.stamp)
  {
    RejoinKeepsOrder(t);
    var t' := ApplyTimed(t, st);
    var c := t.sys.w.cblock;
    assert t'.sys.m.clean == t.sys.m.clean || t'.sys.m.clean == t.sys.m.clean + [c];
    assert t'.sys.m.dirty == t.sys.m.dirty || t'.sys.m.dirty == t.sys.m.dirty + [c];
  }

  lemma DemotionBeginKeepsOrder(t: Timed)
    requires OrderInv(t) && CanDemote(t.sys.m)
    ensures OldestFirst(DemotionBegin(t.sys.m).clean, t.stamp)
    ensures OldestFirst(DemotionBegin(t.sys.m).dirty, t.stamp)
  {
    WithoutKeepsOrder(t.sys.m.clean, t.stamp, t.sys.m.clean[0]);
  }

  lemma WritebackBeginKeepsOrder(t: Timed)
    requires OrderInv(t) && CanWriteback(t.sys.m)
    ensures OldestFirst(WritebackBegin(t.sys.m).clean, t.stamp)
    ensures OldestFirst(WritebackBegin(t.sys.m).dirty, t.stamp)
  {
    WithoutKeepsOrder(t.sys.m.dirty, t.stamp, t.sys.m.dirty[0]);
  }

  lemma StepKeepsOrder(t: Timed, st: Step)
    requires OrderInv(t) && TimedSane(t) && Enabled(t.sys, st) && st != WritebackDone(false)
    ensures var t' := ApplyTimed(t, st);
            OldestFirst(t'.sys.m.clean, t'.stamp) && OldestFirst(t'.sys.m.dirty, t'.stamp)
  {
    match st
    case Lookup(_) => LookupStepKeepsOrder(t, st);
    case LookupInsert(_) => LookupStepKeepsOrder(t, st);
    case Remove(k) => RemoveKeepsOrder(t, k);
    case SetDirty(c) => SetDirtyKeepsOrder(t, c);
    case PromotionDone(_) => CompletionKeepsOrder(t, st);
    case DemotionDone(_) => CompletionKeepsOrder(t, st);
    case WritebackDone(_) => CompletionKeepsOrder(t, st);
    case TryDemotion => if CanDemote(t.sys.m) { DemotionBeginKeepsOrder(t); }
    case TryWriteback => if CanWriteback(t.sys.m) { WritebackBeginKeepsOrder(t); }
    case TryPromotion =>
    case Peek =>
    case PopWork =>
  }

  lemma LookupStepKeepsOrder(t: Timed, st: Step)
    requires OrderInv(t) && TimedSane(t) && (st.Lookup? || st.LookupInsert?)
    ensures var t' := ApplyTimed(t, st);
            OldestFirst(t'.sys.m.clean, t'.stamp) && OldestFirst(t'.sys.m.dirty, t'.stamp)
  {
    if Find(t.sys.m, st.k).Some? {
      LookupKeepsOrder(t, st.k);
    } else if st.LookupInsert? && LookupInsertResult(t.sys, st.k).Some? {
      InsertKeepsOrder(t, st.k);
    }
  }

  lemma TimedStep(t: Timed, st: Step)
    requires OrderInv(t) && TimedSane(t) && Enabled(t.sys, st) && st != WritebackDone(false)
    ensures OrderInv(ApplyTimed(t, st)) && TimedSane(ApplyTimed(t, st))
  {
    StepKeepsInv(t.sys, st);
    CellCountIsConstant(t.sys, st);
    StepKeepsOrder(t, st);
  }

  lemma CellCountIsConstant(s: Sys, st: Step)
    requires ProtocolInv(s) && Sane(s) && Enabled(s, st)
    ensures |Apply(s, st).m.cells| == |s.m.cells|
  {
    if st.Remove? && Find(s.m, st.k).Some? {
      RemoveHitKeepsInv(s.m, st.k);
    }
  }

  // ---------------------------------------------------------------- runs

  /** Timed runs in which every write-back reaches the origin. */
  function ExecTimed(t: Timed, steps: seq<Step>): Option<Timed> {
    if steps == [] then Some(t)
    else
      var n := |steps| - 1;
      match ExecTimed(t, steps[..n])
      case None => None
      case Some(u) =>
        if TimedSane(u) && Enabled(u.sys, steps[n]) && steps[n] != WritebackDone(false)
        then Some(ApplyTimed(u, steps[n])) else None
  }

  function InitTimed(n: nat, buckets: nat, capacity: nat): Timed {
    Timed(Init(n, buckets, capacity), seq(n, _ => 0), 1)
  }

  lemma {:induction false} TimedRunKeepsOrder(t: Timed, steps: seq<Step>)
    requires OrderInv(t)
    ensures ExecTimed(t, steps).Some? ==> OrderInv(ExecTimed(t, steps).value)
  {
    if steps != [] {
      var n := |steps| - 1;
      TimedRunKeepsOrder(t, steps[..n]);
      if ExecTimed(t, steps).Some? {
        TimedStep(ExecTimed(t, steps[..n]).value, steps[n]);
      }
    }
  }

  /**
   * In every run without a failed write-back, the next demotion victim was used before
   * every other clean entry and the next write-back victim before every other dirty one.
   */
  lemma VictimsAreOldest(n: nat, buckets: nat, capacity: nat, steps: seq<Step>, i: nat)
    requires 2 <= buckets && 1 <= capacity
    requires ExecTimed(InitTimed(n, buckets, capacity), steps).Some?
    ensures var t := ExecTimed(InitTimed(n, buckets, capacity), steps).value;
            && OrderInv(t)
            && (i in t.sys.m.clean && i != t.sys.m.clean[0] ==> t.stamp[t.sys.m.clean[0]] < t.stamp[i])
            && (i in t.sys.m.dirty && i != t.sys.m.dirty[0] ==> t.stamp[t.sys.m.dirty[0]] < t.stamp[i])
  {
    InitProtocolInv(n, buckets, capacity);
    TimedRunKeepsOrder(InitTimed(n, buckets, capacity), steps);
    var t := ExecTimed(InitTimed(n, buckets, capacity), steps).value;
    if i in t.sys.m.clean {
      assert t.sys.m.clean[IndexOf(t.sys.m.clean, i)] == i;
    }
    if i in t.sys.m.dirty {
      assert t.sys.m.dirty[IndexOf(t.sys.m.dirty, i)] == i;
    }
  }

  /**
   * A failed write-back puts its entry, the most recently stamped one, at the head: the
   * order survives exactly when the list it joins was empty.
   */
  lemma FailedWritebackKeepsOrderIff(t: Timed)
    requires OrderInv(t) && TimedSane(t) && t.sys.w.WritingBack?
    ensures var t' := ApplyTimed(t, WritebackDone(false));
            var joined := if t.sys.m.cells[t.sys.w.cblock].dirty then t.sys.m.dirty else t.sys.m.clean;
            OrderInv(t') <==> joined == []
  {
    var c := t.sys.w.cblock;
    StepKeepsInv(t.sys, WritebackDone(false));
    RejoinKeepsOrder(t);
    FailedWritebackForm(t);
    NewestInFront(if t.sys.m.cells[c].dirty then t.sys.m.dirty else t.sys.m.clean, t.stamp, c, t.now);
  }

  /** A newest element in front of others breaks the order. */
  lemma NewestInFront(l: seq<nat>, stamp: seq<nat>, c: nat, now: nat)
    requires c < |stamp| && c !in l && InRange(l, |stamp|)
    requires forall i :: 0 <= i < |stamp| ==> stamp[i] < now
    ensures OldestFirst([c] + l, stamp[c := now]) <==> l == []
  {
    if l != [] {
      var after, stamp' := [c] + l, stamp[c := now];
      assert l[0] in l && after[1] == l[0];
      assert stamp'[after[0]] > stamp'[after[1]];
    }
  }

  lemma FailedWritebackForm(t: Timed)
    requires OrderInv(t) && TimedSane(t) && t.sys.w.WritingBack?
    ensures var t' := ApplyTimed(t, WritebackDone(false));
            var c, m := t.sys.w.cblock, t.sys.m;
            && t'.stamp == t.stamp[c := t.now] && t'.now == t.now + 1
            && t'.sys.m.dirty == (if m.cells[c].dirty then [c] + m.dirty else m.dirty)
            && t'.sys.m.clean == (if m.cells[c].dirty then m.clean else [c] + m.clean)
            && |t'.sys.m.cells| == |m.cells|
  {
  }
}
