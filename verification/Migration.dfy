/**
 * One call of `do_migration_work` without user steps in between, and how many such calls
 * a full cache needs before an entry is free.
 */
module Migration {
  import opened CacheTypes
  import opened MappingState
  import opened MappingTable
  import opened MappingInvariant
  import opened Protocol

  ghost predicate NothingInFlight(s: State) {
    forall i :: 0 <= i < |s.cells| ==> !s.cells[i].pending
  }

  /** Promote if an entry is free, else demote, else write back; `ok` is the outcome of the I/O. */
  function MigrationWork(s: State, k: Key, ok: bool): State
    requires Inv(s)
  {
    if s.free != [] then
      PromotionBeginKeepsInv(s, k);
      PromotionComplete(PromotionBegin(s, k), s.free[0], ok)
    else if CanDemote(s) then
      DemotionBeginKeepsInv(s);
      DemotionComplete(DemotionBegin(s), s.clean[0], true)
    else if CanWriteback(s) then
      WritebackBeginKeepsInv(s);
      WritebackComplete(WritebackBegin(s), s.dirty[0], ok)
    else s
  }

  /** The critical sections of one call, in program order. */
  function CallSteps(s: State, ok: bool): seq<Step>
    requires Bounded(s)
  {
    if s.free != [] then [Peek, TryPromotion, PromotionDone(ok), PopWork]
    else if CanDemote(s) then [Peek, TryPromotion, TryDemotion, DemotionDone(true), PopWork]
    else if CanWriteback(s) then
      [Peek, TryPromotion, TryDemotion, TryWriteback, WritebackDone(ok), PopWork]
    else [Peek, TryPromotion, TryDemotion, TryWriteback, PopWork]
  }

  /** Extending a run by one enabled step. */
  lemma ExecOne(s: Sys, before: seq<Step>, st: Step, t: Sys)
    requires ProtocolInv(t) && Exec(s, before) == Some(t) && Sane(t) && Enabled(t, st)
    ensures Exec(s, before + [st]) == Some(Apply(t, st))
    ensures ProtocolInv(Apply(t, st)) && Sane(Apply(t, st))
  {
    assert (before + [st])[..|before|] == before;
    StepKeepsInv(t, st);
  }

  lemma PromotionKeepsInv(s: State, k: Key, ok: bool)
    requires Inv(s) && NothingInFlight(s) && s.free != [] && !KeyHashed(s, k)
    ensures Inv(MigrationWork(s, k, ok)) && NothingInFlight(MigrationWork(s, k, ok))
    ensures |MigrationWork(s, k, ok).cells| == |s.cells|
  {
    var t := PromotionBegin(s, k);
    PromotionBeginKeepsInv(s, k);
    UnhashedKeyStaysUnhashed(s, t, s.free[0], k);
    PromotionCompleteKeepsInv(t, s.free[0], ok);
  }

  lemma DemotionKeepsInv(s: State)
    requires Inv(s) && NothingInFlight(s) && CanDemote(s)
    ensures s.clean[0] < |s.cells|
    ensures var t := DemotionComplete(DemotionBegin(s), s.clean[0], true);
            Inv(t) && NothingInFlight(t) && |t.cells| == |s.cells|
  {
    DemotionBeginKeepsInv(s);
    DemotionCompleteKeepsInv(DemotionBegin(s), s.clean[0], true);
  }

  lemma WritebackKeepsInv(s: State, ok: bool)
    requires Inv(s) && NothingInFlight(s) && CanWriteback(s)
    ensures s.dirty[0] < |s.cells|
    ensures var t := WritebackComplete(WritebackBegin(s), s.dirty[0], ok);
            Inv(t) && NothingInFlight(t) && |t.cells| == |s.cells|
  {
    WritebackBeginKeepsInv(s);
    WritebackCompleteKeepsInv(WritebackBegin(s), s.dirty[0], ok);
  }

  lemma MigrationKeepsInv(s: State, k: Key, ok: bool)
    requires Inv(s) && NothingInFlight(s)
    requires !KeyHashed(s, k)
    ensures Inv(MigrationWork(s, k, ok)) && NothingInFlight(MigrationWork(s, k, ok))
    ensures |MigrationWork(s, k, ok).cells| == |s.cells|
  {
    if s.free != [] {
      PromotionKeepsInv(s, k, ok);
    } else if CanDemote(s) {
      DemotionKeepsInv(s);
    } else if CanWriteback(s) {
      WritebackKeepsInv(s, ok);
    }
  }

  lemma UnhashedKeyStaysUnhashed(s: State, t: State, e: nat, k: Key)
    requires Bounded(s) && Bounded(t) && |t.cells| == |s.cells| && e < |s.cells|
    requires !KeyHashed(s, k) && !Hashed(s, e)
    requires forall i :: 0 <= i < |s.cells| && i != e ==> t.cells[i] == s.cells[i]
    requires forall i :: 0 <= i < |s.cells| ==> (Hashed(t, i) <==> Hashed(s, i))
    ensures !KeyHashed(t, k)
  {
    forall i | 0 <= i < |t.cells| && Hashed(t, i)
      ensures t.cells[i].key != k
    {
      assert Hashed(s, i);
    }
  }

  /** The first two critical sections of a call. */
  lemma CallBegins(s: Sys) returns (t: Sys)
    requires ProtocolInv(s) && s.w.Idle? && s.queue != []
    ensures Exec(s, [Peek] + [TryPromotion]) == Some(t) && ProtocolInv(t)
    ensures t == if s.m.free == [] then s.(w := NoFree(s.queue[0]))
                 else s.(m := PromotionBegin(s.m, s.queue[0]), w := Promoting(s.queue[0], s.m.free[0]))
  {
    ExecOne(s, [], Peek, s);
    assert [] + [Peek] == [Peek];
    ExecOne(s, [Peek], TryPromotion, Apply(s, Peek));
    t := Apply(Apply(s, Peek), TryPromotion);
  }

  lemma CallPromotes(s: Sys, ok: bool)
    requires ProtocolInv(s) && s.w.Idle? && s.queue != [] && s.m.free != []
    ensures Exec(s, CallSteps(s.m, ok)) ==
            Some(s.(m := MigrationWork(s.m, s.queue[0], ok), queue := s.queue[1..]))
  {
    var t := CallBegins(s);
    var before := [Peek] + [TryPromotion];
    assert CallSteps(s.m, ok) == before + [PromotionDone(ok)] + [PopWork];
    CallEnds(s, before, PromotionDone(ok), t);
  }

  lemma CallTriesDemotion(s: Sys) returns (t: Sys)
    requires ProtocolInv(s) && s.w.Idle? && s.queue != [] && s.m.free == []
    ensures Exec(s, [Peek] + [TryPromotion] + [TryDemotion]) == Some(t) && ProtocolInv(t)
    ensures t == if !CanDemote(s.m) then s.(w := NoClean(s.queue[0]))
                 else s.(m := DemotionBegin(s.m), w := Demoting(s.queue[0], s.m.clean[0]))
  {
    var u := CallBegins(s);
    ExecOne(s, [Peek] + [TryPromotion], TryDemotion, u);
    t := Apply(u, TryDemotion);
  }

  /** The completing critical section and the removal of the work item end a call. */
  lemma CallEnds(s: Sys, before: seq<Step>, st: Step, t: Sys)
    requires Exec(s, before) == Some(t) && ProtocolInv(t) && Sane(t) && Enabled(t, st)
    requires Apply(t, st).w.Completed?
    ensures Apply(t, st).queue != []
    ensures Exec(s, before + [st] + [PopWork]) ==
            Some(Apply(t, st).(queue := Apply(t, st).queue[1..], w := Idle))
  {
    ExecOne(s, before, st, t);
    ExecOne(s, before + [st], PopWork, Apply(t, st));
  }

  lemma CallDemotes(s: Sys, ok: bool)
    requires ProtocolInv(s) && s.w.Idle? && s.queue != [] && s.m.free == [] && CanDemote(s.m)
    ensures Exec(s, CallSteps(s.m, ok)) ==
            Some(s.(m := MigrationWork(s.m, s.queue[0], ok), queue := s.queue[1..]))
  {
    var t := CallTriesDemotion(s);
    var before := [Peek] + [TryPromotion] + [TryDemotion];
    assert CallSteps(s.m, ok) == before + [DemotionDone(true)] + [PopWork];
    CallEnds(s, before, DemotionDone(true), t);
  }

  lemma CallWritesBack(s: Sys, ok: bool)
    requires ProtocolInv(s) && s.w.Idle? && s.queue != [] && s.m.free == [] && !CanDemote(s.m)
    ensures Exec(s, CallSteps(s.m, ok)) ==
            Some(s.(m := MigrationWork(s.m, s.queue[0], ok), queue := s.queue[1..]))
  {
    var t := CallTriesDemotion(s);
    var before := [Peek] + [TryPromotion] + [TryDemotion];
    if CanWriteback(s.m) {
      assert CallSteps(s.m, ok) == before + [TryWriteback] + [WritebackDone(ok)] + [PopWork];
      ExecOne(s, before, TryWriteback, t);
      CallEnds(s, before + [TryWriteback], WritebackDone(ok), Apply(t, TryWriteback));
    } else {
      assert CallSteps(s.m, ok) == before + [TryWriteback] + [PopWork];
      CallEnds(s, before, TryWriteback, t);
    }
  }

  /** The sequential call is the run of its critical sections with nobody in between. */
  lemma CallIsItsSteps(s: Sys, ok: bool)
    requires ProtocolInv(s) && s.w.Idle? && s.queue != []
    ensures Exec(s, CallSteps(s.m, ok)) ==
            Some(s.(m := MigrationWork(s.m, s.queue[0], ok), queue := s.queue[1..]))
  {
    if s.m.free != [] {
      CallPromotes(s, ok);
    } else if CanDemote(s.m) {
      CallDemotes(s, ok);
    } else {
      CallWritesBack(s, ok);
    }
  }

  // ---------------------------------------------------------------- what a call achieves

  /** With an entry free and working I/O a call caches the key it is for, clean and last to be demoted. */
  lemma CallCachesKey(s: State, k: Key)
    requires Inv(s) && NothingInFlight(s) && s.free != [] && !KeyHashed(s, k)
    ensures var c, t := s.free[0], MigrationWork(s, k, true);
            && Bounded(t) && Find(t, k) == Some(c) && t.cells == s.cells[c := Cell(false, false, true, k)]
            && t.free == s.free[1..] && t.clean == s.clean + [c] && t.dirty == s.dirty
  {
    var t := PromotionBegin(s, k);
    PromotionBeginKeepsInv(s, k);
    UnhashedKeyStaysUnhashed(s, t, s.free[0], k);
    PromotionCompleteKeepsInv(t, s.free[0], true);
    FindIsExact(MigrationWork(s, k, true), k);
  }

  /** If the I/O fails the entry is free again, as the youngest one, and the key is not cached. */
  lemma FailedCallCachesNothing(s: State, k: Key)
    requires Inv(s) && NothingInFlight(s) && s.free != [] && !KeyHashed(s, k)
    ensures var c, t := s.free[0], MigrationWork(s, k, false);
            && Bounded(t) && Find(t, k).None?
            && t.free == s.free[1..] + [c] && t.clean == s.clean && t.dirty == s.dirty
  {
    var t := PromotionBegin(s, k);
    PromotionBeginKeepsInv(s, k);
    UnhashedKeyStaysUnhashed(s, t, s.free[0], k);
    PromotionCompleteKeepsInv(t, s.free[0], false);
    FindIsExact(MigrationWork(s, k, false), k);
  }

  /** On a full cache that is more than half clean a call evicts the oldest clean entry, whatever it is for. */
  lemma CallEvictsOldest(s: State, k: Key, ok: bool)
    requires Inv(s) && NothingInFlight(s) && s.free == [] && CanDemote(s)
    ensures s.clean[0] < |s.cells|
    ensures var c, t := s.clean[0], MigrationWork(s, k, ok);
            && Bounded(t) && Find(t, s.cells[c].key).None?
            && t.free == [c] && t.clean == s.clean[1..] && t.dirty == s.dirty
            && t.cells == s.cells[c := s.cells[c].(alloc := false)]
  {
    var c := s.clean[0];
    DemotionBeginKeepsInv(s);
    var t := MigrationWork(s, k, ok);
    DemotionCompleteKeepsInv(DemotionBegin(s), c, true);
    OthersHaveOtherKeys(s, c);
    FindIsExact(t, s.cells[c].key);
  }

  /** Otherwise it cleans the oldest dirty entry; after a failure that one is the first to be demoted. */
  lemma CallCleansOldest(s: State, k: Key, ok: bool)
    requires Inv(s) && NothingInFlight(s) && s.free == [] && !CanDemote(s) && s.dirty != []
    ensures s.dirty[0] < |s.cells|
    ensures var c, t := s.dirty[0], MigrationWork(s, k, ok);
            && t.cells == s.cells[c := s.cells[c].(dirty := false)] && t.chains == s.chains
            && t.free == [] && t.dirty == s.dirty[1..]
            && t.clean == if ok then s.clean + [c] else [c] + s.clean
  {
    assert s.dirty[0] in s.dirty;
    WritebackBeginKeepsInv(s);
    WritebackCompleteKeepsInv(WritebackBegin(s), s.dirty[0], ok);
  }

  // ---------------------------------------------------------------- progress

  /** How many calls it takes until an entry is free. */
  function CallsToFree(s: State): int {
    if s.free != [] then 0
    else if CanDemote(s) then 1
    else |s.cells| / 2 + 2 - |s.clean|
  }

  /** With nothing in flight the three lists make up the cache. */
  lemma ListsAreAll(s: State)
    requires Inv(s) && NothingInFlight(s)
    ensures |s.free| + |s.clean| + |s.dirty| == |s.cells|
  {
    ConservedUnderInv(Sys(s, [], 1, Idle));
  }

  /** On a full cache a call demotes or writes back, and brings the next free entry one call closer. */
  lemma CallMakesProgress(s: State, k: Key, ok: bool)
    requires Inv(s) && NothingInFlight(s) && s.free == [] && s.cells != []
    ensures CanDemote(s) || CanWriteback(s)
    ensures CallsToFree(MigrationWork(s, k, ok)) == CallsToFree(s) - 1
    ensures 1 <= CallsToFree(s) <= |s.cells| / 2 + 2
  {
    ListsAreAll(s);
    if CanDemote(s) {
      DemotionBeginKeepsInv(s);
      DemotionCompleteKeepsInv(DemotionBegin(s), s.clean[0], true);
      assert MigrationWork(s, k, ok).free == [s.clean[0]];
    } else {
      assert s.dirty[0] in s.dirty;
      WritebackBeginKeepsInv(s);
      var t := MigrationWork(s, k, ok);
      assert |t.clean| == |s.clean| + 1 && t.free == [];
    }
  }

  lemma NextCall(s: State, k: Key, ok: bool)
    requires Inv(s) && NothingInFlight(s) && s.free == [] && s.cells != [] && !KeyHashed(s, k)
    ensures var t := MigrationWork(s, k, ok);
            && Inv(t) && NothingInFlight(t) && |t.cells| == |s.cells|
            && CallsToFree(t) == CallsToFree(s) - 1 && (t.free != [] <==> CallsToFree(t) == 0)
  {
    var t := MigrationWork(s, k, ok);
    MigrationKeepsInv(s, k, ok);
    CallMakesProgress(s, k, ok);
    if t.free == [] {
      CallMakesProgress(t, BLANK_KEY, true);
    }
  }

  /** Successive calls for the queued keys `ks` with the I/O outcomes `oks`. */
  ghost predicate Calls(states: seq<State>, ks: seq<Key>, oks: seq<bool>) {
    && |states| == |ks| + 1 && |oks| == |ks|
    && forall j :: 0 <= j < |ks| ==>
         Inv(states[j]) && !KeyHashed(states[j], ks[j]) && states[j + 1] == MigrationWork(states[j], ks[j], oks[j])
  }

  /**
   * The worker never gets stuck on a full cache: whatever is queued and whether or not the
   * I/O succeeds, the j-th state has a free entry exactly from `CallsToFree` calls on.
   */
  lemma {:induction false} WorkerFreesAnEntry(states: seq<State>, ks: seq<Key>, oks: seq<bool>, j: nat)
    requires Calls(states, ks, oks) && j < |states|
    requires Inv(states[0]) && NothingInFlight(states[0]) && states[0].cells != []
    requires j <= CallsToFree(states[0])
    ensures Inv(states[j]) && NothingInFlight(states[j]) && |states[j].cells| == |states[0].cells|
    ensures CallsToFree(states[j]) == CallsToFree(states[0]) - j
    ensures states[j].free != [] <==> j == CallsToFree(states[0])
    ensures CallsToFree(states[0]) <= |states[0].cells| / 2 + 2
  {
    if j == 0 {
      if states[0].free == [] {
        CallMakesProgress(states[0], BLANK_KEY, true);
      }
    } else {
      WorkerFreesAnEntry(states, ks, oks, j - 1);
      NextCall(states[j - 1], ks[j - 1], oks[j - 1]);
    }
  }
}
