/** Every critical section keeps the structural invariant, and what it does to the table. */
module MappingInvariant {
  import opened CacheTypes
  import opened MappingState
  import opened MappingTable
  import opened Sequences

  /** Move-to-front keeps the lists and what is hashed. */
  lemma HLookupKeepsInv(s: State, k: Key)
    requires Inv(s)
    ensures Inv(HLookup(s, k))
    ensures forall i :: 0 <= i < |s.cells| ==> (Hashed(HLookup(s, k), i) <==> Hashed(s, i))
    ensures HLookup(s, k) == s.(chains := HLookup(s, k).chains)
    ensures |HLookup(s, k).chains| == |s.chains|
  {
    HLookupKeepsTable(s, k);
  }

  lemma RequeueCleanKeepsInv(s: State, e: nat)
    requires Inv(s) && e < |s.cells| && Listed(s.cells[e], false)
    ensures Inv(AddTail(Delete(s, false, e), false, e))
    ensures forall i :: 0 <= i < |s.cells| ==>
              (Hashed(AddTail(Delete(s, false, e), false, e), i) <==> Hashed(s, i))
  {
    WithoutRemovesExactly(s.clean, e);
    AppendKeepsDistinct(Without(s.clean, e), e);
  }

  lemma LookupKeepsInv(s: State, k: Key)
    requires Inv(s)
    ensures Inv(Lookup(s, k))
    ensures Lookup(s, k).cells == s.cells && |Lookup(s, k).chains| == |s.chains|
    ensures Lookup(s, k).free == s.free && Lookup(s, k).dirty == s.dirty
    ensures forall i :: 0 <= i < |s.cells| ==> (Hashed(Lookup(s, k), i) <==> Hashed(s, i))
  {
    HLookupKeepsInv(s, k);
    FindIsExact(s, k);
    match Find(s, k)
    case None =>
    case Some(e) =>
      if !s.cells[e].pending && !s.cells[e].dirty {
        RequeueCleanKeepsInv(HLookup(s, k), e);
      }
  }

  /** A free entry is in no chain, so its cell may be rewritten at will. */
  lemma FreeIsUnhashed(s: State, e: nat)
    requires Inv(s) && e < |s.cells| && !s.cells[e].alloc
    ensures !Hashed(s, e)
    ensures forall b :: 0 <= b < |s.chains| ==> e !in s.chains[b]
  {
    forall b | 0 <= b < |s.chains| && e in s.chains[b]
      ensures false
    {
      InChainIsHashed(s, b, e);
    }
  }

  /** Taking the head of the free list: exactly that entry leaves the list. */
  lemma PopFree(s: State)
    requires Inv(s) && s.free != []
    ensures s.free[0] < |s.cells| && !s.cells[s.free[0]].alloc
    ensures NoDup(s.free[1..]) && InRange(s.free[1..], |s.cells|)
    ensures forall i :: 0 <= i < |s.cells| ==> (i in s.free[1..] <==> i in s.free && i != s.free[0])
  {
    assert s.free[0] in s.free;
    assert forall i :: 0 <= i < |s.cells| && i in s.free ==> i == s.free[0] || i in s.free[1..];
  }

  lemma AllocAsCell(s: State, c: Cell)
    requires Inv(s) && s.free != [] && c.alloc
    ensures SetCell(AllocEntry(s), s.free[0], c) ==
            s.(cells := s.cells[s.free[0] := c], free := s.free[1..], nrAllocated := s.nrAllocated + 1)
  {
  }

  lemma PromotionBeginKeepsInv(s: State, k: Key)
    requires Inv(s) && s.free != []
    ensures Inv(PromotionBegin(s, k))
    ensures !Hashed(s, s.free[0]) && !s.cells[s.free[0]].alloc
    ensures PromotionBegin(s, k).cells == s.cells[s.free[0] := Cell(true, false, true, k)]
    ensures PromotionBegin(s, k).chains == s.chains
    ensures forall i :: 0 <= i < |s.cells| ==>
              (Hashed(PromotionBegin(s, k), i) <==> Hashed(s, i))
  {
    var e := s.free[0];
    var t := PromotionBegin(s, k);
    PopFree(s);
    FreeIsUnhashed(s, e);
    AllocAsCell(s, Cell(true, false, true, k));
    SetCellKeepsTable(s, e, Cell(true, false, true, k));
    assert t.chains == s.chains && t.cells == SetCell(s, e, Cell(true, false, true, k)).cells;
  }

  lemma InsertDirtyLists(s: State, k: Key)
    requires Inv(s) && s.free != []
    ensures ListsOk(s.cells[s.free[0] := Cell(false, true, true, k)],
                    s.free[1..], s.clean, s.dirty + [s.free[0]], s.nrAllocated + 1)
  {
    PopFree(s);
    AppendKeepsDistinct(s.dirty, s.free[0]);
  }

  lemma InsertDirtyTable(s: State, k: Key)
    requires Inv(s) && s.free != [] && !KeyHashed(s, k)
    ensures s.free[0] < |s.cells| && !Hashed(s, s.free[0])
    ensures ChainsInv(InsertDirty(s, k))
    ensures InsertDirty(s, k).cells == s.cells[s.free[0] := Cell(false, true, true, k)]
    ensures |InsertDirty(s, k).chains| == |s.chains|
    ensures forall i :: 0 <= i < |s.cells| ==>
              (Hashed(InsertDirty(s, k), i) <==> Hashed(s, i) || i == s.free[0])
  {
    var e := s.free[0];
    var c := Cell(false, true, true, k);
    assert e in s.free;
    FreeIsUnhashed(s, e);
    SetCellKeepsTable(s, e, c);
    var t := SetCell(s, e, c);
    HInsertAddsOne(t, e);
    assert InsertDirty(s, k).chains == HInsert(t, e).chains;
  }

  lemma InsertDirtyKeepsInv(s: State, k: Key)
    requires Inv(s) && s.free != [] && !KeyHashed(s, k)
    ensures Inv(InsertDirty(s, k))
    ensures !Hashed(s, s.free[0]) && !s.cells[s.free[0]].alloc
    ensures InsertDirty(s, k).cells == s.cells[s.free[0] := Cell(false, true, true, k)]
    ensures |InsertDirty(s, k).chains| == |s.chains|
    ensures InsertDirty(s, k).clean == s.clean
    ensures InsertDirty(s, k).dirty == s.dirty + [s.free[0]]
    ensures forall i :: 0 <= i < |s.cells| ==>
              (Hashed(InsertDirty(s, k), i) <==> Hashed(s, i) || i == s.free[0])
  {
    assert s.free[0] in s.free;
    InsertDirtyLists(s, k);
    InsertDirtyTable(s, k);
  }

  lemma SetDirtyLists(s: State, c: nat)
    requires Inv(s) && c < |s.cells| && s.cells[c].alloc
    ensures ListsInv(SetDirtyAfterWrite(s, c))
  {
    WithoutRemovesExactly(s.clean, c);
    WithoutRemovesExactly(s.dirty, c);
    AppendKeepsDistinct(Without(s.dirty, c), c);
  }

  lemma SetDirtyKeepsInv(s: State, c: nat)
    requires Inv(s) && c < |s.cells|
    ensures Inv(SetDirtyAfterWrite(s, c))
    ensures SetDirtyAfterWrite(s, c).chains == s.chains
    ensures SetDirtyAfterWrite(s, c).free == s.free
    ensures SetDirtyAfterWrite(s, c).cells ==
            if s.cells[c].alloc then s.cells[c := s.cells[c].(dirty := true)] else s.cells
    ensures forall i :: 0 <= i < |s.cells| ==>
              (Hashed(SetDirtyAfterWrite(s, c), i) <==> Hashed(s, i))
  {
    if s.cells[c].alloc {
      SetDirtyLists(s, c);
      FlagsKeepChains(s, c, s.cells[c].(dirty := true));
    }
  }

  /** Setting or clearing `pending` and `dirty` never matters to the table. */
  lemma FlagsKeepChains(s: State, e: nat, c: Cell)
    requires ChainsInv(s) && e < |s.cells|
    requires c.alloc == s.cells[e].alloc && c.key == s.cells[e].key
    ensures ChainsInv(SetCell(s, e, c))
    ensures forall i :: 0 <= i < |s.cells| ==> (Hashed(SetCell(s, e, c), i) <==> Hashed(s, i))
  {
    if Hashed(s, e) {
      InChainIsHashed(s, HomeBucket(s, e), e);
    } else {
      UnhashedIsInNoChain(s, e);
    }
    SetCellKeepsTable(s, e, c);
  }

  /** The lists part of putting an in-flight entry back on the tail or the head of a list. */
  lemma RelistInFlight(s: State, c: nat, head: bool)
    requires Inv(s) && c < |s.cells| && s.cells[c].pending
    ensures var s1 := SetCell(s, c, s.cells[c].(pending := false));
            ListsInv(if head then AddHead(s1, s1.cells[c].dirty, c) else AddTail(s1, s1.cells[c].dirty, c))
  {
    AppendKeepsDistinct(s.clean, c);
    AppendKeepsDistinct(s.dirty, c);
  }

  lemma FreeInFlight(s: State, c: nat)
    requires Inv(s) && c < |s.cells| && s.cells[c].pending
    ensures ListsInv(FreeEntry(SetCell(s, c, s.cells[c].(pending := false)), c))
  {
    AppendKeepsDistinct(s.free, c);
  }

  lemma PromotionCompleteKeepsInv(s: State, c: nat, ok: bool)
    requires Inv(s) && c < |s.cells| && s.cells[c].pending && !Hashed(s, c)
    requires ok ==> !KeyHashed(s, s.cells[c].key)
    ensures Inv(PromotionComplete(s, c, ok))
    ensures PromotionComplete(s, c, ok).cells == s.cells[c := s.cells[c].(pending := false, alloc := ok)]
    ensures |PromotionComplete(s, c, ok).chains| == |s.chains|
    ensures forall i :: 0 <= i < |s.cells| ==>
              (Hashed(PromotionComplete(s, c, ok), i) <==> Hashed(s, i) || (ok && i == c))
  {
    var s1 := SetCell(s, c, s.cells[c].(pending := false));
    FlagsKeepChains(s, c, s1.cells[c]);
    if ok {
      RelistInFlight(s, c, false);
      HInsertAddsOne(s1, c);
    } else {
      FreeInFlight(s, c);
      UnhashedIsInNoChain(s1, c);
      SetCellKeepsTable(s1, c, s1.cells[c].(alloc := false));
    }
  }

  /** Completing a demotion removes exactly the victim's key from the map. */
  lemma DemotionUpdatesMap(s: State, c: nat)
    requires Inv(s) && c < |s.cells| && s.cells[c].pending && Hashed(s, c)
    ensures ChainsInv(DemotionComplete(s, c, true))
    ensures TableMap(DemotionComplete(s, c, true)) == TableMap(s) - {s.cells[c].key}
  {
    DemotionCompleteKeepsInv(s, c, true);
    UnhashingUpdatesMap(s, DemotionComplete(s, c, true), c);
  }

  /** The head of a list leaves it when the entry is marked in flight. */
  lemma UnlistHead(s: State, d: bool, c: Cell)
    requires Inv(s) && (if d then s.dirty else s.clean) != []
    requires var e := (if d then s.dirty else s.clean)[0];
             c == s.cells[e].(pending := true, dirty := false)
    ensures var e := (if d then s.dirty else s.clean)[0];
            && Listed(s.cells[e], d)
            && ListsInv(SetCell(Delete(s, d, e), e, c))
            && Delete(s, d, e) == if d then s.(dirty := s.dirty[1..]) else s.(clean := s.clean[1..])
  {
    var l := if d then s.dirty else s.clean;
    assert l[0] in l;
    WithoutRemovesExactly(l, l[0]);
    IndexOfIsUnique(l, 0);
  }

  lemma DemotionBeginKeepsInv(s: State)
    requires Inv(s) && CanDemote(s)
    ensures Inv(DemotionBegin(s))
    ensures s.clean[0] < |s.cells| && Hashed(s, s.clean[0]) && Listed(s.cells[s.clean[0]], false)
    ensures DemotionBegin(s) ==
            s.(clean := s.clean[1..],
               cells := s.cells[s.clean[0] := s.cells[s.clean[0]].(pending := true)])
    ensures forall i :: 0 <= i < |s.cells| ==> (Hashed(DemotionBegin(s), i) <==> Hashed(s, i))
  {
    var e := s.clean[0];
    assert e in s.clean;
    UnlistHead(s, false, s.cells[e].(pending := true));
    FlagsKeepChains(s, e, s.cells[e].(pending := true));
  }

  lemma DemotionSucceeds(s: State, c: nat)
    requires Inv(s) && c < |s.cells| && s.cells[c].pending && Hashed(s, c)
    ensures Inv(DemotionComplete(s, c, true))
    ensures DemotionComplete(s, c, true).cells == s.cells[c := s.cells[c].(pending := false, alloc := false)]
    ensures |DemotionComplete(s, c, true).chains| == |s.chains|
    ensures forall i :: 0 <= i < |s.cells| ==>
              (Hashed(DemotionComplete(s, c, true), i) <==> Hashed(s, i) && i != c)
  {
    var s1 := SetCell(s, c, s.cells[c].(pending := false));
    FlagsKeepChains(s, c, s1.cells[c]);
    FreeInFlight(s, c);
    UnhashAndFree(s1, c);
    SameChains(SetCell(HRemove(s1, c), c, s1.cells[c].(alloc := false)), DemotionComplete(s, c, true));
  }

  lemma DemotionCompleteKeepsInv(s: State, c: nat, ok: bool)
    requires Inv(s) && c < |s.cells| && s.cells[c].pending && Hashed(s, c)
    ensures Inv(DemotionComplete(s, c, ok))
    ensures DemotionComplete(s, c, ok).cells == s.cells[c := s.cells[c].(pending := false, alloc := !ok)]
    ensures |DemotionComplete(s, c, ok).chains| == |s.chains|
    ensures forall i :: 0 <= i < |s.cells| ==>
              (Hashed(DemotionComplete(s, c, ok), i) <==> Hashed(s, i) && !(ok && i == c))
  {
    if ok {
      DemotionSucceeds(s, c);
    } else {
      FlagsKeepChains(s, c, s.cells[c].(pending := false));
      RelistInFlight(s, c, false);
    }
  }

  lemma WritebackBeginKeepsInv(s: State)
    requires Inv(s) && CanWriteback(s)
    ensures Inv(WritebackBegin(s))
    ensures s.dirty[0] < |s.cells| && Hashed(s, s.dirty[0]) && Listed(s.cells[s.dirty[0]], true)
    ensures WritebackBegin(s) ==
            s.(dirty := s.dirty[1..],
               cells := s.cells[s.dirty[0] := s.cells[s.dirty[0]].(pending := true, dirty := false)])
    ensures forall i :: 0 <= i < |s.cells| ==> (Hashed(WritebackBegin(s), i) <==> Hashed(s, i))
  {
    var e := s.dirty[0];
    assert e in s.dirty;
    UnlistHead(s, true, s.cells[e].(pending := true, dirty := false));
    FlagsKeepChains(s, e, s.cells[e].(pending := true, dirty := false));
  }

  lemma WritebackCompleteKeepsInv(s: State, c: nat, ok: bool)
    requires Inv(s) && c < |s.cells| && s.cells[c].pending && Hashed(s, c)
    ensures Inv(WritebackComplete(s, c, ok))
    ensures WritebackComplete(s, c, ok).cells == s.cells[c := s.cells[c].(pending := false)]
    ensures WritebackComplete(s, c, ok).chains == s.chains && WritebackComplete(s, c, ok).free == s.free
    ensures var joined := if s.cells[c].dirty then s.dirty else s.clean;
            var relisted := if ok then joined + [c] else [c] + joined;
            && WritebackComplete(s, c, ok).dirty == (if s.cells[c].dirty then relisted else s.dirty)
            && WritebackComplete(s, c, ok).clean == (if s.cells[c].dirty then s.clean else relisted)
    ensures forall i :: 0 <= i < |s.cells| ==> (Hashed(WritebackComplete(s, c, ok), i) <==> Hashed(s, i))
  {
    RelistInFlight(s, c, !ok);
    FlagsKeepChains(s, c, s.cells[c].(pending := false));
  }

  lemma RemoveHitLists(s: State, e: nat)
    requires Inv(s) && e < |s.cells| && s.cells[e].alloc && !s.cells[e].pending
    ensures var t := Delete(s, s.cells[e].dirty, e);
            ListsOk(s.cells[e := s.cells[e].(alloc := false)], s.free + [e], t.clean, t.dirty, s.nrAllocated - 1)
  {
    WithoutRemovesExactly(s.clean, e);
    WithoutRemovesExactly(s.dirty, e);
    AppendKeepsDistinct(s.free, e);
  }

  /** Unhashing an entry and clearing its allocation bit. */
  lemma UnhashAndFree(s: State, e: nat)
    requires ChainsInv(s) && e < |s.cells| && Hashed(s, e)
    ensures ChainsInv(SetCell(HRemove(s, e), e, s.cells[e].(alloc := false)))
    ensures |HRemove(s, e).chains| == |s.chains|
    ensures forall i :: 0 <= i < |s.cells| ==>
              (Hashed(SetCell(HRemove(s, e), e, s.cells[e].(alloc := false)), i) <==> Hashed(s, i) && i != e)
  {
    HRemoveRemovesItself(s, e);
    UnhashedIsInNoChain(HRemove(s, e), e);
    SetCellKeepsTable(HRemove(s, e), e, s.cells[e].(alloc := false));
  }

  /** What is left of the removal of a hit, field by field. */
  lemma RemoveHitForm(s: State, k: Key)
    requires Bounded(s) && Find(s, k).Some?
    ensures var e, s1 := Find(s, k).value, HLookup(s, k);
            && Bounded(s1) && s1.cells == s.cells
            && RemoveHit(s, k) ==
               State(s.cells[e := s.cells[e].(alloc := false)], s.free + [e],
                     Delete(s, s.cells[e].dirty, e).clean, Delete(s, s.cells[e].dirty, e).dirty,
                     HRemove(s1, e).chains, s.nrAllocated - 1)
  {
  }

  lemma RemoveAfterLookup(s: State, s1: State, e: nat, t: State)
    requires ChainsInv(s) && e < |s.cells| && Hashed(s, e) && ChainsInv(s1) && s1 == s.(chains := s1.chains)
    requires |s1.chains| == |s.chains|
    requires forall i :: 0 <= i < |s.cells| ==> (Hashed(s1, i) <==> Hashed(s, i))
    requires t.cells == s.cells[e := s.cells[e].(alloc := false)] && t.chains == HRemove(s1, e).chains
    requires InRange(t.free, |t.cells|) && InRange(t.clean, |t.cells|) && InRange(t.dirty, |t.cells|)
    ensures ChainsInv(t) && |t.chains| == |s.chains|
    ensures forall i :: 0 <= i < |s.cells| ==> (Hashed(t, i) <==> Hashed(s, i) && i != e)
  {
    UnhashAndFree(s1, e);
    SameChains(SetCell(HRemove(s1, e), e, s.cells[e].(alloc := false)), t);
  }

  lemma RemoveHitTable(s: State, k: Key)
    requires ChainsInv(s) && Find(s, k).Some?
    ensures var e := Find(s, k).value;
            && e < |s.cells| && Hashed(s, e) && s.cells[e].key == k && s.cells[e].alloc
            && ChainsInv(RemoveHit(s, k))
            && |RemoveHit(s, k).chains| == |s.chains|
            && forall i :: 0 <= i < |s.cells| ==> (Hashed(RemoveHit(s, k), i) <==> Hashed(s, i) && i != e)
  {
    FindIsExact(s, k);
    RemoveHitForm(s, k);
    HLookupKeepsTable(s, k);
    RemoveAfterLookup(s, HLookup(s, k), Find(s, k).value, RemoveHit(s, k));
  }

  /** The table reads only the cells and the chains. */
  lemma SameChains(s: State, t: State)
    requires ChainsInv(s) && s.cells == t.cells && s.chains == t.chains
    requires InRange(t.free, |t.cells|) && InRange(t.clean, |t.cells|) && InRange(t.dirty, |t.cells|)
    ensures ChainsInv(t)
    ensures forall i :: 0 <= i < |s.cells| ==> (Hashed(t, i) <==> Hashed(s, i))
  {
  }

  lemma RemoveHitKeepsInv(s: State, k: Key)
    requires Inv(s) && Find(s, k).Some? && !s.cells[Find(s, k).value].pending
    ensures var e := Find(s, k).value;
            && Inv(RemoveHit(s, k))
            && Hashed(s, e) && s.cells[e].key == k
            && RemoveHit(s, k).cells == s.cells[e := s.cells[e].(alloc := false)]
            && |RemoveHit(s, k).chains| == |s.chains|
            && RemoveHit(s, k).clean == Delete(s, s.cells[e].dirty, e).clean
            && RemoveHit(s, k).dirty == Delete(s, s.cells[e].dirty, e).dirty
            && forall i :: 0 <= i < |s.cells| ==> (Hashed(RemoveHit(s, k), i) <==> Hashed(s, i) && i != e)
  {
    RemoveHitTable(s, k);
    RemoveHitForm(s, k);
    RemoveHitLists(s, Find(s, k).value);
  }

  /** The initial state: every entry free, nothing hashed. */
  lemma InitInv(n: nat, buckets: nat)
    requires 2 <= buckets
    ensures Inv(InitState(n, buckets))
  {
    var s := InitState(n, buckets);
    forall i | 0 <= i < n
      ensures i in s.free
    {
      assert s.free[i] == i;
    }
  }
}
