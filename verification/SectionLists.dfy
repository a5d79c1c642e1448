/**
 * Where each section leaves the entries: the three lists afterwards, and which entry a chain
 * yields first.
 */
module SectionLists {
  import opened CacheTypes
  import opened MappingState
  import opened MappingTable
  import opened MappingInvariant
  import opened Sequences

  /** The lists of `t`. */
  predicate HasLists(t: State, free: seq<nat>, clean: seq<nat>, dirty: seq<nat>) {
    t.free == free && t.clean == clean && t.dirty == dirty
  }

  /** An entry of a duplicate-free list is not left in it twice, nor in the other one. */
  lemma NotListedTwice(s: State, e: nat)
    requires Inv(s) && e < |s.cells|
    ensures e !in s.clean ==> Without(s.clean, e) == s.clean
    ensures e !in s.dirty ==> Without(s.dirty, e) == s.dirty
    ensures !(e in s.clean && e in s.dirty) && !(e in s.free && (e in s.clean || e in s.dirty))
  {
  }

  /** A hit comes first in its chain; a clean one is the last to be demoted. */
  lemma LookupMakesLatest(s: State, k: Key)
    requires Inv(s) && Find(s, k).Some?
    ensures var e, t := Find(s, k).value, Lookup(s, k);
            && Bounded(t) && ChainOf(t, k) != [] && ChainOf(t, k)[0] == e
            && HasLists(t, s.free, if e in s.clean then Without(s.clean, e) + [e] else s.clean, s.dirty)
  {
    FindIsExact(s, k);
    LookupKeepsInv(s, k);
  }

  /** An insertion takes the oldest free entry; it comes first in its chain and last on the dirty list. */
  lemma InsertionMakesLatest(s: State, k: Key)
    requires Inv(s) && s.free != [] && !KeyHashed(s, k)
    ensures var e, t := s.free[0], InsertDirty(s, k);
            && Bounded(t) && ChainOf(t, k) != [] && ChainOf(t, k)[0] == e
            && HasLists(t, s.free[1..], s.clean, s.dirty + [e])
  {
    InsertDirtyKeepsInv(s, k);
  }

  /** A removal gives the entry back as the youngest free one. */
  lemma RemovalFrees(s: State, k: Key)
    requires Inv(s) && Find(s, k).Some? && !s.cells[Find(s, k).value].pending
    ensures var e, t := Find(s, k).value, Remove(s, k);
            && Bounded(t) && Find(t, k).None?
            && HasLists(t, s.free + [e], Without(s.clean, e), Without(s.dirty, e))
  {
    var e := Find(s, k).value;
    FindIsExact(s, k);
    RemoveHitForm(s, k);
    RemoveHitKeepsInv(s, k);
    NotListedTwice(s, e);
    OthersHaveOtherKeys(s, e);
    FindIsExact(Remove(s, k), k);
  }

  /** A mark moves a listed block to the end of the dirty list, and no block in flight or freed. */
  lemma MarkMakesLatest(s: State, c: nat)
    requires Inv(s) && c < |s.cells|
    ensures var t := SetDirtyAfterWrite(s, c);
            if c in s.clean || c in s.dirty
            then HasLists(t, s.free, Without(s.clean, c), Without(s.dirty, c) + [c])
            else HasLists(t, s.free, s.clean, s.dirty)
  {
    NotListedTwice(s, c);
  }

  /** A promotion takes the oldest free entry, and leaves it last on the clean list or free. */
  lemma PromotionLists(s: State, k: Key)
    requires Inv(s) && s.free != []
    ensures HasLists(PromotionBegin(s, k), s.free[1..], s.clean, s.dirty)
  {
  }

  lemma PromotionEndLists(s: State, c: nat, ok: bool)
    requires Inv(s) && c < |s.cells| && s.cells[c].pending && !Hashed(s, c)
    ensures var t := PromotionComplete(s, c, ok);
            if !ok then HasLists(t, s.free + [c], s.clean, s.dirty)
            else if s.cells[c].dirty then HasLists(t, s.free, s.clean, s.dirty + [c])
            else HasLists(t, s.free, s.clean + [c], s.dirty)
  {
  }

  lemma PromotedIsFirst(s: State, c: nat)
    requires Inv(s) && c < |s.cells| && s.cells[c].pending && !Hashed(s, c) && !KeyHashed(s, s.cells[c].key)
    ensures var t := PromotionComplete(s, c, true);
            Bounded(t) && ChainOf(t, s.cells[c].key) != [] && ChainOf(t, s.cells[c].key)[0] == c
  {
    PromotionCompleteKeepsInv(s, c, true);
  }

  lemma DemotionEndLists(s: State, c: nat, ok: bool)
    requires Inv(s) && c < |s.cells| && s.cells[c].pending && Hashed(s, c)
    ensures var t := DemotionComplete(s, c, ok);
            if ok then HasLists(t, s.free + [c], s.clean, s.dirty)
            else if s.cells[c].dirty then HasLists(t, s.free, s.clean, s.dirty + [c])
            else HasLists(t, s.free, s.clean + [c], s.dirty)
  {
  }
}
