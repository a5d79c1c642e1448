/**
 * The mapping object: the shared entry array with its three lists and the hash table,
 * updated in place. Every method is one critical section of ssd_cache_mapping.c and is
 * proved to do to the abstract state what the function of the same name does.
 */
module Mapping {
  import opened CacheTypes
  import opened Hash
  import opened HashChains
  import opened IndexList
  import opened Migration
  import opened Sequences
  import opened WorkQueue
  import opened MappingInvariant
  import opened MappingTable
  import Queue = QueueSpec
  import S = MappingState
  import P = Protocol

  lemma LinkedIfSame(l: Links, es': seq<Entry>, s: seq<nat>)
    requires Linked(l, s) && |es'| == |l.es|
    requires forall x :: x in s && x < |es'| ==> es'[x].prev == l.es[x].prev && es'[x].next == l.es[x].next
    ensures Linked(l.(es := es'), s)
  {
    forall i | 0 <= i < |s|
      ensures LinkedAt(es', s, i)
    {
      assert LinkedAt(l.es, s, i) && s[i] in s;
    }
  }

  /** The table does not notice a change to an entry of no chain. */
  lemma TableIfSameBut(es: seq<Entry>, es': seq<Entry>, buckets: seq<nat>, chains: seq<seq<nat>>, e: nat)
    requires TableLinked(es, buckets, chains) && |es'| == |es|
    requires forall b :: 0 <= b < |chains| ==> e !in chains[b]
    requires forall i :: 0 <= i < |es| && i != e ==> es'[i].hashNext == es[i].hashNext
    ensures TableLinked(es', buckets, chains)
  {
    forall b | 0 <= b < |chains|
      ensures Chained(es', buckets[b], chains[b])
    {
      ChainFrame(es, es', buckets[b], chains[b]);
    }
  }

  lemma TableIfSame(es: seq<Entry>, es': seq<Entry>, buckets: seq<nat>, chains: seq<seq<nat>>)
    requires TableLinked(es, buckets, chains) && |es'| == |es|
    requires forall i :: 0 <= i < |es| ==> es'[i].hashNext == es[i].hashNext
    ensures TableLinked(es', buckets, chains)
  {
    forall b | 0 <= b < |chains|
      ensures Chained(es', buckets[b], chains[b])
    {
      ChainFrame(es, es', buckets[b], chains[b]);
    }
  }

  lemma CellsSame(es: seq<Entry>, es': seq<Entry>)
    requires |es'| == |es| && forall i :: 0 <= i < |es| ==> es'[i].cell == es[i].cell
    ensures Cells(es') == Cells(es)
  {
  }

  class Mapping {
    const es: array<Entry>
    const free: IList
    const clean: IList
    const dirty: IList
    const table: HashTable
    const wq: Ring
    var nrAllocated: nat
    var blockSize: nat
    var cacheBlockNum: nat
    var blockPerCblockShift: nat
    var blockPerPageShift: nat

    /** Zeroed shared memory for `n` entries, `buckets` chains and a queue of `capacity` slots. */
    constructor (n: nat, buckets: nat, capacity: nat)
      requires capacity >= 1
      ensures fresh(Index()) && fresh(wq) && fresh(wq.works)
      ensures es.Length == n && table.buckets.Length == buckets && wq.works.Length == capacity
      ensures free != clean && free != dirty && clean != dirty
      ensures wq.Valid() && wq.Items() == []
      ensures Cells(es[..]) == S.InitState(n, buckets).cells
    {
      es := new Entry[n](_ => Entry(0, 0, 0, Cell(false, false, false, Key([], 0))));
      free := new IList();
      clean := new IList();
      dirty := new IList();
      table := new HashTable(buckets);
      wq := new Ring(capacity);
      nrAllocated, blockSize, cacheBlockNum, blockPerCblockShift, blockPerPageShift := 0, 0, 0, 0, 0;
    }

    ghost function Index(): set<object> {
      {this, es, free, clean, dirty, table, table.buckets}
    }

    ghost function Lists(): set<object> {
      {es, free, clean, dirty}
    }

    /** Lists and chains are well linked and the lists have no entry in common. */
    ghost predicate Shape()
      reads Index()
    {
      && free != clean && free != dirty && clean != dirty
      && free.Valid(es) && clean.Valid(es) && dirty.Valid(es) && table.Valid(es)
      && Apart(free.elems, clean.elems) && Apart(free.elems, dirty.elems) && Apart(clean.elems, dirty.elems)
      && cacheBlockNum == es.Length
    }

    ghost function View(): S.State
      reads Index()
    {
      S.State(Cells(es[..]), free.elems, clean.elems, dirty.elems, table.chains, nrAllocated)
    }

    ghost predicate Valid()
      reads Index()
    {
      Shape() && S.Inv(View())
    }

    lemma ShapeIsBounded()
      requires Shape()
      ensures S.Bounded(View())
    {
      forall b | 0 <= b < |table.chains|
        ensures S.InRange(table.chains[b], es.Length)
      {
        assert Chained(es[..], table.buckets[b], table.chains[b]);
      }
    }

    // -------------------------------------------------------------- list and cell updates

    function ListOf(d: bool): IList {
      if d then dirty else clean
    }

    /** One list has changed; the other two and the table are as they were. */
    ghost predicate Others(l: IList, touched: seq<nat>)
      reads free, clean, dirty, l
    {
      && (l != free ==> Apart(free.elems, touched) && Apart(free.elems, l.elems))
      && (l != clean ==> Apart(clean.elems, touched) && Apart(clean.elems, l.elems))
      && (l != dirty ==> Apart(dirty.elems, touched) && Apart(dirty.elems, l.elems))
    }

    /** A list operation that rewires only `touched` entries leaves everything else in shape. */
    lemma ListChangeIsLocal(l: IList, before: seq<Entry>, touched: seq<nat>)
      requires free != clean && free != dirty && clean != dirty && (l == free || l == clean || l == dirty)
      requires l != free ==> Linked(Links(before, free.nrElts, free.head, free.tail), free.elems)
      requires l != clean ==> Linked(Links(before, clean.nrElts, clean.head, clean.tail), clean.elems)
      requires l != dirty ==> Linked(Links(before, dirty.nrElts, dirty.head, dirty.tail), dirty.elems)
      requires table.Sized() && TableLinked(before, table.buckets[..], table.chains)
      requires cacheBlockNum == es.Length && l.Valid(es)
      requires OnlyLinksIn(before, es[..], touched) && Others(l, touched)
      requires Apart(free.elems, clean.elems) || l == free || l == clean
      requires Apart(free.elems, dirty.elems) || l == free || l == dirty
      requires Apart(clean.elems, dirty.elems) || l == clean || l == dirty
      ensures Shape() && Cells(es[..]) == Cells(before)
    {
      if l != free {
        LinkedFrame(Links(before, free.nrElts, free.head, free.tail), es[..], free.elems, touched);
      }
      if l != clean {
        LinkedFrame(Links(before, clean.nrElts, clean.head, clean.tail), es[..], clean.elems, touched);
      }
      if l != dirty {
        LinkedFrame(Links(before, dirty.nrElts, dirty.head, dirty.tail), es[..], dirty.elems, touched);
      }
      TableIfSame(before, es[..], table.buckets[..], table.chains);
      CellsSame(before, es[..]);
    }

    method DeleteFrom(d: bool, e: nat)
      requires Shape() && e in ListOf(d).elems
      modifies es, ListOf(d)
      ensures Shape() && View() == S.Delete(old(View()), d, e)
    {
      ghost var before, elems := es[..], ListOf(d).elems;
      WithoutRemovesExactly(elems, e);
      ListOf(d).Delete(es, e);
      ListChangeIsLocal(ListOf(d), before, elems);
    }

    ghost predicate Unlisted(e: nat)
      reads free, clean, dirty
    {
      e !in free.elems && e !in clean.elems && e !in dirty.elems
    }

    method AddTailTo(d: bool, e: nat)
      requires Shape() && e < es.Length && Unlisted(e)
      modifies es, ListOf(d)
      ensures Shape() && View() == S.AddTail(old(View()), d, e)
    {
      ghost var before := es[..];
      ListOf(d).AddTail(es, e);
      ListChangeIsLocal(ListOf(d), before, ListOf(d).elems);
    }

    method AddHeadTo(d: bool, e: nat)
      requires Shape() && e < es.Length && Unlisted(e)
      modifies es, ListOf(d)
      ensures Shape() && View() == S.AddHead(old(View()), d, e)
    {
      ghost var before := es[..];
      ListOf(d).AddHead(es, e);
      ListChangeIsLocal(ListOf(d), before, ListOf(d).elems);
    }

    /** Writes the flag bits and the key of an entry. */
    method PutCell(e: nat, c: Cell)
      requires Shape() && e < es.Length
      modifies es
      ensures Shape() && View() == S.SetCell(old(View()), e, c)
    {
      ghost var before := es[..];
      es[e] := es[e].(cell := c);
      LinkedIfSame(old(free.LinksIn(es)), es[..], free.elems);
      LinkedIfSame(old(clean.LinksIn(es)), es[..], clean.elems);
      LinkedIfSame(old(dirty.LinksIn(es)), es[..], dirty.elems);
      TableIfSame(before, es[..], table.buckets[..], table.chains);
      assert Cells(es[..]) == Cells(before)[e := c];
    }

    /** `init_entry`: blanks an entry that is on no list and in no chain. */
    method InitEntry(e: nat)
      requires Shape() && e < es.Length && Unlisted(e)
      requires forall b :: 0 <= b < |table.chains| ==> e !in table.chains[b]
      modifies es
      ensures Shape() && View() == S.SetCell(old(View()), e, Cell(false, false, false, BLANK_KEY))
    {
      ghost var before := es[..];
      es[e] := Entry(INDEXER_NULL, INDEXER_NULL, INDEXER_NULL, Cell(false, false, false, BLANK_KEY));
      LinkedIfSame(old(free.LinksIn(es)), es[..], free.elems);
      LinkedIfSame(old(clean.LinksIn(es)), es[..], clean.elems);
      LinkedIfSame(old(dirty.LinksIn(es)), es[..], dirty.elems);
      TableIfSameBut(before, es[..], table.buckets[..], table.chains, e);
      assert Cells(es[..]) == Cells(before)[e := Cell(false, false, false, BLANK_KEY)];
    }

    method PopFreeEntry() returns (e: nat)
      requires Shape() && free.elems != []
      modifies free, es
      ensures Shape() && e < es.Length && Unlisted(e)
      ensures e == old(free.elems)[0] && View() == old(View()).(free := old(free.elems)[1..])
    {
      ghost var before := es[..];
      e := free.PopHead(es);
      ListChangeIsLocal(free, before, old(free.elems));
    }

    lemma FreeHeadIsUnhashed()
      requires Valid() && free.elems != []
      ensures forall b :: 0 <= b < |table.chains| ==> free.elems[0] !in table.chains[b]
    {
      PopFree(View());
      FreeIsUnhashed(View(), free.elems[0]);
    }

    /** The rest of `alloc_entry` when there is a free entry. */
    method TakeFreeEntry() returns (e: nat)
      requires Shape() && free.elems != [] && forall b :: 0 <= b < |table.chains| ==> free.elems[0] !in table.chains[b]
      modifies this`nrAllocated, free, es
      ensures Shape() && S.Bounded(old(View())) && View() == S.AllocEntry(old(View())) && e == old(free.elems)[0]
      ensures e < es.Length && Unlisted(e)
      ensures forall b :: 0 <= b < |table.chains| ==> e !in table.chains[b]
    {
      ghost var s := View();
      ShapeIsBounded();
      e := PopFreeEntry();
      InitEntry(e);
      PutCell(e, Cell(false, false, true, BLANK_KEY));
      nrAllocated := nrAllocated + 1;
      AllocForm(s);
    }

    /** `alloc_entry`: takes the head of the free list and blanks it; no entry if the list is empty. */
    method AllocEntry() returns (e: nat)
      requires Valid()
      modifies this`nrAllocated, free, es
      ensures Shape() && S.Bounded(old(View()))
      ensures old(free.elems) == [] ==> e == INDEXER_NULL && View() == old(View())
      ensures old(free.elems) != [] ==>
                && e == old(free.elems)[0] && View() == S.AllocEntry(old(View())) && e < es.Length && Unlisted(e)
                && forall b :: 0 <= b < |table.chains| ==> e !in table.chains[b]
    {
      var empty := free.Empty();
      if empty {
        return INDEXER_NULL;
      }
      FreeHeadIsUnhashed();
      e := TakeFreeEntry();
    }

    static lemma AllocForm(s: S.State)
      requires S.Bounded(s) && s.free != []
      ensures var e := s.free[0];
              S.AllocEntry(s) ==
              s.(free := s.free[1..], nrAllocated := s.nrAllocated + 1,
                 cells := s.cells[e := Cell(false, false, false, BLANK_KEY)][e := Cell(false, false, true, BLANK_KEY)])
    {
    }

    method FreeEntry(e: nat)
      requires Shape() && e < es.Length && Unlisted(e) && nrAllocated > 0
      modifies this`nrAllocated, free, es
      ensures Shape() && View() == S.FreeEntry(old(View()), e)
    {
      nrAllocated := nrAllocated - 1;
      PutCell(e, es[e].cell.(alloc := false));
      ghost var before := es[..];
      free.AddTail(es, e);
      ListChangeIsLocal(free, before, free.elems);
    }

    // -------------------------------------------------------------- hash table updates

    method HashLookup(k: Key) returns (e: nat)
      requires Shape()
      modifies table`chains, table.buckets, es
      ensures Shape() && S.Bounded(old(View())) && View() == S.HLookup(old(View()), k)
      ensures match S.Find(old(View()), k)
              case Some(c) => e == c && e < es.Length
              case None => e == INDEXER_NULL
    {
      ghost var before := es[..];
      ShapeIsBounded();
      e := table.Lookup(es, k);
      TableChangeKeepsLists(before);
      CellsSame(before, es[..]);
    }

    method HashInsert(e: nat)
      requires Shape() && e < es.Length
      requires forall b :: 0 <= b < |table.chains| ==> e !in table.chains[b]
      modifies table`chains, table.buckets, es
      ensures Shape() && S.Bounded(old(View())) && View() == S.HInsert(old(View()), e)
    {
      ghost var before := es[..];
      ShapeIsBounded();
      table.Insert(es, e);
      TableChangeKeepsLists(before);
      CellsSame(before, es[..]);
    }

    method HashRemove(e: nat)
      requires Shape() && e < es.Length
      modifies table`chains, table.buckets, es
      ensures Shape() && S.Bounded(old(View())) && View() == S.HRemove(old(View()), e)
    {
      ghost var before := es[..];
      ShapeIsBounded();
      table.Remove(es, e);
      TableChangeKeepsLists(before);
      CellsSame(before, es[..]);
    }

    twostate lemma TableChangeKeepsLists(before: seq<Entry>)
      requires old(Shape()) && before == old(es[..])
      requires unchanged(this) && unchanged(free) && unchanged(clean) && unchanged(dirty)
      requires forall i :: 0 <= i < es.Length ==> es[i].prev == before[i].prev && es[i].next == before[i].next
      ensures free.Valid(es) && clean.Valid(es) && dirty.Valid(es)
    {
      LinkedIfSame(old(free.LinksIn(es)), es[..], free.elems);
      LinkedIfSame(old(clean.LinksIn(es)), es[..], clean.elems);
      LinkedIfSame(old(dirty.LinksIn(es)), es[..], dirty.elems);
    }

    // -------------------------------------------------------------- critical sections

    /** Set-up of the mapping in zeroed memory: every entry free, in order, nothing cached. */
    method InitMapping(blockSize: nat, cblockNum: nat) returns (failed: bool)
      requires blockSize > 0 && cblockNum > 0 ==> cblockNum == es.Length <= INDEXER_NULL
      requires 2 <= table.buckets.Length < U32 && free != clean && free != dirty && clean != dirty
      requires Cells(es[..]) == S.InitState(es.Length, table.buckets.Length).cells
      modifies Index()
      ensures failed <==> blockSize == 0 || cblockNum == 0
      ensures !failed ==> Valid() && View() == S.InitState(cblockNum, table.buckets.Length)
      ensures !failed ==>
                && blockPerCblockShift == Log2(0x8000 / blockSize)
                && blockPerPageShift == Log2(0x1000 / blockSize)
    {
      if blockSize == 0 || cblockNum == 0 {
        return true;
      }
      this.blockSize, cacheBlockNum := blockSize, cblockNum;
      blockPerCblockShift := Log2(0x8000 / blockSize);
      blockPerPageShift := Log2(0x1000 / blockSize);
      nrAllocated := 0;
      InitFreeList();
      clean.Init();
      dirty.Init();
      table.Init();
      assert free.LinksIn(es) == Links(es[..], free.nrElts, free.head, free.tail);
      failed := false;
      InitInv(cblockNum, table.buckets.Length);
    }

    method InitFreeList()
      requires es.Length <= INDEXER_NULL
      modifies free, es
      ensures free.Valid(es) && free.elems == seq(es.Length, i => i)
      ensures Cells(es[..]) == old(Cells(es[..]))
    {
      free.Init();
      var i := 0;
      while i != es.Length
        invariant i <= es.Length && free.Valid(es) && free.elems == seq(i, j => j)
        invariant Cells(es[..]) == old(Cells(es[..]))
        decreases es.Length - i
      {
        ghost var before := es[..];
        free.AddTail(es, i);
        CellsSame(before, es[..]);
        i := i + 1;
      }
    }

    method PromotionFreeToClean(k: Key) returns (ok: bool, cblock: nat)
      requires Valid()
      modifies Index()
      ensures Valid()
      ensures ok <==> old(free.elems) != []
      ensures !ok ==> View() == old(View())
      ensures ok ==> cblock == old(free.elems)[0] && View() == S.PromotionBegin(old(View()), k)
    {
      var empty := free.Empty();
      if empty {
        return false, 0;
      }
      PromotionBeginKeepsInv(View(), k);
      var e := AllocEntry();
      PutCell(e, es[e].cell.(pending := true, dirty := false, key := k));
      return true, e;
    }

    method PromotionComplete(cblock: nat, success: bool)
      requires Valid() && cblock < es.Length && es[cblock].cell.pending && !S.Hashed(View(), cblock)
      requires success ==> !KeyHashed(View(), es[cblock].cell.key)
      modifies Index()
      ensures Valid() && View() == S.PromotionComplete(old(View()), cblock, success)
    {
      ghost var s := View();
      PromotionCompleteKeepsInv(s, cblock, success);
      UnhashedIsInNoChain(s, cblock);
      AllocatedIsCounted(s, cblock);
      PutCell(cblock, es[cblock].cell.(pending := false));
      if success {
        HashInsert(cblock);
        AddTailTo(es[cblock].cell.dirty, cblock);
      } else {
        FreeEntry(cblock);
      }
    }

    /** An allocated entry is counted, so the counter can go down. */
    static lemma AllocatedIsCounted(s: S.State, e: nat)
      requires S.Inv(s) && e < |s.cells| && s.cells[e].alloc
      ensures s.nrAllocated > 0
    {
      AppendKeepsDistinct(s.free, e);
      var all := seq(|s.cells|, i => i);
      forall x | x in s.free + [e]
        ensures x in all
      {
        assert all[x] == x;
      }
      MoreElementsMoreLength(s.free + [e], all);
    }

    method DemotionCleanToFree() returns (ok: bool, cblock: nat)
      requires Valid()
      modifies Index()
      ensures Valid()
      ensures ok <==> S.CanDemote(old(View()))
      ensures !ok ==> View() == old(View())
      ensures ok ==> cblock == old(clean.elems)[0] && View() == S.DemotionBegin(old(View()))
    {
      if clean.nrElts <= cacheBlockNum / 2 {
        return false, 0;
      }
      DemotionBeginKeepsInv(View());
      var e := clean.head;
      assert e in clean.elems;
      DeleteFrom(false, e);
      PutCell(e, es[e].cell.(pending := true));
      return true, e;
    }

    method DemotionComplete(cblock: nat, success: bool)
      requires Valid() && cblock < es.Length && es[cblock].cell.pending && S.Hashed(View(), cblock)
      modifies Index()
      ensures Valid() && View() == S.DemotionComplete(old(View()), cblock, success)
    {
      ghost var s := View();
      DemotionCompleteKeepsInv(s, cblock, success);
      AllocatedIsCounted(s, cblock);
      PutCell(cblock, es[cblock].cell.(pending := false));
      if success {
        HashRemove(cblock);
        FreeEntry(cblock);
      } else {
        AddTailTo(es[cblock].cell.dirty, cblock);
      }
    }

    method WritebackDirtyToClean() returns (ok: bool, cblock: nat)
      requires Valid()
      modifies Index()
      ensures Valid() && S.Bounded(old(View()))
      ensures ok <==> S.CanWriteback(old(View()))
      ensures !ok ==> View() == old(View())
      ensures ok ==> cblock == old(dirty.elems)[0] && View() == S.WritebackBegin(old(View()))
    {
      if dirty.nrElts == 0 {
        return false, 0;
      }
      var e := dirty.head;
      assert e in dirty.elems;
      if es[e].cell.pending {
        return false, 0;
      }
      WritebackBeginKeepsInv(View());
      PutCell(e, es[e].cell.(pending := true, dirty := false));
      DeleteFrom(true, e);
      return true, e;
    }

    method WritebackComplete(cblock: nat, success: bool)
      requires Valid() && cblock < es.Length && es[cblock].cell.pending && S.Hashed(View(), cblock)
      modifies Index()
      ensures Valid() && View() == S.WritebackComplete(old(View()), cblock, success)
    {
      WritebackCompleteKeepsInv(View(), cblock, success);
      PutCell(cblock, es[cblock].cell.(pending := false));
      if success {
        AddTailTo(es[cblock].cell.dirty, cblock);
      } else {
        AddHeadTo(es[cblock].cell.dirty, cblock);
      }
    }

    /** The part of a lookup that follows a hit. */
    method TouchHit(e: nat)
      requires Valid() && e < es.Length && es[e].cell.alloc
      modifies Lists()
      ensures Shape() && View() == S.Touch(old(View()), e)
    {
      if !es[e].cell.pending && !es[e].cell.dirty {
        WithoutRemovesExactly(clean.elems, e);
        DeleteFrom(es[e].cell.dirty, e);
        AddTailTo(es[e].cell.dirty, e);
      }
    }

    /** The hash lookup and, on a hit, the move to the most recently used end. */
    method LookupAndTouch(k: Key) returns (e: nat)
      requires Valid()
      modifies Index()
      ensures Valid() && S.Bounded(old(View())) && View() == S.Lookup(old(View()), k)
      ensures match S.Find(old(View()), k)
              case Some(c) => e == c && e < es.Length
              case None => e == INDEXER_NULL
    {
      ghost var s := View();
      LookupKeepsInv(s, k);
      HLookupKeepsInv(s, k);
      FindIsExact(s, k);
      e := HashLookup(k);
      if e != INDEXER_NULL {
        TouchHit(e);
      }
    }

    lemma QueueIsApart()
      ensures (wq as object) !in Index() && (wq.works as object) !in Index()
    {
    }

    /** `insert_work` on the mapping's own queue; the index is not involved. */
    method QueueWork(k: Key)
      requires Valid() && wq.Valid()
      modifies wq, wq.works
      ensures Valid() && View() == old(View())
      ensures wq.Valid() && wq.Items() == Queue.Insert(old(wq.Items()), k, wq.works.Length)
    {
      var _ := wq.InsertWork(k);
    }

    method LookupMapping(k: Key) returns (hit: bool, cblock: nat)
      requires Valid() && wq.Valid()
      modifies Index(), wq, wq.works
      ensures Valid() && wq.Valid() && S.Bounded(old(View()))
      ensures View() == S.Lookup(old(View()), k)
      ensures hit == S.Find(old(View()), k).Some?
      ensures hit ==> cblock == S.Find(old(View()), k).value
      ensures wq.Items() == if hit then old(wq.Items()) else Queue.Insert(old(wq.Items()), k, wq.works.Length)
      ensures !hit ==> (k in wq.Items() <==> k in old(wq.Items()) || |old(wq.Items())| < wq.works.Length - 1)
      ensures !hit && k !in old(wq.Items()) && k in wq.Items() ==> wq.Items() == old(wq.Items()) + [k]
    {
      QueueIsApart();
      Queue.InsertAppends(wq.Items(), k, wq.works.Length);
      var e := LookupAndTouch(k);
      hit, cblock := e != INDEXER_NULL, e;
      if !hit {
        QueueWork(k);
      }
    }

    /** The tail of the insertion: a fresh dirty entry under a key that is not hashed. */
    method InsertFresh(k: Key) returns (e: nat)
      requires Valid() && free.elems != [] && !KeyHashed(View(), k)
      modifies Index()
      ensures Valid() && S.Bounded(old(View()))
      ensures View() == S.InsertDirty(old(View()), k) && e == old(free.elems)[0]
    {
      InsertDirtyKeepsInv(View(), k);
      e := AllocEntry();
      PutCell(e, es[e].cell.(dirty := true, key := k));
      HashInsert(e);
      AddTailTo(es[e].cell.dirty, e);
    }

    method LookupMappingWithInsert(k: Key) returns (hit: bool, cblock: nat)
      requires Valid() && wq.Valid()
      modifies Index(), wq, wq.works
      ensures Valid() && wq.Valid() && S.Bounded(old(View()))
      ensures var s := P.Sys(old(View()), old(wq.Items()), wq.works.Length, P.Idle);
              && P.ApplyLookupInsert(s, k) == P.Sys(View(), wq.Items(), wq.works.Length, P.Idle)
              && hit == P.LookupInsertResult(s, k).Some?
              && (hit ==> cblock == P.LookupInsertResult(s, k).value)
    {
      QueueIsApart();
      FindIsExact(View(), k);
      cblock := LookupAndTouch(k);
      hit := cblock != INDEXER_NULL;
      if !hit {
        hit, cblock := InsertMissed(k);
      }
    }

    method AllocatorEmpty() returns (r: bool)
      requires Shape()
      ensures r <==> free.elems == []
    {
      r := free.Empty();
    }

    /** After a miss on an unqueued key: insert if an entry is free, queue otherwise. */
    method InsertOrQueue(k: Key) returns (hit: bool, cblock: nat)
      requires Valid() && wq.Valid() && !KeyHashed(View(), k)
      modifies Index(), wq, wq.works
      ensures Valid() && wq.Valid() && S.Bounded(old(View()))
      ensures hit <==> old(free.elems) != []
      ensures hit ==> cblock == old(free.elems)[0]
      ensures View() == if hit then S.InsertDirty(old(View()), k) else old(View())
      ensures wq.Items() == if hit then old(wq.Items()) else Queue.Insert(old(wq.Items()), k, wq.works.Length)
    {
      hit, cblock := false, 0;
      var empty := AllocatorEmpty();
      if empty {
        QueueWork(k);
      } else {
        QueueIsApart();
        cblock := InsertFresh(k);
        hit := true;
      }
    }

    /** After a miss: give up if queued, queue if nothing is free, insert otherwise. */
    method InsertMissed(k: Key) returns (hit: bool, cblock: nat)
      requires Valid() && wq.Valid() && !KeyHashed(View(), k)
      modifies Index(), wq, wq.works
      ensures Valid() && wq.Valid() && S.Bounded(old(View()))
      ensures hit <==> !Queue.Contains(old(wq.Items()), k) && old(free.elems) != []
      ensures hit ==> cblock == old(free.elems)[0]
      ensures View() == if hit then S.InsertDirty(old(View()), k) else old(View())
      ensures wq.Items() == if Queue.Contains(old(wq.Items()), k) || hit then old(wq.Items())
                            else Queue.Insert(old(wq.Items()), k, wq.works.Length)
    {
      hit, cblock := false, 0;
      var queued := wq.ContainsWork(k);
      if !queued {
        hit, cblock := InsertOrQueue(k);
      }
    }

    /** Takes a listed entry off its list and out of its chain, and frees it. */
    method RemoveEntry(e: nat)
      requires Valid() && e < es.Length && es[e].cell.alloc && !es[e].cell.pending
      modifies Index()
      ensures Shape() && S.Bounded(old(View()))
      ensures View() == S.FreeEntry(S.HRemove(S.Delete(old(View()), old(es[e].cell.dirty), e), e), e)
    {
      AllocatedIsCounted(View(), e);
      WithoutRemovesExactly(ListOf(es[e].cell.dirty).elems, e);
      DeleteFrom(es[e].cell.dirty, e);
      HashRemove(e);
      FreeEntry(e);
    }

    /** A hit must not be in flight: it would be deleted from a list it is not on. */
    method RemoveMapping(k: Key) returns (hit: bool)
      requires Valid()
      requires S.Bounded(View()) && (S.Find(View(), k).Some? ==> !es[S.Find(View(), k).value].cell.pending)
      modifies Index()
      ensures Valid() && S.Bounded(old(View()))
      ensures View() == S.Remove(old(View()), k)
      ensures hit <==> S.Find(old(View()), k).Some?
    {
      ghost var s := View();
      FindIsExact(s, k);
      HLookupKeepsInv(s, k);
      var e := HashLookup(k);
      if e != INDEXER_NULL {
        RemoveHitKeepsInv(s, k);
        RemoveEntry(e);
      }
      hit := e != INDEXER_NULL;
    }

    method SetDirtyAfterWrite(cblock: nat)
      requires Valid() && cblock < es.Length
      modifies Index()
      ensures Valid() && View() == S.SetDirtyAfterWrite(old(View()), cblock)
    {
      ghost var s := View();
      SetDirtyKeepsInv(s, cblock);
      if !es[cblock].cell.alloc {
        return;
      }
      if es[cblock].cell.pending {
        PutCell(cblock, es[cblock].cell.(dirty := true));
      } else {
        Redirty(cblock);
      }
    }

    /** The listed case of `set_dirty_after_write`: off its list, dirty, to the dirty tail. */
    method Redirty(e: nat)
      requires Valid() && e < es.Length && es[e].cell.alloc && !es[e].cell.pending
      modifies Index()
      ensures Shape() && View() == S.SetDirtyAfterWrite(old(View()), e)
    {
      WithoutRemovesExactly(ListOf(es[e].cell.dirty).elems, e);
      DeleteFrom(es[e].cell.dirty, e);
      PutCell(e, es[e].cell.(dirty := true));
      AddTailTo(es[e].cell.dirty, e);
    }

    method TryPromote(k: Key, io: bool) returns (ok: bool)
      requires Valid() && !KeyHashed(View(), k)
      modifies Index()
      ensures Valid() && S.Inv(old(View()))
      ensures ok <==> old(View()).free != []
      ensures View() == if ok then MigrationWork(old(View()), k, io) else old(View())
    {
      ghost var s := View();
      var cblock;
      ok, cblock := PromotionFreeToClean(k);
      if ok {
        PromotionBeginKeepsInv(s, k);
        UnhashedKeyStaysUnhashed(s, View(), cblock, k);
        PromotionComplete(cblock, io);
      }
    }

    method TryDemote(ghost k: Key, ghost io: bool) returns (ok: bool)
      requires Valid() && View().free == []
      modifies Index()
      ensures Valid() && S.Inv(old(View()))
      ensures ok <==> S.CanDemote(old(View()))
      ensures View() == if ok then MigrationWork(old(View()), k, io) else old(View())
    {
      ghost var s := View();
      var cblock;
      ok, cblock := DemotionCleanToFree();
      if ok {
        DemotionBeginKeepsInv(s);
        DemotionComplete(cblock, true);
      }
    }

    method TryWriteBack(ghost k: Key, io: bool)
      requires Valid() && View().free == [] && !S.CanDemote(View())
      modifies Index()
      ensures Valid() && S.Inv(old(View())) && View() == MigrationWork(old(View()), k, io)
    {
      ghost var s := View();
      var ok, cblock := WritebackDirtyToClean();
      if ok {
        WritebackBeginKeepsInv(s);
        WritebackComplete(cblock, io);
      }
    }

    /** Try to promote, then to demote, then to write back. */
    method Migrate(k: Key, io: bool)
      requires Valid() && !KeyHashed(View(), k)
      modifies Index()
      ensures Valid() && S.Inv(old(View())) && View() == MigrationWork(old(View()), k, io)
    {
      var ok := TryPromote(k, io);
      if !ok {
        ok := TryDemote(k, io);
        if !ok {
          TryWriteBack(k, io);
        }
      }
    }

    /**
     * One round of the worker with nobody in between; `io` is the outcome of the device
     * transfers. Whatever was done, the work item is removed.
     */
    method DoMigrationWork(io: bool) returns (worked: bool)
      requires Valid() && wq.Valid()
      requires wq.Items() != [] ==> !KeyHashed(View(), wq.Items()[0])
      modifies Index(), wq
      ensures Valid() && wq.Valid() && S.Inv(old(View()))
      ensures worked <==> old(wq.Items()) != []
      ensures !worked ==> View() == old(View()) && wq.Items() == old(wq.Items())
      ensures worked ==> View() == MigrationWork(old(View()), old(wq.Items())[0], io)
                         && wq.Items() == old(wq.Items())[1..]
    {
      QueueIsApart();
      var k;
      worked, k := wq.PeakWork();
      if worked {
        Migrate(k, io);
        var _ := wq.RemoveWork();
      }
    }
  }
}
