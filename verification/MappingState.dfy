/**
 * The mapping as a value: flag bits and key of every entry, the three lists and the
 * hash chains as sequences of entry indexes. One function per critical section of
 * ssd_cache_mapping.c, the structural invariant, and what each function does to it.
 */
module MappingState {
  import opened CacheTypes
  import opened Hash
  import opened Sequences

  datatype State = State(
    cells: seq<Cell>,
    free: seq<nat>,
    clean: seq<nat>,
    dirty: seq<nat>,
    chains: seq<seq<nat>>,
    nrAllocated: int)

  // ---------------------------------------------------------------- well-formedness

  predicate InRange(s: seq<nat>, n: nat) {
    forall j :: 0 <= j < |s| ==> s[j] < n
  }

  /** Every index held anywhere names an entry. */
  predicate Bounded(s: State) {
    && 2 <= |s.chains|
    && InRange(s.free, |s.cells|)
    && InRange(s.clean, |s.cells|)
    && InRange(s.dirty, |s.cells|)
    && forall b :: 0 <= b < |s.chains| ==> InRange(s.chains[b], |s.cells|)
  }

  /** On the clean (`d` false) or dirty (`d` true) list, as the flag bits tell it. */
  predicate Listed(c: Cell, d: bool) {
    c.alloc && !c.pending && c.dirty == d
  }

  /** Flag bits and list membership agree, and no list repeats an entry. */
  ghost predicate ListsOk(cells: seq<Cell>, free: seq<nat>, clean: seq<nat>, dirty: seq<nat>, nrAllocated: int) {
    && NoDup(free) && NoDup(clean) && NoDup(dirty)
    && InRange(free, |cells|) && InRange(clean, |cells|) && InRange(dirty, |cells|)
    && (forall i :: 0 <= i < |cells| ==> (i in free <==> !cells[i].alloc))
    && (forall i :: 0 <= i < |cells| ==> (i in clean <==> Listed(cells[i], false)))
    && (forall i :: 0 <= i < |cells| ==> (i in dirty <==> Listed(cells[i], true)))
    && (forall i :: 0 <= i < |cells| && cells[i].pending ==> cells[i].alloc)
    && nrAllocated + |free| == |cells|
  }

  ghost predicate ListsInv(s: State) {
    Bounded(s) && ListsOk(s.cells, s.free, s.clean, s.dirty, s.nrAllocated)
  }

  function HomeBucket(s: State, i: nat): nat
    requires Bounded(s) && i < |s.cells|
  {
    Bucket(s.cells[i].key, |s.chains|)
  }

  /** Entry `i` can be reached from the table. */
  predicate Hashed(s: State, i: nat)
    requires Bounded(s) && i < |s.cells|
  {
    i in s.chains[HomeBucket(s, i)]
  }

  /** A chain holds allocated entries of its own bucket under pairwise different keys. */
  ghost predicate ChainOk(cells: seq<Cell>, chain: seq<nat>, b: nat, buckets: nat)
    requires 2 <= buckets
  {
    && InRange(chain, |cells|)
    && (forall j :: 0 <= j < |chain| ==>
          cells[chain[j]].alloc && Bucket(cells[chain[j]].key, buckets) == b)
    && (forall i, j :: 0 <= i < j < |chain| ==> cells[chain[i]].key != cells[chain[j]].key)
  }

  ghost predicate TableInv(s: State) {
    && Bounded(s)
    && (forall b :: 0 <= b < |s.chains| ==> ChainOk(s.cells, s.chains[b], b, |s.chains|))
    && (forall i :: 0 <= i < |s.cells| && s.cells[i].alloc && !s.cells[i].pending ==> Hashed(s, i))
  }

  ghost predicate Inv(s: State) {
    ListsInv(s) && TableInv(s)
  }

  // ---------------------------------------------------------------- list operations

  function SetCell(s: State, e: nat, c: Cell): State
    requires e < |s.cells|
  {
    s.(cells := s.cells[e := c])
  }

  function Delete(s: State, d: bool, e: nat): State {
    if d then s.(dirty := Without(s.dirty, e)) else s.(clean := Without(s.clean, e))
  }

  function AddTail(s: State, d: bool, e: nat): State {
    if d then s.(dirty := s.dirty + [e]) else s.(clean := s.clean + [e])
  }

  function AddHead(s: State, d: bool, e: nat): State {
    if d then s.(dirty := [e] + s.dirty) else s.(clean := [e] + s.clean)
  }

  /** `alloc_entry`: takes the head of the free list and blanks it. */
  function AllocEntry(s: State): State
    requires Bounded(s) && s.free != []
  {
    SetCell(s, s.free[0], Cell(false, false, true, BLANK_KEY))
      .(free := s.free[1..], nrAllocated := s.nrAllocated + 1)
  }

  function FreeEntry(s: State, e: nat): State
    requires e < |s.cells|
  {
    SetCell(s, e, s.cells[e].(alloc := false))
      .(free := s.free + [e], nrAllocated := s.nrAllocated - 1)
  }

  // ---------------------------------------------------------------- hash table

  /** Position of the first entry of `chain` under key `k`, `|chain|` if there is none. */
  function FindPos(cells: seq<Cell>, chain: seq<nat>, k: Key): (p: nat)
    requires InRange(chain, |cells|)
    ensures p <= |chain|
    ensures p < |chain| ==> cells[chain[p]].key == k
    ensures forall j :: 0 <= j < p ==> cells[chain[j]].key != k
  {
    if chain == [] || cells[chain[0]].key == k then 0 else 1 + FindPos(cells, chain[1..], k)
  }

  function ChainOf(s: State, k: Key): seq<nat>
    requires Bounded(s)
    ensures InRange(ChainOf(s, k), |s.cells|)
  {
    s.chains[Bucket(k, |s.chains|)]
  }

  function Find(s: State, k: Key): (r: Option<nat>)
    requires Bounded(s)
    ensures r.Some? ==> r.value < |s.cells| && s.cells[r.value].key == k
  {
    var chain := ChainOf(s, k);
    var p := FindPos(s.cells, chain, k);
    if p < |chain| then Some(chain[p]) else None
  }

  function MoveToFront(chain: seq<nat>, p: nat): seq<nat>
    requires p < |chain|
  {
    [chain[p]] + Cut(chain, p)
  }

  /** The effect of `h_lookup`: a hit moves to the front of its chain. */
  function HLookup(s: State, k: Key): State
    requires Bounded(s)
  {
    var chain := ChainOf(s, k);
    var p := FindPos(s.cells, chain, k);
    if p < |chain| then s.(chains := s.chains[Bucket(k, |s.chains|) := MoveToFront(chain, p)]) else s
  }

  function HInsert(s: State, e: nat): State
    requires Bounded(s) && e < |s.cells|
  {
    var b := HomeBucket(s, e);
    s.(chains := s.chains[b := [e] + s.chains[b]])
  }

  /** `h_remove`: unlinks the first entry found under the key of `e`. */
  function HRemove(s: State, e: nat): State
    requires Bounded(s) && e < |s.cells|
  {
    var k := s.cells[e].key;
    var chain := ChainOf(s, k);
    var p := FindPos(s.cells, chain, k);
    if p < |chain| then s.(chains := s.chains[Bucket(k, |s.chains|) := Cut(chain, p)]) else s
  }

  // ---------------------------------------------------------------- critical sections

  /** Move a clean hit to the most recently used end. */
  function Touch(s: State, e: nat): State
    requires e < |s.cells|
  {
    if !s.cells[e].pending && !s.cells[e].dirty then AddTail(Delete(s, false, e), false, e) else s
  }

  function Lookup(s: State, k: Key): State
    requires Bounded(s)
  {
    match Find(s, k)
    case Some(e) => Touch(HLookup(s, k), e)
    case None => s
  }

  /** The tail of `lookup_mapping_with_insert`: a fresh dirty entry under `k`. */
  function InsertDirty(s: State, k: Key): State
    requires Bounded(s) && s.free != []
  {
    var e := s.free[0];
    AddTail(HInsert(SetCell(AllocEntry(s), e, Cell(false, true, true, k)), e), true, e)
  }

  function RemoveHit(s: State, k: Key): State
    requires Bounded(s) && Find(s, k).Some?
  {
    var e := Find(s, k).value;
    var s1 := HLookup(s, k);
    FreeEntry(HRemove(Delete(s1, s1.cells[e].dirty, e), e), e)
  }

  function Remove(s: State, k: Key): State
    requires Bounded(s)
  {
    if Find(s, k).Some? then RemoveHit(s, k) else s
  }

  function SetDirtyAfterWrite(s: State, c: nat): State
    requires c < |s.cells|
  {
    if !s.cells[c].alloc then s
    else if s.cells[c].pending then SetCell(s, c, s.cells[c].(dirty := true))
    else AddTail(SetCell(Delete(s, s.cells[c].dirty, c), c, s.cells[c].(dirty := true)), true, c)
  }

  function PromotionBegin(s: State, k: Key): State
    requires Bounded(s) && s.free != []
  {
    SetCell(AllocEntry(s), s.free[0], Cell(true, false, true, k))
  }

  function PromotionComplete(s: State, c: nat, ok: bool): State
    requires Bounded(s) && c < |s.cells|
  {
    var s1 := SetCell(s, c, s.cells[c].(pending := false));
    if ok then AddTail(HInsert(s1, c), s1.cells[c].dirty, c) else FreeEntry(s1, c)
  }

  /** Demotion runs only while more than half of the cache is clean. */
  predicate CanDemote(s: State) {
    |s.clean| > |s.cells| / 2
  }

  function DemotionBegin(s: State): State
    requires Bounded(s) && CanDemote(s)
  {
    var e := s.clean[0];
    SetCell(Delete(s, false, e), e, s.cells[e].(pending := true))
  }

  function DemotionComplete(s: State, c: nat, ok: bool): State
    requires Bounded(s) && c < |s.cells|
  {
    var s1 := SetCell(s, c, s.cells[c].(pending := false));
    if ok then FreeEntry(HRemove(s1, c), c) else AddTail(s1, s1.cells[c].dirty, c)
  }

  predicate CanWriteback(s: State)
    requires Bounded(s)
  {
    s.dirty != [] && !s.cells[s.dirty[0]].pending
  }

  function WritebackBegin(s: State): State
    requires Bounded(s) && CanWriteback(s)
  {
    var e := s.dirty[0];
    SetCell(Delete(s, true, e), e, s.cells[e].(pending := true, dirty := false))
  }

  function WritebackComplete(s: State, c: nat, ok: bool): State
    requires c < |s.cells|
  {
    var s1 := SetCell(s, c, s.cells[c].(pending := false));
    if ok then AddTail(s1, s1.cells[c].dirty, c) else AddHead(s1, s1.cells[c].dirty, c)
  }

  /** `init_mapping` on zeroed memory. */
  function InitState(n: nat, buckets: nat): State {
    State(
      seq(n, _ => Cell(false, false, false, Key([], 0))),
      seq(n, i => i), [], [], seq(buckets, _ => []), 0)
  }
}
