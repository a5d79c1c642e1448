/**
 * The data layer: origin pages, SSD blocks and the worker's DMA buffer on top of the
 * protocol. A migration is split into its begin section, each device transfer and its
 * complete section, a request into its lookup section, its device transfer and, for a
 * write to the SSD, the section that marks the block dirty. `Read` and `Write` are whole
 * requests with nobody in between.
 */
module CacheStore {
  import opened CacheTypes
  import opened FlatStore
  import opened MappingState
  import opened MappingTable
  import opened Protocol

  type Origin = o: imap<Key, Block> | forall k: Key :: k in o
    ghost witness imap k: Key | true :: ZERO_BLOCK

  /** How far `mg_start` has got with the migration in flight. */
  datatype Io = NotStarted | Loaded(buf: Block) | Stored | Trimmed(block: nat)

  /** Where a user thread is: what its lookup told it to do next, or which block it has to mark. */
  datatype Pending =
    | Nothing
    | ToRead(path: Path, page: nat, count: nat, from: Option<nat>)
    | ToWrite(path: Path, page: nat, data: seq<Data>, to: Option<nat>)
    | ToMark(block: nat)

  /** `unwritten` are the blocks inserted by a full write whose data has not arrived yet. */
  datatype Store = Store(
    sys: Sys,
    io: Io,
    ssd: seq<Block>,
    origin: Origin,
    users: seq<Pending>,
    unwritten: set<nat>)

  datatype Op =
    | Read(path: Path, page: nat, count: nat)
    | Write(path: Path, page: nat, data: seq<Data>)
    | Discard(path: Path, page: nat, count: nat)
    | StartRead(u: nat, path: Path, page: nat, count: nat)
    | StartWrite(u: nat, path: Path, page: nat, data: seq<Data>)
    | Transfer(u: nat)
    | Mark(u: nat)
    | WorkerPeek
    | BeginPromotion
    | PromotionLoad
    | PromotionStore
    | EndPromotion(ok: bool)
    | BeginDemotion
    | Trim(block: nat, junk: Block)
    | EndDemotion
    | BeginWriteback
    | WritebackLoad
    | WritebackStore
    | EndWriteback(ok: bool)
    | WorkerPop

  /** The block number `do_migration_work` passes on to the trim of a demotion. */
  const TRIM_BLOCK: nat := 0

  // ---------------------------------------------------------------- requests

  /** A request must stay inside one cache block, otherwise it is rejected. */
  predicate CheckPio(page: nat, count: nat) {
    PAGES - page % PAGES >= count
  }

  /** Whether a write covers its whole block, so that it may be inserted on a miss. */
  predicate Overwritable(page: nat, count: nat) {
    count == PAGES && page % PAGES == 0
  }

  /** The block a write goes to: a hit, for a full block also a fresh entry, otherwise none. */
  function WriteTarget(s: Sys, k: Key, full: bool): Option<nat>
    requires Bounded(s.m)
  {
    if full then LookupInsertResult(s, k) else Find(s.m, k)
  }

  function AfterWriteLookup(s: Sys, k: Key, full: bool): Sys
    requires Bounded(s.m)
  {
    if full then ApplyLookupInsert(s, k) else ApplyLookup(s, k)
  }

  // ---------------------------------------------------------------- well-formed states

  predicate UserSane(p: Pending, blocks: nat) {
    match p
    case Nothing => true
    case ToRead(_, page, count, from) =>
      page < 0x10_0000 && 0 < count && CheckPio(page, count) && (from.Some? ==> from.value < blocks)
    case ToWrite(_, page, data, to) =>
      page < 0x10_0000 && data != [] && CheckPio(page, |data|) && (to.Some? ==> to.value < blocks)
    case ToMark(c) => c < blocks
  }

  predicate StoreSane(d: Store) {
    && Sane(d.sys)
    && |d.ssd| == |d.sys.m.cells|
    && (forall u :: 0 <= u < |d.users| ==> UserSane(d.users[u], |d.ssd|))
    && match d.io
       case NotStarted => true
       case Loaded(_) => d.sys.w.Promoting? || d.sys.w.WritingBack?
       case Stored => d.sys.w.Promoting? || d.sys.w.WritingBack?
       case Trimmed(_) => d.sys.w.Demoting?
  }

  /** The key of the entry in flight, if there is one. */
  function FlightKey(d: Store): Key
    requires StoreSane(d) && d.sys.w.Busy()
  {
    d.sys.m.cells[d.sys.w.cblock].key
  }

  /**
   * The worker's program order. Requests may come at any time, within 32-bit file offsets
   * and with at least one page; a discard must not hit an entry in flight.
   */
  predicate CanDo(d: Store, op: Op)
    requires StoreSane(d)
  {
    match op
    case Read(_, page, count) => page < 0x10_0000 && 0 < count
    case Write(_, page, data) => page < 0x10_0000 && data != []
    case Discard(path, page, count) =>
      page < 0x10_0000 && (CheckPio(page, count) ==> Enabled(d.sys, Remove(KeyOf(path, page))))
    case StartRead(u, _, page, count) =>
      u < |d.users| && d.users[u].Nothing? && page < 0x10_0000 && 0 < count && CheckPio(page, count)
    case StartWrite(u, _, page, data) =>
      u < |d.users| && d.users[u].Nothing? && page < 0x10_0000 && data != [] && CheckPio(page, |data|)
    case Transfer(u) => u < |d.users| && (d.users[u].ToRead? || d.users[u].ToWrite?)
    case Mark(u) => u < |d.users| && d.users[u].ToMark?
    case WorkerPeek => d.sys.w.Idle?
    case BeginPromotion => d.sys.w.Peeked?
    case PromotionLoad => d.sys.w.Promoting? && d.io.NotStarted?
    case PromotionStore => d.sys.w.Promoting? && d.io.Loaded?
    case EndPromotion(ok) => d.sys.w.Promoting? && (ok ==> d.io.Stored?)
    case BeginDemotion => d.sys.w.NoFree?
    case Trim(_, _) => d.sys.w.Demoting? && d.io.NotStarted?
    case EndDemotion => d.sys.w.Demoting? && d.io.Trimmed?
    case BeginWriteback => d.sys.w.NoClean?
    case WritebackLoad => d.sys.w.WritingBack? && d.io.NotStarted?
    case WritebackStore => d.sys.w.WritingBack? && d.io.Loaded?
    case EndWriteback(ok) => d.sys.w.WritingBack? && (ok ==> d.io.Stored?)
    case WorkerPop => d.sys.w.Completed? && d.sys.queue != []
  }

  /** Block `c` is the one looked up under key `k`, and its data is not trimmed away or still to come. */
  predicate Current(d: Store, c: nat, k: Key)
    requires StoreSane(d)
  {
    && c < |d.ssd| && Hashed(d.sys.m, c) && d.sys.m.cells[c].key == k
    && c !in d.unwritten && !(d.io == Trimmed(c) && d.sys.w.Holds(c))
  }

  /** If key `k` is cached, then currently. */
  predicate Served(d: Store, k: Key)
    requires StoreSane(d)
  {
    match Find(d.sys.m, k)
    case Some(c) => Current(d, c, k)
    case None => true
  }

  /** The data of block `c` has yet to arrive, or has arrived but is not marked dirty. */
  predicate Unsettled(d: Store, c: nat) {
    c in d.unwritten || ToMark(c) in d.users
  }

  /** The entry in flight is dirty again, or about to be marked so. */
  predicate WrittenAgain(d: Store)
    requires StoreSane(d) && d.sys.w.Busy()
  {
    d.sys.m.cells[d.sys.w.cblock].dirty || Unsettled(d, d.sys.w.cblock)
  }

  /** Block `c` is being demoted. */
  predicate IsVictim(d: Store, c: nat) {
    d.sys.w.Demoting? && d.sys.w.Holds(c)
  }

  /** Nothing newer than the origin's block is cached under `k`. */
  predicate OriginServes(d: Store, k: Key)
    requires StoreSane(d)
  {
    match Find(d.sys.m, k)
    case None => true
    case Some(c) =>
      || IsVictim(d, c)
      || (&& !d.sys.m.cells[c].dirty && !Unsettled(d, c)
          && (d.sys.w.WritingBack? && d.sys.w.Holds(c) ==> d.io.Stored?))
  }

  /** The device transfer of user `u` still finds things as its lookup left them, or no worse. */
  predicate SafeTransfer(d: Store, u: nat)
    requires StoreSane(d) && CanDo(d, Transfer(u))
  {
    match d.users[u]
    case ToRead(path, page, _, Some(c)) => Current(d, c, KeyOf(path, page)) || Promoted(d, c, KeyOf(path, page))
    case ToRead(path, page, _, None) => OriginServes(d, KeyOf(path, page))
    case ToWrite(path, page, data, Some(c)) =>
      var k, full := KeyOf(path, page), Overwritable(page % PAGES, |data|);
      if Serves(d.sys, c, k) then !IsVictim(d, c) else Superseded(d, c, k, full)
    case ToWrite(path, page, _, None) => MayWriteOrigin(d, KeyOf(path, page))
    case _ => true
  }

  /** Block `c` holds key `k` for lookups. */
  predicate Serves(s: Sys, c: nat, k: Key)
    requires Sane(s)
  {
    c < |s.m.cells| && Hashed(s.m, c) && s.m.cells[c].key == k
  }

  /** Block `c` has been freed and filled again from the origin under the same key. */
  predicate Promoted(d: Store, c: nat, k: Key)
    requires StoreSane(d)
  {
    d.sys.w.Promoting? && d.sys.w.Holds(c) && d.io.Stored? && FlightKey(d) == k
  }

  /**
   * A write to block `c`, no longer that of key `k`, is of no consequence: what is cached
   * under `k` is about to be written in full, and so is `c`, or it is trimmed, or nobody
   * looks it up.
   */
  predicate Superseded(d: Store, c: nat, k: Key, full: bool)
    requires StoreSane(d) && c < |d.ssd|
  {
    && Find(d.sys.m, k).Some? && Find(d.sys.m, k).value in d.unwritten
    && if Hashed(d.sys.m, c) then (d.io == Trimmed(c) && d.sys.w.Holds(c)) || (c in d.unwritten && !full)
       else !(d.sys.w.Promoting? && d.sys.w.Holds(c) && d.io.Stored?)
  }

  /**
   * The origin may be written under `k`: the block is not cached and its image has not been
   * read for a promotion, or its SSD block is trimmed or still to be written in full.
   */
  predicate MayWriteOrigin(d: Store, k: Key)
    requires StoreSane(d)
  {
    match Find(d.sys.m, k)
    case None => d.sys.w.Promoting? && !d.io.NotStarted? ==> k != FlightKey(d)
    case Some(c) => !Current(d, c, k)
  }

  /**
   * What the code relies on without enforcing it.
   * - no read of the block being demoted once its own SSD block is trimmed, nor of an
   *   inserted block before its data is there;
   * - no write to the block being demoted;
   * - no write to a block under promotion once its image has been read from the origin;
   * - the trim hits the victim's block, one that nobody looks up or one whose data is still
   *   to come;
   * - a write-back fails only if its block was written again meanwhile or has reached the
   *   origin;
   * - no block is picked for demotion before a write to it is marked;
   * - the transfer of a request is not overtaken by what would send it elsewhere now.
   * All of it is about the control state, nothing about contents.
   */
  predicate Safe(d: Store, op: Op)
    requires StoreSane(d) && CanDo(d, op)
  {
    match op
    case Read(path, page, count) => CheckPio(page, count) ==> Served(d, KeyOf(path, page))
    case Write(path, page, data) =>
      CheckPio(page, |data|) && (d.sys.w.Demoting? || (d.sys.w.Promoting? && !d.io.NotStarted?)) ==>
        KeyOf(path, page) != FlightKey(d)
    case Trim(block, _) => TrimIsHarmless(d, block)
    case EndWriteback(ok) => ok || WrittenAgain(d) || d.io.Stored?
    case BeginDemotion => CanDemote(d.sys.m) ==> !Unsettled(d, d.sys.m.clean[0])
    case Transfer(u) => SafeTransfer(d, u)
    case _ => true
  }

  predicate TrimIsHarmless(d: Store, b: nat)
    requires StoreSane(d)
  {
    d.sys.w.Holds(b) || b in d.unwritten || !(b < |d.sys.m.cells| && Hashed(d.sys.m, b))
  }

  /**
   * What discards rely on besides, because they expose what is at the origin.
   * - a write-back does not read an inserted block before its data is there;
   * - the origin is not written in part under a block that is still to be written in full.
   */
  predicate KeepsOrigin(d: Store, op: Op)
    requires StoreSane(d) && CanDo(d, op)
  {
    match op
    case WritebackLoad => d.sys.w.cblock !in d.unwritten
    case Transfer(u) => KeepsOriginTransfer(d, u)
    case _ => true
  }

  predicate KeepsOriginTransfer(d: Store, u: nat)
    requires StoreSane(d) && CanDo(d, Transfer(u))
  {
    match d.users[u]
    case ToWrite(path, page, data, None) =>
      match Find(d.sys.m, KeyOf(path, page)) {
        case None => true
        case Some(c) => c in d.unwritten ==> Overwritable(page % PAGES, |data|)
      }
    case _ => true
  }

  /**
   * Which runs are considered: the code as written, whose trims name block 0; the same
   * where every step is `Safe`; or the design it is meant to have, where a trim names the
   * victim's own block and every other step is `Safe`. With `origin` every step also
   * satisfies `KeepsOrigin`.
   */
  datatype Rules = AsWritten | Careful(origin: bool) | OwnTrims(origin: bool)

  predicate Allowed(d: Store, op: Op, rules: Rules)
    requires StoreSane(d) && CanDo(d, op)
  {
    match rules
    case AsWritten => op.Trim? ==> op.block == TRIM_BLOCK
    case Careful(origin) =>
      (op.Trim? ==> op.block == TRIM_BLOCK) && Safe(d, op) && (origin ==> KeepsOrigin(d, op))
    case OwnTrims(origin) =>
      if op.Trim? then op.block == d.sys.w.cblock else Safe(d, op) && (origin ==> KeepsOrigin(d, op))
  }

  // ---------------------------------------------------------------- steps

  /** What a read returns. */
  ghost function ReadResult(d: Store, k: Key, at: nat, count: nat): seq<Data>
    requires StoreSane(d) && at + count <= PAGES
  {
    Visible(d, k)[at..at + count]
  }

  /** The block a request under key `k` is served from. */
  ghost function Visible(d: Store, k: Key): Block
    requires StoreSane(d)
  {
    match Find(d.sys.m, k)
    case Some(c) => d.ssd[c]
    case None => d.origin[k]
  }

  ghost function DoWrite(d: Store, k: Key, at: nat, data: seq<Data>): Store
    requires StoreSane(d) && at + |data| <= PAGES
  {
    var full := Overwritable(at, |data|);
    var s := AfterWriteLookup(d.sys, k, full);
    match WriteTarget(d.sys, k, full)
    case Some(c) =>
      d.(sys := s.(m := SetDirtyAfterWrite(s.m, c)), ssd := d.ssd[c := Patch(d.ssd[c], at, data)],
         unwritten := if full then d.unwritten - {c} else d.unwritten)
    case None => d.(sys := s, origin := d.origin[k := Patch(d.origin[k], at, data)])
  }

  /** The lookup section of a request. */
  function DoStartRead(d: Store, u: nat, path: Path, page: nat, count: nat): Store
    requires StoreSane(d) && u < |d.users| && page < U32
  {
    d.(sys := ApplyLookup(d.sys, KeyOf(path, page)),
       users := d.users[u := ToRead(path, page, count, Find(d.sys.m, KeyOf(path, page)))])
  }

  /** What the lookup section of a write does besides telling where to write. */
  function WriteLookup(d: Store, k: Key, full: bool): Store
    requires StoreSane(d)
  {
    var to := WriteTarget(d.sys, k, full);
    d.(sys := AfterWriteLookup(d.sys, k, full),
       unwritten := if Find(d.sys.m, k).None? && to.Some? then d.unwritten + {to.value} else d.unwritten)
  }

  function DoStartWrite(d: Store, u: nat, path: Path, page: nat, data: seq<Data>): Store
    requires StoreSane(d) && u < |d.users| && page < U32
  {
    var k, full := KeyOf(path, page), Overwritable(page % PAGES, |data|);
    WriteLookup(d, k, full).(users := d.users[u := ToWrite(path, page, data, WriteTarget(d.sys, k, full))])
  }

  /** The device transfer of a request. */
  ghost function DoTransfer(d: Store, u: nat): Store
    requires StoreSane(d) && CanDo(d, Transfer(u))
  {
    match d.users[u]
    case ToWrite(path, page, data, Some(c)) =>
      d.(ssd := d.ssd[c := Patch(d.ssd[c], page % PAGES, data)], users := d.users[u := ToMark(c)],
         unwritten := if Overwritable(page % PAGES, |data|) then d.unwritten - {c} else d.unwritten)
    case ToWrite(path, page, data, None) =>
      var k := KeyOf(path, page);
      d.(origin := d.origin[k := Patch(d.origin[k], page % PAGES, data)], users := d.users[u := Nothing])
    case _ => d.(users := d.users[u := Nothing])
  }

  ghost function TransferEvent(d: Store, u: nat): Event
    requires StoreSane(d) && CanDo(d, Transfer(u))
  {
    match d.users[u]
    case ToRead(path, page, count, from) =>
      var b := if from.Some? then d.ssd[from.value] else d.origin[KeyOf(path, page)];
      DidRead(path, page, b[page % PAGES..page % PAGES + count])
    case ToWrite(path, page, data, _) => DidWrite(path, page, data)
    case _ => Internal
  }

  /** `set_dirty_after_write`. */
  function DoMark(d: Store, u: nat): Store
    requires StoreSane(d) && CanDo(d, Mark(u))
  {
    d.(sys := d.sys.(m := SetDirtyAfterWrite(d.sys.m, d.users[u].block)), users := d.users[u := Nothing])
  }

  function DoDiscard(d: Store, k: Key): Store
    requires StoreSane(d) && Enabled(d.sys, Step.Remove(k))
  {
    d.(sys := Apply(d.sys, Step.Remove(k)),
       unwritten := match Find(d.sys.m, k) case Some(c) => d.unwritten - {c} case None => d.unwritten)
  }

  function DoTrim(d: Store, b: nat, junk: Block): Store {
    d.(io := Trimmed(b), ssd := if b < |d.ssd| then d.ssd[b := junk] else d.ssd)
  }

  ghost function Do(d: Store, op: Op): Store
    requires StoreSane(d) && CanDo(d, op)
  {
    match op
    case Read(path, page, count) =>
      if CheckPio(page, count) then d.(sys := ApplyLookup(d.sys, KeyOf(path, page))) else d
    case Write(path, page, data) =>
      if CheckPio(page, |data|) then DoWrite(d, KeyOf(path, page), page % PAGES, data) else d
    case Discard(path, page, count) =>
      if CheckPio(page, count) then DoDiscard(d, KeyOf(path, page)) else d
    case StartRead(u, path, page, count) => DoStartRead(d, u, path, page, count)
    case StartWrite(u, path, page, data) => DoStartWrite(d, u, path, page, data)
    case Transfer(u) => DoTransfer(d, u)
    case Mark(u) => DoMark(d, u)
    case WorkerPeek => d.(sys := Apply(d.sys, Peek))
    case BeginPromotion => d.(sys := Apply(d.sys, TryPromotion))
    case PromotionLoad => d.(io := Loaded(d.origin[FlightKey(d)]))
    case PromotionStore => d.(io := Stored, ssd := d.ssd[d.sys.w.cblock := d.io.buf])
    case EndPromotion(ok) => d.(sys := Apply(d.sys, PromotionDone(ok)), io := NotStarted)
    case BeginDemotion => d.(sys := Apply(d.sys, TryDemotion))
    case Trim(block, junk) => DoTrim(d, block, junk)
    case EndDemotion => d.(sys := Apply(d.sys, DemotionDone(true)), io := NotStarted)
    case BeginWriteback => d.(sys := Apply(d.sys, TryWriteback))
    case WritebackLoad => d.(io := Loaded(d.ssd[d.sys.w.cblock]))
    case WritebackStore => d.(io := Stored, origin := d.origin[FlightKey(d) := d.io.buf])
    case EndWriteback(ok) => d.(sys := Apply(d.sys, WritebackDone(ok)), io := NotStarted)
    case WorkerPop => d.(sys := Apply(d.sys, PopWork))
  }

  /** What a step shows to the outside. */
  ghost function EventOf(d: Store, op: Op): Event
    requires StoreSane(d) && CanDo(d, op)
  {
    match op
    case Read(path, page, count) =>
      if CheckPio(page, count)
      then DidRead(path, page, ReadResult(d, KeyOf(path, page), page % PAGES, count)) else Internal
    case Write(path, page, data) =>
      if CheckPio(page, |data|) then DidWrite(path, page, data) else Internal
    case Discard(path, page, count) =>
      if CheckPio(page, count)
      then DidDiscard(KeyOf(path, page), d.origin[KeyOf(path, page)]) else Internal
    case Transfer(u) => TransferEvent(d, u)
    case _ => Internal
  }

  // ---------------------------------------------------------------- the invariant

  /**
   * A hashed entry holds the current block of its key, unless it is the victim and trimmed
   * or its data is still to come.
   */
  ghost predicate CachedCurrent(d: Store, f: Flat)
    requires StoreSane(d)
  {
    forall c :: 0 <= c < |d.ssd| && Hashed(d.sys.m, c) && Current(d, c, d.sys.m.cells[c].key) ==>
                  d.ssd[c] == FlatBlock(f, d.sys.m.cells[c].key)
  }

  /** A key that is not hashed has its current block at the origin. */
  ghost predicate UncachedCurrent(d: Store, f: Flat)
    requires StoreSane(d)
  {
    forall k: Key :: !KeyHashed(d.sys.m, k) ==> d.origin[k] == FlatBlock(f, k)
  }

  /** So does a hashed entry that is neither dirty nor unsettled nor being written back. */
  ghost predicate CleanCurrent(d: Store, f: Flat)
    requires StoreSane(d)
  {
    forall c :: 0 <= c < |d.ssd| && Hashed(d.sys.m, c) && !d.sys.m.cells[c].dirty && !Unsettled(d, c)
                && !(d.sys.w.WritingBack? && d.sys.w.Holds(c)) ==>
                  d.origin[d.sys.m.cells[c].key] == FlatBlock(f, d.sys.m.cells[c].key)
  }

  /**
   * The images a promotion has in hand are current; those of a write-back are as long as
   * its entry stays clean and settled; the victim of a demotion is current at the origin.
   */
  ghost predicate FlightCurrent(d: Store, f: Flat)
    requires StoreSane(d)
  {
    d.sys.w.Busy() ==>
      var c := d.sys.w.cblock;
      var now := FlatBlock(f, FlightKey(d));
      && (d.sys.w.Demoting? ==> d.origin[FlightKey(d)] == now && c !in d.unwritten)
      && (d.sys.w.Promoting? || !WrittenAgain(d) ==>
            && (d.io.Loaded? ==> d.io.buf == now)
            && (d.io.Stored? && d.sys.w.Promoting? ==> d.ssd[c] == now)
            && (d.io.Stored? && d.sys.w.WritingBack? ==> d.origin[FlightKey(d)] == now))
  }

  /** Only looked up blocks wait for their data. */
  ghost predicate UnwrittenHashed(d: Store)
    requires StoreSane(d)
  {
    forall c: nat :: c in d.unwritten ==> c < |d.ssd| && Hashed(d.sys.m, c)
  }

  ghost predicate StoreInv(d: Store, f: Flat) {
    && ProtocolInv(d.sys) && StoreSane(d) && UnwrittenHashed(d)
    && CachedCurrent(d, f) && UncachedCurrent(d, f) && CleanCurrent(d, f) && FlightCurrent(d, f)
  }
}
