/** A whole request is its lookup, its transfer and its mark with nobody in between. */
module WholeRequests {
  import opened CacheTypes
  import opened CacheStore
  import opened FlatStore
  import opened MappingState
  import opened MappingTable
  import opened Protocol
  import opened RequestSteps

  lemma IdleAgain(users: seq<Pending>, u: nat, p: Pending)
    requires u < |users| && users[u].Nothing?
    ensures users[u := p][u := Nothing] == users
  {
    assert users[u := p][u := Nothing] == users;
  }

  /** A read is its lookup and its transfer, and shows what the transfer shows. */
  lemma ReadIsItsSteps(d: Store, u: nat, path: Path, page: nat, count: nat)
    requires ProtocolInv(d.sys) && StoreSane(d) && CanDo(d, StartRead(u, path, page, count))
    ensures CanDo(d, Read(path, page, count))
    ensures var d1 := Do(d, StartRead(u, path, page, count));
            && StoreSane(d1) && CanDo(d1, Transfer(u))
            && Do(d1, Transfer(u)) == Do(d, Read(path, page, count))
            && EventOf(d1, Transfer(u)) == EventOf(d, Read(path, page, count))
  {
    StartReadIsSane(d, u, path, page, count);
    IdleAgain(d.users, u, ToRead(path, page, count, Find(d.sys.m, KeyOf(path, page))));
  }

  lemma StartReadIsSane(d: Store, u: nat, path: Path, page: nat, count: nat)
    requires ProtocolInv(d.sys) && StoreSane(d) && CanDo(d, StartRead(u, path, page, count))
    ensures StoreSane(DoStartRead(d, u, path, page, count))
  {
    FindIsExact(d.sys.m, KeyOf(path, page));
    LookupIsQuiet(d.sys, KeyOf(path, page));
  }

  lemma LookupOfWrite(s: Sys, k: Key, full: bool)
    requires ProtocolInv(s)
    ensures var t := AfterWriteLookup(s, k, full);
            && ProtocolInv(t) && t.w == s.w && |t.m.cells| == |s.m.cells|
            && (WriteTarget(s, k, full).Some? ==> WriteTarget(s, k, full).value < |s.m.cells|)
  {
    if Find(s.m, k).Some? {
      LookupIsQuiet(s, k);
    } else if WriteTarget(s, k, full).Some? {
      InsertStep(s, k);
      InsertionForm(s, k);
    } else {
      MissOnlyQueues(s, k, full);
    }
  }

  lemma StartWriteIsSane(d: Store, u: nat, path: Path, page: nat, data: seq<Data>)
    requires ProtocolInv(d.sys) && StoreSane(d) && CanDo(d, StartWrite(u, path, page, data))
    ensures StoreSane(DoStartWrite(d, u, path, page, data))
  {
    LookupOfWrite(d.sys, KeyOf(path, page), Overwritable(page % PAGES, |data|));
  }

  /** A write that misses and inserts nothing is its lookup and its transfer. */
  lemma MissedWriteIsItsSteps(d: Store, u: nat, path: Path, page: nat, data: seq<Data>)
    requires ProtocolInv(d.sys) && StoreSane(d) && CanDo(d, StartWrite(u, path, page, data))
    requires WriteTarget(d.sys, KeyOf(path, page), Overwritable(page % PAGES, |data|)).None?
    ensures var d1 := Do(d, StartWrite(u, path, page, data));
            && StoreSane(d1) && CanDo(d1, Transfer(u))
            && Do(d1, Transfer(u)) == Do(d, Write(path, page, data))
            && EventOf(d1, Transfer(u)) == EventOf(d, Write(path, page, data))
  {
    StartWriteIsSane(d, u, path, page, data);
    IdleAgain(d.users, u, ToWrite(path, page, data, None));
  }

  /** Any other write is its lookup, its transfer and its mark; the transfer is what shows. */
  lemma WriteIsItsSteps(d: Store, u: nat, path: Path, page: nat, data: seq<Data>)
    requires ProtocolInv(d.sys) && StoreSane(d) && CanDo(d, StartWrite(u, path, page, data))
    requires WriteTarget(d.sys, KeyOf(path, page), Overwritable(page % PAGES, |data|)).Some?
    ensures var d1 := Do(d, StartWrite(u, path, page, data));
            && StoreSane(d1) && CanDo(d1, Transfer(u))
            && var d2 := Do(d1, Transfer(u));
               && StoreSane(d2) && CanDo(d2, Mark(u))
               && Do(d2, Mark(u)) == Do(d, Write(path, page, data))
               && EventOf(d1, Transfer(u)) == EventOf(d, Write(path, page, data))
  {
    StartWriteIsSane(d, u, path, page, data);
    TransferIsSane(DoStartWrite(d, u, path, page, data), u);
    WriteOp(d, Write(path, page, data));
    StepsMakeWrite(d, u, path, page, data);
  }

  lemma StepsMakeWrite(d: Store, u: nat, path: Path, page: nat, data: seq<Data>)
    requires StoreSane(d) && CanDo(d, StartWrite(u, path, page, data))
    requires WriteTarget(d.sys, KeyOf(path, page), Overwritable(page % PAGES, |data|)).Some?
    requires var d1 := DoStartWrite(d, u, path, page, data);
             StoreSane(d1) && CanDo(d1, Transfer(u)) && StoreSane(DoTransfer(d1, u))
    ensures var d2 := DoTransfer(DoStartWrite(d, u, path, page, data), u);
            CanDo(d2, Mark(u)) && DoMark(d2, u) == DoWrite(d, KeyOf(path, page), page % PAGES, data)
  {
    var c := WriteTarget(d.sys, KeyOf(path, page), Overwritable(page % PAGES, |data|));
    assert d.users[u := ToWrite(path, page, data, c)][u := ToMark(c.value)][u := Nothing] == d.users;
  }

  lemma TransferIsSane(d: Store, u: nat)
    requires StoreSane(d) && CanDo(d, Transfer(u))
    ensures StoreSane(DoTransfer(d, u))
  {
    assert UserSane(d.users[u], |d.ssd|);
  }
}
