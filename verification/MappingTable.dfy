/**
 * The chained table as a finite map: lookup agrees with the map, move-to-front keeps
 * it, insertion and removal by key change it at one key.
 */
module MappingTable {
  import opened CacheTypes
  import opened Hash
  import opened MappingState
  import opened Sequences

  /** The chains alone are in order, whatever the lists hold. */
  ghost predicate ChainsInv(s: State) {
    && Bounded(s)
    && forall b :: 0 <= b < |s.chains| ==> ChainOk(s.cells, s.chains[b], b, |s.chains|)
  }

  ghost predicate KeyHashed(s: State, k: Key)
    requires Bounded(s)
  {
    exists i :: 0 <= i < |s.cells| && Hashed(s, i) && s.cells[i].key == k
  }

  /** Keys of hashed entries are pairwise different. */
  lemma HashedKeysAreUnique(s: State, i: nat, j: nat)
    requires ChainsInv(s) && i < |s.cells| && j < |s.cells|
    requires Hashed(s, i) && Hashed(s, j)
    ensures s.cells[i].key == s.cells[j].key ==> i == j
  {
    if s.cells[i].key == s.cells[j].key {
      var chain := ChainOf(s, s.cells[i].key);
      var p := IndexOf(chain, i);
      var q := IndexOf(chain, j);
      assert ChainOk(s.cells, chain, Bucket(s.cells[i].key, |s.chains|), |s.chains|);
      assert p == q;
    }
  }

  lemma OthersHaveOtherKeys(s: State, c: nat)
    requires ChainsInv(s) && c < |s.cells| && Hashed(s, c)
    ensures forall i :: 0 <= i < |s.cells| && Hashed(s, i) && i != c ==> s.cells[i].key != s.cells[c].key
  {
    forall i | 0 <= i < |s.cells| && Hashed(s, i)
      ensures s.cells[i].key == s.cells[c].key ==> i == c
    {
      HashedKeysAreUnique(s, i, c);
    }
  }

  /** Lookup finds an entry exactly when it is hashed under that key. */
  lemma FindIsExact(s: State, k: Key)
    requires ChainsInv(s)
    ensures Find(s, k).Some? <==> KeyHashed(s, k)
    ensures Find(s, k).Some? ==>
              var e := Find(s, k).value;
              e < |s.cells| && Hashed(s, e) && s.cells[e].key == k && s.cells[e].alloc
    ensures forall i :: 0 <= i < |s.cells| && Hashed(s, i) && s.cells[i].key == k ==> Find(s, k) == Some(i)
  {
    var chain := ChainOf(s, k);
    var p := FindPos(s.cells, chain, k);
    assert ChainOk(s.cells, chain, Bucket(k, |s.chains|), |s.chains|);
    if p < |chain| {
      assert Hashed(s, chain[p]);
    }
    forall i | 0 <= i < |s.cells| && Hashed(s, i) && s.cells[i].key == k
      ensures Find(s, k) == Some(i)
    {
      var j := IndexOf(chain, i);
      assert p <= j;
      HashedKeysAreUnique(s, chain[p], i);
    }
  }

  /** Replacing one chain by one holding other entries of the same bucket. */
  lemma ReplaceChain(s: State, b: nat, chain: seq<nat>)
    requires ChainsInv(s) && b < |s.chains|
    requires ChainOk(s.cells, chain, b, |s.chains|)
    ensures ChainsInv(s.(chains := s.chains[b := chain]))
    ensures forall i :: 0 <= i < |s.cells| ==>
              (Hashed(s.(chains := s.chains[b := chain]), i) <==>
               if HomeBucket(s, i) == b then i in chain else Hashed(s, i))
  {
    var t := s.(chains := s.chains[b := chain]);
    forall c | 0 <= c < |t.chains|
      ensures ChainOk(t.cells, t.chains[c], c, |t.chains|)
    {
      assert ChainOk(s.cells, s.chains[c], c, |s.chains|);
    }
  }

  lemma ChainDistinct(cells: seq<Cell>, chain: seq<nat>, b: nat, buckets: nat)
    requires 2 <= buckets && ChainOk(cells, chain, b, buckets)
    ensures NoDup(chain)
  {
    forall i, j | 0 <= i < j < |chain|
      ensures chain[i] != chain[j]
    {
      assert cells[chain[i]].key != cells[chain[j]].key;
    }
  }

  lemma CutChainOk(cells: seq<Cell>, chain: seq<nat>, b: nat, buckets: nat, p: nat)
    requires 2 <= buckets && ChainOk(cells, chain, b, buckets) && p < |chain|
    ensures ChainOk(cells, Cut(chain, p), b, buckets)
    ensures forall i :: i in Cut(chain, p) <==> i in chain && i != chain[p]
    ensures forall j :: 0 <= j < |Cut(chain, p)| ==>
              cells[Cut(chain, p)[j]].key != cells[chain[p]].key
  {
    ChainDistinct(cells, chain, b, buckets);
    CutKeepsDistinct(chain, p);
    var c := Cut(chain, p);
    assert forall j :: 0 <= j < |c| ==> c[j] == chain[if j < p then j else j + 1];
  }

  lemma ConsChainOk(cells: seq<Cell>, chain: seq<nat>, b: nat, buckets: nat, e: nat)
    requires 2 <= buckets && ChainOk(cells, chain, b, buckets)
    requires e < |cells| && cells[e].alloc && Bucket(cells[e].key, buckets) == b
    requires forall j :: 0 <= j < |chain| ==> cells[chain[j]].key != cells[e].key
    ensures ChainOk(cells, [e] + chain, b, buckets)
  {
  }

  /** Move-to-front changes the order of one chain and nothing that can be looked up. */
  lemma HLookupKeepsTable(s: State, k: Key)
    requires ChainsInv(s)
    ensures ChainsInv(HLookup(s, k))
    ensures forall i :: 0 <= i < |s.cells| ==> (Hashed(HLookup(s, k), i) <==> Hashed(s, i))
    ensures HLookup(s, k) == s.(chains := HLookup(s, k).chains)
    ensures |HLookup(s, k).chains| == |s.chains|
    ensures Find(s, k).None? ==> HLookup(s, k) == s
  {
    var b := Bucket(k, |s.chains|);
    var chain := ChainOf(s, k);
    var p := FindPos(s.cells, chain, k);
    assert ChainOk(s.cells, chain, b, |s.chains|);
    if p < |chain| {
      CutChainOk(s.cells, chain, b, |s.chains|, p);
      ConsChainOk(s.cells, Cut(chain, p), b, |s.chains|, chain[p]);
      ReplaceChain(s, b, MoveToFront(chain, p));
    }
  }

  /** Inserting under a fresh key hashes exactly one more entry. */
  lemma HInsertAddsOne(s: State, e: nat)
    requires ChainsInv(s) && e < |s.cells| && s.cells[e].alloc
    requires !KeyHashed(s, s.cells[e].key)
    ensures ChainsInv(HInsert(s, e))
    ensures forall i :: 0 <= i < |s.cells| ==> (Hashed(HInsert(s, e), i) <==> Hashed(s, i) || i == e)
  {
    var b := HomeBucket(s, e);
    var chain := s.chains[b];
    assert ChainOk(s.cells, chain, b, |s.chains|);
    forall j | 0 <= j < |chain|
      ensures s.cells[chain[j]].key != s.cells[e].key
    {
      assert Hashed(s, chain[j]);
    }
    ConsChainOk(s.cells, chain, b, |s.chains|, e);
    ReplaceChain(s, b, [e] + chain);
  }

  /** Removal searches by key, yet unlinks exactly the entry it was asked to. */
  lemma HRemoveRemovesItself(s: State, e: nat)
    requires ChainsInv(s) && e < |s.cells| && Hashed(s, e)
    ensures ChainsInv(HRemove(s, e))
    ensures forall i :: 0 <= i < |s.cells| ==> (Hashed(HRemove(s, e), i) <==> Hashed(s, i) && i != e)
    ensures !KeyHashed(HRemove(s, e), s.cells[e].key)
  {
    var k := s.cells[e].key;
    var b := Bucket(k, |s.chains|);
    var chain := ChainOf(s, k);
    var p := FindPos(s.cells, chain, k);
    assert ChainOk(s.cells, chain, b, |s.chains|);
    FindIsExact(s, k);
    CutChainOk(s.cells, chain, b, |s.chains|, p);
    ReplaceChain(s, b, Cut(chain, p));
    var t := HRemove(s, e);
    OthersHaveOtherKeys(s, e);
    assert forall i :: 0 <= i < |t.cells| && Hashed(t, i) ==> Hashed(s, i) && i != e;
  }

  /** Changing one cell keeps the table if a hashed cell keeps its key and allocation. */
  lemma SetCellKeepsTable(s: State, e: nat, c: Cell)
    requires ChainsInv(s) && e < |s.cells|
    requires Hashed(s, e) ==> c.alloc && c.key == s.cells[e].key
    requires !Hashed(s, e) ==> forall b :: 0 <= b < |s.chains| ==> e !in s.chains[b]
    ensures ChainsInv(SetCell(s, e, c))
    ensures forall i :: 0 <= i < |s.cells| ==> (Hashed(SetCell(s, e, c), i) <==> Hashed(s, i))
  {
    var t := SetCell(s, e, c);
    forall b | 0 <= b < |t.chains|
      ensures ChainOk(t.cells, t.chains[b], b, |t.chains|)
    {
      assert ChainOk(s.cells, s.chains[b], b, |s.chains|);
      forall j | 0 <= j < |t.chains[b]|
        ensures t.cells[t.chains[b][j]].alloc
        ensures t.cells[t.chains[b][j]].key == s.cells[t.chains[b][j]].key
      {
        assert t.chains[b][j] == e ==> Hashed(s, e);
      }
    }
  }

  /** An entry in any chain is hashed: a chain holds only entries of its own bucket. */
  lemma InChainIsHashed(s: State, b: nat, i: nat)
    requires ChainsInv(s) && b < |s.chains| && i in s.chains[b]
    ensures i < |s.cells| && Hashed(s, i) && s.cells[i].alloc
  {
    assert ChainOk(s.cells, s.chains[b], b, |s.chains|);
    var j := IndexOf(s.chains[b], i);
  }

  lemma UnhashedIsInNoChain(s: State, i: nat)
    requires ChainsInv(s) && i < |s.cells| && !Hashed(s, i)
    ensures forall b :: 0 <= b < |s.chains| ==> i !in s.chains[b]
  {
    forall b | 0 <= b < |s.chains| && i in s.chains[b]
      ensures false
    {
      InChainIsHashed(s, b, i);
    }
  }

  // ---------------------------------------------------------------- the table as a map

  /** The map from keys to entries that the chains stand for. */
  ghost function TableMap(s: State): (m: map<Key, nat>)
    requires ChainsInv(s)
    ensures forall i :: 0 <= i < |s.cells| && Hashed(s, i) ==> s.cells[i].key in m && m[s.cells[i].key] == i
    ensures forall k :: k in m ==> m[k] < |s.cells| && Hashed(s, m[k]) && s.cells[m[k]].key == k
  {
    var ks := set i | 0 <= i < |s.cells| && Hashed(s, i) :: s.cells[i].key;
    FindAll(s);
    map k | k in ks :: Find(s, k).value
  }

  lemma FindAll(s: State)
    requires ChainsInv(s)
    ensures forall i :: 0 <= i < |s.cells| && Hashed(s, i) ==> Find(s, s.cells[i].key) == Some(i)
  {
    forall i | 0 <= i < |s.cells| && Hashed(s, i)
      ensures Find(s, s.cells[i].key) == Some(i)
    {
      FindIsExact(s, s.cells[i].key);
    }
  }

  lemma MapsAgree(s: State, m: map<Key, nat>)
    requires ChainsInv(s)
    requires forall i :: 0 <= i < |s.cells| && Hashed(s, i) ==> s.cells[i].key in m && m[s.cells[i].key] == i
    requires forall k :: k in m ==> m[k] < |s.cells| && Hashed(s, m[k]) && s.cells[m[k]].key == k
    ensures m == TableMap(s)
  {
    var t := TableMap(s);
    forall k | k in m
      ensures k in t && t[k] == m[k]
    {
      var i := m[k];
      assert Hashed(s, i) && s.cells[i].key == k;
    }
    forall k | k in t
      ensures k in m
    {
      var i := t[k];
      assert Hashed(s, i) && s.cells[i].key == k;
    }
  }

  /** Lookup in the chains is lookup in the map. */
  lemma FindIsMapLookup(s: State, k: Key)
    requires ChainsInv(s)
    ensures Find(s, k) == if k in TableMap(s) then Some(TableMap(s)[k]) else None
  {
    FindIsExact(s, k);
  }

  lemma HLookupKeepsMap(s: State, k: Key)
    requires ChainsInv(s)
    ensures ChainsInv(HLookup(s, k)) && TableMap(HLookup(s, k)) == TableMap(s)
  {
    HLookupKeepsTable(s, k);
    MapsAgree(HLookup(s, k), TableMap(s));
  }

  lemma HInsertUpdatesMap(s: State, e: nat)
    requires ChainsInv(s) && e < |s.cells| && s.cells[e].alloc
    requires s.cells[e].key !in TableMap(s)
    ensures ChainsInv(HInsert(s, e))
    ensures TableMap(HInsert(s, e)) == TableMap(s)[s.cells[e].key := e]
  {
    assert !KeyHashed(s, s.cells[e].key);
    HInsertAddsOne(s, e);
    MapsAgree(HInsert(s, e), TableMap(s)[s.cells[e].key := e]);
  }

  /** Losing one hashed entry and no other removes one key from the map. */
  lemma UnhashingUpdatesMap(s: State, t: State, e: nat)
    requires ChainsInv(s) && ChainsInv(t) && |t.cells| == |s.cells|
    requires e < |s.cells| && Hashed(s, e)
    requires forall i :: 0 <= i < |s.cells| ==> t.cells[i].key == s.cells[i].key
    requires forall i :: 0 <= i < |s.cells| ==> (Hashed(t, i) <==> Hashed(s, i) && i != e)
    ensures TableMap(t) == TableMap(s) - {s.cells[e].key}
  {
    var m := TableMap(s) - {s.cells[e].key};
    OthersHaveOtherKeys(s, e);
    MapsAgree(t, m);
  }

  lemma HRemoveUpdatesMap(s: State, e: nat)
    requires ChainsInv(s) && e < |s.cells| && Hashed(s, e)
    ensures ChainsInv(HRemove(s, e))
    ensures TableMap(HRemove(s, e)) == TableMap(s) - {s.cells[e].key}
  {
    HRemoveRemovesItself(s, e);
    UnhashingUpdatesMap(s, HRemove(s, e), e);
  }
}
