/**
 * The chained hash table threaded through `hashNext` of the shared array: one chain of
 * entry indexes per bucket, with move-to-front on lookup.
 */
module HashChains {
  import opened CacheTypes
  import opened Hash
  import opened IndexList
  import opened MappingState
  import opened Sequences

  /** The flag and key part of the entry array. */
  function Cells(es: seq<Entry>): (c: seq<Cell>)
    ensures |c| == |es|
    ensures forall i :: 0 <= i < |es| ==> c[i] == es[i].cell
  {
    seq(|es|, i requires 0 <= i < |es| => es[i].cell)
  }

  ghost predicate ChainedAt(es: seq<Entry>, c: seq<nat>, i: nat)
    requires i < |c|
  {
    c[i] < |es| && es[c[i]].hashNext == After(c, i)
  }

  /** Following `hashNext` from `first` spells out `c`; a chain repeats no entry, so it ends. */
  ghost predicate Chained(es: seq<Entry>, first: nat, c: seq<nat>) {
    && first == First(c) && NoDup(c) && InRange(c, |es|)
    && forall i :: 0 <= i < |c| ==> ChainedAt(es, c, i)
  }

  /** The arrays agree on everything but `hashNext`, and on the entries outside `c`. */
  ghost predicate OnlyChainIn(es: seq<Entry>, es': seq<Entry>, c: seq<nat>) {
    && |es'| == |es|
    && (forall i :: 0 <= i < |es| ==>
          es'[i].cell == es[i].cell && es'[i].prev == es[i].prev && es'[i].next == es[i].next)
    && (forall i :: 0 <= i < |es| && i !in c ==> es'[i] == es[i])
  }

  lemma ChainFrame(es: seq<Entry>, es': seq<Entry>, first: nat, c: seq<nat>)
    requires Chained(es, first, c) && |es'| == |es|
    requires forall x :: x in c && x < |es| ==> es'[x].hashNext == es[x].hashNext
    ensures Chained(es', first, c)
  {
    forall i | 0 <= i < |c|
      ensures ChainedAt(es', c, i)
    {
      assert ChainedAt(es, c, i) && c[i] in c;
    }
  }

  lemma InsertPrepends(es: seq<Entry>, first: nat, c: seq<nat>, e: nat)
    requires Chained(es, first, c) && e < |es| && e !in c
    ensures Chained(es[e := es[e].(hashNext := first)], e, [e] + c)
  {
    var es', t := es[e := es[e].(hashNext := first)], [e] + c;
    AppendKeepsDistinct(c, e);
    forall i | 0 <= i < |t|
      ensures ChainedAt(es', t, i)
    {
      if i > 0 {
        assert ChainedAt(es, c, i - 1) && t[i] == c[i - 1] && t[i] in c;
      }
    }
  }

  /** Unlinking the entry at position `p` with its predecessor in hand. */
  function UnlinkAt(es: seq<Entry>, c: seq<nat>, p: nat): seq<Entry>
    requires p < |c| && InRange(c, |es|)
  {
    if p > 0 then es[c[p - 1] := es[c[p - 1]].(hashNext := es[c[p]].hashNext)] else es
  }

  lemma UnlinkCuts(es: seq<Entry>, first: nat, c: seq<nat>, p: nat)
    requires Chained(es, first, c) && p < |c|
    ensures Chained(UnlinkAt(es, c, p), if p > 0 then first else es[c[p]].hashNext, Cut(c, p))
  {
    var es', t := UnlinkAt(es, c, p), Cut(c, p);
    CutKeepsDistinct(c, p);
    assert ChainedAt(es, c, p);
    forall i | 0 <= i < |t|
      ensures ChainedAt(es', t, i)
    {
      var j := if i < p then i else i + 1;
      assert ChainedAt(es, c, j) && t[i] == c[j];
    }
  }

  /** Every bucket heads its chain, and no entry is on two chains. */
  ghost predicate TableLinked(es: seq<Entry>, buckets: seq<nat>, chains: seq<seq<nat>>) {
    && |es| <= INDEXER_NULL && |chains| == |buckets|
    && (forall b :: 0 <= b < |chains| ==> Chained(es, buckets[b], chains[b]))
    && (forall a, b :: 0 <= a < |chains| && 0 <= b < |chains| && a != b ==> Apart(chains[a], chains[b]))
  }

  ghost predicate Apart(a: seq<nat>, b: seq<nat>) {
    forall x :: x in a ==> x !in b
  }

  /** Rewiring one chain, possibly around an entry of no other chain, leaves the rest alone. */
  lemma Rewire(es: seq<Entry>, es': seq<Entry>, buckets: seq<nat>, chains: seq<seq<nat>>,
               h: nat, first: nat, c: seq<nat>, e: nat)
    requires TableLinked(es, buckets, chains) && h < |chains| && |es'| == |es|
    requires Chained(es', first, c)
    requires forall x :: x in c ==> x in chains[h] || x == e
    requires forall b :: 0 <= b < |chains| && b != h ==> e !in chains[b]
    requires forall x :: 0 <= x < |es| && x !in chains[h] && x != e ==> es'[x].hashNext == es[x].hashNext
    ensures TableLinked(es', buckets[h := first], chains[h := c])
  {
    var chains' := chains[h := c];
    forall b | 0 <= b < |chains'|
      ensures Chained(es', buckets[h := first][b], chains'[b])
    {
      if b != h {
        assert Apart(chains[b], chains[h]);
        ChainFrame(es, es', buckets[b], chains[b]);
      }
    }
    forall a, b | 0 <= a < |chains'| && 0 <= b < |chains'| && a != b
      ensures Apart(chains'[a], chains'[b])
    {
      if a != h && b != h {
        assert Apart(chains[a], chains[b]);
      } else if a == h {
        assert Apart(chains[h], chains[b]);
      } else {
        assert Apart(chains[a], chains[h]);
      }
    }
  }

  class HashTable {
    const buckets: array<nat>
    var hashBits: nat
    ghost var chains: seq<seq<nat>>

    /** Zeroed memory for `n` buckets. */
    constructor (n: nat)
      ensures fresh(buckets) && buckets.Length == n
    {
      buckets := new nat[n](_ => 0);
      hashBits := 0;
      chains := [];
    }

    ghost predicate Sized()
      reads this
    {
      2 <= buckets.Length < U32 && hashBits == Log2(buckets.Length)
    }

    ghost predicate Valid(es: array<Entry>)
      reads this, buckets, es
    {
      Sized() && TableLinked(es[..], buckets[..], chains)
    }

    /** `alloc_hash_table`: every bucket empty; the bit count is 31 minus the leading zeros. */
    method Init()
      requires 2 <= buckets.Length < U32
      modifies this, buckets
      ensures Sized() && chains == seq(buckets.Length, _ => [])
      ensures forall b :: 0 <= b < buckets.Length ==> buckets[b] == INDEXER_NULL
    {
      hashBits := Log2(buckets.Length);
      for i := 0 to buckets.Length
        invariant hashBits == Log2(buckets.Length)
        invariant forall b :: 0 <= b < i ==> buckets[b] == INDEXER_NULL
      {
        buckets[i] := INDEXER_NULL;
      }
      chains := seq(buckets.Length, _ => []);
    }

    method HashOf(k: Key) returns (h: nat)
      requires Sized()
      ensures h == Bucket(k, buckets.Length) && h < buckets.Length
    {
      Log2Bounds(buckets.Length);
      WordBits(buckets.Length);
      h := Hash32(k.path, k.index, hashBits);
    }

    /** The scan of one chain, returning the hit and its predecessor. */
    method LookupIn(es: array<Entry>, h: nat, k: Key) returns (e: nat, prev: nat)
      requires Valid(es) && h < |chains|
      ensures var c := chains[h];
              && InRange(c, es.Length)
              && var p := FindPos(Cells(es[..]), c, k);
                 if p < |c| then e == c[p] && prev == Before(c, p) else e == INDEXER_NULL
    {
      ghost var c := chains[h];
      assert Chained(es[..], buckets[h], c);
      ghost var j := 0;
      prev := INDEXER_NULL;
      e := buckets[h];
      while e != INDEXER_NULL
        invariant j <= |c| && e == (if j < |c| then c[j] else INDEXER_NULL)
        invariant j < |c| ==> prev == Before(c, j)
        invariant forall i :: 0 <= i < j ==> es[c[i]].cell.key != k
        decreases |c| - j
      {
        assert ChainedAt(es[..], c, j);
        if es[e].cell.key == k {
          FindPosIs(Cells(es[..]), c, k, j);
          return;
        }
        prev := e;
        e := es[e].hashNext;
        j := j + 1;
      }
      FindPosIs(Cells(es[..]), c, k, j);
    }

    method InsertAt(es: array<Entry>, h: nat, e: nat)
      requires Valid(es) && h < |chains| && e < es.Length
      requires forall b :: 0 <= b < |chains| ==> e !in chains[b]
      modifies this`chains, buckets, es
      ensures Valid(es) && chains == old(chains[h := [e] + chains[h]])
      ensures OnlyChainIn(old(es[..]), es[..], [e])
    {
      InsertPrepends(es[..], buckets[h], chains[h], e);
      Rewire(es[..], es[..][e := es[e].(hashNext := buckets[h])], buckets[..], chains, h, e, [e] + chains[h], e);
      es[e] := es[e].(hashNext := buckets[h]);
      buckets[h] := e;
      chains := chains[h := [e] + chains[h]];
    }

    method Insert(es: array<Entry>, e: nat)
      requires Valid(es) && e < es.Length
      requires forall b :: 0 <= b < |chains| ==> e !in chains[b]
      modifies this`chains, buckets, es
      ensures var h := Bucket(es[e].cell.key, buckets.Length);
              Valid(es) && h < |old(chains)| && chains == old(chains)[h := [e] + old(chains)[h]]
      ensures OnlyChainIn(old(es[..]), es[..], [e])
    {
      var h := HashOf(es[e].cell.key);
      InsertAt(es, h, e);
    }

    method Unlink(es: array<Entry>, h: nat, e: nat, prev: nat)
      requires Valid(es) && h < |chains| && e in chains[h] && prev == Before(chains[h], IndexOf(chains[h], e))
      modifies this`chains, buckets, es
      ensures Valid(es) && chains == old(chains[h := Without(chains[h], e)])
      ensures OnlyChainIn(old(es[..]), es[..], old(chains[h]))
    {
      ghost var c, p := chains[h], IndexOf(chains[h], e);
      assert Chained(es[..], buckets[h], c);
      UnlinkCuts(es[..], buckets[h], c, p);
      CutKeepsDistinct(c, p);
      Rewire(es[..], UnlinkAt(es[..], c, p), buckets[..], chains, h,
             if p > 0 then buckets[h] else es[c[p]].hashNext, Cut(c, p), e);
      if prev != INDEXER_NULL {
        es[prev] := es[prev].(hashNext := es[e].hashNext);
      } else {
        buckets[h] := es[e].hashNext;
      }
      assert es[..] == UnlinkAt(old(es[..]), c, p);
      assert buckets[..] == old(buckets[..])[h := if p > 0 then old(buckets[h]) else old(es[c[p]].hashNext)];
      chains := chains[h := Cut(c, p)];
    }

    /** A hit is moved to the front of its chain. */
    method Lookup(es: array<Entry>, k: Key) returns (e: nat)
      requires Valid(es)
      modifies this`chains, buckets, es
      ensures Valid(es) && |chains| == |old(chains)|
      ensures var h := Bucket(k, buckets.Length);
              var c := old(chains)[h];
              && InRange(c, es.Length)
              && var p := FindPos(Cells(old(es[..])), c, k);
                 if p < |c| then e == c[p] && chains == old(chains)[h := MoveToFront(c, p)]
                 else e == INDEXER_NULL && chains == old(chains)
      ensures OnlyChainIn(old(es[..]), es[..], old(chains)[Bucket(k, buckets.Length)])
    {
      var h := HashOf(k);
      ghost var c := chains[h];
      assert Chained(es[..], buckets[h], c);
      var prev;
      e, prev := LookupIn(es, h, k);
      ghost var p := FindPos(Cells(es[..]), c, k);
      if p < |c| {
        IndexOfIsUnique(c, p);
      }
      if e != INDEXER_NULL && prev != INDEXER_NULL {
        Unlink(es, h, e, prev);
        CutKeepsDistinct(c, p);
        InsertAt(es, h, e);
      } else if e != INDEXER_NULL {
        assert MoveToFront(c, 0) == c;
      }
    }

    /** Searches by the key of `e` and unlinks the first entry found under it. */
    method Remove(es: array<Entry>, e: nat)
      requires Valid(es) && e < es.Length
      modifies this`chains, buckets, es
      ensures Valid(es) && |chains| == |old(chains)|
      ensures var k := es[e].cell.key;
              var h := Bucket(k, buckets.Length);
              var c := old(chains)[h];
              && InRange(c, es.Length)
              && var p := FindPos(Cells(old(es[..])), c, k);
                 chains == if p < |c| then old(chains)[h := Cut(c, p)] else old(chains)
      ensures OnlyChainIn(old(es[..]), es[..], old(chains)[Bucket(es[e].cell.key, buckets.Length)])
    {
      var h := HashOf(es[e].cell.key);
      ghost var c := chains[h];
      assert Chained(es[..], buckets[h], c);
      var hit, prev := LookupIn(es, h, es[e].cell.key);
      ghost var p := FindPos(Cells(es[..]), c, es[e].cell.key);
      if hit != INDEXER_NULL {
        IndexOfIsUnique(c, p);
        Unlink(es, h, hit, prev);
      }
    }
  }

  lemma FindPosIs(cells: seq<Cell>, chain: seq<nat>, k: Key, p: nat)
    requires InRange(chain, |cells|) && p <= |chain|
    requires forall i :: 0 <= i < p ==> cells[chain[i]].key != k
    requires p < |chain| ==> cells[chain[p]].key == k
    ensures FindPos(cells, chain, k) == p
  {
  }

  lemma WordBits(n: nat)
    requires 2 <= n < U32
    ensures 1 <= Log2(n) <= 32
  {
    Log2Bounds(n);
    WordSize();
    if Log2(n) > 32 {
      Pow2Monotone(32, Log2(n));
    }
  }
}
