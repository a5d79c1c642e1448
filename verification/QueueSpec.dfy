/** The work queue as a sequence of keys, oldest first. */
module QueueSpec {
  import opened CacheTypes
  import opened Sequences

  /** The scan of `contains_work`: the queued name only has to be a prefix. */
  predicate Contains(q: seq<Key>, k: Key) {
    exists i :: 0 <= i < |q| && q[i].index == k.index && q[i].path <= k.path
  }

  /** `insert_work` on a ring of `capacity` slots, one of which stays unused. */
  function Insert(q: seq<Key>, k: Key, capacity: nat): seq<Key> {
    if |q| == capacity - 1 || k in q then q else q + [k]
  }

  /** The prefix scan never misses: a negative answer means that the exact key is not queued. */
  lemma QueuedIsContained(q: seq<Key>, k: Key)
    ensures k in q ==> Contains(q, k)
  {
    if k in q {
      var i := IndexOf(q, k);
      assert q[i].index == k.index && q[i].path <= k.path;
    }
  }

  /** Popping commutes with the negative scan: what was not queued stays not queued. */
  lemma PopKeepsNotContained(q: seq<Key>, k: Key)
    requires q != [] && !Contains(q, k)
    ensures !Contains(q[1..], k)
  {
    forall i | 0 <= i < |q[1..]|
      ensures !(q[1..][i].index == k.index && q[1..][i].path <= k.path)
    {
      assert q[1..][i] == q[i + 1];
    }
  }

  lemma InsertKeepsDistinct(q: seq<Key>, k: Key, capacity: nat)
    requires NoDup(q) && |q| < capacity
    ensures NoDup(Insert(q, k, capacity)) && |Insert(q, k, capacity)| < capacity
    ensures q <= Insert(q, k, capacity)
    ensures forall x :: x in Insert(q, k, capacity) ==> x in q || x == k
  {
  }

  /**
   * A key that is not queued goes to the end while a slot is left; then it is queued unless
   * the ring is full.
   */
  lemma InsertAppends(q: seq<Key>, k: Key, capacity: nat)
    requires |q| < capacity
    ensures var r := Insert(q, k, capacity);
            && (|q| < capacity - 1 && k !in q ==> |r| == |q| + 1 && r[|q|] == k && r[..|q|] == q)
            && (k in r <==> k in q || |q| < capacity - 1)
            && (k in q || |q| == capacity - 1 ==> r == q)
  {
  }

  /**
   * What `strncmp` with the length of the queued name compares: the index, and the characters
   * of the queued name as far as they go.
   */
  predicate Resembles(x: Key, k: Key) {
    && x.index == k.index && |x.path| <= |k.path|
    && forall j :: 0 <= j < |x.path| ==> x.path[j] == k.path[j]
  }

  /** The scan is positive iff some queued item resembles the key. */
  lemma ContainsIff(q: seq<Key>, k: Key)
    ensures Contains(q, k) <==> exists x :: x in q && Resembles(x, k)
  {
    if Contains(q, k) {
      var i :| 0 <= i < |q| && q[i].index == k.index && q[i].path <= k.path;
      assert q[i] in q && Resembles(q[i], k);
    }
    if x :| x in q && Resembles(x, k) {
      var i :| 0 <= i < |q| && q[i] == x;
      assert q[i].path == k.path[..|x.path|];
    }
  }

  /** Another index, a longer name or another character somewhere. */
  predicate Differs(x: Key, k: Key) {
    || x.index != k.index || |x.path| > |k.path|
    || exists j :: 0 <= j < |x.path| && j < |k.path| && x.path[j] != k.path[j]
  }

  /** The scan is negative iff every queued item differs from the key in one of these ways. */
  lemma NotContainedIff(q: seq<Key>, k: Key)
    ensures !Contains(q, k) <==> forall x :: x in q ==> Differs(x, k)
  {
    ContainsIff(q, k);
    forall x | x in q
      ensures Differs(x, k) <==> !Resembles(x, k)
    {
    }
  }
}
