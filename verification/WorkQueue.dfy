/** The ring of work items between users and the worker. One slot always stays unused. */
module WorkQueue {
  import opened CacheTypes
  import opened Sequences
  import Queue = QueueSpec

  /** The slot `i` places after the start of a ring walked at most once around. */
  function Slot(i: nat, max: nat): nat {
    if i < max then i else i - max
  }

  lemma NextSlot(front: nat, j: nat, max: nat)
    requires front < max && j < max
    ensures (Slot(front + j, max) + 1) % max == Slot(front + j + 1, max)
  {
  }

  lemma SlotsDiffer(front: nat, i: nat, j: nat, max: nat)
    requires front < max && i < max && j < max
    ensures Slot(front + i, max) < max
    ensures Slot(front + i, max) == Slot(front + j, max) <==> i == j
  {
  }

  /** The `size` keys from slot `front` on, around the ring. */
  function ItemsOf(works: seq<Key>, front: nat, size: nat): (q: seq<Key>)
    requires front < |works| && size < |works|
    ensures |q| == size
    ensures forall i :: 0 <= i < size ==> q[i] == works[Slot(front + i, |works|)]
  {
    seq(size, i requires 0 <= i < size => works[Slot(front + i, |works|)])
  }

  /** Writing the slot behind the last item appends, dropping the first slot pops. */
  lemma PushAppends(works: seq<Key>, front: nat, size: nat, k: Key)
    requires front < |works| && size + 1 < |works|
    ensures ItemsOf(works[Slot(front + size, |works|) := k], front, size + 1) == ItemsOf(works, front, size) + [k]
  {
    var q := ItemsOf(works, front, size);
    var r := ItemsOf(works[Slot(front + size, |works|) := k], front, size + 1);
    forall i | 0 <= i < size
      ensures r[i] == q[i]
    {
      SlotsDiffer(front, i, size, |works|);
    }
  }

  lemma PopDrops(works: seq<Key>, front: nat, size: nat)
    requires front < |works| && 1 <= size < |works|
    ensures ItemsOf(works, Slot(front + 1, |works|), size - 1) == ItemsOf(works, front, size)[1..]
  {
    var q := ItemsOf(works, front, size)[1..];
    var r := ItemsOf(works, Slot(front + 1, |works|), size - 1);
    forall i | 0 <= i < size - 1
      ensures r[i] == q[i]
    {
      assert Slot(Slot(front + 1, |works|) + i, |works|) == Slot(front + (i + 1), |works|);
    }
  }

  class Ring {
    const works: array<Key>
    var front: nat
    var rear: nat
    var size: nat

    /** Zeroed memory for `max` work items. */
    constructor (max: nat)
      requires max >= 1
      ensures fresh(works) && works.Length == max && Valid() && Items() == []
    {
      works := new Key[max](_ => Key([], 0));
      front, rear, size := 0, 0, 0;
    }

    predicate Indexed()
      reads this
    {
      front < works.Length && size < works.Length && rear == Slot(front + size, works.Length)
    }

    /** The queued keys, oldest first. */
    function Items(): (q: seq<Key>)
      requires Indexed()
      reads this, works
      ensures |q| == size
    {
      ItemsOf(works[..], front, size)
    }

    ghost predicate Valid()
      reads this, works
    {
      Indexed() && NoDup(Items())
    }

    /** `size` is the distance from `front` to `rear` around the ring. */
    lemma SizeIsDistance()
      requires Valid()
      ensures size == (rear + works.Length - front) % works.Length
    {
    }

    method InitWorkQueue()
      requires works.Length >= 1
      modifies this
      ensures Valid() && Items() == []
    {
      front, rear, size := 0, 0, 0;
    }

    method IsEmpty() returns (r: bool)
      requires Valid()
      ensures r <==> Items() == []
    {
      r := size == 0;
    }

    method ContainsWork(k: Key) returns (r: bool)
      requires Valid()
      ensures r <==> Queue.Contains(Items(), k)
      ensures r <==> exists x :: x in Items() && Queue.Resembles(x, k)
      ensures !r ==> k !in Items()
    {
      Queue.ContainsIff(Items(), k);
      var i := front;
      ghost var j := 0;
      while i != rear
        invariant j <= size && i == Slot(front + j, works.Length)
        invariant forall x :: 0 <= x < j ==>
                    !(Items()[x].index == k.index && Items()[x].path <= k.path)
        decreases size - j
      {
        assert works[i] == Items()[j];
        if works[i].index == k.index && works[i].path <= k.path {
          return true;
        }
        NextSlot(front, j, works.Length);
        i := (i + 1) % works.Length;
        j := j + 1;
      }
      SlotsDiffer(front, j, size, works.Length);
      Queue.QueuedIsContained(Items(), k);
      r := false;
    }

    /** The end of `insert_work`: the item goes into the slot at `rear`. */
    method PushWork(k: Key)
      requires Valid() && size + 1 < works.Length && k !in Items()
      modifies this, works
      ensures Valid() && Items() == old(Items()) + [k]
    {
      PushAppends(works[..], front, size, k);
      AppendKeepsDistinct(Items(), k);
      NextSlot(front, size, works.Length);
      works[rear] := k;
      rear := (rear + 1) % works.Length;
      size := size + 1;
    }

    method InsertWork(k: Key) returns (r: bool)
      requires Valid()
      modifies this, works
      ensures Valid() && Items() == Queue.Insert(old(Items()), k, works.Length)
      ensures r <==> |old(Items())| < works.Length - 1 && k !in old(Items())
      ensures Items() == if r then old(Items()) + [k] else old(Items())
    {
      if size == works.Length - 1 {
        return false;
      }
      var i := front;
      ghost var q, j := Items(), 0;
      while i != rear
        invariant unchanged(this) && unchanged(works)
        invariant j <= size && i == Slot(front + j, works.Length)
        invariant forall x :: 0 <= x < j ==> q[x] != k
        decreases size - j
      {
        assert works[i] == q[j];
        if works[i].index == k.index && works[i].path == k.path {
          return false;
        }
        NextSlot(front, j, works.Length);
        i := (i + 1) % works.Length;
        j := j + 1;
      }
      SlotsDiffer(front, j, size, works.Length);
      PushWork(k);
      r := true;
    }

    method RemoveWork() returns (r: bool)
      requires Valid()
      modifies this
      ensures Valid()
      ensures r <==> old(Items()) != []
      ensures Items() == if r then old(Items())[1..] else old(Items())
    {
      if size == 0 {
        return false;
      }
      PopDrops(works[..], front, size);
      NextSlot(front, 0, works.Length);
      front := (front + 1) % works.Length;
      size := size - 1;
      r := true;
    }

    method PeakWork() returns (r: bool, k: Key)
      requires Valid()
      ensures r <==> Items() != []
      ensures r ==> k == Items()[0]
    {
      if size == 0 {
        return false, Key([], 0);
      }
      k := works[front];
      r := true;
    }
  }
}
