/**
 * The intrusive doubly linked lists: indexes into the shared entry array, threaded
 * through `prev` and `next`. Three of them live in the same array.
 */
module IndexList {
  import opened CacheTypes
  import opened MappingState
  import opened Sequences

  /** What a list operation reads and writes: the shared array and one list header. */
  datatype Links = Links(es: seq<Entry>, nrElts: nat, head: nat, tail: nat)

  function First(s: seq<nat>): nat {
    if s == [] then INDEXER_NULL else s[0]
  }

  function Last(s: seq<nat>): nat {
    if s == [] then INDEXER_NULL else s[|s| - 1]
  }

  function Before(s: seq<nat>, i: nat): nat
    requires i < |s|
  {
    if i == 0 then INDEXER_NULL else s[i - 1]
  }

  function After(s: seq<nat>, i: nat): nat
    requires i < |s|
  {
    if i + 1 == |s| then INDEXER_NULL else s[i + 1]
  }

  ghost predicate LinkedAt(es: seq<Entry>, s: seq<nat>, i: nat)
    requires i < |s|
  {
    s[i] < |es| && es[s[i]].prev == Before(s, i) && es[s[i]].next == After(s, i)
  }

  /** The header and the links spell out `s`, forwards and backwards. */
  ghost predicate Linked(l: Links, s: seq<nat>) {
    && |l.es| <= INDEXER_NULL
    && NoDup(s) && InRange(s, |l.es|)
    && l.nrElts == |s| && l.head == First(s) && l.tail == Last(s)
    && forall i :: 0 <= i < |s| ==> LinkedAt(l.es, s, i)
  }

  /** The arrays agree on everything but the list links, and on those outside `s`. */
  ghost predicate OnlyLinksIn(es: seq<Entry>, es': seq<Entry>, s: seq<nat>) {
    && |es'| == |es|
    && (forall i :: 0 <= i < |es| ==> es'[i].cell == es[i].cell && es'[i].hashNext == es[i].hashNext)
    && (forall i :: 0 <= i < |es| && i !in s ==> es'[i] == es[i])
  }

  /** A list whose entries were left alone is still the same list. */
  lemma LinkedFrame(l: Links, es': seq<Entry>, s: seq<nat>, touched: seq<nat>)
    requires Linked(l, s) && OnlyLinksIn(l.es, es', touched)
    requires forall x :: x in s ==> x !in touched
    ensures Linked(l.(es := es'), s)
  {
    forall i | 0 <= i < |s|
      ensures LinkedAt(es', s, i)
    {
      assert LinkedAt(l.es, s, i) && s[i] in s;
    }
  }

  // ---------------------------------------------------------------- the operations as functions

  function SetNext(es: seq<Entry>, e: nat, x: nat): seq<Entry>
    requires e < |es|
  {
    es[e := es[e].(next := x)]
  }

  function SetPrev(es: seq<Entry>, e: nat, x: nat): seq<Entry>
    requires e < |es|
  {
    es[e := es[e].(prev := x)]
  }

  predicate Ref(l: Links, x: nat) {
    x == INDEXER_NULL || x < |l.es|
  }

  function AddHeadLinks(l: Links, e: nat): Links
    requires e < |l.es| && Ref(l, l.head) && |l.es| <= INDEXER_NULL
  {
    var es := SetPrev(SetNext(l.es, e, l.head), e, INDEXER_NULL);
    if l.head != INDEXER_NULL then Links(SetPrev(es, l.head, e), l.nrElts + 1, e, l.tail)
    else Links(es, l.nrElts + 1, e, e)
  }

  function AddTailLinks(l: Links, e: nat): Links
    requires e < |l.es| && Ref(l, l.tail) && |l.es| <= INDEXER_NULL
  {
    var es := SetPrev(SetNext(l.es, e, INDEXER_NULL), e, l.tail);
    if l.tail != INDEXER_NULL then Links(SetNext(es, l.tail, e), l.nrElts + 1, l.head, e)
    else Links(es, l.nrElts + 1, e, e)
  }

  /** `l_del` as it stands: it trusts the links of `e`, and the counter wraps below zero. */
  function DeleteLinks(l: Links, e: nat): Links
    requires e < |l.es| && Ref(l, l.es[e].prev) && Ref(l, l.es[e].next)
  {
    var p, n := l.es[e].prev, l.es[e].next;
    var es1 := if p != INDEXER_NULL then SetNext(l.es, p, n) else l.es;
    var es2 := if n != INDEXER_NULL then SetPrev(es1, n, p) else es1;
    Links(es2,
          if l.nrElts == 0 then U32 - 1 else l.nrElts - 1,
          if p != INDEXER_NULL then l.head else n,
          if n != INDEXER_NULL then l.tail else p)
  }

  lemma AddHeadAt(l: Links, e: nat, x: nat)
    requires e < |l.es| && x < |l.es| && Ref(l, l.head) && |l.es| <= INDEXER_NULL && l.head != e
    ensures AddHeadLinks(l, e).es[x].prev ==
            if x == e then INDEXER_NULL else if x == l.head then e else l.es[x].prev
    ensures AddHeadLinks(l, e).es[x].next == if x == e then l.head else l.es[x].next
    ensures AddHeadLinks(l, e).es[x].cell == l.es[x].cell
    ensures AddHeadLinks(l, e).es[x].hashNext == l.es[x].hashNext
    ensures x != e && x != l.head ==> AddHeadLinks(l, e).es[x] == l.es[x]
  {
  }

  lemma HeadAndTailListed(l: Links, s: seq<nat>)
    requires Linked(l, s)
    ensures Ref(l, l.head) && Ref(l, l.tail)
    ensures s != [] ==> l.head in s && l.tail in s && l.head != INDEXER_NULL && l.tail != INDEXER_NULL
  {
  }

  /** Adding in front prepends, and touches no entry outside the list. */
  lemma AddHeadPrepends(l: Links, s: seq<nat>, e: nat)
    requires Linked(l, s) && e < |l.es| && e !in s
    ensures Ref(l, l.head)
    ensures Linked(AddHeadLinks(l, e), [e] + s)
    ensures OnlyLinksIn(l.es, AddHeadLinks(l, e).es, [e] + s)
  {
    var t := [e] + s;
    var m := AddHeadLinks(l, e);
    AppendKeepsDistinct(s, e);
    HeadAndTailListed(l, s);
    forall i | 0 <= i < |t|
      ensures LinkedAt(m.es, t, i)
    {
      AddHeadAt(l, e, t[i]);
      if i > 0 {
        assert LinkedAt(l.es, s, i - 1) && t[i] == s[i - 1];
      }
    }
    forall i | 0 <= i < |l.es|
      ensures m.es[i].cell == l.es[i].cell && m.es[i].hashNext == l.es[i].hashNext
      ensures i !in t ==> m.es[i] == l.es[i]
    {
      AddHeadAt(l, e, i);
    }
  }

  lemma AddTailAt(l: Links, e: nat, x: nat)
    requires e < |l.es| && x < |l.es| && Ref(l, l.tail) && |l.es| <= INDEXER_NULL && l.tail != e
    ensures AddTailLinks(l, e).es[x].next ==
            if x == e then INDEXER_NULL else if x == l.tail then e else l.es[x].next
    ensures AddTailLinks(l, e).es[x].prev == if x == e then l.tail else l.es[x].prev
    ensures AddTailLinks(l, e).es[x].cell == l.es[x].cell
    ensures AddTailLinks(l, e).es[x].hashNext == l.es[x].hashNext
    ensures x != e && x != l.tail ==> AddTailLinks(l, e).es[x] == l.es[x]
  {
  }

  /** Adding at the end appends. */
  lemma AddTailAppends(l: Links, s: seq<nat>, e: nat)
    requires Linked(l, s) && e < |l.es| && e !in s
    ensures Ref(l, l.tail)
    ensures Linked(AddTailLinks(l, e), s + [e])
    ensures OnlyLinksIn(l.es, AddTailLinks(l, e).es, s + [e])
  {
    var t := s + [e];
    var m := AddTailLinks(l, e);
    AppendKeepsDistinct(s, e);
    HeadAndTailListed(l, s);
    forall i | 0 <= i < |t|
      ensures LinkedAt(m.es, t, i)
    {
      AddTailAt(l, e, t[i]);
      if i < |s| {
        assert LinkedAt(l.es, s, i) && t[i] == s[i];
      }
    }
    forall i | 0 <= i < |l.es|
      ensures m.es[i].cell == l.es[i].cell && m.es[i].hashNext == l.es[i].hashNext
      ensures i !in t ==> m.es[i] == l.es[i]
    {
      AddTailAt(l, e, i);
    }
  }

  lemma DeleteAt(l: Links, e: nat, x: nat)
    requires e < |l.es| && x < |l.es| && Ref(l, l.es[e].prev) && Ref(l, l.es[e].next)
    requires |l.es| <= INDEXER_NULL
    ensures DeleteLinks(l, e).es[x].next == if x == l.es[e].prev then l.es[e].next else l.es[x].next
    ensures DeleteLinks(l, e).es[x].prev == if x == l.es[e].next then l.es[e].prev else l.es[x].prev
    ensures DeleteLinks(l, e).es[x].cell == l.es[x].cell
    ensures DeleteLinks(l, e).es[x].hashNext == l.es[x].hashNext
    ensures x != l.es[e].prev && x != l.es[e].next ==> DeleteLinks(l, e).es[x] == l.es[x]
  {
  }

  lemma ListedRefs(l: Links, s: seq<nat>, k: nat)
    requires Linked(l, s) && k < |s|
    ensures Ref(l, l.es[s[k]].prev) && Ref(l, l.es[s[k]].next)
    ensures l.es[s[k]].prev != INDEXER_NULL ==> l.es[s[k]].prev in s
    ensures l.es[s[k]].next != INDEXER_NULL ==> l.es[s[k]].next in s
  {
    assert LinkedAt(l.es, s, k);
  }

  /** Deleting from anywhere cuts the entry out. */
  lemma DeleteCuts(l: Links, s: seq<nat>, k: nat)
    requires Linked(l, s) && k < |s|
    ensures Ref(l, l.es[s[k]].prev) && Ref(l, l.es[s[k]].next)
    ensures Linked(DeleteLinks(l, s[k]), Cut(s, k))
    ensures OnlyLinksIn(l.es, DeleteLinks(l, s[k]).es, s)
  {
    ListedRefs(l, s, k);
    var m := DeleteLinks(l, s[k]);
    assert LinkedAt(l.es, s, k);
    CutKeepsDistinct(s, k);
    DeleteRelinks(l, s, k);
    forall i | 0 <= i < |l.es|
      ensures m.es[i].cell == l.es[i].cell && m.es[i].hashNext == l.es[i].hashNext
      ensures i !in s ==> m.es[i] == l.es[i]
    {
      DeleteAt(l, s[k], i);
    }
  }

  lemma DeleteRelinks(l: Links, s: seq<nat>, k: nat)
    requires Linked(l, s) && k < |s| && Ref(l, l.es[s[k]].prev) && Ref(l, l.es[s[k]].next)
    ensures var t, m := Cut(s, k), DeleteLinks(l, s[k]);
            forall i :: 0 <= i < |t| ==> LinkedAt(m.es, t, i)
  {
    var t, m := Cut(s, k), DeleteLinks(l, s[k]);
    forall i | 0 <= i < |t|
      ensures LinkedAt(m.es, t, i)
    {
      var j := if i < k then i else i + 1;
      assert LinkedAt(l.es, s, j) && LinkedAt(l.es, s, k) && t[i] == s[j];
      DeleteAt(l, s[k], s[j]);
    }
  }

  /**
   * Deleting an entry from a list it is not on: whatever the header then spells out, some
   * other entry has been dropped from it.
   */
  lemma DeletingUnlistedLosesAnEntry(l: Links, s: seq<nat>, e: nat, t: seq<nat>)
    requires Linked(l, s) && e < |l.es| && e !in s && Ref(l, l.es[e].prev) && Ref(l, l.es[e].next)
    requires Linked(DeleteLinks(l, e), t)
    ensures exists x :: x in s && x !in t
  {
    if forall x :: x in s ==> x in t {
      MoreElementsMoreLength(s, t);
    }
  }

  lemma {:induction false} MoreElementsMoreLength<T>(s: seq<T>, t: seq<T>)
    requires NoDup(s) && forall x :: x in s ==> x in t
    ensures |s| <= |t|
  {
    if s != [] {
      var x := s[0];
      var k := IndexOf(t, x);
      forall y | y in s[1..]
        ensures y in Cut(t, k)
      {
        var j := IndexOf(t, y);
        assert Cut(t, k)[if j < k then j else j - 1] == y;
      }
      MoreElementsMoreLength(s[1..], Cut(t, k));
    }
  }

  /** `l_del` yields exactly the other entries, in order, iff the entry is on the list. */
  lemma DeleteIsExactIffListed(l: Links, s: seq<nat>, e: nat)
    requires Linked(l, s) && e < |l.es| && Ref(l, l.es[e].prev) && Ref(l, l.es[e].next)
    ensures Linked(DeleteLinks(l, e), Without(s, e)) <==> e in s
  {
    if e in s {
      var k := IndexOf(s, e);
      DeleteCuts(l, s, k);
    } else if Linked(DeleteLinks(l, e), Without(s, e)) {
      DeletingUnlistedLosesAnEntry(l, s, e, s);
    }
  }

  // ---------------------------------------------------------------- the list object

  class IList {
    var nrElts: nat
    var head: nat
    var tail: nat
    ghost var elems: seq<nat>

    /** Zeroed memory; `Init` makes it an empty list. */
    constructor ()
    {
      nrElts, head, tail := 0, 0, 0;
      elems := [];
    }

    ghost function LinksIn(es: array<Entry>): Links
      reads this, es
    {
      Links(es[..], nrElts, head, tail)
    }

    ghost predicate Valid(es: array<Entry>)
      reads this, es
    {
      Linked(LinksIn(es), elems)
    }

    method Init()
      modifies this
      ensures nrElts == 0 && head == tail == INDEXER_NULL && elems == []
    {
      nrElts := 0;
      head, tail := INDEXER_NULL, INDEXER_NULL;
      elems := [];
    }

    method Empty() returns (r: bool)
      requires head == First(elems) && (elems != [] ==> elems[0] != INDEXER_NULL)
      ensures r <==> elems == []
    {
      r := head == INDEXER_NULL;
    }

    method AddHead(es: array<Entry>, e: nat)
      requires Valid(es) && e < es.Length && e !in elems
      modifies this, es
      ensures Valid(es) && elems == [e] + old(elems)
      ensures OnlyLinksIn(old(es[..]), es[..], elems)
    {
      AddHeadPrepends(LinksIn(es), elems, e);
      var first := head;
      es[e] := es[e].(next := head);
      es[e] := es[e].(prev := INDEXER_NULL);
      if first != INDEXER_NULL {
        es[first] := es[first].(prev := e);
        head := e;
      } else {
        head, tail := e, e;
      }
      nrElts := nrElts + 1;
      elems := [e] + elems;
      assert LinksIn(es) == AddHeadLinks(old(LinksIn(es)), e);
    }

    method AddTail(es: array<Entry>, e: nat)
      requires Valid(es) && e < es.Length && e !in elems
      modifies this, es
      ensures Valid(es) && elems == old(elems) + [e]
      ensures OnlyLinksIn(old(es[..]), es[..], elems)
    {
      AddTailAppends(LinksIn(es), elems, e);
      var last := tail;
      es[e] := es[e].(next := INDEXER_NULL);
      es[e] := es[e].(prev := tail);
      if last != INDEXER_NULL {
        es[last] := es[last].(next := e);
        tail := e;
      } else {
        head, tail := e, e;
      }
      nrElts := nrElts + 1;
      elems := elems + [e];
      assert LinksIn(es) == AddTailLinks(old(LinksIn(es)), e);
    }

    method Delete(es: array<Entry>, e: nat)
      requires Valid(es) && e in elems
      modifies this, es
      ensures Valid(es) && elems == Without(old(elems), e)
      ensures OnlyLinksIn(old(es[..]), es[..], old(elems))
    {
      ghost var k := IndexOf(elems, e);
      DeleteCuts(LinksIn(es), elems, k);
      var prev, next := es[e].prev, es[e].next;
      if prev != INDEXER_NULL {
        es[prev] := es[prev].(next := es[e].next);
      } else {
        head := es[e].next;
      }
      if next != INDEXER_NULL {
        es[next] := es[next].(prev := es[e].prev);
      } else {
        tail := es[e].prev;
      }
      nrElts := nrElts - 1;
      elems := Without(elems, e);
      assert LinksIn(es) == DeleteLinks(old(LinksIn(es)), e);
    }

    /** The loop of the original runs at most once: it deletes the head, if there is one, and returns it. */
    method PopHead(es: array<Entry>) returns (e: nat)
      requires Valid(es)
      modifies this, es
      ensures Valid(es) && e == First(old(elems))
      ensures elems == if old(elems) == [] then [] else old(elems)[1..]
      ensures OnlyLinksIn(old(es[..]), es[..], old(elems))
    {
      e := head;
      if e != INDEXER_NULL {
        IndexOfIsUnique(elems, 0);
        Delete(es, e);
      }
    }
  }
}
