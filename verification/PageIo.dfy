/**
 * The chain of page requests: how callers build it, how the target layer turns it into an
 * iovec array, and what a vectored write and read over it amount to.
 */
module PageIo {
  import opened CacheTypes
  import opened Sequences
  import opened Sgl

  const PAGE_SIZE: Word := 0x1000

  datatype Operate = READ | WRITE | DISCARD

  /** The fields of a request that a chain has in common, and the page it starts at. */
  datatype Head = Head(path: Path, fd: int, page: Word, operation: Operate, count: Word)

  class Pio {
    var head: Head
    var buffer: nat
    var next: Pio?

    constructor (head: Head, buffer: nat)
      ensures this.head == head && this.buffer == buffer && next == null
    {
      this.head := head;
      this.buffer := buffer;
      next := null;
    }
  }

  /** `malloc` may fail, and then there is no request. */
  method CreatePio(head: Head, buffer: nat, enough: bool) returns (p: Pio?)
    ensures enough <==> p != null
    ensures p != null ==> fresh(p) && p.head == head && p.buffer == buffer && p.next == null
  {
    p := null;
    if enough {
      p := new Pio(head, buffer);
    }
  }

  /** The request `i` places down the chain: the same one, `i` pages further, modulo 2^32. */
  function Shifted(h: Head, i: nat): Head {
    h.(page := (h.page + i) % U32)
  }

  lemma ShiftOnce(h: Head, i: nat)
    ensures Shifted(Shifted(h, i), 1) == Shifted(h, i + 1)
  {
  }

  ghost predicate NodeAt(nodes: seq<Pio>, h: Head, buffers: seq<nat>, i: nat)
    requires i < |nodes| == |buffers|
    reads set n | n in nodes
  {
    && nodes[i].head == Shifted(h, i) && nodes[i].buffer == buffers[i]
    && nodes[i].next == if i + 1 < |nodes| then nodes[i + 1] else null
  }

  /**
   * Following `next` from the first node visits exactly `nodes` and ends; they carry
   * `buffers` in order, for consecutive pages.
   */
  ghost predicate IsChain(nodes: seq<Pio>, h: Head, buffers: seq<nat>)
    reads set n | n in nodes
  {
    && nodes != [] && NoDup(nodes) && |nodes| == |buffers|
    && forall i :: 0 <= i < |nodes| ==> NodeAt(nodes, h, buffers, i)
  }

  /** Each request of a chain is for the page after that of the one before, and like it otherwise. */
  lemma AdjacentPages(nodes: seq<Pio>, h: Head, buffers: seq<nat>, i: nat)
    requires IsChain(nodes, h, buffers) && i + 1 < |nodes|
    ensures nodes[0].head == h && nodes[i].next == nodes[i + 1]
    ensures nodes[i + 1].head == nodes[i].head.(page := (nodes[i].head.page + 1) % U32)
  {
    assert NodeAt(nodes, h, buffers, 0) && NodeAt(nodes, h, buffers, i) && NodeAt(nodes, h, buffers, i + 1);
    ShiftOnce(h, i);
  }

  /** Walks to the end of the chain and links a new node there, for the next page. */
  method AppendPio(head: Pio, buffer: nat, enough: bool, ghost nodes: seq<Pio>, ghost h: Head, ghost buffers: seq<nat>)
    returns (ghost nodes': seq<Pio>)
    requires IsChain(nodes, h, buffers) && nodes[0] == head
    modifies set n | n in nodes
    ensures if enough
            then nodes < nodes' && |nodes'| == |nodes| + 1 && fresh(nodes'[|nodes|])
                 && IsChain(nodes', h, buffers + [buffer])
            else nodes' == nodes && IsChain(nodes, h, buffers)
  {
    var current := head;
    ghost var i := 0;
    assert NodeAt(nodes, h, buffers, 0);
    while current.next != null
      invariant i < |nodes| && current == nodes[i]
      invariant IsChain(nodes, h, buffers)
      decreases |nodes| - i
    {
      assert NodeAt(nodes, h, buffers, i);
      current := current.next;
      i := i + 1;
    }
    assert NodeAt(nodes, h, buffers, i);
    ShiftOnce(h, i);
    var page := (current.head.page + 1) % U32;
    var last := CreatePio(current.head.(page := page), buffer, enough);
    label linked:
    current.next := last;
    nodes' := if enough then nodes + [last] else nodes;
    ghost var buffers' := if enough then buffers + [buffer] else buffers;
    forall j | 0 <= j < |nodes'|
      ensures NodeAt(nodes', h, buffers', j)
    {
      if j < |nodes| {
        assert old@linked(NodeAt(nodes, h, buffers, j));
      }
    }
  }

  /** One `create_pio` and an `append_pio` for each further buffer. */
  method BuildChain(h: Head, buffers: seq<nat>) returns (head: Pio, ghost nodes: seq<Pio>)
    requires buffers != []
    ensures IsChain(nodes, h, buffers) && nodes[0] == head
    ensures forall n :: n in nodes ==> fresh(n)
  {
    var first := CreatePio(h, buffers[0], true);
    head := first;
    nodes := [head];
    assert NodeAt(nodes, h, buffers[..1], 0);
    var i := 1;
    while i < |buffers|
      invariant 1 <= i <= |buffers|
      invariant IsChain(nodes, h, buffers[..i]) && nodes[0] == head
      invariant forall n :: n in nodes ==> fresh(n)
    {
      assert buffers[..i + 1] == buffers[..i] + [buffers[i]];
      ghost var before := nodes;
      nodes := AppendPio(head, buffers[i], true, nodes, h, buffers[..i]);
      assert nodes == before + [nodes[|before|]];
      i := i + 1;
    }
    assert buffers[..i] == buffers;
  }

  /** Whole pages at the given buffers. */
  function PageVec(buffers: seq<nat>): (v: seq<Iovec>)
    ensures |v| == |buffers|
    ensures forall i :: 0 <= i < |v| ==> v[i] == Iovec(buffers[i], PAGE_SIZE)
  {
    seq(|buffers|, i requires 0 <= i < |buffers| => Iovec(buffers[i], PAGE_SIZE))
  }

  /** Fills `iov` with the first `count` buffers of the chain. */
  method PioToIovec(pio: Pio, iov: array<Iovec>, count: nat,
                    ghost nodes: seq<Pio>, ghost h: Head, ghost buffers: seq<nat>)
    requires IsChain(nodes, h, buffers) && nodes[0] == pio && count <= |nodes| && iov.Length == count
    modifies iov
    ensures iov[..] == PageVec(buffers[..count])
  {
    var current: Pio? := pio;
    for i := 0 to count
      invariant IsChain(nodes, h, buffers)
      invariant i < |nodes| ==> current == nodes[i]
      invariant iov[..i] == PageVec(buffers[..i])
    {
      assert NodeAt(nodes, h, buffers, i);
      iov[i] := Iovec(current.buffer, PAGE_SIZE);
      current := current.next;
      assert iov[..i + 1] == iov[..i] + [iov[i]];
    }
    assert iov[..count] == iov[..];
  }

  /**
   * From the caller's buffers to the driver's addresses: building the chain, converting it
   * and letting the driver gather `count` bytes reaches the bytes of the buffers in order.
   */
  method RequestAddresses(h: Head, buffers: seq<nat>, count: nat) returns (addresses: seq<nat>)
    requires buffers != [] && count <= |Flatten(PageVec(buffers))|
    ensures addresses == Flatten(PageVec(buffers))[..count]
  {
    var head, nodes := BuildChain(h, buffers);
    var iov := new Iovec[|buffers|](_ => Iovec(0, 0));
    PioToIovec(head, iov, |buffers|, nodes, h, buffers);
    assert buffers[..|buffers|] == buffers;
    var req := new IoReq(iov, 0);
    PageVecAt(buffers, 0);
    assert iov[..] == PageVec(buffers);
    addresses := req.Gather(0, count);
  }

  // ---------------------------------------------------------------- what the addresses are

  /** Byte `o` of the transfer is byte `o % 4096` of buffer `o / 4096`. */
  lemma {:induction false} PageVecAt(buffers: seq<nat>, o: nat)
    ensures |Flatten(PageVec(buffers))| == PAGE_SIZE * |buffers|
    ensures o < PAGE_SIZE * |buffers| ==>
              Flatten(PageVec(buffers))[o] == buffers[o / PAGE_SIZE] + o % PAGE_SIZE
  {
    if buffers != [] {
      assert PageVec(buffers)[1..] == PageVec(buffers[1..]);
      if o < PAGE_SIZE {
        PageVecAt(buffers[1..], 0);
      } else {
        PageVecAt(buffers[1..], o - PAGE_SIZE);
      }
    }
  }

  lemma PageAddress(buffers: seq<nat>, i: nat, o: nat)
    requires i < |buffers| && o < PAGE_SIZE
    ensures PAGE_SIZE * i + o < |Flatten(PageVec(buffers))|
    ensures Flatten(PageVec(buffers))[PAGE_SIZE * i + o] == buffers[i] + o
  {
    PageVecAt(buffers, PAGE_SIZE * i + o);
  }

  predicate FarApart(buffers: seq<nat>) {
    forall i, j :: 0 <= i < |buffers| && 0 <= j < |buffers| && i != j ==>
                     buffers[i] + PAGE_SIZE <= buffers[j] || buffers[j] + PAGE_SIZE <= buffers[i]
  }

  lemma FarApartAddressesDiffer(buffers: seq<nat>)
    requires FarApart(buffers)
    ensures NoDup(Flatten(PageVec(buffers)))
  {
    var all := Flatten(PageVec(buffers));
    PageVecAt(buffers, 0);
    forall x, y | 0 <= x < y < |all|
      ensures all[x] != all[y]
    {
      PageVecAt(buffers, x);
      PageVecAt(buffers, y);
    }
  }
}
