/**
 * The scatter-gather cursor over an iovec array that the NVMe driver calls back into, and
 * the bytes a transfer over it reaches. Memory is a map from addresses to bytes.
 */
module Sgl {
  import opened CacheTypes
  import opened Sequences

  /** One buffer of the caller. */
  datatype Iovec = Iovec(base: nat, len: Word)

  /** The addresses of `len` bytes from `base` on. */
  function Span(base: nat, len: nat): (s: seq<nat>)
    ensures |s| == len
    ensures forall i :: 0 <= i < len ==> s[i] == base + i
  {
    seq(len, i requires 0 <= i < len => base + i)
  }

  /** All addresses of an iovec array, in order. */
  function Flatten(iovs: seq<Iovec>): seq<nat> {
    if iovs == [] then [] else Span(iovs[0].base, iovs[0].len) + Flatten(iovs[1..])
  }

  /** What is left from byte `offset` of element `pos` on. */
  function Rest(iovs: seq<Iovec>, pos: nat, offset: nat): seq<nat>
    requires pos <= |iovs| && (pos < |iovs| ==> offset <= iovs[pos].len)
  {
    if pos == |iovs| then []
    else Span(iovs[pos].base + offset, iovs[pos].len - offset) + Flatten(iovs[pos + 1..])
  }

  lemma RestOfElement(iovs: seq<Iovec>, pos: nat)
    requires pos < |iovs|
    ensures Flatten(iovs[pos..]) == Rest(iovs, pos, 0)
  {
    assert iovs[pos..][1..] == iovs[pos + 1..];
  }

  /** Passing over a whole element drops its bytes. */
  lemma SkipElement(iovs: seq<Iovec>, pos: nat, offset: nat)
    requires pos < |iovs| && iovs[pos].len <= offset <= |Flatten(iovs[pos..])|
    ensures offset - iovs[pos].len <= |Flatten(iovs[pos + 1..])|
    ensures Flatten(iovs[pos..])[offset..] == Flatten(iovs[pos + 1..])[offset - iovs[pos].len..]
  {
    RestOfElement(iovs, pos);
  }

  lemma StopInElement(iovs: seq<Iovec>, pos: nat, offset: nat)
    requires pos < |iovs| && offset < iovs[pos].len
    ensures offset <= |Flatten(iovs[pos..])|
    ensures Flatten(iovs[pos..])[offset..] == Rest(iovs, pos, offset)
  {
    RestOfElement(iovs, pos);
  }

  /** `got` and `ahead` make up `wanted`, until `count` addresses have been collected. */
  ghost predicate Progress(got: seq<nat>, ahead: seq<nat>, wanted: seq<nat>, count: nat) {
    && |got| <= count <= |wanted|
    && if |got| < count then got + ahead == wanted else got == wanted[..count]
  }

  lemma GatherOne(got: seq<nat>, address: nat, length: nat, ahead: seq<nat>, wanted: seq<nat>, count: nat)
    requires |got| < count && Progress(got, Span(address, length) + ahead, wanted, count)
    ensures var used := if length <= count - |got| then length else count - |got|;
            Progress(got + Span(address, used), ahead, wanted, count)
  {
    var used := if length <= count - |got| then length else count - |got|;
    assert Span(address, used) == Span(address, length)[..used];
    assert got + (Span(address, length) + ahead) == got + Span(address, length) + ahead;
  }

  class IoReq {
    const iovs: array<Iovec>
    var isCompleted: bool
    var iovPos: nat
    var iovOffset: nat

    /** `init_req`: the offset is left as it was. */
    constructor (iovs: array<Iovec>, junk: nat)
      ensures this.iovs == iovs && iovPos == 0 && iovOffset == junk && !isCompleted
    {
      this.iovs := iovs;
      isCompleted := false;
      iovPos, iovOffset := 0, junk;
    }

    /** The cursor stands inside an element, at the start of one, or behind the last one. */
    ghost predicate Placed()
      reads this, iovs
    {
      && iovPos <= iovs.Length
      && (iovPos < iovs.Length ==> iovOffset < iovs[iovPos].len || iovOffset == 0)
    }

    /** The addresses still ahead of the cursor. */
    ghost function Ahead(): seq<nat>
      requires Placed()
      reads this, iovs
    {
      Rest(iovs[..], iovPos, iovOffset)
    }

    /** Puts the cursor on byte `offset`; behind the end, the excess is left in the offset. */
    method ResetSgl(offset: Word)
      modifies this
      ensures Placed() && isCompleted == old(isCompleted)
      ensures offset <= |Flatten(iovs[..])| ==> Ahead() == Flatten(iovs[..])[offset..]
      ensures offset >= |Flatten(iovs[..])| ==> iovPos == iovs.Length && iovOffset == offset - |Flatten(iovs[..])|
    {
      ghost var all := iovs[..];
      assert all[0..] == all;
      iovOffset := offset;
      iovPos := 0;
      while iovPos < iovs.Length
        invariant unchanged(iovs) && isCompleted == old(isCompleted)
        invariant iovPos <= iovs.Length
        invariant iovOffset - |Flatten(all[iovPos..])| == offset - |Flatten(all)|
        invariant offset <= |Flatten(all)| ==> Flatten(all[iovPos..])[iovOffset..] == Flatten(all)[offset..]
        decreases iovs.Length - iovPos
      {
        RestOfElement(all, iovPos);
        if iovOffset < iovs[iovPos].len {
          StopInElement(all, iovPos, iovOffset);
          return;
        }
        if offset <= |Flatten(all)| {
          SkipElement(all, iovPos, iovOffset);
        }
        iovOffset := iovOffset - iovs[iovPos].len;
        iovPos := iovPos + 1;
      }
      assert all[iovPos..] == [];
    }

    /** Hands out the rest of the current element and moves on to the next one. */
    method NextSge() returns (address: nat, length: nat)
      requires Placed() && iovPos < iovs.Length
      modifies this
      ensures Placed() && iovPos == old(iovPos) + 1 && iovOffset == 0 && isCompleted == old(isCompleted)
      ensures old(Ahead()) == Span(address, length) + Ahead()
      ensures length == 0 ==> iovs[old(iovPos)].len == 0
    {
      var iov := iovs[iovPos];
      address, length := iov.base, iov.len;
      if iovOffset != 0 {
        address, length := address + iovOffset, length - iovOffset;
      }
      iovOffset := iovOffset + length;
      if iovOffset == iov.len {
        iovPos := iovPos + 1;
        iovOffset := 0;
      }
      if iovPos < iovs.Length {
        RestOfElement(iovs[..], iovPos);
      } else {
        assert iovs[..][iovPos..] == [];
      }
    }

    /**
     * What the driver does for a transfer of `count` bytes from byte `offset` on: it asks
     * for elements until it has enough and ignores the rest of the last one.
     */
    method Gather(offset: Word, count: nat) returns (addresses: seq<nat>)
      requires offset + count <= |Flatten(iovs[..])|
      modifies this
      ensures addresses == Flatten(iovs[..])[offset..offset + count]
    {
      ghost var wanted := Flatten(iovs[..])[offset..];
      ResetSgl(offset);
      addresses := [];
      while |addresses| < count
        invariant Placed() && Progress(addresses, Ahead(), wanted, count)
        decreases count - |addresses|, iovs.Length - iovPos
      {
        var address, length := NextSge();
        GatherOne(addresses, address, length, Ahead(), wanted, count);
        addresses := addresses + Span(address, if length <= count - |addresses| then length else count - |addresses|);
      }
      assert wanted[..count] == Flatten(iovs[..])[offset..offset + count];
    }
  }

  // ---------------------------------------------------------------- the bytes behind the addresses

  type Memory = map<nat, int>

  predicate Mapped(mem: Memory, addresses: seq<nat>) {
    forall i :: 0 <= i < |addresses| ==> addresses[i] in mem
  }

  /** What a write sends to the device. */
  function Load(mem: Memory, addresses: seq<nat>): (data: seq<int>)
    requires Mapped(mem, addresses)
    ensures |data| == |addresses|
    ensures forall i :: 0 <= i < |data| ==> data[i] == mem[addresses[i]]
  {
    seq(|addresses|, i requires 0 <= i < |addresses| => mem[addresses[i]])
  }

  /** What a read leaves in memory, byte by byte. */
  function Fill(mem: Memory, addresses: seq<nat>, data: seq<int>): Memory
    requires |data| == |addresses|
  {
    if addresses == [] then mem
    else
      var n := |addresses| - 1;
      Fill(mem, addresses[..n], data[..n])[addresses[n] := data[n]]
  }

  lemma {:induction false} FillIsPointwise(mem: Memory, addresses: seq<nat>, data: seq<int>)
    requires |data| == |addresses| && NoDup(addresses)
    ensures forall i :: 0 <= i < |addresses| ==>
              addresses[i] in Fill(mem, addresses, data) && Fill(mem, addresses, data)[addresses[i]] == data[i]
    ensures forall x :: x in mem && x !in addresses ==>
              x in Fill(mem, addresses, data) && Fill(mem, addresses, data)[x] == mem[x]
  {
    if addresses != [] {
      var n := |addresses| - 1;
      FillIsPointwise(mem, addresses[..n], data[..n]);
    }
  }
}
