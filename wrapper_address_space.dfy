/** The bump allocator that hands out pieces of the wrapper region
    (internal/src/memory/wrapper_address_space.h). The region
    [baseAddress, baseAddress + length) is stood for by `memory`, whose index
    0 is baseAddress. */
module WrapperSpace {
  import opened Bytes
  import opened Code

  /** The length every hook reserves for its wrapper. */
  const WRAPPER_RESERVATION: nat := 0x40

  /** A reservation: offset from the base and length. */
  datatype Segment = Segment(offset: nat, length: nat)

  /** The segments lie one right after another, the first at offset 0, and
      the last one ends at end. */
  ghost predicate Contiguous(segments: seq<Segment>, end: nat)
    decreases |segments|
  {
    if segments == [] then end == 0
    else
      var last := segments[|segments| - 1];
      last.offset + last.length == end && Contiguous(segments[..|segments| - 1], last.offset)
  }

  /** Contiguous segments are pairwise disjoint, in order, and all lie below end. */
  lemma {:induction false} ContiguousDisjoint(segments: seq<Segment>, end: nat)
    requires Contiguous(segments, end)
    ensures forall i | 0 <= i < |segments| :: segments[i].offset + segments[i].length <= end
    ensures forall i, j | 0 <= i < j < |segments| :: segments[i].offset + segments[i].length <= segments[j].offset
  {
    if segments != [] {
      var n := |segments| - 1;
      var init := segments[..n];
      ContiguousDisjoint(init, segments[n].offset);
      forall i, j | 0 <= i < j < |segments|
        ensures segments[i].offset + segments[i].length <= segments[j].offset
      {
        if j < n {
          assert segments[i] == init[i] && segments[j] == init[j];
        } else {
          assert segments[i] == init[i];
        }
      }
      forall i | 0 <= i < |segments|
        ensures segments[i].offset + segments[i].length <= end
      {
        if i < n {
          assert segments[i] == init[i];
        }
      }
    }
  }

  class WrapperAddressSpace {
    /** Base of the region; 0 when there is none (moved from). */
    var baseAddress: uint64
    var unusedOffset: nat
    const length: nat
    const memory: Memory
    /** Every reservation handed out so far, in order. */
    ghost var segments: seq<Segment>

    ghost predicate Valid()
      reads this, memory
    {
      unusedOffset <= length && |memory.bytes| == length && Contiguous(segments, unusedOffset)
    }

    constructor (baseAddress: uint64, memory: Memory)
      ensures Valid() && segments == []
      ensures this.baseAddress == baseAddress && unusedOffset == 0
      ensures length == |memory.bytes| && this.memory == memory
    {
      this.baseAddress := baseAddress;
      this.unusedOffset := 0;
      this.length := |memory.bytes|;
      this.memory := memory;
      this.segments := [];
    }

    /** Move construction: the new object takes over the region; the source
        is left with base 0, so it can reserve nothing and frees nothing. */
    constructor Moved(other: WrapperAddressSpace)
      requires other.Valid()
      modifies other`baseAddress
      ensures Valid()
      ensures baseAddress == old(other.baseAddress) && unusedOffset == other.unusedOffset
      ensures length == other.length && memory == other.memory && segments == other.segments
      ensures other.baseAddress == 0 && !other.ReleasesOnDestroy() && !other.CanReserve(0)
      ensures other.unusedOffset == old(other.unusedOffset)
    {
      baseAddress := other.baseAddress;
      unusedOffset := other.unusedOffset;
      length := other.length;
      memory := other.memory;
      segments := other.segments;
      new;
      other.baseAddress := 0;
    }

    /** Whether the destructor releases the region (VirtualFree). */
    predicate ReleasesOnDestroy()
      reads this
    {
      baseAddress != 0
    }

    /** The condition under which reserve does not throw. */
    predicate CanReserve(segmentLength: nat)
      reads this
    {
      baseAddress != 0 && unusedOffset + segmentLength <= length
    }

    /** Hands out the next segmentLength bytes as a write cursor; null when
        the source throws "Wrapper address space is exhausted". */
    method Reserve(segmentLength: nat) returns (code: ModifiableCode?)
      requires Valid()
      modifies this`unusedOffset, this`segments
      ensures Valid()
      ensures (code != null) == old(CanReserve(segmentLength))
      ensures code == null ==> unusedOffset == old(unusedOffset) && segments == old(segments)
      ensures code != null ==>
        && fresh(code) && code.Valid() && code.Written() == [] && code.background == memory.bytes
        && code.memory == memory && code.origin == old(unusedOffset) && code.length == segmentLength
        && code.address == Wrap64(baseAddress + old(unusedOffset))
        && unusedOffset == old(unusedOffset) + segmentLength
        && segments == old(segments) + [Segment(old(unusedOffset), segmentLength)]
    {
      if baseAddress == 0 || unusedOffset + segmentLength > length {
        return null;
      }
      code := new ModifiableCode(Wrap64(baseAddress + unusedOffset), segmentLength, memory, unusedOffset);
      segments := segments + [Segment(unusedOffset, segmentLength)];
      unusedOffset := unusedOffset + segmentLength;
      assert segments[..|segments| - 1] == old(segments);
    }
  }
}
