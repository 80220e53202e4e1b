/** A bounded write cursor over a region of code memory
    (internal/src/memory/modifiable_code.h). The region is a window
    [origin, origin + length) of a Memory object that stands for a stretch
    of the process's address space; `address` is the virtual address of the
    region's first byte. A write that would leave the region is refused
    before anything is written (the source throws; here the write returns
    false). */
module Code {
  import opened Bytes

  /** s with the bytes at [at, at + |bs|) replaced by bs. */
  function Overwrite(s: seq<uint8>, at: nat, bs: seq<uint8>): (r: seq<uint8>)
    requires at + |bs| <= |s|
    ensures |r| == |s| && r[at..at + |bs|] == bs
    ensures forall i | 0 <= i < |s| && !(at <= i < at + |bs|) :: r[i] == s[i]
  {
    s[..at] + bs + s[at + |bs|..]
  }

  /** The rel32 operand that offset32 stores: the uint64 difference between
      the target and the address just past the 4-byte operand, truncated to
      32 bits. */
  function Displacement32(target: uint64, address: uint64, writeOffset: nat): uint32
  {
    var source := Wrap64(address + writeOffset + 4);
    Wrap32(Wrap64(target - source))
  }

  /** The operand makes a JMP/CALL rel32 whose operand ends at
      address + writeOffset + 4 land on target (modulo 2^32, the width of the
      operand; Intel SDM Vol. 2A, JMP). */
  lemma DisplacementLands(target: uint64, address: uint64, writeOffset: nat)
    ensures (Displacement32(target, address, writeOffset) + address + writeOffset + 4) % TWO_TO_THE_32
            == target % TWO_TO_THE_32
  {
    var x := address + writeOffset + 4;
    var source := Wrap64(x);
    var diff := Wrap64(target - source);
    var q1, q2, q3 := x / TWO_TO_THE_64, (target - source) / TWO_TO_THE_64, diff / TWO_TO_THE_32;
    assert source == x - TWO_TO_THE_64 * q1;
    assert diff == target - source - TWO_TO_THE_64 * q2;
    assert Displacement32(target, address, writeOffset) == diff - TWO_TO_THE_32 * q3;
    var k := TWO_TO_THE_32 * (q1 - q2) - q3;
    assert Displacement32(target, address, writeOffset) + x == target + TWO_TO_THE_32 * k;
    ModAddMultiple32(target, k);
  }

  lemma ModAddMultiple32(x: int, k: int)
    ensures (x + TWO_TO_THE_32 * k) % TWO_TO_THE_32 == x % TWO_TO_THE_32
  {
    var r := x % TWO_TO_THE_32;
    assert x + TWO_TO_THE_32 * k == TWO_TO_THE_32 * (x / TWO_TO_THE_32 + k) + r;
  }

  /** after is before with the bytes at [at, at + |bs|) replaced by bs, and
      nothing else changed. */
  ghost predicate Replaced(before: seq<uint8>, after: seq<uint8>, at: nat, bs: seq<uint8>)
  {
    && |after| == |before| && at + |bs| <= |before|
    && after[..at] == before[..at]
    && after[at..at + |bs|] == bs
    && after[at + |bs|..] == before[at + |bs|..]
  }

  /** Replaced says exactly that after is Overwrite(before, at, bs). */
  lemma ReplacedIsOverwrite(before: seq<uint8>, after: seq<uint8>, at: nat, bs: seq<uint8>)
    ensures Replaced(before, after, at, bs) <==> at + |bs| <= |before| && after == Overwrite(before, at, bs)
  {
    if Replaced(before, after, at, bs) {
      assert after == after[..at] + after[at..at + |bs|] + after[at + |bs|..];
    }
  }

  /** Writing right after the bytes already in place extends them. */
  lemma ReplacedExtends(background: seq<uint8>, s: seq<uint8>, t: seq<uint8>, at: nat, w: seq<uint8>, bs: seq<uint8>)
    requires Replaced(background, s, at, w) && Replaced(s, t, at + |w|, bs)
    ensures Replaced(background, t, at, w + bs)
  {
    assert t[..at] == s[..at + |w|][..at];
    assert s[..at] == s[..at + |w|][..at];
    assert t[at..at + |w| + |bs|] == t[at..at + |w|] + t[at + |w|..at + |w| + |bs|];
    assert t[at..at + |w|] == t[..at + |w|][at..];
    assert s[at..at + |w|] == s[..at + |w|][at..];
  }

  /** Two stretches that do not overlap. */
  predicate Apart(a: nat, m: nat, b: nat, n: nat)
  {
    a + m <= b || b + n <= a
  }

  /** The 4-byte rel32 operand at offset `at` of code placed at codeAddress
      reaches target: operand plus the address just past it equals target
      modulo 2^32. */
  ghost predicate Rel32Reaches(code: seq<uint8>, at: nat, codeAddress: int, target: int)
  {
    at + 4 <= |code| && (FromLittleEndian(code[at..at + 4]) + codeAddress + at + 4) % TWO_TO_THE_32 == target % TWO_TO_THE_32
  }

  /** The operand that offset32 stores at offset at of code placed at
      codeAddress reaches its target. */
  lemma OperandReaches(code: seq<uint8>, at: nat, codeAddress: uint64, target: uint64)
    requires at + 4 <= |code| && code[at..at + 4] == U32Bytes(Displacement32(target, codeAddress, at))
    ensures Rel32Reaches(code, at, codeAddress, target)
  {
    DisplacementLands(target, codeAddress, at);
  }

  /** A stretch of the process's address space, written in place through
      the cursors that alias it. */
  class Memory {
    var bytes: seq<uint8>

    constructor (bytes: seq<uint8>)
      ensures this.bytes == bytes
    {
      this.bytes := bytes;
    }
  }

  class ModifiableCode {
    /** Address of the region; null (0) once the object has been moved from. */
    var address: uint64
    const length: nat
    var writeOffset: nat
    /** The memory that holds the region, and the index of its first byte. */
    const memory: Memory
    const origin: nat
    /** The memory as it was when the cursor was made. */
    ghost const background: seq<uint8>

    /** The cursor stays inside its region, and the memory is the
        background with the bytes written so far in place at origin. */
    ghost predicate Valid()
      reads this, memory
    {
      && writeOffset <= length && origin + length <= |background| && |memory.bytes| == |background|
      && Replaced(background, memory.bytes, origin, memory.bytes[origin..origin + writeOffset])
    }

    /** The bytes written so far, from the start of the region. */
    ghost function Written(): seq<uint8>
      reads this, memory
      requires Valid()
    {
      memory.bytes[origin..origin + writeOffset]
    }

    constructor (address: uint64, length: nat, memory: Memory, origin: nat)
      requires origin + length <= |memory.bytes|
      ensures Valid() && Written() == [] && background == memory.bytes
      ensures this.address == address && this.length == length && this.writeOffset == 0
      ensures this.memory == memory && this.origin == origin
    {
      this.address := address;
      this.length := length;
      this.writeOffset := 0;
      this.memory := memory;
      this.origin := origin;
      this.background := memory.bytes;
    }

    /** Move construction: the new object takes over the region and the
        source is left with a null address. */
    constructor Moved(other: ModifiableCode)
      requires other.Valid()
      modifies other`address
      ensures Valid()
      ensures address == old(other.address) && length == other.length && writeOffset == other.writeOffset
      ensures memory == other.memory && origin == other.origin && background == other.background
      ensures other.address == 0 && !other.RestoresProtection()
      ensures RestoresProtection() == (old(other.address) != 0)
    {
      address := other.address;
      length := other.length;
      writeOffset := other.writeOffset;
      memory := other.memory;
      origin := other.origin;
      background := other.background;
      new;
      other.address := 0;
    }

    /** Whether the destructor puts the previous protection back. */
    predicate RestoresProtection()
      reads this
    {
      address != 0
    }

    /** check_writable: byteCount more bytes fit in the region. */
    predicate Writable(byteCount: nat)
      reads this
    {
      byteCount + writeOffset <= length
    }

    /** Writes the bytes one at a time at the cursor. */
    method Bytes(bs: seq<uint8>) returns (ok: bool)
      requires Valid()
      modifies this`writeOffset, memory
      ensures Valid()
      ensures ok == old(Writable(|bs|))
      ensures ok ==> writeOffset == old(writeOffset) + |bs|
      ensures ok ==> Written() == old(Written()) + bs
      ensures !ok ==> writeOffset == old(writeOffset) && memory.bytes == old(memory.bytes)
    {
      ok := Writable(|bs|);
      if !ok {
        return;
      }
      ghost var before, done := memory.bytes, Written();
      ghost var at := origin + writeOffset;
      var i := 0;
      while i < |bs|
        invariant 0 <= i <= |bs|
        invariant writeOffset == old(writeOffset) + i
        invariant memory.bytes == Overwrite(before, at, bs[..i])
      {
        memory.bytes := memory.bytes[origin + writeOffset := bs[i]];
        writeOffset := writeOffset + 1;
        i := i + 1;
        assert bs[..i] == bs[..i - 1] + [bs[i - 1]];
      }
      assert bs[..i] == bs;
      ReplacedIsOverwrite(before, memory.bytes, at, bs);
      ReplacedExtends(background, before, memory.bytes, origin, done, bs);
    }

    method U32(value: uint32) returns (ok: bool)
      requires Valid()
      modifies this`writeOffset, memory
      ensures Valid()
      ensures ok == old(Writable(4))
      ensures ok ==> writeOffset == old(writeOffset) + 4
      ensures ok ==> Written() == old(Written()) + U32Bytes(value)
      ensures !ok ==> writeOffset == old(writeOffset) && memory.bytes == old(memory.bytes)
    {
      ok := Store(U32Bytes(value));
    }

    method U64(value: uint64) returns (ok: bool)
      requires Valid()
      modifies this`writeOffset, memory
      ensures Valid()
      ensures ok == old(Writable(8))
      ensures ok ==> writeOffset == old(writeOffset) + 8
      ensures ok ==> Written() == old(Written()) + U64Bytes(value)
      ensures !ok ==> writeOffset == old(writeOffset) && memory.bytes == old(memory.bytes)
    {
      ok := Store(U64Bytes(value));
    }

    /** One unaligned store of an integer's bytes at the cursor. */
    method Store(encoded: seq<uint8>) returns (ok: bool)
      requires Valid()
      modifies this`writeOffset, memory
      ensures Valid()
      ensures ok == old(Writable(|encoded|))
      ensures ok ==> writeOffset == old(writeOffset) + |encoded|
      ensures ok ==> Written() == old(Written()) + encoded
      ensures !ok ==> writeOffset == old(writeOffset) && memory.bytes == old(memory.bytes)
    {
      ok := Writable(|encoded|);
      if !ok {
        return;
      }
      ghost var before, done := memory.bytes, Written();
      var at := origin + writeOffset;
      memory.bytes := Overwrite(memory.bytes, at, encoded);
      writeOffset := writeOffset + |encoded|;
      ReplacedIsOverwrite(before, memory.bytes, at, encoded);
      ReplacedExtends(background, before, memory.bytes, origin, done, encoded);
    }

    /** Stores the rel32 operand that makes the jump or call whose operand
        this is land on target. */
    method Offset32(target: uint64) returns (ok: bool)
      requires Valid()
      modifies this`writeOffset, memory
      ensures Valid()
      ensures ok == old(Writable(4))
      ensures ok ==> writeOffset == old(writeOffset) + 4
      ensures ok ==> Written() == old(Written()) + U32Bytes(Displacement32(target, address, |old(Written())|))
      ensures ok ==> Rel32Reaches(Written(), |old(Written())|, address, target)
      ensures !ok ==> writeOffset == old(writeOffset) && memory.bytes == old(memory.bytes)
    {
      var source := Wrap64(address + writeOffset + 4);
      var displacement := Wrap32(Wrap64(target - source));
      ok := U32(displacement);
      if ok {
        assert Written()[old(writeOffset)..old(writeOffset) + 4] == U32Bytes(displacement);
        OperandReaches(Written(), old(writeOffset), address, target);
      }
    }
  }
}
