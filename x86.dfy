/** The x86-64 instructions that the hook installers emit, byte for byte,
    and what a stretch of emitted code means: which function it calls and
    where its relative jumps land (Intel SDM Vol. 2A: CALL, JMP, MOV). */
module X86 {
  import opened Bytes
  import opened Code

  const PUSH_RCX: seq<uint8> := [0x51]
  const PUSH_RDX: seq<uint8> := [0x52]
  const PUSH_R8: seq<uint8> := [0x41, 0x50]
  const POP_R8: seq<uint8> := [0x41, 0x58]
  const POP_RDX: seq<uint8> := [0x5A]
  const POP_RCX: seq<uint8> := [0x59]
  const SUB_RSP_20: seq<uint8> := [0x48, 0x83, 0xEC, 0x20]
  const ADD_RSP_20: seq<uint8> := [0x48, 0x83, 0xC4, 0x20]
  const SUB_RSP_28: seq<uint8> := [0x48, 0x83, 0xEC, 0x28]
  const ADD_RSP_28: seq<uint8> := [0x48, 0x83, 0xC4, 0x28]
  /** `mov rax, imm64`; the 8-byte immediate follows. */
  const MOV_RAX_IMM64: seq<uint8> := [0x48, 0xB8]
  const CALL_RAX: seq<uint8> := [0xFF, 0xD0]
  const TEST_RAX_RAX: seq<uint8> := [0x48, 0x85, 0xC0]
  /** `jz $+1`: skips the one-byte instruction that follows. */
  const JZ_SKIP_1: seq<uint8> := [0x74, 0x01]
  const RETN: seq<uint8> := [0xC3]
  /** `mov rax, [rip + rel32]`; the 4-byte displacement follows. */
  const MOV_RAX_RIP_RELATIVE: seq<uint8> := [0x48, 0x8B, 0x05]
  /** `jmp rel32`; the 4-byte displacement follows. */
  const JMP_REL32: seq<uint8> := [0xE9]
  const NOP: seq<uint8> := [0x90]
  const NOP_NOP: seq<uint8> := [0x90, 0x90]

  /** `jmp rel32` at offset `at` of code placed at codeAddress continues at target. */
  ghost predicate JumpsTo(code: seq<uint8>, at: nat, codeAddress: int, target: int)
  {
    at + 5 <= |code| && code[at..at + 1] == JMP_REL32 && Rel32Reaches(code, at + 1, codeAddress, target)
  }

  /** `mov rax, callee` followed by `call rax` at offset `at`. */
  ghost predicate CallsThroughRax(code: seq<uint8>, at: nat, callee: uint64)
  {
    && at + 12 <= |code|
    && code[at..at + 2] == MOV_RAX_IMM64
    && FromLittleEndian(code[at + 2..at + 10]) == callee
    && code[at + 10..at + 12] == CALL_RAX
  }

  /** `mov rax, [loaded]` at offset `at`, RIP-relative. */
  ghost predicate LoadsRipRelative(code: seq<uint8>, at: nat, codeAddress: int, loaded: int)
  {
    at + 7 <= |code| && code[at..at + 3] == MOV_RAX_RIP_RELATIVE && Rel32Reaches(code, at + 3, codeAddress, loaded)
  }

  const PUSH_RBX: seq<uint8> := [0x40, 0x53]
  const MOV_RCX_R15: seq<uint8> := [0x49, 0x8B, 0xCF]
  const MOV_RDX_R14: seq<uint8> := [0x49, 0x8B, 0xD6]
  /** `mov rax, [r15]`. */
  const MOV_RAX_AT_R15: seq<uint8> := [0x49, 0x8B, 0x07]

  /** code followed by `jmp target`, the rel32 operand computed, as
      offset32 does, for the offset at which it is written when code is
      placed at codeAddress. */
  function AppendJump(code: seq<uint8>, codeAddress: uint64, target: uint64): seq<uint8>
  {
    var beforeOperand := code + JMP_REL32;
    beforeOperand + U32Bytes(Displacement32(target, codeAddress, |beforeOperand|))
  }

  /** code followed by `mov rax, [loaded]`, RIP-relative, its operand
      computed in the same way. */
  function AppendLoad(code: seq<uint8>, codeAddress: uint64, loaded: uint64): seq<uint8>
  {
    var beforeOperand := code + MOV_RAX_RIP_RELATIVE;
    beforeOperand + U32Bytes(Displacement32(loaded, codeAddress, |beforeOperand|))
  }

  /** code followed by `mov rax, [loaded]; jmp target`. */
  function AppendLoadThenJump(code: seq<uint8>, codeAddress: uint64, loaded: uint64, target: uint64): seq<uint8>
  {
    AppendJump(AppendLoad(code, codeAddress, loaded), codeAddress, target)
  }

  /** The appended jump is five bytes, keeps code in front of it and lands on target. */
  lemma AppendJumpLayout(code: seq<uint8>, codeAddress: uint64, target: uint64)
    ensures var w := AppendJump(code, codeAddress, target);
      |w| == |code| + 5 && code <= w && JumpsTo(w, |code|, codeAddress, target)
  {
    var w := AppendJump(code, codeAddress, target);
    assert w[|code|..|code| + 1] == JMP_REL32;
    OperandReaches(w, |code| + 1, codeAddress, target);
  }

  /** The appended load is seven bytes, keeps code in front of it and reads loaded. */
  lemma AppendLoadLayout(code: seq<uint8>, codeAddress: uint64, loaded: uint64)
    ensures var w := AppendLoad(code, codeAddress, loaded);
      |w| == |code| + 7 && code <= w && LoadsRipRelative(w, |code|, codeAddress, loaded)
  {
    var w := AppendLoad(code, codeAddress, loaded);
    assert w[|code|..|code| + 3] == MOV_RAX_RIP_RELATIVE;
    OperandReaches(w, |code| + 3, codeAddress, loaded);
  }

  /** `mov rax, callee; call rax` appended to prefix calls callee. */
  lemma CallThroughRaxLayout(prefix: seq<uint8>, callee: uint64)
    ensures var w := prefix + MOV_RAX_IMM64 + U64Bytes(callee) + CALL_RAX;
      |w| == |prefix| + 12 && CallsThroughRax(w, |prefix|, callee)
  {
    var w := prefix + MOV_RAX_IMM64 + U64Bytes(callee) + CALL_RAX;
    var p := |prefix|;
    assert w[p..p + 2] == MOV_RAX_IMM64;
    assert w[p + 2..p + 10] == U64Bytes(callee);
    assert w[p + 10..p + 12] == CALL_RAX;
  }

  /** Code appended after a call leaves the call in place. */
  lemma CallsThroughRaxKept(code: seq<uint8>, w: seq<uint8>, at: nat, callee: uint64)
    requires code <= w && CallsThroughRax(code, at, callee)
    ensures CallsThroughRax(w, at, callee)
  {
    assert w[at..at + 2] == code[at..at + 2];
    assert w[at + 2..at + 10] == code[at + 2..at + 10];
    assert w[at + 10..at + 12] == code[at + 10..at + 12];
  }

  /** Code appended after a load leaves the load in place. */
  lemma LoadsRipRelativeKept(code: seq<uint8>, w: seq<uint8>, at: nat, codeAddress: uint64, loaded: uint64)
    requires code <= w && LoadsRipRelative(code, at, codeAddress, loaded)
    ensures LoadsRipRelative(w, at, codeAddress, loaded)
  {
    assert w[at..at + 3] == code[at..at + 3];
    assert w[at + 3..at + 7] == code[at + 3..at + 7];
  }

  /** The patch `jmp target` followed by padding, written at address. */
  function JumpPatch(address: uint64, target: uint64, padding: seq<uint8>): seq<uint8>
  {
    AppendJump([], address, target) + padding
  }

  /** The patch is five bytes of jump to target, then the padding. */
  lemma JumpPatchLayout(address: uint64, target: uint64, padding: seq<uint8>)
    ensures var p := JumpPatch(address, target, padding);
      |p| == 5 + |padding| && JumpsTo(p, 0, address, target) && p[5..] == padding
  {
    var jump := AppendJump([], address, target);
    AppendJumpLayout([], address, target);
    var p := JumpPatch(address, target, padding);
    assert p[0..1] == jump[0..1] && p[1..5] == jump[1..5];
  }

  /** `jmp target`: the opcode, then the operand for the offset it lands at. */
  method WriteJump(code: ModifiableCode, target: uint64)
    requires code.Valid() && code.Writable(5)
    modifies code`writeOffset, code.memory
    ensures code.Valid() && code.writeOffset == old(code.writeOffset) + 5
    ensures code.Written() == AppendJump(old(code.Written()), code.address, target)
  {
    var written := code.Bytes(JMP_REL32);
    written := code.Offset32(target);
  }

  /** `mov rax, [loaded]`: the opcode, then the operand for the offset it lands at. */
  method WriteLoad(code: ModifiableCode, loaded: uint64)
    requires code.Valid() && code.Writable(7)
    modifies code`writeOffset, code.memory
    ensures code.Valid() && code.writeOffset == old(code.writeOffset) + 7
    ensures code.Written() == AppendLoad(old(code.Written()), code.address, loaded)
  {
    var written := code.Bytes(MOV_RAX_RIP_RELATIVE);
    written := code.Offset32(loaded);
  }

  /** The patch `jmp target` and its padding, written through a fresh
      cursor over the patched code: the writes with which the jump-patching
      hook installers redirect the engine's code into their wrapper. */
  method WriteJumpPatch(patch: ModifiableCode, target: uint64, padding: seq<uint8>)
    requires patch.Valid() && patch.Written() == [] && 5 + |padding| <= patch.length
    modifies patch`writeOffset, patch.memory
    ensures patch.Valid() && patch.Written() == JumpPatch(patch.address, target, padding)
  {
    WriteJump(patch, target);
    var written := patch.Bytes(padding);
  }

  /** The last writes of both bundle-read wrappers: the overwritten
      RIP-relative load, then the jump back into the engine. */
  method WriteLoadThenJump(code: ModifiableCode, loaded: uint64, target: uint64)
    requires code.Valid() && code.Writable(12)
    modifies code`writeOffset, code.memory
    ensures code.Valid() && code.writeOffset == old(code.writeOffset) + 12
    ensures code.Written() == AppendLoadThenJump(old(code.Written()), code.address, loaded, target)
  {
    WriteLoad(code, loaded);
    WriteJump(code, target);
  }

  /** `mov rax, callee; call rax`: how every wrapper calls its hook, an
      absolute 64-bit address that no rel32 call could reach. */
  method WriteCallThroughRax(code: ModifiableCode, callee: uint64)
    requires code.Valid() && code.Writable(12)
    modifies code`writeOffset, code.memory
    ensures code.Valid() && code.writeOffset == old(code.writeOffset) + 12
    ensures code.Written() == old(code.Written()) + MOV_RAX_IMM64 + U64Bytes(callee) + CALL_RAX
  {
    var written := code.Bytes(MOV_RAX_IMM64);
    written := code.U64(callee);
    written := code.Bytes(CALL_RAX);
  }
}
