/** The four hook installers of internal/src/emitters.cpp and
    emitters_setup. Each installer reserves 0x40 bytes of wrapper space,
    writes a wrapper there that calls its hook (the address of the C++ hook
    function, a parameter here) and then continues with the engine's code,
    and redirects the engine into the wrapper: two by overwriting a vtable
    slot with the wrapper's address, two by a `jmp wrapper; nop` over the
    first six bytes of the engine's code. */
module EmitterHooks {
  import opened Bytes
  import opened Code
  import opened X86
  import opened WrapperSpace
  import opened Emitters
  import opened Sequences

  /** Offsets in the executable image: the patched vtable slots and code,
      and where each wrapper continues in the engine. */
  const EMITTER_PARSE_SLOT: nat := 0x1F3F4D0
  const EMITTER_PARSE_ORIGINAL: nat := 0x516490
  const EMITTER_DESTRUCT_PATCH: nat := 0x518FE0
  const EMITTER_DESTRUCT_RESUME: nat := 0x518FE6
  const RENDER_REGISTER_PATCH: nat := 0xBFB047
  const RENDER_REGISTER_RESUME: nat := 0xBFB04D
  const RENDER_DESTRUCT_SLOT: nat := 0x214B4B8
  const RENDER_DESTRUCT_ORIGINAL: nat := 0xC08B20
  const PATCH_REGION: nat := 0x08

  /** The wrapper of hook_set_emitter_register and of
      hook_set_render_emitter_destruct: save both argument registers, call
      the hook with them, restore them and jump to the original function. */
  function ArgumentSavingWrapper(hook: uint64, entry: uint64, original: uint64): seq<uint8>
  {
    var call := PUSH_RCX + PUSH_RDX + SUB_RSP_28 + MOV_RAX_IMM64 + U64Bytes(hook) + CALL_RAX;
    AppendJump(call + ADD_RSP_28 + POP_RDX + POP_RCX, entry, original)
  }

  /** The wrapper of hook_set_emitter_destruct: call the hook with rcx
      saved, then run the two instructions that the patch overwrote
      (`push rbx; sub rsp, 20h`) and jump back behind the patch. */
  function EmitterDestructWrapper(hook: uint64, entry: uint64, resume: uint64): seq<uint8>
  {
    var call := PUSH_RCX + SUB_RSP_20 + MOV_RAX_IMM64 + U64Bytes(hook) + CALL_RAX;
    AppendJump(call + ADD_RSP_20 + POP_RCX + PUSH_RBX + SUB_RSP_20, entry, resume)
  }

  /** The wrapper of hook_set_render_emitter_register: pass r15 and r14 as
      the hook's arguments, call it, run the two overwritten instructions
      (`mov rax, [r15]; mov rcx, r15`) and jump back behind the patch. */
  function RenderRegisterWrapper(hook: uint64, entry: uint64, resume: uint64): seq<uint8>
  {
    var call := MOV_RCX_R15 + MOV_RDX_R14 + MOV_RAX_IMM64 + U64Bytes(hook) + CALL_RAX;
    AppendJump(call + MOV_RAX_AT_R15 + MOV_RCX_R15, entry, resume)
  }

  /** The argument-saving wrapper is 29 bytes: it saves rcx and rdx, calls
      the hook at offset 6, restores both and jumps to the original
      function at 24. */
  lemma ArgumentSavingWrapperLayout(hook: uint64, entry: uint64, original: uint64)
    ensures var w := ArgumentSavingWrapper(hook, entry, original);
      && |w| == 29 && |w| <= WRAPPER_RESERVATION
      && w[..2] == PUSH_RCX + PUSH_RDX
      && CallsThroughRax(w, 6, hook)
      && w[18..24] == ADD_RSP_28 + POP_RDX + POP_RCX
      && JumpsTo(w, 24, entry, original)
  {
    var saving := PUSH_RCX + PUSH_RDX;
    var call := saving + SUB_RSP_28 + MOV_RAX_IMM64 + U64Bytes(hook) + CALL_RAX;
    var restore := ADD_RSP_28 + POP_RDX + POP_RCX;
    var code := call + ADD_RSP_28 + POP_RDX + POP_RCX;
    var w := AppendJump(code, entry, original);
    CallThroughRaxLayout(saving + SUB_RSP_28, hook);
    AppendJumpLayout(code, entry, original);
    AppendThree(call, ADD_RSP_28 + POP_RDX, POP_RCX);
    AppendThree(call, ADD_RSP_28, POP_RDX);
    assert code == call + restore;
    assert call <= w;
    CallsThroughRaxKept(call, w, 6, hook);
    assert w[..2] == call[..2];
    assert w[18..24] == code[18..24];
  }

  /** The emitter-destruct wrapper is 33 bytes: it saves rcx, calls the
      hook at offset 5, restores rcx, replays the overwritten `push rbx;
      sub rsp, 20h` and jumps back at 28. */
  lemma EmitterDestructWrapperLayout(hook: uint64, entry: uint64, resume: uint64)
    ensures var w := EmitterDestructWrapper(hook, entry, resume);
      && |w| == 33 && |w| <= WRAPPER_RESERVATION
      && w[..1] == PUSH_RCX
      && CallsThroughRax(w, 5, hook)
      && w[17..22] == ADD_RSP_20 + POP_RCX
      && w[22..28] == PUSH_RBX + SUB_RSP_20
      && JumpsTo(w, 28, entry, resume)
  {
    var call := PUSH_RCX + SUB_RSP_20 + MOV_RAX_IMM64 + U64Bytes(hook) + CALL_RAX;
    var code := call + ADD_RSP_20 + POP_RCX + PUSH_RBX + SUB_RSP_20;
    var w := AppendJump(code, entry, resume);
    CallThroughRaxLayout(PUSH_RCX + SUB_RSP_20, hook);
    AppendJumpLayout(code, entry, resume);
    AppendFour(call, ADD_RSP_20, POP_RCX, PUSH_RBX, SUB_RSP_20);
    assert call <= w;
    CallsThroughRaxKept(call, w, 5, hook);
    assert w[..1] == call[..1];
    assert w[17..22] == code[17..22];
    assert w[22..28] == code[22..28];
  }

  /** The render-register wrapper is 29 bytes: it passes r15 and r14 to
      the hook, calls it at offset 6, replays the overwritten `mov rax,
      [r15]; mov rcx, r15` and jumps back at 24. */
  lemma RenderRegisterWrapperLayout(hook: uint64, entry: uint64, resume: uint64)
    ensures var w := RenderRegisterWrapper(hook, entry, resume);
      && |w| == 29 && |w| <= WRAPPER_RESERVATION
      && w[..6] == MOV_RCX_R15 + MOV_RDX_R14
      && CallsThroughRax(w, 6, hook)
      && w[18..24] == MOV_RAX_AT_R15 + MOV_RCX_R15
      && JumpsTo(w, 24, entry, resume)
  {
    var arguments := MOV_RCX_R15 + MOV_RDX_R14;
    var call := arguments + MOV_RAX_IMM64 + U64Bytes(hook) + CALL_RAX;
    var code := call + MOV_RAX_AT_R15 + MOV_RCX_R15;
    var w := AppendJump(code, entry, resume);
    CallThroughRaxLayout(arguments, hook);
    AppendJumpLayout(code, entry, resume);
    AppendThree(call, MOV_RAX_AT_R15, MOV_RCX_R15);
    assert call <= w;
    CallsThroughRaxKept(call, w, 6, hook);
    assert w[..6] == call[..6];
    assert w[18..24] == code[18..24];
  }

  /** Both `jmp wrapper; nop` patches are six bytes, fit their eight-byte
      regions, and their wrappers resume right behind them. */
  lemma JumpPatchesResumeBehind(address: uint64, target: uint64)
    ensures var p := JumpPatch(address, target, NOP);
      && |p| == 6 && |p| <= PATCH_REGION && p[5..] == NOP
      && EMITTER_DESTRUCT_PATCH + |p| == EMITTER_DESTRUCT_RESUME
      && RENDER_REGISTER_PATCH + |p| == RENDER_REGISTER_RESUME
  {
    JumpPatchLayout(address, target, NOP);
  }

  /** The writes of hook_set_emitter_register and
      hook_set_render_emitter_destruct into their wrapper, in the order of
      the source. */
  method WriteArgumentSavingWrapper(wrapper: ModifiableCode, hook: uint64, original: uint64)
    requires wrapper.Valid() && wrapper.Written() == [] && wrapper.length == WRAPPER_RESERVATION
    modifies wrapper`writeOffset, wrapper.memory
    ensures wrapper.Valid() && wrapper.Written() == ArgumentSavingWrapper(hook, wrapper.address, original)
  {
    var written: bool;
    written := wrapper.Bytes(PUSH_RCX);
    assert wrapper.Written() == PUSH_RCX;
    written := wrapper.Bytes(PUSH_RDX);
    written := wrapper.Bytes(SUB_RSP_28);
    WriteCallThroughRax(wrapper, hook);
    written := wrapper.Bytes(ADD_RSP_28);
    written := wrapper.Bytes(POP_RDX);
    written := wrapper.Bytes(POP_RCX);
    WriteJump(wrapper, original);
  }

  /** The writes of hook_set_emitter_destruct into its wrapper. */
  method WriteEmitterDestructWrapper(wrapper: ModifiableCode, hook: uint64, resume: uint64)
    requires wrapper.Valid() && wrapper.Written() == [] && wrapper.length == WRAPPER_RESERVATION
    modifies wrapper`writeOffset, wrapper.memory
    ensures wrapper.Valid() && wrapper.Written() == EmitterDestructWrapper(hook, wrapper.address, resume)
  {
    var written: bool;
    written := wrapper.Bytes(PUSH_RCX);
    assert wrapper.Written() == PUSH_RCX;
    written := wrapper.Bytes(SUB_RSP_20);
    WriteCallThroughRax(wrapper, hook);
    written := wrapper.Bytes(ADD_RSP_20);
    written := wrapper.Bytes(POP_RCX);
    written := wrapper.Bytes(PUSH_RBX);
    written := wrapper.Bytes(SUB_RSP_20);
    WriteJump(wrapper, resume);
  }

  /** The writes of hook_set_render_emitter_register into its wrapper. */
  method WriteRenderRegisterWrapper(wrapper: ModifiableCode, hook: uint64, resume: uint64)
    requires wrapper.Valid() && wrapper.Written() == [] && wrapper.length == WRAPPER_RESERVATION
    modifies wrapper`writeOffset, wrapper.memory
    ensures wrapper.Valid() && wrapper.Written() == RenderRegisterWrapper(hook, wrapper.address, resume)
  {
    var written: bool;
    written := wrapper.Bytes(MOV_RCX_R15);
    assert wrapper.Written() == MOV_RCX_R15;
    written := wrapper.Bytes(MOV_RDX_R14);
    WriteCallThroughRax(wrapper, hook);
    written := wrapper.Bytes(MOV_RAX_AT_R15);
    written := wrapper.Bytes(MOV_RCX_R15);
    WriteJump(wrapper, resume);
  }

  /** hook_set_emitter_register and hook_set_render_emitter_destruct, which
      differ only in their constants: reserve 0x40 bytes of wrapper space,
      write the argument-saving wrapper around hook there, and overwrite the
      eight-byte vtable slot at offset slot of the image (based at base)
      with the wrapper's address. The only failure (the source throws) is an
      exhausted wrapper space. */
  method HookSetThroughSlot(base: uint64, image: Memory, wrappers: WrapperAddressSpace, hook: uint64, slot: nat, original: nat)
    returns (ok: bool)
    requires wrappers.Valid() && image != wrappers.memory
    requires slot + PATCH_REGION <= |image.bytes|
    modifies wrappers`unusedOffset, wrappers`segments, wrappers.memory, image
    ensures wrappers.Valid() && wrappers.baseAddress == old(wrappers.baseAddress)
    ensures ok == old(wrappers.CanReserve(WRAPPER_RESERVATION))
    ensures !ok ==> wrappers.unusedOffset == old(wrappers.unusedOffset)
                    && wrappers.memory.bytes == old(wrappers.memory.bytes) && image.bytes == old(image.bytes)
    ensures ok ==>
      var at := old(wrappers.unusedOffset);
      var entry := Wrap64(wrappers.baseAddress + at);
      && wrappers.unusedOffset == at + WRAPPER_RESERVATION
      && Replaced(old(wrappers.memory.bytes), wrappers.memory.bytes, at, ArgumentSavingWrapper(hook, entry, Wrap64(base + original)))
      && Replaced(old(image.bytes), image.bytes, slot, U64Bytes(entry))
  {
    var wrapper := wrappers.Reserve(WRAPPER_RESERVATION);
    if wrapper == null {
      return false;
    }
    WriteArgumentSavingWrapper(wrapper, hook, Wrap64(base + original));
    ghost var emitted := wrappers.memory.bytes;
    var patch := new ModifiableCode(Wrap64(base + slot), PATCH_REGION, image, slot);
    var written := patch.U64(wrapper.address);
    assert wrappers.memory.bytes == emitted;
    ok := true;
  }

  /** hook_set_emitter_destruct: the emitter-destruct wrapper, and `jmp
      wrapper; nop` over the start of the engine's destructor. */
  method HookSetEmitterDestruct(base: uint64, image: Memory, wrappers: WrapperAddressSpace, hook: uint64)
    returns (ok: bool)
    requires wrappers.Valid() && image != wrappers.memory
    requires EMITTER_DESTRUCT_PATCH + PATCH_REGION <= |image.bytes|
    modifies wrappers`unusedOffset, wrappers`segments, wrappers.memory, image
    ensures wrappers.Valid() && wrappers.baseAddress == old(wrappers.baseAddress)
    ensures ok == old(wrappers.CanReserve(WRAPPER_RESERVATION))
    ensures !ok ==> wrappers.unusedOffset == old(wrappers.unusedOffset)
                    && wrappers.memory.bytes == old(wrappers.memory.bytes) && image.bytes == old(image.bytes)
    ensures ok ==>
      var at := old(wrappers.unusedOffset);
      var entry := Wrap64(wrappers.baseAddress + at);
      var wrapper := EmitterDestructWrapper(hook, entry, Wrap64(base + EMITTER_DESTRUCT_RESUME));
      && wrappers.unusedOffset == at + WRAPPER_RESERVATION
      && Replaced(old(wrappers.memory.bytes), wrappers.memory.bytes, at, wrapper)
      && Replaced(old(image.bytes), image.bytes, EMITTER_DESTRUCT_PATCH, JumpPatch(Wrap64(base + EMITTER_DESTRUCT_PATCH), entry, NOP))
  {
    var wrapper := wrappers.Reserve(WRAPPER_RESERVATION);
    if wrapper == null {
      return false;
    }
    WriteEmitterDestructWrapper(wrapper, hook, Wrap64(base + EMITTER_DESTRUCT_RESUME));
    ghost var emitted := wrappers.memory.bytes;
    var patch := new ModifiableCode(Wrap64(base + EMITTER_DESTRUCT_PATCH), PATCH_REGION, image, EMITTER_DESTRUCT_PATCH);
    WriteJumpPatch(patch, wrapper.address, NOP);
    assert wrappers.memory.bytes == emitted;
    ok := true;
  }

  /** hook_set_render_emitter_register: the render-register wrapper, and
      `jmp wrapper; nop` over the engine's code at RENDER_REGISTER_PATCH. */
  method HookSetRenderEmitterRegister(base: uint64, image: Memory, wrappers: WrapperAddressSpace, hook: uint64)
    returns (ok: bool)
    requires wrappers.Valid() && image != wrappers.memory
    requires RENDER_REGISTER_PATCH + PATCH_REGION <= |image.bytes|
    modifies wrappers`unusedOffset, wrappers`segments, wrappers.memory, image
    ensures wrappers.Valid() && wrappers.baseAddress == old(wrappers.baseAddress)
    ensures ok == old(wrappers.CanReserve(WRAPPER_RESERVATION))
    ensures !ok ==> wrappers.unusedOffset == old(wrappers.unusedOffset)
                    && wrappers.memory.bytes == old(wrappers.memory.bytes) && image.bytes == old(image.bytes)
    ensures ok ==>
      var at := old(wrappers.unusedOffset);
      var entry := Wrap64(wrappers.baseAddress + at);
      var wrapper := RenderRegisterWrapper(hook, entry, Wrap64(base + RENDER_REGISTER_RESUME));
      && wrappers.unusedOffset == at + WRAPPER_RESERVATION
      && Replaced(old(wrappers.memory.bytes), wrappers.memory.bytes, at, wrapper)
      && Replaced(old(image.bytes), image.bytes, RENDER_REGISTER_PATCH, JumpPatch(Wrap64(base + RENDER_REGISTER_PATCH), entry, NOP))
  {
    var wrapper := wrappers.Reserve(WRAPPER_RESERVATION);
    if wrapper == null {
      return false;
    }
    WriteRenderRegisterWrapper(wrapper, hook, Wrap64(base + RENDER_REGISTER_RESUME));
    ghost var emitted := wrappers.memory.bytes;
    var patch := new ModifiableCode(Wrap64(base + RENDER_REGISTER_PATCH), PATCH_REGION, image, RENDER_REGISTER_PATCH);
    WriteJumpPatch(patch, wrapper.address, NOP);
    assert wrappers.memory.bytes == emitted;
    ok := true;
  }

  /** The addresses of the four C++ hook functions. */
  datatype HookFunctions = HookFunctions(parseData: uint64, emitterDestruct: uint64, renderRegister: uint64, renderDestruct: uint64)

  /** The address of the wrapper reserved at offset at of the wrapper space. */
  function WrapperEntry(wrapperBase: uint64, at: nat): uint64
  {
    Wrap64(wrapperBase + at)
  }

  /** emitters_setup: takes the two vtables from the image at base, then
      installs the four hooks in order, each in the next 0x40 bytes of
      wrapper space. The first exhausted reservation stops the setup (the
      source throws), so it succeeds exactly when four reservations fit. */
  method EmittersSetup(base: uint64, image: Memory, wrappers: WrapperAddressSpace, hooks: HookFunctions)
    returns (tracker: EmitterTracker, ok: bool)
    requires wrappers.Valid() && image != wrappers.memory
    requires RENDER_DESTRUCT_SLOT + PATCH_REGION <= |image.bytes|
    modifies wrappers`unusedOffset, wrappers`segments, wrappers.memory, image
    ensures fresh(tracker) && tracker.Snapshot() == Registry(map[], map[]) && tracker.vtables == ExpectedVtables(base)
    ensures wrappers.Valid() && wrappers.baseAddress == old(wrappers.baseAddress)
    ensures ok == old(wrappers.CanReserve(4 * WRAPPER_RESERVATION))
    ensures ok ==> wrappers.unusedOffset == old(wrappers.unusedOffset) + 4 * WRAPPER_RESERVATION
  {
    tracker := new EmitterTracker(base);
    ok := HookSetThroughSlot(base, image, wrappers, hooks.parseData, EMITTER_PARSE_SLOT, EMITTER_PARSE_ORIGINAL);
    if !ok {
      return;
    }
    ok := HookSetEmitterDestruct(base, image, wrappers, hooks.emitterDestruct);
    if !ok {
      return;
    }
    ok := HookSetRenderEmitterRegister(base, image, wrappers, hooks.renderRegister);
    if !ok {
      return;
    }
    ok := HookSetThroughSlot(base, image, wrappers, hooks.renderDestruct, RENDER_DESTRUCT_SLOT, RENDER_DESTRUCT_ORIGINAL);
  }

  /** The four image stretches that emitters_setup patches are pairwise
      apart, and the wrappers fit their reservations, so no installer
      overwrites what an earlier one wrote. */
  lemma SetupWritesApart(wrapperBase: uint64, at: nat, base: uint64, hooks: HookFunctions)
    ensures var e0, e1 := WrapperEntry(wrapperBase, at), WrapperEntry(wrapperBase, at + 0x40);
      var e2, e3 := WrapperEntry(wrapperBase, at + 0x80), WrapperEntry(wrapperBase, at + 0xC0);
      var slot0, slot3 := |U64Bytes(e0)|, |U64Bytes(e3)|;
      var patch1 := |JumpPatch(Wrap64(base + EMITTER_DESTRUCT_PATCH), e1, NOP)|;
      var patch2 := |JumpPatch(Wrap64(base + RENDER_REGISTER_PATCH), e2, NOP)|;
      && Apart(EMITTER_PARSE_SLOT, slot0, EMITTER_DESTRUCT_PATCH, patch1)
      && Apart(EMITTER_PARSE_SLOT, slot0, RENDER_REGISTER_PATCH, patch2)
      && Apart(EMITTER_PARSE_SLOT, slot0, RENDER_DESTRUCT_SLOT, slot3)
      && Apart(EMITTER_DESTRUCT_PATCH, patch1, RENDER_REGISTER_PATCH, patch2)
      && Apart(EMITTER_DESTRUCT_PATCH, patch1, RENDER_DESTRUCT_SLOT, slot3)
      && Apart(RENDER_REGISTER_PATCH, patch2, RENDER_DESTRUCT_SLOT, slot3)
      && |ArgumentSavingWrapper(hooks.parseData, e0, Wrap64(base + EMITTER_PARSE_ORIGINAL))| <= WRAPPER_RESERVATION
      && |EmitterDestructWrapper(hooks.emitterDestruct, e1, Wrap64(base + EMITTER_DESTRUCT_RESUME))| <= WRAPPER_RESERVATION
      && |RenderRegisterWrapper(hooks.renderRegister, e2, Wrap64(base + RENDER_REGISTER_RESUME))| <= WRAPPER_RESERVATION
      && |ArgumentSavingWrapper(hooks.renderDestruct, e3, Wrap64(base + RENDER_DESTRUCT_ORIGINAL))| <= WRAPPER_RESERVATION
  {
    var e0, e1 := WrapperEntry(wrapperBase, at), WrapperEntry(wrapperBase, at + 0x40);
    var e2, e3 := WrapperEntry(wrapperBase, at + 0x80), WrapperEntry(wrapperBase, at + 0xC0);
    ArgumentSavingWrapperLayout(hooks.parseData, e0, Wrap64(base + EMITTER_PARSE_ORIGINAL));
    EmitterDestructWrapperLayout(hooks.emitterDestruct, e1, Wrap64(base + EMITTER_DESTRUCT_RESUME));
    RenderRegisterWrapperLayout(hooks.renderRegister, e2, Wrap64(base + RENDER_REGISTER_RESUME));
    ArgumentSavingWrapperLayout(hooks.renderDestruct, e3, Wrap64(base + RENDER_DESTRUCT_ORIGINAL));
    JumpPatchesResumeBehind(Wrap64(base + EMITTER_DESTRUCT_PATCH), e1);
    JumpPatchesResumeBehind(Wrap64(base + RENDER_REGISTER_PATCH), e2);
  }
}
