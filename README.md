# witcher-sandbox core, modelled in Dafny

This project models the parts of witcher-sandbox whose behaviour is a
sequential rule over maps, byte buffers and cursors. witcher-sandbox is a DLL
injected into The Witcher 3 together with a `dinput8.dll` proxy launcher. The
models are:

- **Emitters** (`emitters.dfy`). The registry of tracked particle emitters and
  render emitters, which four engine hooks keep up to date. Also the type-5
  list reply that enumerates the registry.
- **EmitterHooks** (`emitter_hooks.dfy`). The byte sequences that the four
  emitter hook installers write into wrapper space and over the engine's
  code.
- **Bundles** (`bundles.dfy`). Guarded lookups into the bundle manager's
  tables and the root-first directory path builder. Also the type-10 file
  query reply and the two bundle-read hook installers.
- **MessageBuilder** (`message_builder.dfy`). The append-only little-endian
  encoder of reply messages, including u32-length-prefixed strings. Wide
  strings are UTF-8 encoded first.
- **TcpServer** (`tcp_server.dfy`). Message framing: a 6-byte header with a
  u16 type and a u32 length, and a 1 MiB body limit. Also handler dispatch,
  the exact-count read and write loops, the per-connection loop, and the
  server's `started` flag, handler table and thread count. Each loop over
  the socket is proved equal to a function that follows the system's
  answers one call at a time: `RecvResult`, `SendResult`, `SenderResult`,
  `SendAllResult`, `TurnAfterHeader` and `Serve`.
- **Code** (`modifiable_code.dfy`). `ModifiableCode`, the bounded write
  cursor over a code region. It has the rel32 displacement and move
  semantics.
- **WrapperSpace** (`wrapper_address_space.dfy`). `WrapperAddressSpace`, the
  bump allocator that hands out disjoint, contiguous code segments.
- **X86** (`x86.dfy`). The instruction byte sequences the installers share
  (jumps, RIP-relative loads, calls through rax), with their lengths and
  operand positions.
- **Launcher** (`launcher.dfy`). The proxy launcher: it redirects the game's
  `GetStartupInfoW` import, runs a one-time load, filters mod directories and
  DLL file names, and computes the mods directory.

Shared modules:

- **Bytes** (`bytes.dfy`): fixed-width integers, wrap-around and
  little-endian encoding.
- **Options** (`option.dfy`).
- **Sequences** (`sequences.dfy`): regrouping lemmas for concatenations.

Operating-system calls, sockets, threads and engine memory are not modelled
as code. They become parameters or scripted inputs, as listed under "Left
out".

Two behaviours of the code that a reader might not expect:
- Registering a render emitter whose emitter is not tracked stores nothing
  (`internal/src/emitters.cpp:66-68`). It does not create an unlinked entry.
- The sender's `success` flag holds the result of the LAST send of a message.
  A failed send followed by a successful one lets the connection go on.

## Model

| member | source | states |
|---|---|---|
| Bytes.FromLittleEndianOfLittleEndian | internal/src/memory/modifiable_code.h:43-50 | decoding the little-endian bytes of a value that fits n bytes gives the value back |
| Bytes.LittleEndianOfFromLittleEndian | internal/src/memory/modifiable_code.h:43-50 | every byte string is the little-endian encoding of the value it decodes to |
| Bytes.U32Bytes | internal/src/memory/modifiable_code.h:43 | a u32 store writes 4 bytes that decode to the value |
| Bytes.U64Bytes | internal/src/memory/modifiable_code.h:50 | a u64 store writes 8 bytes that decode to the value |
| Bytes.U16Bytes | internal/src/server/tcp_server.cpp:275 | a u16 is 2 bytes that decode to the value |
| MessageBuilder.ByteVector.constructor | internal/src/server/message_builder.h:7-12 | a new buffer is empty |
| MessageBuilder.Append | internal/src/server/message_builder.h:7-12 | the buffer grows by exactly `size` bytes holding the value's little-endian form; earlier bytes stay; the same buffer is returned |
| MessageBuilder.AppendBytes | internal/src/server/message_builder.h:14-18 | the buffer grows by exactly the first `length` source bytes, in order; the same buffer is returned |
| MessageBuilder.StringField | internal/src/server/message_builder.h:20-25 | a string shorter than 2^32 becomes 4 + length bytes: a u32 prefix equal to the payload length, then the string |
| MessageBuilder.ReadStringField | internal/src/server/message_builder.h:20-25 | whatever it reads is a string field followed by the rest of the input |
| MessageBuilder.StringFieldRoundTrip | internal/src/server/message_builder.h:20-25 | reading a string field back gives the string and the bytes behind it |
| MessageBuilder.AppendString | internal/src/server/message_builder.h:20-25 | the buffer grows by exactly the string field; the same buffer is returned |
| MessageBuilder.AppendWideString | internal/src/server/message_builder.h:27-29 | the buffer grows by the string field of the UTF-8 encoding, so the prefix counts encoded bytes; the same buffer is returned |
| MessageBuilder.EncodeUnit | internal/src/server/message_builder.h:27-29 | a UTF-16 unit encodes to 1 to 3 bytes, to 1 byte iff it is ASCII, and to no NUL byte unless it is NUL |
| MessageBuilder.Utf8Length | internal/src/server/message_builder.h:27-29 | an encoding is never shorter than the text; it has the same length iff all units are ASCII, and then it is the text itself |
| MessageBuilder.Utf8HasNoNul | internal/src/server/message_builder.h:27-29 | text without NUL encodes without NUL bytes |
| Code.Overwrite | internal/src/memory/modifiable_code.h:35-37 | the written stretch holds the new bytes and every other position keeps its byte |
| Code.DisplacementLands | internal/src/memory/modifiable_code.h:54-57 | stored displacement + cursor address + 4 is the target modulo 2^32 |
| Code.ReplacedIsOverwrite | internal/src/memory/modifiable_code.h:35-37 | a region "replaced at `at` by bs" is exactly the overwrite of that stretch, in both directions |
| Code.ReplacedExtends | internal/src/memory/modifiable_code.h:35-37 | two consecutive writes replace the stretch with their concatenation |
| Code.OperandReaches | internal/src/memory/modifiable_code.h:54-57 | a stored displacement lands on its target |
| Code.ModifiableCode.constructor | internal/src/memory/modifiable_code.h:9-15 | a new cursor is at offset 0 over its region, and nothing is written |
| Code.ModifiableCode.Moved | internal/src/memory/modifiable_code.h:17-30 | the new cursor takes the address, length and offset; the moved-from one has a null address, so only the new owner restores protection |
| Code.ModifiableCode.Bytes | internal/src/memory/modifiable_code.h:32-38 | succeeds iff offset + n <= length, checked before any write; on success the offset grows by n and the written stretch is extended by the bytes; on failure neither offset nor memory changes |
| Code.ModifiableCode.U32 | internal/src/memory/modifiable_code.h:40-45 | as Bytes, with the value's 4 little-endian bytes |
| Code.ModifiableCode.U64 | internal/src/memory/modifiable_code.h:47-52 | as Bytes, with the value's 8 little-endian bytes |
| Code.ModifiableCode.Offset32 | internal/src/memory/modifiable_code.h:54-57 | as U32, storing (target - (address + offset + 4)) mod 2^32, which lands on the target |
| WrapperSpace.ContiguousDisjoint | internal/src/memory/wrapper_address_space.h:34-35 | the segments handed out are pairwise disjoint, in order, and inside the space |
| WrapperSpace.WrapperAddressSpace.constructor | internal/src/memory/wrapper_address_space.h:8-12 | a new space has nothing reserved |
| WrapperSpace.WrapperAddressSpace.Moved | internal/src/memory/wrapper_address_space.h:14-27 | the new space takes base, offset and length; the moved-from one has base 0, so it frees nothing and every later reserve fails |
| WrapperSpace.WrapperAddressSpace.Reserve | internal/src/memory/wrapper_address_space.h:29-37 | succeeds iff the base is non-null and the segment fits; on failure nothing changes; on success a fresh empty cursor at base + old offset of the requested length, and the offset grows by that length |
| X86.AppendJumpLayout | internal/src/emitters.cpp:101-102 | `jmp rel32` adds 5 bytes, keeps what was written, and lands on the target |
| X86.AppendLoadLayout | internal/src/bundles.cpp:149-150 | `mov rax, [rip+rel32]` adds 7 bytes and loads from the given address |
| X86.CallThroughRaxLayout | internal/src/emitters.cpp:90-93 | `mov rax, imm64; call rax` adds 12 bytes and calls the given address |
| X86.CallsThroughRaxKept | internal/src/emitters.cpp:90-102 | a call already written stays when more code follows |
| X86.LoadsRipRelativeKept | internal/src/bundles.cpp:149-153 | a load already written stays when more code follows |
| X86.JumpPatchLayout | internal/src/emitters.cpp:131-134 | a `jmp` patch is 5 bytes plus its padding, lands on the wrapper, and ends with the padding |
| X86.WriteJump | internal/src/emitters.cpp:101-102 | the cursor advances by 5 and holds the jump |
| X86.WriteLoad | internal/src/bundles.cpp:149-150 | the cursor advances by 7 and holds the load |
| X86.WriteJumpPatch | internal/src/emitters.cpp:131-134 | an empty patch cursor holds exactly the jump patch |
| X86.WriteLoadThenJump | internal/src/bundles.cpp:149-153 | the cursor advances by 12 and holds the load and the jump |
| X86.WriteCallThroughRax | internal/src/emitters.cpp:90-93 | the cursor advances by 12 and holds the call sequence |
| Emitters.Parse | internal/src/emitters.cpp:20-32 | on a vtable mismatch the registry is unchanged; otherwise the emitter's entry is inserted or overwritten with the loader's file index, and no other key and no render entry changes |
| Emitters.Destroy | internal/src/emitters.cpp:34-41 | only the emitter's key goes (no-op when absent); every render entry stays, with its copied file index |
| Emitters.Register | internal/src/emitters.cpp:51-70 | with a tracked emitter, the render entry is inserted or overwritten with that emitter and its file index, and nothing else changes; with an untracked emitter nothing changes |
| Emitters.RenderDestroy | internal/src/emitters.cpp:72-79 | only the render emitter's key goes (no-op when absent); the emitters stay |
| Emitters.RunKeepsSelfKeyed | internal/src/emitters.cpp:20-79 | every entry stays keyed by its own (render) emitter over any sequence of hook calls |
| Emitters.RenderEntryUntouched | internal/src/emitters.cpp:34-41 | calls that do not name a render emitter leave its entry as it was, including the destruction of its emitter |
| Emitters.RenderEntryOrigin | internal/src/emitters.cpp:55-62 | every render entry was there at the start or was made by a register call that found its emitter tracked, and holds that emitter's file index at that moment |
| Emitters.RegisterThenDestroyRestores | internal/src/emitters.cpp:51-79 | registering a new render emitter and destroying it restores the registry |
| Emitters.ParseThenDestroyRestores | internal/src/emitters.cpp:20-41 | tracking a new emitter and destroying it restores the registry |
| Emitters.EmitterTracker.constructor | internal/src/emitters.cpp:189-193 | empty maps; the expected vtables are those at 0x1F3F478 and 0x1DDAD78 of the image |
| Emitters.EmitterTracker.ParseData | internal/src/emitters.cpp:20-32 | the two maps become Parse of the old maps |
| Emitters.EmitterTracker.EmitterDestruct | internal/src/emitters.cpp:34-41 | the two maps become Destroy of the old maps |
| Emitters.EmitterTracker.RenderEmitterRegister | internal/src/emitters.cpp:51-70 | the two maps become Register of the old maps |
| Emitters.EmitterTracker.RenderEmitterDestruct | internal/src/emitters.cpp:72-79 | the two maps become RenderDestroy of the old maps |
| Emitters.EmitterTracker.Handle | internal/src/emitters.cpp:20-79 | one hook call as one atomic step of the registry |
| Emitters.HexDigit | internal/src/emitters.cpp:215 | a digit reads back as its value |
| Emitters.HexDigitsRoundTrip | internal/src/emitters.cpp:215 | the hexadecimal digits of a number read back as the number |
| Emitters.HexDigitsLength | internal/src/emitters.cpp:215 | a number below 16^n has at most n digits |
| Emitters.HexNameRoundTrip | internal/src/emitters.cpp:215 | the `{:#16x}h` name of an address reads back as the address and is 17 to 19 characters long |
| Emitters.BundleSlotReported | internal/src/emitters.cpp:232-237 | for a file whose location names a bundle slot inside the table, the entry's bundle string is `<unknown>` when that slot is null and the bundle's path otherwise |
| Emitters.DirectoryUnknownIffNotFound | internal/src/emitters.cpp:219-230 | an entry's directory string is `<unknown>` iff its file is not found |
| Emitters.Utf8Append | internal/src/emitters.cpp:222-226 | UTF-8 encoding distributes over concatenation |
| Emitters.Entries | internal/src/emitters.cpp:213-239 | one group of four strings per enumerated render emitter, in enumeration order |
| Emitters.ListStringsGroup | internal/src/emitters.cpp:213-239 | the reply's strings come in groups of four; group i is name, directory, file name and bundle path of the i-th render emitter, with `<unknown>` for a failed lookup |
| Emitters.FieldsRoundTrip | internal/src/emitters.cpp:213-239 | consecutive string fields read back as the strings |
| Emitters.CountedFieldsRoundTrip | internal/src/emitters.cpp:210-239 | a u32 count n followed by 4n string fields reads back as those strings |
| Emitters.ListReplyRoundTrip | internal/src/emitters.cpp:204-243 | the list reply reads back as the count of tracked render emitters and four strings per emitter |
| Emitters.AppendEntry | internal/src/emitters.cpp:214-238 | one loop turn appends the entry's four string fields |
| Emitters.AppendFileStrings | internal/src/emitters.cpp:219-230 | directory and file name, or `<unknown>` twice, as string fields |
| Emitters.AppendBundleString | internal/src/emitters.cpp:232-238 | the bundle path or `<unknown>` as a string field |
| Emitters.HandleList | internal/src/emitters.cpp:204-243 | the reply is of type 6 and is the list reply of the registry in its enumeration order |
| EmitterHooks.ArgumentSavingWrapperLayout | internal/src/emitters.cpp:81-106 | the wrapper is 29 bytes (fits 0x40), saves rcx and rdx, calls the hook at 6, restores them and jumps to the original function at 24 |
| EmitterHooks.EmitterDestructWrapperLayout | internal/src/emitters.cpp:108-135 | the wrapper is 33 bytes, calls the hook at 5, replays the overwritten two instructions at 22 and jumps back at 28 |
| EmitterHooks.RenderRegisterWrapperLayout | internal/src/emitters.cpp:137-160 | the wrapper is 29 bytes, passes r15 and r14, calls the hook at 6, replays the overwritten instructions and jumps back at 24 |
| EmitterHooks.JumpPatchesResumeBehind | internal/src/emitters.cpp:108-160 | each `jmp; nop` patch is 6 bytes, fits its 8-byte region, and the wrappers resume at patch + 6 (0x518FE6, 0xBFB04D) |
| EmitterHooks.WriteArgumentSavingWrapper | internal/src/emitters.cpp:83-102 | the reserved cursor holds exactly the argument-saving wrapper |
| EmitterHooks.WriteEmitterDestructWrapper | internal/src/emitters.cpp:110-129 | the reserved cursor holds exactly the emitter-destruct wrapper |
| EmitterHooks.WriteRenderRegisterWrapper | internal/src/emitters.cpp:139-154 | the reserved cursor holds exactly the render-register wrapper |
| EmitterHooks.HookSetThroughSlot | internal/src/emitters.cpp:81-106 | (also used for the render-destruct hook at lines 162-187) succeeds iff 0x40 bytes of wrapper space are free; then the wrapper is written in the next 0x40 bytes and exactly the 8 slot bytes hold its address; on failure nothing changes |
| EmitterHooks.HookSetEmitterDestruct | internal/src/emitters.cpp:108-135 | as above, with the destruct wrapper and exactly the 6-byte patch at 0x518FE0 |
| EmitterHooks.HookSetRenderEmitterRegister | internal/src/emitters.cpp:137-160 | as above, with the render-register wrapper and exactly the 6-byte patch at 0xBFB047 |
| EmitterHooks.EmittersSetup | internal/src/emitters.cpp:189-202 | the registry starts empty with the image's vtables; setup succeeds iff four 0x40 reservations fit, and then takes exactly 0x100 bytes |
| EmitterHooks.SetupWritesApart | internal/src/emitters.cpp:81-187 | the four patched image stretches are pairwise apart, so no installer overwrites an earlier one |
| Bundles.FileFind | internal/src/bundles.cpp:11-19 | a file is returned iff 0 < index < file count and its slot is non-null, and it is that slot |
| Bundles.FileMappingOf | internal/src/bundles.cpp:21-34 | a mapping is returned iff index < mapping count and its file id is non-zero |
| Bundles.FileIdentify | internal/src/bundles.cpp:36-51 | a bundle is returned iff the mapping exists, its location's bundle index is below the bundle count and that slot is not null; whenever the index is in range the result is the slot as it is, null included |
| Bundles.JoinWithSlashesAppend | internal/src/bundles.cpp:53-60 | joining names with `/` distributes over concatenation |
| Bundles.DirectoryPathIsRootFirst | internal/src/bundles.cpp:53-60 | a directory's path is its ancestors' names, root first, each followed by `/`; a null directory gives the empty path |
| Bundles.DirectoryPathHasNoNul | internal/src/bundles.cpp:53-60 | directory paths contain no NUL |
| Bundles.WideString.constructor | internal/src/bundles.cpp:230 | a new wide string is empty |
| Bundles.FormatFileDirectory | internal/src/bundles.cpp:53-60 | the path is appended to what the string held, which stays as a prefix |
| Bundles.CStringLength | internal/src/bundles.cpp:251-255 | `strlen` is the length up to the first NUL |
| Bundles.FilePathReplyHasNoNul | internal/src/bundles.cpp:226-234 | the file path string has no NUL, so `strlen` sees all of it |
| Bundles.BundlePathReplyHasNoNul | internal/src/bundles.cpp:237-249 | the bundle path string has no NUL |
| Bundles.FileQueryReplyLayout | internal/src/bundles.cpp:251-264 | the reply is 8 + both lengths bytes: the bundle path as a string field, then the file path as a string field |
| Bundles.OverwriteExtendsPrefix | internal/src/bundles.cpp:257-262 | a memcpy behind a written prefix extends that prefix |
| Bundles.CopyInto | internal/src/bundles.cpp:260-262 | `memcpy` overwrites exactly the target stretch |
| Bundles.HandleFileQuery | internal/src/bundles.cpp:218-265 | the reply type is 11 and the reply is the file query reply for the u32 index at the start of the message |
| Bundles.LookUpPaths | internal/src/bundles.cpp:219-249 | the two paths are the lookups' results, `<not found>` for each failed lookup |
| Bundles.PathsResponse | internal/src/bundles.cpp:251-262 | the response is the u32 length and bytes of the bundle path, then those of the file path |
| Bundles.HookBundleFileRead | internal/src/bundles.cpp:99-117 | the hook never supplies a replacement reader |
| Bundles.ReadWrapperSimpleLayout | internal/src/bundles.cpp:127-159 | the simple wrapper is 40 bytes (fits 0x40), calls the hook at 5, loads the depot pointer at 28 and jumps to the resume point at 35 |
| Bundles.ReadWrapperComplexLayout | internal/src/bundles.cpp:161-201 | the complex wrapper is 46 bytes, calls at 8, loads at 34 and jumps back at 41 |
| Bundles.WriteReadWrapperSimple | internal/src/bundles.cpp:129-153 | the reserved cursor holds exactly the simple wrapper |
| Bundles.WriteReadWrapperComplex | internal/src/bundles.cpp:163-195 | the reserved cursor holds exactly the complex wrapper |
| Bundles.WriteComplexRestore | internal/src/bundles.cpp:176-189 | the cursor advances by 14 and holds the register restore and early return |
| Bundles.HookSetBundleFileReadSimple | internal/src/bundles.cpp:127-159 | succeeds iff 0x40 bytes of wrapper space are free; then the wrapper is written there and exactly the 7-byte `jmp; nop; nop` patch at 0x929F0, which resumes at 0x929F7 |
| Bundles.HookSetBundleFileReadComplex | internal/src/bundles.cpp:161-201 | as the simple installer, with the complex wrapper and the patch at 0x92A20 resuming at 0x92A27 |
| Bundles.ReadPatchesResumeBehind | internal/src/bundles.cpp:153-197 | each `jmp; nop; nop` patch is 7 bytes, fits its 0x10-byte region, and the wrappers resume right behind it (0x929F7, 0x92A27) |
| TcpServer.Header | internal/src/server/tcp_server.cpp:241-242 | a header is 6 bytes |
| TcpServer.DecodeHeader | internal/src/server/tcp_server.cpp:252-253 | the decoded type and length re-encode to the header read |
| TcpServer.HeaderRoundTrip | internal/src/server/tcp_server.cpp:241-253 | decoding an encoded header gives its type and length |
| TcpServer.ReadFrame | internal/src/server/tcp_server.cpp:251-267 | a frame read is a message within the 1 MiB limit followed by the rest of the stream |
| TcpServer.FrameRoundTrip | internal/src/server/tcp_server.cpp:238-267 | a message within the limit framed by the sender is read back as itself |
| TcpServer.Dispatch | internal/src/server/tcp_server.cpp:269-280 | a registered type gets its handler's replies; an unregistered type gets one type-1 reply whose 2-byte body is the type |
| TcpServer.RecvResult | internal/src/server/tcp_server.cpp:321-344 | a read never takes more than it asks for or than the stream holds, and succeeds iff it got all of it; a successful read of a non-empty buffer uses up at least one answer, and no read uses more answers than it is given |
| TcpServer.RecvOnce | internal/src/server/tcp_server.cpp:323-340 | one recv call takes what its answer allows off the front of the stream, stores it at the offset, and goes on exactly when RecvResult does; when it stops it took nothing |
| TcpServer.PeerRead | internal/src/server/tcp_server.cpp:321-344 | the bytes received, the result and the answers left are exactly RecvResult's; what it took comes off the front of the stream and sits at the front of the buffer; it succeeds iff the whole buffer arrived |
| TcpServer.SendResult | internal/src/server/tcp_server.cpp:346-366 | a write never sends more than it asks for, succeeds iff it sent all of it, and uses no more answers than it is given |
| TcpServer.PeerWrite | internal/src/server/tcp_server.cpp:346-366 | the bytes written, the result and the answers left are exactly SendResult's; what it sent is a prefix of the buffer, appended to the wire; it succeeds iff all of it went |
| TcpServer.RecvAsWritten | internal/src/server/tcp_server.cpp:321-344 | peer_read as written, where an error is retried: it never takes more than asked or than the stream holds, and succeeds iff it got all of it |
| TcpServer.SendAsWritten | internal/src/server/tcp_server.cpp:346-366 | peer_write as written, where an error is retried: it never sends more than asked, and succeeds iff it sent all of it |
| TcpServer.RecvRetriesFailures | internal/src/server/tcp_server.cpp:330-337 | as written, any number of errors in a row in front of a read neither moves a byte nor ends it, and a read that meets only errors receives nothing |
| TcpServer.SendRetriesFailures | internal/src/server/tcp_server.cpp:352-359 | as written, any number of errors in a row in front of a write neither sends a byte nor ends it, and a write that meets only errors sends nothing |
| TcpServer.RecvCallsBounded | internal/src/server/tcp_server.cpp:321-344 | with an error ending the read, a read makes at most one recv call per byte received and per successful wait, plus one |
| TcpServer.FailureEndsWrite | internal/src/server/tcp_server.cpp:352-359 | with an error ending the write, an error ends it at once with nothing more sent |
| TcpServer.RecvAgreesWithoutFailures | internal/src/server/tcp_server.cpp:321-344 | on answers with no error among them, RecvResult and the loop as written give the same result |
| TcpServer.SendAgreesWithoutFailures | internal/src/server/tcp_server.cpp:346-366 | on answers with no error among them, SendResult and the loop as written give the same result |
| TcpServer.SenderResult | internal/src/server/tcp_server.cpp:238-246 | one sender call delivers a prefix of its reply's frame, succeeds iff that is the whole frame, and uses no more answers than it is given |
| TcpServer.Send | internal/src/server/tcp_server.cpp:238-246 | the delivery and the answers left are exactly SenderResult's; the shared header buffer holds the reply's header (type, body size); the wire gains the delivered bytes |
| TcpServer.SendAllResult | internal/src/server/tcp_server.cpp:269-280 | the sender calls for a list of replies carry those replies in order, each delivering a prefix of its frame, and use no more answers than given |
| TcpServer.SendAll | internal/src/server/tcp_server.cpp:269-285 | the log and the answers left are exactly SendAllResult's; the result is that of the last send (true when there is none); the wire gains each send's bytes |
| TcpServer.LogAppend | internal/src/server/tcp_server.cpp:251-288 | logs of consecutive sends concatenate their replies and wire bytes |
| TcpServer.WithinLimitEach | internal/src/server/tcp_server.cpp:257-260 | every handled message is within the 1 MiB limit |
| TcpServer.Server.constructor | internal/src/server/tcp_server.cpp:26-29 | not started, no threads, no handlers |
| TcpServer.Server.AddHandler | internal/src/server/tcp_server.cpp:40-45 | the type's handler is replaced and the other entries stay |
| TcpServer.Server.TryStartThread | internal/src/server/tcp_server.cpp:64-75 | the thread count rises by one iff the thread was created |
| TcpServer.Server.Start | internal/src/server/tcp_server.cpp:47-61 | the first call marks the server started and launches the accept thread at most once; later calls change nothing |
| TcpServer.Server.EndThread | internal/src/server/tcp_server.cpp:82-86 | the thread count falls by one |
| TcpServer.Server.Destroy | internal/src/server/tcp_server.cpp:31-38 | signals stop and returns only when the thread count is 0 |
| TcpServer.TurnAfterHeader | internal/src/server/tcp_server.cpp:251-286 | a declared length above 0x100000 is exactly the case that ends the turn before the body is read; a served message is the header and the next length bytes of the stream, within the limit, and its replies are those Dispatch gives, each delivering a prefix of its frame |
| TcpServer.Server.ServeMessage | internal/src/server/tcp_server.cpp:255-285 | what it reads, sends and returns is TurnAfterHeader's: a length above the limit ends the connection with the stream and the recv answers untouched and nothing sent; a short body ends it with nothing sent; otherwise the message is served, and the loop goes on iff the last send succeeded |
| TcpServer.Serve | internal/src/server/tcp_server.cpp:251-288 | the loop ends on a header not read, a length too high, a body not read or a failed send; it uses no more recv answers than given; a failed send ends it only after a message was handled and sent to |
| TcpServer.ServeEndsOnFailedSend | internal/src/server/tcp_server.cpp:251-288 | the connection ends on a failed send exactly when the last sender call it made failed |
| TcpServer.Server.ServeTurn | internal/src/server/tcp_server.cpp:251-285 | one turn is Serve's first step and goes on exactly when Serve does; a served message is the next frame of the stream, within the limit, with its dispatched replies; with no message nothing is sent |
| TcpServer.Server.ServePeer | internal/src/server/tcp_server.cpp:212-288 | the messages handled, the sends, the stop reason and what is left of the stream and of the answers are exactly Serve's (nothing happens on an unconfigured socket); the handled messages are the stream's first frames, in order and within the limit; the replies are theirs, in order, and the wire holds what each send delivered |
| TcpServer.Server.PeerHandler | internal/src/server/tcp_server.cpp:196-289 | as ServePeer: exactly Serve's session, and the leaving thread is taken off the count |
| TcpServer.ServeStep | internal/src/server/tcp_server.cpp:251-286 | one handled message extends the handled frames, the replies and the wire consistently |
| TcpServer.AllRepliesSnoc | internal/src/server/tcp_server.cpp:269-280 | the replies of one more message are appended to those before |
| Launcher.Lowered | launcher/src/main.cpp:34 | the lower-cased string has the same length, with each character lower-cased |
| Launcher.StriEqualMeansLowered | launcher/src/main.cpp:34 | `_stricmp` returns 0 iff both strings are equal once lower-cased |
| Launcher.StrniEqualMeansPrefix | launcher/src/main.cpp:79-100 | `_wcsnicmp(a, b, len(b))` returns 0 iff a starts with b, ignoring case |
| Launcher.DescriptorCount | launcher/src/main.cpp:29 | the count scanned is the directory size in entries less the terminating entry, wrapping around as a `size_t` below one entry |
| Launcher.ThunkCount | launcher/src/main.cpp:35-39 | a thunk list runs over non-null slots up to its null thunk or the end of the image |
| Launcher.PatchAllKeepsNulls | launcher/src/main.cpp:39-47 | patching with a non-null hook keeps exactly the null thunks null, so later lists keep their lengths |
| Launcher.PatchAllEffect | launcher/src/main.cpp:31-50 | after the scan, a thunk holds the hook iff it lies in a `kernel32.dll` list and held the original function; every other thunk is unchanged |
| Launcher.PatchThunkList | launcher/src/main.cpp:39-47 | the array becomes the list with the original function's thunks redirected |
| Launcher.PatchImports | launcher/src/main.cpp:29-50 | the array becomes the image with every `kernel32.dll` list patched, descriptors in order |
| Launcher.LastImportOverrun | launcher/src/main.cpp:35-37 | with `kernel32.dll` last before the terminating entry, the count as written exceeds the image |
| Launcher.LastImportOverrunExample | launcher/src/main.cpp:35-37 | a one-import table whose list is at slot 2 gives a count of 2^64 - 2 |
| Launcher.StandardLayoutAgrees | launcher/src/main.cpp:35-37 | when the next list follows right behind, the count as written is the list plus its null thunk |
| Launcher.ThunkCountUpTo | launcher/src/main.cpp:35-39 | a list of non-null slots up to a null slot has exactly that many thunks |
| Launcher.ModDirectoryMeans | launcher/src/main.cpp:79 | an entry is used iff it is a directory whose name starts with `mod`, ignoring case |
| Launcher.ModDllMeans | launcher/src/main.cpp:99-100 | a file is loaded iff it is not a directory, its name has at least 5 characters and ends in `.dll`, ignoring case |
| Launcher.DllPathsMembers | launcher/src/main.cpp:98-115 | a path is loaded iff it is the DLL directory plus the name of a listed entry that passes the DLL filter |
| Launcher.ModsDllPathsMembers | launcher/src/main.cpp:78-84 | a path is loaded iff it comes from a listed mod directory that passes the directory filter |
| Launcher.LoadModDlls | launcher/src/main.cpp:89-118 | the paths handed to `LoadLibraryW` are the filtered entries of `<mod>\dlls\`, in listing order |
| Launcher.LoadModsDlls | launcher/src/main.cpp:71-87 | the paths loaded are those of each filtered mod directory, in listing order |
| Launcher.LastBackslash | launcher/src/main.cpp:127-131 | finds the last backslash, or reports that there is none |
| Launcher.UnresolvedModsDirectoryMeans | launcher/src/main.cpp:120-135 | empty iff the path has no backslash; otherwise the path cut after its last backslash, followed by `..\..\Mods\` |
| Launcher.ModsDirectory | launcher/src/main.cpp:120-144 | an empty path or one without a backslash gives the empty directory |
| Launcher.Load | launcher/src/main.cpp:67-69 | the DLLs loaded are those of the mods directory |
| Launcher.DllLoader.constructor | launcher/src/main.cpp:165-168 | not loaded; both originals null |
| Launcher.DllLoader.Preload | launcher/src/main.cpp:19-51 | records both original functions and patches the import table as PatchImports does |
| Launcher.DllLoader.CheckLoad | launcher/src/main.cpp:53-59 | loads at most once over all calls; the first call loads the mods' DLLs |
| Launcher.DllLoader.GetOriginalDinput8 | launcher/src/main.cpp:61-64 | loads (once) before returning the original `DirectInput8Create` |
| Launcher.DllLoader.HookedGetStartupInfoW | launcher/src/main.cpp:156-159 | loads (once) before calling the original `GetStartupInfoW` |
| Launcher.Proxy.DllMain | launcher/src/main.cpp:177-190 | always returns TRUE; preloads at most once, on the first process attach, with a fresh loader and the patched import table |

## Left out

- Sockets and Winsock: `WSASocketW`, `bind`, `listen`, `WSAAccept`, events and the whole `accept_handler`. The peer socket is a script of recv/send answers (`TcpServer.IoOutcome`). The wait in `network_wait` becomes the would-block answer's success flag.
- Threads, mutexes, condition variables and atomics. Each locked operation is one sequential step. `thread_count` is a plain u32 counter.
- TcpServer.PeerRead / TcpServer.PeerWrite: the answers are a finite script. An exhausted recv script reads as a close (recv returns 0). An exhausted send script reads as a would-block whose wait fails. The model's loops end because the script ends. An error other than would-block ends the transfer, where the source retries it; see Findings.
- TcpServer.Server.Destroy: the condition-variable wait is modelled as the leaving threads' `end_thread` calls.
- TcpServer.Dispatch: handlers are modelled by the list of replies they send for a message. What a handler does besides sending is not modelled.
- Logging (`logger::it`) is left out. `logger::wide` is modelled as unit-wise UTF-8 of UTF-16 code units. Surrogate pairs are encoded unit by unit, as UCS-2.
- Operating-system calls become parameters: `VirtualProtect`, `VirtualAlloc`, `VirtualFree`, `GetModuleHandleW`, `LoadLibraryW`, `GetProcAddress`, `FindFirstFileW`/`FindNextFileW`, `GetFullPathNameW` and `GetModuleFileNameW`. The directory listing is a function from search pattern to entries. Path resolution is a function on strings. The executable path is a field of the environment.
- Launcher.LoadModDlls: only the paths handed to `LoadLibraryW` are modelled. A failed load and the `InitializeMod` call are not.
- Launcher.PatchImports: requires a directory of at least one entry and one descriptor per entry. With a smaller directory the as-written count wraps around, as `DescriptorCount` states.
- Launcher.PatchImports: scans each list up to its null thunk, not over the count as written; see Findings.
- The `std::exception` thrown by `check_writable` (internal/src/memory/modifiable_code.h:62-66) and by `reserve` (internal/src/memory/wrapper_address_space.h:29-37) becomes an `ok == false` result. A setup stops at the first failure, where the exception would unwind it.
- Bundles.HandleFileQuery: requires a body of at least 4 bytes. The source reads the u32 index unchecked (internal/src/bundles.cpp:222), and the server passes it bodies of 0 to 3 bytes as well (internal/src/server/tcp_server.cpp:262-279). What the handler does with a shorter body is not modelled.
- Bundles.WellFormed: assumes every non-zero mapping's `file_id` indexes the `locations` table. The source reads `locations[file_id]` unchecked (internal/src/bundles.cpp:43, internal/src/bundles.cpp:243).
- Bundles.HandleFileQuery / Bundles.LookUpPaths: the type-10 handler requires (`ReachableBundlesPresent`) the bundle slot that a mapping's location names to be non-null when it is inside the table. The source dereferences that slot unchecked (internal/src/bundles.cpp:246). A null slot there is not modelled. `FileIdentify` and the type-5 list reply do handle a null slot, as `<unknown>`.
- The `add_handler` registrations at internal/src/emitters.cpp:204 and internal/src/bundles.cpp:218 are not modelled. The handlers' replies are modelled by Emitters and Bundles, and registration by TcpServer.Server.AddHandler.
- Case-insensitive comparison uses ASCII case folding (the C locale).
- Executable memory is modelled as byte sequences inside `Memory` objects. The base address of the image and the hook functions' addresses are parameters. `executable_address_space.h` is not part of this model.
- x86 semantics: only the byte sequences, their lengths, operand positions and rel32 arithmetic are modelled, not what the instructions do.
- EmitterHooks.EmittersSetup: states success, the wrapper space consumed and the initial registry, but not the combined bytes of all four installers. Each installer's bytes are stated by its own member. `SetupWritesApart` shows that the four image stretches do not overlap.
- Emitters.HandleList: the `unordered_map` enumeration order is a parameter (`Enumerates`).
- Emitters.HexName follows `{:#16x}h` for the addresses that occur: `0x` and the lowercase digits, padded left with spaces to 16 characters, then `h`.
- Engine structures from `engine_types.h` are abstract datatypes. File and directory names are assumed to contain no NUL character.
- `overwrite_all_emitters`, `find_replacement` and `emitters_loop` are dead or empty paths and are not modelled. So are the replacement reader's vtable setup and `internal/src/main.cpp`.

## Findings

| source | as written | input that shows it | evidently intended | confidence | as-written member | corrected member |
|---|---|---|---|---|---|---|
| launcher/src/main.cpp:35-39 | the number of thunks of a `kernel32.dll` descriptor is the distance from its import address table to the next descriptor's | an import table whose `kernel32.dll` descriptor is the last before the all-zero terminator: the next FirstThunk is 0, so the count wraps to about 2^64 and the scan runs off the image | scan each import address table up to the null thunk that ends it, as the import directory of the PE/COFF format defines | not executed; medium | Launcher.AsWrittenThunkCount, Launcher.LastImportOverrun, Launcher.LastImportOverrunExample | Launcher.ThunkCount, Launcher.PatchThunkList (agreement in the usual layout: Launcher.StandardLayoutAgrees) |
| internal/src/server/tcp_server.cpp:330-337 | in peer_read and in peer_write (lines 352-359), an error other than would-block is retried at once, without limit | a peer that resets the connection: every recv or send then fails with an error other than would-block, the loop spins without end, the peer thread never reaches `end_thread` (line 209), and the destructor's wait for a thread count of 0 (lines 31-38) never returns | end the transfer with false on any error other than would-block, so that every read makes at most one call per byte and per successful wait | not executed; medium | TcpServer.RecvAsWritten, TcpServer.SendAsWritten, TcpServer.RecvRetriesFailures, TcpServer.SendRetriesFailures | TcpServer.RecvResult, TcpServer.SendResult, TcpServer.RecvCallsBounded, TcpServer.FailureEndsWrite (agreement without errors: TcpServer.RecvAgreesWithoutFailures, TcpServer.SendAgreesWithoutFailures) |
