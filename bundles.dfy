/** Lookups into the engine's bundle manager, the directory path of a
    bundled file, the file-query handler (message type 10) and the hooks on
    the engine's bundle-file read (internal/src/bundles.cpp). The engine's
    structures (engine_types.h) are stood for by datatypes: the manager's
    pointer arrays become sequences whose lengths are the counts, a null
    pointer becomes None, and a directory's parent chain is a chain of
    nested values, so it is finite and acyclic by construction. */
module Bundles {
  import opened Bytes
  import opened Options
  import opened Code
  import opened WrapperSpace
  import opened MessageBuilder
  import opened X86

  /** The units of an engine wide string before its terminating NUL. */
  type WideText = s: seq<uint16> | forall i | 0 <= i < |s| :: s[i] != 0

  const SLASH: uint16 := '/' as int

  datatype Directory = Directory(name: WideText, parent: Option<Directory>)

  datatype DiskFile = DiskFile(directory: Option<Directory>, fileName: WideText, fileIndex: uint32)

  datatype DiskBundle = DiskBundle(index: uint32, absolutePath: WideText)

  datatype FileMapping = FileMapping(fileId: uint32)

  datatype FileLocation = FileLocation(fileIndex: uint32, bundleIndex: uint32)

  /** files[i] and bundles[i] may be null; mapping_count == |mappings|,
      file_count == |files|, bundle_count == |bundles|. */
  datatype BundleManager = BundleManager(
    files: seq<Option<DiskFile>>,
    bundles: seq<Option<DiskBundle>>,
    mappings: seq<FileMapping>,
    locations: seq<FileLocation>)

  /** What the code takes for granted of the engine: the location of every
      non-empty mapping exists (locations[file_id] is read unchecked). */
  ghost predicate WellFormed(m: BundleManager)
  {
    forall i | 0 <= i < |m.mappings| && m.mappings[i].fileId != 0 :: m.mappings[i].fileId < |m.locations|
  }

  /** What the type-10 handler takes for granted besides: the bundle slot
      that a mapping's location names, when it is inside the table, is not
      null (the handler reads its path unchecked). */
  ghost predicate ReachableBundlesPresent(m: BundleManager)
  {
    forall i | 0 <= i < |m.mappings| && m.mappings[i].fileId != 0 && m.mappings[i].fileId < |m.locations| ::
      m.locations[m.mappings[i].fileId].bundleIndex < |m.bundles| ==>
        m.bundles[m.locations[m.mappings[i].fileId].bundleIndex].Some?
  }

  /** bundle_file_find: the file with that index; index 0 and indices past
      the table give null, and so does a null entry. */
  function FileFind(m: BundleManager, fileIndex: uint32): (r: Option<DiskFile>)
    ensures r.Some? <==> 0 < fileIndex < |m.files| && m.files[fileIndex].Some?
    ensures r.Some? ==> r == m.files[fileIndex]
  {
    if fileIndex > 0 && fileIndex < |m.files| then m.files[fileIndex] else None
  }

  /** bundle_file_mapping: the mapping of that index, present only when it
      is inside the table and names a file (file_id != 0). */
  function FileMappingOf(m: BundleManager, fileIndex: uint32): (r: Option<FileMapping>)
    ensures r.Some? <==> fileIndex < |m.mappings| && m.mappings[fileIndex].fileId != 0
    ensures r.Some? ==> r.value == m.mappings[fileIndex]
  {
    if fileIndex < |m.mappings| then
      var mapping := m.mappings[fileIndex];
      if mapping.fileId != 0 then Some(mapping) else None
    else None
  }

  /** bundle_file_identify: the slot of the bundle table that holds the
      file, found through its mapping and location, returned as it is (so
      null when the slot is null); null without a mapping or when the
      location's bundle index is past the bundle table. */
  function FileIdentify(m: BundleManager, fileIndex: uint32): (r: Option<DiskBundle>)
    requires WellFormed(m)
    ensures r.Some? <==>
      && fileIndex < |m.mappings| && m.mappings[fileIndex].fileId != 0
      && m.locations[m.mappings[fileIndex].fileId].bundleIndex < |m.bundles|
      && m.bundles[m.locations[m.mappings[fileIndex].fileId].bundleIndex].Some?
    ensures FileMappingOf(m, fileIndex).Some? && m.locations[m.mappings[fileIndex].fileId].bundleIndex < |m.bundles| ==>
      r == m.bundles[m.locations[m.mappings[fileIndex].fileId].bundleIndex]
  {
    match FileMappingOf(m, fileIndex)
    case None => None
    case Some(mapping) =>
      var location := m.locations[mapping.fileId];
      if location.bundleIndex < |m.bundles| then m.bundles[location.bundleIndex] else None
  }

  /** The path that bundle_format_file_directory appends: every directory on
      the way from the root down to d, each followed by "/". */
  function DirectoryPath(d: Option<Directory>): seq<uint16>
    decreases d
  {
    match d
    case None => []
    case Some(dir) => DirectoryPath(dir.parent) + dir.name + [SLASH]
  }

  /** The names met when following parent pointers from d: d's own name first. */
  function Ancestry(d: Option<Directory>): seq<WideText>
    decreases d
  {
    match d
    case None => []
    case Some(dir) => [dir.name] + Ancestry(dir.parent)
  }

  function Reverse<T>(s: seq<T>): (r: seq<T>)
    ensures |r| == |s|
    ensures forall i | 0 <= i < |s| :: r[i] == s[|s| - 1 - i]
  {
    if s == [] then [] else Reverse(s[1..]) + [s[0]]
  }

  /** Each name followed by "/", in the order given. */
  function JoinWithSlashes(names: seq<WideText>): seq<uint16>
  {
    if names == [] then [] else names[0] + [SLASH] + JoinWithSlashes(names[1..])
  }

  lemma {:induction false} JoinWithSlashesAppend(a: seq<WideText>, b: seq<WideText>)
    ensures JoinWithSlashes(a + b) == JoinWithSlashes(a) + JoinWithSlashes(b)
  {
    if a == [] {
      assert a + b == b;
    } else {
      assert (a + b)[0] == a[0] && (a + b)[1..] == a[1..] + b;
      JoinWithSlashesAppend(a[1..], b);
    }
  }

  /** The directory path lists the ancestry root first: it is the names
      met going up from d, reversed, each followed by "/". */
  lemma {:induction false} DirectoryPathIsRootFirst(d: Option<Directory>)
    ensures DirectoryPath(d) == JoinWithSlashes(Reverse(Ancestry(d)))
    decreases d
  {
    match d
    case None =>
    case Some(dir) =>
      var up := Ancestry(dir.parent);
      DirectoryPathIsRootFirst(dir.parent);
      assert Ancestry(d) == [dir.name] + up;
      assert ([dir.name] + up)[1..] == up;
      assert Reverse(Ancestry(d)) == Reverse(up) + [dir.name];
      JoinWithSlashesAppend(Reverse(up), [dir.name]);
      assert JoinWithSlashes([dir.name]) == dir.name + [SLASH];
  }

  /** A directory path holds no NUL unit. */
  lemma {:induction false} DirectoryPathHasNoNul(d: Option<Directory>)
    ensures forall i | 0 <= i < |DirectoryPath(d)| :: DirectoryPath(d)[i] != 0
    decreases d
  {
    match d
    case None =>
    case Some(dir) =>
      DirectoryPathHasNoNul(dir.parent);
      var up := DirectoryPath(dir.parent);
      forall i | 0 <= i < |DirectoryPath(d)| ensures DirectoryPath(d)[i] != 0 {
        if i < |up| {
          assert DirectoryPath(d)[i] == up[i];
        } else if i < |up| + |dir.name| {
          assert DirectoryPath(d)[i] == dir.name[i - |up|];
        }
      }
  }

  /** A std::wstring passed by reference. */
  class WideString {
    var text: seq<uint16>

    constructor ()
      ensures text == []
    {
      text := [];
    }
  }

  /** bundle_format_file_directory: appends the parent's path first, then
      the directory's own name and "/"; a null directory appends nothing. */
  method FormatFileDirectory(directory: Option<Directory>, path: WideString)
    modifies path
    ensures path.text == old(path.text) + DirectoryPath(directory)
    decreases directory
  {
    if directory.Some? {
      FormatFileDirectory(directory.value.parent, path);
      path.text := path.text + directory.value.name;
      path.text := path.text + [SLASH];
    }
  }

  /** strlen: the bytes before the first NUL. */
  function CStringLength(s: seq<uint8>): (n: nat)
    ensures n <= |s|
    ensures forall i | 0 <= i < n :: s[i] != 0
    ensures n < |s| ==> s[n] == 0
  {
    if s == [] || s[0] == 0 then 0 else 1 + CStringLength(s[1..])
  }

  const NOT_FOUND: seq<uint8> := Ascii("<not found>")

  /** The file path that a file query reports: directory path and file name,
      in UTF-8, or "<not found>". */
  function FilePathReply(m: BundleManager, fileIndex: uint32): seq<uint8>
  {
    match FileFind(m, fileIndex)
    case None => NOT_FOUND
    case Some(file) => Utf8(DirectoryPath(file.directory) + file.fileName)
  }

  /** The bundle path that a file query reports, or "<not found>". */
  function BundlePathReply(m: BundleManager, fileIndex: uint32): seq<uint8>
    requires WellFormed(m)
  {
    match FileIdentify(m, fileIndex)
    case None => NOT_FOUND
    case Some(bundle) => Utf8(bundle.absolutePath)
  }

  /** The body of the type-11 reply: the bundle path, then the file path,
      each after a u32 prefix that holds its byte count truncated to 32 bits. */
  function FileQueryReply(m: BundleManager, fileIndex: uint32): seq<uint8>
    requires WellFormed(m)
  {
    var bundle, file := BundlePathReply(m, fileIndex), FilePathReply(m, fileIndex);
    U32Bytes(Wrap32(|bundle|)) + bundle + U32Bytes(Wrap32(|file|)) + file
  }

  lemma FilePathReplyHasNoNul(m: BundleManager, fileIndex: uint32)
    ensures forall i | 0 <= i < |FilePathReply(m, fileIndex)| :: FilePathReply(m, fileIndex)[i] != 0
  {
    match FileFind(m, fileIndex)
    case None =>
    case Some(file) =>
      DirectoryPathHasNoNul(file.directory);
      Utf8HasNoNul(DirectoryPath(file.directory) + file.fileName);
  }

  lemma BundlePathReplyHasNoNul(m: BundleManager, fileIndex: uint32)
    requires WellFormed(m)
    ensures forall i | 0 <= i < |BundlePathReply(m, fileIndex)| :: BundlePathReply(m, fileIndex)[i] != 0
  {
    match FileIdentify(m, fileIndex)
    case None =>
    case Some(bundle) => Utf8HasNoNul(bundle.absolutePath);
  }

  /** When both paths are shorter than 4 GiB the reply is the two paths as
      length-prefixed strings: 8 bytes longer than the paths, and each
      prefix holds its path's byte count. */
  lemma {:induction false} FileQueryReplyLayout(m: BundleManager, fileIndex: uint32)
    requires WellFormed(m)
    requires |BundlePathReply(m, fileIndex)| < TWO_TO_THE_32 && |FilePathReply(m, fileIndex)| < TWO_TO_THE_32
    ensures var bundle, file, r := BundlePathReply(m, fileIndex), FilePathReply(m, fileIndex), FileQueryReply(m, fileIndex);
      && r == StringField(bundle) + StringField(file)
      && |r| == 8 + |bundle| + |file|
      && FromLittleEndian(r[..4]) == |bundle| && r[4..4 + |bundle|] == bundle
      && FromLittleEndian(r[4 + |bundle|..8 + |bundle|]) == |file| && r[8 + |bundle|..] == file
  {
    var bundle, file, r := BundlePathReply(m, fileIndex), FilePathReply(m, fileIndex), FileQueryReply(m, fileIndex);
    var b, f := StringField(bundle), StringField(file);
    assert b == U32Bytes(|bundle|) + bundle by {
      assert b[..4] == U32Bytes(|bundle|) by {
        LittleEndianOfFromLittleEndian(b[..4]);
      }
      assert b == b[..4] + b[4..];
    }
    assert f == U32Bytes(|file|) + file by {
      assert f[..4] == U32Bytes(|file|) by {
        LittleEndianOfFromLittleEndian(f[..4]);
      }
      assert f == f[..4] + f[4..];
    }
    assert r == b + f;
    assert r[..4] == b[..4] && r[4..4 + |bundle|] == b[4..];
    assert r[4 + |bundle|..8 + |bundle|] == f[..4] && r[8 + |bundle|..] == f[4..];
  }

  /** Writing bs right after a prefix p already in place extends it. */
  lemma OverwriteExtendsPrefix(s: seq<uint8>, p: seq<uint8>, bs: seq<uint8>)
    requires |p| + |bs| <= |s| && s[..|p|] == p
    ensures Overwrite(s, |p|, bs)[..|p| + |bs|] == p + bs
  {
    var r := Overwrite(s, |p|, bs);
    assert r[..|p| + |bs|] == r[..|p|] + r[|p|..|p| + |bs|];
  }

  /** Copies bytes into buffer at the given position (memcpy). */
  method CopyInto(buffer: array<uint8>, at: nat, bytes: seq<uint8>)
    requires at + |bytes| <= buffer.Length
    modifies buffer
    ensures buffer[..] == Overwrite(old(buffer[..]), at, bytes)
  {
    forall i | 0 <= i < |bytes| {
      buffer[at + i] := bytes[i];
    }
  }

  /** The handler for message type 10: the body starts with a u32 file
      index (neither its length nor the bundle slot it leads to is checked,
      hence the requirements); the reply, type 11, gives the bundle path
      and the file path of that file, each "<not found>" when its lookup
      fails. */
  method HandleFileQuery(m: BundleManager, message: seq<uint8>) returns (replyType: uint16, response: seq<uint8>)
    requires WellFormed(m) && ReachableBundlesPresent(m) && |message| >= 4
    ensures replyType == 11
    ensures response == FileQueryReply(m, FromLittleEndian(message[..4]))
  {
    Pow256Values();
    var fileIndex: uint32 := FromLittleEndian(message[..4]);
    var bundlePath, filePath := LookUpPaths(m, fileIndex);
    FilePathReplyHasNoNul(m, fileIndex);
    BundlePathReplyHasNoNul(m, fileIndex);
    response := PathsResponse(bundlePath, filePath);
    replyType := 11;
  }

  /** The lookups of the type-10 handler, which repeats the tests of
      bundle_file_find and bundle_file_identify inline. */
  method LookUpPaths(m: BundleManager, fileIndex: uint32) returns (bundlePath: seq<uint8>, filePath: seq<uint8>)
    requires WellFormed(m) && ReachableBundlesPresent(m)
    ensures bundlePath == BundlePathReply(m, fileIndex) && filePath == FilePathReply(m, fileIndex)
  {
    bundlePath := NOT_FOUND;
    filePath := NOT_FOUND;

    if fileIndex > 0 && fileIndex < |m.files| {
      var file := m.files[fileIndex];
      if file.Some? {
        var fullPath := new WideString();
        FormatFileDirectory(file.value.directory, fullPath);
        fullPath.text := fullPath.text + file.value.fileName;
        assert fullPath.text == DirectoryPath(file.value.directory) + file.value.fileName;
        filePath := Utf8(fullPath.text);
      }
    }

    if fileIndex < |m.mappings| {
      var mapping := m.mappings[fileIndex];
      if mapping.fileId != 0 {
        var location := m.locations[mapping.fileId];
        if location.bundleIndex < |m.bundles| {
          bundlePath := Utf8(m.bundles[location.bundleIndex].value.absolutePath);
        }
      }
    }
  }

  /** The type-11 body as the handler lays it out: a zeroed buffer of
      8 + strlen(bundle) + strlen(file) bytes, each string's length stored
      as a uint32_t and its bytes copied after it. */
  method PathsResponse(bundlePath: seq<uint8>, filePath: seq<uint8>) returns (response: seq<uint8>)
    requires forall i | 0 <= i < |bundlePath| :: bundlePath[i] != 0
    requires forall i | 0 <= i < |filePath| :: filePath[i] != 0
    ensures response == U32Bytes(Wrap32(|bundlePath|)) + bundlePath + U32Bytes(Wrap32(|filePath|)) + filePath
  {
    var bundleLength := CStringLength(bundlePath);
    var fileLength := CStringLength(filePath);
    var buffer := new uint8[8 + bundleLength + fileLength](_ => 0);
    var bundlePrefix, filePrefix := U32Bytes(Wrap32(bundleLength)), U32Bytes(Wrap32(fileLength));
    ghost var done: seq<uint8> := [];
    ghost var before := buffer[..];
    CopyInto(buffer, 0, bundlePrefix);
    OverwriteExtendsPrefix(before, done, bundlePrefix);
    done, before := done + bundlePrefix, buffer[..];
    CopyInto(buffer, 4, bundlePath[..bundleLength]);
    OverwriteExtendsPrefix(before, done, bundlePath);
    done, before := done + bundlePath, buffer[..];
    CopyInto(buffer, 4 + bundleLength, filePrefix);
    OverwriteExtendsPrefix(before, done, filePrefix);
    done, before := done + filePrefix, buffer[..];
    CopyInto(buffer, 8 + bundleLength, filePath[..fileLength]);
    OverwriteExtendsPrefix(before, done, filePath);
    done := done + filePath;
    assert buffer[..] == done;
    response := buffer[..];
  }

  /** The hooked read of a bundled file (hook_bundle_file_read, called by
      both wrappers): it works out the file's path, mapping and bundle for
      its log line and never supplies replacement data, so the engine's own
      read always goes ahead. */
  method HookBundleFileRead(m: BundleManager, file: DiskFile, complex: bool) returns (replacement: Option<seq<uint8>>)
    requires WellFormed(m)
    ensures replacement == None
  {
    var fullPath := new WideString();
    FormatFileDirectory(file.directory, fullPath);
    fullPath.text := fullPath.text + file.fileName;
    var mapping := FileMappingOf(m, file.fileIndex);
    var bundle := FileIdentify(m, file.fileIndex);
    replacement := None;
  }

  /** Offsets in the executable image of the two patched read paths, of
      where the engine's code continues after each patch, and of the depot
      pointer that the overwritten instruction loads. */
  const READ_SIMPLE_PATCH: nat := 0x929F0
  const READ_SIMPLE_RESUME: nat := 0x929F7
  const READ_COMPLEX_PATCH: nat := 0x92A20
  const READ_COMPLEX_RESUME: nat := 0x92A27
  const DEPOT_POINTER: nat := 0x2AA43B8
  const READ_PATCH_REGION: nat := 0x10

  /** Each `jmp; nop; nop` patch is 7 bytes, fits its 16-byte region, and
      the wrappers resume right behind it. */
  lemma ReadPatchesResumeBehind(address: uint64, target: uint64)
    ensures var p := JumpPatch(address, target, NOP_NOP);
      && |p| == 7 && |p| <= READ_PATCH_REGION && p[5..] == NOP_NOP
      && READ_SIMPLE_PATCH + |p| == READ_SIMPLE_RESUME
      && READ_COMPLEX_PATCH + |p| == READ_COMPLEX_RESUME
  {
    JumpPatchLayout(address, target, NOP_NOP);
  }

  /** The wrapper that hook_set_bundle_file_read_simple writes at entry:
      save rcx, call the hook, return its reader if there is one, else run
      the overwritten `mov rax, [depot]` and jump back to resume. Each rel32
      operand is computed for the offset at which it is written. */
  function ReadWrapperSimple(hook: uint64, entry: uint64, depot: uint64, resume: uint64): seq<uint8>
  {
    var call := PUSH_RCX + SUB_RSP_20 + MOV_RAX_IMM64 + U64Bytes(hook) + CALL_RAX + ADD_RSP_20 + POP_RCX
                + TEST_RAX_RAX + JZ_SKIP_1 + RETN;
    AppendLoadThenJump(call, entry, depot, resume)
  }

  /** The same for hook_set_bundle_file_read_complex, which also saves rdx
      and r8 around the call. */
  function ReadWrapperComplex(hook: uint64, entry: uint64, depot: uint64, resume: uint64): seq<uint8>
  {
    var call := PUSH_RCX + PUSH_RDX + PUSH_R8 + SUB_RSP_20 + MOV_RAX_IMM64 + U64Bytes(hook) + CALL_RAX
                + ADD_RSP_20 + POP_R8 + POP_RDX + POP_RCX + TEST_RAX_RAX + JZ_SKIP_1 + RETN;
    AppendLoadThenJump(call, entry, depot, resume)
  }

  /** The simple wrapper is 40 bytes, so it fits its 0x40-byte reservation;
      it saves rcx, calls the hook at offset 5, loads the depot pointer at
      28 and jumps to resume at 35. */
  lemma ReadWrapperSimpleLayout(hook: uint64, entry: uint64, depot: uint64, resume: uint64)
    ensures var w := ReadWrapperSimple(hook, entry, depot, resume);
      && |w| == 40 && |w| <= WRAPPER_RESERVATION
      && PUSH_RCX + SUB_RSP_20 <= w
      && CallsThroughRax(w, 5, hook)
      && LoadsRipRelative(w, 28, entry, depot)
      && JumpsTo(w, 35, entry, resume)
  {
    var call := PUSH_RCX + SUB_RSP_20 + MOV_RAX_IMM64 + U64Bytes(hook) + CALL_RAX;
    var code := call + ADD_RSP_20 + POP_RCX + TEST_RAX_RAX + JZ_SKIP_1 + RETN;
    var loading := AppendLoad(code, entry, depot);
    var w := AppendJump(loading, entry, resume);
    CallThroughRaxLayout(PUSH_RCX + SUB_RSP_20, hook);
    AppendLoadLayout(code, entry, depot);
    AppendJumpLayout(loading, entry, resume);
    assert call <= w;
    CallsThroughRaxKept(call, w, 5, hook);
    LoadsRipRelativeKept(loading, w, 28, entry, depot);
  }

  /** The complex wrapper is 46 bytes; it saves rcx, rdx and r8, the call
      is at offset 8, the load at 34 and the jump back at 41. */
  lemma ReadWrapperComplexLayout(hook: uint64, entry: uint64, depot: uint64, resume: uint64)
    ensures var w := ReadWrapperComplex(hook, entry, depot, resume);
      && |w| == 46 && |w| <= WRAPPER_RESERVATION
      && PUSH_RCX + PUSH_RDX + PUSH_R8 + SUB_RSP_20 <= w
      && CallsThroughRax(w, 8, hook)
      && LoadsRipRelative(w, 34, entry, depot)
      && JumpsTo(w, 41, entry, resume)
  {
    var call := PUSH_RCX + PUSH_RDX + PUSH_R8 + SUB_RSP_20 + MOV_RAX_IMM64 + U64Bytes(hook) + CALL_RAX;
    var code := call + ADD_RSP_20 + POP_R8 + POP_RDX + POP_RCX + TEST_RAX_RAX + JZ_SKIP_1 + RETN;
    var loading := AppendLoad(code, entry, depot);
    var w := AppendJump(loading, entry, resume);
    CallThroughRaxLayout(PUSH_RCX + PUSH_RDX + PUSH_R8 + SUB_RSP_20, hook);
    AppendLoadLayout(code, entry, depot);
    AppendJumpLayout(loading, entry, resume);
    assert call <= w;
    CallsThroughRaxKept(call, w, 8, hook);
    LoadsRipRelativeKept(loading, w, 34, entry, depot);
  }

  /** hook_set_bundle_file_read_simple: reserves 0x40 bytes of wrapper
      space, writes ReadWrapperSimple there (hookFunction is the address of
      hook_bundle_file_read_simple, base the executable's base address), then
      overwrites the engine's read path at READ_SIMPLE_PATCH with `jmp
      wrapper; nop; nop`. Every write fits its region, so the only failure
      (the source throws) is an exhausted wrapper space. */
  method HookSetBundleFileReadSimple(base: uint64, image: Memory, wrappers: WrapperAddressSpace, hookFunction: uint64)
    returns (ok: bool)
    requires wrappers.Valid() && image != wrappers.memory
    requires READ_SIMPLE_PATCH + READ_PATCH_REGION <= |image.bytes|
    modifies wrappers`unusedOffset, wrappers`segments, wrappers.memory, image
    ensures wrappers.Valid() && wrappers.baseAddress == old(wrappers.baseAddress)
    ensures ok == old(wrappers.CanReserve(WRAPPER_RESERVATION))
    ensures !ok ==> wrappers.unusedOffset == old(wrappers.unusedOffset)
                    && wrappers.memory.bytes == old(wrappers.memory.bytes) && image.bytes == old(image.bytes)
    ensures ok ==>
      var at := old(wrappers.unusedOffset);
      var entry := Wrap64(wrappers.baseAddress + at);
      var wrapper := ReadWrapperSimple(hookFunction, entry, Wrap64(base + DEPOT_POINTER), Wrap64(base + READ_SIMPLE_RESUME));
      var patch := JumpPatch(Wrap64(base + READ_SIMPLE_PATCH), entry, NOP_NOP);
      && wrappers.unusedOffset == at + WRAPPER_RESERVATION
      && Replaced(old(wrappers.memory.bytes), wrappers.memory.bytes, at, wrapper)
      && Replaced(old(image.bytes), image.bytes, READ_SIMPLE_PATCH, patch)
  {
    var wrapper := wrappers.Reserve(WRAPPER_RESERVATION);
    if wrapper == null {
      return false;
    }
    WriteReadWrapperSimple(wrapper, hookFunction, Wrap64(base + DEPOT_POINTER), Wrap64(base + READ_SIMPLE_RESUME));
    ghost var emitted := wrappers.memory.bytes;
    var patch := new ModifiableCode(Wrap64(base + READ_SIMPLE_PATCH), READ_PATCH_REGION, image, READ_SIMPLE_PATCH);
    WriteJumpPatch(patch, wrapper.address, NOP_NOP);
    assert wrappers.memory.bytes == emitted;
    ok := true;
  }

  /** hook_set_bundle_file_read_complex: as the simple installer, with the
      complex wrapper and the patch at READ_COMPLEX_PATCH. */
  method HookSetBundleFileReadComplex(base: uint64, image: Memory, wrappers: WrapperAddressSpace, hookFunction: uint64)
    returns (ok: bool)
    requires wrappers.Valid() && image != wrappers.memory
    requires READ_COMPLEX_PATCH + READ_PATCH_REGION <= |image.bytes|
    modifies wrappers`unusedOffset, wrappers`segments, wrappers.memory, image
    ensures wrappers.Valid() && wrappers.baseAddress == old(wrappers.baseAddress)
    ensures ok == old(wrappers.CanReserve(WRAPPER_RESERVATION))
    ensures !ok ==> wrappers.unusedOffset == old(wrappers.unusedOffset)
                    && wrappers.memory.bytes == old(wrappers.memory.bytes) && image.bytes == old(image.bytes)
    ensures ok ==>
      var at := old(wrappers.unusedOffset);
      var entry := Wrap64(wrappers.baseAddress + at);
      var wrapper := ReadWrapperComplex(hookFunction, entry, Wrap64(base + DEPOT_POINTER), Wrap64(base + READ_COMPLEX_RESUME));
      var patch := JumpPatch(Wrap64(base + READ_COMPLEX_PATCH), entry, NOP_NOP);
      && wrappers.unusedOffset == at + WRAPPER_RESERVATION
      && Replaced(old(wrappers.memory.bytes), wrappers.memory.bytes, at, wrapper)
      && Replaced(old(image.bytes), image.bytes, READ_COMPLEX_PATCH, patch)
  {
    var wrapper := wrappers.Reserve(WRAPPER_RESERVATION);
    if wrapper == null {
      return false;
    }
    WriteReadWrapperComplex(wrapper, hookFunction, Wrap64(base + DEPOT_POINTER), Wrap64(base + READ_COMPLEX_RESUME));
    ghost var emitted := wrappers.memory.bytes;
    var patch := new ModifiableCode(Wrap64(base + READ_COMPLEX_PATCH), READ_PATCH_REGION, image, READ_COMPLEX_PATCH);
    WriteJumpPatch(patch, wrapper.address, NOP_NOP);
    assert wrappers.memory.bytes == emitted;
    ok := true;
  }

  /** The writes of hook_set_bundle_file_read_simple into the wrapper, in
      the order of the source; each fits the 0x40-byte reservation. */
  method WriteReadWrapperSimple(wrapper: ModifiableCode, hook: uint64, depot: uint64, resume: uint64)
    requires wrapper.Valid() && wrapper.Written() == [] && wrapper.length == WRAPPER_RESERVATION
    modifies wrapper`writeOffset, wrapper.memory
    ensures wrapper.Valid() && wrapper.Written() == ReadWrapperSimple(hook, wrapper.address, depot, resume)
  {
    var written: bool;
    written := wrapper.Bytes(PUSH_RCX);
    assert wrapper.Written() == PUSH_RCX;
    written := wrapper.Bytes(SUB_RSP_20);
    WriteCallThroughRax(wrapper, hook);
    written := wrapper.Bytes(ADD_RSP_20);
    written := wrapper.Bytes(POP_RCX);
    written := wrapper.Bytes(TEST_RAX_RAX);
    written := wrapper.Bytes(JZ_SKIP_1);
    written := wrapper.Bytes(RETN);
    WriteLoadThenJump(wrapper, depot, resume);
  }

  /** The writes of hook_set_bundle_file_read_complex into the wrapper, in
      the order of the source. */
  method WriteReadWrapperComplex(wrapper: ModifiableCode, hook: uint64, depot: uint64, resume: uint64)
    requires wrapper.Valid() && wrapper.Written() == [] && wrapper.length == WRAPPER_RESERVATION
    modifies wrapper`writeOffset, wrapper.memory
    ensures wrapper.Valid() && wrapper.Written() == ReadWrapperComplex(hook, wrapper.address, depot, resume)
  {
    var written: bool;
    written := wrapper.Bytes(PUSH_RCX);
    assert wrapper.Written() == PUSH_RCX;
    written := wrapper.Bytes(PUSH_RDX);
    written := wrapper.Bytes(PUSH_R8);
    written := wrapper.Bytes(SUB_RSP_20);
    WriteCallThroughRax(wrapper, hook);
    WriteComplexRestore(wrapper);
    WriteLoadThenJump(wrapper, depot, resume);
  }

  /** The restore half of the complex wrapper: undo the shadow area, pop
      the saved argument registers, and return the hook's reader when it
      gave one. */
  method WriteComplexRestore(code: ModifiableCode)
    requires code.Valid() && code.Writable(14)
    modifies code`writeOffset, code.memory
    ensures code.Valid() && code.writeOffset == old(code.writeOffset) + 14
    ensures code.Written() == old(code.Written()) + ADD_RSP_20 + POP_R8 + POP_RDX + POP_RCX + TEST_RAX_RAX + JZ_SKIP_1 + RETN
  {
    var written: bool;
    written := code.Bytes(ADD_RSP_20);
    written := code.Bytes(POP_R8);
    written := code.Bytes(POP_RDX);
    written := code.Bytes(POP_RCX);
    written := code.Bytes(TEST_RAX_RAX);
    written := code.Bytes(JZ_SKIP_1);
    written := code.Bytes(RETN);
  }
}
