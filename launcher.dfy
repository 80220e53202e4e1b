/** The proxy `dinput8.dll` that loads the mods: it redirects the game's
    imported `GetStartupInfoW` to a hook when it is attached, and on the
    first call of either exported entry point it loads every
    `Mods\mod*\dlls\*.dll` next to the game. */
module Launcher {
  import opened Bytes
  import opened Options

  // ---------------------------------------------------------------------
  // Case-insensitive comparison of C strings

  /** Lower-casing of the C locale: only the ASCII capitals change. */
  function Lower(c: char): char
  {
    if 'A' <= c <= 'Z' then (c as int + 32) as char else c
  }

  /** A string with every character lower-cased. */
  function Lowered(s: string): (r: string)
    ensures |r| == |s|
    ensures forall i | 0 <= i < |s| :: r[i] == Lower(s[i])
  {
    if s == [] then [] else [Lower(s[0])] + Lowered(s[1..])
  }

  /** `_stricmp(a, b) == 0`: the strings (the characters before their
      terminating NULs) agree character by character after lower-casing,
      and end together. */
  predicate StriEqual(a: string, b: string)
  {
    if a == [] || b == [] then a == [] && b == []
    else Lower(a[0]) == Lower(b[0]) && StriEqual(a[1..], b[1..])
  }

  /** `_wcsnicmp(a, b, n) == 0`: at most `n` characters are compared, and
      the comparison stops early where both strings end. */
  predicate StrniEqual(a: string, b: string, n: nat)
  {
    if n == 0 then true
    else if a == [] || b == [] then a == [] && b == []
    else Lower(a[0]) == Lower(b[0]) && StrniEqual(a[1..], b[1..], n - 1)
  }

  /** `_stricmp` equality is equality of the lower-cased strings. */
  lemma {:induction false} StriEqualMeansLowered(a: string, b: string)
    ensures StriEqual(a, b) <==> Lowered(a) == Lowered(b)
    decreases |a|
  {
    if a != [] && b != [] {
      StriEqualMeansLowered(a[1..], b[1..]);
      assert Lowered(a) == [Lower(a[0])] + Lowered(a[1..]);
      assert Lowered(b) == [Lower(b[0])] + Lowered(b[1..]);
      if Lowered(a) == Lowered(b) {
        assert Lowered(a)[1..] == Lowered(a[1..]);
        assert Lowered(b)[1..] == Lowered(b[1..]);
      }
    }
  }

  /** Comparing at most `|b|` characters with a string `b` of that length
      tests whether the first `|b|` characters of `a` are `b`, ignoring case;
      a shorter `a` ends before `b` does and never matches. */
  lemma {:induction false} StrniEqualMeansPrefix(a: string, b: string)
    ensures StrniEqual(a, b, |b|) <==> |a| >= |b| && Lowered(a[..|b|]) == Lowered(b)
    decreases |b|
  {
    if b != [] && a != [] {
      StrniEqualMeansPrefix(a[1..], b[1..]);
      if |a| >= |b| {
        var p := a[..|b|];
        assert a[1..][..|b| - 1] == p[1..];
        assert Lowered(p) == [Lower(p[0])] + Lowered(p[1..]);
        assert Lowered(b) == [Lower(b[0])] + Lowered(b[1..]);
        if Lowered(p) == Lowered(b) {
          assert Lowered(p)[1..] == Lowered(p[1..]);
          assert Lowered(b)[1..] == Lowered(b[1..]);
        }
      }
    }
  }

  // ---------------------------------------------------------------------
  // Patching the game's import address table

  /** `sizeof(IMAGE_IMPORT_DESCRIPTOR)`. */
  const IMPORT_DESCRIPTOR_SIZE: nat := 20

  /** One entry of the game's import directory table: the name of the
      imported DLL and where its import address table starts, counted in
      8-byte slots of the image. The table ends with an all-zero entry. */
  datatype ImportDescriptor = ImportDescriptor(name: string, firstThunk: nat)

  /** The number of descriptors scanned: the directory size in entries,
      less the terminating entry, as a `size_t`. */
  function DescriptorCount(directorySize: uint32): (r: uint64)
    ensures directorySize >= IMPORT_DESCRIPTOR_SIZE ==> r + 1 == directorySize / IMPORT_DESCRIPTOR_SIZE
    ensures directorySize < IMPORT_DESCRIPTOR_SIZE ==> r == TWO_TO_THE_64 - 1
  {
    Wrap64(directorySize / IMPORT_DESCRIPTOR_SIZE - 1)
  }

  /** The descriptors whose thunks are scanned. */
  predicate IsKernel32(name: string)
  {
    StriEqual(name, "kernel32.dll")
  }

  /** The number of thunks of the list that starts at slot `start`: the
      slots before the null thunk that ends it (or before the end of the
      image). */
  function ThunkCount(s: seq<uint64>, start: nat): (n: nat)
    ensures start <= |s| ==> start + n <= |s|
    ensures start > |s| ==> n == 0
    ensures forall k | start <= k < start + n :: s[k] != 0
    ensures start + n < |s| ==> s[start + n] == 0
    decreases |s| - start
  {
    if start >= |s| || s[start] == 0 then 0 else 1 + ThunkCount(s, start + 1)
  }

  /** One import address table with every thunk equal to `original`
      redirected to `hook`. */
  function PatchList(s: seq<uint64>, start: nat, original: uint64, hook: uint64): (r: seq<uint64>)
    ensures |r| == |s|
  {
    var n := ThunkCount(s, start);
    seq(|s|, k requires 0 <= k < |s| => if start <= k < start + n && s[k] == original then hook else s[k])
  }

  /** The image after the first `i` descriptors were handled: the lists of
      those named `kernel32.dll` are patched, one after another. */
  function PatchAll(s: seq<uint64>, descriptors: seq<ImportDescriptor>, i: nat, original: uint64, hook: uint64): (r: seq<uint64>)
    requires i <= |descriptors|
    ensures |r| == |s|
  {
    if i == 0 then s
    else
      var before := PatchAll(s, descriptors, i - 1, original, hook);
      if IsKernel32(descriptors[i - 1].name) then PatchList(before, descriptors[i - 1].firstThunk, original, hook)
      else before
  }

  /** Slot `k` belongs to the thunk list of one of the first `i`
      descriptors named `kernel32.dll`. */
  ghost predicate InKernel32List(s: seq<uint64>, descriptors: seq<ImportDescriptor>, i: nat, k: nat)
    requires i <= |descriptors|
  {
    exists j | 0 <= j < i :: IsKernel32(descriptors[j].name)
      && descriptors[j].firstThunk <= k < descriptors[j].firstThunk + ThunkCount(s, descriptors[j].firstThunk)
  }

  /** Two images with their null thunks in the same places have lists of
      the same lengths. */
  lemma {:induction false} ThunkCountSameNulls(s: seq<uint64>, t: seq<uint64>, start: nat)
    requires |s| == |t|
    requires forall k | 0 <= k < |s| :: (s[k] == 0) == (t[k] == 0)
    ensures ThunkCount(s, start) == ThunkCount(t, start)
    decreases |s| - start
  {
    if start < |s| && s[start] != 0 {
      ThunkCountSameNulls(s, t, start + 1);
    }
  }

  /** A hook that is not null leaves the null thunks, and so every list's
      length, where they were. */
  lemma {:induction false} PatchAllKeepsNulls(s: seq<uint64>, descriptors: seq<ImportDescriptor>, i: nat, original: uint64, hook: uint64)
    requires i <= |descriptors| && hook != 0
    ensures forall k | 0 <= k < |s| :: (PatchAll(s, descriptors, i, original, hook)[k] == 0) == (s[k] == 0)
  {
    if i > 0 {
      PatchAllKeepsNulls(s, descriptors, i - 1, original, hook);
    }
  }

  /** What preloading does to the image: a thunk inside the list of a
      descriptor named `kernel32.dll` (any capitalisation) that holds the
      original `GetStartupInfoW` now holds the hook, and every other slot is
      unchanged. */
  lemma PatchAllEffect(s: seq<uint64>, descriptors: seq<ImportDescriptor>, i: nat, original: uint64, hook: uint64)
    requires i <= |descriptors| && hook != 0
    ensures forall k | 0 <= k < |s| ::
      PatchAll(s, descriptors, i, original, hook)[k]
        == if InKernel32List(s, descriptors, i, k) && s[k] == original then hook else s[k]
  {
    forall k | 0 <= k < |s|
      ensures PatchAll(s, descriptors, i, original, hook)[k]
        == if InKernel32List(s, descriptors, i, k) && s[k] == original then hook else s[k]
    {
      PatchAllEffectAt(s, descriptors, i, original, hook, k);
    }
  }

  /** `PatchAllEffect` for one slot. */
  lemma {:induction false} PatchAllEffectAt(s: seq<uint64>, descriptors: seq<ImportDescriptor>, i: nat,
                                            original: uint64, hook: uint64, k: nat)
    requires i <= |descriptors| && hook != 0 && k < |s|
    ensures PatchAll(s, descriptors, i, original, hook)[k]
      == if InKernel32List(s, descriptors, i, k) && s[k] == original then hook else s[k]
  {
    if i > 0 {
      PatchAllEffectAt(s, descriptors, i - 1, original, hook, k);
      var before := PatchAll(s, descriptors, i - 1, original, hook);
      PatchAllKeepsNulls(s, descriptors, i - 1, original, hook);
      var d := descriptors[i - 1];
      ThunkCountSameNulls(s, before, d.firstThunk);
      var inLast := IsKernel32(d.name) && d.firstThunk <= k < d.firstThunk + ThunkCount(s, d.firstThunk);
      if inLast {
        assert InKernel32List(s, descriptors, i, k);
      } else {
        InKernel32ListShrinks(s, descriptors, i, k);
      }
    }
  }

  /** A slot outside the last descriptor's list is in one of the first `i`
      lists iff it is in one of the first `i - 1`. */
  lemma InKernel32ListShrinks(s: seq<uint64>, descriptors: seq<ImportDescriptor>, i: nat, k: nat)
    requires 0 < i <= |descriptors|
    requires var d := descriptors[i - 1];
      !(IsKernel32(d.name) && d.firstThunk <= k < d.firstThunk + ThunkCount(s, d.firstThunk))
    ensures InKernel32List(s, descriptors, i, k) == InKernel32List(s, descriptors, i - 1, k)
  {
    if InKernel32List(s, descriptors, i, k) {
      var j :| 0 <= j < i && IsKernel32(descriptors[j].name)
        && descriptors[j].firstThunk <= k < descriptors[j].firstThunk + ThunkCount(s, descriptors[j].firstThunk);
      assert j < i - 1;
    }
  }

  /** Patches the thunk list that starts at `start`, slot by slot, up to
      its null thunk. */
  method PatchThunkList(thunks: array<uint64>, start: nat, original: uint64, hook: uint64)
    modifies thunks
    ensures thunks[..] == PatchList(old(thunks[..]), start, original, hook)
  {
    ghost var s := thunks[..];
    ghost var n := ThunkCount(s, start);
    var j := start;
    while j < thunks.Length && thunks[j] != 0
      invariant start <= j
      invariant j <= thunks.Length ==> ThunkCount(s, start) == (j - start) + ThunkCount(s, j)
      invariant j > thunks.Length ==> j == start
      invariant forall k | 0 <= k < thunks.Length ::
        thunks[k] == if start <= k < j && s[k] == original then hook else s[k]
      decreases thunks.Length - j
    {
      if thunks[j] == original {
        thunks[j] := hook;
      }
      j := j + 1;
    }
    assert j == start + n;
    assert thunks[..] == PatchList(s, start, original, hook);
  }

  /** The scan of `preload`: for every descriptor but the terminating one,
      if it names `kernel32.dll`, its thunks holding `original` are
      redirected to `hook`. The list of a descriptor is scanned up to its
      null thunk (see `AsWrittenThunkCount` for the count the game relies
      on instead). */
  method PatchImports(thunks: array<uint64>, descriptors: seq<ImportDescriptor>, directorySize: uint32,
                      original: uint64, hook: uint64)
    requires directorySize >= IMPORT_DESCRIPTOR_SIZE
    requires |descriptors| == directorySize / IMPORT_DESCRIPTOR_SIZE
    modifies thunks
    ensures thunks[..] == PatchAll(old(thunks[..]), descriptors, |descriptors| - 1, original, hook)
  {
    var count := DescriptorCount(directorySize);
    for i := 0 to count
      invariant thunks[..] == PatchAll(old(thunks[..]), descriptors, i, original, hook)
    {
      if IsKernel32(descriptors[i].name) {
        PatchThunkList(thunks, descriptors[i].firstThunk, original, hook);
      }
    }
  }


  /** The thunk count as the game computes it: the distance from this
      descriptor's list to the next descriptor's, converted to `size_t`. */
  function AsWrittenThunkCount(descriptors: seq<ImportDescriptor>, i: nat): uint64
    requires i + 1 < |descriptors|
  {
    Wrap64(descriptors[i + 1].firstThunk - descriptors[i].firstThunk)
  }

  /** When `kernel32.dll` is the last import, the next descriptor is the
      terminating all-zero entry and the computed count wraps around to more
      slots than the image has, so the scan runs off the image. */
  lemma LastImportOverrun(thunks: seq<uint64>, descriptors: seq<ImportDescriptor>, i: nat)
    requires i + 2 == |descriptors| && descriptors[i + 1] == ImportDescriptor([], 0)
    requires 0 < descriptors[i].firstThunk <= |thunks| < TWO_TO_THE_64 / 2
    ensures AsWrittenThunkCount(descriptors, i) > |thunks|
  {
  }

  /** A concrete table that shows it: `kernel32.dll` alone, its list at
      slot 2 of a 4-slot image. */
  lemma LastImportOverrunExample()
    ensures AsWrittenThunkCount([ImportDescriptor("KERNEL32.dll", 2), ImportDescriptor([], 0)], 0)
      == TWO_TO_THE_64 - 2
  {
  }

  /** In the usual layout, where the next descriptor's list starts right
      after this list's null thunk, the game's count covers this list and
      its null thunk: the game's count is one more than the number of
      thunks the scan up to the null thunk visits. */
  lemma {:induction false} StandardLayoutAgrees(s: seq<uint64>, descriptors: seq<ImportDescriptor>, i: nat)
    requires i + 1 < |descriptors|
    requires descriptors[i].firstThunk < descriptors[i + 1].firstThunk <= |s| < TWO_TO_THE_64
    requires forall k | descriptors[i].firstThunk <= k < descriptors[i + 1].firstThunk - 1 :: s[k] != 0
    requires s[descriptors[i + 1].firstThunk - 1] == 0
    ensures AsWrittenThunkCount(descriptors, i) == ThunkCount(s, descriptors[i].firstThunk) + 1
  {
    var start := descriptors[i].firstThunk;
    var next := descriptors[i + 1].firstThunk;
    Wrap64Fits(next - start);
    ThunkCountUpTo(s, start, next - 1);
  }

  /** A list whose thunks are not null up to a null thunk at `end` has
      `end - start` thunks. */
  lemma {:induction false} ThunkCountUpTo(s: seq<uint64>, start: nat, end: nat)
    requires start <= end < |s| && s[end] == 0
    requires forall k | start <= k < end :: s[k] != 0
    ensures ThunkCount(s, start) == end - start
    decreases end - start
  {
    if start < end {
      ThunkCountUpTo(s, start + 1, end);
    }
  }

  // ---------------------------------------------------------------------
  // Finding the mod DLLs

  /** `FILE_ATTRIBUTE_DIRECTORY`. */
  const FILE_ATTRIBUTE_DIRECTORY: nat := 0x10

  /** One result of `FindFirstFileW`/`FindNextFileW`. */
  datatype FindEntry = FindEntry(name: string, attributes: uint32)

  predicate IsDirectory(e: FindEntry)
  {
    (e.attributes / FILE_ATTRIBUTE_DIRECTORY) % 2 == 1
  }

  /** The filter of `load_mods_dlls`. */
  predicate IsModDirectory(e: FindEntry)
  {
    IsDirectory(e) && StrniEqual(e.name, "mod", 3)
  }

  /** The filter of `load_mod_dlls`. */
  predicate IsModDll(e: FindEntry)
  {
    !IsDirectory(e) && |e.name| >= 5 && StrniEqual(e.name[|e.name| - 4..], ".dll", 4)
  }

  /** A mods entry is used iff it is a directory whose name starts with
      "mod" in any capitalisation. */
  lemma ModDirectoryMeans(e: FindEntry)
    ensures IsModDirectory(e) <==> IsDirectory(e) && |e.name| >= 3 && Lowered(e.name[..3]) == "mod"
  {
    StrniEqualMeansPrefix(e.name, "mod");
    assert Lowered("mod") == "mod";
  }

  /** A file is loaded iff it is not a directory, its name has a stem of at
      least one character, and it ends in ".dll" in any capitalisation. */
  lemma ModDllMeans(e: FindEntry)
    ensures IsModDll(e) <==> !IsDirectory(e) && |e.name| >= 5 && Lowered(e.name[|e.name| - 4..]) == ".dll"
  {
    if |e.name| >= 5 {
      var tail := e.name[|e.name| - 4..];
      StrniEqualMeansPrefix(tail, ".dll");
      assert tail[..4] == tail;
      assert Lowered(".dll") == ".dll";
    }
  }

  /** The directory listing: the entries `FindFirstFileW` and
      `FindNextFileW` report for a search pattern, in order; an empty
      listing when the search fails. */
  type Listing = string -> seq<FindEntry>

  /** The paths of the DLLs loaded from the first `n` entries of a
      `dlls` directory. */
  function DllPaths(dllDirectory: string, entries: seq<FindEntry>, n: nat): (r: seq<string>)
    requires n <= |entries|
  {
    if n == 0 then []
    else
      DllPaths(dllDirectory, entries, n - 1)
      + (if IsModDll(entries[n - 1]) then [dllDirectory + entries[n - 1].name] else [])
  }

  /** A path is loaded from a `dlls` directory iff one of its entries passes
      the DLL filter and the path is the directory joined with its name. */
  lemma {:induction false} DllPathsMembers(dllDirectory: string, entries: seq<FindEntry>, n: nat, p: string)
    requires n <= |entries|
    ensures p in DllPaths(dllDirectory, entries, n)
      <==> exists k | 0 <= k < n :: IsModDll(entries[k]) && p == dllDirectory + entries[k].name
  {
    if n > 0 {
      DllPathsMembers(dllDirectory, entries, n - 1, p);
    }
  }

  /** The directory `load_mod_dlls` searches in a mod directory. */
  function DllDirectory(modDirectory: string): string
  {
    modDirectory + "\\dlls\\"
  }

  /** Everything loaded from the first `n` entries of the mods directory:
      the DLLs of each mod directory, in listing order. */
  function ModsDllPaths(modsDirectory: string, listing: Listing, entries: seq<FindEntry>, n: nat): (r: seq<string>)
    requires n <= |entries|
  {
    if n == 0 then []
    else
      var e := entries[n - 1];
      var dllDirectory := DllDirectory(modsDirectory + e.name);
      var found := listing(dllDirectory + "*");
      ModsDllPaths(modsDirectory, listing, entries, n - 1)
      + (if IsModDirectory(e) then DllPaths(dllDirectory, found, |found|) else [])
  }

  /** A path is loaded iff it comes from the `dlls` directory of a mod
      directory listed in the mods directory. */
  lemma {:induction false} ModsDllPathsMembers(modsDirectory: string, listing: Listing, entries: seq<FindEntry>, n: nat, p: string)
    requires n <= |entries|
    ensures p in ModsDllPaths(modsDirectory, listing, entries, n)
      <==> exists k | 0 <= k < n :: IsModDirectory(entries[k])
             && p in DllPaths(DllDirectory(modsDirectory + entries[k].name),
                              listing(DllDirectory(modsDirectory + entries[k].name) + "*"),
                              |listing(DllDirectory(modsDirectory + entries[k].name) + "*")|)
  {
    if n > 0 {
      ModsDllPathsMembers(modsDirectory, listing, entries, n - 1, p);
    }
  }

  /** `load_mod_dlls`: the paths handed to `LoadLibraryW`, in order. */
  method LoadModDlls(modDirectory: string, listing: Listing) returns (loads: seq<string>)
    ensures var dllDirectory := DllDirectory(modDirectory);
      loads == DllPaths(dllDirectory, listing(dllDirectory + "*"), |listing(dllDirectory + "*")|)
  {
    var dllDirectory := modDirectory + "\\dlls\\";
    var entries := listing(dllDirectory + "*");
    loads := [];
    for i := 0 to |entries|
      invariant loads == DllPaths(dllDirectory, entries, i)
    {
      var e := entries[i];
      if IsModDll(e) {
        loads := loads + [dllDirectory + e.name];
      }
    }
  }

  /** `load_mods_dlls`: every path handed to `LoadLibraryW`, in order. */
  method LoadModsDlls(modsDirectory: string, listing: Listing) returns (loads: seq<string>)
    ensures var entries := listing(modsDirectory + "*");
      loads == ModsDllPaths(modsDirectory, listing, entries, |entries|)
  {
    var entries := listing(modsDirectory + "*");
    loads := [];
    for i := 0 to |entries|
      invariant loads == ModsDllPaths(modsDirectory, listing, entries, i)
    {
      var e := entries[i];
      if IsModDirectory(e) {
        var more := LoadModDlls(modsDirectory + e.name, listing);
        loads := loads + more;
      }
    }
  }


  // ---------------------------------------------------------------------
  // The mods directory

  const MODS_RELATIVE: string := "..\\..\\Mods\\"

  /** `find_last_of('\\')`. */
  function LastBackslash(s: string): (r: Option<nat>)
    ensures r.Some? ==> r.value < |s| && s[r.value] == '\\' && forall k | r.value < k < |s| :: s[k] != '\\'
    ensures r.None? ==> forall k | 0 <= k < |s| :: s[k] != '\\'
  {
    if s == [] then None
    else if s[|s| - 1] == '\\' then Some(|s| - 1)
    else LastBackslash(s[..|s| - 1])
  }

  /** The mods directory before `GetFullPathNameW`: the directory of the
      executable (with its trailing backslash), then two levels up, then
      `Mods\`; empty when the path is empty or has no directory part. */
  function UnresolvedModsDirectory(executablePath: string): (r: string)
  {
    if executablePath == [] then ""
    else match LastBackslash(executablePath)
      case None => ""
      case Some(position) => executablePath[..position + 1] + MODS_RELATIVE
  }

  /** What the unresolved mods directory is: empty exactly when the path
      has no backslash, and otherwise the path up to and including its last
      backslash, followed by `..\..\Mods\`. */
  lemma UnresolvedModsDirectoryMeans(executablePath: string)
    ensures var r := UnresolvedModsDirectory(executablePath);
      && (r == [] <==> forall k | 0 <= k < |executablePath| :: executablePath[k] != '\\')
      && (r != [] ==>
            var cut := |r| - |MODS_RELATIVE|;
            && 0 < cut <= |executablePath|
            && r == executablePath[..cut] + MODS_RELATIVE
            && executablePath[cut - 1] == '\\'
            && forall k | cut <= k < |executablePath| :: executablePath[k] != '\\')
  {
  }

  /** `get_mods_directory`: the unresolved directory made absolute by
      `resolve` (`GetFullPathNameW`, which gives the empty string when it
      fails); an empty unresolved directory is returned as it is. */
  function ModsDirectory(executablePath: string, resolve: string -> string): (r: string)
    ensures UnresolvedModsDirectory(executablePath) == [] ==> r == []
  {
    var unresolved := UnresolvedModsDirectory(executablePath);
    if unresolved == [] then "" else resolve(unresolved)
  }

  /** The process the proxy runs in, as far as loading the mods sees it:
      the executable's path (empty when `GetModuleFileNameW` fails),
      `GetFullPathNameW` and the directory listing. */
  datatype Environment = Environment(executablePath: string, resolve: string -> string, listing: Listing)

  /** Everything `load` hands to `LoadLibraryW`, in order. */
  function LoadedDlls(env: Environment): seq<string>
  {
    var modsDirectory := ModsDirectory(env.executablePath, env.resolve);
    var entries := env.listing(modsDirectory + "*");
    ModsDllPaths(modsDirectory, env.listing, entries, |entries|)
  }

  /** `load`. */
  method Load(env: Environment) returns (loads: seq<string>)
    ensures loads == LoadedDlls(env)
  {
    var modsDirectory := ModsDirectory(env.executablePath, env.resolve);
    loads := LoadModsDlls(modsDirectory, env.listing);
  }

  // ---------------------------------------------------------------------
  // The loader and its once-only flags

  /** The loader `DllMain` creates. The addresses of the original
      `GetStartupInfoW` and `DirectInput8Create` are `0` (null) until
      `Preload` looks them up. `loads` counts the runs of `load` and
      `loadedDlls` is what the run loaded. */
  class DllLoader {
    var loaded: bool
    var originalGetStartupInfoW: uint64
    var originalDirectInput8Create: uint64
    ghost var loads: nat
    ghost var loadedDlls: seq<string>

    ghost predicate Valid()
      reads this
    {
      loads == if loaded then 1 else 0
    }

    constructor ()
      ensures Valid() && !loaded && loads == 0
      ensures originalGetStartupInfoW == 0 && originalDirectInput8Create == 0
    {
      loaded := false;
      originalGetStartupInfoW := 0;
      originalDirectInput8Create := 0;
      loads := 0;
      loadedDlls := [];
    }

    /** `preload`: records the original functions (looked up by the
        caller) and redirects the game's imports of `GetStartupInfoW` to
        `hook`, the address of the static hook. */
    method Preload(directInput8Create: uint64, getStartupInfoW: uint64, hook: uint64,
                   thunks: array<uint64>, descriptors: seq<ImportDescriptor>, directorySize: uint32)
      requires directorySize >= IMPORT_DESCRIPTOR_SIZE
      requires |descriptors| == directorySize / IMPORT_DESCRIPTOR_SIZE
      modifies this`originalDirectInput8Create, this`originalGetStartupInfoW, thunks
      ensures originalDirectInput8Create == directInput8Create && originalGetStartupInfoW == getStartupInfoW
      ensures thunks[..] == PatchAll(old(thunks[..]), descriptors, |descriptors| - 1, getStartupInfoW, hook)
    {
      originalDirectInput8Create := directInput8Create;
      originalGetStartupInfoW := getStartupInfoW;
      PatchImports(thunks, descriptors, directorySize, getStartupInfoW, hook);
    }

    /** `check_load`: the first call loads the mods, later calls do
        nothing, so `load` runs at most once. */
    method CheckLoad(env: Environment)
      requires Valid()
      modifies this`loaded, this`loads, this`loadedDlls
      ensures Valid() && loaded && loads <= 1
      ensures old(loaded) ==> loads == old(loads) && loadedDlls == old(loadedDlls)
      ensures !old(loaded) ==> loadedDlls == LoadedDlls(env)
    {
      if !loaded {
        loaded := true;
        loads := loads + 1;
        var paths := Load(env);
        loadedDlls := paths;
      }
    }

    /** `get_original_dinput8`: the mods are loaded before the original
        `DirectInput8Create` is handed out. */
    method GetOriginalDinput8(env: Environment) returns (f: uint64)
      requires Valid()
      modifies this`loaded, this`loads, this`loadedDlls
      ensures Valid() && loaded && loads == 1
      ensures f == originalDirectInput8Create
      ensures old(loaded) ==> loadedDlls == old(loadedDlls)
      ensures !old(loaded) ==> loadedDlls == LoadedDlls(env)
    {
      CheckLoad(env);
      f := originalDirectInput8Create;
    }

    /** `hooked_GetStartupInfoW`: the mods are loaded before the original
        `GetStartupInfoW` is called; the result is the function called. */
    method HookedGetStartupInfoW(env: Environment) returns (called: uint64)
      requires Valid()
      modifies this`loaded, this`loads, this`loadedDlls
      ensures Valid() && loaded && loads == 1
      ensures called == originalGetStartupInfoW
      ensures old(loaded) ==> loadedDlls == old(loadedDlls)
      ensures !old(loaded) ==> loadedDlls == LoadedDlls(env)
    {
      CheckLoad(env);
      called := originalGetStartupInfoW;
    }
  }

  /** `DLL_PROCESS_ATTACH`. */
  const DLL_PROCESS_ATTACH: uint32 := 1

  /** The global state of the proxy: the `preloaded` flag and the global
      loader; `preloads` counts the runs of `preload`. */
  class Proxy {
    var preloaded: bool
    var loader: DllLoader?
    ghost var preloads: nat

    ghost predicate Valid()
      reads this
    {
      preloads == (if preloaded then 1 else 0) && (preloaded <==> loader != null)
    }

    constructor ()
      ensures Valid() && !preloaded
    {
      preloaded := false;
      loader := null;
      preloads := 0;
    }

    /** `DllMain`: the first attach creates the loader and preloads; any
        other call changes nothing. It always reports success. */
    method DllMain(callReason: uint32, directInput8Create: uint64, getStartupInfoW: uint64, hook: uint64,
                   thunks: array<uint64>, descriptors: seq<ImportDescriptor>, directorySize: uint32)
      returns (result: bool)
      requires Valid()
      requires directorySize >= IMPORT_DESCRIPTOR_SIZE
      requires |descriptors| == directorySize / IMPORT_DESCRIPTOR_SIZE
      modifies this, thunks
      ensures Valid() && result && preloads <= 1
      ensures preloaded == (old(preloaded) || callReason == DLL_PROCESS_ATTACH)
      ensures old(preloaded) || callReason != DLL_PROCESS_ATTACH ==>
        loader == old(loader) && thunks[..] == old(thunks[..])
      ensures !old(preloaded) && callReason == DLL_PROCESS_ATTACH ==>
        && fresh(loader)
        && loader.Valid() && !loader.loaded
        && loader.originalGetStartupInfoW == getStartupInfoW
        && loader.originalDirectInput8Create == directInput8Create
        && thunks[..] == PatchAll(old(thunks[..]), descriptors, |descriptors| - 1, getStartupInfoW, hook)
    {
      if callReason == DLL_PROCESS_ATTACH && !preloaded {
        preloaded := true;
        preloads := preloads + 1;
        var l := new DllLoader();
        l.Preload(directInput8Create, getStartupInfoW, hook, thunks, descriptors, directorySize);
        loader := l;
      }
      result := true;
    }
  }
}
