/** Tracking of the engine's particle emitters and the list handler
    (message type 5) of internal/src/emitters.cpp. The engine calls four
    hooks, each of which updates one of two maps while holding
    emitter_lock; every hook is therefore one atomic step here. Pointers are
    64-bit addresses. */
module Emitters {
  import opened Bytes
  import opened Options
  import opened MessageBuilder
  import opened Bundles
  import opened Sequences

  /** A tracked_emitters value: the emitter and the index of the file its
      data was parsed from. */
  datatype TrackedEmitter = TrackedEmitter(emitter: uint64, fileIndex: uint32)

  /** A tracked_render_emitters value: the render emitter, the emitter it
      was set up from and that emitter's file index, copied at the time. */
  datatype TrackedRenderEmitter = TrackedRenderEmitter(renderEmitter: uint64, emitter: uint64, fileIndex: uint32)

  /** The contents of both maps at one moment. */
  datatype Registry = Registry(emitters: map<uint64, TrackedEmitter>, renders: map<uint64, TrackedRenderEmitter>)

  /** The vtable addresses that mark a live CParticleEmitter and a live
      dependency loader (vtable_WParticleEmitter, vtable_WDependencyLoader). */
  datatype Vtables = Vtables(emitter: uint64, loader: uint64)

  const EMITTER_VTABLE: nat := 0x1F3F478
  const LOADER_VTABLE: nat := 0x1DDAD78

  /** The vtables as emitters_setup finds them in the image loaded at base. */
  function ExpectedVtables(base: uint64): Vtables
  {
    Vtables(Wrap64(base + EMITTER_VTABLE), Wrap64(base + LOADER_VTABLE))
  }

  /** One call into a lifecycle hook, with what the hook reads of its arguments. */
  datatype Event =
    | Parsed(emitter: uint64, emitterVtable: uint64, loaderVtable: uint64, fileIndex: uint32)
    | Destroyed(emitter: uint64)
    | RenderRegistered(renderEmitter: uint64, emitter: uint64)
    | RenderDestroyed(renderEmitter: uint64)

  /** The effect of hook_emitter_parse_data: when both objects carry the
      expected vtable, the emitter is tracked with the loader's file index
      (a new entry, or the old one overwritten); otherwise nothing changes. */
  function Parse(vtables: Vtables, r: Registry, emitter: uint64, emitterVtable: uint64, loaderVtable: uint64,
                 fileIndex: uint32): (r': Registry)
    ensures emitterVtable != vtables.emitter || loaderVtable != vtables.loader ==> r' == r
    ensures emitterVtable == vtables.emitter && loaderVtable == vtables.loader ==>
      && r'.emitters.Keys == r.emitters.Keys + {emitter}
      && r'.emitters[emitter] == TrackedEmitter(emitter, fileIndex)
      && (forall k | k in r.emitters && k != emitter :: r'.emitters[k] == r.emitters[k])
      && r'.renders == r.renders
  {
    if emitterVtable != vtables.emitter || loaderVtable != vtables.loader then r
    else r.(emitters := r.emitters[emitter := TrackedEmitter(emitter, fileIndex)])
  }

  /** The effect of hook_emitter_destruct: the emitter's entry goes, if
      there was one; render entries, including the file indices copied from
      it, stay. */
  function Destroy(r: Registry, emitter: uint64): (r': Registry)
    ensures r'.emitters.Keys == r.emitters.Keys - {emitter}
    ensures forall k | k in r'.emitters :: r'.emitters[k] == r.emitters[k]
    ensures r'.renders == r.renders
  {
    r.(emitters := r.emitters - {emitter})
  }

  /** The effect of hook_render_emitter_register: when the emitter is
      tracked, the render emitter is tracked with that emitter and its file
      index; when it is not, nothing is stored at all. */
  function Register(r: Registry, renderEmitter: uint64, emitter: uint64): (r': Registry)
    ensures emitter !in r.emitters ==> r' == r
    ensures emitter in r.emitters ==>
      && r'.renders.Keys == r.renders.Keys + {renderEmitter}
      && r'.renders[renderEmitter]
         == TrackedRenderEmitter(renderEmitter, r.emitters[emitter].emitter, r.emitters[emitter].fileIndex)
      && (forall k | k in r.renders && k != renderEmitter :: r'.renders[k] == r.renders[k])
      && r'.emitters == r.emitters
  {
    if emitter in r.emitters then
      var it := r.emitters[emitter];
      r.(renders := r.renders[renderEmitter := TrackedRenderEmitter(renderEmitter, it.emitter, it.fileIndex)])
    else r
  }

  /** The effect of hook_render_emitter_destruct: the render emitter's
      entry goes, if there was one. */
  function RenderDestroy(r: Registry, renderEmitter: uint64): (r': Registry)
    ensures r'.renders.Keys == r.renders.Keys - {renderEmitter}
    ensures forall k | k in r'.renders :: r'.renders[k] == r.renders[k]
    ensures r'.emitters == r.emitters
  {
    r.(renders := r.renders - {renderEmitter})
  }

  function Step(vtables: Vtables, r: Registry, e: Event): Registry
  {
    match e
    case Parsed(emitter, emitterVtable, loaderVtable, fileIndex) =>
      Parse(vtables, r, emitter, emitterVtable, loaderVtable, fileIndex)
    case Destroyed(emitter) => Destroy(r, emitter)
    case RenderRegistered(renderEmitter, emitter) => Register(r, renderEmitter, emitter)
    case RenderDestroyed(renderEmitter) => RenderDestroy(r, renderEmitter)
  }

  /** The registry after the hooks have run in the order of events. */
  function Run(vtables: Vtables, r: Registry, events: seq<Event>): Registry
    decreases |events|
  {
    if events == [] then r else Step(vtables, Run(vtables, r, events[..|events| - 1]), events[|events| - 1])
  }

  /** Every entry is stored under its own pointer. */
  ghost predicate SelfKeyed(r: Registry)
  {
    && (forall k | k in r.emitters :: r.emitters[k].emitter == k)
    && (forall k | k in r.renders :: r.renders[k].renderEmitter == k)
  }

  /** Whatever the hooks do, every entry stays stored under its own pointer. */
  lemma {:induction false} RunKeepsSelfKeyed(vtables: Vtables, r: Registry, events: seq<Event>)
    requires SelfKeyed(r)
    ensures SelfKeyed(Run(vtables, r, events))
    decreases |events|
  {
    if events != [] {
      var before := Run(vtables, r, events[..|events| - 1]);
      RunKeepsSelfKeyed(vtables, r, events[..|events| - 1]);
      assert SelfKeyed(before);
      match events[|events| - 1]
      case Parsed(emitter, emitterVtable, loaderVtable, fileIndex) =>
      case Destroyed(emitter) =>
      case RenderRegistered(renderEmitter, emitter) =>
      case RenderDestroyed(renderEmitter) =>
    }
  }

  /** Whether e is a render-emitter hook call about renderEmitter. */
  predicate TouchesRender(e: Event, renderEmitter: uint64)
  {
    (e.RenderRegistered? || e.RenderDestroyed?) && e.renderEmitter == renderEmitter
  }

  /** A render entry changes only through register and destruct calls for
      that render emitter: destroying emitters, even the one it was set up
      from, leaves it and its copied file index alone. */
  lemma {:induction false} RenderEntryUntouched(vtables: Vtables, r: Registry, events: seq<Event>, renderEmitter: uint64)
    requires forall i | 0 <= i < |events| :: !TouchesRender(events[i], renderEmitter)
    ensures var r' := Run(vtables, r, events);
      && (renderEmitter in r'.renders <==> renderEmitter in r.renders)
      && (renderEmitter in r.renders ==> r'.renders[renderEmitter] == r.renders[renderEmitter])
    decreases |events|
  {
    if events != [] {
      var init := events[..|events| - 1];
      assert forall i | 0 <= i < |init| :: init[i] == events[i];
      RenderEntryUntouched(vtables, r, init, renderEmitter);
      assert !TouchesRender(events[|events| - 1], renderEmitter);
    }
  }

  /** Where a render entry comes from: either it was there at the start and
      no call has touched it since, or some register call for it found its
      emitter tracked, and the entry holds that emitter and the file index
      the emitter had at that moment. */
  lemma {:induction false} RenderEntryOrigin(vtables: Vtables, r: Registry, events: seq<Event>, renderEmitter: uint64)
    requires renderEmitter in Run(vtables, r, events).renders
    ensures var entry := Run(vtables, r, events).renders[renderEmitter];
      || (renderEmitter in r.renders && entry == r.renders[renderEmitter])
      || exists i | 0 <= i < |events| ::
           && events[i].RenderRegistered? && events[i].renderEmitter == renderEmitter
           && var before := Run(vtables, r, events[..i]);
              && events[i].emitter in before.emitters
              && entry == TrackedRenderEmitter(renderEmitter, before.emitters[events[i].emitter].emitter,
                                               before.emitters[events[i].emitter].fileIndex)
    decreases |events|
  {
    if events != [] {
      var n := |events| - 1;
      var init := events[..n];
      var before := Run(vtables, r, init);
      var entry := Run(vtables, r, events).renders[renderEmitter];
      var last := events[n];
      if last.RenderRegistered? && last.renderEmitter == renderEmitter && last.emitter in before.emitters {
        assert events[..n] == init;
      } else {
        assert renderEmitter in before.renders && entry == before.renders[renderEmitter];
        RenderEntryOrigin(vtables, r, init, renderEmitter);
        if !(renderEmitter in r.renders && entry == r.renders[renderEmitter]) {
          var i :| 0 <= i < |init| && init[i].RenderRegistered? && init[i].renderEmitter == renderEmitter
                   && var b := Run(vtables, r, init[..i]);
                      && init[i].emitter in b.emitters
                      && entry == TrackedRenderEmitter(renderEmitter, b.emitters[init[i].emitter].emitter,
                                                       b.emitters[init[i].emitter].fileIndex);
          assert events[i] == init[i] && events[..i] == init[..i];
        }
      }
    }
  }

  /** Registering a render emitter that was not tracked and destroying it
      again leaves the registry as it was. */
  lemma RegisterThenDestroyRestores(r: Registry, renderEmitter: uint64, emitter: uint64)
    requires renderEmitter !in r.renders
    ensures RenderDestroy(Register(r, renderEmitter, emitter), renderEmitter) == r
  {
    var r' := RenderDestroy(Register(r, renderEmitter, emitter), renderEmitter);
    assert r'.renders == r.renders;
  }

  /** Parsing an emitter that was not tracked and destroying it again
      leaves the registry as it was. */
  lemma ParseThenDestroyRestores(vtables: Vtables, r: Registry, emitter: uint64, emitterVtable: uint64,
                                 loaderVtable: uint64, fileIndex: uint32)
    requires emitter !in r.emitters
    ensures Destroy(Parse(vtables, r, emitter, emitterVtable, loaderVtable, fileIndex), emitter) == r
  {
    var r' := Destroy(Parse(vtables, r, emitter, emitterVtable, loaderVtable, fileIndex), emitter);
    assert r'.emitters == r.emitters;
  }

  /** The two static maps, updated in place by the hooks. */
  class EmitterTracker {
    var trackedEmitters: map<uint64, TrackedEmitter>
    var trackedRenderEmitters: map<uint64, TrackedRenderEmitter>
    const vtables: Vtables

    function Snapshot(): Registry
      reads this
    {
      Registry(trackedEmitters, trackedRenderEmitters)
    }

    /** Both maps start empty; the vtables are those of the image at base. */
    constructor (base: uint64)
      ensures Snapshot() == Registry(map[], map[]) && vtables == ExpectedVtables(base)
    {
      trackedEmitters := map[];
      trackedRenderEmitters := map[];
      vtables := ExpectedVtables(base);
    }

    /** hook_emitter_parse_data. */
    method ParseData(emitter: uint64, emitterVtable: uint64, loaderVtable: uint64, fileIndex: uint32)
      modifies this
      ensures Snapshot() == Parse(vtables, old(Snapshot()), emitter, emitterVtable, loaderVtable, fileIndex)
    {
      if emitterVtable != vtables.emitter || loaderVtable != vtables.loader {
        return;
      }
      trackedEmitters := trackedEmitters[emitter := TrackedEmitter(emitter, fileIndex)];
    }

    /** hook_emitter_destruct. */
    method EmitterDestruct(emitter: uint64)
      modifies this
      ensures Snapshot() == Destroy(old(Snapshot()), emitter)
    {
      trackedEmitters := trackedEmitters - {emitter};
    }

    /** hook_render_emitter_register. */
    method RenderEmitterRegister(renderEmitter: uint64, emitter: uint64)
      modifies this
      ensures Snapshot() == Register(old(Snapshot()), renderEmitter, emitter)
    {
      if emitter in trackedEmitters {
        var it := trackedEmitters[emitter];
        trackedRenderEmitters := trackedRenderEmitters[renderEmitter :=
          TrackedRenderEmitter(renderEmitter, it.emitter, it.fileIndex)];
      }
    }

    /** hook_render_emitter_destruct. */
    method RenderEmitterDestruct(renderEmitter: uint64)
      modifies this
      ensures Snapshot() == RenderDestroy(old(Snapshot()), renderEmitter)
    {
      trackedRenderEmitters := trackedRenderEmitters - {renderEmitter};
    }

    /** Runs one hook call. */
    method Handle(e: Event)
      modifies this
      ensures Snapshot() == Step(vtables, old(Snapshot()), e)
    {
      match e
      case Parsed(emitter, emitterVtable, loaderVtable, fileIndex) =>
        ParseData(emitter, emitterVtable, loaderVtable, fileIndex);
      case Destroyed(emitter) => EmitterDestruct(emitter);
      case RenderRegistered(renderEmitter, emitter) => RenderEmitterRegister(renderEmitter, emitter);
      case RenderDestroyed(renderEmitter) => RenderEmitterDestruct(renderEmitter);
    }
  }

  // The name that the list reply gives a render emitter: fmt's "{:#16x}h",
  // that is "0x" and the lower-case hexadecimal digits, right-aligned in a
  // field of 16 characters padded with spaces, then "h".

  const SPACE: uint8 := 0x20
  const HEX_PREFIX: seq<uint8> := [0x30, 0x78]
  const HEX_SUFFIX: uint8 := 0x68
  const NAME_WIDTH: nat := 16

  function HexDigit(d: nat): (c: uint8)
    requires d < 16
    ensures DigitValue(c) == Some(d)
  {
    if d < 10 then 0x30 + d else 0x61 + (d - 10)
  }

  /** The value of a lower-case hexadecimal digit. */
  function DigitValue(c: uint8): (r: Option<nat>)
    ensures r.Some? ==> r.value < 16
  {
    if 0x30 <= c <= 0x39 then Some(c - 0x30)
    else if 0x61 <= c <= 0x66 then Some(c - 0x61 + 10)
    else None
  }

  /** The digits of v, most significant first, without leading zeros. */
  function HexDigits(v: nat): (r: seq<uint8>)
    ensures 1 <= |r|
    decreases v
  {
    if v < 16 then [HexDigit(v)] else HexDigits(v / 16) + [HexDigit(v % 16)]
  }

  /** The number a non-empty string of digits denotes. */
  function ReadHexDigits(s: seq<uint8>): Option<nat>
    decreases |s|
  {
    if s == [] then None
    else if |s| == 1 then DigitValue(s[0])
    else
      match ReadHexDigits(s[..|s| - 1])
      case None => None
      case Some(high) =>
        match DigitValue(s[|s| - 1])
        case None => None
        case Some(low) => Some(16 * high + low)
  }

  lemma {:induction false} HexDigitsRoundTrip(v: nat)
    ensures ReadHexDigits(HexDigits(v)) == Some(v)
    decreases v
  {
    if v >= 16 {
      HexDigitsRoundTrip(v / 16);
      var s := HexDigits(v);
      assert s[..|s| - 1] == HexDigits(v / 16);
    }
  }

  /** A value below 16^n has at most n digits. */
  lemma {:induction false} HexDigitsLength(v: nat, n: nat)
    requires 1 <= n && v < Pow16(n)
    ensures |HexDigits(v)| <= n
    decreases n
  {
    if v >= 16 {
      assert n > 1;
      HexDigitsLength(v / 16, n - 1);
    }
  }

  function Pow16(n: nat): nat
  {
    if n == 0 then 1 else 16 * Pow16(n - 1)
  }

  function Spaces(n: nat): (r: seq<uint8>)
    ensures |r| == n && forall i | 0 <= i < n :: r[i] == SPACE
  {
    seq(n, _ => SPACE)
  }

  /** s right-aligned in a field of width characters. */
  function PadLeft(s: seq<uint8>, width: nat): seq<uint8>
  {
    if |s| < width then Spaces(width - |s|) + s else s
  }

  function HexName(address: uint64): seq<uint8>
  {
    PadLeft(HEX_PREFIX + HexDigits(address), NAME_WIDTH) + [HEX_SUFFIX]
  }

  /** s without its leading spaces. */
  function DropSpaces(s: seq<uint8>): (r: seq<uint8>)
    ensures r == [] || r[0] != SPACE
    decreases |s|
  {
    if s != [] && s[0] == SPACE then DropSpaces(s[1..]) else s
  }

  /** The address that a name denotes, None if it is not such a name. */
  function ReadHexName(name: seq<uint8>): Option<nat>
  {
    var t := DropSpaces(name);
    if |t| >= 3 && t[..2] == HEX_PREFIX && t[|t| - 1] == HEX_SUFFIX then ReadHexDigits(t[2..|t| - 1]) else None
  }

  lemma {:induction false} DropSpacesAfterSpaces(n: nat, s: seq<uint8>)
    requires s == [] || s[0] != SPACE
    ensures DropSpaces(Spaces(n) + s) == s
    decreases n
  {
    if n > 0 {
      assert (Spaces(n) + s)[1..] == Spaces(n - 1) + s;
      DropSpacesAfterSpaces(n - 1, s);
    } else {
      assert Spaces(n) + s == s;
    }
  }

  /** The name of an address reads back as the address, and it is 17 to
      19 characters long: at least the padded width and the suffix, at
      most "0x", 16 digits and the suffix. */
  lemma HexNameRoundTrip(address: uint64)
    ensures ReadHexName(HexName(address)) == Some(address)
    ensures NAME_WIDTH + 1 <= |HexName(address)| <= NAME_WIDTH + 3
  {
    var digits := HexDigits(address);
    var field := HEX_PREFIX + digits;
    HexDigitsRoundTrip(address);
    Pow256Values();
    assert Pow16(16) == TWO_TO_THE_64 by {
      assert Pow16(4) == 0x1_0000;
      assert Pow16(8) == Pow16(4) * Pow16(4) by { Pow16Add(4, 4); }
      assert Pow16(16) == Pow16(8) * Pow16(8) by { Pow16Add(8, 8); }
    }
    HexDigitsLength(address, 16);
    var padded := PadLeft(field, NAME_WIDTH);
    assert DropSpaces(padded) == field by {
      if |field| < NAME_WIDTH {
        DropSpacesAfterSpaces(NAME_WIDTH - |field|, field);
      }
    }
    var name := HexName(address);
    assert DropSpaces(name) == field + [HEX_SUFFIX] by {
      DropSpacesPrefix(padded, [HEX_SUFFIX]);
    }
    var t := field + [HEX_SUFFIX];
    assert t[2..|t| - 1] == digits;
  }

  lemma {:induction false} Pow16Add(a: nat, b: nat)
    ensures Pow16(a + b) == Pow16(a) * Pow16(b)
    decreases a
  {
    if a > 0 {
      Pow16Add(a - 1, b);
    }
  }

  /** Dropping leading spaces of s + t drops only from s when s holds more
      than spaces. */
  lemma {:induction false} DropSpacesPrefix(s: seq<uint8>, t: seq<uint8>)
    requires DropSpaces(s) != []
    ensures DropSpaces(s + t) == DropSpaces(s) + t
    decreases |s|
  {
    if s[0] == SPACE {
      assert (s + t)[1..] == s[1..] + t;
      DropSpacesPrefix(s[1..], t);
    }
  }

  // The type-5 list reply.

  const UNKNOWN: seq<uint8> := [0x3C, 0x75, 0x6E, 0x6B, 0x6E, 0x6F, 0x77, 0x6E, 0x3E]

  /** The directory and the name of the file with the given index, or
      "<unknown>" twice when no file has it. */
  function FileStrings(m: BundleManager, fileIndex: uint32): (r: seq<seq<uint8>>)
    requires WellFormed(m)
    ensures |r| == 2
  {
    match FileFind(m, fileIndex)
    case Some(f) => [Utf8(DirectoryPath(f.directory)), Utf8(f.fileName)]
    case None => [UNKNOWN, UNKNOWN]
  }

  /** The path of the bundle that holds the file, or "<unknown>". */
  function BundleString(m: BundleManager, fileIndex: uint32): seq<uint8>
    requires WellFormed(m)
  {
    match FileIdentify(m, fileIndex)
    case Some(b) => Utf8(b.absolutePath)
    case None => UNKNOWN
  }

  /** The four strings that describe one tracked render emitter: its name,
      the directory and the name of its file, and the path of the bundle
      that holds the file; "<unknown>" for each lookup that fails. */
  function EntryStrings(m: BundleManager, entry: TrackedRenderEmitter): (r: seq<seq<uint8>>)
    requires WellFormed(m)
    ensures |r| == 4
  {
    [HexName(entry.renderEmitter)] + FileStrings(m, entry.fileIndex) + [BundleString(m, entry.fileIndex)]
  }

  /** The directory string is "<unknown>" exactly when the file lookup
      fails: a found file's directory string is empty or ends in "/". */
  /** A null slot of the bundle table is reported as "<unknown>"; a
      present one as its path. */
  lemma BundleSlotReported(m: BundleManager, entry: TrackedRenderEmitter)
    requires WellFormed(m) && FileMappingOf(m, entry.fileIndex).Some?
    requires m.locations[m.mappings[entry.fileIndex].fileId].bundleIndex < |m.bundles|
    ensures var slot := m.bundles[m.locations[m.mappings[entry.fileIndex].fileId].bundleIndex];
      EntryStrings(m, entry)[3] == if slot.None? then UNKNOWN else Utf8(slot.value.absolutePath)
  {
  }

  lemma DirectoryUnknownIffNotFound(m: BundleManager, entry: TrackedRenderEmitter)
    requires WellFormed(m)
    ensures EntryStrings(m, entry)[1] == UNKNOWN <==> FileFind(m, entry.fileIndex).None?
  {
    match FileFind(m, entry.fileIndex)
    case None =>
    case Some(f) =>
      var path := DirectoryPath(f.directory);
      if path != [] {
        var dir := f.directory.value;
        var up := DirectoryPath(dir.parent) + dir.name;
        Utf8Append(up, [SLASH]);
        assert Utf8([SLASH]) == [0x2F];
        var encoded := Utf8(path);
        assert encoded[|encoded| - 1] == 0x2F;
      }
  }

  /** The encoding of a concatenation is the concatenation of the encodings. */
  lemma {:induction false} Utf8Append(a: seq<uint16>, b: seq<uint16>)
    ensures Utf8(a + b) == Utf8(a) + Utf8(b)
    decreases |a|
  {
    if a == [] {
      assert a + b == b;
    } else {
      assert (a + b)[0] == a[0] && (a + b)[1..] == a[1..] + b;
      Utf8Append(a[1..], b);
    }
  }

  /** The strings of each entry listed in order. */
  function Entries(m: BundleManager, renders: map<uint64, TrackedRenderEmitter>, order: seq<uint64>): (r: seq<seq<seq<uint8>>>)
    requires WellFormed(m) && forall i | 0 <= i < |order| :: order[i] in renders
    ensures |r| == |order| && forall i | 0 <= i < |order| :: r[i] == EntryStrings(m, renders[order[i]])
  {
    seq(|order|, i requires 0 <= i < |order| => EntryStrings(m, renders[order[i]]))
  }

  /** The strings of the entries listed in order, four per entry. */
  function ListStrings(m: BundleManager, renders: map<uint64, TrackedRenderEmitter>, order: seq<uint64>): seq<seq<uint8>>
    requires WellFormed(m) && forall i | 0 <= i < |order| :: order[i] in renders
  {
    Concat(Entries(m, renders, order))
  }

  /** Each string as a length-prefixed field, one after another. */
  function Fields(strings: seq<seq<uint8>>): seq<uint8>
  {
    Concat(Map(StringField, strings))
  }

  /** The type-6 body: the number of tracked render emitters as a u32, then
      the four fields of each entry. */
  function ListReply(m: BundleManager, renders: map<uint64, TrackedRenderEmitter>, order: seq<uint64>): seq<uint8>
    requires WellFormed(m) && forall i | 0 <= i < |order| :: order[i] in renders
  {
    U32Bytes(Wrap32(|order|)) + Fields(ListStrings(m, renders, order))
  }

  /** order lists every key of the map exactly once: the iteration order of
      the unordered_map, which the source leaves unspecified. */
  ghost predicate Enumerates<V>(order: seq<uint64>, m: map<uint64, V>)
  {
    && |order| == |m|
    && (forall i | 0 <= i < |order| :: order[i] in m)
    && (forall i, j | 0 <= i < j < |order| :: order[i] != order[j])
  }

  /** Reads count length-prefixed strings off the front of bytes. */
  function ReadFields(bytes: seq<uint8>, count: nat): Option<(seq<seq<uint8>>, seq<uint8>)>
    decreases count
  {
    if count == 0 then Some(([], bytes))
    else
      match ReadStringField(bytes)
      case None => None
      case Some((s, rest)) =>
        match ReadFields(rest, count - 1)
        case None => None
        case Some((more, tail)) => Some(([s] + more, tail))
  }

  /** How a client reads a type-6 body: the count, then four strings per
      entry, and nothing after them. */
  function ReadList(bytes: seq<uint8>): Option<seq<seq<uint8>>>
  {
    if |bytes| < 4 then None
    else
      match ReadFields(bytes[4..], 4 * FromLittleEndian(bytes[..4]))
      case Some((strings, rest)) => if rest == [] then Some(strings) else None
      case None => None
  }

  lemma FieldsFront(strings: seq<seq<uint8>>)
    requires strings != []
    ensures Fields(strings) == StringField(strings[0]) + Fields(strings[1..])
  {
    var fields := Map(StringField, strings);
    ConcatFront(fields);
    assert fields[1..] == Map(StringField, strings[1..]);
  }

  /** Reading one more field first reads it, then what followed. */
  lemma ReadFieldsCons(s: seq<uint8>, bytes: seq<uint8>, count: nat, more: seq<seq<uint8>>, rest: seq<uint8>)
    requires |s| < TWO_TO_THE_32
    requires ReadFields(bytes, count) == Some((more, rest))
    ensures ReadFields(StringField(s) + bytes, count + 1) == Some(([s] + more, rest))
  {
    StringFieldRoundTrip(s, bytes);
  }

  lemma {:induction false} FieldsRoundTrip(strings: seq<seq<uint8>>, rest: seq<uint8>)
    requires forall i | 0 <= i < |strings| :: |strings[i]| < TWO_TO_THE_32
    ensures ReadFields(Fields(strings) + rest, |strings|) == Some((strings, rest))
    decreases |strings|
  {
    if strings != [] {
      var tail := strings[1..];
      FieldsFront(strings);
      FieldsRoundTrip(tail, rest);
      ReadFieldsCons(strings[0], Fields(tail) + rest, |tail|, tail, rest);
      AppendToSecond(Fields(strings), StringField(strings[0]), Fields(tail), rest);
      assert [strings[0]] + tail == strings;
    } else {
      assert Map(StringField, strings) == [];
      assert Fields(strings) + rest == rest;
    }
  }

  /** A count n and 4 * n fields read back as the 4 * n strings. */
  lemma CountedFieldsRoundTrip(n: nat, strings: seq<seq<uint8>>)
    requires n < TWO_TO_THE_32 && |strings| == 4 * n
    requires forall i | 0 <= i < |strings| :: |strings[i]| < TWO_TO_THE_32
    ensures ReadList(U32Bytes(n) + Fields(strings)) == Some(strings)
  {
    var bytes := U32Bytes(n) + Fields(strings);
    SplitAt(bytes, U32Bytes(n), Fields(strings));
    FieldsRoundTrip(strings, []);
    assert Fields(strings) + [] == Fields(strings);
  }

  /** A client reads back every string of the list reply, four per tracked
      render emitter, in order, provided each string and the count fit in
      32 bits. */
  lemma ListReplyRoundTrip(m: BundleManager, renders: map<uint64, TrackedRenderEmitter>, order: seq<uint64>)
    requires WellFormed(m) && forall i | 0 <= i < |order| :: order[i] in renders
    requires |order| < TWO_TO_THE_32
    requires var strings := ListStrings(m, renders, order); forall i | 0 <= i < |strings| :: |strings[i]| < TWO_TO_THE_32
    ensures ReadList(ListReply(m, renders, order)) == Some(ListStrings(m, renders, order))
  {
    var strings := ListStrings(m, renders, order);
    ConcatLength(Entries(m, renders, order), 4);
    CountedFieldsRoundTrip(|order|, strings);
    Wrap32Fits(|order|);
    assert ListReply(m, renders, order) == U32Bytes(|order|) + Fields(strings);
  }

  /** The list holds four strings per entry, and group i describes the
      i-th listed entry. */
  lemma ListStringsGroup(m: BundleManager, renders: map<uint64, TrackedRenderEmitter>, order: seq<uint64>, i: nat)
    requires WellFormed(m) && forall j | 0 <= j < |order| :: order[j] in renders
    requires i < |order|
    ensures |ListStrings(m, renders, order)| == 4 * |order|
    ensures ListStrings(m, renders, order)[4 * i..4 * i + 4] == EntryStrings(m, renders[order[i]])
  {
    ConcatGroups(Entries(m, renders, order), 4, i);
  }

  /** Listing one more entry appends its four strings. */
  lemma ListStringsSnoc(m: BundleManager, renders: map<uint64, TrackedRenderEmitter>, order: seq<uint64>, key: uint64)
    requires WellFormed(m) && forall j | 0 <= j < |order| :: order[j] in renders
    requires key in renders
    ensures ListStrings(m, renders, order + [key]) == ListStrings(m, renders, order) + EntryStrings(m, renders[key])
  {
    var entries := Entries(m, renders, order + [key]);
    assert entries == Entries(m, renders, order) + [EntryStrings(m, renders[key])];
    ConcatAppend(Entries(m, renders, order), [EntryStrings(m, renders[key])]);
    ConcatOne(EntryStrings(m, renders[key]));
  }

  lemma FieldsAppend(a: seq<seq<uint8>>, b: seq<seq<uint8>>)
    ensures Fields(a + b) == Fields(a) + Fields(b)
  {
    MapAppend(StringField, a, b);
    ConcatAppend(Map(StringField, a), Map(StringField, b));
  }

  /** The fields of the four strings of one entry, appended one at a time. */
  lemma FieldsOfFour(strings: seq<seq<uint8>>)
    requires |strings| == 4
    ensures Fields(strings) == StringField(strings[0]) + StringField(strings[1]) + StringField(strings[2]) + StringField(strings[3])
  {
    var fields := Map(StringField, strings);
    assert fields == [StringField(strings[0]), StringField(strings[1]), StringField(strings[2]), StringField(strings[3])];
    ConcatFour(StringField(strings[0]), StringField(strings[1]), StringField(strings[2]), StringField(strings[3]));
  }

  /** Appends the directory and the name of the file, or "<unknown>" twice. */
  method AppendFileStrings(response: ByteVector, m: BundleManager, fileIndex: uint32)
    requires WellFormed(m)
    modifies response
    ensures var file := FileStrings(m, fileIndex);
      response.data == old(response.data) + StringField(file[0]) + StringField(file[1])
  {
    var r;
    var file := FileFind(m, fileIndex);
    if file.Some? {
      var directory := new WideString();
      FormatFileDirectory(file.value.directory, directory);
      assert directory.text == DirectoryPath(file.value.directory);
      r := AppendWideString(response, directory.text);
      r := AppendWideString(response, file.value.fileName);
    } else {
      r := AppendString(response, UNKNOWN);
      r := AppendString(response, UNKNOWN);
    }
  }

  /** Appends the bundle's path, or "<unknown>". */
  method AppendBundleString(response: ByteVector, m: BundleManager, fileIndex: uint32)
    requires WellFormed(m)
    modifies response
    ensures response.data == old(response.data) + StringField(BundleString(m, fileIndex))
  {
    var r;
    var bundle := FileIdentify(m, fileIndex);
    if bundle.Some? {
      r := AppendWideString(response, bundle.value.absolutePath);
    } else {
      r := AppendString(response, UNKNOWN);
    }
  }

  /** Appends the four fields of one entry, as one turn of the handler's loop. */
  method AppendEntry(response: ByteVector, m: BundleManager, entry: TrackedRenderEmitter)
    requires WellFormed(m)
    modifies response
    ensures response.data == old(response.data) + Fields(EntryStrings(m, entry))
  {
    var r := AppendString(response, HexName(entry.renderEmitter));
    AppendFileStrings(response, m, entry.fileIndex);
    AppendBundleString(response, m, entry.fileIndex);
    ghost var strings := EntryStrings(m, entry);
    ghost var file := FileStrings(m, entry.fileIndex);
    assert strings == [HexName(entry.renderEmitter), file[0], file[1], BundleString(m, entry.fileIndex)];
    AppendFour(old(response.data), StringField(strings[0]), StringField(strings[1]), StringField(strings[2]), StringField(strings[3]));
    FieldsOfFour(strings);
  }

  /** Appending the fields of the next entry extends the reply by one entry. */
  lemma ListReplyStep(m: BundleManager, renders: map<uint64, TrackedRenderEmitter>, order: seq<uint64>, i: nat,
                      size: uint32, before: seq<uint8>, after: seq<uint8>)
    requires WellFormed(m) && forall j | 0 <= j < |order| :: order[j] in renders
    requires i < |order|
    requires before == U32Bytes(size) + Fields(ListStrings(m, renders, order[..i]))
    requires after == before + Fields(EntryStrings(m, renders[order[i]]))
    ensures after == U32Bytes(size) + Fields(ListStrings(m, renders, order[..i + 1]))
  {
    var prior := ListStrings(m, renders, order[..i]);
    var entry := EntryStrings(m, renders[order[i]]);
    assert order[..i + 1] == order[..i] + [order[i]];
    ListStringsSnoc(m, renders, order[..i], order[i]);
    FieldsAppend(prior, entry);
    AppendThree(U32Bytes(size), Fields(prior), Fields(entry));
  }

  /** The handler for message type 5: the reply, type 6, lists every
      tracked render emitter in the map's iteration order. */
  method HandleList(tracker: EmitterTracker, m: BundleManager, order: seq<uint64>)
    returns (replyType: uint16, response: seq<uint8>)
    requires WellFormed(m) && Enumerates(order, tracker.trackedRenderEmitters)
    ensures replyType == 6
    ensures response == ListReply(m, tracker.trackedRenderEmitters, order)
  {
    var message := new ByteVector();
    var size: uint32 := Wrap32(|tracker.trackedRenderEmitters|);
    Pow256Values();
    var r := Append(message, size, 4);
    for i := 0 to |order|
      invariant message.data == U32Bytes(size) + Fields(ListStrings(m, tracker.trackedRenderEmitters, order[..i]))
    {
      var entry := tracker.trackedRenderEmitters[order[i]];
      ghost var before := message.data;
      AppendEntry(message, m, entry);
      ListReplyStep(m, tracker.trackedRenderEmitters, order, i, size, before, message.data);
    }
    assert order[..|order|] == order;
    response := message.data;
    replyType := 6;
  }
}
