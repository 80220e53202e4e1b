/** Append-only binary encoding into a caller-owned byte vector
    (internal/src/server/message_builder.h), and the UTF-8 conversion of
    wide strings that the wide-string overload goes through (logger::wide). */
module MessageBuilder {
  import opened Bytes
  import opened Options

  /** A std::vector<uint8_t> owned by the caller; every builder grows it in
      place and hands the same vector back. */
  class ByteVector {
    var data: seq<uint8>

    constructor ()
      ensures data == []
    {
      data := [];
    }
  }

  /** message_append(value): the sizeof(value) bytes of an unsigned integer
      of that width, in x86 (little-endian) order. */
  method Append(message: ByteVector, value: nat, size: nat) returns (r: ByteVector)
    requires value < Pow256(size)
    modifies message
    ensures r == message
    ensures message.data == old(message.data) + LittleEndian(value, size)
  {
    message.data := message.data + LittleEndian(value, size);
    r := message;
  }

  /** message_append(pointer, length): the first length source bytes, in order. */
  method AppendBytes(message: ByteVector, source: seq<uint8>, length: nat) returns (r: ByteVector)
    requires length <= |source|
    modifies message
    ensures r == message
    ensures message.data == old(message.data) + source[..length]
  {
    message.data := message.data + source[..length];
    r := message;
  }

  /** A u32 length prefix followed by that many bytes of s. The prefix is
      the string's length truncated to 32 bits, and the same truncated value
      decides how many bytes follow. */
  function StringField(s: seq<uint8>): (r: seq<uint8>)
    ensures |s| < TWO_TO_THE_32 ==> |r| == 4 + |s| && FromLittleEndian(r[..4]) == |s| && r[4..] == s
  {
    Pow256Values();
    var length := Wrap32(|s|);
    FromLittleEndianOfLittleEndian(length, 4);
    LittleEndian(length, 4) + s[..length]
  }

  /** How a reader takes a length-prefixed string off the front of bytes:
      the string and what follows it, or None when bytes are too short. */
  function ReadStringField(bytes: seq<uint8>): (r: Option<(seq<uint8>, seq<uint8>)>)
    ensures r.Some? ==> StringField(r.value.0) + r.value.1 == bytes
  {
    if |bytes| < 4 then None
    else
      var length := FromLittleEndian(bytes[..4]);
      if 4 + length <= |bytes| then
        ReadStringFieldPrefix(bytes, length);
        Some((bytes[4..4 + length], bytes[4 + length..]))
      else None
  }

  lemma ReadStringFieldPrefix(bytes: seq<uint8>, length: nat)
    requires 4 + length <= |bytes| && FromLittleEndian(bytes[..4]) == length
    ensures StringField(bytes[4..4 + length]) + bytes[4 + length..] == bytes
  {
    Pow256Values();
    LittleEndianOfFromLittleEndian(bytes[..4]);
    assert bytes == bytes[..4] + bytes[4..4 + length] + bytes[4 + length..];
  }

  /** A string shorter than 4 GiB is read back from its field, whatever follows. */
  lemma StringFieldRoundTrip(s: seq<uint8>, rest: seq<uint8>)
    requires |s| < TWO_TO_THE_32
    ensures ReadStringField(StringField(s) + rest) == Some((s, rest))
  {
    var bytes := StringField(s) + rest;
    assert bytes[..4] == StringField(s)[..4];
    assert bytes[4..4 + |s|] == s;
    assert bytes[4 + |s|..] == rest;
  }

  /** message_append_string for a narrow string. */
  method AppendString(message: ByteVector, s: seq<uint8>) returns (r: ByteVector)
    modifies message
    ensures r == message
    ensures message.data == old(message.data) + StringField(s)
  {
    Pow256Values();
    var length: uint32 := Wrap32(|s|);
    r := Append(message, length, 4);
    r := AppendBytes(message, s, length);
  }

  /** message_append_string for a wide string: converted to UTF-8 first,
      so the prefix counts encoded bytes. */
  method AppendWideString(message: ByteVector, s: seq<uint16>) returns (r: ByteVector)
    modifies message
    ensures r == message
    ensures message.data == old(message.data) + StringField(Utf8(s))
  {
    r := AppendString(message, Utf8(s));
  }

  /** UTF-8 (RFC 3629, section 3) of one 16-bit wchar_t unit, taken as a code point. */
  function EncodeUnit(c: uint16): (r: seq<uint8>)
    ensures 1 <= |r| <= 3
    ensures |r| == 1 <==> c < 0x80
    ensures c != 0 ==> forall i | 0 <= i < |r| :: r[i] != 0
  {
    if c < 0x80 then [c]
    else if c < 0x800 then [0xC0 + c / 64, 0x80 + c % 64]
    else [0xE0 + c / 4096, 0x80 + (c / 64) % 64, 0x80 + c % 64]
  }

  /** logger::wide: the UTF-8 encoding of a wide string, unit by unit. */
  function Utf8(w: seq<uint16>): seq<uint8>
  {
    if w == [] then [] else EncodeUnit(w[0]) + Utf8(w[1..])
  }

  /** The encoding is never shorter than the string, and has exactly its
      length precisely when every unit is ASCII; ASCII is then kept as is. */
  lemma {:induction false} Utf8Length(w: seq<uint16>)
    ensures |Utf8(w)| >= |w|
    ensures |Utf8(w)| == |w| <==> forall i | 0 <= i < |w| :: w[i] < 0x80
    ensures (forall i | 0 <= i < |w| :: w[i] < 0x80) ==> Utf8(w) == w
  {
    if w != [] {
      Utf8Length(w[1..]);
      assert forall i | 1 <= i < |w| :: w[i] == w[1..][i - 1];
    }
  }

  /** A wide string without NUL units encodes to bytes without NUL, so
      strlen of the encoding is its length. */
  lemma {:induction false} Utf8HasNoNul(w: seq<uint16>)
    requires forall i | 0 <= i < |w| :: w[i] != 0
    ensures forall i | 0 <= i < |Utf8(w)| :: Utf8(w)[i] != 0
  {
    if w != [] {
      Utf8HasNoNul(w[1..]);
      var head := EncodeUnit(w[0]);
      forall i | 0 <= i < |Utf8(w)| ensures Utf8(w)[i] != 0 {
        if i >= |head| {
          assert Utf8(w)[i] == Utf8(w[1..])[i - |head|];
        }
      }
    }
  }
}
