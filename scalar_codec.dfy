/** The little-endian byte/word helpers of the Configuration Client. */
module ScalarCodec {
  import opened MeshTypes

  /** Byte i (0 = least significant) of a 16-bit word. */
  function Byte16(w: u16, i: nat): u8
    requires i < 2
  {
    if i == 0 then (w & 0xFF) as u8 else ((w >> 8) & 0xFF) as u8
  }

  /** Byte i (0 = least significant) of a 32-bit word. */
  function Byte32(w: u32, i: nat): u8
    requires i < 4
  {
    if i == 0 then (w & 0xFF) as u8
    else if i == 1 then ((w >> 8) & 0xFF) as u8
    else if i == 2 then ((w >> 16) & 0xFF) as u8
    else ((w >> 24) & 0xFF) as u8
  }

  /** CopyU8LittleEndienArrayToU16word: s[off] is the low byte, s[off + 1] the high byte. */
  function ReadU16LE(s: seq<u8>, off: nat): (w: u16)
    requires off + 2 <= |s|
  {
    ((s[off + 1] as u16 << 8) & 0xFF00) | s[off] as u16
  }

  /** CopyU8LittleEndienArrayToU32word: byte i of the word is s[off + i]. */
  function ReadU32LE(s: seq<u8>, off: nat): (w: u32)
    requires off + 4 <= |s|
  {
    var w3 := s[off + 3] as u32;
    var w2 := (w3 << 8) | s[off + 2] as u32;
    var w1 := (w2 << 8) | s[off + 1] as u32;
    (w1 << 8) | s[off] as u32
  }

  /** The little-endian image of a 16-bit word (what a Mesh peer puts on the wire). */
  function LE16Bytes(w: u16): (b: seq<u8>)
    ensures |b| == 2 && b[0] == Byte16(w, 0) && b[1] == Byte16(w, 1)
  {
    [(w & 0xFF) as u8, ((w >> 8) & 0xFF) as u8]
  }

  /** The little-endian image of a 32-bit word. */
  function LE32Bytes(w: u32): (b: seq<u8>)
    ensures |b| == 4
    ensures forall i :: 0 <= i < 4 ==> b[i] == Byte32(w, i)
  {
    [(w & 0xFF) as u8, ((w >> 8) & 0xFF) as u8, ((w >> 16) & 0xFF) as u8, ((w >> 24) & 0xFF) as u8]
  }

  /** What CopyU8LittleEndienArray_fromU16word stores: the high byte FIRST, despite the name. */
  function MsbFirstBytes(w: u16): (b: seq<u8>)
    ensures |b| == 2 && b[0] == Byte16(w, 1) && b[1] == Byte16(w, 0)
  {
    [((w & 0xFF00) >> 8) as u8, (w & 0x00FF) as u8]
  }

  /** The two bytes of a 16-bit word in the opposite order. */
  function Swap16(w: u16): (r: u16)
    ensures Byte16(r, 0) == Byte16(w, 1) && Byte16(r, 1) == Byte16(w, 0)
  {
    (w << 8) | (w >> 8)
  }

  /** CopyU8LittleEndienArray_fromU16word: a[off + 1] := low byte, a[off] := high byte. */
  method WriteU16MsbFirst(a: array<u8>, off: nat, w: u16)
    requires off + 2 <= a.Length
    modifies a
    ensures a[..] == old(a[..])[..off] + MsbFirstBytes(w) + old(a[..])[off + 2..]
  {
    a[off + 1] := (w & 0x00FF) as u8;
    a[off] := ((w & 0xFF00) >> 8) as u8;
  }

  /** CopyU8LittleEndienArray_fromU32word: the four bytes of w, low byte first. */
  method WriteU32LE(a: array<u8>, off: nat, w: u32)
    requires off + 4 <= a.Length
    modifies a
    ensures a[..] == old(a[..])[..off] + LE32Bytes(w) + old(a[..])[off + 4..]
  {
    a[off] := (w & 0x000000FF) as u8;
    a[off + 1] := ((w & 0x0000FF00) >> 8) as u8;
    a[off + 2] := ((w & 0x00FF0000) >> 16) as u8;
    a[off + 3] := ((w & 0xFF000000) >> 24) as u8;
  }

  /** CopyU8LittleEndienArray_2B_fromU32word: the low two bytes of w, low byte first. */
  method WriteLow16LE(a: array<u8>, off: nat, w: u32)
    requires off + 2 <= a.Length
    modifies a
    ensures a[..] == old(a[..])[..off] + LE16Bytes((w & 0xFFFF) as u16) + old(a[..])[off + 2..]
  {
    a[off] := (w & 0x000000FF) as u8;
    a[off + 1] := ((w & 0x0000FF00) >> 8) as u8;
  }

  /** The 16-bit reader puts s[off] in the low byte and s[off + 1] in the high byte. */
  lemma ReadU16Bytes(s: seq<u8>, off: nat)
    requires off + 2 <= |s|
    ensures Byte16(ReadU16LE(s, off), 0) == s[off] && Byte16(ReadU16LE(s, off), 1) == s[off + 1]
  {
  }

  /** Byte i of the 32-bit reader's result is s[off + i]. */
  lemma ReadU32Bytes(s: seq<u8>, off: nat)
    requires off + 4 <= |s|
    ensures Byte32(ReadU32LE(s, off), 0) == s[off] && Byte32(ReadU32LE(s, off), 1) == s[off + 1]
    ensures Byte32(ReadU32LE(s, off), 2) == s[off + 2] && Byte32(ReadU32LE(s, off), 3) == s[off + 3]
  {
  }

  /** The 16-bit reader inverts the little-endian image, in both directions. */
  lemma ReadU16RoundTrip(w: u16, s: seq<u8>)
    requires |s| == 2
    ensures ReadU16LE(LE16Bytes(w), 0) == w
    ensures LE16Bytes(ReadU16LE(s, 0)) == s
  {
  }

  /** The 32-bit reader inverts what CopyU8LittleEndienArray_fromU32word writes, in both directions. */
  lemma ReadU32RoundTrip(w: u32, s: seq<u8>)
    requires |s| == 4
    ensures ReadU32LE(LE32Bytes(w), 0) == w
    ensures LE32Bytes(ReadU32LE(s, 0)) == s
  {
  }

  /** Reading back what CopyU8LittleEndienArray_2B_fromU32word writes gives the low half of the word. */
  lemma ReadLow16RoundTrip(w: u32)
    ensures ReadU16LE(LE16Bytes((w & 0xFFFF) as u16), 0) as u32 == w & 0xFFFF
  {
  }

  /** Reading back what CopyU8LittleEndienArray_fromU16word writes gives the byte-swapped word,
      which is the original word only when its two bytes are equal. */
  lemma ReadMsbFirstIsSwapped(w: u16)
    ensures ReadU16LE(MsbFirstBytes(w), 0) == Swap16(w)
    ensures ReadU16LE(MsbFirstBytes(w), 0) == w <==> Byte16(w, 0) == Byte16(w, 1)
  {
  }

  /** A reader depends only on the bytes it reads. */
  lemma ReadU16Local(s: seq<u8>, off: nat, t: seq<u8>, toff: nat)
    requires off + 2 <= |s| && toff + 2 <= |t|
    requires s[off] == t[toff] && s[off + 1] == t[toff + 1]
    ensures ReadU16LE(s, off) == ReadU16LE(t, toff)
  {
  }

  lemma ReadU32Local(s: seq<u8>, off: nat, t: seq<u8>, toff: nat)
    requires off + 4 <= |s| && toff + 4 <= |t|
    requires s[off] == t[toff] && s[off + 1] == t[toff + 1]
    requires s[off + 2] == t[toff + 2] && s[off + 3] == t[toff + 3]
    ensures ReadU32LE(s, off) == ReadU32LE(t, toff)
  {
  }

  /** A reader applied inside a longer buffer sees only its own bytes. */
  lemma ReadU16At(pre: seq<u8>, w: u16, post: seq<u8>)
    ensures ReadU16LE(pre + LE16Bytes(w) + post, |pre|) == w
  {
    var b := LE16Bytes(w);
    var s := pre + b + post;
    assert s[|pre|] == b[0] && s[|pre| + 1] == b[1];
    ReadU16Local(s, |pre|, b, 0);
    ReadU16RoundTrip(w, b);
  }

  lemma ReadU32At(pre: seq<u8>, w: u32, post: seq<u8>)
    ensures ReadU32LE(pre + LE32Bytes(w) + post, |pre|) == w
  {
    var b := LE32Bytes(w);
    var s := pre + b + post;
    assert s[|pre|] == b[0] && s[|pre| + 1] == b[1];
    assert s[|pre| + 2] == b[2] && s[|pre| + 3] == b[3];
    ReadU32Local(s, |pre|, b, 0);
    ReadU32RoundTrip(w, b);
  }

  /** A reader returns w exactly when the bytes at its offset are w's little-endian bytes. */
  lemma ReadU16Of(s: seq<u8>, off: nat, w: u16)
    requires off + 2 <= |s|
    ensures ReadU16LE(s, off) == w <==> s[off] == Byte16(w, 0) && s[off + 1] == Byte16(w, 1)
  {
    var b := LE16Bytes(w);
    ReadU16RoundTrip(w, b);
    ReadU16Bytes(s, off);
    if s[off] == Byte16(w, 0) && s[off + 1] == Byte16(w, 1) {
      ReadU16Local(s, off, b, 0);
    }
  }

  lemma ReadU32Of(s: seq<u8>, off: nat, w: u32)
    requires off + 4 <= |s|
    ensures ReadU32LE(s, off) == w <==>
      s[off] == Byte32(w, 0) && s[off + 1] == Byte32(w, 1) && s[off + 2] == Byte32(w, 2) && s[off + 3] == Byte32(w, 3)
  {
    var b := LE32Bytes(w);
    ReadU32RoundTrip(w, b);
    ReadU32Bytes(s, off);
    if s[off] == Byte32(w, 0) && s[off + 1] == Byte32(w, 1) && s[off + 2] == Byte32(w, 2) && s[off + 3] == Byte32(w, 3) {
      ReadU32Local(s, off, b, 0);
    }
  }
}
