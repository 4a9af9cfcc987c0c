/** Packing of two 12-bit global key indexes into three octets
    (section 4.3.1.1 of the Bluetooth Mesh Profile 1.0). */
module KeyIndex {
  import opened MeshTypes

  datatype KeyIndexPair = KeyIndexPair(netKeyIndex: u16, appKeyIndex: u16)

  /** PackNetkeyAppkeyInto3Bytes: octet 0 holds the 8 low bits of the NetKey index, octet 1 its
      4 high bits (low nibble) and the 4 low bits of the AppKey index (high nibble), octet 2 the
      8 high bits of the AppKey index. Bits above the twelfth of either input are dropped. */
  function Pack(netKeyIndex: u16, appKeyIndex: u16): (b: seq<u8>)
    ensures |b| == 3
  {
    [ (netKeyIndex & 0x00FF) as u8,
      ((netKeyIndex & 0x0F00) >> 8) as u8 | ((appKeyIndex & 0x000F) << 4) as u8,
      ((appKeyIndex >> 4) & 0xFF) as u8 ]
  }

  /** NetkeyAppkeyUnpack: reads the two indexes back from the first three octets of b. */
  function Unpack(b: seq<u8>): (k: KeyIndexPair)
    requires |b| >= 3
    ensures k.netKeyIndex <= 0xFFF && k.appKeyIndex <= 0xFFF
  {
    var net := ((b[1] & 0x0F) as u16 << 8) | b[0] as u16;
    var app := ((b[1] & 0xF0) as u16 >> 4) | (b[2] as u16 << 4);
    KeyIndexPair(net, app)
  }

  /** Unpacking a packed pair gives back the low twelve bits of each index. */
  lemma UnpackPack(netKeyIndex: u16, appKeyIndex: u16)
    ensures Unpack(Pack(netKeyIndex, appKeyIndex)) == KeyIndexPair(netKeyIndex & 0xFFF, appKeyIndex & 0xFFF)
  {
  }

  /** Packing an unpacked triple reproduces the three octets exactly. */
  lemma PackUnpack(b: seq<u8>)
    requires |b| == 3
    ensures Pack(Unpack(b).netKeyIndex, Unpack(b).appKeyIndex) == b
  {
  }

  /** Indexes that already fit in twelve bits survive the round trip unchanged. */
  lemma UnpackPack12(netKeyIndex: u16, appKeyIndex: u16)
    requires netKeyIndex <= 0xFFF && appKeyIndex <= 0xFFF
    ensures Unpack(Pack(netKeyIndex, appKeyIndex)) == KeyIndexPair(netKeyIndex, appKeyIndex)
  {
    UnpackPack(netKeyIndex, appKeyIndex);
  }

  /** NetKey index 0x123 and AppKey index 0xABC pack to 23 C1 AB; the third octet is the
      AppKey index's eight high bits, 0xAB. */
  lemma PackExample()
    ensures Pack(0x123, 0xABC) == [0x23, 0xC1, 0xAB]
    ensures Unpack([0x23, 0xC1, 0xAB]) == KeyIndexPair(0x123, 0xABC)
  {
    var b := Pack(0x123, 0xABC);
    assert b[0] == 0x23 && b[1] == 0xC1 && b[2] == 0xAB;
  }
}
