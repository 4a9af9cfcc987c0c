/** The parsers of the four status messages a configured node sends back to the client. Each
    copies fields out of the received bytes, hands the status code to the application callback
    and returns SUCCESS whatever the status code says. */
module StatusParsers {
  import opened MeshTypes
  import opened ScalarCodec
  import KeyIndex
  import Requests

  datatype AppKeyStatusRecord = AppKeyStatusRecord(status: u8, netKeyIndex: u16, appKeyIndex: u16)

  datatype PublicationStatusRecord = PublicationStatusRecord(
    status: u8, elementAddr: u16, publishAddr: u16, appKeyIndex: u16, credentialFlag: u8,
    publishTTL: u8, publishPeriod: u8, publishRetransmitCount: u8,
    publishRetransmitIntervalSteps: u8, modelIdentifier: u32)

  datatype SubscriptionStatusRecord = SubscriptionStatusRecord(
    status: u8, elementAddress: u16, address: u16, modelIdentifier: u32)

  datatype ModelAppStatusRecord = ModelAppStatusRecord(
    status: u8, elementAddress: u16, appKeyIndex: u16, modelIdentifier: u32)

  /** What a parser returns, the record it fills in, and the status code it passes to the
      application's callback. */
  datatype Parsed<T> = Parsed(result: MobleResult, record: T, notified: u8)

  /** ConfigClient_AppKeyStatus: the status octet, then the two 12-bit key indexes packed in
      three octets. The length is not looked at. */
  function AppKeyStatus(data: seq<u8>): (p: Parsed<AppKeyStatusRecord>)
    requires |data| >= 4
    ensures p.result == Success
    ensures p.notified == p.record.status == data[0]
    ensures p.record.netKeyIndex <= 0xFFF && p.record.appKeyIndex <= 0xFFF
  {
    var k := KeyIndex.Unpack(data[1..]);
    Parsed(Success, AppKeyStatusRecord(data[0], k.netKeyIndex, k.appKeyIndex), data[0])
  }

  /** ConfigClient_PublicationStatus. A length of exactly 12 means a 16-bit SIG model id at
      offset 10; any other length is read as a 32-bit vendor model id there, so a buffer that is
      not 12 long has to hold 14 octets. */
  function PublicationStatus(data: seq<u8>, length: nat): (p: Parsed<PublicationStatusRecord>)
    requires |data| >= 12 && (length != 12 ==> |data| >= 14)
    ensures p.result == Success
    ensures p.notified == p.record.status == data[0]
    ensures p.record.appKeyIndex <= 0xFFF && p.record.credentialFlag <= 1
    ensures p.record.publishRetransmitCount <= 7 && p.record.publishRetransmitIntervalSteps <= 31
    ensures p.record.publishTTL == data[7] && p.record.publishPeriod == data[8]
    ensures length == 12 ==> Requests.IsSigModel(p.record.modelIdentifier)
  {
    var keyField := ReadU16LE(data, 5) & 0x0FFF;
    var model := if length == 12 then ReadU16LE(data, 10) as u32 else ReadU32LE(data, 10);
    var r := PublicationStatusRecord(
      data[0], ReadU16LE(data, 1), ReadU16LE(data, 3), keyField, (data[6] & 0x10) >> 4,
      data[7], data[8], data[9] & 0x07, (data[9] & 0xF8) >> 3, model);
    Parsed(Success, r, data[0])
  }

  /** ConfigClient_SubscriptionStatus: a length of exactly 7 means a 16-bit model id at offset 5,
      any other a 32-bit one. */
  function SubscriptionStatus(data: seq<u8>, length: nat): (p: Parsed<SubscriptionStatusRecord>)
    requires |data| >= 7 && (length != 7 ==> |data| >= 9)
    ensures p.result == Success
    ensures p.notified == p.record.status == data[0]
    ensures length == 7 ==> Requests.IsSigModel(p.record.modelIdentifier)
  {
    var model := if length == 7 then ReadU16LE(data, 5) as u32 else ReadU32LE(data, 5);
    Parsed(Success, SubscriptionStatusRecord(data[0], ReadU16LE(data, 1), ReadU16LE(data, 3), model), data[0])
  }

  /** ConfigClient_ModelAppStatus: the same layout as the subscription status, with the AppKey
      index (copied as a full 16-bit word) in place of the subscription address. */
  function ModelAppStatus(data: seq<u8>, length: nat): (p: Parsed<ModelAppStatusRecord>)
    requires |data| >= 7 && (length != 7 ==> |data| >= 9)
    ensures p.result == Success
    ensures p.notified == p.record.status == data[0]
    ensures length == 7 ==> Requests.IsSigModel(p.record.modelIdentifier)
  {
    var model := if length == 7 then ReadU16LE(data, 5) as u32 else ReadU32LE(data, 5);
    Parsed(Success, ModelAppStatusRecord(data[0], ReadU16LE(data, 1), ReadU16LE(data, 3), model), data[0])
  }

  // ---------------------------------------------------------------------------------------
  // The node's side: the status messages as section 4.3.2 of the Mesh Profile 1.0 lays them
  // out, against which the parsers are checked.

  /** A model id on the wire: two octets for a SIG model, four for a vendor model. */
  function ModelIdBytes(modelIdentifier: u32): (b: seq<u8>)
    ensures |b| == if Requests.IsSigModel(modelIdentifier) then 2 else 4
  {
    if Requests.IsSigModel(modelIdentifier) then LE16Bytes((modelIdentifier & 0xFFFF) as u16)
    else LE32Bytes(modelIdentifier)
  }

  /** Config AppKey Status (section 4.3.2.40). */
  function EncodeAppKeyStatus(r: AppKeyStatusRecord): (b: seq<u8>)
    ensures |b| == 4 && b[0] == r.status
  {
    [r.status] + KeyIndex.Pack(r.netKeyIndex, r.appKeyIndex)
  }

  /** The 16-bit field holding AppKeyIndex (12 bits), CredentialFlag (1 bit) and RFU (3 bits). */
  function KeyCredentialField(appKeyIndex: u16, credentialFlag: u8, rfu: u8): u16
  {
    appKeyIndex | ((credentialFlag as u16 & 1) << 12) | ((rfu as u16 & 7) << 13)
  }

  /** The octet holding PublishRetransmitCount (3 bits) and PublishRetransmitIntervalSteps (5 bits). */
  function RetransmitOctet(count: u8, steps: u8): u8
  {
    (count & 7) | (steps << 3)
  }

  /** Config Model Publication Status (section 4.3.2.18); rfu fills the reserved bits. */
  function EncodePublicationStatus(r: PublicationStatusRecord, rfu: u8): (b: seq<u8>)
    ensures |b| == if Requests.IsSigModel(r.modelIdentifier) then 12 else 14
  {
    [r.status] + LE16Bytes(r.elementAddr) + LE16Bytes(r.publishAddr)
      + LE16Bytes(KeyCredentialField(r.appKeyIndex, r.credentialFlag, rfu))
      + [r.publishTTL, r.publishPeriod, RetransmitOctet(r.publishRetransmitCount, r.publishRetransmitIntervalSteps)]
      + ModelIdBytes(r.modelIdentifier)
  }

  /** Config Model Subscription Status (section 4.3.2.26). */
  function EncodeSubscriptionStatus(r: SubscriptionStatusRecord): (b: seq<u8>)
    ensures |b| == if Requests.IsSigModel(r.modelIdentifier) then 7 else 9
  {
    [r.status] + LE16Bytes(r.elementAddress) + LE16Bytes(r.address) + ModelIdBytes(r.modelIdentifier)
  }

  /** Config Model App Status (section 4.3.2.48). */
  function EncodeModelAppStatus(r: ModelAppStatusRecord): (b: seq<u8>)
    ensures |b| == if Requests.IsSigModel(r.modelIdentifier) then 7 else 9
  {
    [r.status] + LE16Bytes(r.elementAddress) + LE16Bytes(r.appKeyIndex) + ModelIdBytes(r.modelIdentifier)
  }

  // ---------------------------------------------------------------------------------------
  // Bit-field and model-id helpers for the round trips.

  lemma KeyCredentialFieldSplits(appKeyIndex: u16, credentialFlag: u8, rfu: u8)
    requires appKeyIndex <= 0xFFF && credentialFlag <= 1
    ensures KeyCredentialField(appKeyIndex, credentialFlag, rfu) & 0x0FFF == appKeyIndex
    ensures (Byte16(KeyCredentialField(appKeyIndex, credentialFlag, rfu), 1) & 0x10) >> 4 == credentialFlag
  {
  }

  lemma RetransmitOctetSplits(count: u8, steps: u8)
    requires count <= 7 && steps <= 31
    ensures RetransmitOctet(count, steps) & 0x07 == count
    ensures (RetransmitOctet(count, steps) & 0xF8) >> 3 == steps
  {
  }

  lemma SigIdNarrowing(modelIdentifier: u32)
    requires Requests.IsSigModel(modelIdentifier)
    ensures ((modelIdentifier & 0xFFFF) as u16) as u32 == modelIdentifier
  {
  }

  /** The model id a status parser reads back at offset off, for as long as the message is. */
  lemma ModelIdReadBack(pre: seq<u8>, modelIdentifier: u32)
    ensures var s := pre + ModelIdBytes(modelIdentifier);
      if Requests.IsSigModel(modelIdentifier) then ReadU16LE(s, |pre|) as u32 == modelIdentifier
      else ReadU32LE(s, |pre|) == modelIdentifier
  {
    var s := pre + ModelIdBytes(modelIdentifier);
    assert s == pre + ModelIdBytes(modelIdentifier) + [];
    if Requests.IsSigModel(modelIdentifier) {
      var w := (modelIdentifier & 0xFFFF) as u16;
      ReadU16At(pre, w, []);
      SigIdNarrowing(modelIdentifier);
    } else {
      ReadU32At(pre, modelIdentifier, []);
    }
  }

  // ---------------------------------------------------------------------------------------
  // Round trips: a parser given a well-formed status message, with its true length, recovers
  // every field the node put in it.

  lemma {:induction false} AppKeyStatusRoundTrip(r: AppKeyStatusRecord)
    requires r.netKeyIndex <= 0xFFF && r.appKeyIndex <= 0xFFF
    ensures AppKeyStatus(EncodeAppKeyStatus(r)).record == r
  {
    var b := EncodeAppKeyStatus(r);
    assert b[1..] == KeyIndex.Pack(r.netKeyIndex, r.appKeyIndex);
    KeyIndex.UnpackPack12(r.netKeyIndex, r.appKeyIndex);
  }

  /** Where the fixed part of a Publication Status puts each field. */
  lemma PublicationStatusLayout(r: PublicationStatusRecord, rfu: u8)
    ensures var b := EncodePublicationStatus(r, rfu);
      && ReadU16LE(b, 1) == r.elementAddr && ReadU16LE(b, 3) == r.publishAddr
      && ReadU16LE(b, 5) == KeyCredentialField(r.appKeyIndex, r.credentialFlag, rfu)
      && b[6] == Byte16(KeyCredentialField(r.appKeyIndex, r.credentialFlag, rfu), 1)
      && b[7] == r.publishTTL && b[8] == r.publishPeriod
      && b[9] == RetransmitOctet(r.publishRetransmitCount, r.publishRetransmitIntervalSteps)
      && b == b[..10] + ModelIdBytes(r.modelIdentifier)
  {
    var field := KeyCredentialField(r.appKeyIndex, r.credentialFlag, rfu);
    var b := EncodePublicationStatus(r, rfu);
    ReadU16Of(b, 1, r.elementAddr);
    ReadU16Of(b, 3, r.publishAddr);
    ReadU16Of(b, 5, field);
  }

  lemma {:induction false} PublicationStatusRoundTrip(r: PublicationStatusRecord, rfu: u8)
    requires r.appKeyIndex <= 0xFFF && r.credentialFlag <= 1
    requires r.publishRetransmitCount <= 7 && r.publishRetransmitIntervalSteps <= 31
    ensures var b := EncodePublicationStatus(r, rfu);
      PublicationStatus(b, |b|).record == r
  {
    var b := EncodePublicationStatus(r, rfu);
    PublicationStatusLayout(r, rfu);
    KeyCredentialFieldSplits(r.appKeyIndex, r.credentialFlag, rfu);
    RetransmitOctetSplits(r.publishRetransmitCount, r.publishRetransmitIntervalSteps);
    ModelIdReadBack(b[..10], r.modelIdentifier);
  }

  lemma {:induction false} SubscriptionStatusRoundTrip(r: SubscriptionStatusRecord)
    ensures var b := EncodeSubscriptionStatus(r);
      SubscriptionStatus(b, |b|).record == r
  {
    var head := [r.status] + LE16Bytes(r.elementAddress) + LE16Bytes(r.address);
    var b := EncodeSubscriptionStatus(r);
    assert b == head + ModelIdBytes(r.modelIdentifier);
    ReadU16Of(b, 1, r.elementAddress);
    ReadU16Of(b, 3, r.address);
    ModelIdReadBack(head, r.modelIdentifier);
  }

  lemma {:induction false} ModelAppStatusRoundTrip(r: ModelAppStatusRecord)
    ensures var b := EncodeModelAppStatus(r);
      ModelAppStatus(b, |b|).record == r
  {
    var head := [r.status] + LE16Bytes(r.elementAddress) + LE16Bytes(r.appKeyIndex);
    var b := EncodeModelAppStatus(r);
    assert b == head + ModelIdBytes(r.modelIdentifier);
    ReadU16Of(b, 1, r.elementAddress);
    ReadU16Of(b, 3, r.appKeyIndex);
    ModelIdReadBack(head, r.modelIdentifier);
  }

  /** The length, not the content, decides the model-id width: a vendor-form subscription status
      that arrives with length 7 is read as the SIG model id in its first two model octets. */
  lemma VendorStatusTruncatedToSig(r: SubscriptionStatusRecord)
    requires !Requests.IsSigModel(r.modelIdentifier)
    ensures SubscriptionStatus(EncodeSubscriptionStatus(r), 7).record.modelIdentifier
            == r.modelIdentifier & 0xFFFF
  {
    var b := EncodeSubscriptionStatus(r);
    ReadU16Bytes(b, 5);
    ReadU16Of(b, 5, (r.modelIdentifier & 0xFFFF) as u16);
  }
}
