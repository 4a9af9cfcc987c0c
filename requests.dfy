/** The request builders of the Configuration Client: argument checks, payload length and the
    choice between the local self-configuration path and the transport. */
module Requests {
  import opened MeshTypes
  import KeyIndex

  /** The macros and struct sizes the builders depend on, whose definitions are in headers
      outside this model. */
  datatype Platform = Platform(
    isGroup: u16 -> bool,            // ADDRESS_IS_GROUP
    isUnassigned: u16 -> bool,       // ADDRESS_IS_UNASSIGNED
    clientUnicastAddr: u16,          // CONFIG_CLIENT_UNICAST_ADDR
    pageFieldSize: nat,              // sizeof(ccGetCompositionMsg.page)
    appKeyAddSize: nat,              // sizeof(configClientAppKeyAdd_t)
    publicationSetSize: nat,         // sizeof(configClientModelPublication_t)
    subscriptionAddSize: nat,        // sizeof(configClientModelSubscriptionAdd_t)
    modelAppBindSize: nat)           // sizeof(configClientModelAppBind_t)

  predicate PlatformOk(p: Platform)
  {
    p.pageFieldSize >= 1 && p.appKeyAddSize >= 2 && p.publicationSetSize >= 2 &&
    p.subscriptionAddSize >= 2 && p.modelAppBindSize >= 2
  }

  /** COMPOSITION_PAGE0 */
  const CompositionPage0: u8 := 0
  /** APPKEY_SIZE: an AppKey is 128 bits. */
  const AppKeySize: nat := 16

  /** CHKSIGMODEL, after the source's comment: a model id whose upper 16 bits are 0 is a SIG model. */
  predicate IsSigModel(modelIdentifier: u32)
    ensures IsSigModel(modelIdentifier) <==> modelIdentifier <= 0xFFFF
  {
    modelIdentifier >> 16 == 0
  }

  /** The request structures' fields as the builders fill them (their byte layouts are not
      part of this model). */
  datatype Request =
    | CompositionGetMsg(page: u8)
    | AppKeyAddMsg(netKeyIndex: u16, appKeyIndex: u16, appKey: seq<u8>)
    | PublicationSetMsg(elementAddr: u16, publishAddr: u16, appKeyIndex: u16, credentialFlag: u8,
                     rfu: u8, publishTTL: u8, publishPeriod: u8, publishRetransmitCount: u8,
                     publishRetransmitIntervalSteps: u8, modelIdentifier: u32)
    | SubscriptionAddMsg(elementAddress: u16, address: u16, modelIdentifier: u32)
    | ModelAppBindMsg(elementAddress: u16, appKeyIndex: u16, modelIdentifier: u32)

  /** Which foreign call a builder makes. */
  datatype Route = SelfConfig | Transport

  /** The record of the one send call a builder makes: the path, the destination address, the
      opcode, dataLength, and the request structure (None when the source sends a structure it
      never filled in). */
  datatype Sent = Sent(route: Route, dst: u16, opcode: u16, length: nat, payload: Option<Request>)

  datatype Outcome = Outcome(result: MobleResult, sent: Sent)

  /** A configuration message for the client's own element goes to the self-configuration path
      addressed to CONFIG_CLIENT_UNICAST_ADDR; any other goes through the transport to the node's
      primary address. */
  function Deliver(p: Platform, primaryAddress: u16, elementAddress: u16): (d: (Route, u16))
    ensures d.0 == SelfConfig <==> elementAddress == p.clientUnicastAddr
    ensures d.1 == if elementAddress == p.clientUnicastAddr then p.clientUnicastAddr else primaryAddress
  {
    if elementAddress == p.clientUnicastAddr then (SelfConfig, p.clientUnicastAddr)
    else (Transport, primaryAddress)
  }

  /** ConfigClient_CompositionDataGet: asks the node for page 0; always SUCCESS. */
  function CompositionDataGet(p: Platform, primaryAddress: u16): (o: Outcome)
    requires PlatformOk(p)
    ensures o.result == Success
    ensures o.sent == Sent(Transport, primaryAddress, CompositionDataGetOpcode, p.pageFieldSize,
                           Some(CompositionGetMsg(CompositionPage0)))
  {
    Outcome(Success, Sent(Transport, primaryAddress, CompositionDataGetOpcode, p.pageFieldSize,
                          Some(CompositionGetMsg(CompositionPage0))))
  }

  /** ConfigClient_AppKeyAdd: the two indexes go into the structure as given (they are not
      packed here) together with the first 16 bytes of the key; always SUCCESS. */
  function AppKeyAdd(p: Platform, primaryAddress: u16, netKeyIndex: u16, appKeyIndex: u16, appkey: seq<u8>): (o: Outcome)
    requires PlatformOk(p) && |appkey| >= AppKeySize
    ensures o.result == Success
    ensures o.sent.route == Transport && o.sent.dst == primaryAddress
    ensures o.sent.opcode == AppKeyAddOpcode && o.sent.length == p.appKeyAddSize
    ensures o.sent.payload == Some(AppKeyAddMsg(netKeyIndex, appKeyIndex, appkey[..AppKeySize]))
  {
    var req := AppKeyAddMsg(netKeyIndex, appKeyIndex, appkey[..AppKeySize]);
    Outcome(Success, Sent(Transport, primaryAddress, AppKeyAddOpcode, p.appKeyAddSize, Some(req)))
  }

  /** ConfigClient_PublicationSet. A group or unassigned element address gives INVALIDARG, but
      the message is still sent, with the full structure length and an unfilled structure. */
  function PublicationSet(p: Platform, primaryAddress: u16, elementAddress: u16, publishAddress: u16,
                          appKeyIndex: u16, credentialFlag: u8, publishTTL: u8, publishPeriod: u8,
                          publishRetransmitCount: u8, publishRetransmitIntervalSteps: u8,
                          modelIdentifier: u32): (o: Outcome)
    requires PlatformOk(p)
    ensures o.result == InvalidArg <==> p.isGroup(elementAddress) || p.isUnassigned(elementAddress)
    ensures o.result == Success || o.result == InvalidArg
    ensures (o.sent.route, o.sent.dst) == Deliver(p, primaryAddress, elementAddress)
    ensures o.sent.opcode == PublicationSetOpcode
    ensures o.sent.length ==
      if o.result == Success && IsSigModel(modelIdentifier) then p.publicationSetSize - 2
      else p.publicationSetSize
    ensures o.result == Success <==> o.sent.payload.Some?
    ensures o.result == Success ==>
      o.sent.payload.value ==
        PublicationSetMsg(elementAddress, publishAddress, appKeyIndex, credentialFlag, 0, publishTTL,
                          publishPeriod, publishRetransmitCount, publishRetransmitIntervalSteps, modelIdentifier)
  {
    var dataLength := p.publicationSetSize;
    var invalid := p.isGroup(elementAddress) || p.isUnassigned(elementAddress);
    var result := if invalid then InvalidArg else Success;
    var payload := if invalid then None
      else Some(PublicationSetMsg(elementAddress, publishAddress, appKeyIndex, credentialFlag, 0,
                               publishTTL, publishPeriod, publishRetransmitCount,
                               publishRetransmitIntervalSteps, modelIdentifier));
    var length := if !invalid && IsSigModel(modelIdentifier) then dataLength - 2 else dataLength;
    var (route, dst) := Deliver(p, primaryAddress, elementAddress);
    Outcome(result, Sent(route, dst, PublicationSetOpcode, length, payload))
  }

  /** ConfigClient_SubscriptionAdd. A group or unassigned element address gives INVALIDARG, but
      the message is still sent; dataLength is then never assigned, so its value is the
      arbitrary uninitialisedLength. */
  function SubscriptionAdd(p: Platform, primaryAddress: u16, elementAddress: u16, address: u16,
                           modelIdentifier: u32, uninitialisedLength: nat): (o: Outcome)
    requires PlatformOk(p)
    ensures o.result == InvalidArg <==> p.isGroup(elementAddress) || p.isUnassigned(elementAddress)
    ensures o.result == Success || o.result == InvalidArg
    ensures (o.sent.route, o.sent.dst) == Deliver(p, primaryAddress, elementAddress)
    ensures o.sent.opcode == SubscriptionAddOpcode
    ensures o.result == Success ==>
      o.sent.length == if IsSigModel(modelIdentifier) then p.subscriptionAddSize - 2 else p.subscriptionAddSize
    ensures o.result == InvalidArg ==> o.sent.length == uninitialisedLength
    ensures o.result == Success <==> o.sent.payload == Some(SubscriptionAddMsg(elementAddress, address, modelIdentifier))
  {
    var invalid := p.isGroup(elementAddress) || p.isUnassigned(elementAddress);
    var result := if invalid then InvalidArg else Success;
    var length :=
      if invalid then uninitialisedLength
      else if IsSigModel(modelIdentifier) then p.subscriptionAddSize - 2
      else p.subscriptionAddSize;
    var payload := if invalid then None else Some(SubscriptionAddMsg(elementAddress, address, modelIdentifier));
    var (route, dst) := Deliver(p, primaryAddress, elementAddress);
    Outcome(result, Sent(route, dst, SubscriptionAddOpcode, length, payload))
  }

  /** ConfigClient_ModelAppBind: no address check; always SUCCESS. */
  function ModelAppBind(p: Platform, primaryAddress: u16, elementAddress: u16, appKeyIndex: u16,
                        modelIdentifier: u32): (o: Outcome)
    requires PlatformOk(p)
    ensures o.result == Success
    ensures (o.sent.route, o.sent.dst) == Deliver(p, primaryAddress, elementAddress)
    ensures o.sent.opcode == ModelAppBindOpcode
    ensures o.sent.length ==
      if IsSigModel(modelIdentifier) then p.modelAppBindSize - 2 else p.modelAppBindSize
    ensures o.sent.payload == Some(ModelAppBindMsg(elementAddress, appKeyIndex, modelIdentifier))
  {
    var dataLength := p.modelAppBindSize;
    var length := if IsSigModel(modelIdentifier) then dataLength - 2 else dataLength;
    var (route, dst) := Deliver(p, primaryAddress, elementAddress);
    Outcome(Success, Sent(route, dst, ModelAppBindOpcode, length,
                          Some(ModelAppBindMsg(elementAddress, appKeyIndex, modelIdentifier))))
  }

  /** For an accepted element address, a SIG model id makes each model-carrying request exactly
      two bytes shorter than a vendor model id does, all other arguments being equal. */
  lemma SigPayloadTwoShorter(p: Platform, primaryAddress: u16, elementAddress: u16, other: u16,
                             sig: u32, vendor: u32, junk: nat)
    requires PlatformOk(p)
    requires IsSigModel(sig) && !IsSigModel(vendor)
    requires !p.isGroup(elementAddress) && !p.isUnassigned(elementAddress)
    ensures PublicationSet(p, primaryAddress, elementAddress, other, 0, 0, 0, 0, 0, 0, sig).sent.length + 2 ==
            PublicationSet(p, primaryAddress, elementAddress, other, 0, 0, 0, 0, 0, 0, vendor).sent.length
    ensures SubscriptionAdd(p, primaryAddress, elementAddress, other, sig, junk).sent.length + 2 ==
            SubscriptionAdd(p, primaryAddress, elementAddress, other, vendor, junk).sent.length
    ensures ModelAppBind(p, primaryAddress, elementAddress, other, sig).sent.length + 2 ==
            ModelAppBind(p, primaryAddress, elementAddress, other, vendor).sent.length
  {
  }

  /** A rejected element address still reaches the send step: the message goes out with the
      unreduced structure length whatever the model id, and with no filled-in structure. */
  lemma RejectedPublicationStillSent(p: Platform, primaryAddress: u16, elementAddress: u16, modelIdentifier: u32)
    requires PlatformOk(p)
    requires p.isGroup(elementAddress) || p.isUnassigned(elementAddress)
    ensures var o := PublicationSet(p, primaryAddress, elementAddress, 0, 0, 0, 0, 0, 0, 0, modelIdentifier);
      o.result == InvalidArg && o.sent.length == p.publicationSetSize && o.sent.payload == None
  {
  }

  /** A remote element is never addressed directly: the transport always carries the message to
      the node's primary address, whichever element it configures. */
  lemma RemoteGoesToPrimary(p: Platform, primaryAddress: u16, elementAddress: u16, appKeyIndex: u16, modelIdentifier: u32)
    requires PlatformOk(p) && elementAddress != p.clientUnicastAddr
    ensures ModelAppBind(p, primaryAddress, elementAddress, appKeyIndex, modelIdentifier).sent.dst == primaryAddress
    ensures SubscriptionAdd(p, primaryAddress, elementAddress, appKeyIndex, modelIdentifier, 0).sent.dst == primaryAddress
    ensures PublicationSet(p, primaryAddress, elementAddress, appKeyIndex, 0, 0, 0, 0, 0, 0, modelIdentifier).sent.dst == primaryAddress
  {
  }

  /** The key indexes of an AppKey Add are passed through unmasked: the builder does not call
      the 12-bit packing, so the request agrees with what the packing would carry exactly when
      the index already fits in twelve bits. */
  lemma AppKeyAddKeepsRawIndexes(p: Platform, primaryAddress: u16, netKeyIndex: u16, appKeyIndex: u16, appkey: seq<u8>)
    requires PlatformOk(p) && |appkey| >= AppKeySize
    ensures var m := AppKeyAdd(p, primaryAddress, netKeyIndex, appKeyIndex, appkey).sent.payload.value;
      var carried := KeyIndex.Unpack(KeyIndex.Pack(netKeyIndex, appKeyIndex));
      && (m.netKeyIndex == carried.netKeyIndex <==> netKeyIndex <= 0xFFF)
      && (m.appKeyIndex == carried.appKeyIndex <==> appKeyIndex <= 0xFFF)
  {
    KeyIndex.UnpackPack(netKeyIndex, appKeyIndex);
  }
}
