/** ConfigClientModel_ProcessMessageCb: the entry point for every message the client model
    receives, dispatching on the opcode. */
module Dispatcher {
  import opened MeshTypes
  import opened StatusParsers
  import Composition

  /** Which handler a received message reached, with what that handler produced. */
  datatype Handled =
    | CompositionStored(result: MobleResult)
    | AppKeyHandled(appKey: Parsed<AppKeyStatusRecord>)
    | SubscriptionHandled(subscription: Parsed<SubscriptionStatusRecord>)
    | PublicationHandled(publication: Parsed<PublicationStatusRecord>)
    | ModelAppHandled(modelApp: Parsed<ModelAppStatusRecord>)
    | Ignored

  /** The opcodes the client model has a handler for. */
  predicate KnownOpcode(opcode: u16)
  {
    opcode in {CompositionDataStatusOpcode, AppKeyStatusOpcode, SubscriptionStatusOpcode,
               PublicationStatusOpcode, ModelAppStatusOpcode}
  }

  /** The amount of received data each handler reads (the source does not check it). */
  predicate WellFormed(catalog: Composition.NodeCatalog, opcode: u16, data: seq<u8>, length: nat)
    reads catalog
  {
    && (opcode == CompositionDataStatusOpcode ==>
          Composition.ElementsStart <= |data| && Composition.Fits(data, Composition.ElementsStart, catalog.maxElements))
    && (opcode == AppKeyStatusOpcode ==> |data| >= 4)
    && (opcode == SubscriptionStatusOpcode || opcode == ModelAppStatusOpcode ==>
          |data| >= 7 && (length != 7 ==> |data| >= 9))
    && (opcode == PublicationStatusOpcode ==> |data| >= 12 && (length != 12 ==> |data| >= 14))
  }

  /** The peer and destination addresses and the response flag are only traced, so they are not
      parameters here. The result is SUCCESS for every opcode, the unknown ones included; only a
      Composition Data Status changes the node catalog, and it changes it exactly as the decoder
      does. */
  method ProcessMessage(catalog: Composition.NodeCatalog, opcode: u16, data: seq<u8>, length: nat)
      returns (r: MobleResult, h: Handled)
    requires catalog.Valid() && WellFormed(catalog, opcode, data, length)
    modifies catalog, catalog.elements
    ensures catalog.Valid()
    ensures r == Success
    ensures h == Ignored <==> !KnownOpcode(opcode)
    ensures opcode == CompositionDataStatusOpcode ==> h == CompositionStored(Success)
    ensures opcode == CompositionDataStatusOpcode ==>
      && catalog.elements == old(catalog.elements)
      && catalog.header == Composition.HeaderOf(data)
      && catalog.nbOfElements == catalog.maxElements as u8
      && (forall e :: 0 <= e < catalog.maxElements ==>
            Composition.ElementDecoded(data, e, catalog.elements[e], old(catalog.elements[e]), catalog.maxSig, catalog.maxVendor))
      && catalog.primaryAddress == old(catalog.primaryAddress)
      && catalog.nbSigToConfigure == old(catalog.nbSigToConfigure)
      && catalog.nbVendorToConfigure == old(catalog.nbVendorToConfigure)
    ensures opcode == AppKeyStatusOpcode ==> h == AppKeyHandled(AppKeyStatus(data))
    ensures opcode == SubscriptionStatusOpcode ==> h == SubscriptionHandled(SubscriptionStatus(data, length))
    ensures opcode == PublicationStatusOpcode ==> h == PublicationHandled(PublicationStatus(data, length))
    ensures opcode == ModelAppStatusOpcode ==> h == ModelAppHandled(ModelAppStatus(data, length))
    ensures opcode != CompositionDataStatusOpcode ==> unchanged(catalog) && unchanged(catalog.elements)
  {
    if opcode == CompositionDataStatusOpcode {
      var stored := catalog.CompositionDataStatusResponse(data, length);
      h := CompositionStored(stored);
    } else if opcode == AppKeyStatusOpcode {
      h := AppKeyHandled(AppKeyStatus(data));
    } else if opcode == SubscriptionStatusOpcode {
      h := SubscriptionHandled(SubscriptionStatus(data, length));
    } else if opcode == PublicationStatusOpcode {
      h := PublicationHandled(PublicationStatus(data, length));
    } else if opcode == ModelAppStatusOpcode {
      h := ModelAppHandled(ModelAppStatus(data, length));
    } else {
      h := Ignored;
    }
    r := Success;
  }
}
