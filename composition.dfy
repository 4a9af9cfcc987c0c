/** Decoding of Composition Data page 0 (section 4.2.1.1 of the Bluetooth Mesh Profile 1.0)
    into the client's fixed-capacity element table, and the accessors over that table. */
module Composition {
  import opened MeshTypes
  import opened ScalarCodec

  /** The page-0 header: page number, then CID, PID, VID, CRPL and Features. */
  datatype Header = Header(dataPage: u8, cid: u16, pid: u16, vid: u16, crpl: u16, features: u16)

  /** One entry of aNodeElements: the declared model counts and the stored model ids. */
  datatype Element = Element(loc: u16, numSigModels: u8, numVendorModels: u8,
                             sigModels: seq<u16>, vendorModels: seq<u32>)

  /** The header fields at offsets 0, 1, 3, 5, 7 and 9. */
  function HeaderOf(buf: seq<u8>): (h: Header)
    requires ElementsStart <= |buf|
    ensures h.dataPage == buf[0] && h.cid == ReadU16LE(buf, 1) && h.pid == ReadU16LE(buf, 3)
    ensures h.vid == ReadU16LE(buf, 5) && h.crpl == ReadU16LE(buf, 7) && h.features == ReadU16LE(buf, 9)
  {
    Header(buf[0], ReadU16LE(buf, 1), ReadU16LE(buf, 3), ReadU16LE(buf, 5), ReadU16LE(buf, 7), ReadU16LE(buf, 9))
  }

  /** Offset of the first element block: after the page byte and the 10-byte header. */
  const ElementsStart: nat := 11

  /** Bytes an element block occupies on the wire: Loc, NumS, NumV and every declared id. */
  function ElementSpan(buf: seq<u8>, off: nat): nat
    requires off + 4 <= |buf|
  {
    4 + 2 * buf[off + 2] as int + 4 * buf[off + 3] as int
  }

  /** The buffer holds k complete element blocks starting at off. */
  predicate Fits(buf: seq<u8>, off: nat, k: nat)
    decreases k
  {
    k == 0 ||
    (off + 4 <= |buf| && off + ElementSpan(buf, off) <= |buf| &&
     Fits(buf, off + ElementSpan(buf, off), k - 1))
  }

  /** Where element block e starts when the first one starts at off. */
  function ElementOffset(buf: seq<u8>, off: nat, e: nat): (p: nat)
    requires Fits(buf, off, e)
    ensures p >= off
    decreases e
  {
    if e == 0 then off else ElementOffset(buf, off + ElementSpan(buf, off), e - 1)
  }

  /** The first count little-endian 16-bit SIG model ids stored from off on. */
  function SigIds(buf: seq<u8>, off: nat, count: nat): (ids: seq<u16>)
    requires off + 2 * count <= |buf|
    ensures |ids| == count
    ensures forall k :: 0 <= k < count ==> ids[k] == ReadU16LE(buf, off + 2 * k)
  {
    seq(count, k requires 0 <= k < count => ReadU16LE(buf, off + 2 * k))
  }

  /** The first count little-endian 32-bit vendor model ids stored from off on. */
  function VendorIds(buf: seq<u8>, off: nat, count: nat): (ids: seq<u32>)
    requires off + 4 * count <= |buf|
    ensures |ids| == count
    ensures forall k :: 0 <= k < count ==> ids[k] == ReadU32LE(buf, off + 4 * k)
  {
    seq(count, k requires 0 <= k < count => ReadU32LE(buf, off + 4 * k))
  }

  /** The first |ids| slots of prior replaced by ids, the rest left as they were. */
  function Overlay<T>(prior: seq<T>, ids: seq<T>): (r: seq<T>)
    requires |ids| <= |prior|
    ensures |r| == |prior|
    ensures forall k :: 0 <= k < |ids| ==> r[k] == ids[k]
    ensures forall k :: |ids| <= k < |prior| ==> r[k] == prior[k]
  {
    ids + prior[|ids|..]
  }

  /** The entry for the element block at off, written over the prior entry: the declared counts
      are kept as sent, at most maxSig / maxVendor ids are stored, the remaining slots keep
      their prior contents. */
  function DecodedElement(buf: seq<u8>, off: nat, prior: Element, maxSig: nat, maxVendor: nat): Element
    requires off + 4 <= |buf| && off + ElementSpan(buf, off) <= |buf|
    requires |prior.sigModels| == maxSig && |prior.vendorModels| == maxVendor
  {
    var numS := buf[off + 2];
    var numV := buf[off + 3];
    Element(ReadU16LE(buf, off), numS, numV,
            Overlay(prior.sigModels, SigIds(buf, off + 4, Min(numS as int, maxSig))),
            Overlay(prior.vendorModels, VendorIds(buf, off + 4 + 2 * numS as int, Min(numV as int, maxVendor))))
  }

  /** Entry d is what decoding element block e (counted from ElementsStart) writes over prior. */
  ghost predicate ElementDecoded(buf: seq<u8>, e: nat, d: Element, prior: Element, maxSig: nat, maxVendor: nat)
  {
    && Fits(buf, ElementsStart, e)
    && ElementOffset(buf, ElementsStart, e) + 4 <= |buf|
    && ElementOffset(buf, ElementsStart, e) + ElementSpan(buf, ElementOffset(buf, ElementsStart, e)) <= |buf|
    && |prior.sigModels| == maxSig && |prior.vendorModels| == maxVendor
    && d == DecodedElement(buf, ElementOffset(buf, ElementsStart, e), prior, maxSig, maxVendor)
  }

  /** Element block e + 1 starts right after all the bytes element block e declares. */
  lemma {:induction false} ElementOffsetStep(buf: seq<u8>, off: nat, e: nat)
    requires Fits(buf, off, e + 1)
    ensures Fits(buf, off, e)
    ensures ElementOffset(buf, off, e) + 4 <= |buf|
    ensures ElementOffset(buf, off, e) + ElementSpan(buf, ElementOffset(buf, off, e)) <= |buf|
    ensures ElementOffset(buf, off, e + 1) == ElementOffset(buf, off, e) + ElementSpan(buf, ElementOffset(buf, off, e))
    decreases e
  {
    if e > 0 {
      ElementOffsetStep(buf, off + ElementSpan(buf, off), e - 1);
    }
  }

  /** Fitting k blocks implies fitting any fewer. */
  lemma {:induction false} FitsPrefix(buf: seq<u8>, off: nat, k: nat, e: nat)
    requires Fits(buf, off, k) && e <= k
    ensures Fits(buf, off, e)
    decreases e
  {
    if e > 0 {
      FitsPrefix(buf, off + ElementSpan(buf, off), k - 1, e - 1);
    }
  }

  /** The stored lists are the first min(declared, capacity) ids in wire order, the slots beyond
      keep their prior contents, and the declared counts are stored unclamped. */
  lemma DecodedElementTruncates(buf: seq<u8>, off: nat, prior: Element, maxSig: nat, maxVendor: nat)
    requires off + 4 <= |buf| && off + ElementSpan(buf, off) <= |buf|
    requires |prior.sigModels| == maxSig && |prior.vendorModels| == maxVendor
    ensures var d := DecodedElement(buf, off, prior, maxSig, maxVendor);
      var storedS := Min(buf[off + 2] as int, maxSig);
      var storedV := Min(buf[off + 3] as int, maxVendor);
      && d.loc == ReadU16LE(buf, off)
      && d.numSigModels == buf[off + 2] && d.numVendorModels == buf[off + 3]
      && |d.sigModels| == maxSig && |d.vendorModels| == maxVendor
      && (forall k :: 0 <= k < storedS ==> d.sigModels[k] == ReadU16LE(buf, off + 4 + 2 * k))
      && (forall k :: storedS <= k < maxSig ==> d.sigModels[k] == prior.sigModels[k])
      && (forall k :: 0 <= k < storedV ==>
            d.vendorModels[k] == ReadU32LE(buf, off + 4 + 2 * buf[off + 2] as int + 4 * k))
      && (forall k :: storedV <= k < maxVendor ==> d.vendorModels[k] == prior.vendorModels[k])
  {
  }

  /** Truncating an over-long SIG list does not disturb the next element: its Loc is read
      4 + 2 * NumS + 4 * NumV bytes after the first block starts, whatever the capacity. */
  lemma NextElementAfterTruncation(buf: seq<u8>, maxSig: nat, maxVendor: nat, prior: Element)
    requires Fits(buf, ElementsStart, 2)
    requires |prior.sigModels| == maxSig && |prior.vendorModels| == maxVendor
    ensures var next := ElementsStart + 4 + 2 * buf[13] as int + 4 * buf[14] as int;
      && ElementOffset(buf, ElementsStart, 1) == next
      && DecodedElement(buf, next, prior, maxSig, maxVendor).loc == ReadU16LE(buf, next)
  {
    ElementOffsetStep(buf, ElementsStart, 1);
  }

  /** The client's copy of the remote node's composition: the globals NodeCompositionPage0 and
      aNodeElements, and the NodeInfo fields that describe them. */
  class NodeCatalog {
    const maxElements: nat   // MAX_ELEMENTS_PER_NODE
    const maxSig: nat        // MAX_SIG_MODELS_PER_ELEMENT
    const maxVendor: nat     // MAX_VENDOR_MODELS_PER_ELEMENT

    var header: Header
    var elements: array<Element>
    var primaryAddress: u16        // NodeInfo.nodePrimaryAddress
    var nbOfElements: u8           // NodeInfo.NbOfelements
    var nbSigToConfigure: u8       // NodeInfo.NbOfSIGModelsToConfigure
    var nbVendorToConfigure: u8    // NodeInfo.NbOfVendorModelsToConfigure

    ghost predicate Valid()
      reads this, elements
    {
      && 0 < maxElements < 256
      && elements.Length == maxElements
      && forall e :: 0 <= e < elements.Length ==>
           |elements[e].sigModels| == maxSig && |elements[e].vendorModels| == maxVendor
    }

    /** The zero-initialised globals. */
    constructor (maxElements: nat, maxSig: nat, maxVendor: nat)
      requires 0 < maxElements < 256
      ensures Valid() && fresh(elements)
      ensures this.maxElements == maxElements && this.maxSig == maxSig && this.maxVendor == maxVendor
      ensures header == Header(0, 0, 0, 0, 0, 0) && primaryAddress == 0
      ensures nbOfElements == 0 && nbSigToConfigure == 0 && nbVendorToConfigure == 0
      ensures forall e :: 0 <= e < maxElements ==>
        elements[e] == Element(0, 0, 0, seq(maxSig, _ => 0), seq(maxVendor, _ => 0))
    {
      this.maxElements := maxElements;
      this.maxSig := maxSig;
      this.maxVendor := maxVendor;
      header := Header(0, 0, 0, 0, 0, 0);
      elements := new Element[maxElements](_ => Element(0, 0, 0, seq(maxSig, _ => 0), seq(maxVendor, _ => 0)));
      primaryAddress := 0;
      nbOfElements := 0;
      nbSigToConfigure := 0;
      nbVendorToConfigure := 0;
    }

    /** ConfigClient_CompositionDataStatusResponse. The length argument is not used by the
        source; the buffer must hold the header and exactly maxElements element blocks. */
    method CompositionDataStatusResponse(buf: seq<u8>, length: nat) returns (r: MobleResult)
      requires Valid()
      requires ElementsStart <= |buf| && Fits(buf, ElementsStart, maxElements)
      modifies this, elements
      ensures Valid() && elements == old(elements)
      ensures r == Success
      ensures header == HeaderOf(buf)
      ensures nbOfElements == maxElements as u8
      ensures forall e :: 0 <= e < maxElements ==>
        ElementDecoded(buf, e, elements[e], old(elements[e]), maxSig, maxVendor)
      ensures primaryAddress == old(primaryAddress)
      ensures nbSigToConfigure == old(nbSigToConfigure) && nbVendorToConfigure == old(nbVendorToConfigure)
    {
      header := HeaderOf(buf);
      ghost var prior := elements[..];
      var p: nat := ElementsStart;
      var elementIndex: nat := 0;
      while elementIndex < maxElements
        invariant Valid() && elements == old(elements)
        invariant elementIndex <= maxElements
        invariant Fits(buf, ElementsStart, elementIndex) && p == ElementOffset(buf, ElementsStart, elementIndex)
        invariant forall e :: 0 <= e < elementIndex ==>
          ElementDecoded(buf, e, elements[e], prior[e], maxSig, maxVendor)
        invariant forall e :: elementIndex <= e < maxElements ==> elements[e] == prior[e]
        invariant header == HeaderOf(buf)
        invariant primaryAddress == old(primaryAddress)
        invariant nbSigToConfigure == old(nbSigToConfigure) && nbVendorToConfigure == old(nbVendorToConfigure)
      {
        FitsPrefix(buf, ElementsStart, maxElements, elementIndex + 1);
        ElementOffsetStep(buf, ElementsStart, elementIndex);
        p := DecodeElementBlock(buf, p, elementIndex);
        assert ElementDecoded(buf, elementIndex, elements[elementIndex], prior[elementIndex], maxSig, maxVendor);
        elementIndex := elementIndex + 1;
      }
      nbOfElements := elementIndex as u8;
      r := Success;
    }

    /** One pass of the element loop: copies Loc, NumS and NumV, stores the first ids, skips
        the rest, and returns the cursor of the next block. */
    method DecodeElementBlock(buf: seq<u8>, start: nat, e: nat) returns (p: nat)
      requires Valid() && e < maxElements
      requires start + 4 <= |buf| && start + ElementSpan(buf, start) <= |buf|
      modifies elements
      ensures Valid()
      ensures p == start + ElementSpan(buf, start)
      ensures elements[e] == DecodedElement(buf, start, old(elements[e]), maxSig, maxVendor)
      ensures forall j :: 0 <= j < maxElements && j != e ==> elements[j] == old(elements[j])
    {
      ghost var prior := elements[e];
      elements[e] := elements[e].(loc := ReadU16LE(buf, start));
      p := start + 2;
      elements[e] := elements[e].(numSigModels := buf[p]);
      p := p + 1;
      elements[e] := elements[e].(numVendorModels := buf[p]);
      p := p + 1;
      p := CopySigModels(buf, e, p, elements[e].numSigModels);
      p := CopyVendorModels(buf, e, p, elements[e].numVendorModels);
    }

    /** The SIG part of an element block: stores at most maxSig of the numS ids read from off on
        and steps the cursor past all numS of them. */
    method CopySigModels(buf: seq<u8>, e: nat, off: nat, numS: u8) returns (p: nat)
      requires Valid() && e < maxElements
      requires off + 2 * numS as int <= |buf|
      modifies elements
      ensures Valid() && p == off + 2 * numS as int
      ensures elements[e] == old(elements[e]).(sigModels :=
        Overlay(old(elements[e]).sigModels, SigIds(buf, off, Min(numS as int, maxSig))))
      ensures forall j :: 0 <= j < maxElements && j != e ==> elements[j] == old(elements[j])
    {
      var varModels: nat := numS as nat;
      if numS as nat > maxSig {
        varModels := maxSig;
      }
      var k := StoreSigModels(buf, e, off, varModels);
      p := off + 2 * k;
      if numS as nat > maxSig {
        while k < numS as nat
          invariant k <= numS as nat && p == off + 2 * k
        {
          p := p + 2;
          k := k + 1;
        }
      }
    }

    /** The vendor part of an element block: stores at most maxVendor of the numV ids read from
        off on and steps the cursor past all numV of them. */
    method CopyVendorModels(buf: seq<u8>, e: nat, off: nat, numV: u8) returns (p: nat)
      requires Valid() && e < maxElements
      requires off + 4 * numV as int <= |buf|
      modifies elements
      ensures Valid() && p == off + 4 * numV as int
      ensures elements[e] == old(elements[e]).(vendorModels :=
        Overlay(old(elements[e]).vendorModels, VendorIds(buf, off, Min(numV as int, maxVendor))))
      ensures forall j :: 0 <= j < maxElements && j != e ==> elements[j] == old(elements[j])
    {
      var varModels: nat := numV as nat;
      if numV as nat > maxVendor {
        varModels := maxVendor;
      }
      var k := StoreVendorModels(buf, e, off, varModels);
      p := off + 4 * k;
      if numV as nat > maxVendor {
        while k < numV as nat
          invariant k <= numV as nat && p == off + 4 * k
        {
          p := p + 4;
          k := k + 1;
        }
      }
    }

    /** The copy loop for SIG model ids: slots 0 .. count - 1 of element e receive the
        little-endian 16-bit ids read from off on; returns the number of ids read. */
    method StoreSigModels(buf: seq<u8>, e: nat, off: nat, count: nat) returns (k: nat)
      requires Valid() && e < maxElements
      requires count <= maxSig && off + 2 * count <= |buf|
      modifies elements
      ensures Valid() && k == count
      ensures elements[e] == old(elements[e]).(sigModels := Overlay(old(elements[e]).sigModels, SigIds(buf, off, count)))
      ensures forall j :: 0 <= j < maxElements && j != e ==> elements[j] == old(elements[j])
    {
      ghost var prior := elements[e];
      k := 0;
      var p := off;
      while k < count
        invariant Valid() && k <= count && p == off + 2 * k
        invariant elements[e].(sigModels := prior.sigModels) == prior
        invariant forall j :: 0 <= j < k ==> elements[e].sigModels[j] == ReadU16LE(buf, off + 2 * j)
        invariant forall j :: k <= j < maxSig ==> elements[e].sigModels[j] == prior.sigModels[j]
        invariant forall j :: 0 <= j < maxElements && j != e ==> elements[j] == old(elements[j])
      {
        elements[e] := elements[e].(sigModels := elements[e].sigModels[k := ReadU16LE(buf, p)]);
        p := p + 2;
        k := k + 1;
      }
      assert elements[e].sigModels == Overlay(prior.sigModels, SigIds(buf, off, count));
    }

    /** The copy loop for vendor model ids: slots 0 .. count - 1 of element e receive the
        little-endian 32-bit ids read from off on; returns the number of ids read. */
    method StoreVendorModels(buf: seq<u8>, e: nat, off: nat, count: nat) returns (k: nat)
      requires Valid() && e < maxElements
      requires count <= maxVendor && off + 4 * count <= |buf|
      modifies elements
      ensures Valid() && k == count
      ensures elements[e] == old(elements[e]).(vendorModels := Overlay(old(elements[e]).vendorModels, VendorIds(buf, off, count)))
      ensures forall j :: 0 <= j < maxElements && j != e ==> elements[j] == old(elements[j])
    {
      ghost var prior := elements[e];
      k := 0;
      var p := off;
      while k < count
        invariant Valid() && k <= count && p == off + 4 * k
        invariant elements[e].(vendorModels := prior.vendorModels) == prior
        invariant forall j :: 0 <= j < k ==> elements[e].vendorModels[j] == ReadU32LE(buf, off + 4 * j)
        invariant forall j :: k <= j < maxVendor ==> elements[e].vendorModels[j] == prior.vendorModels[j]
        invariant forall j :: 0 <= j < maxElements && j != e ==> elements[j] == old(elements[j])
      {
        elements[e] := elements[e].(vendorModels := elements[e].vendorModels[k := ReadU32LE(buf, p)]);
        p := p + 4;
        k := k + 1;
      }
      assert elements[e].vendorModels == Overlay(prior.vendorModels, VendorIds(buf, off, count));
    }

    /** GetNodeElementAddress: the remote node's primary address. */
    function GetNodeElementAddress(): (a: u16)
      reads this
      ensures a == primaryAddress
    {
      primaryAddress
    }

    /** ConfigClient_GetNodeElements: the element count recorded by the last decode. */
    function GetNodeElements(): (n: u8)
      reads this
      ensures n == nbOfElements
    {
      nbOfElements
    }

    /** GetSIGModelFromCompositionData: reads slot idxSIG + 2 of the stored SIG list. */
    function GetSIGModelFromCompositionData(elementIdx: u8, idxSIG: u8): (m: u16)
      requires Valid()
      requires elementIdx as int < maxElements && idxSIG as int + 2 < maxSig
      reads this, elements
      ensures m == elements[elementIdx].sigModels[idxSIG as int + 2]
    {
      elements[elementIdx].sigModels[idxSIG as int + 2]
    }

    /** GetVendorModelFromCompositionData: reads slot idxVendor of the stored vendor list. */
    function GetVendorModelFromCompositionData(elementIdx: u8, idxVendor: u8): (m: u32)
      requires Valid()
      requires elementIdx as int < maxElements && (idxVendor as int) < maxVendor
      reads this, elements
      ensures m == elements[elementIdx].vendorModels[idxVendor]
    {
      elements[elementIdx].vendorModels[idxVendor]
    }

    /** GetTotalSIGModelsCount: the declared count, which may exceed the stored capacity. */
    function GetTotalSIGModelsCount(elementIdx: u8): (n: u8)
      requires Valid() && (elementIdx as int) < maxElements
      reads this, elements
      ensures n == elements[elementIdx].numSigModels
    {
      elements[elementIdx].numSigModels
    }

    /** GetTotalVendorModelsCount: the declared count, which may exceed the stored capacity. */
    function GetTotalVendorModelsCount(elementIdx: u8): (n: u8)
      requires Valid() && (elementIdx as int) < maxElements
      reads this, elements
      ensures n == elements[elementIdx].numVendorModels
    {
      elements[elementIdx].numVendorModels
    }

    /** SetSIGModelCountToConfigure: the requested count, clamped to element 0's declared count. */
    method SetSIGModelCountToConfigure(count: u8)
      requires Valid()
      modifies this
      ensures Valid()
      ensures nbSigToConfigure <= count && nbSigToConfigure <= elements[0].numSigModels
      ensures nbSigToConfigure == count || nbSigToConfigure == elements[0].numSigModels
      ensures header == old(header) && nbOfElements == old(nbOfElements)
      ensures nbVendorToConfigure == old(nbVendorToConfigure) && primaryAddress == old(primaryAddress)
      ensures elements == old(elements)
    {
      var sigModelsCount := GetTotalSIGModelsCount(0);
      var c := count;
      if c > sigModelsCount {
        c := sigModelsCount;
      }
      nbSigToConfigure := c;
    }

    /** SetVendorModelCountToConfigure: the requested count, clamped to element 0's declared count. */
    method SetVendorModelCountToConfigure(count: u8)
      requires Valid()
      modifies this
      ensures Valid()
      ensures nbVendorToConfigure <= count && nbVendorToConfigure <= elements[0].numVendorModels
      ensures nbVendorToConfigure == count || nbVendorToConfigure == elements[0].numVendorModels
      ensures header == old(header) && nbOfElements == old(nbOfElements)
      ensures nbSigToConfigure == old(nbSigToConfigure) && primaryAddress == old(primaryAddress)
      ensures elements == old(elements)
    {
      var vendorModelsCount := GetTotalVendorModelsCount(0);
      var c := count;
      if c > vendorModelsCount {
        c := vendorModelsCount;
      }
      nbVendorToConfigure := c;
    }

    /** GetNumberofSIGModels: the clamped count; the element index is ignored. */
    function GetNumberofSIGModels(elementIdx: u8): (n: u8)
      reads this
      ensures n == nbSigToConfigure
    {
      nbSigToConfigure
    }

    /** GetNumberofVendorModels: the clamped count; the element index is ignored. */
    function GetNumberofVendorModels(elementIdx: u8): (n: u8)
      reads this
      ensures n == nbVendorToConfigure
    {
      nbVendorToConfigure
    }
  }

  /** Slot k of a decoded SIG list: the k-th declared id if it was stored, else the prior value. */
  lemma DecodedSigSlot(buf: seq<u8>, off: nat, prior: Element, maxSig: nat, maxVendor: nat, k: nat)
    requires off + 4 <= |buf| && off + ElementSpan(buf, off) <= |buf|
    requires |prior.sigModels| == maxSig && |prior.vendorModels| == maxVendor && k < maxSig
    ensures DecodedElement(buf, off, prior, maxSig, maxVendor).sigModels[k] ==
      if k < buf[off + 2] as int then ReadU16LE(buf, off + 4 + 2 * k) else prior.sigModels[k]
  {
    var stored := Min(buf[off + 2] as int, maxSig);
    var ids := SigIds(buf, off + 4, stored);
    if k < stored {
      assert ids[k] == ReadU16LE(buf, off + 4 + 2 * k);
    }
  }

  /** Over a decoded element, the total-count accessors report the counts as declared on the
      wire, not the number stored. */
  lemma TotalsReadDecodedElement(c: NodeCatalog, buf: seq<u8>, off: nat, prior: Element, elementIdx: u8)
    requires c.Valid() && (elementIdx as int) < c.maxElements
    requires off + 4 <= |buf| && off + ElementSpan(buf, off) <= |buf|
    requires |prior.sigModels| == c.maxSig && |prior.vendorModels| == c.maxVendor
    requires c.elements[elementIdx] == DecodedElement(buf, off, prior, c.maxSig, c.maxVendor)
    ensures c.GetTotalSIGModelsCount(elementIdx) == buf[off + 2]
    ensures c.GetTotalVendorModelsCount(elementIdx) == buf[off + 3]
  {
  }

  /** Over a decoded element, GetSIGModelFromCompositionData(e, i) returns the (i + 3)-th
      declared SIG id when that one was stored, and the slot's earlier contents otherwise. */
  lemma SigAccessorReadsDecodedElement(c: NodeCatalog, buf: seq<u8>, off: nat, prior: Element, elementIdx: u8, idxSIG: u8)
    requires c.Valid() && (elementIdx as int) < c.maxElements && idxSIG as int + 2 < c.maxSig
    requires off + 4 <= |buf| && off + ElementSpan(buf, off) <= |buf|
    requires |prior.sigModels| == c.maxSig && |prior.vendorModels| == c.maxVendor
    requires c.elements[elementIdx] == DecodedElement(buf, off, prior, c.maxSig, c.maxVendor)
    ensures c.GetSIGModelFromCompositionData(elementIdx, idxSIG) ==
      if idxSIG as int + 2 < buf[off + 2] as int then ReadU16LE(buf, off + 4 + 2 * (idxSIG as int + 2))
      else prior.sigModels[idxSIG as int + 2]
  {
    DecodedSigSlot(buf, off, prior, c.maxSig, c.maxVendor, idxSIG as int + 2);
  }

  /** Slot k of a decoded vendor list: the k-th declared id if it was stored, else the prior value. */
  lemma DecodedVendorSlot(buf: seq<u8>, off: nat, prior: Element, maxSig: nat, maxVendor: nat, k: nat)
    requires off + 4 <= |buf| && off + ElementSpan(buf, off) <= |buf|
    requires |prior.sigModels| == maxSig && |prior.vendorModels| == maxVendor && k < maxVendor
    ensures DecodedElement(buf, off, prior, maxSig, maxVendor).vendorModels[k] ==
      if k < buf[off + 3] as int then ReadU32LE(buf, off + 4 + 2 * buf[off + 2] as int + 4 * k)
      else prior.vendorModels[k]
  {
    var stored := Min(buf[off + 3] as int, maxVendor);
    var ids := VendorIds(buf, off + 4 + 2 * buf[off + 2] as int, stored);
    if k < stored {
      assert ids[k] == ReadU32LE(buf, off + 4 + 2 * buf[off + 2] as int + 4 * k);
    }
  }

  /** Over a decoded element, GetVendorModelFromCompositionData(e, i) returns the (i + 1)-th
      declared vendor id, read after all NumS SIG ids, when it was stored, and the slot's earlier
      contents otherwise. */
  lemma VendorAccessorReadsDecodedElement(c: NodeCatalog, buf: seq<u8>, off: nat, prior: Element, elementIdx: u8, idxVendor: u8)
    requires c.Valid() && (elementIdx as int) < c.maxElements && (idxVendor as int) < c.maxVendor
    requires off + 4 <= |buf| && off + ElementSpan(buf, off) <= |buf|
    requires |prior.sigModels| == c.maxSig && |prior.vendorModels| == c.maxVendor
    requires c.elements[elementIdx] == DecodedElement(buf, off, prior, c.maxSig, c.maxVendor)
    ensures c.GetVendorModelFromCompositionData(elementIdx, idxVendor) ==
      if (idxVendor as int) < buf[off + 3] as int
      then ReadU32LE(buf, off + 4 + 2 * buf[off + 2] as int + 4 * idxVendor as int)
      else prior.vendorModels[idxVendor]
  {
    DecodedVendorSlot(buf, off, prior, c.maxSig, c.maxVendor, idxVendor as int);
  }
}
