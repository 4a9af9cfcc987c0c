# Bluetooth Mesh Configuration Client and NVM layer — a Dafny model

This project models two parts of the STM32WB Bluetooth Mesh stack.

The first is the **Configuration Client** model (`config_client.c`), with these parts:

- **Key-index codec.** Two 12-bit global key indexes are packed into three octets and unpacked again (section 4.3.1.1 of the Bluetooth Mesh Profile 1.0).
- **Scalar codec.** The little-endian reader and writer helpers.
- **Composition Data decoder.** It decodes page 0 into a fixed-capacity element table (section 4.2.1.1). The table has accessors and count clamps.
- **Request builders.** They validate their arguments, choose the payload length and route each message to the local self-configuration path or to the transport.
- **Status parsers and dispatcher.** The four status-message parsers, and the dispatcher that hands each received message to one of them.
- **Retry state machine.** It tracks the response timeout and the number of retransmissions.

The second is the **NVM platform layer** (`pal_nvm.c`), with these parts:

- the argument-validation chains of Read, Compare and Write over the 8 KiB region;
- Read itself;
- the compare-before-write classification loop;
- the doubleword programming loop of Write;
- GetPage;
- the write-protection query.

Files:

| file | module | contents |
|---|---|---|
| `mesh_types.dfy` | `MeshTypes` | The fixed-width types, result codes and opcodes. |
| `scalar_codec.dfy` | `ScalarCodec` | The little-endian readers and writers, with their round trips. |
| `key_index.dfy` | `KeyIndex` | Pack/unpack of key indexes, with both round trips. |
| `composition.dfy` | `Composition` | The `NodeCatalog` class: the page-0 decoder (a method over an `array`) and the accessors and clamps. |
| `requests.dfy` | `Requests` | The request builders. Each is a function returning a result and a record of the one send call it makes. |
| `status_parsers.dfy` | `StatusParsers` | The status parsers. Each is checked against an encoder of the message as the Mesh Profile lays it out. |
| `dispatcher.dfy` | `Dispatcher` | The opcode dispatcher. |
| `retry.dfy` | `Retry` | `RetryTimer`, a class for the timer fields of `NodeInfo`, and the pure step function `Poll` that specifies it. |
| `pal_nvm.dfy` | `PalNvm` | The validation chains, Read, Compare and Write, and GetPage. |

Clock readings are parameters: the source calls `Clock_Time()` twice in `ConfigClient_ChkRetrialState`, so the model takes two readings. Several macros and sizes are defined in headers outside this model, and they are parameters too:

- `ADDRESS_IS_GROUP`, `ADDRESS_IS_UNASSIGNED` and `CONFIG_CLIENT_UNICAST_ADDR`;
- the `sizeof` of each request structure;
- `MAX_ELEMENTS_PER_NODE`, `MAX_SIG_MODELS_PER_ELEMENT` and `MAX_VENDOR_MODELS_PER_ELEMENT`;
- `CONFIGCLIENT_RESPONSE_TIMEOUT` and `CONFIGCLIENT_MAX_TRIALS`;
- `FLASH_BASE`, `FLASH_BANK_SIZE` and `FLASH_PAGE_SIZE`.

`CHKSIGMODEL` is taken to mean what its comment says: the upper 16 bits of the model id are zero. The opcode values are assigned in section 4.3.4 of the Mesh Profile.

As a worked example of the key-index packing, NetKey index 0x123 and AppKey index 0xABC pack to the octets `23 C1 AB` (`KeyIndex.PackExample`). That is the 24-bit little-endian field of section 4.3.1.1, with the second index in its upper 12 bits.

Two places where the code departs from a plain reading of the protocol:

- `CopyU8LittleEndienArray_fromU16word` stores the high byte first, despite its name. The model does the same (`ScalarCodec.ReadMsbFirstIsSwapped`).
- The opcode table gives 10 as the minimum length of a Composition Data Status. The decoder reads the header up to byte 10, which is 11 bytes. The decoder's precondition asks for the 11 header bytes plus every element block it walks.

## Model

| member | source | states |
|---|---|---|
| KeyIndex.Pack | Middlewares/ST/STM32_WPAN/ble/mesh/MeshModel/Src/config_client.c:421-444 | Packing two key indexes always yields exactly three octets. |
| KeyIndex.Unpack | Middlewares/ST/STM32_WPAN/ble/mesh/MeshModel/Src/config_client.c:453-482 | Both unpacked indexes fit in 12 bits (≤ 0xFFF). |
| KeyIndex.UnpackPack | Middlewares/ST/STM32_WPAN/ble/mesh/MeshModel/Src/config_client.c:439-481 | Unpacking a packed pair yields (net & 0xFFF, app & 0xFFF). |
| KeyIndex.PackUnpack | Middlewares/ST/STM32_WPAN/ble/mesh/MeshModel/Src/config_client.c:439-481 | Packing any unpacked 3-octet triple reproduces the same three octets. |
| KeyIndex.UnpackPack12 | Middlewares/ST/STM32_WPAN/ble/mesh/MeshModel/Src/config_client.c:439-481 | Indexes that already fit in 12 bits survive the round trip unchanged. |
| KeyIndex.PackExample | Middlewares/ST/STM32_WPAN/ble/mesh/MeshModel/Src/config_client.c:439-442 | NetKey 0x123 with AppKey 0xABC packs to 23 C1 AB and unpacks back. |
| ScalarCodec.LE16Bytes | Middlewares/ST/STM32_WPAN/ble/mesh/MeshModel/Src/config_client.c:1254-1268 | The wire image of a 16-bit word is two octets, low byte first. |
| ScalarCodec.LE32Bytes | Middlewares/ST/STM32_WPAN/ble/mesh/MeshModel/Src/config_client.c:1284-1290 | The wire image of a 32-bit word is four octets; octet i is byte i of the word. |
| ScalarCodec.MsbFirstBytes | Middlewares/ST/STM32_WPAN/ble/mesh/MeshModel/Src/config_client.c:1248-1252 | fromU16word stores the high byte at the lower address. |
| ScalarCodec.Swap16 | Middlewares/ST/STM32_WPAN/ble/mesh/MeshModel/Src/config_client.c:1248-1252 | The byte-swapped word exchanges the low and high bytes. |
| ScalarCodec.WriteU16MsbFirst | Middlewares/ST/STM32_WPAN/ble/mesh/MeshModel/Src/config_client.c:1248-1252 | The buffer gets the high byte, then the low byte, at off; the rest of the buffer is unchanged. |
| ScalarCodec.WriteU32LE | Middlewares/ST/STM32_WPAN/ble/mesh/MeshModel/Src/config_client.c:1284-1290 | The buffer gets the four bytes of w, low byte first, at off; the rest of the buffer is unchanged. |
| ScalarCodec.WriteLow16LE | Middlewares/ST/STM32_WPAN/ble/mesh/MeshModel/Src/config_client.c:1292-1296 | The buffer gets the low two bytes of w, low byte first, at off; the rest of the buffer is unchanged. |
| ScalarCodec.ReadU16Bytes | Middlewares/ST/STM32_WPAN/ble/mesh/MeshModel/Src/config_client.c:1254-1268 | ToU16word's low byte is s[off] and its high byte is s[off+1]. |
| ScalarCodec.ReadU32Bytes | Middlewares/ST/STM32_WPAN/ble/mesh/MeshModel/Src/config_client.c:1270-1282 | Byte i of ToU32word's result is s[off+i]. |
| ScalarCodec.ReadU16RoundTrip | Middlewares/ST/STM32_WPAN/ble/mesh/MeshModel/Src/config_client.c:1254-1268 | The LE16 reader and the LE16 image invert each other, in both directions. |
| ScalarCodec.ReadU32RoundTrip | Middlewares/ST/STM32_WPAN/ble/mesh/MeshModel/Src/config_client.c:1270-1290 | The LE32 reader inverts fromU32word, and the reverse also holds. |
| ScalarCodec.ReadLow16RoundTrip | Middlewares/ST/STM32_WPAN/ble/mesh/MeshModel/Src/config_client.c:1254-1268 | Reading 2B_fromU32word(w) back with the LE16 reader yields w & 0xFFFF. |
| ScalarCodec.ReadMsbFirstIsSwapped | Middlewares/ST/STM32_WPAN/ble/mesh/MeshModel/Src/config_client.c:1248-1268 | Reading fromU16word(w) back yields the byte-swap of w, which equals w exactly when w's two bytes are equal. |
| ScalarCodec.ReadU16Local | Middlewares/ST/STM32_WPAN/ble/mesh/MeshModel/Src/config_client.c:1254-1268 | The LE16 reader depends only on the two bytes it reads. |
| ScalarCodec.ReadU32Local | Middlewares/ST/STM32_WPAN/ble/mesh/MeshModel/Src/config_client.c:1270-1282 | The LE32 reader depends only on the four bytes it reads. |
| ScalarCodec.ReadU16At | Middlewares/ST/STM32_WPAN/ble/mesh/MeshModel/Src/config_client.c:1254-1268 | Inside any longer buffer, the LE16 reader recovers the word whose image sits at its offset. |
| ScalarCodec.ReadU32At | Middlewares/ST/STM32_WPAN/ble/mesh/MeshModel/Src/config_client.c:1270-1282 | Inside any longer buffer, the LE32 reader recovers the word whose image sits at its offset. |
| ScalarCodec.ReadU16Of | Middlewares/ST/STM32_WPAN/ble/mesh/MeshModel/Src/config_client.c:1254-1268 | The LE16 reader returns w iff the two bytes at off are w's little-endian bytes. |
| ScalarCodec.ReadU32Of | Middlewares/ST/STM32_WPAN/ble/mesh/MeshModel/Src/config_client.c:1270-1282 | The LE32 reader returns w iff the four bytes at off are w's little-endian bytes. |
| Composition.HeaderOf | Middlewares/ST/STM32_WPAN/ble/mesh/MeshModel/Src/config_client.c:181-186 | DataPage is byte 0; CID, PID, VID, CRPL and Features are LE16 at offsets 1, 3, 5, 7 and 9. |
| Composition.ElementOffset | Middlewares/ST/STM32_WPAN/ble/mesh/MeshModel/Src/config_client.c:190-263 | The cursor never moves backwards. |
| Composition.SigIds | Middlewares/ST/STM32_WPAN/ble/mesh/MeshModel/Src/config_client.c:220-224 | The k-th stored SIG id is the LE16 word at off + 2k. |
| Composition.VendorIds | Middlewares/ST/STM32_WPAN/ble/mesh/MeshModel/Src/config_client.c:247-251 | The k-th stored vendor id is the LE32 word at off + 4k. |
| Composition.Overlay | Middlewares/ST/STM32_WPAN/ble/mesh/MeshModel/Src/config_client.c:210-251 | The first slots take the new ids; the later slots keep their prior contents; the capacity is unchanged. |
| Composition.ElementOffsetStep | Middlewares/ST/STM32_WPAN/ble/mesh/MeshModel/Src/config_client.c:196-263 | Element block e+1 starts exactly 4 + 2·NumS + 4·NumV bytes after block e. |
| Composition.FitsPrefix | Middlewares/ST/STM32_WPAN/ble/mesh/MeshModel/Src/config_client.c:192-263 | A buffer that holds k element blocks also holds any smaller number of them. |
| Composition.DecodedElementTruncates | Middlewares/ST/STM32_WPAN/ble/mesh/MeshModel/Src/config_client.c:196-261 | For each element block: Loc is LE16 at the block start; the declared counts are stored unclamped; the stored lists are the first min(declared, capacity) ids in wire order; slots beyond them keep their prior contents. |
| Composition.NextElementAfterTruncation | Middlewares/ST/STM32_WPAN/ble/mesh/MeshModel/Src/config_client.c:196-263 | Whatever the capacity, the second element's Loc is read 4 + 2·NumS + 4·NumV bytes after the first block starts. |
| Composition.NodeCatalog.constructor | Middlewares/ST/STM32_WPAN/ble/mesh/MeshModel/Src/config_client.c:167-271 | The zero-initialised globals: a zero header and primary address, zero counts, and every element zeroed with its model-id slots at capacity. |
| Composition.NodeCatalog.CompositionDataStatusResponse | Middlewares/ST/STM32_WPAN/ble/mesh/MeshModel/Src/config_client.c:167-271 | It returns SUCCESS. The header is decoded from offsets 0–10. Each of the MAX_ELEMENTS_PER_NODE entries is the decoded block written over its prior contents. NbOfelements becomes MAX_ELEMENTS_PER_NODE. The other NodeInfo fields are unchanged. |
| Composition.NodeCatalog.DecodeElementBlock | Middlewares/ST/STM32_WPAN/ble/mesh/MeshModel/Src/config_client.c:196-261 | One loop pass: entry e becomes the decoded block, the cursor advances by the block's declared span, and the other entries are unchanged. |
| Composition.NodeCatalog.CopySigModels | Middlewares/ST/STM32_WPAN/ble/mesh/MeshModel/Src/config_client.c:206-234 | At most MAX_SIG ids are stored, but the cursor skips all NumS declared ids. |
| Composition.NodeCatalog.CopyVendorModels | Middlewares/ST/STM32_WPAN/ble/mesh/MeshModel/Src/config_client.c:236-261 | At most MAX_VENDOR ids are stored, but the cursor skips all NumV declared ids. |
| Composition.NodeCatalog.StoreSigModels | Middlewares/ST/STM32_WPAN/ble/mesh/MeshModel/Src/config_client.c:220-224 | The copy loop fills slots 0..count-1 with the LE16 ids in wire order and leaves the other slots and entries alone. |
| Composition.NodeCatalog.StoreVendorModels | Middlewares/ST/STM32_WPAN/ble/mesh/MeshModel/Src/config_client.c:247-251 | The copy loop fills slots 0..count-1 with the LE32 ids in wire order and leaves the other slots and entries alone. |
| Composition.NodeCatalog.GetNodeElementAddress | Middlewares/ST/STM32_WPAN/ble/mesh/MeshModel/Src/config_client.c:280-283 | It returns the node's primary address. |
| Composition.NodeCatalog.GetNodeElements | Middlewares/ST/STM32_WPAN/ble/mesh/MeshModel/Src/config_client.c:291-294 | It returns the element count recorded by the last decode. |
| Composition.NodeCatalog.GetSIGModelFromCompositionData | Middlewares/ST/STM32_WPAN/ble/mesh/MeshModel/Src/config_client.c:302-308 | It reads slot idxSIG + 2, not slot idxSIG. |
| Composition.NodeCatalog.GetVendorModelFromCompositionData | Middlewares/ST/STM32_WPAN/ble/mesh/MeshModel/Src/config_client.c:357-365 | It reads slot idxVendor of the stored vendor list. |
| Composition.NodeCatalog.GetTotalSIGModelsCount | Middlewares/ST/STM32_WPAN/ble/mesh/MeshModel/Src/config_client.c:373-379 | It returns the declared SIG count, not the stored one. |
| Composition.NodeCatalog.GetTotalVendorModelsCount | Middlewares/ST/STM32_WPAN/ble/mesh/MeshModel/Src/config_client.c:387-390 | It returns the declared vendor count, not the stored one. |
| Composition.NodeCatalog.SetSIGModelCountToConfigure | Middlewares/ST/STM32_WPAN/ble/mesh/MeshModel/Src/config_client.c:317-329 | The stored count is min(requested, element 0's declared SIG count). Nothing else changes. |
| Composition.NodeCatalog.SetVendorModelCountToConfigure | Middlewares/ST/STM32_WPAN/ble/mesh/MeshModel/Src/config_client.c:337-349 | The stored count is min(requested, element 0's declared vendor count). Nothing else changes. |
| Composition.NodeCatalog.GetNumberofSIGModels | Middlewares/ST/STM32_WPAN/ble/mesh/MeshModel/Src/config_client.c:398-401 | It returns the clamped count whatever the element index. |
| Composition.NodeCatalog.GetNumberofVendorModels | Middlewares/ST/STM32_WPAN/ble/mesh/MeshModel/Src/config_client.c:409-412 | It returns the clamped count whatever the element index. |
| Composition.DecodedSigSlot | Middlewares/ST/STM32_WPAN/ble/mesh/MeshModel/Src/config_client.c:210-224 | SIG slot k holds the k-th declared id when k is below the declared count, and its prior value otherwise. |
| Composition.TotalsReadDecodedElement | Middlewares/ST/STM32_WPAN/ble/mesh/MeshModel/Src/config_client.c:373-390 | Over a decoded element, the total-count accessors return the counts the wire declared. |
| Composition.SigAccessorReadsDecodedElement | Middlewares/ST/STM32_WPAN/ble/mesh/MeshModel/Src/config_client.c:302-308 | Over a decoded element, GetSIGModelFromCompositionData(e, i) returns the (i+3)-th declared id when it was stored, and the slot's prior contents otherwise. |
| Composition.DecodedVendorSlot | Middlewares/ST/STM32_WPAN/ble/mesh/MeshModel/Src/config_client.c:236-261 | Vendor slot k holds the k-th declared vendor id, read after all NumS SIG ids, when k is below the declared count, and its prior value otherwise. |
| Composition.VendorAccessorReadsDecodedElement | Middlewares/ST/STM32_WPAN/ble/mesh/MeshModel/Src/config_client.c:357-365 | Over a decoded element, GetVendorModelFromCompositionData(e, i) returns the (i+1)-th declared vendor id when it was stored, and the slot's prior contents otherwise. |
| Requests.Deliver | Middlewares/ST/STM32_WPAN/ble/mesh/MeshModel/Src/config_client.c:739-749 | The self-configuration path is taken iff elementAddress == CONFIG_CLIENT_UNICAST_ADDR. Otherwise the destination is the primary address, not elementAddress. |
| Requests.IsSigModel | Middlewares/ST/STM32_WPAN/ble/mesh/MeshModel/Src/config_client.c:715-719 | CHKSIGMODEL holds iff the model id fits in 16 bits (its upper 16 bits are 0). |
| Requests.CompositionDataGet | Middlewares/ST/STM32_WPAN/ble/mesh/MeshModel/Src/config_client.c:123-158 | It returns SUCCESS and sends page 0 to the primary address over the transport. |
| Requests.AppKeyAdd | Middlewares/ST/STM32_WPAN/ble/mesh/MeshModel/Src/config_client.c:491-526 | It returns SUCCESS. It sends over the transport the unpacked indexes and the first 16 key octets, with the structure's length. |
| Requests.PublicationSet | Middlewares/ST/STM32_WPAN/ble/mesh/MeshModel/Src/config_client.c:651-752 | INVALIDARG iff the element address is group or unassigned, else SUCCESS; the filled structure (rfu = 0) is sent only on SUCCESS; a SIG id takes 2 off the length, on SUCCESS only; the route follows Deliver. |
| Requests.SubscriptionAdd | Middlewares/ST/STM32_WPAN/ble/mesh/MeshModel/Src/config_client.c:852-940 | It returns INVALIDARG iff the element address is group or unassigned, else SUCCESS. On INVALIDARG the message is still sent, with an undetermined length. On SUCCESS, a SIG id takes 2 off the length. |
| Requests.ModelAppBind | Middlewares/ST/STM32_WPAN/ble/mesh/MeshModel/Src/config_client.c:1115-1168 | It always returns SUCCESS. A SIG id takes 2 off the length. The route follows Deliver. |
| Requests.SigPayloadTwoShorter | Middlewares/ST/STM32_WPAN/ble/mesh/MeshModel/Src/config_client.c:715-719 | For the three model-carrying requests, a SIG id gives a payload exactly 2 bytes shorter than a vendor id. |
| Requests.RejectedPublicationStillSent | Middlewares/ST/STM32_WPAN/ble/mesh/MeshModel/Src/config_client.c:695-749 | A rejected address still reaches the send step, with the full length and no filled structure. |
| Requests.RemoteGoesToPrimary | Middlewares/ST/STM32_WPAN/ble/mesh/MeshModel/Src/config_client.c:901-936 | A remote element's configuration is always sent to the node's primary address. |
| Requests.AppKeyAddKeepsRawIndexes | Middlewares/ST/STM32_WPAN/ble/mesh/MeshModel/Src/config_client.c:513-515 | For all inputs, each index in the request equals what the 12-bit packing would carry iff that index fits in 12 bits: AppKeyAdd does not pack or mask. |
| StatusParsers.AppKeyStatus | Middlewares/ST/STM32_WPAN/ble/mesh/MeshModel/Src/config_client.c:534-569 | It returns SUCCESS whatever the status octet. The callback receives data[0]. Both indexes are ≤ 0xFFF. |
| StatusParsers.PublicationStatus | Middlewares/ST/STM32_WPAN/ble/mesh/MeshModel/Src/config_client.c:762-840 | It returns SUCCESS and forwards data[0]. The field bounds: the AppKey index is ≤ 0xFFF, the flag ≤ 1, the count ≤ 7 and the steps ≤ 31. TTL is byte 7 and period is byte 8. A length of 12 gives a SIG id. |
| StatusParsers.SubscriptionStatus | Middlewares/ST/STM32_WPAN/ble/mesh/MeshModel/Src/config_client.c:1006-1066 | It returns SUCCESS and forwards data[0]. A length of 7 gives a SIG id. |
| StatusParsers.ModelAppStatus | Middlewares/ST/STM32_WPAN/ble/mesh/MeshModel/Src/config_client.c:1197-1245 | It returns SUCCESS and forwards data[0]. A length of 7 gives a SIG id. |
| StatusParsers.ModelIdBytes | Middlewares/ST/STM32_WPAN/ble/mesh/MeshModel/Src/config_client.c:1031-1038 | A model id occupies 2 octets on the wire for a SIG model and 4 for a vendor model. |
| StatusParsers.EncodeAppKeyStatus | Middlewares/ST/STM32_WPAN/ble/mesh/MeshModel/Src/config_client.c:555-568 | A Config AppKey Status is 4 octets, starting with the status. |
| StatusParsers.EncodePublicationStatus | Middlewares/ST/STM32_WPAN/ble/mesh/MeshModel/Src/config_client.c:794-819 | A Config Model Publication Status is 12 octets for a SIG model and 14 for a vendor model. |
| StatusParsers.EncodeSubscriptionStatus | Middlewares/ST/STM32_WPAN/ble/mesh/MeshModel/Src/config_client.c:1027-1040 | A Config Model Subscription Status is 7 octets for a SIG model and 9 for a vendor model. |
| StatusParsers.EncodeModelAppStatus | Middlewares/ST/STM32_WPAN/ble/mesh/MeshModel/Src/config_client.c:1221-1234 | A Config Model App Status is 7 octets for a SIG model and 9 for a vendor model. |
| StatusParsers.KeyCredentialFieldSplits | Middlewares/ST/STM32_WPAN/ble/mesh/MeshModel/Src/config_client.c:797-802 | LE16@5 & 0x0FFF recovers the AppKey index, and (byte 6 & 0x10) >> 4 recovers the credential flag. |
| StatusParsers.RetransmitOctetSplits | Middlewares/ST/STM32_WPAN/ble/mesh/MeshModel/Src/config_client.c:805-808 | byte 9 & 0x07 recovers the count, and (byte 9 & 0xF8) >> 3 recovers the interval steps. |
| StatusParsers.SigIdNarrowing | Middlewares/ST/STM32_WPAN/ble/mesh/MeshModel/Src/config_client.c:810-819 | A SIG id survives narrowing to 16 bits and widening back. |
| StatusParsers.ModelIdReadBack | Middlewares/ST/STM32_WPAN/ble/mesh/MeshModel/Src/config_client.c:810-819 | The LE16 or LE32 reader recovers the model id from its wire form. |
| StatusParsers.AppKeyStatusRoundTrip | Middlewares/ST/STM32_WPAN/ble/mesh/MeshModel/Src/config_client.c:555-568 | Parsing an encoded AppKey Status recovers every field. |
| StatusParsers.PublicationStatusLayout | Middlewares/ST/STM32_WPAN/ble/mesh/MeshModel/Src/config_client.c:794-808 | The encoder places each field at the offset the parser reads it from. |
| StatusParsers.PublicationStatusRoundTrip | Middlewares/ST/STM32_WPAN/ble/mesh/MeshModel/Src/config_client.c:794-819 | Parsing an encoded Publication Status at its true length recovers every field, whatever the RFU bits. |
| StatusParsers.SubscriptionStatusRoundTrip | Middlewares/ST/STM32_WPAN/ble/mesh/MeshModel/Src/config_client.c:1027-1040 | Parsing an encoded Subscription Status at its true length recovers every field. |
| StatusParsers.ModelAppStatusRoundTrip | Middlewares/ST/STM32_WPAN/ble/mesh/MeshModel/Src/config_client.c:1221-1234 | Parsing an encoded Model App Status at its true length recovers every field. |
| StatusParsers.VendorStatusTruncatedToSig | Middlewares/ST/STM32_WPAN/ble/mesh/MeshModel/Src/config_client.c:1027-1038 | The length alone selects the id width. A vendor-form message passed with length 7 yields the low 16 bits of the id. |
| Dispatcher.ProcessMessage | Middlewares/ST/STM32_WPAN/ble/mesh/MeshModel/Src/config_client.c:1487-1552 | It returns SUCCESS for every opcode. Each known opcode reaches its own parser, and any other opcode is ignored. A Composition Data Status changes the catalog exactly as the decoder does: the decoded header, every element decoded over its prior contents, NbOfelements = MAX_ELEMENTS_PER_NODE, the other fields kept. Any other opcode leaves the catalog unchanged. |
| Retry.Poll | Middlewares/ST/STM32_WPAN/ble/mesh/MeshModel/Src/config_client.c:1359-1388 | Without a mod-2³² timeout: INPROGRESS, with nothing changed. At the MAX_TRIALS-th attempt: RETRY_ENDS, the count reset to 0, NodeNoResponse, the timer restamped. Otherwise: TIMEOUT, the count plus 1, NodeIdle, the timer restamped. |
| Retry.TimedOut | Middlewares/ST/STM32_WPAN/ble/mesh/MeshModel/Src/config_client.c:1365 | A zero timeout has always run out. At the moment of sending, a nonzero timeout has not run out. |
| Retry.PollKeepsWithinTrials | Middlewares/ST/STM32_WPAN/ble/mesh/MeshModel/Src/config_client.c:1365-1376 | Every poll preserves attempts < MAX_TRIALS. |
| Retry.TimedOutAcrossWrap | Middlewares/ST/STM32_WPAN/ble/mesh/MeshModel/Src/config_client.c:1365 | Because the subtraction is modular, a clock that wraps past 2³² still measures the true elapsed time. |
| Retry.Signals | Middlewares/ST/STM32_WPAN/ble/mesh/MeshModel/Src/config_client.c:1359-1388 | A run of polls produces one signal per poll. |
| Retry.RetriesEndAtMaxTrials | Middlewares/ST/STM32_WPAN/ble/mesh/MeshModel/Src/config_client.c:1365-1384 | With no response, polls time out until the MAX_TRIALS-th consecutive timeout, which is the first RETRY_ENDS. |
| Retry.RetryEndsRestartsCount | Middlewares/ST/STM32_WPAN/ble/mesh/MeshModel/Src/config_client.c:1370-1373 | RETRY_ENDS leaves the attempt count at 0. |
| Retry.RetryTimer.constructor | Middlewares/ST/STM32_WPAN/ble/mesh/MeshModel/Src/config_client.c:1347-1411 | The timer fields of NodeInfo start at zero. |
| Retry.RetryTimer.SaveMsgSendingTime | Middlewares/ST/STM32_WPAN/ble/mesh/MeshModel/Src/config_client.c:1347-1351 | Initial_time becomes the clock reading, and the count is kept. |
| Retry.RetryTimer.ChkRetrialState | Middlewares/ST/STM32_WPAN/ble/mesh/MeshModel/Src/config_client.c:1359-1388 | The new state, the signal and the response state are exactly Poll of the old state, and the trial bound is preserved. |
| Retry.RetryTimer.ResetTrials | Middlewares/ST/STM32_WPAN/ble/mesh/MeshModel/Src/config_client.c:1408-1411 | The count becomes 0, and the time is kept. |
| PalNvm.Wrap32 | Projects/P-NUCLEO-WB55.Nucleo/Applications/BLE/BLE_MeshLightingDemo/STM32_WPAN/app/pal_nvm.c:154 | The 32-bit sum leaves in-range values unchanged. |
| PalNvm.Div32 | Projects/P-NUCLEO-WB55.Nucleo/Applications/BLE/BLE_MeshLightingDemo/STM32_WPAN/app/pal_nvm.c:65-70 | The unsigned quotient q satisfies q·d ≤ a < (q+1)·d. |
| PalNvm.GetPage | Projects/P-NUCLEO-WB55.Nucleo/Applications/BLE/BLE_MeshLightingDemo/STM32_WPAN/app/pal_nvm.c:58-74 | The page is the number of whole pages between the bank's first address and addr, in 32-bit arithmetic. Bank 1 applies below FLASH_BASE + FLASH_BANK_SIZE, and bank 2 otherwise. |
| PalNvm.GetPageLocates | Projects/P-NUCLEO-WB55.Nucleo/Applications/BLE/BLE_MeshLightingDemo/STM32_WPAN/app/pal_nvm.c:58-74 | In bank 1 or bank 2, GetPage names the page that contains the address, counted from the bank's start. |
| PalNvm.DivisionBrackets | Projects/P-NUCLEO-WB55.Nucleo/Applications/BLE/BLE_MeshLightingDemo/STM32_WPAN/app/pal_nvm.c:65-70 | The quotient brackets the dividend and is no larger than it. |
| PalNvm.IsWriteProtected | Projects/P-NUCLEO-WB55.Nucleo/Applications/BLE/BLE_MeshLightingDemo/STM32_WPAN/app/pal_nvm.c:121-125 | The flash is never reported write-protected. |
| PalNvm.RangeCheckAsWritten | Projects/P-NUCLEO-WB55.Nucleo/Applications/BLE/BLE_MeshLightingDemo/STM32_WPAN/app/pal_nvm.c:146-161 | The chain as written, for all inputs. SUCCESS iff 0 < size, offset ≤ 0x2000, and either offset + size ≤ 0x2000 or the 32-bit sum wraps. FALSE iff offset ≤ 0x2000 and size = 0. |
| PalNvm.WriteCheckAsWritten | Projects/P-NUCLEO-WB55.Nucleo/Applications/BLE/BLE_MeshLightingDemo/STM32_WPAN/app/pal_nvm.c:301-320 | The Write chain as written. SUCCESS iff 0 < size, offset ≤ 0x2000, both are 4-aligned, and either the range fits or the 32-bit sum wraps. FALSE iff offset ≤ 0x2000 and size = 0. |
| PalNvm.CompareCheckAsWritten | Projects/P-NUCLEO-WB55.Nucleo/Applications/BLE/BLE_MeshLightingDemo/STM32_WPAN/app/pal_nvm.c:186-209 | The Compare chain as written: the null checks come first, then the wrapping Write chain. |
| PalNvm.RangeCheck | Projects/P-NUCLEO-WB55.Nucleo/Applications/BLE/BLE_MeshLightingDemo/STM32_WPAN/app/pal_nvm.c:146-161 | Corrected half of the first finding. It is the chain of :146-161 with the end of the range computed without wrap-around. It gives SUCCESS iff 0 < size and offset + size ≤ 0x2000, FALSE iff offset ≤ 0x2000 and size = 0, and INVALIDARG otherwise. |
| PalNvm.WriteCheck | Projects/P-NUCLEO-WB55.Nucleo/Applications/BLE/BLE_MeshLightingDemo/STM32_WPAN/app/pal_nvm.c:301-320 | Corrected half of the first finding, for :301-320. It gives SUCCESS iff the true range lies inside the region and offset and size are both 4-aligned, and FALSE iff size = 0 with an in-range offset. |
| PalNvm.CompareCheck | Projects/P-NUCLEO-WB55.Nucleo/Applications/BLE/BLE_MeshLightingDemo/STM32_WPAN/app/pal_nvm.c:186-209 | Corrected half of the first finding, for :186-209. A null comparison or buffer gives INVALIDARG, checked first; after that the corrected Write chain applies. |
| PalNvm.AcceptedRangeInside | Projects/P-NUCLEO-WB55.Nucleo/Applications/BLE/BLE_MeshLightingDemo/STM32_WPAN/app/pal_nvm.c:146-161 | Every range the chain accepts lies within the 8 KiB region. |
| PalNvm.ChecksAgreeWithoutWrap | Projects/P-NUCLEO-WB55.Nucleo/Applications/BLE/BLE_MeshLightingDemo/STM32_WPAN/app/pal_nvm.c:154 | When offset + size does not wrap, the as-written chains and the corrected chains agree. |
| PalNvm.WrappedRangeAccepted | Projects/P-NUCLEO-WB55.Nucleo/Applications/BLE/BLE_MeshLightingDemo/STM32_WPAN/app/pal_nvm.c:154 | The wrapped sum lets (1, 0xFFFFFFFF) through Read, and (4, 0xFFFFFFFC) through Write and Compare. |
| PalNvm.Read | Projects/P-NUCLEO-WB55.Nucleo/Applications/BLE/BLE_MeshLightingDemo/STM32_WPAN/app/pal_nvm.c:136-165 | The result is the corrected chain's verdict, which equals the source's verdict whenever offset + size does not wrap. The only other difference is that a wrapped range the source accepts gives INVALIDARG. On SUCCESS, buf's first size bytes are nvm[offset..offset+size]; otherwise buf is untouched. |
| PalNvm.NeedsErase | Projects/P-NUCLEO-WB55.Nucleo/Applications/BLE/BLE_MeshLightingDemo/STM32_WPAN/app/pal_nvm.c:224 | A word needs an erase only where it differs from the flash word: (src & dst) != dst implies src != dst. |
| PalNvm.Classify | Projects/P-NUCLEO-WB55.Nucleo/Applications/BLE/BLE_MeshLightingDemo/STM32_WPAN/app/pal_nvm.c:212-229 | EQUAL only when all compared words match. NOT_EQUAL only when some word differs. |
| PalNvm.ClassifyMeaning | Projects/P-NUCLEO-WB55.Nucleo/Applications/BLE/BLE_MeshLightingDemo/STM32_WPAN/app/pal_nvm.c:212-229 | EQUAL iff every compared word matches. NOT_EQUAL_ERASE iff some word has (src & dst) != dst. NOT_EQUAL otherwise. |
| PalNvm.SelfAndIsSelf | Projects/P-NUCLEO-WB55.Nucleo/Applications/BLE/BLE_MeshLightingDemo/STM32_WPAN/app/pal_nvm.c:224 | A word that matches never needs an erase. |
| PalNvm.ClassifyExtend | Projects/P-NUCLEO-WB55.Nucleo/Applications/BLE/BLE_MeshLightingDemo/STM32_WPAN/app/pal_nvm.c:218-229 | One loop iteration turns the classification of a prefix into that of the next longer prefix. |
| PalNvm.PrefixStep | Projects/P-NUCLEO-WB55.Nucleo/Applications/BLE/BLE_MeshLightingDemo/STM32_WPAN/app/pal_nvm.c:218-229 | The loop's update keeps the prefix classification exact. |
| PalNvm.EraseIsFinal | Projects/P-NUCLEO-WB55.Nucleo/Applications/BLE/BLE_MeshLightingDemo/STM32_WPAN/app/pal_nvm.c:224-228 | Once a word needs an erase, the remaining words cannot change the outcome, so the break is sound. |
| PalNvm.Compare | Projects/P-NUCLEO-WB55.Nucleo/Applications/BLE/BLE_MeshLightingDemo/STM32_WPAN/app/pal_nvm.c:176-235 | The result is the corrected chain's verdict, and it differs from the source only on wrapped ranges, which give INVALIDARG. On SUCCESS, *comparison classifies doublewords 0..size/8-1, which equals the as-written strided result when at most one doubleword is compared. Otherwise *comparison is not written. |
| PalNvm.CompareWords | Projects/P-NUCLEO-WB55.Nucleo/Applications/BLE/BLE_MeshLightingDemo/STM32_WPAN/app/pal_nvm.c:212-229 | The loop, including its early break, computes the declarative classification. |
| PalNvm.CompareAsWritten | Projects/P-NUCLEO-WB55.Nucleo/Applications/BLE/BLE_MeshLightingDemo/STM32_WPAN/app/pal_nvm.c:218-229 | The loop as written, for all inputs. EQUAL iff doublewords 8i of both sides agree for every i < size/8, and NOT_EQUAL_ERASE iff one of them needs an erase. |
| PalNvm.StrideAgreesOnOneWord | Projects/P-NUCLEO-WB55.Nucleo/Applications/BLE/BLE_MeshLightingDemo/STM32_WPAN/app/pal_nvm.c:218-224 | With at most one doubleword compared, the strided and the intended loops agree. |
| PalNvm.StridedCompareMisreports | Projects/P-NUCLEO-WB55.Nucleo/Applications/BLE/BLE_MeshLightingDemo/STM32_WPAN/app/pal_nvm.c:220-224 | 16 matching bytes are reported NOT_EQUAL by the i<<3 indexing, against EQUAL for the intended indexing. |
| PalNvm.FourByteCompareSeesNothing | Projects/P-NUCLEO-WB55.Nucleo/Applications/BLE/BLE_MeshLightingDemo/STM32_WPAN/app/pal_nvm.c:206-213 | A 4-byte compare passes the chain but compares no doubleword, so it reports EQUAL. |
| PalNvm.ProgramCalls | Projects/P-NUCLEO-WB55.Nucleo/Applications/BLE/BLE_MeshLightingDemo/STM32_WPAN/app/pal_nvm.c:367-372 | Request i programs src[i] at address + offset + 8i. |
| PalNvm.FirstFailure | Projects/P-NUCLEO-WB55.Nucleo/Applications/BLE/BLE_MeshLightingDemo/STM32_WPAN/app/pal_nvm.c:367-376 | The first failing request: every request before it succeeds, and it fails unless no request fails. |
| PalNvm.Write | Projects/P-NUCLEO-WB55.Nucleo/Applications/BLE/BLE_MeshLightingDemo/STM32_WPAN/app/pal_nvm.c:292-391 | A rejected chain gives its verdict with no flash access. Against the source, the only difference is that a wrapped range it accepts is rejected here with no calls. Otherwise the doublewords are programmed in order up to and including the first failure. The result is FAIL iff a request failed, and SUCCESS otherwise. |
| PalNvm.FirstFailureAt | Projects/P-NUCLEO-WB55.Nucleo/Applications/BLE/BLE_MeshLightingDemo/STM32_WPAN/app/pal_nvm.c:367-376 | When all earlier requests succeed and request i fails, the loop stops at i. |
| PalNvm.FirstFailureNone | Projects/P-NUCLEO-WB55.Nucleo/Applications/BLE/BLE_MeshLightingDemo/STM32_WPAN/app/pal_nvm.c:367-376 | When every request succeeds, the loop runs to the end. |
| PalNvm.ProgramCallsInside | Projects/P-NUCLEO-WB55.Nucleo/Applications/BLE/BLE_MeshLightingDemo/STM32_WPAN/app/pal_nvm.c:357-372 | When the corrected chain accepts, every doubleword request stays within [address + offset, address + offset + size). |

## Left out

- The transport and the self-configuration calls (`ConfigClientModel_SendMessage`, `ConfigModel_Self*Config`) are foreign. Each builder instead returns a record of the call it makes.
- `GetNewProvNodeDevKey` is a weak stub that returns 0. It, and the device-key lookup, are not modelled.
- Tracing (`TRACE_M`/`TRACE_I`) is output only and is not modelled. The `Appli_*Cb` callbacks are modelled only as the status value passed out.
- The no-op stubs are trivial: the AppKey update/delete/get/list, the further subscription operations, `ModelAppUnbind`, `ConfigClientModel_GetStatusRequestCb` and `ConfigClientModel_GetOpcodeTableCb`. The opcode table enters only as the parsers' length preconditions.
- The byte layouts and `sizeof` values of the request structures are in headers outside this model. Lengths are parameters, so only the "2 bytes shorter" relation is checked.
- `Clock_Time()` is hardware. Its readings are parameters.
- The `peer_addr`, `dst_peer` and `response` arguments of the dispatcher are only traced, so the model omits them.
- `NodeInfo` is split between `Composition.NodeCatalog` and `Retry.RetryTimer`, because the source's functions touch disjoint fields of it.
- Retry.RetryTimer.ChkRetrialState: `numberOfAttemptsTx` is an unbounded count. The model does not capture a wrap of its C width, which the trial bound keeps from happening for any `CONFIGCLIENT_MAX_TRIALS` below that width.
- Composition.NodeCatalog.CompositionDataStatusResponse requires the buffer to hold all `MAX_ELEMENTS_PER_NODE` blocks. The source performs no length check and would overread a shorter message. That behaviour is outside the model.
- StatusParsers.PublicationStatus requires 14 octets at any length other than 12. StatusParsers.SubscriptionStatus and StatusParsers.ModelAppStatus require 9 octets at any length other than 7. The source reads that far without checking. For example, a length of 13 (or 8) makes it read past the message.
- PalNvm.RangeCheck, PalNvm.WriteCheck and PalNvm.CompareCheck are the corrected chains. They do not capture the 32-bit wrap of `offset + size` at pal_nvm.c:154, :198 and :309. That wrap is modelled by PalNvm.RangeCheckAsWritten, PalNvm.WriteCheckAsWritten and PalNvm.CompareCheckAsWritten (see "## Findings").
- PalNvm.Read runs the corrected chain. For a wrapped range such as (1, 0xFFFFFFFF), the source returns SUCCESS and copies far past the 8 KiB region; the model returns INVALIDARG and copies nothing. The region is a byte sequence, so the model cannot express the overread. Its contract states that this is the only input on which it departs from the source.
- PalNvm.Compare runs the corrected chain and compares doubleword i. It does not capture the source's wrapped-range acceptance or its `src[i<<3]` stride. PalNvm.CompareAsWritten models the stride. The contract states that the two agree when at most one doubleword is compared.
- PalNvm.Write runs the corrected chain. For a wrapped range such as (4, 0xFFFFFFFC), the source starts programming past the region; the model returns INVALIDARG with no program requests. Its contract states that this is the only input on which it departs from the source.
- Composition.NodeCatalog.GetSIGModelFromCompositionData requires idxSIG + 2 < MAX_SIG_MODELS_PER_ELEMENT. The source indexes `aSIGModels[idxSIG+2]` unchecked, so idxSIG = MAX−2 or MAX−1 reads past the element's array. The model does not capture that overread. The element-index bound of this getter and of GetVendorModelFromCompositionData, GetTotalSIGModelsCount and GetTotalVendorModelsCount (`elementIdx < MAX_ELEMENTS_PER_NODE`), and the vendor-slot bound, are likewise unchecked in the source and are preconditions here.
- The flash HAL is not modelled: `HAL_FLASH_Program`, `HAL_FLASHEx_Erase`, unlock/lock, the hardware-semaphore spin waits and the suspend polling. These are hardware actions or concurrency with the second core. The HAL's outcome for each request is an input (`halOk`), and the requests made are an output.
- `MoblePalNvmErase` is not modelled. It is a sequence of HAL erase calls under the semaphore.
- The `#if 0` blocks of `pal_nvm.c` are compiled out and not modelled.
- PalNvm.Compare and PalNvm.Write see memory through `uint64_t` pointers. The model represents those views as sequences of 64-bit words, so it does not capture aliasing between the buffer and the flash, or the byte layout of the views.
- PalNvm.Read takes the region at `address` as a byte sequence, so an absolute address outside it is not modelled.
- `system_stm32wbxx.c` and the Zigbee headers are not part of this model.

## Findings

| source | as written | input that shows it | evidently intended | confidence | as-written member | corrected member |
|---|---|---|---|---|---|---|
| Projects/P-NUCLEO-WB55.Nucleo/Applications/BLE/BLE_MeshLightingDemo/STM32_WPAN/app/pal_nvm.c:154 | The end of the range is checked as the 32-bit value `offset + size`, which wraps. The same check is at :198 and :309. | offset = 1, size = 0xFFFFFFFF passes Read's chain. offset = 4, size = 0xFFFFFFFC passes the Write and Compare chains. | Reject any range whose true end lies past `NVM_SIZE` | high (not executed) | PalNvm.RangeCheckAsWritten, PalNvm.WriteCheckAsWritten, PalNvm.CompareCheckAsWritten, shown by PalNvm.WrappedRangeAccepted | PalNvm.RangeCheck, PalNvm.WriteCheck, PalNvm.CompareCheck, with PalNvm.AcceptedRangeInside and PalNvm.ChecksAgreeWithoutWrap |
| Projects/P-NUCLEO-WB55.Nucleo/Applications/BLE/BLE_MeshLightingDemo/STM32_WPAN/app/pal_nvm.c:220-224 | The compare loop indexes its `uint64_t` pointers with `i<<3`, i.e. doubleword 8i, where the Write loop at :372 programs `src[i]` | A 16-byte compare of a buffer equal to the flash in its first two doublewords but differing at doubleword 8 reports NOT_EQUAL | Compare doubleword i, the i-th of the size/8 doublewords written | high (not executed) | PalNvm.CompareAsWritten, shown by PalNvm.StridedCompareMisreports | PalNvm.Compare, PalNvm.CompareWords, with PalNvm.ClassifyMeaning |
