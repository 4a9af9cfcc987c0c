/** Scalar types, result codes and opcodes shared by the Configuration Client model. */
module MeshTypes {

  /** MOBLEUINT8 / MOBLEUINT16 / MOBLEUINT32 and uint64_t, with C's unsigned wrap-around. */
  type u8 = bv8
  type u16 = bv16
  type u32 = bv32
  type u64 = bv64

  /** The MOBLE_RESULT codes the modelled functions return. */
  datatype MobleResult = Success | False | Fail | InvalidArg

  datatype Option<T> = None | Some(value: T)

  function Min(a: int, b: int): (m: int)
    ensures m <= a && m <= b && (m == a || m == b)
  {
    if a < b then a else b
  }

  /* Opcodes of the Configuration messages, as assigned in section 4.3.4 of the
     Bluetooth Mesh Profile 1.0 (the header holding the OPCODE_CONFIG_* macros is
     not part of this model). */
  const CompositionDataGetOpcode: u16 := 0x8008
  const CompositionDataStatusOpcode: u16 := 0x0002
  const AppKeyAddOpcode: u16 := 0x0000
  const AppKeyStatusOpcode: u16 := 0x8003
  const PublicationSetOpcode: u16 := 0x0003
  const PublicationStatusOpcode: u16 := 0x8019
  const SubscriptionAddOpcode: u16 := 0x801B
  const SubscriptionStatusOpcode: u16 := 0x801F
  const ModelAppBindOpcode: u16 := 0x803D
  const ModelAppStatusOpcode: u16 := 0x803E
}
