/** Machine integers and optional values, as all the other modules use them. */
module Machine {

  const U16_RANGE: nat := 0x1_0000
  const U32_RANGE: nat := 0x1_0000_0000
  const U64_RANGE: nat := 0x1_0000_0000_0000_0000

  type u8 = x: nat | x < 0x100
  type u16 = x: nat | x < U16_RANGE
  type u32 = x: nat | x < U32_RANGE

  datatype Option<T> = None | Some(value: T)
}
