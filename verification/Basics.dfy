/** Shared by the whole model: optional values, the wire format's fixed-width integers, the device table's limits. */
module Basics {

  datatype Option<+T> = None | Some(value: T)

  type int16 = x: int | -0x8000 <= x < 0x8000
  type uint8 = x: int | 0 <= x < 0x100
  type uint32 = x: int | 0 <= x < 0x1_0000_0000
  type uint64 = x: int | 0 <= x < 0x1_0000_0000_0000_0000

  /** The size of the device table, and the longest id it takes. */
  const MAX_DEVICES: nat := 64
  const MAX_ID_BYTES: nat := 63

  type DeviceId = string

  function Abs(x: int): nat {
    if x < 0 then -x else x
  }
}
