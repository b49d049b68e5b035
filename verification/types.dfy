/** Status codes, machine-integer bounds and size constants shared by the kernel modules. */
module Types {

  const U32_LIMIT: nat := 0x1_0000_0000
  const U64_LIMIT: nat := 0x1_0000_0000_0000_0000
  const U64_MAX: nat := 0xFFFF_FFFF_FFFF_FFFF

  type U16 = x: int | 0 <= x < 0x1_0000
  type U32 = x: int | 0 <= x < 0x1_0000_0000
  type U64 = x: int | 0 <= x < 0x1_0000_0000_0000_0000
  type Byte = x: int | 0 <= x < 256

  const KIB: nat := 1024
  const MIB: nat := 1024 * 1024
  const PAGE_SIZE: nat := 4096
  const HUGE_PAGE_SIZE: nat := 2 * 1024 * 1024

  /** The bootstrap ring3 window: one huge page at 64 MiB. */
  const USER_BASE: nat := 64 * 1024 * 1024
  const USER_SIZE: nat := 2 * 1024 * 1024
  const USER_END: nat := 66 * 1024 * 1024

  datatype Status =
    | Ok | NoMem | Inval | Busy | NoDev | Timeout | Perm | Io | NoSys | Overflow | Accel

  datatype Option<+T> = None | Some(value: T)
}
