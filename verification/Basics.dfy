/** Machine integers and optional values. */
module Basics {
  type u32 = n: int | 0 <= n <= 0xFFFF_FFFF
  type u64 = n: int | 0 <= n <= 0xFFFF_FFFF_FFFF_FFFF
  type i64 = n: int | -0x8000_0000_0000_0000 <= n <= 0x7FFF_FFFF_FFFF_FFFF

  /** The i64 that serde_json keeps apart from the u64: those below zero. */
  type neg64 = n: int | -0x8000_0000_0000_0000 <= n < 0 witness -1

  datatype Option<+T> = None | Some(value: T)
}
