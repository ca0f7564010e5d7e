/** Identifier newtypes and the fixed-width integers of the Rust crate. */
module Ids {
  /** Rust `u8`. */
  type u8 = x: int | 0 <= x < 0x100
  /** Rust `u32`. */
  type u32 = x: int | 0 <= x < 0x1_0000_0000

  /** `StudentId(String)` and its siblings: string newtypes compared by content. */
  type StudentId = string
  type TeacherId = string
  type CourseId = string
  type RoomId = string
  type SectionId = string

  /** `a + 1` on `u8` as a release build computes it (wrapping at 256). */
  function WrapIncU8(a: u8): (r: u8)
    ensures a < 255 ==> r == a + 1
    ensures a == 255 ==> r == 0
  {
    (a + 1) % 0x100
  }

  /** `n as u32` for a length. */
  function TruncU32(n: nat): (r: u32)
    ensures n < 0x1_0000_0000 ==> r == n
  {
    n % 0x1_0000_0000
  }
}
