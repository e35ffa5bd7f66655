/** The widths of the wire fields that several models share. */
module RtpFields {
  const SEQUENCES: nat := 0x1_0000
  const CLOCK: nat := 0x1_0000_0000

  type Byte = x: int | 0 <= x < 256
  type u16 = x: int | 0 <= x < 0x1_0000
  type u32 = x: int | 0 <= x < 0x1_0000_0000
}
