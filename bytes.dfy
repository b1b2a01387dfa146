/** Bytes as the Rust code sees them (`u8`), and the unsigned 64-bit integers it counts with. */
module Bytes {

  newtype byte = b: int | 0 <= b < 256

  /** `u64`: content lengths and range bounds. */
  type u64 = n: int | 0 <= n < 0x1_0000_0000_0000_0000

  /** Reads each byte as the character with the same code point (ISO 8859-1). */
  function Latin1(bs: seq<byte>): (s: string)
    ensures |s| == |bs|
    ensures forall i :: 0 <= i < |bs| ==> s[i] as int == bs[i] as int
  {
    seq(|bs|, i requires 0 <= i < |bs| => (bs[i] as int) as char)
  }
}
