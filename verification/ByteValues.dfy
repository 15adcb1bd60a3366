/** Numbers as bytes. */
module ByteValues {
  /** A number below 256 survives as a byte. */
  lemma {:induction false} LowByte(n: int)
    requires 0 <= n < 256
    ensures (n as bv8) as int == n
  {
  }
}
