/** Bytes and small integers. */
module Bytes {
  type byte = bv8

  /** Writing a number below 256 into a byte loses nothing. */
  lemma ByteValue(v: nat)
    requires v < 256
    ensures (v as bv8) as int == v
  {
  }
}
