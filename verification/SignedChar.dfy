/** The plain `char` of C as the sources are built: signed, 8 bits wide. */
module SignedChar {

  /** A `char` with the bits `c`, promoted to a 32-bit `int`. */
  function Extended(c: bv8): bv32 {
    if c < 128 then c as bv32 else 0xFFFF_FF00 | (c as bv32)
  }

  /** Every character keeps its value when promoted. */
  predicate SevenBit(s: seq<bv8>) {
    forall c :: c in s ==> c < 128
  }
}
