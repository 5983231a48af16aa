/**
 * The `bitfield!` macro used throughout the crate, read with its standard
 * meaning: a field `name: msb, lsb` is got as `(x >> lsb) & mask(msb - lsb + 1)`
 * and set by clearing bits msb..=lsb and OR-ing in `(v << lsb) & (mask << lsb)`;
 * a one-bit field `name: bit` is a `bool`. Every accessor in this model is
 * that expansion written out with its constant shift and mask. A getter
 * declared with a narrower value type (`u8;`) truncates, as Rust's `as` does;
 * the functions below are those truncations.
 */
module Bitfield {
  function Low8(x: bv32): bv8 { (x & 0xFF) as bv8 }
  function Low8Of16(x: bv16): bv8 { (x & 0xFF) as bv8 }
  function Low16(x: bv32): bv16 { (x & 0xFFFF) as bv16 }
  function Low32(x: bv64): bv32 { (x & 0xFFFF_FFFF) as bv32 }

  /** The low byte of the low half is the low byte. */
  lemma Low8OfLow16(x: bv32)
    ensures Low8Of16(Low16(x)) == Low8(x)
  {
  }

  /** The high byte of the low half is the second byte. */
  lemma HighByteOfLow16(x: bv32)
    ensures Low8Of16(Low16(x) >> 8) == Low8(x >> 8)
  {
  }
}
