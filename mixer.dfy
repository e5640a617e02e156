/**
  The base constants, the seed expansion and the `meimix` mixer of MeiHash.
 */
module Mixer {
  import opened Words

  const P0_DEF: bv64 := 0x59757a7541696861  // "YuzuAiha"
  const P1_DEF: bv64 := 0x4d65694169686172  // "MeiAihar"
  const S0_DEF: bv64 := 0x4d495a5553415741  // "MIZUSAWA"
  const S1_DEF: bv64 := 0x494c4f5645594f55  // "ILOVEYOU"

  /** The four working constants of one call: two seed-dependent ones on the
      "P" path, and the "S" path whose second constant ignores the seed. */
  datatype Keys = Keys(p0: bv64, p1: bv64, s0: bv64, s1: bv64)

  /** Seed expansion. */
  function Expand(seed: bv64): Keys {
    Keys(P0_DEF ^ seed, P1_DEF ^ RotL64(seed, 32), S0_DEF ^ seed, S1_DEF)
  }

  /** The second secret constant never depends on the seed, and the seed
      cancels out of the XOR of the two first constants. */
  lemma SeedInvariants(seed: bv64)
    ensures Expand(seed).s1 == S1_DEF
    ensures Expand(seed).p0 ^ Expand(seed).s0 == P0_DEF ^ S0_DEF
  {
  }

  /** The seed can be recovered from the working constants, so two seeds
      never expand to the same constants. */
  lemma SeedRecoverable(seed: bv64)
    ensures Expand(seed).p0 ^ P0_DEF == seed
    ensures (Expand(seed).p1 ^ P1_DEF).RotateRight(32) == seed
  {
  }

  /** With seed zero the working constants are the base constants. */
  lemma SeedZero()
    ensures Expand(0) == Keys(P0_DEF, P1_DEF, S0_DEF, S1_DEF)
  {
  }

  /** A 64x64-bit product computed in 128 bits: both operands are widened
      before the multiplication, so no high bit is lost. */
  function Mul128(a: bv64, b: bv64): bv128 {
    (a as bv128) * (b as bv128)
  }

  /** A 64x64-bit product in 64 bits: the low half of the product, as C's
      `*` on `uint64_t` wraps modulo 2^64. It names the operator `*` only so
      that proofs can hide the multiplication. */
  function MulLo(a: bv64, b: bv64): bv64 {
    a * b
  }

  /** `meimix`: the product on the seed path XOR the product on the secret path. */
  function MeiMix(mi: bv64, yi: bv64, p0: bv64, p1: bv64, s0: bv64, s1: bv64): bv128 {
    Mul128(mi ^ p0, yi ^ p1) ^ Mul128(mi ^ s0, yi ^ s1)
  }
}
