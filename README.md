# MeiHash in Dafny

A model of `meihash128`, the single-shot 128-bit non-cryptographic hash of
MeiHash, with proofs about it. The hash takes a byte buffer and a 64-bit seed.
It works in five steps:

1. It expands the seed into four working constants.
2. It consumes the buffer in 64-byte blocks, each with four persistent 128-bit lanes.
3. It consumes what is left in 16-byte blocks.
4. It packs a tail of at most 15 bytes.
5. It XORs the residual length into the first accumulator, then runs a
   cross-multiplication and two multiply/xor-shift avalanches, which give the
   two digest words.

Files:

- `words.dfy` (module `Words`) holds the word helpers: `rotl64`, the halves
  of a 128-bit value, and little-endian `read64` with its byte-level facts.
- `mixer.dfy` (module `Mixer`) holds the constants, the seed expansion and
  `meimix`.
- `spec.dfy` (module `MeiHashSpec`) is the functional specification. The
  accumulators are a value `Acc`, and there is one function per group of C
  statements. The two loops are recursions over blocks (`Blocks64`,
  `Blocks16`), and `Digest` / `MeiHash` is the whole hash.
- `impl.dfy` (module `MeiHash`) is the imperative `meihash128`. It has a
  cursor `ptr` and a remaining length `len`, two `while` loops that update the
  accumulators and the persistent `lane1..lane4` in place, the fallthrough
  tail packing, and the finalizer. It is proved equal to `MeiHashSpec.MeiHash`.
- `props.dfy` (module `MeiHashProperties`) holds the properties of the
  specification:
  - the diffusion round is a bijection;
  - the collapse of the final product and the xor-shift steps can be undone;
  - each lane is the XOR of the mixes of its piece of every block;
  - the tail packing keeps every byte in place;
  - the digest of the empty input depends only on the seed.

Three details of the C code are easy to get wrong, and the model follows the code in each:

- The lanes are declared before the 64-byte loop and only ever `^=`-ed. They
  are never re-zeroed, so each fold also carries every earlier block's mix of
  that lane (`LanesAfter`).
- Between two lanes each accumulator is XORed with its own 1-bit rotation.
  It is not simply rotated (`Acc.Stir`).
- The value XORed into accumulator1 after the tail is the remaining `len`,
  which is the total length modulo 16, not the total length (`Digest`, `Split`).

## Model

| member | source | states |
|---|---|---|
| Words.RotL64 | src/meihash.c:12-15 | the two-shift rotation by 1 and by 32 is the rotation to the left by that amount |
| Words.SplitJoin | src/meihash.c:94 | the casts `(uint64_t)x` and `(uint64_t)(x >> 64)` split a 128-bit value into halves that join back into it, and joining two halves gives them back |
| Words.PackBytes | src/meihash.c:17-22 | a little-endian assembly of eight bytes splits back into the same eight bytes, in order |
| Words.Read64Bytes | src/meihash.c:17-22 | the bytes of the word `read64` returns are the eight bytes at the offset, least significant first |
| Words.BytesInjective | src/meihash.c:17-22 | a word is determined by its eight bytes |
| Words.Read64IsLE | src/meihash.c:17-22 | `read64` at an offset is the little-endian value of the eight-byte slice there |
| Words.LEBytes | src/meihash.c:143-149 | byte k of the little-endian value of at most eight bytes is byte k of the input, and the bytes above the input are zero |
| Words.LEAtSlice | src/meihash.c:143-149 | packing the bytes from an offset in place equals packing the slice they form |
| Mixer.SeedInvariants | src/meihash.c:59-62 | `s1` is `S1_DEF` for every seed, and `p0 ^ s0` is `P0_DEF ^ S0_DEF` for every seed |
| Mixer.SeedRecoverable | src/meihash.c:59-62 | the seed is recovered from `p0` and from `p1`, so distinct seeds never expand to the same constants |
| Mixer.SeedZero | src/meihash.c:59-62 | seed 0 expands to the base constants |
| MeiHashSpec.BlocksStart | src/meihash.c:68-74 | unfolding helper for `Blocks64` and `Blocks16` at zero blocks: before the loops the state is the crossed initial accumulators `(P1_DEF, P0_DEF)` with zero lanes, and no 16-byte block leaves the accumulators unchanged |
| MeiHashSpec.Blocks64Next | src/meihash.c:76-111 | unfolding helper for `Blocks64`: one more 64-byte block is one more stripe applied to the state and lanes left by the earlier blocks |
| MeiHashSpec.Blocks16Next | src/meihash.c:113-128 | unfolding helper for `Blocks16`: one more 16-byte block is one more fold-and-diffuse round |
| MeiHashSpec.Split | src/meihash.c:76-128 | when both loops have stopped, the 64-byte loop ran `len / 64` times and the 16-byte loop `(len % 64) / 16` times, the cursor advanced by `len - len % 16`, and `len % 16` bytes remain |
| MeiHashSpec.DigestStages | src/meihash.c:76-158 | unfolding helper for `Digest`: the digest is the finalizer of the state the three stages reach one after the other, with the residual length XORed in |
| MeiHashSpec.DigestSteps | src/meihash.c:76-158 | unfolding helper for `Digest`, through `Split`: the same, stated on where the two loops stop |
| MeiHash.PackLow | src/meihash.c:143-149 | the fallthrough `|=` of 1 to 7 bytes builds their little-endian value |
| MeiHash.TailWordsHigh | src/meihash.c:134-142 | for 8 to 15 tail bytes, the packed words are the `read64` of the first eight and the little-endian value of the rest |
| MeiHash.TailWordsLow | src/meihash.c:143-149 | for 1 to 7 tail bytes, the packed words are their little-endian value and zero |
| MeiHash.PackTail | src/meihash.c:132-150 | the `switch` leaves `(final_m, final_y)` equal to the packed tail words |
| MeiHash.Block64 | src/meihash.c:78-107 | the body of the 64-byte loop computes the stripe: new lanes and new accumulators |
| MeiHash.Block16 | src/meihash.c:115-124 | the body of the 16-byte loop computes one fold-and-diffuse round |
| MeiHash.TailStage | src/meihash.c:130-156 | the tail stage folds the mix of the packed tail, or changes nothing when no byte is left |
| MeiHash.AvalancheWord | src/meihash.c:167-169 | the xor-shift/multiply chain of one accumulator computes `Avalanche` |
| MeiHash.Finish | src/meihash.c:161-173 | the finalizer statements compute `Finalize` of the accumulators |
| MeiHash.ExpandSeed | src/meihash.c:59-62 | the four locals are the seed expansion |
| MeiHash.MeiHash128 | src/meihash.c:54-178 | the two output words are the functional digest of the input under the seed |
| MeiHashProperties.DiffusionInverse | src/meihash.c:105-107 | the accumulators before a diffusion round are recovered from those after it: `rotl(a1, 1)` is `acc2' - acc1'`, `a2` is `acc1' - rotl(a1, 1)`, and `a1` is the right rotation of that difference |
| MeiHashProperties.DiffusionOnto | src/meihash.c:105-107 | every pair of words is the outcome of some diffusion round |
| MeiHashProperties.DiffuseInjective | src/meihash.c:122-124 | two accumulator pairs that agree after the diffusion round agreed before it |
| MeiHashProperties.XorShiftInvolution | src/meihash.c:167-173 | `x ^ (x >> 33)` applied twice gives `x` back |
| MeiHashProperties.XorShiftInjective | src/meihash.c:167-173 | an xor-shift step never maps two words to the same word |
| MeiHashProperties.CollapseInverse | src/meihash.c:164-165 | the 128-bit final product is recovered from the two collapsed accumulators |
| MeiHashProperties.StripeLanes | src/meihash.c:78-92 | a 64-byte block XORs the mix of its k-th word pair into lane k |
| MeiHashProperties.LaneXorStart | src/meihash.c:71-74 | unfolding helper for `LaneXor`: before any block every lane's XOR of mixes is zero |
| MeiHashProperties.LaneXorNext | src/meihash.c:78-92 | unfolding helper for `LaneXor`: one more block adds the mix of its k-th word pair to lane k's XOR |
| MeiHashProperties.LanesAfter | src/meihash.c:71-92 | after n iterations of the 64-byte loop, lane k holds the XOR over all n blocks of the mix of that block's k-th word pair; lanes are never reset |
| MeiHashProperties.DigestEmpty | src/meihash.c:68-173 | for the empty input the digest is the finalizer applied to `(P1_DEF, P0_DEF)`: no loop or tail step runs and the residual length is zero |
| MeiHashProperties.MeiHashEmpty | src/meihash.c:59-173 | the digest of the empty input depends only on the seed, through the expanded constants |
| MeiHashProperties.ShortTail | src/meihash.c:143-149 | for 1 to 7 tail bytes `final_y` is zero, `final_m` holds byte k in bits 8k..8k+7, and its bytes above the tail are zero; the bound `final_m < 2^(8n)` is a consequence of those zero bytes and is not stated separately |
| MeiHashProperties.LongTail | src/meihash.c:134-142 | for 8 to 15 tail bytes `final_m` is the first eight bytes, `final_y` holds byte 8+k in bits 8k..8k+7 with zero above, and its top byte is zero |
| MeiHashProperties.TailInjective | src/meihash.c:130-149 | distinct tails of equal length are packed into distinct word pairs |
| MeiHashProperties.StirCollides | src/meihash.c:96 | the stir between two lanes is not injective: all-zero and all-one accumulators stir to the same value |
| MeiHashProperties.MeiMixCancels | src/meihash.c:31-47 | the seed path and the secret path of `meimix` cancel when their constants coincide |
| MeiHashProperties.PathsDiffer | src/meihash.c:59-61 | for every seed `p0` differs from `s0`, so the cancelling case of `MeiMixCancels` never arises in the hash |

## Left out

- `src/meihash.h` (only the prototype) and `read32` (src/meihash.c:24-29, never called).
- The `__SIZEOF_INT128__` / `#error` platform check (src/meihash.c:6-10): it is a build-time test, not behaviour. `uint128_t` is `bv128`.
- Host byte order: `read64` is fixed to a little-endian assembly of bytes, instead of a `memcpy` in host order.
- The input pointer and `size_t` length are modelled as a `seq<bv8>`, and `ptr` as an index into it.
- The output store through a `void*` cast (src/meihash.c:176-177): the method returns the two words `output[0]` and `output[1]`.
- Words.RotL64: it is only defined for `0 < r < 64`. A C shift by 64 (`r = 0`) is undefined, and the code only rotates by 1 and 32.
- The stir and diffusion steps are written with Dafny's `RotateLeft(1)` rather than a call of `RotL64`. `RotL64`'s contract states that the two are equal for `r = 1`.
- Straight-line statements of the C code that only compute values are grouped into stage functions (`Acc.Fold`, `Acc.Stir`, `Acc.Cross`, `Collapse`, `Stripe`, `Round16`). The methods compute each stage and are proved equal to it.
- Mixer.MeiMix: there is no lemma relating the 128-bit products to integer multiplication, or stating that the widened 64x64 product never overflows 128 bits. Nonlinear bit-vector arithmetic is out of reach of the solver.
- No separate lemma says that every index read is below the length. Each `read64` and byte access in the methods carries that obligation, and it is discharged there.
- Statistical properties (avalanche quality, collision behaviour) are not exact statements. There are no known-answer digests in the source, so none are stated.
- Thread safety and reentrancy: all state is local to one call, so there is nothing to model.
