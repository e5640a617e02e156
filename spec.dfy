/**
  Functional specification of `meihash128`: the running accumulators as a
  value, one function per group of statements of the C code, and the whole
  hash as a recursion over the 64-byte and the 16-byte blocks. The working
  constants are passed as the four words `p0`, `p1`, `s0`, `s1` the C code
  keeps in locals.
 */
module MeiHashSpec {
  import opened Words
  import opened Mixer

  /** The two running accumulators, `accumulator1` and `accumulator2`. */
  datatype Acc = Acc(a1: bv64, a2: bv64) {

    /** Fold a 128-bit value: its low half into accumulator1 and its high
        half into accumulator2. */
    function Fold(x: bv128): Acc {
      Acc(a1 ^ Lo(x), a2 ^ Hi(x))
    }

    /** The step between two lanes: each accumulator is XORed with its own
        rotation by one bit (`rotl64(x, 1)`, which is `x.RotateLeft(1)` by
        the contract of `RotL64`). */
    function Stir(): Acc {
      Acc(a1 ^ a1.RotateLeft(1), a2 ^ a2.RotateLeft(1))
    }

    /** The diffusion round on these accumulators: `Diffusion` as a member
        of `Acc`, so that proofs can hide it as one stage. */
    function Diffuse(): Acc {
      Diffusion(a1, a2)
    }

    /** The residual length XORed into accumulator1. */
    function XorLen(n: bv64): Acc {
      Acc(a1 ^ n, a2)
    }

    /** The first step of the finalizer: accumulator1 times `s0` XOR
        accumulator2 times `p0`, both products in 128 bits. */
    function Cross(p0: bv64, s0: bv64): bv128 {
      Mul128(a1, s0) ^ Mul128(a2, p0)
    }
  }

  /** The diffusion round: `temp` keeps the old accumulator1, the new
      accumulator1 is its rotation by one bit plus accumulator2, and the new
      accumulator2 adds the rotation of `temp` to the new accumulator1. */
  function Diffusion(a1: bv64, a2: bv64): Acc {
    var temp := a1;
    var n1 := a1.RotateLeft(1) + a2;
    Acc(n1, temp.RotateLeft(1) + n1)
  }

  /** The accumulators before any input: crossed over with respect to the
      names of the base constants. */
  const Init: Acc := Acc(P1_DEF, P0_DEF)

  /** The four 128-bit lanes of the 64-byte loop. */
  datatype Lanes = Lanes(l1: bv128, l2: bv128, l3: bv128, l4: bv128)

  const NoLanes: Lanes := Lanes(0, 0, 0, 0)

  /** The state of the 64-byte loop. */
  datatype Wide = Wide(acc: Acc, lanes: Lanes)

  /** A lane absorbing a mix, `lane ^= mixed`. */
  function Absorb(lane: bv128, mixed: bv128): bv128 {
    lane ^ mixed
  }

  /** One 64-byte block at `off`: the `meimix` of the two words of each of
      its four 16-byte pieces is XORed into the lane of that piece, then the
      new lanes are folded into the accumulators in order, with a stir
      between two lanes and one diffusion round at the end. */
  function Stripe(a: Acc, l1: bv128, l2: bv128, l3: bv128, l4: bv128,
                  data: seq<bv8>, off: nat, p0: bv64, p1: bv64, s0: bv64, s1: bv64): Wide
    requires off + 64 <= |data|
  {
    var n1 := Absorb(l1, MeiMix(Read64(data, off), Read64(data, off + 8), p0, p1, s0, s1));
    var n2 := Absorb(l2, MeiMix(Read64(data, off + 16), Read64(data, off + 24), p0, p1, s0, s1));
    var n3 := Absorb(l3, MeiMix(Read64(data, off + 32), Read64(data, off + 40), p0, p1, s0, s1));
    var n4 := Absorb(l4, MeiMix(Read64(data, off + 48), Read64(data, off + 56), p0, p1, s0, s1));
    Wide(a.Fold(n1).Stir().Fold(n2).Stir().Fold(n3).Stir().Fold(n4).Diffuse(), Lanes(n1, n2, n3, n4))
  }

  /** The state after the first `n` 64-byte blocks. */
  function Blocks64(data: seq<bv8>, p0: bv64, p1: bv64, s0: bv64, s1: bv64, n: nat): Wide
    requires 64 * n <= |data|
  {
    if n == 0 then Wide(Init, NoLanes)
    else
      var w := Blocks64(data, p0, p1, s0, s1, n - 1);
      Stripe(w.acc, w.lanes.l1, w.lanes.l2, w.lanes.l3, w.lanes.l4, data, 64 * (n - 1), p0, p1, s0, s1)
  }

  /** Before any block: the initial accumulators and zero lanes, and no
      16-byte block changes nothing. */
  lemma BlocksStart(data: seq<bv8>, a: Acc, base: nat, p0: bv64, p1: bv64, s0: bv64, s1: bv64)
    requires base <= |data|
    ensures Blocks64(data, p0, p1, s0, s1, 0) == Wide(Init, NoLanes)
    ensures Blocks16(a, data, base, p0, p1, s0, s1, 0) == a
  {
  }

  /** One more 64-byte block is one more stripe. */
  lemma Blocks64Next(data: seq<bv8>, p0: bv64, p1: bv64, s0: bv64, s1: bv64, n: nat)
    requires 64 * (n + 1) <= |data|
    ensures var w := Blocks64(data, p0, p1, s0, s1, n);
            Blocks64(data, p0, p1, s0, s1, n + 1) ==
            Stripe(w.acc, w.lanes.l1, w.lanes.l2, w.lanes.l3, w.lanes.l4, data, 64 * n, p0, p1, s0, s1)
  {
  }

  /** One 16-byte block at `off`: fold its mix, then one diffusion round. */
  function Round16(a: Acc, data: seq<bv8>, off: nat, p0: bv64, p1: bv64, s0: bv64, s1: bv64): Acc
    requires off + 16 <= |data|
  {
    a.Fold(MeiMix(Read64(data, off), Read64(data, off + 8), p0, p1, s0, s1)).Diffuse()
  }

  /** The accumulators after `m` 16-byte blocks starting at `base`. */
  function Blocks16(a: Acc, data: seq<bv8>, base: nat, p0: bv64, p1: bv64, s0: bv64, s1: bv64, m: nat): Acc
    requires base + 16 * m <= |data|
  {
    if m == 0 then a
    else Round16(Blocks16(a, data, base, p0, p1, s0, s1, m - 1), data, base + 16 * (m - 1), p0, p1, s0, s1)
  }

  /** One more 16-byte block is one more round. */
  lemma Blocks16Next(a: Acc, data: seq<bv8>, base: nat, p0: bv64, p1: bv64, s0: bv64, s1: bv64, m: nat)
    requires base + 16 * (m + 1) <= |data|
    ensures Blocks16(a, data, base, p0, p1, s0, s1, m + 1) ==
            Round16(Blocks16(a, data, base, p0, p1, s0, s1, m), data, base + 16 * m, p0, p1, s0, s1)
  {
  }

  /** The two words a tail of 1 to 15 bytes is packed into: with at least
      eight bytes, the first eight are read as a word and the rest fill the
      second word from its low end; otherwise the bytes fill the first word
      from its low end and the second word is zero. */
  function TailWords(t: seq<bv8>): (bv64, bv64)
    requires 0 < |t| < 16
  {
    if |t| >= 8 then (Read64(t, 0), LE(t[8..])) else (LE(t), 0)
  }

  /** The tail stage: nothing when no byte is left, otherwise the mix of the
      packed tail folded in (no diffusion round). */
  function Tail(a: Acc, t: seq<bv8>, p0: bv64, p1: bv64, s0: bv64, s1: bv64): Acc
    requires |t| < 16
  {
    if |t| == 0 then a
    else
      var w := TailWords(t);
      a.Fold(MeiMix(w.0, w.1, p0, p1, s0, s1))
  }

  /** One xor-shift step of the avalanche. */
  function XorShift33(x: bv64): bv64 {
    x ^ (x >> 33)
  }

  /** The avalanche of one accumulator: shift-xor, multiply, shift-xor,
      multiply, shift-xor. */
  function Avalanche(x: bv64, m1: bv64, m2: bv64): bv64 {
    XorShift33(MulLo(XorShift33(MulLo(XorShift33(x), m1)), m2))
  }

  /** The halves of the final product folded back into two words: the new
      accumulator1 is the XOR of the halves, and the new accumulator2 adds it
      to the high half. */
  function Collapse(fm: bv128): Acc {
    var h1 := Lo(fm) ^ Hi(fm);
    Acc(h1, Hi(fm) + h1)
  }

  /** The finalizer: the cross product of the accumulators collapsed into
      two words, then one avalanche per word, accumulator1 with `p0` and
      `s1`, accumulator2 with `p1` and `s0`. */
  function Finalize(a: Acc, p0: bv64, p1: bv64, s0: bv64, s1: bv64): (bv64, bv64) {
    var c := Collapse(a.Cross(p0, s0));
    (Avalanche(c.a1, p0, s1), Avalanche(c.a2, p1, s0))
  }

  /** The digest of `data` under the working constants `p0`, `p1`, `s0`, `s1`. */
  function Digest(data: seq<bv8>, p0: bv64, p1: bv64, s0: bv64, s1: bv64): (bv64, bv64) {
    var n64 := |data| / 64;
    var n16 := (|data| % 64) / 16;
    var rest := |data| % 16;
    var a := Blocks16(Blocks64(data, p0, p1, s0, s1, n64).acc, data, 64 * n64, p0, p1, s0, s1, n16);
    var t := Tail(a, data[|data| - rest..], p0, p1, s0, s1).XorLen(rest as bv64);
    Finalize(t, p0, p1, s0, s1)
  }

  /** `meihash128` over a whole buffer: the digest words (output[0], output[1]). */
  function MeiHash(data: seq<bv8>, seed: bv64): (bv64, bv64) {
    var k := Expand(seed);
    Digest(data, k.p0, k.p1, k.s0, k.s1)
  }

  /** The digest is the finalizer applied to the state that the three stages
      reach one after the other. */
  lemma DigestStages(data: seq<bv8>, p0: bv64, p1: bv64, s0: bv64, s1: bv64, w: Wide, a: Acc, t: Acc)
    requires w == Blocks64(data, p0, p1, s0, s1, |data| / 64)
    requires a == Blocks16(w.acc, data, 64 * (|data| / 64), p0, p1, s0, s1, (|data| % 64) / 16)
    requires t == Tail(a, data[|data| - |data| % 16..], p0, p1, s0, s1).XorLen((|data| % 16) as bv64)
    ensures Digest(data, p0, p1, s0, s1) == Finalize(t, p0, p1, s0, s1)
  {
    hide Blocks64, Blocks16, Tail, Finalize, Acc.XorLen;
  }

  /** The block counts of the two stages and the length of the tail, when
      the 64-byte stage stops after `n` blocks at `base` and the 16-byte
      stage after `m` more blocks, with less than one block left each time:
      the cursor has advanced by the length less its residue modulo 16, and
      that residue is the length left. */
  lemma Split(total: nat, n: nat, base: nat, m: nat, len: nat)
    requires base == 64 * n && total - base < 64
    requires base + 16 * m + len == total && len < 16
    ensures n == total / 64 && m == (total % 64) / 16 && len == total % 16
    ensures base + 16 * m == total - total % 16
  {}

  /** `DigestStages` stated on where the stages stop. */
  lemma DigestSteps(data: seq<bv8>, p0: bv64, p1: bv64, s0: bv64, s1: bv64,
                    n: nat, base: nat, m: nat, ptr: nat, len: nat, w: Wide, a: Acc, t: Acc)
    requires base == 64 * n && |data| - base < 64
    requires ptr == base + 16 * m && ptr + len == |data| && len < 16
    requires w == Blocks64(data, p0, p1, s0, s1, n)
    requires a == Blocks16(w.acc, data, base, p0, p1, s0, s1, m)
    requires t == Tail(a, data[ptr..], p0, p1, s0, s1).XorLen(len as bv64)
    ensures Digest(data, p0, p1, s0, s1) == Finalize(t, p0, p1, s0, s1)
  {
    hide Digest, Blocks64, Blocks16, Tail, Finalize, Acc.XorLen;
    Split(|data|, n, base, m, len);
    DigestStages(data, p0, p1, s0, s1, w, a, t);
  }
}
