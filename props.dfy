/**
  Properties of the functional specification: the diffusion round and the
  collapse of the final product can be undone, the xor-shift steps of the
  avalanche undo themselves, each lane after the 64-byte loop is the XOR of
  the mixes of its piece of every block, the tail packing keeps the bytes
  in place, and the digest of the empty input.
 */
module MeiHashProperties {
  import opened Words
  import opened Mixer
  import opened MeiHashSpec

  // ---------------------------------------------------------------------
  // The diffusion round is a bijection on pairs of words.

  /** The inverse of the diffusion round: the difference of the outputs is
      the rotated old accumulator1, which also gives back accumulator2. */
  function Undiffusion(n1: bv64, n2: bv64): Acc {
    Acc((n2 - n1).RotateRight(1), n1 - (n2 - n1))
  }

  lemma DiffusionUnfold(x: bv64, y: bv64)
    ensures Diffusion(x, y) == Acc(x.RotateLeft(1) + y, x.RotateLeft(1) + (x.RotateLeft(1) + y))
  {}

  lemma UndiffusionOfRound(x: bv64, y: bv64)
    ensures Undiffusion(x.RotateLeft(1) + y, x.RotateLeft(1) + (x.RotateLeft(1) + y)) == Acc(x, y)
  {}

  /** The old accumulators can be recovered from the new ones. */
  lemma DiffusionInverse(x: bv64, y: bv64)
    ensures Undiffusion(Diffusion(x, y).a1, Diffusion(x, y).a2) == Acc(x, y)
  {
    DiffusionUnfold(x, y);
    UndiffusionOfRound(x, y);
  }

  /** Every pair of words is the outcome of a diffusion round: the pair
      `(u, u + d)`, whose difference `d` ranges over all words, comes from
      the accumulators `(rotr(d, 1), u - d)`. */
  lemma DiffusionOnto(u: bv64, d: bv64)
    ensures Diffusion(d.RotateRight(1), u - d) == Acc(u, u + d)
  {}

  /** Two accumulator pairs that agree after the diffusion round agree
      before it, as a consequence of `DiffusionInverse`. */
  lemma DiffuseInjective(a: Acc, b: Acc)
    requires a.Diffuse() == b.Diffuse()
    ensures a == b
  {
    DiffusionInverse(a.a1, a.a2);
    DiffusionInverse(b.a1, b.a2);
  }

  // ---------------------------------------------------------------------
  // The xor-shift steps of the avalanche undo themselves.

  lemma XorShiftTwice(x: bv64)
    ensures (x ^ (x >> 33)) ^ ((x ^ (x >> 33)) >> 33) == x
  {}

  /** Shifting by 33 twice clears every bit, so a second xor-shift step
      removes what the first one added. */
  lemma XorShiftInvolution(x: bv64)
    ensures XorShift33(XorShift33(x)) == x
  {
    assert XorShift33(x) == x ^ (x >> 33);
    XorShiftTwice(x);
  }

  /** Hence an xor-shift step never maps two words to the same word. */
  lemma XorShiftInjective(x: bv64, y: bv64)
    requires XorShift33(x) == XorShift33(y)
    ensures x == y
  {
    XorShiftInvolution(x);
    XorShiftInvolution(y);
  }

  // ---------------------------------------------------------------------
  // The collapse of the final product loses nothing.

  /** The inverse of the collapse: the difference of the two words is the
      high half of the product, and XORing it out of accumulator1 gives the
      low half. */
  function Uncollapse(u: bv64, v: bv64): bv128 {
    Join(v - u, u ^ (v - u))
  }

  lemma UncollapseHalves()
    ensures forall h: bv64, l: bv64 :: Uncollapse(l ^ h, h + (l ^ h)) == Join(h, l)
  {}

  /** The 128-bit product is recovered from the two collapsed words, so the
      collapse is injective. */
  lemma CollapseInverse(fm: bv128)
    ensures Uncollapse(Collapse(fm).a1, Collapse(fm).a2) == fm
  {
    SplitJoin(fm, 0, 0);
    UncollapseHalves();
  }

  // ---------------------------------------------------------------------
  // The lanes of the 64-byte loop are never reset.

  /** The XOR, over the first `n` 64-byte blocks, of the `meimix` of the
      word pair of piece `k` (0 to 3) of each block. */
  function LaneXor(data: seq<bv8>, p0: bv64, p1: bv64, s0: bv64, s1: bv64, k: nat, n: nat): bv128
    requires k < 4 && 64 * n <= |data|
  {
    if n == 0 then 0
    else
      var off := 64 * (n - 1) + 16 * k;
      Absorb(LaneXor(data, p0, p1, s0, s1, k, n - 1),
             MeiMix(Read64(data, off), Read64(data, off + 8), p0, p1, s0, s1))
  }

  lemma LaneXorStart(data: seq<bv8>, p0: bv64, p1: bv64, s0: bv64, s1: bv64)
    ensures LaneXor(data, p0, p1, s0, s1, 0, 0) == 0 && LaneXor(data, p0, p1, s0, s1, 1, 0) == 0
    ensures LaneXor(data, p0, p1, s0, s1, 2, 0) == 0 && LaneXor(data, p0, p1, s0, s1, 3, 0) == 0
  {}

  /** One more block absorbs the mix of its piece `k`, read at `off + 16 * k`. */
  lemma LaneXorNext(data: seq<bv8>, p0: bv64, p1: bv64, s0: bv64, s1: bv64, k: nat, n: nat, off: nat)
    requires k < 4 && off == 64 * n && 64 * (n + 1) <= |data|
    ensures LaneXor(data, p0, p1, s0, s1, k, n + 1) ==
            Absorb(LaneXor(data, p0, p1, s0, s1, k, n),
                   MeiMix(Read64(data, off + 16 * k), Read64(data, off + 16 * k + 8), p0, p1, s0, s1))
  {
    hide MeiMix, Read64, Absorb;
  }

  /** A stripe leaves each lane with the mix of its piece absorbed. */
  lemma StripeLanes(a: Acc, l1: bv128, l2: bv128, l3: bv128, l4: bv128,
                    data: seq<bv8>, off: nat, p0: bv64, p1: bv64, s0: bv64, s1: bv64)
    requires off + 64 <= |data|
    ensures Stripe(a, l1, l2, l3, l4, data, off, p0, p1, s0, s1).lanes ==
            Lanes(Absorb(l1, MeiMix(Read64(data, off + 16 * 0), Read64(data, off + 16 * 0 + 8), p0, p1, s0, s1)),
                  Absorb(l2, MeiMix(Read64(data, off + 16 * 1), Read64(data, off + 16 * 1 + 8), p0, p1, s0, s1)),
                  Absorb(l3, MeiMix(Read64(data, off + 16 * 2), Read64(data, off + 16 * 2 + 8), p0, p1, s0, s1)),
                  Absorb(l4, MeiMix(Read64(data, off + 16 * 3), Read64(data, off + 16 * 3 + 8), p0, p1, s0, s1)))
  {
    hide MeiMix, Read64, Absorb, Acc.Fold, Acc.Stir, Acc.Diffuse;
  }

  /** After `n` iterations of the 64-byte loop, lane `k + 1` holds the XOR
      of the mixes of piece `k` of every block so far. */
  lemma {:induction false} LanesAfter(data: seq<bv8>, p0: bv64, p1: bv64, s0: bv64, s1: bv64, n: nat)
    requires 64 * n <= |data|
    ensures Blocks64(data, p0, p1, s0, s1, n).lanes ==
            Lanes(LaneXor(data, p0, p1, s0, s1, 0, n), LaneXor(data, p0, p1, s0, s1, 1, n),
                  LaneXor(data, p0, p1, s0, s1, 2, n), LaneXor(data, p0, p1, s0, s1, 3, n))
  {
    hide MeiMix, Read64, Absorb, Stripe, Blocks64, LaneXor;
    if n == 0 {
      BlocksStart(data, Init, 0, p0, p1, s0, s1);
      LaneXorStart(data, p0, p1, s0, s1);
    } else {
      var m, off := n - 1, 64 * (n - 1);
      var w := Blocks64(data, p0, p1, s0, s1, m);
      LanesAfter(data, p0, p1, s0, s1, m);
      Blocks64Next(data, p0, p1, s0, s1, m);
      StripeLanes(w.acc, w.lanes.l1, w.lanes.l2, w.lanes.l3, w.lanes.l4, data, off, p0, p1, s0, s1);
      LaneXorNext(data, p0, p1, s0, s1, 0, m, off);
      LaneXorNext(data, p0, p1, s0, s1, 1, m, off);
      LaneXorNext(data, p0, p1, s0, s1, 2, m, off);
      LaneXorNext(data, p0, p1, s0, s1, 3, m, off);
    }
  }

  // ---------------------------------------------------------------------
  // The digest of the empty input.

  /** With no input neither loop runs, no tail is packed and the residual
      length is zero: the digest is the finalizer of the initial
      accumulators. */
  lemma DigestEmpty(p0: bv64, p1: bv64, s0: bv64, s1: bv64)
    ensures Digest([], p0, p1, s0, s1) == Finalize(Init, p0, p1, s0, s1)
  {
    hide Finalize;
  }

  /** Hence the digest of the empty input depends only on the seed, through
      the expanded constants. */
  lemma MeiHashEmpty(seed: bv64)
    ensures MeiHash([], seed) ==
            Finalize(Acc(P1_DEF, P0_DEF), P0_DEF ^ seed, P1_DEF ^ seed.RotateLeft(32), S0_DEF ^ seed, S1_DEF)
  {
    hide Finalize, Digest;
    DigestEmpty(P0_DEF ^ seed, P1_DEF ^ seed.RotateLeft(32), S0_DEF ^ seed, S1_DEF);
  }

  // ---------------------------------------------------------------------
  // The tail packing keeps every byte in place.

  /** A tail of 1 to 7 bytes: the first word holds byte `k` in bits
      `8k..8k+7` and zero above the tail, and the second word is zero. */
  lemma ShortTail(t: seq<bv8>)
    requires 0 < |t| < 8
    ensures Bytes(TailWords(t).0) == t + Zeros(8 - |t|)
    ensures TailWords(t).1 == 0
  {
    LEBytes(t);
  }

  /** A tail of 8 to 15 bytes: the first word is the first eight bytes,
      the second word holds byte `8 + k` in bits `8k..8k+7`, and its top
      byte is zero. */
  lemma LongTail(t: seq<bv8>)
    requires 8 <= |t| < 16
    ensures Bytes(TailWords(t).0) == t[..8]
    ensures Bytes(TailWords(t).1) == t[8..] + Zeros(16 - |t|)
    ensures ByteAt(TailWords(t).1, 56) == 0
  {
    Read64Bytes(t, 0);
    LEBytes(t[8..]);
    assert Bytes(TailWords(t).1)[7] == 0;
  }

  /** Two tails of the same length that differ in some byte are packed into
      different words. */
  lemma TailInjective(t: seq<bv8>, u: seq<bv8>)
    requires 0 < |t| == |u| < 16
    requires TailWords(t) == TailWords(u)
    ensures t == u
  {
    if |t| < 8 {
      ShortTail(t);
      ShortTail(u);
      assert t == (t + Zeros(8 - |t|))[..|t|];
      assert u == (u + Zeros(8 - |u|))[..|u|];
    } else {
      LongTail(t);
      LongTail(u);
      assert t == t[..8] + (t[8..] + Zeros(16 - |t|))[..|t| - 8];
      assert u == u[..8] + (u[8..] + Zeros(16 - |u|))[..|u| - 8];
    }
  }

  // ---------------------------------------------------------------------
  // Smaller facts about the mixing steps.

  /** The stir between two lanes is not injective: the all-zero and the
      all-one accumulators stir to the same value. */
  lemma StirCollides()
    ensures Acc(0, 0).Stir() == Acc(0xFFFF_FFFF_FFFF_FFFF, 0xFFFF_FFFF_FFFF_FFFF).Stir()
  {}

  /** The two paths of `meimix` cancel when the seed constants equal the
      secret constants, so the mixer relies on `p0 != s0` or `p1 != s1`;
      `PathsDiffer` shows that the seed expansion always gives `p0 != s0`. */
  lemma MeiMixCancels(mi: bv64, yi: bv64, k0: bv64, k1: bv64)
    ensures MeiMix(mi, yi, k0, k1, k0, k1) == 0
  {
    hide Mul128;
  }

  /** For every seed the first seed constant differs from the first secret
      constant, since their XOR is the nonzero `P0_DEF ^ S0_DEF`: the
      cancelling case of `MeiMixCancels` never arises in the hash. */
  lemma PathsDiffer(seed: bv64)
    ensures Expand(seed).p0 != Expand(seed).s0
  {
    SeedInvariants(seed);
  }
}
