/**
  The imperative `meihash128`: a cursor and a remaining length walk the
  buffer through the 64-byte loop, the 16-byte loop and the tail, with the
  four lanes kept across iterations, and the method is proved to compute the
  functional specification.
 */
module MeiHash {
  import opened Words
  import opened Mixer
  import opened MeiHashSpec

  /** Cases 7 down to 1 of the fallthrough `switch`: bytes `len - 1` down
      to 0 are ORed into a zero word at their little-endian positions. */
  method PackLow(data: seq<bv8>, ptr: nat, len: nat) returns (w: bv64)
    requires 0 < len < 8 && ptr + len <= |data|
    ensures w == LEAt(data, ptr, len)
  {
    ghost var b0, b1, b2, b3 := ByteOrZeroAt(data, ptr, len, 0), ByteOrZeroAt(data, ptr, len, 1),
                                ByteOrZeroAt(data, ptr, len, 2), ByteOrZeroAt(data, ptr, len, 3);
    ghost var b4, b5, b6 := ByteOrZeroAt(data, ptr, len, 4), ByteOrZeroAt(data, ptr, len, 5),
                            ByteOrZeroAt(data, ptr, len, 6);
    assert LEAt(data, ptr, len) == Pack(b0, b1, b2, b3, b4, b5, b6, 0);
    assert b0 == data[ptr];
    assert if len >= 2 then b1 == data[ptr + 1] else b1 == 0;
    assert if len >= 3 then b2 == data[ptr + 2] else b2 == 0;
    assert if len >= 4 then b3 == data[ptr + 3] else b3 == 0;
    assert if len >= 5 then b4 == data[ptr + 4] else b4 == 0;
    assert if len >= 6 then b5 == data[ptr + 5] else b5 == 0;
    assert if len >= 7 then b6 == data[ptr + 6] else b6 == 0;
    w := 0;
    if len >= 7 { w := w | ((data[ptr + 6] as bv64) << 48); }
    if len >= 6 { w := w | ((data[ptr + 5] as bv64) << 40); }
    if len >= 5 { w := w | ((data[ptr + 4] as bv64) << 32); }
    if len >= 4 { w := w | ((data[ptr + 3] as bv64) << 24); }
    if len >= 3 { w := w | ((data[ptr + 2] as bv64) << 16); }
    if len >= 2 { w := w | ((data[ptr + 1] as bv64) << 8); }
    w := w | (data[ptr] as bv64);
  }

  /** `TailWords` of a tail of 8 to 15 bytes at `ptr`, stated on `data` itself. */
  lemma TailWordsHigh(data: seq<bv8>, ptr: nat, len: nat)
    requires 8 <= len < 16 && ptr + len <= |data|
    ensures TailWords(data[ptr..ptr + len]) ==
            (Read64(data, ptr), if len == 8 then 0 else LEAt(data, ptr + 8, len - 8))
  {
    var t := data[ptr..ptr + len];
    LEAtSlice(data, ptr + 8, len - 8);
    assert data[ptr + 8..ptr + len] == t[8..];
    assert t[0] == data[ptr] && t[1] == data[ptr + 1] && t[2] == data[ptr + 2] && t[3] == data[ptr + 3];
    assert t[4] == data[ptr + 4] && t[5] == data[ptr + 5] && t[6] == data[ptr + 6] && t[7] == data[ptr + 7];
  }

  /** `TailWords` of a tail of 1 to 7 bytes at `ptr`, stated on `data` itself. */
  lemma TailWordsLow(data: seq<bv8>, ptr: nat, len: nat)
    requires 0 < len < 8 && ptr + len <= |data|
    ensures TailWords(data[ptr..ptr + len]) == (LEAt(data, ptr, len), 0)
  {
    LEAtSlice(data, ptr, len);
  }

  /** The fallthrough `switch` that packs the last `len` bytes (1 to 15)
      starting at `ptr` into `final_m` and `final_y`: from 8 bytes on,
      cases 15 down to 9 pack the bytes past the first eight into `final_y`
      as `PackLow` does and case 8 reads the first eight into `final_m`. */
  method PackTail(data: seq<bv8>, ptr: nat, len: nat) returns (final_m: bv64, final_y: bv64)
    requires 0 < len < 16 && ptr + len <= |data|
    ensures (final_m, final_y) == TailWords(data[ptr..ptr + len])
  {
    final_m, final_y := 0, 0;
    if len >= 8 {
      TailWordsHigh(data, ptr, len);
      if len >= 9 {
        final_y := PackLow(data, ptr + 8, len - 8);
      }
      final_m := final_m | Read64(data, ptr);
    } else {
      TailWordsLow(data, ptr, len);
      final_m := PackLow(data, ptr, len);
    }
  }

  /** The body of the 64-byte loop: each lane absorbs the `meimix` of its
      two words, then the lanes are folded into the accumulators with a stir
      between two of them and one diffusion round at the end. */
  method Block64(input: seq<bv8>, ptr: nat, p0: bv64, p1: bv64, s0: bv64, s1: bv64,
                 acc0: Acc, l1: bv128, l2: bv128, l3: bv128, l4: bv128)
    returns (acc: Acc, lane1: bv128, lane2: bv128, lane3: bv128, lane4: bv128)
    requires ptr + 64 <= |input|
    ensures Wide(acc, Lanes(lane1, lane2, lane3, lane4)) == Stripe(acc0, l1, l2, l3, l4, input, ptr, p0, p1, s0, s1)
  {
    hide MeiMix, Read64, Acc.Fold, Acc.Stir, Acc.Diffuse;
    lane1 := l1 ^ MeiMix(Read64(input, ptr), Read64(input, ptr + 8), p0, p1, s0, s1);
    lane2 := l2 ^ MeiMix(Read64(input, ptr + 16), Read64(input, ptr + 24), p0, p1, s0, s1);
    lane3 := l3 ^ MeiMix(Read64(input, ptr + 32), Read64(input, ptr + 40), p0, p1, s0, s1);
    lane4 := l4 ^ MeiMix(Read64(input, ptr + 48), Read64(input, ptr + 56), p0, p1, s0, s1);
    acc := acc0.Fold(lane1);
    acc := acc.Stir();
    acc := acc.Fold(lane2);
    acc := acc.Stir();
    acc := acc.Fold(lane3);
    acc := acc.Stir();
    acc := acc.Fold(lane4);
    acc := acc.Diffuse();
  }

  /** The body of the 16-byte loop. */
  method Block16(input: seq<bv8>, ptr: nat, p0: bv64, p1: bv64, s0: bv64, s1: bv64, acc0: Acc)
    returns (acc: Acc)
    requires ptr + 16 <= |input|
    ensures acc == Round16(acc0, input, ptr, p0, p1, s0, s1)
  {
    hide MeiMix, Read64, Acc.Fold, Acc.Diffuse;
    var mixed := MeiMix(Read64(input, ptr), Read64(input, ptr + 8), p0, p1, s0, s1);
    acc := acc0.Fold(mixed);
    acc := acc.Diffuse();
  }

  /** The tail stage on the last `|input| - ptr` bytes (at most 15). */
  method TailStage(input: seq<bv8>, ptr: nat, p0: bv64, p1: bv64, s0: bv64, s1: bv64, acc0: Acc)
    returns (acc: Acc)
    requires ptr <= |input| < ptr + 16
    ensures acc == Tail(acc0, input[ptr..], p0, p1, s0, s1)
  {
    hide MeiMix, Read64, Acc.Fold, TailWords;
    var len := |input| - ptr;
    acc := acc0;
    if len > 0 {
      assert input[ptr..ptr + len] == input[ptr..];
      var final_m, final_y := PackTail(input, ptr, len);
      acc := acc.Fold(MeiMix(final_m, final_y, p0, p1, s0, s1));
    }
  }

  /** The avalanche of one accumulator, with multipliers `m1` and `m2`. */
  method AvalancheWord(x: bv64, m1: bv64, m2: bv64) returns (y: bv64)
    ensures y == Avalanche(x, m1, m2)
  {
    hide XorShift33, MulLo;
    y := XorShift33(x);
    y := MulLo(y, m1);
    y := XorShift33(y);
    y := MulLo(y, m2);
    y := XorShift33(y);
  }

  /** The finalizer, from the accumulators (the residual length already
      folded in) to the two output words. */
  method Finish(acc0: Acc, p0: bv64, p1: bv64, s0: bv64, s1: bv64) returns (out0: bv64, out1: bv64)
    ensures (out0, out1) == Finalize(acc0, p0, p1, s0, s1)
  {
    hide Acc.Cross, Collapse, Avalanche;
    var finalmix := acc0.Cross(p0, s0);
    var acc := Collapse(finalmix);
    out0 := AvalancheWord(acc.a1, p0, s1);
    out1 := AvalancheWord(acc.a2, p1, s0);
  }

  /** Seed expansion, as the four locals of the C code. */
  method ExpandSeed(seed: bv64) returns (p0: bv64, p1: bv64, s0: bv64, s1: bv64)
    ensures Keys(p0, p1, s0, s1) == Expand(seed)
  {
    p0 := P0_DEF ^ seed;
    p1 := P1_DEF ^ RotL64(seed, 32);
    s0 := S0_DEF ^ seed;
    s1 := S1_DEF;
  }

  /** `meihash128`: the digest of `input` under `seed`, as the two output
      words `output[0]` and `output[1]`. */
  method MeiHash128(input: seq<bv8>, seed: bv64) returns (out0: bv64, out1: bv64)
    ensures (out0, out1) == MeiHash(input, seed)
  {
    hide Expand, Digest, MeiMix, Read64, Stripe, Round16, Tail, Finalize,
         Blocks64, Blocks16, Acc.Fold, Acc.Stir, Acc.Diffuse, Acc.XorLen;
    var p0, p1, s0, s1 := ExpandSeed(seed);

    var acc := Acc(P1_DEF, P0_DEF);
    var lane1: bv128, lane2: bv128, lane3: bv128, lane4: bv128 := 0, 0, 0, 0;
    var ptr: nat, len: nat := 0, |input|;

    ghost var n: nat := 0;
    BlocksStart(input, acc, 0, p0, p1, s0, s1);
    while len >= 64
      invariant ptr + len == |input| && ptr == 64 * n
      invariant Wide(acc, Lanes(lane1, lane2, lane3, lane4)) == Blocks64(input, p0, p1, s0, s1, n)
    {
      Blocks64Next(input, p0, p1, s0, s1, n);
      acc, lane1, lane2, lane3, lane4 := Block64(input, ptr, p0, p1, s0, s1, acc, lane1, lane2, lane3, lane4);
      ptr, len := ptr + 64, len - 64;
      n := n + 1;
    }

    ghost var acc64, base, m: nat := acc, ptr, 0;
    BlocksStart(input, acc64, base, p0, p1, s0, s1);
    while len >= 16
      invariant ptr + len == |input| && ptr == base + 16 * m
      invariant acc == Blocks16(acc64, input, base, p0, p1, s0, s1, m)
    {
      Blocks16Next(acc64, input, base, p0, p1, s0, s1, m);
      acc := Block16(input, ptr, p0, p1, s0, s1, acc);
      ptr, len := ptr + 16, len - 16;
      m := m + 1;
    }
    ghost var a16 := acc;

    acc := TailStage(input, ptr, p0, p1, s0, s1, acc);
    acc := acc.XorLen(len as bv64);
    out0, out1 := Finish(acc, p0, p1, s0, s1);
    DigestSteps(input, p0, p1, s0, s1, n, base, m, ptr, len, Wide(acc64, Lanes(lane1, lane2, lane3, lane4)), a16, acc);
  }
}
