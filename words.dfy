/**
  Fixed-width word helpers of MeiHash: rotation, the split of a 128-bit value
  into its two 64-bit halves, and the little-endian assembly of bytes into a
  64-bit word.
 */
module Words {

  /** `rotl64`: rotation to the left by `r` bits, written with two shifts as in
      the C code. The hash only rotates by 1 and by 32. */
  function RotL64(x: bv64, r: bv32): (y: bv64)
    requires 0 < r < 64
    ensures r == 1 ==> y == x.RotateLeft(1)
    ensures r == 32 ==> y == x.RotateLeft(32)
  {
    (x << r) | (x >> (64 - r))
  }

  /** The low 64 bits of a 128-bit value, the C cast `(uint64_t)x`. */
  function Lo(x: bv128): bv64 {
    (x & 0xFFFF_FFFF_FFFF_FFFF) as bv64
  }

  /** The high 64 bits of a 128-bit value, `(uint64_t)(x >> 64)`. */
  function Hi(x: bv128): bv64 {
    (x >> 64) as bv64
  }

  /** The 128-bit value whose high half is `h` and whose low half is `l`. */
  function Join(h: bv64, l: bv64): bv128 {
    ((h as bv128) << 64) | (l as bv128)
  }

  /** Splitting into halves and joining them again are inverse. */
  lemma SplitJoin(x: bv128, h: bv64, l: bv64)
    ensures Join(Hi(x), Lo(x)) == x
    ensures Hi(Join(h, l)) == h && Lo(Join(h, l)) == l
  {
  }

  /** Byte `sh / 8` of a word: the eight bits starting at bit `sh`. */
  function ByteAt(w: bv64, sh: bv64): bv8
    requires sh < 64
  {
    ((w >> sh) & 0xFF) as bv8
  }

  /** The eight bytes of a word, least significant first. */
  function Bytes(w: bv64): (s: seq<bv8>)
    ensures |s| == 8
  {
    [ByteAt(w, 0), ByteAt(w, 8), ByteAt(w, 16), ByteAt(w, 24),
     ByteAt(w, 32), ByteAt(w, 40), ByteAt(w, 48), ByteAt(w, 56)]
  }

  /** Little-endian assembly: byte k goes to bits 8k..8k+7. */
  function Pack(b0: bv8, b1: bv8, b2: bv8, b3: bv8, b4: bv8, b5: bv8, b6: bv8, b7: bv8): bv64 {
    (b0 as bv64)
    | ((b1 as bv64) << 8)
    | ((b2 as bv64) << 16)
    | ((b3 as bv64) << 24)
    | ((b4 as bv64) << 32)
    | ((b5 as bv64) << 40)
    | ((b6 as bv64) << 48)
    | ((b7 as bv64) << 56)
  }

  /** `read64`: the eight bytes at offset `i`, read as a little-endian word
      (the host byte order of `memcpy` is fixed to little-endian). */
  function Read64(data: seq<bv8>, i: nat): bv64
    requires i + 8 <= |data|
  {
    Pack(data[i], data[i + 1], data[i + 2], data[i + 3],
         data[i + 4], data[i + 5], data[i + 6], data[i + 7])
  }

  /** Packing then splitting gives the bytes back, in order. */
  lemma PackBytes(b0: bv8, b1: bv8, b2: bv8, b3: bv8, b4: bv8, b5: bv8, b6: bv8, b7: bv8)
    ensures Bytes(Pack(b0, b1, b2, b3, b4, b5, b6, b7)) == [b0, b1, b2, b3, b4, b5, b6, b7]
  {}

  /** The bytes of the word `read64` returns are the eight bytes read. */
  lemma Read64Bytes(data: seq<bv8>, i: nat)
    requires i + 8 <= |data|
    ensures Bytes(Read64(data, i)) == data[i..i + 8]
  {
    PackBytes(data[i], data[i + 1], data[i + 2], data[i + 3],
              data[i + 4], data[i + 5], data[i + 6], data[i + 7]);
    assert data[i..i + 8] == [data[i], data[i + 1], data[i + 2], data[i + 3],
                              data[i + 4], data[i + 5], data[i + 6], data[i + 7]];
  }

  /** Byte `k` of `s`, or zero past its end. */
  function ByteOrZero(s: seq<bv8>, k: nat): bv8 {
    if k < |s| then s[k] else 0
  }

  /** The little-endian value of at most eight bytes (the bytes past the end
      of `s` count as zero). */
  function LE(s: seq<bv8>): bv64
    requires |s| <= 8
  {
    Pack(ByteOrZero(s, 0), ByteOrZero(s, 1), ByteOrZero(s, 2), ByteOrZero(s, 3),
         ByteOrZero(s, 4), ByteOrZero(s, 5), ByteOrZero(s, 6), ByteOrZero(s, 7))
  }

  /** Byte `j` of the `n` bytes of `data` starting at `ptr`, or zero past them. */
  function ByteOrZeroAt(data: seq<bv8>, ptr: nat, n: nat, j: nat): bv8
    requires ptr + n <= |data|
  {
    if j < n then data[ptr + j] else 0
  }

  /** `LE` of the `n` bytes of `data` starting at `ptr`, without taking the
      slice: the same packing stated on the buffer the C code indexes, tied
      to `LE` by `LEAtSlice`. */
  function LEAt(data: seq<bv8>, ptr: nat, n: nat): bv64
    requires ptr + n <= |data| && n <= 8
  {
    Pack(ByteOrZeroAt(data, ptr, n, 0), ByteOrZeroAt(data, ptr, n, 1),
         ByteOrZeroAt(data, ptr, n, 2), ByteOrZeroAt(data, ptr, n, 3),
         ByteOrZeroAt(data, ptr, n, 4), ByteOrZeroAt(data, ptr, n, 5),
         ByteOrZeroAt(data, ptr, n, 6), ByteOrZeroAt(data, ptr, n, 7))
  }

  /** `LEAt` is `LE` of the slice it reads. */
  lemma LEAtSlice(data: seq<bv8>, ptr: nat, n: nat)
    requires ptr + n <= |data| && n <= 8
    ensures LEAt(data, ptr, n) == LE(data[ptr..ptr + n])
  {
    var s := data[ptr..ptr + n];
    forall j | 0 <= j < 8
      ensures ByteOrZeroAt(data, ptr, n, j) == ByteOrZero(s, j)
    {}
  }

  /** `n` zero bytes. */
  function Zeros(n: nat): (z: seq<bv8>)
    ensures |z| == n && forall k :: 0 <= k < n ==> z[k] == 0
  {
    seq(n, _ => 0)
  }

  /** Byte k of `s` is byte k of `LE(s)`, and the bytes above are zero. */
  lemma LEBytes(s: seq<bv8>)
    requires |s| <= 8
    ensures Bytes(LE(s)) == s + Zeros(8 - |s|)
  {
    var b := Bytes(LE(s));
    var t := s + Zeros(8 - |s|);
    PackBytes(ByteOrZero(s, 0), ByteOrZero(s, 1), ByteOrZero(s, 2), ByteOrZero(s, 3),
              ByteOrZero(s, 4), ByteOrZero(s, 5), ByteOrZero(s, 6), ByteOrZero(s, 7));
    assert b == [ByteOrZero(s, 0), ByteOrZero(s, 1), ByteOrZero(s, 2), ByteOrZero(s, 3),
                 ByteOrZero(s, 4), ByteOrZero(s, 5), ByteOrZero(s, 6), ByteOrZero(s, 7)];
    forall k | 0 <= k < 8
      ensures b[k] == t[k]
    {
      assert b[k] == ByteOrZero(s, k);
    }
  }

  /** A full word read through `read64` is the little-endian value of its bytes. */
  lemma Read64IsLE(data: seq<bv8>, i: nat)
    requires i + 8 <= |data|
    ensures Read64(data, i) == LE(data[i..i + 8])
  {
    BytesInjective(Read64(data, i), LE(data[i..i + 8]));
  }

  /** A word is determined by its bytes. */
  lemma BytesInjective(v: bv64, w: bv64)
    requires Bytes(v) == Bytes(w)
    ensures v == w
  {
    assert ByteAt(v, 0) == ByteAt(w, 0) && ByteAt(v, 8) == ByteAt(w, 8);
    assert ByteAt(v, 16) == ByteAt(w, 16) && ByteAt(v, 24) == ByteAt(w, 24);
    assert ByteAt(v, 32) == ByteAt(w, 32) && ByteAt(v, 40) == ByteAt(w, 40);
    assert ByteAt(v, 48) == ByteAt(w, 48) && ByteAt(v, 56) == ByteAt(w, 56);
  }
}
