/**
 * MurmurHash3_x64_128 as written in cuda-convnet/src/common/strutil.cpp:
 * `len div 16` blocks of two little-endian 64-bit words, then the `len mod 16`
 * tail bytes gathered by a fall-through switch, then finalisation with fmix.
 * All arithmetic is on bv64, so the wrap-around of uint64_t is exact.
 */
module Murmur3 {

  type Byte = bv8

  const C1: bv64 := 0x87c37b91114253d5
  const C2: bv64 := 0x4cf5ad432745937f

  /** rotl64: rotate x left by r bits (the source only uses 0 < r < 64). */
  function Rotl64(x: bv64, r: bv8): bv64
    requires 0 < r < 64
  {
    (x << r) | (x >> (64 - r))
  }

  /** The rotations by 31 and by 33 undo each other. */
  lemma RotlInverse31(x: bv64)
    ensures Rotl64(Rotl64(x, 31), 33) == x
  {
  }

  /** fmix: the 64-bit finalisation mix; zero is a fixed point. */
  function Fmix(k: bv64): (r: bv64)
    ensures k == 0 ==> r == 0
  {
    var a := k ^ (k >> 33);
    var b := a * 0xff51afd7ed558ccd;
    var c := b ^ (b >> 33);
    var d := c * 0xc4ceb9fe1a85ec53;
    d ^ (d >> 33)
  }

  /** The low byte of a word. */
  function Low(w: bv64): Byte
  {
    (w & 0xff) as Byte
  }

  /** getblock on a little-endian machine: eight bytes, least significant first. */
  function LoadLE(bs: seq<Byte>): bv64
    requires |bs| == 8
  {
    (bs[0] as bv64) | ((bs[1] as bv64) << 8) | ((bs[2] as bv64) << 16) | ((bs[3] as bv64) << 24)
    | ((bs[4] as bv64) << 32) | ((bs[5] as bv64) << 40) | ((bs[6] as bv64) << 48) | ((bs[7] as bv64) << 56)
  }

  /** The eight bytes of a word in memory order on a little-endian machine. */
  function StoreLE(w: bv64): (bs: seq<Byte>)
    ensures |bs| == 8
  {
    [Low(w), Low(w >> 8), Low(w >> 16), Low(w >> 24), Low(w >> 32), Low(w >> 40), Low(w >> 48), Low(w >> 56)]
  }

  /** getblock(blocks, j): the j-th 64-bit word of the key. */
  function GetBlock(key: seq<Byte>, j: nat): bv64
    requires 8 * j + 8 <= |key|
  {
    LoadLE(key[8 * j..8 * j + 8])
  }

  /** Loading the bytes of a stored word gives the word back. */
  lemma LoadStore(w: bv64)
    ensures LoadLE(StoreLE(w)) == w
  {
  }

  /** Storing a loaded word gives the eight bytes back. */
  lemma StoreLoad(bs: seq<Byte>)
    requires |bs| == 8
    ensures StoreLE(LoadLE(bs)) == bs
  {
  }

  /** Up to eight tail bytes followed by zeros: the bytes the switch gathers into one word. */
  function Pad8(bs: seq<Byte>): (p: seq<Byte>)
    requires |bs| <= 8
    ensures |p| == 8
  {
    bs + seq(8 - |bs|, _ => 0)
  }

  /** One round of the body loop on the words k1, k2 of a block. */
  function MixBlock(h: (bv64, bv64), k1: bv64, k2: bv64): (bv64, bv64)
  {
    var m1 := Rotl64(k1 * C1, 31) * C2;
    var a1 := Rotl64(h.0 ^ m1, 27) + h.1;
    var h1 := a1 * 5 + 0x52dce729;
    var m2 := Rotl64(k2 * C2, 33) * C1;
    var a2 := Rotl64(h.1 ^ m2, 31) + h1;
    var h2 := a2 * 5 + 0x38495ab5;
    (h1, h2)
  }

  /** The state (h1, h2) after the first n blocks of the key. */
  function Body(key: seq<Byte>, seed: bv32, n: nat): (bv64, bv64)
    requires 16 * n <= |key|
  {
    if n == 0 then (seed as bv64, seed as bv64)
    else
      var i := n - 1;
      MixBlock(Body(key, seed, i), GetBlock(key, i * 2 + 0), GetBlock(key, i * 2 + 1))
  }

  /** The tail step: fewer than 16 bytes, mixed into h2 when more than 8, into h1 when any. */
  function MixTail(h: (bv64, bv64), tail: seq<Byte>): (bv64, bv64)
    requires |tail| < 16
  {
    var h2 := if |tail| > 8 then h.1 ^ (Rotl64(LoadLE(Pad8(tail[8..])) * C2, 33) * C1) else h.1;
    var h1 := if |tail| > 0 then h.0 ^ (Rotl64(LoadLE(Pad8(tail[..if |tail| < 8 then |tail| else 8])) * C1, 31) * C2) else h.0;
    (h1, h2)
  }

  /** Finalisation: fold in the length, cross-add, fmix both halves, cross-add. */
  function Finalize(h: (bv64, bv64), len: bv64): (bv64, bv64)
  {
    var a1 := h.0 ^ len;
    var a2 := h.1 ^ len;
    var b1 := a1 + a2;
    var b2 := a2 + b1;
    var c1 := Fmix(b1);
    var c2 := Fmix(b2);
    var d1 := c1 + c2;
    (d1, c2 + d1)
  }

  /** The C `int` length of the key, widened to the 64-bit word it is xor-ed into. */
  function LenWord(n: nat): (w: bv64)
    requires n < 0x8000_0000
  {
    n as bv64
  }

  /** The tail step and the finalisation, after the body loop produced h. */
  function Finish(key: seq<Byte>, h: (bv64, bv64)): (bv64, bv64)
    requires |key| < 0x8000_0000
  {
    Finalize(MixTail(h, key[16 * (|key| / 16)..]), LenWord(|key|))
  }

  /** MurmurHash3_x64_128 of key with seed; `len` is a C int in the source. */
  function Hash128(key: seq<Byte>, seed: bv32): (bv64, bv64)
    requires |key| < 0x8000_0000
  {
    var nblocks := |key| / 16;
    Finish(key, Body(key, seed, nblocks))
  }

  /** The empty key with seed 0 hashes to (0, 0). */
  lemma EmptyKeySeedZero()
    ensures Hash128([], 0) == (0, 0)
  {
  }

  /** The body loop of MurmurHash3 over the `len / 16` full blocks. */
  method BodyLoop(key: seq<Byte>, seed: bv32) returns (h: (bv64, bv64))
    ensures h == Body(key, seed, |key| / 16)
  {
    var nblocks := |key| / 16;
    h := (seed as bv64, seed as bv64);
    var i := 0;
    while i < nblocks
      invariant 0 <= i <= nblocks
      invariant h == Body(key, seed, i)
    {
      var k1 := GetBlock(key, i * 2 + 0);
      var k2 := GetBlock(key, i * 2 + 1);
      assert Body(key, seed, i + 1) == MixBlock(Body(key, seed, i), k1, k2);
      h := MixBlock(h, k1, k2);
      i := i + 1;
    }
  }

  /** The two hash words, computed as the source does: body loop, tail, finalisation. */
  method Hash128Words(key: seq<Byte>, seed: bv32) returns (h1: bv64, h2: bv64)
    requires |key| < 0x8000_0000
    ensures (h1, h2) == Hash128(key, seed)
  {
    var h := BodyLoop(key, seed);
    h := Finish(key, h);
    h1, h2 := h.0, h.1;
  }

  /**
   * MurmurHash3_x64_128 writing h1 and h2 into the two-word buffer `out`, the
   * `uint64_t out[2]` every caller passes.
   */
  method MurmurHash3(key: seq<Byte>, seed: bv32, out: array<bv64>)
    requires |key| < 0x8000_0000
    requires out.Length == 2
    modifies out
    ensures (out[0], out[1]) == Hash128(key, seed)
  {
    var h1, h2 := Hash128Words(key, seed);
    out[0] := h1;
    out[1] := h2;
  }
}
