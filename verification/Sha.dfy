/** SHA-256 as FIPS 180-4 defines it. */
module Sha {
  type Word = bv32

  /** Sixteen words of a message block, the first of them the most significant. */
  type Msg = m: seq<bv32> | |m| == 16 witness [0, 0, 0, 0, 0, 0, 0, 0, 0, 0, 0, 0, 0, 0, 0, 0]

  /** The eight working variables, and the eight words of a hash value. */
  datatype Vars = Vars(a: bv32, b: bv32, c: bv32, d: bv32, e: bv32, f: bv32, g: bv32, h: bv32)

  /** Addition modulo 2^32. */
  function Add(x: bv32, y: bv32): bv32 { x + y }

  // ------------------------------------------------------------------ section 4.1.2

  function Ch(x: bv32, y: bv32, z: bv32): bv32 { (x & y) ^ (!x & z) }

  function Maj(x: bv32, y: bv32, z: bv32): bv32 { (x & y) ^ (x & z) ^ (y & z) }

  function Xor3(x: bv32, y: bv32, z: bv32): bv32 { x ^ y ^ z }

  function Ep0(x: bv32): bv32 { Xor3(x.RotateRight(2), x.RotateRight(13), x.RotateRight(22)) }

  function Ep1(x: bv32): bv32 { Xor3(x.RotateRight(6), x.RotateRight(11), x.RotateRight(25)) }

  function Sig0(x: bv32): bv32 { Xor3(x.RotateRight(7), x.RotateRight(18), x >> 3) }

  function Sig1(x: bv32): bv32 { Xor3(x.RotateRight(17), x.RotateRight(19), x >> 10) }

  /** `Ch` takes the bits of `y` where `x` has ones and of `z` where it has zeros. */
  lemma ChChooses(x: bv32, y: bv32, z: bv32)
    ensures Ch(x, y, z) & x == y & x
    ensures Ch(x, y, z) & !x == z & !x
  {
  }

  /** `Maj` takes the bits on which two agree: of `x` where it agrees with `y`, of `z` elsewhere. */
  lemma MajAgrees(x: bv32, y: bv32, z: bv32)
    ensures Maj(x, y, z) & !(x ^ y) == x & !(x ^ y)
    ensures Maj(x, y, z) & (x ^ y) == z & (x ^ y)
  {
  }

  // ------------------------------------------------------------------ sections 4.2.2 and 5.3.3

  /** The round constants, in four parts. */
  const K: seq<bv32> := K_0 + K_16 + K_32 + K_48

  const K_0: seq<bv32> := [
    0x428a2f98, 0x71374491, 0xb5c0fbcf, 0xe9b5dba5, 0x3956c25b, 0x59f111f1, 0x923f82a4, 0xab1c5ed5,
    0xd807aa98, 0x12835b01, 0x243185be, 0x550c7dc3, 0x72be5d74, 0x80deb1fe, 0x9bdc06a7, 0xc19bf174]
  const K_16: seq<bv32> := [
    0xe49b69c1, 0xefbe4786, 0x0fc19dc6, 0x240ca1cc, 0x2de92c6f, 0x4a7484aa, 0x5cb0a9dc, 0x76f988da,
    0x983e5152, 0xa831c66d, 0xb00327c8, 0xbf597fc7, 0xc6e00bf3, 0xd5a79147, 0x06ca6351, 0x14292967]
  const K_32: seq<bv32> := [
    0x27b70a85, 0x2e1b2138, 0x4d2c6dfc, 0x53380d13, 0x650a7354, 0x766a0abb, 0x81c2c92e, 0x92722c85,
    0xa2bfe8a1, 0xa81a664b, 0xc24b8b70, 0xc76c51a3, 0xd192e819, 0xd6990624, 0xf40e3585, 0x106aa070]
  const K_48: seq<bv32> := [
    0x19a4c116, 0x1e376c08, 0x2748774c, 0x34b0bcb5, 0x391c0cb3, 0x4ed8aa4a, 0x5b9cca4f, 0x682e6ff3,
    0x748f82ee, 0x78a5636f, 0x84c87814, 0x8cc70208, 0x90befffa, 0xa4506ceb, 0xbef9a3f7, 0xc67178f2]

  const H0 := Vars(0x6a09e667, 0xbb67ae85, 0x3c6ef372, 0xa54ff53a, 0x510e527f, 0x9b05688c, 0x1f83d9ab, 0x5be0cd19)

  // ------------------------------------------------------------------ section 6.2.2

  /** A word of the message schedule from the four it depends on. */
  function Extend(w2: bv32, w7: bv32, w15: bv32, w16: bv32): bv32 {
    Add(Add(Add(Sig1(w2), w7), Sig0(w15)), w16)
  }

  /** Word `t` of the message schedule. */
  function W(m: Msg, t: nat): bv32
    requires t < 64
  {
    if t < 16 then m[t] else Extend(W(m, t - 2), W(m, t - 7), W(m, t - 15), W(m, t - 16))
  }

  function Round(v: Vars, k: bv32, w: bv32): Vars {
    var t1 := Add(Add(Add(Add(v.h, Ep1(v.e)), Ch(v.e, v.f, v.g)), k), w);
    var t2 := Add(Ep0(v.a), Maj(v.a, v.b, v.c));
    Vars(Add(t1, t2), v.a, v.b, v.c, Add(v.d, t1), v.e, v.f, v.g)
  }

  /** The working variables after `t` rounds, with the constants `k`. */
  function Rounds(k: seq<bv32>, h: Vars, m: Msg, t: nat): Vars
    requires |k| == 64 && t <= 64
  {
    if t == 0 then h else Round(Rounds(k, h, m, t - 1), k[t - 1], W(m, t - 1))
  }

  lemma ScheduleStep(m: Msg, t: nat)
    requires 16 <= t < 64
    ensures W(m, t) == Extend(W(m, t - 2), W(m, t - 7), W(m, t - 15), W(m, t - 16))
  {
    hide Extend;
  }

  lemma RoundsStep(k: seq<bv32>, h: Vars, m: Msg, t: nat)
    requires |k| == 64 && t < 64
    ensures Rounds(k, h, m, t + 1) == Round(Rounds(k, h, m, t), k[t], W(m, t))
  {
    hide Round, W;
  }

  function Plus(x: Vars, y: Vars): Vars {
    Vars(Add(x.a, y.a), Add(x.b, y.b), Add(x.c, y.c), Add(x.d, y.d),
         Add(x.e, y.e), Add(x.f, y.f), Add(x.g, y.g), Add(x.h, y.h))
  }

  /** The next intermediate hash value. */
  function Compress(k: seq<bv32>, h: Vars, m: Msg): Vars
    requires |k| == 64
  {
    Plus(h, Rounds(k, h, m, 64))
  }

  // ------------------------------------------------------------------ section 5: bytes, padding, blocks

  function WordOf(b0: bv8, b1: bv8, b2: bv8, b3: bv8): bv32 {
    ((b0 as bv32) << 24) | ((b1 as bv32) << 16) | ((b2 as bv32) << 8) | (b3 as bv32)
  }

  /** Word `i` of a buffer of bytes, most significant byte first. */
  function WordAt(bytes: seq<bv8>, i: nat): bv32
    requires 4 * i + 3 < |bytes|
  {
    WordOf(bytes[4 * i], bytes[4 * i + 1], bytes[4 * i + 2], bytes[4 * i + 3])
  }

  /** Message block `i` of a buffer. */
  function BlockAt(bytes: seq<bv8>, i: nat): (m: Msg)
    requires 64 * i + 64 <= |bytes|
  {
    seq(16, t requires 0 <= t < 16 => WordAt(bytes, 16 * i + t))
  }

  /** A number in eight bytes, most significant first. */
  function Bytes8(n: nat): (b: seq<bv8>)
    requires n < 0x1_0000_0000_0000_0000
    ensures |b| == 8
  {
    seq(8, i requires 0 <= i < 8 => Digit(n, 7 - i))
  }

  /** Digit `i` of a number in base 256. */
  function Digit(n: nat, i: nat): bv8
    decreases i
  {
    if i == 0 then (n % 256) as bv8 else Digit(n / 256, i - 1)
  }

  /** The zero bytes of section 5.1.1: the fewest that complete a block. */
  function ZeroCount(len: nat): (k: nat)
    ensures (len + 1 + k + 8) % 64 == 0 && k < 64
  {
    (119 - len % 64) % 64
  }

  function Padded(msg: seq<bv8>): (r: seq<bv8>)
    requires 8 * |msg| < 0x1_0000_0000_0000_0000
    ensures |r| % 64 == 0 && |r| > |msg| + 8
  {
    msg + [0x80] + seq(ZeroCount(|msg|), _ => 0) + Bytes8(8 * |msg|)
  }

  /** The hash value after the first `n` blocks of a padded message. */
  function HashBlocks(bytes: seq<bv8>, n: nat): Vars
    requires 64 * n <= |bytes|
  {
    if n == 0 then H0 else Compress(K, HashBlocks(bytes, n - 1), BlockAt(bytes, n - 1))
  }

  /** Word `i` of a hash value. */
  function HashWord(v: Vars, i: nat): bv32
    requires i < 8
  {
    if i == 0 then v.a else if i == 1 then v.b else if i == 2 then v.c else if i == 3 then v.d
    else if i == 4 then v.e else if i == 5 then v.f else if i == 6 then v.g else v.h
  }

  /** The message digest: the bytes of the words one after the other, the most significant first. */
  function Digest(v: Vars): (bytes: seq<bv8>)
    ensures |bytes| == 32
  {
    seq(32, n requires 0 <= n < 32 => ByteOf(HashWord(v, n / 4), n % 4))
  }

  function Sha256(msg: seq<bv8>): (digest: seq<bv8>)
    requires 8 * |msg| < 0x1_0000_0000_0000_0000
    ensures |digest| == 32
  {
    Digest(HashBlocks(Padded(msg), |Padded(msg)| / 64))
  }

  // ------------------------------------------------------------------ messages of whole words

  /** Byte `i` of a word, the most significant first. */
  function ByteOf(w: bv32, i: nat): bv8
    requires i < 4
  {
    if i == 0 then ((w >> 24) & 0xff) as bv8
    else if i == 1 then ((w >> 16) & 0xff) as bv8
    else if i == 2 then ((w >> 8) & 0xff) as bv8
    else (w & 0xff) as bv8
  }

  /** The bytes of a list of words. */
  function BytesOf(ws: seq<bv32>): (bytes: seq<bv8>)
    ensures |bytes| == 4 * |ws|
  {
    seq(4 * |ws|, i requires 0 <= i < 4 * |ws| => ByteOf(ws[i / 4], i % 4))
  }

  lemma WordOfBytes(w: bv32)
    ensures WordOf(ByteOf(w, 0), ByteOf(w, 1), ByteOf(w, 2), ByteOf(w, 3)) == w
  {
  }

  lemma WordAtBytesOf(ws: seq<bv32>, i: nat)
    requires i < |ws|
    ensures WordAt(BytesOf(ws), i) == ws[i]
  {
    hide WordOf, ByteOf;
    assert (4 * i + 1) / 4 == i && (4 * i + 2) / 4 == i && (4 * i + 3) / 4 == i;
    WordOfBytes(ws[i]);
  }
}
