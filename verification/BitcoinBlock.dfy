/** `bitcoin_block.v`: three SHA-256 blocks in a row hash a block header twice. */
module BitcoinBlock {
  import opened Sha
  import opened ShaPipeline

  /** A 256-bit vector as its eight words, the most significant first. */
  type Hash = h: seq<bv32> | |h| == 8 witness [0, 0, 0, 0, 0, 0, 0, 0]

  /** The round constants as the hardware lists them, from the last to the first, in four parts. */
  const HDL_K: seq<bv32> := HDL_48 + HDL_32 + HDL_16 + HDL_0

  const HDL_48: seq<bv32> := [
    0xC67178F2, 0xBEF9A3F7, 0xA4506CEB, 0x90BEFFFA, 0x8CC70208, 0x84C87814, 0x78A5636F, 0x748F82EE,
    0x682E6FF3, 0x5B9CCA4F, 0x4ED8AA4A, 0x391C0CB3, 0x34B0BCB5, 0x2748774C, 0x1E376C08, 0x19A4C116]
  const HDL_32: seq<bv32> := [
    0x106AA070, 0xF40E3585, 0xD6990624, 0xD192E819, 0xC76C51A3, 0xC24B8B70, 0xA81A664B, 0xA2BFE8A1,
    0x92722C85, 0x81C2C92E, 0x766A0ABB, 0x650A7354, 0x53380D13, 0x4D2C6DFC, 0x2E1B2138, 0x27B70A85]
  const HDL_16: seq<bv32> := [
    0x14292967, 0x06CA6351, 0xD5A79147, 0xC6E00BF3, 0xBF597FC7, 0xB00327C8, 0xA831C66D, 0x983E5152,
    0x76F988DA, 0x5CB0A9DC, 0x4A7484AA, 0x2DE92C6F, 0x240CA1CC, 0x0FC19DC6, 0xEFBE4786, 0xE49B69C1]
  const HDL_0: seq<bv32> := [
    0xC19BF174, 0x9BDC06A7, 0x80DEB1FE, 0x72BE5D74, 0x550C7DC3, 0x243185BE, 0x12835B01, 0xD807AA98,
    0xAB1C5ED5, 0x923F82A4, 0x59F111F1, 0x3956C25B, 0xE9B5DBA5, 0xB5C0FBCF, 0x71374491, 0x428A2F98]

  /** Word t of the constant, counted from its least significant end. */
  function HdlTable(): Table {
    seq(64, t requires 0 <= t < 64 => HDL_K[63 - t])
  }

  lemma HdlTableIsK()
    ensures HdlTable() == K
  {
    hide HDL_0, HDL_16, HDL_32, HDL_48, K_0, K_16, K_32, K_48;
    Lengths();
    forall t: nat | t < 64
      ensures HDL_K[63 - t] == K[t]
    {
      var i := t % 16;
      if t < 16 {
        SameConstants0(i);
      } else if t < 32 {
        SameConstants16(i);
      } else if t < 48 {
        SameConstants32(i);
      } else {
        SameConstants48(i);
      }
    }
  }

  lemma Lengths()
    ensures |HDL_0| == |HDL_16| == |HDL_32| == |HDL_48| == 16
    ensures |K_0| == |K_16| == |K_32| == |K_48| == 16
  {
  }

  lemma SameConstants0(t: nat)
    requires t < 16
    ensures HDL_0[15 - t] == K_0[t]
  {
  }

  lemma SameConstants16(t: nat)
    requires t < 16
    ensures HDL_16[15 - t] == K_16[t]
  {
  }

  lemma SameConstants32(t: nat)
    requires t < 16
    ensures HDL_32[15 - t] == K_32[t]
  {
  }

  lemma SameConstants48(t: nat)
    requires t < 16
    ensures HDL_48[15 - t] == K_48[t]
  {
  }

  /** `padding_512`, which follows the 16 bytes of the second block of a header, and `padding_256`. */
  const PADDING_512: seq<bv32> := [0x80000000, 0, 0, 0, 0, 0, 0, 0, 0, 0, 0, 0x280]
  const PADDING_256: seq<bv32> := [0x80000000, 0, 0, 0, 0, 0, 0, 0x100]

  /** The input wires in one cycle. */
  datatype BitIn = BitIn(
    reset: bool, start: bool, version: bv32, prev: Hash, merkle: Hash, time: bv32, nbits: bv32, nonce: bv32)

  datatype BitRegs = BitRegs(b1: BlockRegs, b2: BlockRegs, b3: BlockRegs)

  function FirstBlock(x: BitIn): Msg { [x.version] + x.prev + x.merkle[..7] }

  function SecondBlock(x: BitIn, nonce: bv32): Msg { [x.merkle[7], x.time, x.nbits, nonce] + PADDING_512 }

  function ThirdBlock(h: Vars): Msg { HashBus(h) + PADDING_256 }

  function In1(x: BitIn): ShaIn {
    ShaIn(x.reset, x.start, x.nonce, FirstBlock(x), H0)
  }

  function In2(s: BitRegs, x: BitIn): ShaIn {
    ShaIn(x.reset, s.b1.hash.enO, s.b1.hash.nonce, SecondBlock(x, s.b1.hash.nonce), s.b1.hash.h)
  }

  function In3(s: BitRegs, x: BitIn): ShaIn {
    ShaIn(x.reset, s.b2.hash.enO, s.b2.hash.nonce, ThirdBlock(s.b2.hash.h), H0)
  }

  function BitNext(s: BitRegs, x: BitIn): BitRegs {
    BitRegs(BlockNext(s.b1, In1(x), HdlTable()),
            BlockNext(s.b2, In2(s, x), HdlTable()),
            BlockNext(s.b3, In3(s, x), HdlTable()))
  }

  function BitRun(ins: seq<BitIn>): BitRegs {
    if ins == [] then BitRegs(POWER_ON, POWER_ON, POWER_ON) else BitNext(BitRun(ins[..|ins| - 1]), ins[|ins| - 1])
  }

  /** The twenty words of the header on the wires. */
  function Header(x: BitIn): (header: seq<bv32>)
    ensures |header| == 20
  {
    [x.version] + x.prev + x.merkle + [x.time, x.nbits, x.nonce]
  }

  /** The header with its last words but the nonce as another cycle shows them. */
  function HeaderOf(x: BitIn, y: BitIn): (header: seq<bv32>)
    ensures |header| == 20
  {
    [x.version] + x.prev + x.merkle[..7] + [y.merkle[7], y.time, y.nbits, x.nonce]
  }

  /** SHA-256 of SHA-256 of the bytes of a header. */
  function DoubleHash(header: seq<bv32>): seq<bv8>
    requires |header| < 0x1000_0000
  {
    Sha256(Sha256(BytesOf(header)))
  }
}
