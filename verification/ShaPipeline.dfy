/** The clocked modules of the SHA-256 pipeline: `W_start`, `W_middle`, `sha_round`, `sha_hash` and
    `sha_block`.  A `...Next` function is one clock edge.  A vector of words is the list of its
    words in the order in which they are numbered. */
module ShaPipeline {
  import opened Sha

  /** A counter of `sha_round` or `W_middle`: wider in the hardware, but it restarts after 15. */
  type Count = n: nat | n < 16

  type Table = k: seq<bv32> | |k| == 64 witness K

  const NOTHING := Vars(0, 0, 0, 0, 0, 0, 0, 0)

  // ------------------------------------------------------------------ sha.vh

  /** `rot_r`: the slice val[shift - 1:0], and behind it the slice val[31:shift]. */
  function HdlRotR(val: bv32, shift: nat): bv32
    requires 0 < shift < 32
  {
    (val << (32 - shift)) | (val >> shift)
  }

  function HdlCh(x: bv32, y: bv32, z: bv32): bv32 { (x & y) ^ (!x & z) }

  function HdlMaj(x: bv32, y: bv32, z: bv32): bv32 { (x & y) ^ (x & z) ^ (y & z) }

  function HdlEp0(x: bv32): bv32 { Xor3(HdlRotR(x, 2), HdlRotR(x, 13), HdlRotR(x, 22)) }

  function HdlEp1(x: bv32): bv32 { Xor3(HdlRotR(x, 6), HdlRotR(x, 11), HdlRotR(x, 25)) }

  function HdlSig0(x: bv32): bv32 { Xor3(HdlRotR(x, 7), HdlRotR(x, 18), x >> 3) }

  function HdlSig1(x: bv32): bv32 { Xor3(HdlRotR(x, 17), HdlRotR(x, 19), x >> 10) }

  /** The slices make the rotations of FIPS 180-4 section 3.2, by every amount the macros use. */
  lemma SlicesRotate(x: bv32)
    ensures HdlRotR(x, 2) == x.RotateRight(2) && HdlRotR(x, 13) == x.RotateRight(13)
    ensures HdlRotR(x, 22) == x.RotateRight(22) && HdlRotR(x, 6) == x.RotateRight(6)
    ensures HdlRotR(x, 11) == x.RotateRight(11) && HdlRotR(x, 25) == x.RotateRight(25)
    ensures HdlRotR(x, 7) == x.RotateRight(7) && HdlRotR(x, 18) == x.RotateRight(18)
    ensures HdlRotR(x, 17) == x.RotateRight(17) && HdlRotR(x, 19) == x.RotateRight(19)
  {
  }

  /** The macros are the functions of FIPS 180-4 section 4.1.2. */
  lemma MacrosAgree(x: bv32, y: bv32, z: bv32)
    ensures HdlCh(x, y, z) == Ch(x, y, z) && HdlMaj(x, y, z) == Maj(x, y, z)
    ensures HdlEp0(x) == Ep0(x) && HdlEp1(x) == Ep1(x) && HdlSig0(x) == Sig0(x) && HdlSig1(x) == Sig1(x)
  {
    hide HdlRotR, Xor3;
    SlicesRotate(x);
  }

  // ------------------------------------------------------------------ W_start.v

  datatype StartRegs = StartRegs(w: Msg, enNext: bool)

  function StartNext(r: StartRegs, reset: bool, en: bool, win: Msg): StartRegs {
    if !reset && en then StartRegs(win, true) else r.(enNext := false)
  }

  // ------------------------------------------------------------------ W_middle.v

  datatype MiddleRegs = MiddleRegs(buf: Msg, cnt: Count)

  /** The sixteen words coming in and the sixteen words of the buffer, side by side. */
  function Window(win: Msg, buf: Msg, i: nat): bv32
    requires i < 32
  {
    if i < 16 then win[i] else buf[i - 16]
  }

  /** The word assigned to the buffer. */
  function HdlExtend(w2: bv32, w7: bv32, w15: bv32, w16: bv32): bv32 {
    Add(Add(Add(HdlSig1(w2), w7), HdlSig0(w15)), w16)
  }

  lemma ExtendAgrees(w2: bv32, w7: bv32, w15: bv32, w16: bv32)
    ensures HdlExtend(w2, w7, w15, w16) == Extend(w2, w7, w15, w16)
  {
    hide HdlSig0, HdlSig1, Sig0, Sig1, Add;
    MacrosAgree(w2, 0, 0);
    MacrosAgree(w15, 0, 0);
  }

  /** There is no reset. */
  function MiddleNext(r: MiddleRegs, en: bool, win: Msg): MiddleRegs {
    if r.cnt == 0 && !en then r
    else
      var i := 16 + r.cnt;
      var w := HdlExtend(Window(win, r.buf, i - 2), Window(win, r.buf, i - 7),
                         Window(win, r.buf, i - 15), Window(win, r.buf, i - 16));
      MiddleRegs(r.buf[r.cnt := w], if r.cnt == 15 then 0 else r.cnt + 1)
  }

  // ------------------------------------------------------------------ sha_round.v

  datatype RoundRegs = RoundRegs(v: Vars, h: Vars, nonce: bv32, enNext: bool, counter: Count)

  /** What a round stage is offered by the stage before it. */
  datatype StageIn = StageIn(en: bool, v: Vars, h: Vars, nonce: bv32, w: Msg)

  /** The wires T1 and T2, and the registers they feed. */
  function HdlRound(v: Vars, k: bv32, w: bv32): Vars {
    var t1 := Add(Add(Add(Add(v.h, HdlEp1(v.e)), HdlCh(v.e, v.f, v.g)), k), w);
    var t2 := Add(HdlEp0(v.a), HdlMaj(v.a, v.b, v.c));
    var hNext, gNext, fNext, eNext := v.g, v.f, v.e, Add(v.d, t1);
    var dNext, cNext, bNext, aNext := v.c, v.b, v.a, Add(t1, t2);
    Vars(aNext, bNext, cNext, dNext, eNext, fNext, gNext, hNext)
  }

  /** The stage does the round of FIPS 180-4 section 6.2.2. */
  lemma RoundAgrees(v: Vars, k: bv32, w: bv32)
    ensures HdlRound(v, k, w) == Round(v, k, w)
  {
    hide HdlEp0, HdlEp1, HdlCh, HdlMaj, Ep0, Ep1, Ch, Maj, Add;
    MacrosAgree(v.e, v.f, v.g);
    MacrosAgree(v.a, v.b, v.c);
  }

  function RoundNext(r: RoundRegs, reset: bool, x: StageIn, k: seq<bv32>): RoundRegs
    requires |k| == 16
  {
    if reset then RoundRegs(NOTHING, NOTHING, 0, false, 0)
    else if r.counter == 0 && !x.en then r.(enNext := false)
    else
      RoundRegs(HdlRound(if r.counter == 0 then x.v else r.v, k[r.counter], x.w[r.counter]),
                if x.en then x.h else r.h, if x.en then x.nonce else r.nonce,
                r.counter == 15, if r.counter == 15 then 0 else r.counter + 1)
  }

  // ------------------------------------------------------------------ sha_hash.v

  datatype HashRegs = HashRegs(h: Vars, nonce: bv32, enO: bool)

  /** Word `i` of a 256-bit bus that carries a hash value, counted from its least significant end: the wires
      of `sha_block.v` give it to variable 7 - i. */
  function BusWord(v: Vars, i: nat): bv32
    requires i < 8
  {
    match i
    case 0 => v.h
    case 1 => v.g
    case 2 => v.f
    case 3 => v.e
    case 4 => v.d
    case 5 => v.c
    case 6 => v.b
    case 7 => v.a
  }

  /** The words of the bus, the most significant first. */
  function HashBus(v: Vars): (bus: seq<bv32>)
    ensures |bus| == 8
  {
    seq(8, i requires 0 <= i < 8 => BusWord(v, 7 - i))
  }

  /** The bus put together from its words, the least significant first. */
  function FromBus(ws: seq<bv32>): Vars
    requires |ws| == 8
  {
    Vars(ws[7], ws[6], ws[5], ws[4], ws[3], ws[2], ws[1], ws[0])
  }

  /** The eight assignments to H. */
  function FeedForward(hi: Vars, v: Vars): Vars {
    FromBus([Add(BusWord(hi, 0), v.h), Add(BusWord(hi, 1), v.g), Add(BusWord(hi, 2), v.f), Add(BusWord(hi, 3), v.e),
             Add(BusWord(hi, 4), v.d), Add(BusWord(hi, 5), v.c), Add(BusWord(hi, 6), v.b), Add(BusWord(hi, 7), v.a)])
  }

  lemma FeedForwardAgrees(hi: Vars, v: Vars)
    ensures FeedForward(hi, v) == Plus(hi, v)
  {
    hide Add;
  }

  /** The bytes of the bus are the message digest. */
  lemma BusIsDigest(v: Vars)
    ensures BytesOf(HashBus(v)) == Digest(v)
  {
    hide ByteOf;
    forall i: nat | i < 8
      ensures HashBus(v)[i] == HashWord(v, i)
    {
    }
  }

  function HashNext(r: HashRegs, reset: bool, x: RoundRegs): HashRegs {
    if reset then HashRegs(NOTHING, 0, false)
    else if x.enNext then HashRegs(FeedForward(x.h, x.v), x.nonce, true)
    else r.(enO := false)
  }

  // ------------------------------------------------------------------ sha_block.v

  datatype BlockRegs = BlockRegs(
    start: StartRegs, hDelay: Vars, nonceDelay: bv32,
    m0: MiddleRegs, m1: MiddleRegs, m2: MiddleRegs,
    r0: RoundRegs, r1: RoundRegs, r2: RoundRegs, r3: RoundRegs, hash: HashRegs)

  /** The input wires in one cycle. */
  datatype ShaIn = ShaIn(reset: bool, en: bool, nonce: bv32, m: Msg, h: Vars)

  /** Stage 0 works on the delayed inputs, the others on the registers of the stage before and the
      schedule words of the middle stage before. */
  function FirstIn(b: BlockRegs): StageIn {
    StageIn(b.start.enNext, b.hDelay, b.hDelay, b.nonceDelay, b.start.w)
  }

  function LaterIn(r: RoundRegs, m: MiddleRegs): StageIn {
    StageIn(r.enNext, r.v, r.h, r.nonce, m.buf)
  }

  function BlockNext(b: BlockRegs, x: ShaIn, k: Table): BlockRegs {
    BlockRegs(
      StartNext(b.start, x.reset, x.en, x.m), if x.en then x.h else b.hDelay, if x.en then x.nonce else b.nonceDelay,
      MiddleNext(b.m0, b.start.enNext, b.start.w),
      MiddleNext(b.m1, b.r0.enNext, b.m0.buf),
      MiddleNext(b.m2, b.r1.enNext, b.m1.buf),
      RoundNext(b.r0, x.reset, FirstIn(b), k[0..16]),
      RoundNext(b.r1, x.reset, LaterIn(b.r0, b.m0), k[16..32]),
      RoundNext(b.r2, x.reset, LaterIn(b.r1, b.m1), k[32..48]),
      RoundNext(b.r3, x.reset, LaterIn(b.r2, b.m2), k[48..64]),
      HashNext(b.hash, x.reset, b.r3))
  }

  const NO_WORDS: Msg := [0, 0, 0, 0, 0, 0, 0, 0, 0, 0, 0, 0, 0, 0, 0, 0]

  /** All registers zero. */
  const POWER_ON: BlockRegs :=
    var m := MiddleRegs(NO_WORDS, 0);
    var r := RoundRegs(NOTHING, NOTHING, 0, false, 0);
    BlockRegs(StartRegs(NO_WORDS, false), NOTHING, 0, m, m, m, r, r, r, r, HashRegs(NOTHING, 0, false))

  /** The registers after a run from power on. */
  function BlockRun(ins: seq<ShaIn>, k: Table): BlockRegs {
    if ins == [] then POWER_ON else BlockNext(BlockRun(ins[..|ins| - 1], k), ins[|ins| - 1], k)
  }
}
