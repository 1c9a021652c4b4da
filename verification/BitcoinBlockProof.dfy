/** Every nonce sent in comes out 198 cycles later with the double hash of its header. */
module BitcoinBlockProof {
  import opened Sha
  import opened ShaPipeline
  import opened ShaPipelineProof
  import opened BitcoinBlock

  // ------------------------------------------------------------------ padding

  /** A number below 2^16 has two digits. */
  lemma TwoDigits(n: nat, i: nat)
    requires n < 0x1_0000
    ensures Digit(n, i) == if i == 0 then (n % 256) as bv8 else if i == 1 then (n / 256) as bv8 else 0
  {
  }

  lemma PadBytes(i: nat)
    requires i < 4
    ensures ByteOf(0x80000000, i) == if i == 0 then 0x80 else 0
    ensures ByteOf(0, i) == 0
  {
  }

  /** The words appended to a message of `n` words: a one bit, zeros and the length. */
  ghost predicate IsPadding(pad: seq<bv32>, n: nat) {
    && 3 <= |pad| < 18 && (n + |pad|) % 16 == 0 && 32 * n < 0x1_0000
    && pad[0] == 0x80000000
    && (forall i :: 1 <= i < |pad| - 1 ==> pad[i] == 0)
    && Bytes8(32 * n) == BytesOf([0, pad[|pad| - 1]])
  }

  lemma ZeroCountUnique(len: nat, z: nat)
    requires z < 64 && (len + 1 + z + 8) % 64 == 0
    ensures ZeroCount(len) == z
  {
    var m, q := len % 64, len / 64;
    var t := (len + 9 + z) / 64;
    assert len == 64 * q + m && len + 9 + z == 64 * t;
    assert m + 9 + z == 64 * (t - q);
    assert t - q == 1 || t - q == 2;
  }

  lemma PadZeros(n: nat, p: nat)
    requires 3 <= p < 18 && (n + p) % 16 == 0
    ensures ZeroCount(4 * n) == 4 * p - 9
  {
    var z := 4 * p - 9;
    assert (4 * n + 1 + z + 8) % 64 == 4 * ((n + p) % 16);
    ZeroCountUnique(4 * n, z);
  }

  /** Byte `i` of the padding, however it is written. */
  lemma PaddingByte(ws: seq<bv32>, pad: seq<bv32>, p: seq<bv8>, i: nat)
    requires IsPadding(pad, |ws|) && p == Padded(BytesOf(ws)) && |p| == 4 * |ws| + 4 * |pad| && i < 4 * |pad|
    ensures p[4 * |ws| + i] == ByteOf(pad[i / 4], i % 4)
  {
    hide ByteOf, Digit;
    var n := |ws|;
    PadZeros(n, |pad|);
    PadBytes(i % 4);
    if i == 0 {
      assert p[4 * n] == 0x80;
    } else if i < 4 * |pad| - 8 {
      assert p[4 * n + i] == 0;
    } else {
      var d := i - (4 * |pad| - 8);
      assert p[4 * n + i] == Bytes8(32 * n)[d] == BytesOf([0, pad[|pad| - 1]])[d];
      assert i % 4 == d % 4 && i / 4 == |pad| - 2 + d / 4;
    }
  }

  /** Padding a message of whole words appends whole words. */
  lemma PaddedWords(ws: seq<bv32>, pad: seq<bv32>)
    requires IsPadding(pad, |ws|)
    ensures Padded(BytesOf(ws)) == BytesOf(ws + pad)
  {
    hide ByteOf, Digit, IsPadding;
    PaddedLength(ws, pad);
    var left, right := Padded(BytesOf(ws)), BytesOf(ws + pad);
    forall i: nat | i < |right|
      ensures left[i] == right[i]
    {
      if i < 4 * |ws| {
        assert left[i] == BytesOf(ws)[i];
      } else {
        var p := i - 4 * |ws|;
        PaddingByte(ws, pad, left, p);
        assert i / 4 == |ws| + p / 4 && i % 4 == p % 4;
      }
    }
  }

  lemma PaddedLength(ws: seq<bv32>, pad: seq<bv32>)
    requires IsPadding(pad, |ws|)
    ensures 32 * |ws| < 0x1_0000 && |Padded(BytesOf(ws))| == 4 * |ws| + 4 * |pad|
  {
    hide Digit, ByteOf;
    PadZeros(|ws|, |pad|);
  }

  lemma BlockAtBytesOf(ws: seq<bv32>, i: nat)
    requires 16 * i + 16 <= |ws|
    ensures BlockAt(BytesOf(ws), i) == ws[16 * i..16 * i + 16]
  {
    hide WordAt, BytesOf;
    forall t: nat | t < 16
      ensures BlockAt(BytesOf(ws), i)[t] == ws[16 * i..16 * i + 16][t]
    {
      WordAtBytesOf(ws, 16 * i + t);
    }
  }

  lemma PaddingsArePaddings()
    ensures IsPadding(PADDING_512, 20) && IsPadding(PADDING_256, 8)
  {
    hide Digit, ByteOf, Bytes8, BytesOf;
    LengthOf640();
    LengthOf256();
  }

  lemma LengthOf640()
    ensures Bytes8(640) == BytesOf([0, 0x280])
  {
    hide Digit, ByteOf;
    forall i: nat | i < 8
      ensures Bytes8(640)[i] == BytesOf([0, 0x280])[i]
    {
      TwoDigits(640, 7 - i);
      LengthBytes(i % 4);
    }
  }

  lemma LengthOf256()
    ensures Bytes8(256) == BytesOf([0, 0x100])
  {
    hide Digit, ByteOf;
    forall i: nat | i < 8
      ensures Bytes8(256)[i] == BytesOf([0, 0x100])[i]
    {
      TwoDigits(256, 7 - i);
      LengthBytes(i % 4);
    }
  }

  lemma LengthBytes(i: nat)
    requires i < 4
    ensures ByteOf(0x280, i) == if i == 3 then 0x80 else if i == 2 then 2 else 0
    ensures ByteOf(0x100, i) == if i == 2 then 1 else 0
    ensures ByteOf(0, i) == 0
  {
  }

  /** The words of a header that are left for its second block, padded. */
  function SecondPart(header: seq<bv32>): Msg
    requires |header| == 20
  {
    header[16..] + PADDING_512
  }

  /** The two compressions of a header of twenty words. */
  function HeaderValueOf(header: seq<bv32>): Vars
    requires |header| == 20
  {
    var h := Compress(K, H0, header[..16]);
    Compress(K, h, SecondPart(header))
  }

  /** The hash of an 80-byte header takes the two blocks that the first two stages build. */
  lemma HeaderHash(header: seq<bv32>)
    requires |header| == 20
    ensures Sha256(BytesOf(header)) == Digest(HeaderValueOf(header))
  {
    hide Compress, BytesOf, IsPadding;
    PaddingsArePaddings();
    var ws := header + PADDING_512;
    PaddedWords(header, PADDING_512);
    PaddedLength(header, PADDING_512);
    BlockAtBytesOf(ws, 0);
    BlockAtBytesOf(ws, 1);
    assert ws[0..16] == header[..16] && ws[16..32] == header[16..] + PADDING_512;
    assert HashBlocks(Padded(BytesOf(header)), 1) == Compress(K, H0, header[..16]);
  }

  /** The hash of a digest takes the one block that the third stage builds. */
  lemma HashHash(h: Vars)
    ensures Sha256(Digest(h)) == Digest(Compress(K, H0, ThirdBlock(h)))
  {
    hide Compress, BytesOf, IsPadding, Digest, HashBus;
    PaddingsArePaddings();
    BusIsDigest(h);
    var ws := HashBus(h) + PADDING_256;
    PaddedWords(HashBus(h), PADDING_256);
    PaddedLength(HashBus(h), PADDING_256);
    BlockAtBytesOf(ws, 0);
    assert ws[0..16] == ws;
    assert HashBlocks(Padded(Digest(h)), 1) == Compress(K, H0, ThirdBlock(h));
  }

  /** The third block is offered the variables in the order in which the bus carries them, from the most
      significant word on. */
  lemma ThirdBlockOrder(h: Vars)
    ensures var m := ThirdBlock(h);
            && m[0] == h.a && m[1] == h.b && m[2] == h.c && m[3] == h.d
            && m[4] == h.e && m[5] == h.f && m[6] == h.g && m[7] == h.h
  {
    hide PADDING_256;
  }

  // ------------------------------------------------------------------ the three blocks in a row

  predicate Starts(x: BitIn) { x.start && !x.reset }

  /** At least sixteen cycles between two starts, and no reset while a job is under way. */
  ghost predicate SpacedStarts(ins: seq<BitIn>) {
    && (forall i, j :: 0 <= i < j < |ins| && Starts(ins[i]) && Starts(ins[j]) ==> j - i >= 16)
    && (forall i, j :: 0 <= i < j < |ins| && Starts(ins[i]) && ins[j].reset ==> j - i >= 198)
  }

  /** What the three blocks were offered over a run. */
  function Ins1(ins: seq<BitIn>): (r: seq<ShaIn>)
    ensures |r| == |ins|
  {
    seq(|ins|, i requires 0 <= i < |ins| => In1(ins[i]))
  }

  function Ins2(ins: seq<BitIn>): (r: seq<ShaIn>)
    ensures |r| == |ins|
  {
    seq(|ins|, i requires 0 <= i < |ins| => In2(BitRun(ins[..i]), ins[i]))
  }

  function Ins3(ins: seq<BitIn>): (r: seq<ShaIn>)
    ensures |r| == |ins|
  {
    seq(|ins|, i requires 0 <= i < |ins| => In3(BitRun(ins[..i]), ins[i]))
  }

  /** A prefix of a run offers a prefix. */
  lemma InsPrefix(ins: seq<BitIn>, n: nat)
    requires n <= |ins|
    ensures Ins1(ins[..n]) == Ins1(ins)[..n]
    ensures Ins2(ins[..n]) == Ins2(ins)[..n]
    ensures Ins3(ins[..n]) == Ins3(ins)[..n]
  {
    hide In1, In2, In3, BitRun;
    forall i: nat | i < n
      ensures ins[..n][..i] == ins[..i]
    {
    }
  }

  /** Each block runs on what it was offered. */
  lemma {:induction false} BlocksRun(ins: seq<BitIn>)
    ensures BitRun(ins).b1 == BlockRun(Ins1(ins), HdlTable())
    ensures BitRun(ins).b2 == BlockRun(Ins2(ins), HdlTable())
    ensures BitRun(ins).b3 == BlockRun(Ins3(ins), HdlTable())
    decreases |ins|
  {
    hide In1, In2, In3, BlockNext, HdlTable;
    if ins != [] {
      var n := |ins| - 1;
      InsPrefix(ins, n);
      BlocksRun(ins[..n]);
    }
  }

  lemma PrefixSpaced(ins: seq<BitIn>, n: nat)
    requires n <= |ins| && SpacedStarts(ins)
    ensures SpacedStarts(ins[..n])
  {
  }

  lemma FirstSpaced(ins: seq<BitIn>)
    requires SpacedStarts(ins)
    ensures Spaced(Ins1(ins))
  {
    hide FirstBlock, BitRun;
  }

  /** The first block's result in cycle `i`. */
  lemma FirstResult(ins: seq<BitIn>, i: nat)
    requires SpacedStarts(ins) && i <= |ins|
    ensures var out := BitRun(ins[..i]).b1.hash;
            && (out.enO <==> i >= 66 && Starts(ins[i - 66]))
            && (out.enO ==> out.nonce == ins[i - 66].nonce && out.h == Compress(K, H0, FirstBlock(ins[i - 66])))
  {
    hide Compress, BitRun, BlockRun, FirstBlock, Spaced, SpacedStarts, HdlTable;
    PrefixSpaced(ins, i);
    FirstSpaced(ins[..i]);
    BlocksRun(ins[..i]);
    PipelineComputes(Ins1(ins[..i]), HdlTable());
    HdlTableIsK();
  }

  /** The second block is offered a job 66 cycles after each start. */
  lemma SecondOffered(ins: seq<BitIn>, i: nat)
    requires SpacedStarts(ins) && i < |ins|
    ensures Fires(Ins2(ins)[i]) <==> i >= 66 && Starts(ins[i - 66])
    ensures Ins2(ins)[i].reset == ins[i].reset
    ensures Fires(Ins2(ins)[i]) ==>
              && Ins2(ins)[i].nonce == ins[i - 66].nonce
              && Ins2(ins)[i].h == Compress(K, H0, FirstBlock(ins[i - 66]))
              && Ins2(ins)[i].m == SecondBlock(ins[i], ins[i - 66].nonce)
  {
    hide Compress, BitRun, FirstBlock, SecondBlock;
    FirstResult(ins, i);
  }

  lemma SecondSpaced(ins: seq<BitIn>)
    requires SpacedStarts(ins)
    ensures Spaced(Ins2(ins))
  {
    hide Compress, BitRun, FirstBlock, SecondBlock, Ins2, Fires, Starts;
    var r := Ins2(ins);
    forall i, j | 0 <= i < j < |r|
      ensures Fires(r[i]) && Fires(r[j]) ==> j - i >= 16
      ensures Fires(r[i]) && r[j].reset ==> j - i >= 66
    {
      SecondOffered(ins, i);
      SecondOffered(ins, j);
    }
  }

  /** The hash value of a header whose blocks were read in two cycles. */
  function HeaderValue(x: BitIn, y: BitIn): Vars {
    Compress(K, Compress(K, H0, FirstBlock(x)), SecondBlock(y, x.nonce))
  }

  lemma SecondResult(ins: seq<BitIn>, i: nat)
    requires SpacedStarts(ins) && i <= |ins|
    ensures var out := BitRun(ins[..i]).b2.hash;
            && (out.enO <==> i >= 132 && Starts(ins[i - 132]))
            && (out.enO ==>
                  && out.nonce == ins[i - 132].nonce
                  && out.h == HeaderValue(ins[i - 132], ins[i - 66]))
  {
    hide Compress, BitRun, BlockRun, FirstBlock, SecondBlock, Spaced, SpacedStarts, HdlTable, Ins2, Fires, Starts;
    PrefixSpaced(ins, i);
    SecondSpaced(ins[..i]);
    BlocksRun(ins[..i]);
    PipelineComputes(Ins2(ins[..i]), HdlTable());
    HdlTableIsK();
    if i >= 66 {
      SecondOffered(ins[..i], i - 66);
    }
  }

  lemma ThirdOffered(ins: seq<BitIn>, i: nat)
    requires SpacedStarts(ins) && i < |ins|
    ensures Fires(Ins3(ins)[i]) <==> i >= 132 && Starts(ins[i - 132])
    ensures Ins3(ins)[i].reset == ins[i].reset && Ins3(ins)[i].h == H0
    ensures Fires(Ins3(ins)[i]) ==>
              && Ins3(ins)[i].nonce == ins[i - 132].nonce
              && Ins3(ins)[i].m == ThirdBlock(HeaderValue(ins[i - 132], ins[i - 66]))
  {
    hide Compress, BitRun, FirstBlock, SecondBlock, ThirdBlock;
    SecondResult(ins, i);
  }

  lemma ThirdSpaced(ins: seq<BitIn>)
    requires SpacedStarts(ins)
    ensures Spaced(Ins3(ins))
  {
    hide Compress, BitRun, FirstBlock, SecondBlock, ThirdBlock, Ins3, Fires, Starts;
    var r := Ins3(ins);
    forall i, j | 0 <= i < j < |r|
      ensures Fires(r[i]) && Fires(r[j]) ==> j - i >= 16
      ensures Fires(r[i]) && r[j].reset ==> j - i >= 66
    {
      ThirdOffered(ins, i);
      ThirdOffered(ins, j);
    }
  }

  lemma ThirdResult(ins: seq<BitIn>)
    requires SpacedStarts(ins)
    ensures var t := |ins|;
            var out := BitRun(ins).b3.hash;
            && (out.enO <==> t >= 198 && Starts(ins[t - 198]))
            && (out.enO ==>
                  && out.nonce == ins[t - 198].nonce
                  && out.h == Compress(K, H0, ThirdBlock(HeaderValue(ins[t - 198], ins[t - 132]))))
  {
    hide Compress, HeaderValue, BitRun, BlockRun, FirstBlock, SecondBlock, ThirdBlock, Spaced, SpacedStarts, HdlTable,
         Ins3, Fires, Starts;
    var t := |ins|;
    ThirdSpaced(ins);
    BlocksRun(ins);
    PipelineComputes(Ins3(ins), HdlTable());
    HdlTableIsK();
    if t >= 66 {
      ThirdOffered(ins, t - 66);
    }
  }

  /** The fields that the second block reads have not changed since the start of the job. */
  predicate Stable(x: BitIn, y: BitIn) {
    x.merkle[7] == y.merkle[7] && x.time == y.time && x.nbits == y.nbits
  }

  lemma HeaderBlocks(x: BitIn, y: BitIn)
    ensures HeaderOf(x, y)[..16] == FirstBlock(x)
    ensures HeaderOf(x, y)[16..] + PADDING_512 == SecondBlock(y, x.nonce)
    ensures Stable(x, y) ==> HeaderOf(x, y) == Header(x)
  {
  }

  lemma HeaderValues(x: BitIn, y: BitIn)
    ensures HeaderValueOf(HeaderOf(x, y)) == HeaderValue(x, y)
  {
    hide Compress, FirstBlock, SecondBlock, HeaderOf;
    HeaderBlocks(x, y);
  }

  /** The miner's theorem.  However many nonces are sent in, sixteen or more cycles apart, the done signal
      shows exactly 198 cycles after each start, with the nonce of that start, and the hash is
      SHA-256 applied twice to the bytes of an 80-byte header: that of the start, with the words that the second
      block reads as they stood 66 cycles later; so that of the start itself if they were stable. */
  lemma BitcoinComputes(ins: seq<BitIn>)
    requires SpacedStarts(ins)
    ensures var t := |ins|;
            var out := BitRun(ins).b3.hash;
            && (out.enO <==> t >= 198 && Starts(ins[t - 198]))
            && (out.enO ==> out.nonce == ins[t - 198].nonce)
            && (out.enO ==> BytesOf(HashBus(out.h)) == DoubleHash(HeaderOf(ins[t - 198], ins[t - 132])))
            && (out.enO && Stable(ins[t - 198], ins[t - 132]) ==>
                  BytesOf(HashBus(out.h)) == DoubleHash(Header(ins[t - 198])))
  {
    hide Compress, BitRun, FirstBlock, SecondBlock, ThirdBlock, SpacedStarts, Header, HeaderOf, Stable, Starts,
         Sha256, BytesOf, Digest, HashBus, HeaderValue, HeaderValueOf;
    ThirdResult(ins);
    var t := |ins|;
    if t >= 198 && Starts(ins[t - 198]) {
      var header := HeaderOf(ins[t - 198], ins[t - 132]);
      HeaderBlocks(ins[t - 198], ins[t - 132]);
      HeaderHash(header);
      HeaderValues(ins[t - 198], ins[t - 132]);
      HashHash(HeaderValueOf(header));
      BusIsDigest(BitRun(ins).b3.hash.h);
    }
  }
}
