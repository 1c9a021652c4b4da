/** The chunking loop of the kernel driver over the AES engine. */
module AesDriver {
  import opened AesField
  import opened AesBlock
  import opened AesCore
  import opened AesModes
  import opened AesController
  import opened AesControllerProof
  import opened AesStream
  import opened AesStreamSpec
  import opened AesStreamProof
  import opened AesStreamRuns
  import opened AesStreamTheorems

  const FIFO_NBYTES := 8160

  /** Bytes in the transmit buffer as the driver allocates it: a chunk and a command word. */
  const TX_NBYTES := FIFO_NBYTES + 4

  /** Blocks in a full chunk. */
  const CHUNK := 510

  // ------------------------------------------------------------------ buffers and the bus

  /** The blocks of a buffer. */
  function BlocksOf(bytes: seq<bv8>): (bs: seq<Block>)
    requires |bytes| % 16 == 0
    ensures |bs| == |bytes| / 16
  {
    seq(|bytes| / 16, i requires 0 <= i < |bytes| / 16 => bytes[16 * i..16 * i + 16])
  }

  function Flat(bs: seq<Block>): (bytes: seq<bv8>)
    ensures |bytes| == 16 * |bs|
  {
    seq(16 * |bs|, i requires 0 <= i < 16 * |bs| => bs[i / 16][i % 16])
  }

  /** The 32-bit words that a little-endian memory puts on the bus. */
  function WordsOf(bytes: seq<bv8>): (ws: seq<Word>)
    requires |bytes| % 4 == 0
    ensures |ws| == |bytes| / 4
  {
    seq(|bytes| / 4, i requires 0 <= i < |bytes| / 4 =>
      [bytes[4 * i + 3], bytes[4 * i + 2], bytes[4 * i + 1], bytes[4 * i]])
  }

  function BytesOf(ws: seq<Word>): (bytes: seq<bv8>)
    ensures |bytes| == 4 * |ws|
  {
    seq(4 * |ws|, i requires 0 <= i < 4 * |ws| => ws[i / 4][3 - i % 4])
  }

  /** A command word in memory. */
  function CmdBytes(cmd: Word): seq<bv8> { [cmd[3], cmd[2], cmd[1], cmd[0]] }

  // ------------------------------------------------------------------ the commands

  /** The commands as the driver numbers them. */
  const ZYNQAES_ECB_EXPAND_KEY: bv32 := 0x10
  const ZYNQAES_ECB_ENCRYPT: bv32 := 0x20
  const ZYNQAES_ECB_DECRYPT: bv32 := 0x30
  const ZYNQAES_CBC_ENCRYPT: bv32 := 0x40
  const ZYNQAES_CBC_DECRYPT: bv32 := 0x41

  /** `is_cbc_op`. */
  predicate IsCbcOp(cmd: bv32) { cmd == ZYNQAES_CBC_ENCRYPT || cmd == ZYNQAES_CBC_DECRYPT }

  predicate IsEcbOp(cmd: bv32) { cmd == ZYNQAES_ECB_ENCRYPT || cmd == ZYNQAES_ECB_DECRYPT }

  /** A number in the memory of a little-endian processor. */
  function LittleEndian(n: bv32): seq<bv8> {
    [(n & 0xff) as bv8, ((n >> 8) & 0xff) as bv8, ((n >> 16) & 0xff) as bv8, ((n >> 24) & 0xff) as bv8]
  }

  /** A command as it arrives on the bus. */
  function OnBus(cmd: bv32): (w: Word)
    ensures WordsOf(LittleEndian(cmd)) == [w]
  {
    var b := LittleEndian(cmd);
    [b[3], b[2], b[1], b[0]]
  }

  /** What the hardware makes of each number. */
  lemma Decoded()
    ensures OnBus(ZYNQAES_ECB_EXPAND_KEY) == SET_KEY
    ensures OnBus(ZYNQAES_ECB_ENCRYPT) == ECB_ENCRYPT && OnBus(ZYNQAES_ECB_DECRYPT) == ECB_DECRYPT
    ensures OnBus(ZYNQAES_CBC_ENCRYPT) == CBC_ENCRYPT && OnBus(ZYNQAES_CBC_DECRYPT) == CBC_DECRYPT
  {
  }

  /** The driver and the hardware tell the kinds of commands apart in the same way. */
  lemma CommandsAgree(cmd: bv32)
    ensures IsCbcOp(cmd) <==> IsCbc(OnBus(cmd))
    ensures IsCbcOp(cmd) || IsEcbOp(cmd) <==> IsRequest(OnBus(cmd))
    ensures OnBus(cmd) == CBC_ENCRYPT <==> cmd == ZYNQAES_CBC_ENCRYPT
    ensures CmdBytes(OnBus(cmd)) == LittleEndian(cmd)
  {
  }

  /** What one transaction of the engine puts into the receive buffer for the bytes sent. */
  function Reply(ks: Keys, tx: seq<bv8>): seq<bv8>
    requires |tx| % 4 == 0 && FrameOk(WordsOf(tx))
  {
    BytesOf(Unpack(Response(JobOf(ks, WordsOf(tx)))))
  }

  lemma FlatAppend(xs: seq<Block>, ys: seq<Block>)
    ensures Flat(xs + ys) == Flat(xs) + Flat(ys)
  {
  }

  /** The words of what passes a port. */
  function WordsIn(beats: seq<Beat>): (ws: seq<Word>)
    ensures |ws| == |beats|
  {
    seq(|beats|, i requires 0 <= i < |beats| => beats[i].word)
  }

  /** A frame on the slave port, its last word flagged. */
  function BeatsOf(frame: seq<Word>): (beats: seq<Beat>)
    ensures |beats| == |frame|
  {
    seq(|frame|, i requires 0 <= i < |frame| => Beat(frame[i], i == |frame| - 1))
  }

  lemma {:induction false} NothingFlagged(frame: seq<Word>, n: nat)
    requires n < |frame|
    ensures Frames(BeatsOf(frame)[..n]) == Cut([], frame[..n])
  {
    if n > 0 {
      NothingFlagged(frame, n - 1);
      FramesAppend(BeatsOf(frame)[..n - 1], BeatsOf(frame)[n - 1]);
      assert BeatsOf(frame)[..n] == BeatsOf(frame)[..n - 1] + [BeatsOf(frame)[n - 1]];
      assert frame[..n] == frame[..n - 1] + [frame[n - 1]];
    }
  }

  lemma OneFrame(frame: seq<Word>)
    requires Complete(frame, true)
    ensures Frames(BeatsOf(frame)) == Cut([frame], [])
  {
    var n, beats := |frame| - 1, BeatsOf(frame);
    NothingFlagged(frame, n);
    FramesAppend(beats[..n], beats[n]);
    assert beats[..n] + [beats[n]] == beats && frame[..n] + [frame[n]] == frame;
  }

  lemma OneAnswer(ks: Keys, frame: seq<Word>)
    requires FrameOk(frame)
    ensures Answers(ks, [frame]) == Flagged(Response(JobOf(ks, frame)))
    ensures KeysAfterAll(ks, [frame]) == JobKeys(JobOf(ks, frame))
  {
    hide Response, JobKeys, Flagged;
    AnswersAppend(ks, [], frame);
    assert [] + [frame] == [frame];
  }

  lemma FlaggedWords(out: seq<Block>)
    ensures WordsIn(Flagged(out)) == Unpack(out)
  {
    hide Unpack;
  }

  /** One frame of whole blocks, and what it calls for. */
  lemma OneReply(ks: Keys, frame: seq<Word>)
    requires FrameOk(frame) && |frame| % 4 == 1
    ensures var cut := Frames(BeatsOf(frame));
            && cut == Cut([frame], [])
            && WordsIn(Answers(ks, cut.done)) == Unpack(Response(JobOf(ks, frame)))
            && KeysAfterAll(ks, cut.done) == JobKeys(JobOf(ks, frame))
  {
    hide Frames, Answers, KeysAfterAll, Flagged, Response, Unpack, JobKeys, BeatsOf, WordsIn;
    OneFrame(frame);
    OneAnswer(ks, frame);
    FlaggedWords(Response(JobOf(ks, frame)));
  }

  /** What the hardware does with the bytes of a frame.  In any legal run from rest that takes exactly
      these words since the last reset, the last of them flagged, and comes to rest, the bytes of the
      words given are the reply, and the stored keys are those after the command. */
  lemma HardwareReplies(s: StreamRegs, ks: Keys, ins: seq<Pins>, tx: seq<bv8>)
    requires StreamAt(s, Ready(ks)) && LegalRun(Ready(ks), ins)
    requires |tx| % 4 == 0 && |tx| / 4 % 4 == 1 && FrameOk(WordsOf(tx))
    requires RunLog(s, Log(ks, [], []), ins).taken == BeatsOf(WordsOf(tx)) && Run(s, ins).state == Idling
    ensures var log := RunLog(s, Log(ks, [], []), ins);
            && BytesOf(WordsIn(log.given)) == Reply(log.ks, tx)
            && StreamAt(Run(s, ins), Ready(JobKeys(JobOf(log.ks, WordsOf(tx)))))
  {
    hide StreamAt, LegalRun, Run, RunLog, Frames, Answers, KeysAfterAll, Response, Unpack, WordsOf, BytesOf, JobKeys;
    hide JobOf, BeatsOf, WordsIn, FrameOk;
    StreamComputesAnswers(s, ks, ins);
    OneReply(RunLog(s, Log(ks, [], []), ins).ks, WordsOf(tx));
  }

  /** The engine sees the blocks of memory with the bytes of every word turned, and turns them back. */
  lemma PackedWords(bytes: seq<bv8>)
    requires |bytes| % 16 == 0 && |bytes| % 4 == 0
    ensures Pack(WordsOf(bytes)) == Swapped(BlocksOf(bytes))
  {
    hide Column, SwapBytes, FromColumns, WordsOf;
    forall k: nat | k < |bytes| / 16
      ensures Pack(WordsOf(bytes))[k] == Swapped(BlocksOf(bytes))[k]
    {
      var b := BlocksOf(bytes)[k];
      BusWord(bytes, k, 0);
      BusWord(bytes, k, 1);
      BusWord(bytes, k, 2);
      BusWord(bytes, k, 3);
      OfColumns(SwapBytes(b));
    }
  }

  lemma BlockByte(bytes: seq<bv8>, k: nat, j: nat)
    requires |bytes| % 16 == 0 && k < |bytes| / 16 && j < 16
    ensures BlocksOf(bytes)[k][j] == bytes[16 * k + j]
  {
  }

  lemma BusWord(bytes: seq<bv8>, k: nat, c: nat)
    requires |bytes| % 16 == 0 && |bytes| % 4 == 0 && k < |bytes| / 16 && c < 4
    ensures 4 * k + c < |bytes| / 4
    ensures WordsOf(bytes)[4 * k + c] == Column(SwapBytes(BlocksOf(bytes)[k]), c)
  {
    hide Column, SwapBytes, BlocksOf;
    var b := BlocksOf(bytes)[k];
    BlockByte(bytes, k, 4 * c);
    BlockByte(bytes, k, 4 * c + 1);
    BlockByte(bytes, k, 4 * c + 2);
    BlockByte(bytes, k, 4 * c + 3);
    SwappedByte(b, c, 0);
    SwappedByte(b, c, 1);
    SwappedByte(b, c, 2);
    SwappedByte(b, c, 3);
  }

  lemma UnpackedBytes(bs: seq<Block>)
    ensures BytesOf(Unpack(Swapped(bs))) == Flat(bs)
  {
    hide BytesOf, Unpack, Swapped;
    var left := BytesOf(Unpack(Swapped(bs)));
    forall i: nat | i < 16 * |bs|
      ensures left[i] == Flat(bs)[i]
    {
      PlaceOf(i);
      UnpackedByte(bs, i / 16, i / 4 % 4, i % 4);
    }
  }

  lemma PlaceOf(i: nat)
    ensures i == 16 * (i / 16) + 4 * (i / 4 % 4) + i % 4 && i % 16 == 4 * (i / 4 % 4) + i % 4
  {
    var a, r := i / 4, i % 4;
    var q, c := a / 4, a % 4;
    assert i == 4 * a + r && a == 4 * q + c;
    assert i == 16 * q + (4 * c + r);
  }

  lemma UnpackedByte(bs: seq<Block>, q: nat, c: nat, r: nat)
    requires q < |bs| && c < 4 && r < 4
    ensures BytesOf(Unpack(Swapped(bs)))[16 * q + 4 * c + r] == bs[q][4 * c + r]
  {
    hide Column, SwapBytes;
    var i := 4 * q + c;
    assert i / 4 == q && i % 4 == c;
    assert Unpack(Swapped(bs))[i] == Column(SwapBytes(bs[q]), c);
    var n := 16 * q + 4 * c + r;
    assert n / 4 == i && n % 4 == r;
    SwappedByte(bs[q], c, r);
  }

  lemma SwappedByte(b: Block, c: nat, r: nat)
    requires c < 4 && r < 4
    ensures Column(SwapBytes(b), c)[3 - r] == b[4 * c + r]
  {
  }

  /** The driver's view of a transaction: the command on the blocks of the payload, byte for byte. */
  lemma ReplyIsResult(ks: Keys, cmd: Word, payload: seq<bv8>, tx: seq<bv8>)
    requires |payload| % 16 == 0 && IsCommand(cmd) && tx == CmdBytes(cmd) + payload
    requires (if IsCbc(cmd) then 1 else 0) < |payload| / 16 < 512
    ensures |tx| % 4 == 0 && FrameOk(WordsOf(tx))
    ensures Reply(ks, tx) == Flat(Result(cmd, ks, BlocksOf(payload)))
    ensures JobKeys(JobOf(ks, WordsOf(tx))) == KeysAfter(cmd, ks, BlocksOf(payload))
  {
    hide Result, KeysAfter, BlocksOf, Swapped, Flat, Unpack, Pack, BytesOf;
    Quarters(|payload|);
    FrameWords(cmd, payload);
    PackedWords(payload);
    var j := Job(cmd, ks, Pack(WordsOf(payload)));
    assert JobOf(ks, WordsOf(tx)) == j;
    JobInSwapped(j);
    SwappedTwice(BlocksOf(payload));
    UnpackedBytes(Result(cmd, ks, BlocksOf(payload)));
  }

  lemma Quarters(n: nat)
    requires n % 16 == 0
    ensures n % 4 == 0 && n / 4 == 4 * (n / 16)
  {
    assert n == 4 * (4 * (n / 16));
  }

  lemma FrameWords(cmd: Word, payload: seq<bv8>)
    requires |payload| % 4 == 0
    ensures WordsOf(CmdBytes(cmd) + payload) == [cmd] + WordsOf(payload)
  {
    hide CmdBytes;
    var head := CmdBytes(cmd);
    CmdWord(cmd);
    WordsAppend(head, payload, cmd);
  }

  lemma CmdWord(cmd: Word)
    ensures |CmdBytes(cmd)| == 4 && [CmdBytes(cmd)[3], CmdBytes(cmd)[2], CmdBytes(cmd)[1], CmdBytes(cmd)[0]] == cmd
  {
  }

  lemma WordsAppend(head: seq<bv8>, bytes: seq<bv8>, w: Word)
    requires |bytes| % 4 == 0 && |head| == 4 && [head[3], head[2], head[1], head[0]] == w
    ensures WordsOf(head + bytes) == [w] + WordsOf(bytes)
  {
  }

  // ------------------------------------------------------------------ chunks

  function Min(a: nat, b: nat): nat { if a < b then a else b }

  /** The loop on blocks: in CBC each chunk but the first takes as vector the last source block of the
      chunk before. */
  function Chunked(cmd: Word, ks: Keys, iv: Block, bs: seq<Block>): (r: seq<Block>)
    ensures |r| == |bs|
    decreases |bs|
  {
    if bs == [] then []
    else
      var n := Min(|bs|, CHUNK);
      Once(cmd, ks, iv, bs[..n]) + Chunked(cmd, ks, if IsCbc(cmd) then bs[n - 1] else iv, bs[n..])
  }

  /** The command on the whole request. */
  function Once(cmd: Word, ks: Keys, iv: Block, bs: seq<Block>): (r: seq<Block>)
    ensures |r| == |bs|
  {
    Result(cmd, ks, if IsCbc(cmd) then [iv] + bs else bs)
  }

  /** In ECB mode the chunks add up to the whole. */
  lemma {:induction false} ChunkedEcb(cmd: Word, ks: Keys, iv: Block, bs: seq<Block>)
    requires cmd == ECB_ENCRYPT || cmd == ECB_DECRYPT
    ensures Chunked(cmd, ks, iv, bs) == Once(cmd, ks, iv, bs)
    decreases |bs|
  {
    hide Cipher, Decipher;
    if bs != [] {
      var n := Min(|bs|, CHUNK);
      ChunkedEcb(cmd, ks, iv, bs[n..]);
      assert Once(cmd, ks, iv, bs[..n]) + Once(cmd, ks, iv, bs[n..]) == Once(cmd, ks, iv, bs);
    }
  }

  lemma OnceIsCbc(ks: Keys, iv: Block, bs: seq<Block>)
    ensures Once(CBC_ENCRYPT, ks, iv, bs) == CbcEncrypt(ks, iv, bs)
    ensures Once(CBC_DECRYPT, ks, iv, bs) == CbcDecrypt(ks, iv, bs)
  {
    hide CbcEncrypt, CbcDecrypt, EcbEncrypt, EcbDecrypt;
    assert ([iv] + bs)[1..] == bs;
  }

  lemma {:induction false} CbcDecryptSplit(ks: Keys, iv: Block, cs: seq<Block>, n: nat)
    requires 1 <= n <= |cs|
    ensures CbcDecrypt(ks, iv, cs) == CbcDecrypt(ks, iv, cs[..n]) + CbcDecrypt(ks, cs[n - 1], cs[n..])
    decreases n
  {
    hide Decipher, Xor;
    if n == 1 {
      assert cs[..1][1..] == [];
    } else {
      CbcDecryptSplit(ks, cs[0], cs[1..], n - 1);
      assert cs[1..][..n - 1] == cs[..n][1..] && cs[1..][n - 1..] == cs[n..];
    }
  }

  /** In CBC decryption, too: the vector carried over is the right one. */
  lemma {:induction false} ChunkedCbcDecrypt(ks: Keys, iv: Block, cs: seq<Block>)
    ensures Chunked(CBC_DECRYPT, ks, iv, cs) == CbcDecrypt(ks, iv, cs)
    decreases |cs|
  {
    hide CbcDecrypt;
    if cs == [] {
      OnceIsCbc(ks, iv, cs);
      NoBlocks(ks, iv);
    } else {
      var n := Min(|cs|, CHUNK);
      OnceIsCbc(ks, iv, cs[..n]);
      ChunkedCbcDecrypt(ks, cs[n - 1], cs[n..]);
      CbcDecryptSplit(ks, iv, cs, n);
    }
  }

  lemma NoBlocks(ks: Keys, iv: Block)
    ensures CbcDecrypt(ks, iv, []) == [] && CbcEncrypt(ks, iv, []) == []
  {
  }

  lemma {:induction false} CbcEncryptSplit(ks: Keys, iv: Block, ps: seq<Block>, n: nat)
    requires 1 <= n <= |ps|
    ensures var cs := CbcEncrypt(ks, iv, ps);
            cs == CbcEncrypt(ks, iv, ps[..n]) + CbcEncrypt(ks, cs[n - 1], ps[n..])
    decreases n
  {
    hide Cipher, Xor;
    var c := Cipher(Xor(ps[0], iv), ks);
    if n == 1 {
      assert ps[..1][1..] == [];
    } else {
      CbcEncryptSplit(ks, c, ps[1..], n - 1);
      assert ps[1..][..n - 1] == ps[..n][1..] && ps[1..][n - 1..] == ps[n..];
    }
  }

  /** Where CBC encryption in chunks meets a boundary, the vector it carries over is a plaintext block:
      right only if that block happens to be its own ciphertext. */
  ghost predicate SelfEncrypting(ks: Keys, iv: Block, ps: seq<Block>) {
    forall k :: CHUNK <= k < |ps| && k % CHUNK == 0 ==> ps[k - 1] == CbcEncrypt(ks, iv, ps)[k - 1]
  }

  /** The first block of a CBC encryption tells which vector was used. */
  lemma FirstBlockTells(ks: Keys, iv: Block, iv': Block, ps: seq<Block>)
    requires ps != [] && CbcEncrypt(ks, iv, ps)[0] == CbcEncrypt(ks, iv', ps)[0]
    ensures iv == iv'
  {
    hide Cipher, Decipher, Xor;
    RoundTrip(Xor(ps[0], iv), ks);
    RoundTrip(Xor(ps[0], iv'), ks);
    XorTwice(iv, ps[0]);
    XorTwice(iv', ps[0]);
  }

  lemma CbcFirst(ks: Keys, iv: Block, ps: seq<Block>)
    requires ps != []
    ensures Chunked(CBC_ENCRYPT, ks, iv, ps)[0] == CbcEncrypt(ks, iv, ps)[0]
  {
    hide CbcEncrypt, Once;
    var n := Min(|ps|, CHUNK);
    OnceIsCbc(ks, iv, ps[..n]);
    CbcEncryptSplit(ks, iv, ps, n);
  }

  /** The boundaries of a request are its first one and those of the rest. */
  lemma SelfEncryptingSplit(ks: Keys, iv: Block, ps: seq<Block>)
    requires |ps| > CHUNK
    ensures var v := CbcEncrypt(ks, iv, ps)[CHUNK - 1];
            SelfEncrypting(ks, iv, ps) <==> ps[CHUNK - 1] == v && SelfEncrypting(ks, v, ps[CHUNK..])
  {
    hide CbcEncrypt;
    var cs := CbcEncrypt(ks, iv, ps);
    var v, rest := cs[CHUNK - 1], ps[CHUNK..];
    var ds := CbcEncrypt(ks, v, rest);
    CbcEncryptSplit(ks, iv, ps, CHUNK);
    assert cs[CHUNK..] == ds && ps[CHUNK..] == rest;
    if ps[CHUNK - 1] == v && SelfEncrypting(ks, v, rest) {
      forall k | CHUNK <= k < |ps| && k % CHUNK == 0
        ensures ps[k - 1] == cs[k - 1]
      {
        if k > CHUNK {
          assert CHUNK <= k - CHUNK < |rest| && (k - CHUNK) % CHUNK == 0;
        }
      }
    }
    if SelfEncrypting(ks, iv, ps) {
      assert CHUNK % CHUNK == 0;
      forall k | CHUNK <= k < |rest| && k % CHUNK == 0
        ensures rest[k - 1] == ds[k - 1]
      {
        assert CHUNK <= k + CHUNK < |ps| && (k + CHUNK) % CHUNK == 0;
      }
    }
  }

  /** CBC encryption in chunks is CBC encryption exactly if every boundary block encrypts to itself. */
  lemma {:induction false} ChunkedCbcEncrypt(ks: Keys, iv: Block, ps: seq<Block>)
    ensures Chunked(CBC_ENCRYPT, ks, iv, ps) == CbcEncrypt(ks, iv, ps) <==> SelfEncrypting(ks, iv, ps)
    decreases |ps|
  {
    hide CbcEncrypt, Once, SelfEncrypting;
    if |ps| <= CHUNK {
      OnceIsCbc(ks, iv, ps);
      OneChunk(ks, iv, ps);
    } else {
      var cs, rest := CbcEncrypt(ks, iv, ps), ps[CHUNK..];
      var v := cs[CHUNK - 1];
      OnceIsCbc(ks, iv, ps[..CHUNK]);
      CbcEncryptSplit(ks, iv, ps, CHUNK);
      var first := CbcEncrypt(ks, iv, ps[..CHUNK]);
      SamePrefix(first, Chunked(CBC_ENCRYPT, ks, ps[CHUNK - 1], rest), CbcEncrypt(ks, v, rest));
      SelfEncryptingSplit(ks, iv, ps);
      ChunkedCbcEncrypt(ks, v, rest);
      CbcFirst(ks, ps[CHUNK - 1], rest);
      if Chunked(CBC_ENCRYPT, ks, ps[CHUNK - 1], rest) == CbcEncrypt(ks, v, rest) {
        FirstBlockTells(ks, ps[CHUNK - 1], v, rest);
      }
    }
  }

  lemma SamePrefix(a: seq<Block>, x: seq<Block>, y: seq<Block>)
    ensures a + x == a + y <==> x == y
  {
    if a + x == a + y {
      assert (a + x)[|a|..] == x && (a + y)[|a|..] == y;
    }
  }

  lemma OneChunk(ks: Keys, iv: Block, ps: seq<Block>)
    requires |ps| <= CHUNK
    ensures SelfEncrypting(ks, iv, ps)
    ensures Chunked(CBC_ENCRYPT, ks, iv, ps) == Once(CBC_ENCRYPT, ks, iv, ps)
  {
    hide CbcEncrypt, Once;
    if ps != [] {
      assert ps[..|ps|] == ps && ps[|ps|..] == [];
    }
  }

  /** A block of a CBC encryption from the one before. */
  lemma CbcLink(ks: Keys, iv: Block, ps: seq<Block>, i: nat)
    requires 1 <= i < |ps|
    ensures var cs := CbcEncrypt(ks, iv, ps); cs[i] == Cipher(Xor(ps[i], cs[i - 1]), ks)
  {
    hide Cipher, Xor;
    CbcEncryptSplit(ks, iv, ps, i);
  }

  lemma CbcPrefix(ks: Keys, iv: Block, ps: seq<Block>, qs: seq<Block>, n: nat)
    requires 1 <= n <= |ps| && n <= |qs| && ps[..n] == qs[..n]
    ensures CbcEncrypt(ks, iv, ps)[n - 1] == CbcEncrypt(ks, iv, qs)[n - 1]
  {
    hide CbcEncrypt;
    CbcEncryptSplit(ks, iv, ps, n);
    CbcEncryptSplit(ks, iv, qs, n);
  }

  /** Encryption of the same block under two vectors differs, and of two blocks under the same vector. */
  lemma CipherTells(ks: Keys, x: Block, y: Block, u: Block, v: Block)
    requires Cipher(Xor(x, u), ks) == Cipher(Xor(y, v), ks)
    ensures x == y <==> u == v
  {
    hide Cipher, Decipher, Xor;
    RoundTrip(Xor(x, u), ks);
    RoundTrip(Xor(y, v), ks);
    XorTwice(x, u);
    XorTwice(y, v);
    XorTwice(u, x);
    XorTwice(v, y);
  }

  /** Two requests that differ only in the block before the boundary block cannot both come out right:
      whatever the key and the vector, some request of every length beyond one chunk comes out wrong. */
  lemma LongRequestFails(ks: Keys, iv: Block, ps: seq<Block>, qs: seq<Block>)
    requires |ps| == |qs| > CHUNK && ps[..CHUNK - 2] == qs[..CHUNK - 2]
    requires ps[CHUNK - 2] != qs[CHUNK - 2] && ps[CHUNK - 1] == qs[CHUNK - 1]
    ensures !SelfEncrypting(ks, iv, ps) || !SelfEncrypting(ks, iv, qs)
  {
    hide CbcEncrypt, Cipher, Xor;
    var n := CHUNK;
    var cs, ds := CbcEncrypt(ks, iv, ps), CbcEncrypt(ks, iv, qs);
    CbcPrefix(ks, iv, ps, qs, n - 2);
    CbcLink(ks, iv, ps, n - 2);
    CbcLink(ks, iv, qs, n - 2);
    CbcLink(ks, iv, ps, n - 1);
    CbcLink(ks, iv, qs, n - 1);
    if cs[n - 1] == ds[n - 1] {
      CipherTells(ks, ps[n - 1], qs[n - 1], cs[n - 2], ds[n - 2]);
      CipherTells(ks, ps[n - 2], qs[n - 2], cs[n - 3], ds[n - 3]);
    }
    assert n % CHUNK == 0;
  }

  /** The driver encrypts every CBC request of `n` blocks rightly exactly if one chunk holds it, that is
      up to 8160 bytes. */
  lemma CbcEncryptBound(ks: Keys, iv: Block, n: nat)
    ensures (forall ps: seq<Block> :: |ps| == n ==> Chunked(CBC_ENCRYPT, ks, iv, ps) == CbcEncrypt(ks, iv, ps))
       <==> n <= CHUNK
  {
    hide CbcEncrypt, Once, SelfEncrypting, Chunked;
    if n <= CHUNK {
      forall ps: seq<Block> | |ps| == n
        ensures Chunked(CBC_ENCRYPT, ks, iv, ps) == CbcEncrypt(ks, iv, ps)
      {
        OneChunk(ks, iv, ps);
        OnceIsCbc(ks, iv, ps);
      }
    } else {
      var ps: seq<Block> := seq(n, _ => ZERO);
      var qs := ps[CHUNK - 2 := ONES];
      assert qs[CHUNK - 2][0] == 1 && ps[CHUNK - 2][0] == 0;
      LongRequestFails(ks, iv, ps, qs);
      ChunkedCbcEncrypt(ks, iv, ps);
      ChunkedCbcEncrypt(ks, iv, qs);
      assert |ps| == n && |qs| == n;
    }
  }

  /** What the driver encrypted in ECB mode, it decrypts, at every length. */
  lemma EcbDriverRoundTrip(ks: Keys, iv: Block, bs: seq<Block>)
    ensures Chunked(ECB_DECRYPT, ks, iv, Chunked(ECB_ENCRYPT, ks, iv, bs)) == bs
  {
    hide EcbEncrypt, EcbDecrypt, Chunked;
    ChunkedEcb(ECB_ENCRYPT, ks, iv, bs);
    ChunkedEcb(ECB_DECRYPT, ks, iv, Once(ECB_ENCRYPT, ks, iv, bs));
    EcbInverse(ks, bs);
  }

  /** In CBC mode it gets the message back exactly if the encryption was right. */
  lemma CbcDriverRoundTrip(ks: Keys, iv: Block, ps: seq<Block>)
    ensures Chunked(CBC_DECRYPT, ks, iv, Chunked(CBC_ENCRYPT, ks, iv, ps)) == ps <==> SelfEncrypting(ks, iv, ps)
  {
    hide CbcEncrypt, CbcDecrypt, Chunked, SelfEncrypting;
    var cs := Chunked(CBC_ENCRYPT, ks, iv, ps);
    ChunkedCbcEncrypt(ks, iv, ps);
    ChunkedCbcDecrypt(ks, iv, cs);
    CbcInverse(ks, iv, ps);
    CbcInverse(ks, iv, cs);
  }

  // ------------------------------------------------------------------ the loop itself

  /** The device as the driver knows it: the round keys of the last key set. */
  class Engine {
    var ks: Keys

    constructor (keys: Keys)
      ensures ks == keys
    {
      ks := keys;
    }

    /** `zynqaes_dma_op`: either the transfer fails, in its preparation, with a bus error or by timing out, and
        nothing is known of the buffer and the engine, or the engine has answered the frame as
        `HardwareReplies` says. */
    method DmaOp(tx: array<bv8>, inNbytes: nat, rx: array<bv8>, outNbytes: nat, fault: bool) returns (ok: bool)
      requires inNbytes <= tx.Length && outNbytes <= rx.Length && tx != rx
      requires inNbytes % 4 == 0 && FrameOk(WordsOf(tx[..inNbytes]))
      requires outNbytes == |Reply(ks, tx[..inNbytes])|
      modifies this, rx
      ensures ok <==> !fault
      ensures ok ==> rx[..outNbytes] == old(Reply(ks, tx[..inNbytes]))
      ensures ok ==> ks == old(JobKeys(JobOf(ks, WordsOf(tx[..inNbytes]))))
    {
      hide Reply, JobKeys, WordsOf;
      if fault {
        return false;
      }
      var reply := Reply(ks, tx[..inNbytes]);
      ks := JobKeys(JobOf(ks, WordsOf(tx[..inNbytes])));
      for i := 0 to outNbytes
        modifies rx
        invariant rx[..i] == reply[..i]
      {
        rx[i] := reply[i];
      }
      ok := true;
    }
  }

  /** `memcpy`. */
  method Copy(dst: array<bv8>, at: nat, src: array<bv8>, from: nat, n: nat)
    requires dst != src && at + n <= dst.Length && from + n <= src.Length
    modifies dst
    ensures dst[..] == old(dst[..at]) + src[from..from + n] + old(dst[at + n..])
  {
    for i := 0 to n
      invariant forall j :: at <= j < at + i ==> dst[j] == src[j - at + from]
      invariant forall j :: 0 <= j < at || at + i <= j < dst.Length ==> dst[j] == old(dst[j])
    {
      dst[at + i] := src[from + i];
    }
    assert dst[..at] == old(dst[..at]) && dst[at + n..] == old(dst[at + n..]);
    assert dst[at..at + n] == src[from..from + n];
    assert dst[..] == dst[..at] + dst[at..at + n] + dst[at + n..];
  }

  method PutCommand(tx: array<bv8>, cmd: bv32)
    requires tx.Length >= 4
    modifies tx
    ensures tx[..] == LittleEndian(cmd) + old(tx[4..])
  {
    var bytes := LittleEndian(cmd);
    tx[0], tx[1], tx[2], tx[3] := bytes[0], bytes[1], bytes[2], bytes[3];
  }

  /** The bytes of a frame. */
  function FrameBytes(cmd: bv32, iv: seq<bv8>, payload: seq<bv8>): seq<bv8> {
    LittleEndian(cmd) + (if IsCbcOp(cmd) then iv else []) + payload
  }

  /** How many bytes the frame of a chunk of `n` bytes takes. */
  function FrameLength(cmd: bv32, n: nat): nat { (if IsCbcOp(cmd) then 20 else 4) + n }

  /** The allocation leaves no room for a CBC vector beside a full chunk. */
  lemma FrameFits(cmd: bv32, iv: Block, payload: seq<bv8>)
    requires |payload| <= FIFO_NBYTES
    ensures |FrameBytes(cmd, iv, payload)| == FrameLength(cmd, |payload|)
    ensures FrameLength(cmd, |payload|) <= TX_NBYTES <==> !IsCbcOp(cmd) || |payload| <= 8144
  {
  }

  /** The outcome of putting a frame together: its length, a write past the end of the buffer, or the error
      for an unknown command. */
  datatype Framing = Framed(nbytes: nat) | Overrun | Unknown

  /** `zynqaes_ecb_set_txkbuf`. */
  method EcbSetTxKbuf(src: array<bv8>, from: nat, tx: array<bv8>, n: nat, cmd: bv32) returns (inNbytes: nat)
    requires from + n <= src.Length && tx.Length >= 4 + n && tx != src
    modifies tx
    ensures inNbytes == 4 + n && tx[..inNbytes] == LittleEndian(cmd) + src[from..from + n]
  {
    PutCommand(tx, cmd);
    Copy(tx, 4, src, from, n);
    inNbytes := 4 + n;
  }

  /** `zynqaes_cbc_set_txkbuf`. */
  method CbcSetTxKbuf(src: array<bv8>, from: nat, iv: array<bv8>, tx: array<bv8>, n: nat, cmd: bv32)
    returns (inNbytes: nat)
    requires iv.Length == 16 && from + n <= src.Length && tx.Length >= 20 + n
    requires tx != src && tx != iv
    modifies tx
    ensures inNbytes == 20 + n && tx[..inNbytes] == LittleEndian(cmd) + iv[..] + src[from..from + n]
  {
    PutCommand(tx, cmd);
    Copy(tx, 4, iv, 0, 16);
    Copy(tx, 20, src, from, n);
    inNbytes := 20 + n;
  }

  /** `zynqaes_set_txkbuf`. */
  method SetTxKbuf(src: array<bv8>, from: nat, iv: array<bv8>, tx: array<bv8>, n: nat, cmd: bv32) returns (r: Framing)
    requires iv.Length == 16 && from + n <= src.Length && tx != src && tx != iv
    modifies tx
    ensures r.Unknown? <==> !IsEcbOp(cmd) && !IsCbcOp(cmd)
    ensures r.Unknown? ==> tx[..] == old(tx[..])
    ensures r.Overrun? <==> !r.Unknown? && FrameLength(cmd, n) > tx.Length
    ensures r.Framed? ==> r.nbytes == FrameLength(cmd, n) <= tx.Length
    ensures r.Framed? ==> tx[..r.nbytes] == FrameBytes(cmd, iv[..], src[from..from + n])
  {
    hide LittleEndian;
    if !IsEcbOp(cmd) && !IsCbcOp(cmd) {
      return Unknown;
    }
    if FrameLength(cmd, n) > tx.Length {
      return Overrun;
    }
    var inNbytes;
    if IsEcbOp(cmd) {
      inNbytes := EcbSetTxKbuf(src, from, tx, n, cmd);
    } else {
      inNbytes := CbcSetTxKbuf(src, from, iv, tx, n, cmd);
    }
    r := Framed(inNbytes);
  }

  /** `zynqaes_setkey_hw`: afterwards, unless the transfer failed, the engine holds the expanded key. */
  method SetKeyHw(engine: Engine, key: array<bv8>, tx: array<bv8>, rx: array<bv8>, fault: bool) returns (ok: bool)
    requires key.Length == 16 && tx.Length >= 20 && rx.Length >= 16 && tx != rx && tx != key
    modifies engine, tx, rx
    ensures ok <==> !fault
    ensures ok ==> engine.ks == Expand(old(key[..]))
  {
    hide Reply, FrameOk, WordsOf, JobOf, JobKeys, Result, Flat, Expand, LittleEndian, OnBus;
    Decoded();
    CommandsAgree(ZYNQAES_ECB_EXPAND_KEY);
    ghost var k: Block, ks := key[..], engine.ks;
    var inNbytes := EcbSetTxKbuf(key, 0, tx, 16, ZYNQAES_ECB_EXPAND_KEY);
    ReplyIsResult(ks, SET_KEY, k, tx[..inNbytes]);
    assert k + [] == k;
    BlocksCons(k, []);
    ok := engine.DmaOp(tx, inNbytes, rx, 16, fault);
  }

  /** `zynqaes_get_rxkbuf`: the next vector is taken from the source. */
  method GetRxKbuf(src: array<bv8>, from: nat, dst: array?<bv8>, iv: array<bv8>, rx: array<bv8>, n: nat, cmd: bv32)
    requires iv.Length == 16 && (IsCbcOp(cmd) ==> 16 <= n) && from + n <= src.Length && n <= rx.Length
    requires iv != src && iv != rx
    requires dst != null ==> dst.Length == src.Length && dst != src && dst != rx && iv != dst
    modifies dst, iv
    ensures dst != null ==> dst[..] == old(dst[..from]) + rx[..n] + old(dst[from + n..])
    ensures iv[..] == if IsCbcOp(cmd) then src[from + n - 16..from + n] else old(iv[..])
  {
    if dst != null {
      Copy(dst, from, rx, 0, n);
    }
    if IsCbcOp(cmd) {
      Copy(iv, 0, src, from + (n - 16), 16);
    }
  }

  lemma BlocksCons(b: Block, bytes: seq<bv8>)
    requires |bytes| % 16 == 0
    ensures BlocksOf(b + bytes) == [b] + BlocksOf(bytes)
  {
    var left, right := BlocksOf(b + bytes), [b] + BlocksOf(bytes);
    forall i: nat | i < |right|
      ensures left[i] == right[i]
    {
      if i > 0 {
        assert (b + bytes)[16 * i..16 * i + 16] == bytes[16 * (i - 1)..16 * (i - 1) + 16];
      }
    }
  }

  lemma Slices(bytes: seq<bv8>, n: nat, lo: nat, hi: nat)
    requires lo <= hi && n <= |bytes|
    ensures hi <= n ==> bytes[..n][lo..hi] == bytes[lo..hi]
    ensures n + hi <= |bytes| ==> bytes[n..][lo..hi] == bytes[n + lo..n + hi]
  {
  }

  lemma BlocksSplit(bytes: seq<bv8>, n: nat)
    requires |bytes| % 16 == 0 && n % 16 == 0 && n <= |bytes|
    ensures BlocksOf(bytes[..n]) == BlocksOf(bytes)[..n / 16]
    ensures BlocksOf(bytes[n..]) == BlocksOf(bytes)[n / 16..]
  {
    forall i: nat | i < n / 16
      ensures BlocksOf(bytes[..n])[i] == BlocksOf(bytes)[..n / 16][i]
    {
      Slices(bytes, n, 16 * i, 16 * i + 16);
    }
    forall i: nat | i < |bytes| / 16 - n / 16
      ensures BlocksOf(bytes[n..])[i] == BlocksOf(bytes)[n / 16..][i]
    {
      Slices(bytes, n, 16 * i, 16 * i + 16);
    }
  }

  /** The payload of a frame on the bus: in CBC the vector leads. */
  function Payload(cmd: Word, iv: Block, payload: seq<bv8>): seq<bv8> {
    if IsCbc(cmd) then iv + payload else payload
  }

  lemma PayloadResult(ks: Keys, cmd: Word, iv: Block, payload: seq<bv8>)
    requires IsRequest(cmd) && |payload| % 16 == 0
    ensures |Payload(cmd, iv, payload)| % 16 == 0
    ensures BlocksOf(Payload(cmd, iv, payload)) == if IsCbc(cmd) then [iv] + BlocksOf(payload) else BlocksOf(payload)
    ensures KeysAfter(cmd, ks, BlocksOf(Payload(cmd, iv, payload))) == ks
  {
    hide BlocksOf, Expand;
    BlocksCons(iv, payload);
  }

  lemma FrameReply(ks: Keys, cmd: bv32, iv: Block, payload: seq<bv8>, tx: seq<bv8>)
    requires (IsCbcOp(cmd) || IsEcbOp(cmd)) && |payload| % 16 == 0 && 0 < |payload| <= FIFO_NBYTES
    requires tx == FrameBytes(cmd, iv, payload)
    ensures |tx| % 4 == 0 && FrameOk(WordsOf(tx))
    ensures Reply(ks, tx) == Flat(Once(OnBus(cmd), ks, iv, BlocksOf(payload)))
    ensures JobKeys(JobOf(ks, WordsOf(tx))) == ks
  {
    hide Flat, Result, WordsOf, FrameOk, Reply, JobOf, JobKeys, BlocksOf, KeysAfter, LittleEndian, OnBus, CmdBytes,
         IsCbcOp, IsEcbOp, IsRequest, IsCbc;
    CommandsAgree(cmd);
    var w := OnBus(cmd);
    var data := Payload(w, iv, payload);
    PayloadResult(ks, w, iv, payload);
    RequestIsCommand(w);
    assert tx == CmdBytes(w) + data;
    ReplyIsResult(ks, w, data, tx);
  }

  lemma RequestIsCommand(cmd: Word)
    requires IsRequest(cmd)
    ensures IsCommand(cmd)
  {
  }

  /** The vector that `zynqaes_get_rxkbuf` leaves for the next chunk. */
  function NextIv(cmd: Word, iv: Block, bytes: seq<bv8>, n: nat): Block
    requires 16 <= n <= |bytes|
  {
    if IsCbc(cmd) then bytes[n - 16..n] else iv
  }

  /** What a pass of the loop adds to what is done. */
  lemma ChunkStep(cmd: Word, ks: Keys, iv: Block, bytes: seq<bv8>, n: nat)
    requires |bytes| % 16 == 0 && bytes != [] && n == Min(|bytes|, FIFO_NBYTES)
    ensures n % 16 == 0 && n >= 16
    ensures Flat(Chunked(cmd, ks, iv, BlocksOf(bytes)))
         == Flat(Once(cmd, ks, iv, BlocksOf(bytes[..n])))
            + Flat(Chunked(cmd, ks, NextIv(cmd, iv, bytes, n), BlocksOf(bytes[n..])))
  {
    hide Flat, Once;
    var bs := BlocksOf(bytes);
    BlocksSplit(bytes, n);
    assert n / 16 == Min(|bs|, CHUNK);
    assert bs[n / 16 - 1] == bytes[n - 16..n];
    FlatAppend(Once(cmd, ks, iv, bs[..n / 16]), Chunked(cmd, ks, NextIv(cmd, iv, bytes, n), bs[n / 16..]));
  }

  /** Nothing is left to do at the end, and when the loop is right on the whole request. */
  lemma ChunkedEnds(cmd: Word, ks: Keys, iv: Block, bs: seq<Block>)
    requires IsRequest(cmd)
    ensures Flat(Chunked(cmd, ks, iv, [])) == []
    ensures cmd != CBC_ENCRYPT || |bs| <= CHUNK ==> Chunked(cmd, ks, iv, bs) == Once(cmd, ks, iv, bs)
  {
    hide Once, CbcEncrypt, CbcDecrypt;
    if cmd == CBC_DECRYPT {
      ChunkedCbcDecrypt(ks, iv, bs);
      OnceIsCbc(ks, iv, bs);
    } else if cmd == CBC_ENCRYPT {
      if |bs| <= CHUNK {
        OneChunk(ks, iv, bs);
      }
    } else {
      ChunkedEcb(cmd, ks, iv, bs);
    }
  }

  /** The buffers of a request: its data in and out, its vector, and the two that the transfers use. */
  ghost predicate Buffers(src: array<bv8>, dst: array<bv8>, iv: array<bv8>, tx: array<bv8>, rx: array<bv8>) {
    && src.Length == dst.Length && src.Length % 16 == 0 && iv.Length == 16 && rx.Length >= FIFO_NBYTES
    && src != dst && src != iv && src != tx && src != rx && dst != iv && dst != tx && dst != rx
    && iv != tx && iv != rx && tx != rx
  }

  /** How a request ends. */
  datatype Outcome = Finished | PastEnd | Failed

  lemma ChunkSize(total: nat, txI: nat, n: nat)
    requires total % 16 == 0 && txI % 16 == 0 && txI < total && n == Min(total - txI, FIFO_NBYTES)
    ensures n % 16 == 0 && 16 <= n <= FIFO_NBYTES && txI + n <= total
  {
  }

  lemma Spliced(before: seq<bv8>, piece: seq<bv8>, now: seq<bv8>, i: nat)
    requires i + |piece| <= |before| && now == before[..i] + piece + before[i + |piece|..]
    ensures now[..i + |piece|] == before[..i] + piece
  {
  }

  /** One pass: a frame out, its answer back, and the vector for the next. */
  method Pass(engine: Engine, src: array<bv8>, dst: array<bv8>, iv: array<bv8>, tx: array<bv8>, rx: array<bv8>,
              cmd: bv32, txI: nat, n: nat, fault: bool)
    returns (r: Outcome)
    requires Buffers(src, dst, iv, tx, rx) && (IsEcbOp(cmd) || IsCbcOp(cmd))
    requires txI < src.Length && txI % 16 == 0 && n == Min(src.Length - txI, FIFO_NBYTES)
    modifies engine, dst, iv, tx, rx
    ensures n % 16 == 0 && n >= 16
    ensures r.PastEnd? <==> FrameLength(cmd, n) > tx.Length
    ensures r.Failed? <==> !r.PastEnd? && fault
    ensures !r.Finished? ==> dst[..] == old(dst[..])
    ensures r.Finished? ==> engine.ks == old(engine.ks)
    ensures r.Finished? ==> iv[..] == NextIv(OnBus(cmd), old(iv[..]), src[txI..], n)
    ensures r.Finished? ==>
              dst[..txI + n]
              == old(dst[..txI]) + Flat(Once(OnBus(cmd), engine.ks, old(iv[..]), BlocksOf(src[txI..txI + n])))
  {
    hide Flat, Once, WordsOf, FrameOk, Reply, JobOf, JobKeys, FrameBytes, FrameLength, Min, BlocksOf, OnBus,
         IsEcbOp, IsCbcOp, IsCbc, IsRequest;
    CommandsAgree(cmd);
    ChunkSize(src.Length, txI, n);
    ghost var v: Block := iv[..];
    ghost var payload := src[txI..txI + n];
    var framing := SetTxKbuf(src, txI, iv, tx, n, cmd);
    if framing.Overrun? {
      return PastEnd;
    }
    FrameReply(engine.ks, cmd, v, payload, tx[..framing.nbytes]);
    var ok := engine.DmaOp(tx, framing.nbytes, rx, n, fault);
    if !ok {
      return Failed;
    }
    GetRxKbuf(src, txI, dst, iv, rx, n, cmd);
    Spliced(old(dst[..]), rx[..n], dst[..], txI);
    Slices(src[..], txI, n - 16, n);
    r := Finished;
  }

  /** What the chunks of a request add up to, by the driver's number of its command. */
  lemma RequestResult(ks: Keys, iv: Block, bs: seq<Block>)
    ensures Chunked(OnBus(ZYNQAES_ECB_ENCRYPT), ks, iv, bs) == EcbEncrypt(ks, bs)
    ensures Chunked(OnBus(ZYNQAES_ECB_DECRYPT), ks, iv, bs) == EcbDecrypt(ks, bs)
    ensures |bs| <= CHUNK ==> Chunked(OnBus(ZYNQAES_CBC_ENCRYPT), ks, iv, bs) == CbcEncrypt(ks, iv, bs)
    ensures Chunked(OnBus(ZYNQAES_CBC_DECRYPT), ks, iv, bs) == CbcDecrypt(ks, iv, bs)
  {
    hide Chunked, CbcEncrypt, CbcDecrypt, EcbEncrypt, EcbDecrypt, OnBus, SelfEncrypting;
    Decoded();
    ChunkedEcb(ECB_ENCRYPT, ks, iv, bs);
    ChunkedEcb(ECB_DECRYPT, ks, iv, bs);
    ChunkedCbcEncrypt(ks, iv, bs);
    ChunkedCbcDecrypt(ks, iv, bs);
    if |bs| <= CHUNK {
      OneChunk(ks, iv, bs);
    }
  }

  /** The blocks that the engine must give back for a frame whose first byte is `code`, the next three zero,
      and the rest `data`. */
  function Meant(code: bv8, ks: Keys, data: seq<bv8>): seq<Block>
    requires |data| % 16 == 0 && |data| >= 16
  {
    if code == 0x20 then EcbEncrypt(ks, BlocksOf(data))
    else if code == 0x30 then EcbDecrypt(ks, BlocksOf(data))
    else if code == 0x40 then CbcEncrypt(ks, data[..16], BlocksOf(data[16..]))
    else if code == 0x41 then CbcDecrypt(ks, data[..16], BlocksOf(data[16..]))
    else seq(|data| / 16, _ => ZERO)
  }

  /** The codes on the bus.  In any legal run from rest that takes exactly the bytes `code`, 0, 0, 0 and `data`
      since the last reset and comes to rest, the words given are what that code means, and the stored
      keys are as before, but with code 0x10 those of the last key. */
  lemma CodesOnBus(s: StreamRegs, ks: Keys, ins: seq<Pins>, code: bv8, data: seq<bv8>)
    requires StreamAt(s, Ready(ks)) && LegalRun(Ready(ks), ins)
    requires code == 0x10 || code == 0x20 || code == 0x30 || code == 0x40 || code == 0x41
    requires |data| % 16 == 0 && 16 <= |data| < 16 * 512 && (code >= 0x40 ==> |data| > 16)
    requires |[code, 0, 0, 0] + data| % 4 == 0
    requires RunLog(s, Log(ks, [], []), ins).taken == BeatsOf(WordsOf([code, 0, 0, 0] + data))
    requires Run(s, ins).state == Idling
    ensures var log := RunLog(s, Log(ks, [], []), ins);
            && BytesOf(WordsIn(log.given)) == Flat(Meant(code, log.ks, data))
            && StreamAt(Run(s, ins), Ready(if code == 0x10 then Expand(data[|data| - 16..]) else log.ks))
  {
    hide StreamAt, LegalRun, Run, RunLog, Meant, Result, KeysAfter, Reply, FrameOk, WordsOf, BytesOf, WordsIn, BeatsOf,
         JobOf, JobKeys, Expand, Flat, BlocksOf;
    var cmd: Word := [0, 0, 0, code];
    var tx := [code, 0, 0, 0] + data;
    var log := RunLog(s, Log(ks, [], []), ins);
    assert tx == CmdBytes(cmd) + data;
    CodeIsCommand(code);
    ReplyIsResult(log.ks, cmd, data, tx);
    WordCount(tx);
    HardwareReplies(s, ks, ins, tx);
    MeantIsResult(code, log.ks, data);
  }

  lemma WordCount(tx: seq<bv8>)
    requires |tx| >= 4 && (|tx| - 4) % 16 == 0
    ensures |tx| % 4 == 0 && |tx| / 4 % 4 == 1
  {
    FourTimes(4 * ((|tx| - 4) / 16) + 1);
  }

  lemma FourTimes(n: nat)
    ensures 4 * n % 4 == 0 && 4 * n / 4 == n
  {
  }

  lemma CodeIsCommand(code: bv8)
    requires code == 0x10 || code == 0x20 || code == 0x30 || code == 0x40 || code == 0x41
    ensures IsCommand([0, 0, 0, code])
  {
  }

  lemma CodesAreCommands(code: bv8)
    ensures [0, 0, 0, code] == SET_KEY <==> code == 0x10
    ensures [0, 0, 0, code] == ECB_ENCRYPT <==> code == 0x20
    ensures [0, 0, 0, code] == ECB_DECRYPT <==> code == 0x30
    ensures [0, 0, 0, code] == CBC_ENCRYPT <==> code == 0x40
    ensures [0, 0, 0, code] == CBC_DECRYPT <==> code == 0x41
  {
  }

  lemma MeantIsResult(code: bv8, ks: Keys, data: seq<bv8>)
    requires code == 0x10 || code == 0x20 || code == 0x30 || code == 0x40 || code == 0x41
    requires |data| % 16 == 0 && |data| >= 16
    ensures Result([0, 0, 0, code], ks, BlocksOf(data)) == Meant(code, ks, data)
    ensures KeysAfter([0, 0, 0, code], ks, BlocksOf(data)) == if code == 0x10 then Expand(data[|data| - 16..]) else ks
  {
    hide BlocksOf, EcbEncrypt, EcbDecrypt, CbcEncrypt, CbcDecrypt, Expand;
    hide SET_KEY, ECB_ENCRYPT, ECB_DECRYPT, CBC_ENCRYPT, CBC_DECRYPT;
    CodesAreCommands(code);
    VectorAndRest(data);
    LastOf(data);
  }

  lemma VectorAndRest(data: seq<bv8>)
    requires |data| % 16 == 0 && |data| >= 16
    ensures BlocksOf(data)[0] == data[..16] && BlocksOf(data)[1..] == BlocksOf(data[16..])
  {
    hide BlocksOf;
    assert data[..16] + data[16..] == data;
    BlocksCons(data[..16], data[16..]);
  }

  lemma LastOf(data: seq<bv8>)
    requires |data| % 16 == 0 && |data| > 0
    ensures BlocksOf(data)[|data| / 16 - 1] == data[|data| - 16..]
  {
    assert 16 * (|data| / 16 - 1) == |data| - 16;
  }

  /** What is done, and what is left to do with the vector `v` from byte `i` on, make up the whole. */
  ghost predicate Doing(whole: seq<bv8>, done: seq<bv8>, cmd: Word, ks: Keys, v: Block, bytes: seq<bv8>, i: nat) {
    && |bytes| % 16 == 0 && i % 16 == 0 && i == |done| && i <= |bytes|
    && whole == done + Flat(Chunked(cmd, ks, v, BlocksOf(bytes[i..])))
  }

  lemma NoneDone(cmd: Word, ks: Keys, v: Block, bytes: seq<bv8>)
    requires |bytes| % 16 == 0
    ensures Doing(Flat(Chunked(cmd, ks, v, BlocksOf(bytes))), [], cmd, ks, v, bytes, 0)
  {
    hide Flat, Chunked, BlocksOf;
    assert bytes[0..] == bytes;
  }

  lemma DoingStep(whole: seq<bv8>, done: seq<bv8>, cmd: Word, ks: Keys, v: Block, bytes: seq<bv8>, i: nat, n: nat)
    requires Doing(whole, done, cmd, ks, v, bytes, i) && i < |bytes| && n == Min(|bytes| - i, FIFO_NBYTES)
    ensures n % 16 == 0 && n >= 16
    ensures Doing(whole, done + Flat(Once(cmd, ks, v, BlocksOf(bytes[i..i + n]))), cmd, ks,
                  NextIv(cmd, v, bytes[i..], n), bytes, i + n)
  {
    hide Flat, Chunked, Once, BlocksOf, NextIv;
    var rest := bytes[i..];
    ChunkStep(cmd, ks, v, rest, n);
    assert rest[..n] == bytes[i..i + n] && rest[n..] == bytes[i + n..];
  }

  lemma DoneSoFar(whole: seq<bv8>, done: seq<bv8>, cmd: Word, ks: Keys, v: Block, bytes: seq<bv8>, i: nat)
    requires Doing(whole, done, cmd, ks, v, bytes, i)
    ensures i % 16 == 0 && i <= |whole| && done == whole[..i]
  {
    hide Flat, Chunked, BlocksOf;
  }

  lemma AllDone(whole: seq<bv8>, done: seq<bv8>, cmd: Word, ks: Keys, v: Block, bytes: seq<bv8>)
    requires IsRequest(cmd) && Doing(whole, done, cmd, ks, v, bytes, |bytes|)
    ensures done == whole
  {
    hide Flat, Chunked, IsRequest;
    ChunkedEnds(cmd, ks, v, []);
  }

  /** `zynqaes_crypto_op`: the chunks, one transaction each, of which `healthy` succeed before one fails. */
  method CryptoOp(engine: Engine, src: array<bv8>, dst: array<bv8>, iv: array<bv8>,
                  tx: array<bv8>, rx: array<bv8>, cmd: bv32, healthy: nat)
    returns (r: Outcome)
    requires Buffers(src, dst, iv, tx, rx) && (IsEcbOp(cmd) || IsCbcOp(cmd))
    modifies engine, dst, iv, tx, rx
    ensures r.PastEnd? <==> src.Length > 0 && FrameLength(cmd, Min(src.Length, FIFO_NBYTES)) > tx.Length
    ensures tx.Length == TX_NBYTES ==> (r.PastEnd? <==> IsCbcOp(cmd) && src.Length > 8144)
    ensures r.Failed? <==> !r.PastEnd? && FIFO_NBYTES * healthy < src.Length
    ensures r.Failed? ==>
              var done, ks := FIFO_NBYTES * healthy, old(engine.ks);
              dst[..done] == Flat(Chunked(OnBus(cmd), ks, old(iv[..]), BlocksOf(src[..])))[..done]
    ensures r.Finished? ==>
              && engine.ks == old(engine.ks)
              && dst[..] == Flat(Chunked(OnBus(cmd), engine.ks, old(iv[..]), BlocksOf(src[..])))
    ensures r.Finished? && (cmd != ZYNQAES_CBC_ENCRYPT || src.Length <= FIFO_NBYTES) ==>
              dst[..] == Flat(Once(OnBus(cmd), engine.ks, old(iv[..]), BlocksOf(src[..])))
  {
    hide Flat, Chunked, Once, BlocksOf, NextIv, IsRequest, FrameLength, Doing, OnBus, IsEcbOp, IsCbcOp, IsCbc;
    CommandsAgree(cmd);
    ghost var w := OnBus(cmd);
    ghost var ks, bytes := engine.ks, src[..];
    ghost var iv0: Block := iv[..];
    ghost var whole := Flat(Chunked(w, ks, iv0, BlocksOf(bytes)));
    NoneDone(w, ks, iv0, bytes);
    LongestFrame(cmd, src.Length);
    var txI: nat, nbytes: nat, done: nat := 0, src.Length, 0;
    while nbytes != 0
      invariant txI + nbytes == src.Length
      invariant done <= healthy && txI <= FIFO_NBYTES * done && (nbytes != 0 ==> txI == FIFO_NBYTES * done)
      invariant txI > 0 ==> FrameLength(cmd, Min(src.Length, FIFO_NBYTES)) <= tx.Length
      invariant engine.ks == ks && src[..] == bytes
      invariant Doing(whole, dst[..txI], w, ks, iv[..], bytes, txI)
    {
      var n := if nbytes < FIFO_NBYTES then nbytes else FIFO_NBYTES;
      ghost var v: Block, before := iv[..], dst[..txI];
      ShorterFrame(cmd, n, src.Length);
      DoneSoFar(whole, before, w, ks, v, bytes, txI);
      r := Pass(engine, src, dst, iv, tx, rx, cmd, txI, n, done == healthy);
      if !r.Finished? {
        assert dst[..txI] == before;
        return;
      }
      DoingStep(whole, before, w, ks, v, bytes, txI, n);
      txI := txI + n;
      nbytes := nbytes - n;
      done := done + 1;
    }
    assert dst[..txI] == dst[..];
    AllDone(whole, dst[..], w, ks, iv[..], bytes);
    ChunkedEnds(w, ks, iv0, BlocksOf(bytes));
    r := Finished;
  }

  /** The first chunk has the longest frame. */
  lemma LongestFrame(cmd: bv32, total: nat)
    ensures FrameLength(cmd, Min(total, FIFO_NBYTES)) > TX_NBYTES <==> IsCbcOp(cmd) && total > 8144
  {
  }

  lemma ShorterFrame(cmd: bv32, n: nat, total: nat)
    requires n <= total && n <= FIFO_NBYTES
    ensures FrameLength(cmd, n) <= FrameLength(cmd, Min(total, FIFO_NBYTES))
  {
  }
}
