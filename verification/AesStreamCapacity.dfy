/** How many blocks a frame may have.  A frame whose results do not fit the nine bits that count them, or that
    calls for no result, is answered with what the output RAM held; any other is answered rightly. */
module AesStreamCapacity {
  import opened AesField
  import opened AesBlock
  import opened AesCore
  import opened AesCoreProof
  import opened AesModes
  import opened AesController
  import opened AesControllerProof
  import opened AesStream
  import opened AesStreamSpec
  import opened AesStreamProof
  import opened AesStreamRuns
  import opened AesStreamTheorems

  // ------------------------------------------------------------------ the controller without a block to process

  /** Frames that leave the controller without a result to count: 512 blocks, whose number does not fit, or
      a CBC vector alone. */
  predicate NoCount(cmd: Word, n: nat) { n == 512 || (IsCbc(cmd) && n == 1) }

  /** Data blocks until the read pointer meets the recorded number of blocks.  With 512 blocks that is zero, and
      the 32-bit pointer of a CBC command is past it when they are first compared. */
  function Laps(cmd: Word, n: nat): nat { if IsCbc(cmd) && n == 512 then 0xffff_ffff else 0 }

  /** Cycles from the start strobe to the done strobe. */
  function EmptyCycles(cmd: Word, n: nat): nat { (if IsCbc(cmd) then 4 else 3) + 15 * Laps(cmd, n) }

  ghost predicate Ciphering(s: TopRegs, ks: Keys, cmd: Word, b: Block, a: nat) {
    if IsEncrypt(cmd) then Encrypting(s, ks, b, a) else Decrypting(s, ks, b, a)
  }

  /** The core in cycle `r` of a data block, whatever the block. */
  ghost predicate CoreIn(s: TopRegs, ks: Keys, cmd: Word, r: nat) {
    if r <= 1 then TopIdle(s, ks)
    else
      var a := r - 1;
      exists b :: Ciphering(s, ks, cmd, b, a)
  }

  /** Cycle `r` of data block `i`: one to start, fourteen to process. */
  ghost predicate InBlock(c: CtrlRegs, ks: Keys, cmd: Word, i: nat, r: nat) {
    && !c.enO && c.readPtr == (i + 1) % 0x1_0000_0000 && CoreIn(c.top, ks, cmd, r)
    && if r == 0 then c.state == Start && !c.start else c.state == Process && (c.start <==> r == 1)
  }

  /** The controller `t` cycles after a start strobe. */
  ghost predicate EmptyAt(c: CtrlRegs, ks: Keys, cmd: Word, n: nat, t: nat)
    requires 1 <= t <= EmptyCycles(cmd, n)
  {
    if t == 1 then
      c.state == InitBlockRam && !c.start && !c.outWE && !c.enO && c.readPtr == 0 && TopIdle(c.top, ks)
    else if t == EmptyCycles(cmd, n) then
      CtrlQuiet(c, ks) && c.enO && (Laps(cmd, n) == 0 ==> c.outBlkNo == 0)
    else if t == 2 then
      && !c.start && !c.outWE && !c.enO && c.readPtr == 0 && c.outBlkNo == 0 && TopIdle(c.top, ks)
      && c.state == if IsCbc(cmd) then GetIv else Start
    else
      && InBlock(c, ks, cmd, (t - 3) / 15, (t - 3) % 15)
      && (t == 3 ==> c.outBlkNo == 0 && !c.outWE)
  }

  lemma EmptyStart(c: CtrlRegs, ks: Keys, cmd: Word, n: nat, d: Block)
    requires CtrlQuiet(c, ks)
    ensures EmptyAt(CtrlNext(c, false, true, cmd, d, Low9(n)), ks, cmd, n, 1)
  {
    hide TopNext, TopIdle, TopDone, TopOut, AesIn, SwapBytes;
    IdleStep(c.top, ks, false, cmd, SwapBytes(d), AesIn(c, cmd, d));
  }

  lemma CoreInStep(s: TopRegs, ks: Keys, cmd: Word, r: nat, blk: Block, b: Block)
    requires IsCbc(cmd) && r < 15 && CoreIn(s, ks, cmd, r)
    ensures CoreIn(TopNext(s, false, r == 1, cmd, blk, b), ks, cmd, if r < 14 then r + 1 else 0)
    ensures TopDone(s) <==> r == 14
  {
    hide TopNext, TopIdle, TopDone, TopOut, Encrypting, Decrypting;
    var t := TopNext(s, false, r == 1, cmd, blk, b);
    if r <= 1 {
      IdleStep(s, ks, false, cmd, blk, b);
      if r == 1 {
        if IsEncrypt(cmd) {
          EncryptStart(s, ks, cmd, blk, b);
        } else {
          DecryptStart(s, ks, cmd, blk, b);
        }
        assert Ciphering(t, ks, cmd, b, 1);
      }
    } else {
      var a := r - 1;
      var w: Block :| Ciphering(s, ks, cmd, w, a);
      if IsEncrypt(cmd) {
        EncryptStep(s, ks, w, a, cmd, blk, b);
      } else {
        DecryptStep(s, ks, w, a, cmd, blk, b);
      }
      WithinThirteen(s, ks, cmd, w, a);
      if r < 14 {
        assert Ciphering(t, ks, cmd, w, r);
        CoreWitness(t, ks, cmd, w, r);
      }
    }
  }

  lemma CoreWitness(s: TopRegs, ks: Keys, cmd: Word, b: Block, a: nat)
    requires a >= 1 && Ciphering(s, ks, cmd, b, a)
    ensures CoreIn(s, ks, cmd, a + 1)
  {
    hide Ciphering;
  }

  lemma WithinThirteen(s: TopRegs, ks: Keys, cmd: Word, b: Block, a: nat)
    requires Ciphering(s, ks, cmd, b, a)
    ensures 1 <= a <= 13
  {
    hide CipherAt, DecipherAt, Stored;
  }

  lemma BlockStep(c: CtrlRegs, ks: Keys, cmd: Word, n: nat, d: Block, i: nat, r: nat)
    requires IsCbc(cmd) && NoCount(cmd, n) && InBlock(c, ks, cmd, i, r)
    requires i <= Laps(cmd, n) && r < 15 && (i == Laps(cmd, n) ==> r == 0)
    ensures var c' := CtrlNext(c, false, false, cmd, d, Low9(n));
            if i == Laps(cmd, n) then
              && c'.state == Waiting && !c'.start && !c'.inRE && !c'.outWE && c'.enO && CoreIn(c'.top, ks, cmd, 1)
              && c'.outBlkNo == c.outBlkNo
            else if r < 14 then InBlock(c', ks, cmd, i, r + 1)
            else InBlock(c', ks, cmd, i + 1, 0)
  {
    hide TopNext, TopDone, TopOut, AesIn, SwapBytes, CoreIn, Xor;
    CoreInStep(c.top, ks, cmd, r, SwapBytes(d), AesIn(c, cmd, d));
  }

  /** One cycle, for any command: the end comes exactly when `EmptyCycles` says. */
  lemma EmptyStep(c: CtrlRegs, ks: Keys, cmd: Word, n: nat, d: Block, t: nat)
    requires NoCount(cmd, n) && 1 <= t < EmptyCycles(cmd, n) && EmptyAt(c, ks, cmd, n, t)
    ensures EmptyAt(CtrlNext(c, false, false, cmd, d, Low9(n)), ks, cmd, n, t + 1)
    ensures !c.enO && (Laps(cmd, n) == 0 ==> !c.outWE)
  {
    hide TopNext, TopIdle, TopDone, TopOut, AesIn, SwapBytes, InBlock, CtrlNext, Low9;
    if t <= 2 {
      EmptyBegins(c, ks, cmd, n, d, t);
    } else {
      NextCycle(cmd, n, t);
      BlockStep(c, ks, cmd, n, d, (t - 3) / 15, (t - 3) % 15);
      NotDone(c, ks, cmd, n, t);
    }
  }

  lemma NextCycle(cmd: Word, n: nat, t: nat)
    requires 3 <= t < EmptyCycles(cmd, n) && IsCbc(cmd)
    ensures var i, r := (t - 3) / 15, (t - 3) % 15;
            && (t + 1 - 3) / 15 == (if r < 14 then i else i + 1)
            && (t + 1 - 3) % 15 == (if r < 14 then r + 1 else 0)
            && i <= Laps(cmd, n) && (i == Laps(cmd, n) <==> t + 1 == EmptyCycles(cmd, n))
            && (i == Laps(cmd, n) ==> r == 0)
    ensures Laps(cmd, n) == 0 ==> t == 3
  {
  }

  lemma NotDone(c: CtrlRegs, ks: Keys, cmd: Word, n: nat, t: nat)
    requires 3 <= t < EmptyCycles(cmd, n) && EmptyAt(c, ks, cmd, n, t)
    ensures !c.enO && (t == 3 ==> c.outBlkNo == 0 && !c.outWE)
    ensures (t - 3) / 15 == 0 && (t - 3) % 15 == 0 ==> TopIdle(c.top, ks)
  {
    hide Encrypting, Decrypting, TopIdle;
  }

  lemma EmptyBegins(c: CtrlRegs, ks: Keys, cmd: Word, n: nat, d: Block, t: nat)
    requires NoCount(cmd, n) && 1 <= t <= 2 && EmptyAt(c, ks, cmd, n, t)
    ensures EmptyAt(CtrlNext(c, false, false, cmd, d, Low9(n)), ks, cmd, n, t + 1)
    ensures !c.enO && !c.outWE
  {
    hide TopNext, TopIdle, TopDone, TopOut, AesIn, SwapBytes;
    IdleStep(c.top, ks, false, cmd, SwapBytes(d), AesIn(c, cmd, d));
  }

  // ------------------------------------------------------------------ one frame

  /** A frame to be sent in: the command and its blocks; and the round keys and the contents of the output
      RAM before. */
  datatype Errand = Errand(ks: Keys, cmd: Word, raw: seq<Block>, mem: Memory) {
    predicate Valid() { IsCommand(cmd) && 1 <= |raw| <= 512 }

    predicate Empty() { NoCount(cmd, |raw|) }

    function Frame(): (ws: seq<Word>)
      ensures |ws| == 1 + 4 * |raw| && ws[0] == cmd
    {
      [cmd] + Unpack(raw)
    }

    function TheJob(): (j: Job)
      requires Valid() && !Empty()
      ensures JobOk(j)
    {
      Job(cmd, ks, raw)
    }

    /** The blocks sent back. */
    function Answer(): (out: seq<Block>)
      requires Valid()
      ensures 1 <= |out| <= 512
    {
      if Empty() then mem else Response(TheJob())
    }

    /** The round keys afterwards. */
    function After(): Keys
      requires Valid()
    {
      if Empty() then ks else JobKeys(TheJob())
    }

    /** The end is not followed. */
    predicate Endless() { IsCbc(cmd) && |raw| == 512 }
  }

  /** Word `k` of the frame, flagged on the last word only; after 512 blocks the flag makes no difference. */
  predicate Expected(e: Errand, k: nat, b: Beat)
    requires k < |e.Frame()|
  {
    && b.word == e.Frame()[k]
    && (b.last ==> k + 1 == |e.Frame()|)
    && (k + 1 == |e.Frame()| && |e.raw| < 512 ==> b.last)
  }

  ghost predicate Fitting(e: Errand, taken: seq<Beat>) {
    |taken| <= |e.Frame()| && forall k: nat :: k < |taken| ==> Expected(e, k, taken[k])
  }

  /** The phases of its transaction, from rest to rest; `Again` if a second one is called for. */
  datatype TripPhase = Normal(ph: Phase) | Closing | Busy(t: nat) | Passing | Over | Again

  predicate TripOk(e: Errand, f: TripPhase)
    requires e.Valid()
  {
    match f
    case Normal(ph) => WellFormed(ph) && NormalOk(e, ph)
    case Closing => e.Empty()
    case Busy(t) => e.Empty() && 1 <= t <= EmptyCycles(e.cmd, |e.raw|)
    case Passing => e.Empty()
    case _ => true
  }

  predicate NormalOk(e: Errand, ph: Phase)
    requires e.Valid()
  {
    match ph
    case Ready(ks) => ks == e.ks
    case Receive(ks, got) => ks == e.ks && |got| < |e.Frame()| && got == e.Frame()[..|got|]
    case Launch(j) => !e.Empty() && j == e.TheJob()
    case Working(j, _) => !e.Empty() && j == e.TheJob()
    case Handover(j) => !e.Empty() && j == e.TheJob()
    case FetchFirst(ks, out) => ks == e.After() && out == e.Answer()
    case FetchSecond(ks, out) => ks == e.After() && out == e.Answer()
    case Sending(ks, out, _) => ks == e.After() && out == e.Answer()
    case Finish(ks) => ks == e.After()
  }

  /** No reset, the words of the frame and no others, and no more cycles than are followed. */
  predicate TripLegal(e: Errand, f: TripPhase, p: Pins)
    requires e.Valid() && TripOk(e, f)
  {
    && p.resetn
    && (f.Normal? && f.ph.Receive? && p.sValid ==> Expected(e, |f.ph.got|, Beat(p.sData, p.sLast)))
    && (f.Busy? && e.Endless() ==> f.t < EmptyCycles(e.cmd, |e.raw|))
    && (f.Again? ==> !p.sValid)
  }

  function TripNext(e: Errand, f: TripPhase, p: Pins): TripPhase
    requires e.Valid() && TripOk(e, f)
  {
    match f
    case Normal(ph) =>
      if ph.Receive? && p.sValid then
        if |ph.got| + 1 < |e.Frame()| then Normal(Receive(ph.ks, ph.got + [p.sData]))
        else if e.Empty() then Closing
        else Normal(Launch(e.TheJob()))
      else if ph.Finish? then Over
      else Normal(PhaseNext(ph, p))
    case Closing => Busy(1)
    case Busy(t) => if t < EmptyCycles(e.cmd, |e.raw|) then Busy(t + 1) else Passing
    case Passing => Normal(FetchFirst(e.ks, e.mem))
    case Over => if p.sValid then Again else Over
    case Again => Again
  }

  /** The slave has taken the whole frame. */
  ghost predicate SlaveFull(v: SlaveRegs, cmd: Word, n: nat) {
    v.payload && v.writesDone && v.wordCnt == 0 && v.blkCnt == 0 && v.cmd == cmd && v.total == Low9(n)
  }

  ghost predicate TripAt(s: StreamRegs, e: Errand, f: TripPhase)
    requires e.Valid() && TripOk(e, f)
  {
    && (e.Empty() && !(e.Endless() && f.Busy?) ==> s.outRam.mem == e.mem)
    && match f
       case Normal(ph) => StreamAt(s, ph)
       case Closing =>
         && s.state == WriteFifo && !s.procDone && CtrlFree(s.ctrl, e.ks) && MasterQuiet(s.master)
         && SlaveFull(s.slave, e.cmd, |e.raw|)
       case Busy(t) =>
         && s.state == ProcessStuff && !s.procDone && MasterQuiet(s.master)
         && SlaveFull(s.slave, e.cmd, |e.raw|) && !s.slave.wE && EmptyAt(s.ctrl, e.ks, e.cmd, |e.raw|, t)
       case Passing =>
         && s.state == ProcessStuff && s.procDone && MasterQuiet(s.master)
         && SlaveFull(s.slave, e.cmd, |e.raw|) && !s.slave.wE && CtrlFree(s.ctrl, e.ks) && s.ctrl.outBlkNo == 0
       case Over => StreamAt(s, Ready(e.After()))
       case Again => StreamAt(s, Receive(e.After(), []))
  }

  // ------------------------------------------------------------------ one cycle

  /** A word of the payload is shifted in; the last one closes the frame, whose blocks are counted with nine bits. */
  lemma SlaveFills(s: StreamRegs, n: nat, got: seq<Word>, p: Pins)
    requires 1 <= n <= 512 && got != [] && |got| <= 4 * n && IsCommand(got[0])
    requires s.state == WriteFifo && !s.procDone && p.resetn && p.sValid
    requires (p.sLast ==> |got| == 4 * n) && (|got| == 4 * n && n < 512 ==> p.sLast)
    requires SlaveReceiving(s.slave, s.inRam.mem, got)
    ensures |got| < 4 * n ==> SlaveReceiving(SlaveNext(s, p), StoreNext(s.slave, s.inRam.mem), got + [p.sData])
    ensures |got| == 4 * n ==> SlaveFull(SlaveNext(s, p), got[0], n)
  {
    hide SlaveNext, SlaveReceiving, StoreNext;
    WordsModulo(s.slave, s.inRam.mem, got);
    if s.slave.wordCnt < 3 {
      FillShifts(s, n, got, p);
    } else {
      FillCloses(s, n, got, p);
    }
  }

  lemma WordsModulo(v: SlaveRegs, mem: Memory, got: seq<Word>)
    requires got != [] && |got| <= 4 * 512 && SlaveReceiving(v, mem, got)
    ensures v.wordCnt == (|got| - 1) % 4 < 4
  {
    hide PackAt, Column;
  }

  lemma FillShifts(s: StreamRegs, n: nat, got: seq<Word>, p: Pins)
    requires 1 <= n <= 512 && got != [] && |got| <= 4 * n && IsCommand(got[0])
    requires s.state == WriteFifo && !s.procDone && p.resetn && p.sValid && s.slave.wordCnt < 3
    requires SlaveReceiving(s.slave, s.inRam.mem, got)
    ensures |got| < 4 * n && SlaveReceiving(SlaveNext(s, p), StoreNext(s.slave, s.inRam.mem), got + [p.sData])
  {
    hide PackAt, Column, ShiftIn, FromColumns;
    assert (got + [p.sData])[1..] == got[1..] + [p.sData];
    PackedShift(s.slave, s.inRam.mem, got[1..], p.sData);
  }

  lemma FillCloses(s: StreamRegs, n: nat, got: seq<Word>, p: Pins)
    requires 1 <= n <= 512 && got != [] && |got| <= 4 * n && IsCommand(got[0])
    requires s.state == WriteFifo && !s.procDone && p.resetn && p.sValid && s.slave.wordCnt == 3
    requires (p.sLast ==> |got| == 4 * n) && (|got| == 4 * n && n < 512 ==> p.sLast)
    requires SlaveReceiving(s.slave, s.inRam.mem, got)
    ensures |got| < 4 * n ==> SlaveReceiving(SlaveNext(s, p), StoreNext(s.slave, s.inRam.mem), got + [p.sData])
    ensures |got| == 4 * n ==> SlaveFull(SlaveNext(s, p), got[0], n)
  {
    hide PackAt, Column, ShiftIn, FromColumns;
    assert (got + [p.sData])[1..] == got[1..] + [p.sData];
    PackedClose(s.slave, s.inRam.mem, got[1..], p.sData);
  }

  lemma FillStep(s: StreamRegs, e: Errand, got: seq<Word>, p: Pins)
    requires e.Valid() && TripOk(e, Normal(Receive(e.ks, got))) && TripAt(s, e, Normal(Receive(e.ks, got)))
    requires TripLegal(e, Normal(Receive(e.ks, got)), p) && p.sValid && got != [] && e.Empty()
    ensures var f := TripNext(e, Normal(Receive(e.ks, got)), p); TripOk(e, f) && TripAt(StreamNext(s, p), e, f)
  {
    hide CtrlNext, TopIdle, SlaveNext, Packed, SlaveFull, Unpack;
    QuietStep(s.ctrl, e.ks, false, s.slave.cmd, s.inRam.out, s.slave.total);
    QuietKeepsResult(s, e.ks, p);
    NextWord(e, got, p);
    SlaveFills(s, |e.raw|, got, p);
    InRamFollowsSlave(s, p);
  }

  lemma NextWord(e: Errand, got: seq<Word>, p: Pins)
    requires e.Valid() && TripOk(e, Normal(Receive(e.ks, got)))
    requires TripLegal(e, Normal(Receive(e.ks, got)), p) && p.sValid
    ensures got + [p.sData] == e.Frame()[..|got| + 1]
    ensures got != [] ==> got[0] == e.cmd
    ensures |got| + 1 == |e.Frame()| ==> got + [p.sData] == e.Frame()
  {
    assert e.Frame()[..|got| + 1] == e.Frame()[..|got|] + [e.Frame()[|got|]];
    assert e.Frame()[..|e.Frame()|] == e.Frame();
  }

  /** A cycle that the phases of a transaction account for. */
  predicate Ordinary(e: Errand, ph: Phase, p: Pins) { !(ph.Receive? && p.sValid && ph.got != [] && e.Empty()) }

  lemma NormalStep(s: StreamRegs, e: Errand, ph: Phase, p: Pins)
    requires e.Valid() && TripOk(e, Normal(ph)) && TripAt(s, e, Normal(ph)) && TripLegal(e, Normal(ph), p)
    requires Ordinary(e, ph, p)
    ensures var f := TripNext(e, Normal(ph), p); TripOk(e, f) && TripAt(StreamNext(s, p), e, f)
  {
    hide StreamAt, StreamNext, TripLegal, TripNext, PhaseNext, NormalOk, WellFormed;
    LegalToo(e, ph, p);
    StreamStep(s, ph, p);
    if e.Empty() {
      OutRamKept(s, e, ph, p);
    }
  }

  lemma LegalToo(e: Errand, ph: Phase, p: Pins)
    requires e.Valid() && TripOk(e, Normal(ph)) && TripLegal(e, Normal(ph), p) && Ordinary(e, ph, p)
    ensures Legal(ph, p) && p.resetn && WellFormed(PhaseNext(ph, p))
    ensures var f, ph' := TripNext(e, Normal(ph), p), PhaseNext(ph, p);
            TripOk(e, f) && (f == Normal(ph') || (f == Over && ph' == Ready(e.After())))
  {
    hide Unpack, Response, JobKeys;
    if ph.Receive? && p.sValid {
      NextWord(e, ph.got, p);
      if !e.Empty() {
        WholeFrame(e);
      }
    }
  }

  /** The whole frame is the job. */
  lemma WholeFrame(e: Errand)
    requires e.Valid() && !e.Empty()
    ensures JobOf(e.ks, e.Frame()) == e.TheJob()
  {
    hide Unpack, Pack;
    UnpackPack(e.raw);
    assert e.Frame()[1..] == Unpack(e.raw);
  }

  /** Outside the work of the controller the output RAM keeps its contents. */
  lemma OutRamKept(s: StreamRegs, e: Errand, ph: Phase, p: Pins)
    requires e.Valid() && e.Empty() && TripOk(e, Normal(ph)) && StreamAt(s, ph) && p.resetn
    ensures StreamNext(s, p).outRam.mem == s.outRam.mem
  {
    hide TopNext, TopIdle, SlaveReceiving;
  }

  lemma ClosingStep(s: StreamRegs, e: Errand, p: Pins)
    requires e.Valid() && TripOk(e, Closing) && TripAt(s, e, Closing) && p.resetn
    ensures TripOk(e, Busy(1)) && TripAt(StreamNext(s, p), e, Busy(1))
  {
    hide CtrlNext, EmptyAt, TopIdle;
    EmptyStart(s.ctrl, e.ks, e.cmd, |e.raw|, s.inRam.out);
  }

  lemma BusyStep(s: StreamRegs, e: Errand, t: nat, p: Pins)
    requires e.Valid() && TripOk(e, Busy(t)) && TripAt(s, e, Busy(t)) && p.resetn
    requires t < EmptyCycles(e.cmd, |e.raw|)
    ensures TripAt(StreamNext(s, p), e, Busy(t + 1))
  {
    hide CtrlNext, EmptyAt, Low9;
    EmptyStep(s.ctrl, e.ks, e.cmd, |e.raw|, s.inRam.out, t);
  }

  lemma DoneBusyStep(s: StreamRegs, e: Errand, p: Pins)
    requires e.Valid() && !e.Endless() && p.resetn
    requires TripOk(e, Busy(EmptyCycles(e.cmd, |e.raw|))) && TripAt(s, e, Busy(EmptyCycles(e.cmd, |e.raw|)))
    ensures TripAt(StreamNext(s, p), e, Passing)
  {
    hide CtrlNext, CtrlQuiet;
    QuietStep(s.ctrl, e.ks, false, s.slave.cmd, s.inRam.out, s.slave.total);
    QuietKeepsResult(s, e.ks, p);
  }

  lemma PassingStep(s: StreamRegs, e: Errand, p: Pins)
    requires e.Valid() && TripOk(e, Passing) && TripAt(s, e, Passing) && p.resetn
    ensures var f := Normal(FetchFirst(e.ks, e.mem)); TripOk(e, f) && TripAt(StreamNext(s, p), e, f)
  {
    hide CtrlNext, CtrlQuiet;
    QuietStep(s.ctrl, e.ks, false, s.slave.cmd, s.inRam.out, s.slave.total);
    QuietKeepsResult(s, e.ks, p);
  }

  lemma RestStep(s: StreamRegs, e: Errand, f: TripPhase, p: Pins)
    requires e.Valid() && (f.Over? || f.Again?) && TripAt(s, e, f) && TripLegal(e, f, p)
    ensures TripAt(StreamNext(s, p), e, if f.Over? && !p.sValid then Over else Again)
  {
    hide StreamAt, StreamNext;
    var ph := if f.Over? then Ready(e.After()) else Receive(e.After(), []);
    StreamStep(s, ph, p);
    RestKeeps(s, ph, p);
  }

  lemma RestKeeps(s: StreamRegs, ph: Phase, p: Pins)
    requires (ph.Ready? || (ph.Receive? && ph.got == [])) && StreamAt(s, ph) && p.resetn
    ensures StreamNext(s, p).outRam.mem == s.outRam.mem
  {
    hide TopNext, TopIdle;
  }

  lemma TripStep(s: StreamRegs, e: Errand, f: TripPhase, p: Pins)
    requires e.Valid() && TripOk(e, f) && TripAt(s, e, f) && TripLegal(e, f, p)
    ensures TripOk(e, TripNext(e, f, p)) && TripAt(StreamNext(s, p), e, TripNext(e, f, p))
  {
    hide StreamAt, StreamNext, EmptyAt, SlaveFull, Expected;
    match f {
      case Normal(ph) =>
        if Ordinary(e, ph, p) {
          NormalStep(s, e, ph, p);
        } else {
          FillStep(s, e, ph.got, p);
        }
      case Closing => ClosingStep(s, e, p);
      case Busy(t) =>
        if t < EmptyCycles(e.cmd, |e.raw|) {
          BusyStep(s, e, t, p);
        } else {
          DoneBusyStep(s, e, p);
        }
      case Passing => PassingStep(s, e, p);
      case _ => RestStep(s, e, f, p);
    }
  }

  // ------------------------------------------------------------------ whole runs

  ghost predicate TripRun(e: Errand, f: TripPhase, ins: seq<Pins>)
    requires e.Valid() && TripOk(e, f)
    decreases |ins|
  {
    ins == [] ||
    (TripLegal(e, f, ins[0]) && TripOk(e, TripNext(e, f, ins[0])) && TripRun(e, TripNext(e, f, ins[0]), ins[1..]))
  }

  function TripAfter(e: Errand, f: TripPhase, ins: seq<Pins>): (r: TripPhase)
    requires e.Valid() && TripOk(e, f) && TripRun(e, f, ins)
    ensures TripOk(e, r)
    decreases |ins|
  {
    if ins == [] then f else TripAfter(e, TripNext(e, f, ins[0]), ins[1..])
  }

  /** All words of the frame have been taken. */
  ghost predicate Whole(e: Errand, taken: seq<Beat>) { |taken| == |e.Frame()| && Fitting(e, taken) }

  /** What has passed the ports in a phase. */
  ghost predicate Passed(e: Errand, f: TripPhase, taken: seq<Beat>, given: seq<Beat>)
    requires e.Valid() && TripOk(e, f)
  {
    match f
    case Normal(ph) =>
      (match ph
       case Ready(_) => taken == [] && given == []
       case Receive(_, got) => |taken| == |got| && Fitting(e, taken) && given == []
       case Sending(_, _, sent) => Whole(e, taken) && given == Flagged(e.Answer())[..sent]
       case Finish(_) => Whole(e, taken) && given == Flagged(e.Answer())
       case _ => Whole(e, taken) && given == [])
    case Over => Whole(e, taken) && given == Flagged(e.Answer())
    case Again => Whole(e, taken) && given == Flagged(e.Answer())
    case _ => Whole(e, taken) && given == []
  }

  predicate Receiving(f: TripPhase) { f.Again? || (f.Normal? && f.ph.Receive?) }

  /** What the ports take and give in a phase. */
  function TripTaken(f: TripPhase, p: Pins): seq<Beat> {
    if Receiving(f) && p.sValid then [Beat(p.sData, p.sLast)] else []
  }

  function TripGiven(e: Errand, f: TripPhase, p: Pins): seq<Beat>
    requires e.Valid() && TripOk(e, f)
  {
    if f.Normal? && f.ph.Sending? && p.mReady then [Flagged(e.Answer())[f.ph.sent]] else []
  }

  lemma TripPorts(s: StreamRegs, e: Errand, f: TripPhase, p: Pins)
    requires e.Valid() && TripOk(e, f) && TripAt(s, e, f) && p.resetn
    ensures Taken(s, p) == TripTaken(f, p) && Given(s, p) == TripGiven(e, f, p)
    ensures s.state == Idling <==> f.Over? || (f.Normal? && f.ph.Ready?)
  {
    hide StreamAt, Unpack, EmptyAt, SlaveReady, MasterValid, MasterData, MasterLast, CtrlFree, MasterQuiet, Response,
         JobKeys;
    match f {
      case Normal(ph) => Outputs(s, ph); AtRest(s, ph);
      case Over => Outputs(s, Ready(e.After())); AtRest(s, Ready(e.After()));
      case Again => Outputs(s, Receive(e.After(), [])); AtRest(s, Receive(e.After(), []));
      case _ => Silent(s, e, f);
    }
  }

  lemma Silent(s: StreamRegs, e: Errand, f: TripPhase)
    requires e.Valid() && TripOk(e, f) && TripAt(s, e, f) && (f.Closing? || f.Busy? || f.Passing?)
    ensures !SlaveReady(s) && !MasterValid(s) && s.state != Idling
  {
    hide EmptyAt, CtrlFree;
  }

  lemma PassedStep(e: Errand, f: TripPhase, taken: seq<Beat>, given: seq<Beat>, p: Pins)
    requires e.Valid() && TripOk(e, f) && TripLegal(e, f, p) && TripOk(e, TripNext(e, f, p))
    requires Passed(e, f, taken, given)
    ensures Passed(e, TripNext(e, f, p), taken + TripTaken(f, p), given + TripGiven(e, f, p))
  {
    hide Flagged, Expected, Response, JobKeys, Unpack;
    assert taken + [] == taken && given + [] == given;
    if f.Normal? && f.ph.Sending? {
      var out, sent := Flagged(e.Answer()), f.ph.sent;
      assert out[..sent + 1] == out[..sent] + [out[sent]];
      assert sent + 1 == |out| ==> out[..sent + 1] == out;
    }
  }

  lemma {:induction false} TripHistory(s: StreamRegs, e: Errand, f: TripPhase, log: Log, ins: seq<Pins>)
    requires e.Valid() && TripOk(e, f) && TripAt(s, e, f) && TripRun(e, f, ins) && Passed(e, f, log.taken, log.given)
    ensures var log', f' := RunLog(s, log, ins), TripAfter(e, f, ins);
            TripAt(Run(s, ins), e, f') && Passed(e, f', log'.taken, log'.given)
    decreases |ins|
  {
    hide TripAt, TripOk, TripLegal, TripNext, Passed, StreamNext, Taken, Given, TripTaken, TripGiven;
    if ins != [] {
      var p := ins[0];
      LegalHolds(e, f, p);
      TripStep(s, e, f, p);
      TripPorts(s, e, f, p);
      PassedStep(e, f, log.taken, log.given, p);
      TripHistory(StreamNext(s, p), e, TripNext(e, f, p), LogNext(s, log, p), ins[1..]);
    }
  }

  lemma LegalHolds(e: Errand, f: TripPhase, p: Pins)
    requires e.Valid() && TripOk(e, f) && TripLegal(e, f, p)
    ensures p.resetn
  {
  }

  lemma PassedShows(e: Errand, f: TripPhase, taken: seq<Beat>, given: seq<Beat>)
    requires e.Valid() && TripOk(e, f) && Passed(e, f, taken, given)
    ensures given <= Flagged(e.Answer())
    ensures f.Over? ==> Whole(e, taken) && given == Flagged(e.Answer())
    ensures Whole(e, taken) ==> !(f.Normal? && (f.ph.Ready? || f.ph.Receive?))
  {
    hide Flagged, Expected, Response, JobKeys, Unpack;
  }

  /** At rest, ready for the errand. */
  ghost predicate Before(s: StreamRegs, e: Errand) {
    e.Valid() && StreamAt(s, Ready(e.ks)) && s.outRam.mem == e.mem
  }

  /** A frame of 512 blocks, or of a CBC vector alone, is answered with exactly the 512 blocks that stood in
      the output RAM, whatever its payload; keys and RAM stay.  With 512 blocks and a CBC command that is not
      followed to its end: nothing comes back within the first 4 + 15 * (2^32 - 1) cycles of the controller. */
  lemma StaleAnswer(s: StreamRegs, e: Errand, ins: seq<Pins>)
    requires Before(s, e) && e.Empty() && TripRun(e, Normal(Ready(e.ks)), ins)
    ensures var log, now := RunLog(s, Log(e.ks, [], []), ins), Run(s, ins);
            && log.given <= Flagged(e.mem)
            && (Whole(e, log.taken) && now.state == Idling ==>
                  !e.Endless() && log.given == Flagged(e.mem) && StreamAt(now, Ready(e.ks)) && now.outRam.mem == e.mem)
            && (Whole(e, log.taken) && e.Endless() ==> log.given == [] && now.state != Idling)
  {
    hide StreamAt, TripRun, TripAfter, Flagged, Whole, Run, RunLog;
    var f0 := Normal(Ready(e.ks));
    var log, f := RunLog(s, Log(e.ks, [], []), ins), TripAfter(e, f0, ins);
    TripHistory(s, e, f0, Log(e.ks, [], []), ins);
    PassedShows(e, f, log.taken, log.given);
    TripPorts(Run(s, ins), e, f, Quiet());
    if e.Endless() {
      NeverDone(e, f0, ins);
      NothingGiven(e, f, log.taken, log.given);
    }
  }

  function Quiet(): Pins { Pins(true, false, [0, 0, 0, 0], false, true) }

  /** A CBC command on 512 blocks stays with the controller. */
  predicate Early(f: TripPhase) { f.Closing? || f.Busy? || (f.Normal? && (f.ph.Ready? || f.ph.Receive?)) }

  lemma {:induction false} NeverDone(e: Errand, f: TripPhase, ins: seq<Pins>)
    requires e.Valid() && e.Endless() && TripOk(e, f) && TripRun(e, f, ins) && Early(f)
    ensures Early(TripAfter(e, f, ins))
    decreases |ins|
  {
    hide TripOk;
    if ins != [] {
      NeverDone(e, TripNext(e, f, ins[0]), ins[1..]);
    }
  }

  lemma NothingGiven(e: Errand, f: TripPhase, taken: seq<Beat>, given: seq<Beat>)
    requires e.Valid() && TripOk(e, f) && Passed(e, f, taken, given) && Early(f)
    ensures given == []
    ensures Whole(e, taken) ==> f.Closing? || f.Busy?
  {
    hide Flagged, Expected;
  }

  // ------------------------------------------------------------------ the end of a transaction

  /** Cycles from the last word to rest, not counting those in which the receiver stalls. */
  function Tail(e: Errand): nat
    requires e.Valid()
  {
    if e.Empty() then EmptyCycles(e.cmd, |e.raw|) + 4 * 512 + 5 else Remaining(Launch(e.TheJob()))
  }

  /** Cycles to rest, not counting those in which one of the two partners lets the engine wait. */
  function Steps(e: Errand, f: TripPhase): nat
    requires e.Valid() && TripOk(e, f)
  {
    match f
    case Normal(ph) =>
      (match ph
       case Ready(_) => 1 + |e.Frame()| + Tail(e)
       case Receive(_, got) => |e.Frame()| - |got| + Tail(e)
       case _ => Remaining(ph))
    case Closing => Tail(e)
    case Busy(t) => Tail(e) - t
    case Passing => 4 * 512 + 4
    case _ => 0
  }

  predicate Waits(f: TripPhase, p: Pins) {
    f.Normal? && if f.ph.Ready? || f.ph.Receive? then !p.sValid else Stalled(f.ph, p)
  }

  /** Each cycle that is not such a wait brings the end one cycle nearer. */
  lemma StepsStep(e: Errand, f: TripPhase, p: Pins)
    requires e.Valid() && TripOk(e, f) && TripLegal(e, f, p) && !f.Over? && !f.Again?
    ensures TripOk(e, TripNext(e, f, p))
    ensures Steps(e, TripNext(e, f, p)) == Steps(e, f) - if Waits(f, p) then 0 else 1
  {
    hide Response, JobKeys, Unpack, Remaining, PhaseNext, WellFormed, Expected;
    if f.Normal? {
      var ph := f.ph;
      if Ordinary(e, ph, p) {
        LegalToo(e, ph, p);
      }
      if ph.Ready? {
        ReadyOn(ph, p);
      } else if ph.Receive? {
        ReceiveOn(e, ph, p);
      } else {
        RemainingStep(ph, p);
        StaysBusy(ph, p);
      }
    } else if f.Passing? {
      PassingOn(e);
    }
  }

  lemma StaysBusy(ph: Phase, p: Pins)
    requires WellFormed(ph) && p.resetn && !ph.Ready? && !ph.Receive?
    ensures ph.Finish? ==> Remaining(ph) == 1
    ensures !ph.Finish? ==> !PhaseNext(ph, p).Ready? && !PhaseNext(ph, p).Receive?
  {
  }

  lemma PassingOn(e: Errand)
    requires e.Valid() && e.Empty()
    ensures var ph := FetchFirst(e.ks, e.mem); TripOk(e, Normal(ph)) && Remaining(ph) == 4 * 512 + 3
  {
  }

  lemma ReadyOn(ph: Phase, p: Pins)
    requires ph.Ready? && p.resetn
    ensures PhaseNext(ph, p) == if p.sValid then Receive(ph.ks, []) else ph
  {
  }

  lemma ReceiveOn(e: Errand, ph: Phase, p: Pins)
    requires e.Valid() && TripOk(e, Normal(ph)) && ph.Receive? && TripLegal(e, Normal(ph), p)
    ensures !p.sValid ==> PhaseNext(ph, p) == ph
    ensures p.sValid && |ph.got| + 1 < |e.Frame()| ==> TripOk(e, Normal(Receive(ph.ks, ph.got + [p.sData])))
  {
    hide Unpack;
    if p.sValid {
      NextWord(e, ph.got, p);
    }
  }

  /** A partner that never waits. */
  function NextPins(e: Errand, f: TripPhase): Pins
    requires e.Valid() && TripOk(e, f)
  {
    if f.Normal? && f.ph.Receive? then
      var k := |f.ph.got|;
      Pins(true, true, e.Frame()[k], k + 1 == |e.Frame()|, true)
    else Pins(true, f.Normal? && f.ph.Ready?, [0, 0, 0, 0], false, true)
  }

  lemma NextPinsLegal(e: Errand, f: TripPhase)
    requires e.Valid() && TripOk(e, f) && !e.Endless()
    ensures TripLegal(e, f, NextPins(e, f)) && !Waits(f, NextPins(e, f))
    ensures Steps(e, f) == 0 ==> f.Over? || f.Again?
  {
    hide Unpack, Response, JobKeys;
    if f.Normal? {
      OnlyReadyRests(f.ph);
    }
  }

  lemma RunToEnd(e: Errand, f: TripPhase) returns (ins: seq<Pins>)
    requires e.Valid() && TripOk(e, f) && !e.Endless() && !f.Again?
    ensures TripRun(e, f, ins) && TripAfter(e, f, ins).Over? && |ins| == Steps(e, f)
    decreases Steps(e, f)
  {
    hide TripLegal, TripNext, TripOk, Steps, Waits, NextPins;
    ins := [];
    NextPinsLegal(e, f);
    if !f.Over? {
      var p := NextPins(e, f);
      StepsStep(e, f, p);
      NotAgain(e, f, p);
      var rest := RunToEnd(e, TripNext(e, f, p));
      ins := [p] + rest;
      assert ins[1..] == rest;
    } else {
      OverSteps(e);
    }
  }

  lemma NotAgain(e: Errand, f: TripPhase, p: Pins)
    requires e.Valid() && TripOk(e, f) && !f.Over? && !f.Again?
    ensures !TripNext(e, f, p).Again?
  {
  }

  lemma OverSteps(e: Errand)
    requires e.Valid()
    ensures Steps(e, Over) == 0
  {
  }

  // ------------------------------------------------------------------ the exact capacity

  ghost predicate NoResets(ins: seq<Pins>) { forall i :: 0 <= i < |ins| ==> ins[i].resetn }

  /** A run without reset in which the engine takes the frame, whatever the stalls, and comes to rest. */
  ghost predicate Exchange(s: StreamRegs, e: Errand, ins: seq<Pins>) {
    NoResets(ins) && Whole(e, RunLog(s, Log(e.ks, [], []), ins).taken) && Run(s, ins).state == Idling
  }

  /** A number of cycles in which every answer is complete that comes at all. */
  const PATIENCE := 15 * 0xffff_ffff

  /** How many cycles a CBC command on 512 blocks is followed. */
  function Room(e: Errand, f: TripPhase): nat
    requires e.Valid() && TripOk(e, f)
  {
    match f
    case Normal(ph) =>
      (match ph
       case Ready(_) => EmptyCycles(e.cmd, |e.raw|) + |e.Frame()| + 1
       case Receive(_, got) => EmptyCycles(e.cmd, |e.raw|) + |e.Frame()| - |got|
       case _ => 0)
    case Closing => EmptyCycles(e.cmd, |e.raw|)
    case Busy(t) => EmptyCycles(e.cmd, |e.raw|) - t
    case _ => 0
  }

  lemma {:induction false} LogGrows(s: StreamRegs, log: Log, ins: seq<Pins>)
    requires NoResets(ins)
    ensures log.taken <= RunLog(s, log, ins).taken
    decreases |ins|
  {
    hide StreamNext, Taken, Given;
    if ins != [] {
      LogGrows(StreamNext(s, ins[0]), LogNext(s, log, ins[0]), ins[1..]);
    }
  }

  /** What an exchange takes makes it a legal run. */
  lemma {:induction false} ExchangeIsTrip(s: StreamRegs, e: Errand, f: TripPhase, log: Log, ins: seq<Pins>)
    requires e.Valid() && TripOk(e, f) && TripAt(s, e, f) && Passed(e, f, log.taken, log.given)
    requires NoResets(ins) && Whole(e, RunLog(s, log, ins).taken)
    requires e.Endless() ==> |ins| <= Room(e, f)
    ensures TripRun(e, f, ins)
    decreases |ins|
  {
    hide TripAt, TripOk, TripLegal, TripNext, Passed, StreamNext, Taken, Given, TripTaken, TripGiven, Room, Whole;
    if ins != [] {
      var p := ins[0];
      var log' := LogNext(s, log, p);
      TripPorts(s, e, f, p);
      LogGrows(StreamNext(s, p), log', ins[1..]);
      TakenFits(e, f, log.taken, log.given, RunLog(s, log, ins).taken, p, |ins|);
      TripStep(s, e, f, p);
      PassedStep(e, f, log.taken, log.given, p);
      ExchangeIsTrip(StreamNext(s, p), e, TripNext(e, f, p), log', ins[1..]);
    }
  }

  lemma TakenFits(e: Errand, f: TripPhase, taken: seq<Beat>, given: seq<Beat>, all: seq<Beat>, p: Pins, left: nat)
    requires e.Valid() && TripOk(e, f) && Passed(e, f, taken, given) && p.resetn
    requires taken + TripTaken(f, p) <= all && Whole(e, all)
    requires e.Endless() ==> 1 <= left <= Room(e, f)
    ensures TripLegal(e, f, p)
    ensures e.Endless() ==> TripOk(e, TripNext(e, f, p)) && left - 1 <= Room(e, TripNext(e, f, p))
  {
    hide Expected, Flagged, Response, JobKeys, Unpack, TripNext;
    if Receiving(f) && p.sValid {
      assert all[|taken|] == Beat(p.sData, p.sLast);
    }
    if e.Endless() {
      RoomStep(e, f, p);
    }
  }

  lemma RoomStep(e: Errand, f: TripPhase, p: Pins)
    requires e.Valid() && e.Endless() && TripOk(e, f) && TripLegal(e, f, p) && Room(e, f) > 0
    ensures TripOk(e, TripNext(e, f, p)) && Room(e, f) - 1 <= Room(e, TripNext(e, f, p))
  {
    hide Expected, Response, JobKeys, Unpack;
    if f.Normal? && f.ph.Receive? && p.sValid {
      NextWord(e, f.ph.got, p);
    }
  }

  /** What comes back in an exchange. */
  lemma ExchangeAnswers(s: StreamRegs, e: Errand, ins: seq<Pins>)
    requires Before(s, e) && Exchange(s, e, ins) && (e.Endless() ==> |ins| <= PATIENCE)
    ensures !e.Endless()
    ensures RunLog(s, Log(e.ks, [], []), ins).given == Flagged(e.Answer())
    ensures StreamAt(Run(s, ins), Ready(e.After()))
    ensures e.Empty() ==> Run(s, ins).outRam.mem == e.mem
  {
    hide StreamAt, TripRun, TripAfter, Flagged, Whole, Run, RunLog, NoResets;
    var f0, log0 := Normal(Ready(e.ks)), Log(e.ks, [], []);
    ExchangeIsTrip(s, e, f0, log0, ins);
    TripHistory(s, e, f0, log0, ins);
    var f, log := TripAfter(e, f0, ins), RunLog(s, log0, ins);
    PassedShows(e, f, log.taken, log.given);
    TripPorts(Run(s, ins), e, f, Quiet());
    if e.Endless() {
      StaleAnswer(s, e, ins);
    }
  }

  /** Every frame but the one that is not followed to its end has an exchange. */
  lemma ExchangeExists(s: StreamRegs, e: Errand) returns (ins: seq<Pins>)
    requires Before(s, e) && !e.Endless()
    ensures Exchange(s, e, ins) && |ins| <= PATIENCE
  {
    hide StreamAt, TripRun, TripAfter, Flagged, Whole, Run, RunLog, NoResets, Steps;
    var f0 := Normal(Ready(e.ks));
    ins := RunToEnd(e, f0);
    SoonDone(e);
    TripNoResets(e, f0, ins);
    TripHistory(s, e, f0, Log(e.ks, [], []), ins);
    var log := RunLog(s, Log(e.ks, [], []), ins);
    PassedShows(e, Over, log.taken, log.given);
    TripPorts(Run(s, ins), e, Over, Quiet());
  }

  lemma {:induction false} TripNoResets(e: Errand, f: TripPhase, ins: seq<Pins>)
    requires e.Valid() && TripOk(e, f) && TripRun(e, f, ins)
    ensures NoResets(ins)
    decreases |ins|
  {
    hide TripOk, TripNext;
    if ins != [] {
      TripNoResets(e, TripNext(e, f, ins[0]), ins[1..]);
      assert forall i :: 0 < i < |ins| ==> ins[i] == ins[1..][i - 1];
    }
  }

  lemma SoonDone(e: Errand)
    requires e.Valid() && !e.Endless()
    ensures Steps(e, Normal(Ready(e.ks))) <= PATIENCE
  {
    hide Response, JobKeys, Unpack;
  }

  /** The answer that a command calls for. */
  function RightAnswer(cmd: Word, ks: Keys, raw: seq<Block>): seq<Block>
    requires IsCommand(cmd) && raw != []
  {
    Swapped(Result(cmd, ks, Swapped(raw)))
  }

  /** A user who sends the frame gets the right answer: one exchange at least is complete in time, and every
      exchange, whatever the stalls, gives the words of the right answer, the last one flagged. */
  ghost predicate Served(s: StreamRegs, e: Errand)
    requires e.Valid()
  {
    && (exists ins :: Exchange(s, e, ins) && |ins| <= PATIENCE)
    && (forall ins :: Exchange(s, e, ins) ==>
          RunLog(s, Log(e.ks, [], []), ins).given == Flagged(RightAnswer(e.cmd, e.ks, e.raw)))
  }

  lemma SmallServed(s: StreamRegs, e: Errand)
    requires Before(s, e) && !e.Empty()
    ensures Served(s, e)
  {
    hide StreamAt, Exchange, RunLog, Flagged, Result, Swapped, Run;
    var some := ExchangeExists(s, e);
    JobInSwapped(e.TheJob());
    forall ins | Exchange(s, e, ins)
      ensures RunLog(s, Log(e.ks, [], []), ins).given == Flagged(RightAnswer(e.cmd, e.ks, e.raw))
    {
      ExchangeAnswers(s, e, ins);
    }
  }

  lemma FlaggedTells(xs: seq<Block>, ys: seq<Block>)
    requires Flagged(xs) == Flagged(ys)
    ensures xs == ys
  {
    hide Unpack;
    UnpackPack(xs);
    UnpackPack(ys);
    forall i: nat | i < 4 * |xs|
      ensures Unpack(xs)[i] == Unpack(ys)[i]
    {
      assert Flagged(xs)[i].word == Flagged(ys)[i].word;
    }
    assert Unpack(xs) == Unpack(ys);
  }

  lemma RightAnswersDiffer(cmd: Word, ks: Keys, raw: seq<Block>, raw': seq<Block>)
    requires (cmd == ECB_ENCRYPT || cmd == ECB_DECRYPT) && raw != [] && raw' != [] && raw != raw'
    ensures RightAnswer(cmd, ks, raw) != RightAnswer(cmd, ks, raw')
  {
    hide EcbEncrypt, EcbDecrypt, Swapped;
    SwappedTwice(raw);
    SwappedTwice(raw');
    EcbInverse(ks, Swapped(raw));
    EcbInverse(ks, Swapped(raw'));
    SwappedTwice(Result(cmd, ks, Swapped(raw)));
    SwappedTwice(Result(cmd, ks, Swapped(raw')));
  }

  /** Of two exchanges of 512 blocks with different ECB payloads at least one gives a wrong answer. */
  lemma OneOfTwoIsWrong(s: StreamRegs, e: Errand, e': Errand, ins: seq<Pins>, ins': seq<Pins>)
    requires e.cmd == ECB_ENCRYPT || e.cmd == ECB_DECRYPT
    requires Before(s, e) && |e.raw| == |e'.raw| == 512 && e'.raw != e.raw && e' == e.(raw := e'.raw)
    requires Exchange(s, e, ins) && Exchange(s, e', ins')
    ensures RunLog(s, Log(e.ks, [], []), ins).given != Flagged(RightAnswer(e.cmd, e.ks, e.raw))
         || RunLog(s, Log(e.ks, [], []), ins').given != Flagged(RightAnswer(e.cmd, e.ks, e'.raw))
  {
    hide StreamAt, Exchange, RunLog, Flagged, RightAnswer;
    ExchangeAnswers(s, e, ins);
    ExchangeAnswers(s, e', ins');
    RightAnswersDiffer(e.cmd, e.ks, e.raw, e'.raw);
    if Flagged(RightAnswer(e.cmd, e.ks, e.raw)) == Flagged(RightAnswer(e.cmd, e.ks, e'.raw)) {
      FlaggedTells(RightAnswer(e.cmd, e.ks, e.raw), RightAnswer(e.cmd, e.ks, e'.raw));
    }
  }

  /** The failing frames, on the design: in any state at rest there is a payload of 512 blocks, and any vector
      alone is one, whose exchange is complete with what the output RAM held, and that is wrong. */
  lemma WrongAnswer(s: StreamRegs, ks: Keys, cmd: Word, n: nat) returns (e: Errand, ins: seq<Pins>)
    requires StreamAt(s, Ready(ks)) && IsRequest(cmd) && NoCount(cmd, n) && !(IsCbc(cmd) && n == 512)
    ensures e == Errand(ks, cmd, e.raw, s.outRam.mem) && |e.raw| == n && e.Valid()
    ensures Exchange(s, e, ins) && |ins| <= PATIENCE
    ensures RunLog(s, Log(ks, [], []), ins).given == Flagged(s.outRam.mem) != Flagged(RightAnswer(cmd, ks, e.raw))
  {
    hide StreamAt, Exchange, RunLog, Flagged, RightAnswer;
    var raw: seq<Block> := seq(n, _ => ZERO);
    var raw' := raw[0 := ONES];
    assert raw'[0][0] == 1 && raw[0][0] == 0;
    if n == 512 {
      RightAnswersDiffer(cmd, ks, raw, raw');
      if RightAnswer(cmd, ks, raw) == s.outRam.mem {
        raw := raw';
      }
    } else {
      NoAnswer(cmd, ks, raw);
    }
    e := Errand(ks, cmd, raw, s.outRam.mem);
    ins := ExchangeExists(s, e);
    ExchangeAnswers(s, e, ins);
    if Flagged(s.outRam.mem) == Flagged(RightAnswer(cmd, ks, raw)) {
      FlaggedTells(s.outRam.mem, RightAnswer(cmd, ks, raw));
    }
  }

  lemma NoAnswer(cmd: Word, ks: Keys, raw: seq<Block>)
    requires IsCbc(cmd) && |raw| == 1
    ensures RightAnswer(cmd, ks, raw) == []
  {
    hide CbcEncrypt, CbcDecrypt;
  }

  /** What a frame may hold.  From any state at rest the engine serves every frame of `n` blocks if and only if
      there is a data block among them, and they are fewer than 512. */
  lemma CapacityIsExact(s: StreamRegs, ks: Keys, cmd: Word, n: nat)
    requires StreamAt(s, Ready(ks)) && IsRequest(cmd) && 1 <= n <= 512
    ensures (forall raw: seq<Block> :: |raw| == n ==> Served(s, Errand(ks, cmd, raw, s.outRam.mem)))
       <==> (if IsCbc(cmd) then 1 else 0) < n < 512
  {
    hide StreamAt, Exchange, RunLog, Flagged, RightAnswer;
    if (if IsCbc(cmd) then 1 else 0) < n < 512 {
      forall raw: seq<Block> | |raw| == n
        ensures Served(s, Errand(ks, cmd, raw, s.outRam.mem))
      {
        SmallServed(s, Errand(ks, cmd, raw, s.outRam.mem));
      }
    } else if IsCbc(cmd) && n == 512 {
      var e := Errand(ks, cmd, seq(n, _ => ZERO), s.outRam.mem);
      if Served(s, e) {
        var ins :| Exchange(s, e, ins) && |ins| <= PATIENCE;
        ExchangeAnswers(s, e, ins);
      }
    } else {
      var e, ins := WrongAnswer(s, ks, cmd, n);
      assert !Served(s, Errand(ks, cmd, e.raw, s.outRam.mem));
    }
  }
}
