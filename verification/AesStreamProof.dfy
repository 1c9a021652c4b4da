/** The clocked design follows the transaction phases, so what leaves the master port is what the
    accepted frames call for. */
module AesStreamProof {
  import opened AesField
  import opened AesBlock
  import opened AesCore
  import opened AesCoreProof
  import opened AesModes
  import opened AesController
  import opened AesControllerProof
  import opened AesStream
  import opened AesStreamSpec

  ghost predicate CtrlFree(c: CtrlRegs, ks: Keys) { CtrlQuiet(c, ks) && !c.enO }

  ghost predicate MasterQuiet(m: MasterRegs) {
    m.fsm == MasterIdle && !m.valid && !m.txDone && m.addr == 0 && m.blkCnt == 0 && m.wordCnt == 0
  }

  ghost predicate SlaveIdle(v: SlaveRegs) {
    !v.payload && !v.writesDone && !v.wE && v.wordCnt == 0 && v.blkCnt == 0
  }

  /** The slave after the payload words `ws`: full blocks in the RAM, the newest perhaps only about
      to be written, and the words of an unfinished block at the end of the block register. */
  ghost predicate Packed(v: SlaveRegs, mem: Memory, ws: seq<Word>)
    requires |ws| < 4 * 512
  {
    var n := |ws| / 4;
    && v.wordCnt == |ws| % 4 && v.blkCnt == n
    && (forall c: nat :: 4 - v.wordCnt <= c < 4 ==> Column(v.blk, c) == ws[|ws| - 4 + c])
    && (v.wE ==> n > 0 && v.wordCnt == 0 && v.addr == n - 1 && v.blk == PackAt(ws, n - 1))
    && (forall k: nat :: k < n ==> (v.wE && k == n - 1) || mem[k] == PackAt(ws, k))
  }

  ghost predicate SlaveReceiving(v: SlaveRegs, mem: Memory, got: seq<Word>)
    requires got != [] ==> |got| - 1 < 4 * 512
  {
    && !v.writesDone
    && (v.payload <==> got != [])
    && if got == [] then SlaveIdle(v) else v.cmd == got[0] && Packed(v, mem, got[1..])
  }

  ghost predicate SlaveHolding(v: SlaveRegs, j: Job) {
    v.payload && v.writesDone && v.wordCnt == 0 && v.blkCnt == 0 && v.cmd == j.cmd && v.total == |j.raw|
  }

  /** All blocks are in the RAM but the last, which is being written. */
  ghost predicate LastPending(v: SlaveRegs, mem: Memory, j: Job)
    requires JobOk(j)
  {
    && v.wE && v.addr == |j.raw| - 1 && v.blk == j.raw[|j.raw| - 1]
    && (forall k: nat :: k < |j.raw| - 1 ==> mem[k] == j.raw[k])
  }

  ghost predicate Holds(mem: Memory, out: seq<Block>)
    requires |out| <= 512
  {
    forall k: nat :: k < |out| ==> mem[k] == out[k]
  }

  /** The master while it hands over word `sent`: it shows block `sent / 4`, addresses the next one,
      and from the second word of a block on the RAM already shows that next one. */
  ghost predicate MasterSending(m: MasterRegs, ramOut: Block, out: seq<Block>, sent: nat)
    requires 1 <= |out| <= 512 && sent < 4 * |out|
  {
    var b := sent / 4;
    && m.fsm == MasterTransfer && m.valid && !m.txDone && m.rE
    && m.blkCnt == b && m.wordCnt == sent % 4 && m.blk == out[b] && m.addr == Low9(b + 1)
    && (m.wordCnt > 0 && b + 1 < |out| ==> ramOut == out[b + 1])
  }

  ghost predicate MasterFetching(m: MasterRegs, fsm: MasterState) {
    m.fsm == fsm && !m.valid && !m.txDone && m.rE && m.addr == 0 && m.blkCnt == 0 && m.wordCnt == 0
  }

  /** The back half of a transaction: the slave and the controller rest. */
  ghost predicate Returning(s: StreamRegs, ks: Keys) {
    s.state == MasterSend && !s.procDone && SlaveIdle(s.slave) && CtrlFree(s.ctrl, ks)
  }

  ghost predicate ResultReady(s: StreamRegs, out: seq<Block>)
    requires |out| <= 512
  {
    s.ctrl.outBlkNo == Low9(|out|) && Holds(s.outRam.mem, out)
  }

  ghost predicate StreamAt(s: StreamRegs, ph: Phase)
    requires WellFormed(ph)
  {
    match ph
    case Ready(ks) =>
      s.state == Idling && !s.procDone && SlaveIdle(s.slave) && CtrlFree(s.ctrl, ks) && MasterQuiet(s.master)
    case Receive(ks, got) =>
      && s.state == WriteFifo && !s.procDone && CtrlFree(s.ctrl, ks) && MasterQuiet(s.master)
      && SlaveReceiving(s.slave, s.inRam.mem, got)
    case Launch(j) =>
      && s.state == WriteFifo && !s.procDone && CtrlFree(s.ctrl, j.ks) && MasterQuiet(s.master)
      && SlaveHolding(s.slave, j) && LastPending(s.slave, s.inRam.mem, j)
    case Working(j, at) =>
      && s.state == ProcessStuff && !s.procDone && MasterQuiet(s.master)
      && SlaveHolding(s.slave, j) && !s.slave.wE && Loaded(s.inRam.mem, j)
      && CtrlAt(s.ctrl, s.inRam.out, s.outRam.mem, j, at)
    case Handover(j) =>
      && s.state == ProcessStuff && s.procDone && MasterQuiet(s.master)
      && SlaveHolding(s.slave, j) && !s.slave.wE
      && CtrlFree(s.ctrl, JobKeys(j)) && ResultReady(s, Response(j))
    case FetchFirst(ks, out) =>
      Returning(s, ks) && ResultReady(s, out) && MasterFetching(s.master, MasterInitSram)
    case FetchSecond(ks, out) =>
      && Returning(s, ks) && ResultReady(s, out) && MasterFetching(s.master, MasterInitTransfer)
      && s.outRam.out == out[0]
    case Sending(ks, out, sent) =>
      Returning(s, ks) && ResultReady(s, out) && MasterSending(s.master, s.outRam.out, out, sent)
    case Finish(ks) =>
      && Returning(s, ks) && s.master.fsm == MasterIdle && !s.master.valid && s.master.txDone
      && s.master.addr == 0 && s.master.blkCnt == 0 && s.master.wordCnt == 0
  }

  // ------------------------------------------------------------------ what the ports show

  /** The last of up to 512 blocks, as nine bits number it. */
  lemma LastBlock(n: nat, b: nat)
    requires 1 <= n <= 512 && b < n
    ensures b == Low9(Low9(n) + 511) <==> b == n - 1
  {
  }

  lemma SendingOutputs(s: StreamRegs, out: seq<Block>, sent: nat)
    requires 1 <= |out| <= 512 && sent < 4 * |out|
    requires s.ctrl.outBlkNo == Low9(|out|) && MasterSending(s.master, s.outRam.out, out, sent)
    ensures MasterData(s) == Unpack(out)[sent] && (MasterLast(s) <==> sent == 4 * |out| - 1)
  {
    hide Low9, Column;
    LastBlock(|out|, sent / 4);
  }

  lemma Outputs(s: StreamRegs, ph: Phase)
    requires WellFormed(ph) && StreamAt(s, ph)
    ensures SlaveReady(s) <==> ph.Receive?
    ensures MasterValid(s) <==> ph.Sending?
    ensures ph.Sending? ==>
              && MasterData(s) == Unpack(ph.out)[ph.sent]
              && (MasterLast(s) <==> ph.sent == 4 * |ph.out| - 1)
  {
    hide CtrlFree, CtrlAt, Column, Response, Loaded, Packed, MasterData, MasterLast, Unpack, Low9;
    if ph.Sending? {
      SendingOutputs(s, ph.out, ph.sent);
    }
  }

  // ------------------------------------------------------------------ one cycle in each phase

  lemma ResetStep(s: StreamRegs, ph: Phase, p: Pins)
    requires WellFormed(ph) && StreamAt(s, ph) && !p.resetn && !ph.Working?
    ensures StreamAt(StreamNext(s, p), Ready(KeysOf(ph)))
  {
    hide TopNext, TopIdle, Packed, Response, JobKeys, AesIn, SwapBytes;
    var c := s.ctrl;
    IdleStep(c.top, KeysOf(ph), true, s.slave.cmd, SwapBytes(s.inRam.out), AesIn(c, s.slave.cmd, s.inRam.out));
  }

  lemma ReadyStep(s: StreamRegs, ph: Phase, p: Pins)
    requires WellFormed(ph) && ph.Ready? && StreamAt(s, ph) && p.resetn
    ensures StreamAt(StreamNext(s, p), PhaseNext(ph, p))
  {
    hide CtrlNext, CtrlQuiet;
    QuietStep(s.ctrl, ph.ks, false, s.slave.cmd, s.inRam.out, s.slave.total);
  }

  lemma ShiftInColumns(blk: Block, w: Word)
    ensures Column(ShiftIn(blk, w), 0) == Column(blk, 1)
    ensures Column(ShiftIn(blk, w), 1) == Column(blk, 2)
    ensures Column(ShiftIn(blk, w), 2) == Column(blk, 3)
    ensures Column(ShiftIn(blk, w), 3) == w
  {
    ColumnsOf(Column(blk, 1), Column(blk, 2), Column(blk, 3), w);
  }

  /** The input RAM while the slave owns it. */
  function StoreNext(v: SlaveRegs, mem: Memory): Memory {
    if v.wE then mem[Low9(v.addr) := v.blk] else mem
  }

  /** A cycle without a word only lets a pending write happen. */
  lemma PackedIdle(v: SlaveRegs, mem: Memory, ws: seq<Word>)
    requires |ws| < 4 * 512 && Packed(v, mem, ws)
    ensures Packed(v.(wE := false), StoreNext(v, mem), ws)
  {
    hide PackAt;
  }

  lemma PackAtPrefix(ws: seq<Word>, w: Word, k: nat)
    requires 4 * k + 3 < |ws|
    ensures PackAt(ws + [w], k) == PackAt(ws, k)
  {
  }

  /** A word that does not complete a block is shifted in. */
  lemma PackedShift(v: SlaveRegs, mem: Memory, ws: seq<Word>, w: Word)
    requires |ws| < 4 * 512 - 1 && Packed(v, mem, ws) && v.wordCnt < 3
    ensures Packed(v.(blk := ShiftIn(v.blk, w), wordCnt := v.wordCnt + 1, wE := false), StoreNext(v, mem), ws + [w])
  {
    hide PackAt, Column, ShiftIn;
    ShiftInColumns(v.blk, w);
    var n := |ws| / 4;
    assert |ws + [w]| / 4 == n && (ws + [w])[..|ws|] == ws;
    forall k: nat | k < n
      ensures PackAt(ws + [w], k) == PackAt(ws, k)
    {
      PackAtPrefix(ws, w, k);
    }
  }

  /** The fourth word completes a block, which is written in the next cycle. */
  lemma PackedClose(v: SlaveRegs, mem: Memory, ws: seq<Word>, w: Word)
    requires |ws| < 4 * 512 && Packed(v, mem, ws) && v.wordCnt == 3
    ensures ShiftIn(v.blk, w) == PackAt(ws + [w], |ws| / 4)
    ensures forall k: nat :: k < |ws| / 4 ==> StoreNext(v, mem)[k] == PackAt(ws + [w], k)
  {
  }

  lemma SlaveStep(s: StreamRegs, ks: Keys, got: seq<Word>, p: Pins)
    requires got != [] ==> IsCommand(got[0]) && |got| - 1 < 4 * 512
    requires s.state == WriteFifo && !s.procDone && p.resetn
    requires SlaveReceiving(s.slave, s.inRam.mem, got)
    requires Legal(Receive(ks, got), p)
    ensures var v' := SlaveNext(s, p);
            var mem' := StoreNext(s.slave, s.inRam.mem);
            var frame := got + [p.sData];
            if !p.sValid then SlaveReceiving(v', mem', got)
            else if Complete(frame, p.sLast) then
              var j := JobOf(ks, frame);
              SlaveHolding(v', j) && JobOk(j) && LastPending(v', mem', j)
            else (|frame| - 1 < 4 * 512) && SlaveReceiving(v', mem', frame)
  {
    hide PackAt, Column, ShiftIn, FromColumns;
    var v := s.slave;
    var w := p.sData;
    if got != [] {
      var ws := got[1..];
      assert (got + [w])[1..] == ws + [w];
      if !p.sValid {
        PackedIdle(v, s.inRam.mem, ws);
      } else if v.wordCnt < 3 {
        PackedShift(v, s.inRam.mem, ws, w);
      } else {
        PackedClose(v, s.inRam.mem, ws, w);
      }
    }
  }

  lemma ReceiveStep(s: StreamRegs, ph: Phase, p: Pins)
    requires WellFormed(ph) && ph.Receive? && StreamAt(s, ph) && Legal(ph, p) && p.resetn
    ensures WellFormed(PhaseNext(ph, p)) && StreamAt(StreamNext(s, p), PhaseNext(ph, p))
  {
    hide CtrlNext, TopIdle, SlaveNext, Packed, SlaveHolding, LastPending;
    QuietStep(s.ctrl, ph.ks, false, s.slave.cmd, s.inRam.out, s.slave.total);
    SlaveStep(s, ph.ks, ph.got, p);
    InRamFollowsSlave(s, p);
  }

  lemma InRamFollowsSlave(s: StreamRegs, p: Pins)
    requires !s.ctrl.inRE
    ensures StreamNext(s, p).inRam.mem == StoreNext(s.slave, s.inRam.mem)
    ensures StreamNext(s, p).inRam.out == s.inRam.out
  {
  }

  lemma LaunchStep(s: StreamRegs, j: Job, p: Pins)
    requires JobOk(j) && StreamAt(s, Launch(j)) && p.resetn
    ensures StreamAt(StreamNext(s, p), Working(j, AtInit))
  {
    hide CtrlNext, CtrlAt;
    StartJob(s.ctrl, s.inRam.out, s.outRam.mem, j);
    InRamFollowsSlave(s, p);
    assert StreamNext(s, p).outRam.mem == s.outRam.mem;
  }

  /** While it works, the controller has both RAMs to itself. */
  lemma RamsFollowController(s: StreamRegs, p: Pins)
    requires !s.slave.wE
    ensures StreamNext(s, p).inRam == RamRegs(s.inRam.mem, InOutNext(s.ctrl, s.inRam.mem, s.inRam.out))
    ensures StreamNext(s, p).outRam.mem == OutMemNext(s.ctrl, s.outRam.mem)
  {
  }

  lemma WorkingStep(s: StreamRegs, j: Job, at: CtrlPhase, p: Pins)
    requires JobOk(j) && PhaseOk(j, at) && !at.AtDone? && StreamAt(s, Working(j, at)) && p.resetn
    ensures PhaseOk(j, CtrlPhaseNext(j, at)) && StreamAt(StreamNext(s, p), Working(j, CtrlPhaseNext(j, at)))
  {
    hide CtrlNext, CtrlAt, InOutNext, OutMemNext, CtrlPhaseNext;
    CtrlStep(s.ctrl, s.inRam.mem, s.inRam.out, s.outRam.mem, j, at);
    RamsFollowController(s, p);
  }

  lemma WrittenIsResponse(mem: Memory, j: Job)
    requires JobOk(j) && Written(mem, j, j.Count())
    ensures Holds(mem, Response(j))
  {
    hide Result, OutAt, SwapBytes;
    forall k: nat | k < j.Count()
      ensures mem[k] == Response(j)[k]
    {
      ResultAt(j.cmd, j.ks, j.Blocks(), k);
    }
  }

  lemma DoneStep(s: StreamRegs, j: Job, p: Pins)
    requires JobOk(j) && StreamAt(s, Working(j, AtDone)) && p.resetn
    ensures StreamAt(StreamNext(s, p), Handover(j))
  {
    hide CtrlNext, CtrlQuiet, OutAt, Result, SwapBytes, Response;
    QuietStep(s.ctrl, JobKeys(j), false, s.slave.cmd, s.inRam.out, s.slave.total);
    QuietKeepsResult(s, JobKeys(j), p);
    WrittenIsResponse(s.outRam.mem, j);
  }

  /** The output RAM and the block number stay while the controller rests. */
  lemma QuietKeepsResult(s: StreamRegs, ks: Keys, p: Pins)
    requires CtrlQuiet(s.ctrl, ks) && !StartProcessing(s) && p.resetn
    ensures StreamNext(s, p).outRam.mem == s.outRam.mem
    ensures StreamNext(s, p).ctrl.outBlkNo == s.ctrl.outBlkNo
    ensures StreamNext(s, p).outRam.out == if s.master.rE then s.outRam.mem[Low9(s.master.addr)] else s.outRam.out
  {
    hide TopNext, AesIn, SwapBytes;
  }

  lemma ReturnStep(s: StreamRegs, ph: Phase, p: Pins)
    requires WellFormed(ph) && StreamAt(s, ph) && p.resetn
    requires ph.Handover? || ph.FetchFirst? || ph.FetchSecond? || ph.Finish?
    ensures WellFormed(PhaseNext(ph, p)) && StreamAt(StreamNext(s, p), PhaseNext(ph, p))
  {
    hide CtrlNext, CtrlQuiet, Response, JobKeys;
    QuietStep(s.ctrl, KeysOf(ph), false, s.slave.cmd, s.inRam.out, s.slave.total);
    QuietKeepsResult(s, KeysOf(ph), p);
  }

  /** The master alone: it stalls, moves to the next word, or ends. */
  lemma MasterStep(s: StreamRegs, ph: Phase, p: Pins)
    requires WellFormed(ph) && ph.Sending? && StreamAt(s, ph) && p.resetn
    ensures var m, shown := MasterNext(s, p), s.outRam.mem[Low9(s.master.addr)];
            if !p.mReady then MasterSending(m, shown, ph.out, ph.sent)
            else if ph.sent + 1 < 4 * |ph.out| then MasterSending(m, shown, ph.out, ph.sent + 1)
            else MasterQuiet(m.(txDone := false)) && m.txDone
  {
    hide CtrlFree, Unpack, MasterData, MasterLast, Column, SlaveIdle;
    Outputs(s, ph);
  }

  lemma SendingStep(s: StreamRegs, ph: Phase, p: Pins)
    requires WellFormed(ph) && ph.Sending? && StreamAt(s, ph) && p.resetn
    ensures WellFormed(PhaseNext(ph, p)) && StreamAt(StreamNext(s, p), PhaseNext(ph, p))
  {
    hide CtrlNext, CtrlQuiet, MasterNext;
    QuietStep(s.ctrl, ph.ks, false, s.slave.cmd, s.inRam.out, s.slave.total);
    QuietKeepsResult(s, ph.ks, p);
    MasterStep(s, ph, p);
  }

  /** The design follows the transaction phases, whatever the ports do. */
  lemma StreamStep(s: StreamRegs, ph: Phase, p: Pins)
    requires WellFormed(ph) && StreamAt(s, ph) && Legal(ph, p)
    ensures WellFormed(PhaseNext(ph, p)) && StreamAt(StreamNext(s, p), PhaseNext(ph, p))
  {
    hide StreamNext, StreamAt, JobKeys, Response, CtrlPhaseNext;
    PhaseNextOk(ph, p);
    if !p.resetn {
      ResetStep(s, ph, p);
    } else {
      match ph {
        case Ready(_) => ReadyStep(s, ph, p);
        case Receive(_, _) => ReceiveStep(s, ph, p);
        case Launch(j) => LaunchStep(s, j, p);
        case Working(j, at) =>
          if at.AtDone? {
            DoneStep(s, j, p);
          } else {
            WorkingStep(s, j, at, p);
          }
        case Sending(_, _, _) => SendingStep(s, ph, p);
        case _ => ReturnStep(s, ph, p);
      }
    }
  }
}
