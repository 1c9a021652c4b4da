/** `aes_axi_stream.v`: 32-bit words come in on a slave port, are packed into a RAM, processed, and
    leave on a master port. */
module AesStream {
  import opened AesField
  import opened AesBlock
  import opened AesCore
  import opened AesController

  datatype StreamState = Idling | WriteFifo | ProcessStuff | MasterSend

  datatype MasterState = MasterIdle | MasterInitSram | MasterInitTransfer | MasterTransfer

  /** Block counts and addresses are nine bits wide, the word counter of the slave two. */
  datatype SlaveRegs = SlaveRegs(
    payload: bool, blk: Block, blkCnt: nat, wordCnt: nat, cmd: Word, wE: bool, addr: nat, writesDone: bool,
    total: nat)

  datatype MasterRegs = MasterRegs(
    fsm: MasterState, blk: Block, blkCnt: nat, addr: nat, wordCnt: nat, txDone: bool, valid: bool, rE: bool)

  datatype StreamRegs = StreamRegs(
    state: StreamState, slave: SlaveRegs, master: MasterRegs, procDone: bool, ctrl: CtrlRegs,
    inRam: RamRegs, outRam: RamRegs)

  /** What the two ports and the reset line carry in one cycle. */
  datatype Pins = Pins(resetn: bool, sValid: bool, sData: Word, sLast: bool, mReady: bool)

  // ------------------------------------------------------------------ outputs

  predicate SlaveReady(s: StreamRegs) {
    s.state == WriteFifo && !s.slave.writesDone
  }

  predicate MasterValid(s: StreamRegs) { s.master.valid }

  /** The word shifted to the top of the block register. */
  function MasterData(s: StreamRegs): Word {
    if s.master.wordCnt < 4 then Column(s.master.blk, s.master.wordCnt) else [0, 0, 0, 0]
  }

  predicate MasterLast(s: StreamRegs) {
    s.master.blkCnt == Low9(s.ctrl.outBlkNo + 511) && s.master.wordCnt == 3
  }

  predicate StartProcessing(s: StreamRegs) {
    s.state == WriteFifo && s.slave.writesDone && !s.procDone
  }

  // ------------------------------------------------------------------ one clock edge

  function StateNext(s: StreamRegs, p: Pins): StreamState {
    if !p.resetn then Idling
    else match s.state
      case Idling => if p.sValid then WriteFifo else Idling
      case WriteFifo => if s.slave.writesDone then ProcessStuff else WriteFifo
      case ProcessStuff => if s.procDone then MasterSend else ProcessStuff
      case MasterSend => if s.master.txDone then Idling else MasterSend
  }

  function ShiftIn(blk: Block, w: Word): (r: Block) {
    FromColumns(Column(blk, 1), Column(blk, 2), Column(blk, 3), w)
  }

  function SlaveNext(s: StreamRegs, p: Pins): SlaveRegs {
    var v := s.slave;
    var wren := p.sValid && SlaveReady(s);
    if !p.resetn then SlaveRegs(false, ZERO, 0, 0, [0, 0, 0, 0], false, 0, false, 0)
    else if !v.payload then
      if wren then v.(cmd := p.sData, payload := true) else v
    else
      var closing := wren && v.wordCnt == 3;
      var full := closing && (v.blkCnt == 511 || p.sLast);
      SlaveRegs(
        !s.procDone,
        if wren then ShiftIn(v.blk, p.sData) else v.blk,
        if full then 0 else if closing then Low9(v.blkCnt + 1) else v.blkCnt,
        if closing then 0 else if wren then (v.wordCnt + 1) % 4 else v.wordCnt,
        v.cmd,
        closing,
        if closing then v.blkCnt else v.addr,
        if s.procDone then false else if full then true else v.writesDone,
        if full then Low9(v.blkCnt + 1) else v.total)
  }

  function MasterNext(s: StreamRegs, p: Pins): MasterRegs {
    var m := s.master;
    if !p.resetn then MasterRegs(MasterIdle, ZERO, 0, 0, 0, false, false, m.rE)
    else match m.fsm
      case MasterIdle =>
        var go := (s.state == MasterSend || s.procDone) && !m.txDone;
        m.(rE := go, txDone := false, valid := false, fsm := if go then MasterInitSram else MasterIdle)
      case MasterInitSram => m.(rE := true, txDone := false, valid := false, fsm := MasterInitTransfer, addr := 0)
      case MasterInitTransfer =>
        m.(rE := true, txDone := false, valid := true, fsm := MasterTransfer, blk := s.outRam.out,
           addr := Low9(m.blkCnt + 1))
      case MasterTransfer =>
        if !p.mReady then m.(rE := true, txDone := false, valid := true)
        else if MasterLast(s) then
          MasterRegs(MasterIdle, s.outRam.out, 0, 0, 0, true, false, true)
        else if m.wordCnt == 3 then
          MasterRegs(MasterTransfer, s.outRam.out, Low9(m.blkCnt + 1), Low9(m.addr + 1), 0, false, true, true)
        else m.(rE := true, txDone := false, valid := true, wordCnt := Low9(m.wordCnt + 1))
  }

  /** Both RAMs have one address port: the controller's strobes choose who drives it. */
  function StreamNext(s: StreamRegs, p: Pins): StreamRegs {
    StreamRegs(
      StateNext(s, p), SlaveNext(s, p), MasterNext(s, p), s.ctrl.enO,
      CtrlNext(s.ctrl, !p.resetn, StartProcessing(s), s.slave.cmd, s.inRam.out, s.slave.total),
      RamNext(s.inRam, if s.ctrl.inRE then Low9(s.ctrl.readPtr) else Low9(s.slave.addr), s.slave.blk, s.slave.wE,
              s.ctrl.inRE),
      RamNext(s.outRam, if s.ctrl.outWE then Low9(s.ctrl.outAddr) else Low9(s.master.addr),
              s.ctrl.outData, s.ctrl.outWE,
              s.master.rE))
  }

  // ------------------------------------------------------------------ histories

  /** A word handed over on a port, with its last flag. */
  datatype Beat = Beat(word: Word, last: bool)

  /** The word taken at the slave port in one cycle, if any. */
  function Taken(s: StreamRegs, p: Pins): seq<Beat> {
    if p.resetn && p.sValid && SlaveReady(s) then [Beat(p.sData, p.sLast)] else []
  }

  /** The word given at the master port in one cycle, if any. */
  function Given(s: StreamRegs, p: Pins): seq<Beat> {
    if p.resetn && p.mReady && MasterValid(s) then [Beat(MasterData(s), MasterLast(s))] else []
  }

  /** What passed the ports since the last reset, and the round keys in the RAM at that time. */
  datatype Log = Log(ks: Keys, taken: seq<Beat>, given: seq<Beat>)

  function LogNext(s: StreamRegs, log: Log, p: Pins): Log {
    if p.resetn then Log(log.ks, log.taken + Taken(s, p), log.given + Given(s, p))
    else Log(s.ctrl.top.ram.mem[..11], [], [])
  }

  function RunLog(s: StreamRegs, log: Log, ins: seq<Pins>): Log
    decreases |ins|
  {
    if ins == [] then log else RunLog(StreamNext(s, ins[0]), LogNext(s, log, ins[0]), ins[1..])
  }

  function Run(s: StreamRegs, ins: seq<Pins>): StreamRegs
    decreases |ins|
  {
    if ins == [] then s else Run(StreamNext(s, ins[0]), ins[1..])
  }
}
