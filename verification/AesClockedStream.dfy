/** `aes_controller.v` and `aes_axi_stream.v` as objects, clocked like those of `AesClocked`.  The
    stream object carries the history of its ports and keeps what the whole-run theorem says. */
module AesClockedStream {
  import opened AesField
  import opened AesBlock
  import opened AesCore
  import opened AesCoreProof
  import opened AesModes
  import opened AesController
  import opened AesStream
  import opened AesStreamSpec
  import opened AesStreamProof
  import opened AesStreamRuns
  import opened AesStreamTheorems
  import opened AesClocked

  /** `aes_controller.v`. */
  class Controller {
    var state: CtrlState
    var readPtr: nat
    var writePtr: nat
    var start: bool
    var iv: Block
    var outData: Block
    var outBlkNo: nat
    var outWE: bool
    var outAddr: nat
    var inRE: bool
    var enO: bool
    const aes: AesTop

    ghost function Parts(): set<object> { {this, aes.rk, aes.ram, aes.ram.sram, aes.enc, aes.dec} }

    ghost predicate Valid() { aes.Valid() }

    /** The registers, given those of the core. */
    ghost function Own(top: TopRegs): CtrlRegs
      reads this
    {
      CtrlRegs(state, readPtr, writePtr, start, iv, outData, outBlkNo, outWE, outAddr, inRE, enO, top)
    }

    ghost function Regs(): CtrlRegs
      requires Valid()
      reads Parts()
    {
      Own(aes.Regs())
    }

    constructor ()
      ensures Valid() && fresh(Parts())
      ensures ControllerOff(Regs())
    {
      state, readPtr, writePtr, start, iv := Waiting, 0, 0, false, ZERO;
      outData, outBlkNo, outWE, outAddr, inRE, enO := ZERO, 0, false, 0, false, false;
      aes := new AesTop();
    }

    /** The controller's own clocked block. */
    method Edge(reset: bool, en: bool, cmd: Word, blk: Block, inBlkCnt: nat, done: bool, out: Block, ghost top: TopRegs)
      modifies this
      ensures Own(top) == CtrlEdge(old(Own(top)), reset, en, cmd, blk, inBlkCnt, done, out)
    {
      hide Xor, SwapBytes, Low9, Inc32, IsCbc;
      if reset {
        state, writePtr, enO, iv, outBlkNo := Waiting, 0, false, ZERO, 0;
        return;
      }
      enO, inRE, outWE := false, false, false;
      match state {
        case Waiting =>
          start, readPtr, writePtr := false, 0, 0;
          if en {
            state, inRE := InitBlockRam, true;
          }
        case InitBlockRam =>
          outBlkNo, state := 0, Start;
          if IsCbc(cmd) {
            state := GetIv;
          }
        case GetIv =>
          iv, inRE, readPtr, state := blk, true, Inc32(readPtr), Start;
        case Start =>
          state, start := Process, true;
          if readPtr == inBlkCnt {
            start, state, enO, readPtr := false, Waiting, true, 0;
          }
        case Process =>
          start := false;
          if done {
            outWE, outAddr, outData, outBlkNo := true, Low9(writePtr), SwapBytes(out), Low9(outBlkNo + 1);
            if cmd == CBC_DECRYPT {
              outData, iv := SwapBytes(Xor(iv, out)), blk;
            }
            if cmd == CBC_ENCRYPT {
              iv := out;
            }
            writePtr, readPtr, inRE, state := Inc32(writePtr), Inc32(readPtr), true, Start;
          }
      }
    }

    method Tick(reset: bool, en: bool, cmd: Word, inData: Block, inBlkCnt: nat)
      requires Valid()
      modifies Parts()
      ensures Regs() == CtrlNext(old(Regs()), reset, en, cmd, inData, inBlkCnt)
    {
      hide TopNext, TopDone, TopOut, Xor, SwapBytes, CtrlEdge;
      var done, out := aes.Outputs();
      var blk := SwapBytes(inData);
      var offered := if cmd == CBC_ENCRYPT then Xor(iv, blk) else blk;
      var starting := start;
      Edge(reset, en, cmd, blk, inBlkCnt, done, out, aes.Regs());
      aes.Tick(reset, starting, cmd, blk, offered);
    }
  }

  /** The slave side of `aes_axi_stream.v`: words are shifted into a block that goes to the input RAM. */
  class SlavePort {
    var payload: bool
    var blk: Block
    var blkCnt: nat
    var wordCnt: nat
    var cmd: Word
    var wE: bool
    var addr: nat
    var writesDone: bool
    var total: nat

    ghost function Regs(): SlaveRegs
      reads this
    {
      SlaveRegs(payload, blk, blkCnt, wordCnt, cmd, wE, addr, writesDone, total)
    }

    constructor ()
      ensures Regs() == SlaveRegs(false, ZERO, 0, 0, [0, 0, 0, 0], false, 0, false, 0)
    {
      payload, blk, blkCnt, wordCnt, cmd, wE, addr, writesDone, total :=
        false, ZERO, 0, 0, [0, 0, 0, 0], false, 0, false, 0;
    }

    method Tick(p: Pins, ready: bool, procDone: bool, ghost s: StreamRegs)
      requires s.slave == Regs() && ready == SlaveReady(s) && procDone == s.procDone
      modifies this
      ensures Regs() == SlaveNext(s, p)
    {
      hide ShiftIn, Low9;
      var wren := p.sValid && ready;
      if !p.resetn {
        payload, blk, blkCnt, wordCnt, cmd, wE, addr, writesDone, total :=
          false, ZERO, 0, 0, [0, 0, 0, 0], false, 0, false, 0;
      } else if !payload {
        if wren {
          cmd, payload := p.sData, true;
        }
      } else {
        wE := false;
        if wren {
          blk := ShiftIn(blk, p.sData);
          if wordCnt == 3 {
            addr, wE, wordCnt := blkCnt, true, 0;
            if blkCnt == 511 || p.sLast {
              blkCnt, total, writesDone := 0, Low9(blkCnt + 1), true;
            } else {
              blkCnt := Low9(blkCnt + 1);
            }
          } else {
            wordCnt := (wordCnt + 1) % 4;
          }
        }
        if procDone {
          payload, writesDone := false, false;
        }
      }
    }
  }

  /** The master side of `aes_axi_stream.v`: blocks are read ahead and handed over word by word. */
  class MasterPort {
    var fsm: MasterState
    var blk: Block
    var blkCnt: nat
    var addr: nat
    var wordCnt: nat
    var txDone: bool
    var valid: bool
    var rE: bool

    ghost function Regs(): MasterRegs
      reads this
    {
      MasterRegs(fsm, blk, blkCnt, addr, wordCnt, txDone, valid, rE)
    }

    constructor ()
      ensures Regs() == MasterRegs(MasterIdle, ZERO, 0, 0, 0, false, false, false)
    {
      fsm, blk, blkCnt, addr, wordCnt, txDone, valid, rE := MasterIdle, ZERO, 0, 0, 0, false, false, false;
    }

    method Tick(p: Pins, active: bool, last: bool, next: Block, ghost s: StreamRegs)
      requires s.master == Regs() && active == (s.state == MasterSend || s.procDone)
      requires last == MasterLast(s) && next == s.outRam.out
      modifies this
      ensures Regs() == MasterNext(s, p)
    {
      hide Low9;
      if !p.resetn {
        blk, addr, wordCnt, blkCnt, txDone, valid, fsm := ZERO, 0, 0, 0, false, false, MasterIdle;
        return;
      }
      var wasDone := txDone;
      rE, txDone, valid := false, false, false;
      match fsm {
        case MasterIdle =>
          if active && !wasDone {
            rE, fsm := true, MasterInitSram;
          }
        case MasterInitSram =>
          rE, fsm, addr := true, MasterInitTransfer, 0;
        case MasterInitTransfer =>
          rE, blk, valid, addr, fsm := true, next, true, Low9(blkCnt + 1), MasterTransfer;
        case MasterTransfer =>
          rE, valid := true, true;
          if p.mReady {
            if wordCnt == 3 {
              blk, addr, wordCnt, blkCnt := next, Low9(addr + 1), 0, Low9(blkCnt + 1);
            } else {
              wordCnt := Low9(wordCnt + 1);
            }
            if last {
              addr, blkCnt, wordCnt, txDone, valid, fsm := 0, 0, 0, true, false, MasterIdle;
            }
          }
      }
    }
  }

  /** What the wires between the modules of `aes_axi_stream.v` carry: to the input RAM, to the output
      RAM, to the controller and to the state machines. */
  datatype Wires = Wires(
    inAddr: nat, inShown: Block, inData: Block, inWE: bool, inRE: bool,
    outAddr: nat, outData: Block, outWE: bool, outRE: bool,
    starting: bool, cmd: Word, total: nat, done: bool, writesDone: bool, txDone: bool)

  function WiresOf(s: StreamRegs): Wires {
    Wires(if s.ctrl.inRE then Low9(s.ctrl.readPtr) else Low9(s.slave.addr),
          s.inRam.out, s.slave.blk, s.slave.wE, s.ctrl.inRE,
          if s.ctrl.outWE then Low9(s.ctrl.outAddr) else Low9(s.master.addr), s.ctrl.outData, s.ctrl.outWE, s.master.rE,
          StartProcessing(s), s.slave.cmd, s.slave.total, s.ctrl.enO, s.slave.writesDone, s.master.txDone)
  }

  /** The edge of the whole is the edge of the parts. */
  lemma AllTicked(s: StreamRegs, t: StreamRegs, p: Pins)
    requires t.state == StateNext(s, p) && t.slave == SlaveNext(s, p) && t.master == MasterNext(s, p)
    requires t.procDone == s.ctrl.enO
    requires var w := WiresOf(s);
             && t.ctrl == CtrlNext(s.ctrl, !p.resetn, w.starting, w.cmd, w.inShown, w.total)
             && t.inRam == RamNext(s.inRam, w.inAddr, w.inData, w.inWE, w.inRE)
             && t.outRam == RamNext(s.outRam, w.outAddr, w.outData, w.outWE, w.outRE)
    ensures t == StreamNext(s, p)
  {
    hide RamNext, CtrlNext, SlaveNext, MasterNext, StateNext;
  }

  /** `aes_axi_stream.v`: both ports, both RAMs and the controller. */
  class AxiStream {
    var state: StreamState
    var procDone: bool
    const slave: SlavePort
    const master: MasterPort
    const controller: Controller
    const inFifo: BlockRam
    const outFifo: BlockRam

    /** The phase of the transaction, and what passed the ports since the last reset. */
    ghost var phase: Phase
    ghost var log: Log

    /** Everything but this object. */
    ghost function Modules(): set<object> {
      {slave, master, inFifo, inFifo.sram, outFifo, outFifo.sram, controller,
       controller.aes.rk, controller.aes.ram, controller.aes.ram.sram, controller.aes.enc, controller.aes.dec}
    }

    ghost function Parts(): set<object> { {this} + Modules() }

    ghost predicate Apart() {
      && inFifo.Valid() && outFifo.Valid() && controller.Valid()
      && inFifo != outFifo && inFifo.sram != outFifo.sram
      && inFifo != controller.aes.ram && outFifo != controller.aes.ram
      && inFifo.sram != controller.aes.ram.sram && outFifo.sram != controller.aes.ram.sram
    }

    ghost function Regs(): StreamRegs
      requires Apart()
      reads `state, `procDone, Modules()
    {
      StreamRegs(state, slave.Regs(), master.Regs(), procDone, controller.Regs(), inFifo.Regs(), outFifo.Regs())
    }

    /** The registers stand where the history of the ports says. */
    ghost predicate Valid()
      reads Parts()
    {
      && Apart() && WellFormed(phase)
      && StreamAt(Regs(), phase) && Logged(log, phase)
    }

    /** Power on: all registers zero. */
    constructor ()
      ensures Apart() && fresh(Parts())
      ensures PoweredOn(Regs())
      ensures phase == Ready(Regs().ctrl.top.ram.mem[..11]) && log == Log(Regs().ctrl.top.ram.mem[..11], [], [])
    {
      hide Controller.Own, AesTop.Regs;
      state, procDone := Idling, false;
      slave := new SlavePort();
      master := new MasterPort();
      inFifo := new BlockRam();
      outFifo := new BlockRam();
      var c := new Controller();
      controller := c;
      phase, log := Ready(c.Regs().top.ram.mem[..11]), Log(c.Regs().top.ram.mem[..11], [], []);
    }

    lemma PoweredOnIsValid()
      requires Apart() && PoweredOn(Regs())
      requires phase == Ready(Regs().ctrl.top.ram.mem[..11]) && log == Log(Regs().ctrl.top.ram.mem[..11], [], [])
      ensures Valid()
    {
      hide StreamAt, History, PoweredOn, AxiStream.Regs;
      PowerOnIsReady(Regs());
      NothingYet(log.ks);
    }

    /** One clock edge: what the ports show before it, and the new state.  Over any legal run the words
        given since the last reset stay a prefix of the answers to the frames taken since then. */
    method Tick(p: Pins) returns (ready: bool, valid: bool, data: Word, last: bool)
      requires Valid() && Legal(phase, p)
      modifies Parts()
      ensures Valid() && Regs() == StreamNext(old(Regs()), p)
      ensures phase == PhaseNext(old(phase), p)
      ensures p.resetn ==>
                && log.ks == old(log.ks)
                && log.taken == old(log.taken) + (if p.sValid && ready then [Beat(p.sData, p.sLast)] else [])
                && log.given == old(log.given) + (if p.mReady && valid then [Beat(data, last)] else [])
      ensures !p.resetn ==> log.ks == KeysOf(old(phase)) && log.taken == [] && log.given == []
      ensures log.given <= Due(log)
      ensures phase.Ready? ==> log.given == Due(log) && Frames(log.taken).rest == []
    {
      hide StreamAt, History, WellFormed, Legal, PhaseNext, Answers, Frames, StreamNext, SlaveReady, MasterValid,
           MasterData, MasterLast, AxiStream.Regs, KeysOf, Logged;
      ghost var s := Regs();
      if !p.resetn {
        ResetLog(s, phase, log, p);
      }
      ready, valid, data, last := Ports(s);
      Edge(p, ready, last);
      CycleKeepsHistory(s, phase, log, p);
      phase, log := PhaseNext(phase, p), LogNext(s, log, p);
    }

    /** What the ports show before the edge. */
    method Ports(ghost s: StreamRegs) returns (ready: bool, valid: bool, data: Word, last: bool)
      requires Apart() && s == Regs()
      ensures ready == SlaveReady(s) && valid == MasterValid(s) && data == MasterData(s) && last == MasterLast(s)
    {
      hide Low9, Column;
      ready := state == WriteFifo && !slave.writesDone;
      valid := master.valid;
      data := if master.wordCnt < 4 then Column(master.blk, master.wordCnt) else [0, 0, 0, 0];
      last := master.blkCnt == Low9(controller.outBlkNo + 511) && master.wordCnt == 3;
    }

    /** Both ports see the edge. */
    method TickPorts(p: Pins, ready: bool, last: bool, ghost s: StreamRegs)
      requires Apart() && s == Regs() && ready == SlaveReady(s) && last == MasterLast(s)
      modifies slave, master
      ensures slave.Regs() == SlaveNext(s, p) && master.Regs() == MasterNext(s, p)
    {
      hide SlaveNext, MasterNext, SlaveReady, MasterLast;
      slave.Tick(p, ready, procDone, s);
      master.Tick(p, state == MasterSend || procDone, last, outFifo.out, s);
    }

    /** The wires between the modules. */
    method ReadWires(ghost s: StreamRegs) returns (w: Wires)
      requires Apart() && s == Regs()
      ensures w == WiresOf(s) && w.inAddr < 512 && w.outAddr < 512
      ensures w.writesDone == s.slave.writesDone && w.txDone == s.master.txDone && w.done == s.ctrl.enO
    {
      hide Low9, TopIdle;
      var c, v := controller, slave;
      w := Wires(if c.inRE then Low9(c.readPtr) else Low9(v.addr), inFifo.out, v.blk, v.wE, c.inRE,
                 if c.outWE then Low9(c.outAddr) else Low9(master.addr), c.outData, c.outWE, master.rE,
                 state == WriteFifo && v.writesDone && !procDone, v.cmd, v.total, c.enO, v.writesDone, master.txDone);
    }

    /** The state machine of the transaction. */
    method TickState(p: Pins, writesDone: bool, txDone: bool, done: bool, ghost s: StreamRegs)
      requires s.state == state && s.procDone == procDone
      requires s.slave.writesDone == writesDone && s.master.txDone == txDone
      modifies `state, `procDone
      ensures state == StateNext(s, p) && procDone == done
    {
      if !p.resetn {
        state := Idling;
      } else {
        match state {
          case Idling => state := if p.sValid then WriteFifo else Idling;
          case WriteFifo => state := if writesDone then ProcessStuff else WriteFifo;
          case ProcessStuff => state := if procDone then MasterSend else ProcessStuff;
          case MasterSend => state := if txDone then Idling else MasterSend;
        }
      }
      procDone := done;
    }

    /** Both RAMs see the edge. */
    method TickRams(w: Wires)
      requires Apart() && w.inAddr < 512 && w.outAddr < 512
      modifies inFifo, inFifo.sram, outFifo, outFifo.sram
      ensures inFifo.Regs() == RamNext(old(inFifo.Regs()), w.inAddr, w.inData, w.inWE, w.inRE)
      ensures outFifo.Regs() == RamNext(old(outFifo.Regs()), w.outAddr, w.outData, w.outWE, w.outRE)
    {
      hide RamNext;
      inFifo.Tick(w.inAddr, w.inData, w.inWE, w.inRE);
      outFifo.Tick(w.outAddr, w.outData, w.outWE, w.outRE);
    }

    /** Ports and RAMs see the edge. */
    method TickOuter(p: Pins, ready: bool, last: bool, w: Wires, ghost s: StreamRegs)
      requires Apart() && s == Regs() && ready == SlaveReady(s) && last == MasterLast(s)
      requires w.inAddr < 512 && w.outAddr < 512
      modifies slave, master, inFifo, inFifo.sram, outFifo, outFifo.sram
      ensures slave.Regs() == SlaveNext(s, p) && master.Regs() == MasterNext(s, p)
      ensures inFifo.Regs() == RamNext(s.inRam, w.inAddr, w.inData, w.inWE, w.inRE)
      ensures outFifo.Regs() == RamNext(s.outRam, w.outAddr, w.outData, w.outWE, w.outRE)
      ensures controller.Regs() == s.ctrl
    {
      hide RamNext, SlaveNext, MasterNext, SlaveReady, MasterLast, BlockRam.Regs, SlavePort.Regs, MasterPort.Regs;
      TickPorts(p, ready, last, s);
      assert controller.Regs() == s.ctrl;
      TickRams(w);
    }

    /** The controller sees the edge. */
    method TickController(p: Pins, w: Wires, ghost s: StreamRegs)
      requires Apart() && w == WiresOf(s) && controller.Regs() == s.ctrl
      modifies controller.Parts()
      ensures controller.Regs() == CtrlNext(s.ctrl, !p.resetn, w.starting, w.cmd, w.inShown, w.total)
      ensures slave.Regs() == old(slave.Regs()) && master.Regs() == old(master.Regs())
      ensures inFifo.Regs() == old(inFifo.Regs()) && outFifo.Regs() == old(outFifo.Regs())
    {
      hide CtrlNext, Low9, StartProcessing, StateNext,
           BlockRam.Regs, Controller.Regs, SlavePort.Regs, MasterPort.Regs;
      controller.Tick(!p.resetn, w.starting, w.cmd, w.inShown, w.total);
    }

    /** The registers of all modules change at once. */
    method Edge(p: Pins, ready: bool, last: bool)
      requires Apart() && ready == SlaveReady(Regs()) && last == MasterLast(Regs())
      modifies Modules(), `state, `procDone
      ensures Regs() == StreamNext(old(Regs()), p)
    {
      hide RamNext, CtrlNext, SlaveNext, MasterNext, Low9, SlaveReady, MasterLast, StartProcessing, StateNext,
           BlockRam.Regs, Controller.Regs, SlavePort.Regs, MasterPort.Regs, Controller.Own, AesTop.Regs,
           StreamNext, WiresOf;
      ghost var s := Regs();
      var w := ReadWires(s);
      TickOuter(p, ready, last, w, s);
      TickController(p, w, s);
      TickState(p, w.writesDone, w.txDone, w.done, s);
      AllTicked(s, Regs(), p);
    }
  }
}
