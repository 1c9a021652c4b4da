/** The clocked modules of the AES core as objects: the registers are fields, and `Tick` is a rising
    clock edge.  A `Tick` reads the wires before it changes a register; the assignments of one
    edge then follow in the order of the hardware description. */
module AesClocked {
  import opened AesField
  import opened AesBlock
  import opened AesHdl
  import opened AesCore

  /** `block_ram.v`. */
  class BlockRam {
    const sram: array<Block>
    var out: Block

    ghost predicate Valid() { sram.Length == 512 }

    ghost function Regs(): RamRegs
      requires Valid()
      reads this, sram
    {
      RamRegs(sram[..], out)
    }

    constructor ()
      ensures Valid() && fresh(sram) && Regs().out == ZERO
    {
      sram := new Block[512](_ => ZERO);
      out := ZERO;
    }

    method Tick(addr: nat, data: Block, wE: bool, rE: bool)
      requires Valid() && addr < 512
      modifies this, sram
      ensures Regs() == RamNext(old(Regs()), addr, data, wE, rE)
    {
      if wE {
        sram[addr] := data;
      } else if rE {
        out := sram[addr];
      }
    }
  }

  /** `round_key.v`. */
  class RoundKeyUnit {
    var busy: bool
    var key: Block
    var roundNo: Nibble
    var wE: bool
    var enO: bool

    ghost function Regs(): RoundKeyRegs
      reads this
    {
      RoundKeyRegs(busy, key, roundNo, wE, enO)
    }

    constructor ()
      ensures Regs() == RoundKeyRegs(false, ZERO, 0, false, false)
    {
      busy, key, roundNo, wE, enO := false, ZERO, 0, false, false;
    }

    method Tick(reset: bool, en: bool, newKey: Block)
      modifies this
      ensures Regs() == RoundKeyNext(old(Regs()), reset, en, newKey)
    {
      if reset {
        key, roundNo, enO, wE, busy := ZERO, 0, false, false, false;
      } else {
        var next := NextKey(key, roundNo);
        wE := false;
        if !busy {
          enO := false;
          if en {
            key, roundNo, wE, busy := newKey, 0, true, true;
          }
        } else {
          enO, wE := false, true;
          key := next;
          if roundNo == 9 {
            enO, busy := true, false;
          }
          roundNo := Inc4(roundNo);
        }
      }
    }
  }

  /** `cipher.v`. */
  class CipherUnit {
    var fsm: CoreState
    var text: Block
    var roundNo: Nibble
    var rE: bool
    var enO: bool

    ghost function Regs(): CipherRegs
      reads this
    {
      CipherRegs(fsm, text, roundNo, rE, enO)
    }

    constructor ()
      ensures Regs() == CipherRegs(Idle, ZERO, 0, false, false)
    {
      fsm, text, roundNo, rE, enO := Idle, ZERO, 0, false, false;
    }

    method Tick(reset: bool, en: bool, plaintext: Block, key: Block)
      modifies this
      ensures Regs() == CipherNext(old(Regs()), reset, en, plaintext, key)
    {
      if reset {
        text, roundNo, rE, enO := ZERO, 0, false, false;
        return;
      }
      match fsm {
        case Idle =>
          enO, rE := false, false;
          if en {
            text, roundNo, rE, fsm := plaintext, 0, true, InitSram;
          }
        case InitSram =>
          roundNo, rE, fsm := Inc4(roundNo), true, FirstRound;
        case FirstRound =>
          text, roundNo, rE, fsm := Xor(text, key), Inc4(roundNo), true, Rounds;
        case Rounds =>
          text, rE := HdlRound(text, key, roundNo == 11), true;
          if roundNo == 11 {
            fsm, enO := Idle, true;
          }
          roundNo := Inc4(roundNo);
      }
    }
  }

  /** `decipher.v`. */
  class DecipherUnit {
    var fsm: CoreState
    var text: Block
    var roundNo: Nibble
    var rE: bool
    var enO: bool

    ghost function Regs(): DecipherRegs
      reads this
    {
      DecipherRegs(fsm, text, roundNo, rE, enO)
    }

    constructor ()
      ensures Regs() == DecipherRegs(Idle, ZERO, 0, false, false)
    {
      fsm, text, roundNo, rE, enO := Idle, ZERO, 0, false, false;
    }

    method Tick(reset: bool, en: bool, ciphertext: Block, key: Block)
      modifies this
      ensures Regs() == DecipherNext(old(Regs()), reset, en, ciphertext, key)
    {
      if reset {
        rE, roundNo, text, enO := false, 0, ZERO, false;
        return;
      }
      enO := false;
      match fsm {
        case Idle =>
          rE := false;
          if en {
            text, roundNo, fsm, rE := ciphertext, 11, InitSram, true;
          }
        case InitSram =>
          fsm, rE, roundNo := FirstRound, true, Dec4(roundNo);
        case FirstRound =>
          rE, roundNo, text, fsm := true, Dec4(roundNo), Xor(text, key), Rounds;
        case Rounds =>
          rE, text := true, HdlInvRound(text, key, roundNo == 0);
          if roundNo == 0 {
            fsm, enO, rE := Idle, true, false;
          }
          roundNo := Dec4(roundNo);
      }
    }
  }

  /** `aes_top.v`: only wires between the four others. */
  class AesTop {
    const rk: RoundKeyUnit
    const ram: BlockRam
    const enc: CipherUnit
    const dec: DecipherUnit

    ghost function Parts(): set<object> { {rk, ram, ram.sram, enc, dec} }

    ghost predicate Valid() { ram.Valid() }

    ghost function Regs(): TopRegs
      requires Valid()
      reads Parts()
    {
      TopRegs(rk.Regs(), ram.Regs(), enc.Regs(), dec.Regs())
    }

    constructor ()
      ensures Valid() && fresh(Parts()) && Regs().ram.out == ZERO
      ensures Regs().rk == RoundKeyRegs(false, ZERO, 0, false, false)
      ensures Regs().enc == CipherRegs(Idle, ZERO, 0, false, false)
      ensures Regs().dec == DecipherRegs(Idle, ZERO, 0, false, false)
    {
      rk := new RoundKeyUnit();
      ram := new BlockRam();
      enc := new CipherUnit();
      dec := new DecipherUnit();
    }

    /** The wires of the key RAM. */
    method KeyWires(ghost s: TopRegs) returns (addr: Nibble, data: Block, shown: Block, wE: bool, rE: bool)
      requires Valid() && s == Regs()
      ensures addr == KeyAddress(s) && data == s.rk.key && shown == s.ram.out
      ensures wE == s.rk.wE && rE == (s.enc.rE || s.dec.rE)
    {
      addr := if rk.wE then rk.roundNo else if enc.rE then enc.roundNo else Dec4(dec.roundNo);
      data, shown, wE, rE := rk.key, ram.out, rk.wE, enc.rE || dec.rE;
    }

    method Tick(reset: bool, en: bool, cmd: Word, key: Block, blk: Block)
      requires Valid()
      modifies Parts()
      ensures Regs() == TopNext(old(Regs()), reset, en, cmd, key, blk)
    {
      hide RoundKeyNext, RamNext, CipherNext, DecipherNext, IsEncrypt, IsDecrypt, KeyAddress,
           RoundKeyUnit.Regs, BlockRam.Regs, CipherUnit.Regs, DecipherUnit.Regs;
      var addr, data, shown, wE, rE := KeyWires(Regs());
      rk.Tick(reset, en && cmd == SET_KEY, key);
      ram.Tick(addr, data, wE, rE);
      enc.Tick(reset, en && IsEncrypt(cmd), blk, shown);
      dec.Tick(reset, en && IsDecrypt(cmd), blk, shown);
    }

    method Outputs() returns (done: bool, out: Block)
      requires Valid()
      ensures done == TopDone(Regs()) && out == TopOut(Regs())
    {
      done := enc.enO || dec.enO || rk.enO;
      out := if enc.enO then enc.text else if dec.enO then dec.text else ZERO;
    }
  }
}
