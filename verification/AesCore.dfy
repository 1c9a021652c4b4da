/** The clocked modules of the AES core: `block_ram`, `round_key`, `cipher`, `decipher` and
    `aes_top`.  A value of a `...Regs` type holds a module's registers, and its `...Next` function
    is one clock edge: every register gets its next value from the present values of all of them. */
module AesCore {
  import opened AesField
  import opened AesBlock
  import opened AesHdl

  /** A four-bit register; arithmetic on it wraps. */
  type Nibble = n: nat | n < 16

  function Inc4(n: Nibble): Nibble { (n + 1) % 16 }

  function Dec4(n: Nibble): Nibble { (n + 15) % 16 }

  const SET_KEY: Word := [0, 0, 0, 0x10]
  const ECB_ENCRYPT: Word := [0, 0, 0, 0x20]
  const ECB_DECRYPT: Word := [0, 0, 0, 0x30]
  const CBC_ENCRYPT: Word := [0, 0, 0, 0x40]
  const CBC_DECRYPT: Word := [0, 0, 0, 0x41]

  predicate IsEncrypt(cmd: Word) { cmd == ECB_ENCRYPT || cmd == CBC_ENCRYPT }

  predicate IsDecrypt(cmd: Word) { cmd == ECB_DECRYPT || cmd == CBC_DECRYPT }

  // ------------------------------------------------------------------ block_ram.v

  type Memory = m: seq<Block> | |m| == 512 witness seq(512, _ => ZERO)

  datatype RamRegs = RamRegs(mem: Memory, out: Block)

  /** A write has priority over a read, and the read data shows one cycle later. */
  function RamNext(m: RamRegs, addr: nat, data: Block, wE: bool, rE: bool): RamRegs
    requires addr < 512
  {
    if wE then m.(mem := m.mem[addr := data])
    else if rE then m.(out := m.mem[addr])
    else m
  }

  // ------------------------------------------------------------------ round_key.v

  datatype RoundKeyRegs = RoundKeyRegs(busy: bool, key: Block, roundNo: Nibble, wE: bool, enO: bool)

  function RoundKeyNext(r: RoundKeyRegs, reset: bool, en: bool, key: Block): RoundKeyRegs {
    if reset then RoundKeyRegs(false, ZERO, 0, false, false)
    else if !r.busy then
      if en then RoundKeyRegs(true, key, 0, true, false) else r.(wE := false, enO := false)
    else
      RoundKeyRegs(r.roundNo != 9, NextKey(r.key, r.roundNo), Inc4(r.roundNo), true, r.roundNo == 9)
  }

  // ------------------------------------------------------------------ cipher.v

  datatype CoreState = Idle | InitSram | FirstRound | Rounds

  datatype CipherRegs = CipherRegs(fsm: CoreState, text: Block, roundNo: Nibble, rE: bool, enO: bool)

  /** Reset leaves `fsm_state` alone. */
  function CipherNext(r: CipherRegs, reset: bool, en: bool, plaintext: Block, key: Block): CipherRegs {
    if reset then CipherRegs(r.fsm, ZERO, 0, false, false)
    else match r.fsm
      case Idle =>
        if en then CipherRegs(InitSram, plaintext, 0, true, false) else r.(rE := false, enO := false)
      case InitSram => r.(fsm := FirstRound, roundNo := Inc4(r.roundNo), rE := true)
      case FirstRound => r.(fsm := Rounds, text := Xor(r.text, key), roundNo := Inc4(r.roundNo), rE := true)
      case Rounds =>
        var last := r.roundNo == 11;
        CipherRegs(if last then Idle else Rounds, HdlRound(r.text, key, last), Inc4(r.roundNo), true,
                   if last then true else r.enO)
  }

  // ------------------------------------------------------------------ decipher.v

  /** The register `_round_no` is one ahead of the key address the module puts out. */
  datatype DecipherRegs = DecipherRegs(fsm: CoreState, text: Block, roundNo: Nibble, rE: bool, enO: bool)

  function DecipherNext(r: DecipherRegs, reset: bool, en: bool, ciphertext: Block, key: Block): DecipherRegs {
    if reset then DecipherRegs(r.fsm, ZERO, 0, false, false)
    else match r.fsm
      case Idle =>
        if en then DecipherRegs(InitSram, ciphertext, 11, true, false) else r.(rE := false, enO := false)
      case InitSram => r.(fsm := FirstRound, roundNo := Dec4(r.roundNo), rE := true, enO := false)
      case FirstRound =>
        DecipherRegs(Rounds, Xor(r.text, key), Dec4(r.roundNo), true, false)
      case Rounds =>
        var last := r.roundNo == 0;
        DecipherRegs(if last then Idle else Rounds, HdlInvRound(r.text, key, last), Dec4(r.roundNo), !last, last)
  }

  // ------------------------------------------------------------------ aes_top.v

  datatype TopRegs = TopRegs(rk: RoundKeyRegs, ram: RamRegs, enc: CipherRegs, dec: DecipherRegs)

  /** The three users of the key RAM share one address. */
  function KeyAddress(s: TopRegs): Nibble {
    if s.rk.wE then s.rk.roundNo else if s.enc.rE then s.enc.roundNo else Dec4(s.dec.roundNo)
  }

  function TopNext(s: TopRegs, reset: bool, en: bool, cmd: Word, key: Block, blk: Block): TopRegs {
    TopRegs(RoundKeyNext(s.rk, reset, en && cmd == SET_KEY, key),
            RamNext(s.ram, KeyAddress(s), s.rk.key, s.rk.wE, s.enc.rE || s.dec.rE),
            CipherNext(s.enc, reset, en && IsEncrypt(cmd), blk, s.ram.out),
            DecipherNext(s.dec, reset, en && IsDecrypt(cmd), blk, s.ram.out))
  }

  function TopDone(s: TopRegs): bool {
    s.enc.enO || s.dec.enO || s.rk.enO
  }

  function TopOut(s: TopRegs): Block {
    if s.enc.enO then s.enc.text else if s.dec.enO then s.dec.text else ZERO
  }
}
