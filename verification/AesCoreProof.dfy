/** What the AES core computes, cycle by cycle. */
module AesCoreProof {
  import opened AesField
  import opened AesBlock
  import opened AesHdl
  import opened AesCore

  /** The key RAM holds the round keys `ks`. */
  ghost predicate Stored(mem: Memory, ks: Keys) {
    forall r :: 0 <= r < 11 ==> mem[r] == ks[r]
  }

  ghost predicate KeyGenIdle(r: RoundKeyRegs) { !r.busy && !r.wE && !r.enO }

  ghost predicate EncIdle(r: CipherRegs) { r.fsm.Idle? && !r.rE && !r.enO }

  ghost predicate DecIdle(r: DecipherRegs) { r.fsm.Idle? && !r.rE && !r.enO }

  ghost predicate TopIdle(s: TopRegs, ks: Keys) {
    KeyGenIdle(s.rk) && EncIdle(s.enc) && DecIdle(s.dec) && Stored(s.ram.mem, ks)
  }

  /** The registers of `cipher.v`, `a` cycles after the start of encrypting `p`, with `key` visible
      at the key RAM.  The counter is one ahead of the key address issued last and two ahead of the
      key that is visible. */
  ghost predicate CipherAt(r: CipherRegs, key: Block, ks: Keys, p: Block, a: nat)
    requires 1 <= a <= 13
  {
    && r.rE
    && (r.enO <==> a == 13)
    && if a == 1 then r.fsm.InitSram? && r.roundNo == 0 && r.text == p
       else if a == 2 then r.fsm.FirstRound? && r.roundNo == 1 && r.text == p && key == ks[0]
       else if a <= 12 then r.fsm.Rounds? && r.roundNo == a - 1 && r.text == EncState(p, ks, a - 3) && key == ks[a - 2]
       else r.fsm.Idle? && r.text == Cipher(p, ks)
  }

  ghost predicate Encrypting(s: TopRegs, ks: Keys, p: Block, a: nat) {
    && KeyGenIdle(s.rk) && DecIdle(s.dec) && Stored(s.ram.mem, ks)
    && 1 <= a <= 13
    && CipherAt(s.enc, s.ram.out, ks, p, a)
  }

  /** The same for `decipher.v`: the keys come last to first. */
  ghost predicate DecipherAt(r: DecipherRegs, key: Block, ks: Keys, c: Block, a: nat)
    requires 1 <= a <= 13
  {
    && (r.rE <==> a < 13)
    && (r.enO <==> a == 13)
    && if a == 1 then r.fsm.InitSram? && r.roundNo == 11 && r.text == c
       else if a == 2 then r.fsm.FirstRound? && r.roundNo == 10 && r.text == c && key == ks[10]
       else if a <= 12 then
         r.fsm.Rounds? && r.roundNo == 12 - a && r.text == DecState(c, ks, 13 - a) && key == ks[12 - a]
       else r.fsm.Idle? && r.text == Decipher(c, ks)
  }

  ghost predicate Decrypting(s: TopRegs, ks: Keys, c: Block, a: nat) {
    && KeyGenIdle(s.rk) && EncIdle(s.enc) && Stored(s.ram.mem, ks)
    && 1 <= a <= 13
    && DecipherAt(s.dec, s.ram.out, ks, c, a)
  }

  /** Expansion of `key`, `a` cycles after its start: round key a - 1 is about to be written. */
  ghost predicate Expanding(s: TopRegs, key: Block, a: nat) {
    && EncIdle(s.enc) && DecIdle(s.dec)
    && 1 <= a <= 11
    && s.rk.wE && s.rk.roundNo == a - 1 && s.rk.key == RoundKey(key, a - 1)
    && (s.rk.busy <==> a < 11)
    && (s.rk.enO <==> a == 11)
    && (forall r :: 0 <= r < a - 1 ==> s.ram.mem[r] == RoundKey(key, r))
  }

  // ------------------------------------------------------------------ one cycle

  lemma IdleStep(s: TopRegs, ks: Keys, reset: bool, cmd: Word, key: Block, blk: Block)
    requires TopIdle(s, ks)
    ensures TopIdle(TopNext(s, reset, false, cmd, key, blk), ks)
    ensures !TopDone(s)
  {
  }

  lemma EncryptionRounds(p: Block, ks: Keys, r: nat)
    requires r <= 9
    ensures EncState(p, ks, r) == if r == 0 then Xor(p, ks[0]) else Round(EncState(p, ks, r - 1), ks[r])
    ensures Cipher(p, ks) == Xor(ShiftRows(SubBytes(EncState(p, ks, 9))), ks[10])
    ensures EncState(p, ks, 0) == Xor(p, ks[0])
  {
    hide Round, Xor, ShiftRows, SubBytes;
  }

  lemma DecryptionRounds(c: Block, ks: Keys, r: nat)
    requires 1 <= r <= 10
    ensures DecState(c, ks, r) == if r == 10 then Xor(c, ks[10]) else InvRound(DecState(c, ks, r + 1), ks[r])
    ensures Decipher(c, ks) == Xor(InvSubBytes(InvShiftRows(DecState(c, ks, 1))), ks[0])
    ensures DecState(c, ks, 10) == Xor(c, ks[10])
  {
    hide InvRound, Xor, InvShiftRows, InvSubBytes;
  }

  lemma EncryptStart(s: TopRegs, ks: Keys, cmd: Word, key: Block, blk: Block)
    requires TopIdle(s, ks) && IsEncrypt(cmd)
    ensures Encrypting(TopNext(s, false, true, cmd, key, blk), ks, blk, 1)
  {
  }

  lemma CipherStep(r: CipherRegs, key: Block, key': Block, ks: Keys, p: Block, a: nat, blk: Block)
    requires 1 <= a < 13
    requires CipherAt(r, key, ks, p, a)
    requires a < 12 ==> key' == ks[a - 1]
    ensures CipherAt(CipherNext(r, false, false, blk, key), key', ks, p, a + 1)
  {
    hide HdlRound, Round, Xor, ShiftRows, SubBytes, EncState, Cipher;
    HdlRoundAgrees(r.text, key);
    EncryptionRounds(p, ks, if 3 <= a <= 11 then a - 2 else 0);
  }

  lemma EncryptStep(s: TopRegs, ks: Keys, p: Block, a: nat, cmd: Word, key: Block, blk: Block)
    requires Encrypting(s, ks, p, a)
    ensures a < 13 ==> Encrypting(TopNext(s, false, false, cmd, key, blk), ks, p, a + 1)
    ensures a == 13 ==> TopIdle(TopNext(s, false, false, cmd, key, blk), ks)
    ensures TopDone(s) <==> a == 13
    ensures a == 13 ==> TopOut(s) == Cipher(p, ks)
  {
    hide HdlRound, EncState, Cipher;
    if a < 13 {
      var s' := TopNext(s, false, false, cmd, key, blk);
      assert a < 12 ==> s'.ram.out == ks[a - 1];
      CipherStep(s.enc, s.ram.out, s'.ram.out, ks, p, a, blk);
    }
  }

  lemma DecryptStart(s: TopRegs, ks: Keys, cmd: Word, key: Block, blk: Block)
    requires TopIdle(s, ks) && IsDecrypt(cmd)
    ensures Decrypting(TopNext(s, false, true, cmd, key, blk), ks, blk, 1)
  {
  }

  lemma DecipherStep(r: DecipherRegs, key: Block, key': Block, ks: Keys, c: Block, a: nat, blk: Block)
    requires 1 <= a < 13
    requires DecipherAt(r, key, ks, c, a)
    requires a < 12 ==> key' == ks[11 - a]
    ensures DecipherAt(DecipherNext(r, false, false, blk, key), key', ks, c, a + 1)
  {
    hide HdlInvRound, InvRound, Xor, InvShiftRows, InvSubBytes, DecState, Decipher;
    HdlInvRoundAgrees(r.text, key);
    DecryptionRounds(c, ks, if 3 <= a <= 11 then 12 - a else 10);
  }

  lemma DecryptStep(s: TopRegs, ks: Keys, c: Block, a: nat, cmd: Word, key: Block, blk: Block)
    requires Decrypting(s, ks, c, a)
    ensures a < 13 ==> Decrypting(TopNext(s, false, false, cmd, key, blk), ks, c, a + 1)
    ensures a == 13 ==> TopIdle(TopNext(s, false, false, cmd, key, blk), ks)
    ensures TopDone(s) <==> a == 13
    ensures a == 13 ==> TopOut(s) == Decipher(c, ks)
  {
    hide HdlInvRound, DecState, Decipher;
    if a < 13 {
      var s' := TopNext(s, false, false, cmd, key, blk);
      assert a < 12 ==> s'.ram.out == ks[11 - a];
      DecipherStep(s.dec, s.ram.out, s'.ram.out, ks, c, a, blk);
    }
  }

  lemma ExpandStart(s: TopRegs, ks: Keys, key: Block, blk: Block)
    requires TopIdle(s, ks)
    ensures Expanding(TopNext(s, false, true, SET_KEY, key, blk), key, 1)
  {
    hide RoundKey;
    RoundKeyZero(key);
  }

  lemma ExpandStep(s: TopRegs, k: Block, a: nat, cmd: Word, key: Block, blk: Block)
    requires Expanding(s, k, a)
    ensures a < 11 ==> Expanding(TopNext(s, false, false, cmd, key, blk), k, a + 1)
    ensures a == 11 ==> TopIdle(TopNext(s, false, false, cmd, key, blk), Expand(k))
    ensures TopDone(s) <==> a == 11
    ensures a == 11 ==> TopOut(s) == ZERO
  {
    hide RoundKey, NextKey;
    if a < 11 {
      NextKeyIsRoundKey(k, a - 1);
    }
  }

  /** A reset brings the core to rest exactly if neither cipher is at work: their state registers have no
      reset. */
  lemma ResetRests(s: TopRegs, en: bool, cmd: Word, key: Block, blk: Block)
    ensures var t := TopNext(s, true, en, cmd, key, blk);
            KeyGenIdle(t.rk) && EncIdle(t.enc) && DecIdle(t.dec) <==> s.enc.fsm.Idle? && s.dec.fsm.Idle?
  {
  }
}
