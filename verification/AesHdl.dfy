/** The block functions of the AES hardware.  A 128-bit vector [0:127] is the sequence of its
    sixteen bytes, most significant first, and a 32-bit vector the sequence of its four. */
module AesHdl {
  import opened AesField
  import opened AesTables
  import opened AesBlock

  function HdlSubBytes(blk: Block): (r: Block) {
    seq(16, i requires 0 <= i < 16 => HdlSbox(blk[i]))
  }

  function HdlInvSubBytes(blk: Block): (r: Block) {
    seq(16, i requires 0 <= i < 16 => HdlInvSbox(blk[i]))
  }

  /** Every byte is assigned by several of the nested loops; the last one starts at the first
      byte of its own word. */
  function HdlShiftRows(blk: Block): (r: Block) {
    seq(16, i requires 0 <= i < 16 => var j := 4 * (i / 4); blk[(j + 5 * (i - j)) % 16])
  }

  function HdlInvShiftRows(blk: Block): (r: Block) {
    seq(16, i requires 0 <= i < 16 => var j := 4 * (i / 4); blk[(j + 13 * (i - j)) % 16])
  }

  function Mul2(op: bv8): bv8 { (op << 1) ^ (((op >> 7) & 1) * 0x1b) }

  function HdlMul3(op: bv8): bv8 { Pair(Mul2(op), op) }

  /** The product of `x` and the five low bits of `y`, from repeated doubling. */
  function HdlMultiply(x: bv8, y: bv8): bv8 {
    Picked(y, x, Mul2(x), Mul2(Mul2(x)), Mul2(Mul2(Mul2(x))), Mul2(Mul2(Mul2(Mul2(x)))))
  }

  /** `mix_word`, assignment by assignment. */
  function MixBytes(byte0: bv8, byte1: bv8, byte2: bv8, byte3: bv8): (r: Word) {
    [Sum(Mul2(byte0), HdlMul3(byte1), byte2, byte3), Sum(byte0, Mul2(byte1), HdlMul3(byte2), byte3),
     Sum(byte0, byte1, Mul2(byte2), HdlMul3(byte3)), Sum(HdlMul3(byte0), byte1, byte2, Mul2(byte3))]
  }

  function HdlMixWord(w: Word): Word { MixBytes(w[0], w[1], w[2], w[3]) }

  /** `inv_mix_word`, assignment by assignment. */
  function InvMixBytes(byte0: bv8, byte1: bv8, byte2: bv8, byte3: bv8): (r: Word) {
    [Sum(HdlMultiply(byte0, 0x0e), HdlMultiply(byte1, 0x0b), HdlMultiply(byte2, 0x0d), HdlMultiply(byte3, 0x09)),
     Sum(HdlMultiply(byte0, 0x09), HdlMultiply(byte1, 0x0e), HdlMultiply(byte2, 0x0b), HdlMultiply(byte3, 0x0d)),
     Sum(HdlMultiply(byte0, 0x0d), HdlMultiply(byte1, 0x09), HdlMultiply(byte2, 0x0e), HdlMultiply(byte3, 0x0b)),
     Sum(HdlMultiply(byte0, 0x0b), HdlMultiply(byte1, 0x0d), HdlMultiply(byte2, 0x09), HdlMultiply(byte3, 0x0e))]
  }

  function HdlInvMixWord(w: Word): Word { InvMixBytes(w[0], w[1], w[2], w[3]) }

  function HdlMixColumns(b: Block): (r: Block) {
    FromColumns(HdlMixWord(Column(b, 0)), HdlMixWord(Column(b, 1)), HdlMixWord(Column(b, 2)), HdlMixWord(Column(b, 3)))
  }

  function HdlInvMixColumns(b: Block): (r: Block) {
    FromColumns(HdlInvMixWord(Column(b, 0)), HdlInvMixWord(Column(b, 1)),
                HdlInvMixWord(Column(b, 2)), HdlInvMixWord(Column(b, 3)))
  }

  lemma DoublingAgrees(x: bv8)
    ensures Mul2(x) == Xtime(x) && HdlMul3(x) == Mul3(x)
  {
  }

  lemma HdlMultiplyAgrees(x: bv8, y: bv8)
    ensures HdlMultiply(x, y) == Multiply(x, y)
  {
    hide Mul2, Xtime, Picked;
    DoublingAgrees(x);
    DoublingAgrees(Xtime(x));
    DoublingAgrees(Xtime(Xtime(x)));
    DoublingAgrees(Xtime(Xtime(Xtime(x))));
  }

  /** The hardware's column mixing is the matrix. */
  lemma HdlMixAgrees(w: Word)
    ensures HdlMixWord(w) == MixWord(w)
  {
    hide Mul2, HdlMul3, Xtime, Mul3, Sum;
    forall i | 0 <= i < 4
      ensures Mul2(w[i]) == Xtime(w[i]) && HdlMul3(w[i]) == Mul3(w[i])
    {
      DoublingAgrees(w[i]);
    }
    SumTurned(w[0], Xtime(w[1]), Mul3(w[2]), w[3]);
    SumTurned(w[0], w[1], Xtime(w[2]), Mul3(w[3]));
    SumTurned(Mul3(w[0]), w[1], w[2], Xtime(w[3]));
  }

  lemma HdlInvMixAgrees(w: Word)
    ensures HdlInvMixWord(w) == InvMixWord(w)
  {
    hide HdlMultiply, Multiply, Sum;
    forall i | 0 <= i < 4
      ensures HdlMultiply(w[i], 0x0e) == Multiply(w[i], 0x0e) && HdlMultiply(w[i], 0x0b) == Multiply(w[i], 0x0b)
      ensures HdlMultiply(w[i], 0x0d) == Multiply(w[i], 0x0d) && HdlMultiply(w[i], 0x09) == Multiply(w[i], 0x09)
    {
      HdlMultiplyAgrees(w[i], 0x0e);
      HdlMultiplyAgrees(w[i], 0x0b);
      HdlMultiplyAgrees(w[i], 0x0d);
      HdlMultiplyAgrees(w[i], 0x09);
    }
    SumTurned(Multiply(w[0], 0x09), Multiply(w[1], 0x0e), Multiply(w[2], 0x0b), Multiply(w[3], 0x0d));
    SumTurned(Multiply(w[0], 0x0d), Multiply(w[1], 0x09), Multiply(w[2], 0x0e), Multiply(w[3], 0x0b));
    SumTurned(Multiply(w[0], 0x0b), Multiply(w[1], 0x0d), Multiply(w[2], 0x09), Multiply(w[3], 0x0e));
  }

  lemma HdlMixColumnsAgree(b: Block)
    ensures HdlMixColumns(b) == MixColumns(b) && HdlInvMixColumns(b) == InvMixColumns(b)
  {
    hide HdlMixWord, HdlInvMixWord, MixWord, InvMixWord, Column, FromColumns;
    HdlMixAgrees(Column(b, 0));
    HdlMixAgrees(Column(b, 1));
    HdlMixAgrees(Column(b, 2));
    HdlMixAgrees(Column(b, 3));
    HdlInvMixAgrees(Column(b, 0));
    HdlInvMixAgrees(Column(b, 1));
    HdlInvMixAgrees(Column(b, 2));
    HdlInvMixAgrees(Column(b, 3));
  }

  /** The round of `cipher.v`; the mixing is skipped in round 10, when the counter shows 11. */
  function HdlRound(blk: Block, key: Block, last: bool): Block {
    var s := HdlShiftRows(HdlSubBytes(blk));
    Xor(if last then s else HdlMixColumns(s), key)
  }

  /** The round of `decipher.v`; the unmixing is skipped in the round with key 0. */
  function HdlInvRound(blk: Block, key: Block, last: bool): Block {
    var s := Xor(HdlInvSubBytes(HdlInvShiftRows(blk)), key);
    if last then s else HdlInvMixColumns(s)
  }

  lemma HdlBytesAgree(blk: Block)
    ensures HdlSubBytes(blk) == SubBytes(blk)
    ensures HdlInvSubBytes(blk) == InvSubBytes(blk)
  {
    hide HdlSbox, HdlInvSbox, Sbox, InvSbox;
    forall i | 0 <= i < 16
      ensures HdlSubBytes(blk)[i] == SubBytes(blk)[i]
      ensures HdlInvSubBytes(blk)[i] == InvSubBytes(blk)[i]
    {
      HdlTablesAgree(blk[i]);
    }
  }

  lemma HdlShiftsAgree(blk: Block)
    ensures HdlShiftRows(blk) == ShiftRows(blk)
    ensures HdlInvShiftRows(blk) == InvShiftRows(blk)
  {
    forall i: nat | i < 16
      ensures HdlShiftRows(blk)[i] == ShiftRows(blk)[i]
      ensures HdlInvShiftRows(blk)[i] == InvShiftRows(blk)[i]
    {
      ShiftedByte(blk, i);
    }
  }

  lemma ShiftedByte(blk: Block, i: nat)
    requires i < 16
    ensures ShiftRows(blk)[i] == blk[(4 * (i / 4) + 5 * (i - 4 * (i / 4))) % 16]
    ensures InvShiftRows(blk)[i] == blk[(4 * (i / 4) + 13 * (i - 4 * (i / 4))) % 16]
  {
    hide ShiftRows, InvShiftRows;
    assert i == 4 * (i / 4) + i % 4;
    ShiftedPlace(blk, i % 4, i / 4);
  }

  lemma ShiftedPlace(blk: Block, r: nat, c: nat)
    requires r < 4 && c < 4
    ensures ShiftRows(blk)[4 * c + r] == blk[(4 * c + 5 * r) % 16]
    ensures InvShiftRows(blk)[4 * c + r] == blk[(4 * c + 13 * r) % 16]
  {
    hide ShiftRows, InvShiftRows;
    var d := (c + 4 - r) % 4;
    Places(r, c);
    assert (d + r) % 4 == c;
    ShiftRowsIsFips(blk, r, c);
    ShiftRowsIsFips(blk, r, d);
  }

  lemma Places(r: nat, c: nat)
    requires r < 4 && c < 4
    ensures (4 * c + 5 * r) % 16 == 4 * ((c + r) % 4) + r
    ensures (4 * c + 13 * r) % 16 == 4 * ((c + 4 - r) % 4) + r
  {
    if c == 0 {
    } else if c == 1 {
    } else if c == 2 {
    } else {
    }
  }

  /** The hardware rounds are the rounds of the C code. */
  lemma HdlRoundAgrees(blk: Block, key: Block)
    ensures HdlRound(blk, key, false) == Round(blk, key)
    ensures HdlRound(blk, key, true) == Xor(ShiftRows(SubBytes(blk)), key)
  {
    hide HdlShiftRows, HdlSubBytes, ShiftRows, SubBytes, MixColumns, HdlMixColumns, Xor;
    HdlBytesAgree(blk);
    HdlShiftsAgree(SubBytes(blk));
    HdlMixColumnsAgree(ShiftRows(SubBytes(blk)));
  }

  lemma HdlInvRoundAgrees(blk: Block, key: Block)
    ensures HdlInvRound(blk, key, false) == InvRound(blk, key)
    ensures HdlInvRound(blk, key, true) == Xor(InvSubBytes(InvShiftRows(blk)), key)
  {
    hide HdlInvShiftRows, HdlInvSubBytes, InvShiftRows, InvSubBytes, InvMixColumns, HdlInvMixColumns, Xor;
    HdlShiftsAgree(blk);
    HdlBytesAgree(InvShiftRows(blk));
    HdlMixColumnsAgree(Xor(InvSubBytes(InvShiftRows(blk)), key));
  }

  // ------------------------------------------------------------------ one round key per cycle

  /** `get_rcon(index)`; past the end of the constant the hardware reads undefined bits. */
  function HdlRcon(index: nat): bv8 {
    if index <= 10 then HDL_RCON[10 - index] else 0
  }

  /** The rotated and substituted last word, with the next round constant. */
  function HdlSchedule(p: Word, roundNo: nat): (g: Word) {
    [HdlSbox(p[1]) ^ HdlRcon(roundNo + 1), HdlSbox(p[2]), HdlSbox(p[3]), HdlSbox(p[0])]
  }

  /** The combinational next key of `round_key.v` while its counter shows `roundNo`. */
  function NextKey(key: Block, roundNo: nat): (k: Block) {
    var p := Column(key, 3);
    var w0 := XorWord(HdlSchedule(p, roundNo), Column(key, 0));
    var w1 := XorWord(w0, Column(key, 1));
    var w2 := XorWord(w1, Column(key, 2));
    var w3 := XorWord(w2, Column(key, 3));
    FromColumns(w0, w1, w2, w3)
  }

  lemma XorWordSymmetric(a: Word, b: Word)
    ensures XorWord(a, b) == XorWord(b, a)
  {
  }

  lemma HdlRconAgrees(r: nat)
    requires r < 10
    ensures HdlRcon(r + 1) == RCON[r + 1]
  {
    RconIsFips(r + 1);
  }

  lemma HdlScheduleAgrees(p: Word, r: nat, rcon: bv8)
    requires HdlRcon(r + 1) == rcon
    ensures HdlSchedule(p, r) == Schedule(p, rcon)
  {
    hide Sbox, HdlSbox, HdlRcon;
    HdlSboxAgrees(p[0]);
    HdlSboxAgrees(p[1]);
    HdlSboxAgrees(p[2]);
    HdlSboxAgrees(p[3]);
    SameSum(HdlSbox(p[1]), HdlRcon(r + 1), Sbox(p[1]), rcon);
  }

  lemma SameSum(a: bv8, b: bv8, a': bv8, b': bv8)
    requires a == a' && b == b'
    ensures a ^ b == a' ^ b'
  {
  }

  /** The next key, column by column. */
  lemma NextKeyOfColumns(w0: Word, w1: Word, w2: Word, w3: Word, r: nat)
    requires r < 10
    ensures var v0 := XorWord(w0, Schedule(w3, RCON[r + 1]));
            var v1 := XorWord(w1, v0);
            var v2 := XorWord(w2, v1);
            NextKey(FromColumns(w0, w1, w2, w3), r) == FromColumns(v0, v1, v2, XorWord(w3, v2))
  {
    hide XorWord, Column, FromColumns, Schedule, HdlSchedule;
    ColumnsOf(w0, w1, w2, w3);
    HdlRconAgrees(r);
    HdlScheduleAgrees(w3, r, RCON[r + 1]);
    var v0 := XorWord(w0, Schedule(w3, RCON[r + 1]));
    var v1 := XorWord(w1, v0);
    XorWordSymmetric(w0, Schedule(w3, RCON[r + 1]));
    XorWordSymmetric(w1, v0);
    XorWordSymmetric(w2, v1);
    XorWordSymmetric(w3, XorWord(w2, v1));
  }

  /** Stepping the hardware's key register turns round key r into round key r + 1: four words of
      the word-by-word recurrence in one cycle. */
  lemma NextKeyIsRoundKey(key: Block, r: nat)
    requires r < 10
    ensures NextKey(RoundKey(key, r), r) == RoundKey(key, r + 1)
  {
    hide XorWord, FromColumns, KeyWord, Schedule, RCON, NextKey;
    var i := 4 * r;
    NextKeyOfColumns(KeyWord(key, i), KeyWord(key, i + 1), KeyWord(key, i + 2), KeyWord(key, i + 3), r);
    KeyWordStep(key, i + 4);
    KeyWordStep(key, i + 5);
    KeyWordStep(key, i + 6);
    KeyWordStep(key, i + 7);
    assert 4 * (r + 1) == i + 4 && (i + 4) / 4 == r + 1;
  }

  lemma RoundKeyZero(key: Block)
    ensures RoundKey(key, 0) == key
  {
    OfColumns(key);
  }
}
