/** The block cipher AES-128 of FIPS 197 on sixteen-byte blocks.  Byte 4c + r of a block is row
    r, column c of the state. */
module AesBlock {
  import opened AesField
  import opened AesTables

  type Block = b: seq<bv8> | |b| == 16
    witness [0, 0, 0, 0, 0, 0, 0, 0, 0, 0, 0, 0, 0, 0, 0, 0]

  /** The eleven round keys of one key. */
  type Keys = ks: seq<Block> | |ks| == 11
    witness seq(11, _ => ZERO)

  const ZERO: Block := [0, 0, 0, 0, 0, 0, 0, 0, 0, 0, 0, 0, 0, 0, 0, 0]

  const ONES: Block := [1, 1, 1, 1, 1, 1, 1, 1, 1, 1, 1, 1, 1, 1, 1, 1]

  function Xor(a: Block, b: Block): (r: Block)
    ensures forall i :: 0 <= i < 16 ==> r[i] == a[i] ^ b[i]
  {
    seq(16, i requires 0 <= i < 16 => a[i] ^ b[i])
  }

  function XorWord(a: Word, b: Word): (r: Word) {
    [a[0] ^ b[0], a[1] ^ b[1], a[2] ^ b[2], a[3] ^ b[3]]
  }

  /** Column `c` of a block. */
  function Column(b: Block, c: nat): (w: Word)
    requires c < 4
  {
    [b[4 * c], b[4 * c + 1], b[4 * c + 2], b[4 * c + 3]]
  }

  /** The block with the given four columns. */
  function FromColumns(w0: Word, w1: Word, w2: Word, w3: Word): (b: Block) {
    w0 + w1 + w2 + w3
  }

  lemma ColumnsOf(w0: Word, w1: Word, w2: Word, w3: Word)
    ensures var b := FromColumns(w0, w1, w2, w3);
            Column(b, 0) == w0 && Column(b, 1) == w1 && Column(b, 2) == w2 && Column(b, 3) == w3
  {
  }

  lemma OfColumns(b: Block)
    ensures FromColumns(Column(b, 0), Column(b, 1), Column(b, 2), Column(b, 3)) == b
  {
  }

  function SubBytes(b: Block): (r: Block)
    ensures forall i :: 0 <= i < 16 ==> r[i] == Sbox(b[i])
  {
    seq(16, i requires 0 <= i < 16 => Sbox(b[i]))
  }

  function InvSubBytes(b: Block): (r: Block)
    ensures forall i :: 0 <= i < 16 ==> r[i] == InvSbox(b[i])
  {
    seq(16, i requires 0 <= i < 16 => InvSbox(b[i]))
  }

  /** Row r moves r columns to the left. */
  function ShiftRows(b: Block): (r: Block) {
    [b[0], b[5], b[10], b[15], b[4], b[9], b[14], b[3],
     b[8], b[13], b[2], b[7], b[12], b[1], b[6], b[11]]
  }

  function InvShiftRows(b: Block): (r: Block) {
    [b[0], b[13], b[10], b[7], b[4], b[1], b[14], b[11],
     b[8], b[5], b[2], b[15], b[12], b[9], b[6], b[3]]
  }

  /** `ShiftRows` in the words of FIPS 197 section 5.1.2, and its inverse. */
  lemma ShiftRowsIsFips(b: Block, r: nat, c: nat)
    requires r < 4 && c < 4
    ensures ShiftRows(b)[4 * c + r] == b[4 * ((c + r) % 4) + r]
    ensures InvShiftRows(b)[4 * ((c + r) % 4) + r] == b[4 * c + r]
  {
    if r == 0 {
    } else if r == 1 {
    } else if r == 2 {
    } else {
    }
  }

  function MixColumns(b: Block): (r: Block) {
    FromColumns(MixWord(Column(b, 0)), MixWord(Column(b, 1)), MixWord(Column(b, 2)), MixWord(Column(b, 3)))
  }

  function InvMixColumns(b: Block): (r: Block) {
    FromColumns(InvMixWord(Column(b, 0)), InvMixWord(Column(b, 1)), InvMixWord(Column(b, 2)), InvMixWord(Column(b, 3)))
  }

  // ------------------------------------------------------------------ the steps undo each other

  lemma XorTwice(a: Block, k: Block)
    ensures Xor(Xor(a, k), k) == a
    ensures Xor(k, Xor(k, a)) == a
  {
  }

  lemma SubBytesInverse(b: Block)
    ensures InvSubBytes(SubBytes(b)) == b
    ensures SubBytes(InvSubBytes(b)) == b
  {
    forall i | 0 <= i < 16
      ensures InvSbox(Sbox(b[i])) == b[i] && Sbox(InvSbox(b[i])) == b[i]
    {
      SboxInverse(b[i]);
    }
  }

  lemma ShiftRowsInverse(b: Block)
    ensures InvShiftRows(ShiftRows(b)) == b
    ensures ShiftRows(InvShiftRows(b)) == b
  {
  }

  lemma MixColumnsInverse(b: Block)
    ensures InvMixColumns(MixColumns(b)) == b
    ensures MixColumns(InvMixColumns(b)) == b
  {
    hide MixWord, InvMixWord, Column, FromColumns;
    ColumnsOf(MixWord(Column(b, 0)), MixWord(Column(b, 1)), MixWord(Column(b, 2)), MixWord(Column(b, 3)));
    ColumnsOf(InvMixWord(Column(b, 0)), InvMixWord(Column(b, 1)), InvMixWord(Column(b, 2)), InvMixWord(Column(b, 3)));
    InvMixAfterMix(Column(b, 0));
    InvMixAfterMix(Column(b, 1));
    InvMixAfterMix(Column(b, 2));
    InvMixAfterMix(Column(b, 3));
    MixAfterInvMix(Column(b, 0));
    MixAfterInvMix(Column(b, 1));
    MixAfterInvMix(Column(b, 2));
    MixAfterInvMix(Column(b, 3));
    OfColumns(b);
  }

  // ------------------------------------------------------------------ the cipher and its inverse

  function Round(b: Block, k: Block): Block {
    Xor(MixColumns(ShiftRows(SubBytes(b))), k)
  }

  /** The state after `r` full rounds of encryption. */
  function EncState(p: Block, ks: Keys, r: nat): Block
    requires r <= 9
  {
    if r == 0 then Xor(p, ks[0]) else Round(EncState(p, ks, r - 1), ks[r])
  }

  /** FIPS 197 section 5.1. */
  function Cipher(p: Block, ks: Keys): Block {
    Xor(ShiftRows(SubBytes(EncState(p, ks, 9))), ks[10])
  }

  function InvRound(b: Block, k: Block): Block {
    InvMixColumns(Xor(InvSubBytes(InvShiftRows(b)), k))
  }

  /** The state after the decryption rounds with keys 10 down to `r`. */
  function DecState(c: Block, ks: Keys, r: nat): Block
    requires 1 <= r <= 10
    decreases 10 - r
  {
    if r == 10 then Xor(c, ks[10]) else InvRound(DecState(c, ks, r + 1), ks[r])
  }

  /** FIPS 197 section 5.3. */
  function Decipher(c: Block, ks: Keys): Block {
    Xor(InvSubBytes(InvShiftRows(DecState(c, ks, 1))), ks[0])
  }

  lemma ShiftSubInverse(b: Block)
    ensures InvSubBytes(InvShiftRows(ShiftRows(SubBytes(b)))) == b
    ensures ShiftRows(SubBytes(InvSubBytes(InvShiftRows(b)))) == b
  {
    ShiftRowsInverse(SubBytes(b));
    SubBytesInverse(b);
    SubBytesInverse(InvShiftRows(b));
    ShiftRowsInverse(b);
  }

  /** Decryption unwinds encryption round by round. */
  lemma {:induction false} DecryptionUnwinds(p: Block, ks: Keys, r: nat)
    requires 1 <= r <= 10
    ensures DecState(Cipher(p, ks), ks, r) == ShiftRows(SubBytes(EncState(p, ks, r - 1)))
    decreases 10 - r
  {
    hide MixColumns, InvMixColumns, SubBytes, InvSubBytes, ShiftRows, InvShiftRows, Xor;
    var s := ShiftRows(SubBytes(EncState(p, ks, r - 1)));
    if r == 10 {
      XorTwice(s, ks[10]);
    } else {
      DecryptionUnwinds(p, ks, r + 1);
      ShiftSubInverse(EncState(p, ks, r));
      XorTwice(MixColumns(s), ks[r]);
      MixColumnsInverse(s);
    }
  }

  lemma {:induction false} EncryptionUnwinds(c: Block, ks: Keys, r: nat)
    requires r <= 9
    ensures EncState(Decipher(c, ks), ks, r) == InvSubBytes(InvShiftRows(DecState(c, ks, r + 1)))
  {
    hide MixColumns, InvMixColumns, SubBytes, InvSubBytes, ShiftRows, InvShiftRows, Xor;
    var z := InvSubBytes(InvShiftRows(DecState(c, ks, r + 1)));
    XorTwice(z, ks[r]);
    if r > 0 {
      EncryptionUnwinds(c, ks, r - 1);
      ShiftSubInverse(DecState(c, ks, r));
      MixColumnsInverse(Xor(z, ks[r]));
    }
  }

  /** For every block and every eleven round keys, expanded from a key or not, deciphering undoes
      enciphering and enciphering undoes deciphering. */
  lemma RoundTrip(b: Block, ks: Keys)
    ensures Decipher(Cipher(b, ks), ks) == b
    ensures Cipher(Decipher(b, ks), ks) == b
  {
    hide MixColumns, InvMixColumns, SubBytes, InvSubBytes, ShiftRows, InvShiftRows, Xor;
    DecryptionUnwinds(b, ks, 1);
    ShiftSubInverse(EncState(b, ks, 0));
    XorTwice(b, ks[0]);
    EncryptionUnwinds(b, ks, 9);
    ShiftSubInverse(DecState(b, ks, 10));
    XorTwice(b, ks[10]);
  }

  // ------------------------------------------------------------------ key expansion

  /** `SubWord(RotWord(w))` with the round constant added to its first byte. */
  function Schedule(w: Word, rcon: bv8): (r: Word) {
    [Sbox(w[1]) ^ rcon, Sbox(w[2]), Sbox(w[3]), Sbox(w[0])]
  }

  /** Word `i` of the expanded key: the recurrence of FIPS 197 section 5.2. */
  function KeyWord(key: Block, i: nat): (w: Word)
    requires i < 44
  {
    if i < 4 then Column(key, i)
    else if i % 4 == 0 then XorWord(KeyWord(key, i - 4), Schedule(KeyWord(key, i - 1), RCON[i / 4]))
    else XorWord(KeyWord(key, i - 4), KeyWord(key, i - 1))
  }

  /** The recurrence, one word at a time. */
  lemma KeyWordStep(key: Block, i: nat)
    requires 4 <= i < 44
    ensures KeyWord(key, i)
         == XorWord(KeyWord(key, i - 4),
                    if i % 4 == 0 then Schedule(KeyWord(key, i - 1), RCON[i / 4]) else KeyWord(key, i - 1))
  {
    hide XorWord, Schedule;
  }

  /** Round key `r`: words 4r to 4r + 3. */
  function RoundKey(key: Block, r: nat): (k: Block)
    requires r <= 10
  {
    FromColumns(KeyWord(key, 4 * r), KeyWord(key, 4 * r + 1), KeyWord(key, 4 * r + 2), KeyWord(key, 4 * r + 3))
  }

  function Expand(key: Block): (ks: Keys)
    ensures forall r :: 0 <= r < 11 ==> ks[r] == RoundKey(key, r)
  {
    seq(11, r requires 0 <= r < 11 => RoundKey(key, r))
  }

  /** What FIPS 197 section 5.2 adds to byte n - 16 of a schedule to give byte `n`: the byte before the last
      four, or, for the first word of a round key, the substituted bytes of the word before, turned by one
      place, the first of them with the round constant. */
  function Addend(sched: seq<bv8>, n: nat): bv8
    requires 16 <= n < 176 <= |sched|
  {
    var i, j := n / 4, n % 4;
    if i % 4 != 0 then sched[n - 4]
    else if j == 0 then Sbox(sched[n - 3]) ^ RCON[i / 4]
    else if j == 3 then Sbox(sched[n - 7])
    else Sbox(sched[n - 3])
  }

  /** The recurrence, byte by byte. */
  ghost predicate Recurs(sched: seq<bv8>) {
    |sched| >= 176 && forall n: nat :: 16 <= n < 176 ==> sched[n] == sched[n - 16] ^ Addend(sched, n)
  }

  /** The bytes of the round keys in order. */
  function BytesOfKeys(ks: Keys): (sched: seq<bv8>)
    ensures |sched| == 176
  {
    seq(176, n requires 0 <= n < 176 => ks[n / 16][n % 16])
  }

  /** Every expanded key begins with the key and follows the recurrence. */
  lemma ExpandRecurs(key: Block)
    ensures BytesOfKeys(Expand(key))[..16] == key && Recurs(BytesOfKeys(Expand(key)))
  {
    hide KeyWord, Sbox;
    var sched := BytesOfKeys(Expand(key));
    forall n: nat | n < 16
      ensures sched[n] == key[n]
    {
      ScheduleByte(key, n);
      FirstWords(key, n);
    }
    forall n: nat | 16 <= n < 176
      ensures sched[n] == sched[n - 16] ^ Addend(sched, n)
    {
      NextByte(key, n);
    }
  }

  lemma NextByte(key: Block, n: nat)
    requires 16 <= n < 176
    ensures var sched := BytesOfKeys(Expand(key)); sched[n] == sched[n - 16] ^ Addend(sched, n)
  {
    hide KeyWord, Sbox, BytesOfKeys, Expand, Pair, Addend;
    var sched := BytesOfKeys(Expand(key));
    var i, j := n / 4, n % 4;
    KeyByte(key, i, j);
    ScheduleByte(key, n);
    ScheduleByte(key, n - 16);
    ScheduleByte(key, n - 4);
    ScheduleByte(key, 4 * (i - 1) + (j + 1) % 4);
    AddendIs(sched, n);
    PairIs(sched[n - 16], Addend(sched, n));
  }

  lemma PairIs(a: bv8, b: bv8)
    ensures Pair(a, b) == a ^ b
  {
  }

  lemma AddendIs(sched: seq<bv8>, n: nat)
    requires 16 <= n < 176 <= |sched|
    ensures Addend(sched, n)
         == if n / 4 % 4 != 0 then sched[n - 4]
            else if n % 4 == 0 then Pair(Sbox(sched[4 * (n / 4 - 1) + 1]), RCON[n / 4 / 4])
            else Sbox(sched[4 * (n / 4 - 1) + (n % 4 + 1) % 4])
  {
    hide Sbox;
  }

  lemma FirstWords(key: Block, n: nat)
    requires n < 16
    ensures KeyWord(key, n / 4)[n % 4] == key[n]
  {
  }

  lemma ScheduleByte(key: Block, n: nat)
    requires n < 176
    ensures BytesOfKeys(Expand(key))[n] == KeyWord(key, n / 4)[n % 4]
  {
    hide KeyWord;
    var r, c, j := n / 16, n / 4 % 4, n % 4;
    assert n % 16 == 4 * c + j && n / 4 == 4 * r + c;
    ByteOfColumns(KeyWord(key, 4 * r), KeyWord(key, 4 * r + 1), KeyWord(key, 4 * r + 2), KeyWord(key, 4 * r + 3), c, j);
  }

  lemma ByteOfColumns(w0: Word, w1: Word, w2: Word, w3: Word, c: nat, j: nat)
    requires c < 4 && j < 4
    ensures FromColumns(w0, w1, w2, w3)[4 * c + j]
         == (if c == 0 then w0 else if c == 1 then w1 else if c == 2 then w2 else w3)[j]
  {
  }

  lemma XorWordByte(a: Word, b: Word, j: nat)
    requires j < 4
    ensures XorWord(a, b)[j] == Pair(a[j], b[j])
  {
    hide XorWord, Pair;
    XorWordBytes(a, b);
  }

  lemma XorWordBytes(a: Word, b: Word)
    ensures XorWord(a, b)[0] == Pair(a[0], b[0]) && XorWord(a, b)[1] == Pair(a[1], b[1])
    ensures XorWord(a, b)[2] == Pair(a[2], b[2]) && XorWord(a, b)[3] == Pair(a[3], b[3])
  {
  }

  lemma ScheduleWordByte(w: Word, rcon: bv8, j: nat)
    requires j < 4
    ensures Schedule(w, rcon)[j] == if j == 0 then Pair(Sbox(w[1]), rcon) else Sbox(w[(j + 1) % 4])
  {
    hide Sbox;
  }

  lemma KeyByte(key: Block, i: nat, j: nat)
    requires 4 <= i < 44 && j < 4
    ensures KeyWord(key, i)[j]
         == Pair(KeyWord(key, i - 4)[j],
                 if i % 4 != 0 then KeyWord(key, i - 1)[j]
                 else if j == 0 then Pair(Sbox(KeyWord(key, i - 1)[1]), RCON[i / 4])
                 else Sbox(KeyWord(key, i - 1)[(j + 1) % 4]))
  {
    hide KeyWord, Sbox, XorWord, Schedule, Pair;
    KeyWordStep(key, i);
    var w := KeyWord(key, i - 1);
    ScheduleWordByte(w, RCON[i / 4], j);
    XorWordByte(KeyWord(key, i - 4), if i % 4 == 0 then Schedule(w, RCON[i / 4]) else w, j);
  }

  lemma XorWordTells(a: Word, b: Word, c: Word)
    requires XorWord(a, c) == XorWord(b, c)
    ensures a == b
  {
    XorTells(a[0], b[0], c[0]);
    XorTells(a[1], b[1], c[1]);
    XorTells(a[2], b[2], c[2]);
    XorTells(a[3], b[3], c[3]);
  }

  lemma XorTells(a: bv8, b: bv8, c: bv8)
    ensures a ^ c == b ^ c ==> a == b
  {
  }

  /** Every round key tells the key: no step of the recurrence loses anything. */
  lemma {:induction false} RoundKeyTells(key: Block, key': Block, r: nat)
    requires r <= 10 && RoundKey(key, r) == RoundKey(key', r)
    ensures key == key'
    decreases r
  {
    hide KeyWord, Column, FromColumns, XorWord, Schedule;
    SameWords(key, key', r);
    if r == 0 {
      FirstColumns(key);
      FirstColumns(key');
      OfColumns(key);
      OfColumns(key');
    } else {
      WordBefore(key, key', 4 * r + 3);
      WordBefore(key, key', 4 * r + 2);
      WordBefore(key, key', 4 * r + 1);
      WordBefore(key, key', 4 * r);
      RoundKeyTells(key, key', r - 1);
    }
  }

  lemma FirstColumns(key: Block)
    ensures forall c: nat :: c < 4 ==> KeyWord(key, c) == Column(key, c)
  {
  }

  lemma SameWords(key: Block, key': Block, r: nat)
    requires r <= 10 && RoundKey(key, r) == RoundKey(key', r)
    ensures KeyWord(key, 4 * r) == KeyWord(key', 4 * r) && KeyWord(key, 4 * r + 1) == KeyWord(key', 4 * r + 1)
    ensures KeyWord(key, 4 * r + 2) == KeyWord(key', 4 * r + 2) && KeyWord(key, 4 * r + 3) == KeyWord(key', 4 * r + 3)
  {
    hide KeyWord, Column, FromColumns;
    ColumnsOf(KeyWord(key, 4 * r), KeyWord(key, 4 * r + 1), KeyWord(key, 4 * r + 2), KeyWord(key, 4 * r + 3));
    ColumnsOf(KeyWord(key', 4 * r), KeyWord(key', 4 * r + 1), KeyWord(key', 4 * r + 2), KeyWord(key', 4 * r + 3));
  }

  /** A word and the one before it tell the word four places back. */
  lemma WordBefore(key: Block, key': Block, i: nat)
    requires 4 <= i < 44 && KeyWord(key, i) == KeyWord(key', i) && KeyWord(key, i - 1) == KeyWord(key', i - 1)
    ensures KeyWord(key, i - 4) == KeyWord(key', i - 4)
  {
    hide KeyWord, XorWord, Schedule;
    KeyWordStep(key, i);
    KeyWordStep(key', i);
    var c := if i % 4 == 0 then Schedule(KeyWord(key, i - 1), RCON[i / 4]) else KeyWord(key, i - 1);
    XorWordTells(KeyWord(key, i - 4), KeyWord(key', i - 4), c);
  }
}
