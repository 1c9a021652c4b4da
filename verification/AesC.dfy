/** The C code of AES, which changes a four by four state in place. */
module AesC {
  import opened AesField
  import opened AesTables
  import B = AesBlock

  type Block = B.Block

  predicate Square(state: array2<bv8>) { state.Length0 == 4 && state.Length1 == 4 }

  /** The block held in a state: byte 4c + r is state[r][c]. */
  ghost function BlockOf(state: array2<bv8>): Block
    requires Square(state)
    reads state
  {
    [state[0, 0], state[1, 0], state[2, 0], state[3, 0], state[0, 1], state[1, 1], state[2, 1], state[3, 1],
     state[0, 2], state[1, 2], state[2, 2], state[3, 2], state[0, 3], state[1, 3], state[2, 3], state[3, 3]]
  }

  method Get(state: array2<bv8>, row: nat, col: nat) returns (x: bv8)
    requires Square(state) && row < 4 && col < 4
    ensures x == BlockOf(state)[4 * col + row]
  {
    x := state[row, col];
  }

  method Set(state: array2<bv8>, row: nat, col: nat, x: bv8)
    requires Square(state) && row < 4 && col < 4
    modifies state
    ensures BlockOf(state) == old(BlockOf(state))[4 * col + row := x]
  {
    state[row, col] := x;
  }

  /** The sixteen bytes of a buffer from an offset. */
  function BytesAt(buf: seq<bv8>, offset: nat): Block
    requires offset + 16 <= |buf|
  {
    buf[offset..offset + 16]
  }

  /** The eleven round keys of a 176-byte schedule. */
  function KeysOf(sched: seq<bv8>): B.Keys
    requires |sched| >= 176
  {
    seq(11, r requires 0 <= r < 11 => BytesAt(sched, 16 * r))
  }

  // ------------------------------------------------------------------ loops over the state

  /** A block half way through a loop that goes down the columns. */
  function Blend(made: Block, was: Block, i: nat): Block
    requires i <= 16
  {
    made[..i] + was[i..]
  }

  lemma BlendStep(made: Block, was: Block, i: nat)
    requires i < 16
    ensures Blend(made, was, i)[i] == was[i]
    ensures Blend(made, was, i)[i := made[i]] == Blend(made, was, i + 1)
  {
  }

  lemma BlendEnds(made: Block, was: Block)
    ensures Blend(made, was, 0) == was && Blend(made, was, 16) == made
  {
  }

  /** A block half way through a loop that goes along the rows. */
  function BlendRows(made: Block, was: Block, row: nat, col: nat): Block {
    seq(16, j requires 0 <= j < 16 => if j % 4 < row || (j % 4 == row && j / 4 < col) then made[j] else was[j])
  }

  lemma BlendRowsStep(made: Block, was: Block, row: nat, col: nat)
    requires row < 4 && col < 4
    ensures BlendRows(made, was, row, col)[4 * col + row] == was[4 * col + row]
    ensures BlendRows(made, was, row, col)[4 * col + row := made[4 * col + row]] == BlendRows(made, was, row, col + 1)
  {
  }

  lemma BlendRowsEnds(made: Block, was: Block, row: nat)
    ensures BlendRows(made, was, 0, 0) == was && BlendRows(made, was, 4, 0) == made
    ensures row < 4 ==> BlendRows(made, was, row, 4) == BlendRows(made, was, row + 1, 0)
  {
  }

  // ------------------------------------------------------------------ aes.h, and both directions

  method AddRoundKey(state: array2<bv8>, key: array<bv8>, offset: nat)
    requires Square(state) && offset + 16 <= key.Length
    modifies state
    ensures BlockOf(state) == B.Xor(old(BlockOf(state)), BytesAt(key[..], offset))
  {
    hide BlockOf, Blend, B.Xor;
    ghost var was := BlockOf(state);
    ghost var made := B.Xor(was, BytesAt(key[..], offset));
    BlendEnds(made, was);
    var i := 0;
    for col := 0 to 4
      invariant i == 4 * col && BlockOf(state) == Blend(made, was, i)
    {
      for row := 0 to 4
        invariant i == 4 * col + row && BlockOf(state) == Blend(made, was, i)
      {
        BlendStep(made, was, i);
        var x := Get(state, row, col);
        Set(state, row, col, x ^ key[offset + i]);
        i := i + 1;
      }
    }
  }

  /** `plaintext_to_state` and `ciphertext_to_state`. */
  method LoadState(state: array2<bv8>, text: array<bv8>)
    requires Square(state) && text.Length >= 16
    modifies state
    ensures BlockOf(state) == BytesAt(text[..], 0)
  {
    hide BlockOf, Blend;
    ghost var was, made := BlockOf(state), BytesAt(text[..], 0);
    BlendEnds(made, was);
    var i := 0;
    for col := 0 to 4
      invariant i == 4 * col && BlockOf(state) == Blend(made, was, i)
    {
      for row := 0 to 4
        invariant i == 4 * col + row && BlockOf(state) == Blend(made, was, i)
      {
        BlendStep(made, was, i);
        Set(state, row, col, text[i]);
        i := i + 1;
      }
    }
  }

  /** `state_to_ciphertext` and `state_to_plaintext`. */
  method StoreState(state: array2<bv8>, text: array<bv8>)
    requires Square(state) && text.Length >= 16
    modifies text
    ensures text[..] == BlockOf(state) + old(text[16..])
  {
    hide BlockOf, Blend;
    ghost var made := BlockOf(state);
    ghost var was := BytesAt(text[..], 0);
    BlendEnds(made, was);
    var i := 0;
    for col := 0 to 4
      invariant i == 4 * col && text[..16] == Blend(made, was, i) && text[16..] == old(text[16..])
    {
      for row := 0 to 4
        invariant i == 4 * col + row && text[..16] == Blend(made, was, i) && text[16..] == old(text[16..])
      {
        BlendStep(made, was, i);
        var x := Get(state, row, col);
        Put(text, i, x);
        i := i + 1;
      }
    }
    assert text[..] == text[..16] + text[16..];
  }

  method Put(text: array<bv8>, i: nat, x: bv8)
    requires i < 16 <= text.Length
    modifies text
    ensures text[..16] == old(text[..16])[i := x] && text[16..] == old(text[16..])
  {
    text[i] := x;
  }

  // ------------------------------------------------------------------ cipher.c

  method SubBytes(state: array2<bv8>)
    requires Square(state)
    modifies state
    ensures BlockOf(state) == B.SubBytes(old(BlockOf(state)))
  {
    hide Sbox, BlockOf, BlendRows;
    ghost var was := BlockOf(state);
    ghost var made := B.SubBytes(was);
    BlendRowsEnds(made, was, 0);
    for row := 0 to 4
      invariant BlockOf(state) == BlendRows(made, was, row, 0)
    {
      for col := 0 to 4
        invariant BlockOf(state) == BlendRows(made, was, row, col)
      {
        BlendRowsStep(made, was, row, col);
        var x := Get(state, row, col);
        Set(state, row, col, Sbox(x));
      }
      BlendRowsEnds(made, was, row);
    }
  }

  method ShiftRows(state: array2<bv8>)
    requires Square(state)
    modifies state
    ensures BlockOf(state) == B.ShiftRows(old(BlockOf(state)))
  {
    var temp := state[1, 0];
    state[1, 0] := state[1, 1];
    state[1, 1] := state[1, 2];
    state[1, 2] := state[1, 3];
    state[1, 3] := temp;

    temp := state[2, 0];
    state[2, 0] := state[2, 2];
    state[2, 2] := temp;

    temp := state[2, 1];
    state[2, 1] := state[2, 3];
    state[2, 3] := temp;

    temp := state[3, 0];
    state[3, 0] := state[3, 3];
    state[3, 3] := state[3, 2];
    state[3, 2] := state[3, 1];
    state[3, 1] := temp;
  }

  lemma BlendColumn(made: Block, was: Block, col: nat)
    requires col < 4
    ensures B.Column(Blend(made, was, 4 * col), col) == B.Column(was, col)
    ensures var w := B.Column(made, col);
            && Blend(made, was, 4 * col)[4 * col := w[0]] == Blend(made, was, 4 * col + 1)
            && Blend(made, was, 4 * col + 1)[4 * col + 1 := w[1]] == Blend(made, was, 4 * col + 2)
            && Blend(made, was, 4 * col + 2)[4 * col + 2 := w[2]] == Blend(made, was, 4 * col + 3)
            && Blend(made, was, 4 * col + 3)[4 * col + 3 := w[3]] == Blend(made, was, 4 * col + 4)
  {
  }

  lemma ColumnIs(b: Block, col: nat, w: bv8, x: bv8, y: bv8, z: bv8)
    requires col < 4 && b[4 * col] == w && b[4 * col + 1] == x && b[4 * col + 2] == y && b[4 * col + 3] == z
    ensures B.Column(b, col) == [w, x, y, z]
  {
  }

  /** The column that `mix_columns` writes over the column (a, b, c, d). */
  function MixedColumn(a: bv8, b: bv8, c: bv8, d: bv8): Word {
    [Sum(Xtime(a), Mul3(b), c, d), Sum(a, Xtime(b), Mul3(c), d),
     Sum(a, b, Xtime(c), Mul3(d)), Sum(Mul3(a), b, c, Xtime(d))]
  }

  lemma MixedColumnIsMixWord(a: bv8, b: bv8, c: bv8, d: bv8)
    ensures MixedColumn(a, b, c, d) == MixWord([a, b, c, d])
  {
    hide Xtime, Mul3, Sum;
    SumTurned(a, Xtime(b), Mul3(c), d);
    SumTurned(a, b, Xtime(c), Mul3(d));
    SumTurned(Mul3(a), b, c, Xtime(d));
  }

  /** The column that `inv_mix_columns` writes over the column (a, b, c, d). */
  function UnmixedColumn(a: bv8, b: bv8, c: bv8, d: bv8): Word {
    [Sum(Multiply(a, 0x0e), Multiply(b, 0x0b), Multiply(c, 0x0d), Multiply(d, 0x09)),
     Sum(Multiply(a, 0x09), Multiply(b, 0x0e), Multiply(c, 0x0b), Multiply(d, 0x0d)),
     Sum(Multiply(a, 0x0d), Multiply(b, 0x09), Multiply(c, 0x0e), Multiply(d, 0x0b)),
     Sum(Multiply(a, 0x0b), Multiply(b, 0x0d), Multiply(c, 0x09), Multiply(d, 0x0e))]
  }

  lemma UnmixedColumnIsInvMixWord(a: bv8, b: bv8, c: bv8, d: bv8)
    ensures UnmixedColumn(a, b, c, d) == InvMixWord([a, b, c, d])
  {
    hide Multiply, Sum;
    SumTurned(Multiply(a, 0x09), Multiply(b, 0x0e), Multiply(c, 0x0b), Multiply(d, 0x0d));
    SumTurned(Multiply(a, 0x0d), Multiply(b, 0x09), Multiply(c, 0x0e), Multiply(d, 0x0b));
    SumTurned(Multiply(a, 0x0b), Multiply(b, 0x0d), Multiply(c, 0x09), Multiply(d, 0x0e));
  }

  /** The columns of mixed states. */
  lemma MixedColumns(b: Block, c: nat)
    requires c < 4
    ensures B.Column(B.MixColumns(b), c) == MixWord(B.Column(b, c))
    ensures B.Column(B.InvMixColumns(b), c) == InvMixWord(B.Column(b, c))
  {
    hide MixWord, InvMixWord, B.Column, B.FromColumns;
    B.ColumnsOf(MixWord(B.Column(b, 0)), MixWord(B.Column(b, 1)), MixWord(B.Column(b, 2)), MixWord(B.Column(b, 3)));
    B.ColumnsOf(InvMixWord(B.Column(b, 0)), InvMixWord(B.Column(b, 1)),
                InvMixWord(B.Column(b, 2)), InvMixWord(B.Column(b, 3)));
  }

  method MixColumns(state: array2<bv8>)
    requires Square(state)
    modifies state
    ensures BlockOf(state) == B.MixColumns(old(BlockOf(state)))
  {
    hide MixWord, InvMixWord, MixedColumn, UnmixedColumn, BlockOf, Blend, B.Column, B.MixColumns;
    ghost var was := BlockOf(state);
    ghost var made := B.MixColumns(was);
    BlendEnds(made, was);
    for col := 0 to 4
      invariant BlockOf(state) == Blend(made, was, 4 * col)
    {
      BlendColumn(made, was, col);
      MixedColumns(was, col);
      var a := Get(state, 0, col);
      var b := Get(state, 1, col);
      var c := Get(state, 2, col);
      var d := Get(state, 3, col);
      ColumnIs(Blend(made, was, 4 * col), col, a, b, c, d);
      MixedColumnIsMixWord(a, b, c, d);
      var w := MixedColumn(a, b, c, d);
      Set(state, 0, col, w[0]);
      Set(state, 1, col, w[1]);
      Set(state, 2, col, w[2]);
      Set(state, 3, col, w[3]);
    }
  }

  /** `cipher`.  The three buffers may be the same. */
  method Cipher(plaintext: array<bv8>, ciphertext: array<bv8>, sched: array<bv8>)
    requires plaintext.Length >= 16 && ciphertext.Length >= 16 && sched.Length >= 176
    modifies ciphertext
    ensures ciphertext[..] == old(B.Cipher(BytesAt(plaintext[..], 0), KeysOf(sched[..])) + ciphertext[16..])
  {
    hide B.Round, B.Xor, B.SubBytes, B.ShiftRows, B.MixColumns, BlockOf, BytesAt, KeysOf;
    var state := new bv8[4, 4];
    ghost var buf := sched[..];
    ghost var p, ks := BytesAt(plaintext[..], 0), KeysOf(buf);
    LoadState(state, plaintext);
    KeyIs(buf, 0);
    AddRoundKey(state, sched, 0);
    for round := 1 to 10
      modifies state
      invariant sched[..] == buf && BlockOf(state) == B.EncState(p, ks, round - 1)
    {
      KeyIs(buf, round);
      SubBytes(state);
      ShiftRows(state);
      MixColumns(state);
      AddRoundKey(state, sched, round * 4 * 4);
      RoundIs(p, ks, round);
    }
    SubBytes(state);
    ShiftRows(state);
    KeyIs(buf, 10);
    AddRoundKey(state, sched, 10 * 4 * 4);
    StoreState(state, ciphertext);
  }

  lemma KeyIs(sched: seq<bv8>, r: nat)
    requires |sched| >= 176 && r < 11
    ensures KeysOf(sched)[r] == BytesAt(sched, r * 4 * 4)
  {
    hide BytesAt;
  }

  lemma RoundIs(p: Block, ks: B.Keys, r: nat)
    requires 1 <= r <= 9
    ensures B.EncState(p, ks, r) == B.Xor(B.MixColumns(B.ShiftRows(B.SubBytes(B.EncState(p, ks, r - 1)))), ks[r])
  {
    hide B.Xor, B.SubBytes, B.ShiftRows, B.MixColumns;
  }

  // ------------------------------------------------------------------ decipher.c

  method InvSubBytes(state: array2<bv8>)
    requires Square(state)
    modifies state
    ensures BlockOf(state) == B.InvSubBytes(old(BlockOf(state)))
  {
    hide InvSbox, BlockOf, BlendRows;
    ghost var was := BlockOf(state);
    ghost var made := B.InvSubBytes(was);
    BlendRowsEnds(made, was, 0);
    for row := 0 to 4
      invariant BlockOf(state) == BlendRows(made, was, row, 0)
    {
      for col := 0 to 4
        invariant BlockOf(state) == BlendRows(made, was, row, col)
      {
        BlendRowsStep(made, was, row, col);
        var x := Get(state, row, col);
        Set(state, row, col, InvSbox(x));
      }
      BlendRowsEnds(made, was, row);
    }
  }

  method InvMixColumns(state: array2<bv8>)
    requires Square(state)
    modifies state
    ensures BlockOf(state) == B.InvMixColumns(old(BlockOf(state)))
  {
    hide MixWord, InvMixWord, MixedColumn, UnmixedColumn, BlockOf, Blend, B.Column, B.InvMixColumns;
    ghost var was := BlockOf(state);
    ghost var made := B.InvMixColumns(was);
    BlendEnds(made, was);
    for col := 0 to 4
      invariant BlockOf(state) == Blend(made, was, 4 * col)
    {
      BlendColumn(made, was, col);
      MixedColumns(was, col);
      var a := Get(state, 0, col);
      var b := Get(state, 1, col);
      var c := Get(state, 2, col);
      var d := Get(state, 3, col);
      ColumnIs(Blend(made, was, 4 * col), col, a, b, c, d);
      UnmixedColumnIsInvMixWord(a, b, c, d);
      var w := UnmixedColumn(a, b, c, d);
      Set(state, 0, col, w[0]);
      Set(state, 1, col, w[1]);
      Set(state, 2, col, w[2]);
      Set(state, 3, col, w[3]);
    }
  }

  method InvShiftRows(state: array2<bv8>)
    requires Square(state)
    modifies state
    ensures BlockOf(state) == B.InvShiftRows(old(BlockOf(state)))
  {
    var temp := state[1, 3];
    state[1, 3] := state[1, 2];
    state[1, 2] := state[1, 1];
    state[1, 1] := state[1, 0];
    state[1, 0] := temp;

    temp := state[2, 0];
    state[2, 0] := state[2, 2];
    state[2, 2] := temp;

    temp := state[2, 1];
    state[2, 1] := state[2, 3];
    state[2, 3] := temp;

    temp := state[3, 0];
    state[3, 0] := state[3, 1];
    state[3, 1] := state[3, 2];
    state[3, 2] := state[3, 3];
    state[3, 3] := temp;
  }

  /** `decipher`.  The three buffers may be the same. */
  method Decipher(ciphertext: array<bv8>, plaintext: array<bv8>, sched: array<bv8>)
    requires plaintext.Length >= 16 && ciphertext.Length >= 16 && sched.Length >= 176
    modifies plaintext
    ensures plaintext[..] == old(B.Decipher(BytesAt(ciphertext[..], 0), KeysOf(sched[..])) + plaintext[16..])
  {
    hide B.InvRound, B.Xor, B.InvSubBytes, B.InvShiftRows, B.InvMixColumns, BlockOf, BytesAt, KeysOf;
    var state := new bv8[4, 4];
    ghost var buf := sched[..];
    ghost var c, ks := BytesAt(ciphertext[..], 0), KeysOf(buf);
    LoadState(state, ciphertext);
    KeyIs(buf, 10);
    AddRoundKey(state, sched, 10 * 4 * 4);
    var round := 9;
    while round > 0
      invariant 0 <= round <= 9
      modifies state
      invariant sched[..] == buf && BlockOf(state) == B.DecState(c, ks, round + 1)
    {
      KeyIs(buf, round);
      InvShiftRows(state);
      InvSubBytes(state);
      AddRoundKey(state, sched, round * 4 * 4);
      InvMixColumns(state);
      InvRoundIs(c, ks, round);
      round := round - 1;
    }
    InvShiftRows(state);
    InvSubBytes(state);
    KeyIs(buf, 0);
    AddRoundKey(state, sched, 0);
    StoreState(state, plaintext);
  }

  lemma InvRoundIs(c: Block, ks: B.Keys, r: nat)
    requires 1 <= r <= 9
    ensures B.DecState(c, ks, r)
         == B.InvMixColumns(B.Xor(B.InvSubBytes(B.InvShiftRows(B.DecState(c, ks, r + 1))), ks[r]))
  {
    hide B.Xor, B.InvSubBytes, B.InvShiftRows, B.InvMixColumns;
  }

  /** What `decipher` makes of what `cipher` made, with any schedule, is what was there before, whatever the
      third buffer held and whether the three text buffers are distinct or not. */
  method RoundTrip(plaintext: array<bv8>, ciphertext: array<bv8>, back: array<bv8>, sched: array<bv8>)
    requires plaintext.Length >= 16 && ciphertext.Length >= 16 && back.Length >= 16
    requires sched.Length >= 176 && ciphertext != sched
    modifies ciphertext, back
    ensures back[..] == old(plaintext[..16] + back[16..])
  {
    hide B.Cipher, B.Decipher, KeysOf;
    ghost var p, ks := BytesAt(plaintext[..], 0), KeysOf(sched[..]);
    Cipher(plaintext, ciphertext, sched);
    assert BytesAt(ciphertext[..], 0) == B.Cipher(p, ks);
    Decipher(ciphertext, back, sched);
    B.RoundTrip(p, ks);
  }

  // ------------------------------------------------------------------ key_expansion.c

  /** The words of a schedule. */
  function WordAt(sched: seq<bv8>, i: nat): Word
    requires 4 * i + 4 <= |sched|
  {
    sched[4 * i..4 * i + 4]
  }

  /** The first `n` words of the schedule are those of the expanded key. */
  ghost predicate Expanded(sched: seq<bv8>, key: Block, n: nat) {
    && 4 * n <= |sched| && n <= 44
    && forall i: nat :: i < n ==> WordAt(sched, i) == B.KeyWord(key, i)
  }

  /** The rotation, substitution and round constant applied to the word before each fourth one. */
  method Transform(tmp: array<bv8>, rcon: bv8)
    requires tmp.Length == 4
    modifies tmp
    ensures tmp[..] == B.Schedule(old(tmp[..]), rcon)
  {
    hide Sbox;
    var first := tmp[0];
    tmp[0] := tmp[1];
    tmp[1] := tmp[2];
    tmp[2] := tmp[3];
    tmp[3] := first;

    tmp[0] := Sbox(tmp[0]);
    tmp[1] := Sbox(tmp[1]);
    tmp[2] := Sbox(tmp[2]);
    tmp[3] := Sbox(tmp[3]);

    tmp[0] := tmp[0] ^ rcon;
  }

  method PutWord(sched: array<bv8>, i: nat, w: Word)
    requires 4 <= i < 44 && sched.Length >= 176
    modifies sched
    ensures WordAt(sched[..], i) == w
    ensures sched[..4 * i] == old(sched[..4 * i]) && sched[176..] == old(sched[176..])
  {
    sched[i * 4 + 0] := w[0];
    sched[i * 4 + 1] := w[1];
    sched[i * 4 + 2] := w[2];
    sched[i * 4 + 3] := w[3];
  }

  /** The four bytes of word `i`: word i - 4 with `tmp` added. */
  method StoreWord(sched: array<bv8>, i: nat, tmp: array<bv8>)
    requires 4 <= i < 44 && sched.Length >= 176 && tmp.Length == 4 && tmp != sched
    modifies sched
    ensures var w := old(WordAt(sched[..], i - 4));
            WordAt(sched[..], i) == [Pair(w[0], tmp[0]), Pair(w[1], tmp[1]), Pair(w[2], tmp[2]), Pair(w[3], tmp[3])]
    ensures WordAt(sched[..], i) == B.XorWord(old(WordAt(sched[..], i - 4)), tmp[..])
    ensures sched[..4 * i] == old(sched[..4 * i]) && sched[176..] == old(sched[176..])
  {
    hide B.XorWord, Pair;
    var j := (i - 4) * 4;
    B.XorWordBytes(WordAt(sched[..], i - 4), tmp[..]);
    PutWord(sched, i, [Pair(sched[j + 0], tmp[0]), Pair(sched[j + 1], tmp[1]), Pair(sched[j + 2], tmp[2]),
                       Pair(sched[j + 3], tmp[3])]);
  }

  lemma ExpandedIsExpand(sched: seq<bv8>, key: Block)
    requires |sched| >= 176 && Expanded(sched, key, 44)
    ensures KeysOf(sched) == B.Expand(key)
  {
    hide B.KeyWord;
    forall r: nat | r < 11
      ensures BytesAt(sched, 16 * r) == B.RoundKey(key, r)
    {
      assert WordAt(sched, 4 * r) == B.KeyWord(key, 4 * r);
      assert WordAt(sched, 4 * r + 1) == B.KeyWord(key, 4 * r + 1);
      assert WordAt(sched, 4 * r + 2) == B.KeyWord(key, 4 * r + 2);
      assert WordAt(sched, 4 * r + 3) == B.KeyWord(key, 4 * r + 3);
    }
  }

  lemma ExpandedStart(sched: seq<bv8>, key: Block)
    requires |sched| >= 176 && sched[..16] == key
    ensures Expanded(sched, key, 4)
  {
  }

  lemma ExpandedStep(sched: seq<bv8>, sched': seq<bv8>, key: Block, i: nat)
    requires 4 <= i < 44 && |sched| == |sched'| && Expanded(sched, key, i)
    requires 4 * i + 4 <= |sched| && sched'[..4 * i] == sched[..4 * i]
    requires WordAt(sched', i) == B.KeyWord(key, i)
    ensures Expanded(sched', key, i + 1)
  {
    hide B.KeyWord;
    forall j: nat | j < i
      ensures WordAt(sched', j) == WordAt(sched, j)
    {
      assert sched'[4 * j..4 * j + 4] == sched'[..4 * i][4 * j..4 * j + 4];
      assert sched[4 * j..4 * j + 4] == sched[..4 * i][4 * j..4 * j + 4];
    }
  }

  /** A schedule of round keys is their bytes in order. */
  lemma KeysAreBytes(sched: seq<bv8>)
    requires |sched| >= 176
    ensures sched[..176] == B.BytesOfKeys(KeysOf(sched))
    ensures B.Recurs(sched[..176]) ==> B.Recurs(sched)
  {
    hide B.Addend;
    forall n: nat | n < 176
      ensures sched[n] == B.BytesOfKeys(KeysOf(sched))[n]
    {
      assert n == 16 * (n / 16) + n % 16;
    }
    forall n: nat | 16 <= n < 176
      ensures B.Addend(sched, n) == B.Addend(sched[..176], n)
    {
      SameAddend(sched, n);
    }
  }

  lemma SameAddend(sched: seq<bv8>, n: nat)
    requires 16 <= n < 176 <= |sched|
    ensures B.Addend(sched, n) == B.Addend(sched[..176], n)
  {
    hide Sbox;
  }

  /** `key_expansion`: the schedule holds the round keys of FIPS 197 section 5.2; in bytes, it begins with the
      key and each later byte is the sum that the recurrence says. */
  method KeyExpansion(sched: array<bv8>, key: array<bv8>)
    requires sched.Length >= 176 && key.Length >= 16 && sched != key
    modifies sched
    ensures KeysOf(sched[..]) == B.Expand(BytesAt(key[..], 0))
    ensures sched[..16] == key[..16] && B.Recurs(sched[..])
    ensures sched[176..] == old(sched[176..])
  {
    hide B.KeyWord, B.Schedule, B.XorWord, B.Expand, KeysOf, Expanded;
    ghost var k := BytesAt(key[..], 0);
    for j := 0 to 16
      invariant sched[..j] == key[..j]
      invariant sched[176..] == old(sched[176..])
    {
      sched[j] := key[j];
    }
    ExpandedStart(sched[..], k);
    var tmp := new bv8[4];
    for i := 4 to 44
      invariant Expanded(sched[..], k, i)
      invariant sched[176..] == old(sched[176..])
    {
      ghost var before := sched[..];
      ExpandedWord(before, k, i);
      forall j | 0 <= j < 4 {
        tmp[j] := sched[(i - 1) * 4 + j];
      }
      assert tmp[..] == WordAt(before, i - 1);
      if i % 4 == 0 {
        Transform(tmp, RCON[i / 4]);
      }
      assert sched[..] == before;
      StoreWord(sched, i, tmp);
      B.KeyWordStep(k, i);
      ExpandedStep(before, sched[..], k, i);
    }
    ScheduleRecurs(sched[..], k);
  }

  lemma ScheduleRecurs(sched: seq<bv8>, key: Block)
    requires |sched| >= 176 && Expanded(sched, key, 44)
    ensures KeysOf(sched) == B.Expand(key) && sched[..16] == key && B.Recurs(sched)
  {
    hide B.Expand, B.Recurs, KeysOf, Expanded, B.BytesOfKeys;
    ExpandedIsExpand(sched, key);
    B.ExpandRecurs(key);
    KeysAreBytes(sched);
    assert sched[..16] == sched[..176][..16];
  }

  lemma ExpandedWord(sched: seq<bv8>, key: Block, i: nat)
    requires 4 <= i < 44 && Expanded(sched, key, i)
    ensures WordAt(sched, i - 4) == B.KeyWord(key, i - 4) && WordAt(sched, i - 1) == B.KeyWord(key, i - 1)
  {
    hide B.KeyWord;
  }
}
