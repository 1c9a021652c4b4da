/** The C code of SHA-256: hexadecimal input, padding and the compression loops. */
module ShaC {
  import opened Sha
  import opened ShaLaws

  /** What `exit(EXIT_FAILURE)` leaves is no result, and nothing can be said after a write past a buffer. */
  datatype Result<T> = Ok(value: T) | Failure | Overflow

  const NIMB_MAX := 256
  const BYTES_MAX := 128

  // ------------------------------------------------------------------ the functions on words

  function CRotR(val: bv32, shift: nat): bv32
    requires 0 < shift < 32
  {
    (val >> shift) | (val << (32 - shift))
  }

  function CCh(x: bv32, y: bv32, z: bv32): bv32 { (x & y) ^ (!x & z) }

  function CMaj(x: bv32, y: bv32, z: bv32): bv32 { (x & y) ^ (x & z) ^ (y & z) }

  function CEp0(x: bv32): bv32 { Xor3(CRotR(x, 2), CRotR(x, 13), CRotR(x, 22)) }

  function CEp1(x: bv32): bv32 { Xor3(CRotR(x, 6), CRotR(x, 11), CRotR(x, 25)) }

  function CSig0(x: bv32): bv32 { Xor3(CRotR(x, 7), CRotR(x, 18), x >> 3) }

  function CSig1(x: bv32): bv32 { Xor3(CRotR(x, 17), CRotR(x, 19), x >> 10) }

  /** Two shifts make a rotation, by every amount the functions use. */
  lemma ShiftsRotate(x: bv32)
    ensures CRotR(x, 2) == x.RotateRight(2) && CRotR(x, 13) == x.RotateRight(13)
    ensures CRotR(x, 22) == x.RotateRight(22) && CRotR(x, 6) == x.RotateRight(6)
    ensures CRotR(x, 11) == x.RotateRight(11) && CRotR(x, 25) == x.RotateRight(25)
    ensures CRotR(x, 7) == x.RotateRight(7) && CRotR(x, 18) == x.RotateRight(18)
    ensures CRotR(x, 17) == x.RotateRight(17) && CRotR(x, 19) == x.RotateRight(19)
  {
  }

  /** The functions are those of FIPS 180-4 section 4.1.2. */
  lemma FunctionsAgree(x: bv32, y: bv32, z: bv32)
    ensures CCh(x, y, z) == Ch(x, y, z) && CMaj(x, y, z) == Maj(x, y, z)
    ensures CEp0(x) == Ep0(x) && CEp1(x) == Ep1(x) && CSig0(x) == Sig0(x) && CSig1(x) == Sig1(x)
  {
    hide CRotR, Xor3;
    ShiftsRotate(x);
  }

  // ------------------------------------------------------------------ hexadecimal input

  function ToHex(c: char): bv8 {
    if '0' <= c <= '9' then (c as int - '0' as int) as bv8
    else if 'A' <= c <= 'F' then (c as int - 'A' as int + 10) as bv8
    else 0xff
  }

  /** A character of a string, or the zero that ends it. */
  function CharAt(text: string, i: nat): char {
    if i < |text| then text[i] else '\0'
  }

  function ByteAt(text: string, i: nat): bv8 {
    (ToHex(CharAt(text, 2 * i)) << 4) | ToHex(CharAt(text, 2 * i + 1))
  }

  /** The bytes that pairs of characters stand for. */
  function Decoded(text: string): (bytes: seq<bv8>)
    ensures |bytes| == (|text| + 1) / 2
  {
    seq((|text| + 1) / 2, i requires 0 <= i < (|text| + 1) / 2 => ByteAt(text, i))
  }

  predicate IsDigit(c: char) { '0' <= c <= '9' || 'A' <= c <= 'F' }

  function DigitChar(n: nat): char
    requires n < 16
  {
    if n < 10 then ('0' as int + n) as char else ('A' as int + n - 10) as char
  }

  /** The upper half of a byte, and the lower. */
  function Nibble(b: bv8, half: nat): (n: nat)
    ensures n < 16
  {
    (if half == 0 then b >> 4 else b & 15) as int
  }

  /** The capital digits of a list of bytes. */
  function Hex(bytes: seq<bv8>): (text: string)
    ensures |text| == 2 * |bytes|
  {
    seq(2 * |bytes|, i requires 0 <= i < 2 * |bytes| => DigitChar(Nibble(bytes[i / 2], i % 2)))
  }

  lemma DigitValue(n: nat)
    requires n < 16
    ensures ToHex(DigitChar(n)) == n as bv8
  {
  }

  /** Reading back what was written in capital digits. */
  lemma DecodedHex(bytes: seq<bv8>)
    ensures Decoded(Hex(bytes)) == bytes
  {
    hide ToHex, DigitChar, Nibble;
    var text := Hex(bytes);
    forall i: nat | i < |bytes|
      ensures ByteAt(text, i) == bytes[i]
    {
      var b := bytes[i];
      assert (2 * i + 1) / 2 == i;
      DigitValue(Nibble(b, 0));
      DigitValue(Nibble(b, 1));
      Nibbles(b);
    }
  }

  /** Any character that is no capital digit, a small one among them, counts as eight ones, of which a first
      character keeps the lower four; so does the end of a text of odd length. */
  lemma OtherCharacters(text: string, i: nat)
    ensures ToHex(CharAt(text, i)) == 0xff <==> !IsDigit(CharAt(text, i))
    ensures !IsDigit(CharAt(text, 2 * i)) ==> ByteAt(text, i) == 0xf0 | ToHex(CharAt(text, 2 * i + 1))
    ensures !IsDigit(CharAt(text, 2 * i + 1)) ==> ByteAt(text, i) == 0xff
    ensures |text| == 2 * i + 1 ==> ByteAt(text, i) == 0xff
  {
  }

  /** The bytes read can be written back as they were exactly if they were pairs of capital digits. */
  lemma HexDecoded(text: string)
    ensures Hex(Decoded(text)) == text <==> |text| % 2 == 0 && forall i :: 0 <= i < |text| ==> IsDigit(text[i])
  {
    hide ToHex, DigitChar, Nibble, IsDigit;
    var back := Hex(Decoded(text));
    forall i: nat | i < |back|
      ensures IsDigit(back[i])
      ensures i < |text| && IsDigit(text[i]) && |text| % 2 == 0 && IsDigit(CharAt(text, i + 1 - 2 * (i % 2)))
              ==> back[i] == text[i]
    {
      var n := Nibble(ByteAt(text, i / 2), i % 2);
      CapitalDigit(n);
      if i < |text| && IsDigit(text[i]) && IsDigit(CharAt(text, i + 1 - 2 * (i % 2))) {
        HalvesOf(CharAt(text, i - i % 2), CharAt(text, i - i % 2 + 1));
      }
    }
  }

  lemma CapitalDigit(n: nat)
    requires n < 16
    ensures IsDigit(DigitChar(n))
  {
  }

  lemma HalvesOf(c: char, d: char)
    requires IsDigit(c) && IsDigit(d)
    ensures DigitChar(Nibble((ToHex(c) << 4) | ToHex(d), 0)) == c
    ensures DigitChar(Nibble((ToHex(c) << 4) | ToHex(d), 1)) == d
  {
    hide ToHex;
    DigitBack(c);
    DigitBack(d);
    HalvesBack(ToHex(c), ToHex(d));
  }

  lemma DigitBack(c: char)
    requires IsDigit(c)
    ensures ToHex(c) <= 15 && DigitChar(ToHex(c) as int) == c
  {
    var n := if c <= '9' then c as int - '0' as int else c as int - 'A' as int + 10;
    Small(n);
  }

  lemma Small(n: nat)
    requires n < 16
    ensures n as bv8 <= 15 && (n as bv8) as int == n
  {
  }

  lemma HalvesBack(x: bv8, y: bv8)
    requires x <= 15 && y <= 15
    ensures ((x << 4) | y) >> 4 == x && ((x << 4) | y) & 15 == y
  {
  }

  lemma Nibbles(b: bv8)
    ensures ((Nibble(b, 0) as bv8) << 4) | (Nibble(b, 1) as bv8) == b
  {
    ThereAndBack(b >> 4);
    ThereAndBack(b & 15);
    Halves(b);
  }

  lemma ThereAndBack(x: bv8)
    ensures (x as int) as bv8 == x
  {
  }

  lemma Halves(b: bv8)
    ensures ((b >> 4) << 4) | (b & 15) == b
  {
  }

  // ------------------------------------------------------------------ parse_pad

  /** The 128 bytes that `parse_pad` prepares for `len` characters: the length takes the last eight
      places, whatever stood there. */
  function PadBuffer(bytes: seq<bv8>, len: nat): (buf: seq<bv8>)
    requires |bytes| <= 127 && len < 1000
    ensures |buf| == 128
  {
    (bytes + [0x80] + seq(127 - |bytes|, _ => 0))[..120] + Bytes8(4 * len)
  }

  /** For whole bytes the buffer is the padding of section 5.1.1 exactly if there are 56 to 119 of them:
      shorter messages fill one block, and longer ones three. */
  lemma PadIsFips(bytes: seq<bv8>)
    requires |bytes| <= 127
    ensures PadBuffer(bytes, 2 * |bytes|) == Padded(bytes) <==> 56 <= |bytes| <= 119
  {
    hide Bytes8, ZeroCount;
    var n := |bytes|;
    ZerosOf(n);
    if 56 <= n <= 119 {
      assert seq(127 - n, _ => 0 as bv8)[..119 - n] == seq(119 - n, _ => 0 as bv8);
      assert (bytes + [0x80] + seq(127 - n, _ => 0))[..120] == bytes + [0x80] + seq(119 - n, _ => 0);
    }
  }

  lemma ZerosOf(n: nat)
    requires n <= 127
    ensures ZeroCount(n) == if n < 56 then 55 - n else if n <= 119 then 119 - n else 183 - n
  {
  }

  /** The structure `sha256_data`. */
  class Sha256Data {
    const msg: array<bv8>

    constructor ()
      ensures msg.Length == BYTES_MAX && fresh(msg)
    {
      msg := new bv8[BYTES_MAX](_ => 0);
    }
  }

  datatype Outcome = Parsed | Refused | PastEnd

  /** More than 256 characters are refused.  With 255 or 256 the decoded bytes fill the buffer, and the
      one bit goes to the byte behind it. */
  method ParsePad(co: Sha256Data, text: string) returns (r: Outcome)
    requires co.msg.Length == BYTES_MAX && '\0' !in text
    modifies co.msg
    ensures r.Refused? <==> |text| > NIMB_MAX
    ensures r.PastEnd? <==> 255 <= |text| <= 256
    ensures r.Parsed? ==> co.msg[..] == PadBuffer(Decoded(text), |text|)
    ensures r.PastEnd? ==> co.msg[..] == Decoded(text)
    ensures r.Refused? ==> co.msg[..] == old(co.msg[..])
  {
    hide ByteAt, Bytes8;
    var msg, len := co.msg, |text|;
    if len > NIMB_MAX {
      return Refused;
    }
    for i := 0 to BYTES_MAX
      invariant forall j :: 0 <= j < i ==> msg[j] == 0
    {
      msg[i] := 0;
    }
    var i, p := 0, 0;
    while i < len
      invariant 0 <= i <= len + 1 && i == 2 * p
      invariant forall j: nat :: j < p ==> msg[j] == ByteAt(text, j)
      invariant forall j :: p <= j < BYTES_MAX ==> msg[j] == 0
    {
      msg[p] := ByteAt(text, p);
      i, p := i + 2, p + 1;
    }
    if p >= BYTES_MAX {
      return PastEnd;
    }
    msg[p] := 0x80;
    var length := Bytes8(4 * len);
    forall j | 0 <= j < 8 {
      msg[120 + j] := length[j];
    }
    r := Parsed;
  }

  // ------------------------------------------------------------------ sha256_compute

  lemma WordsOfBlock(bytes: seq<bv8>, i: nat, t: nat)
    requires 64 * i + 64 <= |bytes| && t < 16
    ensures var p := 64 * i + t * 4;
            W(BlockAt(bytes, i), t) == WordOf(bytes[p], bytes[p + 1], bytes[p + 2], bytes[p + 3])
  {
    hide WordOf;
    assert 4 * (16 * i + t) == 64 * i + t * 4;
  }

  /** The message schedule of block `i`. */
  method MakeSchedule(msg: array<bv8>, i: nat, w: array<bv32>)
    requires 64 * i + 64 <= msg.Length && w.Length == 64
    modifies w
    ensures forall t: nat :: t < 64 ==> w[t] == W(BlockAt(msg[..], i), t)
    ensures IsSchedule(w[..], BlockAt(msg[..], i))
  {
    hide Add, CSig0, CSig1, Sig0, Sig1, WordOf, W, BlockAt, IsSchedule;
    var index := 64 * i;
    ghost var bytes := msg[..];
    ghost var m := BlockAt(bytes, i);
    for t := 0 to 64
      invariant forall s: nat :: s < t ==> w[s] == W(m, s)
    {
      if t < 16 {
        WordsOfBlock(bytes, i, t);
        var p := index + t * 4;
        w[t] := WordOf(msg[p], msg[p + 1], msg[p + 2], msg[p + 3]);
      } else {
        ScheduleStep(m, t);
        FunctionsAgree(w[t - 2], 0, 0);
        FunctionsAgree(w[t - 15], 0, 0);
        w[t] := Add(Add(Add(CSig1(w[t - 2]), w[t - 7]), CSig0(w[t - 15])), w[t - 16]);
      }
    }
    ScheduleIsFips(w[..], m);
  }

  /** The 64 rounds on rotating variables. */
  method RunRounds(v: Vars, w: array<bv32>, ghost m: Msg) returns (r: Vars)
    requires w.Length == 64 && (forall t: nat :: t < 64 ==> w[t] == W(m, t))
    ensures r == Rounds(K, v, m, 64)
  {
    hide Add, W, Ep0, Ep1, Ch, Maj, CEp0, CEp1, CCh, CMaj, K, Rounds;
    KLength();
    var a, b, c, d, e, f, g, h := v.a, v.b, v.c, v.d, v.e, v.f, v.g, v.h;
    NoRounds(K, v, m);
    for t := 0 to 64
      invariant Vars(a, b, c, d, e, f, g, h) == Rounds(K, v, m, t)
    {
      RoundsStep(K, v, m, t);
      FunctionsAgree(e, f, g);
      FunctionsAgree(a, b, c);
      var t1 := Add(Add(Add(Add(h, CEp1(e)), CCh(e, f, g)), K[t]), w[t]);
      var t2 := Add(CEp0(a), CMaj(a, b, c));
      h := g;
      g := f;
      f := e;
      e := Add(d, t1);
      d := c;
      c := b;
      b := a;
      a := Add(t1, t2);
    }
    r := Vars(a, b, c, d, e, f, g, h);
  }

  lemma NoRounds(k: seq<bv32>, v: Vars, m: Msg)
    requires |k| == 64
    ensures Rounds(k, v, m, 0) == v
  {
  }

  /** The addition at the end of a block. */
  method AddTo(h: array<bv32>, v: Vars)
    requires h.Length == 8
    modifies h
    ensures HashIn(h[..]) == Plus(old(HashIn(h[..])), v)
  {
    hide Add;
    h[0] := Add(h[0], v.a);
    h[1] := Add(h[1], v.b);
    h[2] := Add(h[2], v.c);
    h[3] := Add(h[3], v.d);
    h[4] := Add(h[4], v.e);
    h[5] := Add(h[5], v.f);
    h[6] := Add(h[6], v.g);
    h[7] := Add(h[7], v.h);
  }

  lemma KLength()
    ensures |K| == 64
  {
  }

  /** A hash value held in an array. */
  function HashIn(h: seq<bv32>): Vars
    requires |h| == 8
  {
    Vars(h[0], h[1], h[2], h[3], h[4], h[5], h[6], h[7])
  }

  /** `sha256_compute`, whose hash value is the result here; the C code only prints it. */
  method Sha256Compute(co: Sha256Data, text: string) returns (r: Result<Vars>)
    requires co.msg.Length == BYTES_MAX && '\0' !in text
    modifies co.msg
    ensures r.Ok? <==> |text| <= 254
    ensures r.Overflow? <==> 255 <= |text| <= 256
    ensures r.Ok? ==> r.value == HashBlocks(PadBuffer(Decoded(text), |text|), 2)
    ensures r.Ok? && |text| % 2 == 0 && 112 <= |text| <= 238 ==> Digest(r.value) == Sha256(Decoded(text))
  {
    hide Rounds, Plus, BlockAt, W, PadBuffer, Padded, Decoded;
    KLength();
    var h := new bv32[8] [0x6a09e667, 0xbb67ae85, 0x3c6ef372, 0xa54ff53a,
                             0x510e527f, 0x9b05688c, 0x1f83d9ab, 0x5be0cd19];
    var w := new bv32[64](_ => 0);
    var parsed := ParsePad(co, text);
    match parsed {
      case Refused => return Failure;
      case PastEnd => return Overflow;
      case Parsed =>
    }
    ghost var buf := co.msg[..];
    for i := 0 to 2
      invariant co.msg[..] == buf
      invariant HashIn(h[..]) == HashBlocks(buf, i)
    {
      MakeSchedule(co.msg, i, w);
      var v := RunRounds(HashIn(h[..]), w, BlockAt(buf, i));
      AddTo(h, v);
    }
    r := Ok(HashIn(h[..]));
    if |text| % 2 == 0 && 112 <= |text| <= 238 {
      PadIsFips(Decoded(text));
    }
  }
}
