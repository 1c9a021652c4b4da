/** What the functions of SHA-256 mean, bit by bit and as numbers. */
module ShaLaws {
  import opened Sha
  import opened ShaNumbers

  // ------------------------------------------------------------------ bits

  /** A word with a single one bit stands for the place of that bit. */
  predicate IsPlace(m: bv32) { m != 0 && m & (m - 1) == 0 }

  /** The bit of `x` at a place; false at the place 0, which is none. */
  predicate BitAt(x: bv32, m: bv32) { x & m != 0 }

  /** An odd number of three bits are ones. */
  predicate Odd(a: bool, b: bool, c: bool) { (a != b) != c }

  lemma BitOfXor3(x: bv32, y: bv32, z: bv32, m: bv32)
    requires IsPlace(m)
    ensures BitAt(Xor3(x, y, z), m) <==> Odd(BitAt(x, m), BitAt(y, m), BitAt(z, m))
  {
    hide BitAt, IsPlace;
    BitOfXor(x, y, m);
    BitOfXor(x ^ y, z, m);
  }

  lemma BitOfXor(x: bv32, y: bv32, m: bv32)
    requires IsPlace(m)
    ensures BitAt(x ^ y, m) <==> BitAt(x, m) != BitAt(y, m)
  {
  }

  lemma BitsTurned(x: bv32, m: bv32)
    ensures BitAt(x.RotateRight(2), m) <==> BitAt(x, m.RotateLeft(2))
    ensures BitAt(x.RotateRight(13), m) <==> BitAt(x, m.RotateLeft(13))
    ensures BitAt(x.RotateRight(22), m) <==> BitAt(x, m.RotateLeft(22))
    ensures BitAt(x.RotateRight(6), m) <==> BitAt(x, m.RotateLeft(6))
    ensures BitAt(x.RotateRight(11), m) <==> BitAt(x, m.RotateLeft(11))
    ensures BitAt(x.RotateRight(25), m) <==> BitAt(x, m.RotateLeft(25))
  {
  }

  lemma BitsMoved(x: bv32, m: bv32)
    ensures BitAt(x.RotateRight(7), m) <==> BitAt(x, m.RotateLeft(7))
    ensures BitAt(x.RotateRight(18), m) <==> BitAt(x, m.RotateLeft(18))
  {
  }

  lemma BitsMovedOn(x: bv32, m: bv32)
    ensures BitAt(x.RotateRight(17), m) <==> BitAt(x, m.RotateLeft(17))
    ensures BitAt(x.RotateRight(19), m) <==> BitAt(x, m.RotateLeft(19))
  {
  }

  lemma BitsShifted(x: bv32, m: bv32)
    ensures BitAt(x >> 3, m) <==> BitAt(x, m << 3)
    ensures BitAt(x >> 10, m) <==> BitAt(x, m << 10)
  {
  }

  /** Which bits of `x` each bit of the four functions is the sum of: those so many places up, around the
      end for a rotation, and none beyond the end for a shift. */
  lemma FunctionBits(x: bv32, m: bv32)
    requires IsPlace(m)
    ensures BitAt(Ep0(x), m)
       <==> Odd(BitAt(x, m.RotateLeft(2)), BitAt(x, m.RotateLeft(13)), BitAt(x, m.RotateLeft(22)))
    ensures BitAt(Ep1(x), m)
       <==> Odd(BitAt(x, m.RotateLeft(6)), BitAt(x, m.RotateLeft(11)), BitAt(x, m.RotateLeft(25)))
    ensures BitAt(Sig0(x), m) <==> Odd(BitAt(x, m.RotateLeft(7)), BitAt(x, m.RotateLeft(18)), BitAt(x, m << 3))
    ensures BitAt(Sig1(x), m) <==> Odd(BitAt(x, m.RotateLeft(17)), BitAt(x, m.RotateLeft(19)), BitAt(x, m << 10))
  {
    hide Xor3, BitAt, IsPlace;
    BitsTurned(x, m);
    BitsMoved(x, m);
    BitsMovedOn(x, m);
    BitsShifted(x, m);
    BitOfXor3(x.RotateRight(2), x.RotateRight(13), x.RotateRight(22), m);
    BitOfXor3(x.RotateRight(6), x.RotateRight(11), x.RotateRight(25), m);
    BitOfXor3(x.RotateRight(7), x.RotateRight(18), x >> 3, m);
    BitOfXor3(x.RotateRight(17), x.RotateRight(19), x >> 10, m);
  }

  // ------------------------------------------------------------------ the schedule, the rounds and the sum

  lemma SumOfSum(a: int, b: int)
    ensures ((a % TWO_TO_32) + b) % TWO_TO_32 == (a + b) % TWO_TO_32
    ensures (b + (a % TWO_TO_32)) % TWO_TO_32 == (b + a) % TWO_TO_32
  {
    LessMultiple(a + b, a / TWO_TO_32);
  }

  lemma LessMultiple(x: int, k: int)
    ensures (x - TWO_TO_32 * k) % TWO_TO_32 == x % TWO_TO_32
  {
  }

  /** The recurrence of FIPS 180-4 section 6.2.2 on the numbers of the words. */
  ghost predicate Extends(w: bv32, w2: bv32, w7: bv32, w15: bv32, w16: bv32) {
    Number(w) == (Number(Xor3(w2.RotateRight(17), w2.RotateRight(19), w2 >> 10)) + Number(w7)
                  + Number(Xor3(w15.RotateRight(7), w15.RotateRight(18), w15 >> 3)) + Number(w16)) % TWO_TO_32
  }

  lemma ExtendIsSum(w2: bv32, w7: bv32, w15: bv32, w16: bv32)
    ensures Extends(Extend(w2, w7, w15, w16), w2, w7, w15, w16)
  {
    hide Number, Add, Xor3;
    var s1, s0 := Sig1(w2), Sig0(w15);
    SumOfThree(s1, w7, s0);
    AddIsSum(Add(Add(s1, w7), s0), w16);
    SumOfSum(Number(s1) + Number(w7) + Number(s0), Number(w16));
  }

  /** A message schedule: the words of the block, and each later one as the recurrence says. */
  ghost predicate IsSchedule(w: seq<bv32>, m: Msg) {
    && |w| == 64 && w[..16] == m
    && forall t: nat :: 16 <= t < 64 ==> Extends(w[t], w[t - 2], w[t - 7], w[t - 15], w[t - 16])
  }

  lemma ScheduleIsFips(w: seq<bv32>, m: Msg)
    requires |w| == 64 && forall t: nat :: t < 64 ==> w[t] == W(m, t)
    ensures IsSchedule(w, m)
  {
    hide W, Extends;
    forall t: nat | t < 16
      ensures w[t] == m[t]
    {
      FirstWord(m, t);
    }
    forall t: nat | 16 <= t < 64
      ensures Extends(w[t], w[t - 2], w[t - 7], w[t - 15], w[t - 16])
    {
      ScheduleStep(m, t);
      ExtendIsSum(w[t - 2], w[t - 7], w[t - 15], w[t - 16]);
    }
  }

  lemma FirstWord(m: Msg, t: nat)
    requires t < 16
    ensures W(m, t) == m[t]
  {
  }

  /** The numbers T1 and T2 of a round.  `FunctionBits`, `ChChooses` and `MajAgrees` say what the functions in
      them are. */
  ghost function T1(v: Vars, k: bv32, w: bv32): int {
    Number(v.h) + Number(Ep1(v.e)) + Number(Ch(v.e, v.f, v.g)) + Number(k) + Number(w)
  }

  ghost function T2(v: Vars): int { Number(Ep0(v.a)) + Number(Maj(v.a, v.b, v.c)) }

  /** A round of FIPS 180-4 section 6.2.2: two variables are sums, the others move on by one. */
  lemma RoundIsFips(v: Vars, k: bv32, w: bv32)
    ensures var r := Round(v, k, w); r.b == v.a && r.c == v.b && r.d == v.c && r.f == v.e && r.g == v.f && r.h == v.g
    ensures Number(Round(v, k, w).a) == (T1(v, k, w) + T2(v)) % TWO_TO_32
    ensures Number(Round(v, k, w).e) == (Number(v.d) + T1(v, k, w)) % TWO_TO_32
  {
    hide Number, Add, Ep0, Ep1, Ch, Maj, T1, T2;
    var t1 := Add(Add(Add(Add(v.h, Ep1(v.e)), Ch(v.e, v.f, v.g)), k), w);
    var t2 := Add(Ep0(v.a), Maj(v.a, v.b, v.c));
    NumbersOfTs(v, k, w);
    AddIsSum(t1, t2);
    AddIsSum(v.d, t1);
    SumOfSum(T1(v, k, w), Number(t2));
    SumOfSum(T2(v), T1(v, k, w));
    SumOfSum(T1(v, k, w), Number(v.d));
  }

  lemma NumbersOfTs(v: Vars, k: bv32, w: bv32)
    ensures Number(Add(Add(Add(Add(v.h, Ep1(v.e)), Ch(v.e, v.f, v.g)), k), w)) == T1(v, k, w) % TWO_TO_32
    ensures Number(Add(Ep0(v.a), Maj(v.a, v.b, v.c))) == T2(v) % TWO_TO_32
  {
    hide Number, Add, Ep0, Ep1, Ch, Maj;
    SumOfFive(v.h, Ep1(v.e), Ch(v.e, v.f, v.g), k, w);
    AddIsSum(Ep0(v.a), Maj(v.a, v.b, v.c));
  }

  lemma SumOfFive(a: bv32, b: bv32, c: bv32, d: bv32, e: bv32)
    ensures Number(Add(Add(Add(Add(a, b), c), d), e))
         == (Number(a) + Number(b) + Number(c) + Number(d) + Number(e)) % TWO_TO_32
  {
    hide Number, Add;
    SumOfThree(a, b, c);
    var s, t := Add(Add(a, b), c), Number(a) + Number(b) + Number(c);
    SumOfThree(s, d, e);
    SumOfSum(t, Number(d) + Number(e));
  }

  lemma SumOfThree(a: bv32, b: bv32, c: bv32)
    ensures Number(Add(Add(a, b), c)) == (Number(a) + Number(b) + Number(c)) % TWO_TO_32
  {
    hide Number, Add;
    AddIsSum(a, b);
    AddIsSum(Add(a, b), c);
    SumOfSum(Number(a) + Number(b), Number(c));
  }

  /** The sum at the end of a block, word by word. */
  lemma PlusIsFips(x: Vars, y: Vars, i: nat)
    requires i < 8
    ensures Number(HashWord(Plus(x, y), i)) == (Number(HashWord(x, i)) + Number(HashWord(y, i))) % TWO_TO_32
  {
    hide Number, Add, Plus, HashWord;
    WordOfPlus(x, y, i);
    AddIsSum(HashWord(x, i), HashWord(y, i));
  }

  lemma WordOfPlus(x: Vars, y: Vars, i: nat)
    requires i < 8
    ensures HashWord(Plus(x, y), i) == Add(HashWord(x, i), HashWord(y, i))
  {
    hide Add;
  }

  // ------------------------------------------------------------------ bytes

  type Byte = n: nat | n < 256

  /** The number with given digits in base 256, the first the most significant. */
  function BigEndian(digits: seq<Byte>): nat {
    if digits == [] then 0 else 256 * BigEndian(digits[..|digits| - 1]) + digits[|digits| - 1]
  }

  /** Digit `i` of a number, counted from its end. */
  function ByteDigit(n: nat, i: nat): Byte
    decreases i
  {
    if i == 0 then n % 256 else ByteDigit(n / 256, i - 1)
  }

  /** The last `k` digits. */
  function Digits(n: nat, k: nat): (digits: seq<Byte>)
    ensures |digits| == k
  {
    seq(k, i requires 0 <= i < k => ByteDigit(n, k - 1 - i))
  }

  function Power(k: nat): nat { if k == 0 then 1 else 256 * Power(k - 1) }

  lemma {:induction false} DigitsAreNumber(n: nat, k: nat)
    requires n < Power(k)
    ensures BigEndian(Digits(n, k)) == n
  {
    if k != 0 {
      forall i: nat | i < k - 1
        ensures Digits(n, k)[i] == Digits(n / 256, k - 1)[i]
      {
        DigitAbove(n, k - 2 - i);
      }
      assert Digits(n, k)[..k - 1] == Digits(n / 256, k - 1);
      assert Digits(n, k)[k - 1] == ByteDigit(n, 0);
      DigitsAreNumber(n / 256, k - 1);
    }
  }

  lemma DigitAbove(n: nat, i: nat)
    ensures ByteDigit(n, i + 1) == ByteDigit(n / 256, i)
  {
  }

  lemma {:induction false} DigitIsByte(n: nat, i: nat)
    ensures Digit(n, i) == ByteDigit(n, i) as bv8
    decreases i
  {
    if i != 0 {
      DigitIsByte(n / 256, i - 1);
    }
  }

  /** Section 5.1.1: the length of a message comes as a number of 64 bits, the most significant byte first. */
  lemma LengthIsNumber(n: nat)
    requires n < 0x1_0000_0000_0000_0000
    ensures BigEndian(Digits(n, 8)) == n
    ensures forall i: nat :: i < 8 ==> Bytes8(n)[i] == Digits(n, 8)[i] as bv8
  {
    hide Digit, ByteDigit;
    assert Power(4) == 0x1_0000_0000;
    DigitsAreNumber(n, 8);
    forall i: nat | i < 8
      ensures Bytes8(n)[i] == Digits(n, 8)[i] as bv8
    {
      DigitIsByte(n, 7 - i);
    }
  }

  /** The bytes of a word, the most significant first. */
  lemma WordIsBytes(w: bv32)
    ensures Number(w) == BigEndian([ByteOf(w, 0) as int, ByteOf(w, 1) as int, ByteOf(w, 2) as int, ByteOf(w, 3) as int])
  {
    hide Eight, ByteOf, BigEndian;
    FourDigits(ByteOf(w, 0) as int, ByteOf(w, 1) as int, ByteOf(w, 2) as int, ByteOf(w, 3) as int);
    LastEightDigits(w);
    UpperDigits(w);
  }

  lemma FourDigits(a: Byte, b: Byte, c: Byte, d: Byte)
    ensures BigEndian([a, b, c, d]) == 0x100_0000 * a + 0x1_0000 * b + 0x100 * c + d
  {
    assert [a, b, c, d] == [] + [a] + [b] + [c] + [d];
    OneMore([], a);
    OneMore([] + [a], b);
    OneMore([] + [a] + [b], c);
    OneMore([] + [a] + [b] + [c], d);
  }

  lemma OneMore(digits: seq<Byte>, d: Byte)
    ensures BigEndian(digits + [d]) == 256 * BigEndian(digits) + d
  {
    assert (digits + [d])[..|digits|] == digits;
  }

  lemma LastEightDigits(w: bv32)
    ensures Eight(w) == ByteOf(w, 3) as int
  {
  }

  lemma UpperDigits(w: bv32)
    ensures Eight(w >> 8) == ByteOf(w, 2) as int
    ensures Eight(w >> 16) == ByteOf(w, 1) as int
    ensures Eight(w >> 24) == ByteOf(w, 0) as int
  {
  }
}
