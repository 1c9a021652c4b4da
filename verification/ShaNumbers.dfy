/** The words of SHA-256 as numbers. */
module ShaNumbers {
  import opened Sha

  const TWO_TO_32 := 0x1_0000_0000

  /** The binary digit of a word at a place, which is a word with one bit. */
  function Bit(x: bv32, m: bv32): nat { if x & m != 0 then 1 else 0 }

  /** The number of the last eight digits. */
  function Eight(x: bv32): nat {
    Bit(x, 1) + 2 * Bit(x, 2) + 4 * Bit(x, 4) + 8 * Bit(x, 8)
    + 16 * Bit(x, 16) + 32 * Bit(x, 32) + 64 * Bit(x, 64) + 128 * Bit(x, 128)
  }

  /** The number of a word. */
  function Number(x: bv32): nat {
    Eight(x) + 0x100 * Eight(x >> 8) + 0x1_0000 * Eight(x >> 16) + 0x100_0000 * Eight(x >> 24)
  }

  // ------------------------------------------------------------------ digit by digit

  /** Words with room for a carry. */
  function Low(z: bv33): bv33 { z & 1 }

  function Half(z: bv33): bv33 { z >> 1 }

  function Plus33(x: bv33, y: bv33): bv33 { x + y }

  function Twice(h: bv33, b: bv33): bv33 { Plus33(Plus33(h, h), b) }

  function Add3(x: bv33, y: bv33, c: bv33): bv33 { Plus33(Plus33(x, y), c) }

  predicate IsBit(b: bv33) { b <= 1 }

  predicate Fits(x: bv33) { x <= 0xffff_ffff }

  /** The number of a word, the last digit first. */
  function WideNumber(z: bv33): nat
    decreases z
  {
    if z == 0 then 0 else (if z & 1 == 1 then 1 else 0) + 2 * WideNumber(z >> 1)
  }

  function Wide(x: bv32): bv33 { x as bv33 }

  lemma Rebuild(x: bv33)
    ensures x == Twice(Half(x), Low(x)) && IsBit(Low(x)) && Fits(Half(x))
  {
  }

  lemma SameSum(a: bv33, a': bv33, r: bv33)
    requires a == a'
    ensures a + r == a' + r
  {
  }

  lemma Associative(a: bv33, b: bv33, c: bv33)
    ensures Plus33(Plus33(a, b), c) == Plus33(a, Plus33(b, c))
  {
    SameSum(Plus33(a, b), a + b, c);
    SameSum(Plus33(b, c), b + c, a);
  }

  lemma Commutative(a: bv33, b: bv33)
    ensures Plus33(a, b) == Plus33(b, a)
  {
  }

  lemma Exchange(a: bv33, b: bv33, c: bv33, d: bv33)
    ensures Plus33(Plus33(a, b), Plus33(c, d)) == Plus33(Plus33(a, c), Plus33(b, d))
  {
    hide Plus33;
    Associative(a, b, Plus33(c, d));
    Associative(b, c, d);
    Commutative(b, c);
    Associative(c, b, d);
    Associative(a, c, Plus33(b, d));
  }

  lemma TwiceSum(h: bv33, b: bv33, k: bv33, d: bv33, c: bv33)
    ensures Add3(Twice(h, b), Twice(k, d), c) == Twice(Plus33(h, k), Add3(b, d, c))
  {
    hide Plus33;
    Exchange(Plus33(h, h), b, Plus33(k, k), d);
    Exchange(h, h, k, k);
    Associative(Plus33(Plus33(h, k), Plus33(h, k)), Plus33(b, d), c);
  }

  lemma TwiceTwice(h: bv33, k: bv33, l: bv33, e: bv33)
    ensures Twice(Plus33(h, k), Twice(l, e)) == Twice(Add3(h, k, l), e)
  {
    hide Plus33;
    var g := Plus33(h, k);
    Associative(Plus33(g, g), Plus33(l, l), e);
    Exchange(g, g, l, l);
  }

  lemma HalfOfTwice(t: bv33, b: bv33)
    requires Fits(t) && IsBit(b)
    ensures Half(Twice(t, b)) == t && Low(Twice(t, b)) == b
  {
  }

  lemma HalvesFit(x: bv33, y: bv33, c: bv33)
    requires Fits(x) && Fits(y) && IsBit(c)
    ensures Fits(Add3(Half(x), Half(y), c)) && Fits(Half(x)) && Fits(Half(y))
  {
  }

  /** A full adder. */
  lemma ThreeBits(b: bv33, d: bv33, c: bv33)
    requires IsBit(b) && IsBit(d) && IsBit(c)
    ensures IsBit(Half(Add3(b, d, c)))
    ensures WideNumber(b) + WideNumber(d) + WideNumber(c)
         == WideNumber(Low(Add3(b, d, c))) + 2 * WideNumber(Half(Add3(b, d, c)))
  {
  }

  lemma LastDigit(z: bv33)
    ensures WideNumber(z) == WideNumber(Low(z)) + 2 * WideNumber(Half(z))
  {
  }

  lemma Smaller(z: bv33)
    ensures z != 0 ==> Half(z) < z
    ensures Half(0) == 0 && WideNumber(0) == 0
  {
  }

  lemma NothingAdded(c: bv33)
    ensures Add3(0, 0, c) == c
  {
  }

  /** Addition of words is addition of numbers, digit by digit with the carry. */
  lemma {:induction false} WideSum(x: bv33, y: bv33, c: bv33)
    requires Fits(x) && Fits(y) && IsBit(c)
    ensures WideNumber(Add3(x, y, c)) == WideNumber(x) + WideNumber(y) + WideNumber(c)
    decreases x, y
  {
    hide Low, Half, Twice, Plus33, Add3, IsBit, Fits, WideNumber;
    Smaller(x);
    Smaller(y);
    if x == 0 && y == 0 {
      NothingAdded(c);
    } else {
      var s := Add3(Low(x), Low(y), c);
      Rebuild(x);
      Rebuild(y);
      Rebuild(s);
      ThreeBits(Low(x), Low(y), c);
      TwiceSum(Half(x), Low(x), Half(y), Low(y), c);
      TwiceTwice(Half(x), Half(y), Half(s), Low(s));
      HalvesFit(x, y, Half(s));
      HalfOfTwice(Add3(Half(x), Half(y), Half(s)), Low(s));
      LastDigit(x);
      LastDigit(y);
      LastDigit(Add3(x, y, c));
      WideSum(Half(x), Half(y), Half(s));
    }
  }

  /** Four more ones at the end. */
  lemma FourOnes(x: bv33, x1: bv33, x2: bv33, x3: bv33, y: bv33)
    requires x == Half(x1) && x1 == Half(x2) && x2 == Half(x3) && x3 == Half(y)
    requires Low(x1) == Low(x2) == Low(x3) == Low(y) == 1
    ensures WideNumber(y) == 16 * WideNumber(x) + 15
  {
    hide Half, Low, WideNumber;
    LastDigit(x1);
    LastDigit(x2);
    LastDigit(x3);
    LastDigit(y);
    One();
  }

  lemma One()
    ensures WideNumber(1) == 1
  {
  }

  lemma AllOnes()
    ensures WideNumber(0xffff_ffff) == TWO_TO_32 - 1
  {
    hide WideNumber;
    Smaller(0);
    FourOnes(0x0, 0x1, 0x3, 0x7, 0xf);
    FourOnes(0xf, 0x1f, 0x3f, 0x7f, 0xff);
    FourOnes(0xff, 0x1ff, 0x3ff, 0x7ff, 0xfff);
    FourOnes(0xfff, 0x1fff, 0x3fff, 0x7fff, 0xffff);
    FourOnes(0xffff, 0x1_ffff, 0x3_ffff, 0x7_ffff, 0xf_ffff);
    FourOnes(0xf_ffff, 0x1f_ffff, 0x3f_ffff, 0x7f_ffff, 0xff_ffff);
    FourOnes(0xff_ffff, 0x1ff_ffff, 0x3ff_ffff, 0x7ff_ffff, 0xfff_ffff);
    FourOnes(0xfff_ffff, 0x1fff_ffff, 0x3fff_ffff, 0x7fff_ffff, 0xffff_ffff);
  }

  function Complement(x: bv33): bv33 { 0xffff_ffff - x }

  lemma WithComplement(x: bv33)
    requires Fits(x)
    ensures Fits(Complement(x)) && Add3(x, Complement(x), 0) == 0xffff_ffff && IsBit(0)
  {
  }

  lemma NumberBelow(x: bv33)
    requires Fits(x)
    ensures WideNumber(x) < TWO_TO_32
  {
    hide WideNumber, Add3, Fits, Complement, IsBit;
    WithComplement(x);
    WideSum(x, Complement(x), 0);
    AllOnes();
  }

  // ------------------------------------------------------------------ eight digits at a time

  lemma OneDigit(b: bv33)
    requires IsBit(b)
    ensures WideNumber(b) == if b == 0 then 0 else 1
  {
  }

  function Upper(x: bv32): bv32 { x >> 8 }

  /** The last digits of the first halves of a number are its last bits. */
  lemma FirstDigits(x: bv32)
    ensures var z := Wide(x); var z1 := Half(z); var z2 := Half(z1); var z3 := Half(z2);
            && WideNumber(Low(z)) == Bit(x, 1) && WideNumber(Low(z1)) == Bit(x, 2)
            && WideNumber(Low(z2)) == Bit(x, 4) && WideNumber(Low(z3)) == Bit(x, 8)
  {
    hide WideNumber;
    var z := Wide(x);
    OneDigit(Low(z));
    OneDigit(Low(Half(z)));
    OneDigit(Low(Half(Half(z))));
    OneDigit(Low(Half(Half(Half(z)))));
  }

  lemma MoreDigits(x: bv32)
    ensures var z4 := Half(Half(Half(Half(Wide(x))))); var z5 := Half(z4); var z6 := Half(z5); var z7 := Half(z6);
            && WideNumber(Low(z4)) == Bit(x, 16) && WideNumber(Low(z5)) == Bit(x, 32)
            && WideNumber(Low(z6)) == Bit(x, 64) && WideNumber(Low(z7)) == Bit(x, 128)
  {
    hide WideNumber;
    var z4 := Half(Half(Half(Half(Wide(x)))));
    OneDigit(Low(z4));
    OneDigit(Low(Half(z4)));
    OneDigit(Low(Half(Half(z4))));
    OneDigit(Low(Half(Half(Half(z4)))));
  }

  lemma EightHalves(x: bv32)
    ensures Half(Half(Half(Half(Half(Half(Half(Half(Wide(x))))))))) == Wide(x >> 8)
  {
  }

  lemma LastEight(x: bv32)
    ensures WideNumber(Wide(x)) == Eight(x) + 0x100 * WideNumber(Wide(Upper(x)))
  {
    hide WideNumber, Half, Low, Wide, Bit;
    var z := Wide(x);
    var z1 := Half(z);
    var z2 := Half(z1);
    var z3 := Half(z2);
    var z4 := Half(z3);
    var z5 := Half(z4);
    var z6 := Half(z5);
    LastDigit(z);
    LastDigit(z1);
    LastDigit(z2);
    LastDigit(z3);
    LastDigit(z4);
    LastDigit(z5);
    LastDigit(z6);
    LastDigit(Half(z6));
    FirstDigits(x);
    MoreDigits(x);
    EightHalves(x);
  }

  lemma ShiftsAdd(x: bv32)
    ensures Upper(x) == x >> 8 && Upper(Upper(x)) == x >> 16 && Upper(Upper(Upper(x))) == x >> 24
    ensures Wide(Upper(Upper(Upper(Upper(x))))) == 0
  {
  }

  lemma NumberByEights(x: bv32)
    ensures Number(x) == Eight(x) + 0x100 * Eight(Upper(x)) + 0x1_0000 * Eight(Upper(Upper(x)))
                         + 0x100_0000 * Eight(Upper(Upper(Upper(x))))
  {
    hide Eight, Upper;
    ShiftsAdd(x);
  }

  /** The number of a word does not depend on the order in which its digits are taken. */
  lemma NumberOfDigits(x: bv32)
    ensures Number(x) == WideNumber(Wide(x))
  {
    hide WideNumber, Number, Eight, Upper, Wide;
    LastEight(x);
    LastEight(Upper(x));
    LastEight(Upper(Upper(x)));
    LastEight(Upper(Upper(Upper(x))));
    NumberByEights(x);
    ShiftsAdd(x);
    Smaller(0);
  }

  // ------------------------------------------------------------------ sums of words

  /** A sum of words is the sum with room for the carry, or that with the carry lost. */
  lemma CarryLost(x: bv32, y: bv32)
    ensures var s, z := Add3(Wide(x), Wide(y), 0), Wide(Add(x, y)); s == z || s == Add3(z, 0xffff_ffff, 1)
  {
    hide Wide, Masked, Plus33, Add3, Add;
    Truncated(x, y);
    Carried(Plus33(Wide(x), Wide(y)));
    NothingMore(Wide(x), Wide(y));
  }

  function Masked(s: bv33): bv33 { s & 0xffff_ffff }

  lemma Truncated(x: bv32, y: bv32)
    ensures Wide(Add(x, y)) == Masked(Plus33(Wide(x), Wide(y)))
  {
  }

  lemma Carried(s: bv33)
    ensures s == Masked(s) || s == Add3(Masked(s), 0xffff_ffff, 1)
  {
  }

  lemma NothingMore(x: bv33, y: bv33)
    ensures Add3(x, y, 0) == Plus33(x, y)
  {
  }

  lemma WordsFit(x: bv32)
    ensures Fits(Wide(x)) && Fits(0xffff_ffff) && IsBit(0) && IsBit(1)
  {
  }

  /** Addition of words is addition of numbers modulo 2^32. */
  lemma AddIsSum(x: bv32, y: bv32)
    ensures Number(Add(x, y)) == (Number(x) + Number(y)) % TWO_TO_32
  {
    hide WideNumber, Number, Wide, Add3, Plus33, Fits, IsBit, Add;
    NumberOfDigits(x);
    NumberOfDigits(y);
    NumberOfDigits(Add(x, y));
    WordsFit(x);
    WordsFit(y);
    WordsFit(Add(x, y));
    CarryLost(x, y);
    WideSum(Wide(x), Wide(y), 0);
    WideSum(Wide(Add(x, y)), 0xffff_ffff, 1);
    Smaller(0);
    One();
    AllOnes();
    NumberBelow(Wide(Add(x, y)));
  }

  /** The number tells the word. */
  lemma {:induction false} NumberTells(x: bv33, y: bv33)
    requires WideNumber(x) == WideNumber(y)
    ensures x == y
    decreases x
  {
    hide Low, Half, Twice, WideNumber;
    LastDigit(x);
    LastDigit(y);
    LowIsDigit(x);
    LowIsDigit(y);
    Smaller(x);
    Rebuild(x);
    Rebuild(y);
    if x == 0 {
      OnlyZero(y);
    } else {
      NumberTells(Half(x), Half(y));
    }
  }

  lemma LowIsDigit(x: bv33)
    ensures Low(x) == if WideNumber(Low(x)) == 0 then 0 else 1
    ensures WideNumber(Low(x)) <= 1
  {
  }

  lemma {:induction false} OnlyZero(y: bv33)
    requires WideNumber(y) == 0
    ensures y == 0
    decreases y
  {
    hide Low, Half, Twice, WideNumber;
    if y != 0 {
      LastDigit(y);
      LowIsDigit(y);
      Smaller(y);
      Rebuild(y);
      OnlyZero(Half(y));
      ZeroTwice();
    }
  }

  lemma ZeroTwice()
    ensures Twice(0, 0) == 0
  {
  }

  lemma WordTells(x: bv32, y: bv32)
    requires Number(x) == Number(y)
    ensures x == y
  {
    hide WideNumber, Number;
    NumberOfDigits(x);
    NumberOfDigits(y);
    NumberTells(Wide(x), Wide(y));
  }
}
