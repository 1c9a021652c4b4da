/** Arithmetic in GF(2^8) and the mixing of one state column (FIPS 197 sections 4.2, 4.3
    and 5.1.3). */
module AesField {
  /** A 32-bit vector, most significant byte first. */
  type Word = w: seq<bv8> | |w| == 4 witness [0, 0, 0, 0]

  /** Multiplication by x modulo x^8 + x^4 + x^3 + x + 1: `xtime`, and `mul2`, which is the
      same expression. */
  function Xtime(x: bv8): bv8 {
    (x << 1) ^ (((x >> 7) & 1) * 0x1b)
  }

  function Mul3(x: bv8): bv8 {
    Xtime(x) ^ x
  }

  /** The sum of those of five bytes that the low bits of `y` pick. */
  function Picked(y: bv8, x0: bv8, x1: bv8, x2: bv8, x3: bv8, x4: bv8): bv8 {
    ((y & 1) * x0) ^ (((y >> 1) & 1) * x1) ^ (((y >> 2) & 1) * x2) ^ (((y >> 3) & 1) * x3) ^ (((y >> 4) & 1) * x4)
  }

  /** The macro `multiply`: only the five low bits of `y` take part. */
  function Multiply(x: bv8, y: bv8): bv8 {
    Picked(y, x, Xtime(x), Xtime(Xtime(x)), Xtime(Xtime(Xtime(x))), Xtime(Xtime(Xtime(Xtime(x)))))
  }

  /** The product of GF(2^8): the multiples of `x` picked by all eight bits of `y`. */
  function Product(x: bv8, y: bv8): bv8 {
    var x1 := Xtime(x);
    var x2 := Xtime(x1);
    var x3 := Xtime(x2);
    var x4 := Xtime(x3);
    var x5 := Xtime(x4);
    var x6 := Xtime(x5);
    var x7 := Xtime(x6);
    ((y & 1) * x) ^ (((y >> 1) & 1) * x1) ^ (((y >> 2) & 1) * x2) ^ (((y >> 3) & 1) * x3)
    ^ (((y >> 4) & 1) * x4) ^ (((y >> 5) & 1) * x5) ^ (((y >> 6) & 1) * x6) ^ (((y >> 7) & 1) * x7)
  }

  lemma XtimeLinear(x: bv8, y: bv8)
    ensures Xtime(x ^ y) == Xtime(x) ^ Xtime(y)
  {
  }

  /** `multiply` is the field product for every constant the code passes. */
  lemma MultiplyIsProduct(x: bv8)
    ensures Multiply(x, 0x09) == Product(x, 0x09)
    ensures Multiply(x, 0x0b) == Product(x, 0x0b)
    ensures Multiply(x, 0x0d) == Product(x, 0x0d)
    ensures Multiply(x, 0x0e) == Product(x, 0x0e)
  {
  }

  /** The sum of four field elements. */
  function Sum(a: bv8, b: bv8, c: bv8, d: bv8): bv8 {
    a ^ b ^ c ^ d
  }

  /** The first byte of a mixed column; the other three are the same sum of the column turned. */
  function MixByte(a: bv8, b: bv8, c: bv8, d: bv8): bv8 {
    Sum(Xtime(a), Mul3(b), c, d)
  }

  function InvMixByte(a: bv8, b: bv8, c: bv8, d: bv8): bv8 {
    Sum(Multiply(a, 0x0e), Multiply(b, 0x0b), Multiply(c, 0x0d), Multiply(d, 0x09))
  }

  /** One column of `mix_columns`, and the hardware's `mix_word`. */
  function MixWord(w: Word): (r: Word) {
    [MixByte(w[0], w[1], w[2], w[3]), MixByte(w[1], w[2], w[3], w[0]),
     MixByte(w[2], w[3], w[0], w[1]), MixByte(w[3], w[0], w[1], w[2])]
  }

  /** One column of `inv_mix_columns`, and the hardware's `inv_mix_word`. */
  function InvMixWord(w: Word): (r: Word) {
    [InvMixByte(w[0], w[1], w[2], w[3]), InvMixByte(w[1], w[2], w[3], w[0]),
     InvMixByte(w[2], w[3], w[0], w[1]), InvMixByte(w[3], w[0], w[1], w[2])]
  }

  /** `mix_columns` is a row of the matrix of FIPS 197 section 5.1.3, turned row by row. */
  lemma MixByteIsFips(a: bv8, b: bv8, c: bv8, d: bv8)
    ensures MixByte(a, b, c, d) == Sum(Product(a, 2), Product(b, 3), Product(c, 1), Product(d, 1))
  {
  }

  /** `inv_mix_columns` is a row of the matrix of FIPS 197 section 5.3.3, turned likewise. */
  lemma InvMixByteIsFips(a: bv8, b: bv8, c: bv8, d: bv8)
    ensures InvMixByte(a, b, c, d)
         == Sum(Product(a, 0x0e), Product(b, 0x0b), Product(c, 0x0d), Product(d, 0x09))
  {
    MultiplyIsProduct(a);
    MultiplyIsProduct(b);
    MultiplyIsProduct(c);
    MultiplyIsProduct(d);
  }

  /** The sums of repeated `Xtime`s that the four inverse coefficients stand for. */
  lemma MultiplyByConstants(x: bv8)
    ensures Multiply(x, 0x0e) == Sum(Xtime(x), Xtime(Xtime(x)), Xtime(Xtime(Xtime(x))), 0)
    ensures Multiply(x, 0x0b) == Sum(x, Xtime(x), Xtime(Xtime(Xtime(x))), 0)
    ensures Multiply(x, 0x0d) == Sum(x, Xtime(Xtime(x)), Xtime(Xtime(Xtime(x))), 0)
    ensures Multiply(x, 0x09) == Sum(x, Xtime(Xtime(Xtime(x))), 0, 0)
  {
  }

  function Pair(a: bv8, b: bv8): bv8 { a ^ b }

  lemma SumOfPairs(a: bv8, b: bv8, c: bv8, d: bv8)
    ensures Sum(a, b, c, d) == Pair(Pair(a, b), Pair(c, d))
  {
  }

  lemma XtimeOfPair(a: bv8, b: bv8)
    ensures Xtime(Pair(a, b)) == Pair(Xtime(a), Xtime(b))
  {
    XtimeLinear(a, b);
  }

  lemma XtimeOfSum(a: bv8, b: bv8, c: bv8, d: bv8)
    ensures Xtime(Sum(a, b, c, d)) == Sum(Xtime(a), Xtime(b), Xtime(c), Xtime(d))
  {
    hide Xtime, Sum, Pair;
    SumOfPairs(a, b, c, d);
    XtimeOfPair(Pair(a, b), Pair(c, d));
    XtimeOfPair(a, b);
    XtimeOfPair(c, d);
    SumOfPairs(Xtime(a), Xtime(b), Xtime(c), Xtime(d));
  }

  lemma XorSame(a: bv8, b: bv8, c: bv8, d: bv8, a': bv8, b': bv8, c': bv8, d': bv8)
    requires a == a' && b == b' && c == c' && d == d'
    ensures Sum(a, b, c, d) == a' ^ b' ^ c' ^ d'
  {
  }

  lemma SumOfSums(a0: bv8, a1: bv8, a2: bv8, a3: bv8, b0: bv8, b1: bv8, b2: bv8, b3: bv8,
                  c0: bv8, c1: bv8, c2: bv8, c3: bv8, d0: bv8, d1: bv8, d2: bv8, d3: bv8)
    ensures Sum(Sum(a0, a1, a2, a3), Sum(b0, b1, b2, b3), Sum(c0, c1, c2, c3), Sum(d0, d1, d2, d3))
         == a0 ^ a1 ^ a2 ^ a3 ^ b0 ^ b1 ^ b2 ^ b3 ^ c0 ^ c1 ^ c2 ^ c3 ^ d0 ^ d1 ^ d2 ^ d3
  {
    XorSame(Sum(a0, a1, a2, a3), Sum(b0, b1, b2, b3), Sum(c0, c1, c2, c3), Sum(d0, d1, d2, d3),
            a0 ^ a1 ^ a2 ^ a3, b0 ^ b1 ^ b2 ^ b3, c0 ^ c1 ^ c2 ^ c3, d0 ^ d1 ^ d2 ^ d3);
  }

  /** A table of sums may be added by rows or by columns. */
  lemma SumTransposed(a0: bv8, a1: bv8, a2: bv8, a3: bv8, b0: bv8, b1: bv8, b2: bv8, b3: bv8,
                      c0: bv8, c1: bv8, c2: bv8, c3: bv8, d0: bv8, d1: bv8, d2: bv8, d3: bv8)
    ensures Sum(Sum(a0, a1, a2, a3), Sum(b0, b1, b2, b3), Sum(c0, c1, c2, c3), Sum(d0, d1, d2, d3))
         == Sum(Sum(a0, b0, c0, d0), Sum(a1, b1, c1, d1), Sum(a2, b2, c2, d2), Sum(a3, b3, c3, d3))
  {
    SumOfSums(a0, a1, a2, a3, b0, b1, b2, b3, c0, c1, c2, c3, d0, d1, d2, d3);
    SumOfSums(a0, b0, c0, d0, a1, b1, c1, d1, a2, b2, c2, d2, a3, b3, c3, d3);
  }

  /** Multiplication by an inverse coefficient is linear. */
  lemma MultiplyOfSum(a: bv8, b: bv8, c: bv8, d: bv8)
    ensures Multiply(Sum(a, b, c, d), 0x0e)
         == Sum(Multiply(a, 0x0e), Multiply(b, 0x0e), Multiply(c, 0x0e), Multiply(d, 0x0e))
    ensures Multiply(Sum(a, b, c, d), 0x0b)
         == Sum(Multiply(a, 0x0b), Multiply(b, 0x0b), Multiply(c, 0x0b), Multiply(d, 0x0b))
    ensures Multiply(Sum(a, b, c, d), 0x0d)
         == Sum(Multiply(a, 0x0d), Multiply(b, 0x0d), Multiply(c, 0x0d), Multiply(d, 0x0d))
    ensures Multiply(Sum(a, b, c, d), 0x09)
         == Sum(Multiply(a, 0x09), Multiply(b, 0x09), Multiply(c, 0x09), Multiply(d, 0x09))
  {
    var a1, b1, c1, d1 := Xtime(a), Xtime(b), Xtime(c), Xtime(d);
    var a2, b2, c2, d2 := Xtime(a1), Xtime(b1), Xtime(c1), Xtime(d1);
    var a3, b3, c3, d3 := Xtime(a2), Xtime(b2), Xtime(c2), Xtime(d2);
    XtimeOfSum(a, b, c, d);
    XtimeOfSum(a1, b1, c1, d1);
    XtimeOfSum(a2, b2, c2, d2);
    MultiplyByConstants(a);
    MultiplyByConstants(b);
    MultiplyByConstants(c);
    MultiplyByConstants(d);
    MultiplyByConstants(Sum(a, b, c, d));
    assert Sum(0, 0, 0, 0) == 0;
    SumTransposed(a1, b1, c1, d1, a2, b2, c2, d2, a3, b3, c3, d3, 0, 0, 0, 0);
    SumTransposed(a, b, c, d, a1, b1, c1, d1, a3, b3, c3, d3, 0, 0, 0, 0);
    SumTransposed(a, b, c, d, a2, b2, c2, d2, a3, b3, c3, d3, 0, 0, 0, 0);
    SumTransposed(a, b, c, d, a3, b3, c3, d3, 0, 0, 0, 0, 0, 0, 0, 0);
  }

  /** The matrices of sections 5.1.3 and 5.3.3 are inverse to each other, entry by entry. */
  lemma MatrixProduct(x: bv8)
    ensures Sum(Multiply(Xtime(x), 0x0e), Multiply(x, 0x0b), Multiply(x, 0x0d), Multiply(Mul3(x), 0x09)) == x
    ensures Sum(Multiply(Mul3(x), 0x0e), Multiply(Xtime(x), 0x0b), Multiply(x, 0x0d), Multiply(x, 0x09)) == 0
    ensures Sum(Multiply(x, 0x0e), Multiply(Mul3(x), 0x0b), Multiply(Xtime(x), 0x0d), Multiply(x, 0x09)) == 0
    ensures Sum(Multiply(x, 0x0e), Multiply(x, 0x0b), Multiply(Mul3(x), 0x0d), Multiply(Xtime(x), 0x09)) == 0
  {
  }

  /** The other product of the two matrices. */
  lemma MatrixProductOther(x: bv8)
    ensures Sum(Xtime(Multiply(x, 0x0e)), Mul3(Multiply(x, 0x09)), Multiply(x, 0x0d), Multiply(x, 0x0b)) == x
    ensures Sum(Xtime(Multiply(x, 0x0b)), Mul3(Multiply(x, 0x0e)), Multiply(x, 0x09), Multiply(x, 0x0d)) == 0
    ensures Sum(Xtime(Multiply(x, 0x0d)), Mul3(Multiply(x, 0x0b)), Multiply(x, 0x0e), Multiply(x, 0x09)) == 0
    ensures Sum(Xtime(Multiply(x, 0x09)), Mul3(Multiply(x, 0x0d)), Multiply(x, 0x0b), Multiply(x, 0x0e)) == 0
  {
  }

  lemma SumTurned(a: bv8, b: bv8, c: bv8, d: bv8)
    ensures Sum(b, c, d, a) == Sum(a, b, c, d)
    ensures Sum(c, d, a, b) == Sum(a, b, c, d)
    ensures Sum(d, a, b, c) == Sum(a, b, c, d)
    ensures Sum(a, 0, 0, 0) == a
  {
    XorSame(b, c, d, a, b, c, d, a);
    XorSame(c, d, a, b, c, d, a, b);
    XorSame(d, a, b, c, d, a, b, c);
    XorSame(a, b, c, d, a, b, c, d);
  }

  /** The sum over a column of unmixed mixed bytes is its first byte. */
  lemma InvMixCancels(a: bv8, b: bv8, c: bv8, d: bv8)
    ensures InvMixByte(MixByte(a, b, c, d), MixByte(b, c, d, a), MixByte(c, d, a, b), MixByte(d, a, b, c)) == a
  {
    MultiplyOfSum(Xtime(a), Mul3(b), c, d);
    MultiplyOfSum(Xtime(b), Mul3(c), d, a);
    MultiplyOfSum(Xtime(c), Mul3(d), a, b);
    MultiplyOfSum(Xtime(d), Mul3(a), b, c);
    SumTurned(Multiply(a, 0x0b), Multiply(Xtime(b), 0x0b), Multiply(Mul3(c), 0x0b), Multiply(d, 0x0b));
    SumTurned(Multiply(a, 0x0d), Multiply(b, 0x0d), Multiply(Xtime(c), 0x0d), Multiply(Mul3(d), 0x0d));
    SumTurned(Multiply(Mul3(a), 0x09), Multiply(b, 0x09), Multiply(c, 0x09), Multiply(Xtime(d), 0x09));
    SumTransposed(Multiply(Xtime(a), 0x0e), Multiply(Mul3(b), 0x0e), Multiply(c, 0x0e), Multiply(d, 0x0e),
                  Multiply(a, 0x0b), Multiply(Xtime(b), 0x0b), Multiply(Mul3(c), 0x0b), Multiply(d, 0x0b),
                  Multiply(a, 0x0d), Multiply(b, 0x0d), Multiply(Xtime(c), 0x0d), Multiply(Mul3(d), 0x0d),
                  Multiply(Mul3(a), 0x09), Multiply(b, 0x09), Multiply(c, 0x09), Multiply(Xtime(d), 0x09));
    MatrixProduct(a);
    MatrixProduct(b);
    MatrixProduct(c);
    MatrixProduct(d);
    SumTurned(a, 0, 0, 0);
  }

  /** The inverse column map undoes the column map. */
  lemma InvMixAfterMix(w: Word)
    ensures InvMixWord(MixWord(w)) == w
  {
    InvMixCancels(w[0], w[1], w[2], w[3]);
    InvMixCancels(w[1], w[2], w[3], w[0]);
    InvMixCancels(w[2], w[3], w[0], w[1]);
    InvMixCancels(w[3], w[0], w[1], w[2]);
  }

  /** A mixed sum of unmixed bytes is the first of them. */
  lemma MixCancels(a: bv8, b: bv8, c: bv8, d: bv8)
    ensures MixByte(InvMixByte(a, b, c, d), InvMixByte(b, c, d, a), InvMixByte(c, d, a, b), InvMixByte(d, a, b, c)) == a
  {
    var p, q, r, s := Multiply(a, 0x0e), Multiply(b, 0x0b), Multiply(c, 0x0d), Multiply(d, 0x09);
    var p', q', r', s' := Multiply(b, 0x0e), Multiply(c, 0x0b), Multiply(d, 0x0d), Multiply(a, 0x09);
    XtimeOfSum(p, q, r, s);
    XtimeOfSum(p', q', r', s');
    Mul3OfSum(p', q', r', s');
    SumTurned(Mul3(s'), Mul3(p'), Mul3(q'), Mul3(r'));
    SumTurned(Multiply(a, 0x0d), Multiply(b, 0x09), Multiply(c, 0x0e), Multiply(d, 0x0b));
    SumTurned(Multiply(a, 0x0b), Multiply(b, 0x0d), Multiply(c, 0x09), Multiply(d, 0x0e));
    SumTransposed(Xtime(p), Xtime(q), Xtime(r), Xtime(s), Mul3(s'), Mul3(p'), Mul3(q'), Mul3(r'),
                  Multiply(a, 0x0d), Multiply(b, 0x09), Multiply(c, 0x0e), Multiply(d, 0x0b),
                  Multiply(a, 0x0b), Multiply(b, 0x0d), Multiply(c, 0x09), Multiply(d, 0x0e));
    MatrixProductOther(a);
    MatrixProductOther(b);
    MatrixProductOther(c);
    MatrixProductOther(d);
    SumTurned(a, 0, 0, 0);
  }

  lemma Mul3OfSum(a: bv8, b: bv8, c: bv8, d: bv8)
    ensures Mul3(Sum(a, b, c, d)) == Sum(Mul3(a), Mul3(b), Mul3(c), Mul3(d))
  {
    XtimeOfSum(a, b, c, d);
    SumTransposed(Xtime(a), Xtime(b), Xtime(c), Xtime(d), a, b, c, d, 0, 0, 0, 0, 0, 0, 0, 0);
    assert Sum(0, 0, 0, 0) == 0;
    Mul3IsSum(a);
    Mul3IsSum(b);
    Mul3IsSum(c);
    Mul3IsSum(d);
    Mul3IsSum(Sum(a, b, c, d));
  }

  lemma Mul3IsSum(x: bv8)
    ensures Mul3(x) == Sum(Xtime(x), x, 0, 0)
  {
  }

  /** The column map undoes its inverse, too. */
  lemma MixAfterInvMix(w: Word)
    ensures MixWord(InvMixWord(w)) == w
  {
    MixCancels(w[0], w[1], w[2], w[3]);
    MixCancels(w[1], w[2], w[3], w[0]);
    MixCancels(w[2], w[3], w[0], w[1]);
    MixCancels(w[3], w[0], w[1], w[2]);
  }
}
