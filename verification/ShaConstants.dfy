/** Where the constants of SHA-256 come from: the roots of the first primes. */
module ShaConstants {
  import opened Sha
  import opened ShaNumbers

  /** `r` is the square root of `p` to 32 binary places, the rest cut off. */
  predicate IsSquareRoot(r: nat, p: nat) {
    r * r <= p * TWO_TO_32 * TWO_TO_32 < (r + 1) * (r + 1)
  }

  /** `r` is the cube root of `p` to 32 binary places, the rest cut off. */
  predicate IsCubeRoot(r: nat, p: nat) {
    r * r * r <= p * TWO_TO_32 * TWO_TO_32 * TWO_TO_32 < (r + 1) * (r + 1) * (r + 1)
  }

  /** The 32 places of the fraction. */
  function Fraction(r: nat): nat { r % TWO_TO_32 }

  /** The first 64 primes, in four parts, and their cube roots. */
  const PRIMES_0: seq<nat> := [2, 3, 5, 7, 11, 13, 17, 19, 23, 29, 31, 37, 41, 43, 47, 53]
  const PRIMES_16: seq<nat> := [59, 61, 67, 71, 73, 79, 83, 89, 97, 101, 103, 107, 109, 113, 127, 131]
  const PRIMES_32: seq<nat> := [137, 139, 149, 151, 157, 163, 167, 173, 179, 181, 191, 193, 197, 199, 211, 223]
  const PRIMES_48: seq<nat> := [227, 229, 233, 239, 241, 251, 257, 263, 269, 271, 277, 281, 283, 293, 307, 311]

  const ROOTS_0: seq<nat> := [
    0x1_428a2f98, 0x1_71374491, 0x1_b5c0fbcf, 0x1_e9b5dba5, 0x2_3956c25b, 0x2_59f111f1, 0x2_923f82a4, 0x2_ab1c5ed5,
    0x2_d807aa98, 0x3_12835b01, 0x3_243185be, 0x3_550c7dc3, 0x3_72be5d74, 0x3_80deb1fe, 0x3_9bdc06a7, 0x3_c19bf174]
  const ROOTS_16: seq<nat> := [
    0x3_e49b69c1, 0x3_efbe4786, 0x4_0fc19dc6, 0x4_240ca1cc, 0x4_2de92c6f, 0x4_4a7484aa, 0x4_5cb0a9dc, 0x4_76f988da,
    0x4_983e5152, 0x4_a831c66d, 0x4_b00327c8, 0x4_bf597fc7, 0x4_c6e00bf3, 0x4_d5a79147, 0x5_06ca6351, 0x5_14292967]
  const ROOTS_32: seq<nat> := [
    0x5_27b70a85, 0x5_2e1b2138, 0x5_4d2c6dfc, 0x5_53380d13, 0x5_650a7354, 0x5_766a0abb, 0x5_81c2c92e, 0x5_92722c85,
    0x5_a2bfe8a1, 0x5_a81a664b, 0x5_c24b8b70, 0x5_c76c51a3, 0x5_d192e819, 0x5_d6990624, 0x5_f40e3585, 0x6_106aa070]
  const ROOTS_48: seq<nat> := [
    0x6_19a4c116, 0x6_1e376c08, 0x6_2748774c, 0x6_34b0bcb5, 0x6_391c0cb3, 0x6_4ed8aa4a, 0x6_5b9cca4f, 0x6_682e6ff3,
    0x6_748f82ee, 0x6_78a5636f, 0x6_84c87814, 0x6_8cc70208, 0x6_90befffa, 0x6_a4506ceb, 0x6_bef9a3f7, 0x6_c67178f2]

  const PRIMES: seq<nat> := PRIMES_0 + PRIMES_16 + PRIMES_32 + PRIMES_48
  const CUBE_ROOTS: seq<nat> := ROOTS_0 + ROOTS_16 + ROOTS_32 + ROOTS_48

  /** The square roots of the first eight primes. */
  const SQUARE_ROOTS: seq<nat> := [
    0x1_6a09e667, 0x1_bb67ae85, 0x2_3c6ef372, 0x2_a54ff53a, 0x3_510e527f, 0x3_9b05688c, 0x4_1f83d9ab, 0x4_5be0cd19]

  /** Section 5.3.3: the initial hash value is the fractions of the square roots of the first eight primes. */
  lemma InitialIsRoots(i: nat)
    requires i < 8
    ensures IsSquareRoot(SQUARE_ROOTS[i], PRIMES_0[i]) && Number(HashWord(H0, i)) == Fraction(SQUARE_ROOTS[i])
  {
    hide Number;
    NumbersOfH();
    MoreNumbersOfH();
  }

  lemma NumbersOfH()
    ensures Number(0x6a09e667) == 0x6a09e667 && Number(0xbb67ae85) == 0xbb67ae85
    ensures Number(0x3c6ef372) == 0x3c6ef372 && Number(0xa54ff53a) == 0xa54ff53a
  {
  }

  lemma MoreNumbersOfH()
    ensures Number(0x510e527f) == 0x510e527f && Number(0x9b05688c) == 0x9b05688c
    ensures Number(0x1f83d9ab) == 0x1f83d9ab && Number(0x5be0cd19) == 0x5be0cd19
  {
  }

  /** Section 4.2.2: the round constants are the fractions of the cube roots of the first 64 primes. */
  lemma ConstantsAreRoots(t: nat)
    requires t < 64
    ensures |PRIMES| == |CUBE_ROOTS| == |K| == 64
    ensures IsCubeRoot(CUBE_ROOTS[t], PRIMES[t]) && Number(K[t]) == Fraction(CUBE_ROOTS[t])
  {
    hide PRIMES_0, PRIMES_16, PRIMES_32, PRIMES_48, ROOTS_0, ROOTS_16, ROOTS_32, ROOTS_48;
    hide K_0, K_16, K_32, K_48, IsCubeRoot, Number;
    PartLengths();
    var i := t % 16;
    if t < 16 {
      Roots0(i);
    } else if t < 32 {
      Roots16(i);
    } else if t < 48 {
      Roots32(i);
    } else {
      Roots48(i);
    }
  }

  lemma PartLengths()
    ensures |PRIMES_0| == |PRIMES_16| == |PRIMES_32| == |PRIMES_48| == 16
    ensures |ROOTS_0| == |ROOTS_16| == |ROOTS_32| == |ROOTS_48| == 16
    ensures |K_0| == |K_16| == |K_32| == |K_48| == 16
  {
  }

  lemma Roots0(i: nat)
    requires i < 16
    ensures IsCubeRoot(ROOTS_0[i], PRIMES_0[i]) && Number(K_0[i]) == Fraction(ROOTS_0[i])
  {
    hide Number;
    NumbersOf0();
    NumbersOf4();
    NumbersOf8();
    NumbersOf12();
  }

  lemma NumbersOf0()
    ensures Number(0x428a2f98) == 0x428a2f98 && Number(0x71374491) == 0x71374491
    ensures Number(0xb5c0fbcf) == 0xb5c0fbcf && Number(0xe9b5dba5) == 0xe9b5dba5
  {
  }

  lemma NumbersOf4()
    ensures Number(0x3956c25b) == 0x3956c25b && Number(0x59f111f1) == 0x59f111f1
    ensures Number(0x923f82a4) == 0x923f82a4 && Number(0xab1c5ed5) == 0xab1c5ed5
  {
  }

  lemma NumbersOf8()
    ensures Number(0xd807aa98) == 0xd807aa98 && Number(0x12835b01) == 0x12835b01
    ensures Number(0x243185be) == 0x243185be && Number(0x550c7dc3) == 0x550c7dc3
  {
  }

  lemma NumbersOf12()
    ensures Number(0x72be5d74) == 0x72be5d74 && Number(0x80deb1fe) == 0x80deb1fe
    ensures Number(0x9bdc06a7) == 0x9bdc06a7 && Number(0xc19bf174) == 0xc19bf174
  {
  }

  lemma Roots16(i: nat)
    requires i < 16
    ensures IsCubeRoot(ROOTS_16[i], PRIMES_16[i]) && Number(K_16[i]) == Fraction(ROOTS_16[i])
  {
    hide Number;
    NumbersOf16();
    NumbersOf20();
    NumbersOf24();
    NumbersOf28();
  }

  lemma NumbersOf16()
    ensures Number(0xe49b69c1) == 0xe49b69c1 && Number(0xefbe4786) == 0xefbe4786
    ensures Number(0x0fc19dc6) == 0x0fc19dc6 && Number(0x240ca1cc) == 0x240ca1cc
  {
  }

  lemma NumbersOf20()
    ensures Number(0x2de92c6f) == 0x2de92c6f && Number(0x4a7484aa) == 0x4a7484aa
    ensures Number(0x5cb0a9dc) == 0x5cb0a9dc && Number(0x76f988da) == 0x76f988da
  {
  }

  lemma NumbersOf24()
    ensures Number(0x983e5152) == 0x983e5152 && Number(0xa831c66d) == 0xa831c66d
    ensures Number(0xb00327c8) == 0xb00327c8 && Number(0xbf597fc7) == 0xbf597fc7
  {
  }

  lemma NumbersOf28()
    ensures Number(0xc6e00bf3) == 0xc6e00bf3 && Number(0xd5a79147) == 0xd5a79147
    ensures Number(0x06ca6351) == 0x06ca6351 && Number(0x14292967) == 0x14292967
  {
  }

  lemma Roots32(i: nat)
    requires i < 16
    ensures IsCubeRoot(ROOTS_32[i], PRIMES_32[i]) && Number(K_32[i]) == Fraction(ROOTS_32[i])
  {
    hide Number;
    NumbersOf32();
    NumbersOf36();
    NumbersOf40();
    NumbersOf44();
  }

  lemma NumbersOf32()
    ensures Number(0x27b70a85) == 0x27b70a85 && Number(0x2e1b2138) == 0x2e1b2138
    ensures Number(0x4d2c6dfc) == 0x4d2c6dfc && Number(0x53380d13) == 0x53380d13
  {
  }

  lemma NumbersOf36()
    ensures Number(0x650a7354) == 0x650a7354 && Number(0x766a0abb) == 0x766a0abb
    ensures Number(0x81c2c92e) == 0x81c2c92e && Number(0x92722c85) == 0x92722c85
  {
  }

  lemma NumbersOf40()
    ensures Number(0xa2bfe8a1) == 0xa2bfe8a1 && Number(0xa81a664b) == 0xa81a664b
    ensures Number(0xc24b8b70) == 0xc24b8b70 && Number(0xc76c51a3) == 0xc76c51a3
  {
  }

  lemma NumbersOf44()
    ensures Number(0xd192e819) == 0xd192e819 && Number(0xd6990624) == 0xd6990624
    ensures Number(0xf40e3585) == 0xf40e3585 && Number(0x106aa070) == 0x106aa070
  {
  }

  lemma Roots48(i: nat)
    requires i < 16
    ensures IsCubeRoot(ROOTS_48[i], PRIMES_48[i]) && Number(K_48[i]) == Fraction(ROOTS_48[i])
  {
    hide Number;
    NumbersOf48();
    NumbersOf52();
    NumbersOf56();
    NumbersOf60();
  }

  lemma NumbersOf48()
    ensures Number(0x19a4c116) == 0x19a4c116 && Number(0x1e376c08) == 0x1e376c08
    ensures Number(0x2748774c) == 0x2748774c && Number(0x34b0bcb5) == 0x34b0bcb5
  {
  }

  lemma NumbersOf52()
    ensures Number(0x391c0cb3) == 0x391c0cb3 && Number(0x4ed8aa4a) == 0x4ed8aa4a
    ensures Number(0x5b9cca4f) == 0x5b9cca4f && Number(0x682e6ff3) == 0x682e6ff3
  {
  }

  lemma NumbersOf56()
    ensures Number(0x748f82ee) == 0x748f82ee && Number(0x78a5636f) == 0x78a5636f
    ensures Number(0x84c87814) == 0x84c87814 && Number(0x8cc70208) == 0x8cc70208
  {
  }

  lemma NumbersOf60()
    ensures Number(0x90befffa) == 0x90befffa && Number(0xa4506ceb) == 0xa4506ceb
    ensures Number(0xbef9a3f7) == 0xbef9a3f7 && Number(0xc67178f2) == 0xc67178f2
  {
  }
}
