/** The constants of SHA-256, against their definition in FIPS 180-4. */
module ShaConstants {
  import opened Sha256

  /** The first sixty-four prime numbers. */
  const PRIMES: seq<nat> :=
    [2, 3, 5, 7, 11, 13, 17, 19]
    + [23, 29, 31, 37, 41, 43, 47, 53]
    + [59, 61, 67, 71, 73, 79, 83, 89]
    + [97, 101, 103, 107, 109, 113, 127, 131]
    + [137, 139, 149, 151, 157, 163, 167, 173]
    + [179, 181, 191, 193, 197, 199, 211, 223]
    + [227, 229, 233, 239, 241, 251, 257, 263]
    + [269, 271, 277, 281, 283, 293, 307, 311]

  /** w is the first thirty-two bits of the fractional part of the cube root of p. */
  ghost predicate CubeRootBits(p: nat, w: Word) {
    exists whole: nat :: IsCubeRoot(p, whole * TWO32 + w)
  }

  /** c is the cube root of p times 2^32, rounded down. */
  predicate IsCubeRoot(p: nat, c: nat) {
    c * c * c <= p * 0x1_0000_0000_0000_0000_0000_0000 < (c + 1) * (c + 1) * (c + 1)
  }

  /** w is the first thirty-two bits of the fractional part of the square root of p. */
  ghost predicate SquareRootBits(p: nat, w: Word) {
    exists whole: nat :: IsSquareRoot(p, whole * TWO32 + w)
  }

  predicate IsSquareRoot(p: nat, c: nat) {
    c * c <= p * 0x1_0000_0000_0000_0000 < (c + 1) * (c + 1)
  }

  lemma Cube(p: nat, w: Word, whole: nat)
    requires IsCubeRoot(p, whole * TWO32 + w)
    ensures CubeRootBits(p, w)
  {}

  lemma Square(p: nat, w: Word, whole: nat)
    requires IsSquareRoot(p, whole * TWO32 + w)
    ensures SquareRootBits(p, w)
  {}

  lemma Roots0()
    ensures CubeRootBits(2, 0x428a2f98)
    ensures CubeRootBits(3, 0x71374491)
    ensures CubeRootBits(5, 0xb5c0fbcf)
    ensures CubeRootBits(7, 0xe9b5dba5)
    ensures CubeRootBits(11, 0x3956c25b)
    ensures CubeRootBits(13, 0x59f111f1)
    ensures CubeRootBits(17, 0x923f82a4)
    ensures CubeRootBits(19, 0xab1c5ed5)
  {
    Cube(2, 0x428a2f98, 1);
    Cube(3, 0x71374491, 1);
    Cube(5, 0xb5c0fbcf, 1);
    Cube(7, 0xe9b5dba5, 1);
    Cube(11, 0x3956c25b, 2);
    Cube(13, 0x59f111f1, 2);
    Cube(17, 0x923f82a4, 2);
    Cube(19, 0xab1c5ed5, 2);
  }

  lemma Roots1()
    ensures CubeRootBits(23, 0xd807aa98)
    ensures CubeRootBits(29, 0x12835b01)
    ensures CubeRootBits(31, 0x243185be)
    ensures CubeRootBits(37, 0x550c7dc3)
    ensures CubeRootBits(41, 0x72be5d74)
    ensures CubeRootBits(43, 0x80deb1fe)
    ensures CubeRootBits(47, 0x9bdc06a7)
    ensures CubeRootBits(53, 0xc19bf174)
  {
    Cube(23, 0xd807aa98, 2);
    Cube(29, 0x12835b01, 3);
    Cube(31, 0x243185be, 3);
    Cube(37, 0x550c7dc3, 3);
    Cube(41, 0x72be5d74, 3);
    Cube(43, 0x80deb1fe, 3);
    Cube(47, 0x9bdc06a7, 3);
    Cube(53, 0xc19bf174, 3);
  }

  lemma Roots2()
    ensures CubeRootBits(59, 0xe49b69c1)
    ensures CubeRootBits(61, 0xefbe4786)
    ensures CubeRootBits(67, 0x0fc19dc6)
    ensures CubeRootBits(71, 0x240ca1cc)
    ensures CubeRootBits(73, 0x2de92c6f)
    ensures CubeRootBits(79, 0x4a7484aa)
    ensures CubeRootBits(83, 0x5cb0a9dc)
    ensures CubeRootBits(89, 0x76f988da)
  {
    Cube(59, 0xe49b69c1, 3);
    Cube(61, 0xefbe4786, 3);
    Cube(67, 0x0fc19dc6, 4);
    Cube(71, 0x240ca1cc, 4);
    Cube(73, 0x2de92c6f, 4);
    Cube(79, 0x4a7484aa, 4);
    Cube(83, 0x5cb0a9dc, 4);
    Cube(89, 0x76f988da, 4);
  }

  lemma Roots3()
    ensures CubeRootBits(97, 0x983e5152)
    ensures CubeRootBits(101, 0xa831c66d)
    ensures CubeRootBits(103, 0xb00327c8)
    ensures CubeRootBits(107, 0xbf597fc7)
    ensures CubeRootBits(109, 0xc6e00bf3)
    ensures CubeRootBits(113, 0xd5a79147)
    ensures CubeRootBits(127, 0x06ca6351)
    ensures CubeRootBits(131, 0x14292967)
  {
    Cube(97, 0x983e5152, 4);
    Cube(101, 0xa831c66d, 4);
    Cube(103, 0xb00327c8, 4);
    Cube(107, 0xbf597fc7, 4);
    Cube(109, 0xc6e00bf3, 4);
    Cube(113, 0xd5a79147, 4);
    Cube(127, 0x06ca6351, 5);
    Cube(131, 0x14292967, 5);
  }

  lemma Roots4()
    ensures CubeRootBits(137, 0x27b70a85)
    ensures CubeRootBits(139, 0x2e1b2138)
    ensures CubeRootBits(149, 0x4d2c6dfc)
    ensures CubeRootBits(151, 0x53380d13)
    ensures CubeRootBits(157, 0x650a7354)
    ensures CubeRootBits(163, 0x766a0abb)
    ensures CubeRootBits(167, 0x81c2c92e)
    ensures CubeRootBits(173, 0x92722c85)
  {
    Cube(137, 0x27b70a85, 5);
    Cube(139, 0x2e1b2138, 5);
    Cube(149, 0x4d2c6dfc, 5);
    Cube(151, 0x53380d13, 5);
    Cube(157, 0x650a7354, 5);
    Cube(163, 0x766a0abb, 5);
    Cube(167, 0x81c2c92e, 5);
    Cube(173, 0x92722c85, 5);
  }

  lemma Roots5()
    ensures CubeRootBits(179, 0xa2bfe8a1)
    ensures CubeRootBits(181, 0xa81a664b)
    ensures CubeRootBits(191, 0xc24b8b70)
    ensures CubeRootBits(193, 0xc76c51a3)
    ensures CubeRootBits(197, 0xd192e819)
    ensures CubeRootBits(199, 0xd6990624)
    ensures CubeRootBits(211, 0xf40e3585)
    ensures CubeRootBits(223, 0x106aa070)
  {
    Cube(179, 0xa2bfe8a1, 5);
    Cube(181, 0xa81a664b, 5);
    Cube(191, 0xc24b8b70, 5);
    Cube(193, 0xc76c51a3, 5);
    Cube(197, 0xd192e819, 5);
    Cube(199, 0xd6990624, 5);
    Cube(211, 0xf40e3585, 5);
    Cube(223, 0x106aa070, 6);
  }

  lemma Roots6()
    ensures CubeRootBits(227, 0x19a4c116)
    ensures CubeRootBits(229, 0x1e376c08)
    ensures CubeRootBits(233, 0x2748774c)
    ensures CubeRootBits(239, 0x34b0bcb5)
    ensures CubeRootBits(241, 0x391c0cb3)
    ensures CubeRootBits(251, 0x4ed8aa4a)
    ensures CubeRootBits(257, 0x5b9cca4f)
    ensures CubeRootBits(263, 0x682e6ff3)
  {
    Cube(227, 0x19a4c116, 6);
    Cube(229, 0x1e376c08, 6);
    Cube(233, 0x2748774c, 6);
    Cube(239, 0x34b0bcb5, 6);
    Cube(241, 0x391c0cb3, 6);
    Cube(251, 0x4ed8aa4a, 6);
    Cube(257, 0x5b9cca4f, 6);
    Cube(263, 0x682e6ff3, 6);
  }

  lemma Roots7()
    ensures CubeRootBits(269, 0x748f82ee)
    ensures CubeRootBits(271, 0x78a5636f)
    ensures CubeRootBits(277, 0x84c87814)
    ensures CubeRootBits(281, 0x8cc70208)
    ensures CubeRootBits(283, 0x90befffa)
    ensures CubeRootBits(293, 0xa4506ceb)
    ensures CubeRootBits(307, 0xbef9a3f7)
    ensures CubeRootBits(311, 0xc67178f2)
  {
    Cube(269, 0x748f82ee, 6);
    Cube(271, 0x78a5636f, 6);
    Cube(277, 0x84c87814, 6);
    Cube(281, 0x8cc70208, 6);
    Cube(283, 0x90befffa, 6);
    Cube(293, 0xa4506ceb, 6);
    Cube(307, 0xbef9a3f7, 6);
    Cube(311, 0xc67178f2, 6);
  }

  lemma Constants0(i: nat)
    requires 0 <= i < 8
    ensures |K| == |PRIMES| == 64 && CubeRootBits(PRIMES[i], K[i])
  {
    hide CubeRootBits;
    Roots0();
    assert K[0] == 0x428a2f98 && PRIMES[0] == 2;
    assert K[1] == 0x71374491 && PRIMES[1] == 3;
    assert K[2] == 0xb5c0fbcf && PRIMES[2] == 5;
    assert K[3] == 0xe9b5dba5 && PRIMES[3] == 7;
    assert K[4] == 0x3956c25b && PRIMES[4] == 11;
    assert K[5] == 0x59f111f1 && PRIMES[5] == 13;
    assert K[6] == 0x923f82a4 && PRIMES[6] == 17;
    assert K[7] == 0xab1c5ed5 && PRIMES[7] == 19;
  }

  lemma Constants1(i: nat)
    requires 8 <= i < 16
    ensures |K| == |PRIMES| == 64 && CubeRootBits(PRIMES[i], K[i])
  {
    hide CubeRootBits;
    Roots1();
    assert K[8] == 0xd807aa98 && PRIMES[8] == 23;
    assert K[9] == 0x12835b01 && PRIMES[9] == 29;
    assert K[10] == 0x243185be && PRIMES[10] == 31;
    assert K[11] == 0x550c7dc3 && PRIMES[11] == 37;
    assert K[12] == 0x72be5d74 && PRIMES[12] == 41;
    assert K[13] == 0x80deb1fe && PRIMES[13] == 43;
    assert K[14] == 0x9bdc06a7 && PRIMES[14] == 47;
    assert K[15] == 0xc19bf174 && PRIMES[15] == 53;
  }

  lemma Constants2(i: nat)
    requires 16 <= i < 24
    ensures |K| == |PRIMES| == 64 && CubeRootBits(PRIMES[i], K[i])
  {
    hide CubeRootBits;
    Roots2();
    assert K[16] == 0xe49b69c1 && PRIMES[16] == 59;
    assert K[17] == 0xefbe4786 && PRIMES[17] == 61;
    assert K[18] == 0x0fc19dc6 && PRIMES[18] == 67;
    assert K[19] == 0x240ca1cc && PRIMES[19] == 71;
    assert K[20] == 0x2de92c6f && PRIMES[20] == 73;
    assert K[21] == 0x4a7484aa && PRIMES[21] == 79;
    assert K[22] == 0x5cb0a9dc && PRIMES[22] == 83;
    assert K[23] == 0x76f988da && PRIMES[23] == 89;
  }

  lemma Constants3(i: nat)
    requires 24 <= i < 32
    ensures |K| == |PRIMES| == 64 && CubeRootBits(PRIMES[i], K[i])
  {
    hide CubeRootBits;
    Roots3();
    assert K[24] == 0x983e5152 && PRIMES[24] == 97;
    assert K[25] == 0xa831c66d && PRIMES[25] == 101;
    assert K[26] == 0xb00327c8 && PRIMES[26] == 103;
    assert K[27] == 0xbf597fc7 && PRIMES[27] == 107;
    assert K[28] == 0xc6e00bf3 && PRIMES[28] == 109;
    assert K[29] == 0xd5a79147 && PRIMES[29] == 113;
    assert K[30] == 0x06ca6351 && PRIMES[30] == 127;
    assert K[31] == 0x14292967 && PRIMES[31] == 131;
  }

  lemma Constants4(i: nat)
    requires 32 <= i < 40
    ensures |K| == |PRIMES| == 64 && CubeRootBits(PRIMES[i], K[i])
  {
    hide CubeRootBits;
    Roots4();
    assert K[32] == 0x27b70a85 && PRIMES[32] == 137;
    assert K[33] == 0x2e1b2138 && PRIMES[33] == 139;
    assert K[34] == 0x4d2c6dfc && PRIMES[34] == 149;
    assert K[35] == 0x53380d13 && PRIMES[35] == 151;
    assert K[36] == 0x650a7354 && PRIMES[36] == 157;
    assert K[37] == 0x766a0abb && PRIMES[37] == 163;
    assert K[38] == 0x81c2c92e && PRIMES[38] == 167;
    assert K[39] == 0x92722c85 && PRIMES[39] == 173;
  }

  lemma Constants5(i: nat)
    requires 40 <= i < 48
    ensures |K| == |PRIMES| == 64 && CubeRootBits(PRIMES[i], K[i])
  {
    hide CubeRootBits;
    Roots5();
    assert K[40] == 0xa2bfe8a1 && PRIMES[40] == 179;
    assert K[41] == 0xa81a664b && PRIMES[41] == 181;
    assert K[42] == 0xc24b8b70 && PRIMES[42] == 191;
    assert K[43] == 0xc76c51a3 && PRIMES[43] == 193;
    assert K[44] == 0xd192e819 && PRIMES[44] == 197;
    assert K[45] == 0xd6990624 && PRIMES[45] == 199;
    assert K[46] == 0xf40e3585 && PRIMES[46] == 211;
    assert K[47] == 0x106aa070 && PRIMES[47] == 223;
  }

  lemma Constants6(i: nat)
    requires 48 <= i < 56
    ensures |K| == |PRIMES| == 64 && CubeRootBits(PRIMES[i], K[i])
  {
    hide CubeRootBits;
    Roots6();
    assert K[48] == 0x19a4c116 && PRIMES[48] == 227;
    assert K[49] == 0x1e376c08 && PRIMES[49] == 229;
    assert K[50] == 0x2748774c && PRIMES[50] == 233;
    assert K[51] == 0x34b0bcb5 && PRIMES[51] == 239;
    assert K[52] == 0x391c0cb3 && PRIMES[52] == 241;
    assert K[53] == 0x4ed8aa4a && PRIMES[53] == 251;
    assert K[54] == 0x5b9cca4f && PRIMES[54] == 257;
    assert K[55] == 0x682e6ff3 && PRIMES[55] == 263;
  }

  lemma Constants7(i: nat)
    requires 56 <= i < 64
    ensures |K| == |PRIMES| == 64 && CubeRootBits(PRIMES[i], K[i])
  {
    hide CubeRootBits;
    Roots7();
    assert K[56] == 0x748f82ee && PRIMES[56] == 269;
    assert K[57] == 0x78a5636f && PRIMES[57] == 271;
    assert K[58] == 0x84c87814 && PRIMES[58] == 277;
    assert K[59] == 0x8cc70208 && PRIMES[59] == 281;
    assert K[60] == 0x90befffa && PRIMES[60] == 283;
    assert K[61] == 0xa4506ceb && PRIMES[61] == 293;
    assert K[62] == 0xbef9a3f7 && PRIMES[62] == 307;
    assert K[63] == 0xc67178f2 && PRIMES[63] == 311;
  }

  /** The round constants are the first thirty-two bits of the fractional parts of the cube roots of
    * the first sixty-four primes (section 4.2.2). */
  lemma RoundConstants(i: nat)
    requires i < 64
    ensures |K| == |PRIMES| == 64 && CubeRootBits(PRIMES[i], K[i])
  {
    hide CubeRootBits;
    if i < 8 { Constants0(i); } else if i < 16 { Constants1(i); } else if i < 24 { Constants2(i); }
    else if i < 32 { Constants3(i); } else if i < 40 { Constants4(i); } else if i < 48 { Constants5(i); }
    else if i < 56 { Constants6(i); } else { Constants7(i); }
  }

  /** The initial hash value is that of the square roots of the first eight (section 5.3.3). */
  lemma InitialHash()
    ensures SquareRootBits(2, INITIAL.a) && SquareRootBits(3, INITIAL.b) && SquareRootBits(5, INITIAL.c)
    ensures SquareRootBits(7, INITIAL.d) && SquareRootBits(11, INITIAL.e) && SquareRootBits(13, INITIAL.f)
    ensures SquareRootBits(17, INITIAL.g) && SquareRootBits(19, INITIAL.h)
  {
    Square(2, INITIAL.a, 1);
    Square(3, INITIAL.b, 1);
    Square(5, INITIAL.c, 2);
    Square(7, INITIAL.d, 2);
    Square(11, INITIAL.e, 3);
    Square(13, INITIAL.f, 3);
    Square(17, INITIAL.g, 4);
    Square(19, INITIAL.h, 4);
  }
}
