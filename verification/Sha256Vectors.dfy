// What FIPS 180-4 publishes of SHA-256: where its constants come from, and the one-block
// example.  They tie the definitions to numbers that do not come from the code.
module Sha256Vectors {
  import opened Arithmetic
  import opened Bytes
  import opened HashStream
  import opened Sha256

  // ---------- the constants, sections 4.2.2 and 5.3.3 ----------

  function Cube(v: nat): nat {
    v * v * v
  }

  // k is the first 32 bits of the fraction of the cube root of p, of which n is the whole part.
  predicate CubeRoot(k: Word, p: nat, n: nat) {
    var v := n * WORD + k as nat;
    Cube(v) <= p * Cube(WORD) < Cube(v + 1)
  }

  predicate SquareRoot(k: Word, p: nat, n: nat) {
    var v := n * WORD + k as nat;
    v * v <= p * (WORD * WORD) < (v + 1) * (v + 1)
  }

  // The whole part of the cube root of a prime of the list.
  function WholeRoot(p: nat): nat {
    if p < 8 then 1 else if p < 27 then 2 else if p < 64 then 3 else if p < 125 then 4 else if p < 216 then 5 else 6
  }

  // Line l of the table belongs to eight primes.
  predicate LineOfRoots(l: nat, p0: nat, p1: nat, p2: nat, p3: nat, p4: nat, p5: nat, p6: nat, p7: nat)
    requires l < 8
  {
    && CubeRoot(Constant(8 * l), p0, WholeRoot(p0)) && CubeRoot(Constant(8 * l + 1), p1, WholeRoot(p1))
    && CubeRoot(Constant(8 * l + 2), p2, WholeRoot(p2)) && CubeRoot(Constant(8 * l + 3), p3, WholeRoot(p3))
    && CubeRoot(Constant(8 * l + 4), p4, WholeRoot(p4)) && CubeRoot(Constant(8 * l + 5), p5, WholeRoot(p5))
    && CubeRoot(Constant(8 * l + 6), p6, WholeRoot(p6)) && CubeRoot(Constant(8 * l + 7), p7, WholeRoot(p7))
  }

  // The first sixty-four primes, section 4.2.2.
  const PRIMES: seq<seq<nat>> := [
    [2, 3, 5, 7, 11, 13, 17, 19],
    [23, 29, 31, 37, 41, 43, 47, 53],
    [59, 61, 67, 71, 73, 79, 83, 89],
    [97, 101, 103, 107, 109, 113, 127, 131],
    [137, 139, 149, 151, 157, 163, 167, 173],
    [179, 181, 191, 193, 197, 199, 211, 223],
    [227, 229, 233, 239, 241, 251, 257, 263],
    [269, 271, 277, 281, 283, 293, 307, 311]
  ]

  // The constants belong to these primes, in their order.
  lemma CubeRoots(l: nat)
    requires l < 8
    ensures var p := PRIMES[l]; LineOfRoots(l, p[0], p[1], p[2], p[3], p[4], p[5], p[6], p[7])
  {
    hide LineOfRoots;
    if l == 0 { CubeRoots0(); }
    else if l == 1 { CubeRoots1(); }
    else if l == 2 { CubeRoots2(); }
    else if l == 3 { CubeRoots3(); }
    else if l == 4 { CubeRoots4(); }
    else if l == 5 { CubeRoots5(); }
    else if l == 6 { CubeRoots6(); }
    else if l == 7 { CubeRoots7(); }
  }

  lemma CubeRoots0()
    ensures LineOfRoots(0, 2, 3, 5, 7, 11, 13, 17, 19)
  {
    Line0();
    hide Constant;
  }

  lemma CubeRoots1()
    ensures LineOfRoots(1, 23, 29, 31, 37, 41, 43, 47, 53)
  {
    Line1();
    hide Constant;
  }

  lemma CubeRoots2()
    ensures LineOfRoots(2, 59, 61, 67, 71, 73, 79, 83, 89)
  {
    Line2();
    hide Constant;
  }

  lemma CubeRoots3()
    ensures LineOfRoots(3, 97, 101, 103, 107, 109, 113, 127, 131)
  {
    Line3();
    hide Constant;
  }

  lemma CubeRoots4()
    ensures LineOfRoots(4, 137, 139, 149, 151, 157, 163, 167, 173)
  {
    Line4();
    hide Constant;
  }

  lemma CubeRoots5()
    ensures LineOfRoots(5, 179, 181, 191, 193, 197, 199, 211, 223)
  {
    Line5();
    hide Constant;
  }

  lemma CubeRoots6()
    ensures LineOfRoots(6, 227, 229, 233, 239, 241, 251, 257, 263)
  {
    Line6();
    hide Constant;
  }

  lemma CubeRoots7()
    ensures LineOfRoots(7, 269, 271, 277, 281, 283, 293, 307, 311)
  {
    Line7();
    hide Constant;
  }

  lemma Line0()
    ensures Constant(0) == 0x428A2F98 && Constant(1) == 0x71374491 && Constant(2) == 0xB5C0FBCF && Constant(3) == 0xE9B5DBA5
    ensures Constant(4) == 0x3956C25B && Constant(5) == 0x59F111F1 && Constant(6) == 0x923F82A4 && Constant(7) == 0xAB1C5ED5
  {}

  lemma Line1()
    ensures Constant(8) == 0xD807AA98 && Constant(9) == 0x12835B01 && Constant(10) == 0x243185BE && Constant(11) == 0x550C7DC3
    ensures Constant(12) == 0x72BE5D74 && Constant(13) == 0x80DEB1FE && Constant(14) == 0x9BDC06A7 && Constant(15) == 0xC19BF174
  {}

  lemma Line2()
    ensures Constant(16) == 0xE49B69C1 && Constant(17) == 0xEFBE4786 && Constant(18) == 0x0FC19DC6 && Constant(19) == 0x240CA1CC
    ensures Constant(20) == 0x2DE92C6F && Constant(21) == 0x4A7484AA && Constant(22) == 0x5CB0A9DC && Constant(23) == 0x76F988DA
  {}

  lemma Line3()
    ensures Constant(24) == 0x983E5152 && Constant(25) == 0xA831C66D && Constant(26) == 0xB00327C8 && Constant(27) == 0xBF597FC7
    ensures Constant(28) == 0xC6E00BF3 && Constant(29) == 0xD5A79147 && Constant(30) == 0x06CA6351 && Constant(31) == 0x14292967
  {}

  lemma Line4()
    ensures Constant(32) == 0x27B70A85 && Constant(33) == 0x2E1B2138 && Constant(34) == 0x4D2C6DFC && Constant(35) == 0x53380D13
    ensures Constant(36) == 0x650A7354 && Constant(37) == 0x766A0ABB && Constant(38) == 0x81C2C92E && Constant(39) == 0x92722C85
  {}

  lemma Line5()
    ensures Constant(40) == 0xA2BFE8A1 && Constant(41) == 0xA81A664B && Constant(42) == 0xC24B8B70 && Constant(43) == 0xC76C51A3
    ensures Constant(44) == 0xD192E819 && Constant(45) == 0xD6990624 && Constant(46) == 0xF40E3585 && Constant(47) == 0x106AA070
  {}

  lemma Line6()
    ensures Constant(48) == 0x19A4C116 && Constant(49) == 0x1E376C08 && Constant(50) == 0x2748774C && Constant(51) == 0x34B0BCB5
    ensures Constant(52) == 0x391C0CB3 && Constant(53) == 0x4ED8AA4A && Constant(54) == 0x5B9CCA4F && Constant(55) == 0x682E6FF3
  {}

  lemma Line7()
    ensures Constant(56) == 0x748F82EE && Constant(57) == 0x78A5636F && Constant(58) == 0x84C87814 && Constant(59) == 0x8CC70208
    ensures Constant(60) == 0x90BEFFFA && Constant(61) == 0xA4506CEB && Constant(62) == 0xBEF9A3F7 && Constant(63) == 0xC67178F2
  {}

  // The initial value belongs to the first eight primes.
  lemma SquareRoots()
    ensures SquareRoot(INITIAL.a, 2, 1) && SquareRoot(INITIAL.b, 3, 1) && SquareRoot(INITIAL.c, 5, 2) && SquareRoot(INITIAL.d, 7, 2)
    ensures SquareRoot(INITIAL.e, 11, 3) && SquareRoot(INITIAL.f, 13, 3) && SquareRoot(INITIAL.g, 17, 4) && SquareRoot(INITIAL.h, 19, 4)
  {}

  // ---------- the example of one block ----------

  // The message "abc".
  const ABC: seq<Byte> := [97, 98, 99]

  lemma PaddedAbc()
    ensures IsAbc(Padded(ABC, true))
  {
    LengthOf24();
    PaddingOfThree(true);
    hide BigEndian, Zeros, Padded, IsAbc;
    AbcHigh(Zeros(52));
  }

  // Three bytes, the bit, zeros, and the length of 24 bits.
  lemma PaddingOfThree(bigEndian: bool)
    ensures Padded(ABC, bigEndian)
         == [97, 98, 99, 0x80] + Zeros(52) + if bigEndian then BigEndian(24, 8) else LittleEndian(24, 8)
  {
    hide BigEndian, LittleEndian, Zeros;
    assert ZeroCount(3) == 52;
    var tail := if bigEndian then BigEndian(24, 8) else LittleEndian(24, 8);
    assert ABC + ([0x80] + Zeros(52) + tail) == [97, 98, 99, 0x80] + Zeros(52) + tail;
  }

  lemma AbcHigh(zeros: seq<Byte>)
    requires |zeros| == 52 && forall i :: 0 <= i < 52 ==> zeros[i] == 0
    ensures IsAbc([97, 98, 99, 0x80] + zeros + [0, 0, 0, 0, 0, 0, 0, 24])
  {}

  lemma LengthOf24()
    ensures BigEndian(24, 8) == [0, 0, 0, 0, 0, 0, 0, 24]
  {
    assert BigEndian(0, 4) == [0, 0, 0, 0];
    assert BigEndian(0, 7) == [0, 0, 0, 0, 0, 0, 0];
  }

  // The bytes of the block.
  predicate IsAbc(b: seq<Byte>) {
    && |b| == BLOCK && b[0] == 97 && b[1] == 98 && b[2] == 99 && b[3] == 0x80 && b[63] == 24
    && forall i :: 4 <= i < 63 ==> b[i] == 0
  }

  lemma FirstWords(b: seq<Byte>)
    requires IsAbc(b)
    ensures Schedule(b, 0) == 0x61626380 && Schedule(b, 15) == 24
    ensures forall t :: 1 <= t < 15 ==> Schedule(b, t) == 0
  {
    assert |b| == BLOCK;
    hide IsAbc, GetWord;
    LettersWord(b);
    LengthWord(b);
    FirstWord(b, 0);
    FirstWord(b, 15);
    forall t | 1 <= t < 15 ensures Schedule(b, t) == 0 {
      ZeroWord(b, t);
      FirstWord(b, t);
    }
  }

  lemma LettersWord(b: seq<Byte>)
    requires IsAbc(b)
    ensures GetWord(b, 0) == 0x61626380
  {
    assert b[0] as Word == 0x61 && b[1] as Word == 0x62;
    assert b[2] as Word == 0x63 && b[3] as Word == 0x80;
  }

  lemma LengthWord(b: seq<Byte>)
    requires IsAbc(b)
    ensures GetWord(b, 60) == 24
  {}

  lemma ZeroWord(b: seq<Byte>, t: nat)
    requires IsAbc(b) && 1 <= t < 15
    ensures GetWord(b, 4 * t) == 0
  {
    assert b[4 * t] == 0 && b[4 * t + 1] == 0 && b[4 * t + 2] == 0 && b[4 * t + 3] == 0;
  }

  lemma NextWord(b: seq<Byte>, t: nat, w2: Word, w7: Word, w15: Word, w16: Word, w: Word)
    requires |b| == BLOCK && 16 <= t < 64 && Extend(w2, w7, w15, w16) == w
    requires Schedule(b, t - 2) == w2 && Schedule(b, t - 7) == w7
    requires Schedule(b, t - 15) == w15 && Schedule(b, t - 16) == w16
    ensures Schedule(b, t) == w
  {
    hide Extend;
  }

  // The eight words of the schedule from 8 * g on.
  predicate WordsOf(b: seq<Byte>, g: nat, w0: Word, w1: Word, w2: Word, w3: Word, w4: Word, w5: Word, w6: Word, w7: Word)
    requires |b| == BLOCK && g < 8
  {
    && Schedule(b, 8 * g) == w0 && Schedule(b, 8 * g + 1) == w1 && Schedule(b, 8 * g + 2) == w2 && Schedule(b, 8 * g + 3) == w3
    && Schedule(b, 8 * g + 4) == w4 && Schedule(b, 8 * g + 5) == w5 && Schedule(b, 8 * g + 6) == w6 && Schedule(b, 8 * g + 7) == w7
  }

  lemma FirstGroups(b: seq<Byte>)
    requires IsAbc(b)
    ensures WordsOf(b, 0, 0x61626380, 0x00000000, 0x00000000, 0x00000000,
                    0x00000000, 0x00000000, 0x00000000, 0x00000000)
    ensures WordsOf(b, 1, 0x00000000, 0x00000000, 0x00000000, 0x00000000,
                    0x00000000, 0x00000000, 0x00000000, 0x00000018)
    ensures WordsOf(b, 2, 0x61626380, 0x000F0000, 0x7DA86405, 0x600003C6,
                    0x3E9D7B78, 0x0183FC00, 0x12DCBFDB, 0xE2E2C38E)
  {
    FirstWords(b);
    hide Schedule;
    NextWord(b, 16, 0x00000000, 0x00000000, 0x00000000, 0x61626380, 0x61626380);
    NextWord(b, 17, 0x00000018, 0x00000000, 0x00000000, 0x00000000, 0x000F0000);
    NextWord(b, 18, 0x61626380, 0x00000000, 0x00000000, 0x00000000, 0x7DA86405);
    NextWord(b, 19, 0x000F0000, 0x00000000, 0x00000000, 0x00000000, 0x600003C6);
    NextWord(b, 20, 0x7DA86405, 0x00000000, 0x00000000, 0x00000000, 0x3E9D7B78);
    NextWord(b, 21, 0x600003C6, 0x00000000, 0x00000000, 0x00000000, 0x0183FC00);
    NextWord(b, 22, 0x3E9D7B78, 0x00000018, 0x00000000, 0x00000000, 0x12DCBFDB);
    NextWord(b, 23, 0x0183FC00, 0x61626380, 0x00000000, 0x00000000, 0xE2E2C38E);
  }

  lemma Words3(b: seq<Byte>)
    requires |b| == BLOCK && WordsOf(b, 1, 0x00000000, 0x00000000, 0x00000000, 0x00000000,
                    0x00000000, 0x00000000, 0x00000000, 0x00000018)
    requires WordsOf(b, 2, 0x61626380, 0x000F0000, 0x7DA86405, 0x600003C6,
                    0x3E9D7B78, 0x0183FC00, 0x12DCBFDB, 0xE2E2C38E)
    ensures WordsOf(b, 3, 0xC8215C1A, 0xB73679A2, 0xE5BC3909, 0x32663C5B,
                    0x9D209D67, 0xEC8726CB, 0x702138A4, 0xD3B7973B)
  {
    hide Schedule;
    NextWord(b, 24, 0x12DCBFDB, 0x000F0000, 0x00000000, 0x00000000, 0xC8215C1A);
    NextWord(b, 25, 0xE2E2C38E, 0x7DA86405, 0x00000000, 0x00000000, 0xB73679A2);
    NextWord(b, 26, 0xC8215C1A, 0x600003C6, 0x00000000, 0x00000000, 0xE5BC3909);
    NextWord(b, 27, 0xB73679A2, 0x3E9D7B78, 0x00000000, 0x00000000, 0x32663C5B);
    NextWord(b, 28, 0xE5BC3909, 0x0183FC00, 0x00000000, 0x00000000, 0x9D209D67);
    NextWord(b, 29, 0x32663C5B, 0x12DCBFDB, 0x00000000, 0x00000000, 0xEC8726CB);
    NextWord(b, 30, 0x9D209D67, 0xE2E2C38E, 0x00000018, 0x00000000, 0x702138A4);
    NextWord(b, 31, 0xEC8726CB, 0xC8215C1A, 0x61626380, 0x00000018, 0xD3B7973B);
  }

  lemma Words4(b: seq<Byte>)
    requires |b| == BLOCK && WordsOf(b, 2, 0x61626380, 0x000F0000, 0x7DA86405, 0x600003C6,
                    0x3E9D7B78, 0x0183FC00, 0x12DCBFDB, 0xE2E2C38E)
    requires WordsOf(b, 3, 0xC8215C1A, 0xB73679A2, 0xE5BC3909, 0x32663C5B,
                    0x9D209D67, 0xEC8726CB, 0x702138A4, 0xD3B7973B)
    ensures WordsOf(b, 4, 0x93F5997F, 0x3B68BA73, 0xAFF4FFC1, 0xF10A5C62,
                    0x0A8B3996, 0x72AF830A, 0x9409E33E, 0x24641522)
  {
    hide Schedule;
    NextWord(b, 32, 0x702138A4, 0xB73679A2, 0x000F0000, 0x61626380, 0x93F5997F);
    NextWord(b, 33, 0xD3B7973B, 0xE5BC3909, 0x7DA86405, 0x000F0000, 0x3B68BA73);
    NextWord(b, 34, 0x93F5997F, 0x32663C5B, 0x600003C6, 0x7DA86405, 0xAFF4FFC1);
    NextWord(b, 35, 0x3B68BA73, 0x9D209D67, 0x3E9D7B78, 0x600003C6, 0xF10A5C62);
    NextWord(b, 36, 0xAFF4FFC1, 0xEC8726CB, 0x0183FC00, 0x3E9D7B78, 0x0A8B3996);
    NextWord(b, 37, 0xF10A5C62, 0x702138A4, 0x12DCBFDB, 0x0183FC00, 0x72AF830A);
    NextWord(b, 38, 0x0A8B3996, 0xD3B7973B, 0xE2E2C38E, 0x12DCBFDB, 0x9409E33E);
    NextWord(b, 39, 0x72AF830A, 0x93F5997F, 0xC8215C1A, 0xE2E2C38E, 0x24641522);
  }

  lemma Words5(b: seq<Byte>)
    requires |b| == BLOCK && WordsOf(b, 3, 0xC8215C1A, 0xB73679A2, 0xE5BC3909, 0x32663C5B,
                    0x9D209D67, 0xEC8726CB, 0x702138A4, 0xD3B7973B)
    requires WordsOf(b, 4, 0x93F5997F, 0x3B68BA73, 0xAFF4FFC1, 0xF10A5C62,
                    0x0A8B3996, 0x72AF830A, 0x9409E33E, 0x24641522)
    ensures WordsOf(b, 5, 0x9F47BF94, 0xF0A64F5A, 0x3E246A79, 0x27333BA3,
                    0x0C4763F2, 0x840ABF27, 0x7A290D5D, 0x065C43DA)
  {
    hide Schedule;
    NextWord(b, 40, 0x9409E33E, 0x3B68BA73, 0xB73679A2, 0xC8215C1A, 0x9F47BF94);
    NextWord(b, 41, 0x24641522, 0xAFF4FFC1, 0xE5BC3909, 0xB73679A2, 0xF0A64F5A);
    NextWord(b, 42, 0x9F47BF94, 0xF10A5C62, 0x32663C5B, 0xE5BC3909, 0x3E246A79);
    NextWord(b, 43, 0xF0A64F5A, 0x0A8B3996, 0x9D209D67, 0x32663C5B, 0x27333BA3);
    NextWord(b, 44, 0x3E246A79, 0x72AF830A, 0xEC8726CB, 0x9D209D67, 0x0C4763F2);
    NextWord(b, 45, 0x27333BA3, 0x9409E33E, 0x702138A4, 0xEC8726CB, 0x840ABF27);
    NextWord(b, 46, 0x0C4763F2, 0x24641522, 0xD3B7973B, 0x702138A4, 0x7A290D5D);
    NextWord(b, 47, 0x840ABF27, 0x9F47BF94, 0x93F5997F, 0xD3B7973B, 0x065C43DA);
  }

  lemma Words6(b: seq<Byte>)
    requires |b| == BLOCK && WordsOf(b, 4, 0x93F5997F, 0x3B68BA73, 0xAFF4FFC1, 0xF10A5C62,
                    0x0A8B3996, 0x72AF830A, 0x9409E33E, 0x24641522)
    requires WordsOf(b, 5, 0x9F47BF94, 0xF0A64F5A, 0x3E246A79, 0x27333BA3,
                    0x0C4763F2, 0x840ABF27, 0x7A290D5D, 0x065C43DA)
    ensures WordsOf(b, 6, 0xFB3E89CB, 0xCC7617DB, 0xB9E66C34, 0xA9993667,
                    0x84BADEDD, 0xC21462BC, 0x1487472C, 0xB20F7A99)
  {
    hide Schedule;
    NextWord(b, 48, 0x7A290D5D, 0xF0A64F5A, 0x3B68BA73, 0x93F5997F, 0xFB3E89CB);
    NextWord(b, 49, 0x065C43DA, 0x3E246A79, 0xAFF4FFC1, 0x3B68BA73, 0xCC7617DB);
    NextWord(b, 50, 0xFB3E89CB, 0x27333BA3, 0xF10A5C62, 0xAFF4FFC1, 0xB9E66C34);
    NextWord(b, 51, 0xCC7617DB, 0x0C4763F2, 0x0A8B3996, 0xF10A5C62, 0xA9993667);
    NextWord(b, 52, 0xB9E66C34, 0x840ABF27, 0x72AF830A, 0x0A8B3996, 0x84BADEDD);
    NextWord(b, 53, 0xA9993667, 0x7A290D5D, 0x9409E33E, 0x72AF830A, 0xC21462BC);
    NextWord(b, 54, 0x84BADEDD, 0x065C43DA, 0x24641522, 0x9409E33E, 0x1487472C);
    NextWord(b, 55, 0xC21462BC, 0xFB3E89CB, 0x9F47BF94, 0x24641522, 0xB20F7A99);
  }

  lemma Words7(b: seq<Byte>)
    requires |b| == BLOCK && WordsOf(b, 5, 0x9F47BF94, 0xF0A64F5A, 0x3E246A79, 0x27333BA3,
                    0x0C4763F2, 0x840ABF27, 0x7A290D5D, 0x065C43DA)
    requires WordsOf(b, 6, 0xFB3E89CB, 0xCC7617DB, 0xB9E66C34, 0xA9993667,
                    0x84BADEDD, 0xC21462BC, 0x1487472C, 0xB20F7A99)
    ensures WordsOf(b, 7, 0xEF57B9CD, 0xEBE6B238, 0x9FE3095E, 0x78BC8D4B,
                    0xA43FCF15, 0x668B2FF8, 0xEEABA2CC, 0x12B1EDEB)
  {
    hide Schedule;
    NextWord(b, 56, 0x1487472C, 0xCC7617DB, 0xF0A64F5A, 0x9F47BF94, 0xEF57B9CD);
    NextWord(b, 57, 0xB20F7A99, 0xB9E66C34, 0x3E246A79, 0xF0A64F5A, 0xEBE6B238);
    NextWord(b, 58, 0xEF57B9CD, 0xA9993667, 0x27333BA3, 0x3E246A79, 0x9FE3095E);
    NextWord(b, 59, 0xEBE6B238, 0x84BADEDD, 0x0C4763F2, 0x27333BA3, 0x78BC8D4B);
    NextWord(b, 60, 0x9FE3095E, 0xC21462BC, 0x840ABF27, 0x0C4763F2, 0xA43FCF15);
    NextWord(b, 61, 0x78BC8D4B, 0x1487472C, 0x7A290D5D, 0x840ABF27, 0x668B2FF8);
    NextWord(b, 62, 0xA43FCF15, 0xB20F7A99, 0x065C43DA, 0x7A290D5D, 0xEEABA2CC);
    NextWord(b, 63, 0x668B2FF8, 0xEF57B9CD, 0xFB3E89CB, 0x065C43DA, 0x12B1EDEB);
  }

  // One round: two of the eight registers are new.
  lemma NextRound(b: seq<Byte>, t: nat, r: Registers, k: Word, w: Word, a: Word, e: Word) returns (s: Registers)
    requires |b| == BLOCK && t < 64 && Rounds(INITIAL, b, t) == r
    requires Constant(t) == k && Schedule(b, t) == w && Round(r, k, w).a == a && Round(r, k, w).e == e
    ensures s == Registers(a, r.a, r.b, r.c, e, r.e, r.f, r.g) == Rounds(INITIAL, b, t + 1)
  {
    RoundsUnfold(INITIAL, b, t);
    hide Rounds, Constant, Schedule;
    s := Round(r, k, w);
  }

  predicate RoundsOf(b: seq<Byte>, g: nat, r: Registers)
    requires |b| == BLOCK && g <= 8
  {
    Rounds(INITIAL, b, 8 * g) == r
  }

  lemma Rounds0(b: seq<Byte>)
    requires |b| == BLOCK && WordsOf(b, 0, 0x61626380, 0x00000000, 0x00000000, 0x00000000,
                    0x00000000, 0x00000000, 0x00000000, 0x00000000)
    requires RoundsOf(b, 0, Registers(0x6A09E667, 0xBB67AE85, 0x3C6EF372, 0xA54FF53A,
                                     0x510E527F, 0x9B05688C, 0x1F83D9AB, 0x5BE0CD19))
    ensures RoundsOf(b, 1, Registers(0x85A07B5F, 0xE5030380, 0x2B4209F5, 0x04409A6A,
                                     0x0C657A79, 0x9B27A401, 0x714260AD, 0x43ADA245))
  {
    Line0();
    hide Rounds, Constant, Schedule;
    var r := Rounds(INITIAL, b, 0);
    r := NextRound(b, 0, r, 0x428A2F98, 0x61626380, 0x5D6AEBCD, 0xFA2A4622);
    r := NextRound(b, 1, r, 0x71374491, 0x00000000, 0x5A6AD9AD, 0x78CE7989);
    r := NextRound(b, 2, r, 0xB5C0FBCF, 0x00000000, 0xC8C347A7, 0xF92939EB);
    r := NextRound(b, 3, r, 0xE9B5DBA5, 0x00000000, 0xD550F666, 0x24E00850);
    r := NextRound(b, 4, r, 0x3956C25B, 0x00000000, 0x04409A6A, 0x43ADA245);
    r := NextRound(b, 5, r, 0x59F111F1, 0x00000000, 0x2B4209F5, 0x714260AD);
    r := NextRound(b, 6, r, 0x923F82A4, 0x00000000, 0xE5030380, 0x9B27A401);
    r := NextRound(b, 7, r, 0xAB1C5ED5, 0x00000000, 0x85A07B5F, 0x0C657A79);
  }

  lemma Rounds1(b: seq<Byte>)
    requires |b| == BLOCK && WordsOf(b, 1, 0x00000000, 0x00000000, 0x00000000, 0x00000000,
                    0x00000000, 0x00000000, 0x00000000, 0x00000018)
    requires RoundsOf(b, 1, Registers(0x85A07B5F, 0xE5030380, 0x2B4209F5, 0x04409A6A,
                                     0x0C657A79, 0x9B27A401, 0x714260AD, 0x43ADA245))
    ensures RoundsOf(b, 2, Registers(0xB0FA238E, 0xC0645FDE, 0xD932EB16, 0x87912990,
                                     0x07590DCD, 0x0B92F20C, 0x745A48DE, 0x1E578218))
  {
    Line1();
    hide Rounds, Constant, Schedule;
    var r := Rounds(INITIAL, b, 8);
    r := NextRound(b, 8, r, 0xD807AA98, 0x00000000, 0x8E04ECB9, 0x32CA2D8C);
    r := NextRound(b, 9, r, 0x12835B01, 0x00000000, 0x8C87346B, 0x1CC92596);
    r := NextRound(b, 10, r, 0x243185BE, 0x00000000, 0x4798A3F4, 0x436B23E8);
    r := NextRound(b, 11, r, 0x550C7DC3, 0x00000000, 0xF71FC5A9, 0x816FD6E9);
    r := NextRound(b, 12, r, 0x72BE5D74, 0x00000000, 0x87912990, 0x1E578218);
    r := NextRound(b, 13, r, 0x80DEB1FE, 0x00000000, 0xD932EB16, 0x745A48DE);
    r := NextRound(b, 14, r, 0x9BDC06A7, 0x00000000, 0xC0645FDE, 0x0B92F20C);
    r := NextRound(b, 15, r, 0xC19BF174, 0x00000018, 0xB0FA238E, 0x07590DCD);
  }

  lemma Rounds2(b: seq<Byte>)
    requires |b| == BLOCK && WordsOf(b, 2, 0x61626380, 0x000F0000, 0x7DA86405, 0x600003C6,
                    0x3E9D7B78, 0x0183FC00, 0x12DCBFDB, 0xE2E2C38E)
    requires RoundsOf(b, 2, Registers(0xB0FA238E, 0xC0645FDE, 0xD932EB16, 0x87912990,
                                     0x07590DCD, 0x0B92F20C, 0x745A48DE, 0x1E578218))
    ensures RoundsOf(b, 3, Registers(0xC5D53D8D, 0xA7A3623F, 0xC2606D6D, 0x9DC68B63,
                                     0xAA47C347, 0x49F5114A, 0xE1257970, 0x8ADA8930))
  {
    Line2();
    hide Rounds, Constant, Schedule;
    var r := Rounds(INITIAL, b, 16);
    r := NextRound(b, 16, r, 0xE49B69C1, 0x61626380, 0x21DA9A9B, 0x8034229C);
    r := NextRound(b, 17, r, 0xEFBE4786, 0x000F0000, 0xC2FBD9D1, 0x846EE454);
    r := NextRound(b, 18, r, 0x0FC19DC6, 0x7DA86405, 0xFE777BBF, 0xCC899961);
    r := NextRound(b, 19, r, 0x240CA1CC, 0x600003C6, 0xE1F20C33, 0xB0638179);
    r := NextRound(b, 20, r, 0x2DE92C6F, 0x3E9D7B78, 0x9DC68B63, 0x8ADA8930);
    r := NextRound(b, 21, r, 0x4A7484AA, 0x0183FC00, 0xC2606D6D, 0xE1257970);
    r := NextRound(b, 22, r, 0x5CB0A9DC, 0x12DCBFDB, 0xA7A3623F, 0x49F5114A);
    r := NextRound(b, 23, r, 0x76F988DA, 0xE2E2C38E, 0xC5D53D8D, 0xAA47C347);
  }

  lemma Rounds3(b: seq<Byte>)
    requires |b| == BLOCK && WordsOf(b, 3, 0xC8215C1A, 0xB73679A2, 0xE5BC3909, 0x32663C5B,
                    0x9D209D67, 0xEC8726CB, 0x702138A4, 0xD3B7973B)
    requires RoundsOf(b, 3, Registers(0xC5D53D8D, 0xA7A3623F, 0xC2606D6D, 0x9DC68B63,
                                     0xAA47C347, 0x49F5114A, 0xE1257970, 0x8ADA8930))
    ensures RoundsOf(b, 4, Registers(0x73B33BF5, 0xEA992A22, 0xA0060B30, 0x363482C9,
                                     0xBA591112, 0x0109AB3A, 0xADE79437, 0x6112A3B7))
  {
    Line3();
    hide Rounds, Constant, Schedule;
    var r := Rounds(INITIAL, b, 24);
    r := NextRound(b, 24, r, 0x983E5152, 0xC8215C1A, 0x1C2C2838, 0x2823EF91);
    r := NextRound(b, 25, r, 0xA831C66D, 0xB73679A2, 0xCDE8037D, 0x14383D8E);
    r := NextRound(b, 26, r, 0xB00327C8, 0xE5BC3909, 0xB62EC4BC, 0xC74C6516);
    r := NextRound(b, 27, r, 0xBF597FC7, 0x32663C5B, 0x77D37528, 0xEDFFBFF8);
    r := NextRound(b, 28, r, 0xC6E00BF3, 0x9D209D67, 0x363482C9, 0x6112A3B7);
    r := NextRound(b, 29, r, 0xD5A79147, 0xEC8726CB, 0xA0060B30, 0xADE79437);
    r := NextRound(b, 30, r, 0x06CA6351, 0x702138A4, 0xEA992A22, 0x0109AB3A);
    r := NextRound(b, 31, r, 0x14292967, 0xD3B7973B, 0x73B33BF5, 0xBA591112);
  }

  lemma Rounds4(b: seq<Byte>)
    requires |b| == BLOCK && WordsOf(b, 4, 0x93F5997F, 0x3B68BA73, 0xAFF4FFC1, 0xF10A5C62,
                    0x0A8B3996, 0x72AF830A, 0x9409E33E, 0x24641522)
    requires RoundsOf(b, 4, Registers(0x73B33BF5, 0xEA992A22, 0xA0060B30, 0x363482C9,
                                     0xBA591112, 0x0109AB3A, 0xADE79437, 0x6112A3B7))
    ensures RoundsOf(b, 5, Registers(0x79EA687A, 0x6DC57A8A, 0x34DF1604, 0x41A65CB1,
                                     0x1EFBC0A0, 0xF0781BC8, 0xA507A53D, 0x0772A26B))
  {
    Line4();
    hide Rounds, Constant, Schedule;
    var r := Rounds(INITIAL, b, 32);
    r := NextRound(b, 32, r, 0x27B70A85, 0x93F5997F, 0x98E12507, 0x9CD9F5F6);
    r := NextRound(b, 33, r, 0x2E1B2138, 0x3B68BA73, 0xFE604DF5, 0x59249DD3);
    r := NextRound(b, 34, r, 0x4D2C6DFC, 0xAFF4FFC1, 0xA9A7738C, 0x085F3833);
    r := NextRound(b, 35, r, 0x53380D13, 0xF10A5C62, 0x65A0CFE4, 0xF4B002D6);
    r := NextRound(b, 36, r, 0x650A7354, 0x0A8B3996, 0x41A65CB1, 0x0772A26B);
    r := NextRound(b, 37, r, 0x766A0ABB, 0x72AF830A, 0x34DF1604, 0xA507A53D);
    r := NextRound(b, 38, r, 0x81C2C92E, 0x9409E33E, 0x6DC57A8A, 0xF0781BC8);
    r := NextRound(b, 39, r, 0x92722C85, 0x24641522, 0x79EA687A, 0x1EFBC0A0);
  }

  lemma Rounds5(b: seq<Byte>)
    requires |b| == BLOCK && WordsOf(b, 5, 0x9F47BF94, 0xF0A64F5A, 0x3E246A79, 0x27333BA3,
                    0x0C4763F2, 0x840ABF27, 0x7A290D5D, 0x065C43DA)
    requires RoundsOf(b, 5, Registers(0x79EA687A, 0x6DC57A8A, 0x34DF1604, 0x41A65CB1,
                                     0x1EFBC0A0, 0xF0781BC8, 0xA507A53D, 0x0772A26B))
    ensures RoundsOf(b, 6, Registers(0x4172328D, 0xA14C14B0, 0x72AB4B91, 0x26628815,
                                     0xFECF0BC6, 0xD57B94A9, 0xB7755DA1, 0xA80F11F0))
  {
    Line5();
    hide Rounds, Constant, Schedule;
    var r := Rounds(INITIAL, b, 40);
    r := NextRound(b, 40, r, 0xA2BFE8A1, 0x9F47BF94, 0xD6670766, 0x26352D63);
    r := NextRound(b, 41, r, 0xA81A664B, 0xF0A64F5A, 0xDF46652F, 0x838B2711);
    r := NextRound(b, 42, r, 0xC24B8B70, 0x3E246A79, 0x17AA0DFE, 0xDECD4715);
    r := NextRound(b, 43, r, 0xC76C51A3, 0x27333BA3, 0x9D4BAF93, 0xFDA24C2E);
    r := NextRound(b, 44, r, 0xD192E819, 0x0C4763F2, 0x26628815, 0xA80F11F0);
    r := NextRound(b, 45, r, 0xD6990624, 0x840ABF27, 0x72AB4B91, 0xB7755DA1);
    r := NextRound(b, 46, r, 0xF40E3585, 0x7A290D5D, 0xA14C14B0, 0xD57B94A9);
    r := NextRound(b, 47, r, 0x106AA070, 0x065C43DA, 0x4172328D, 0xFECF0BC6);
  }

  lemma Rounds6(b: seq<Byte>)
    requires |b| == BLOCK && WordsOf(b, 6, 0xFB3E89CB, 0xCC7617DB, 0xB9E66C34, 0xA9993667,
                    0x84BADEDD, 0xC21462BC, 0x1487472C, 0xB20F7A99)
    requires RoundsOf(b, 6, Registers(0x4172328D, 0xA14C14B0, 0x72AB4B91, 0x26628815,
                                     0xFECF0BC6, 0xD57B94A9, 0xB7755DA1, 0xA80F11F0))
    ensures RoundsOf(b, 7, Registers(0x38CC9913, 0x3EC45CDB, 0xF5702FDB, 0x101FD28F,
                                     0x54CB266B, 0xE50E1B4F, 0x9F4787C3, 0x529E7D00))
  {
    Line6();
    hide Rounds, Constant, Schedule;
    var r := Rounds(INITIAL, b, 48);
    r := NextRound(b, 48, r, 0x19A4C116, 0xFB3E89CB, 0x05757CEB, 0xBD714038);
    r := NextRound(b, 49, r, 0x1E376C08, 0xCC7617DB, 0xF11BFAA8, 0x6E5C390C);
    r := NextRound(b, 50, r, 0x2748774C, 0xB9E66C34, 0x7A0508A1, 0x52F1CCF7);
    r := NextRound(b, 51, r, 0x34B0BCB5, 0xA9993667, 0x886E7A22, 0x49231C1E);
    r := NextRound(b, 52, r, 0x391C0CB3, 0x84BADEDD, 0x101FD28F, 0x529E7D00);
    r := NextRound(b, 53, r, 0x4ED8AA4A, 0xC21462BC, 0xF5702FDB, 0x9F4787C3);
    r := NextRound(b, 54, r, 0x5B9CCA4F, 0x1487472C, 0x3EC45CDB, 0xE50E1B4F);
    r := NextRound(b, 55, r, 0x682E6FF3, 0xB20F7A99, 0x38CC9913, 0x54CB266B);
  }

  lemma Rounds7(b: seq<Byte>)
    requires |b| == BLOCK && WordsOf(b, 7, 0xEF57B9CD, 0xEBE6B238, 0x9FE3095E, 0x78BC8D4B,
                    0xA43FCF15, 0x668B2FF8, 0xEEABA2CC, 0x12B1EDEB)
    requires RoundsOf(b, 7, Registers(0x38CC9913, 0x3EC45CDB, 0xF5702FDB, 0x101FD28F,
                                     0x54CB266B, 0xE50E1B4F, 0x9F4787C3, 0x529E7D00))
    ensures RoundsOf(b, 8, Registers(0x506E3058, 0xD39A2165, 0x04D24D6C, 0xB85E2CE9,
                                     0x5EF50F24, 0xFB121210, 0x948D25B6, 0x961F4894))
  {
    Line7();
    hide Rounds, Constant, Schedule;
    var r := Rounds(INITIAL, b, 56);
    r := NextRound(b, 56, r, 0x748F82EE, 0xEF57B9CD, 0xFCD1887B, 0x9B5E906C);
    r := NextRound(b, 57, r, 0x78A5636F, 0xEBE6B238, 0xC062D46F, 0x7E44008E);
    r := NextRound(b, 58, r, 0x84C87814, 0x9FE3095E, 0xFFB70472, 0x6D83BFC6);
    r := NextRound(b, 59, r, 0x8CC70208, 0x78BC8D4B, 0xB6AE8FFF, 0xB21BAD3D);
    r := NextRound(b, 60, r, 0x90BEFFFA, 0xA43FCF15, 0xB85E2CE9, 0x961F4894);
    r := NextRound(b, 61, r, 0xA4506CEB, 0x668B2FF8, 0x04D24D6C, 0x948D25B6);
    r := NextRound(b, 62, r, 0xBEF9A3F7, 0xEEABA2CC, 0xD39A2165, 0xFB121210);
    r := NextRound(b, 63, r, 0xC67178F2, 0x12B1EDEB, 0x506E3058, 0x5EF50F24);
  }

  lemma CompressedAbc(b: seq<Byte>)
    requires IsAbc(b)
    ensures Compress(INITIAL, b) ==
      Registers(0xBA7816BF, 0x8F01CFEA, 0x414140DE, 0x5DAE2223,
                0xB00361A3, 0x96177A9C, 0xB410FF61, 0xF20015AD)
  {
    FirstGroups(b);
    RoundsUnfold(INITIAL, b, 0);
    assert RoundsOf(b, 0, INITIAL);
    assert RoundsOf(b, 8, Registers(0x506E3058, 0xD39A2165, 0x04D24D6C, 0xB85E2CE9,
                                    0x5EF50F24, 0xFB121210, 0x948D25B6, 0x961F4894)) by {
      hide WordsOf, RoundsOf;
      Words3(b); Words4(b); Words5(b); Words6(b); Words7(b);
      Rounds0(b); Rounds1(b); Rounds2(b); Rounds3(b); Rounds4(b); Rounds5(b); Rounds6(b); Rounds7(b);
    }
    hide Rounds;
  }

  lemma OneBlock(m: seq<Byte>)
    requires |m| == BLOCK
    ensures Fold(Compress, INITIAL, m) == Compress(INITIAL, m)
  {
    hide Compress;
    assert m[..BLOCK] == m && m[BLOCK..] == [];
  }

  lemma WordBytes(w: Word, n: nat, b0: Byte, b1: Byte, b2: Byte, b3: Byte)
    requires w as nat == n == b0 * 0x100_0000 + b1 * 0x1_0000 + b2 * 0x100 + b3
    ensures PutWord(w) == [b0, b1, b2, b3]
  {
    hide BigEndian;
    HighBytes(n, b0, b1, b2, b3);
  }

  lemma HighBytes(n: nat, b0: Byte, b1: Byte, b2: Byte, b3: Byte)
    requires n == b0 * 0x100_0000 + b1 * 0x1_0000 + b2 * 0x100 + b3
    ensures BigEndian(n, 4) == [b0, b1, b2, b3]
  {
    hide BigEndian;
    NoBytes();
    HighByte(n, b0 * 0x1_0000 + b1 * 0x100 + b2, b3, 3);
    HighByte(b0 * 0x1_0000 + b1 * 0x100 + b2, b0 * 0x100 + b1, b2, 2);
    HighByte(b0 * 0x100 + b1, b0, b1, 1);
    HighByte(b0, 0, b0, 0);
  }

  lemma NoBytes()
    ensures BigEndian(0, 0) == []
  {}

  lemma HighByte(n: nat, q: nat, r: Byte, count: nat)
    requires n == q * 256 + r
    ensures BigEndian(n, count + 1) == BigEndian(q, count) + [r]
  {
    DivMod(n, 256, q, r);
  }

  lemma DigestBytes(r: Registers)
    requires r == Registers(0xBA7816BF, 0x8F01CFEA, 0x414140DE, 0x5DAE2223,
                            0xB00361A3, 0x96177A9C, 0xB410FF61, 0xF20015AD)
    ensures Output(r) == [
      0xBA, 0x78, 0x16, 0xBF, 0x8F, 0x01, 0xCF, 0xEA, 0x41, 0x41, 0x40, 0xDE, 0x5D, 0xAE, 0x22, 0x23,
      0xB0, 0x03, 0x61, 0xA3, 0x96, 0x17, 0x7A, 0x9C, 0xB4, 0x10, 0xFF, 0x61, 0xF2, 0x00, 0x15, 0xAD]
  {
    hide PutWord;
    FirstHalf();
    SecondHalf();
    assert Output(r) == (PutWord(r.a) + PutWord(r.b) + PutWord(r.c) + PutWord(r.d))
                     + (PutWord(r.e) + PutWord(r.f) + PutWord(r.g) + PutWord(r.h));
  }

  lemma FirstHalf()
    ensures PutWord(0xBA7816BF) + PutWord(0x8F01CFEA) + PutWord(0x414140DE) + PutWord(0x5DAE2223) ==
      [0xBA, 0x78, 0x16, 0xBF, 0x8F, 0x01, 0xCF, 0xEA, 0x41, 0x41, 0x40, 0xDE, 0x5D, 0xAE, 0x22, 0x23]
  {
    hide PutWord;
    WordBytes(0xBA7816BF, 0xBA7816BF, 0xBA, 0x78, 0x16, 0xBF);
    WordBytes(0x8F01CFEA, 0x8F01CFEA, 0x8F, 0x01, 0xCF, 0xEA);
    WordBytes(0x414140DE, 0x414140DE, 0x41, 0x41, 0x40, 0xDE);
    WordBytes(0x5DAE2223, 0x5DAE2223, 0x5D, 0xAE, 0x22, 0x23);
  }

  lemma SecondHalf()
    ensures PutWord(0xB00361A3) + PutWord(0x96177A9C) + PutWord(0xB410FF61) + PutWord(0xF20015AD) ==
      [0xB0, 0x03, 0x61, 0xA3, 0x96, 0x17, 0x7A, 0x9C, 0xB4, 0x10, 0xFF, 0x61, 0xF2, 0x00, 0x15, 0xAD]
  {
    hide PutWord;
    WordBytes(0xB00361A3, 0xB00361A3, 0xB0, 0x03, 0x61, 0xA3);
    WordBytes(0x96177A9C, 0x96177A9C, 0x96, 0x17, 0x7A, 0x9C);
    WordBytes(0xB410FF61, 0xB410FF61, 0xB4, 0x10, 0xFF, 0x61);
    WordBytes(0xF20015AD, 0xF20015AD, 0xF2, 0x00, 0x15, 0xAD);
  }

  // The digest of "abc" is the published one.
  lemma HashOfAbc()
    ensures Hash(ABC) == [
      0xBA, 0x78, 0x16, 0xBF, 0x8F, 0x01, 0xCF, 0xEA, 0x41, 0x41, 0x40, 0xDE, 0x5D, 0xAE, 0x22, 0x23,
      0xB0, 0x03, 0x61, 0xA3, 0x96, 0x17, 0x7A, 0x9C, 0xB4, 0x10, 0xFF, 0x61, 0xF2, 0x00, 0x15, 0xAD]
  {
    PaddedAbc();
    var b := Padded(ABC, true);
    CompressedAbc(b);
    OneBlock(b);
    hide *;
    DigestBytes(Compress(INITIAL, b));
  }
}
