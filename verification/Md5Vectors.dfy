// The example "abc" of Appendix A.5 of RFC 1321.
module Md5Vectors {
  import opened Arithmetic
  import opened Bytes
  import opened HashStream
  import opened Md5
  import Sha256
  import opened Sha256Vectors

  // The bytes of the padded message: the length stands low byte first.
  predicate IsAbcLow(b: seq<Byte>) {
    && |b| == BLOCK && b[0] == 97 && b[1] == 98 && b[2] == 99 && b[3] == 0x80 && b[56] == 24
    && (forall i :: 4 <= i < 56 ==> b[i] == 0) && (forall i :: 57 <= i < 64 ==> b[i] == 0)
  }

  lemma PaddedAbcLow()
    ensures IsAbcLow(Padded(ABC, false))
  {
    LowLengthOf24();
    PaddingOfThree(false);
    hide LittleEndian, Zeros, Padded, IsAbcLow;
    AbcLow(Zeros(52));
  }

  lemma AbcLow(zeros: seq<Byte>)
    requires |zeros| == 52 && forall i :: 0 <= i < 52 ==> zeros[i] == 0
    ensures IsAbcLow([97, 98, 99, 0x80] + zeros + [24, 0, 0, 0, 0, 0, 0, 0])
  {
  }

  lemma LowLengthOf24()
    ensures LittleEndian(24, 8) == [24, 0, 0, 0, 0, 0, 0, 0]
  {
    assert LittleEndian(0, 4) == [0, 0, 0, 0];
    assert LittleEndian(0, 7) == [0, 0, 0, 0, 0, 0, 0];
  }

  // The word of the block with a given number.
  function WordOfAbc(k: nat): Sha256.Word {
    if k == 0 then 0x80636261 else if k == 14 then 24 else 0
  }

  lemma BlockWords(b: seq<Byte>, k: nat)
    requires IsAbcLow(b) && k < 16
    ensures GetWordLow(b, 4 * k) == WordOfAbc(k)
  {
    hide IsAbcLow;
    if k == 0 {
      LettersWord(b);
    } else if k == 14 {
      LengthWord(b);
    } else {
      ZeroWord(b, k);
    }
  }

  lemma LettersWord(b: seq<Byte>)
    requires IsAbcLow(b)
    ensures GetWordLow(b, 0) == 0x80636261
  {}

  lemma LengthWord(b: seq<Byte>)
    requires IsAbcLow(b)
    ensures GetWordLow(b, 56) == 24
  {}

  lemma ZeroWord(b: seq<Byte>, k: nat)
    requires IsAbcLow(b) && k < 16 && k != 0 && k != 14
    ensures GetWordLow(b, 4 * k) == 0
  {
    assert b[4 * k] == 0 && b[4 * k + 1] == 0 && b[4 * k + 2] == 0 && b[4 * k + 3] == 0;
  }

  lemma Table0()
    ensures Addend(0) == 0xD76AA478 && Addend(1) == 0xE8C7B756 && Addend(2) == 0x242070DB && Addend(3) == 0xC1BDCEEE
    ensures Addend(4) == 0xF57C0FAF && Addend(5) == 0x4787C62A && Addend(6) == 0xA8304613 && Addend(7) == 0xFD469501
    ensures Shift(0) == 7 && Shift(1) == 12 && Shift(2) == 17 && Shift(3) == 22
    ensures Shift(4) == 7 && Shift(5) == 12 && Shift(6) == 17 && Shift(7) == 22
    ensures Index(0) == 0 && Index(1) == 1 && Index(2) == 2 && Index(3) == 3
    ensures Index(4) == 4 && Index(5) == 5 && Index(6) == 6 && Index(7) == 7
  {}

  lemma Table1()
    ensures Addend(8) == 0x698098D8 && Addend(9) == 0x8B44F7AF && Addend(10) == 0xFFFF5BB1 && Addend(11) == 0x895CD7BE
    ensures Addend(12) == 0x6B901122 && Addend(13) == 0xFD987193 && Addend(14) == 0xA679438E && Addend(15) == 0x49B40821
    ensures Shift(8) == 7 && Shift(9) == 12 && Shift(10) == 17 && Shift(11) == 22
    ensures Shift(12) == 7 && Shift(13) == 12 && Shift(14) == 17 && Shift(15) == 22
    ensures Index(8) == 8 && Index(9) == 9 && Index(10) == 10 && Index(11) == 11
    ensures Index(12) == 12 && Index(13) == 13 && Index(14) == 14 && Index(15) == 15
  {}

  lemma Table2()
    ensures Addend(16) == 0xF61E2562 && Addend(17) == 0xC040B340 && Addend(18) == 0x265E5A51 && Addend(19) == 0xE9B6C7AA
    ensures Addend(20) == 0xD62F105D && Addend(21) == 0x02441453 && Addend(22) == 0xD8A1E681 && Addend(23) == 0xE7D3FBC8
    ensures Shift(16) == 5 && Shift(17) == 9 && Shift(18) == 14 && Shift(19) == 20
    ensures Shift(20) == 5 && Shift(21) == 9 && Shift(22) == 14 && Shift(23) == 20
    ensures Index(16) == 1 && Index(17) == 6 && Index(18) == 11 && Index(19) == 0
    ensures Index(20) == 5 && Index(21) == 10 && Index(22) == 15 && Index(23) == 4
  {}

  lemma Table3()
    ensures Addend(24) == 0x21E1CDE6 && Addend(25) == 0xC33707D6 && Addend(26) == 0xF4D50D87 && Addend(27) == 0x455A14ED
    ensures Addend(28) == 0xA9E3E905 && Addend(29) == 0xFCEFA3F8 && Addend(30) == 0x676F02D9 && Addend(31) == 0x8D2A4C8A
    ensures Shift(24) == 5 && Shift(25) == 9 && Shift(26) == 14 && Shift(27) == 20
    ensures Shift(28) == 5 && Shift(29) == 9 && Shift(30) == 14 && Shift(31) == 20
    ensures Index(24) == 9 && Index(25) == 14 && Index(26) == 3 && Index(27) == 8
    ensures Index(28) == 13 && Index(29) == 2 && Index(30) == 7 && Index(31) == 12
  {}

  lemma Table4()
    ensures Addend(32) == 0xFFFA3942 && Addend(33) == 0x8771F681 && Addend(34) == 0x6D9D6122 && Addend(35) == 0xFDE5380C
    ensures Addend(36) == 0xA4BEEA44 && Addend(37) == 0x4BDECFA9 && Addend(38) == 0xF6BB4B60 && Addend(39) == 0xBEBFBC70
    ensures Shift(32) == 4 && Shift(33) == 11 && Shift(34) == 16 && Shift(35) == 23
    ensures Shift(36) == 4 && Shift(37) == 11 && Shift(38) == 16 && Shift(39) == 23
    ensures Index(32) == 5 && Index(33) == 8 && Index(34) == 11 && Index(35) == 14
    ensures Index(36) == 1 && Index(37) == 4 && Index(38) == 7 && Index(39) == 10
  {}

  lemma Table5()
    ensures Addend(40) == 0x289B7EC6 && Addend(41) == 0xEAA127FA && Addend(42) == 0xD4EF3085 && Addend(43) == 0x04881D05
    ensures Addend(44) == 0xD9D4D039 && Addend(45) == 0xE6DB99E5 && Addend(46) == 0x1FA27CF8 && Addend(47) == 0xC4AC5665
    ensures Shift(40) == 4 && Shift(41) == 11 && Shift(42) == 16 && Shift(43) == 23
    ensures Shift(44) == 4 && Shift(45) == 11 && Shift(46) == 16 && Shift(47) == 23
    ensures Index(40) == 13 && Index(41) == 0 && Index(42) == 3 && Index(43) == 6
    ensures Index(44) == 9 && Index(45) == 12 && Index(46) == 15 && Index(47) == 2
  {}

  lemma Table6()
    ensures Addend(48) == 0xF4292244 && Addend(49) == 0x432AFF97 && Addend(50) == 0xAB9423A7 && Addend(51) == 0xFC93A039
    ensures Addend(52) == 0x655B59C3 && Addend(53) == 0x8F0CCC92 && Addend(54) == 0xFFEFF47D && Addend(55) == 0x85845DD1
    ensures Shift(48) == 6 && Shift(49) == 10 && Shift(50) == 15 && Shift(51) == 21
    ensures Shift(52) == 6 && Shift(53) == 10 && Shift(54) == 15 && Shift(55) == 21
    ensures Index(48) == 0 && Index(49) == 7 && Index(50) == 14 && Index(51) == 5
    ensures Index(52) == 12 && Index(53) == 3 && Index(54) == 10 && Index(55) == 1
  {}

  lemma Table7()
    ensures Addend(56) == 0x6FA87E4F && Addend(57) == 0xFE2CE6E0 && Addend(58) == 0xA3014314 && Addend(59) == 0x4E0811A1
    ensures Addend(60) == 0xF7537E82 && Addend(61) == 0xBD3AF235 && Addend(62) == 0x2AD7D2BB && Addend(63) == 0xEB86D391
    ensures Shift(56) == 6 && Shift(57) == 10 && Shift(58) == 15 && Shift(59) == 21
    ensures Shift(60) == 6 && Shift(61) == 10 && Shift(62) == 15 && Shift(63) == 21
    ensures Index(56) == 8 && Index(57) == 15 && Index(58) == 6 && Index(59) == 13
    ensures Index(60) == 4 && Index(61) == 11 && Index(62) == 2 && Index(63) == 9
  {}

  // One operation: one of the four variables is new.
  lemma NextOperation(b: seq<Byte>, t: nat, s: State, k: nat, add: Sha256.Word, shift: Sha256.Word, n: Sha256.Word)
    returns (next: State)
    requires IsAbcLow(b) && t < 64 && Operations(INITIAL, b, t) == s && Index(t) == k < 16 && Addend(t) == add
    requires Shift(t) == shift && 0 < shift < 32
    requires Sha256.Plus(s.b, Sha1.RotateLeft(Total(s.a, Mix(t, s.b, s.c, s.d), WordOfAbc(k), add), shift)) == n
    ensures next == State(s.d, n, s.b, s.c) == Operations(INITIAL, b, t + 1)
  {
    OperationsUnfold(INITIAL, b, t);
    BlockWords(b, k);
    hide Operations, Index, GetWordLow, WordOfAbc, IsAbcLow, Shift, Addend, Mix;
    next := Operation(s, t, WordOfAbc(k));
  }

  function Total(a: Sha256.Word, m: Sha256.Word, x: Sha256.Word, k: Sha256.Word): Sha256.Word {
    Sha256.Plus(Sha256.Plus(Sha256.Plus(a, m), x), k)
  }

  predicate OperationsOf(b: seq<Byte>, g: nat, s: State)
    requires |b| == BLOCK && g <= 8
  {
    Operations(INITIAL, b, 8 * g) == s
  }

  lemma Operations0(b: seq<Byte>)
    requires |b| == BLOCK && IsAbcLow(b) && OperationsOf(b, 0, State(0x67452301, 0xEFCDAB89, 0x98BADCFE, 0x10325476))
    ensures OperationsOf(b, 1, State(0xC73741EF, 0x928D99F6, 0x207DC67B, 0x8BAC3051))
  {
    Table0();
    hide Operations, Addend, Shift, Index, IsAbcLow;
    var s := Operations(INITIAL, b, 0);
    s := NextOperation(b, 0, s, 0, 0xD76AA478, 7, 0xD6D117B4);
    s := NextOperation(b, 1, s, 1, 0xE8C7B756, 12, 0x344A8432);
    s := NextOperation(b, 2, s, 2, 0x242070DB, 17, 0x2F6FBD72);
    s := NextOperation(b, 3, s, 3, 0xC1BDCEEE, 22, 0x7AD956F2);
    s := NextOperation(b, 4, s, 4, 0xF57C0FAF, 7, 0xC73741EF);
    s := NextOperation(b, 5, s, 5, 0x4787C62A, 12, 0x8BAC3051);
    s := NextOperation(b, 6, s, 6, 0xA8304613, 17, 0x207DC67B);
    s := NextOperation(b, 7, s, 7, 0xFD469501, 22, 0x928D99F6);
  }

  lemma Operations1(b: seq<Byte>)
    requires |b| == BLOCK && IsAbcLow(b) && OperationsOf(b, 1, State(0xC73741EF, 0x928D99F6, 0x207DC67B, 0x8BAC3051))
    ensures OperationsOf(b, 2, State(0xDDA9B9A6, 0x72AFF2E0, 0xE396856B, 0xA1051895))
  {
    Table1();
    hide Operations, Addend, Shift, Index, IsAbcLow;
    var s := Operations(INITIAL, b, 8);
    s := NextOperation(b, 8, s, 8, 0x698098D8, 7, 0x854B3712);
    s := NextOperation(b, 9, s, 9, 0x8B44F7AF, 12, 0x74E2F284);
    s := NextOperation(b, 10, s, 10, 0xFFFF5BB1, 17, 0x3020401C);
    s := NextOperation(b, 11, s, 11, 0x895CD7BE, 22, 0x5ED49596);
    s := NextOperation(b, 12, s, 12, 0x6B901122, 7, 0xDDA9B9A6);
    s := NextOperation(b, 13, s, 13, 0xFD987193, 12, 0xA1051895);
    s := NextOperation(b, 14, s, 14, 0xA679438E, 17, 0xE396856B);
    s := NextOperation(b, 15, s, 15, 0x49B40821, 22, 0x72AFF2E0);
  }

  lemma Operations2(b: seq<Byte>)
    requires |b| == BLOCK && IsAbcLow(b) && OperationsOf(b, 2, State(0xDDA9B9A6, 0x72AFF2E0, 0xE396856B, 0xA1051895))
    ensures OperationsOf(b, 3, State(0x59A8FFDA, 0x47092C07, 0xABFC7920, 0x6D002F1E))
  {
    Table2();
    hide Operations, Addend, Shift, Index, IsAbcLow;
    var s := Operations(INITIAL, b, 16);
    s := NextOperation(b, 16, s, 1, 0xF61E2562, 5, 0x3E9E9126);
    s := NextOperation(b, 17, s, 6, 0xC040B340, 9, 0x4A1D804E);
    s := NextOperation(b, 18, s, 11, 0x265E5A51, 14, 0xE25E1652);
    s := NextOperation(b, 19, s, 0, 0xE9B6C7AA, 20, 0xB5B204E4);
    s := NextOperation(b, 20, s, 5, 0xD62F105D, 5, 0x59A8FFDA);
    s := NextOperation(b, 21, s, 10, 0x02441453, 9, 0x6D002F1E);
    s := NextOperation(b, 22, s, 15, 0xD8A1E681, 14, 0xABFC7920);
    s := NextOperation(b, 23, s, 4, 0xE7D3FBC8, 20, 0x47092C07);
  }

  lemma Operations3(b: seq<Byte>)
    requires |b| == BLOCK && IsAbcLow(b) && OperationsOf(b, 3, State(0x59A8FFDA, 0x47092C07, 0xABFC7920, 0x6D002F1E))
    ensures OperationsOf(b, 4, State(0x790A77FB, 0x726342D3, 0xA62884AA, 0x9F47E4F8))
  {
    Table3();
    hide Operations, Addend, Shift, Index, IsAbcLow;
    var s := Operations(INITIAL, b, 24);
    s := NextOperation(b, 24, s, 9, 0x21E1CDE6, 5, 0xB7F268CF);
    s := NextOperation(b, 25, s, 14, 0xC33707D6, 9, 0x09388EFF);
    s := NextOperation(b, 26, s, 3, 0xF4D50D87, 14, 0xFE1623B1);
    s := NextOperation(b, 27, s, 8, 0x455A14ED, 20, 0x786ACB8F);
    s := NextOperation(b, 28, s, 13, 0xA9E3E905, 5, 0x790A77FB);
    s := NextOperation(b, 29, s, 2, 0xFCEFA3F8, 9, 0x9F47E4F8);
    s := NextOperation(b, 30, s, 7, 0x676F02D9, 14, 0xA62884AA);
    s := NextOperation(b, 31, s, 12, 0x8D2A4C8A, 20, 0x726342D3);
  }

  lemma Operations4(b: seq<Byte>)
    requires |b| == BLOCK && IsAbcLow(b) && OperationsOf(b, 4, State(0x790A77FB, 0x726342D3, 0xA62884AA, 0x9F47E4F8))
    ensures OperationsOf(b, 5, State(0x21B117B9, 0x5A2F5EA5, 0x3575227E, 0x6E7429D5))
  {
    Table4();
    hide Operations, Addend, Shift, Index, IsAbcLow;
    var s := Operations(INITIAL, b, 32);
    s := NextOperation(b, 32, s, 5, 0xFFFA3942, 4, 0xB3707EBF);
    s := NextOperation(b, 33, s, 8, 0x8771F681, 11, 0x60127B2E);
    s := NextOperation(b, 34, s, 11, 0x6D9D6122, 16, 0x8D212FF5);
    s := NextOperation(b, 35, s, 14, 0xFDE5380C, 23, 0x3B0875C7);
    s := NextOperation(b, 36, s, 1, 0xA4BEEA44, 4, 0x21B117B9);
    s := NextOperation(b, 37, s, 4, 0x4BDECFA9, 11, 0x6E7429D5);
    s := NextOperation(b, 38, s, 7, 0xF6BB4B60, 16, 0x3575227E);
    s := NextOperation(b, 39, s, 10, 0xBEBFBC70, 23, 0x5A2F5EA5);
  }

  lemma Operations5(b: seq<Byte>)
    requires |b| == BLOCK && IsAbcLow(b) && OperationsOf(b, 5, State(0x21B117B9, 0x5A2F5EA5, 0x3575227E, 0x6E7429D5))
    ensures OperationsOf(b, 6, State(0x7F2E507B, 0x7BEB9700, 0x8FAE6399, 0x99D9679D))
  {
    Table5();
    hide Operations, Addend, Shift, Index, IsAbcLow;
    var s := Operations(INITIAL, b, 40);
    s := NextOperation(b, 40, s, 13, 0x289B7EC6, 4, 0x11DE1779);
    s := NextOperation(b, 41, s, 0, 0xEAA127FA, 11, 0xFADCAA38);
    s := NextOperation(b, 42, s, 3, 0xD4EF3085, 16, 0x31C465CA);
    s := NextOperation(b, 43, s, 6, 0x04881D05, 23, 0x4C6124F4);
    s := NextOperation(b, 44, s, 9, 0xD9D4D039, 4, 0x7F2E507B);
    s := NextOperation(b, 45, s, 12, 0xE6DB99E5, 11, 0x99D9679D);
    s := NextOperation(b, 46, s, 15, 0x1FA27CF8, 16, 0x8FAE6399);
    s := NextOperation(b, 47, s, 2, 0xC4AC5665, 23, 0x7BEB9700);
  }

  lemma Operations6(b: seq<Byte>)
    requires |b| == BLOCK && IsAbcLow(b) && OperationsOf(b, 6, State(0x7F2E507B, 0x7BEB9700, 0x8FAE6399, 0x99D9679D))
    ensures OperationsOf(b, 7, State(0x06CC5E8A, 0x3BFA2C27, 0x7D632DD0, 0x5B0D97AA))
  {
    Table6();
    hide Operations, Addend, Shift, Index, IsAbcLow;
    var s := Operations(INITIAL, b, 48);
    s := NextOperation(b, 48, s, 0, 0xF4292244, 6, 0x7B201DF8);
    s := NextOperation(b, 49, s, 7, 0x432AFF97, 10, 0xF4E8E96E);
    s := NextOperation(b, 50, s, 14, 0xAB9423A7, 15, 0xB298CEFD);
    s := NextOperation(b, 51, s, 5, 0xFC93A039, 21, 0x8BF025C4);
    s := NextOperation(b, 52, s, 12, 0x655B59C3, 6, 0x06CC5E8A);
    s := NextOperation(b, 53, s, 3, 0x8F0CCC92, 10, 0x5B0D97AA);
    s := NextOperation(b, 54, s, 10, 0xFFEFF47D, 15, 0x7D632DD0);
    s := NextOperation(b, 55, s, 1, 0x85845DD1, 21, 0x3BFA2C27);
  }

  lemma Operations7(b: seq<Byte>)
    requires |b| == BLOCK && IsAbcLow(b) && OperationsOf(b, 7, State(0x06CC5E8A, 0x3BFA2C27, 0x7D632DD0, 0x5B0D97AA))
    ensures OperationsOf(b, 8, State(0x310ADE8F, 0xC08226B3, 0xE484B9D8, 0x624D8CB2))
  {
    Table7();
    hide Operations, Addend, Shift, Index, IsAbcLow;
    var s := Operations(INITIAL, b, 56);
    s := NextOperation(b, 56, s, 8, 0x6FA87E4F, 6, 0x7F81CC35);
    s := NextOperation(b, 57, s, 15, 0xFE2CE6E0, 10, 0x094454AB);
    s := NextOperation(b, 58, s, 6, 0xA3014314, 15, 0x4F9DBE3F);
    s := NextOperation(b, 59, s, 13, 0x4E0811A1, 21, 0x7327D604);
    s := NextOperation(b, 60, s, 4, 0xF7537E82, 6, 0x310ADE8F);
    s := NextOperation(b, 61, s, 11, 0xBD3AF235, 10, 0x624D8CB2);
    s := NextOperation(b, 62, s, 2, 0x2AD7D2BB, 15, 0xE484B9D8);
    s := NextOperation(b, 63, s, 9, 0xEB86D391, 21, 0xC08226B3);
  }

  lemma LastOperations(b: seq<Byte>)
    requires IsAbcLow(b) && OperationsOf(b, 0, INITIAL)
    ensures OperationsOf(b, 8, State(0x310ADE8F, 0xC08226B3, 0xE484B9D8, 0x624D8CB2))
  {
    hide OperationsOf;
    Operations0(b); Operations1(b); Operations2(b); Operations3(b);
    Operations4(b); Operations5(b); Operations6(b); Operations7(b);
  }

  lemma CompressedAbcLow(b: seq<Byte>)
    requires IsAbcLow(b)
    ensures Compress(INITIAL, b) == State(0x98500190, 0xB04FD23C, 0x7D3F96D6, 0x727FE128)
  {
    OperationsUnfold(INITIAL, b, 0);
    assert OperationsOf(b, 0, INITIAL);
    LastOperations(b);
    hide Operations, IsAbcLow;
  }

  lemma OneBlock(m: seq<Byte>)
    requires |m| == BLOCK
    ensures Fold(Compress, INITIAL, m) == Compress(INITIAL, m)
  {
    hide Compress;
    assert m[..BLOCK] == m && m[BLOCK..] == [];
  }

  lemma WordBytesLow(w: Sha256.Word, n: nat, b0: Byte, b1: Byte, b2: Byte, b3: Byte)
    requires w as nat == n == b3 * 0x100_0000 + b2 * 0x1_0000 + b1 * 0x100 + b0
    ensures PutWordLow(w) == [b0, b1, b2, b3]
  {
    hide LittleEndian;
    LowBytes(n, b0, b1, b2, b3);
  }

  lemma LowBytes(n: nat, b0: Byte, b1: Byte, b2: Byte, b3: Byte)
    requires n == b3 * 0x100_0000 + b2 * 0x1_0000 + b1 * 0x100 + b0
    ensures LittleEndian(n, 4) == [b0, b1, b2, b3]
  {
    hide LittleEndian;
    NoBytes();
    LowByte(n, b3 * 0x1_0000 + b2 * 0x100 + b1, b0, 3);
    LowByte(b3 * 0x1_0000 + b2 * 0x100 + b1, b3 * 0x100 + b2, b1, 2);
    LowByte(b3 * 0x100 + b2, b3, b2, 1);
    LowByte(b3, 0, b3, 0);
  }

  lemma NoBytes()
    ensures LittleEndian(0, 0) == []
  {}

  lemma LowByte(n: nat, q: nat, r: Byte, count: nat)
    requires n == q * 256 + r
    ensures LittleEndian(n, count + 1) == [r] + LittleEndian(q, count)
  {
    DivMod(n, 256, q, r);
  }

  lemma DigestBytesLow(s: State)
    requires s == State(0x98500190, 0xB04FD23C, 0x7D3F96D6, 0x727FE128)
    ensures Output(s) == [0x90, 0x01, 0x50, 0x98, 0x3C, 0xD2, 0x4F, 0xB0, 0xD6, 0x96, 0x3F, 0x7D, 0x28, 0xE1, 0x7F, 0x72]
  {
    hide PutWordLow;
    WordBytesLow(0x98500190, 0x98500190, 0x90, 0x01, 0x50, 0x98);
    WordBytesLow(0xB04FD23C, 0xB04FD23C, 0x3C, 0xD2, 0x4F, 0xB0);
    WordBytesLow(0x7D3F96D6, 0x7D3F96D6, 0xD6, 0x96, 0x3F, 0x7D);
    WordBytesLow(0x727FE128, 0x727FE128, 0x28, 0xE1, 0x7F, 0x72);
  }

  // The digest of "abc" is the published one.
  lemma HashOfAbc()
    ensures Hash(ABC) == [0x90, 0x01, 0x50, 0x98, 0x3C, 0xD2, 0x4F, 0xB0, 0xD6, 0x96, 0x3F, 0x7D, 0x28, 0xE1, 0x7F, 0x72]
  {
    PaddedAbcLow();
    var b := Padded(ABC, false);
    CompressedAbcLow(b);
    OneBlock(b);
    hide *;
    DigestBytesLow(Compress(INITIAL, b));
  }
}
