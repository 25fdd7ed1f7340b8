// Known answers of FIPS 197: the S-box of figure 7, key expansions of Appendix A and the
// example of Appendix C.1.  They tie the definitions to numbers that are published.
module AesVectors {
  import opened GaloisField
  import opened Fips197
  import opened AesCipher

  // ---------- figure 7 (src/infra/infra_aes.c:63-97) ----------

  // The product, with the recursion of Mul written out.
  function Product(x: bv8, y: bv8): bv8 {
    var y1 := XTime(y); var y2 := XTime(y1); var y3 := XTime(y2); var y4 := XTime(y3);
    var y5 := XTime(y4); var y6 := XTime(y5); var y7 := XTime(y6);
    Add(If(x & 1 != 0, y), Add(If(x & 2 != 0, y1), Add(If(x & 4 != 0, y2), Add(If(x & 8 != 0, y3),
        Add(If(x & 16 != 0, y4), Add(If(x & 32 != 0, y5), Add(If(x & 64 != 0, y6), Add(If(x & 128 != 0, y7), 0))))))))
  }

  // One entry of the S-box, by the inverse y of x.
  lemma Entry(x: bv8, y: bv8, s: bv8)
    requires x != 0 && Product(x, y) == 1 && Affine(y) == s
    ensures SBox(x) == s
  {
    hide Affine;
    MulFlat(x, y);
    InverseUnique(x, y);
  }

  lemma ZeroEntry()
    ensures SBox(0) == 0x63
  {}

  // The table that the source holds when it is built with INFRA_AES_ROM_TABLES is the S-box.
  lemma SBoxTable()
    ensures SBox(0x00) == 0x63 && SBox(0x01) == 0x7C && SBox(0x02) == 0x77 && SBox(0x03) == 0x7B
         && SBox(0x04) == 0xF2 && SBox(0x05) == 0x6B && SBox(0x06) == 0x6F && SBox(0x07) == 0xC5
    ensures SBox(0x08) == 0x30 && SBox(0x09) == 0x01 && SBox(0x0A) == 0x67 && SBox(0x0B) == 0x2B
         && SBox(0x0C) == 0xFE && SBox(0x0D) == 0xD7 && SBox(0x0E) == 0xAB && SBox(0x0F) == 0x76
    ensures SBox(0x10) == 0xCA && SBox(0x11) == 0x82 && SBox(0x12) == 0xC9 && SBox(0x13) == 0x7D
         && SBox(0x14) == 0xFA && SBox(0x15) == 0x59 && SBox(0x16) == 0x47 && SBox(0x17) == 0xF0
    ensures SBox(0x18) == 0xAD && SBox(0x19) == 0xD4 && SBox(0x1A) == 0xA2 && SBox(0x1B) == 0xAF
         && SBox(0x1C) == 0x9C && SBox(0x1D) == 0xA4 && SBox(0x1E) == 0x72 && SBox(0x1F) == 0xC0
    ensures SBox(0x20) == 0xB7 && SBox(0x21) == 0xFD && SBox(0x22) == 0x93 && SBox(0x23) == 0x26
         && SBox(0x24) == 0x36 && SBox(0x25) == 0x3F && SBox(0x26) == 0xF7 && SBox(0x27) == 0xCC
    ensures SBox(0x28) == 0x34 && SBox(0x29) == 0xA5 && SBox(0x2A) == 0xE5 && SBox(0x2B) == 0xF1
         && SBox(0x2C) == 0x71 && SBox(0x2D) == 0xD8 && SBox(0x2E) == 0x31 && SBox(0x2F) == 0x15
    ensures SBox(0x30) == 0x04 && SBox(0x31) == 0xC7 && SBox(0x32) == 0x23 && SBox(0x33) == 0xC3
         && SBox(0x34) == 0x18 && SBox(0x35) == 0x96 && SBox(0x36) == 0x05 && SBox(0x37) == 0x9A
    ensures SBox(0x38) == 0x07 && SBox(0x39) == 0x12 && SBox(0x3A) == 0x80 && SBox(0x3B) == 0xE2
         && SBox(0x3C) == 0xEB && SBox(0x3D) == 0x27 && SBox(0x3E) == 0xB2 && SBox(0x3F) == 0x75
    ensures SBox(0x40) == 0x09 && SBox(0x41) == 0x83 && SBox(0x42) == 0x2C && SBox(0x43) == 0x1A
         && SBox(0x44) == 0x1B && SBox(0x45) == 0x6E && SBox(0x46) == 0x5A && SBox(0x47) == 0xA0
    ensures SBox(0x48) == 0x52 && SBox(0x49) == 0x3B && SBox(0x4A) == 0xD6 && SBox(0x4B) == 0xB3
         && SBox(0x4C) == 0x29 && SBox(0x4D) == 0xE3 && SBox(0x4E) == 0x2F && SBox(0x4F) == 0x84
    ensures SBox(0x50) == 0x53 && SBox(0x51) == 0xD1 && SBox(0x52) == 0x00 && SBox(0x53) == 0xED
         && SBox(0x54) == 0x20 && SBox(0x55) == 0xFC && SBox(0x56) == 0xB1 && SBox(0x57) == 0x5B
    ensures SBox(0x58) == 0x6A && SBox(0x59) == 0xCB && SBox(0x5A) == 0xBE && SBox(0x5B) == 0x39
         && SBox(0x5C) == 0x4A && SBox(0x5D) == 0x4C && SBox(0x5E) == 0x58 && SBox(0x5F) == 0xCF
    ensures SBox(0x60) == 0xD0 && SBox(0x61) == 0xEF && SBox(0x62) == 0xAA && SBox(0x63) == 0xFB
         && SBox(0x64) == 0x43 && SBox(0x65) == 0x4D && SBox(0x66) == 0x33 && SBox(0x67) == 0x85
    ensures SBox(0x68) == 0x45 && SBox(0x69) == 0xF9 && SBox(0x6A) == 0x02 && SBox(0x6B) == 0x7F
         && SBox(0x6C) == 0x50 && SBox(0x6D) == 0x3C && SBox(0x6E) == 0x9F && SBox(0x6F) == 0xA8
    ensures SBox(0x70) == 0x51 && SBox(0x71) == 0xA3 && SBox(0x72) == 0x40 && SBox(0x73) == 0x8F
         && SBox(0x74) == 0x92 && SBox(0x75) == 0x9D && SBox(0x76) == 0x38 && SBox(0x77) == 0xF5
    ensures SBox(0x78) == 0xBC && SBox(0x79) == 0xB6 && SBox(0x7A) == 0xDA && SBox(0x7B) == 0x21
         && SBox(0x7C) == 0x10 && SBox(0x7D) == 0xFF && SBox(0x7E) == 0xF3 && SBox(0x7F) == 0xD2
    ensures SBox(0x80) == 0xCD && SBox(0x81) == 0x0C && SBox(0x82) == 0x13 && SBox(0x83) == 0xEC
         && SBox(0x84) == 0x5F && SBox(0x85) == 0x97 && SBox(0x86) == 0x44 && SBox(0x87) == 0x17
    ensures SBox(0x88) == 0xC4 && SBox(0x89) == 0xA7 && SBox(0x8A) == 0x7E && SBox(0x8B) == 0x3D
         && SBox(0x8C) == 0x64 && SBox(0x8D) == 0x5D && SBox(0x8E) == 0x19 && SBox(0x8F) == 0x73
    ensures SBox(0x90) == 0x60 && SBox(0x91) == 0x81 && SBox(0x92) == 0x4F && SBox(0x93) == 0xDC
         && SBox(0x94) == 0x22 && SBox(0x95) == 0x2A && SBox(0x96) == 0x90 && SBox(0x97) == 0x88
    ensures SBox(0x98) == 0x46 && SBox(0x99) == 0xEE && SBox(0x9A) == 0xB8 && SBox(0x9B) == 0x14
         && SBox(0x9C) == 0xDE && SBox(0x9D) == 0x5E && SBox(0x9E) == 0x0B && SBox(0x9F) == 0xDB
    ensures SBox(0xA0) == 0xE0 && SBox(0xA1) == 0x32 && SBox(0xA2) == 0x3A && SBox(0xA3) == 0x0A
         && SBox(0xA4) == 0x49 && SBox(0xA5) == 0x06 && SBox(0xA6) == 0x24 && SBox(0xA7) == 0x5C
    ensures SBox(0xA8) == 0xC2 && SBox(0xA9) == 0xD3 && SBox(0xAA) == 0xAC && SBox(0xAB) == 0x62
         && SBox(0xAC) == 0x91 && SBox(0xAD) == 0x95 && SBox(0xAE) == 0xE4 && SBox(0xAF) == 0x79
    ensures SBox(0xB0) == 0xE7 && SBox(0xB1) == 0xC8 && SBox(0xB2) == 0x37 && SBox(0xB3) == 0x6D
         && SBox(0xB4) == 0x8D && SBox(0xB5) == 0xD5 && SBox(0xB6) == 0x4E && SBox(0xB7) == 0xA9
    ensures SBox(0xB8) == 0x6C && SBox(0xB9) == 0x56 && SBox(0xBA) == 0xF4 && SBox(0xBB) == 0xEA
         && SBox(0xBC) == 0x65 && SBox(0xBD) == 0x7A && SBox(0xBE) == 0xAE && SBox(0xBF) == 0x08
    ensures SBox(0xC0) == 0xBA && SBox(0xC1) == 0x78 && SBox(0xC2) == 0x25 && SBox(0xC3) == 0x2E
         && SBox(0xC4) == 0x1C && SBox(0xC5) == 0xA6 && SBox(0xC6) == 0xB4 && SBox(0xC7) == 0xC6
    ensures SBox(0xC8) == 0xE8 && SBox(0xC9) == 0xDD && SBox(0xCA) == 0x74 && SBox(0xCB) == 0x1F
         && SBox(0xCC) == 0x4B && SBox(0xCD) == 0xBD && SBox(0xCE) == 0x8B && SBox(0xCF) == 0x8A
    ensures SBox(0xD0) == 0x70 && SBox(0xD1) == 0x3E && SBox(0xD2) == 0xB5 && SBox(0xD3) == 0x66
         && SBox(0xD4) == 0x48 && SBox(0xD5) == 0x03 && SBox(0xD6) == 0xF6 && SBox(0xD7) == 0x0E
    ensures SBox(0xD8) == 0x61 && SBox(0xD9) == 0x35 && SBox(0xDA) == 0x57 && SBox(0xDB) == 0xB9
         && SBox(0xDC) == 0x86 && SBox(0xDD) == 0xC1 && SBox(0xDE) == 0x1D && SBox(0xDF) == 0x9E
    ensures SBox(0xE0) == 0xE1 && SBox(0xE1) == 0xF8 && SBox(0xE2) == 0x98 && SBox(0xE3) == 0x11
         && SBox(0xE4) == 0x69 && SBox(0xE5) == 0xD9 && SBox(0xE6) == 0x8E && SBox(0xE7) == 0x94
    ensures SBox(0xE8) == 0x9B && SBox(0xE9) == 0x1E && SBox(0xEA) == 0x87 && SBox(0xEB) == 0xE9
         && SBox(0xEC) == 0xCE && SBox(0xED) == 0x55 && SBox(0xEE) == 0x28 && SBox(0xEF) == 0xDF
    ensures SBox(0xF0) == 0x8C && SBox(0xF1) == 0xA1 && SBox(0xF2) == 0x89 && SBox(0xF3) == 0x0D
         && SBox(0xF4) == 0xBF && SBox(0xF5) == 0xE6 && SBox(0xF6) == 0x42 && SBox(0xF7) == 0x68
    ensures SBox(0xF8) == 0x41 && SBox(0xF9) == 0x99 && SBox(0xFA) == 0x2D && SBox(0xFB) == 0x0F
         && SBox(0xFC) == 0xB0 && SBox(0xFD) == 0x54 && SBox(0xFE) == 0xBB && SBox(0xFF) == 0x16
  {
    hide SBox;
    Line0(); Line1(); Line2(); Line3(); Line4(); Line5(); Line6(); Line7();
    Line8(); Line9(); Line10(); Line11(); Line12(); Line13(); Line14(); Line15();
    Line16(); Line17(); Line18(); Line19(); Line20(); Line21(); Line22(); Line23();
    Line24(); Line25(); Line26(); Line27(); Line28(); Line29(); Line30(); Line31();
  }

  lemma Line0()
    ensures SBox(0x00) == 0x63 && SBox(0x01) == 0x7C && SBox(0x02) == 0x77 && SBox(0x03) == 0x7B
         && SBox(0x04) == 0xF2 && SBox(0x05) == 0x6B && SBox(0x06) == 0x6F && SBox(0x07) == 0xC5
  {
    hide SBox;
    ZeroEntry(); Entry(0x01, 0x01, 0x7C); Entry(0x02, 0x8D, 0x77); Entry(0x03, 0xF6, 0x7B);
    Entry(0x04, 0xCB, 0xF2); Entry(0x05, 0x52, 0x6B); Entry(0x06, 0x7B, 0x6F); Entry(0x07, 0xD1, 0xC5);
  }

  lemma Line1()
    ensures SBox(0x08) == 0x30 && SBox(0x09) == 0x01 && SBox(0x0A) == 0x67 && SBox(0x0B) == 0x2B
         && SBox(0x0C) == 0xFE && SBox(0x0D) == 0xD7 && SBox(0x0E) == 0xAB && SBox(0x0F) == 0x76
  {
    hide SBox;
    Entry(0x08, 0xE8, 0x30); Entry(0x09, 0x4F, 0x01); Entry(0x0A, 0x29, 0x67); Entry(0x0B, 0xC0, 0x2B);
    Entry(0x0C, 0xB0, 0xFE); Entry(0x0D, 0xE1, 0xD7); Entry(0x0E, 0xE5, 0xAB); Entry(0x0F, 0xC7, 0x76);
  }

  lemma Line2()
    ensures SBox(0x10) == 0xCA && SBox(0x11) == 0x82 && SBox(0x12) == 0xC9 && SBox(0x13) == 0x7D
         && SBox(0x14) == 0xFA && SBox(0x15) == 0x59 && SBox(0x16) == 0x47 && SBox(0x17) == 0xF0
  {
    hide SBox;
    Entry(0x10, 0x74, 0xCA); Entry(0x11, 0xB4, 0x82); Entry(0x12, 0xAA, 0xC9); Entry(0x13, 0x4B, 0x7D);
    Entry(0x14, 0x99, 0xFA); Entry(0x15, 0x2B, 0x59); Entry(0x16, 0x60, 0x47); Entry(0x17, 0x5F, 0xF0);
  }

  lemma Line3()
    ensures SBox(0x18) == 0xAD && SBox(0x19) == 0xD4 && SBox(0x1A) == 0xA2 && SBox(0x1B) == 0xAF
         && SBox(0x1C) == 0x9C && SBox(0x1D) == 0xA4 && SBox(0x1E) == 0x72 && SBox(0x1F) == 0xC0
  {
    hide SBox;
    Entry(0x18, 0x58, 0xAD); Entry(0x19, 0x3F, 0xD4); Entry(0x1A, 0xFD, 0xA2); Entry(0x1B, 0xCC, 0xAF);
    Entry(0x1C, 0xFF, 0x9C); Entry(0x1D, 0x40, 0xA4); Entry(0x1E, 0xEE, 0x72); Entry(0x1F, 0xB2, 0xC0);
  }

  lemma Line4()
    ensures SBox(0x20) == 0xB7 && SBox(0x21) == 0xFD && SBox(0x22) == 0x93 && SBox(0x23) == 0x26
         && SBox(0x24) == 0x36 && SBox(0x25) == 0x3F && SBox(0x26) == 0xF7 && SBox(0x27) == 0xCC
  {
    hide SBox;
    Entry(0x20, 0x3A, 0xB7); Entry(0x21, 0x6E, 0xFD); Entry(0x22, 0x5A, 0x93); Entry(0x23, 0xF1, 0x26);
    Entry(0x24, 0x55, 0x36); Entry(0x25, 0x4D, 0x3F); Entry(0x26, 0xA8, 0xF7); Entry(0x27, 0xC9, 0xCC);
  }

  lemma Line5()
    ensures SBox(0x28) == 0x34 && SBox(0x29) == 0xA5 && SBox(0x2A) == 0xE5 && SBox(0x2B) == 0xF1
         && SBox(0x2C) == 0x71 && SBox(0x2D) == 0xD8 && SBox(0x2E) == 0x31 && SBox(0x2F) == 0x15
  {
    hide SBox;
    Entry(0x28, 0xC1, 0x34); Entry(0x29, 0x0A, 0xA5); Entry(0x2A, 0x98, 0xE5); Entry(0x2B, 0x15, 0xF1);
    Entry(0x2C, 0x30, 0x71); Entry(0x2D, 0x44, 0xD8); Entry(0x2E, 0xA2, 0x31); Entry(0x2F, 0xC2, 0x15);
  }

  lemma Line6()
    ensures SBox(0x30) == 0x04 && SBox(0x31) == 0xC7 && SBox(0x32) == 0x23 && SBox(0x33) == 0xC3
         && SBox(0x34) == 0x18 && SBox(0x35) == 0x96 && SBox(0x36) == 0x05 && SBox(0x37) == 0x9A
  {
    hide SBox;
    Entry(0x30, 0x2C, 0x04); Entry(0x31, 0x45, 0xC7); Entry(0x32, 0x92, 0x23); Entry(0x33, 0x6C, 0xC3);
    Entry(0x34, 0xF3, 0x18); Entry(0x35, 0x39, 0x96); Entry(0x36, 0x66, 0x05); Entry(0x37, 0x42, 0x9A);
  }

  lemma Line7()
    ensures SBox(0x38) == 0x07 && SBox(0x39) == 0x12 && SBox(0x3A) == 0x80 && SBox(0x3B) == 0xE2
         && SBox(0x3C) == 0xEB && SBox(0x3D) == 0x27 && SBox(0x3E) == 0xB2 && SBox(0x3F) == 0x75
  {
    hide SBox;
    Entry(0x38, 0xF2, 0x07); Entry(0x39, 0x35, 0x12); Entry(0x3A, 0x20, 0x80); Entry(0x3B, 0x6F, 0xE2);
    Entry(0x3C, 0x77, 0xEB); Entry(0x3D, 0xBB, 0x27); Entry(0x3E, 0x59, 0xB2); Entry(0x3F, 0x19, 0x75);
  }

  lemma Line8()
    ensures SBox(0x40) == 0x09 && SBox(0x41) == 0x83 && SBox(0x42) == 0x2C && SBox(0x43) == 0x1A
         && SBox(0x44) == 0x1B && SBox(0x45) == 0x6E && SBox(0x46) == 0x5A && SBox(0x47) == 0xA0
  {
    hide SBox;
    Entry(0x40, 0x1D, 0x09); Entry(0x41, 0xFE, 0x83); Entry(0x42, 0x37, 0x2C); Entry(0x43, 0x67, 0x1A);
    Entry(0x44, 0x2D, 0x1B); Entry(0x45, 0x31, 0x6E); Entry(0x46, 0xF5, 0x5A); Entry(0x47, 0x69, 0xA0);
  }

  lemma Line9()
    ensures SBox(0x48) == 0x52 && SBox(0x49) == 0x3B && SBox(0x4A) == 0xD6 && SBox(0x4B) == 0xB3
         && SBox(0x4C) == 0x29 && SBox(0x4D) == 0xE3 && SBox(0x4E) == 0x2F && SBox(0x4F) == 0x84
  {
    hide SBox;
    Entry(0x48, 0xA7, 0x52); Entry(0x49, 0x64, 0x3B); Entry(0x4A, 0xAB, 0xD6); Entry(0x4B, 0x13, 0xB3);
    Entry(0x4C, 0x54, 0x29); Entry(0x4D, 0x25, 0xE3); Entry(0x4E, 0xE9, 0x2F); Entry(0x4F, 0x09, 0x84);
  }

  lemma Line10()
    ensures SBox(0x50) == 0x53 && SBox(0x51) == 0xD1 && SBox(0x52) == 0x00 && SBox(0x53) == 0xED
         && SBox(0x54) == 0x20 && SBox(0x55) == 0xFC && SBox(0x56) == 0xB1 && SBox(0x57) == 0x5B
  {
    hide SBox;
    Entry(0x50, 0xED, 0x53); Entry(0x51, 0x5C, 0xD1); Entry(0x52, 0x05, 0x00); Entry(0x53, 0xCA, 0xED);
    Entry(0x54, 0x4C, 0x20); Entry(0x55, 0x24, 0xFC); Entry(0x56, 0x87, 0xB1); Entry(0x57, 0xBF, 0x5B);
  }

  lemma Line11()
    ensures SBox(0x58) == 0x6A && SBox(0x59) == 0xCB && SBox(0x5A) == 0xBE && SBox(0x5B) == 0x39
         && SBox(0x5C) == 0x4A && SBox(0x5D) == 0x4C && SBox(0x5E) == 0x58 && SBox(0x5F) == 0xCF
  {
    hide SBox;
    Entry(0x58, 0x18, 0x6A); Entry(0x59, 0x3E, 0xCB); Entry(0x5A, 0x22, 0xBE); Entry(0x5B, 0xF0, 0x39);
    Entry(0x5C, 0x51, 0x4A); Entry(0x5D, 0xEC, 0x4C); Entry(0x5E, 0x61, 0x58); Entry(0x5F, 0x17, 0xCF);
  }

  lemma Line12()
    ensures SBox(0x60) == 0xD0 && SBox(0x61) == 0xEF && SBox(0x62) == 0xAA && SBox(0x63) == 0xFB
         && SBox(0x64) == 0x43 && SBox(0x65) == 0x4D && SBox(0x66) == 0x33 && SBox(0x67) == 0x85
  {
    hide SBox;
    Entry(0x60, 0x16, 0xD0); Entry(0x61, 0x5E, 0xEF); Entry(0x62, 0xAF, 0xAA); Entry(0x63, 0xD3, 0xFB);
    Entry(0x64, 0x49, 0x43); Entry(0x65, 0xA6, 0x4D); Entry(0x66, 0x36, 0x33); Entry(0x67, 0x43, 0x85);
  }

  lemma Line13()
    ensures SBox(0x68) == 0x45 && SBox(0x69) == 0xF9 && SBox(0x6A) == 0x02 && SBox(0x6B) == 0x7F
         && SBox(0x6C) == 0x50 && SBox(0x6D) == 0x3C && SBox(0x6E) == 0x9F && SBox(0x6F) == 0xA8
  {
    hide SBox;
    Entry(0x68, 0xF4, 0x45); Entry(0x69, 0x47, 0xF9); Entry(0x6A, 0x91, 0x02); Entry(0x6B, 0xDF, 0x7F);
    Entry(0x6C, 0x33, 0x50); Entry(0x6D, 0x93, 0x3C); Entry(0x6E, 0x21, 0x9F); Entry(0x6F, 0x3B, 0xA8);
  }

  lemma Line14()
    ensures SBox(0x70) == 0x51 && SBox(0x71) == 0xA3 && SBox(0x72) == 0x40 && SBox(0x73) == 0x8F
         && SBox(0x74) == 0x92 && SBox(0x75) == 0x9D && SBox(0x76) == 0x38 && SBox(0x77) == 0xF5
  {
    hide SBox;
    Entry(0x70, 0x79, 0x51); Entry(0x71, 0xB7, 0xA3); Entry(0x72, 0x97, 0x40); Entry(0x73, 0x85, 0x8F);
    Entry(0x74, 0x10, 0x92); Entry(0x75, 0xB5, 0x9D); Entry(0x76, 0xBA, 0x38); Entry(0x77, 0x3C, 0xF5);
  }

  lemma Line15()
    ensures SBox(0x78) == 0xBC && SBox(0x79) == 0xB6 && SBox(0x7A) == 0xDA && SBox(0x7B) == 0x21
         && SBox(0x7C) == 0x10 && SBox(0x7D) == 0xFF && SBox(0x7E) == 0xF3 && SBox(0x7F) == 0xD2
  {
    hide SBox;
    Entry(0x78, 0xB6, 0xBC); Entry(0x79, 0x70, 0xB6); Entry(0x7A, 0xD0, 0xDA); Entry(0x7B, 0x06, 0x21);
    Entry(0x7C, 0xA1, 0x10); Entry(0x7D, 0xFA, 0xFF); Entry(0x7E, 0x81, 0xF3); Entry(0x7F, 0x82, 0xD2);
  }

  lemma Line16()
    ensures SBox(0x80) == 0xCD && SBox(0x81) == 0x0C && SBox(0x82) == 0x13 && SBox(0x83) == 0xEC
         && SBox(0x84) == 0x5F && SBox(0x85) == 0x97 && SBox(0x86) == 0x44 && SBox(0x87) == 0x17
  {
    hide SBox;
    Entry(0x80, 0x83, 0xCD); Entry(0x81, 0x7E, 0x0C); Entry(0x82, 0x7F, 0x13); Entry(0x83, 0x80, 0xEC);
    Entry(0x84, 0x96, 0x5F); Entry(0x85, 0x73, 0x97); Entry(0x86, 0xBE, 0x44); Entry(0x87, 0x56, 0x17);
  }

  lemma Line17()
    ensures SBox(0x88) == 0xC4 && SBox(0x89) == 0xA7 && SBox(0x8A) == 0x7E && SBox(0x8B) == 0x3D
         && SBox(0x8C) == 0x64 && SBox(0x8D) == 0x5D && SBox(0x8E) == 0x19 && SBox(0x8F) == 0x73
  {
    hide SBox;
    Entry(0x88, 0x9B, 0xC4); Entry(0x89, 0x9E, 0xA7); Entry(0x8A, 0x95, 0x7E); Entry(0x8B, 0xD9, 0x3D);
    Entry(0x8C, 0xF7, 0x64); Entry(0x8D, 0x02, 0x5D); Entry(0x8E, 0xB9, 0x19); Entry(0x8F, 0xA4, 0x73);
  }

  lemma Line18()
    ensures SBox(0x90) == 0x60 && SBox(0x91) == 0x81 && SBox(0x92) == 0x4F && SBox(0x93) == 0xDC
         && SBox(0x94) == 0x22 && SBox(0x95) == 0x2A && SBox(0x96) == 0x90 && SBox(0x97) == 0x88
  {
    hide SBox;
    Entry(0x90, 0xDE, 0x60); Entry(0x91, 0x6A, 0x81); Entry(0x92, 0x32, 0x4F); Entry(0x93, 0x6D, 0xDC);
    Entry(0x94, 0xD8, 0x22); Entry(0x95, 0x8A, 0x2A); Entry(0x96, 0x84, 0x90); Entry(0x97, 0x72, 0x88);
  }

  lemma Line19()
    ensures SBox(0x98) == 0x46 && SBox(0x99) == 0xEE && SBox(0x9A) == 0xB8 && SBox(0x9B) == 0x14
         && SBox(0x9C) == 0xDE && SBox(0x9D) == 0x5E && SBox(0x9E) == 0x0B && SBox(0x9F) == 0xDB
  {
    hide SBox;
    Entry(0x98, 0x2A, 0x46); Entry(0x99, 0x14, 0xEE); Entry(0x9A, 0x9F, 0xB8); Entry(0x9B, 0x88, 0x14);
    Entry(0x9C, 0xF9, 0xDE); Entry(0x9D, 0xDC, 0x5E); Entry(0x9E, 0x89, 0x0B); Entry(0x9F, 0x9A, 0xDB);
  }

  lemma Line20()
    ensures SBox(0xA0) == 0xE0 && SBox(0xA1) == 0x32 && SBox(0xA2) == 0x3A && SBox(0xA3) == 0x0A
         && SBox(0xA4) == 0x49 && SBox(0xA5) == 0x06 && SBox(0xA6) == 0x24 && SBox(0xA7) == 0x5C
  {
    hide SBox;
    Entry(0xA0, 0xFB, 0xE0); Entry(0xA1, 0x7C, 0x32); Entry(0xA2, 0x2E, 0x3A); Entry(0xA3, 0xC3, 0x0A);
    Entry(0xA4, 0x8F, 0x49); Entry(0xA5, 0xB8, 0x06); Entry(0xA6, 0x65, 0x24); Entry(0xA7, 0x48, 0x5C);
  }

  lemma Line21()
    ensures SBox(0xA8) == 0xC2 && SBox(0xA9) == 0xD3 && SBox(0xAA) == 0xAC && SBox(0xAB) == 0x62
         && SBox(0xAC) == 0x91 && SBox(0xAD) == 0x95 && SBox(0xAE) == 0xE4 && SBox(0xAF) == 0x79
  {
    hide SBox;
    Entry(0xA8, 0x26, 0xC2); Entry(0xA9, 0xC8, 0xD3); Entry(0xAA, 0x12, 0xAC); Entry(0xAB, 0x4A, 0x62);
    Entry(0xAC, 0xCE, 0x91); Entry(0xAD, 0xE7, 0x95); Entry(0xAE, 0xD2, 0xE4); Entry(0xAF, 0x62, 0x79);
  }

  lemma Line22()
    ensures SBox(0xB0) == 0xE7 && SBox(0xB1) == 0xC8 && SBox(0xB2) == 0x37 && SBox(0xB3) == 0x6D
         && SBox(0xB4) == 0x8D && SBox(0xB5) == 0xD5 && SBox(0xB6) == 0x4E && SBox(0xB7) == 0xA9
  {
    hide SBox;
    Entry(0xB0, 0x0C, 0xE7); Entry(0xB1, 0xE0, 0xC8); Entry(0xB2, 0x1F, 0x37); Entry(0xB3, 0xEF, 0x6D);
    Entry(0xB4, 0x11, 0x8D); Entry(0xB5, 0x75, 0xD5); Entry(0xB6, 0x78, 0x4E); Entry(0xB7, 0x71, 0xA9);
  }

  lemma Line23()
    ensures SBox(0xB8) == 0x6C && SBox(0xB9) == 0x56 && SBox(0xBA) == 0xF4 && SBox(0xBB) == 0xEA
         && SBox(0xBC) == 0x65 && SBox(0xBD) == 0x7A && SBox(0xBE) == 0xAE && SBox(0xBF) == 0x08
  {
    hide SBox;
    Entry(0xB8, 0xA5, 0x6C); Entry(0xB9, 0x8E, 0x56); Entry(0xBA, 0x76, 0xF4); Entry(0xBB, 0x3D, 0xEA);
    Entry(0xBC, 0xBD, 0x65); Entry(0xBD, 0xBC, 0x7A); Entry(0xBE, 0x86, 0xAE); Entry(0xBF, 0x57, 0x08);
  }

  lemma Line24()
    ensures SBox(0xC0) == 0xBA && SBox(0xC1) == 0x78 && SBox(0xC2) == 0x25 && SBox(0xC3) == 0x2E
         && SBox(0xC4) == 0x1C && SBox(0xC5) == 0xA6 && SBox(0xC6) == 0xB4 && SBox(0xC7) == 0xC6
  {
    hide SBox;
    Entry(0xC0, 0x0B, 0xBA); Entry(0xC1, 0x28, 0x78); Entry(0xC2, 0x2F, 0x25); Entry(0xC3, 0xA3, 0x2E);
    Entry(0xC4, 0xDA, 0x1C); Entry(0xC5, 0xD4, 0xA6); Entry(0xC6, 0xE4, 0xB4); Entry(0xC7, 0x0F, 0xC6);
  }

  lemma Line25()
    ensures SBox(0xC8) == 0xE8 && SBox(0xC9) == 0xDD && SBox(0xCA) == 0x74 && SBox(0xCB) == 0x1F
         && SBox(0xCC) == 0x4B && SBox(0xCD) == 0xBD && SBox(0xCE) == 0x8B && SBox(0xCF) == 0x8A
  {
    hide SBox;
    Entry(0xC8, 0xA9, 0xE8); Entry(0xC9, 0x27, 0xDD); Entry(0xCA, 0x53, 0x74); Entry(0xCB, 0x04, 0x1F);
    Entry(0xCC, 0x1B, 0x4B); Entry(0xCD, 0xFC, 0xBD); Entry(0xCE, 0xAC, 0x8B); Entry(0xCF, 0xE6, 0x8A);
  }

  lemma Line26()
    ensures SBox(0xD0) == 0x70 && SBox(0xD1) == 0x3E && SBox(0xD2) == 0xB5 && SBox(0xD3) == 0x66
         && SBox(0xD4) == 0x48 && SBox(0xD5) == 0x03 && SBox(0xD6) == 0xF6 && SBox(0xD7) == 0x0E
  {
    hide SBox;
    Entry(0xD0, 0x7A, 0x70); Entry(0xD1, 0x07, 0x3E); Entry(0xD2, 0xAE, 0xB5); Entry(0xD3, 0x63, 0x66);
    Entry(0xD4, 0xC5, 0x48); Entry(0xD5, 0xDB, 0x03); Entry(0xD6, 0xE2, 0xF6); Entry(0xD7, 0xEA, 0x0E);
  }

  lemma Line27()
    ensures SBox(0xD8) == 0x61 && SBox(0xD9) == 0x35 && SBox(0xDA) == 0x57 && SBox(0xDB) == 0xB9
         && SBox(0xDC) == 0x86 && SBox(0xDD) == 0xC1 && SBox(0xDE) == 0x1D && SBox(0xDF) == 0x9E
  {
    hide SBox;
    Entry(0xD8, 0x94, 0x61); Entry(0xD9, 0x8B, 0x35); Entry(0xDA, 0xC4, 0x57); Entry(0xDB, 0xD5, 0xB9);
    Entry(0xDC, 0x9D, 0x86); Entry(0xDD, 0xF8, 0xC1); Entry(0xDE, 0x90, 0x1D); Entry(0xDF, 0x6B, 0x9E);
  }

  lemma Line28()
    ensures SBox(0xE0) == 0xE1 && SBox(0xE1) == 0xF8 && SBox(0xE2) == 0x98 && SBox(0xE3) == 0x11
         && SBox(0xE4) == 0x69 && SBox(0xE5) == 0xD9 && SBox(0xE6) == 0x8E && SBox(0xE7) == 0x94
  {
    hide SBox;
    Entry(0xE0, 0xB1, 0xE1); Entry(0xE1, 0x0D, 0xF8); Entry(0xE2, 0xD6, 0x98); Entry(0xE3, 0xEB, 0x11);
    Entry(0xE4, 0xC6, 0x69); Entry(0xE5, 0x0E, 0xD9); Entry(0xE6, 0xCF, 0x8E); Entry(0xE7, 0xAD, 0x94);
  }

  lemma Line29()
    ensures SBox(0xE8) == 0x9B && SBox(0xE9) == 0x1E && SBox(0xEA) == 0x87 && SBox(0xEB) == 0xE9
         && SBox(0xEC) == 0xCE && SBox(0xED) == 0x55 && SBox(0xEE) == 0x28 && SBox(0xEF) == 0xDF
  {
    hide SBox;
    Entry(0xE8, 0x08, 0x9B); Entry(0xE9, 0x4E, 0x1E); Entry(0xEA, 0xD7, 0x87); Entry(0xEB, 0xE3, 0xE9);
    Entry(0xEC, 0x5D, 0xCE); Entry(0xED, 0x50, 0x55); Entry(0xEE, 0x1E, 0x28); Entry(0xEF, 0xB3, 0xDF);
  }

  lemma Line30()
    ensures SBox(0xF0) == 0x8C && SBox(0xF1) == 0xA1 && SBox(0xF2) == 0x89 && SBox(0xF3) == 0x0D
         && SBox(0xF4) == 0xBF && SBox(0xF5) == 0xE6 && SBox(0xF6) == 0x42 && SBox(0xF7) == 0x68
  {
    hide SBox;
    Entry(0xF0, 0x5B, 0x8C); Entry(0xF1, 0x23, 0xA1); Entry(0xF2, 0x38, 0x89); Entry(0xF3, 0x34, 0x0D);
    Entry(0xF4, 0x68, 0xBF); Entry(0xF5, 0x46, 0xE6); Entry(0xF6, 0x03, 0x42); Entry(0xF7, 0x8C, 0x68);
  }

  lemma Line31()
    ensures SBox(0xF8) == 0x41 && SBox(0xF9) == 0x99 && SBox(0xFA) == 0x2D && SBox(0xFB) == 0x0F
         && SBox(0xFC) == 0xB0 && SBox(0xFD) == 0x54 && SBox(0xFE) == 0xBB && SBox(0xFF) == 0x16
  {
    hide SBox;
    Entry(0xF8, 0xDD, 0x41); Entry(0xF9, 0x9C, 0x99); Entry(0xFA, 0x7D, 0x2D); Entry(0xFB, 0xA0, 0x0F);
    Entry(0xFC, 0xCD, 0xB0); Entry(0xFD, 0x1A, 0x54); Entry(0xFE, 0x41, 0xBB); Entry(0xFF, 0x1C, 0x16);
  }

  // ---------- one round on numbers ----------

  // MixColumns by doublings.
  function Mixed(c: Column): Column {
    Column(Sum4(XTime(c.b0), Times3(c.b1), c.b2, c.b3), Sum4(XTime(c.b1), Times3(c.b2), c.b3, c.b0),
           Sum4(XTime(c.b2), Times3(c.b3), c.b0, c.b1), Sum4(XTime(c.b3), Times3(c.b0), c.b1, c.b2))
  }

  lemma MixedIsMixColumn(c: Column)
    ensures MixColumn(c) == Mixed(c)
  {
    hide Mul, XTime, Times3, Sum4;
    MulSmall(c.b0); MulSmall(c.b1); MulSmall(c.b2); MulSmall(c.b3);
  }

  // The round transformation of section 5.1 with its key addition.
  ghost function RoundOf(s: State, k: State): State {
    AddState(MixColumns(ShiftRows(SubBytes(s))), k)
  }

  // The next four words of a schedule for four key words.
  ghost function NextKey(k: State, c: bv8): State {
    var w := AddColumn(k.c0, AddColumn(SubColumn(RotWord(k.c3)), Column(c, 0, 0, 0)));
    var x := AddColumn(k.c1, w);
    var y := AddColumn(k.c2, x);
    State(w, x, y, AddColumn(k.c3, y))
  }

  // ---------- Appendix C.1: the states in front of every round, and the round keys ----------

  const S0: State :=
    State(Column(0x00, 0x10, 0x20, 0x30), Column(0x40, 0x50, 0x60, 0x70),
          Column(0x80, 0x90, 0xA0, 0xB0), Column(0xC0, 0xD0, 0xE0, 0xF0))
  const S1: State :=
    State(Column(0x89, 0xD8, 0x10, 0xE8), Column(0x85, 0x5A, 0xCE, 0x68),
          Column(0x2D, 0x18, 0x43, 0xD8), Column(0xCB, 0x12, 0x8F, 0xE4))
  const S2: State :=
    State(Column(0x49, 0x15, 0x59, 0x8F), Column(0x55, 0xE5, 0xD7, 0xA0),
          Column(0xDA, 0xCA, 0x94, 0xFA), Column(0x1F, 0x0A, 0x63, 0xF7))
  const S3: State :=
    State(Column(0xFA, 0x63, 0x6A, 0x28), Column(0x25, 0xB3, 0x39, 0xC9),
          Column(0x40, 0x66, 0x8A, 0x31), Column(0x57, 0x24, 0x4D, 0x17))
  const S4: State :=
    State(Column(0x24, 0x72, 0x40, 0x23), Column(0x69, 0x66, 0xB3, 0xFA),
          Column(0x6E, 0xD2, 0x75, 0x32), Column(0x88, 0x42, 0x5B, 0x6C))
  const S5: State :=
    State(Column(0xC8, 0x16, 0x77, 0xBC), Column(0x9B, 0x7A, 0xC9, 0x3B),
          Column(0x25, 0x02, 0x79, 0x92), Column(0xB0, 0x26, 0x19, 0x96))
  const S6: State :=
    State(Column(0xC6, 0x2F, 0xE1, 0x09), Column(0xF7, 0x5E, 0xED, 0xC3),
          Column(0xCC, 0x79, 0x39, 0x5D), Column(0x84, 0xF9, 0xCF, 0x5D))
  const S7: State :=
    State(Column(0xD1, 0x87, 0x6C, 0x0F), Column(0x79, 0xC4, 0x30, 0x0A),
          Column(0xB4, 0x55, 0x94, 0xAD), Column(0xD6, 0x6F, 0xF4, 0x1F))
  const S8: State :=
    State(Column(0xFD, 0xE3, 0xBA, 0xD2), Column(0x05, 0xE5, 0xD0, 0xD7),
          Column(0x35, 0x47, 0x96, 0x4E), Column(0xF1, 0xFE, 0x37, 0xF1))
  const S9: State :=
    State(Column(0xBD, 0x6E, 0x7C, 0x3D), Column(0xF2, 0xB5, 0x77, 0x9E),
          Column(0x0B, 0x61, 0x21, 0x6E), Column(0x8B, 0x10, 0xB6, 0x89))
  const S10: State :=
    State(Column(0x69, 0xC4, 0xE0, 0xD8), Column(0x6A, 0x7B, 0x04, 0x30),
          Column(0xD8, 0xCD, 0xB7, 0x80), Column(0x70, 0xB4, 0xC5, 0x5A))

  // The states between ShiftRows and MixColumns.
  const M1: State :=
    State(Column(0x63, 0x53, 0xE0, 0x8C), Column(0x09, 0x60, 0xE1, 0x04),
          Column(0xCD, 0x70, 0xB7, 0x51), Column(0xBA, 0xCA, 0xD0, 0xE7))
  const M2: State :=
    State(Column(0xA7, 0xBE, 0x1A, 0x69), Column(0x97, 0xAD, 0x73, 0x9B),
          Column(0xD8, 0xC9, 0xCA, 0x45), Column(0x1F, 0x61, 0x8B, 0x61))
  const M3: State :=
    State(Column(0x3B, 0xD9, 0x22, 0x68), Column(0xFC, 0x74, 0xFB, 0x73),
          Column(0x57, 0x67, 0xCB, 0xE0), Column(0xC0, 0x59, 0x0E, 0x2D))
  const M4: State :=
    State(Column(0x2D, 0x6D, 0x7E, 0xF0), Column(0x3F, 0x33, 0xE3, 0x34),
          Column(0x09, 0x36, 0x02, 0xDD), Column(0x5B, 0xFB, 0x12, 0xC7))
  const M5: State :=
    State(Column(0x36, 0x33, 0x9D, 0x50), Column(0xF9, 0xB5, 0x39, 0x26),
          Column(0x9F, 0x2C, 0x09, 0x2D), Column(0xC4, 0x40, 0x6D, 0x23))
  const M6: State :=
    State(Column(0xE8, 0xDA, 0xB6, 0x90), Column(0x14, 0x77, 0xD4, 0x65),
          Column(0x3F, 0xF7, 0xF5, 0xE2), Column(0xE7, 0x47, 0xDD, 0x4F))
  const M7: State :=
    State(Column(0xB4, 0x58, 0x12, 0x4C), Column(0x68, 0xB6, 0x8A, 0x01),
          Column(0x4B, 0x99, 0xF8, 0x2E), Column(0x5F, 0x15, 0x55, 0x4C))
  const M8: State :=
    State(Column(0x3E, 0x1C, 0x22, 0xC0), Column(0xB6, 0xFC, 0xBF, 0x76),
          Column(0x8D, 0xA8, 0x50, 0x67), Column(0xF6, 0x17, 0x04, 0x95))
  const M9: State :=
    State(Column(0x54, 0xD9, 0x90, 0xA1), Column(0x6B, 0xA0, 0x9A, 0xB5),
          Column(0x96, 0xBB, 0xF4, 0x0E), Column(0xA1, 0x11, 0x70, 0x2F))

  const K0: State :=
    State(Column(0x00, 0x01, 0x02, 0x03), Column(0x04, 0x05, 0x06, 0x07),
          Column(0x08, 0x09, 0x0A, 0x0B), Column(0x0C, 0x0D, 0x0E, 0x0F))
  const K1: State :=
    State(Column(0xD6, 0xAA, 0x74, 0xFD), Column(0xD2, 0xAF, 0x72, 0xFA),
          Column(0xDA, 0xA6, 0x78, 0xF1), Column(0xD6, 0xAB, 0x76, 0xFE))
  const K2: State :=
    State(Column(0xB6, 0x92, 0xCF, 0x0B), Column(0x64, 0x3D, 0xBD, 0xF1),
          Column(0xBE, 0x9B, 0xC5, 0x00), Column(0x68, 0x30, 0xB3, 0xFE))
  const K3: State :=
    State(Column(0xB6, 0xFF, 0x74, 0x4E), Column(0xD2, 0xC2, 0xC9, 0xBF),
          Column(0x6C, 0x59, 0x0C, 0xBF), Column(0x04, 0x69, 0xBF, 0x41))
  const K4: State :=
    State(Column(0x47, 0xF7, 0xF7, 0xBC), Column(0x95, 0x35, 0x3E, 0x03),
          Column(0xF9, 0x6C, 0x32, 0xBC), Column(0xFD, 0x05, 0x8D, 0xFD))
  const K5: State :=
    State(Column(0x3C, 0xAA, 0xA3, 0xE8), Column(0xA9, 0x9F, 0x9D, 0xEB),
          Column(0x50, 0xF3, 0xAF, 0x57), Column(0xAD, 0xF6, 0x22, 0xAA))
  const K6: State :=
    State(Column(0x5E, 0x39, 0x0F, 0x7D), Column(0xF7, 0xA6, 0x92, 0x96),
          Column(0xA7, 0x55, 0x3D, 0xC1), Column(0x0A, 0xA3, 0x1F, 0x6B))
  const K7: State :=
    State(Column(0x14, 0xF9, 0x70, 0x1A), Column(0xE3, 0x5F, 0xE2, 0x8C),
          Column(0x44, 0x0A, 0xDF, 0x4D), Column(0x4E, 0xA9, 0xC0, 0x26))
  const K8: State :=
    State(Column(0x47, 0x43, 0x87, 0x35), Column(0xA4, 0x1C, 0x65, 0xB9),
          Column(0xE0, 0x16, 0xBA, 0xF4), Column(0xAE, 0xBF, 0x7A, 0xD2))
  const K9: State :=
    State(Column(0x54, 0x99, 0x32, 0xD1), Column(0xF0, 0x85, 0x57, 0x68),
          Column(0x10, 0x93, 0xED, 0x9C), Column(0xBE, 0x2C, 0x97, 0x4E))
  const K10: State :=
    State(Column(0x13, 0x11, 0x1D, 0x7F), Column(0xE3, 0x94, 0x4A, 0x17),
          Column(0xF3, 0x07, 0xA7, 0x8B), Column(0x4D, 0x2B, 0x30, 0xC5))

  lemma LastRound()
    ensures AddState(ShiftRows(SubBytes(S9)), K10) == S10
  {
    hide SBox;
    SBoxTable();
  }

  lemma NextKeys()
    ensures NextKey(K0, 0x01) == K1 && NextKey(K1, 0x02) == K2
    ensures NextKey(K2, 0x04) == K3 && NextKey(K3, 0x08) == K4
    ensures NextKey(K4, 0x10) == K5 && NextKey(K5, 0x20) == K6
    ensures NextKey(K6, 0x40) == K7 && NextKey(K7, 0x80) == K8
    ensures NextKey(K8, 0x1B) == K9 && NextKey(K9, 0x36) == K10
  {
    hide SBox;
    SBoxTable();
  }

  // ---------- the schedule and the cipher ----------

  ghost function KeyState(key: seq<Column>, g: nat): State
    requires |key| == 4
  {
    State(KeyWord(key, 4 * g), KeyWord(key, 4 * g + 1), KeyWord(key, 4 * g + 2), KeyWord(key, 4 * g + 3))
  }

  lemma KeyStateStep(key: seq<Column>, g: nat, c: bv8)
    requires |key| == 4 && g > 0 && c == Rcon(g)
    ensures KeyState(key, g) == NextKey(KeyState(key, g - 1), c)
  {
    hide SBox, Rcon, AddColumn;
    assert 4 * g / 4 == g;
  }

  lemma RoundConstants()
    ensures Rcon(1) == 0x01 && Rcon(2) == 0x02 && Rcon(3) == 0x04 && Rcon(4) == 0x08 && Rcon(5) == 0x10
    ensures Rcon(6) == 0x20 && Rcon(7) == 0x40 && Rcon(8) == 0x80 && Rcon(9) == 0x1B && Rcon(10) == 0x36
  {
    assert Rcon(4) == 0x08;
    assert Rcon(8) == 0x80;
  }

  lemma Keys(key: seq<Column>)
    requires |key| == 4 && KeyState(key, 0) == K0
    ensures KeyState(key, 1) == K1 && KeyState(key, 2) == K2 && KeyState(key, 3) == K3 && KeyState(key, 4) == K4
    ensures KeyState(key, 5) == K5 && KeyState(key, 6) == K6 && KeyState(key, 7) == K7 && KeyState(key, 8) == K8
    ensures KeyState(key, 9) == K9 && KeyState(key, 10) == K10
  {
    RoundConstants();
    hide *;
    NextKeys();
    KeyStateStep(key, 1, 0x01);
    KeyStateStep(key, 2, 0x02);
    KeyStateStep(key, 3, 0x04);
    KeyStateStep(key, 4, 0x08);
    KeyStateStep(key, 5, 0x10);
    KeyStateStep(key, 6, 0x20);
    KeyStateStep(key, 7, 0x40);
    KeyStateStep(key, 8, 0x80);
    KeyStateStep(key, 9, 0x1B);
    KeyStateStep(key, 10, 0x36);
  }

  lemma RoundKeys(key: seq<Column>, g: nat)
    requires |key| == 4 && g <= 10
    ensures RoundKey(KeyExpansion(key), g) == KeyState(key, g)
  {
    hide KeyWord;
  }

  lemma AfterRoundsStep(s: State, w: seq<Column>, r: nat)
    requires 0 < r && 4 * r + 4 <= |w|
    ensures AfterRounds(s, w, r) == RoundOf(AfterRounds(s, w, r - 1), RoundKey(w, r))
  {
    hide AddState, MixColumns, ShiftRows, SubBytes, RoundKey;
  }

  lemma Shifted()
    ensures ShiftRows(SubBytes(S0)) == M1 && ShiftRows(SubBytes(S1)) == M2 && ShiftRows(SubBytes(S2)) == M3
    ensures ShiftRows(SubBytes(S3)) == M4 && ShiftRows(SubBytes(S4)) == M5 && ShiftRows(SubBytes(S5)) == M6
    ensures ShiftRows(SubBytes(S6)) == M7 && ShiftRows(SubBytes(S7)) == M8 && ShiftRows(SubBytes(S8)) == M9
  {
    hide SBox;
    SBoxTable();
  }

  function MixedColumns(m: State): State {
    State(Mixed(m.c0), Mixed(m.c1), Mixed(m.c2), Mixed(m.c3))
  }

  lemma RoundIs(s: State, k: State, m: State)
    requires ShiftRows(SubBytes(s)) == m
    ensures RoundOf(s, k) == AddState(MixedColumns(m), k)
  {
    hide AddState, MixColumn, Mixed, ShiftRows, SubBytes;
    MixedIsMixColumn(m.c0);
    MixedIsMixColumn(m.c1);
    MixedIsMixColumn(m.c2);
    MixedIsMixColumn(m.c3);
  }

  lemma ThreeRounds(s: State, w: seq<Column>)
    requires |w| == 44 && AfterRounds(s, w, 0) == S0
    requires RoundKey(w, 1) == K1 && RoundKey(w, 2) == K2 && RoundKey(w, 3) == K3
    ensures AfterRounds(s, w, 3) == S3
  {
    hide AfterRounds, RoundKey, RoundOf, MixColumns, ShiftRows, SubBytes;
    Shifted();
    AfterRoundsStep(s, w, 1);
    RoundIs(S0, K1, M1);
    AfterRoundsStep(s, w, 2);
    RoundIs(S1, K2, M2);
    AfterRoundsStep(s, w, 3);
    RoundIs(S2, K3, M3);
  }

  lemma SixRounds(s: State, w: seq<Column>)
    requires |w| == 44 && AfterRounds(s, w, 3) == S3
    requires RoundKey(w, 4) == K4 && RoundKey(w, 5) == K5 && RoundKey(w, 6) == K6
    ensures AfterRounds(s, w, 6) == S6
  {
    hide AfterRounds, RoundKey, RoundOf, MixColumns, ShiftRows, SubBytes;
    Shifted();
    AfterRoundsStep(s, w, 4);
    RoundIs(S3, K4, M4);
    AfterRoundsStep(s, w, 5);
    RoundIs(S4, K5, M5);
    AfterRoundsStep(s, w, 6);
    RoundIs(S5, K6, M6);
  }

  lemma NineRounds(s: State, w: seq<Column>)
    requires |w| == 44 && AfterRounds(s, w, 6) == S6
    requires RoundKey(w, 7) == K7 && RoundKey(w, 8) == K8 && RoundKey(w, 9) == K9
    ensures AfterRounds(s, w, 9) == S9
  {
    hide AfterRounds, RoundKey, RoundOf, MixColumns, ShiftRows, SubBytes;
    Shifted();
    AfterRoundsStep(s, w, 7);
    RoundIs(S6, K7, M7);
    AfterRoundsStep(s, w, 8);
    RoundIs(S7, K8, M8);
    AfterRoundsStep(s, w, 9);
    RoundIs(S8, K9, M9);
  }

  const C1_KEY: seq<bv8> := [
    0x00, 0x01, 0x02, 0x03, 0x04, 0x05, 0x06, 0x07, 0x08, 0x09, 0x0A, 0x0B, 0x0C, 0x0D, 0x0E, 0x0F]

  const C1_PLAINTEXT: seq<bv8> := [
    0x00, 0x11, 0x22, 0x33, 0x44, 0x55, 0x66, 0x77, 0x88, 0x99, 0xAA, 0xBB, 0xCC, 0xDD, 0xEE, 0xFF]

  const C1_CIPHERTEXT: seq<bv8> := [
    0x69, 0xC4, 0xE0, 0xD8, 0x6A, 0x7B, 0x04, 0x30, 0xD8, 0xCD, 0xB7, 0x80, 0x70, 0xB4, 0xC5, 0x5A]

  lemma C1Start()
    ensures |C1_KEY| == |C1_PLAINTEXT| == 16
    ensures KeyState(KeyColumns(C1_KEY), 0) == K0 && AddState(StateOf(C1_PLAINTEXT), K0) == S0
    ensures BlockOf(S10) == C1_CIPHERTEXT
  {
    hide SBox;
  }

  // Under the key 00 01 .. 0f the block 00 11 .. ff becomes the published one.
  lemma AppendixC1()
    ensures |C1_KEY| == |C1_PLAINTEXT| == 16 && Encrypted(C1_KEY, C1_PLAINTEXT) == C1_CIPHERTEXT
  {
    C1Start();
    var key, s := KeyColumns(C1_KEY), StateOf(C1_PLAINTEXT);
    var w := KeyExpansion(key);
    Keys(key);
    FirstRound(s, w);
    LastRound();
    RoundKeys(key, 0); RoundKeys(key, 1); RoundKeys(key, 2); RoundKeys(key, 3); RoundKeys(key, 4); RoundKeys(key, 5);
    RoundKeys(key, 6); RoundKeys(key, 7); RoundKeys(key, 8); RoundKeys(key, 9); RoundKeys(key, 10);
    hide KeyColumns, KeyExpansion, AfterRounds, AddState, ShiftRows, SubBytes, RoundKey, BlockOf, StateOf, KeyState;
    ThreeRounds(s, w);
    SixRounds(s, w);
    NineRounds(s, w);
  }

  lemma FirstRound(s: State, w: seq<Column>)
    requires 4 <= |w|
    ensures AfterRounds(s, w, 0) == AddState(s, RoundKey(w, 0))
  {
    hide AddState, RoundKey;
  }

  // ---------- Appendix A: key expansion for the three sizes ----------

  lemma NextWord(key: seq<Column>, i: nat, back: Column, previous: Column)
    requires (|key| == 4 || |key| == 6 || |key| == 8) && i >= |key|
    requires KeyWord(key, i - |key|) == back && KeyWord(key, i - 1) == previous
    ensures KeyWord(key, i) == AddColumn(back, KeyMask(|key|, i, previous))
  {
    hide KeyMask, AddColumn;
  }

  lemma GivenWord(key: seq<Column>, i: nat)
    requires (|key| == 4 || |key| == 6 || |key| == 8) && i < |key|
    ensures KeyWord(key, i) == key[i]
  {}

  const A1_KEY: seq<Column> := [
    Column(0x2B, 0x7E, 0x15, 0x16), Column(0x28, 0xAE, 0xD2, 0xA6),
    Column(0xAB, 0xF7, 0x15, 0x88), Column(0x09, 0xCF, 0x4F, 0x3C)]

  lemma AppendixA1()
    ensures KeyWord(A1_KEY, 4) == Column(0xA0, 0xFA, 0xFE, 0x17)
  {
    SBoxTable();
    assert Rcon(1) == 1;
    hide SBox, Rcon, KeyWord;
    GivenWord(A1_KEY, 3);
    GivenWord(A1_KEY, 0); NextWord(A1_KEY, 4, Column(0x2B, 0x7E, 0x15, 0x16), Column(0x09, 0xCF, 0x4F, 0x3C));
  }

  const A2_KEY: seq<Column> := [
    Column(0x8E, 0x73, 0xB0, 0xF7), Column(0xDA, 0x0E, 0x64, 0x52),
    Column(0xC8, 0x10, 0xF3, 0x2B), Column(0x80, 0x90, 0x79, 0xE5),
    Column(0x62, 0xF8, 0xEA, 0xD2), Column(0x52, 0x2C, 0x6B, 0x7B)]

  lemma AppendixA2()
    ensures KeyWord(A2_KEY, 6) == Column(0xFE, 0x0C, 0x91, 0xF7)
  {
    SBoxTable();
    assert Rcon(1) == 1;
    hide SBox, Rcon, KeyWord;
    GivenWord(A2_KEY, 5);
    GivenWord(A2_KEY, 0); NextWord(A2_KEY, 6, Column(0x8E, 0x73, 0xB0, 0xF7), Column(0x52, 0x2C, 0x6B, 0x7B));
  }

  const A3_KEY: seq<Column> := [
    Column(0x60, 0x3D, 0xEB, 0x10), Column(0x15, 0xCA, 0x71, 0xBE),
    Column(0x2B, 0x73, 0xAE, 0xF0), Column(0x85, 0x7D, 0x77, 0x81),
    Column(0x1F, 0x35, 0x2C, 0x07), Column(0x3B, 0x61, 0x08, 0xD7),
    Column(0x2D, 0x98, 0x10, 0xA3), Column(0x09, 0x14, 0xDF, 0xF4)]

  // The first word of the second group, with its rotation, and the words that copy on from it.
  lemma WordEight(key: seq<Column>)
    requires |key| == 8 && key[0] == Column(0x60, 0x3D, 0xEB, 0x10) && key[7] == Column(0x09, 0x14, 0xDF, 0xF4)
    ensures KeyWord(key, 8) == Column(0x9B, 0xA3, 0x54, 0x11)
  {
    Line1(); Line2(); Line27(); Line30();
    assert Rcon(1) == 1;
    hide SBox, Rcon, KeyWord;
    GivenWord(key, 0);
    GivenWord(key, 7);
    NextWord(key, 8, key[0], key[7]);
  }

  lemma WordEleven(key: seq<Column>)
    requires |key| == 8 && KeyWord(key, 8) == Column(0x9B, 0xA3, 0x54, 0x11)
    requires key[1] == Column(0x15, 0xCA, 0x71, 0xBE) && key[2] == Column(0x2B, 0x73, 0xAE, 0xF0)
    requires key[3] == Column(0x85, 0x7D, 0x77, 0x81)
    ensures KeyWord(key, 11) == Column(0x20, 0x67, 0xFC, 0xDE)
  {
    hide KeyWord, SBox, Rcon;
    GivenWord(key, 1);
    NextWord(key, 9, key[1], Column(0x9B, 0xA3, 0x54, 0x11));
    GivenWord(key, 2);
    NextWord(key, 10, key[2], Column(0x8E, 0x69, 0x25, 0xAF));
    GivenWord(key, 3);
    NextWord(key, 11, key[3], Column(0xA5, 0x1A, 0x8B, 0x5F));
  }

  lemma WordTwelve(key: seq<Column>)
    requires |key| == 8 && key[4] == Column(0x1F, 0x35, 0x2C, 0x07) && KeyWord(key, 11) == Column(0x20, 0x67, 0xFC, 0xDE)
    ensures KeyWord(key, 12) == Column(0xA8, 0xB0, 0x9C, 0x1A)
  {
    Line4(); Line12(); Line31(); Line27();
    hide SBox, Rcon, KeyWord;
    GivenWord(key, 4);
    NextWord(key, 12, key[4], Column(0x20, 0x67, 0xFC, 0xDE));
  }

  lemma AppendixA3()
    ensures KeyWord(A3_KEY, 8) == Column(0x9B, 0xA3, 0x54, 0x11)
    ensures KeyWord(A3_KEY, 12) == Column(0xA8, 0xB0, 0x9C, 0x1A)
  {
    hide KeyWord;
    WordEight(A3_KEY);
    WordEleven(A3_KEY);
    WordTwelve(A3_KEY);
  }
}
