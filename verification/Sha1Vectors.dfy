// The one-block example of SHA-1 in FIPS 180-4.
module Sha1Vectors {
  import opened Bytes
  import opened HashStream
  import opened Sha1
  import Sha256
  import opened Sha256Vectors

  lemma FirstWords(b: seq<Byte>)
    requires IsAbc(b)
    ensures Words(b, 0) == 0x61626380 && Words(b, 15) == 24
    ensures forall t :: 1 <= t < 15 ==> Words(b, t) == 0
  {
    assert |b| == BLOCK;
    hide IsAbc, Sha256.GetWord;
    LettersWord(b);
    LengthWord(b);
    Loaded(b, 0);
    Loaded(b, 15);
    forall t | 1 <= t < 15 ensures Words(b, t) == 0 {
      ZeroWord(b, t);
      Loaded(b, t);
    }
  }

  lemma Loaded(b: seq<Byte>, t: nat)
    requires |b| == BLOCK && t < 16
    ensures Words(b, t) == Sha256.GetWord(b, 4 * t)
  {}

  lemma NextWord(b: seq<Byte>, t: nat, w3: Sha256.Word, w8: Sha256.Word, w14: Sha256.Word, w16: Sha256.Word, w: Sha256.Word)
    requires |b| == BLOCK && 16 <= t && Expand(w3, w8, w14, w16) == w
    requires Words(b, t - 3) == w3 && Words(b, t - 8) == w8 && Words(b, t - 14) == w14 && Words(b, t - 16) == w16
    ensures Words(b, t) == w
  {
    hide Expand;
  }

  // The eight words of the schedule from 8 * g on.
  predicate WordsOf(b: seq<Byte>, g: nat, w0: Sha256.Word, w1: Sha256.Word, w2: Sha256.Word, w3: Sha256.Word,
                    w4: Sha256.Word, w5: Sha256.Word, w6: Sha256.Word, w7: Sha256.Word)
    requires |b| == BLOCK
  {
    && Words(b, 8 * g) == w0 && Words(b, 8 * g + 1) == w1 && Words(b, 8 * g + 2) == w2 && Words(b, 8 * g + 3) == w3
    && Words(b, 8 * g + 4) == w4 && Words(b, 8 * g + 5) == w5 && Words(b, 8 * g + 6) == w6 && Words(b, 8 * g + 7) == w7
  }

  lemma FirstGroups(b: seq<Byte>)
    requires IsAbc(b)
    ensures WordsOf(b, 0, 0x61626380, 0x00000000, 0x00000000, 0x00000000,
                    0x00000000, 0x00000000, 0x00000000, 0x00000000)
    ensures WordsOf(b, 1, 0x00000000, 0x00000000, 0x00000000, 0x00000000,
                    0x00000000, 0x00000000, 0x00000000, 0x00000018)
    ensures WordsOf(b, 2, 0xC2C4C700, 0x00000000, 0x00000030, 0x85898E01,
                    0x00000000, 0x00000060, 0x0B131C03, 0x00000030)
  {
    FirstWords(b);
    hide Words;
    NextWord(b, 16, 0x00000000, 0x00000000, 0x00000000, 0x61626380, 0xC2C4C700);
    NextWord(b, 17, 0x00000000, 0x00000000, 0x00000000, 0x00000000, 0x00000000);
    NextWord(b, 18, 0x00000018, 0x00000000, 0x00000000, 0x00000000, 0x00000030);
    NextWord(b, 19, 0xC2C4C700, 0x00000000, 0x00000000, 0x00000000, 0x85898E01);
    NextWord(b, 20, 0x00000000, 0x00000000, 0x00000000, 0x00000000, 0x00000000);
    NextWord(b, 21, 0x00000030, 0x00000000, 0x00000000, 0x00000000, 0x00000060);
    NextWord(b, 22, 0x85898E01, 0x00000000, 0x00000000, 0x00000000, 0x0B131C03);
    NextWord(b, 23, 0x00000000, 0x00000018, 0x00000000, 0x00000000, 0x00000030);
  }

  lemma Words3(b: seq<Byte>)
    requires |b| == BLOCK && WordsOf(b, 1, 0x00000000, 0x00000000, 0x00000000, 0x00000000,
                    0x00000000, 0x00000000, 0x00000000, 0x00000018)
    requires WordsOf(b, 2, 0xC2C4C700, 0x00000000, 0x00000030, 0x85898E01,
                    0x00000000, 0x00000060, 0x0B131C03, 0x00000030)
    ensures WordsOf(b, 3, 0x85898EC1, 0x16263806, 0x00000000, 0x00000180,
                    0x2C4C700C, 0x000000F0, 0x93AFB507, 0x5898E048)
  {
    hide Words;
    NextWord(b, 24, 0x00000060, 0xC2C4C700, 0x00000000, 0x00000000, 0x85898EC1);
    NextWord(b, 25, 0x0B131C03, 0x00000000, 0x00000000, 0x00000000, 0x16263806);
    NextWord(b, 26, 0x00000030, 0x00000030, 0x00000000, 0x00000000, 0x00000000);
    NextWord(b, 27, 0x85898EC1, 0x85898E01, 0x00000000, 0x00000000, 0x00000180);
    NextWord(b, 28, 0x16263806, 0x00000000, 0x00000000, 0x00000000, 0x2C4C700C);
    NextWord(b, 29, 0x00000000, 0x00000060, 0x00000018, 0x00000000, 0x000000F0);
    NextWord(b, 30, 0x00000180, 0x0B131C03, 0xC2C4C700, 0x00000000, 0x93AFB507);
    NextWord(b, 31, 0x2C4C700C, 0x00000030, 0x00000000, 0x00000018, 0x5898E048);
  }

  lemma Words4(b: seq<Byte>)
    requires |b| == BLOCK && WordsOf(b, 2, 0xC2C4C700, 0x00000000, 0x00000030, 0x85898E01,
                    0x00000000, 0x00000060, 0x0B131C03, 0x00000030)
    requires WordsOf(b, 3, 0x85898EC1, 0x16263806, 0x00000000, 0x00000180,
                    0x2C4C700C, 0x000000F0, 0x93AFB507, 0x5898E048)
    ensures WordsOf(b, 4, 0x8E9A9202, 0x00000600, 0xB131C0F0, 0x16263BC6,
                    0x4EBED41E, 0x626380A1, 0x16263806, 0x000018C0)
  {
    hide Words;
    NextWord(b, 32, 0x000000F0, 0x85898EC1, 0x00000030, 0xC2C4C700, 0x8E9A9202);
    NextWord(b, 33, 0x93AFB507, 0x16263806, 0x85898E01, 0x00000000, 0x00000600);
    NextWord(b, 34, 0x5898E048, 0x00000000, 0x00000000, 0x00000030, 0xB131C0F0);
    NextWord(b, 35, 0x8E9A9202, 0x00000180, 0x00000060, 0x85898E01, 0x16263BC6);
    NextWord(b, 36, 0x00000600, 0x2C4C700C, 0x0B131C03, 0x00000000, 0x4EBED41E);
    NextWord(b, 37, 0xB131C0F0, 0x000000F0, 0x00000030, 0x00000060, 0x626380A1);
    NextWord(b, 38, 0x16263BC6, 0x93AFB507, 0x85898EC1, 0x0B131C03, 0x16263806);
    NextWord(b, 39, 0x4EBED41E, 0x5898E048, 0x16263806, 0x00000030, 0x000018C0);
  }

  lemma Words5(b: seq<Byte>)
    requires |b| == BLOCK && WordsOf(b, 3, 0x85898EC1, 0x16263806, 0x00000000, 0x00000180,
                    0x2C4C700C, 0x000000F0, 0x93AFB507, 0x5898E048)
    requires WordsOf(b, 4, 0x8E9A9202, 0x00000600, 0xB131C0F0, 0x16263BC6,
                    0x4EBED41E, 0x626380A1, 0x16263806, 0x000018C0)
    ensures WordsOf(b, 5, 0xD2E138C4, 0x00000F00, 0x3AFB5079, 0x898E04E5,
                    0xE2BA3C2B, 0x000060C0, 0x053A37CD, 0x74458547)
  {
    hide Words;
    NextWord(b, 40, 0x626380A1, 0x8E9A9202, 0x00000000, 0x85898EC1, 0xD2E138C4);
    NextWord(b, 41, 0x16263806, 0x00000600, 0x00000180, 0x16263806, 0x00000F00);
    NextWord(b, 42, 0x000018C0, 0xB131C0F0, 0x2C4C700C, 0x00000000, 0x3AFB5079);
    NextWord(b, 43, 0xD2E138C4, 0x16263BC6, 0x000000F0, 0x00000180, 0x898E04E5);
    NextWord(b, 44, 0x00000F00, 0x4EBED41E, 0x93AFB507, 0x2C4C700C, 0xE2BA3C2B);
    NextWord(b, 45, 0x3AFB5079, 0x626380A1, 0x5898E048, 0x000000F0, 0x000060C0);
    NextWord(b, 46, 0x898E04E5, 0x16263806, 0x8E9A9202, 0x93AFB507, 0x053A37CD);
    NextWord(b, 47, 0xE2BA3C2B, 0x000018C0, 0x00000600, 0x5898E048, 0x74458547);
  }

  lemma Words6(b: seq<Byte>)
    requires |b| == BLOCK && WordsOf(b, 4, 0x8E9A9202, 0x00000600, 0xB131C0F0, 0x16263BC6,
                    0x4EBED41E, 0x626380A1, 0x16263806, 0x000018C0)
    requires WordsOf(b, 5, 0xD2E138C4, 0x00000F00, 0x3AFB5079, 0x898E04E5,
                    0xE2BA3C2B, 0x000060C0, 0x053A37CD, 0x74458547)
    ensures WordsOf(b, 6, 0xDA9415ED, 0x26380A16, 0x626383A1, 0x4EBF54DE,
                    0x3835B44B, 0x0000F600, 0x1E84C7A3, 0x98E04D98)
  {
    hide Words;
    NextWord(b, 48, 0x000060C0, 0xD2E138C4, 0xB131C0F0, 0x8E9A9202, 0xDA9415ED);
    NextWord(b, 49, 0x053A37CD, 0x00000F00, 0x16263BC6, 0x00000600, 0x26380A16);
    NextWord(b, 50, 0x74458547, 0x3AFB5079, 0x4EBED41E, 0xB131C0F0, 0x626383A1);
    NextWord(b, 51, 0xDA9415ED, 0x898E04E5, 0x626380A1, 0x16263BC6, 0x4EBF54DE);
    NextWord(b, 52, 0x26380A16, 0xE2BA3C2B, 0x16263806, 0x4EBED41E, 0x3835B44B);
    NextWord(b, 53, 0x626383A1, 0x000060C0, 0x000018C0, 0x626380A1, 0x0000F600);
    NextWord(b, 54, 0x4EBF54DE, 0x053A37CD, 0xD2E138C4, 0x16263806, 0x1E84C7A3);
    NextWord(b, 55, 0x3835B44B, 0x74458547, 0x00000F00, 0x000018C0, 0x98E04D98);
  }

  lemma Words7(b: seq<Byte>)
    requires |b| == BLOCK && WordsOf(b, 5, 0xD2E138C4, 0x00000F00, 0x3AFB5079, 0x898E04E5,
                    0xE2BA3C2B, 0x000060C0, 0x053A37CD, 0x74458547)
    requires WordsOf(b, 6, 0xDA9415ED, 0x26380A16, 0x626383A1, 0x4EBF54DE,
                    0x3835B44B, 0x0000F600, 0x1E84C7A3, 0x98E04D98)
    ensures WordsOf(b, 7, 0x651D16A0, 0x62658CA1, 0x458544D6, 0x44584CB7,
                    0x7BA06619, 0x6380AEA2, 0x0AE55269, 0x627B49A1)
  {
    hide Words;
    NextWord(b, 56, 0x0000F600, 0xDA9415ED, 0x3AFB5079, 0xD2E138C4, 0x651D16A0);
    NextWord(b, 57, 0x1E84C7A3, 0x26380A16, 0x898E04E5, 0x00000F00, 0x62658CA1);
    NextWord(b, 58, 0x98E04D98, 0x626383A1, 0xE2BA3C2B, 0x3AFB5079, 0x458544D6);
    NextWord(b, 59, 0x651D16A0, 0x4EBF54DE, 0x000060C0, 0x898E04E5, 0x44584CB7);
    NextWord(b, 60, 0x62658CA1, 0x3835B44B, 0x053A37CD, 0xE2BA3C2B, 0x7BA06619);
    NextWord(b, 61, 0x458544D6, 0x0000F600, 0x74458547, 0x000060C0, 0x6380AEA2);
    NextWord(b, 62, 0x44584CB7, 0x1E84C7A3, 0xDA9415ED, 0x053A37CD, 0x0AE55269);
    NextWord(b, 63, 0x7BA06619, 0x98E04D98, 0x26380A16, 0x74458547, 0x627B49A1);
  }

  lemma Words8(b: seq<Byte>)
    requires |b| == BLOCK && WordsOf(b, 6, 0xDA9415ED, 0x26380A16, 0x626383A1, 0x4EBF54DE,
                    0x3835B44B, 0x0000F600, 0x1E84C7A3, 0x98E04D98)
    requires WordsOf(b, 7, 0x651D16A0, 0x62658CA1, 0x458544D6, 0x44584CB7,
                    0x7BA06619, 0x6380AEA2, 0x0AE55269, 0x627B49A1)
    ensures WordsOf(b, 8, 0x7CD45C9D, 0x000F0000, 0xFB50753A, 0xEC6765E8,
                    0xBA3C2BE2, 0x0060C000, 0x3A37CD05, 0x458546F4)
  {
    hide Words;
    NextWord(b, 64, 0x6380AEA2, 0x651D16A0, 0x626383A1, 0xDA9415ED, 0x7CD45C9D);
    NextWord(b, 65, 0x0AE55269, 0x62658CA1, 0x4EBF54DE, 0x26380A16, 0x000F0000);
    NextWord(b, 66, 0x627B49A1, 0x458544D6, 0x3835B44B, 0x626383A1, 0xFB50753A);
    NextWord(b, 67, 0x7CD45C9D, 0x44584CB7, 0x0000F600, 0x4EBF54DE, 0xEC6765E8);
    NextWord(b, 68, 0x000F0000, 0x7BA06619, 0x1E84C7A3, 0x3835B44B, 0xBA3C2BE2);
    NextWord(b, 69, 0xFB50753A, 0x6380AEA2, 0x98E04D98, 0x0000F600, 0x0060C000);
    NextWord(b, 70, 0xEC6765E8, 0x0AE55269, 0x651D16A0, 0x1E84C7A3, 0x3A37CD05);
    NextWord(b, 71, 0xBA3C2BE2, 0x627B49A1, 0x62658CA1, 0x98E04D98, 0x458546F4);
  }

  lemma Words9(b: seq<Byte>)
    requires |b| == BLOCK && WordsOf(b, 7, 0x651D16A0, 0x62658CA1, 0x458544D6, 0x44584CB7,
                    0x7BA06619, 0x6380AEA2, 0x0AE55269, 0x627B49A1)
    requires WordsOf(b, 8, 0x7CD45C9D, 0x000F0000, 0xFB50753A, 0xEC6765E8,
                    0xBA3C2BE2, 0x0060C000, 0x3A37CD05, 0x458546F4)
    ensures WordsOf(b, 9, 0xB8599DD6, 0x380A1A26, 0x01E02203, 0xE7CC3456,
                    0xE6E60B69, 0x00F60A00, 0x5795EF4F, 0x822E0879)
  {
    hide Words;
    NextWord(b, 72, 0x0060C000, 0x7CD45C9D, 0x458544D6, 0x651D16A0, 0xB8599DD6);
    NextWord(b, 73, 0x3A37CD05, 0x000F0000, 0x44584CB7, 0x62658CA1, 0x380A1A26);
    NextWord(b, 74, 0x458546F4, 0xFB50753A, 0x7BA06619, 0x458544D6, 0x01E02203);
    NextWord(b, 75, 0xB8599DD6, 0xEC6765E8, 0x6380AEA2, 0x44584CB7, 0xE7CC3456);
    NextWord(b, 76, 0x380A1A26, 0xBA3C2BE2, 0x0AE55269, 0x7BA06619, 0xE6E60B69);
    NextWord(b, 77, 0x01E02203, 0x0060C000, 0x627B49A1, 0x6380AEA2, 0x00F60A00);
    NextWord(b, 78, 0xE7CC3456, 0x3A37CD05, 0x7CD45C9D, 0x0AE55269, 0x5795EF4F);
    NextWord(b, 79, 0xE6E60B69, 0x458546F4, 0x000F0000, 0x627B49A1, 0x822E0879);
  }

  // One step: two of the five variables are new.
  lemma NextStep(b: seq<Byte>, t: nat, s: State, w: Sha256.Word, a: Sha256.Word, c: Sha256.Word) returns (next: State)
    requires |b| == BLOCK && Steps(INITIAL, b, t) == s && Words(b, t) == w && Step(s, t, w).a == a && Step(s, t, w).c == c
    ensures next == State(a, s.a, c, s.c, s.d) == Steps(INITIAL, b, t + 1)
  {
    StepsUnfold(INITIAL, b, t);
    hide Steps, Words;
    next := Step(s, t, w);
  }

  predicate StepsOf(b: seq<Byte>, g: nat, s: State)
    requires |b| == BLOCK
  {
    Steps(INITIAL, b, 8 * g) == s
  }

  lemma Steps0(b: seq<Byte>)
    requires |b| == BLOCK && WordsOf(b, 0, 0x61626380, 0x00000000, 0x00000000, 0x00000000,
                    0x00000000, 0x00000000, 0x00000000, 0x00000000)
    requires StepsOf(b, 0, State(0x67452301, 0xEFCDAB89, 0x98BADCFE, 0x10325476, 0xC3D2E1F0))
    ensures StepsOf(b, 1, State(0x9E8C07D4, 0x993E30C1, 0x0FF1F290, 0xB3F52677, 0xF3763846))
  {
    hide Steps, Words;
    var s := Steps(INITIAL, b, 0);
    s := NextStep(b, 0, s, 0x61626380, 0x0116FC33, 0x7BF36AE2);
    s := NextStep(b, 1, s, 0x00000000, 0x8990536D, 0x59D148C0);
    s := NextStep(b, 2, s, 0x00000000, 0xA1390F08, 0xC045BF0C);
    s := NextStep(b, 3, s, 0x00000000, 0xCDD8E11B, 0x626414DB);
    s := NextStep(b, 4, s, 0x00000000, 0xCFD499DE, 0x284E43C2);
    s := NextStep(b, 5, s, 0x00000000, 0x3FC7CA40, 0xF3763846);
    s := NextStep(b, 6, s, 0x00000000, 0x993E30C1, 0xB3F52677);
    s := NextStep(b, 7, s, 0x00000000, 0x9E8C07D4, 0x0FF1F290);
  }

  lemma Steps1(b: seq<Byte>)
    requires |b| == BLOCK && WordsOf(b, 1, 0x00000000, 0x00000000, 0x00000000, 0x00000000,
                    0x00000000, 0x00000000, 0x00000000, 0x00000018)
    requires StepsOf(b, 1, State(0x9E8C07D4, 0x993E30C1, 0x0FF1F290, 0xB3F52677, 0xF3763846))
    ensures StepsOf(b, 2, State(0x20BDD62F, 0x196BEE77, 0x644A3DA5, 0x1181ED99, 0x18C623F9))
  {
    hide Steps, Words;
    var s := Steps(INITIAL, b, 8);
    s := NextStep(b, 8, s, 0x00000000, 0x4B6AE328, 0x664F8C30);
    s := NextStep(b, 9, s, 0x00000000, 0x8351F929, 0x27A301F5);
    s := NextStep(b, 10, s, 0x00000000, 0xFBDA9E89, 0x12DAB8CA);
    s := NextStep(b, 11, s, 0x00000000, 0x63188FE4, 0x60D47E4A);
    s := NextStep(b, 12, s, 0x00000000, 0x4607B664, 0x7EF6A7A2);
    s := NextStep(b, 13, s, 0x00000000, 0x9128F695, 0x18C623F9);
    s := NextStep(b, 14, s, 0x00000000, 0x196BEE77, 0x1181ED99);
    s := NextStep(b, 15, s, 0x00000018, 0x20BDD62F, 0x644A3DA5);
  }

  lemma Steps2(b: seq<Byte>)
    requires |b| == BLOCK && WordsOf(b, 2, 0xC2C4C700, 0x00000000, 0x00000030, 0x85898E01,
                    0x00000000, 0x00000060, 0x0B131C03, 0x00000030)
    requires StepsOf(b, 2, State(0x20BDD62F, 0x196BEE77, 0x644A3DA5, 0x1181ED99, 0x18C623F9))
    ensures StepsOf(b, 3, State(0xD541F12D, 0x21283486, 0x0CE88EFF, 0x868DEC32, 0x7F67875F))
  {
    hide Steps, Words;
    var s := Steps(INITIAL, b, 16);
    s := NextStep(b, 16, s, 0xC2C4C700, 0x4E925823, 0xC65AFB9D);
    s := NextStep(b, 17, s, 0x00000000, 0x82AA6728, 0xC82F758B);
    s := NextStep(b, 18, s, 0x00000030, 0xDC64901D, 0xD3A49608);
    s := NextStep(b, 19, s, 0x85898E01, 0xFD9E1D7D, 0x20AA99CA);
    s := NextStep(b, 20, s, 0x00000000, 0x1A37B0CA, 0x77192407);
    s := NextStep(b, 21, s, 0x00000060, 0x33A23BFC, 0x7F67875F);
    s := NextStep(b, 22, s, 0x0B131C03, 0x21283486, 0x868DEC32);
    s := NextStep(b, 23, s, 0x00000030, 0xD541F12D, 0x0CE88EFF);
  }

  lemma Steps3(b: seq<Byte>)
    requires |b| == BLOCK && WordsOf(b, 3, 0x85898EC1, 0x16263806, 0x00000000, 0x00000180,
                    0x2C4C700C, 0x000000F0, 0x93AFB507, 0x5898E048)
    requires StepsOf(b, 3, State(0xD541F12D, 0x21283486, 0x0CE88EFF, 0x868DEC32, 0x7F67875F))
    ensures StepsOf(b, 4, State(0x3B845D33, 0x1267B407, 0x717EEBD7, 0xA0DC2D4B, 0xD2AA1365))
  {
    hide Steps, Words;
    var s := Steps(INITIAL, b, 24);
    s := NextStep(b, 24, s, 0x85898EC1, 0xC7567DC6, 0x884A0D21);
    s := NextStep(b, 25, s, 0x16263806, 0x48413BA4, 0x75507C4B);
    s := NextStep(b, 26, s, 0x00000000, 0xBE35FBD5, 0xB1D59F71);
    s := NextStep(b, 27, s, 0x00000180, 0x4AA84D97, 0x12104EE9);
    s := NextStep(b, 28, s, 0x2C4C700C, 0x8370B52E, 0x6F8D7EF5);
    s := NextStep(b, 29, s, 0x000000F0, 0xC5FBAF5D, 0xD2AA1365);
    s := NextStep(b, 30, s, 0x93AFB507, 0x1267B407, 0xA0DC2D4B);
    s := NextStep(b, 31, s, 0x5898E048, 0x3B845D33, 0x717EEBD7);
  }

  lemma Steps4(b: seq<Byte>)
    requires |b| == BLOCK && WordsOf(b, 4, 0x8E9A9202, 0x00000600, 0xB131C0F0, 0x16263BC6,
                    0x4EBED41E, 0x626380A1, 0x16263806, 0x000018C0)
    requires StepsOf(b, 4, State(0x3B845D33, 0x1267B407, 0x717EEBD7, 0xA0DC2D4B, 0xD2AA1365))
    ensures StepsOf(b, 5, State(0x32DE1CBA, 0x4C986405, 0xF718E5CF, 0x03D447F6, 0xF72EEC32))
  {
    hide Steps, Words;
    var s := Steps(INITIAL, b, 32);
    s := NextStep(b, 32, s, 0x8E9A9202, 0x046FAA0A, 0xC499ED01);
    s := NextStep(b, 33, s, 0x00000600, 0x2C0EBC11, 0xCEE1174C);
    s := NextStep(b, 34, s, 0xB131C0F0, 0x21796AD4, 0x811BEA82);
    s := NextStep(b, 35, s, 0x16263BC6, 0xDCBBB0CB, 0x4B03AF04);
    s := NextStep(b, 36, s, 0x4EBED41E, 0x0F511FD8, 0x085E5AB5);
    s := NextStep(b, 37, s, 0x626380A1, 0xDC63973F, 0xF72EEC32);
    s := NextStep(b, 38, s, 0x16263806, 0x4C986405, 0x03D447F6);
    s := NextStep(b, 39, s, 0x000018C0, 0x32DE1CBA, 0xF718E5CF);
  }

  lemma Steps5(b: seq<Byte>)
    requires |b| == BLOCK && WordsOf(b, 5, 0xD2E138C4, 0x00000F00, 0x3AFB5079, 0x898E04E5,
                    0xE2BA3C2B, 0x000060C0, 0x053A37CD, 0x74458547)
    requires StepsOf(b, 5, State(0x32DE1CBA, 0x4C986405, 0xF718E5CF, 0x03D447F6, 0xF72EEC32))
    ensures StepsOf(b, 6, State(0xBEAD02CA, 0xA01B846C, 0x8714787C, 0x503CA382, 0xFB86C6AB))
  {
    hide Steps, Words;
    var s := Steps(INITIAL, b, 40);
    s := NextStep(b, 40, s, 0xD2E138C4, 0xFC87DEDF, 0x53261901);
    s := NextStep(b, 41, s, 0x00000F00, 0x970A0D5C, 0x8CB7872E);
    s := NextStep(b, 42, s, 0x3AFB5079, 0x7F193DC5, 0xFF21F7B7);
    s := NextStep(b, 43, s, 0x898E04E5, 0xEE1B1AAF, 0x25C28357);
    s := NextStep(b, 44, s, 0xE2BA3C2B, 0x40F28E09, 0x5FC64F71);
    s := NextStep(b, 45, s, 0x000060C0, 0x1C51E1F2, 0xFB86C6AB);
    s := NextStep(b, 46, s, 0x053A37CD, 0xA01B846C, 0x503CA382);
    s := NextStep(b, 47, s, 0x74458547, 0xBEAD02CA, 0x8714787C);
  }

  lemma Steps6(b: seq<Byte>)
    requires |b| == BLOCK && WordsOf(b, 6, 0xDA9415ED, 0x26380A16, 0x626383A1, 0x4EBF54DE,
                    0x3835B44B, 0x0000F600, 0x1E84C7A3, 0x98E04D98)
    requires StepsOf(b, 6, State(0xBEAD02CA, 0xA01B846C, 0x8714787C, 0x503CA382, 0xFB86C6AB))
    ensures StepsOf(b, 7, State(0x5E6456AF, 0x7B71F76D, 0x09FA7C76, 0x792410DB, 0x8E11EB59))
  {
    hide Steps, Words;
    var s := Steps(INITIAL, b, 48);
    s := NextStep(b, 48, s, 0xDA9415ED, 0xBAF39337, 0x2806E11B);
    s := NextStep(b, 49, s, 0x26380A16, 0x120731C5, 0xAFAB40B2);
    s := NextStep(b, 50, s, 0x626383A1, 0x641DB2CE, 0xEEBCE4CD);
    s := NextStep(b, 51, s, 0x4EBF54DE, 0x3847AD66, 0x4481CC71);
    s := NextStep(b, 52, s, 0x3835B44B, 0xE490436D, 0x99076CB3);
    s := NextStep(b, 53, s, 0x0000F600, 0x27E9F1D8, 0x8E11EB59);
    s := NextStep(b, 54, s, 0x1E84C7A3, 0x7B71F76D, 0x792410DB);
    s := NextStep(b, 55, s, 0x98E04D98, 0x5E6456AF, 0x09FA7C76);
  }

  lemma Steps7(b: seq<Byte>)
    requires |b| == BLOCK && WordsOf(b, 7, 0x651D16A0, 0x62658CA1, 0x458544D6, 0x44584CB7,
                    0x7BA06619, 0x6380AEA2, 0x0AE55269, 0x627B49A1)
    requires StepsOf(b, 7, State(0x5E6456AF, 0x7B71F76D, 0x09FA7C76, 0x792410DB, 0x8E11EB59))
    ensures StepsOf(b, 8, State(0x6B61C9E1, 0xB66C020B, 0x9523272C, 0xF5D5B051, 0x8FD4B796))
  {
    hide Steps, Words;
    var s := Steps(INITIAL, b, 56);
    s := NextStep(b, 56, s, 0x651D16A0, 0xC846093F, 0x5EDC7DDB);
    s := NextStep(b, 57, s, 0x62658CA1, 0xD262FF50, 0xD79915AB);
    s := NextStep(b, 58, s, 0x458544D6, 0x09D785FD, 0xF211824F);
    s := NextStep(b, 59, s, 0x44584CB7, 0x3F52DE5A, 0x3498BFD4);
    s := NextStep(b, 60, s, 0x7BA06619, 0xD756C147, 0x4275E17F);
    s := NextStep(b, 61, s, 0x6380AEA2, 0x548C9CB2, 0x8FD4B796);
    s := NextStep(b, 62, s, 0x0AE55269, 0xB66C020B, 0xF5D5B051);
    s := NextStep(b, 63, s, 0x627B49A1, 0x6B61C9E1, 0x9523272C);
  }

  lemma Steps8(b: seq<Byte>)
    requires |b| == BLOCK && WordsOf(b, 8, 0x7CD45C9D, 0x000F0000, 0xFB50753A, 0xEC6765E8,
                    0xBA3C2BE2, 0x0060C000, 0x3A37CD05, 0x458546F4)
    requires StepsOf(b, 8, State(0x6B61C9E1, 0xB66C020B, 0x9523272C, 0xF5D5B051, 0x8FD4B796))
    ensures StepsOf(b, 9, State(0x39859DE7, 0xC199F8C7, 0x8FC96230, 0x125C24F0, 0xDE37534A))
  {
    hide Steps, Words;
    var s := Steps(INITIAL, b, 64);
    s := NextStep(b, 64, s, 0x7CD45C9D, 0x19DFA7AC, 0xED9B0082);
    s := NextStep(b, 65, s, 0x000F0000, 0x101655F9, 0x5AD87278);
    s := NextStep(b, 66, s, 0xFB50753A, 0x0C3DF2B4, 0x0677E9EB);
    s := NextStep(b, 67, s, 0xEC6765E8, 0x78DD4D2B, 0x4405957E);
    s := NextStep(b, 68, s, 0xBA3C2BE2, 0x497093C0, 0x030F7CAD);
    s := NextStep(b, 69, s, 0x0060C000, 0x3F2588C2, 0xDE37534A);
    s := NextStep(b, 70, s, 0x3A37CD05, 0xC199F8C7, 0x125C24F0);
    s := NextStep(b, 71, s, 0x458546F4, 0x39859DE7, 0x8FC96230);
  }

  lemma Steps9(b: seq<Byte>)
    requires |b| == BLOCK && WordsOf(b, 9, 0xB8599DD6, 0x380A1A26, 0x01E02203, 0xE7CC3456,
                    0xE6E60B69, 0x00F60A00, 0x5795EF4F, 0x822E0879)
    requires StepsOf(b, 9, State(0x39859DE7, 0xC199F8C7, 0x8FC96230, 0x125C24F0, 0xDE37534A))
    ensures StepsOf(b, 10, State(0x42541B35, 0x5738D5E1, 0x21834873, 0x681E6DF6, 0xD8FDF6AD))
  {
    hide Steps, Words;
    var s := Steps(INITIAL, b, 72);
    s := NextStep(b, 72, s, 0xB8599DD6, 0xEDB42DE4, 0xF0667E31);
    s := NextStep(b, 73, s, 0x380A1A26, 0x11793F6F, 0xCE616779);
    s := NextStep(b, 74, s, 0x01E02203, 0x5EE76897, 0x3B6D0B79);
    s := NextStep(b, 75, s, 0xE7CC3456, 0x63F7DAB7, 0xC45E4FDB);
    s := NextStep(b, 76, s, 0xE6E60B69, 0xA079B7D9, 0xD7B9DA25);
    s := NextStep(b, 77, s, 0x00F60A00, 0x860D21CC, 0xD8FDF6AD);
    s := NextStep(b, 78, s, 0x5795EF4F, 0x5738D5E1, 0x681E6DF6);
    s := NextStep(b, 79, s, 0x822E0879, 0x42541B35, 0x21834873);
  }

  lemma CompressedAbc(b: seq<Byte>)
    requires IsAbc(b)
    ensures Compress(INITIAL, b) == State(0xA9993E36, 0x4706816A, 0xBA3E2571, 0x7850C26C, 0x9CD0D89D)
  {
    FirstGroups(b);
    StepsUnfold(INITIAL, b, 0);
    assert StepsOf(b, 0, INITIAL);
    assert StepsOf(b, 10, State(0x42541B35, 0x5738D5E1, 0x21834873, 0x681E6DF6, 0xD8FDF6AD)) by {
      hide WordsOf, StepsOf;
      Words3(b); Words4(b); Words5(b); Words6(b); Words7(b); Words8(b); Words9(b);
      Steps0(b); Steps1(b); Steps2(b); Steps3(b); Steps4(b); Steps5(b); Steps6(b); Steps7(b); Steps8(b); Steps9(b);
    }
    hide Steps;
  }

  lemma OneBlock(m: seq<Byte>)
    requires |m| == BLOCK
    ensures Fold(Compress, INITIAL, m) == Compress(INITIAL, m)
  {
    hide Compress;
    assert m[..BLOCK] == m && m[BLOCK..] == [];
  }

  lemma DigestBytes(s: State)
    requires s == State(0xA9993E36, 0x4706816A, 0xBA3E2571, 0x7850C26C, 0x9CD0D89D)
    ensures Output(s) == [0xA9, 0x99, 0x3E, 0x36, 0x47, 0x06, 0x81, 0x6A, 0xBA, 0x3E,
                          0x25, 0x71, 0x78, 0x50, 0xC2, 0x6C, 0x9C, 0xD0, 0xD8, 0x9D]
  {
    hide Sha256.PutWord;
    WordBytes(0xA9993E36, 0xA9993E36, 0xA9, 0x99, 0x3E, 0x36);
    WordBytes(0x4706816A, 0x4706816A, 0x47, 0x06, 0x81, 0x6A);
    WordBytes(0xBA3E2571, 0xBA3E2571, 0xBA, 0x3E, 0x25, 0x71);
    WordBytes(0x7850C26C, 0x7850C26C, 0x78, 0x50, 0xC2, 0x6C);
    WordBytes(0x9CD0D89D, 0x9CD0D89D, 0x9C, 0xD0, 0xD8, 0x9D);
  }

  // The digest of "abc" is the published one.
  lemma HashOfAbc()
    ensures Hash(ABC) == [0xA9, 0x99, 0x3E, 0x36, 0x47, 0x06, 0x81, 0x6A, 0xBA, 0x3E,
                          0x25, 0x71, 0x78, 0x50, 0xC2, 0x6C, 0x9C, 0xD0, 0xD8, 0x9D]
  {
    PaddedAbc();
    var b := Padded(ABC, true);
    CompressedAbc(b);
    OneBlock(b);
    hide *;
    DigestBytes(Compress(INITIAL, b));
  }
}
