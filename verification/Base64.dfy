// The Base64 encoder and the two-pass decoder of external_libs/mbedtls/library/base64.c, against
// section 4 of RFC 4648.
module Base64 {
  import opened Arithmetic
  import opened Bytes

  const BUFFER_TOO_SMALL: int := -0x002A
  const INVALID_CHARACTER: int := -0x002C

  const CR: Byte := 13
  const LF: Byte := 10
  const SPACE: Byte := 32
  const PAD: Byte := 61

  // ---------- the two tables (base64.c:27-66), by their ranges ----------

  function EncodeMap(v: int): Byte
    requires 0 <= v < 64
  {
    if v < 26 then 65 + v else if v < 52 then 71 + v else if v < 62 then v - 4 else if v == 62 then 43 else 47
  }

  // 64 for the padding, 127 for what is no symbol.
  function DecodeMap(c: Byte): (v: int)
    ensures 0 <= v < 128
  {
    if 65 <= c <= 90 then c - 65
    else if 97 <= c <= 122 then c - 71
    else if 48 <= c <= 57 then c + 4
    else if c == 43 then 62
    else if c == 47 then 63
    else if c == PAD then 64
    else 127
  }

  lemma MapsAreInverse(v: int, c: Byte)
    ensures 0 <= v < 64 ==> DecodeMap(EncodeMap(v)) == v
    ensures DecodeMap(c) < 64 ==> EncodeMap(DecodeMap(c)) == c
  {}

  // Table 1 of RFC 4648.
  const UPPER: string := "ABCDEFGHIJKLMNOPQRSTUVWXYZ"
  const LOWER: string := "abcdefghijklmnopqrstuvwxyz"
  const DIGITS: string := "0123456789"

  lemma AlphabetIsTable1(v: nat)
    requires v < 64
    ensures EncodeMap(v) == (UPPER + LOWER + DIGITS + "+/")[v] as int
  {
    if v < 26 {
      UpperCase(v);
    } else if v < 52 {
      LowerCase(v - 26);
    } else if v < 62 {
      Digit(v - 52);
    }
  }

  lemma PaddingIsSign(c: Byte)
    ensures DecodeMap(c) == 64 <==> c == '=' as int
  {}

  lemma UpperCase(v: nat)
    requires v < 26
    ensures UPPER[v] as int == 65 + v
  {}

  lemma LowerCase(v: nat)
    requires v < 26
    ensures LOWER[v] as int == 97 + v
  {}

  lemma Digit(v: nat)
    requires v < 10
    ensures DIGITS[v] as int == 48 + v
  {}

  predicate IsData(c: Byte) {
    DecodeMap(c) < 64
  }

  predicate IsBreak(c: Byte) {
    c == CR || c == LF || c == SPACE
  }

  // ---------- RFC 4648, section 4 ----------

  // A group of 24 bits as four symbols of 6 bits.
  function Symbols(group: nat): (s: seq<Byte>)
    requires group < 0x100_0000
    ensures |s| == 4 && forall i :: 0 <= i < 4 ==> IsData(s[i])
  {
    [EncodeMap(group / 0x4_0000), EncodeMap(group / 0x1000 % 64), EncodeMap(group / 64 % 64), EncodeMap(group % 64)]
  }

  function Group(a: Byte, b: Byte, c: Byte): (g: nat)
    ensures g < 0x100_0000
  {
    a * 0x1_0000 + b * 0x100 + c
  }

  // The last group may lack one or two bytes; padding stands for the symbols that hold none.
  function Encoded(s: seq<Byte>): seq<Byte>
    decreases |s|
  {
    if |s| == 0 then []
    else if |s| == 1 then Symbols(Group(s[0], 0, 0))[..2] + [PAD, PAD]
    else if |s| == 2 then Symbols(Group(s[0], s[1], 0))[..3] + [PAD]
    else Symbols(Group(s[0], s[1], s[2])) + Encoded(s[3..])
  }

  lemma {:induction false} EncodedLength(s: seq<Byte>)
    ensures |Encoded(s)| == (|s| / 3 + if |s| % 3 != 0 then 1 else 0) * 4
    decreases |s|
  {
    hide Symbols, Group;
    if |s| >= 3 {
      EncodedLength(s[3..]);
    }
  }

  // Section 10 of RFC 4648.
  lemma PublishedExamples()
    ensures Encoded(Ascii("f")) == Ascii("Zg==") && Encoded(Ascii("fo")) == Ascii("Zm8=")
    ensures Encoded(Ascii("foobar")) == Ascii("Zm9vYmFy")
  {
    SymbolsAre(Group(102, 0, 0), 25, 32, 0, 0);
    SymbolsAre(Group(102, 111, 0), 25, 38, 60, 0);
    SymbolsAre(Group(102, 111, 111), 25, 38, 61, 47);
    SymbolsAre(Group(98, 97, 114), 24, 38, 5, 50);
    hide Symbols, Group;
    TwoGroups(102, 111, 111, 98, 97, 114);
    assert Ascii("f") == [102] && Ascii("fo") == [102, 111] && Ascii("foobar") == [102, 111, 111, 98, 97, 114];
  }

  lemma TwoGroups(a: Byte, b: Byte, c: Byte, d: Byte, e: Byte, f: Byte)
    ensures Encoded([a, b, c, d, e, f]) == Symbols(Group(a, b, c)) + Symbols(Group(d, e, f))
  {
    hide Symbols, Group;
    var s := [d, e, f];
    assert [a, b, c, d, e, f][3..] == s && s[3..] == [];
    assert Encoded(s) == Symbols(Group(d, e, f)) + [];
  }

  // Four numbers of six bits give their four characters.
  lemma SymbolsAre(g: nat, a: nat, b: nat, c: nat, d: nat)
    requires a < 64 && b < 64 && c < 64 && d < 64 && g == a * 0x4_0000 + b * 0x1000 + c * 64 + d
    ensures Symbols(g) == [EncodeMap(a), EncodeMap(b), EncodeMap(c), EncodeMap(d)]
  {
    hide EncodeMap;
    DivMod(g, 0x4_0000, a, b * 0x1000 + c * 64 + d);
    DivMod(g, 0x1000, a * 64 + b, c * 64 + d);
    DivMod(g, 64, a * 0x1000 + b * 64 + c, d);
    DivMod(a * 64 + b, 64, a, b);
    DivMod(a * 0x1000 + b * 64 + c, 64, a * 64 + b, c);
  }

  // ---------- what the two passes of the decoder compute ----------

  datatype Scan = Invalid | Valid(symbols: nat, pads: nat)

  function SpacesEnd(t: seq<Byte>, i: nat): (e: nat)
    requires i <= |t|
    ensures i <= e <= |t| && (forall k :: i <= k < e ==> t[k] == SPACE) && (e < |t| ==> t[e] != SPACE)
    decreases |t| - i
  {
    if i < |t| && t[i] == SPACE then SpacesEnd(t, i + 1) else i
  }

  // The first pass from position i on, with n symbols of which j are padding behind it.
  function ScanFrom(t: seq<Byte>, i: nat, n: nat, j: nat): Scan
    requires i <= |t|
    decreases |t| - i
  {
    var e := SpacesEnd(t, i);
    if e == |t| then Valid(n, j)
    else if (e + 2 <= |t| && t[e] == CR && t[e + 1] == LF) || t[e] == LF then ScanFrom(t, e + 1, n, j)
    else if e != i then Invalid
    else if t[e] == PAD then if j + 1 > 2 then Invalid else ScanFrom(t, e + 1, n + 1, j + 1)
    else if !IsData(t[e]) || j != 0 then Invalid
    else ScanFrom(t, e + 1, n + 1, j)
  }

  // The symbols of t from position i on: all but the characters of line breaks.
  function Filter(t: seq<Byte>, i: nat): seq<Byte>
    requires i <= |t|
    decreases |t| - i
  {
    if i == |t| then [] else if IsBreak(t[i]) then Filter(t, i + 1) else [t[i]] + Filter(t, i + 1)
  }

  const WORD: nat := 0x1_0000_0000

  // The registers of the second pass, and what it has written.
  datatype Decoder = Decoder(x: nat, n: nat, j: int, out: seq<Byte>)

  const START: Decoder := Decoder(0, 0, 3, [])

  // x << 6 | v in 32 bits; the low six bits of the shifted word are clear.
  function Shift(x: nat, v: nat): nat {
    x * 64 % WORD + v
  }

  function High(x: nat): Byte {
    x / 0x1_0000 % 256
  }

  function Middle(x: nat): Byte {
    x / 0x100 % 256
  }

  function Low(x: nat): Byte {
    x % 256
  }

  function Written(x: nat, j: int): seq<Byte> {
    (if j > 0 then [High(x)] else []) + (if j > 1 then [Middle(x)] else []) + (if j > 2 then [Low(x)] else [])
  }

  function Feed(d: Decoder, c: Byte): Decoder {
    var j := d.j - if DecodeMap(c) == 64 then 1 else 0;
    var x := Shift(d.x, DecodeMap(c) % 64);
    if d.n + 1 < 4 then Decoder(x, d.n + 1, j, d.out) else Decoder(x, 0, j, d.out + Written(x, j))
  }

  function FeedAll(d: Decoder, s: seq<Byte>): Decoder
    decreases |s|
  {
    if s == [] then d else FeedAll(Feed(d, s[0]), s[1..])
  }

  lemma {:induction false} FeedAppend(d: Decoder, s: seq<Byte>, t: seq<Byte>)
    ensures FeedAll(d, s + t) == FeedAll(FeedAll(d, s), t)
    decreases |s|
  {
    hide Feed;
    if s == [] {
      assert s + t == t;
    } else {
      assert (s + t)[1..] == s[1..] + t;
      FeedAppend(Feed(d, s[0]), s[1..], t);
    }
  }

  // ---------- the round trip ----------

  function Shifted(x: nat, v1: nat, v2: nat, v3: nat, v4: nat): nat {
    Shift(Shift(Shift(Shift(x, v1), v2), v3), v4)
  }

  // Four symbols leave their 24 bits in the low bits of x.
  lemma FourSymbols(x: nat, v1: nat, v2: nat, v3: nat, v4: nat)
    requires v1 < 64 && v2 < 64 && v3 < 64 && v4 < 64
    ensures var x4 := Shifted(x, v1, v2, v3, v4);
            var g := v1 * 0x4_0000 + v2 * 0x1000 + v3 * 64 + v4;
            High(x4) == g / 0x1_0000 && Middle(x4) == g / 0x100 % 256 && Low(x4) == g % 256
  {
    var x1 := Shift(x, v1);
    var x2 := Shift(x1, v2);
    var x3 := Shift(x2, v3);
    var x4 := Shift(x3, v4);
    var k1, k2, k3, k4 := Dropped(x), Dropped(x1), Dropped(x2), Dropped(x3);
    LowBits(x - k1 * 0x400_0000 - k2 * 0x10_0000 - k3 * 0x4000 - k4 * 0x100, v1 * 0x4_0000 + v2 * 0x1000 + v3 * 64 + v4, x4);
  }

  // What the shift by six drops at the top of the word.
  function Dropped(x: nat): (k: nat)
    ensures x * 64 % WORD == x * 64 - k * WORD
  {
    x * 64 / WORD
  }

  lemma LowBits(k: int, g: nat, x: nat)
    requires g < 0x100_0000 && x == k * 0x100_0000 + g
    ensures x % 0x100_0000 == g && x % 256 == g % 256
    ensures x / 0x100 % 256 == g / 0x100 % 256 && x / 0x1_0000 % 256 == g / 0x1_0000
  {
    DivMod(x, 0x100_0000, k, g);
    DivMod(x, 0x100, k * 0x1_0000 + g / 0x100, g % 0x100);
    DivMod(x / 0x100, 0x100, k * 0x100 + g / 0x100 / 0x100, g / 0x100 % 0x100);
    DivMod(x, 0x1_0000, k * 0x100 + g / 0x1_0000, g % 0x1_0000);
    DivMod(x / 0x1_0000, 0x100, k, g / 0x1_0000);
  }

  // The six-bit value that a symbol feeds; padding feeds zeros.
  function Fed(c: Byte): nat {
    DecodeMap(c) % 64
  }

  function Pads(c: Byte): nat {
    if DecodeMap(c) == 64 then 1 else 0
  }

  lemma SymbolValues(g: nat) returns (v1: nat, v2: nat, v3: nat, v4: nat)
    requires g < 0x100_0000
    ensures v1 < 64 && v2 < 64 && v3 < 64 && v4 < 64 && v1 * 0x4_0000 + v2 * 0x1000 + v3 * 64 + v4 == g
    ensures var s := Symbols(g);
            && Fed(s[0]) == v1 && Fed(s[1]) == v2 && Fed(s[2]) == v3 && Fed(s[3]) == v4
            && Pads(s[0]) == 0 && Pads(s[1]) == 0 && Pads(s[2]) == 0 && Pads(s[3]) == 0
  {
    hide Fed, Pads, EncodeMap;
    v1, v2, v3, v4 := g / 0x4_0000, g / 0x1000 % 64, g / 64 % 64, g % 64;
    SixBits(g);
    SymbolFeeds(v1);
    SymbolFeeds(v2);
    SymbolFeeds(v3);
    SymbolFeeds(v4);
  }

  lemma SixBits(g: nat)
    ensures g / 0x4_0000 * 0x4_0000 + g / 0x1000 % 64 * 0x1000 + g / 64 % 64 * 64 + g % 64 == g
  {
    assert g / 0x1000 == g / 64 / 64 && g / 0x4_0000 == g / 0x1000 / 64;
  }

  lemma SymbolFeeds(v: nat)
    requires v < 64
    ensures Fed(EncodeMap(v)) == v && Pads(EncodeMap(v)) == 0
  {
    hide EncodeMap, DecodeMap;
    MapsAreInverse(v, 0);
  }

  // A whole group gives its three bytes back.
  lemma GroupDecoded(d: Decoder, g: nat)
    requires d.n == 0 && d.j == 3 && g < 0x100_0000
    ensures var e := FeedAll(d, Symbols(g));
            e.n == 0 && e.j == 3 && e.out == d.out + [g / 0x1_0000, g / 0x100 % 256, g % 256]
  {
    hide Fed, Pads, Feed, FeedAll, High, Middle, Low, Shifted, Symbols;
    var s := Symbols(g);
    var v1, v2, v3, v4 := SymbolValues(g);
    FourSymbols(d.x, v1, v2, v3, v4);
    assert s == [s[0], s[1], s[2], s[3]];
    FeedFour(d, s[0], s[1], s[2], s[3]);
    FedFour(d, s[0], s[1], s[2], s[3]);
  }

  lemma FeedFour(d: Decoder, a: Byte, b: Byte, c: Byte, e: Byte)
    ensures FeedAll(d, [a, b, c, e]) == Feed(Feed(Feed(Feed(d, a), b), c), e)
  {
    hide Feed;
    var d1 := Feed(d, a);
    var d2 := Feed(d1, b);
    var d3 := Feed(d2, c);
    assert [a, b, c, e][1..] == [b, c, e] && [b, c, e][1..] == [c, e] && [c, e][1..] == [e] && [e][1..] == [];
    assert FeedAll(d, [a, b, c, e]) == FeedAll(d1, [b, c, e]);
    assert FeedAll(d1, [b, c, e]) == FeedAll(d2, [c, e]);
    assert FeedAll(d2, [c, e]) == FeedAll(d3, [e]);
    assert FeedAll(d3, [e]) == FeedAll(Feed(d3, e), []);
  }

  lemma FedFour(d: Decoder, a: Byte, b: Byte, c: Byte, e: Byte)
    requires d.n == 0
    ensures var x := Shifted(d.x, Fed(a), Fed(b), Fed(c), Fed(e));
            var j := d.j - Pads(a) - Pads(b) - Pads(c) - Pads(e);
            Feed(Feed(Feed(Feed(d, a), b), c), e) == Decoder(x, 0, j, d.out + Written(x, j))
  {
    hide DecodeMap, Shift, Written;
  }

  lemma PaddingValue()
    ensures Fed(PAD) == 0 && Pads(PAD) == 1
  {}

  lemma OneByteBits(a: Byte, v1: nat, v2: nat, v3: nat, v4: nat)
    requires v3 < 64 && v4 < 64 && v1 * 0x4_0000 + v2 * 0x1000 + v3 * 64 + v4 == Group(a, 0, 0)
    ensures v3 == 0 && v4 == 0 && (v1 * 0x4_0000 + v2 * 0x1000 + 0 * 64 + 0) / 0x1_0000 == a
  {
    var k := a * 16 - v1 * 64 - v2;
    assert v3 * 64 + v4 == 0x1000 * k && 0 <= v3 * 64 + v4 < 0x1000;
    assert k == 0;
    DivMod(v1 * 0x4_0000 + v2 * 0x1000, 0x1_0000, a, 0);
  }

  lemma TwoBytesBits(a: Byte, b: Byte, v1: nat, v2: nat, v3: nat, v4: nat)
    requires v3 < 64 && v4 < 64 && v1 * 0x4_0000 + v2 * 0x1000 + v3 * 64 + v4 == Group(a, b, 0)
    ensures v4 == 0
    ensures var g := v1 * 0x4_0000 + v2 * 0x1000 + v3 * 64 + 0; g / 0x1_0000 == a && g / 0x100 % 256 == b
  {
    var k := a * 0x400 + b * 4 - v1 * 0x1000 - v2 * 64 - v3;
    assert v4 == 64 * k;
    GroupBytes(a, b, 0);
  }

  // The last group with one byte, and with two.
  lemma OneByteDecoded(d: Decoder, a: Byte)
    requires d.n == 0 && d.j == 3
    ensures FeedAll(d, Symbols(Group(a, 0, 0))[..2] + [PAD, PAD]).out == d.out + [a]
  {
    hide Fed, Pads, Feed, FeedAll, High, Middle, Low, Shifted, Symbols;
    var g := Group(a, 0, 0);
    var s := Symbols(g);
    var v1, v2, v3, v4 := SymbolValues(g);
    OneByteBits(a, v1, v2, v3, v4);
    hide Group;
    PaddingValue();
    FourSymbols(d.x, v1, v2, 0, 0);
    FeedFour(d, s[0], s[1], PAD, PAD);
    FedFour(d, s[0], s[1], PAD, PAD);
    assert s[..2] + [PAD, PAD] == [s[0], s[1], PAD, PAD];
  }

  lemma TwoBytesDecoded(d: Decoder, a: Byte, b: Byte)
    requires d.n == 0 && d.j == 3
    ensures FeedAll(d, Symbols(Group(a, b, 0))[..3] + [PAD]).out == d.out + [a, b]
  {
    hide Fed, Pads, Feed, FeedAll, High, Middle, Low, Shifted, Symbols;
    var g := Group(a, b, 0);
    var s := Symbols(g);
    var v1, v2, v3, v4 := SymbolValues(g);
    TwoBytesBits(a, b, v1, v2, v3, v4);
    hide Group;
    PaddingValue();
    FourSymbols(d.x, v1, v2, v3, 0);
    FeedFour(d, s[0], s[1], s[2], PAD);
    FedFour(d, s[0], s[1], s[2], PAD);
    assert s[..3] + [PAD] == [s[0], s[1], s[2], PAD];
  }

  lemma {:induction false} EncodedDecodes(d: Decoder, s: seq<Byte>)
    requires d.n == 0 && d.j == 3
    ensures FeedAll(d, Encoded(s)).out == d.out + s
    decreases |s|
  {
    hide Feed, Symbols, Group;
    if |s| == 1 {
      OneByteDecoded(d, s[0]);
    } else if |s| == 2 {
      TwoBytesDecoded(d, s[0], s[1]);
      assert s == [s[0], s[1]];
    } else if |s| >= 3 {
      var g := Group(s[0], s[1], s[2]);
      GroupDecoded(d, g);
      GroupBytes(s[0], s[1], s[2]);
      FeedAppend(d, Symbols(g), Encoded(s[3..]));
      EncodedDecodes(FeedAll(d, Symbols(g)), s[3..]);
      assert s == [s[0], s[1], s[2]] + s[3..];
    }
  }

  lemma GroupBytes(a: Byte, b: Byte, c: Byte)
    ensures var g := Group(a, b, c); g / 0x1_0000 == a && g / 0x100 % 256 == b && g % 256 == c
  {
    assert Group(a, b, c) / 0x100 == a * 0x100 + b;
  }

  // ---------- what the first pass accepts ----------

  // Data symbols, then p signs of padding.
  predicate DataThenPads(s: seq<Byte>, p: nat) {
    && p <= |s|
    && (forall i :: 0 <= i < |s| - p ==> IsData(s[i]))
    && (forall i :: |s| - p <= i < |s| ==> s[i] == PAD)
  }

  lemma DataThenPadsTail(s: seq<Byte>, p: nat)
    requires DataThenPads(s, p) && s != []
    ensures if |s| > p then IsData(s[0]) && DataThenPads(s[1..], p) else s[0] == PAD && DataThenPads(s[1..], p - 1)
  {
    hide DecodeMap;
  }

  lemma NoData()
    ensures DataThenPads([], 0)
  {}

  lemma PadCount(s: seq<Byte>, p: nat)
    requires DataThenPads(s, p)
    ensures p <= |s|
  {}

  lemma DataThenPadsCons(c: Byte, s: seq<Byte>, p: nat)
    requires DataThenPads(s, p)
    ensures IsData(c) ==> DataThenPads([c] + s, p)
    ensures c == PAD && |s| == p ==> DataThenPads([c] + s, p + 1)
  {
    hide DecodeMap;
  }

  // t from i on is s with line breaks inserted: LF or CR LF, with spaces in front of them or at the end.
  predicate Broken(t: seq<Byte>, i: nat, s: seq<Byte>)
    requires i <= |t|
    decreases |t| - i
  {
    var e := SpacesEnd(t, i);
    if e == |t| then s == []
    else if (e + 2 <= |t| && t[e] == CR && t[e + 1] == LF) || t[e] == LF then Broken(t, e + 1, s)
    else e == i && s != [] && t[e] == s[0] && Broken(t, e + 1, s[1..])
  }

  lemma {:induction false} FilterSpaces(t: seq<Byte>, i: nat)
    requires i <= |t|
    ensures Filter(t, i) == Filter(t, SpacesEnd(t, i))
    decreases |t| - i
  {
    if i < |t| && t[i] == SPACE {
      FilterSpaces(t, i + 1);
    }
  }

  lemma SymbolKinds()
    ensures !IsData(PAD) && !IsBreak(PAD) && IsBreak(CR) && IsBreak(LF) && IsBreak(SPACE)
    ensures forall c: Byte :: IsData(c) ==> !IsBreak(c)
  {}

  lemma {:induction false} BrokenIsAccepted(t: seq<Byte>, i: nat, n: nat, j: nat, s: seq<Byte>, p: nat)
    requires i <= |t| && Broken(t, i, s) && DataThenPads(s, p) && j + p <= 2 && (j > 0 ==> |s| == p)
    ensures ScanFrom(t, i, n, j) == Valid(n + |s|, j + p)
    decreases |t| - i
  {
    PadCount(s, p);
    SymbolKinds();
    hide IsData, DataThenPads;
    var e := SpacesEnd(t, i);
    if e == |t| {
    } else if (e + 2 <= |t| && t[e] == CR && t[e + 1] == LF) || t[e] == LF {
      BrokenIsAccepted(t, e + 1, n, j, s, p);
    } else {
      DataThenPadsTail(s, p);
      if t[e] == PAD {
        BrokenIsAccepted(t, e + 1, n + 1, j + 1, s[1..], p - 1);
      } else {
        BrokenIsAccepted(t, e + 1, n + 1, j, s[1..], p);
      }
    }
  }

  // The symbols of a text are what the breaks were inserted into.
  lemma {:induction false} BrokenIsFiltered(t: seq<Byte>, i: nat, s: seq<Byte>)
    requires i <= |t| && Broken(t, i, s) && forall k :: 0 <= k < |s| ==> !IsBreak(s[k])
    ensures Filter(t, i) == s
    decreases |t| - i
  {
    var e := SpacesEnd(t, i);
    FilterSpaces(t, i);
    if e == |t| {
    } else if (e + 2 <= |t| && t[e] == CR && t[e + 1] == LF) || t[e] == LF {
      BrokenIsFiltered(t, e + 1, s);
    } else {
      BrokenIsFiltered(t, e + 1, s[1..]);
      assert s == [s[0]] + s[1..];
    }
  }

  lemma {:induction false} AcceptedIsBroken(t: seq<Byte>, i: nat, n: nat, j: nat)
    requires i <= |t| && j <= 2 && ScanFrom(t, i, n, j).Valid?
    ensures var r := ScanFrom(t, i, n, j); var s := Filter(t, i);
            && Broken(t, i, s) && r.symbols == n + |s| && j <= r.pads <= 2 && DataThenPads(s, r.pads - j)
            && (j > 0 ==> |s| == r.pads - j)
    decreases |t| - i
  {
    hide IsData, DataThenPads;
    SymbolKinds();
    var e := SpacesEnd(t, i);
    FilterSpaces(t, i);
    if e == |t| {
      NoData();
    } else if (e + 2 <= |t| && t[e] == CR && t[e + 1] == LF) || t[e] == LF {
      AcceptedIsBroken(t, e + 1, n, j);
    } else {
      var k := if t[e] == PAD then j + 1 else j;
      AcceptedIsBroken(t, e + 1, n + 1, k);
      DataThenPadsCons(t[e], Filter(t, e + 1), ScanFrom(t, e + 1, n + 1, k).pads - k);
      assert Filter(t, i)[1..] == Filter(t, e + 1);
    }
  }

  // The first pass accepts exactly the texts that are data symbols and at most two signs of padding,
  // with line breaks inserted.
  lemma AcceptedIff(t: seq<Byte>)
    ensures ScanFrom(t, 0, 0, 0).Valid?
            <==> exists s, p: nat :: Broken(t, 0, s) && DataThenPads(s, p) && p <= 2
  {
    if ScanFrom(t, 0, 0, 0).Valid? {
      AcceptedIsBroken(t, 0, 0, 0);
      assert DataThenPads(Filter(t, 0), ScanFrom(t, 0, 0, 0).pads);
    }
    forall s, p: nat | Broken(t, 0, s) && DataThenPads(s, p) && p <= 2 ensures ScanFrom(t, 0, 0, 0).Valid? {
      BrokenIsAccepted(t, 0, 0, 0, s, p);
    }
  }

  // ---------- lengths ----------

  function PadsOf(n: nat): nat {
    if n % 3 == 1 then 2 else if n % 3 == 2 then 1 else 0
  }

  lemma {:induction false} EncodedShape(s: seq<Byte>)
    ensures DataThenPads(Encoded(s), PadsOf(|s|))
    decreases |s|
  {
    hide IsData, Symbols, Group, DataThenPads;
    if |s| == 0 {
      NoData();
    } else if |s| == 1 {
      QuadShape(Symbols(Group(s[0], 0, 0)), 2);
    } else if |s| == 2 {
      QuadShape(Symbols(Group(s[0], s[1], 0)), 1);
    } else {
      EncodedShape(s[3..]);
      DataInFront(Symbols(Group(s[0], s[1], s[2])), Encoded(s[3..]), PadsOf(|s|));
    }
  }

  lemma QuadShape(q: seq<Byte>, p: nat)
    requires |q| == 4 && (p == 1 || p == 2) && forall i :: 0 <= i < 4 ==> IsData(q[i])
    ensures DataThenPads(q[..4 - p] + if p == 2 then [PAD, PAD] else [PAD], p)
  {
    hide IsData;
  }

  lemma DataInFront(q: seq<Byte>, s: seq<Byte>, p: nat)
    requires DataThenPads(s, p) && forall i :: 0 <= i < |q| ==> IsData(q[i])
    ensures DataThenPads(q + s, p)
  {
    hide IsData;
  }

  // The buffer that the decoder asks for.
  function Needed(n: nat, j: nat): int {
    6 * (n / 8) + (6 * (n % 8) + 7) / 8 - j
  }

  function Excess(a: int, b: int): nat {
    if a > b then a - b else 0
  }

  // After k of the symbols s, of which the last p are padding.
  lemma {:induction false} AfterPrefix(s: seq<Byte>, p: nat, k: nat)
    requires DataThenPads(s, p) && p <= 2 && k <= |s|
    ensures var d := FeedAll(START, s[..k]); var data := |s| - p;
            && d.n == k % 4 && d.j == 3 - Excess(k, data)
            && |d.out| == 3 * (k / 4) - Excess(k / 4 * 4, data)
    decreases k
  {
    hide DecodeMap, Shift, High, Middle, Low;
    SymbolKinds();
    if k == 0 {
      assert s[..0] == [];
    } else {
      AfterPrefix(s, p, k - 1);
      var c := s[k - 1];
      assert s[..k] == s[..k - 1] + [c];
      FeedAppend(START, s[..k - 1], [c]);
      FeedOne(FeedAll(START, s[..k - 1]), c);
      PadsOfSymbol(c);
      assert (k - 1) % 4 + 1 == 4 ==> k / 4 == (k - 1) / 4 + 1;
    }
  }

  lemma FeedOne(d: Decoder, c: Byte)
    ensures FeedAll(d, [c]) == Feed(d, c)
  {
    hide Feed;
    assert [c][1..] == [];
  }

  lemma PadsOfSymbol(c: Byte)
    ensures IsData(c) ==> DecodeMap(c) != 64
    ensures c == PAD ==> DecodeMap(c) == 64
  {}

  // The second pass writes no more than the first pass computed: exactly that when the padding covers
  // the symbols of the unfinished quad, and otherwise one byte less for each symbol that it does not.
  lemma OutputLength(s: seq<Byte>, p: nat)
    requires DataThenPads(s, p) && p <= 2
    ensures |FeedAll(START, s).out| == Needed(|s|, p) - Excess(|s| % 4, p)
    ensures |FeedAll(START, s).out| <= Needed(|s|, p)
  {
    hide FeedAll, DataThenPads;
    PadCount(s, p);
    AfterPrefix(s, p, |s|);
    assert s[..|s|] == s;
  }

  // ---------- the encoder ----------

  // The four expressions of the source.
  lemma SymbolsOfBytes(a: Byte, b: Byte, c: Byte)
    ensures Symbols(Group(a, b, c)) ==
            [EncodeMap(a / 4 % 64), EncodeMap((a % 4 * 16 + b / 16) % 64), EncodeMap((b % 16 * 4 + c / 64) % 64), EncodeMap(c % 64)]
  {
    hide EncodeMap, Group;
    FirstSymbol(a, b, c);
    SecondSymbol(a, b, c);
    ThirdSymbol(a, b, c);
  }

  lemma FirstSymbol(a: Byte, b: Byte, c: Byte)
    ensures Group(a, b, c) / 0x4_0000 == a / 4 % 64 && Group(a, b, c) % 64 == c % 64
  {
    DivMod(Group(a, b, c), 0x4_0000, a / 4, a % 4 * 0x1_0000 + b * 256 + c);
    DivMod(Group(a, b, c), 64, a * 0x400 + b * 4 + c / 64, c % 64);
  }

  lemma SecondSymbol(a: Byte, b: Byte, c: Byte)
    ensures Group(a, b, c) / 0x1000 % 64 == (a % 4 * 16 + b / 16) % 64
  {
    DivMod(Group(a, b, c), 0x1000, a * 16 + b / 16, b % 16 * 256 + c);
    DivMod(a * 16 + b / 16, 64, a / 4, a % 4 * 16 + b / 16);
  }

  lemma ThirdSymbol(a: Byte, b: Byte, c: Byte)
    ensures Group(a, b, c) / 64 % 64 == (b % 16 * 4 + c / 64) % 64
  {
    var k, v := a * 16 + b / 16, b % 16 * 4 + c / 64;
    DivMod(Group(a, b, c), 64, k * 64 + v, c % 64);
    DivMod(k * 64 + v, 64, k, v);
  }

  method Encode(dst: array?<Byte>, dlen: nat, src: seq<Byte>, sizeMax: nat) returns (res: int, olen: nat)
    requires (dst != null ==> dlen <= dst.Length) && |src| <= sizeMax
    modifies dst
    ensures var n := |Encoded(src)|;
            if src == [] then res == 0 && olen == 0
            else if n / 4 > (sizeMax - 1) / 4 then res == BUFFER_TOO_SMALL && olen == sizeMax
            else if dst == null || dlen < n + 1 then res == BUFFER_TOO_SMALL && olen == n + 1
            else res == 0 && olen == n && dst[..n] == Encoded(src) && dst[n] == 0
  {
    EncodedLength(src);
    if |src| == 0 {
      return 0, 0;
    }
    var n := |src| / 3 + if |src| % 3 != 0 then 1 else 0;
    if n > (sizeMax - 1) / 4 {
      return BUFFER_TOO_SMALL, sizeMax;
    }
    n := n * 4;
    if dlen < n + 1 || dst == null {
      return BUFFER_TOO_SMALL, n + 1;
    }
    var p := EncodeGroups(dst, src);
    dst[p] := 0;
    res, olen := 0, p;
  }

  method EncodeGroups(dst: array<Byte>, src: seq<Byte>) returns (p: nat)
    requires |Encoded(src)| < dst.Length
    modifies dst
    ensures p == |Encoded(src)| && dst[..p] == Encoded(src)
  {
    hide EncodeMap, Group, Symbols;
    var n := |src| / 3 * 3;
    var i := 0;
    p := 0;
    assert src[0..] == src;
    while i < n
      invariant i <= n && i % 3 == 0 && p + |Encoded(src[i..])| == |Encoded(src)|
      invariant dst[..p] + Encoded(src[i..]) == Encoded(src)
    {
      assert src[i..][3..] == src[i + 3..];
      p := EncodeGroup(dst, p, src[i], src[i + 1], src[i + 2]);
      i := i + 3;
    }
    if i < |src| {
      var two := i + 1 < |src|;
      p := EncodeLast(dst, p, src[i], if two then src[i + 1] else 0, two);
    }
  }

  method EncodeGroup(dst: array<Byte>, at: nat, a: Byte, b: Byte, c: Byte) returns (p: nat)
    requires at + 4 <= dst.Length
    modifies dst
    ensures p == at + 4 && dst[..p] == old(dst[..at]) + Symbols(Group(a, b, c))
  {
    hide EncodeMap;
    SymbolsOfBytes(a, b, c);
    hide Symbols, Group;
    ghost var before := dst[..at];
    dst[at] := EncodeMap(a / 4 % 64);
    dst[at + 1] := EncodeMap((a % 4 * 16 + b / 16) % 64);
    dst[at + 2] := EncodeMap((b % 16 * 4 + c / 64) % 64);
    dst[at + 3] := EncodeMap(c % 64);
    p := at + 4;
    assert dst[..at] == before;
  }

  method EncodeLast(dst: array<Byte>, at: nat, a: Byte, b: Byte, two: bool) returns (p: nat)
    requires at + 4 <= dst.Length && (!two ==> b == 0)
    modifies dst
    ensures p == at + 4
    ensures dst[..p] == old(dst[..at]) + if two then Symbols(Group(a, b, 0))[..3] + [PAD] else Symbols(Group(a, 0, 0))[..2] + [PAD, PAD]
  {
    hide EncodeMap;
    SymbolsOfBytes(a, b, 0);
    hide Symbols, Group;
    ghost var before := dst[..at];
    dst[at] := EncodeMap(a / 4 % 64);
    dst[at + 1] := EncodeMap((a % 4 * 16 + b / 16) % 64);
    if two {
      dst[at + 2] := EncodeMap(b % 16 * 4 % 64);
    } else {
      dst[at + 2] := PAD;
    }
    dst[at + 3] := PAD;
    p := at + 4;
    assert dst[..at] == before;
  }

  // ---------- the decoder ----------

  // What the decoder makes of t: nothing for an invalid text.
  datatype Decoding = Malformed | Bytes(text: seq<Byte>, needed: nat)

  function Decoded(t: seq<Byte>): Decoding {
    var scan := ScanFrom(t, 0, 0, 0);
    if scan.Invalid? then Malformed
    else Bytes(FeedAll(START, Filter(t, 0)).out, Excess(Needed(scan.symbols, scan.pads), 0))
  }

  // However line breaks are put into the encoding of s, it decodes to s, and the room asked for is |s|.
  lemma RoundTrip(s: seq<Byte>, t: seq<Byte>)
    requires Broken(t, 0, Encoded(s))
    ensures Decoded(t) == Bytes(s, |s|)
  {
    hide *;
    var e := Encoded(s);
    var p := PadsOf(|s|);
    EncodedShape(s);
    EncodingFits(s);
    BrokenIsAccepted(t, 0, 0, 0, e, p);
    NoBreaks(e, p);
    BrokenIsFiltered(t, 0, e);
    DecodedUnfold(t, e, p);
  }

  lemma {:induction false} Unbroken(t: seq<Byte>, i: nat)
    requires i <= |t| && forall k :: 0 <= k < |t| ==> !IsBreak(t[k])
    ensures Broken(t, i, t[i..])
    decreases |t| - i
  {
    if i < |t| {
      Unbroken(t, i + 1);
      assert t[i..][1..] == t[i + 1..];
    }
  }

  // Without line breaks.
  lemma PlainRoundTrip(s: seq<Byte>)
    ensures Decoded(Encoded(s)) == Bytes(s, |s|)
  {
    hide *;
    var e := Encoded(s);
    EncodedShape(s);
    NoBreaks(e, PadsOf(|s|));
    Unbroken(e, 0);
    assert e[0..] == e;
    RoundTrip(s, e);
  }

  lemma EncodingFits(s: seq<Byte>)
    ensures PadsOf(|s|) <= 2 && FeedAll(START, Encoded(s)).out == s && Needed(|Encoded(s)|, PadsOf(|s|)) == |s|
  {
    hide Encoded, FeedAll, DataThenPads, Needed;
    EncodedShape(s);
    EncodedLength(s);
    EncodedDecodes(START, s);
    OutputLength(Encoded(s), PadsOf(|s|));
    assert [] + s == s;
  }

  lemma DecodedUnfold(t: seq<Byte>, e: seq<Byte>, p: nat)
    requires ScanFrom(t, 0, 0, 0) == Valid(0 + |e|, 0 + p) && Filter(t, 0) == e
    ensures Decoded(t) == Bytes(FeedAll(START, e).out, Excess(Needed(|e|, p), 0))
    ensures Needed(|e|, p) >= 0 ==> Excess(Needed(|e|, p), 0) == Needed(|e|, p)
  {
    hide ScanFrom, Filter, FeedAll, Needed;
  }

  lemma NoBreaks(s: seq<Byte>, p: nat)
    requires DataThenPads(s, p)
    ensures forall k :: 0 <= k < |s| ==> !IsBreak(s[k])
  {
    hide IsData, IsBreak;
    SymbolKinds();
  }

  // Every accepted text fits: the second pass writes at most the number of bytes that it asked for.
  lemma DecodedFits(t: seq<Byte>)
    requires Decoded(t).Bytes?
    ensures |Decoded(t).text| <= Decoded(t).needed
  {
    hide ScanFrom, Filter, FeedAll, DataThenPads;
    AcceptedIsBroken(t, 0, 0, 0);
    OutputLength(Filter(t, 0), ScanFrom(t, 0, 0, 0).pads);
  }

  // The first pass of the code: positions in t, as the loop variable i moves over them.
  method CountSymbols(src: seq<Byte>) returns (res: int, n: nat, j: nat, i: nat)
    ensures res == 0 || res == INVALID_CHARACTER
    ensures res == 0 <==> ScanFrom(src, 0, 0, 0).Valid?
    ensures res == 0 ==> ScanFrom(src, 0, 0, 0) == Valid(n, j) && i == |src|
  {
    hide DecodeMap;
    res, n, j, i := 0, 0, 0, 0;
    while i < |src|
      invariant i <= |src| && j <= 2 && res == 0 && ScanFrom(src, i, n, j) == ScanFrom(src, 0, 0, 0)
    {
      var x := 0;
      ghost var start := i;
      while i < |src| && src[i] == SPACE
        invariant start <= i <= |src| && x == i - start && SpacesEnd(src, i) == SpacesEnd(src, start)
      {
        i := i + 1;
        x := x + 1;
      }
      if i == |src| {
        break;
      }
      if |src| - i >= 2 && src[i] == CR && src[i + 1] == LF {
        i := i + 1;
        continue;
      }
      if src[i] == LF {
        i := i + 1;
        continue;
      }
      if x != 0 {
        return INVALID_CHARACTER, n, j, i;
      }
      if src[i] == PAD {
        j := j + 1;
        if j > 2 {
          return INVALID_CHARACTER, n, j, i;
        }
      }
      PadValue();
      if src[i] > 127 || DecodeMap(src[i]) == 127 {
        TooHigh(src[i]);
        return INVALID_CHARACTER, n, j, i;
      }
      if DecodeMap(src[i]) < 64 && j != 0 {
        return INVALID_CHARACTER, n, j, i;
      }
      KindsOfValue(src[i]);
      n := n + 1;
      i := i + 1;
    }
  }

  lemma PadValue()
    ensures DecodeMap(PAD) == 64
  {}

  // The table ends at 127, and every character above it is no symbol.
  lemma TooHigh(c: Byte)
    ensures c > 127 ==> DecodeMap(c) == 127
  {}

  lemma KindsOfValue(c: Byte)
    ensures DecodeMap(c) == 127 || (DecodeMap(c) == 64 && c == PAD) || IsData(c)
  {}

  method Decode(dst: array?<Byte>, dlen: nat, src: seq<Byte>) returns (res: int, olen: nat)
    requires dst != null ==> dlen <= dst.Length
    modifies dst
    ensures var d := Decoded(src);
            if d.Malformed? then res == INVALID_CHARACTER
            else if Filter(src, 0) == [] then res == 0 && olen == 0
            else if dst == null || dlen < d.needed then res == BUFFER_TOO_SMALL && olen == d.needed
            else res == 0 && olen == |d.text| <= d.needed && dst[..olen] == d.text
  {
    hide ScanFrom, Filter, FeedAll, DataThenPads, Needed, IsData;
    var n, j, i;
    res, n, j, i := CountSymbols(src);
    olen := 0;
    if res != 0 {
      return;
    }
    AcceptedIsBroken(src, 0, 0, 0);
    if n == 0 {
      return;
    }
    OutputLength(Filter(src, 0), j);
    var needed := NeededCode(n, j);
    if dst == null || dlen < needed {
      return BUFFER_TOO_SMALL, needed;
    }
    olen := WriteBytes(dst, src);
  }

  // 6 * (n >> 3) + ((6 * (n & 7) + 7) >> 3) - j, which does not wrap.
  method NeededCode(n: nat, j: nat) returns (needed: nat)
    requires Needed(n, j) >= 0
    ensures needed == Needed(n, j)
  {
    needed := 6 * (n / 8) + (6 * (n % 8) + 7) / 8 - j;
  }

  // The second pass.
  method WriteBytes(dst: array<Byte>, src: seq<Byte>) returns (p: nat)
    requires |FeedAll(START, Filter(src, 0)).out| <= dst.Length
    modifies dst
    ensures p == |FeedAll(START, Filter(src, 0)).out| && dst[..p] == FeedAll(START, Filter(src, 0)).out
  {
    hide Feed, IsBreak, Filter;
    ghost var all := FeedAll(START, Filter(src, 0));
    ghost var d := START;
    var i, x, n, j := 0, 0, 0, 3;
    p := 0;
    while i < |src|
      invariant i <= |src| && p <= dst.Length && d == Decoder(x, n, j, dst[..p]) && n < 4
      invariant FeedAll(d, Filter(src, i)) == all
      decreases |src| - i
    {
      FilterUnfold(src, i);
      if IsBreak(src[i]) {
        i := i + 1;
        continue;
      }
      FeedUnfold(d, src[i], Filter(src, i + 1));
      OutputGrows(Feed(d, src[i]), Filter(src, i + 1));
      x, n, j, p := WriteSymbol(dst, x, n, j, p, src[i]);
      d := Feed(d, src[i]);
      i := i + 1;
    }
    FilterEnd(src);
  }

  lemma FilterUnfold(t: seq<Byte>, i: nat)
    requires i < |t|
    ensures Filter(t, i) == if IsBreak(t[i]) then Filter(t, i + 1) else [t[i]] + Filter(t, i + 1)
  {
    hide IsBreak;
  }

  lemma FilterEnd(t: seq<Byte>)
    ensures Filter(t, |t|) == []
  {}

  lemma FeedUnfold(d: Decoder, c: Byte, rest: seq<Byte>)
    ensures FeedAll(d, [c] + rest) == FeedAll(Feed(d, c), rest)
  {
    hide Feed;
    assert ([c] + rest)[1..] == rest;
  }

  lemma {:induction false} OutputGrows(d: Decoder, s: seq<Byte>)
    ensures |d.out| <= |FeedAll(d, s).out|
    decreases |s|
  {
    hide DecodeMap, Shift, High, Middle, Low;
    if s != [] {
      OutputGrows(Feed(d, s[0]), s[1..]);
    }
  }

  // One symbol goes into x; the fourth of a quad writes what the padding leaves of three bytes.
  method WriteSymbol(dst: array<Byte>, x0: nat, n0: nat, j0: int, p0: nat, c: Byte) returns (x: nat, n: nat, j: int, p: nat)
    requires p0 <= dst.Length && n0 < 4 && |Feed(Decoder(x0, n0, j0, dst[..p0]), c).out| <= dst.Length
    modifies dst
    ensures p <= dst.Length && n < 4 && Feed(Decoder(x0, n0, j0, old(dst[..p0])), c) == Decoder(x, n, j, dst[..p])
  {
    hide DecodeMap, Shift, High, Middle, Low;
    j := j0 - if DecodeMap(c) == 64 then 1 else 0;
    x := Shift(x0, DecodeMap(c) % 64);
    n, p := n0 + 1, p0;
    if n == 4 {
      n := 0;
      if j > 0 {
        p := Append(dst, p, High(x));
      }
      if j > 1 {
        p := Append(dst, p, Middle(x));
      }
      if j > 2 {
        p := Append(dst, p, Low(x));
      }
    }
  }

  method Append(dst: array<Byte>, at: nat, c: Byte) returns (p: nat)
    requires at < dst.Length
    modifies dst
    ensures p == at + 1 && dst[..p] == old(dst[..at]) + [c]
  {
    dst[at] := c;
    p := at + 1;
  }
}
