// The lexical level of src/infra/infra_cjson.c: bytes, the whitespace skipper
// with its step back, string bodies, and the number tokens that strtod accepts.
module JsonLex {
  import opened Bytes

  const QUOTE: Byte := 34
  const PLUS: Byte := 43
  const COMMA: Byte := 44
  const MINUS: Byte := 45
  const DOT: Byte := 46
  const COLON: Byte := 58
  const UPPER_E: Byte := 69
  const LEFT_BRACKET: Byte := 91
  const BACKSLASH: Byte := 92
  const RIGHT_BRACKET: Byte := 93
  const LOWER_E: Byte := 101
  const LEFT_BRACE: Byte := 123
  const RIGHT_BRACE: Byte := 125

  const NULL_TEXT: seq<Byte> := [110, 117, 108, 108]
  const FALSE_TEXT: seq<Byte> := [102, 97, 108, 115, 101]
  const TRUE_TEXT: seq<Byte> := [116, 114, 117, 101]

  // The text s stands in b at position o.
  predicate At(b: seq<Byte>, o: nat, s: seq<Byte>) {
    o + |s| <= |b| && b[o..o + |s|] == s
  }

  lemma AtSplit(b: seq<Byte>, o: nat, s: seq<Byte>, t: seq<Byte>)
    ensures At(b, o, s + t) <==> At(b, o, s) && At(b, o + |s|, t)
  {
    if o + |s| + |t| <= |b| {
      assert b[o..o + |s| + |t|] == b[o..o + |s|] + b[o + |s|..o + |s| + |t|];
      if b[o..o + |s| + |t|] == s + t {
        assert (s + t)[..|s|] == s && (s + t)[|s|..] == t;
        assert b[o..o + |s| + |t|][..|s|] == b[o..o + |s|];
        assert b[o..o + |s| + |t|][|s|..] == b[o + |s|..o + |s| + |t|];
      }
    }
  }

  lemma AtByte(b: seq<Byte>, o: nat, s: seq<Byte>, i: nat)
    requires At(b, o, s) && i < |s|
    ensures b[o + i] == s[i]
  {
    assert b[o..o + |s|][i] == s[i];
  }

  // ---------- whitespace (src/infra/infra_cjson.c:42-57) ----------

  // Anything up to the space character is skipped.
  predicate IsSpace(c: Byte) {
    c <= 32
  }

  predicate AllSpace(s: seq<Byte>) {
    forall i :: 0 <= i < |s| ==> IsSpace(s[i])
  }

  function SpaceEnd(b: seq<Byte>, o: nat): (e: nat)
    requires o <= |b|
    ensures o <= e <= |b|
    ensures forall i :: o <= i < e ==> IsSpace(b[i])
    ensures e < |b| ==> !IsSpace(b[e])
    decreases |b| - o
  {
    if o < |b| && IsSpace(b[o]) then SpaceEnd(b, o + 1) else o
  }

  // At the end of the buffer the skipper steps back onto the last byte.
  function Skip(b: seq<Byte>, o: nat): (e: nat)
    requires 0 < |b| && o <= |b|
    ensures e < |b| && o <= e + 1
  {
    if SpaceEnd(b, o) == |b| then |b| - 1 else SpaceEnd(b, o)
  }

  lemma SkipOver(b: seq<Byte>, o: nat, w: seq<Byte>)
    requires At(b, o, w) && AllSpace(w) && o + |w| < |b| && !IsSpace(b[o + |w|])
    ensures Skip(b, o) == o + |w|
  {
    var e := SpaceEnd(b, o);
    if e < o + |w| {
      AtByte(b, o, w, e - o);
    }
  }

  // ---------- string bodies (src/infra/infra_cjson.c:294-321) ----------

  // The position of the closing quote of a string whose body starts at i, or |b| if there is none.
  function QuoteFrom(b: seq<Byte>, i: nat): (e: nat)
    requires i <= |b|
    ensures i <= e <= |b|
    ensures e < |b| ==> b[e] == QUOTE
    decreases |b| - i
  {
    if i == |b| || b[i] == QUOTE then i
    else if b[i] == BACKSLASH then
      if i + 1 >= |b| then |b| else QuoteFrom(b, i + 2)
    else QuoteFrom(b, i + 1)
  }

  // A body between quotes: every backslash takes the next byte with it, and no other byte is a quote.
  predicate IsBody(s: seq<Byte>)
    decreases |s|
  {
    if s == [] then true
    else if s[0] == BACKSLASH then |s| >= 2 && IsBody(s[2..])
    else s[0] != QUOTE && IsBody(s[1..])
  }

  lemma {:induction false} QuoteAfterBody(b: seq<Byte>, i: nat, s: seq<Byte>)
    requires At(b, i, s) && IsBody(s) && i + |s| < |b| && b[i + |s|] == QUOTE
    ensures QuoteFrom(b, i) == i + |s|
    decreases |s|
  {
    if s != [] {
      AtByte(b, i, s, 0);
      var k := if s[0] == BACKSLASH then 2 else 1;
      assert s == s[..k] + s[k..];
      AtSplit(b, i, s[..k], s[k..]);
      QuoteAfterBody(b, i + k, s[k..]);
    }
  }

  lemma {:induction false} BodyBeforeQuote(b: seq<Byte>, i: nat)
    requires i <= |b| && QuoteFrom(b, i) < |b|
    ensures IsBody(b[i..QuoteFrom(b, i)])
    decreases |b| - i
  {
    var e := QuoteFrom(b, i);
    if b[i] != QUOTE {
      var k := if b[i] == BACKSLASH then 2 else 1;
      BodyBeforeQuote(b, i + k);
      assert b[i..e][k..] == b[i + k..e];
      assert b[i..e][0] == b[i];
    }
  }

  // ---------- numbers (src/infra/infra_cjson.c:74-138) ----------

  predicate IsDigit(c: Byte) {
    48 <= c <= 57
  }

  predicate IsSign(c: Byte) {
    c == PLUS || c == MINUS
  }

  predicate IsExponent(c: Byte) {
    c == LOWER_E || c == UPPER_E
  }

  predicate IsNumberByte(c: Byte) {
    IsDigit(c) || IsSign(c) || IsExponent(c) || c == DOT
  }

  // The copy loop takes at most 63 bytes.
  const MAX_TOKEN: nat := 63

  function RunEnd(b: seq<Byte>, o: nat, n: nat): (e: nat)
    requires o <= |b|
    ensures o <= e <= |b| && e <= o + n
    ensures forall i :: o <= i < e ==> IsNumberByte(b[i])
    ensures e < |b| && e < o + n ==> !IsNumberByte(b[e])
    decreases n
  {
    if n > 0 && o < |b| && IsNumberByte(b[o]) then RunEnd(b, o + 1, n - 1) else o
  }

  function DigitsEnd(b: seq<Byte>, i: nat, e: nat): (r: nat)
    requires i <= e <= |b|
    ensures i <= r <= e
    ensures forall k :: i <= k < r ==> IsDigit(b[k])
    ensures r < e ==> !IsDigit(b[r])
    decreases e - i
  {
    if i < e && IsDigit(b[i]) then DigitsEnd(b, i + 1, e) else i
  }

  function SignEnd(b: seq<Byte>, i: nat, e: nat): (r: nat)
    requires i <= e <= |b|
    ensures i <= r <= e
  {
    if i < e && IsSign(b[i]) then i + 1 else i
  }

  // The end of the longest decimal subject sequence of strtod in [i, e), or i if there is none:
  // a sign, digits with an optional point and at least one digit, and an exponent with its digits.
  function MantissaEnd(b: seq<Byte>, i: nat, e: nat): (r: nat)
    requires i <= e <= |b|
    ensures i <= r <= e
  {
    var p := SignEnd(b, i, e);
    var q := DigitsEnd(b, p, e);
    var point := q < e && b[q] == DOT;
    var r := if point then DigitsEnd(b, q + 1, e) else q;
    if q == p && (!point || r == q + 1) then i else r
  }

  function StrtodEnd(b: seq<Byte>, i: nat, e: nat): (r: nat)
    requires i <= e <= |b|
    ensures i <= r <= e
  {
    var m := MantissaEnd(b, i, e);
    if m > i && m < e && IsExponent(b[m]) then
      var y := SignEnd(b, m + 1, e);
      var z := DigitsEnd(b, y, e);
      if z > y then z else m
    else m
  }

  function NumberEnd(b: seq<Byte>, o: nat): (e: nat)
    requires o <= |b|
    ensures o <= e <= |b|
  {
    StrtodEnd(b, o, RunEnd(b, o, MAX_TOKEN))
  }

  // A whole token: strtod takes all of it.
  predicate IsToken(t: seq<Byte>) {
    && 0 < |t| <= MAX_TOKEN
    && (t[0] == MINUS || IsDigit(t[0]))
    && (forall i :: 0 <= i < |t| ==> IsNumberByte(t[i]))
    && StrtodEnd(t, 0, |t|) == |t|
  }

  lemma {:induction false} DigitsShift(b: seq<Byte>, o: nat, t: seq<Byte>, i: nat, e: nat)
    requires At(b, o, t) && i <= e <= |t|
    ensures DigitsEnd(b, o + i, o + e) == o + DigitsEnd(t, i, e)
    decreases e - i
  {
    if i < e {
      AtByte(b, o, t, i);
      if IsDigit(t[i]) {
        DigitsShift(b, o, t, i + 1, e);
      }
    }
  }

  lemma SignShift(b: seq<Byte>, o: nat, t: seq<Byte>, i: nat)
    requires At(b, o, t) && i <= |t|
    ensures SignEnd(b, o + i, o + |t|) == o + SignEnd(t, i, |t|)
  {
    if i < |t| {
      AtByte(b, o, t, i);
    }
  }

  lemma MantissaShift(b: seq<Byte>, o: nat, t: seq<Byte>)
    requires At(b, o, t)
    ensures MantissaEnd(b, o, o + |t|) == o + MantissaEnd(t, 0, |t|)
  {
    hide DigitsEnd, SignEnd, At;
    var e := |t|;
    SignShift(b, o, t, 0);
    var p := SignEnd(t, 0, e);
    DigitsShift(b, o, t, p, e);
    var q := DigitsEnd(t, p, e);
    if q < e {
      AtByte(b, o, t, q);
      DigitsShift(b, o, t, q + 1, e);
    }
  }

  lemma StrtodShift(b: seq<Byte>, o: nat, t: seq<Byte>)
    requires At(b, o, t)
    ensures StrtodEnd(b, o, o + |t|) == o + StrtodEnd(t, 0, |t|)
  {
    hide DigitsEnd, SignEnd, MantissaEnd, At;
    var e := |t|;
    MantissaShift(b, o, t);
    var m := MantissaEnd(t, 0, e);
    if m < e {
      AtByte(b, o, t, m);
      SignShift(b, o, t, m + 1);
      DigitsShift(b, o, t, SignEnd(t, m + 1, e), e);
    }
  }

  // The run of number bytes ends where the token does.
  lemma RunIsToken(b: seq<Byte>, o: nat, t: seq<Byte>)
    requires At(b, o, t) && |t| <= MAX_TOKEN
    requires forall i :: 0 <= i < |t| ==> IsNumberByte(t[i])
    requires |t| < MAX_TOKEN && o + |t| < |b| ==> !IsNumberByte(b[o + |t|])
    ensures RunEnd(b, o, MAX_TOKEN) == o + |t|
  {
    var e := RunEnd(b, o, MAX_TOKEN);
    if e < o + |t| {
      AtByte(b, o, t, e - o);
    }
  }

  // A token that is not followed by another number byte is taken whole.
  lemma TokenTaken(b: seq<Byte>, o: nat, t: seq<Byte>)
    requires At(b, o, t) && IsToken(t)
    requires o + |t| < |b| ==> !IsNumberByte(b[o + |t|])
    ensures NumberEnd(b, o) == o + |t|
  {
    hide StrtodEnd, RunEnd, At, IsNumberByte;
    RunIsToken(b, o, t);
    StrtodShift(b, o, t);
  }

  // Cutting the buffer at the end of the digits changes nothing.
  lemma {:induction false} DigitsCut(b: seq<Byte>, i: nat, e: nat, f: nat)
    requires i <= e <= |b| && DigitsEnd(b, i, e) <= f <= e
    ensures DigitsEnd(b, i, f) == DigitsEnd(b, i, e)
    decreases e - i
  {
    if i < f && IsDigit(b[i]) {
      DigitsCut(b, i + 1, e, f);
    }
  }

  lemma MantissaCut(b: seq<Byte>, i: nat, e: nat, f: nat)
    requires i <= e <= |b| && MantissaEnd(b, i, e) <= f <= e && i < MantissaEnd(b, i, e)
    ensures MantissaEnd(b, i, f) == MantissaEnd(b, i, e)
  {
    hide DigitsEnd;
    var p := SignEnd(b, i, e);
    var q := DigitsEnd(b, p, e);
    DigitsCut(b, p, e, f);
    if q < f && b[q] == DOT {
      DigitsCut(b, q + 1, e, f);
    }
  }

  lemma StrtodCut(b: seq<Byte>, i: nat, e: nat)
    requires i <= e <= |b| && i < StrtodEnd(b, i, e)
    ensures StrtodEnd(b, i, StrtodEnd(b, i, e)) == StrtodEnd(b, i, e)
  {
    hide DigitsEnd, MantissaEnd;
    var f := StrtodEnd(b, i, e);
    var m := MantissaEnd(b, i, e);
    MantissaCut(b, i, e, f);
    if f > m {
      DigitsCut(b, SignEnd(b, m + 1, e), e, f);
    }
  }

  // What the number branch takes is always a whole token.
  lemma TakenIsToken(b: seq<Byte>, o: nat)
    requires o < |b| && (b[o] == MINUS || IsDigit(b[o])) && o < NumberEnd(b, o)
    ensures IsToken(b[o..NumberEnd(b, o)])
  {
    hide StrtodEnd;
    var e := NumberEnd(b, o);
    var t := b[o..e];
    StrtodCut(b, o, RunEnd(b, o, MAX_TOKEN));
    StrtodShift(b, o, t);
    assert t[0] == b[o];
  }
}
