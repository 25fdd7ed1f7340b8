// Concrete syntax trees of JSON texts: every byte of a text is in its tree, the
// whitespace included.  `WellFormed` is the lenient grammar of the parser and
// `Strict` the grammar of sections 2 to 7 of RFC 8259.
module JsonGrammar {
  import opened Bytes
  import opened JsonLex

  datatype Value =
    | Null
    | False
    | True
    | Number(token: seq<Byte>)
    | Text(body: seq<Byte>)
    | EmptyArray(gap: seq<Byte>)
    | Array(elements: Elements)
    | EmptyObject(gap: seq<Byte>)
    | Object(members: Members)

  datatype Elements =
    | LastElement(pre: seq<Byte>, value: Value, post: seq<Byte>)
    | MoreElements(pre: seq<Byte>, value: Value, post: seq<Byte>, rest: Elements)

  datatype Members =
    | LastMember(pre: seq<Byte>, key: seq<Byte>, gap: seq<Byte>, colonGap: seq<Byte>, value: Value, post: seq<Byte>)
    | MoreMembers(pre: seq<Byte>, key: seq<Byte>, gap: seq<Byte>, colonGap: seq<Byte>, value: Value, post: seq<Byte>, rest: Members)

  function Quoted(body: seq<Byte>): seq<Byte> {
    [QUOTE] + body + [QUOTE]
  }

  function Render(v: Value): (s: seq<Byte>) {
    match v
    case Null => NULL_TEXT
    case False => FALSE_TEXT
    case True => TRUE_TEXT
    case Number(token) => token
    case Text(body) => Quoted(body)
    case EmptyArray(gap) => [LEFT_BRACKET] + gap + [RIGHT_BRACKET]
    case Array(es) => [LEFT_BRACKET] + RenderElements(es) + [RIGHT_BRACKET]
    case EmptyObject(gap) => [LEFT_BRACE] + gap + [RIGHT_BRACE]
    case Object(ms) => [LEFT_BRACE] + RenderMembers(ms) + [RIGHT_BRACE]
  }

  function RenderElements(es: Elements): seq<Byte> {
    var first := es.pre + (Render(es.value) + es.post);
    if es.LastElement? then first else first + ([COMMA] + RenderElements(es.rest))
  }

  // A member up to its value.
  function RenderKey(ms: Members): seq<Byte> {
    ms.pre + (Quoted(ms.key) + (ms.gap + ([COLON] + ms.colonGap)))
  }

  function RenderMembers(ms: Members): seq<Byte> {
    var first := RenderKey(ms) + (Render(ms.value) + ms.post);
    if ms.LastMember? then first else first + ([COMMA] + RenderMembers(ms.rest))
  }

  function CountElements(es: Elements): nat {
    if es.LastElement? then 1 else 1 + CountElements(es.rest)
  }

  function CountMembers(ms: Members): nat {
    if ms.LastMember? then 1 else 1 + CountMembers(ms.rest)
  }

  function Max(a: nat, b: nat): nat {
    if a > b then a else b
  }

  // How deep arrays and objects nest.
  function Height(v: Value): nat {
    match v
    case EmptyArray(_) => 1
    case EmptyObject(_) => 1
    case Array(es) => 1 + HeightElements(es)
    case Object(ms) => 1 + HeightMembers(ms)
    case _ => 0
  }

  function HeightElements(es: Elements): nat {
    if es.LastElement? then Height(es.value) else Max(Height(es.value), HeightElements(es.rest))
  }

  function HeightMembers(ms: Members): nat {
    if ms.LastMember? then Height(ms.value) else Max(Height(ms.value), HeightMembers(ms.rest))
  }

  // ---------- the lenient grammar ----------

  predicate WellFormed(v: Value) {
    match v
    case Null => true
    case False => true
    case True => true
    case Number(token) => IsToken(token)
    case Text(body) => IsBody(body)
    case EmptyArray(gap) => AllSpace(gap)
    case Array(es) => WellFormedElements(es)
    case EmptyObject(gap) => AllSpace(gap)
    case Object(ms) => WellFormedMembers(ms)
  }

  predicate WellFormedElements(es: Elements) {
    AllSpace(es.pre) && WellFormed(es.value) && AllSpace(es.post) && (es.MoreElements? ==> WellFormedElements(es.rest))
  }

  predicate WellFormedMembers(ms: Members) {
    && AllSpace(ms.pre) && IsBody(ms.key) && AllSpace(ms.gap) && AllSpace(ms.colonGap)
    && WellFormed(ms.value) && AllSpace(ms.post) && (ms.MoreMembers? ==> WellFormedMembers(ms.rest))
  }

  // A value starts with a visible byte that tells its kind, and does not end in a comma or a space.
  lemma FirstByte(v: Value)
    requires WellFormed(v)
    ensures |Render(v)| > 0 && !IsSpace(Render(v)[0]) && Render(v)[0] != RIGHT_BRACKET
    ensures match v
            case Null => Render(v)[0] == 110
            case False => Render(v)[0] == 102
            case True => Render(v)[0] == 116
            case Number(_) => Render(v)[0] == MINUS || IsDigit(Render(v)[0])
            case Text(_) => Render(v)[0] == QUOTE
            case EmptyArray(_) => Render(v)[0] == LEFT_BRACKET
            case Array(_) => Render(v)[0] == LEFT_BRACKET
            case EmptyObject(_) => Render(v)[0] == LEFT_BRACE
            case Object(_) => Render(v)[0] == LEFT_BRACE
  {}

  // ---------- RFC 8259 ----------

  predicate StrictSpace(s: seq<Byte>) {
    forall i :: 0 <= i < |s| ==> s[i] == 32 || s[i] == 9 || s[i] == 10 || s[i] == 13
  }

  predicate IsHex(c: Byte) {
    IsDigit(c) || 65 <= c <= 70 || 97 <= c <= 102
  }

  // A one-character escape: quote, backslash, slash, b, f, n, r, t.
  predicate IsShortEscape(c: Byte) {
    c == QUOTE || c == BACKSLASH || c == 47 || c == 98 || c == 102 || c == 110 || c == 114 || c == 116
  }

  // Section 7, with the bytes above 127 left to the encoding.
  predicate StrictBody(s: seq<Byte>)
    decreases |s|
  {
    if s == [] then true
    else if s[0] == BACKSLASH then
      |s| >= 2 &&
      if s[1] == 117 then
        |s| >= 6 && IsHex(s[2]) && IsHex(s[3]) && IsHex(s[4]) && IsHex(s[5]) && StrictBody(s[6..])
      else IsShortEscape(s[1]) && StrictBody(s[2..])
    else s[0] >= 32 && s[0] != QUOTE && StrictBody(s[1..])
  }

  predicate AllDigits(s: seq<Byte>) {
    forall i :: 0 <= i < |s| ==> IsDigit(s[i])
  }

  // Section 6: minus, integer part, fraction and exponent, the last two optional.
  ghost predicate StrictNumber(t: seq<Byte>) {
    exists sign: seq<Byte>, whole: seq<Byte>, fraction: seq<Byte>, exponent: seq<Byte> ::
      StrictParts(t, sign, whole, fraction, exponent)
  }

  ghost predicate StrictParts(t: seq<Byte>, sign: seq<Byte>, whole: seq<Byte>, fraction: seq<Byte>, exponent: seq<Byte>) {
    && t == sign + (whole + (fraction + exponent))
    && (sign == [] || sign == [MINUS])
    && |whole| > 0 && AllDigits(whole) && (whole[0] == 48 ==> |whole| == 1)
    && (fraction == [] || (|fraction| > 1 && fraction[0] == DOT && AllDigits(fraction[1..])))
    && (exponent == [] || (|exponent| > 1 && IsExponent(exponent[0]) && IsSignedDigits(exponent[1..])))
  }

  predicate IsSignedDigits(s: seq<Byte>) {
    |s| > 0 && if IsSign(s[0]) then |s| > 1 && AllDigits(s[1..]) else AllDigits(s)
  }

  ghost predicate Strict(v: Value) {
    match v
    case Null => true
    case False => true
    case True => true
    case Number(token) => StrictNumber(token) && |token| <= MAX_TOKEN
    case Text(body) => StrictBody(body)
    case EmptyArray(gap) => StrictSpace(gap)
    case Array(es) => StrictElements(es)
    case EmptyObject(gap) => StrictSpace(gap)
    case Object(ms) => StrictMembers(ms)
  }

  ghost predicate StrictElements(es: Elements) {
    StrictSpace(es.pre) && Strict(es.value) && StrictSpace(es.post) && (es.MoreElements? ==> StrictElements(es.rest))
  }

  ghost predicate StrictMembers(ms: Members) {
    && StrictSpace(ms.pre) && StrictBody(ms.key) && StrictSpace(ms.gap) && StrictSpace(ms.colonGap)
    && Strict(ms.value) && StrictSpace(ms.post) && (ms.MoreMembers? ==> StrictMembers(ms.rest))
  }

  lemma {:induction false} StrictBodyIsBody(s: seq<Byte>)
    requires StrictBody(s)
    ensures IsBody(s)
    decreases |s|
  {
    if s != [] {
      if s[0] == BACKSLASH && s[1] == 117 {
        StrictBodyIsBody(s[6..]);
        FourPlainBytes(s[2..]);
        assert s[2..][4..] == s[6..];
      } else {
        StrictBodyIsBody(if s[0] == BACKSLASH then s[2..] else s[1..]);
      }
    }
  }

  lemma FourPlainBytes(s: seq<Byte>)
    requires |s| >= 4 && IsHex(s[0]) && IsHex(s[1]) && IsHex(s[2]) && IsHex(s[3]) && IsBody(s[4..])
    ensures IsBody(s)
  {
    assert s[3..][1..] == s[4..] && s[2..][1..] == s[3..] && s[1..][1..] == s[2..];
    assert IsBody(s[3..]) && IsBody(s[2..]) && IsBody(s[1..]);
  }

  // A number of the standard is a token: strtod takes the whole of it.
  lemma StrictNumberIsToken(t: seq<Byte>)
    requires StrictNumber(t) && |t| <= MAX_TOKEN
    ensures IsToken(t)
  {
    hide StrictParts, MantissaEnd, SignEnd, DigitsEnd;
    var sign, whole, fraction, exponent :| StrictParts(t, sign, whole, fraction, exponent);
    var m := |sign| + |whole| + |fraction|;
    PartPositions(t, sign, whole, fraction, exponent);
    StrictMantissa(t, |sign|, |sign| + |whole|, m);
    if m < |t| {
      RunOfDigits(t, SignEnd(t, m + 1, |t|), |t|);
    }
    PartBytes(t, |sign|, |sign| + |whole|, m);
  }

  // The bytes of a number, given by the positions p, q and m where its whole part starts and ends
  // and where its fraction ends.
  ghost predicate Positions(t: seq<Byte>, p: nat, q: nat, m: nat) {
    && p <= 1 && (p == 1 ==> |t| > 0 && t[0] == MINUS) && p < q <= m <= |t|
    && (forall i :: p <= i < q ==> IsDigit(t[i]))
    && (q < m ==> m > q + 1 && t[q] == DOT && forall i :: q + 1 <= i < m ==> IsDigit(t[i]))
    && (m < |t| ==> IsExponent(t[m]) && SignEnd(t, m + 1, |t|) < |t|
                    && forall i :: SignEnd(t, m + 1, |t|) <= i < |t| ==> IsDigit(t[i]))
  }

  lemma StrictMantissa(t: seq<Byte>, p: nat, q: nat, m: nat)
    requires Positions(t, p, q, m)
    ensures MantissaEnd(t, 0, |t|) == m
  {
    hide DigitsEnd;
    RunOfDigits(t, p, q);
    if q < m {
      RunOfDigits(t, q + 1, m);
    }
  }

  lemma PartBytes(t: seq<Byte>, p: nat, q: nat, m: nat)
    requires Positions(t, p, q, m)
    ensures (t[0] == MINUS || IsDigit(t[0])) && forall i :: 0 <= i < |t| ==> IsNumberByte(t[i])
  {
    forall i | 0 <= i < |t| ensures IsNumberByte(t[i]) {
      if m < i && i < SignEnd(t, m + 1, |t|) {
        assert i == m + 1;
      }
    }
  }

  lemma PartPositions(t: seq<Byte>, sign: seq<Byte>, whole: seq<Byte>, fraction: seq<Byte>, exponent: seq<Byte>)
    requires StrictParts(t, sign, whole, fraction, exponent)
    ensures Positions(t, |sign|, |sign| + |whole|, |sign| + |whole| + |fraction|)
  {
    var p := |sign|; var q := p + |whole|; var m := q + |fraction|;
    assert forall i :: p <= i < q ==> t[i] == whole[i - p];
    assert forall i :: q <= i < m ==> t[i] == fraction[i - q];
    assert forall i :: m <= i < |t| ==> t[i] == exponent[i - m];
    if fraction != [] {
      assert forall i :: q + 1 <= i < m ==> t[i] == fraction[1..][i - q - 1];
    }
    if exponent != [] {
      assert forall i :: m + 1 <= i < |t| ==> t[i] == exponent[1..][i - m - 1];
      if IsSign(exponent[1]) {
        assert forall i :: m + 2 <= i < |t| ==> t[i] == exponent[1..][1..][i - m - 2];
      }
    }
  }

  lemma {:induction false} RunOfDigits(t: seq<Byte>, i: nat, j: nat)
    requires i <= j <= |t| && (forall k :: i <= k < j ==> IsDigit(t[k])) && (j < |t| ==> !IsDigit(t[j]))
    ensures DigitsEnd(t, i, |t|) == j
    decreases j - i
  {
    if i < j {
      RunOfDigits(t, i + 1, j);
    }
  }

  // The standard's texts are texts of the lenient grammar.
  lemma StrictIsWellFormed(v: Value)
    requires Strict(v)
    ensures WellFormed(v)
    decreases v
  {
    match v
    case Number(token) => StrictNumberIsToken(token);
    case Text(body) => StrictBodyIsBody(body);
    case Array(es) => StrictElementsWellFormed(es);
    case Object(ms) => StrictMembersWellFormed(ms);
    case _ =>
  }

  lemma StrictElementsWellFormed(es: Elements)
    requires StrictElements(es)
    ensures WellFormedElements(es)
    decreases es
  {
    StrictIsWellFormed(es.value);
    if es.MoreElements? {
      StrictElementsWellFormed(es.rest);
    }
  }

  lemma StrictMembersWellFormed(ms: Members)
    requires StrictMembers(ms)
    ensures WellFormedMembers(ms)
    decreases ms
  {
    StrictBodyIsBody(ms.key);
    StrictIsWellFormed(ms.value);
    if ms.MoreMembers? {
      StrictMembersWellFormed(ms.rest);
    }
  }
}
