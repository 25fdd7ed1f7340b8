// Counting brackets outside of strings tells malformed text that was accepted from
// well-formed text.
module JsonBalance {
  import opened Bytes
  import opened JsonLex
  import opened JsonGrammar
  import opened JsonParser
  import opened JsonComplete
  import opened JsonClosing
  import opened JsonSound

  function Weight(c: Byte): int {
    if c == LEFT_BRACKET || c == LEFT_BRACE then 1 else if IsCloser(c) then -1 else 0
  }

  // The opening brackets less the closing ones from i up to e, those in strings left out.
  function Balance(b: seq<Byte>, i: nat, e: nat): int
    requires e <= |b|
    decreases if i < e then e - i else 0
  {
    if i >= e then 0
    else if b[i] == QUOTE then Balance(b, QuoteFrom(b, i + 1) + 1, e)
    else Weight(b[i]) + Balance(b, i + 1, e)
  }

  predicate IsPlain(s: seq<Byte>) {
    forall i :: 0 <= i < |s| ==> s[i] != QUOTE && Weight(s[i]) == 0
  }

  lemma {:induction false} PlainText(b: seq<Byte>, i: nat, e: nat, s: seq<Byte>)
    requires At(b, i, s) && IsPlain(s) && i + |s| <= e <= |b|
    ensures Balance(b, i, e) == Balance(b, i + |s|, e)
    decreases |s|
  {
    if s != [] {
      AtByte(b, i, s, 0);
      assert s == [s[0]] + s[1..];
      AtSplit(b, i, [s[0]], s[1..]);
      PlainText(b, i + 1, e, s[1..]);
    }
  }

  lemma SpaceIsPlain(s: seq<Byte>)
    requires AllSpace(s)
    ensures IsPlain(s)
  {}

  lemma QuotedText(b: seq<Byte>, i: nat, e: nat, body: seq<Byte>)
    requires At(b, i, Quoted(body)) && IsBody(body) && i + |body| + 2 <= e <= |b|
    ensures Balance(b, i, e) == Balance(b, i + |body| + 2, e)
  {
    hide At, IsBody, QuoteFrom;
    CompleteString(b, i, body);
  }

  lemma OneBracket(b: seq<Byte>, i: nat, e: nat, c: Byte)
    requires At(b, i, [c]) && Weight(c) != 0 && i < e <= |b|
    ensures Balance(b, i, e) == Weight(c) + Balance(b, i + 1, e)
  {
    AtByte(b, i, [c], 0);
  }

  // A value is balanced.
  lemma {:induction false} ValueBalance(b: seq<Byte>, o: nat, e: nat, v: Value)
    requires WellFormed(v) && At(b, o, Render(v)) && o + |Render(v)| <= e <= |b|
    ensures Balance(b, o, e) == Balance(b, o + |Render(v)|, e)
    decreases v, 1
  {
    hide At, Balance, IsBody, StrtodEnd;
    match v
    case Text(body) => QuotedText(b, o, e, body);
    case EmptyArray(gap) =>
      SpaceIsPlain(gap);
      EnclosedBalance(b, o, e, LEFT_BRACKET, gap, RIGHT_BRACKET);
      PlainText(b, o + 1, e, gap);
    case Array(es) =>
      EnclosedBalance(b, o, e, LEFT_BRACKET, RenderElements(es), RIGHT_BRACKET);
      ElementsBalance(b, o + 1, e, es);
    case EmptyObject(gap) =>
      SpaceIsPlain(gap);
      EnclosedBalance(b, o, e, LEFT_BRACE, gap, RIGHT_BRACE);
      PlainText(b, o + 1, e, gap);
    case Object(ms) =>
      EnclosedBalance(b, o, e, LEFT_BRACE, RenderMembers(ms), RIGHT_BRACE);
      MembersBalance(b, o + 1, e, ms);
    case _ =>
      PlainText(b, o, e, Render(v));
  }

  lemma EnclosedBalance(b: seq<Byte>, o: nat, e: nat, left: Byte, inner: seq<Byte>, right: Byte)
    requires At(b, o, [left] + inner + [right]) && o + |inner| + 2 <= e <= |b|
    requires Weight(left) == 1 && Weight(right) == -1
    ensures At(b, o + 1, inner) && At(b, o + 1 + |inner|, [right])
    ensures Balance(b, o, e) == 1 + Balance(b, o + 1, e)
    ensures Balance(b, o + 1 + |inner|, e) == Balance(b, o + |inner| + 2, e) - 1
  {
    hide At, Balance;
    AtSplit(b, o, [left] + inner, [right]);
    AtSplit(b, o, [left], inner);
    OneBracket(b, o, e, left);
    OneBracket(b, o + 1 + |inner|, e, right);
  }

  lemma {:induction false} ElementsBalance(b: seq<Byte>, o: nat, e: nat, es: Elements)
    requires WellFormedElements(es) && At(b, o, RenderElements(es)) && At(b, o + |RenderElements(es)|, [RIGHT_BRACKET])
    requires o + |RenderElements(es)| <= e <= |b|
    ensures Balance(b, o, e) == Balance(b, o + |RenderElements(es)|, e)
    decreases es
  {
    hide At, Balance, Render, WellFormed;
    ElementParts(b, o, es);
    FrontBalance(b, o, e, es.pre);
    ValueBalance(b, o + |es.pre|, e, es.value);
    var p := o + |es.pre| + |Render(es.value)|;
    AtSplit(b, p, es.post, [if es.LastElement? then RIGHT_BRACKET else COMMA]);
    FrontBalance(b, p, e, es.post);
    if es.MoreElements? {
      CommaBalance(b, p + |es.post|, e);
      ElementsBalance(b, p + |es.post| + 1, e, es.rest);
    }
  }

  lemma FrontBalance(b: seq<Byte>, o: nat, e: nat, w: seq<Byte>)
    requires At(b, o, w) && AllSpace(w) && o + |w| <= e <= |b|
    ensures Balance(b, o, e) == Balance(b, o + |w|, e)
  {
    SpaceIsPlain(w);
    PlainText(b, o, e, w);
  }

  lemma CommaBalance(b: seq<Byte>, o: nat, e: nat)
    requires At(b, o, [COMMA]) && o < e <= |b|
    ensures Balance(b, o, e) == Balance(b, o + 1, e)
  {
    PlainText(b, o, e, [COMMA]);
  }

  lemma {:induction false} MembersBalance(b: seq<Byte>, o: nat, e: nat, ms: Members)
    requires WellFormedMembers(ms) && At(b, o, RenderMembers(ms)) && At(b, o + |RenderMembers(ms)|, [RIGHT_BRACE])
    requires o + |RenderMembers(ms)| <= e <= |b|
    ensures Balance(b, o, e) == Balance(b, o + |RenderMembers(ms)|, e)
    decreases ms
  {
    hide At, Balance, Render, RenderKey, WellFormed;
    MemberParts(b, o, ms);
    KeyBalance(b, o, e, ms);
    ValueBalance(b, o + |RenderKey(ms)|, e, ms.value);
    var p := o + |RenderKey(ms)| + |Render(ms.value)|;
    AtSplit(b, p, ms.post, [if ms.LastMember? then RIGHT_BRACE else COMMA]);
    FrontBalance(b, p, e, ms.post);
    if ms.MoreMembers? {
      CommaBalance(b, p + |ms.post|, e);
      MembersBalance(b, p + |ms.post| + 1, e, ms.rest);
    }
  }

  lemma KeyBalance(b: seq<Byte>, o: nat, e: nat, ms: Members)
    requires WellFormedMembers(ms) && At(b, o, RenderKey(ms)) && o + |RenderKey(ms)| <= e <= |b|
    ensures Balance(b, o, e) == Balance(b, o + |RenderKey(ms)|, e)
  {
    hide At, Balance, Render, WellFormed, IsBody;
    var s := o + |ms.pre|;
    var q := s + |ms.key| + 2;
    AtSplit(b, o, ms.pre, Quoted(ms.key) + (ms.gap + ([COLON] + ms.colonGap)));
    AtSplit(b, s, Quoted(ms.key), ms.gap + ([COLON] + ms.colonGap));
    FrontBalance(b, o, e, ms.pre);
    QuotedText(b, s, e, ms.key);
    PlainText(b, q, e, ms.gap + ([COLON] + ms.colonGap));
  }

  // A value that lacks k brackets at the end of the buffer has k open ones there.
  lemma {:induction false} StandingBalance(b: seq<Byte>, k: nat, o: nat, v: Value)
    requires b != [] && o < |b| && WellFormed(v) && Stands(b, k, o, v)
    ensures o + |Render(v)| - k <= |b| && Balance(b, o, o + |Render(v)| - k) == k
    decreases v, 1
  {
    hide At, Balance, Closed, Render, WellFormed;
    ClosedBytes(b, k);
    StandEnd(b, k, o, v);
    if k == 0 {
      ValueBalance(b, o, o + |Render(v)|, v);
      NothingLeft(b, o + |Render(v)|);
    } else {
      FirstByte(v);
      AtByte(Closed(b, k), o, Render(v), |Render(v)| - 1);
      EndsInCloser(v);
      OpenBalance(b, k, o, v);
    }
  }

  lemma NothingLeft(b: seq<Byte>, e: nat)
    requires e <= |b|
    ensures Balance(b, e, e) == 0
  {}

  lemma {:induction false} OpenBalance(b: seq<Byte>, k: nat, o: nat, v: Value)
    requires v.EmptyArray? || v.Array? || v.EmptyObject? || v.Object?
    requires b != [] && k > 0 && o < |b| && WellFormed(v) && At(Closed(b, k), o, Render(v))
    requires o + |Render(v)| == |b| + k
    requires b[|b| - 1] == if v.EmptyArray? || v.Array? then RIGHT_BRACKET else RIGHT_BRACE
    ensures Balance(b, o, |b|) == k
    decreases v, 0
  {
    hide At, Balance, Closed;
    match v
    case EmptyArray(gap) => EmptyIsInside(b, k, o, LEFT_BRACKET, gap, RIGHT_BRACKET);
    case EmptyObject(gap) => EmptyIsInside(b, k, o, LEFT_BRACE, gap, RIGHT_BRACE);
    case Array(es) =>
      OpenedBalance(b, k, o, LEFT_BRACKET, RenderElements(es), RIGHT_BRACKET);
      OpenElements(b, k, o + 1, es);
    case Object(ms) =>
      OpenedBalance(b, k, o, LEFT_BRACE, RenderMembers(ms), RIGHT_BRACE);
      OpenMembers(b, k, o + 1, ms);
  }

  lemma OpenedBalance(b: seq<Byte>, k: nat, o: nat, left: Byte, inner: seq<Byte>, right: Byte)
    requires b != [] && o < |b| && At(Closed(b, k), o, [left] + inner + [right]) && Weight(left) == 1
    ensures At(Closed(b, k), o + 1, inner) && Balance(b, o, |b|) == 1 + Balance(b, o + 1, |b|)
  {
    hide At, Balance, Closed;
    AtSplit(Closed(b, k), o, [left] + inner, [right]);
    AtSplit(Closed(b, k), o, [left], inner);
    Inside(b, k, o, [left]);
    OneBracket(b, o, |b|, left);
  }

  lemma {:induction false} OpenElements(b: seq<Byte>, k: nat, o: nat, es: Elements)
    requires b != [] && k > 0 && b[|b| - 1] == RIGHT_BRACKET && o <= |b| && WellFormedElements(es)
    requires At(Closed(b, k), o, RenderElements(es)) && o + |RenderElements(es)| == |b| + k - 1
    ensures Balance(b, o, |b|) == k - 1
    decreases es
  {
    hide At, Balance, Render, WellFormed, Closed;
    ClosedBytes(b, k);
    LastOne(b, k);
    ElementParts(Closed(b, k), o, es);
    var s := o + |es.pre|;
    var e := s + |Render(es.value)|;
    StartsInside(b, k, s, es.value);
    Inside(b, k, o, es.pre);
    FrontBalance(b, o, |b|, es.pre);
    if es.LastElement? {
      LastBeforeEnd(b, k, s, es.value, es.post);
      StandingBalance(b, k - 1, s, es.value);
    } else {
      CommaInside(b, k, e, es.post);
      Inside(b, k, s, Render(es.value));
      ValueBalance(b, s, |b|, es.value);
      AtSplit(b, e, es.post, [COMMA]);
      FrontBalance(b, e, |b|, es.post);
      CommaBalance(b, e + |es.post|, |b|);
      OpenElements(b, k, e + |es.post| + 1, es.rest);
    }
  }

  lemma {:induction false} OpenMembers(b: seq<Byte>, k: nat, o: nat, ms: Members)
    requires b != [] && k > 0 && b[|b| - 1] == RIGHT_BRACE && o <= |b| && WellFormedMembers(ms)
    requires At(Closed(b, k), o, RenderMembers(ms)) && o + |RenderMembers(ms)| == |b| + k - 1
    ensures Balance(b, o, |b|) == k - 1
    decreases ms
  {
    hide At, Balance, Render, RenderKey, WellFormed, Closed;
    ClosedBytes(b, k);
    LastOne(b, k);
    MemberParts(Closed(b, k), o, ms);
    var s := o + |RenderKey(ms)|;
    var e := s + |Render(ms.value)|;
    StartsInside(b, k, s, ms.value);
    Inside(b, k, o, RenderKey(ms));
    KeyBalance(b, o, |b|, ms);
    if ms.LastMember? {
      LastBeforeEnd(b, k, s, ms.value, ms.post);
      StandingBalance(b, k - 1, s, ms.value);
    } else {
      CommaInside(b, k, e, ms.post);
      Inside(b, k, s, Render(ms.value));
      ValueBalance(b, s, |b|, ms.value);
      AtSplit(b, e, ms.post, [COMMA]);
      FrontBalance(b, e, |b|, ms.post);
      CommaBalance(b, e + |ms.post|, |b|);
      OpenMembers(b, k, e + |ms.post| + 1, ms.rest);
    }
  }

  // What was accepted is well formed if and only if the brackets of the span balance.
  lemma SoundIffBalanced(b: seq<Byte>)
    requires ParseAt(b).Parsed?
    ensures ParseAt(b).next <= |b|
    ensures Sound(b) <==> Balance(b, Skip(b, MarkEnd(b)), ParseAt(b).next) == 0
  {
    hide ParseAt, Skip, MarkEnd, Stands, WellFormed, Holds, Height, Render, Balance, Sound, Cut;
    AcceptedIff(b, ParseAt(b).item, ParseAt(b).next);
    var v, k: nat :| Begins(b, k, v) && Report(b, v) == ParseAt(b);
    var o := Skip(b, MarkEnd(b));
    StandEnd(b, k, o, v);
    StandingBalance(b, k, o, v);
    SoundIffComplete(b, k, v);
  }
}
