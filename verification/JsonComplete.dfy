// Every text of the grammar is parsed, with the kind, the span and the number of
// entries that its syntax tree says.
module JsonComplete {
  import opened Bytes
  import opened JsonLex
  import opened JsonGrammar
  import opened JsonParser

  // What the parser should report of v standing at o.
  function ItemOf(v: Value, o: nat): Item {
    match v
    case Null => Item(NullItem, o, 4, 0)
    case False => Item(FalseItem, o, 5, 0)
    case True => Item(TrueItem, o, 4, 0)
    case Number(token) => Item(NumberItem, o, |token|, 0)
    case Text(body) => Item(StringItem, o + 1, |body|, 0)
    case EmptyArray(_) => Item(ArrayItem, o, |Render(v)|, 0)
    case Array(es) => Item(ArrayItem, o, |Render(v)|, CountElements(es))
    case EmptyObject(_) => Item(ObjectItem, o, |Render(v)|, 0)
    case Object(ms) => Item(ObjectItem, o, |Render(v)|, CountMembers(ms))
  }

  // The answer for v at o with d brackets open around it.
  function Reported(v: Value, o: nat, d: nat): Parsed {
    if Height(v) + d <= NESTING_LIMIT then Parsed(ItemOf(v, o), o + |Render(v)|) else Failed
  }

  // A number is not cut out of a longer one.
  predicate Whole(b: seq<Byte>, o: nat, v: Value)
    requires o <= |b|
  {
    v.Number? ==> NumberEnd(b, o) == o + |v.token|
  }

  lemma NotAWord(b: seq<Byte>, o: nat)
    requires o < |b|
    ensures b[o] != 110 ==> !At(b, o, NULL_TEXT)
    ensures b[o] != 102 ==> !At(b, o, FALSE_TEXT)
    ensures b[o] != 116 ==> !At(b, o, TRUE_TEXT)
  {
    if At(b, o, NULL_TEXT) {
      AtByte(b, o, NULL_TEXT, 0);
    }
    if At(b, o, FALSE_TEXT) {
      AtByte(b, o, FALSE_TEXT, 0);
    }
    if At(b, o, TRUE_TEXT) {
      AtByte(b, o, TRUE_TEXT, 0);
    }
  }

  lemma AtNonEmpty(b: seq<Byte>, o: nat, s: seq<Byte>)
    requires At(b, o, s) && |s| > 0
    ensures o < |b| && b[o] == s[0]
  {
    AtByte(b, o, s, 0);
  }

  lemma CompleteString(b: seq<Byte>, o: nat, body: seq<Byte>)
    requires At(b, o, Quoted(body)) && IsBody(body)
    ensures o < |b| && StringAt(b, o) == Parsed(Item(StringItem, o + 1, |body|, 0), o + |body| + 2)
  {
    hide At, IsBody;
    AtSplit(b, o, [QUOTE] + body, [QUOTE]);
    AtSplit(b, o, [QUOTE], body);
    AtNonEmpty(b, o, [QUOTE]);
    AtNonEmpty(b, o + 1 + |body|, [QUOTE]);
    QuoteAfterBody(b, o + 1, body);
  }

  // What stands behind a value of a list: its whitespace, then the mark.
  lemma Behind(b: seq<Byte>, o: nat, v: Value, post: seq<Byte>, mark: Byte)
    requires WellFormed(v) && At(b, o, Render(v)) && At(b, o + |Render(v)|, post + [mark]) && AllSpace(post)
    requires !IsSpace(mark) && !IsNumberByte(mark)
    ensures var e := o + |Render(v)|;
            && Skip(b, e) == e + |post| < |b| && b[e + |post|] == mark && Whole(b, o, v)
  {
    hide At, StrtodEnd, Skip, NumberEnd, IsToken;
    var e := o + |Render(v)|;
    AtSplit(b, e, post, [mark]);
    AtNonEmpty(b, e + |post|, [mark]);
    SkipOver(b, e, post);
    AtNonEmpty(b, e, post + [mark]);
    if v.Number? {
      TokenTaken(b, o, v.token);
    }
  }

  lemma {:induction false} CompleteValue(b: seq<Byte>, o: nat, d: nat, v: Value)
    requires WellFormed(v) && At(b, o, Render(v)) && d <= NESTING_LIMIT && Whole(b, o, v)
    ensures ValueAt(b, o, d) == Reported(v, o, d)
    decreases v, 1
  {
    hide At, Skip, StringAt, ArrayAt, ObjectAt, NumberEnd;
    FirstByte(v);
    AtNonEmpty(b, o, Render(v));
    NotAWord(b, o);
    match v
    case Text(body) => CompleteString(b, o, body);
    case EmptyArray(_) => CompleteArray(b, o, d, v);
    case Array(_) => CompleteArray(b, o, d, v);
    case EmptyObject(_) => CompleteObject(b, o, d, v);
    case Object(_) => CompleteObject(b, o, d, v);
    case _ =>
  }

  lemma {:induction false} CompleteArray(b: seq<Byte>, o: nat, d: nat, v: Value)
    requires v.EmptyArray? || v.Array?
    requires WellFormed(v) && At(b, o, Render(v)) && d <= NESTING_LIMIT
    ensures o < |b| && ArrayAt(b, o, d) == Reported(v, o, d)
    decreases v, 0
  {
    hide At, Skip, ElementsFrom, RenderElements, WellFormedElements, HeightElements, CountElements;
    var inner := if v.EmptyArray? then v.gap else RenderElements(v.elements);
    AtSplit(b, o, [LEFT_BRACKET] + inner, [RIGHT_BRACKET]);
    AtSplit(b, o, [LEFT_BRACKET], inner);
    AtNonEmpty(b, o, [LEFT_BRACKET]);
    AtNonEmpty(b, o + 1 + |inner|, [RIGHT_BRACKET]);
    if v.EmptyArray? {
      SkipOver(b, o + 1, v.gap);
    } else if d < NESTING_LIMIT {
      CompleteElements(b, o + 1, d, 0, v.elements);
    }
  }

  lemma {:induction false} CompleteElements(b: seq<Byte>, o: nat, d: nat, n: nat, es: Elements)
    requires WellFormedElements(es) && At(b, o, RenderElements(es)) && d < NESTING_LIMIT
    requires At(b, o + |RenderElements(es)|, [RIGHT_BRACKET])
    ensures var s := Skip(b, o);
            && b[s] != RIGHT_BRACKET
            && ElementsFrom(b, s, d, n) ==
                 if HeightElements(es) + d < NESTING_LIMIT
                 then Listed(n + CountElements(es), o + |RenderElements(es)|) else Broken
    decreases es
  {
    hide At, Skip, ElementsFrom, ValueAt, NumberEnd, Render, Height, WellFormed, Whole;
    var s, e := o + |es.pre|, o + |es.pre| + |Render(es.value)|;
    ElementParts(b, o, es);
    FirstByte(es.value);
    AtNonEmpty(b, s, Render(es.value));
    SkipOver(b, o, es.pre);
    Behind(b, s, es.value, es.post, if es.LastElement? then RIGHT_BRACKET else COMMA);
    CompleteValue(b, s, d + 1, es.value);
    ElementsStep(b, s, d, n);
    if es.MoreElements? {
      CompleteElements(b, e + |es.post| + 1, d, n + 1, es.rest);
    }
  }

  // Where the parts of an element stand.
  lemma ElementParts(b: seq<Byte>, o: nat, es: Elements)
    requires At(b, o, RenderElements(es)) && At(b, o + |RenderElements(es)|, [RIGHT_BRACKET])
    ensures var s := o + |es.pre|; var e := s + |Render(es.value)|; var f := e + |es.post|;
            && At(b, o, es.pre) && At(b, s, Render(es.value))
            && At(b, e, es.post + [if es.LastElement? then RIGHT_BRACKET else COMMA])
            && (es.LastElement? ==> f == o + |RenderElements(es)|)
            && (es.MoreElements? ==>
                && At(b, f + 1, RenderElements(es.rest))
                && f + 1 + |RenderElements(es.rest)| == o + |RenderElements(es)|)
  {
    hide At, Render;
    var s := o + |es.pre|; var e := s + |Render(es.value)|; var f := e + |es.post|;
    var first := es.pre + (Render(es.value) + es.post);
    if es.MoreElements? {
      AtSplit(b, o, first, [COMMA] + RenderElements(es.rest));
      AtSplit(b, f, [COMMA], RenderElements(es.rest));
    }
    AtSplit(b, o, es.pre, Render(es.value) + es.post);
    AtSplit(b, s, Render(es.value), es.post);
    AtSplit(b, e, es.post, [if es.LastElement? then RIGHT_BRACKET else COMMA]);
  }

  lemma {:induction false} CompleteObject(b: seq<Byte>, o: nat, d: nat, v: Value)
    requires v.EmptyObject? || v.Object?
    requires WellFormed(v) && At(b, o, Render(v)) && d <= NESTING_LIMIT
    ensures o < |b| && ObjectAt(b, o, d) == Reported(v, o, d)
    decreases v, 0
  {
    hide At, Skip, PairsFrom, RenderMembers, WellFormedMembers, HeightMembers, CountMembers;
    var inner := if v.EmptyObject? then v.gap else RenderMembers(v.members);
    AtSplit(b, o, [LEFT_BRACE] + inner, [RIGHT_BRACE]);
    AtSplit(b, o, [LEFT_BRACE], inner);
    AtNonEmpty(b, o, [LEFT_BRACE]);
    AtNonEmpty(b, o + 1 + |inner|, [RIGHT_BRACE]);
    if v.EmptyObject? {
      SkipOver(b, o + 1, v.gap);
    } else if d < NESTING_LIMIT {
      CompleteMembers(b, o + 1, d, 0, v.members);
    }
  }

  lemma {:induction false} CompleteMembers(b: seq<Byte>, o: nat, d: nat, n: nat, ms: Members)
    requires WellFormedMembers(ms) && At(b, o, RenderMembers(ms)) && d < NESTING_LIMIT
    requires At(b, o + |RenderMembers(ms)|, [RIGHT_BRACE])
    ensures var s := Skip(b, o);
            && b[s] != RIGHT_BRACE
            && PairsFrom(b, s, d, n) ==
                 if HeightMembers(ms) + d < NESTING_LIMIT
                 then Listed(n + CountMembers(ms), o + |RenderMembers(ms)|) else Broken
    decreases ms
  {
    hide At, Skip, PairsFrom, PairAt, NumberEnd, Render, RenderKey, Height, WellFormed, Whole;
    MemberParts(b, o, ms);
    Behind(b, o + |RenderKey(ms)|, ms.value, ms.post, if ms.LastMember? then RIGHT_BRACE else COMMA);
    CompletePair(b, o, d + 1, ms);
    var e := o + |RenderKey(ms)| + |Render(ms.value)|;
    PairsStep(b, o + |ms.pre|, d, n);
    if ms.MoreMembers? {
      CompleteMembers(b, e + |ms.post| + 1, d, n + 1, ms.rest);
    }
  }

  // What one turn over the members finds.
  function PairOf(ms: Members, o: nat): Pair {
    var value := o + |RenderKey(ms)|;
    Pair(KeyOf(ms, o), ItemOf(ms.value, value), value + |Render(ms.value)|)
  }

  function KeyOf(ms: Members, o: nat): Item {
    Item(StringItem, o + |ms.pre| + 1, |ms.key|, 0)
  }

  lemma {:induction false} CompletePair(b: seq<Byte>, o: nat, d: nat, ms: Members)
    requires WellFormedMembers(ms) && At(b, o, RenderKey(ms)) && At(b, o + |RenderKey(ms)|, Render(ms.value))
    requires d <= NESTING_LIMIT && Whole(b, o + |RenderKey(ms)|, ms.value)
    ensures var s := Skip(b, o);
            && s == o + |ms.pre| && b[s] == QUOTE
            && PairAt(b, s, d) == if Height(ms.value) + d <= NESTING_LIMIT then PairOf(ms, o) else NoPair
    decreases ms, 0
  {
    hide At, Skip, PairAt, ValueAt, NumberEnd, Render, RenderKey, WellFormed, Whole;
    var k := o + |RenderKey(ms)|;
    FirstByte(ms.value);
    AtNonEmpty(b, k, Render(ms.value));
    CompleteKey(b, o, d, ms);
    CompleteValue(b, k, d, ms.value);
  }

  // The key, the colon and the whitespace in front of a visible byte are read, and then that byte's value.
  lemma CompleteKey(b: seq<Byte>, o: nat, d: nat, ms: Members)
    requires WellFormedMembers(ms) && At(b, o, RenderKey(ms)) && d <= NESTING_LIMIT
    requires o + |RenderKey(ms)| < |b| && !IsSpace(b[o + |RenderKey(ms)|])
    ensures var s := Skip(b, o); var r := ValueAt(b, o + |RenderKey(ms)|, d);
            && s == o + |ms.pre| && b[s] == QUOTE
            && PairAt(b, s, d) == if r.Failed? then NoPair else Pair(KeyOf(ms, o), r.item, r.next)
  {
    hide At, Skip, ValueAt, StringAt, WellFormed;
    var s := o + |ms.pre|;
    var e := s + |ms.key| + 2;
    var c := e + |ms.gap|;
    AtSplit(b, o, ms.pre, Quoted(ms.key) + (ms.gap + ([COLON] + ms.colonGap)));
    AtSplit(b, s, Quoted(ms.key), ms.gap + ([COLON] + ms.colonGap));
    AtSplit(b, e, ms.gap, [COLON] + ms.colonGap);
    AtSplit(b, c, [COLON], ms.colonGap);
    AtNonEmpty(b, s, Quoted(ms.key));
    AtNonEmpty(b, c, [COLON]);
    SkipOver(b, o, ms.pre);
    CompleteString(b, s, ms.key);
    SkipOver(b, e, ms.gap);
    SkipOver(b, c + 1, ms.colonGap);
  }

  // Where the parts of a member stand.
  lemma MemberParts(b: seq<Byte>, o: nat, ms: Members)
    requires At(b, o, RenderMembers(ms)) && At(b, o + |RenderMembers(ms)|, [RIGHT_BRACE])
    ensures var s := o + |RenderKey(ms)|; var e := s + |Render(ms.value)|; var f := e + |ms.post|;
            && At(b, o, RenderKey(ms)) && At(b, s, Render(ms.value))
            && At(b, e, ms.post + [if ms.LastMember? then RIGHT_BRACE else COMMA])
            && (ms.LastMember? ==> f == o + |RenderMembers(ms)|)
            && (ms.MoreMembers? ==>
                && At(b, f + 1, RenderMembers(ms.rest))
                && f + 1 + |RenderMembers(ms.rest)| == o + |RenderMembers(ms)|)
  {
    hide At, Render, RenderKey;
    var s := o + |RenderKey(ms)|; var e := s + |Render(ms.value)|; var f := e + |ms.post|;
    var first := RenderKey(ms) + (Render(ms.value) + ms.post);
    if ms.MoreMembers? {
      AtSplit(b, o, first, [COMMA] + RenderMembers(ms.rest));
      AtSplit(b, f, [COMMA], RenderMembers(ms.rest));
    }
    AtSplit(b, o, RenderKey(ms), Render(ms.value) + ms.post);
    AtSplit(b, s, Render(ms.value), ms.post);
    AtSplit(b, e, ms.post, [if ms.LastMember? then RIGHT_BRACE else COMMA]);
  }

  // A text of RFC 8259 between whitespace is accepted if and only if it nests at most 1000 deep, and
  // its kind, span and count are exact.
  lemma StandardTextsAccepted(pre: seq<Byte>, v: Value, post: seq<Byte>)
    requires StrictSpace(pre) && Strict(v) && StrictSpace(post)
    ensures ParseAt(pre + Render(v) + post) == Reported(v, |pre|, 0)
  {
    StrictIsWellFormed(v);
    TextsAccepted(pre, v, post);
  }

  lemma TextsAccepted(pre: seq<Byte>, v: Value, post: seq<Byte>)
    requires AllSpace(pre) && WellFormed(v) && AllSpace(post)
    ensures ParseAt(pre + Render(v) + post) == Reported(v, |pre|, 0)
  {
    hide Render, ParseAt;
    var b := pre + Render(v) + post;
    FirstByte(v);
    assert b[0] == if pre == [] then Render(v)[0] else pre[0];
    assert !At(b, 0, BYTE_ORDER_MARK) by {
      if At(b, 0, BYTE_ORDER_MARK) {
        AtByte(b, 0, BYTE_ORDER_MARK, 0);
      }
    }
    AcceptedFrom(b, pre, v, post);
  }

  // Behind a byte order mark the same text is accepted if and only if it has two bytes or more.
  lemma MarkedTextsAccepted(pre: seq<Byte>, v: Value, post: seq<Byte>)
    requires AllSpace(pre) && WellFormed(v) && AllSpace(post)
    ensures var text := pre + Render(v) + post;
            ParseAt(BYTE_ORDER_MARK + text)
            == if |text| >= 2 then Reported(v, 3 + |pre|, 0) else Failed
  {
    hide Render, ArrayAt, ObjectAt, StringAt, NumberAt;
    var text := pre + Render(v) + post;
    var b := BYTE_ORDER_MARK + text;
    FirstByte(v);
    assert At(b, 0, BYTE_ORDER_MARK);
    if |text| >= 2 {
      AcceptedFrom(b, pre, v, post);
    } else {
      assert b[0] == 0xEF;
      NotAWord(b, 0);
    }
  }

  // The text `1` is a number, and behind a mark it is rejected.
  lemma MarkBeforeOneDigit()
    ensures ParseAt([49]) == Parsed(Item(NumberItem, 0, 1, 0), 1)
    ensures ParseAt(BYTE_ORDER_MARK + [49]) == Failed
  {
    hide ParseAt;
    assert IsToken([49]);
    TextsAccepted([], Number([49]), []);
    MarkedTextsAccepted([], Number([49]), []);
    assert [] + Render(Number([49])) + [] == [49];
  }

  lemma AcceptedFrom(b: seq<Byte>, pre: seq<Byte>, v: Value, post: seq<Byte>)
    requires b == b[..MarkEnd(b)] + (pre + Render(v) + post)
    requires AllSpace(pre) && WellFormed(v) && AllSpace(post)
    ensures ParseAt(b) == Reported(v, MarkEnd(b) + |pre|, 0)
  {
    hide Render, ValueAt, Skip, NumberEnd, MarkEnd, Whole, WellFormed;
    var m := MarkEnd(b);
    var o := m + |pre|;
    var e := o + |Render(v)|;
    FirstByte(v);
    assert b[m..o] == pre && b[o..e] == Render(v) && b[e..] == post;
    assert b[o] == Render(v)[0];
    SkipOver(b, m, pre);
    WholeAtEnd(b, o, v, post);
    CompleteValue(b, o, 0, v);
  }

  lemma WholeAtEnd(b: seq<Byte>, o: nat, v: Value, post: seq<Byte>)
    requires WellFormed(v) && At(b, o, Render(v)) && AllSpace(post)
    requires b[o + |Render(v)|..] == post
    ensures Whole(b, o, v)
  {
    hide IsToken, At, NumberEnd;
    var e := o + |Render(v)|;
    if v.Number? {
      assert e < |b| ==> b[e..][0] == b[e];
      TokenTaken(b, o, v.token);
    }
  }
}
