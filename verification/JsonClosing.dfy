// One closing bracket at the very end of a buffer can close several levels, because
// the whitespace skipper steps back onto it.  A value that lacks only such brackets
// is parsed as if they were there.
module JsonClosing {
  import opened Bytes
  import opened JsonLex
  import opened JsonGrammar
  import opened JsonParser
  import opened JsonComplete

  predicate IsCloser(c: Byte) {
    c == RIGHT_BRACKET || c == RIGHT_BRACE
  }

  // The buffer with its last byte k times more behind it.
  function Closed(b: seq<Byte>, k: nat): seq<Byte>
    requires b != []
  {
    b + seq(k, i => b[|b| - 1])
  }

  // v stands at o in the buffer, or reaches exactly to the end of the k closing brackets that b lacks.
  predicate Stands(b: seq<Byte>, k: nat, o: nat, v: Value)
    requires b != [] && o <= |b|
  {
    && At(Closed(b, k), o, Render(v)) && Whole(b, o, v)
    && (k > 0 ==> IsCloser(b[|b| - 1]) && o + |Render(v)| == |b| + k)
  }

  // A report that ends with the buffer.
  function Cut(r: Parsed, size: nat): Parsed {
    match r
    case Failed => Failed
    case Parsed(item, next) =>
      if next <= size then r
      else Parsed(item.(length := if size < item.start then 0 else size - item.start), size)
  }

  lemma ClosedBytes(b: seq<Byte>, k: nat)
    requires b != []
    ensures var c := Closed(b, k);
            && |c| == |b| + k
            && (forall i :: 0 <= i < |b| ==> c[i] == b[i])
            && (forall i :: |b| - 1 <= i < |b| + k ==> c[i] == b[|b| - 1])
    ensures Closed(b, 0) == b
  {}

  // What ends in the buffer does not see the brackets behind it.
  lemma Within(b: seq<Byte>, k: nat, j: nat, o: nat, s: seq<Byte>)
    requires b != [] && j <= k && o + |s| <= |b| + j
    ensures At(Closed(b, k), o, s) <==> At(Closed(b, j), o, s)
  {
    ClosedBytes(b, k);
    ClosedBytes(b, j);
    assert Closed(b, k)[o..o + |s|] == Closed(b, j)[o..o + |s|];
  }

  // Text that stands in the buffer, found in the closed one.
  lemma Inside(b: seq<Byte>, k: nat, o: nat, s: seq<Byte>)
    requires b != [] && o + |s| <= |b|
    ensures At(Closed(b, k), o, s) <==> At(b, o, s)
  {
    Within(b, k, 0, o, s);
    ClosedBytes(b, 0);
  }

  // A value that ends in a closing bracket is an array or an object.
  lemma EndsInCloser(v: Value)
    requires WellFormed(v) && |Render(v)| > 0 && IsCloser(Render(v)[|Render(v)| - 1])
    ensures v.EmptyArray? || v.Array? || v.EmptyObject? || v.Object?
    ensures v.EmptyArray? || v.Array? ==> Render(v)[|Render(v)| - 1] == RIGHT_BRACKET
    ensures v.EmptyObject? || v.Object? ==> Render(v)[|Render(v)| - 1] == RIGHT_BRACE
  {
    hide StrtodEnd, IsBody, RenderElements, RenderMembers;
  }

  // The brackets behind the buffer are closing ones, so no value begins there.
  lemma StartsInside(b: seq<Byte>, k: nat, o: nat, v: Value)
    requires b != [] && WellFormed(v) && At(Closed(b, k), o, Render(v)) && (k > 0 ==> IsCloser(b[|b| - 1]))
    ensures o < |b| && b[o] == Render(v)[0] && !IsSpace(b[o]) && !IsCloser(b[o])
  {
    hide Render, WellFormed;
    ClosedBytes(b, k);
    FirstByte(v);
    AtByte(Closed(b, k), o, Render(v), 0);
  }

  lemma SkipLast(b: seq<Byte>)
    requires b != []
    ensures Skip(b, |b| - 1) == |b| - 1 && Skip(b, |b|) == |b| - 1
  {}

  lemma {:induction false} StandingValue(b: seq<Byte>, k: nat, o: nat, d: nat, v: Value)
    requires b != [] && o < |b| && d <= NESTING_LIMIT && WellFormed(v) && Stands(b, k, o, v)
    ensures ValueAt(b, o, d) == Cut(Reported(v, o, d), |b|)
    decreases v, 1
  {
    hide At, ArrayAt, ObjectAt, StringAt, NumberAt, Closed, Render, WellFormed;
    ClosedBytes(b, k);
    if k == 0 {
      CompleteValue(b, o, d, v);
      ReportedInside(b, o, d, v);
    } else {
      StartsInside(b, k, o, v);
      NotAWord(b, o);
      AtByte(Closed(b, k), o, Render(v), |Render(v)| - 1);
      EndsInCloser(v);
      FirstByte(v);
      if v.EmptyArray? || v.Array? {
        CutArray(b, k, o, d, v);
      } else {
        CutObject(b, k, o, d, v);
      }
    }
  }

  lemma ReportedInside(b: seq<Byte>, o: nat, d: nat, v: Value)
    requires At(b, o, Render(v))
    ensures Cut(Reported(v, o, d), |b|) == Reported(v, o, d)
  {
    hide Render;
  }

  // An empty array or object lacks nothing: in front of its bracket stands a space or the opening one.
  lemma EmptyIsInside(b: seq<Byte>, k: nat, o: nat, left: Byte, gap: seq<Byte>, right: Byte)
    requires b != [] && k > 0 && IsCloser(b[|b| - 1]) && !IsCloser(left) && AllSpace(gap)
    requires At(Closed(b, k), o, [left] + gap + [right])
    ensures o + |gap| + 2 != |b| + k
  {
    hide At;
    ClosedBytes(b, k);
    AtByte(Closed(b, k), o, [left] + gap + [right], |gap|);
  }

  lemma {:induction false} CutArray(b: seq<Byte>, k: nat, o: nat, d: nat, v: Value)
    requires v.EmptyArray? || v.Array?
    requires b != [] && k > 0 && b[|b| - 1] == RIGHT_BRACKET && o < |b| && d <= NESTING_LIMIT && WellFormed(v)
    requires At(Closed(b, k), o, Render(v)) && o + |Render(v)| == |b| + k
    ensures ArrayAt(b, o, d) == Cut(Reported(v, o, d), |b|)
    decreases v, 0
  {
    hide At, Skip, ElementsFrom, Closed;
    ClosedBytes(b, k);
    if v.EmptyArray? {
      EmptyIsInside(b, k, o, LEFT_BRACKET, v.gap, RIGHT_BRACKET);
    } else {
      var inner := RenderElements(v.elements);
      var c := Closed(b, k);
      AtSplit(c, o, [LEFT_BRACKET] + inner, [RIGHT_BRACKET]);
      AtSplit(c, o, [LEFT_BRACKET], inner);
      AtNonEmpty(c, o, [LEFT_BRACKET]);
      if d < NESTING_LIMIT {
        CutElements(b, k, o + 1, d, 0, v.elements);
      }
    }
  }

  lemma {:induction false} CutElements(b: seq<Byte>, k: nat, o: nat, d: nat, n: nat, es: Elements)
    requires b != [] && k > 0 && b[|b| - 1] == RIGHT_BRACKET && o <= |b| && d < NESTING_LIMIT && WellFormedElements(es)
    requires At(Closed(b, k), o, RenderElements(es)) && o + |RenderElements(es)| == |b| + k - 1
    ensures var s := Skip(b, o);
            && b[s] != RIGHT_BRACKET
            && ElementsFrom(b, s, d, n) ==
                 if HeightElements(es) + d < NESTING_LIMIT then Listed(n + CountElements(es), |b| - 1) else Broken
    decreases es
  {
    hide At, Skip, ElementsFrom, ValueAt, NumberEnd, Render, Height, WellFormed, Whole, Closed;
    var c := Closed(b, k);
    ClosedBytes(b, k);
    LastOne(b, k);
    ElementParts(c, o, es);
    var s := o + |es.pre|;
    var e := s + |Render(es.value)|;
    StartsInside(b, k, s, es.value);
    Inside(b, k, o, es.pre);
    SkipOver(b, o, es.pre);
    ElementsStep(b, s, d, n);
    if es.LastElement? {
      LastValue(b, k, s, d + 1, es.value, es.post);
    } else {
      ValueBeforeComma(b, k, s, d + 1, es.value, es.post);
      CutElements(b, k, e + |es.post| + 1, d, n + 1, es.rest);
    }
  }

  lemma LastOne(b: seq<Byte>, k: nat)
    requires b != [] && k > 0
    ensures At(Closed(b, k), |b| + k - 1, [b[|b| - 1]])
  {
    ClosedBytes(b, k);
  }

  // The last value of a list that lacks k brackets lacks k - 1 of them, and stands right in front of the last.
  lemma LastBeforeEnd(b: seq<Byte>, k: nat, s: nat, v: Value, post: seq<Byte>)
    requires b != [] && k > 0 && IsCloser(b[|b| - 1]) && s < |b| && WellFormed(v) && AllSpace(post)
    requires At(Closed(b, k), s, Render(v)) && At(Closed(b, k), s + |Render(v)|, post + [b[|b| - 1]])
    requires s + |Render(v)| + |post| == |b| + k - 1
    ensures post == [] && Stands(b, k - 1, s, v)
  {
    hide At, Closed, Render, WellFormed, NumberEnd;
    ClosedBytes(b, k);
    FirstByte(v);
    if post != [] {
      AtByte(Closed(b, k), s + |Render(v)|, post + [b[|b| - 1]], |post| - 1);
    }
    AtByte(Closed(b, k), s, Render(v), |Render(v)| - 1);
    EndsInCloser(v);
    Within(b, k, k - 1, s, Render(v));
  }

  // A comma stands in the buffer itself.
  lemma CommaInside(b: seq<Byte>, k: nat, e: nat, post: seq<Byte>)
    requires b != [] && (k > 0 ==> IsCloser(b[|b| - 1])) && At(Closed(b, k), e, post + [COMMA])
    ensures e + |post| < |b| && At(b, e, post + [COMMA])
  {
    hide At, Closed;
    ClosedBytes(b, k);
    AtSplit(Closed(b, k), e, post, [COMMA]);
    AtNonEmpty(Closed(b, k), e + |post|, [COMMA]);
    Inside(b, k, e, post + [COMMA]);
  }

  // The last value of a list that lacks brackets: the parser stops at the end of the buffer and steps back.
  lemma {:induction false} LastValue(b: seq<Byte>, k: nat, s: nat, d: nat, v: Value, post: seq<Byte>)
    requires b != [] && k > 0 && IsCloser(b[|b| - 1]) && s < |b| && d <= NESTING_LIMIT && WellFormed(v) && AllSpace(post)
    requires At(Closed(b, k), s, Render(v)) && At(Closed(b, k), s + |Render(v)|, post + [b[|b| - 1]])
    requires s + |Render(v)| + |post| == |b| + k - 1
    ensures var r := ValueAt(b, s, d);
            && (r.Parsed? <==> Height(v) + d <= NESTING_LIMIT)
            && (r.Parsed? ==> r.next == |b| && Skip(b, r.next) == |b| - 1)
    decreases v, 2
  {
    hide At, Skip, ValueAt, NumberEnd, Render, Height, WellFormed, Whole, Closed;
    LastBeforeEnd(b, k, s, v, post);
    StandingValue(b, k - 1, s, d, v);
    SkipLast(b);
  }

  lemma ValueBeforeComma(b: seq<Byte>, k: nat, s: nat, d: nat, v: Value, post: seq<Byte>)
    requires b != [] && (k > 0 ==> IsCloser(b[|b| - 1])) && d <= NESTING_LIMIT && WellFormed(v) && AllSpace(post)
    requires At(Closed(b, k), s, Render(v)) && At(Closed(b, k), s + |Render(v)|, post + [COMMA])
    ensures s + |Render(v)| + |post| < |b|
    ensures var e := s + |Render(v)|; var r := ValueAt(b, s, d);
            && Skip(b, e) == e + |post| && b[e + |post|] == COMMA
            && (r.Parsed? <==> Height(v) + d <= NESTING_LIMIT)
            && (r.Parsed? ==> r.next == e)
  {
    hide At, Skip, ValueAt, NumberEnd, Render, Height, WellFormed, Whole, Closed;
    CommaInside(b, k, s + |Render(v)|, post);
    Inside(b, k, s, Render(v));
    Behind(b, s, v, post, COMMA);
    CompleteValue(b, s, d, v);
  }

  lemma {:induction false} CutObject(b: seq<Byte>, k: nat, o: nat, d: nat, v: Value)
    requires v.EmptyObject? || v.Object?
    requires b != [] && k > 0 && b[|b| - 1] == RIGHT_BRACE && o < |b| && d <= NESTING_LIMIT && WellFormed(v)
    requires At(Closed(b, k), o, Render(v)) && o + |Render(v)| == |b| + k
    ensures ObjectAt(b, o, d) == Cut(Reported(v, o, d), |b|)
    decreases v, 0
  {
    hide At, Skip, PairsFrom, Closed;
    ClosedBytes(b, k);
    if v.EmptyObject? {
      EmptyIsInside(b, k, o, LEFT_BRACE, v.gap, RIGHT_BRACE);
    } else {
      var inner := RenderMembers(v.members);
      var c := Closed(b, k);
      AtSplit(c, o, [LEFT_BRACE] + inner, [RIGHT_BRACE]);
      AtSplit(c, o, [LEFT_BRACE], inner);
      AtNonEmpty(c, o, [LEFT_BRACE]);
      if d < NESTING_LIMIT {
        CutMembers(b, k, o + 1, d, 0, v.members);
      }
    }
  }

  lemma {:induction false} CutMembers(b: seq<Byte>, k: nat, o: nat, d: nat, n: nat, ms: Members)
    requires b != [] && k > 0 && b[|b| - 1] == RIGHT_BRACE && o <= |b| && d < NESTING_LIMIT && WellFormedMembers(ms)
    requires At(Closed(b, k), o, RenderMembers(ms)) && o + |RenderMembers(ms)| == |b| + k - 1
    ensures var s := Skip(b, o);
            && b[s] != RIGHT_BRACE
            && PairsFrom(b, s, d, n) ==
                 if HeightMembers(ms) + d < NESTING_LIMIT then Listed(n + CountMembers(ms), |b| - 1) else Broken
    decreases ms
  {
    hide At, Skip, PairsFrom, PairAt, ValueAt, NumberEnd, Render, RenderKey, Height, WellFormed, Whole, Closed;
    var c := Closed(b, k);
    ClosedBytes(b, k);
    LastOne(b, k);
    MemberParts(c, o, ms);
    var s := o + |RenderKey(ms)|;
    var e := s + |Render(ms.value)|;
    StartsInside(b, k, s, ms.value);
    Inside(b, k, o, RenderKey(ms));
    CompleteKey(b, o, d + 1, ms);
    PairsStep(b, o + |ms.pre|, d, n);
    if ms.LastMember? {
      LastValue(b, k, s, d + 1, ms.value, ms.post);
    } else {
      ValueBeforeComma(b, k, s, d + 1, ms.value, ms.post);
      CutMembers(b, k, e + |ms.post| + 1, d, n + 1, ms.rest);
    }
  }
}
