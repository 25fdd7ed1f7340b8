// On well-formed text the accessors are lookups in the syntax tree.
module JsonLookup {
  import opened Bytes
  import opened JsonLex
  import opened JsonGrammar
  import opened JsonParser
  import opened JsonComplete
  import opened JsonNavigate

  // A value and the position of its text in the buffer.
  datatype Node = Nowhere | Node(value: Value, at: nat)

  // The k-th of the elements that stand at o.
  function NthElement(es: Elements, o: nat, k: nat): Node
    decreases es
  {
    if k == 0 then Node(es.value, o + |es.pre|)
    else if es.LastElement? then Nowhere
    else NthElement(es.rest, o + |es.pre| + |Render(es.value)| + |es.post| + 1, k - 1)
  }

  function ElementNode(n: Node, index: int): Node {
    if n.Node? && n.value.Array? && 0 <= index then NthElement(n.value.elements, n.at + 1, index) else Nowhere
  }

  // The first member with the key, byte for byte.
  function FirstMember(ms: Members, o: nat, key: seq<Byte>): Node
    decreases ms
  {
    if ms.key == key then Node(ms.value, o + |RenderKey(ms)|)
    else if ms.LastMember? then Nowhere
    else FirstMember(ms.rest, o + |RenderKey(ms)| + |Render(ms.value)| + |ms.post| + 1, key)
  }

  function FieldNode(n: Node, key: seq<Byte>): Node {
    if n.Node? && n.value.Object? && key != [] then FirstMember(n.value.members, n.at + 1, key) else Nowhere
  }

  function StepNode(n: Node, key: seq<Byte>, atoi: seq<Byte> -> int): Node {
    match SegmentOf(key)
    case Name(name) => FieldNode(n, name)
    case Indexed(name, index) => ElementNode(FieldNode(n, name), atoi(index))
  }

  // The fold of the steps of a dotted path.
  function PathNode(n: Node, key: seq<Byte>, atoi: seq<Byte> -> int): Node
    decreases |key|
  {
    var dot := DotFrom(key, 0);
    var found := StepNode(n, key[..dot], atoi);
    if dot == |key| then found else PathNode(found, key[dot + 1..], atoi)
  }

  // The item of a node, as the parser reports it.
  function LookupOf(n: Node): Lookup {
    if n.Nowhere? then Missing else Found(ItemOf(n.value, n.at))
  }

  // A node of well-formed text in b that the parser can read.
  predicate Stands(b: seq<Byte>, n: Node) {
    n.Node? ==> WellFormed(n.value) && At(b, n.at, Render(n.value)) && Height(n.value) <= NESTING_LIMIT
  }

  lemma StandsInside(b: seq<Byte>, n: Node)
    requires n.Node? && Stands(b, n)
    ensures Inside(b, ItemOf(n.value, n.at))
    ensures n.value.Array? || n.value.Object? ==> TextOf(b, ItemOf(n.value, n.at)) == Render(n.value)
  {}

  // ---------- arrays ----------

  lemma {:induction false} NthElementFound(t: seq<Byte>, o: nat, es: Elements, k: nat)
    requires WellFormedElements(es) && At(t, o, RenderElements(es)) && HeightElements(es) <= NESTING_LIMIT
    requires At(t, o + |RenderElements(es)|, [RIGHT_BRACKET])
    ensures var s := Skip(t, o); var n := NthElement(es, o, k);
            && s < |t| && t[s] != RIGHT_BRACKET
            && (n.Node? <==> k < CountElements(es))
            && Stands(t, n)
            && (n.Node? ==> NthFrom(t, s, k) == Parsed(ItemOf(n.value, n.at), n.at + |Render(n.value)|))
    decreases es
  {
    hide At, Skip, NthFrom, ValueAt, NumberEnd, Render, WellFormed, Whole;
    var s, e := o + |es.pre|, o + |es.pre| + |Render(es.value)|;
    ElementParts(t, o, es);
    FirstByte(es.value);
    AtNonEmpty(t, s, Render(es.value));
    SkipOver(t, o, es.pre);
    Behind(t, s, es.value, es.post, if es.LastElement? then RIGHT_BRACKET else COMMA);
    CompleteValue(t, s, 0, es.value);
    NthStep(t, s, k);
    if k > 0 && es.MoreElements? {
      NthElementFound(t, e + |es.post| + 1, es.rest, k - 1);
    }
  }

  // The node of a part of the text t of a value at o in b.
  function Lifted(n: Node, o: nat): Node {
    if n.Nowhere? then Nowhere else Node(n.value, n.at + o)
  }

  lemma AtWithin(b: seq<Byte>, o: nat, t: seq<Byte>, i: nat, s: seq<Byte>)
    requires At(b, o, t) && At(t, i, s)
    ensures At(b, o + i, s)
  {
    var front, back := t[..i], t[i + |s|..];
    assert t == front + (s + back);
    AtSplit(b, o, front, s + back);
    AtSplit(b, o + i, s, back);
  }

  lemma LiftedStands(b: seq<Byte>, o: nat, t: seq<Byte>, n: Node)
    requires At(b, o, t) && Stands(t, n)
    ensures Stands(b, Lifted(n, o))
  {
    if n.Node? {
      AtWithin(b, o, t, n.at, Render(n.value));
    }
  }

  lemma {:induction false} NthElementLifted(es: Elements, o: nat, shift: nat, k: nat)
    ensures NthElement(es, o + shift, k) == Lifted(NthElement(es, o, k), shift)
    decreases es
  {
    if k > 0 && es.MoreElements? {
      NthElementLifted(es.rest, o + |es.pre| + |Render(es.value)| + |es.post| + 1, shift, k - 1);
    }
  }

  lemma Inner(left: Byte, inner: seq<Byte>, right: Byte)
    ensures var t := [left] + inner + [right]; At(t, 1, inner) && At(t, 1 + |inner|, [right])
  {}

  // lite_cjson_array_item is indexing in the tree.
  lemma ElementIsNode(b: seq<Byte>, n: Node, index: int)
    requires n.Node? && Stands(b, n)
    ensures Inside(b, ItemOf(n.value, n.at))
    ensures Element(b, ItemOf(n.value, n.at), index) == LookupOf(ElementNode(n, index))
    ensures Stands(b, ElementNode(n, index))
    ensures ElementNode(n, index).Node? <==> n.value.Array? && 0 <= index < CountElements(n.value.elements)
  {
    hide At, Skip, NthFrom, NthElement, RenderElements, WellFormedElements, HeightElements, CountElements;
    StandsInside(b, n);
    if n.value.Array? {
      hide Render;
      var k := if index < 0 then 0 else index;
      ElementOfText(n.value, k);
      NthElementLifted(n.value.elements, 1, n.at, k);
      LiftedStands(b, n.at, Render(n.value), NthElement(n.value.elements, 1, k));
    }
  }

  // The k-th element in the text of an array.
  lemma ElementOfText(v: Value, k: nat)
    requires v.Array? && WellFormed(v) && Height(v) <= NESTING_LIMIT
    ensures var t := Render(v); var n := NthElement(v.elements, 1, k);
            && |t| > 1 && t[0] == LEFT_BRACKET && t[Skip(t, 1)] != RIGHT_BRACKET
            && (n.Node? <==> k < CountElements(v.elements))
            && Stands(t, n)
            && (n.Node? ==> NthFrom(t, Skip(t, 1), k) == Parsed(ItemOf(n.value, n.at), n.at + |Render(n.value)|))
  {
    hide At, Skip, NthFrom, NthElement, RenderElements, WellFormedElements, HeightElements, CountElements, ItemOf, Stands;
    Inner(LEFT_BRACKET, RenderElements(v.elements), RIGHT_BRACKET);
    NthElementFound(Render(v), 1, v.elements, k);
  }

  // ---------- objects ----------

  lemma {:induction false} FirstMemberFound(t: seq<Byte>, o: nat, ms: Members, key: seq<Byte>)
    requires WellFormedMembers(ms) && At(t, o, RenderMembers(ms)) && HeightMembers(ms) <= NESTING_LIMIT
    requires At(t, o + |RenderMembers(ms)|, [RIGHT_BRACE])
    ensures var s := Skip(t, o); var n := FirstMember(ms, o, key);
            && s < |t| && t[s] != RIGHT_BRACE
            && Stands(t, n)
            && FieldFrom(t, s, key) == if n.Nowhere? then Failed else Parsed(ItemOf(n.value, n.at), n.at + |Render(n.value)|)
    decreases ms
  {
    hide At, Skip, FieldFrom, Render, RenderKey, WellFormed, Height, ItemOf;
    MemberParts(t, o, ms);
    FirstTurn(t, o, ms, key);
    if ms.key != key && ms.MoreMembers? {
      FirstMemberFound(t, o + |RenderKey(ms)| + |Render(ms.value)| + |ms.post| + 1, ms.rest, key);
    }
  }

  // The first turn of the search either finds the key or goes on behind the comma.
  lemma FirstTurn(t: seq<Byte>, o: nat, ms: Members, key: seq<Byte>)
    requires WellFormedMembers(ms) && At(t, o, RenderMembers(ms)) && HeightMembers(ms) <= NESTING_LIMIT
    requires At(t, o + |RenderMembers(ms)|, [RIGHT_BRACE])
    ensures var s := Skip(t, o); var v := o + |RenderKey(ms)|; var e := v + |Render(ms.value)|;
            && s < |t| && t[s] == QUOTE && (ms.MoreMembers? ==> e + |ms.post| + 1 <= |t|)
            && FieldFrom(t, s, key) ==
                 if ms.key == key then Parsed(ItemOf(ms.value, v), e)
                 else if ms.MoreMembers? then FieldFrom(t, Skip(t, e + |ms.post| + 1), key)
                 else Failed
  {
    hide At, Skip, FieldFrom, PairAt, NumberEnd, Render, RenderKey, WellFormed, Whole, Height, Quoted, IsBody, ItemOf, RenderMembers;
    MemberParts(t, o, ms);
    Behind(t, o + |RenderKey(ms)|, ms.value, ms.post, if ms.LastMember? then RIGHT_BRACE else COMMA);
    CompletePair(t, o, 0, ms);
    KeyCompared(t, o, ms, key);
    FieldStep(t, o + |ms.pre|, key);
  }

  lemma KeyStands(t: seq<Byte>, o: nat, ms: Members)
    requires At(t, o, RenderKey(ms))
    ensures var k := o + |ms.pre| + 1; k + |ms.key| <= |t| && t[k..k + |ms.key|] == ms.key
  {
    AtSplit(t, o, ms.pre, Quoted(ms.key) + (ms.gap + ([COLON] + ms.colonGap)));
    AtSplit(t, o + |ms.pre|, Quoted(ms.key), ms.gap + ([COLON] + ms.colonGap));
    AtSplit(t, o + |ms.pre|, [QUOTE] + ms.key, [QUOTE]);
    AtSplit(t, o + |ms.pre|, [QUOTE], ms.key);
  }

  // Comparing lengths and bytes is comparing keys.
  lemma KeyCompared(t: seq<Byte>, o: nat, ms: Members, key: seq<Byte>)
    requires At(t, o, RenderKey(ms))
    ensures var k := o + |ms.pre| + 1;
            && k + |ms.key| <= |t|
            && (|ms.key| == |key| && t[k..k + |key|] == key <==> ms.key == key)
  {
    KeyStands(t, o, ms);
  }

  lemma {:induction false} FirstMemberLifted(ms: Members, o: nat, shift: nat, key: seq<Byte>)
    ensures FirstMember(ms, o + shift, key) == Lifted(FirstMember(ms, o, key), shift)
    decreases ms
  {
    if ms.key != key && ms.MoreMembers? {
      FirstMemberLifted(ms.rest, o + |RenderKey(ms)| + |Render(ms.value)| + |ms.post| + 1, shift, key);
    }
  }

  lemma FieldIsNode(b: seq<Byte>, n: Node, key: seq<Byte>)
    requires n.Node? && Stands(b, n)
    ensures Inside(b, ItemOf(n.value, n.at))
    ensures Field(b, ItemOf(n.value, n.at), key) == LookupOf(FieldNode(n, key))
    ensures Stands(b, FieldNode(n, key))
  {
    hide At, Skip, FieldFrom, FirstMember, RenderMembers, WellFormedMembers, HeightMembers;
    StandsInside(b, n);
    if n.value.Object? {
      var ms, t := n.value.members, Render(n.value);
      Inner(LEFT_BRACE, RenderMembers(ms), RIGHT_BRACE);
      FirstMemberFound(t, 1, ms, key);
      FirstMemberLifted(ms, 1, n.at, key);
      LiftedStands(b, n.at, t, FirstMember(ms, 1, key));
    }
  }

  // ---------- the k-th member ----------

  function NthMember(ms: Members, k: nat): Members
    decreases ms
  {
    if k == 0 || ms.LastMember? then ms else NthMember(ms.rest, k - 1)
  }

  // Where the k-th member starts, when the members start at o.
  function MemberPosition(ms: Members, o: nat, k: nat): nat
    decreases ms
  {
    if k == 0 || ms.LastMember? then o
    else MemberPosition(ms.rest, o + |RenderKey(ms)| + |Render(ms.value)| + |ms.post| + 1, k - 1)
  }

  // A member of well-formed text in b whose value the parser can read.
  predicate MemberStands(b: seq<Byte>, o: nat, ms: Members) {
    At(b, o, RenderKey(ms)) && Stands(b, Node(ms.value, o + |RenderKey(ms)|))
  }

  lemma {:induction false} NthMemberFound(t: seq<Byte>, o: nat, ms: Members, k: nat)
    requires WellFormedMembers(ms) && At(t, o, RenderMembers(ms)) && HeightMembers(ms) <= NESTING_LIMIT
    requires At(t, o + |RenderMembers(ms)|, [RIGHT_BRACE]) && k < CountMembers(ms)
    ensures var s := Skip(t, o);
            && s < |t| && t[s] != RIGHT_BRACE
            && NthPairFrom(t, s, k) == PairOf(NthMember(ms, k), MemberPosition(ms, o, k))
    ensures MemberStands(t, MemberPosition(ms, o, k), NthMember(ms, k))
    decreases ms
  {
    hide At, Skip, NthPairFrom, PairAt, NumberEnd, Render, RenderKey, WellFormed, Whole;
    MemberParts(t, o, ms);
    Behind(t, o + |RenderKey(ms)|, ms.value, ms.post, if ms.LastMember? then RIGHT_BRACE else COMMA);
    CompletePair(t, o, 0, ms);
    NthPairStep(t, o + |ms.pre|, k);
    if k > 0 {
      NthMemberFound(t, o + |RenderKey(ms)| + |Render(ms.value)| + |ms.post| + 1, ms.rest, k - 1);
    }
  }

  lemma {:induction false} MemberPositionMoved(ms: Members, o: nat, shift: nat, k: nat)
    ensures MemberPosition(ms, o + shift, k) == MemberPosition(ms, o, k) + shift
    decreases ms
  {
    if k > 0 && ms.MoreMembers? {
      MemberPositionMoved(ms.rest, o + |RenderKey(ms)| + |Render(ms.value)| + |ms.post| + 1, shift, k - 1);
    }
  }

  lemma MemberLifted(b: seq<Byte>, o: nat, t: seq<Byte>, i: nat, ms: Members)
    requires At(b, o, t) && MemberStands(t, i, ms)
    ensures MemberStands(b, o + i, ms)
  {
    hide At, RenderKey;
    AtWithin(b, o, t, i, RenderKey(ms));
    AtWithin(b, o, t, i + |RenderKey(ms)|, Render(ms.value));
  }

  // lite_cjson_object_item_by_index reports the key and the value of the member in that place.
  lemma MemberByIndexIsMember(b: seq<Byte>, n: Node, index: int)
    requires n.Node? && Stands(b, n)
    ensures Inside(b, ItemOf(n.value, n.at))
    ensures MemberByIndex(b, ItemOf(n.value, n.at), index) ==
            if n.value.Object? && 0 <= index < CountMembers(n.value.members)
            then
              var pair := PairOf(NthMember(n.value.members, index), MemberPosition(n.value.members, n.at + 1, index));
              AMember(pair.key, pair.value)
            else NoMember
    ensures n.value.Object? && 0 <= index < CountMembers(n.value.members) ==>
              MemberStands(b, MemberPosition(n.value.members, n.at + 1, index), NthMember(n.value.members, index))
  {
    StandsInside(b, n);
    if n.value.Object? && 0 <= index < CountMembers(n.value.members) {
      PresentMember(b, n, index);
    }
  }

  lemma PresentMember(b: seq<Byte>, n: Node, k: nat)
    requires n.Node? && Stands(b, n) && n.value.Object? && k < CountMembers(n.value.members)
    ensures Inside(b, ItemOf(n.value, n.at))
    ensures var o := MemberPosition(n.value.members, n.at + 1, k); var pair := PairOf(NthMember(n.value.members, k), o);
            && MemberByIndex(b, ItemOf(n.value, n.at), k) == AMember(pair.key, pair.value)
            && MemberStands(b, o, NthMember(n.value.members, k))
  {
    hide At, Skip, NthPairFrom, NthMember, MemberPosition, Render, PairOf, MemberStands, CountMembers, IsObjectText;
    var ms := n.value.members;
    StandsInside(b, n);
    MemberOfText(n.value, k);
    PairMoved(NthMember(ms, k), MemberPosition(ms, 1, k), n.at);
    MemberPositionMoved(ms, 1, n.at, k);
    MemberLifted(b, n.at, Render(n.value), MemberPosition(ms, 1, k), NthMember(ms, k));
  }

  lemma PairMoved(ms: Members, o: nat, shift: nat)
    ensures PairOf(ms, o).Pair? && PairOf(ms, o + shift).Pair?
    ensures PairOf(ms, o + shift).key == Moved(PairOf(ms, o).key, shift)
    ensures PairOf(ms, o + shift).value == Moved(PairOf(ms, o).value, shift)
  {
    hide Render, RenderKey;
  }

  // The k-th member in the text of an object.
  lemma MemberOfText(v: Value, k: nat)
    requires v.Object? && WellFormed(v) && Height(v) <= NESTING_LIMIT && k < CountMembers(v.members)
    ensures var t := Render(v); var o := MemberPosition(v.members, 1, k);
            && |t| > 1 && IsObjectText(t)
            && NthPairFrom(t, Skip(t, 1), k) == PairOf(NthMember(v.members, k), o)
            && MemberStands(t, o, NthMember(v.members, k))
  {
    hide At, Skip, NthPairFrom, NthMember, MemberPosition, RenderMembers, WellFormedMembers, HeightMembers, CountMembers;
    hide PairOf, MemberStands;
    Inner(LEFT_BRACE, RenderMembers(v.members), RIGHT_BRACE);
    NthMemberFound(Render(v), 1, v.members, k);
  }

  // ---------- dotted paths ----------

  // lite_cjson_object_item returns the result of the fold, and fails exactly when one of its steps does.
  lemma {:induction false} PathIsNode(b: seq<Byte>, n: Node, key: seq<Byte>, atoi: seq<Byte> -> int)
    requires n.Node? && Stands(b, n)
    ensures Inside(b, ItemOf(n.value, n.at))
    ensures Path(b, ItemOf(n.value, n.at), key, atoi) == LookupOf(PathNode(n, key, atoi))
    ensures Stands(b, PathNode(n, key, atoi))
    decreases |key|
  {
    hide Field, Element, FieldNode, ElementNode, SegmentOf, Stands, ItemOf;
    var dot := DotFrom(key, 0);
    var segment := key[..dot];
    StepIsNode(b, n, segment, atoi);
    var found := StepNode(n, segment, atoi);
    if found.Nowhere? {
      PathNowhere(key[if dot < |key| then dot + 1 else dot..], atoi);
    } else if dot < |key| {
      PathIsNode(b, found, key[dot + 1..], atoi);
    }
  }

  lemma StepIsNode(b: seq<Byte>, n: Node, key: seq<Byte>, atoi: seq<Byte> -> int)
    requires n.Node? && Stands(b, n)
    ensures Inside(b, ItemOf(n.value, n.at))
    ensures Step(b, ItemOf(n.value, n.at), key, atoi) == LookupOf(StepNode(n, key, atoi))
    ensures Stands(b, StepNode(n, key, atoi))
  {
    hide Field, Element, FieldNode, SegmentOf, Stands, ItemOf;
    var segment := SegmentOf(key);
    FieldIsNode(b, n, segment.key);
    var list := FieldNode(n, segment.key);
    if segment.Indexed? && list.Node? {
      ElementIsNode(b, list, atoi(segment.index));
    }
  }

  lemma {:induction false} PathNowhere(key: seq<Byte>, atoi: seq<Byte> -> int)
    ensures PathNode(Nowhere, key, atoi) == Nowhere
    decreases |key|
  {
    var dot := DotFrom(key, 0);
    if dot < |key| {
      PathNowhere(key[dot + 1..], atoi);
    }
  }

  // ---------- digits as an index ----------

  function DecimalValue(digits: seq<Byte>): nat
    requires AllDigits(digits)
  {
    if digits == [] then 0 else DecimalValue(digits[..|digits| - 1]) * 10 + (digits[|digits| - 1] - 48)
  }

  // What C says of atoi on digits: their decimal value, when an int can hold it.
  ghost predicate IsAtoi(atoi: seq<Byte> -> int) {
    forall digits ::
      digits != [] && AllDigits(digits) && DecimalValue(digits) <= INT_MAX ==> atoi(digits) == DecimalValue(digits)
  }

  function Bracketed(name: seq<Byte>, digits: seq<Byte>): seq<Byte> {
    name + ([LEFT_BRACKET] + (digits + [RIGHT_BRACKET]))
  }

  // `name[digits]`, at the end of a path or in front of a dot, leads to the element of the array `name`
  // whose number the digits are, and nowhere when there is none.
  lemma DigitsInPath(b: seq<Byte>, n: Node, name: seq<Byte>, digits: seq<Byte>, rest: seq<Byte>, atoi: seq<Byte> -> int)
    requires n.Node? && Stands(b, n) && IsAtoi(atoi)
    requires NoBracket(name) && DOT !in name
    requires 1 <= |digits| <= 10 && AllDigits(digits) && DecimalValue(digits) <= INT_MAX
    ensures Inside(b, ItemOf(n.value, n.at))
    ensures var key := Bracketed(name, digits); var node := ElementNode(FieldNode(n, name), DecimalValue(digits));
            && Path(b, ItemOf(n.value, n.at), key, atoi) == LookupOf(node)
            && Path(b, ItemOf(n.value, n.at), key + ([DOT] + rest), atoi) == LookupOf(PathNode(node, rest, atoi))
  {
    hide Path, FieldNode, ElementNode, Stands, ItemOf, DecimalValue, SegmentOf;
    var key := Bracketed(name, digits);
    SegmentIsIndexed(key, name, digits);
    PathIsNode(b, n, key, atoi);
    PathIsNode(b, n, key + ([DOT] + rest), atoi);
    FirstDot(key, []);
    FirstDot(key, [DOT] + rest);
    assert key + [] == key && key[..|key|] == key;
    assert (key + ([DOT] + rest))[..|key|] == key && (key + ([DOT] + rest))[|key| + 1..] == rest;
  }

  lemma FirstDot(key: seq<Byte>, rest: seq<Byte>)
    requires DOT !in key && (rest != [] ==> rest[0] == DOT)
    ensures DotFrom(key + rest, 0) == |key|
  {
    assert forall i :: 0 <= i < |key| ==> (key + rest)[i] == key[i];
    assert rest != [] ==> (key + rest)[|key|] == rest[0];
  }
}
