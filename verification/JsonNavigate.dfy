// The accessors of src/infra/infra_cjson.c: each one scans the text of its item again.
// On well-formed text they are lookups in the syntax tree, and a dotted path is their fold.
module JsonNavigate {
  import opened Bytes
  import opened JsonLex
  import opened JsonParser

  datatype Lookup = Missing | Found(item: Item)

  datatype MemberLookup = NoMember | AMember(key: Item, value: Item)

  // An item that the parser reported of some buffer lies inside of it, and an array or an object
  // has a first byte.
  predicate Inside(b: seq<Byte>, lite: Item) {
    lite.start + lite.length <= |b| && (lite.kind == ArrayItem || lite.kind == ObjectItem ==> lite.length > 0)
  }

  lemma ValueInside(b: seq<Byte>, o: nat, d: nat)
    requires o <= |b| && ValueAt(b, o, d).Parsed?
    ensures Inside(b, ValueAt(b, o, d).item)
  {
    hide ElementsFrom, PairsFrom, NumberEnd, QuoteFrom, Skip;
  }

  function TextOf(b: seq<Byte>, lite: Item): seq<Byte>
    requires Inside(b, lite)
  {
    b[lite.start..lite.start + lite.length]
  }

  // An item of a text inside b, seen from b.
  function Moved(item: Item, shift: nat): Item {
    item.(start := item.start + shift)
  }

  function Seen(b: seq<Byte>, lite: Item, r: Parsed): (found: Lookup)
    requires Inside(b, lite) && (r.Parsed? ==> Inside(TextOf(b, lite), r.item))
    ensures found.Found? ==> Inside(b, found.item)
  {
    if r.Failed? then Missing else Found(Moved(r.item, lite.start))
  }

  // ---------- what the accessors compute ----------

  // The k-th value of a comma loop that starts at s.
  function NthFrom(t: seq<Byte>, s: nat, k: nat): (r: Parsed)
    requires s < |t|
    ensures r.Parsed? ==> Inside(t, r.item)
    decreases k
  {
    var r := ValueAt(t, s, 0);
    if r.Failed? then Failed
    else if k == 0 then
      ValueInside(t, s, 0);
      r
    else
      var p := Skip(t, r.next);
      if t[p] == COMMA then NthFrom(t, Skip(t, p + 1), k - 1) else Failed
  }

  function Element(b: seq<Byte>, lite: Item, index: int): (found: Lookup)
    requires Inside(b, lite)
    ensures found.Found? ==> Inside(b, found.item)
  {
    if lite.kind != ArrayItem || index < 0 || index >= lite.size then Missing
    else
      var t := TextOf(b, lite);
      if t[0] != LEFT_BRACKET || t[Skip(t, 1)] == RIGHT_BRACKET then Missing
      else Seen(b, lite, NthFrom(t, Skip(t, 1), index))
  }

  function NthPairFrom(t: seq<Byte>, s: nat, k: nat): Pair
    requires s < |t|
    decreases k
  {
    var r := PairAt(t, s, 0);
    if r.NoPair? || k == 0 then r
    else
      var p := Skip(t, r.next);
      if t[p] == COMMA then NthPairFrom(t, Skip(t, p + 1), k - 1) else NoPair
  }

  predicate IsObjectText(t: seq<Byte>)
    requires t != []
  {
    t[0] == LEFT_BRACE && t[Skip(t, 1)] != RIGHT_BRACE
  }

  function MemberByIndex(b: seq<Byte>, lite: Item, index: int): MemberLookup
    requires Inside(b, lite)
  {
    if lite.kind != ObjectItem || index < 0 || index >= lite.size || !IsObjectText(TextOf(b, lite)) then NoMember
    else
      var t := TextOf(b, lite);
      var r := NthPairFrom(t, Skip(t, 1), index);
      if r.NoPair? then NoMember else AMember(Moved(r.key, lite.start), Moved(r.value, lite.start))
  }

  // The first member from s whose key has the bytes of key.
  function FieldFrom(t: seq<Byte>, s: nat, key: seq<Byte>): (r: Parsed)
    requires s < |t|
    ensures r.Parsed? ==> Inside(t, r.item)
    decreases |t| - s
  {
    var r := PairAt(t, s, 0);
    if r.NoPair? then Failed
    else if r.key.length == |key| && At(t, r.key.start, key) then
      PairInside(t, s, 0);
      Parsed(r.value, r.next)
    else
      var p := Skip(t, r.next);
      if t[p] == COMMA then FieldFrom(t, Skip(t, p + 1), key) else Failed
  }

  lemma PairInside(b: seq<Byte>, s: nat, d: nat)
    requires s < |b| && d <= NESTING_LIMIT && PairAt(b, s, d).Pair?
    ensures Inside(b, PairAt(b, s, d).value)
    ensures PairAt(b, s, d).key.start + PairAt(b, s, d).key.length <= |b|
  {
    hide ValueAt;
    ValueInside(b, Skip(b, Skip(b, StringAt(b, s).next) + 1), d);
  }

  function Field(b: seq<Byte>, lite: Item, key: seq<Byte>): (found: Lookup)
    requires Inside(b, lite)
    ensures found.Found? ==> Inside(b, found.item)
  {
    if lite.kind != ObjectItem || lite.size == 0 || key == [] || !IsObjectText(TextOf(b, lite)) then Missing
    else
      var t := TextOf(b, lite);
      Seen(b, lite, FieldFrom(t, Skip(t, 1), key))
  }

  // ---------- dotted paths (src/infra/infra_cjson.c:700-837) ----------

  predicate IsBracket(c: Byte) {
    c == LEFT_BRACKET || c == RIGHT_BRACKET
  }

  function BracketFrom(key: seq<Byte>, i: nat): (r: nat)
    requires i <= |key|
    ensures i <= r <= |key|
    ensures forall k :: i <= k < r ==> !IsBracket(key[k])
    ensures r < |key| ==> IsBracket(key[r])
    decreases |key| - i
  {
    if i == |key| || IsBracket(key[i]) then i else BracketFrom(key, i + 1)
  }

  datatype Segment = Name(key: seq<Byte>) | Indexed(key: seq<Byte>, index: seq<Byte>)

  // `name[index]` with one to ten bytes of index, or else a plain name.
  function SegmentOf(key: seq<Byte>): Segment {
    var i := BracketFrom(key, 0);
    if i == |key| || key[i] != LEFT_BRACKET then Name(key)
    else
      var j := BracketFrom(key, i + 1);
      if j < |key| && key[j] == RIGHT_BRACKET && j + 1 == |key| && 2 <= j - i <= 11
      then Indexed(key[..i], key[i + 1..j]) else Name(key)
  }

  predicate NoBracket(s: seq<Byte>) {
    forall i :: 0 <= i < |s| ==> !IsBracket(s[i])
  }

  predicate IsIndexed(key: seq<Byte>, name: seq<Byte>, index: seq<Byte>) {
    && key == name + ([LEFT_BRACKET] + (index + [RIGHT_BRACKET]))
    && NoBracket(name) && NoBracket(index) && 1 <= |index| <= 10
  }

  lemma SegmentIsIndexed(key: seq<Byte>, name: seq<Byte>, index: seq<Byte>)
    ensures SegmentOf(key) == Indexed(name, index) <==> IsIndexed(key, name, index)
  {
    hide IsIndexed, SegmentOf;
    if SegmentOf(key).Indexed? {
      IndexedHasParts(key);
    }
    if IsIndexed(key, name, index) {
      PartsAreIndexed(key, name, index);
    }
  }

  lemma IndexedHasParts(key: seq<Byte>)
    requires SegmentOf(key).Indexed?
    ensures IsIndexed(key, SegmentOf(key).key, SegmentOf(key).index)
  {
    var i := BracketFrom(key, 0);
    var name, index := key[..i], key[i + 1..|key| - 1];
    var whole := name + ([LEFT_BRACKET] + (index + [RIGHT_BRACKET]));
    assert |whole| == |key|;
    forall k | 0 <= k < |key| ensures whole[k] == key[k] {}
  }

  lemma PartsAreIndexed(key: seq<Byte>, name: seq<Byte>, index: seq<Byte>)
    requires IsIndexed(key, name, index)
    ensures SegmentOf(key) == Indexed(name, index)
  {
    var i, j := |name|, |key| - 1;
    assert key[i] == LEFT_BRACKET && key[j] == RIGHT_BRACKET;
    assert key[..i] == name && key[i + 1..j] == index;
    assert forall k :: i + 1 <= k < j ==> key[k] == index[k - i - 1];
    BracketAt(key, 0, i);
    BracketAt(key, i + 1, j);
  }

  lemma BracketAt(key: seq<Byte>, i: nat, r: nat)
    requires i <= r < |key| && IsBracket(key[r]) && forall k :: i <= k < r ==> !IsBracket(key[k])
    ensures BracketFrom(key, i) == r
  {
    assert BracketFrom(key, i) <= r;
  }

  function DotFrom(key: seq<Byte>, i: nat): (r: nat)
    requires i <= |key|
    ensures i <= r <= |key|
    ensures forall k :: i <= k < r ==> key[k] != DOT
    ensures r < |key| ==> key[r] == DOT
    decreases |key| - i
  {
    if i == |key| || key[i] == DOT then i else DotFrom(key, i + 1)
  }

  // One segment of a path; atoi is the C library's.
  function Step(b: seq<Byte>, lite: Item, key: seq<Byte>, atoi: seq<Byte> -> int): (found: Lookup)
    requires Inside(b, lite)
    ensures found.Found? ==> Inside(b, found.item)
  {
    match SegmentOf(key)
    case Name(name) => Field(b, lite, name)
    case Indexed(name, index) =>
      var list := Field(b, lite, name);
      if list.Missing? then Missing else Element(b, list.item, atoi(index))
  }

  function Path(b: seq<Byte>, lite: Item, key: seq<Byte>, atoi: seq<Byte> -> int): Lookup
    requires Inside(b, lite)
    decreases |key|
  {
    var dot := DotFrom(key, 0);
    var found := Step(b, lite, key[..dot], atoi);
    if found.Missing? || dot == |key| then found else Path(b, found.item, key[dot + 1..], atoi)
  }

  // ---------- the code ----------

  predicate Returns(r: Lookup, ok: bool, item: Item) {
    (ok <==> r.Found?) && (ok ==> item == r.item)
  }

  // The code returns pointers into the text; an item of b is what they point at.
  method ArrayItemAt(b: seq<Byte>, lite: Item, index: int) returns (ok: bool, item: Item)
    requires Inside(b, lite)
    ensures Returns(Element(b, lite, index), ok, item)
  {
    hide ValueAt, Skip, NthFrom, Inside;
    ok, item := false, lite;
    if lite.kind != ArrayItem || index < 0 || index >= lite.size {
      return;
    }
    var buffer := OpenText(b, lite);
    if !buffer.Sees(LEFT_BRACKET) {
      return;
    }
    buffer.offset := buffer.offset + 1;
    buffer.SkipWhitespace();
    if buffer.Sees(RIGHT_BRACKET) {
      return;
    }
    ghost var t := buffer.content;
    ghost var sought := NthFrom(t, buffer.offset, index);
    SkipTwice(t, 1);
    buffer.offset := buffer.offset - 1;
    var iterIndex, more := 0, true;
    while more
      invariant buffer.content == t && buffer.depth == 0 && -1 <= buffer.offset < |t| && iterIndex <= index + 1
      invariant more ==> iterIndex <= index && sought == NthFrom(t, Skip(t, buffer.offset + 1), index - iterIndex)
      invariant !more ==> sought.Failed?
      decreases if more then |t| - buffer.offset + 1 else 0
    {
      NthStep(t, Skip(t, buffer.offset + 1), index - iterIndex);
      buffer.offset := buffer.offset + 1;
      buffer.SkipWhitespace();
      var current;
      ok, current := buffer.ParseValue();
      if !ok {
        return;
      }
      buffer.SkipWhitespace();
      if iterIndex == index {
        item := Moved(current, lite.start);
        return;
      }
      iterIndex := iterIndex + 1;
      more := buffer.Sees(COMMA);
    }
    ok := false;
  }

  method OpenText(b: seq<Byte>, lite: Item) returns (buffer: ParseBuffer)
    requires Inside(b, lite) && (lite.kind == ArrayItem || lite.kind == ObjectItem)
    ensures fresh(buffer) && buffer.content == TextOf(b, lite) != [] && buffer.offset == 0 && buffer.depth == 0
  {
    buffer := new ParseBuffer(b[lite.start..lite.start + lite.length]);
  }

  lemma NthStep(t: seq<Byte>, s: nat, k: nat)
    requires s < |t|
    ensures var r := ValueAt(t, s, 0);
            if r.Failed? then NthFrom(t, s, k) == Failed
            else if k == 0 then NthFrom(t, s, k) == r
            else
              var p := Skip(t, r.next);
              && s <= p
              && (t[p] == COMMA ==> s < p && NthFrom(t, s, k) == NthFrom(t, Skip(t, p + 1), k - 1))
              && (t[p] != COMMA ==> NthFrom(t, s, k) == Failed)
  {
    hide ValueAt, Skip;
  }

  // The opening brace of an object text up to the first key; false if there is no member.
  method EnterObject(buffer: ParseBuffer) returns (ok: bool)
    requires buffer.content != [] && buffer.offset == 0 && buffer.depth == 0
    modifies buffer
    ensures ok <==> IsObjectText(buffer.content)
    ensures ok ==> buffer.offset == Skip(buffer.content, 1) - 1 && buffer.depth == 0
  {
    hide Skip;
    ok := buffer.Sees(LEFT_BRACE);
    if ok {
      buffer.offset := buffer.offset + 1;
      buffer.SkipWhitespace();
      ok := !buffer.Sees(RIGHT_BRACE);
      buffer.offset := buffer.offset - 1;
    }
  }

  method ObjectItemByIndex(b: seq<Byte>, lite: Item, index: int) returns (ok: bool, key: Item, value: Item)
    requires Inside(b, lite)
    ensures var r := MemberByIndex(b, lite, index);
            (ok <==> r.AMember?) && (ok ==> key == r.key && value == r.value)
  {
    hide PairAt, Skip, NthPairFrom, Inside, IsObjectText;
    ok, key, value := false, lite, lite;
    if lite.kind != ObjectItem || lite.size == 0 || index < 0 || index >= lite.size {
      return;
    }
    var buffer := OpenText(b, lite);
    ok := EnterObject(buffer);
    if !ok {
      return;
    }
    ghost var t := buffer.content;
    ghost var sought := NthPairFrom(t, buffer.offset + 1, index);
    SkipTwice(t, 1);
    var itemIndex, more := 0, true;
    while more
      invariant buffer.content == t && buffer.depth == 0 && -1 <= buffer.offset < |t| && itemIndex <= index + 1
      invariant more ==> itemIndex <= index && sought == NthPairFrom(t, Skip(t, buffer.offset + 1), index - itemIndex)
      invariant !more ==> sought.NoPair?
      decreases if more then |t| - buffer.offset + 1 else 0
    {
      NthPairStep(t, Skip(t, buffer.offset + 1), index - itemIndex);
      buffer.offset := buffer.offset + 1;
      var currentKey, currentValue;
      ok, currentKey, currentValue := buffer.ParsePair();
      if !ok {
        return;
      }
      buffer.SkipWhitespace();
      if itemIndex == index {
        key, value := Moved(currentKey, lite.start), Moved(currentValue, lite.start);
        return;
      }
      itemIndex := itemIndex + 1;
      more := buffer.Sees(COMMA);
    }
    ok := false;
  }

  lemma NthPairStep(t: seq<Byte>, s: nat, k: nat)
    requires s < |t|
    ensures var r := PairAt(t, s, 0);
            if r.NoPair? then NthPairFrom(t, s, k) == NoPair
            else if k == 0 then NthPairFrom(t, s, k) == r
            else
              var p := Skip(t, r.next);
              && s < p
              && (t[p] == COMMA ==> NthPairFrom(t, s, k) == NthPairFrom(t, Skip(t, p + 1), k - 1))
              && (t[p] != COMMA ==> NthPairFrom(t, s, k) == NoPair)
  {
    hide PairAt, Skip;
  }

  method ObjectField(b: seq<Byte>, lite: Item, key: seq<Byte>) returns (ok: bool, item: Item)
    requires Inside(b, lite)
    ensures Returns(Field(b, lite, key), ok, item)
  {
    hide PairAt, Skip, FieldFrom, Inside, IsObjectText, At;
    ok, item := false, lite;
    if lite.kind != ObjectItem || lite.size == 0 || |key| <= 0 {
      return;
    }
    var buffer := OpenText(b, lite);
    ok := EnterObject(buffer);
    if !ok {
      return;
    }
    ghost var t := buffer.content;
    ghost var sought := FieldFrom(t, buffer.offset + 1, key);
    SkipTwice(t, 1);
    var more := true;
    while more
      invariant buffer.content == t && buffer.depth == 0 && -1 <= buffer.offset < |t|
      invariant more ==> sought == FieldFrom(t, Skip(t, buffer.offset + 1), key)
      invariant !more ==> sought.Failed?
      decreases if more then |t| - buffer.offset + 1 else 0
    {
      FieldStep(t, Skip(t, buffer.offset + 1), key);
      buffer.offset := buffer.offset + 1;
      var currentKey, currentValue;
      ok, currentKey, currentValue := buffer.ParsePair();
      if !ok {
        return;
      }
      buffer.SkipWhitespace();
      if currentKey.length == |key| && buffer.content[currentKey.start..currentKey.start + |key|] == key {
        item := Moved(currentValue, lite.start);
        return;
      }
      more := buffer.Sees(COMMA);
    }
    ok := false;
  }

  lemma FieldStep(t: seq<Byte>, s: nat, key: seq<Byte>)
    requires s < |t|
    ensures var r := PairAt(t, s, 0);
            if r.NoPair? then FieldFrom(t, s, key) == Failed
            else
              var p := Skip(t, r.next);
              && s < p
              && r.key.start + r.key.length <= |t|
              && if r.key.length == |key| && t[r.key.start..r.key.start + |key|] == key
                 then FieldFrom(t, s, key) == Parsed(r.value, r.next)
                 else if t[p] == COMMA then FieldFrom(t, s, key) == FieldFrom(t, Skip(t, p + 1), key)
                 else FieldFrom(t, s, key) == Failed
  {
    hide PairAt, Skip;
    if PairAt(t, s, 0).Pair? {
      PairInside(t, s, 0);
    }
  }

  // The scan for one bracketed index at the end of a segment.
  method KeyArrayIndex(key: seq<Byte>) returns (ok: bool, partialLen: nat, indexText: seq<Byte>)
    ensures !ok ==> SegmentOf(key) == Name(key)
    ensures ok ==> partialLen <= |key| && SegmentOf(key) == Indexed(key[..partialLen], indexText)
  {
    var pre: nat, suf: nat, deep := |key|, |key|, 0;
    ok, partialLen, indexText := false, 0, [];
    var index := 0;
    while index < |key|
      invariant index <= |key| && pre <= |key| && suf <= |key| && (pre == |key| ==> suf == |key|)
      invariant pre == |key| == suf ==> deep == 0 && BracketFrom(key, index) == BracketFrom(key, 0)
      invariant pre < |key| ==> 0 <= pre < index && pre == BracketFrom(key, 0) && key[pre] == LEFT_BRACKET
      invariant pre < |key| == suf ==> deep == 1 && BracketFrom(key, index) == BracketFrom(key, pre + 1)
      invariant suf < |key| ==> pre + 1 < suf < index && suf == BracketFrom(key, pre + 1) && key[suf] == RIGHT_BRACKET
    {
      if key[index] == LEFT_BRACKET {
        if deep != 0 {
          return;
        }
        deep := deep + 1;
        if pre == |key| {
          pre := index;
        }
      } else if key[index] == RIGHT_BRACKET {
        if deep != 1 {
          return;
        }
        deep := deep - 1;
        if key[index - 1] == LEFT_BRACKET {
          return;
        }
        if suf == |key| {
          suf := index;
        }
      }
      index := index + 1;
    }
    ok := pre < |key| && suf < |key| && suf + 1 == |key| && suf - pre - 1 <= 10;
    if ok {
      partialLen, indexText := pre, key[pre + 1..suf];
    }
  }

  // What a path of keyLen bytes leads to: strchr looks for dots in the whole string, so a dot behind the
  // given length leads nowhere.
  function CutPath(b: seq<Byte>, lite: Item, key: seq<Byte>, keyLen: int, atoi: seq<Byte> -> int): Lookup
    requires Inside(b, lite) && keyLen <= |key|
  {
    if keyLen <= 0 || DotFrom(key, keyLen) < |key| then Missing else Path(b, lite, key[..keyLen], atoi)
  }

  method ObjectItemAtPath(b: seq<Byte>, lite: Item, key: seq<Byte>, keyLen: int, atoi: seq<Byte> -> int)
    returns (ok: bool, item: Item)
    requires Inside(b, lite) && keyLen <= |key|
    ensures Returns(CutPath(b, lite, key, keyLen, atoi), ok, item)
  {
    hide Field, Seen, NthFrom, SegmentOf, Inside, Path;
    ok, item := false, lite;
    if lite.kind != ObjectItem || lite.size == 0 || keyLen <= 0 {
      NoPath(b, lite, if keyLen <= 0 then [] else key[..keyLen], atoi);
      return;
    }
    ghost var whole := DotFrom(key, keyLen) == |key|;
    ghost var cut := key[..keyLen];
    assert cut[0..] == cut;
    var iter, start, more := lite, 0, true;
    while more
      invariant start <= |key| && Inside(b, iter) && (whole ==> start <= keyLen)
      invariant whole && more ==> Path(b, iter, cut[start..], atoi) == Path(b, lite, cut, atoi)
      invariant whole && !more ==> Path(b, lite, cut, atoi) == Found(iter)
      invariant !more ==> whole
      decreases more, |key| - start
    {
      ghost var was := iter;
      var delim := Delimiter(key, start);
      var end := if delim < |key| then delim else if keyLen < start then start else keyLen;
      DotCut(key, keyLen, start, end);
      if whole {
        PathStep(b, iter, cut, start, atoi);
      }
      ok, iter := SegmentItem(b, iter, key[start..end], atoi);
      if !ok {
        return;
      }
      assert Step(b, was, key[start..end], atoi) == Found(iter);
      more := delim < |key|;
      start := if more then delim + 1 else end;
    }
    ok, item := true, iter;
  }

  // The item that one segment leads to.
  method SegmentItem(b: seq<Byte>, lite: Item, key: seq<Byte>, atoi: seq<Byte> -> int) returns (ok: bool, item: Item)
    requires Inside(b, lite)
    ensures Returns(Step(b, lite, key, atoi), ok, item)
    ensures ok ==> Inside(b, item) && key != []
  {
    hide Field, Seen, NthFrom, SegmentOf, Inside;
    NoEmptySegment(b, lite);
    var partialLen, indexText, list;
    ok, partialLen, indexText := KeyArrayIndex(key);
    if ok {
      ok, list := ObjectField(b, lite, key[..partialLen]);
      if !ok || list.kind != ArrayItem {
        ok, item := false, lite;
        return;
      }
      ok, item := ArrayItemAt(b, list, atoi(indexText));
    } else {
      ok, item := ObjectField(b, lite, key);
    }
  }

  lemma NoEmptySegment(b: seq<Byte>, lite: Item)
    requires Inside(b, lite)
    ensures SegmentOf([]) == Name([]) && Field(b, lite, []) == Missing
  {}

  // With its full length the string is the path.
  lemma WholePath(b: seq<Byte>, lite: Item, key: seq<Byte>, atoi: seq<Byte> -> int)
    requires Inside(b, lite)
    ensures CutPath(b, lite, key, |key|, atoi) == Path(b, lite, key, atoi)
  {
    hide Path;
    assert key[..|key|] == key;
    if key == [] {
      NoPath(b, lite, key, atoi);
    }
  }

  // The end of a segment in the string and in its first keyLen bytes.
  lemma DotCut(key: seq<Byte>, keyLen: nat, start: nat, end: nat)
    requires keyLen <= |key| && start <= |key|
    requires var delim := DotFrom(key, start); end == if delim < |key| then delim else if keyLen < start then start else keyLen
    ensures DotFrom(key, keyLen) == |key| && start <= keyLen ==>
              && end == DotFrom(key[..keyLen], start) && key[start..end] == key[..keyLen][start..end]
              && (DotFrom(key, start) < |key| <==> end < keyLen)
    ensures DotFrom(key, keyLen) < |key| && DotFrom(key, start) == |key| ==> end == start
  {
    var delim := DotFrom(key, start);
    if DotFrom(key, keyLen) == |key| && start <= keyLen {
      var cut := DotFrom(key[..keyLen], start);
      assert forall i :: 0 <= i < keyLen ==> key[..keyLen][i] == key[i];
      assert delim < keyLen ==> cut <= delim;
      assert cut < keyLen ==> delim <= cut;
    }
  }

  // strchr for the dot, or the end of the key.
  method Delimiter(key: seq<Byte>, start: nat) returns (delim: nat)
    requires start <= |key|
    ensures delim == DotFrom(key, start)
  {
    delim := start;
    while delim < |key| && key[delim] != DOT
      invariant start <= delim <= |key| && DotFrom(key, delim) == DotFrom(key, start)
    {
      delim := delim + 1;
    }
  }

  lemma NoPath(b: seq<Byte>, lite: Item, key: seq<Byte>, atoi: seq<Byte> -> int)
    requires Inside(b, lite) && (lite.kind != ObjectItem || lite.size == 0 || key == [])
    ensures Path(b, lite, key, atoi).Missing?
  {
  }

  lemma PathStep(b: seq<Byte>, lite: Item, key: seq<Byte>, start: nat, atoi: seq<Byte> -> int)
    requires Inside(b, lite) && start <= |key|
    ensures var dot := DotFrom(key, start);
            var found := Step(b, lite, key[start..dot], atoi);
            Path(b, lite, key[start..], atoi) ==
              if found.Missing? || dot == |key| then found else Path(b, found.item, key[dot + 1..], atoi)
  {
    hide Step;
    DotShift(key, start, 0);
    var dot := DotFrom(key, start);
    assert key[start..][..dot - start] == key[start..dot];
    if dot < |key| {
      assert key[start..][dot - start + 1..] == key[dot + 1..];
    }
  }

  lemma {:induction false} DotShift(key: seq<Byte>, start: nat, i: nat)
    requires start + i <= |key|
    ensures DotFrom(key[start..], i) == DotFrom(key, start + i) - start
    decreases |key| - i
  {
    if start + i < |key| && key[start + i] != DOT {
      DotShift(key, start, i + 1);
    }
  }
}
