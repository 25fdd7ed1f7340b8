// The recursive-descent span parser of src/infra/infra_cjson.c: the class ParseBuffer
// is the code, the functions say what each of its methods does to the offset.
module JsonParser {
  import opened Bytes
  import opened JsonLex

  const NESTING_LIMIT: nat := 1000

  datatype Kind = NullItem | FalseItem | TrueItem | NumberItem | StringItem | ArrayItem | ObjectItem

  // A span of the buffer.  The span of a string leaves out its quotes.
  datatype Item = Item(kind: Kind, start: nat, length: nat, size: nat)

  datatype Parsed = Failed | Parsed(item: Item, next: nat)

  // One `"key" : value` and the offset behind it.
  datatype Pair = NoPair | Pair(key: Item, value: Item, next: nat)

  // The end of a comma-separated list: the number of its entries and the position behind it.
  datatype Listed = Broken | Listed(count: nat, close: nat)

  // ---------- what the parser computes ----------

  function WordAt(b: seq<Byte>, o: nat, word: seq<Byte>, kind: Kind): Parsed {
    if At(b, o, word) then Parsed(Item(kind, o, |word|, 0), o + |word|) else Failed
  }

  function NumberAt(b: seq<Byte>, o: nat): Parsed
    requires o <= |b|
  {
    var e := NumberEnd(b, o);
    if e == o then Failed else Parsed(Item(NumberItem, o, e - o, 0), e)
  }

  function StringAt(b: seq<Byte>, o: nat): (r: Parsed)
    requires o < |b|
    ensures r.Parsed? ==> o + 1 < r.next <= |b|
  {
    if b[o] != QUOTE then Failed
    else
      var e := QuoteFrom(b, o + 1);
      if e == |b| then Failed else Parsed(Item(StringItem, o + 1, e - o - 1, 0), e + 1)
  }

  function ValueAt(b: seq<Byte>, o: nat, d: nat): (r: Parsed)
    requires o <= |b|
    ensures r.Parsed? ==> o < r.next <= |b| && b[o] != COMMA
    decreases NESTING_LIMIT - d, 1, 1
  {
    if At(b, o, NULL_TEXT) then WordAt(b, o, NULL_TEXT, NullItem)
    else if At(b, o, FALSE_TEXT) then WordAt(b, o, FALSE_TEXT, FalseItem)
    else if At(b, o, TRUE_TEXT) then WordAt(b, o, TRUE_TEXT, TrueItem)
    else if o == |b| then Failed
    else if b[o] == QUOTE then StringAt(b, o)
    else if b[o] == MINUS || IsDigit(b[o]) then NumberAt(b, o)
    else if b[o] == LEFT_BRACKET then ArrayAt(b, o, d)
    else if b[o] == LEFT_BRACE then ObjectAt(b, o, d)
    else Failed
  }

  function ArrayAt(b: seq<Byte>, o: nat, d: nat): (r: Parsed)
    requires o < |b|
    ensures r.Parsed? ==> o < r.next <= |b|
    decreases NESTING_LIMIT - d, 1, 0
  {
    if d >= NESTING_LIMIT || b[o] != LEFT_BRACKET then Failed
    else
      var s := Skip(b, o + 1);
      if b[s] == RIGHT_BRACKET then Parsed(Item(ArrayItem, o, s - o + 1, 0), s + 1)
      else
        var list := ElementsFrom(b, s, d, 0);
        if list.Listed? && b[list.close] == RIGHT_BRACKET
        then Parsed(Item(ArrayItem, o, list.close - o + 1, list.count), list.close + 1)
        else Failed
  }

  function ObjectAt(b: seq<Byte>, o: nat, d: nat): (r: Parsed)
    requires o < |b|
    ensures r.Parsed? ==> o < r.next <= |b|
    decreases NESTING_LIMIT - d, 1, 0
  {
    if d >= NESTING_LIMIT || b[o] != LEFT_BRACE then Failed
    else
      var s := Skip(b, o + 1);
      if b[s] == RIGHT_BRACE then Parsed(Item(ObjectItem, o, s - o + 1, 0), s + 1)
      else
        var list := PairsFrom(b, s, d, 0);
        if list.Listed? && b[list.close] == RIGHT_BRACE
        then Parsed(Item(ObjectItem, o, list.close - o + 1, list.count), list.close + 1)
        else Failed
  }

  // The comma loop of parse_array from the first byte of an element.
  function ElementsFrom(b: seq<Byte>, s: nat, d: nat, n: nat): (r: Listed)
    requires s < |b| && d < NESTING_LIMIT
    ensures r.Listed? ==> s <= r.close < |b|
    decreases NESTING_LIMIT - d, 0, |b| - s
  {
    var r := ValueAt(b, s, d + 1);
    if r.Failed? then Broken
    else
      var p := Skip(b, r.next);
      if b[p] == COMMA then ElementsFrom(b, Skip(b, p + 1), d, n + 1)
      else Listed(n + 1, p)
  }

  function PairAt(b: seq<Byte>, s: nat, d: nat): (r: Pair)
    requires s < |b| && d <= NESTING_LIMIT
    ensures r.Pair? ==> s + 1 < r.next <= |b|
    decreases NESTING_LIMIT - d, 2
  {
    var key := StringAt(b, s);
    if key.Failed? then NoPair
    else
      var c := Skip(b, key.next);
      if b[c] != COLON then NoPair
      else
        var value := ValueAt(b, Skip(b, c + 1), d);
        if value.Failed? then NoPair else Pair(key.item, value.item, value.next)
  }

  // The comma loop of parse_object from the opening quote of a key.
  function PairsFrom(b: seq<Byte>, s: nat, d: nat, n: nat): (r: Listed)
    requires s < |b| && d < NESTING_LIMIT
    ensures r.Listed? ==> s <= r.close < |b|
    decreases NESTING_LIMIT - d, 0, |b| - s
  {
    var r := PairAt(b, s, d + 1);
    if r.NoPair? then Broken
    else
      var p := Skip(b, r.next);
      if b[p] == COMMA then PairsFrom(b, Skip(b, p + 1), d, n + 1)
      else Listed(n + 1, p)
  }

  // Skipping twice is skipping once, also after a step back.
  lemma SkipTwice(b: seq<Byte>, o: nat)
    requires 0 < |b| && o <= |b|
    ensures Skip(b, Skip(b, o)) == Skip(b, o)
  {}

  // One turn of each comma loop.
  lemma ElementsStep(b: seq<Byte>, s: nat, d: nat, n: nat)
    requires s < |b| && d < NESTING_LIMIT
    ensures var r := ValueAt(b, s, d + 1);
            if r.Failed? then ElementsFrom(b, s, d, n) == Broken
            else
              var p := Skip(b, r.next);
              && s <= p
              && (b[p] == COMMA ==> s < p && ElementsFrom(b, s, d, n) == ElementsFrom(b, Skip(b, p + 1), d, n + 1))
              && (b[p] != COMMA ==> ElementsFrom(b, s, d, n) == Listed(n + 1, p))
  {
    hide ValueAt, Skip;
  }

  lemma PairsStep(b: seq<Byte>, s: nat, d: nat, n: nat)
    requires s < |b| && d < NESTING_LIMIT
    ensures var r := PairAt(b, s, d + 1);
            if r.NoPair? then PairsFrom(b, s, d, n) == Broken
            else
              var p := Skip(b, r.next);
              && s < p
              && (b[p] == COMMA ==> PairsFrom(b, s, d, n) == PairsFrom(b, Skip(b, p + 1), d, n + 1))
              && (b[p] != COMMA ==> PairsFrom(b, s, d, n) == Listed(n + 1, p))
  {
    hide PairAt, Skip;
  }

  // strtod sees on the copy what it would see in the buffer.
  lemma CopiedNumber(b: seq<Byte>, o: nat, t: seq<Byte>)
    requires o + |t| <= |b| && |t| <= MAX_TOKEN
    requires forall k :: 0 <= k < |t| ==> t[k] == b[o + k] && IsNumberByte(t[k])
    requires |t| < MAX_TOKEN && o + |t| < |b| ==> !IsNumberByte(b[o + |t|])
    ensures o + StrtodEnd(t, 0, |t|) == NumberEnd(b, o)
  {
    hide StrtodEnd, RunEnd, IsNumberByte;
    assert b[o..o + |t|] == t;
    RunIsToken(b, o, t);
    StrtodShift(b, o, t);
  }

  // ---------- lite_cjson_parse (src/infra/infra_cjson.c:477-498) ----------

  const BYTE_ORDER_MARK: seq<Byte> := [0xEF, 0xBB, 0xBF]

  // The mark is skipped when at least two more bytes follow it.
  function MarkEnd(b: seq<Byte>): (o: nat)
    ensures o <= |b|
  {
    if |b| > 4 && At(b, 0, BYTE_ORDER_MARK) then 3 else 0
  }

  // Text behind the value is not looked at.
  function ParseAt(b: seq<Byte>): Parsed {
    if b == [] then Failed else ValueAt(b, Skip(b, MarkEnd(b)), 0)
  }

  // ---------- the code ----------

  class ParseBuffer {
    const content: seq<Byte>
    var offset: int
    var depth: nat

    // The offset may stand behind the last byte, and for a moment in front of the first.
    ghost predicate Ready()
      reads this
    {
      0 < |content| && 0 <= offset <= |content| && depth <= NESTING_LIMIT
    }

    constructor (content: seq<Byte>)
      requires content != []
      ensures this.content == content && offset == 0 && depth == 0 && Ready()
    {
      this.content, this.offset, this.depth := content, 0, 0;
    }

    predicate Sees(c: Byte)
      requires 0 <= offset
      reads this
    {
      offset < |content| && content[offset] == c
    }

    method SkipWhitespace()
      requires Ready()
      modifies this`offset
      ensures offset == Skip(content, old(offset))
    {
      while offset < |content| && content[offset] <= 32
        invariant 0 <= offset <= |content| && SpaceEnd(content, offset) == SpaceEnd(content, old(offset))
      {
        offset := offset + 1;
      }
      if offset == |content| {
        offset := offset - 1;
      }
    }

    method SkipByteOrderMark()
      requires Ready() && offset == 0
      modifies this`offset
      ensures offset == MarkEnd(content)
    {
      if offset + 4 < |content| && content[offset..offset + 3] == BYTE_ORDER_MARK {
        offset := offset + 3;
      }
    }

    // A branch of the parser returned ok and item where r was to be computed.
    ghost predicate Yields(r: Parsed, ok: bool, item: Item)
      reads this
    {
      && (ok <==> r.Parsed?)
      && (ok ==> item == r.item && offset == r.next)
    }

    method ParseWord(word: seq<Byte>, kind: Kind) returns (ok: bool, item: Item)
      requires Ready()
      modifies this`offset
      ensures Yields(WordAt(content, old(offset), word, kind), ok, item)
      ensures !ok ==> offset == old(offset)
    {
      item := Item(kind, offset, |word|, 0);
      ok := offset + |word| <= |content| && content[offset..offset + |word|] == word;
      if ok {
        offset := offset + |word|;
      }
    }

    // The bytes of the number are copied into a buffer of 64 with a terminating zero, for strtod.
    method ParseNumber() returns (ok: bool, item: Item)
      requires Ready()
      modifies this`offset
      ensures Yields(NumberAt(content, old(offset)), ok, item)
    {
      hide StrtodEnd, IsNumberByte, NumberEnd, RunEnd;
      var text := new Byte[MAX_TOKEN + 1];
      var i := 0;
      while i < MAX_TOKEN && offset + i < |content| && IsNumberByte(content[offset + i])
        invariant offset == old(offset)
        invariant i <= MAX_TOKEN && offset + i <= |content|
        invariant forall k :: 0 <= k < i ==> text[k] == content[offset + k] && IsNumberByte(text[k])
      {
        text[i] := content[offset + i];
        i := i + 1;
      }
      text[i] := 0;
      CopiedNumber(content, offset, text[..i]);
      var afterEnd := StrtodEnd(text[..i], 0, i);
      item := Item(NumberItem, offset, afterEnd, 0);
      ok := afterEnd > 0;
      offset := offset + afterEnd;
    }

    method ParseString() returns (ok: bool, item: Item)
      requires Ready() && offset < |content|
      modifies this`offset
      ensures Yields(StringAt(content, old(offset)), ok, item)
    {
      var start, end := offset + 1, offset + 1;
      ok, item := false, Item(StringItem, start, 0, 0);
      if content[offset] != QUOTE {
        offset := start;
        return;
      }
      while end < |content| && content[end] != QUOTE
        invariant start <= end <= |content| && QuoteFrom(content, end) == QuoteFrom(content, start)
      {
        if content[end] == BACKSLASH {
          if end + 1 >= |content| {
            offset := start;
            return;
          }
          end := end + 1;
        }
        end := end + 1;
      }
      if end >= |content| {
        offset := start;
        return;
      }
      ok, item := true, Item(StringItem, start, end - start, 0);
      offset := end + 1;
    }

    method ParseValue() returns (ok: bool, item: Item)
      requires Ready()
      modifies this
      ensures Yields(ValueAt(content, old(offset), old(depth)), ok, item) && (ok ==> depth == old(depth))
      decreases NESTING_LIMIT - depth, 2
    {
      hide At, StringAt, NumberAt, ArrayAt, ObjectAt;
      ok, item := ParseWord(NULL_TEXT, NullItem);
      if ok { return; }
      ok, item := ParseWord(FALSE_TEXT, FalseItem);
      if ok { return; }
      ok, item := ParseWord(TRUE_TEXT, TrueItem);
      if ok { return; }
      if Sees(QUOTE) {
        ok, item := ParseString();
      } else if offset < |content| && (content[offset] == MINUS || 48 <= content[offset] <= 57) {
        ok, item := ParseNumber();
      } else if Sees(LEFT_BRACKET) {
        ok, item := ParseArray();
      } else if Sees(LEFT_BRACE) {
        ok, item := ParseObject();
      }
    }

    method ParseArray() returns (ok: bool, item: Item)
      requires Ready() && offset < |content|
      modifies this
      ensures Yields(ArrayAt(content, old(offset), old(depth)), ok, item) && (ok ==> depth == old(depth))
      decreases NESTING_LIMIT - depth, 1
    {
      hide ValueAt, Skip, StringAt, NumberAt, PairAt, PairsFrom, ObjectAt, ElementsFrom, At;
      var startPos, size := offset, 0;
      ok, item := false, Item(ArrayItem, startPos, 0, 0);
      if depth >= NESTING_LIMIT {
        return;
      }
      depth := depth + 1;
      if !Sees(LEFT_BRACKET) {
        return;
      }
      offset := offset + 1;
      SkipWhitespace();
      if !Sees(RIGHT_BRACKET) {
        ghost var list := ElementsFrom(content, offset, old(depth), 0);
        SkipTwice(content, old(offset) + 1);
        offset := offset - 1;
        var more := true;
        while more
          invariant depth == old(depth) + 1 && -1 <= offset < |content|
          invariant more ==> ElementsFrom(content, Skip(content, offset + 1), old(depth), size) == list
          invariant !more ==> list.Listed? && size == list.count && offset == list.close
          decreases if more then |content| - offset + 1 else 0
        {
          ElementsStep(content, Skip(content, offset + 1), old(depth), size);
          offset := offset + 1;
          SkipWhitespace();
          var current;
          ok, current := ParseValue();
          if !ok {
            return;
          }
          SkipWhitespace();
          size := size + 1;
          more := Sees(COMMA);
        }
        ok := Sees(RIGHT_BRACKET);
        if !ok {
          return;
        }
      }
      depth := depth - 1;
      ok, item := true, Item(ArrayItem, startPos, offset - startPos + 1, size);
      offset := offset + 1;
    }

    method ParseObject() returns (ok: bool, item: Item)
      requires Ready() && offset < |content|
      modifies this
      ensures Yields(ObjectAt(content, old(offset), old(depth)), ok, item) && (ok ==> depth == old(depth))
      decreases NESTING_LIMIT - depth, 1
    {
      hide ValueAt, Skip, StringAt, NumberAt, PairAt, PairsFrom, ArrayAt, ElementsFrom, At;
      var startPos, size := offset, 0;
      ok, item := false, Item(ObjectItem, startPos, 0, 0);
      if depth >= NESTING_LIMIT {
        return;
      }
      depth := depth + 1;
      if !Sees(LEFT_BRACE) {
        return;
      }
      offset := offset + 1;
      SkipWhitespace();
      if !Sees(RIGHT_BRACE) {
        ghost var list := PairsFrom(content, offset, old(depth), 0);
        SkipTwice(content, old(offset) + 1);
        offset := offset - 1;
        var more := true;
        while more
          invariant depth == old(depth) + 1 && -1 <= offset < |content|
          invariant more ==> PairsFrom(content, Skip(content, offset + 1), old(depth), size) == list
          invariant !more ==> list.Listed? && size == list.count && offset == list.close
          decreases if more then |content| - offset + 1 else 0
        {
          PairsStep(content, Skip(content, offset + 1), old(depth), size);
          offset := offset + 1;
          var key, value;
          ok, key, value := ParsePair();
          if !ok {
            return;
          }
          SkipWhitespace();
          size := size + 1;
          more := Sees(COMMA);
        }
        ok := Sees(RIGHT_BRACE);
        if !ok {
          return;
        }
      }
      depth := depth - 1;
      ok, item := true, Item(ObjectItem, startPos, offset - startPos + 1, size);
      offset := offset + 1;
    }

    // The body of the comma loops over members, up to the whitespace behind the value.
    method ParsePair() returns (ok: bool, key: Item, value: Item)
      requires Ready()
      modifies this
      ensures var r := PairAt(content, Skip(content, old(offset)), old(depth));
              && (ok <==> r.Pair?)
              && (ok ==> key == r.key && value == r.value && offset == r.next && depth == old(depth))
      decreases NESTING_LIMIT - depth, 3
    {
      hide ValueAt, Skip, StringAt;
      SkipWhitespace();
      value := Item(NullItem, 0, 0, 0);
      ok, key := ParseString();
      if !ok {
        return;
      }
      SkipWhitespace();
      ok := Sees(COLON);
      if !ok {
        return;
      }
      offset := offset + 1;
      SkipWhitespace();
      ok, value := ParseValue();
    }
  }

  method LiteCjsonParse(src: seq<Byte>) returns (ok: bool, item: Item)
    ensures ok <==> ParseAt(src).Parsed?
    ensures ok ==> item == ParseAt(src).item
  {
    hide ValueAt, Skip, MarkEnd;
    item := Item(NullItem, 0, 0, 0);
    ok := src != [];
    if ok {
      var buffer := new ParseBuffer(src);
      buffer.SkipByteOrderMark();
      buffer.SkipWhitespace();
      ok, item := buffer.ParseValue();
    }
  }
}
