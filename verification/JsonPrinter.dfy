// The printer of src/infra/infra_cjson.c over its growing buffer.
module JsonPrinter {
  import opened Bytes
  import opened JsonLex
  import opened JsonTree


  // The allocator may refuse any request; the flag remembers that it did.
  class Heap {
    var refused: bool

    constructor ()
      ensures !refused
    {
      refused := false;
    }

    method Allocate(size: nat) returns (block: array?<Byte>)
      modifies this
      ensures block == null ==> refused
      ensures block != null ==> fresh(block) && block.Length == size && refused == old(refused)
    {
      if * {
        block, refused := null, true;
      } else {
        block := new Byte[size];
      }
    }
  }

  class PrintBuffer {
    const heap: Heap
    const format: bool
    var buffer: array?<Byte>
    var length: nat
    var offset: nat
    var depth: nat

    ghost predicate Valid()
      reads this
    {
      buffer != null && length == buffer.Length && offset < length
    }

    // The text in front of the offset.
    ghost function Written(): seq<Byte>
      requires Valid()
      reads this, buffer
    {
      buffer[..offset]
    }

    // The text so far, of which update_offset has yet to step over what follows the offset.
    ghost predicate Shows(text: seq<Byte>)
      reads this, buffer
    {
      && Valid()
      && offset <= |text| < length
      && buffer[..|text|] == text && buffer[|text|] == 0
      && NoZero(text[offset..])
    }

    // A step that succeeds may have moved the text to a new buffer, and was refused none.
    twostate predicate Kept()
      reads this, heap
    {
      (buffer == old(buffer) || fresh(buffer)) && heap.refused == old(heap.refused)
    }

    constructor (heap: Heap, format: bool, block: array<Byte>)
      requires block.Length > 0
      ensures this.heap == heap && this.format == format && this.buffer == block
      ensures Valid() && Written() == [] && depth == 0
    {
      this.heap, this.format, this.buffer, this.length := heap, format, block, block.Length;
      this.offset, this.depth := 0, 0;
    }

    // Makes room for `needed` bytes and one more behind the offset.
    method Ensure(needed: nat) returns (ok: bool)
      requires Valid()
      modifies this`buffer, this`length, heap
      ensures ok ==> Valid() && offset + needed < length && Written() == old(Written()) && Kept()
      ensures !ok ==> heap.refused || offset + needed + 1 > INT_MAX
    {
      ok := false;
      if needed > INT_MAX {
        return;
      }
      var total := needed + offset + 1;
      if total <= length {
        return true;
      }
      if total > INT_MAX {
        return;
      }
      var newSize := if total > INT_MAX / 2 then INT_MAX else total * 2;
      var newBuffer := heap.Allocate(newSize);
      if newBuffer == null {
        length, buffer := 0, null;
        return;
      }
      var i := 0;
      while i < offset + 1
        invariant i <= offset + 1 && Valid() && buffer == old(buffer) && newBuffer != buffer && heap.refused == old(heap.refused)
        invariant Written() == old(Written())
        invariant forall k :: 0 <= k < i ==> newBuffer[k] == buffer[k]
      {
        newBuffer[i] := buffer[i];
        i := i + 1;
      }
      assert newBuffer[..offset] == buffer[..offset];
      length, buffer := newSize, newBuffer;
      ok := true;
    }

    // Writes text at the offset, inside of the room that was made for it.
    method Put(text: seq<Byte>, ghost needed: nat)
      requires Valid() && |text| <= needed && offset + needed < length
      modifies buffer
      ensures buffer[..offset + |text|] == old(Written()) + text
    {
      var i := 0;
      while i < |text|
        invariant i <= |text| && buffer[..offset + i] == old(Written()) + text[..i]
      {
        buffer[offset + i] := text[i];
        i := i + 1;
      }
    }

    // strlen from the offset.
    method UpdateOffset(ghost text: seq<Byte>)
      requires Shows(text)
      modifies this`offset
      ensures Valid() && Written() == text
    {
      while buffer[offset] != 0
        invariant Shows(text)
        decreases |text| - offset
      {
        offset := offset + 1;
      }
    }

    method PrintWord(word: seq<Byte>) returns (ok: bool)
      requires Valid() && NoZero(word)
      modifies this`buffer, this`length, buffer, heap
      ensures ok ==> Shows(old(Written()) + word) && Kept()
      ensures !ok ==> heap.refused || old(offset) + |word| + 2 > INT_MAX
    {
      ok := Ensure(|word| + 1);
      if ok {
        Put(word + [0], |word| + 1);
        assert buffer[offset + |word|] == buffer[..offset + |word| + 1][offset + |word|];
        assert buffer[..offset + |word|] == buffer[..offset + |word| + 1][..offset + |word|];
      }
    }

    // Two passes over the string: the first counts the escapes, the second writes them.
    method PrintStringPtr(input: seq<Byte>) returns (ok: bool)
      requires Valid() && NoZero(input)
      modifies this`buffer, this`length, buffer, heap
      ensures ok ==> Shows(old(Written()) + PrintString(input)) && Kept()
      ensures !ok ==> heap.refused || old(offset) + |PrintString(input)| + 2 > INT_MAX
    {
      hide Escape;
      var escapes := CountEscapes(input);
      var outputLength := |input| + escapes;
      ok := Ensure(outputLength + 3);
      if !ok {
        return;
      }
      WriteString(input, escapes);
      EscapeNoZero(input);
    }

    method WriteString(input: seq<Byte>, escapes: nat)
      requires Valid() && |input| + escapes == |Escape(input)| && offset + |Escape(input)| + 3 < length
      modifies buffer
      ensures buffer[..offset + |Escape(input)| + 2] == old(Written()) + PrintString(input)
      ensures buffer[offset + |Escape(input)| + 2] == 0
    {
      hide Escape;
      Put([QUOTE], |input| + escapes + 3);
      if escapes == 0 {
        CopyPlain(input);
      } else {
        CopyEscaped(input);
      }
      assert buffer[..offset + 1 + |Escape(input)|] == old(Written()) + [QUOTE] + Escape(input);
      EndString(offset + |input| + escapes + 1);
    }

    // The closing quote and the zero.
    method EndString(at: nat)
      requires Valid() && at + 1 < length
      modifies buffer
      ensures buffer[..at + 1] == old(buffer[..at]) + [QUOTE] && buffer[at + 1] == 0
    {
      var end := Append(QUOTE, at);
      ghost var text := buffer[..end];
      buffer[end] := 0;
      assert buffer[..end] == text;
    }

    method CountEscapes(input: seq<Byte>) returns (escapes: nat)
      ensures |input| + escapes == |Escape(input)|
    {
      hide Escape;
      escapes := 0;
      assert Escape(input[..0]) == [] by {
        EscapeNothing();
      }
      var i := 0;
      while i < |input|
        invariant i <= |input| && i + escapes == |Escape(input[..i])|
      {
        EscapeStep(input, i);
        if ShortEscape(input[i]) != 0 {
          escapes := escapes + 1;
        } else if input[i] < 32 {
          escapes := escapes + 5;
        }
        i := i + 1;
      }
      assert input[..|input|] == input;
    }

    lemma EscapeNothing()
      ensures Escape([]) == []
    {}

    // No character has to be escaped.
    method CopyPlain(input: seq<Byte>)
      requires Valid() && offset + |input| + 3 < length && |Escape(input)| == |input|
      modifies buffer
      ensures buffer[..offset + 1 + |input|] == old(buffer[..offset + 1]) + Escape(input)
    {
      hide Escape;
      EscapeLonger(input);
      var i := 0;
      while i < |input|
        invariant i <= |input| && buffer[..offset + 1 + i] == old(buffer[..offset + 1]) + input[..i]
      {
        buffer[offset + 1 + i] := input[i];
        i := i + 1;
      }
    }

    method CopyEscaped(input: seq<Byte>)
      requires Valid() && offset + |Escape(input)| + 3 < length
      modifies buffer
      ensures buffer[..offset + 1 + |Escape(input)|] == old(buffer[..offset + 1]) + Escape(input)
    {
      hide Escape;
      EscapeNothing();
      assert input[..0] == [] && input[..|input|] == input;
      var i, output := 0, offset + 1;
      while i < |input|
        invariant i <= |input| && output == offset + 1 + |Escape(input[..i])| <= offset + 1 + |Escape(input)|
        invariant buffer[..output] == old(buffer[..offset + 1]) + Escape(input[..i])
      {
        EscapeStep(input, i);
        output := CopyByte(input[i], output);
        i := i + 1;
      }
    }

    // One turn of the copy loop.
    method CopyByte(c: Byte, at: nat) returns (next: nat)
      requires Valid() && at + |EscapeByte(c)| < length
      modifies buffer
      ensures next == at + |EscapeByte(c)|
      ensures buffer[..next] == old(buffer[..at]) + EscapeByte(c)
    {
      next := at;
      if c > 31 && c != QUOTE && c != BACKSLASH {
        next := Append(c, next);
      } else {
        next := Append(BACKSLASH, next);
        if c == BACKSLASH {
          next := Append(BACKSLASH, next);
        } else if c == QUOTE {
          next := Append(QUOTE, next);
        } else if c == BACKSPACE {
          next := Append(98, next);
        } else if c == FORM_FEED {
          next := Append(102, next);
        } else if c == LINE_FEED {
          next := Append(110, next);
        } else if c == RETURN {
          next := Append(114, next);
        } else if c == TAB {
          next := Append(116, next);
        } else {
          next := AppendCodePoint(c, next);
        }
      }
    }

    method Append(c: Byte, at: nat) returns (next: nat)
      requires Valid() && at < length
      modifies buffer
      ensures next == at + 1 && buffer[..next] == old(buffer[..at]) + [c]
    {
      buffer[at] := c;
      next := at + 1;
    }

    // sprintf of "u%04x" with its terminating zero.
    method AppendCodePoint(c: Byte, at: nat) returns (next: nat)
      requires Valid() && at + 5 < length && c < 32
      modifies buffer
      ensures next == at + 5
      ensures buffer[..next] == old(buffer[..at]) + [117, 48, 48, HexDigit(c / 16), HexDigit(c % 16)]
    {
      hide HexDigit;
      next := Append(117, at);
      next := Append(48, next);
      next := Append(48, next);
      next := Append(HexDigit(c / 16), next);
      next := Append(HexDigit(c % 16), next);
      ghost var text := buffer[..next];
      buffer[next] := 0;
      assert buffer[..next] == text;
    }

    // Room for text and perhaps a byte more, then the text, and the offset moves over it.
    method Emit(text: seq<Byte>, needed: nat, zero: bool) returns (ok: bool)
      requires Valid() && |text| <= needed <= |text| + 1 && (zero ==> needed == |text| + 1)
      modifies this`buffer, this`length, this`offset, buffer, heap
      ensures ok ==> Valid() && Written() == old(Written()) + text && Kept()
      ensures !ok ==> heap.refused || old(offset) + |text| + 2 > INT_MAX
    {
      ok := Ensure(needed);
      if ok {
        ghost var before := Written();
        Put(if zero then text + [0] else text, needed);
        assert buffer[..offset + |text|] == before + text;
        offset := offset + |text|;
      }
    }

    method PrintValue(item: Tree) returns (ok: bool)
      requires Valid() && IsCTree(item)
      modifies this, buffer, heap
      ensures ok ==> Shows(old(Written()) + Print(item, format, old(depth))) && Kept() && depth == old(depth)
      ensures !ok ==> heap.refused || !ShortNumbers(item) || old(offset) + |Print(item, format, old(depth))| + 2 > INT_MAX
      decreases Size(item), 1
    {
      hide PrintElements, PrintMembers, Escape;
      match item {
        case Null => ok := PrintWord(NULL_TEXT);
        case False => ok := PrintWord(FALSE_TEXT);
        case True => ok := PrintWord(TRUE_TEXT);
        case Number(token) => ok := PrintNumber(token);
        case Raw(text) => ok := PrintWord(text);
        case Text(text) => ok := PrintStringPtr(text);
        case Array(_) => ok := PrintArray(item);
        case Object(_) => ok := PrintObject(item);
      }
    }

    // The token is what sprintf left in the number buffer.
    method PrintNumber(token: seq<Byte>) returns (ok: bool)
      requires Valid() && NoZero(token)
      modifies this`buffer, this`length, this`offset, buffer, heap
      ensures ok ==> Shows(old(Written()) + token) && Kept()
      ensures !ok ==> heap.refused || |token| > NUMBER_SPACE || old(offset) + |token| + 2 > INT_MAX
    {
      ok := |token| <= NUMBER_SPACE;
      if ok {
        ok := PrintWord(token);
      }
      if ok {
        offset := offset + |token|;
      }
    }

    method PrintArray(item: Tree) returns (ok: bool)
      requires Valid() && item.Array? && IsCTree(item)
      modifies this, buffer, heap
      ensures ok ==> Shows(old(Written()) + Print(item, format, old(depth))) && Kept() && depth == old(depth)
      ensures !ok ==> heap.refused || !ShortNumbers(item) || old(offset) + |Print(item, format, old(depth))| + 2 > INT_MAX
      decreases Size(item), 0
    {
      hide Print, PrintElements;
      ArrayText(Written(), item, format, depth);
      ok := Emit([LEFT_BRACKET], 1, false);
      if !ok {
        return;
      }
      depth := depth + 1;
      ok := PrintChildren(item.child);
      if !ok {
        return;
      }
      ok := PrintWord([RIGHT_BRACKET]);
      depth := depth - 1;
    }

    lemma ArrayText(start: seq<Byte>, item: Tree, format: bool, depth: nat)
      requires item.Array?
      ensures var elements := PrintElements(item.child, format, depth + 1);
              && start + Print(item, format, depth) == ((start + [LEFT_BRACKET]) + elements) + [RIGHT_BRACKET]
              && |Print(item, format, depth)| == |elements| + 2
    {
      hide PrintElements;
      Regroup(start, [LEFT_BRACKET], PrintElements(item.child, format, depth + 1), [RIGHT_BRACKET]);
    }

    // The loop of print_array.
    method PrintChildren(child: Items) returns (ok: bool)
      requires Valid() && AreCItems(child)
      modifies this, buffer, heap
      ensures ok ==> Valid() && Written() == old(Written()) + PrintElements(child, format, depth)
      ensures ok ==> Kept() && depth == old(depth)
      ensures !ok ==> heap.refused || !AllShortNumbers(child)
                      || old(offset) + |PrintElements(child, format, old(depth))| + 2 > INT_MAX
      decreases ItemsSize(child), 1
    {
      hide PrintElements, PrintElement;
      ghost var whole := Written() + PrintElements(child, format, depth);
      var current := child;
      ok := true;
      while current.Item?
        invariant ok && Valid() && Kept() && depth == old(depth)
        invariant AreCItems(current) && ItemsSize(current) <= ItemsSize(child) && (AllShortNumbers(child) ==> AllShortNumbers(current))
        invariant Written() + PrintElements(current, format, depth) == whole
        decreases ItemsSize(current)
      {
        ElementsUnfold(current, format, depth);
        ok := PrintOneElement(current);
        if !ok {
          return;
        }
        current := current.next;
      }
      ElementsUnfold(current, format, depth);
    }

    lemma ElementsUnfold(items: Items, format: bool, depth: nat)
      ensures PrintElements(items, format, depth) ==
              if items.NoItem? then [] else PrintElement(items, format, depth) + PrintElements(items.next, format, depth)
    {}

    method PrintOneElement(current: Items) returns (ok: bool)
      requires Valid() && current.Item? && AreCItems(current)
      modifies this, buffer, heap
      ensures ok ==> Valid() && Written() == old(Written()) + PrintElement(current, format, depth)
      ensures ok ==> Kept() && depth == old(depth)
      ensures !ok ==> heap.refused || !AllShortNumbers(current)
                      || old(offset) + |PrintElement(current, format, old(depth))| + 2 > INT_MAX
      decreases ItemsSize(current), 0
    {
      hide Print;
      ok := PrintValue(current.value);
      if !ok {
        return;
      }
      UpdateOffset(old(Written()) + Print(current.value, format, depth));
      if current.next.Item? {
        ok := Emit(Separator(format), |Separator(format)| + 1, true);
      }
    }

    method PrintObject(item: Tree) returns (ok: bool)
      requires Valid() && item.Object? && IsCTree(item)
      modifies this, buffer, heap
      ensures ok ==> Shows(old(Written()) + Print(item, format, old(depth))) && Kept() && depth == old(depth)
      ensures !ok ==> heap.refused || !ShortNumbers(item) || old(offset) + |Print(item, format, old(depth))| + 2 > INT_MAX
      decreases Size(item), 0
    {
      hide Print, PrintMembers, Tabs, If;
      ObjectText(Written(), item, format, depth);
      var open := [LEFT_BRACE] + If(format, [LINE_FEED]);
      ok := Emit(open, |open| + 1, false);
      if !ok {
        return;
      }
      depth := depth + 1;
      ok := PrintFields(item.child);
      if !ok {
        return;
      }
      var close := If(format, Tabs(depth - 1)) + [RIGHT_BRACE];
      NoZeroClose(format, depth - 1);
      ok := PrintWord(close);
      depth := depth - 1;
    }

    lemma ObjectText(start: seq<Byte>, item: Tree, format: bool, depth: nat)
      requires item.Object?
      ensures var open, members, close := [LEFT_BRACE] + If(format, [LINE_FEED]), PrintMembers(item.child, format, depth + 1),
                                          If(format, Tabs(depth)) + [RIGHT_BRACE];
              && start + Print(item, format, depth) == ((start + open) + members) + close
              && |Print(item, format, depth)| == |open| + |members| + |close|
    {
      hide If, Tabs, PrintMembers;
      Regroup(start, [LEFT_BRACE] + If(format, [LINE_FEED]), PrintMembers(item.child, format, depth + 1), If(format, Tabs(depth)) + [RIGHT_BRACE]);
    }

    lemma NoZeroClose(format: bool, depth: nat)
      ensures NoZero(If(format, Tabs(depth)) + [RIGHT_BRACE])
    {}

    // The loop of print_object.
    method PrintFields(child: Items) returns (ok: bool)
      requires Valid() && AreCItems(child)
      modifies this, buffer, heap
      ensures ok ==> Valid() && Written() == old(Written()) + PrintMembers(child, format, depth)
      ensures ok ==> Kept() && depth == old(depth)
      ensures !ok ==> heap.refused || !AllShortNumbers(child)
                      || old(offset) + |PrintMembers(child, format, old(depth))| + 2 > INT_MAX
      decreases ItemsSize(child), 1
    {
      hide PrintMembers, PrintMember;
      ghost var whole := Written() + PrintMembers(child, format, depth);
      var current := child;
      ok := true;
      while current.Item?
        invariant ok && Valid() && Kept() && depth == old(depth)
        invariant AreCItems(current) && ItemsSize(current) <= ItemsSize(child) && (AllShortNumbers(child) ==> AllShortNumbers(current))
        invariant Written() + PrintMembers(current, format, depth) == whole
        decreases ItemsSize(current)
      {
        MembersUnfold(current, format, depth);
        ok := PrintOneMember(current);
        if !ok {
          return;
        }
        current := current.next;
      }
      MembersUnfold(current, format, depth);
    }

    lemma MembersUnfold(items: Items, format: bool, depth: nat)
      ensures PrintMembers(items, format, depth) ==
              if items.NoItem? then [] else PrintMember(items, format, depth) + PrintMembers(items.next, format, depth)
    {}

    method PrintOneMember(current: Items) returns (ok: bool)
      requires Valid() && current.Item? && AreCItems(current)
      modifies this, buffer, heap
      ensures ok ==> Valid() && Written() == old(Written()) + PrintMember(current, format, depth)
      ensures ok ==> Kept() && depth == old(depth)
      ensures !ok ==> heap.refused || !AllShortNumbers(current)
                      || old(offset) + |PrintMember(current, format, old(depth))| + 2 > INT_MAX
      decreases ItemsSize(current), 0
    {
      hide Print, PrintKey, PrintBreak;
      ok := PrintMemberKey(current.key);
      if !ok {
        return;
      }
      ghost var key := Written();
      ok := PrintValue(current.value);
      if !ok {
        return;
      }
      UpdateOffset(key + Print(current.value, format, depth));
      var end := PrintBreak(current, format);
      ok := Emit(end, |end| + 1, true);
      Regroup(old(Written()), PrintKey(current.key, format, depth), Print(current.value, format, depth), end);
    }

    method PrintMemberKey(key: seq<Byte>) returns (ok: bool)
      requires Valid() && NoZero(key)
      modifies this`buffer, this`length, this`offset, buffer, heap
      ensures ok ==> Valid() && Written() == old(Written()) + PrintKey(key, format, depth) && Kept()
      ensures !ok ==> heap.refused || old(offset) + |PrintKey(key, format, depth)| + 2 > INT_MAX
    {
      hide PrintString, PrintKey, Tabs;
      KeyText(Written(), key, format, depth);
      ok := true;
      if format {
        ok := Emit(Tabs(depth), depth, false);
        if !ok {
          return;
        }
      }
      ghost var start := Written();
      ok := PrintStringPtr(key);
      if !ok {
        return;
      }
      UpdateOffset(start + PrintString(key));
      var colon := [COLON] + If(format, [TAB]);
      ok := Emit(colon, |colon|, false);
    }

    lemma KeyText(start: seq<Byte>, key: seq<Byte>, format: bool, depth: nat)
      ensures var tabs, colon := If(format, Tabs(depth)), [COLON] + If(format, [TAB]);
              && start + PrintKey(key, format, depth) == ((start + tabs) + PrintString(key)) + colon
              && |PrintKey(key, format, depth)| == |tabs| + |PrintString(key)| + |colon|
    {
      hide If, Tabs, PrintString;
      Regroup(start, If(format, Tabs(depth)), PrintString(key), [COLON] + If(format, [TAB]));
    }

    // The text moves into a block of its own size.
    method CopyOut() returns (printed: array?<Byte>)
      requires Valid()
      modifies heap
      ensures printed == null ==> heap.refused
      ensures printed != null ==>
                fresh(printed) && printed[..] == old(Written()) + [0] && heap.refused == old(heap.refused)
    {
      printed := heap.Allocate(offset + 1);
      if printed == null {
        return;
      }
      var i := 0;
      while i < length && i < offset + 1
        invariant i <= offset + 1
        invariant forall k :: 0 <= k < i ==> printed[k] == buffer[k]
        modifies printed
      {
        printed[i] := buffer[i];
        i := i + 1;
      }
      printed[offset] := 0;
    }
  }

  // lite_cjson_print and lite_cjson_print_unformatted: the printed text in a block of its own size.
  method LiteCjsonPrint(item: Tree, format: bool, heap: Heap) returns (printed: array?<Byte>)
    requires IsCTree(item)
    modifies heap
    ensures printed != null ==> var text := Print(item, format, 0);
            fresh(printed) && printed[..] == text + [0] && heap.refused == old(heap.refused)
    ensures printed == null ==> heap.refused || !ShortNumbers(item) || |Print(item, format, 0)| + 2 > INT_MAX
  {
    hide Print;
    printed := null;
    var block := heap.Allocate(256);
    if block == null {
      return;
    }
    var buffer := new PrintBuffer(heap, format, block);
    var ok := buffer.PrintValue(item);
    if !ok {
      return;
    }
    ghost var text := Print(item, format, 0);
    assert [] + text == text;
    buffer.UpdateOffset(text);
    printed := buffer.CopyOut();
  }
}
