// The letters of section 2 of RFC 8259, a printed example, and the two limits of the parser as
// texts that meet them.
module JsonVectors {
  import opened Bytes
  import opened JsonComplete
  import opened JsonGrammar
  import opened JsonLex
  import opened JsonParser
  import T = JsonTree

  lemma Letters()
    ensures LEFT_BRACKET == '[' as int && RIGHT_BRACKET == ']' as int && LEFT_BRACE == '{' as int && RIGHT_BRACE == '}' as int
    ensures COLON == ':' as int && COMMA == ',' as int && QUOTE == '"' as int && BACKSLASH == '\\' as int
    ensures MINUS == '-' as int && PLUS == '+' as int && DOT == '.' as int && LOWER_E == 'e' as int && UPPER_E == 'E' as int
    ensures NULL_TEXT == Ascii("null") && FALSE_TEXT == Ascii("false") && TRUE_TEXT == Ascii("true")
  {}

  // ---------- the layout of the printed forms ----------

  // An array of two: a comma, and a space behind it in the formatted form.
  lemma ArrayOfTwo(a: T.Tree, b: T.Tree, format: bool, depth: nat)
    ensures T.Print(T.Array(T.Item([], a, T.Item([], b, T.NoItem))), format, depth)
         == ['[' as int] + T.Print(a, format, depth + 1) + (if format then Ascii(", ") else Ascii(","))
            + T.Print(b, format, depth + 1) + [']' as int]
  {
    hide T.Print, T.PrintElements, Ascii;
    var first := T.Item([], a, T.Item([], b, T.NoItem));
    ArrayIs(first, format, depth);
    TwoElements(first, format, depth + 1);
    Inside(['[' as int], T.Print(a, format, depth + 1), if format then Ascii(", ") else Ascii(","), T.Print(b, format, depth + 1), [']' as int]);
  }

  lemma Inside(open: seq<Byte>, a: seq<Byte>, separator: seq<Byte>, b: seq<Byte>, close: seq<Byte>)
    ensures open + (a + separator + b) + close == open + a + separator + b + close
  {}

  lemma TwoElements(first: T.Items, format: bool, depth: nat)
    requires first.Item? && first.next.Item? && first.next.next.NoItem?
    ensures T.PrintElements(first, format, depth)
         == T.Print(first.value, format, depth) + (if format then Ascii(", ") else Ascii(",")) + T.Print(first.next.value, format, depth)
  {
    LastElementIs(first.next, format, depth);
    FirstElementIs(first, format, depth);
    hide T.Print, T.PrintElement, Ascii;
  }

  lemma ArrayIs(child: T.Items, format: bool, depth: nat)
    ensures T.Print(T.Array(child), format, depth) == ['[' as int] + T.PrintElements(child, format, depth + 1) + [']' as int]
  {
    hide T.PrintElements;
  }

  lemma FirstElementIs(items: T.Items, format: bool, depth: nat)
    requires items.Item? && items.next.Item?
    ensures T.PrintElement(items, format, depth)
         == T.Print(items.value, format, depth) + if format then Ascii(", ") else Ascii(",")
  {
    hide T.Print;
    assert Ascii(", ") == [44, 32] && Ascii(",") == [44];
  }

  lemma LastElementIs(items: T.Items, format: bool, depth: nat)
    requires items.Item? && items.next.NoItem?
    ensures T.PrintElements(items, format, depth) == T.Print(items.value, format, depth)
  {
    hide T.Print;
    assert T.PrintElements(T.NoItem, format, depth) == [];
  }

  // An object of two: every member on its own line behind as many tabs as it is deep, a tab behind the
  // colon, and the closing brace on a line of its own; nothing of this in the other form.
  lemma ObjectOfTwo(k: seq<Byte>, a: T.Tree, m: seq<Byte>, b: T.Tree, format: bool, depth: nat)
    ensures var line, colon := if format then Ascii("\n") else [], if format then Ascii(":\t") else Ascii(":");
            var tabs, last := if format then Times('\t' as int, depth + 1) else [], if format then Times('\t' as int, depth) else [];
            T.Print(T.Object(T.Item(k, a, T.Item(m, b, T.NoItem))), format, depth)
            == ['{' as int] + line + (tabs + T.PrintString(k) + colon + T.Print(a, format, depth + 1) + [',' as int] + line)
               + (tabs + T.PrintString(m) + colon + T.Print(b, format, depth + 1) + line) + last + ['}' as int]
  {
    hide T.PrintString, Times, T.Tabs, Ascii, T.Print, T.PrintMembers;
    var first := T.Item(k, a, T.Item(m, b, T.NoItem));
    TabsAre(depth);
    TabsAre(depth + 1);
    Pieces();
    TwoMembers(first, format, depth + 1);
    ObjectIs(first, format, depth);
  }

  // A member without what follows it.
  function Member(items: T.Items, format: bool, depth: nat): seq<Byte>
    requires items.Item?
  {
    (if format then T.Tabs(depth) else []) + T.PrintString(items.key) + (if format then [58, 9] else [58]) + T.Print(items.value, format, depth)
  }

  lemma TwoMembers(first: T.Items, format: bool, depth: nat)
    requires first.Item? && first.next.Item? && first.next.next.NoItem?
    ensures var line := if format then [10] else [];
            T.PrintMembers(first, format, depth) == (Member(first, format, depth) + [44] + line) + (Member(first.next, format, depth) + line)
  {
    hide Member, T.PrintMembers;
    MemberIs(first, format, depth);
    MemberIs(first.next, format, depth);
    NoMembers(format, depth);
  }

  lemma NoMembers(format: bool, depth: nat)
    ensures T.PrintMembers(T.NoItem, format, depth) == []
  {}

  lemma ObjectIs(child: T.Items, format: bool, depth: nat)
    ensures T.Print(T.Object(child), format, depth)
         == ['{' as int] + (if format then [10] else []) + T.PrintMembers(child, format, depth + 1)
            + (if format then T.Tabs(depth) else []) + ['}' as int]
  {
    hide T.PrintMembers, T.Tabs;
  }

  lemma MemberIs(items: T.Items, format: bool, depth: nat)
    requires items.Item?
    ensures T.PrintMembers(items, format, depth)
         == (Member(items, format, depth) + (if items.next.Item? then [44] else []) + (if format then [10] else []))
            + T.PrintMembers(items.next, format, depth)
  {
    MemberText(items, format, depth);
    hide Member, T.PrintMember, T.PrintMembers;
    MembersFrom(items, format, depth);
  }

  lemma MembersFrom(items: T.Items, format: bool, depth: nat)
    requires items.Item?
    ensures T.PrintMembers(items, format, depth) == T.PrintMember(items, format, depth) + T.PrintMembers(items.next, format, depth)
  {
    hide T.PrintMember;
  }

  lemma MemberText(items: T.Items, format: bool, depth: nat)
    requires items.Item?
    ensures T.PrintMember(items, format, depth)
         == Member(items, format, depth) + (if items.next.Item? then [44] else []) + (if format then [10] else [])
  {
    hide T.Print, T.PrintString, T.Tabs, T.PrintMembers;
  }

  lemma Pieces()
    ensures Ascii("\n") == [10] && Ascii(":\t") == [58, 9] && Ascii(":") == [58]
  {}

  lemma {:induction false} TabsAre(n: nat)
    ensures T.Tabs(n) == Times('\t' as int, n)
    decreases n
  {
    if n > 0 {
      TabsAre(n - 1);
    }
  }

  function Times(c: Byte, n: nat): (s: seq<Byte>)
    ensures |s| == n && forall i :: 0 <= i < n ==> s[i] == c
  {
    if n == 0 then [] else [c] + Times(c, n - 1)
  }

  // ---------- nesting ----------

  function Nested(n: nat): Value {
    if n == 0 then EmptyArray([]) else Array(LastElement([], Nested(n - 1), []))
  }

  lemma {:induction false} NestedText(n: nat)
    ensures Render(Nested(n)) == Times('[' as int, n + 1) + Times(']' as int, n + 1)
    ensures WellFormed(Nested(n)) && Height(Nested(n)) == n + 1
    decreases n
  {
    if n > 0 {
      NestedText(n - 1);
      var es := LastElement([], Nested(n - 1), []);
      assert RenderElements(es) == Render(Nested(n - 1));
    }
  }

  // n opening brackets and n closing ones are accepted exactly from one to a thousand.
  lemma NestingLimit(n: nat)
    ensures ParseAt(Times('[' as int, n) + Times(']' as int, n)).Parsed? <==> 1 <= n <= 1000
  {
    hide ParseAt, Times;
    if n == 0 {
      NothingFails(Times('[' as int, n) + Times(']' as int, n));
    } else {
      NestedText(n - 1);
      NestedFits(Nested(n - 1));
    }
  }

  lemma NestedFits(v: Value)
    requires WellFormed(v)
    ensures ParseAt(Render(v)).Parsed? <==> Height(v) <= 1000
  {
    hide ParseAt, Render, WellFormed, Height;
    TextsAccepted([], v, []);
    assert [] + Render(v) + [] == Render(v);
  }

  lemma NothingFails(b: seq<Byte>)
    requires b == []
    ensures ParseAt(b).Failed?
  {}

  // ---------- numbers ----------

  lemma {:induction false} AllDigits(b: seq<Byte>, i: nat, e: nat)
    requires i <= e <= |b| && forall k :: i <= k < e ==> IsDigit(b[k])
    ensures DigitsEnd(b, i, e) == e
    decreases e - i
  {
    if i < e {
      AllDigits(b, i + 1, e);
    }
  }

  lemma DigitsTaken(n: nat)
    requires n > 0
    ensures NumberEnd(Times('7' as int, n), 0) == if n < 63 then n else 63
  {
    var b := Times('7' as int, n);
    hide Times;
    var e := RunEnd(b, 0, MAX_TOKEN);
    AllDigits(b, 0, e);
  }

  // Of a run of n digits the parser takes the first sixty-three.
  lemma LongNumber(n: nat)
    requires n > 0
    ensures var m := if n < 63 then n else 63;
            ParseAt(Times('7' as int, n)) == Parsed(Item(NumberItem, 0, m, 0), m)
  {
    DigitsTaken(n);
    var b := Times('7' as int, n);
    assert b[0] == 55;
    hide NumberEnd, Times, Skip, ArrayAt, ObjectAt, StringAt, At;
    NotAWord(b, 0);
    StartsVisible(b);
  }

  lemma StartsVisible(b: seq<Byte>)
    requires b != [] && b[0] == 55
    ensures Skip(b, MarkEnd(b)) == 0
  {
    if |b| > 4 && At(b, 0, BYTE_ORDER_MARK) {
      AtByte(b, 0, BYTE_ORDER_MARK, 0);
    }
  }
}
