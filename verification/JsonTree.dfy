// The trees that the printer of src/infra/infra_cjson.c takes, and the text it prints for them.
module JsonTree {
  import opened Bytes
  import opened JsonLex

  // A child list runs through `next`; the key of an item counts only in an object.
  // Strings are C strings, so they hold no zero byte; a number is the text sprintf makes of it.
  datatype Tree =
    | Null
    | False
    | True
    | Number(token: seq<Byte>)
    | Raw(text: seq<Byte>)
    | Text(text: seq<Byte>)
    | Array(child: Items)
    | Object(child: Items)

  datatype Items = NoItem | Item(key: seq<Byte>, value: Tree, next: Items)

  // ---------- strings (src/infra/infra_cjson.c:1155-1261) ----------

  const BACKSPACE: Byte := 8
  const TAB: Byte := 9
  const LINE_FEED: Byte := 10
  const FORM_FEED: Byte := 12
  const RETURN: Byte := 13
  const SPACE: Byte := 32

  // The letter of a one-character escape, or 0.
  function ShortEscape(c: Byte): Byte {
    if c == QUOTE || c == BACKSLASH then c
    else if c == BACKSPACE then 98
    else if c == FORM_FEED then 102
    else if c == LINE_FEED then 110
    else if c == RETURN then 114
    else if c == TAB then 116
    else 0
  }

  function HexDigit(n: int): Byte
    requires 0 <= n < 16
  {
    if n < 10 then 48 + n else 87 + n
  }

  function EscapeByte(c: Byte): (s: seq<Byte>)
    ensures 1 <= |s| <= 6
  {
    if ShortEscape(c) != 0 then [BACKSLASH, ShortEscape(c)]
    else if c < 32 then [BACKSLASH, 117, 48, 48, HexDigit(c / 16), HexDigit(c % 16)]
    else [c]
  }

  function Escape(s: seq<Byte>): seq<Byte> {
    if s == [] then [] else EscapeByte(s[0]) + Escape(s[1..])
  }

  function PrintString(s: seq<Byte>): seq<Byte> {
    [QUOTE] + Escape(s) + [QUOTE]
  }

  lemma EscapeIsPrefixFree(c: Byte, d: Byte, s: seq<Byte>, t: seq<Byte>)
    requires EscapeByte(c) + s == EscapeByte(d) + t
    ensures c == d && s == t
  {
    var x, y := EscapeByte(c), EscapeByte(d);
    assert (x + s)[0] == x[0] && (y + t)[0] == y[0];
    if |x| > 1 && |y| > 1 {
      assert (x + s)[1] == x[1] && (y + t)[1] == y[1];
      if |x| == 6 && |y| == 6 {
        assert (x + s)[4] == x[4] && (y + t)[4] == y[4];
        assert (x + s)[5] == x[5] && (y + t)[5] == y[5];
      }
    }
    assert c == d;
    assert (x + s)[|x|..] == s && (y + t)[|y|..] == t;
  }

  // Nothing is lost by escaping.
  lemma {:induction false} EscapeInjective(s: seq<Byte>, t: seq<Byte>)
    requires Escape(s) == Escape(t)
    ensures s == t
    decreases |s|
  {
    hide EscapeByte;
    if s != [] && t != [] {
      EscapeIsPrefixFree(s[0], t[0], Escape(s[1..]), Escape(t[1..]));
      EscapeInjective(s[1..], t[1..]);
      assert s == [s[0]] + s[1..] && t == [t[0]] + t[1..];
    }
  }

  lemma {:induction false} EscapeIsBody(s: seq<Byte>)
    ensures IsBody(Escape(s))
    decreases |s|
  {
    if s != [] {
      EscapeIsBody(s[1..]);
      EscapedByteIsBody(s[0], Escape(s[1..]));
    }
  }

  lemma EscapedByteIsBody(c: Byte, rest: seq<Byte>)
    requires IsBody(rest)
    ensures IsBody(EscapeByte(c) + rest)
  {
    var e := EscapeByte(c);
    if |e| == 1 {
      assert (e + rest)[1..] == rest;
    } else if |e| == 2 {
      assert (e + rest)[2..] == rest;
    } else {
      var t := (e + rest)[2..];
      assert t == [48, 48, e[4], e[5]] + rest;
      assert t[1..] == [48, e[4], e[5]] + rest && t[1..][1..] == [e[4], e[5]] + rest;
      assert t[1..][1..][1..] == [e[5]] + rest && t[1..][1..][1..][1..] == rest;
      assert IsBody([e[5]] + rest) && IsBody([e[4], e[5]] + rest) && IsBody([48, e[4], e[5]] + rest);
    }
  }

  lemma {:induction false} EscapeAppend(s: seq<Byte>, t: seq<Byte>)
    ensures Escape(s + t) == Escape(s) + Escape(t)
    decreases |s|
  {
    hide EscapeByte;
    if s == [] {
      assert s + t == t;
    } else {
      EscapeAppend(s[1..], t);
      assert (s + t)[1..] == s[1..] + t;
    }
  }

  // The counting pass sees one byte more.
  lemma EscapeStep(s: seq<Byte>, i: nat)
    requires i < |s|
    ensures Escape(s[..i + 1]) == Escape(s[..i]) + EscapeByte(s[i])
    ensures |Escape(s[..i + 1])| <= |Escape(s)|
  {
    hide EscapeByte;
    assert s[..i + 1] == s[..i] + [s[i]] && s == s[..i + 1] + s[i + 1..];
    assert Escape([s[i]]) == EscapeByte(s[i]) + Escape([]);
    EscapeAppend(s[..i], [s[i]]);
    EscapeAppend(s[..i + 1], s[i + 1..]);
  }

  // Escaping adds bytes unless there is nothing to escape.
  lemma {:induction false} EscapeLonger(s: seq<Byte>)
    ensures |s| <= |Escape(s)|
    ensures |s| == |Escape(s)| ==> Escape(s) == s
    decreases |s|
  {
    if s != [] {
      EscapeLonger(s[1..]);
      assert s == [s[0]] + s[1..];
    }
  }

  predicate NoZero(s: seq<Byte>) {
    forall i :: 0 <= i < |s| ==> s[i] != 0
  }

  lemma {:induction false} EscapeNoZero(s: seq<Byte>)
    requires NoZero(s)
    ensures NoZero(Escape(s))
    decreases |s|
  {
    if s != [] {
      EscapeNoZero(s[1..]);
      assert NoZero(EscapeByte(s[0]));
    }
  }

  // ---------- the printed text (src/infra/infra_cjson.c:1270-1430) ----------

  function Tabs(n: nat): (s: seq<Byte>)
    ensures |s| == n && forall i :: 0 <= i < n ==> s[i] == TAB
  {
    if n == 0 then [] else [TAB] + Tabs(n - 1)
  }

  // A piece that only the formatted print has.
  function If(format: bool, s: seq<Byte>): seq<Byte> {
    if format then s else []
  }

  function Print(t: Tree, format: bool, depth: nat): seq<Byte>
    decreases t, 2
  {
    match t
    case Null => NULL_TEXT
    case False => FALSE_TEXT
    case True => TRUE_TEXT
    case Number(token) => token
    case Raw(text) => text
    case Text(text) => PrintString(text)
    case Array(child) => [LEFT_BRACKET] + (PrintElements(child, format, depth + 1) + [RIGHT_BRACKET])
    case Object(child) =>
      ([LEFT_BRACE] + If(format, [LINE_FEED]))
      + (PrintMembers(child, format, depth + 1) + (If(format, Tabs(depth)) + [RIGHT_BRACE]))
  }

  function Separator(format: bool): seq<Byte> {
    [COMMA] + If(format, [SPACE])
  }

  // The first element of a list, with the comma behind it.
  function PrintElement(items: Items, format: bool, depth: nat): seq<Byte>
    requires items.Item?
    decreases items, 0
  {
    Print(items.value, format, depth) + if items.next.Item? then Separator(format) else []
  }

  function PrintElements(items: Items, format: bool, depth: nat): seq<Byte>
    decreases items, 1
  {
    if items.NoItem? then []
    else PrintElement(items, format, depth) + PrintElements(items.next, format, depth)
  }

  function PrintKey(key: seq<Byte>, format: bool, depth: nat): seq<Byte> {
    If(format, Tabs(depth)) + (PrintString(key) + ([COLON] + If(format, [TAB])))
  }

  // What follows the value of a member.
  function PrintBreak(items: Items, format: bool): seq<Byte>
    requires items.Item?
  {
    (if items.next.Item? then [COMMA] else []) + If(format, [LINE_FEED])
  }

  function PrintMember(items: Items, format: bool, depth: nat): seq<Byte>
    requires items.Item?
    decreases items, 0
  {
    PrintKey(items.key, format, depth) + (Print(items.value, format, depth) + PrintBreak(items, format))
  }

  function PrintMembers(items: Items, format: bool, depth: nat): seq<Byte>
    decreases items, 1
  {
    if items.NoItem? then []
    else PrintMember(items, format, depth) + PrintMembers(items.next, format, depth)
  }

  lemma Regroup(a: seq<Byte>, b: seq<Byte>, c: seq<Byte>, d: seq<Byte>)
    ensures ((a + b) + c) + d == a + (b + (c + d))
  {}

  // ---------- the trees the printer is given ----------

  // Every string ends at its own end: there is no zero byte in it.
  predicate IsCTree(t: Tree) {
    match t
    case Number(token) => NoZero(token)
    case Raw(text) => NoZero(text)
    case Text(text) => NoZero(text)
    case Array(child) => AreCItems(child)
    case Object(child) => AreCItems(child)
    case _ => true
  }

  predicate AreCItems(items: Items) {
    items.Item? ==> NoZero(items.key) && IsCTree(items.value) && AreCItems(items.next)
  }

  // The stack buffer for a number holds 25 bytes and a terminating zero.
  const NUMBER_SPACE: nat := 25

  predicate ShortNumbers(t: Tree) {
    match t
    case Number(token) => |token| <= NUMBER_SPACE
    case Array(child) => AllShortNumbers(child)
    case Object(child) => AllShortNumbers(child)
    case _ => true
  }

  predicate AllShortNumbers(items: Items) {
    items.Item? ==> ShortNumbers(items.value) && AllShortNumbers(items.next)
  }

  function Size(t: Tree): nat {
    match t
    case Array(child) => 1 + ItemsSize(child)
    case Object(child) => 1 + ItemsSize(child)
    case _ => 0
  }

  function ItemsSize(items: Items): nat {
    if items.NoItem? then 0 else 1 + Size(items.value) + ItemsSize(items.next)
  }
}
