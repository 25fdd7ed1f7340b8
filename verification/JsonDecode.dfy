// Reading a string body as section 7 of RFC 8259 describes it, and what the printer's escapes
// mean to such a reader.
module JsonDecode {
  import opened Bytes
  import opened JsonGrammar
  import opened JsonLex
  import opened JsonTree
  import opened Options

  // The character that a letter behind a backslash stands for.
  function Unescaped(letter: Byte): Option<Byte> {
    if letter == '"' as int || letter == '\\' as int || letter == '/' as int then Some(letter)
    else if letter == 'b' as int then Some(0x08)
    else if letter == 'f' as int then Some(0x0C)
    else if letter == 'n' as int then Some(0x0A)
    else if letter == 'r' as int then Some(0x0D)
    else if letter == 't' as int then Some(0x09)
    else None
  }

  function HexOf(c: Byte): Option<nat> {
    if '0' as int <= c <= '9' as int then Some(c - '0' as int)
    else if 'a' as int <= c <= 'f' as int then Some(c - 'a' as int + 10)
    else if 'A' as int <= c <= 'F' as int then Some(c - 'A' as int + 10)
    else None
  }

  // The code point of four hexadecimal digits.
  function CodePoint(a: Byte, b: Byte, c: Byte, d: Byte): (r: Option<nat>)
    ensures r.Some? ==> r.value < 0x1_0000
  {
    var x, y, z, w := HexOf(a), HexOf(b), HexOf(c), HexOf(d);
    if x.None? || y.None? || z.None? || w.None? then None
    else
      assert x.value < 16 && y.value < 16 && z.value < 16 && w.value < 16;
      Some(((x.value * 16 + y.value) * 16 + z.value) * 16 + w.value)
  }

  // The UTF-8 of a code point that is not half of a surrogate pair.
  function Utf8(p: nat): Option<seq<Byte>>
    requires p < 0x1_0000
  {
    if p < 0x80 then Some([p])
    else if p < 0x800 then Some([0xC0 + p / 0x40, 0x80 + p % 0x40])
    else if 0xD800 <= p < 0xE000 then None
    else Some([0xE0 + p / 0x1000, 0x80 + p / 0x40 % 0x40, 0x80 + p % 0x40])
  }

  function Joined(s: seq<Byte>, rest: Option<seq<Byte>>): Option<seq<Byte>> {
    if rest.None? then None else Some(s + rest.value)
  }

  // The bytes that a body stands for, or nothing when it is no body of the standard.  Two escapes
  // that together name one character are not read.
  function Decode(s: seq<Byte>): Option<seq<Byte>>
    decreases |s|
  {
    if s == [] then Some([])
    else if s[0] != '\\' as int then
      if s[0] < 0x20 || s[0] == '"' as int then None else Joined([s[0]], Decode(s[1..]))
    else if |s| >= 6 && s[1] == 'u' as int then
      var p := CodePoint(s[2], s[3], s[4], s[5]);
      if p.None? || Utf8(p.value).None? then None else Joined(Utf8(p.value).value, Decode(s[6..]))
    else if |s| >= 2 && Unescaped(s[1]).Some? then Joined([Unescaped(s[1]).value], Decode(s[2..]))
    else None
  }

  lemma DecodeByte(c: Byte, rest: seq<Byte>)
    ensures Decode(EscapeByte(c) + rest) == Joined([c], Decode(rest))
  {
    var e := EscapeByte(c);
    assert (e + rest)[|e|..] == rest;
    assert forall i :: 0 <= i < |e| ==> (e + rest)[i] == e[i];
  }

  // A reader gets the string that was printed.
  lemma {:induction false} DecodeEscape(s: seq<Byte>)
    ensures Decode(Escape(s)) == Some(s)
    decreases |s|
  {
    if s != [] {
      hide EscapeByte, Decode;
      DecodeEscape(s[1..]);
      DecodeByte(s[0], Escape(s[1..]));
      assert s == [s[0]] + s[1..];
    } else {
      assert Escape(s) == [];
    }
  }

  // What the printer writes between quotes is a body of the standard.
  lemma {:induction false} EscapeIsStrict(s: seq<Byte>)
    ensures StrictBody(Escape(s))
    decreases |s|
  {
    if s != [] {
      hide EscapeByte;
      EscapeIsStrict(s[1..]);
      EscapedByteIsStrict(s[0], Escape(s[1..]));
    }
  }

  lemma EscapedByteIsStrict(c: Byte, rest: seq<Byte>)
    requires StrictBody(rest)
    ensures StrictBody(EscapeByte(c) + rest)
  {
    var e := EscapeByte(c);
    assert (e + rest)[|e|..] == rest;
    assert forall i :: 0 <= i < |e| ==> (e + rest)[i] == e[i];
  }
}
