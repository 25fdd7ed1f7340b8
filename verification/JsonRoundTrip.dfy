// Printing, parsing and walking: the accessors of a printed tree give the tree back.
module JsonRoundTrip {
  import opened Bytes
  import opened JsonLex
  import opened JsonParser
  import opened JsonComplete
  import opened JsonDecode
  import opened JsonNavigate
  import opened JsonLookup
  import opened Options
  import G = JsonGrammar
  import T = JsonTree

  // Numbers are tokens, there is no raw text, and the elements of an array have no key.
  predicate Parsable(t: T.Tree) {
    match t
    case Number(token) => IsToken(token)
    case Raw(_) => false
    case Array(child) => AllParsable(child) && Unkeyed(child)
    case Object(child) => AllParsable(child)
    case _ => true
  }

  predicate Unkeyed(items: T.Items) {
    items.Item? ==> items.key == [] && Unkeyed(items.next)
  }

  predicate AllParsable(items: T.Items) {
    items.Item? ==> Parsable(items.value) && AllParsable(items.next)
  }

  function Depth(t: T.Tree): nat {
    match t
    case Array(child) => 1 + ItemsDepth(child)
    case Object(child) => 1 + ItemsDepth(child)
    case _ => 0
  }

  function ItemsDepth(items: T.Items): nat {
    if items.NoItem? then 0 else G.Max(Depth(items.value), ItemsDepth(items.next))
  }

  // ---------- the syntax tree of a printed text ----------

  function Syntax(t: T.Tree, format: bool, depth: nat): G.Value {
    match t
    case Null => G.Null
    case False => G.False
    case True => G.True
    case Number(token) => G.Number(token)
    case Raw(text) => G.Text(text)
    case Text(text) => G.Text(T.Escape(text))
    case Array(child) =>
      if child.NoItem? then G.EmptyArray([]) else G.Array(SyntaxElements(child, format, depth + 1, []))
    case Object(child) =>
      if child.NoItem? then G.EmptyObject(T.If(format, [T.LINE_FEED]) + T.If(format, T.Tabs(depth)))
      else G.Object(SyntaxMembers(child, format, depth + 1))
  }

  function SyntaxElements(items: T.Items, format: bool, depth: nat, pre: seq<Byte>): G.Elements
    requires items.Item?
    decreases items
  {
    var value := Syntax(items.value, format, depth);
    if items.next.NoItem? then G.LastElement(pre, value, [])
    else G.MoreElements(pre, value, [], SyntaxElements(items.next, format, depth, T.If(format, [T.SPACE])))
  }

  function SyntaxMembers(items: T.Items, format: bool, depth: nat): G.Members
    requires items.Item? && depth > 0
    decreases items
  {
    var value := Syntax(items.value, format, depth);
    var pre := T.If(format, [T.LINE_FEED]) + T.If(format, T.Tabs(depth));
    var colonGap := T.If(format, [T.TAB]);
    var key := T.Escape(items.key);
    if items.next.NoItem? then
      G.LastMember(pre, key, [], colonGap, value, T.If(format, [T.LINE_FEED]) + T.If(format, T.Tabs(depth - 1)))
    else G.MoreMembers(pre, key, [], colonGap, value, [], SyntaxMembers(items.next, format, depth))
  }

  lemma {:induction false} SyntaxOfPrint(t: T.Tree, format: bool, depth: nat)
    requires Parsable(t)
    ensures G.Render(Syntax(t, format, depth)) == T.Print(t, format, depth)
    decreases t
  {
    hide SyntaxElements, SyntaxMembers, G.RenderElements, G.RenderMembers, T.PrintElements, T.PrintMembers, T.Escape, T.Tabs;
    match t {
      case Array(child) => {
        if child.Item? {
          SyntaxOfElements(child, format, depth + 1, []);
        }
        ArrayUnfold(t, format, depth);
      }
      case Object(child) => {
        if child.Item? {
          SyntaxOfMembers(child, format, depth + 1);
        }
        ObjectUnfold(t, format, depth);
        hide *;
        ObjectPieces(T.If(format, [T.LINE_FEED]), T.PrintMembers(child, format, depth + 1), T.If(format, T.Tabs(depth)));
      }
      case _ => {}
    }
  }

  lemma ArrayUnfold(t: T.Tree, format: bool, depth: nat)
    requires t.Array?
    requires t.child.Item? ==> G.RenderElements(SyntaxElements(t.child, format, depth + 1, []))
                               == [] + T.PrintElements(t.child, format, depth + 1)
    ensures G.Render(Syntax(t, format, depth)) == T.Print(t, format, depth)
  {
    hide SyntaxElements, G.RenderElements;
    var inner := T.PrintElements(t.child, format, depth + 1);
    assert [] + inner == inner;
    Assoc([LEFT_BRACKET], inner, [RIGHT_BRACKET]);
  }

  lemma ObjectUnfold(t: T.Tree, format: bool, depth: nat)
    requires t.Object?
    ensures var line, last := T.If(format, [T.LINE_FEED]), T.If(format, T.Tabs(depth));
            && T.Print(t, format, depth) == ([LEFT_BRACE] + line) + (T.PrintMembers(t.child, format, depth + 1) + (last + [RIGHT_BRACE]))
            && (t.child.NoItem? ==> T.PrintMembers(t.child, format, depth + 1) == [])
            && G.Render(Syntax(t, format, depth))
               == [LEFT_BRACE] + (if t.child.NoItem? then line + last
                                  else G.RenderMembers(SyntaxMembers(t.child, format, depth + 1))) + [RIGHT_BRACE]
  {
    hide SyntaxMembers, G.RenderMembers, T.If, T.Tabs;
  }

  lemma ObjectPieces(line: seq<Byte>, members: seq<Byte>, last: seq<Byte>)
    ensures [LEFT_BRACE] + (line + (members + last)) + [RIGHT_BRACE]
            == ([LEFT_BRACE] + line) + (members + (last + [RIGHT_BRACE]))
    ensures members == [] ==> line + (members + last) == line + last
  {
    Assoc([LEFT_BRACE], line + (members + last), [RIGHT_BRACE]);
    Assoc(line, members + last, [RIGHT_BRACE]);
    Assoc(members, last, [RIGHT_BRACE]);
    Assoc([LEFT_BRACE], line, members + (last + [RIGHT_BRACE]));
    assert [] + last == last;
  }

  lemma {:induction false} SyntaxOfElements(items: T.Items, format: bool, depth: nat, pre: seq<Byte>)
    requires items.Item? && AllParsable(items)
    ensures G.RenderElements(SyntaxElements(items, format, depth, pre)) == pre + T.PrintElements(items, format, depth)
    decreases items
  {
    hide T.Print, G.Render, Syntax;
    SyntaxOfPrint(items.value, format, depth);
    if items.next.Item? {
      SyntaxOfElements(items.next, format, depth, T.If(format, [T.SPACE]));
    }
  }

  lemma {:induction false} SyntaxOfMembers(items: T.Items, format: bool, depth: nat)
    requires items.Item? && AllParsable(items) && depth > 0
    ensures G.RenderMembers(SyntaxMembers(items, format, depth))
            == T.If(format, [T.LINE_FEED]) + (T.PrintMembers(items, format, depth) + T.If(format, T.Tabs(depth - 1)))
    decreases items
  {
    var line, tabs := T.If(format, [T.LINE_FEED]), T.If(format, T.Tabs(depth));
    var last := T.If(format, T.Tabs(depth - 1));
    var key, colon := T.PrintString(items.key), [COLON] + T.If(format, [T.TAB]);
    var value := T.Print(items.value, format, depth);
    var after := T.PrintMembers(items.next, format, depth);
    var rest := if items.next.Item? then G.RenderMembers(SyntaxMembers(items.next, format, depth)) else [];
    SyntaxOfPrint(items.value, format, depth);
    if items.next.Item? {
      SyntaxOfMembers(items.next, format, depth);
    }
    MembersUnfold(items, format, depth);
    hide *;
    if items.next.Item? {
      MorePieces(line, tabs, key, colon, value, after, last);
    } else {
      LastPieces(line, tabs, key, colon, value, last);
    }
  }

  // Both texts of a member list, cut at its first member.
  lemma MembersUnfold(items: T.Items, format: bool, depth: nat)
    requires items.Item? && depth > 0
    ensures var line, tabs := T.If(format, [T.LINE_FEED]), T.If(format, T.Tabs(depth));
            var last := T.If(format, T.Tabs(depth - 1));
            var key, colon := T.PrintString(items.key), [COLON] + T.If(format, [T.TAB]);
            var value := T.Print(items.value, format, depth);
            var tree := G.Render(Syntax(items.value, format, depth));
            var after := T.PrintMembers(items.next, format, depth);
            && T.PrintMembers(items, format, depth)
               == ((tabs + (key + colon)) + (value + ((if items.next.Item? then [COMMA] else []) + line))) + after
            && (items.next.NoItem? ==> after == [])
            && G.RenderMembers(SyntaxMembers(items, format, depth))
               == if items.next.NoItem? then ((line + tabs) + (key + ([] + colon))) + (tree + (line + last))
                  else (((line + tabs) + (key + ([] + colon))) + (tree + []))
                       + ([COMMA] + G.RenderMembers(SyntaxMembers(items.next, format, depth)))
  {
    hide T.Print, G.Render, Syntax, T.Escape, T.Tabs, T.If;
  }

  lemma Assoc(a: seq<Byte>, b: seq<Byte>, c: seq<Byte>)
    ensures (a + b) + c == a + (b + c)
  {}

  // A member up to its value, with the line break in front of it.
  lemma KeyPieces(line: seq<Byte>, tabs: seq<Byte>, key: seq<Byte>, colon: seq<Byte>, tail: seq<Byte>)
    ensures ((line + tabs) + (key + ([] + colon))) + tail == line + ((tabs + (key + colon)) + tail)
  {
    assert [] + colon == colon;
    Assoc(line, tabs, key + colon);
    Assoc(line, tabs + (key + colon), tail);
  }

  lemma LastPieces(line: seq<Byte>, tabs: seq<Byte>, key: seq<Byte>, colon: seq<Byte>, value: seq<Byte>, last: seq<Byte>)
    ensures ((line + tabs) + (key + ([] + colon))) + (value + (line + last))
            == line + ((((tabs + (key + colon)) + (value + ([] + line))) + []) + last)
  {
    var head := tabs + (key + colon);
    KeyPieces(line, tabs, key, colon, value + (line + last));
    assert [] + line == line && (head + (value + line)) + [] == head + (value + line);
    Assoc(head, value + line, last);
    Assoc(value, line, last);
  }

  lemma MorePieces(line: seq<Byte>, tabs: seq<Byte>, key: seq<Byte>, colon: seq<Byte>, value: seq<Byte>, after: seq<Byte>, last: seq<Byte>)
    ensures (((line + tabs) + (key + ([] + colon))) + (value + [])) + ([COMMA] + (line + (after + last)))
            == line + ((((tabs + (key + colon)) + (value + ([COMMA] + line))) + after) + last)
  {
    var head := tabs + (key + colon);
    assert value + [] == value;
    KeyPieces(line, tabs, key, colon, value);
    Assoc(line, head + value, [COMMA] + (line + (after + last)));
    Assoc(head, value, [COMMA] + (line + (after + last)));
    Assoc([COMMA], line, after + last);
    Assoc(value, [COMMA] + line, after + last);
    Assoc(head, value + ([COMMA] + line), after + last);
    Assoc(head + (value + ([COMMA] + line)), after, last);
  }

  lemma {:induction false} SyntaxWellFormed(t: T.Tree, format: bool, depth: nat)
    requires Parsable(t)
    ensures G.WellFormed(Syntax(t, format, depth)) && G.Height(Syntax(t, format, depth)) == Depth(t)
    decreases t
  {
    hide SyntaxElements, SyntaxMembers, G.WellFormedElements, G.WellFormedMembers, G.HeightElements, G.HeightMembers,
      IsBody, IsToken, T.Escape, AllSpace, T.Tabs;
    match t
    case Text(text) => T.EscapeIsBody(text);
    case Array(child) =>
      NoSpace();
      if child.Item? {
        ElementsWellFormed(child, format, depth + 1, []);
      }
    case Object(child) =>
      LineIsSpace(format, depth);
      if child.Item? {
        MembersWellFormed(child, format, depth + 1);
      }
    case _ =>
  }

  lemma NoSpace()
    ensures AllSpace([])
  {}

  lemma LineIsSpace(format: bool, depth: nat)
    ensures AllSpace(T.If(format, [T.LINE_FEED]) + T.If(format, T.Tabs(depth)))
  {}

  lemma {:induction false} ElementsWellFormed(items: T.Items, format: bool, depth: nat, pre: seq<Byte>)
    requires items.Item? && AllParsable(items) && AllSpace(pre)
    ensures var es := SyntaxElements(items, format, depth, pre);
            G.WellFormedElements(es) && G.HeightElements(es) == ItemsDepth(items) && G.CountElements(es) == Length(items)
    decreases items
  {
    SyntaxWellFormed(items.value, format, depth);
    if items.next.Item? {
      ElementsWellFormed(items.next, format, depth, T.If(format, [T.SPACE]));
    }
  }

  lemma {:induction false} MembersWellFormed(items: T.Items, format: bool, depth: nat)
    requires items.Item? && AllParsable(items) && depth > 0
    ensures var ms := SyntaxMembers(items, format, depth);
            G.WellFormedMembers(ms) && G.HeightMembers(ms) == ItemsDepth(items) && G.CountMembers(ms) == Length(items)
    decreases items
  {
    hide IsBody;
    T.EscapeIsBody(items.key);
    SyntaxWellFormed(items.value, format, depth);
    if items.next.Item? {
      MembersWellFormed(items.next, format, depth);
    }
  }

  function Length(items: T.Items): nat {
    if items.NoItem? then 0 else 1 + Length(items.next)
  }

  // ---------- walking ----------

  // What the accessors see of lite in b is the tree t: its kind, the string that a reader of section 7
  // of RFC 8259 makes of its span, its number of entries, and the entries in their order.
  predicate Denotes(b: seq<Byte>, lite: Item, t: T.Tree)
    decreases t, 1
  {
    && Inside(b, lite)
    && match t
       case Null => lite.kind == NullItem
       case False => lite.kind == FalseItem
       case True => lite.kind == TrueItem
       case Number(token) => lite.kind == NumberItem && TextOf(b, lite) == token
       case Raw(_) => false
       case Text(text) => lite.kind == StringItem && Decode(TextOf(b, lite)) == Some(text)
       case Array(child) => lite.kind == ArrayItem && DenotesElements(b, lite, 0, child)
       case Object(child) => lite.kind == ObjectItem && DenotesMembers(b, lite, 0, child)
  }

  predicate DenotesElements(b: seq<Byte>, lite: Item, k: nat, items: T.Items)
    requires Inside(b, lite)
    decreases items, 0
  {
    if items.NoItem? then lite.size == k
    else
      var found := Element(b, lite, k);
      found.Found? && Denotes(b, found.item, items.value) && DenotesElements(b, lite, k + 1, items.next)
  }

  predicate DenotesMembers(b: seq<Byte>, lite: Item, k: nat, items: T.Items)
    requires Inside(b, lite)
    decreases items, 0
  {
    if items.NoItem? then lite.size == k
    else
      var found := MemberByIndex(b, lite, k);
      && found.AMember? && Inside(b, found.key) && found.key.kind == StringItem
      && Decode(TextOf(b, found.key)) == Some(items.key)
      && Denotes(b, found.value, items.value) && DenotesMembers(b, lite, k + 1, items.next)
  }

  function Drop(items: T.Items, k: nat): T.Items {
    if k == 0 || items.NoItem? then items else Drop(items.next, k - 1)
  }

  lemma {:induction false} DropStep(items: T.Items, k: nat)
    requires k <= Length(items) && AllParsable(items)
    ensures Drop(items, k).Item? <==> k < Length(items)
    ensures k < Length(items) ==> Drop(items, k).next == Drop(items, k + 1)
    ensures AllParsable(Drop(items, k))
    decreases k
  {
    if k > 0 {
      DropStep(items.next, k - 1);
    }
  }

  lemma {:induction false} NthOfSyntax(items: T.Items, format: bool, depth: nat, pre: seq<Byte>, o: nat, k: nat)
    requires k < Length(items)
    ensures var n := NthElement(SyntaxElements(items, format, depth, pre), o, k);
            Drop(items, k).Item? && n.Node? && n.value == Syntax(Drop(items, k).value, format, depth)
    decreases k
  {
    hide G.Render, Syntax, T.If;
    if k > 0 {
      var value := Syntax(items.value, format, depth);
      NthOfSyntax(items.next, format, depth, T.If(format, [T.SPACE]), o + |pre| + |G.Render(value)| + 1, k - 1);
    }
  }

  lemma {:induction false} MemberOfSyntax(items: T.Items, format: bool, depth: nat, k: nat)
    requires k < Length(items) && depth > 0
    ensures var m := NthMember(SyntaxMembers(items, format, depth), k);
            && Drop(items, k).Item?
            && m.key == T.Escape(Drop(items, k).key) && m.value == Syntax(Drop(items, k).value, format, depth)
    decreases k
  {
    hide Syntax, T.If, T.Escape, T.Tabs;
    if k > 0 {
      MemberOfSyntax(items.next, format, depth, k - 1);
    }
  }

  lemma {:induction false} WalkValue(b: seq<Byte>, n: Node, t: T.Tree, format: bool, depth: nat)
    requires Parsable(t) && n.Node? && n.value == Syntax(t, format, depth) && Stands(b, n)
    ensures Denotes(b, ItemOf(n.value, n.at), t)
    decreases T.Size(t), 1
  {
    hide Element, MemberByIndex, Stands, SyntaxElements, SyntaxMembers, T.Escape, T.If, T.Tabs, IsToken;
    match t {
      case Array(child) => {
        StandsInside(b, n);
        if child.Item? {
          WalkElements(b, n, child, 0, format, depth + 1);
          ElementsWellFormed(child, format, depth + 1, []);
        }
      }
      case Object(child) => {
        StandsInside(b, n);
        if child.Item? {
          WalkMembers(b, n, child, 0, format, depth + 1);
          MembersWellFormed(child, format, depth + 1);
        }
      }
      case _ => WalkLeaf(b, n, t, format, depth);
    }
  }

  lemma WalkLeaf(b: seq<Byte>, n: Node, t: T.Tree, format: bool, depth: nat)
    requires Parsable(t) && n.Node? && n.value == Syntax(t, format, depth) && Stands(b, n) && !t.Array? && !t.Object?
    ensures Denotes(b, ItemOf(n.value, n.at), t)
  {
    hide Decode, Element, MemberByIndex, T.Escape, IsToken, G.WellFormed;
    if t.Text? {
      BodyStands(b, n.at, T.Escape(t.text));
      DecodeEscape(t.text);
    }
  }

  lemma BodyStands(b: seq<Byte>, o: nat, body: seq<Byte>)
    requires At(b, o, G.Quoted(body))
    ensures o + 1 + |body| <= |b| && b[o + 1..o + 1 + |body|] == body
  {
    AtSplit(b, o, [QUOTE] + body, [QUOTE]);
    AtSplit(b, o, [QUOTE], body);
  }

  lemma {:induction false} WalkElements(b: seq<Byte>, n: Node, child: T.Items, k: nat, format: bool, depth: nat)
    requires AllParsable(child) && child.Item? && k <= Length(child) && n.Node? && Stands(b, n)
    requires n.value == G.Array(SyntaxElements(child, format, depth, []))
    ensures Inside(b, ItemOf(n.value, n.at))
    ensures DenotesElements(b, ItemOf(n.value, n.at), k, Drop(child, k))
    decreases T.ItemsSize(Drop(child, k)), 0
  {
    hide Element, Denotes, Stands, Syntax, SyntaxElements, NthElement, G.Render, G.WellFormedElements, Drop;
    ElementsWellFormed(child, format, depth, []);
    ElementIsNode(b, n, k);
    DropStep(child, k);
    if k < Length(child) {
      NthOfSyntax(child, format, depth, [], n.at + 1, k);
      WalkValue(b, ElementNode(n, k), Drop(child, k).value, format, depth);
      WalkElements(b, n, child, k + 1, format, depth);
    }
  }

  lemma {:induction false} WalkMembers(b: seq<Byte>, n: Node, child: T.Items, k: nat, format: bool, depth: nat)
    requires AllParsable(child) && child.Item? && k <= Length(child) && depth > 0 && n.Node? && Stands(b, n)
    requires n.value == G.Object(SyntaxMembers(child, format, depth))
    ensures Inside(b, ItemOf(n.value, n.at))
    ensures DenotesMembers(b, ItemOf(n.value, n.at), k, Drop(child, k))
    decreases T.ItemsSize(Drop(child, k)), 0
  {
    hide Decode, MemberByIndex, Denotes, Stands, Syntax, SyntaxMembers, NthMember, MemberPosition, G.Render, G.RenderKey,
      G.WellFormedMembers, Drop, T.Escape, At;
    MembersWellFormed(child, format, depth);
    MemberByIndexIsMember(b, n, k);
    DropStep(child, k);
    if k < Length(child) {
      var ms := n.value.members;
      var m, o := NthMember(ms, k), MemberPosition(ms, n.at + 1, k);
      MemberOfSyntax(child, format, depth, k);
      KeyStands(b, o, m);
      DecodeEscape(Drop(child, k).key);
      WalkValue(b, Node(m.value, o + |G.RenderKey(m)|), Drop(child, k).value, format, depth);
      WalkMembers(b, n, child, k + 1, format, depth);
    }
  }

  // Parsing either printed form of a tree that nests at most 1000 deep succeeds, spans the whole text,
  // and the accessors give the tree back.
  lemma PrintParseWalk(t: T.Tree, format: bool)
    requires Parsable(t) && Depth(t) <= NESTING_LIMIT
    ensures var text := T.Print(t, format, 0); var r := ParseAt(text);
            && r.Parsed? && r.next == |text|
            && Denotes(text, r.item, t)
  {
    hide G.Render, T.Print, ParseAt, Denotes, Syntax, G.WellFormed, ItemOf;
    var v := Syntax(t, format, 0);
    SyntaxOfPrint(t, format, 0);
    SyntaxWellFormed(t, format, 0);
    TextsAccepted([], v, []);
    assert [] + G.Render(v) + [] == G.Render(v);
    WalkValue(G.Render(v), Node(v, 0), t, format, 0);
  }

  // ---------- the printed text is a text of the standard ----------

  // The number tokens are numbers of section 6 of RFC 8259.
  ghost predicate StandardNumbers(t: T.Tree) {
    match t
    case Number(token) => G.StrictNumber(token)
    case Array(child) => AllStandardNumbers(child)
    case Object(child) => AllStandardNumbers(child)
    case _ => true
  }

  ghost predicate AllStandardNumbers(items: T.Items) {
    items.Item? ==> StandardNumbers(items.value) && AllStandardNumbers(items.next)
  }

  // Both printed forms of a tree are texts of RFC 8259.
  lemma PrintIsStandard(t: T.Tree, format: bool)
    requires Parsable(t) && StandardNumbers(t)
    ensures exists v: G.Value :: G.Strict(v) && G.Render(v) == T.Print(t, format, 0)
  {
    hide G.Strict, G.Render, T.Print;
    SyntaxIsStrict(t, format, 0);
    SyntaxOfPrint(t, format, 0);
    assert G.Strict(Syntax(t, format, 0));
  }

  lemma {:induction false} SyntaxIsStrict(t: T.Tree, format: bool, depth: nat)
    requires Parsable(t) && StandardNumbers(t)
    ensures G.Strict(Syntax(t, format, depth))
    decreases t
  {
    hide SyntaxElements, SyntaxMembers, G.StrictElements, G.StrictMembers, G.StrictBody, G.StrictNumber, G.StrictSpace,
      T.Escape, T.Tabs;
    match t
    case Text(text) => EscapeIsStrict(text);
    case Array(child) =>
      PrintedSpace(format, 0);
      if child.Item? {
        ElementsAreStrict(child, format, depth + 1, []);
      }
    case Object(child) =>
      PrintedSpace(format, depth);
      if child.Item? {
        MembersAreStrict(child, format, depth + 1);
      }
    case _ =>
  }

  lemma PrintedSpace(format: bool, depth: nat)
    ensures G.StrictSpace([]) && G.StrictSpace(T.If(format, [T.SPACE])) && G.StrictSpace(T.If(format, [T.TAB]))
    ensures G.StrictSpace(T.If(format, [T.LINE_FEED]) + T.If(format, T.Tabs(depth)))
  {}

  lemma {:induction false} ElementsAreStrict(items: T.Items, format: bool, depth: nat, pre: seq<Byte>)
    requires items.Item? && AllParsable(items) && AllStandardNumbers(items) && G.StrictSpace(pre)
    ensures G.StrictElements(SyntaxElements(items, format, depth, pre))
    decreases items
  {
    hide Syntax, G.Strict, G.StrictSpace;
    PrintedSpace(format, 0);
    SyntaxIsStrict(items.value, format, depth);
    if items.next.Item? {
      ElementsAreStrict(items.next, format, depth, T.If(format, [T.SPACE]));
    }
  }

  lemma {:induction false} MembersAreStrict(items: T.Items, format: bool, depth: nat)
    requires items.Item? && AllParsable(items) && AllStandardNumbers(items) && depth > 0
    ensures G.StrictMembers(SyntaxMembers(items, format, depth))
    decreases items
  {
    hide Syntax, G.Strict, G.StrictSpace, G.StrictBody, T.Escape, T.Tabs, T.If;
    PrintedSpace(format, depth);
    PrintedSpace(format, depth - 1);
    EscapeIsStrict(items.key);
    SyntaxIsStrict(items.value, format, depth);
    if items.next.Item? {
      MembersAreStrict(items.next, format, depth);
    }
  }

  // What the accessors see is one tree only.
  lemma {:induction false} DenotesOneTree(b: seq<Byte>, lite: Item, t: T.Tree, u: T.Tree)
    requires Denotes(b, lite, t) && Denotes(b, lite, u) && Parsable(t) && Parsable(u)
    ensures t == u
    decreases t, 1
  {
    hide Element, MemberByIndex, Decode;
    match t
    case Array(child) => DenotesOneList(b, lite, 0, child, u.child);
    case Object(child) => DenotesOneObject(b, lite, 0, child, u.child);
    case _ =>
  }

  lemma {:induction false} DenotesOneList(b: seq<Byte>, lite: Item, k: nat, s: T.Items, t: T.Items)
    requires Inside(b, lite) && lite.kind == ArrayItem && DenotesElements(b, lite, k, s) && DenotesElements(b, lite, k, t)
    requires AllParsable(s) && AllParsable(t) && Unkeyed(s) && Unkeyed(t)
    ensures s == t
    decreases s, 0
  {
    hide NthFrom, Seen;
    if s.Item? && t.Item? {
      DenotesOneTree(b, Element(b, lite, k).item, s.value, t.value);
      DenotesOneList(b, lite, k + 1, s.next, t.next);
    }
  }

  lemma {:induction false} DenotesOneObject(b: seq<Byte>, lite: Item, k: nat, s: T.Items, t: T.Items)
    requires Inside(b, lite) && lite.kind == ObjectItem && DenotesMembers(b, lite, k, s) && DenotesMembers(b, lite, k, t)
    requires AllParsable(s) && AllParsable(t)
    ensures s == t
    decreases s, 0
  {
    hide NthPairFrom, Decode, IsObjectText;
    if s.Item? && t.Item? {
      DenotesOneTree(b, MemberByIndex(b, lite, k).value, s.value, t.value);
      DenotesOneObject(b, lite, k + 1, s.next, t.next);
    }
  }
}
