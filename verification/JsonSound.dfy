// What the parser accepts: exactly the buffers that begin with a value of the grammar,
// or with one that lacks only copies of the closing bracket at the end of the buffer.
module JsonSound {
  import opened Bytes
  import opened JsonLex
  import opened JsonGrammar
  import opened JsonParser
  import opened JsonComplete
  import opened JsonClosing

  lemma AtSlice(b: seq<Byte>, i: nat, j: nat)
    requires i <= j <= |b|
    ensures At(b, i, b[i..j]) && |b[i..j]| == j - i
  {}

  lemma AtOne(b: seq<Byte>, i: nat)
    requires i < |b|
    ensures At(b, i, [b[i]])
  {
    assert b[i..i + 1] == [b[i]];
  }

  // A skip that moved forward onto a visible byte skipped only whitespace.
  lemma Gap(b: seq<Byte>, i: nat)
    requires 0 < |b| && i <= |b| && i <= Skip(b, i) && !IsSpace(b[Skip(b, i)])
    ensures AllSpace(b[i..Skip(b, i)])
  {}

  // A list between its brackets, the right one perhaps behind the buffer.
  lemma Enclosed(b: seq<Byte>, k: nat, o: nat, left: Byte, inner: seq<Byte>, right: Byte, close: nat)
    requires b != [] && o < |b| && b[o] == left && At(Closed(b, k), o + 1, inner)
    requires o + 1 + |inner| == close + k && close < |b| && b[close] == right && (k > 0 ==> close == |b| - 1)
    ensures At(Closed(b, k), o, [left] + inner + [right])
  {
    hide At, Closed;
    var c := Closed(b, k);
    ClosedBytes(b, k);
    AtOne(c, o);
    AtOne(c, close + k);
    AtSplit(c, o, [left], inner);
    AtSplit(c, o, [left] + inner, [right]);
  }

  lemma NoDigits(b: seq<Byte>, o: nat)
    requires o == |b| - 1 && b[o] == MINUS
    ensures NumberEnd(b, o) == o
  {
    assert RunEnd(b, o, MAX_TOKEN) <= |b|;
    assert SignEnd(b, o, RunEnd(b, o, MAX_TOKEN)) <= |b|;
  }

  // The only value that fits into the last byte is a digit; an opening bracket there calls the parser
  // on itself until the nesting limit stops it.
  lemma {:induction false} LastByteValue(b: seq<Byte>, o: nat, d: nat)
    requires o == |b| - 1 && ValueAt(b, o, d).Parsed?
    ensures IsDigit(b[o])
    decreases NESTING_LIMIT - d
  {
    if b[o] == MINUS {
      NoDigits(b, o);
    } else if b[o] == LEFT_BRACKET {
      if ValueAt(b, o, d + 1).Parsed? {
        LastByteValue(b, o, d + 1);
      }
    }
  }

  // A value ends at e in the buffer closed k times, and the parser stopped at next.
  predicate EndsAt(b: seq<Byte>, k: nat, e: nat, next: nat) {
    e == next + k && next <= |b| && (k > 0 ==> next == |b|)
  }

  lemma {:induction false} SoundValue(b: seq<Byte>, o: nat, d: nat) returns (v: Value, k: nat)
    requires o < |b| && d <= NESTING_LIMIT && ValueAt(b, o, d).Parsed?
    ensures WellFormed(v) && Stands(b, k, o, v) && Height(v) + d <= NESTING_LIMIT
    ensures ValueAt(b, o, d) == Cut(Reported(v, o, d), |b|) && EndsAt(b, k, o + |Render(v)|, ValueAt(b, o, d).next)
    decreases NESTING_LIMIT - d, 2
  {
    hide Skip, ArrayAt, ObjectAt, NumberEnd, QuoteFrom, IsToken, At, Closed;
    k := 0;
    ClosedBytes(b, 0);
    if At(b, o, NULL_TEXT) {
      v := Null;
    } else if At(b, o, FALSE_TEXT) {
      v := False;
    } else if At(b, o, TRUE_TEXT) {
      v := True;
    } else if b[o] == QUOTE {
      var body := SoundString(b, o);
      v := Text(body);
    } else if b[o] == MINUS || IsDigit(b[o]) {
      TakenIsToken(b, o);
      AtSlice(b, o, NumberEnd(b, o));
      v := Number(b[o..NumberEnd(b, o)]);
    } else if b[o] == LEFT_BRACKET {
      v, k := SoundArray(b, o, d);
    } else {
      v, k := SoundObject(b, o, d);
    }
    StandingValue(b, k, o, d, v);
    StandEnd(b, k, o, v);
  }

  lemma StandEnd(b: seq<Byte>, k: nat, o: nat, v: Value)
    requires b != [] && o <= |b| && Stands(b, k, o, v)
    ensures EndsAt(b, k, o + |Render(v)|, if k == 0 then o + |Render(v)| else |b|)
  {
    hide Render;
    ClosedBytes(b, k);
  }

  lemma SoundString(b: seq<Byte>, o: nat) returns (body: seq<Byte>)
    requires o < |b| && StringAt(b, o).Parsed?
    ensures IsBody(body) && At(b, o, Quoted(body)) && StringAt(b, o).next == o + |body| + 2
  {
    hide IsBody, QuoteFrom;
    BodyBeforeQuote(b, o + 1);
    body := b[o + 1..QuoteFrom(b, o + 1)];
    assert b[o..QuoteFrom(b, o + 1) + 1] == Quoted(body);
  }

  lemma {:induction false} SoundArray(b: seq<Byte>, o: nat, d: nat) returns (v: Value, k: nat)
    requires o < |b| && ArrayAt(b, o, d).Parsed?
    ensures (v.EmptyArray? || v.Array?) && WellFormed(v) && Stands(b, k, o, v)
    decreases NESTING_LIMIT - d, 1
  {
    hide At, Skip, ElementsFrom, RenderElements, WellFormedElements, Closed;
    var s := Skip(b, o + 1);
    if b[s] == RIGHT_BRACKET {
      Gap(b, o + 1);
      v, k := EmptyArray(b[o + 1..s]), 0;
      AtSlice(b, o + 1, s);
      ClosedBytes(b, 0);
      Enclosed(b, 0, o, LEFT_BRACKET, v.gap, RIGHT_BRACKET, s);
    } else {
      var es;
      es, k := SoundElements(b, o + 1, d, 0);
      v := Array(es);
      Enclosed(b, k, o, LEFT_BRACKET, RenderElements(es), RIGHT_BRACKET, ElementsFrom(b, s, d, 0).close);
    }
  }

  lemma {:induction false} SoundElements(b: seq<Byte>, o: nat, d: nat, n: nat) returns (es: Elements, k: nat)
    requires 0 < o <= |b| && d < NESTING_LIMIT && (b[o - 1] == LEFT_BRACKET || b[o - 1] == COMMA)
    requires var list := ElementsFrom(b, Skip(b, o), d, n); list.Listed? && b[list.close] == RIGHT_BRACKET
    ensures WellFormedElements(es) && At(Closed(b, k), o, RenderElements(es))
    ensures EndsAt(b, k, o + |RenderElements(es)| + 1, ElementsFrom(b, Skip(b, o), d, n).close + 1)
    decreases NESTING_LIMIT - d, 0, |b| - o
  {
    hide At, Skip, ElementsFrom, ValueAt, Render, WellFormed, Whole, NumberEnd, Closed;
    var s := Skip(b, o);
    ElementsStep(b, s, d, n);
    SkipIsForward(b, o, s, d + 1);
    AtSlice(b, o, s);
    var v, j := SoundValue(b, s, d + 1);
    var e := ValueAt(b, s, d + 1).next;
    var p := Skip(b, e);
    if e < |b| && b[p] == COMMA {
      SkipToMark(b, e);
      var rest;
      rest, k := SoundElements(b, p + 1, d, n + 1);
      es := MoreElements(b[o..s], v, b[e..p], rest);
      ElementInside(b, k, o, s, e, p, v);
      AtOne(b, p);
      Inside(b, k, p, [COMMA]);
      AtSplit(Closed(b, k), p, [COMMA], RenderElements(rest));
      AtSplit(Closed(b, k), o, b[o..s] + (Render(v) + b[e..p]), [COMMA] + RenderElements(rest));
    } else if e < |b| {
      SkipToMark(b, e);
      k := 0;
      es := LastElement(b[o..s], v, b[e..p]);
      ElementInside(b, k, o, s, e, p, v);
    } else {
      NothingAfterComma(b, d, n + 1);
      SkipLast(b);
      k := j + 1;
      es := LastElement(b[o..s], v, []);
      AtEnd(b, j, o, s, v);
    }
  }

  // An element inside of the buffer.
  lemma ElementInside(b: seq<Byte>, k: nat, o: nat, s: nat, e: nat, p: nat, v: Value)
    requires o <= s <= e <= p <= |b| && 0 < |b| && At(Closed(b, 0), s, Render(v)) && s + |Render(v)| == e
    ensures At(Closed(b, k), o, b[o..s] + (Render(v) + b[e..p]))
  {
    hide At, Render, Closed;
    var c := Closed(b, k);
    AtSlice(b, o, s);
    AtSlice(b, e, p);
    Inside(b, k, o, b[o..s]);
    Inside(b, 0, s, Render(v));
    Inside(b, k, s, Render(v));
    Inside(b, k, e, b[e..p]);
    AtSplit(c, s, Render(v), b[e..p]);
    AtSplit(c, o, b[o..s], Render(v) + b[e..p]);
  }

  // A last element that ends with the buffer or lacks j brackets.
  lemma AtEnd(b: seq<Byte>, j: nat, o: nat, s: nat, v: Value)
    requires o <= s <= |b| && 0 < |b| && At(Closed(b, j), s, Render(v)) && s + |Render(v)| == |b| + j
    ensures At(Closed(b, j + 1), o, b[o..s] + (Render(v) + []))
  {
    hide At, Render, Closed;
    AtSlice(b, o, s);
    Inside(b, j + 1, o, b[o..s]);
    Within(b, j + 1, j, s, Render(v));
    AtSplit(Closed(b, j + 1), o, b[o..s], Render(v));
    assert Render(v) + [] == Render(v);
  }

  lemma {:induction false} SoundObject(b: seq<Byte>, o: nat, d: nat) returns (v: Value, k: nat)
    requires o < |b| && ObjectAt(b, o, d).Parsed?
    ensures (v.EmptyObject? || v.Object?) && WellFormed(v) && Stands(b, k, o, v)
    decreases NESTING_LIMIT - d, 1
  {
    hide At, Skip, PairsFrom, RenderMembers, WellFormedMembers, Closed;
    var s := Skip(b, o + 1);
    if b[s] == RIGHT_BRACE {
      Gap(b, o + 1);
      v, k := EmptyObject(b[o + 1..s]), 0;
      AtSlice(b, o + 1, s);
      ClosedBytes(b, 0);
      Enclosed(b, 0, o, LEFT_BRACE, v.gap, RIGHT_BRACE, s);
    } else {
      var ms;
      ms, k := SoundMembers(b, o + 1, d, 0);
      v := Object(ms);
      Enclosed(b, k, o, LEFT_BRACE, RenderMembers(ms), RIGHT_BRACE, PairsFrom(b, s, d, 0).close);
    }
  }

  lemma {:induction false} SoundMembers(b: seq<Byte>, o: nat, d: nat, n: nat) returns (ms: Members, k: nat)
    requires 0 < o <= |b| && d < NESTING_LIMIT
    requires var list := PairsFrom(b, Skip(b, o), d, n); list.Listed? && b[list.close] == RIGHT_BRACE
    ensures WellFormedMembers(ms) && At(Closed(b, k), o, RenderMembers(ms))
    ensures EndsAt(b, k, o + |RenderMembers(ms)| + 1, PairsFrom(b, Skip(b, o), d, n).close + 1)
    decreases NESTING_LIMIT - d, 0, |b| - o, 1
  {
    hide At, Skip, PairsFrom, PairAt, Render, RenderKey, WellFormed, Whole, NumberEnd, Closed;
    PairsStep(b, Skip(b, o), d, n);
    var m, j := SoundPair(b, o, d + 1);
    var s := o + |RenderKey(m)|;
    var e := PairAt(b, Skip(b, o), d + 1).next;
    var p := Skip(b, e);
    if e < |b| && b[p] == COMMA {
      SkipToMark(b, e);
      var rest;
      rest, k := SoundMembers(b, p + 1, d, n + 1);
      ms := MoreMembers(m.pre, m.key, m.gap, m.colonGap, m.value, b[e..p], rest);
      KeyKept(b, m, ms, o, s);
      ElementInside(b, k, o, s, e, p, m.value);
      AtOne(b, p);
      Inside(b, k, p, [COMMA]);
      AtSplit(Closed(b, k), p, [COMMA], RenderMembers(rest));
      AtSplit(Closed(b, k), o, RenderKey(ms) + (Render(m.value) + b[e..p]), [COMMA] + RenderMembers(rest));
    } else if e < |b| {
      SkipToMark(b, e);
      k := 0;
      ms := LastMember(m.pre, m.key, m.gap, m.colonGap, m.value, b[e..p]);
      KeyKept(b, m, ms, o, s);
      ElementInside(b, k, o, s, e, p, m.value);
    } else {
      NothingAfterComma(b, d, n + 1);
      SkipLast(b);
      k := j + 1;
      ms := m;
      KeyKept(b, m, ms, o, s);
      AtEnd(b, j, o, s, m.value);
    }
  }

  // The text up to the value does not depend on the rest of the member.
  lemma KeyKept(b: seq<Byte>, m: Members, k: Members, o: nat, s: nat)
    requires m.pre == k.pre && m.key == k.key && m.gap == k.gap && m.colonGap == k.colonGap
    requires At(b, o, RenderKey(m)) && s == o + |RenderKey(m)|
    ensures RenderKey(m) == RenderKey(k) == b[o..s]
  {}

  // Behind a comma in the last byte the parser finds no further entry.
  lemma NothingAfterComma(b: seq<Byte>, d: nat, n: nat)
    requires b != [] && d < NESTING_LIMIT
    ensures b[Skip(b, |b|)] == COMMA ==>
              ElementsFrom(b, Skip(b, |b|), d, n).Broken? && PairsFrom(b, Skip(b, |b|), d, n).Broken?
  {
    hide Skip;
    SkipLast(b);
    ElementsStep(b, |b| - 1, d, n);
  }

  // A member without the whitespace behind it.
  lemma {:induction false} SoundPair(b: seq<Byte>, o: nat, d: nat) returns (m: Members, k: nat)
    requires 0 < |b| && o <= |b| && d <= NESTING_LIMIT && PairAt(b, Skip(b, o), d).Pair?
    ensures m.LastMember? && m.post == [] && WellFormedMembers(m)
    ensures At(b, o, RenderKey(m)) && o + |RenderKey(m)| < |b| && Stands(b, k, o + |RenderKey(m)|, m.value)
    ensures EndsAt(b, k, o + |RenderKey(m)| + |Render(m.value)|, PairAt(b, Skip(b, o), d).next)
    decreases NESTING_LIMIT - d, 3
  {
    hide At, Skip, ValueAt, PairAt, Render, RenderKey, WellFormed, Whole, NumberEnd, Closed;
    m := SoundKey(b, o, d);
    var f := o + |RenderKey(m)|;
    var v;
    v, k := SoundValue(b, f, d);
    var found := LastMember(m.pre, m.key, m.gap, m.colonGap, v, []);
    KeyKept(b, m, found, o, f);
    m := found;
  }

  // The key and the colon, with any value.
  lemma SoundKey(b: seq<Byte>, o: nat, d: nat) returns (m: Members)
    requires 0 < |b| && o <= |b| && d <= NESTING_LIMIT && PairAt(b, Skip(b, o), d).Pair?
    ensures m.LastMember? && m.post == [] && WellFormedMembers(m) && At(b, o, RenderKey(m))
    ensures var f := o + |RenderKey(m)|;
            f < |b| && ValueAt(b, f, d).Parsed? && ValueAt(b, f, d).next == PairAt(b, Skip(b, o), d).next
  {
    hide At, Skip, ValueAt, StringAt, PairAt, IsBody, WellFormedMembers, AllSpace;
    var s := Skip(b, o);
    var _, _, _ := PairParts(b, s, d);
    StringInside(b, o);
    AtSlice(b, o, s);
    var key := SoundString(b, s);
    var gap, colonGap, f := SoundColon(b, s, d);
    m := LastMember(b[o..s], key, gap, colonGap, Null, []);
    AtSplit(b, s, Quoted(key), gap + ([COLON] + colonGap));
    AtSplit(b, o, m.pre, Quoted(key) + (gap + ([COLON] + colonGap)));
    KeyWellFormed(m);
    assert f == o + |RenderKey(m)|;
  }

  // The colon behind the key with the whitespace on its two sides.
  lemma SoundColon(b: seq<Byte>, s: nat, d: nat) returns (gap: seq<Byte>, colonGap: seq<Byte>, f: nat)
    requires s < |b| && d <= NESTING_LIMIT && PairAt(b, s, d).Pair?
    ensures AllSpace(gap) && AllSpace(colonGap) && StringAt(b, s).Parsed?
    ensures At(b, StringAt(b, s).next, gap + ([COLON] + colonGap))
    ensures f == StringAt(b, s).next + |gap| + 1 + |colonGap| < |b|
    ensures ValueAt(b, f, d).Parsed? && ValueAt(b, f, d).next == PairAt(b, s, d).next
  {
    assert !IsDigit(COLON);
    hide *;
    var e, c;
    e, c, f := PairParts(b, s, d);
    ColonInside(b, s, e, c);
    SkipIsForward(b, c + 1, f, d);
    gap, colonGap := b[e..c], b[c + 1..f];
    ColonStands(b, e, c, f);
  }

  lemma ColonStands(b: seq<Byte>, e: nat, c: nat, f: nat)
    requires e <= c < f <= |b| && b[c] == COLON
    ensures At(b, e, b[e..c] + ([COLON] + b[c + 1..f])) && |b[e..c]| + 1 + |b[c + 1..f]| == f - e
  {
    hide At;
    AtSlice(b, e, c);
    AtOne(b, c);
    AtSlice(b, c + 1, f);
    AtSplit(b, c, [COLON], b[c + 1..f]);
    AtSplit(b, e, b[e..c], [COLON] + b[c + 1..f]);
  }

  // The end of the key, its colon, and the start of the value.
  lemma PairParts(b: seq<Byte>, s: nat, d: nat) returns (e: nat, c: nat, f: nat)
    requires s < |b| && d <= NESTING_LIMIT && PairAt(b, s, d).Pair?
    ensures StringAt(b, s).Parsed? && e == StringAt(b, s).next <= |b|
    ensures c == Skip(b, e) < |b| && b[c] == COLON
    ensures f == Skip(b, c + 1) < |b| && ValueAt(b, f, d).Parsed? && ValueAt(b, f, d).next == PairAt(b, s, d).next
  {
    hide Skip, ValueAt, StringAt;
    e := StringAt(b, s).next;
    c := Skip(b, e);
    f := Skip(b, c + 1);
  }

  lemma KeyWellFormed(m: Members)
    requires AllSpace(m.pre) && IsBody(m.key) && AllSpace(m.gap) && AllSpace(m.colonGap)
    requires m.LastMember? && m.value == Null && m.post == []
    ensures WellFormedMembers(m)
  {}

  lemma StringInside(b: seq<Byte>, o: nat)
    requires o <= |b| && 0 < |b| && StringAt(b, Skip(b, o)).Parsed?
    ensures o <= Skip(b, o) && AllSpace(b[o..Skip(b, o)])
  {
    hide QuoteFrom;
    Gap(b, o);
  }

  lemma ColonInside(b: seq<Byte>, s: nat, e: nat, c: nat)
    requires s < |b| && StringAt(b, s).Parsed? && e == StringAt(b, s).next && c == Skip(b, e) && b[c] == COLON
    ensures e <= c && AllSpace(b[e..c])
  {
    assert b[e - 1] == QUOTE;
    if SpaceEnd(b, e) < |b| {
      Gap(b, e);
    }
  }

  // In front of a value the skipper did not step back.
  lemma SkipIsForward(b: seq<Byte>, o: nat, s: nat, d: nat)
    requires 0 < o <= |b| && !IsDigit(b[o - 1]) && s == Skip(b, o) && ValueAt(b, s, d).Parsed?
    ensures o <= s && AllSpace(b[o..s])
  {
    if SpaceEnd(b, o) == |b| {
      LastByteValue(b, |b| - 1, d);
    } else {
      Gap(b, o);
    }
  }

  // Inside of the buffer, a skip that finds a visible byte did not step back.
  lemma SkipToMark(b: seq<Byte>, e: nat)
    requires e < |b| && !IsSpace(b[Skip(b, e)])
    ensures e <= Skip(b, e) && AllSpace(b[e..Skip(b, e)])
  {}

  // ---------- the whole parser ----------

  // Behind the mark and the whitespace at its start, b begins with v; the last k closing brackets
  // of v may stand behind the end of b.
  ghost predicate Begins(b: seq<Byte>, k: nat, v: Value) {
    b != [] && WellFormed(v) && Stands(b, k, Skip(b, MarkEnd(b)), v)
  }

  function Report(b: seq<Byte>, v: Value): Parsed
    requires b != []
  {
    Cut(Reported(v, Skip(b, MarkEnd(b)), 0), |b|)
  }

  // Every buffer is accepted exactly when it begins with a value of the grammar nested at most 1000
  // deep, or with one that lacks only copies of the closing bracket in its last byte; and then the
  // report is that value's, cut at the end of the buffer.
  lemma AcceptedIff(b: seq<Byte>, item: Item, next: nat)
    ensures ParseAt(b) == Parsed(item, next)
            <==> exists v, k: nat :: Begins(b, k, v) && Report(b, v) == Parsed(item, next)
  {
    hide ValueAt, Skip, MarkEnd, Reported, Stands, WellFormed, Height, Cut;
    if ParseAt(b) == Parsed(item, next) {
      var v, k := SoundValue(b, Skip(b, MarkEnd(b)), 0);
      assert Begins(b, k, v);
    }
    forall v, k: nat | Begins(b, k, v) ensures ParseAt(b) == Report(b, v) {
      StandingValue(b, k, Skip(b, MarkEnd(b)), 0, v);
    }
  }

  // What a buffer holds behind the mark and the whitespace at its start is reported exactly.
  ghost predicate Holds(b: seq<Byte>, v: Value) {
    && b != []
    && var o := Skip(b, MarkEnd(b));
    && WellFormed(v) && At(b, o, Render(v)) && Whole(b, o, v)
  }

  lemma HoldsIsBegins(b: seq<Byte>, v: Value)
    ensures Holds(b, v) <==> Begins(b, 0, v)
  {
    hide At, WellFormed, Render, Whole;
    if b != [] {
      ClosedBytes(b, 0);
    }
  }

  ghost predicate Sound(b: seq<Byte>) {
    ParseAt(b).Parsed? ==> exists v :: Holds(b, v)
  }

  // Malformed text is let through exactly when closing brackets are missing at the end of the buffer.
  lemma SoundIff(b: seq<Byte>)
    ensures Sound(b) <==> !exists v, k: nat :: k > 0 && Begins(b, k, v) && Height(v) <= NESTING_LIMIT
  {
    hide ParseAt, Skip, MarkEnd, Stands, WellFormed, Holds, Height, Render;
    forall v, k: nat | Begins(b, k, v) ensures ParseAt(b).Parsed? <==> Height(v) <= NESTING_LIMIT {
      BegunReport(b, k, v);
    }
    if ParseAt(b).Parsed? {
      AcceptedIff(b, ParseAt(b).item, ParseAt(b).next);
      var v, k: nat :| Begins(b, k, v) && Report(b, v) == ParseAt(b);
      SoundIffComplete(b, k, v);
      if k == 0 {
        HoldsIsBegins(b, v);
        forall w, j: nat | Begins(b, j, w) ensures j == 0 {
          OneLength(b, v, j, w);
        }
      }
    }
  }

  // Accepted text is well formed exactly when none of its value's brackets is missing.
  lemma SoundIffComplete(b: seq<Byte>, k: nat, v: Value)
    requires Begins(b, k, v) && Report(b, v) == ParseAt(b) && ParseAt(b).Parsed?
    ensures Sound(b) <==> k == 0
    ensures ParseAt(b).next + k == Skip(b, MarkEnd(b)) + |Render(v)|
  {
    hide ParseAt, Skip, MarkEnd, Stands, WellFormed, Height, Render;
    StandEnd(b, k, Skip(b, MarkEnd(b)), v);
    if k == 0 {
      HoldsIsBegins(b, v);
    } else {
      forall w | Holds(b, w) ensures false {
        OneLength(b, w, k, v);
      }
    }
  }

  lemma BegunReport(b: seq<Byte>, k: nat, v: Value)
    requires Begins(b, k, v)
    ensures ParseAt(b) == Report(b, v)
    ensures ParseAt(b).Parsed? <==> Height(v) <= NESTING_LIMIT
  {
    hide ValueAt, Skip, MarkEnd, Stands, WellFormed, Height, Render;
    StandingValue(b, k, Skip(b, MarkEnd(b)), 0, v);
  }

  // What is held whole is not also missing brackets.
  lemma OneLength(b: seq<Byte>, v: Value, k: nat, w: Value)
    requires Holds(b, v) && Begins(b, k, w) && ParseAt(b).Parsed?
    ensures k == 0
  {
    hide ValueAt, Skip, MarkEnd, WellFormed, Render, At;
    var o := Skip(b, MarkEnd(b));
    var c := Closed(b, k);
    BegunReport(b, k, w);
    HoldsIsBegins(b, v);
    BegunReport(b, 0, v);
    if k > 0 {
      FirstByte(v);
      FirstByte(w);
      StandEnd(b, 0, o, v);
      Inside(b, k, o, Render(v));
      AtByte(c, o, Render(w), |Render(w)| - 1);
      EndsInCloser(w);
      CompleteValue(c, o, 0, w);
      CompleteValue(c, o, 0, v);
    }
  }

  const TWICE_CLOSED_ARRAY: seq<Byte> := [LEFT_BRACKET, LEFT_BRACKET, RIGHT_BRACKET]

  const TWICE_CLOSED_OBJECT: seq<Byte> :=
    [LEFT_BRACE, QUOTE, 97, QUOTE, COLON, LEFT_BRACE, RIGHT_BRACE]

  // The last byte alone decides for no more than this: exactly the two closing brackets let any
  // malformed text through.
  lemma SoundIffEndsOpen(c: Byte)
    ensures (forall b: seq<Byte> :: b != [] && b[|b| - 1] == c ==> Sound(b)) <==> !IsCloser(c)
  {
    hide ParseAt, Skip, MarkEnd, Holds, Sound, Begins, Height;
    if !IsCloser(c) {
      forall b: seq<Byte> | b != [] && b[|b| - 1] == c ensures Sound(b) {
        SoundIff(b);
        forall v, k: nat | Begins(b, k, v) ensures k == 0 {
          NoneMissing(b, k, v);
        }
      }
    } else if c == RIGHT_BRACKET {
      ArrayClosedTwice();
      assert TWICE_CLOSED_ARRAY[|TWICE_CLOSED_ARRAY| - 1] == c;
    } else {
      ObjectClosedTwice();
      assert TWICE_CLOSED_OBJECT[|TWICE_CLOSED_OBJECT| - 1] == c;
    }
  }

  lemma NoneMissing(b: seq<Byte>, k: nat, v: Value)
    requires Begins(b, k, v) && !IsCloser(b[|b| - 1])
    ensures k == 0
  {}

  // The buffer `[[]` is accepted as an array of one element, and begins with no value.
  lemma ArrayClosedTwice()
    ensures ParseAt(TWICE_CLOSED_ARRAY) == Parsed(Item(ArrayItem, 0, 3, 1), 3)
    ensures !Sound(TWICE_CLOSED_ARRAY)
  {
    hide Sound, ParseAt;
    var b := TWICE_CLOSED_ARRAY;
    var v := Array(LastElement([], EmptyArray([]), []));
    assert Closed(b, 1) == b + [RIGHT_BRACKET] == Render(v);
    MissingOne(b, v);
  }

  lemma ObjectClosedTwice()
    ensures ParseAt(TWICE_CLOSED_OBJECT) == Parsed(Item(ObjectItem, 0, 7, 1), 7)
    ensures !Sound(TWICE_CLOSED_OBJECT)
  {
    hide Sound, ParseAt, Render, WellFormed, IsBody;
    var b := TWICE_CLOSED_OBJECT;
    var v := Object(LastMember([], [97], [], [], EmptyObject([]), []));
    assert Closed(b, 1) == b + [RIGHT_BRACE];
    OuterObject(v);
    MissingOne(b, v);
  }

  lemma OuterObject(v: Value)
    requires v == Object(LastMember([], [97], [], [], EmptyObject([]), []))
    ensures WellFormed(v) && Render(v) == TWICE_CLOSED_OBJECT + [RIGHT_BRACE]
  {
    assert IsBody([97][1..]);
    assert Render(EmptyObject([])) == [LEFT_BRACE, RIGHT_BRACE];
    assert RenderKey(v.members) == [QUOTE, 97, QUOTE, COLON];
  }

  lemma MissingOne(b: seq<Byte>, v: Value)
    requires b != [] && IsCloser(b[|b| - 1]) && b[0] != 0xEF && !IsSpace(b[0])
    requires WellFormed(v) && Height(v) <= NESTING_LIMIT && (v.Array? || v.Object?) && Closed(b, 1) == Render(v)
    ensures ParseAt(b) == Cut(Reported(v, 0, 0), |b|) && !Sound(b)
  {
    hide Sound, ParseAt, WellFormed, Render, Height;
    assert MarkEnd(b) == 0 && Skip(b, 0) == 0;
    assert Begins(b, 1, v);
    BegunReport(b, 1, v);
    SoundIff(b);
  }
}
