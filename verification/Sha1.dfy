// The block function of src/infra/infra_sha1.c.  It keeps only the last sixteen words of the message
// schedule, in a circular array (section 6.1.3 of FIPS 180-4), and is proved to compute the hash with
// the whole schedule of eighty words (section 6.1.2).
module Sha1 {
  import opened Bytes
  import opened HashStream
  import opened Renaming
  import opened Sha256

  // ---------- FIPS 180-4, section 6.1.2 ----------

  datatype State = State(a: Word, b: Word, c: Word, d: Word, e: Word)

  // ROTL of section 3.2; the macro S of the source is this same expression.
  function RotateLeft(x: Word, n: Word): Word
    requires 0 < n < 32
  {
    (x << n) | (x >> (32 - n))
  }

  function Parity(x: Word, y: Word, z: Word): Word {
    x ^ y ^ z
  }

  // Section 4.1.1.
  function Mix(t: nat, x: Word, y: Word, z: Word): Word {
    if t < 20 then Ch(x, y, z)
    else if t < 40 then Parity(x, y, z)
    else if t < 60 then Maj(x, y, z)
    else Parity(x, y, z)
  }

  // Section 4.2.1.
  function Addend(t: nat): Word {
    if t < 20 then 0x5A827999 else if t < 40 then 0x6ED9EBA1 else if t < 60 then 0x8F1BBCDC else 0xCA62C1D6
  }

  function Expand(w3: Word, w8: Word, w14: Word, w16: Word): Word {
    RotateLeft(w3 ^ w8 ^ w14 ^ w16, 1)
  }

  function Words(block: seq<Byte>, t: nat): Word
    requires |block| == BLOCK
  {
    if t < 16 then GetWord(block, 4 * t)
    else Expand(Words(block, t - 3), Words(block, t - 8), Words(block, t - 14), Words(block, t - 16))
  }

  function Step(s: State, t: nat, w: Word): State {
    var temp := Plus(Plus(Plus(Plus(RotateLeft(s.a, 5), Mix(t, s.b, s.c, s.d)), s.e), Addend(t)), w);
    State(temp, s.a, RotateLeft(s.b, 30), s.c, s.d)
  }

  function Steps(s: State, block: seq<Byte>, t: nat): State
    requires |block| == BLOCK
  {
    if t == 0 then s else Step(Steps(s, block, t - 1), t - 1, Words(block, t - 1))
  }

  function Added(s: State, r: State): State {
    State(Plus(s.a, r.a), Plus(s.b, r.b), Plus(s.c, r.c), Plus(s.d, r.d), Plus(s.e, r.e))
  }

  const STEPS: nat := 80

  // The hash computation of one block; other lengths do not occur.
  function Compress(s: State, block: seq<Byte>): State {
    if |block| == BLOCK then Added(s, Steps(s, block, STEPS)) else s
  }

  const INITIAL: State := State(0x67452301, 0xEFCDAB89, 0x98BADCFE, 0x10325476, 0xC3D2E1F0)

  lemma StepsUnfold(s: State, block: seq<Byte>, t: nat)
    requires |block| == BLOCK
    ensures Steps(s, block, 0) == s
    ensures Steps(s, block, t + 1) == Step(Steps(s, block, t), t, Words(block, t))
  {
    hide Step, Words;
  }

  // ---------- the macros of the source ----------

  // The macro F of each of the four parts.
  function F(t: nat, x: Word, y: Word, z: Word): Word {
    if t < 20 then F1(x, y, z) else if t < 40 then Parity(x, y, z) else if t < 60 then F0(x, y, z) else Parity(x, y, z)
  }

  lemma MacroIsMix(t: nat, x: Word, y: Word, z: Word)
    ensures F(t, x, y, z) == Mix(t, x, y, z)
  {
    hide F0, F1, Ch, Maj, Parity;
    MacrosAreStandard(x, y, z);
  }

  lemma PlusAlgebra(x: Word, y: Word, z: Word)
    ensures Plus(Plus(x, y), z) == Plus(x, Plus(y, z)) && Plus(x, y) == Plus(y, x)
  {
    WordAlgebra(x, y, z);
  }

  lemma WordAlgebra(x: Word, y: Word, z: Word)
    ensures (x + y) + z == x + (y + z) && x + y == y + x
  {}

  lemma SumOrder(e: Word, s: Word, f: Word, k: Word, w: Word)
    ensures Plus(e, Plus(Plus(Plus(s, f), k), w)) == Plus(Plus(Plus(Plus(s, f), e), k), w)
  {
    hide Plus;
    var u := Plus(s, f);
    PlusAlgebra(u, e, k);
    PlusAlgebra(e, u, k);
    PlusAlgebra(e, Plus(u, k), w);
  }

  // ---------- the code ----------

  function Seen(v: seq<Word>, r: nat): State
    requires |v| == 5 && r <= 5
  {
    State(v[Place(5, r, 0)], v[Place(5, r, 1)], v[Place(5, r, 2)], v[Place(5, r, 3)], v[Place(5, r, 4)])
  }

  // The variables A to E of the source are v; the macro P changes two of them.
  method PStep(v: array<Word>, r: nat, t: nat, x: Word)
    requires v.Length == 5 && r < 5
    modifies v
    ensures Seen(v[..], r + 1) == Step(Seen(old(v[..]), r), t, x)
  {
    hide Mix, F, Plus, RotateLeft, Addend, Place;
    PlacesShift(5, r);
    var a, b, c, d, e := Place(5, r, 0), Place(5, r, 1), Place(5, r, 2), Place(5, r, 3), Place(5, r, 4);
    MacroIsMix(t, v[b], v[c], v[d]);
    SumOrder(v[e], RotateLeft(v[a], 5), F(t, v[b], v[c], v[d]), Addend(t), x);
    v[e] := Plus(v[e], Plus(Plus(Plus(RotateLeft(v[a], 5), F(t, v[b], v[c], v[d])), Addend(t)), x));
    v[b] := RotateLeft(v[b], 30);
  }

  // W holds the sixteen words of the schedule that end in front of word n.
  ghost predicate Circular(W: seq<Word>, block: seq<Byte>, n: nat)
    requires |W| == 16 && |block| == BLOCK
  {
    n >= 16 && forall j :: n - 16 <= j < n ==> W[j % 16] == Words(block, j)
  }

  // The macro R overwrites the oldest word with the next one.
  method RStep(W: array<Word>, t: nat, ghost block: seq<Byte>) returns (w: Word)
    requires W.Length == 16 && t >= 16 && |block| == BLOCK && Circular(W[..], block, t)
    modifies W
    ensures w == Words(block, t) && Circular(W[..], block, t + 1)
  {
    hide Expand, Circular;
    w := Expand(W[(t - 3) % 16], W[(t - 8) % 16], W[(t - 14) % 16], W[t % 16]);
    NextWord(W[..], block, t);
    CircularStep(W[..], block, t);
    W[t % 16] := w;
    assert W[..] == old(W[..])[t % 16 := w];
  }

  lemma NextWord(W: seq<Word>, block: seq<Byte>, t: nat)
    requires |W| == 16 && |block| == BLOCK && Circular(W, block, t)
    ensures Words(block, t) == Expand(W[(t - 3) % 16], W[(t - 8) % 16], W[(t - 14) % 16], W[t % 16])
  {
    hide Expand;
    assert (t - 16) % 16 == t % 16;
    assert W[(t - 16) % 16] == Words(block, t - 16);
  }

  lemma CircularStep(W: seq<Word>, block: seq<Byte>, t: nat)
    requires |W| == 16 && |block| == BLOCK && Circular(W, block, t)
    ensures Circular(W[t % 16 := Words(block, t)], block, t + 1)
  {
    hide Words;
    var V := W[t % 16 := Words(block, t)];
    forall j | t - 15 <= j < t + 1 ensures V[j % 16] == Words(block, j) {
      if j < t {
        Apart(j, t);
      }
    }
  }

  lemma Apart(j: nat, t: nat)
    requires j < t < j + 16
    ensures j % 16 != t % 16
  {}

  // One line of the unrolled code: P with the loaded word, or with the next one.
  method Line(v: array<Word>, r: nat, W: array<Word>, t: nat, ghost s: State, ghost block: seq<Byte>)
    requires v.Length == 5 && W.Length == 16 && v != W && r < 5 && |block| == BLOCK
    requires Seen(v[..], r) == Steps(s, block, t) && Circular(W[..], block, if t < 16 then 16 else t)
    modifies v, W
    ensures Seen(v[..], r + 1) == Steps(s, block, t + 1) && Circular(W[..], block, if t < 16 then 16 else t + 1)
  {
    hide Seen, Step, Steps, Words, Circular;
    StepsUnfold(s, block, t);
    var x;
    if t < 16 {
      LoadedWord(W[..], block, t);
      x := W[t];
    } else {
      x := RStep(W, t, block);
    }
    ghost var words := W[..];
    PStep(v, r, t, x);
    assert W[..] == words;
  }

  lemma LoadedWord(W: seq<Word>, block: seq<Byte>, t: nat)
    requires |W| == 16 && |block| == BLOCK && t < 16 && Circular(W, block, 16)
    ensures W[t] == Words(block, t)
  {
    hide Words;
    assert t % 16 == t;
  }

  lemma NamesReturn(v: seq<Word>)
    requires |v| == 5
    ensures Seen(v, 5) == Seen(v, 0)
  {}

  // Five lines, after which the names are back where they were.
  method FiveLines(v: array<Word>, W: array<Word>, t: nat, ghost s: State, ghost block: seq<Byte>)
    requires v.Length == 5 && W.Length == 16 && v != W && |block| == BLOCK && t % 5 == 0
    requires Seen(v[..], 0) == Steps(s, block, t) && Circular(W[..], block, if t < 16 then 16 else t)
    modifies v, W
    ensures Seen(v[..], 0) == Steps(s, block, t + 5) && Circular(W[..], block, if t + 5 <= 16 then 16 else t + 5)
  {
    hide Seen, Steps, Circular;
    Line(v, 0, W, t, s, block);
    Line(v, 1, W, t + 1, s, block);
    Line(v, 2, W, t + 2, s, block);
    Line(v, 3, W, t + 3, s, block);
    Line(v, 4, W, t + 4, s, block);
    NamesReturn(v[..]);
  }

  method LoadWords(data: seq<Byte>) returns (W: array<Word>)
    requires |data| == BLOCK
    ensures fresh(W) && W.Length == 16 && Circular(W[..], data, 16)
  {
    hide GetWord;
    W := new Word[16];
    var i := 0;
    while i < 16
      invariant i <= 16 && forall j :: 0 <= j < i ==> W[j] == Words(data, j)
    {
      W[i] := GetWord(data, 4 * i);
      i := i + 1;
    }
  }

  // utils_sha1_process.  The source writes its eighty lines out, in the order of five that repeats.
  method ProcessCircular(state: array<Word>, data: seq<Byte>)
    requires state.Length == 5 && |data| == BLOCK
    modifies state
    ensures Seen(state[..], 0) == Compress(Seen(old(state[..]), 0), data)
  {
    hide Seen, Steps, Circular, Added;
    ghost var s := Seen(state[..], 0);
    StepsUnfold(s, data, 0);
    var W := LoadWords(data);
    var v := new Word[5];
    v[0], v[1], v[2], v[3], v[4] := state[0], state[1], state[2], state[3], state[4];
    assert v[..] == state[..];
    var t := 0;
    while t < STEPS
      invariant t <= STEPS && t % 5 == 0 && Seen(v[..], 0) == Steps(s, data, t) && state[..] == old(state[..])
      invariant Circular(W[..], data, if t <= 16 then 16 else t)
      modifies v, W
    {
      FiveLines(v, W, t, s, data);
      t := t + 5;
    }
    AddVariables(state, v);
  }

  method AddVariables(state: array<Word>, v: array<Word>)
    requires state.Length == 5 && v.Length == 5 && v != state
    modifies state
    ensures Seen(state[..], 0) == Added(Seen(old(state[..]), 0), Seen(v[..], 0))
  {
    hide Plus;
    state[0] := Plus(state[0], v[0]);
    state[1] := Plus(state[1], v[1]);
    state[2] := Plus(state[2], v[2]);
    state[3] := Plus(state[3], v[3]);
    state[4] := Plus(state[4], v[4]);
  }

  // PUT_UINT32_BE of the five state words.
  function Output(s: State): (digest: seq<Byte>)
    ensures |digest| == 20
  {
    PutWord(s.a) + PutWord(s.b) + PutWord(s.c) + PutWord(s.d) + PutWord(s.e)
  }

  // The SHA-1 of a message, section 6.1 of FIPS 180-4.
  function Hash(m: seq<Byte>): seq<Byte> {
    Output(Digest(Compress, INITIAL, m, true))
  }

  method Sha1OfChunks(chunks: seq<seq<Byte>>) returns (digest: seq<Byte>)
    requires forall i :: 0 <= i < |chunks| ==> |chunks[i]| < WORD
    ensures digest == Hash(Concat(chunks))
  {
    var state := HashChunks(Compress, INITIAL, true, chunks);
    digest := Output(state);
  }
}
