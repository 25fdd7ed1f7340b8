// The block function of src/infra/infra_md5.c against section 3.4 of RFC 1321.
module Md5 {
  import opened Bytes
  import opened HashStream
  import opened Renaming
  import Sha1
  import opened Sha256

  // ---------- RFC 1321, section 3.4 ----------

  datatype State = State(a: Word, b: Word, c: Word, d: Word)

  function Mix(t: nat, x: Word, y: Word, z: Word): Word {
    if t < 16 then (x & y) | (!x & z)
    else if t < 32 then (x & z) | (y & !z)
    else if t < 48 then x ^ y ^ z
    else y ^ (x | !z)
  }

  // The word of the block that operation t takes.
  function Index(t: nat): (k: nat)
    ensures k < 16
  {
    if t < 16 then t else if t < 32 then (5 * t + 1) % 16 else if t < 48 then (3 * t + 5) % 16 else 7 * t % 16
  }

  const SHIFTS: seq<seq<Word>> := [[7, 12, 17, 22], [5, 9, 14, 20], [4, 11, 16, 23], [6, 10, 15, 21]]

  function Shift(t: nat): (s: Word)
    requires t < 64
    ensures 0 < s < 32
  {
    SHIFTS[t / 16][t % 4]
  }

  const TABLE: seq<seq<Word>> := [
    [0xD76AA478, 0xE8C7B756, 0x242070DB, 0xC1BDCEEE, 0xF57C0FAF, 0x4787C62A, 0xA8304613, 0xFD469501],
    [0x698098D8, 0x8B44F7AF, 0xFFFF5BB1, 0x895CD7BE, 0x6B901122, 0xFD987193, 0xA679438E, 0x49B40821],
    [0xF61E2562, 0xC040B340, 0x265E5A51, 0xE9B6C7AA, 0xD62F105D, 0x02441453, 0xD8A1E681, 0xE7D3FBC8],
    [0x21E1CDE6, 0xC33707D6, 0xF4D50D87, 0x455A14ED, 0xA9E3E905, 0xFCEFA3F8, 0x676F02D9, 0x8D2A4C8A],
    [0xFFFA3942, 0x8771F681, 0x6D9D6122, 0xFDE5380C, 0xA4BEEA44, 0x4BDECFA9, 0xF6BB4B60, 0xBEBFBC70],
    [0x289B7EC6, 0xEAA127FA, 0xD4EF3085, 0x04881D05, 0xD9D4D039, 0xE6DB99E5, 0x1FA27CF8, 0xC4AC5665],
    [0xF4292244, 0x432AFF97, 0xAB9423A7, 0xFC93A039, 0x655B59C3, 0x8F0CCC92, 0xFFEFF47D, 0x85845DD1],
    [0x6FA87E4F, 0xFE2CE6E0, 0xA3014314, 0x4E0811A1, 0xF7537E82, 0xBD3AF235, 0x2AD7D2BB, 0xEB86D391]
  ]

  function Addend(t: nat): Word
    requires t < 64
  {
    TABLE[t / 8][t % 8]
  }

  // The word at byte i of a block, low byte first.
  function GetWordLow(block: seq<Byte>, i: nat): Word
    requires i + 4 <= |block|
  {
    (block[i] as Word) | ((block[i + 1] as Word) << 8) | ((block[i + 2] as Word) << 16) | ((block[i + 3] as Word) << 24)
  }

  // One operation a = b + ((a + Mix + X[k] + T) <<< s), after which the four names shift by one.
  function Operation(s: State, t: nat, x: Word): State
    requires t < 64
  {
    var sum := Plus(Plus(Plus(s.a, Mix(t, s.b, s.c, s.d)), x), Addend(t));
    State(s.d, Plus(s.b, Sha1.RotateLeft(sum, Shift(t))), s.b, s.c)
  }

  function Operations(s: State, block: seq<Byte>, t: nat): State
    requires |block| == BLOCK && t <= 64
  {
    if t == 0 then s else Operation(Operations(s, block, t - 1), t - 1, GetWordLow(block, 4 * Index(t - 1)))
  }

  function Added(s: State, r: State): State {
    State(Plus(s.a, r.a), Plus(s.b, r.b), Plus(s.c, r.c), Plus(s.d, r.d))
  }

  const OPERATIONS: nat := 64

  // One block of the algorithm; other lengths do not occur.
  function Compress(s: State, block: seq<Byte>): State {
    if |block| == BLOCK then Added(s, Operations(s, block, OPERATIONS)) else s
  }

  const INITIAL: State := State(0x67452301, 0xEFCDAB89, 0x98BADCFE, 0x10325476)

  lemma OperationsUnfold(s: State, block: seq<Byte>, t: nat)
    requires |block| == BLOCK && t < 64
    ensures Operations(s, block, 0) == s
    ensures Operations(s, block, t + 1) == Operation(Operations(s, block, t), t, GetWordLow(block, 4 * Index(t)))
  {
    hide Operation, Index, GetWordLow;
  }

  // ---------- the macros of the source ----------

  function F(t: nat, x: Word, y: Word, z: Word): Word {
    if t < 16 then z ^ (x & (y ^ z))
    else if t < 32 then y ^ (z & (x ^ y))
    else if t < 48 then x ^ y ^ z
    else y ^ (x | !z)
  }

  lemma MacroIsMix(t: nat, x: Word, y: Word, z: Word)
    ensures F(t, x, y, z) == Mix(t, x, y, z)
  {
    FirstBits(x, y, z);
    SecondBits(x, y, z);
  }

  lemma FirstBits(x: Word, y: Word, z: Word)
    ensures z ^ (x & (y ^ z)) == (x & y) | (!x & z)
  {}

  lemma SecondBits(x: Word, y: Word, z: Word)
    ensures y ^ (z & (x ^ y)) == (x & z) | (y & !z)
  {}

  // The words that the lines of the source name, in their order.
  const LINES0: seq<nat> := [0, 1, 2, 3, 4, 5, 6, 7, 8, 9, 10, 11, 12, 13, 14, 15]
  const LINES1: seq<nat> := [1, 6, 11, 0, 5, 10, 15, 4, 9, 14, 3, 8, 13, 2, 7, 12]
  const LINES2: seq<nat> := [5, 8, 11, 14, 1, 4, 7, 10, 13, 0, 3, 6, 9, 12, 15, 2]
  const LINES3: seq<nat> := [0, 7, 14, 5, 12, 3, 10, 1, 8, 15, 6, 13, 4, 11, 2, 9]

  function LineIndex(t: nat): nat
    requires t < 64
  {
    if t < 16 then LINES0[t] else if t < 32 then LINES1[t - 16] else if t < 48 then LINES2[t - 32] else LINES3[t - 48]
  }

  lemma LinesAreIndexed(t: nat)
    requires t < 64
    ensures LineIndex(t) == Index(t)
  {
    hide *;
    if t < 16 {
      FirstLines(t);
    } else if t < 32 {
      SecondLines(t);
    } else if t < 48 {
      ThirdLines(t);
    } else {
      FourthLines(t);
    }
  }

  lemma FirstLines(t: nat)
    requires t < 16
    ensures LineIndex(t) == Index(t)
  {}

  lemma SecondLines(t: nat)
    requires 16 <= t < 32
    ensures LineIndex(t) == Index(t)
  {}

  lemma ThirdLines(t: nat)
    requires 32 <= t < 48
    ensures LineIndex(t) == Index(t)
  {}

  lemma FourthLines(t: nat)
    requires 48 <= t < 64
    ensures LineIndex(t) == Index(t)
  {}

  lemma SumOrder(a: Word, f: Word, x: Word, k: Word)
    ensures Plus(a, Plus(Plus(f, x), k)) == Plus(Plus(Plus(a, f), x), k)
  {
    hide Plus;
    Sha1.PlusAlgebra(a, f, x);
    Sha1.PlusAlgebra(a, Plus(f, x), k);
  }

  // ---------- the code ----------

  function Seen(v: seq<Word>, r: nat): State
    requires |v| == 4 && r <= 4
  {
    State(v[Place(4, r, 0)], v[Place(4, r, 1)], v[Place(4, r, 2)], v[Place(4, r, 3)])
  }

  // The variables A to D of the source are v; the macro P changes one of them.
  method P(v: array<Word>, r: nat, t: nat, x: Word)
    requires v.Length == 4 && r < 4 && t < 64
    modifies v
    ensures Seen(v[..], r + 1) == Operation(Seen(old(v[..]), r), t, x)
  {
    hide Mix, F, Plus, Addend, Shift, Sha1.RotateLeft;
    var a, b, c, d := Place(4, r, 0), Place(4, r, 1), Place(4, r, 2), Place(4, r, 3);
    MacroIsMix(t, v[b], v[c], v[d]);
    SumOrder(v[a], F(t, v[b], v[c], v[d]), x, Addend(t));
    v[a] := Plus(v[a], Plus(Plus(F(t, v[b], v[c], v[d]), x), Addend(t)));
    Sha1.PlusAlgebra(Sha1.RotateLeft(v[a], Shift(t)), v[b], 0);
    v[a] := Plus(Sha1.RotateLeft(v[a], Shift(t)), v[b]);
  }

  ghost predicate Loaded(X: seq<Word>, block: seq<Byte>)
    requires |X| == 16 && |block| == BLOCK
  {
    forall i :: 0 <= i < 16 ==> X[i] == GetWordLow(block, 4 * i)
  }

  method Line(v: array<Word>, r: nat, X: seq<Word>, t: nat, ghost s: State, ghost block: seq<Byte>)
    requires v.Length == 4 && |X| == 16 && r < 4 && t < 64 && |block| == BLOCK
    requires Seen(v[..], r) == Operations(s, block, t) && Loaded(X, block)
    modifies v
    ensures Seen(v[..], r + 1) == Operations(s, block, t + 1)
  {
    hide Seen, Operation, Operations, GetWordLow, LineIndex, Index;
    OperationsUnfold(s, block, t);
    LinesAreIndexed(t);
    P(v, r, t, X[LineIndex(t)]);
  }

  lemma NamesReturn(v: seq<Word>)
    requires |v| == 4
    ensures Seen(v, 4) == Seen(v, 0)
  {}

  // Four lines, after which the names are back where they were.
  method FourLines(v: array<Word>, X: seq<Word>, t: nat, ghost s: State, ghost block: seq<Byte>)
    requires v.Length == 4 && |X| == 16 && t + 4 <= 64 && |block| == BLOCK
    requires Seen(v[..], 0) == Operations(s, block, t) && Loaded(X, block)
    modifies v
    ensures Seen(v[..], 0) == Operations(s, block, t + 4)
  {
    hide Seen, Operations, Loaded;
    Line(v, 0, X, t, s, block);
    Line(v, 1, X, t + 1, s, block);
    Line(v, 2, X, t + 2, s, block);
    Line(v, 3, X, t + 3, s, block);
    NamesReturn(v[..]);
  }

  method LoadWords(data: seq<Byte>) returns (X: array<Word>)
    requires |data| == BLOCK
    ensures fresh(X) && X.Length == 16 && Loaded(X[..], data)
  {
    hide GetWordLow;
    X := new Word[16];
    var i := 0;
    while i < 16
      invariant i <= 16 && forall j :: 0 <= j < i ==> X[j] == GetWordLow(data, 4 * j)
    {
      X[i] := GetWordLow(data, 4 * i);
      i := i + 1;
    }
  }

  // utils_md5_process.  The source writes its sixty-four lines out, in the order of four that repeats.
  method Process(state: array<Word>, data: seq<Byte>)
    requires state.Length == 4 && |data| == BLOCK
    modifies state
    ensures Seen(state[..], 0) == Compress(Seen(old(state[..]), 0), data)
  {
    hide Seen, Operations, Loaded, Added;
    ghost var s := Seen(state[..], 0);
    OperationsUnfold(s, data, 0);
    var words := LoadWords(data);
    var X := words[..];
    var v := new Word[4];
    v[0], v[1], v[2], v[3] := state[0], state[1], state[2], state[3];
    assert v[..] == state[..];
    var t := 0;
    while t < OPERATIONS
      invariant t <= OPERATIONS && t % 4 == 0 && Seen(v[..], 0) == Operations(s, data, t) && state[..] == old(state[..])
      modifies v
    {
      FourLines(v, X, t, s, data);
      t := t + 4;
    }
    AddVariables(state, v);
  }

  method AddVariables(state: array<Word>, v: array<Word>)
    requires state.Length == 4 && v.Length == 4 && v != state
    modifies state
    ensures Seen(state[..], 0) == Added(Seen(old(state[..]), 0), Seen(v[..], 0))
  {
    hide Plus;
    state[0] := Plus(state[0], v[0]);
    state[1] := Plus(state[1], v[1]);
    state[2] := Plus(state[2], v[2]);
    state[3] := Plus(state[3], v[3]);
  }

  // IOT_MD5_PUT_UINT32_LE: the low byte first.
  function PutWordLow(w: Word): (s: seq<Byte>)
    ensures |s| == 4
  {
    LittleEndian(w as nat, 4)
  }

  function Output(s: State): (digest: seq<Byte>)
    ensures |digest| == 16
  {
    PutWordLow(s.a) + PutWordLow(s.b) + PutWordLow(s.c) + PutWordLow(s.d)
  }

  // The MD5 of a message, section 3.5 of RFC 1321.
  function Hash(m: seq<Byte>): seq<Byte> {
    Output(Digest(Compress, INITIAL, m, false))
  }

  method Md5OfChunks(chunks: seq<seq<Byte>>) returns (digest: seq<Byte>)
    requires forall i :: 0 <= i < |chunks| ==> |chunks[i]| < WORD
    ensures digest == Hash(Concat(chunks))
  {
    var state := HashChunks(Compress, INITIAL, false, chunks);
    digest := Output(state);
  }
}
