// The block function of src/infra/infra_sha256.c in its rotating and its unrolled form, against
// section 6.2.2 of FIPS 180-4, and HMAC-SHA-256 over the streaming context.
module Sha256 {
  import opened Bytes
  import opened HashStream
  import opened Renaming

  type Word = bv32

  // ---------- FIPS 180-4 ----------

  datatype Registers = Registers(a: Word, b: Word, c: Word, d: Word, e: Word, f: Word, g: Word, h: Word)

  // Section 3.2; the ROTR macro of the source is this same expression, and its S0 to S3 are the four
  // functions below.
  function Rotate(x: Word, n: Word): Word
    requires 0 < n < 32
  {
    (x >> n) | (x << (32 - n))
  }

  // Section 4.1.2.

  // Addition modulo 2^32.
  function Plus(x: Word, y: Word): Word {
    x + y
  }

  function Ch(x: Word, y: Word, z: Word): Word {
    (x & y) ^ (!x & z)
  }

  function Maj(x: Word, y: Word, z: Word): Word {
    (x & y) ^ (x & z) ^ (y & z)
  }

  function UpperSigma0(x: Word): Word {
    Rotate(x, 2) ^ Rotate(x, 13) ^ Rotate(x, 22)
  }

  function UpperSigma1(x: Word): Word {
    Rotate(x, 6) ^ Rotate(x, 11) ^ Rotate(x, 25)
  }

  function LowerSigma0(x: Word): Word {
    Rotate(x, 7) ^ Rotate(x, 18) ^ (x >> 3)
  }

  function LowerSigma1(x: Word): Word {
    Rotate(x, 17) ^ Rotate(x, 19) ^ (x >> 10)
  }

  const K: seq<seq<Word>> := [
    [0x428A2F98, 0x71374491, 0xB5C0FBCF, 0xE9B5DBA5, 0x3956C25B, 0x59F111F1, 0x923F82A4, 0xAB1C5ED5],
    [0xD807AA98, 0x12835B01, 0x243185BE, 0x550C7DC3, 0x72BE5D74, 0x80DEB1FE, 0x9BDC06A7, 0xC19BF174],
    [0xE49B69C1, 0xEFBE4786, 0x0FC19DC6, 0x240CA1CC, 0x2DE92C6F, 0x4A7484AA, 0x5CB0A9DC, 0x76F988DA],
    [0x983E5152, 0xA831C66D, 0xB00327C8, 0xBF597FC7, 0xC6E00BF3, 0xD5A79147, 0x06CA6351, 0x14292967],
    [0x27B70A85, 0x2E1B2138, 0x4D2C6DFC, 0x53380D13, 0x650A7354, 0x766A0ABB, 0x81C2C92E, 0x92722C85],
    [0xA2BFE8A1, 0xA81A664B, 0xC24B8B70, 0xC76C51A3, 0xD192E819, 0xD6990624, 0xF40E3585, 0x106AA070],
    [0x19A4C116, 0x1E376C08, 0x2748774C, 0x34B0BCB5, 0x391C0CB3, 0x4ED8AA4A, 0x5B9CCA4F, 0x682E6FF3],
    [0x748F82EE, 0x78A5636F, 0x84C87814, 0x8CC70208, 0x90BEFFFA, 0xA4506CEB, 0xBEF9A3F7, 0xC67178F2]
  ]

  function Constant(t: nat): Word
    requires t < 64
  {
    K[t / 8][t % 8]
  }

  // The word at byte i of a block, high byte first.
  function GetWord(block: seq<Byte>, i: nat): Word
    requires i + 4 <= |block|
  {
    ((block[i] as Word) << 24) | ((block[i + 1] as Word) << 16) | ((block[i + 2] as Word) << 8) | (block[i + 3] as Word)
  }

  function Extend(w2: Word, w7: Word, w15: Word, w16: Word): Word {
    Plus(Plus(Plus(LowerSigma1(w2), w7), LowerSigma0(w15)), w16)
  }

  // The message schedule, step 1 of section 6.2.2.
  function Schedule(block: seq<Byte>, t: nat): Word
    requires |block| == BLOCK && t < 64
  {
    if t < 16 then GetWord(block, 4 * t)
    else
      Extend(Schedule(block, t - 2), Schedule(block, t - 7), Schedule(block, t - 15), Schedule(block, t - 16))
  }

  // Step 3 of section 6.2.2.
  function Round(r: Registers, k: Word, w: Word): Registers {
    var t1 := Plus(Plus(Plus(Plus(r.h, UpperSigma1(r.e)), Ch(r.e, r.f, r.g)), k), w);
    var t2 := Plus(UpperSigma0(r.a), Maj(r.a, r.b, r.c));
    Registers(Plus(t1, t2), r.a, r.b, r.c, Plus(r.d, t1), r.e, r.f, r.g)
  }

  function Rounds(r: Registers, block: seq<Byte>, t: nat): Registers
    requires |block| == BLOCK && t <= 64
  {
    if t == 0 then r else Round(Rounds(r, block, t - 1), Constant(t - 1), Schedule(block, t - 1))
  }

  lemma RoundsUnfold(r: Registers, block: seq<Byte>, t: nat)
    requires |block| == BLOCK && t < 64
    ensures Rounds(r, block, 0) == r
    ensures Rounds(r, block, t + 1) == Round(Rounds(r, block, t), Constant(t), Schedule(block, t))
  {
    hide Round, Constant, Schedule;
  }

  function Sum(r: Registers, s: Registers): Registers {
    Registers(Plus(r.a, s.a), Plus(r.b, s.b), Plus(r.c, s.c), Plus(r.d, s.d),
              Plus(r.e, s.e), Plus(r.f, s.f), Plus(r.g, s.g), Plus(r.h, s.h))
  }

  // The hash computation of one block; other lengths do not occur.
  function Compress(r: Registers, block: seq<Byte>): Registers {
    if |block| == BLOCK then Sum(r, Rounds(r, block, 64)) else r
  }

  const INITIAL: Registers := Registers(
    0x6A09E667, 0xBB67AE85, 0x3C6EF372, 0xA54FF53A, 0x510E527F, 0x9B05688C, 0x1F83D9AB, 0x5BE0CD19)

  // ---------- the macros of the source ----------

  function F0(x: Word, y: Word, z: Word): Word {
    (x & y) | (z & (x | y))
  }

  function F1(x: Word, y: Word, z: Word): Word {
    z ^ (x & (y ^ z))
  }

  lemma MacrosAreStandard(x: Word, y: Word, z: Word)
    ensures F0(x, y, z) == Maj(x, y, z) && F1(x, y, z) == Ch(x, y, z)
  {
    MajorityBits(x, y, z);
    ChoiceBits(x, y, z);
  }

  lemma MajorityBits(x: Word, y: Word, z: Word)
    ensures (x & y) | (z & (x | y)) == (x & y) ^ (x & z) ^ (y & z)
  {}

  lemma ChoiceBits(x: Word, y: Word, z: Word)
    ensures z ^ (x & (y ^ z)) == (x & y) ^ (!x & z)
  {}

  // ---------- the code ----------

  function View(A: seq<Word>, r: nat): Registers
    requires |A| == 8 && r <= 8
  {
    Registers(A[Place(8, r, 0)], A[Place(8, r, 1)], A[Place(8, r, 2)], A[Place(8, r, 3)],
              A[Place(8, r, 4)], A[Place(8, r, 5)], A[Place(8, r, 6)], A[Place(8, r, 7)])
  }

  // The macro P with the names shifted r times: two of the eight variables change.
  method P(A: array<Word>, r: nat, k: Word, x: Word)
    requires A.Length == 8 && r < 8
    modifies A
    ensures View(A[..], r + 1) == Round(View(old(A[..]), r), k, x)
  {
    hide UpperSigma0, UpperSigma1, Ch, Maj, F0, F1, Plus;
    hide Place;
    PlacesShift(8, r);
    var a, b, c, d := Place(8, r, 0), Place(8, r, 1), Place(8, r, 2), Place(8, r, 3);
    var e, f, g, h := Place(8, r, 4), Place(8, r, 5), Place(8, r, 6), Place(8, r, 7);
    MacrosAreStandard(A[a], A[b], A[c]);
    MacrosAreStandard(A[e], A[f], A[g]);
    var temp1 := Plus(Plus(Plus(Plus(A[h], UpperSigma1(A[e])), F1(A[e], A[f], A[g])), k), x);
    var temp2 := Plus(UpperSigma0(A[a]), F0(A[a], A[b], A[c]));
    A[d] := Plus(A[d], temp1);
    A[h] := Plus(temp1, temp2);
  }

  // The first n words of the schedule are in W.
  ghost predicate Scheduled(W: seq<Word>, block: seq<Byte>, n: nat)
    requires |W| == 64 && |block| == BLOCK && n <= 64
  {
    forall j :: 0 <= j < n ==> W[j] == Schedule(block, j)
  }

  // The macro R: the next word of the schedule from four earlier ones.
  method R(W: array<Word>, t: nat, ghost block: seq<Byte>) returns (w: Word)
    requires W.Length == 64 && 16 <= t < 64 && |block| == BLOCK && Scheduled(W[..], block, t)
    modifies W
    ensures w == Schedule(block, t) && Scheduled(W[..], block, t + 1)
  {
    hide Extend, GetWord;
    w := Extend(W[t - 2], W[t - 7], W[t - 15], W[t - 16]);
    W[t] := w;
  }

  method RotateOnce(A: array<Word>)
    requires A.Length == 8
    modifies A
    ensures View(A[..], 0) == View(old(A[..]), 1)
  {
    var temp1 := A[7];
    A[7] := A[6];
    A[6] := A[5];
    A[5] := A[4];
    A[4] := A[3];
    A[3] := A[2];
    A[2] := A[1];
    A[1] := A[0];
    A[0] := temp1;
  }

  method CopyState(state: array<Word>) returns (A: array<Word>)
    requires state.Length == 8
    ensures fresh(A) && A[..] == state[..]
  {
    A := new Word[8];
    var i := 0;
    while i < 8
      invariant i <= 8 && forall j :: 0 <= j < i ==> A[j] == state[j]
    {
      A[i] := state[i];
      i := i + 1;
    }
  }

  method AddState(state: array<Word>, A: array<Word>)
    requires state.Length == 8 && A.Length == 8 && A != state
    modifies state
    ensures View(state[..], 0) == Sum(View(old(state[..]), 0), View(A[..], 0))
  {
    hide Plus;
    var i := 0;
    while i < 8
      invariant i <= 8 && forall j :: 0 <= j < 8 ==> state[j] == if j < i then Plus(old(state[j]), A[j]) else old(state[j])
    {
      state[i] := Plus(state[i], A[i]);
      i := i + 1;
    }
  }

  // utils_sha256_process with INFRA_SHA256_SMALLER: one round a turn, then the variables rotate.
  method ProcessRotating(state: array<Word>, data: seq<Byte>)
    requires state.Length == 8 && |data| == BLOCK
    modifies state
    ensures View(state[..], 0) == Compress(View(old(state[..]), 0), data)
  {
    hide View, Rounds, Compress, Scheduled;
    ghost var h := View(state[..], 0);
    CompressUnfold(h, data);
    var A := CopyState(state);
    var W := new Word[64];
    NothingScheduled(W[..], data);
    var i := 0;
    while i < 64
      invariant i <= 64 && A.Length == 8
      invariant View(A[..], 0) == Rounds(h, data, i) && Scheduled(W[..], data, i) && state[..] == old(state[..])
      modifies A, W
    {
      RotatingTurn(A, W, i, h, data);
      i := i + 1;
    }
    AddState(state, A);
  }

  lemma CompressUnfold(h: Registers, data: seq<Byte>)
    requires |data| == BLOCK
    ensures Rounds(h, data, 0) == h && Compress(h, data) == Sum(h, Rounds(h, data, 64))
  {
    RoundsUnfold(h, data, 0);
    hide Rounds;
  }

  lemma NothingScheduled(W: seq<Word>, data: seq<Byte>)
    requires |W| == 64 && |data| == BLOCK
    ensures Scheduled(W, data, 0)
  {}

  method RotatingTurn(A: array<Word>, W: array<Word>, i: nat, ghost h: Registers, data: seq<Byte>)
    requires A.Length == 8 && W.Length == 64 && A != W && |data| == BLOCK && i < 64
    requires View(A[..], 0) == Rounds(h, data, i) && Scheduled(W[..], data, i)
    modifies A, W
    ensures View(A[..], 0) == Rounds(h, data, i + 1) && Scheduled(W[..], data, i + 1)
  {
    hide View, Round, Rounds, Schedule, Constant;
    RoundsUnfold(h, data, i);
    if i < 16 {
      FirstWord(data, i);
      W[i] := GetWord(data, 4 * i);
    } else {
      var _ := R(W, i, data);
    }
    P(A, 0, Constant(i), W[i]);
    RotateOnce(A);
  }

  lemma FirstWord(block: seq<Byte>, t: nat)
    requires |block| == BLOCK && t < 16
    ensures Schedule(block, t) == GetWord(block, 4 * t)
  {}

  // The other form: the schedule words first, then eight rounds a turn with the names shifted.
  method ProcessUnrolled(state: array<Word>, data: seq<Byte>)
    requires state.Length == 8 && |data| == BLOCK
    modifies state
    ensures View(state[..], 0) == Compress(View(old(state[..]), 0), data)
  {
    hide View, Rounds, Compress, Scheduled;
    ghost var h := View(state[..], 0);
    CompressUnfold(h, data);
    var A := CopyState(state);
    var W := FirstWords(data);
    ghost var words := W[..];
    var i := 0;
    while i < 16
      invariant i <= 16 && i % 8 == 0 && A.Length == 8 && View(A[..], 0) == Rounds(h, data, i)
      invariant W[..] == words && state[..] == old(state[..])
      modifies A
    {
      EightRounds(A, W, i, h, data);
      i := i + 8;
    }
    while i < 64
      invariant 16 <= i <= 64 && i % 8 == 0 && A.Length == 8
      invariant View(A[..], 0) == Rounds(h, data, i) && Scheduled(W[..], data, i) && state[..] == old(state[..])
      modifies A, W
    {
      EightScheduledRounds(A, W, i, h, data);
      i := i + 8;
    }
    AddState(state, A);
  }

  method FirstWords(data: seq<Byte>) returns (W: array<Word>)
    requires |data| == BLOCK
    ensures fresh(W) && W.Length == 64 && Scheduled(W[..], data, 16)
  {
    hide Schedule, GetWord;
    W := new Word[64];
    var i := 0;
    while i < 16
      invariant i <= 16 && Scheduled(W[..], data, i)
    {
      FirstWord(data, i);
      W[i] := GetWord(data, 4 * i);
      i := i + 1;
    }
  }

  // After eight shifts every name stands where it began.
  lemma NamesReturn(A: seq<Word>)
    requires |A| == 8
    ensures View(A, 8) == View(A, 0)
  {}

  method EightRounds(A: array<Word>, W: array<Word>, i: nat, ghost r: Registers, ghost data: seq<Byte>)
    requires A.Length == 8 && W.Length == 64 && A != W && |data| == BLOCK && i + 8 <= 16
    requires View(A[..], 0) == Rounds(r, data, i) && Scheduled(W[..], data, 16)
    modifies A
    ensures View(A[..], 0) == Rounds(r, data, i + 8)
  {
    hide View, Rounds, Schedule, Scheduled;
    PlainRound(A, W, i, 0, r, data);
    PlainRound(A, W, i + 1, 1, r, data);
    PlainRound(A, W, i + 2, 2, r, data);
    PlainRound(A, W, i + 3, 3, r, data);
    PlainRound(A, W, i + 4, 4, r, data);
    PlainRound(A, W, i + 5, 5, r, data);
    PlainRound(A, W, i + 6, 6, r, data);
    PlainRound(A, W, i + 7, 7, r, data);
    NamesReturn(A[..]);
  }

  // One round with a schedule word that is there.
  method PlainRound(A: array<Word>, W: array<Word>, i: nat, s: nat, ghost r: Registers, ghost data: seq<Byte>)
    requires A.Length == 8 && W.Length == 64 && A != W && |data| == BLOCK && i < 16 && s < 8
    requires View(A[..], s) == Rounds(r, data, i) && Scheduled(W[..], data, 16)
    modifies A
    ensures View(A[..], s + 1) == Rounds(r, data, i + 1)
  {
    hide View, Round, Rounds, Schedule, Constant;
    RoundsUnfold(r, data, i);
    P(A, s, Constant(i), W[i]);
  }

  // One round with the schedule word computed on the way.
  method ScheduledRound(A: array<Word>, W: array<Word>, i: nat, s: nat, ghost r: Registers, ghost data: seq<Byte>)
    requires A.Length == 8 && W.Length == 64 && A != W && |data| == BLOCK && 16 <= i < 64 && s < 8
    requires View(A[..], s) == Rounds(r, data, i) && Scheduled(W[..], data, i)
    modifies A, W
    ensures View(A[..], s + 1) == Rounds(r, data, i + 1) && Scheduled(W[..], data, i + 1)
  {
    hide View, Round, Rounds, Schedule, Scheduled, Constant;
    RoundsUnfold(r, data, i);
    var x := R(W, i, data);
    P(A, s, Constant(i), x);
  }

  method EightScheduledRounds(A: array<Word>, W: array<Word>, i: nat, ghost r: Registers, ghost data: seq<Byte>)
    requires A.Length == 8 && W.Length == 64 && A != W && |data| == BLOCK && 16 <= i && i + 8 <= 64
    requires View(A[..], 0) == Rounds(r, data, i) && Scheduled(W[..], data, i)
    modifies A, W
    ensures View(A[..], 0) == Rounds(r, data, i + 8) && Scheduled(W[..], data, i + 8)
  {
    hide View, Rounds, Schedule, Scheduled;
    ScheduledRound(A, W, i, 0, r, data);
    ScheduledRound(A, W, i + 1, 1, r, data);
    ScheduledRound(A, W, i + 2, 2, r, data);
    ScheduledRound(A, W, i + 3, 3, r, data);
    ScheduledRound(A, W, i + 4, 4, r, data);
    ScheduledRound(A, W, i + 5, 5, r, data);
    ScheduledRound(A, W, i + 6, 6, r, data);
    ScheduledRound(A, W, i + 7, 7, r, data);
    NamesReturn(A[..]);
  }

  // ---------- digests and HMAC (src/infra/infra_sha256.c:245-341) ----------

  // PUT_UINT32_BE of the eight state words.
  function Output(r: Registers): (s: seq<Byte>)
    ensures |s| == 32
  {
    PutWord(r.a) + PutWord(r.b) + PutWord(r.c) + PutWord(r.d) + PutWord(r.e) + PutWord(r.f) + PutWord(r.g) + PutWord(r.h)
  }

  function PutWord(w: Word): (s: seq<Byte>)
    ensures |s| == 4
  {
    BigEndian(w as nat, 4)
  }

  // The SHA-256 of a message, section 6.2 of FIPS 180-4.
  function Hash(m: seq<Byte>): seq<Byte> {
    Output(Digest(Compress, INITIAL, m, true))
  }

  method Sha256OfChunks(chunks: seq<seq<Byte>>) returns (digest: seq<Byte>)
    requires forall i :: 0 <= i < |chunks| ==> |chunks[i]| < WORD
    ensures digest == Hash(Concat(chunks))
  {
    var state := HashChunks(Compress, INITIAL, true, chunks);
    digest := Output(state);
  }

  function XorByte(b: Byte, pad: bv8): Byte {
    ((b as bv8) ^ pad) as Byte
  }

  function XorAll(s: seq<Byte>, pad: bv8): (r: seq<Byte>)
    ensures |r| == |s|
  {
    seq(|s|, i requires 0 <= i < |s| => XorByte(s[i], pad))
  }

  const IPAD: bv8 := 0x36
  const OPAD: bv8 := 0x5C

  function Numbers(bits: seq<bv8>): seq<Byte> {
    seq(|bits|, i requires 0 <= i < |bits| => bits[i] as Byte)
  }

  // A pad taken away again leaves the key, and where the key is zero it is the pad itself.
  lemma PadsKeepTheKey(bits: seq<bv8>, pad: bv8)
    ensures var k := Numbers(bits);
            && XorAll(XorAll(k, pad), pad) == k
            && forall i :: 0 <= i < |k| && bits[i] == 0 ==> XorAll(k, pad)[i] == pad as int
  {
    hide XorByte;
    forall i | 0 <= i < |bits|
      ensures XorByte(XorByte(bits[i] as int, pad), pad) == bits[i] as int
      ensures bits[i] == 0 ==> XorByte(bits[i] as int, pad) == pad as int
    {
      PadTwice(bits[i], pad);
    }
  }

  lemma PadTwice(x: bv8, pad: bv8)
    ensures XorByte(XorByte(x as int, pad), pad) == x as int && (x == 0 ==> XorByte(x as int, pad) == pad as int)
  {
    hide XorByte;
    XorOfNumber(x, pad);
    XorOfNumber(x ^ pad, pad);
    XorTwice(x, pad);
  }

  lemma XorOfNumber(x: bv8, pad: bv8)
    ensures XorByte(x as int, pad) == (x ^ pad) as int
  {
    hide XorByte;
    BitsOfByte(x);
    XorOfBits(x as int, x, pad);
  }

  lemma XorOfBits(b: Byte, x: bv8, pad: bv8)
    requires b as bv8 == x
    ensures XorByte(b, pad) == (x ^ pad) as int
  {}

  lemma XorTwice(x: bv8, pad: bv8)
    ensures (x ^ pad) ^ pad == x && (x == 0 ==> x ^ pad == pad)
  {}

  lemma BitsOfByte(x: bv8)
    ensures (x as int) as bv8 == x
  {}

  method XorPad(key: seq<Byte>, pad: bv8) returns (block: array<Byte>)
    requires |key| <= BLOCK
    ensures fresh(block) && block[..] == XorAll(key + Zeros(BLOCK - |key|), pad)
  {
    hide XorByte;
    block := new Byte[BLOCK](_ => 0);
    var i := 0;
    while i < |key|
      invariant i <= |key| && forall j :: 0 <= j < BLOCK ==> block[j] == if j < i then key[j] else 0
    {
      block[i] := key[i];
      i := i + 1;
    }
    ghost var k := key + Zeros(BLOCK - |key|);
    i := 0;
    while i < BLOCK
      invariant i <= BLOCK && forall j :: 0 <= j < BLOCK ==> block[j] == if j < i then XorByte(k[j], pad) else k[j]
    {
      block[i] := XorByte(block[i], pad);
      i := i + 1;
    }
  }

  // utils_hmac_sha256: section 2 of RFC 2104 for keys that fit into a block, which a longer key does
  // not; nothing is written for it.
  method HmacSha256(msg: seq<Byte>, key: seq<Byte>) returns (ok: bool, output: seq<Byte>)
    requires |msg| < WORD
    ensures ok <==> |key| <= 64
    ensures ok ==> var k := key + Zeros(64 - |key|); output == Hash(XorAll(k, 0x5C) + Hash(XorAll(k, 0x36) + msg))
  {
    hide Compress, Output, XorAll;
    ok, output := false, [];
    if |key| > BLOCK {
      return;
    }
    var ipad := XorPad(key, IPAD);
    var opad := XorPad(key, OPAD);
    var inner := HashChunks(Compress, INITIAL, true, [ipad[..], msg]);
    TwoChunks(ipad[..], msg);
    output := Output(inner);
    var outer := HashChunks(Compress, INITIAL, true, [opad[..], output]);
    TwoChunks(opad[..], output);
    ok, output := true, Output(outer);
  }

  lemma TwoChunks(a: seq<Byte>, b: seq<Byte>)
    ensures Concat([a, b]) == a + b
  {
    assert [a, b][..1] == [a] && [a][..0] == [];
    assert Concat([]) == [];
    assert Concat([a]) == [] + a;
    assert Concat([a, b]) == Concat([a]) + b;
  }
}
