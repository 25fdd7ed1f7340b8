// The CBC and CFB128 modes of sections 6.2 and 6.3 of NIST SP 800-38A over any
// block function, and what src/infra/infra_aes.c:836-943 relies on: decryption
// undoes encryption, and a message may be processed in pieces.
module CipherModes {
  import opened AesCipher
  import opened GaloisField

  type BlockFunction = Block -> Block

  function XorBlock(a: Block, b: Block): (r: Block) {
    seq(16, i requires 0 <= i < 16 => Add(a[i], b[i]))
  }

  lemma XorBlockTwice(a: Block, b: Block)
    ensures XorBlock(XorBlock(a, b), b) == a
  {
    hide Add;
    AddAlgebra();
  }

  ghost predicate Undoes(d: BlockFunction, e: BlockFunction) {
    forall b: Block :: d(e(b)) == b
  }

  // ---------- CBC ----------

  // Block i of a buffer, and the block before it, which for the first one is the iv.
  function BlockAt(p: seq<bv8>, i: nat): Block
    requires 16 * i + 16 <= |p|
  {
    p[16 * i..16 * i + 16]
  }

  function BlockBefore(iv: Block, c: seq<bv8>, i: nat): Block
    requires 16 * i <= |c|
  {
    if i == 0 then iv else BlockAt(c, i - 1)
  }

  // Each ciphertext block is the image of the plaintext block plus the ciphertext block before it.
  ghost predicate IsCbcEncryption(e: BlockFunction, iv: Block, p: seq<bv8>, c: seq<bv8>) {
    && |p| == |c| && |p| % 16 == 0
    && forall i: nat :: 16 * i < |p| ==> BlockAt(c, i) == e(XorBlock(BlockAt(p, i), BlockBefore(iv, c, i)))
  }

  ghost predicate IsCbcDecryption(d: BlockFunction, iv: Block, c: seq<bv8>, p: seq<bv8>) {
    && |p| == |c| && |p| % 16 == 0
    && forall i: nat :: 16 * i < |p| ==> BlockAt(p, i) == XorBlock(d(BlockAt(c, i)), BlockBefore(iv, c, i))
  }

  lemma BlocksDetermine(a: seq<bv8>, b: seq<bv8>)
    requires |a| == |b| && |a| % 16 == 0
    requires forall i: nat :: 16 * i < |a| ==> BlockAt(a, i) == BlockAt(b, i)
    ensures a == b
  {
    forall k | 0 <= k < |a|
      ensures a[k] == b[k]
    {
      assert BlockAt(a, k / 16)[k % 16] == BlockAt(b, k / 16)[k % 16];
    }
  }

  lemma CbcRoundTrip(e: BlockFunction, d: BlockFunction, iv: Block, p: seq<bv8>, c: seq<bv8>, q: seq<bv8>)
    requires Undoes(d, e) && IsCbcEncryption(e, iv, p, c) && IsCbcDecryption(d, iv, c, q)
    ensures q == p
  {
    hide XorBlock, BlockAt, BlockBefore;
    forall i: nat | 16 * i < |p|
      ensures BlockAt(q, i) == BlockAt(p, i)
    {
      XorBlockTwice(BlockAt(p, i), BlockBefore(iv, c, i));
    }
    BlocksDetermine(q, p);
  }

  lemma BlockBeforeIs(iv: Block, c: seq<bv8>, i: nat)
    requires 16 * i <= |c|
    ensures BlockBefore(iv, c, i) == if i == 0 then iv else BlockAt(c, i - 1)
  {}

  // Encryption of a given message is unique.
  lemma {:induction false} CbcBlockUnique(e: BlockFunction, iv: Block, p: seq<bv8>, c: seq<bv8>, c': seq<bv8>, i: nat)
    requires IsCbcEncryption(e, iv, p, c) && IsCbcEncryption(e, iv, p, c') && 16 * i < |p|
    ensures BlockAt(c, i) == BlockAt(c', i)
    decreases i
  {
    hide XorBlock, BlockAt, BlockBefore;
    if i > 0 {
      CbcBlockUnique(e, iv, p, c, c', i - 1);
    }
    BlockBeforeIs(iv, c, i);
    BlockBeforeIs(iv, c', i);
  }

  lemma CbcUnique(e: BlockFunction, iv: Block, p: seq<bv8>, c: seq<bv8>, c': seq<bv8>)
    requires IsCbcEncryption(e, iv, p, c) && IsCbcEncryption(e, iv, p, c')
    ensures c == c'
  {
    hide XorBlock, BlockAt, BlockBefore;
    forall i: nat | 16 * i < |p|
      ensures BlockAt(c, i) == BlockAt(c', i)
    {
      CbcBlockUnique(e, iv, p, c, c', i);
    }
    BlocksDetermine(c, c');
  }

  // The iv that the code leaves behind: the last ciphertext block.
  function NextIv(iv: Block, c: seq<bv8>): Block
    requires |c| % 16 == 0
  {
    BlockBefore(iv, c, |c| / 16)
  }

  lemma BlockOfSplit(a: seq<bv8>, b: seq<bv8>, i: nat)
    requires |a| % 16 == 0 && |b| % 16 == 0 && 16 * i < |a| + |b|
    ensures 16 * i < |a| ==> BlockAt(a + b, i) == BlockAt(a, i)
    ensures 16 * i >= |a| ==> i >= |a| / 16 && BlockAt(a + b, i) == BlockAt(b, i - |a| / 16)
  {
    if 16 * i < |a| {
      assert (a + b)[16 * i..16 * i + 16] == a[16 * i..16 * i + 16];
    } else {
      var j := i - |a| / 16;
      assert 16 * i == |a| + 16 * j;
      assert (a + b)[16 * i..16 * i + 16] == b[16 * j..16 * j + 16];
    }
  }

  lemma BeforeOfSplit(iv: Block, a: seq<bv8>, b: seq<bv8>, i: nat)
    requires |a| % 16 == 0 && |b| % 16 == 0 && 16 * i < |a| + |b|
    ensures 16 * i < |a| ==> BlockBefore(iv, a + b, i) == BlockBefore(iv, a, i)
    ensures 16 * i >= |a| ==> i >= |a| / 16 && BlockBefore(iv, a + b, i) == BlockBefore(NextIv(iv, a), b, i - |a| / 16)
  {
    if i > 0 {
      BlockOfSplit(a, b, i - 1);
    }
  }

  // Two calls, the second with the iv the first left, do the work of one.
  lemma CbcEncryptSplit(e: BlockFunction, iv: Block, p: seq<bv8>, c: seq<bv8>, p': seq<bv8>, c': seq<bv8>)
    requires IsCbcEncryption(e, iv, p, c) && IsCbcEncryption(e, NextIv(iv, c), p', c')
    ensures IsCbcEncryption(e, iv, p + p', c + c') && NextIv(iv, c + c') == NextIv(NextIv(iv, c), c')
  {
    hide XorBlock, BlockAt, BlockBefore, NextIv;
    forall i: nat | 16 * i < |p + p'|
      ensures BlockAt(c + c', i) == e(XorBlock(BlockAt(p + p', i), BlockBefore(iv, c + c', i)))
    {
      BlockOfSplit(p, p', i);
      BlockOfSplit(c, c', i);
      BeforeOfSplit(iv, c, c', i);
    }
    NextIvSplit(iv, c, c');
  }

  lemma CbcDecryptSplit(d: BlockFunction, iv: Block, c: seq<bv8>, p: seq<bv8>, c': seq<bv8>, p': seq<bv8>)
    requires IsCbcDecryption(d, iv, c, p) && IsCbcDecryption(d, NextIv(iv, c), c', p')
    ensures IsCbcDecryption(d, iv, c + c', p + p') && NextIv(iv, c + c') == NextIv(NextIv(iv, c), c')
  {
    hide XorBlock, BlockAt, BlockBefore, NextIv;
    forall i: nat | 16 * i < |p + p'|
      ensures BlockAt(p + p', i) == XorBlock(d(BlockAt(c + c', i)), BlockBefore(iv, c + c', i))
    {
      BlockOfSplit(p, p', i);
      BlockOfSplit(c, c', i);
      BeforeOfSplit(iv, c, c', i);
    }
    NextIvSplit(iv, c, c');
  }

  lemma NextIvSplit(iv: Block, a: seq<bv8>, b: seq<bv8>)
    requires |a| % 16 == 0 && |b| % 16 == 0
    ensures NextIv(iv, a + b) == NextIv(NextIv(iv, a), b)
  {
    if b == [] {
      assert a + b == a;
    } else {
      BlockOfSplit(a, b, (|a| + |b|) / 16 - 1);
    }
  }

  // ---------- CFB128 ----------

  // The shift register and the position in it, carried between calls.
  datatype CfbState = CfbState(iv: Block, n: nat)

  function Register(e: BlockFunction, s: CfbState): Block {
    if s.n == 0 then e(s.iv) else s.iv
  }

  // The state after the ciphertext byte c has been shifted in.
  function ShiftIn(e: BlockFunction, s: CfbState, c: bv8): CfbState
    requires s.n < 16
  {
    CfbState(Register(e, s)[s.n := c], (s.n + 1) % 16)
  }

  // The state after the first i ciphertext bytes.
  function StateAt(e: BlockFunction, s: CfbState, c: seq<bv8>, i: nat): (t: CfbState)
    requires s.n < 16 && i <= |c|
    ensures t.n < 16
    decreases i
  {
    if i == 0 then s else ShiftIn(e, StateAt(e, s, c, i - 1), c[i - 1])
  }

  function KeyByte(e: BlockFunction, s: CfbState): bv8
    requires s.n < 16
  {
    Register(e, s)[s.n]
  }

  // Ciphertext byte i; the keystream depends on the ciphertext alone.
  ghost predicate CfbByte(e: BlockFunction, s: CfbState, p: seq<bv8>, c: seq<bv8>, i: nat)
    requires s.n < 16 && |p| == |c| && i < |c|
  {
    c[i] == Add(KeyByte(e, StateAt(e, s, c, i)), p[i])
  }

  // p and c are plaintext and ciphertext of each other.
  ghost predicate IsCfb(e: BlockFunction, s: CfbState, p: seq<bv8>, c: seq<bv8>)
    requires s.n < 16
  {
    |p| == |c| && forall i: nat :: i < |c| ==> CfbByte(e, s, p, c, i)
  }

  // A ciphertext has one plaintext, so decryption returns the message that was encrypted.
  lemma CfbRoundTrip(e: BlockFunction, s: CfbState, p: seq<bv8>, c: seq<bv8>, q: seq<bv8>)
    requires s.n < 16 && IsCfb(e, s, p, c) && IsCfb(e, s, q, c)
    ensures q == p
  {
    hide Add, KeyByte, StateAt;
    forall i: nat | i < |c|
      ensures q[i] == p[i]
    {
      assert CfbByte(e, s, p, c, i) && CfbByte(e, s, q, c, i);
      var k := KeyByte(e, StateAt(e, s, c, i));
      AddCancels(k, p[i]);
      AddCancels(k, q[i]);
    }
  }

  lemma {:induction false} StateOfPrefix(e: BlockFunction, s: CfbState, c: seq<bv8>, c': seq<bv8>, i: nat)
    requires s.n < 16 && i <= |c| && i <= |c'|
    requires forall j: nat :: j < i ==> c[j] == c'[j]
    ensures StateAt(e, s, c, i) == StateAt(e, s, c', i)
    decreases i
  {
    hide ShiftIn;
    if i > 0 {
      StateOfPrefix(e, s, c, c', i - 1);
    }
  }

  lemma {:induction false} CfbUniqueAt(e: BlockFunction, s: CfbState, p: seq<bv8>, c: seq<bv8>, c': seq<bv8>, i: nat)
    requires s.n < 16 && IsCfb(e, s, p, c) && IsCfb(e, s, p, c') && i <= |p|
    ensures forall j: nat :: j < i ==> c[j] == c'[j]
    decreases i
  {
    hide Add, KeyByte, StateAt;
    if i > 0 {
      CfbUniqueAt(e, s, p, c, c', i - 1);
      assert CfbByte(e, s, p, c, i - 1) && CfbByte(e, s, p, c', i - 1);
      StateOfPrefix(e, s, c, c', i - 1);
    }
  }

  lemma CfbUnique(e: BlockFunction, s: CfbState, p: seq<bv8>, c: seq<bv8>, c': seq<bv8>)
    requires s.n < 16 && IsCfb(e, s, p, c) && IsCfb(e, s, p, c')
    ensures c == c'
  {
    CfbUniqueAt(e, s, p, c, c', |p|);
  }

  lemma {:induction false} StateOfSplit(e: BlockFunction, s: CfbState, a: seq<bv8>, b: seq<bv8>, i: nat)
    requires s.n < 16 && i <= |b|
    ensures StateAt(e, s, a + b, |a| + i) == StateAt(e, StateAt(e, s, a, |a|), b, i)
    decreases i
  {
    hide ShiftIn;
    if i == 0 {
      StateOfPrefix(e, s, a + b, a, |a|);
    } else {
      StateOfSplit(e, s, a, b, i - 1);
      assert (a + b)[|a| + i - 1] == b[i - 1];
    }
  }

  // Processing a and then b with the carried register is processing a + b, at any byte lengths.
  lemma CfbSplit(e: BlockFunction, s: CfbState, a: seq<bv8>, ca: seq<bv8>, b: seq<bv8>, cb: seq<bv8>)
    requires s.n < 16 && IsCfb(e, s, a, ca) && IsCfb(e, StateAt(e, s, ca, |ca|), b, cb)
    ensures IsCfb(e, s, a + b, ca + cb)
    ensures StateAt(e, s, ca + cb, |ca + cb|) == StateAt(e, StateAt(e, s, ca, |ca|), cb, |cb|)
  {
    hide CfbByte, StateAt;
    forall i: nat | i < |ca + cb|
      ensures CfbByte(e, s, a + b, ca + cb, i)
    {
      CfbSplitAt(e, s, a, ca, b, cb, i);
    }
    StateOfSplit(e, s, ca, cb, |cb|);
  }

  lemma CfbSplitAt(e: BlockFunction, s: CfbState, a: seq<bv8>, ca: seq<bv8>, b: seq<bv8>, cb: seq<bv8>, i: nat)
    requires s.n < 16 && |a| == |ca| && |b| == |cb| && i < |ca + cb|
    requires i < |ca| ==> CfbByte(e, s, a, ca, i)
    requires i >= |ca| ==> CfbByte(e, StateAt(e, s, ca, |ca|), b, cb, i - |ca|)
    ensures CfbByte(e, s, a + b, ca + cb, i)
  {
    hide Add, KeyByte, StateAt;
    if i < |ca| {
      StateOfPrefix(e, s, ca + cb, ca, i);
    } else {
      StateOfSplit(e, s, ca, cb, i - |ca|);
    }
  }

  // From position 0 of a fresh iv, after i bytes: the register holds the ciphertext of the
  // current segment and, behind it, the rest of that segment's keystream k.
  ghost predicate WithinSegment(t: CfbState, c: seq<bv8>, i: nat, k: Block) {
    && i <= |c| && t.n == i % 16
    && (forall j: nat :: j < t.n ==> t.iv[j] == c[i - t.n + j])
    && (forall j: nat :: t.n <= j < 16 ==> t.iv[j] == k[j])
  }

  // A byte shifted in at a position inside the segment, and at its end.
  lemma ShiftWithin(t: CfbState, r: Block, c: seq<bv8>, i: nat, k: Block)
    requires i < |c| && t.n == i % 16
    requires WithinSegment(CfbState(r, t.n), c, i, k)
    ensures
      var u := CfbState(r[t.n := c[i]], (t.n + 1) % 16);
      && (t.n < 15 ==> WithinSegment(u, c, i + 1, k))
      && (t.n == 15 ==> u.n == 0 && (i + 1) % 16 == 0 && i >= 15 && u.iv == c[i - 15..i + 1])
  {
    NextPosition(i);
    if t.n == 15 {
      SegmentFull(r, c, i - 15);
    } else {
      SegmentGrows(r, c, i - t.n, t.n, k);
    }
  }

  // With segment positions instead of remainders: s is where the segment starts.
  lemma SegmentGrows(r: Block, c: seq<bv8>, s: nat, n: nat, k: Block)
    requires n < 15 && s + n < |c|
    requires (forall j: nat :: j < n ==> r[j] == c[s + j]) && forall j: nat :: n <= j < 16 ==> r[j] == k[j]
    ensures var u := r[n := c[s + n]];
            (forall j: nat :: j < n + 1 ==> u[j] == c[s + j]) && forall j: nat :: n + 1 <= j < 16 ==> u[j] == k[j]
  {}

  lemma SegmentFull(r: Block, c: seq<bv8>, s: nat)
    requires s + 15 < |c| && forall j: nat :: j < 15 ==> r[j] == c[s + j]
    ensures r[15 := c[s + 15]] == c[s..s + 16]
  {}

  ghost predicate Contents(e: BlockFunction, iv: Block, c: seq<bv8>, t: CfbState, i: nat)
    requires i <= |c|
  {
    var k := BlockBefore(iv, c, i / 16);
    && t.n == i % 16
    && (t.n == 0 ==> t.iv == k)
    && WithinSegment(CfbState(Register(e, t), t.n), c, i, e(k))
  }

  lemma NextPosition(i: nat)
    ensures i % 16 < 15 ==> (i + 1) % 16 == i % 16 + 1 && (i + 1) / 16 == i / 16
    ensures i % 16 == 15 ==> (i + 1) % 16 == 0 && i >= 15 && (i + 1) / 16 > 0 && 16 * ((i + 1) / 16 - 1) == i - 15
  {}

  lemma ContentsStep(e: BlockFunction, iv: Block, c: seq<bv8>, t: CfbState, i: nat)
    requires i < |c| && Contents(e, iv, c, t, i)
    ensures t.n < 16 && Contents(e, iv, c, ShiftIn(e, t, c[i]), i + 1)
  {
    var r := Register(e, t);
    var k := BlockBefore(iv, c, i / 16);
    NextPosition(i);
    ShiftWithin(t, r, c, i, e(k));
    hide WithinSegment, BlockBefore;
    if t.n == 15 {
      BlockBeforeIs(iv, c, (i + 1) / 16);
      SegmentStart(c, i + 1, e(c[i - 15..i + 1]));
    }
  }

  lemma {:induction false} RegisterContents(e: BlockFunction, iv: Block, c: seq<bv8>, i: nat)
    requires i <= |c|
    ensures Contents(e, iv, c, StateAt(e, CfbState(iv, 0), c, i), i)
    decreases i
  {
    if i == 0 {
      BlockBeforeIs(iv, c, 0);
      SegmentStart(c, 0, e(iv));
    } else {
      hide Contents, ShiftIn;
      RegisterContents(e, iv, c, i - 1);
      ContentsStep(e, iv, c, StateAt(e, CfbState(iv, 0), c, i - 1), i - 1);
    }
  }

  lemma SegmentStart(c: seq<bv8>, i: nat, k: Block)
    requires i <= |c| && i % 16 == 0
    ensures WithinSegment(CfbState(k, 0), c, i, k)
  {}

  // Section 6.3 with 128-bit segments: byte i of the ciphertext is byte i % 16 of the
  // cipher of the previous ciphertext segment, plus the plaintext byte.
  lemma CfbMeetsStandard(e: BlockFunction, iv: Block, p: seq<bv8>, c: seq<bv8>, i: nat)
    requires IsCfb(e, CfbState(iv, 0), p, c) && i < |c|
    ensures c[i] == Add(e(BlockBefore(iv, c, i / 16))[i % 16], p[i])
  {
    hide Add, BlockBefore, StateAt;
    RegisterContents(e, iv, c, i);
    assert CfbByte(e, CfbState(iv, 0), p, c, i);
  }
}
