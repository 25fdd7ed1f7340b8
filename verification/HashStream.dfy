// The streaming buffer that src/infra/infra_sha256.c, infra_sha1.c and infra_md5.c share, over any
// compression function: update, finish, and the padding of section 5.1.1 of FIPS 180-4 and of
// sections 3.1 and 3.2 of RFC 1321.
module HashStream {
  import opened Arithmetic
  import opened Bytes

  const BLOCK: nat := 64
  const WORD: nat := 0x1_0000_0000
  const LENGTH_SPACE: nat := 0x1_0000_0000_0000_0000

  // ---------- the standards ----------

  // The chaining value behind the blocks of m.
  function Fold<S>(compress: (S, seq<Byte>) -> S, h: S, m: seq<Byte>): S
    requires |m| % BLOCK == 0
    decreases |m|
  {
    if m == [] then h else Fold(compress, compress(h, m[..BLOCK]), m[BLOCK..])
  }

  function Zeros(n: nat): (s: seq<Byte>)
    ensures |s| == n && forall i :: 0 <= i < n ==> s[i] == 0
  {
    if n == 0 then [] else [0] + Zeros(n - 1)
  }

  // The number of zero bytes behind the 0x80 of a message of n bytes.
  function ZeroCount(n: nat): nat {
    if n % BLOCK < BLOCK - 8 then BLOCK - 9 - n % BLOCK else 2 * BLOCK - 9 - n % BLOCK
  }

  // It is the least number that leaves eight bytes of the last block for the length.
  lemma ZeroCountIsLeast(n: nat, z: nat)
    ensures (n + 1 + ZeroCount(n)) % BLOCK == BLOCK - 8
    ensures (n + 1 + z) % BLOCK == BLOCK - 8 ==> ZeroCount(n) <= z
  {
    var q, r := n / BLOCK, n % BLOCK;
    if z < ZeroCount(n) {
      assert (n + 1 + z) % BLOCK == (r + 1 + z) % BLOCK;
    }
  }

  lemma PaddedLength(n: nat)
    ensures (n + (9 + ZeroCount(n))) % BLOCK == 0
  {
    var q := n / BLOCK;
    assert n + (9 + ZeroCount(n)) == BLOCK * if n % BLOCK < BLOCK - 8 then q + 1 else q + 2;
  }

  // n as `count` bytes, the lowest first.
  function LittleEndian(n: nat, count: nat): (s: seq<Byte>)
    ensures |s| == count
    decreases count
  {
    if count == 0 then [] else [n % 256] + LittleEndian(n / 256, count - 1)
  }

  function BigEndian(n: nat, count: nat): (s: seq<Byte>)
    ensures |s| == count
    decreases count
  {
    if count == 0 then [] else BigEndian(n / 256, count - 1) + [n % 256]
  }

  // SHA writes the length in bits high byte first, MD5 low byte first.
  function LengthField(n: nat, bigEndian: bool): seq<Byte> {
    if bigEndian then BigEndian(n * 8 % LENGTH_SPACE, 8) else LittleEndian(n * 8 % LENGTH_SPACE, 8)
  }

  function Padding(n: nat, bigEndian: bool): (s: seq<Byte>)
    ensures |s| == 9 + ZeroCount(n)
  {
    [0x80] + Zeros(ZeroCount(n)) + LengthField(n, bigEndian)
  }

  function Padded(m: seq<Byte>, bigEndian: bool): (s: seq<Byte>)
    ensures |s| % BLOCK == 0
  {
    PaddedLength(|m|);
    m + Padding(|m|, bigEndian)
  }

  function Digest<S>(compress: (S, seq<Byte>) -> S, h: S, m: seq<Byte>, bigEndian: bool): S {
    Fold(compress, h, Padded(m, bigEndian))
  }

  lemma {:induction false} FoldAppend<S>(compress: (S, seq<Byte>) -> S, h: S, m: seq<Byte>, n: seq<Byte>)
    requires |m| % BLOCK == 0 && |n| % BLOCK == 0
    ensures Fold(compress, h, m + n) == Fold(compress, Fold(compress, h, m), n)
    decreases |m|
  {
    if m == [] {
      assert m + n == n;
    } else {
      assert (m + n)[..BLOCK] == m[..BLOCK] && (m + n)[BLOCK..] == m[BLOCK..] + n;
      FoldAppend(compress, compress(h, m[..BLOCK]), m[BLOCK..], n);
    }
  }

  lemma FoldBlock<S>(compress: (S, seq<Byte>) -> S, h: S, m: seq<Byte>, block: seq<Byte>)
    requires |m| % BLOCK == 0 && |block| == BLOCK
    ensures Fold(compress, h, m + block) == compress(Fold(compress, h, m), block)
  {
    FoldAppend(compress, h, m, block);
    assert block[..BLOCK] == block && block[BLOCK..] == [];
  }

  // ---------- the context ----------

  // The bytes of m in whole blocks.
  function Whole(n: nat): (w: nat)
    ensures w <= n < w + BLOCK && w % BLOCK == 0
  {
    n - n % BLOCK
  }

  class Context<S> {
    const compress: (S, seq<Byte>) -> S
    const bigEndian: bool
    var total0: nat
    var total1: nat
    var state: S
    const buffer: array<Byte>

    // The whole blocks of m are in the state, what is left of it in the buffer.
    ghost predicate Holds(h: S, m: seq<Byte>)
      reads `state, buffer
    {
      && buffer.Length == BLOCK
      && state == Fold(compress, h, m[..Whole(|m|)])
      && buffer[..|m| % BLOCK] == m[Whole(|m|)..]
    }

    // What the message m leaves behind when the context starts from h.
    ghost predicate Absorbed(h: S, m: seq<Byte>)
      reads this, buffer
    {
      Holds(h, m) && total0 == |m| % WORD && total1 == |m| / WORD % WORD
    }

    constructor (compress: (S, seq<Byte>) -> S, h: S, bigEndian: bool)
      ensures this.compress == compress && this.bigEndian == bigEndian && fresh(buffer)
      ensures Absorbed(h, [])
    {
      this.compress, this.bigEndian := compress, bigEndian;
      total0, total1, state := 0, 0, h;
      buffer := new Byte[BLOCK];
    }

    method Process(data: seq<Byte>)
      requires |data| == BLOCK
      modifies this`state
      ensures state == compress(old(state), data)
    {
      state := compress(state, data);
    }

    method CopyIn(left: nat, input: seq<Byte>)
      requires buffer.Length == BLOCK && left + |input| <= BLOCK
      modifies buffer
      ensures buffer[..left + |input|] == old(buffer[..left]) + input
    {
      var i := 0;
      while i < |input|
        invariant i <= |input| && buffer[..left + i] == old(buffer[..left]) + input[..i]
      {
        buffer[left + i] := input[i];
        i := i + 1;
      }
    }

    // The two words count the bytes, and the first one carries into the second.
    method Count(ghost n: nat, ilen: nat)
      requires ilen < WORD && total0 == n % WORD && total1 == n / WORD % WORD
      modifies this`total0, this`total1
      ensures total0 == (n + ilen) % WORD && total1 == (n + ilen) / WORD % WORD
    {
      CarryWords(n, ilen);
      total0 := (total0 + ilen) % WORD;
      if total0 < ilen {
        total1 := (total1 + 1) % WORD;
      }
    }

    method Update(ghost h: S, ghost m: seq<Byte>, input: seq<Byte>)
      requires Absorbed(h, m) && |input| < WORD
      modifies this`total0, this`total1, this`state, buffer
      ensures Absorbed(h, m + input)
    {
      hide Holds, Whole;
      if |input| == 0 {
        assert m + input == m;
        return;
      }
      var left := total0 % BLOCK;
      var fill := BLOCK - left;
      WordBlock(|m|);
      Count(|m|, |input|);
      if left != 0 && |input| >= fill {
        FillUp(h, m, left, input[..fill]);
        assert m + input == m + input[..fill] + input[fill..];
        Absorb(h, m + input[..fill], 0, input[fill..]);
      } else {
        Absorb(h, m, left, input);
      }
    }

    // The whole blocks of the input go into the state, its rest into the buffer.
    method Absorb(ghost h: S, ghost m: seq<Byte>, left: nat, input: seq<Byte>)
      requires Holds(h, m) && left == |m| % BLOCK && (left == 0 || left + |input| < BLOCK)
      modifies this`state, buffer
      ensures Holds(h, m + input)
    {
      hide Holds;
      var at := TakeBlocks(h, m, left, input);
      assert m + input == m + input[..at] + input[at..];
      if |input| - at > 0 {
        KeepRest(h, m + input[..at], left, input[at..]);
      } else {
        assert input[..at] == input;
      }
    }

    // The loop over the whole blocks of the input; without a block it does nothing.
    method TakeBlocks(ghost h: S, ghost m: seq<Byte>, ghost left: nat, input: seq<Byte>) returns (at: nat)
      requires Holds(h, m) && left == |m| % BLOCK && (left == 0 || left + |input| < BLOCK)
      modifies this`state
      ensures at <= |input| && Holds(h, m + input[..at])
      ensures left == |m + input[..at]| % BLOCK && left + |input| - at < BLOCK
    {
      hide Holds;
      at := 0;
      assert m + input[..0] == m;
      while |input| - at >= BLOCK
        invariant at <= |input| && left == |m + input[..at]| % BLOCK && (left == 0 || left + |input| - at < BLOCK)
        invariant Holds(h, m + input[..at])
      {
        TakeBlock(h, m + input[..at], input[at..at + BLOCK]);
        assert m + input[..at] + input[at..at + BLOCK] == m + input[..at + BLOCK];
        at := at + BLOCK;
      }
    }

    // The buffer is filled up to a block, and the block is processed.
    method FillUp(ghost h: S, ghost m: seq<Byte>, left: nat, piece: seq<Byte>)
      requires Holds(h, m) && left == |m| % BLOCK && left + |piece| == BLOCK
      modifies this`state, buffer
      ensures Holds(h, m + piece) && |m + piece| % BLOCK == 0
    {
      hide Fold;
      CopyIn(left, piece);
      FillsBlock(compress, h, m, piece, buffer[..BLOCK]);
      Process(buffer[..BLOCK]);
      assert (m + piece)[..|m + piece|] == m + piece;
    }

    method TakeBlock(ghost h: S, ghost m: seq<Byte>, block: seq<Byte>)
      requires Holds(h, m) && |m| % BLOCK == 0 && |block| == BLOCK
      modifies this`state
      ensures Holds(h, m + block)
    {
      hide Fold;
      WholeBlock(compress, h, m, block);
      Process(block);
      assert (m + block)[..|m + block|] == m + block;
    }

    method KeepRest(ghost h: S, ghost m: seq<Byte>, left: nat, rest: seq<Byte>)
      requires Holds(h, m) && left == |m| % BLOCK && left + |rest| < BLOCK
      modifies buffer
      ensures Holds(h, m + rest)
    {
      hide Fold;
      CopyIn(left, rest);
      assert (m + rest)[..Whole(|m|)] == m[..Whole(|m|)];
      assert (m + rest)[Whole(|m|)..] == m[Whole(|m|)..] + rest;
    }

    // Pads the message and takes the padding in; the state is then the digest.
    method Finish(ghost h: S, ghost m: seq<Byte>)
      requires Absorbed(h, m)
      modifies this`total0, this`total1, this`state, buffer
      ensures state == Digest(compress, h, m, bigEndian)
    {
      hide Fold, LittleEndian, BigEndian, Zeros, LengthField, Padding, ZeroCount;
      var high := total0 / 0x2000_0000 + total1 * 8 % WORD;
      var low := total0 * 8 % WORD;
      var msglen := if bigEndian then BigEndian(high, 4) + BigEndian(low, 4) else LittleEndian(low, 4) + LittleEndian(high, 4);
      LengthWords(|m|);
      WordBlock(|m|);
      var last := total0 % BLOCK;
      var padn := if last < BLOCK - 8 then BLOCK - 8 - last else 2 * BLOCK - 8 - last;
      var padding := [0x80] + Zeros(BLOCK - 1);
      PaddingPieces(m, bigEndian, padding[..padn], padn);
      Update(h, m, padding[..padn]);
      Update(h, m + padding[..padn], msglen);
      assert Padded(m, bigEndian)[..|Padded(m, bigEndian)|] == Padded(m, bigEndian);
    }
  }

  lemma PaddingPieces(m: seq<Byte>, bigEndian: bool, padding: seq<Byte>, padn: nat)
    requires padn <= BLOCK && padding == ([0x80] + Zeros(BLOCK - 1))[..padn]
    requires padn == var last := |m| % BLOCK; if last < BLOCK - 8 then BLOCK - 8 - last else 2 * BLOCK - 8 - last
    ensures m + padding + LengthField(|m|, bigEndian) == Padded(m, bigEndian)
  {
    hide Zeros, LengthField;
    assert padding == [0x80] + Zeros(ZeroCount(|m|));
    assert m + padding + LengthField(|m|, bigEndian) == m + (padding + LengthField(|m|, bigEndian));
  }

  lemma LengthWords(n: nat)
    ensures var total0, total1 := n % WORD, n / WORD % WORD;
            var high, low := total0 / 0x2000_0000 + total1 * 8 % WORD, total0 * 8 % WORD;
            && high < WORD && low < WORD
            && LengthField(n, true) == BigEndian(high, 4) + BigEndian(low, 4)
            && LengthField(n, false) == LittleEndian(low, 4) + LittleEndian(high, 4)
  {
    hide LittleEndian, BigEndian;
    var total0, total1 := n % WORD, n / WORD % WORD;
    var high, low := total0 / 0x2000_0000 + total1 * 8 % WORD, total0 * 8 % WORD;
    LengthValue(n);
    BigEndianWords(high, low);
    LittleEndianWords(high, low);
  }

  lemma LengthValue(n: nat)
    ensures var total0, total1 := n % WORD, n / WORD % WORD;
            var high, low := total0 / 0x2000_0000 + total1 * 8 % WORD, total0 * 8 % WORD;
            high < WORD && low < WORD && n * 8 % LENGTH_SPACE == high * WORD + low
  {
    var a, r := n / WORD, n % WORD;
    var b, s := a / WORD, a % WORD;
    TimesEight(r);
    TimesEight(s);
    var high, low := r / 0x2000_0000 + s * 8 % WORD, r * 8 % WORD;
    assert n * 8 == (b * 8 + s / 0x2000_0000) * LENGTH_SPACE + (high * WORD + low);
    DivMod(n * 8, LENGTH_SPACE, b * 8 + s / 0x2000_0000, high * WORD + low);
  }

  // Three bits leave the word at the top, and three zeros come in.
  lemma TimesEight(r: nat)
    requires r < WORD
    ensures r / 0x2000_0000 < 8 && r * 8 % WORD <= WORD - 8 && r * 8 == r / 0x2000_0000 * WORD + r * 8 % WORD
  {
    DivMod(r * 8, WORD, r / 0x2000_0000, r % 0x2000_0000 * 8);
  }

  function Power(count: nat): (p: nat)
    ensures p > 0
  {
    if count == 0 then 1 else 256 * Power(count - 1)
  }

  lemma PowerStep(n: nat, low: nat, count: nat)
    requires count > 0 && low < Power(count)
    ensures n * Power(count) == 256 * (n * Power(count - 1)) && low / 256 < Power(count - 1)
  {
    var p := Power(count - 1);
    assert n * (256 * p) == 256 * (n * p);
  }

  lemma {:induction false} BigEndianSplit(n: nat, low: nat, count: nat)
    requires low < Power(count)
    ensures BigEndian(n * Power(count) + low, 4 + count) == BigEndian(n, 4) + BigEndian(low, count)
    decreases count
  {
    if count == 0 {
      assert BigEndian(n, 4) + [] == BigEndian(n, 4);
    } else {
      var x := n * Power(count - 1);
      PowerStep(n, low, count);
      BigEndianSplit(n, low / 256, count - 1);
      DivMod(256 * x + low, 256, x + low / 256, low % 256);
      assert BigEndian(n, 4) + BigEndian(low / 256, count - 1) + [low % 256] == BigEndian(n, 4) + BigEndian(low, count);
    }
  }

  lemma {:induction false} LittleEndianSplit(n: nat, low: nat, count: nat)
    requires low < Power(count)
    ensures LittleEndian(n * Power(count) + low, 4 + count) == LittleEndian(low, count) + LittleEndian(n, 4)
    decreases count
  {
    if count == 0 {
      assert [] + LittleEndian(n, 4) == LittleEndian(n, 4);
    } else {
      var x := n * Power(count - 1);
      PowerStep(n, low, count);
      LittleEndianSplit(n, low / 256, count - 1);
      DivMod(256 * x + low, 256, x + low / 256, low % 256);
      assert [low % 256] + (LittleEndian(low / 256, count - 1) + LittleEndian(n, 4)) == LittleEndian(low, count) + LittleEndian(n, 4);
    }
  }

  lemma PowerFour()
    ensures Power(4) == WORD
  {}

  lemma BigEndianWords(high: nat, low: nat)
    requires low < WORD
    ensures BigEndian(high * WORD + low, 8) == BigEndian(high, 4) + BigEndian(low, 4)
  {
    hide BigEndian, Power;
    PowerFour();
    BigEndianSplit(high, low, 4);
  }

  lemma LittleEndianWords(high: nat, low: nat)
    requires low < WORD
    ensures LittleEndian(high * WORD + low, 8) == LittleEndian(low, 4) + LittleEndian(high, 4)
  {
    hide LittleEndian, Power;
    PowerFour();
    LittleEndianSplit(high, low, 4);
  }

  lemma WordBlock(n: nat)
    ensures n % WORD % BLOCK == n % BLOCK
  {
    var r := n % WORD;
    DivMod(n, BLOCK, n / WORD * (WORD / BLOCK) + r / BLOCK, r % BLOCK);
  }

  lemma CarryWords(n: nat, k: nat)
    requires k < WORD
    ensures (n + k) % WORD == (n % WORD + k) % WORD
    ensures (n + k) / WORD % WORD == if (n + k) % WORD < k then (n / WORD % WORD + 1) % WORD else n / WORD % WORD
  {
  }

  // The end of the message and the start of the input make a block.
  lemma FillsBlock<S>(compress: (S, seq<Byte>) -> S, h: S, m: seq<Byte>, piece: seq<Byte>, block: seq<Byte>)
    requires |m| % BLOCK + |piece| == BLOCK && block == m[Whole(|m|)..] + piece
    ensures |m + piece| % BLOCK == 0
    ensures Fold(compress, h, m + piece) == compress(Fold(compress, h, m[..Whole(|m|)]), block)
  {
    hide Fold, Whole;
    var w := Whole(|m|);
    FilledLength(|m|, |piece|);
    FilledText(m, w, piece);
    FoldBlock(compress, h, m[..w], block);
  }

  lemma FilledLength(n: nat, k: nat)
    requires n % BLOCK + k == BLOCK
    ensures n - Whole(n) + k == BLOCK && (n + k) % BLOCK == 0
  {
    DivMod(n + k, BLOCK, n / BLOCK + 1, 0);
  }

  lemma FilledText(m: seq<Byte>, w: nat, piece: seq<Byte>)
    requires w <= |m|
    ensures m[..w] + (m[w..] + piece) == m + piece
  {}

  lemma WholeBlock<S>(compress: (S, seq<Byte>) -> S, h: S, m: seq<Byte>, block: seq<Byte>)
    requires |m| % BLOCK == 0 && |block| == BLOCK
    ensures Fold(compress, h, m + block) == compress(Fold(compress, h, m[..Whole(|m|)]), block)
  {
    FoldBlock(compress, h, m, block);
    assert m[..Whole(|m|)] == m;
  }

  // ---------- any split of a message ----------

  function Concat(chunks: seq<seq<Byte>>): seq<Byte> {
    if chunks == [] then [] else Concat(chunks[..|chunks| - 1]) + chunks[|chunks| - 1]
  }

  // Any number of update calls, then finish: the digest is that of the padded whole, however the
  // message is cut.
  method HashChunks<S>(compress: (S, seq<Byte>) -> S, h: S, bigEndian: bool, chunks: seq<seq<Byte>>) returns (digest: S)
    requires forall i :: 0 <= i < |chunks| ==> |chunks[i]| < WORD
    ensures digest == Digest(compress, h, Concat(chunks), bigEndian)
  {
    hide Context.Absorbed, Digest, Fold;
    var context := new Context(compress, h, bigEndian);
    var i := 0;
    while i < |chunks|
      invariant i <= |chunks| && fresh(context) && fresh(context.buffer)
      invariant context.compress == compress && context.bigEndian == bigEndian
      invariant context.Absorbed(h, Concat(chunks[..i]))
    {
      assert Concat(chunks[..i + 1]) == Concat(chunks[..i]) + chunks[i] by {
        assert chunks[..i + 1][..i] == chunks[..i];
      }
      context.Update(h, Concat(chunks[..i]), chunks[i]);
      i := i + 1;
    }
    assert chunks[..i] == chunks;
    context.Finish(h, Concat(chunks));
    digest := context.state;
  }

  // utils_sha256, utils_sha1 and utils_md5: one update with the whole message.
  method HashOnce<S>(compress: (S, seq<Byte>) -> S, h: S, bigEndian: bool, input: seq<Byte>) returns (digest: S)
    requires |input| < WORD
    ensures digest == Digest(compress, h, input, bigEndian)
  {
    var context := new Context(compress, h, bigEndian);
    context.Update(h, [], input);
    assert [] + input == input;
    context.Finish(h, input);
    digest := context.state;
  }
}
