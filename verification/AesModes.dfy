// CBC and CFB128 over byte buffers, in place where the caller asks for it, and the
// 128-bit wrapper object (src/infra/infra_aes.c:836-1114).
module AesModes {
  import opened GaloisField
  import opened Fips197
  import opened AesCipher
  import opened CipherModes

  datatype Mode = Encrypt | Decrypt

  const INVALID_INPUT_LENGTH: int := -0x0022

  ghost function EncryptionFunction(key: seq<bv8>): BlockFunction
    requires KeyBits(8 * |key|)
  {
    (b: Block) => Encrypted(key, b)
  }

  ghost function DecryptionFunction(key: seq<bv8>): BlockFunction
    requires KeyBits(8 * |key|)
  {
    (b: Block) => Decrypted(key, b)
  }

  lemma CipherUndoes(key: seq<bv8>)
    requires KeyBits(8 * |key|)
    ensures Undoes(DecryptionFunction(key), EncryptionFunction(key))
  {
    hide Encrypted, Decrypted;
    forall b: Block
      ensures DecryptionFunction(key)(EncryptionFunction(key)(b)) == b
    {
      DecryptEncrypt(key, b);
    }
  }

  // The context holds the encryption, or the decryption, schedule of the key.
  ghost predicate EncReady(ctx: Context, key: seq<bv8>)
    reads ctx, ctx.buf
    requires KeyBits(8 * |key|)
  {
    && ctx.Valid() && ctx.nr == NumRounds(|key| / 4)
    && HasKeys(ctx.buf[..], Schedule(key))
  }

  ghost predicate DecReady(ctx: Context, key: seq<bv8>)
    reads ctx, ctx.buf
    requires KeyBits(8 * |key|)
  {
    && ctx.Valid() && ctx.nr == NumRounds(|key| / 4)
    && HasKeys(ctx.buf[..], InvKeys(Schedule(key), ctx.nr))
  }

  method EcbEncrypt(ctx: Context, input: array<bv8>, inAt: nat, output: array<bv8>, outAt: nat, ghost key: seq<bv8>)
    requires KeyBits(8 * |key|) && EncReady(ctx, key)
    requires inAt + 16 <= input.Length && outAt + 16 <= output.Length
    modifies output
    ensures output[..] == Splice(old(output[..]), outAt, EncryptionFunction(key)(old(input[inAt..inAt + 16])))
  {
    hide Schedule, Cipher, HasKeys, Splice, StateOf, BlockOf;
    ctx.EncryptBlock(input, inAt, output, outAt, Schedule(key));
  }

  method EcbDecrypt(ctx: Context, input: array<bv8>, inAt: nat, output: array<bv8>, outAt: nat, ghost key: seq<bv8>)
    requires KeyBits(8 * |key|) && DecReady(ctx, key)
    requires inAt + 16 <= input.Length && outAt + 16 <= output.Length
    modifies output
    ensures output[..] == Splice(old(output[..]), outAt, DecryptionFunction(key)(old(input[inAt..inAt + 16])))
  {
    hide Schedule, EqInvCipher, InvKeys, HasKeys, Splice, StateOf, BlockOf;
    ctx.DecryptBlock(input, inAt, output, outAt, InvKeys(Schedule(key), ctx.nr));
  }

  method XorInto(dst: array<bv8>, dAt: nat, src: array<bv8>, sAt: nat, iv: array<bv8>)
    requires iv.Length == 16 && iv != dst
    requires dAt + 16 <= dst.Length && sAt + 16 <= src.Length
    requires src == dst ==> sAt == dAt
    modifies dst
    ensures dst[..] == Splice(old(dst[..]), dAt, XorBlock(old(src[sAt..sAt + 16]), iv[..]))
  {
    hide Add;
    for i := 0 to 16
      invariant forall k: nat :: k < i ==> dst[dAt + k] == Add(old(src[sAt + k]), iv[k])
      invariant forall k: nat :: k < dst.Length && (k < dAt || dAt + i <= k) ==> dst[k] == old(dst[k])
    {
      dst[dAt + i] := Add(src[sAt + i], iv[i]);
    }
  }

  method CopyBlock(dst: array<bv8>, src: seq<bv8>)
    requires dst.Length == 16 && |src| == 16
    modifies dst
    ensures dst[..] == src
  {
    for i := 0 to 16
      invariant dst[..i] == src[..i]
    {
      dst[i] := src[i];
    }
  }

  lemma SpliceBack(b: seq<bv8>, at: nat, c: seq<bv8>)
    requires at + |c| <= |b|
    ensures Splice(b, at, c)[at..at + |c|] == c
  {}

  lemma SpliceOver(b: seq<bv8>, at: nat, c: seq<bv8>, d: seq<bv8>)
    requires at + |c| <= |b| && |d| == |c|
    ensures Splice(Splice(b, at, c), at, d) == Splice(b, at, d)
  {}

  lemma OneBlock(f: BlockFunction, iv: Block, x: Block, y: Block)
    ensures y == f(XorBlock(x, iv)) ==> IsCbcEncryption(f, iv, x, y)
    ensures y == XorBlock(f(x), iv) ==> IsCbcDecryption(f, iv, x, y)
    ensures NextIv(iv, x) == x
  {
    hide XorBlock;
    assert BlockAt(x, 0) == x && BlockAt(y, 0) == y;
  }

  // One block of each loop of infra_aes_crypt_cbc.
  method CbcEncryptBlock(ctx: Context, iv: array<bv8>, input: array<bv8>, inAt: nat, output: array<bv8>, outAt: nat, ghost key: seq<bv8>)
      returns (ghost c: Block)
    requires KeyBits(8 * |key|) && EncReady(ctx, key)
    requires iv.Length == 16 && iv != output
    requires inAt + 16 <= input.Length && outAt + 16 <= output.Length
    requires input == output ==> inAt == outAt
    modifies iv, output
    ensures IsCbcEncryption(EncryptionFunction(key), old(iv[..]), old(input[inAt..inAt + 16]), c)
    ensures output[..] == Splice(old(output[..]), outAt, c) && iv[..] == c
  {
    hide EncryptionFunction, XorBlock, Splice, Schedule, HasKeys;
    ghost var o := output[..];
    ghost var x := XorBlock(input[inAt..inAt + 16], iv[..]);
    XorInto(output, outAt, input, inAt, iv);
    SpliceBack(o, outAt, x);
    assert output[outAt..outAt + 16] == output[..][outAt..outAt + 16];
    c := EncryptionFunction(key)(x);
    EcbEncrypt(ctx, output, outAt, output, outAt, key);
    SpliceOver(o, outAt, x, c);
    SpliceBack(o, outAt, c);
    assert output[outAt..outAt + 16] == output[..][outAt..outAt + 16];
    CopyBlock(iv, output[outAt..outAt + 16]);
    OneBlock(EncryptionFunction(key), old(iv[..]), old(input[inAt..inAt + 16]), c);
  }

  method CbcDecryptBlock(ctx: Context, iv: array<bv8>, input: array<bv8>, inAt: nat, output: array<bv8>, outAt: nat, ghost key: seq<bv8>)
      returns (ghost p: Block)
    requires KeyBits(8 * |key|) && DecReady(ctx, key)
    requires iv.Length == 16 && iv != output && iv != input
    requires inAt + 16 <= input.Length && outAt + 16 <= output.Length
    requires input == output ==> inAt == outAt
    modifies iv, output
    ensures IsCbcDecryption(DecryptionFunction(key), old(iv[..]), old(input[inAt..inAt + 16]), p)
    ensures output[..] == Splice(old(output[..]), outAt, p) && iv[..] == old(input[inAt..inAt + 16])
  {
    hide DecryptionFunction, XorBlock, Splice, Schedule, HasKeys, InvKeys;
    ghost var o := output[..];
    var temp := input[inAt..inAt + 16];
    ghost var d := DecryptionFunction(key)(temp);
    EcbDecrypt(ctx, input, inAt, output, outAt, key);
    SpliceBack(o, outAt, d);
    assert output[outAt..outAt + 16] == output[..][outAt..outAt + 16];
    p := XorBlock(d, iv[..]);
    XorInto(output, outAt, output, outAt, iv);
    SpliceOver(o, outAt, d, p);
    CopyBlock(iv, temp);
    OneBlock(DecryptionFunction(key), old(iv[..]), temp, p);
  }

  // What a call leaves in its output buffer and in the iv.
  ghost predicate CbcResult(mode: Mode, key: seq<bv8>, iv: Block, x: seq<bv8>, y: seq<bv8>, next: seq<bv8>)
    requires KeyBits(8 * |key|)
  {
    && |x| % 16 == 0 && |y| == |x|
    && match mode
       case Encrypt => IsCbcEncryption(EncryptionFunction(key), iv, x, y) && next == NextIv(iv, y)
       case Decrypt => IsCbcDecryption(DecryptionFunction(key), iv, x, y) && next == NextIv(iv, x)
  }

  ghost predicate Ready(mode: Mode, ctx: Context, key: seq<bv8>)
    reads ctx, ctx.buf
    requires KeyBits(8 * |key|)
  {
    match mode
    case Encrypt => EncReady(ctx, key)
    case Decrypt => DecReady(ctx, key)
  }

  lemma CbcExtend(mode: Mode, key: seq<bv8>, iv: Block, x: seq<bv8>, y: seq<bv8>, next: Block, x': seq<bv8>, y': seq<bv8>, next': seq<bv8>)
    requires KeyBits(8 * |key|)
    requires CbcResult(mode, key, iv, x, y, next) && CbcResult(mode, key, next, x', y', next')
    ensures CbcResult(mode, key, iv, x + x', y + y', next')
  {
    hide EncryptionFunction, DecryptionFunction, IsCbcEncryption, IsCbcDecryption, NextIv;
    match mode
    case Encrypt =>
      CbcSizes(EncryptionFunction(key), iv, x, y);
      CbcSizes(EncryptionFunction(key), next, x', y');
      CbcEncryptSplit(EncryptionFunction(key), iv, x, y, x', y');
    case Decrypt =>
      CbcDecryptSplit(DecryptionFunction(key), iv, x, y, x', y');
  }

  lemma CbcSizes(f: BlockFunction, iv: Block, x: seq<bv8>, y: seq<bv8>)
    requires IsCbcEncryption(f, iv, x, y)
    ensures |x| == |y| && |x| % 16 == 0
  {}

  lemma CbcNothing(mode: Mode, key: seq<bv8>, iv: Block)
    requires KeyBits(8 * |key|)
    ensures CbcResult(mode, key, iv, [], [], iv)
  {}

  method CbcStep(ctx: Context, mode: Mode, iv: array<bv8>, input: array<bv8>, inAt: nat, output: array<bv8>, outAt: nat, ghost key: seq<bv8>)
      returns (ghost y: Block)
    requires KeyBits(8 * |key|) && Ready(mode, ctx, key)
    requires iv.Length == 16 && iv != output && iv != input
    requires inAt + 16 <= input.Length && outAt + 16 <= output.Length
    requires input == output ==> inAt == outAt
    modifies iv, output
    ensures CbcResult(mode, key, old(iv[..]), old(input[inAt..inAt + 16]), y, iv[..])
    ensures output[..] == Splice(old(output[..]), outAt, y)
  {
    hide EncryptionFunction, DecryptionFunction, IsCbcEncryption, IsCbcDecryption, NextIv, Splice, EncReady, DecReady;
    if mode == Encrypt {
      y := CbcEncryptBlock(ctx, iv, input, inAt, output, outAt, key);
      OneBlock(EncryptionFunction(key), old(iv[..]), y, y);
    } else {
      y := CbcDecryptBlock(ctx, iv, input, inAt, output, outAt, key);
      OneBlock(DecryptionFunction(key), old(iv[..]), old(input[inAt..inAt + 16]), y);
    }
  }

  // infra_aes_crypt_cbc
  method CryptCbc(ctx: Context, mode: Mode, length: nat, iv: array<bv8>, input: array<bv8>, inAt: nat, output: array<bv8>, outAt: nat, ghost key: seq<bv8>)
      returns (ret: int, ghost y: seq<bv8>)
    requires KeyBits(8 * |key|) && Ready(mode, ctx, key)
    requires iv.Length == 16 && iv != output && iv != input
    requires inAt + length <= input.Length && outAt + length <= output.Length
    requires input == output ==> inAt == outAt
    modifies iv, output
    ensures ret == if length % 16 == 0 then 0 else INVALID_INPUT_LENGTH
    ensures length % 16 == 0 ==> |y| == length && CbcResult(mode, key, old(iv[..]), old(input[inAt..inAt + length]), y, iv[..])
    ensures length % 16 == 0 ==> output[..] == Splice(old(output[..]), outAt, y)
    ensures length % 16 != 0 ==> iv[..] == old(iv[..]) && output[..] == old(output[..])
  {
    hide CbcResult, Ready, Splice;
    y := [];
    if length % 16 != 0 {
      return INVALID_INPUT_LENGTH, [];
    }
    ghost var x := input[inAt..inAt + length];
    assert x == input[..][inAt..inAt + length];
    ghost var o, iv0 := output[..], iv[..];
    var done := 0;
    CbcNothing(mode, key, iv0);
    SpliceNothing(o, outAt);
    while done < length
      invariant 0 <= done <= length && done % 16 == 0 && |y| == done
      invariant CbcResult(mode, key, iv0, x[..done], y, iv[..])
      invariant output[..] == Splice(o, outAt, y)
      invariant input != output ==> input[..] == old(input[..])
    {
      StillThere(old(input[..]), inAt, length, y);
      assert input[inAt + done..inAt + done + 16] == input[..][inAt + done..inAt + done + 16] == x[done..done + 16];
      ghost var before := iv[..];
      ghost var block := CbcStep(ctx, mode, iv, input, inAt + done, output, outAt + done, key);
      CbcExtend(mode, key, iv0, x[..done], y, before, x[done..done + 16], block, iv[..]);
      assert x[..done] + x[done..done + 16] == x[..done + 16];
      SpliceTwo(o, outAt, y, block);
      y := y + block;
      done := done + 16;
    }
    assert x[..done] == x;
    ret := 0;
  }

  lemma SpliceNothing(b: seq<bv8>, at: nat)
    requires at <= |b|
    ensures Splice(b, at, []) == b
  {}

  // In place, the part of the input that is not yet processed is intact.
  lemma StillThere(b: seq<bv8>, at: nat, length: nat, y: seq<bv8>)
    requires at + length <= |b| && |y| + 16 <= length
    ensures Splice(b, at, y)[at + |y|..at + |y| + 16] == b[at + |y|..at + |y| + 16]
    ensures b[at..at + length][|y|..|y| + 16] == b[at + |y|..at + |y| + 16]
  {
    var s := Splice(b, at, y);
    assert forall k :: at + |y| <= k < |b| ==> s[k] == b[k];
    SliceOfSlice(b, at, at + length, |y|, |y| + 16);
  }

  lemma SliceOfSlice(b: seq<bv8>, i: nat, j: nat, k: nat, l: nat)
    requires i <= j <= |b| && k <= l <= j - i
    ensures b[i..j][k..l] == b[i + k..i + l]
  {
    var p, q := b[i..j][k..l], b[i + k..i + l];
    forall m | 0 <= m < l - k
      ensures p[m] == q[m]
    {
      assert b[i..j][k + m] == b[i + k + m];
    }
  }

  // ---------- CFB128 ----------

  // Input x and output y as plaintext and ciphertext, by direction.
  ghost predicate CfbResult(mode: Mode, key: seq<bv8>, s: CfbState, x: seq<bv8>, y: seq<bv8>, t: CfbState)
    requires KeyBits(8 * |key|) && s.n < 16
  {
    var p, c := if mode == Encrypt then x else y, if mode == Encrypt then y else x;
    IsCfb(EncryptionFunction(key), s, p, c) && t == StateAt(EncryptionFunction(key), s, c, |c|)
  }

  lemma CfbNothing(mode: Mode, key: seq<bv8>, s: CfbState)
    requires KeyBits(8 * |key|) && s.n < 16
    ensures CfbResult(mode, key, s, [], [], s)
  {}

  lemma CfbExtend(mode: Mode, key: seq<bv8>, s: CfbState, x: seq<bv8>, y: seq<bv8>, t: CfbState, x': seq<bv8>, y': seq<bv8>, t': CfbState)
    requires KeyBits(8 * |key|) && s.n < 16 && t.n < 16
    requires CfbResult(mode, key, s, x, y, t) && CfbResult(mode, key, t, x', y', t')
    ensures CfbResult(mode, key, s, x + x', y + y', t')
  {
    hide EncryptionFunction, IsCfb, StateAt;
    if mode == Encrypt {
      CfbSplit(EncryptionFunction(key), s, x, y, x', y');
    } else {
      CfbSplit(EncryptionFunction(key), s, y, x, y', x');
    }
  }

  // One byte: the key byte k is position n of the register.
  lemma CfbOneByte(mode: Mode, key: seq<bv8>, s: CfbState, x: bv8, y: bv8)
    requires KeyBits(8 * |key|) && s.n < 16
    requires y == Add(x, KeyByte(EncryptionFunction(key), s))
    ensures CfbResult(mode, key, s, [x], [y], ShiftIn(EncryptionFunction(key), s, if mode == Encrypt then y else x))
  {
    hide Add, EncryptionFunction, KeyByte, ShiftIn;
    var e := EncryptionFunction(key);
    var k := KeyByte(e, s);
    AddCancels(x, k);
    AddCancels(k, x);
    AddCancels(y, k);
    var c := if mode == Encrypt then [y] else [x];
    assert StateAt(e, s, c, 0) == s && StateAt(e, s, c, 1) == ShiftIn(e, s, c[0]);
    if mode == Encrypt {
      assert CfbByte(e, s, [x], c, 0);
    } else {
      assert CfbByte(e, s, [y], c, 0);
    }
  }

  // The body of the loops of infra_aes_crypt_cfb128.
  method CfbStep(ctx: Context, mode: Mode, n: nat, iv: array<bv8>, x: bv8, ghost key: seq<bv8>) returns (y: bv8)
    requires KeyBits(8 * |key|) && EncReady(ctx, key)
    requires iv.Length == 16 && n < 16
    modifies iv
    ensures CfbResult(mode, key, CfbState(old(iv[..]), n), [x], [y], CfbState(iv[..], (n + 1) % 16))
  {
    hide Add, EncryptionFunction, HasKeys, Schedule, CfbResult;
    ghost var s := CfbState(iv[..], n);
    ghost var e := EncryptionFunction(key);
    if n == 0 {
      EcbEncrypt(ctx, iv, 0, iv, 0, key);
      assert old(iv[0..16]) == old(iv[..]);
    }
    assert iv[..] == Register(e, s);
    y := Add(x, iv[n]);
    iv[n] := if mode == Encrypt then y else x;
    CfbOneByte(mode, key, s, x, y);
  }

  // infra_aes_crypt_cfb128; iv and iv_off carry the register between calls.
  method CryptCfb128(ctx: Context, mode: Mode, length: nat, ivOff: nat, iv: array<bv8>, input: array<bv8>, inAt: nat,
                     output: array<bv8>, outAt: nat, ghost key: seq<bv8>)
      returns (off: nat, ghost y: seq<bv8>)
    requires KeyBits(8 * |key|) && EncReady(ctx, key)
    requires iv.Length == 16 && ivOff < 16 && iv != output && iv != input
    requires inAt + length <= input.Length && outAt + length <= output.Length
    requires input == output ==> inAt == outAt
    modifies iv, output
    ensures off < 16 && |y| == length
    ensures CfbResult(mode, key, CfbState(old(iv[..]), ivOff), old(input[inAt..inAt + length]), y, CfbState(iv[..], off))
    ensures output[..] == Splice(old(output[..]), outAt, y)
  {
    hide CfbResult, EncReady, Splice;
    ghost var x := input[inAt..inAt + length];
    ghost var o, s := output[..], CfbState(iv[..], ivOff);
    y := [];
    CfbNothing(mode, key, s);
    SpliceNothing(o, outAt);
    off := ivOff;
    for i := 0 to length
      invariant off < 16 && |y| == i
      invariant CfbResult(mode, key, s, x[..i], y, CfbState(iv[..], off))
      invariant output[..] == Splice(o, outAt, y)
      invariant forall k :: inAt + i <= k < inAt + length ==> input[k] == old(input[k])
    {
      ghost var t := CfbState(iv[..], off);
      assert input[inAt + i] == x[i];
      var b := CfbStep(ctx, mode, off, iv, input[inAt + i], key);
      CfbExtend(mode, key, s, x[..i], y, t, [x[i]], [b], CfbState(iv[..], (off + 1) % 16));
      assert x[..i] + [x[i]] == x[..i + 1];
      SpliceTwo(o, outAt, y, [b]);
      SpliceByte(output[..], outAt + i, b);
      ghost var before := output[..];
      output[outAt + i] := b;
      assert output[..] == before[outAt + i := b];
      y := y + [b];
      off := (off + 1) % 16;
    }
    assert x[..length] == x;
  }

  lemma SpliceByte(b: seq<bv8>, at: nat, v: bv8)
    requires at < |b|
    ensures Splice(b, at, [v]) == b[at := v]
  {}

  // ---------- both modes undo themselves ----------

  lemma CbcDecryptUndoesEncrypt(key: seq<bv8>, iv: Block, x: seq<bv8>, y: seq<bv8>, next: seq<bv8>, z: seq<bv8>, next': seq<bv8>)
    requires KeyBits(8 * |key|)
    requires CbcResult(Encrypt, key, iv, x, y, next) && CbcResult(Decrypt, key, iv, y, z, next')
    ensures z == x && next' == next
  {
    hide EncryptionFunction, DecryptionFunction, IsCbcEncryption, IsCbcDecryption, NextIv;
    CipherUndoes(key);
    CbcRoundTrip(EncryptionFunction(key), DecryptionFunction(key), iv, x, y, z);
  }

  lemma CfbDecryptUndoesEncrypt(key: seq<bv8>, s: CfbState, x: seq<bv8>, y: seq<bv8>, t: CfbState, z: seq<bv8>, t': CfbState)
    requires KeyBits(8 * |key|) && s.n < 16
    requires CfbResult(Encrypt, key, s, x, y, t) && CfbResult(Decrypt, key, s, y, z, t')
    ensures z == x && t' == t
  {
    hide EncryptionFunction, IsCfb, StateAt;
    CfbRoundTrip(EncryptionFunction(key), s, x, y, z);
  }

  // ---------- the 128-bit object (src/infra/infra_aes.c:946-1113) ----------

  method NewContext(t: Tables, key: seq<bv8>, dir: Mode) returns (c: Context)
    requires t.Ready() && |key| == 16
    ensures fresh(c) && fresh(c.buf) && c.Valid()
    ensures Ready(dir, c, key)
  {
    hide KeyExpansion, KeyColumns, HasKeys, InvKeys, Tables.Ready;
    c := new Context(t);
    var r;
    if dir == Encrypt {
      r := c.SetKeyEnc(key, 128);
    } else {
      r := c.SetKeyDec(key, 128);
    }
  }

  class Aes128 {
    const ctx: Context
    const iv: array<bv8>
    const key: seq<bv8>

    ghost predicate Valid() {
      ctx.Valid() && iv.Length == 16 && |key| == 16
    }

    // infra_aes128_init with a key and an iv
    constructor (t: Tables, key: seq<bv8>, iv: seq<bv8>, dir: Mode)
      requires t.Ready() && |key| == 16 && |iv| == 16
      ensures Valid() && this.key == key && this.iv[..] == iv
      ensures fresh(this.iv) && fresh(ctx) && fresh(ctx.buf)
      ensures Ready(dir, ctx, key)
    {
      hide Ready;
      var c := NewContext(t, key, dir);
      var v := new bv8[16];
      CopyBlock(v, iv);
      this.ctx := c;
      this.iv := v;
      this.key := key;
    }

    // infra_aes128_cbc_encrypt and infra_aes128_cbc_decrypt: one call of the mode per block.
    // With no blocks at all, decryption returns its initial -1.
    method Cbc(mode: Mode, src: array<bv8>, srcAt: nat, blockNum: nat, dst: array<bv8>, dstAt: nat) returns (ret: int, ghost y: seq<bv8>)
      requires Valid() && Ready(mode, ctx, key)
      requires iv != src && iv != dst
      requires srcAt + 16 * blockNum <= src.Length && dstAt + 16 * blockNum <= dst.Length
      requires src == dst ==> srcAt == dstAt
      modifies iv, dst
      ensures ret == if mode == Decrypt && blockNum == 0 then -1 else 0
      ensures |y| == 16 * blockNum
      ensures CbcResult(mode, key, old(iv[..]), old(src[srcAt..srcAt + 16 * blockNum]), y, iv[..])
      ensures dst[..] == Splice(old(dst[..]), dstAt, y)
    {
      hide CbcResult, Ready, Splice;
      ghost var x := src[srcAt..srcAt + 16 * blockNum];
      assert x == src[..][srcAt..srcAt + 16 * blockNum];
      ghost var o, iv0 := dst[..], iv[..];
      y := [];
      CbcNothing(mode, key, iv0);
      SpliceNothing(o, dstAt);
      ret := if mode == Encrypt then 0 else -1;
      for i := 0 to blockNum
        invariant |y| == 16 * i
        invariant ret == if mode == Decrypt && i == 0 then -1 else 0
        invariant CbcResult(mode, key, iv0, x[..16 * i], y, iv[..])
        invariant dst[..] == Splice(o, dstAt, y)
        invariant src != dst ==> src[..] == old(src[..])
      {
        StillThere(old(src[..]), srcAt, 16 * blockNum, y);
        var at := 16 * i;
        assert src[srcAt + at..srcAt + at + 16] == src[..][srcAt + at..srcAt + at + 16] == x[at..at + 16];
        ghost var before := iv[..];
        ghost var block;
        ret, block := CryptCbc(ctx, mode, 16, iv, src, srcAt + at, dst, dstAt + at, key);
        CbcExtend(mode, key, iv0, x[..at], y, before, x[at..at + 16], block, iv[..]);
        assert x[..at] + x[at..at + 16] == x[..at + 16];
        SpliceTwo(o, dstAt, y, block);
        y := y + block;
      }
      assert x[..16 * blockNum] == x;
    }

    // infra_aes128_cfb_encrypt: the position starts at 0 on every call.
    method CfbEncrypt(src: array<bv8>, srcAt: nat, length: nat, dst: array<bv8>, dstAt: nat) returns (ghost y: seq<bv8>, ghost t: CfbState)
      requires Valid() && EncReady(ctx, key)
      requires iv != src && iv != dst
      requires srcAt + length <= src.Length && dstAt + length <= dst.Length
      requires src == dst ==> srcAt == dstAt
      modifies iv, dst
      ensures |y| == length && CfbResult(Encrypt, key, CfbState(old(iv[..]), 0), old(src[srcAt..srcAt + length]), y, t) && iv[..] == t.iv
      ensures dst[..] == Splice(old(dst[..]), dstAt, y)
    {
      hide CfbResult, EncReady, Splice;
      var off;
      off, y := CryptCfb128(ctx, Encrypt, length, 0, iv, src, srcAt, dst, dstAt, key);
      t := CfbState(iv[..], off);
    }

    // infra_aes128_cfb_decrypt installs the encryption schedule first, whatever the object was made for.
    method CfbDecrypt(src: array<bv8>, srcAt: nat, length: nat, dst: array<bv8>, dstAt: nat) returns (ghost y: seq<bv8>, ghost t: CfbState)
      requires Valid()
      requires iv != src && iv != dst
      requires srcAt + length <= src.Length && dstAt + length <= dst.Length
      requires src == dst ==> srcAt == dstAt
      modifies ctx, ctx.buf, iv, dst
      ensures EncReady(ctx, key)
      ensures |y| == length && CfbResult(Decrypt, key, CfbState(old(iv[..]), 0), old(src[srcAt..srcAt + length]), y, t) && iv[..] == t.iv
      ensures dst[..] == Splice(old(dst[..]), dstAt, y)
    {
      hide CfbResult, Splice, Schedule, HasKeys;
      var r := ctx.SetKeyEnc(key, 128);
      ScheduleIs(key);
      var off;
      off, y := CryptCfb128(ctx, Decrypt, length, 0, iv, src, srcAt, dst, dstAt, key);
      t := CfbState(iv[..], off);
    }
  }

  lemma ScheduleIs(key: seq<bv8>)
    requires KeyBits(8 * |key|)
    ensures Schedule(key) == KeyExpansion(KeyColumns(key))
  {}
}
