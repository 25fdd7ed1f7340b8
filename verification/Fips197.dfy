// The Advanced Encryption Standard as written in FIPS 197: the S-box, the four
// round transformations, the cipher, the equivalent inverse cipher of section
// 5.3.5 and the key expansion of section 5.2.  It is the reference that the
// table-driven code of src/infra/infra_aes.c is compared with.
module Fips197 {
  import opened GaloisField

  // ---------- the S-box ----------

  function RotL(x: bv8, k: nat): bv8
    requires 0 < k < 8
  {
    (x << k) | (x >> (8 - k))
  }

  function Affine(b: bv8): bv8 {
    b ^ RotL(b, 1) ^ RotL(b, 2) ^ RotL(b, 3) ^ RotL(b, 4) ^ 0x63
  }

  function InvAffine(b: bv8): bv8 {
    RotL(b, 1) ^ RotL(b, 3) ^ RotL(b, 6) ^ 0x05
  }

  ghost function SBox(x: bv8): bv8 {
    Affine(Inverse(x))
  }

  ghost function InvSBox(y: bv8): bv8 {
    Inverse(InvAffine(y))
  }

  function Bit(x: bv8, i: nat): bv8
    requires i < 8
  {
    (x >> i) & 1
  }

  // Equation 5.1 of FIPS 197, bit by bit.
  lemma AffineBits(b: bv8, i: nat)
    requires i < 8
    ensures Bit(Affine(b), i) == Bit(b, i) ^ Bit(b, (i + 4) % 8) ^ Bit(b, (i + 5) % 8)
                               ^ Bit(b, (i + 6) % 8) ^ Bit(b, (i + 7) % 8) ^ Bit(0x63, i)
  {
    if
    case i == 0 =>
    case i == 1 =>
    case i == 2 =>
    case i == 3 =>
    case i == 4 =>
    case i == 5 =>
    case i == 6 =>
    case i == 7 =>
  }

  lemma AffineInverse(b: bv8)
    ensures InvAffine(Affine(b)) == b && Affine(InvAffine(b)) == b
  {}

  lemma SBoxInverse(x: bv8)
    ensures InvSBox(SBox(x)) == x && SBox(InvSBox(x)) == x
  {
    hide Affine, InvAffine;
    AffineInverse(Inverse(x));
    InverseInvolutive(x);
    AffineInverse(x);
    InverseInvolutive(InvAffine(x));
  }

  // ---------- columns ----------

  datatype Column = Column(b0: bv8, b1: bv8, b2: bv8, b3: bv8)

  function AddColumn(c: Column, d: Column): Column {
    Column(Add(c.b0, d.b0), Add(c.b1, d.b1), Add(c.b2, d.b2), Add(c.b3, d.b3))
  }

  ghost function SubColumn(c: Column): Column {
    Column(SBox(c.b0), SBox(c.b1), SBox(c.b2), SBox(c.b3))
  }

  ghost function InvSubColumn(c: Column): Column {
    Column(InvSBox(c.b0), InvSBox(c.b1), InvSBox(c.b2), InvSBox(c.b3))
  }

  function MixRow(a: bv8, b: bv8, c: bv8, d: bv8): bv8 {
    Sum4(Mul(2, a), Mul(3, b), c, d)
  }

  function InvMixRow(a: bv8, b: bv8, c: bv8, d: bv8): bv8 {
    Sum4(Mul(14, a), Mul(11, b), Mul(13, c), Mul(9, d))
  }

  // The MixColumns matrix is circulant: every row is the same row, rotated.
  function MixColumn(c: Column): Column {
    Column(MixRow(c.b0, c.b1, c.b2, c.b3), MixRow(c.b1, c.b2, c.b3, c.b0),
           MixRow(c.b2, c.b3, c.b0, c.b1), MixRow(c.b3, c.b0, c.b1, c.b2))
  }

  function InvMixColumn(c: Column): Column {
    Column(InvMixRow(c.b0, c.b1, c.b2, c.b3), InvMixRow(c.b1, c.b2, c.b3, c.b0),
           InvMixRow(c.b2, c.b3, c.b0, c.b1), InvMixRow(c.b3, c.b0, c.b1, c.b2))
  }

  // The four coefficients of the product of the two matrices: sums of doublings
  // x, 2x, 4x, 8x, 16x in which everything but at most one x cancels.
  lemma Cancel0(x: bv8, x1: bv8, x2: bv8, x3: bv8, x4: bv8)
    ensures Sum4(Add(x2, Add(x3, x4)), Add(x, Add(x1, x3)), Add(x, Add(x2, x3)), Add(Add(x, x1), Add(x3, x4))) == x
  {
    hide Add;
    AddAlgebra();
  }

  lemma Cancel1(x: bv8, x1: bv8, x2: bv8, x3: bv8, x4: bv8)
    ensures Sum4(Add(Add(x1, x2), Add(Add(x2, x3), Add(x3, x4))), Add(x1, Add(x2, x4)), Add(x, Add(x2, x3)), Add(x, x3)) == 0
  {
    hide Add;
    AddAlgebra();
  }

  lemma Cancel2(x: bv8, x1: bv8, x2: bv8, x3: bv8, x4: bv8)
    ensures Sum4(Add(x1, Add(x2, x3)), Add(Add(x, x1), Add(Add(x1, x2), Add(x3, x4))), Add(x1, Add(x3, x4)), Add(x, x3)) == 0
  {
    hide Add;
    AddAlgebra();
  }

  lemma Cancel3(x: bv8, x1: bv8, x2: bv8, x3: bv8, x4: bv8)
    ensures Sum4(Add(x1, Add(x2, x3)), Add(x, Add(x1, x3)), Add(Add(x, x1), Add(Add(x2, x3), Add(x3, x4))), Add(x1, x4)) == 0
  {
    hide Add;
    AddAlgebra();
  }

  lemma DoublingsOfTriple(x: bv8)
    ensures XTime(Times3(x)) == Add(XTime(x), XTime(XTime(x)))
    ensures XTime(XTime(Times3(x))) == Add(XTime(XTime(x)), XTime(XTime(XTime(x))))
    ensures XTime(XTime(XTime(Times3(x)))) == Add(XTime(XTime(XTime(x))), XTime(XTime(XTime(XTime(x)))))
  {
    hide XTime, Add;
    var x1 := XTime(x);
    XTimeAdd(x, x1); XTimeAdd(x1, XTime(x1)); XTimeAdd(XTime(x1), XTime(XTime(x1)));
  }

  lemma Coefficient0(x: bv8)
    ensures Sum4(Mul(14, Mul(2, x)), Mul(11, x), Mul(13, x), Mul(9, Mul(3, x))) == x
  {
    hide Mul, XTime, Add, Sum4;
    MulSmall(x); Mul14(XTime(x)); Mul11(x); Mul13(x); MulSmall(Times3(x));
    DoublingsOfTriple(x);
    Cancel0(x, XTime(x), XTime(XTime(x)), XTime(XTime(XTime(x))), XTime(XTime(XTime(XTime(x)))));
  }

  lemma Coefficient1(x: bv8)
    ensures Sum4(Mul(14, Mul(3, x)), Mul(11, Mul(2, x)), Mul(13, x), Mul(9, x)) == 0
  {
    hide Mul, XTime, Add, Sum4;
    MulSmall(x); Mul14(Times3(x)); Mul11(XTime(x)); Mul13(x);
    DoublingsOfTriple(x);
    Cancel1(x, XTime(x), XTime(XTime(x)), XTime(XTime(XTime(x))), XTime(XTime(XTime(XTime(x)))));
  }

  lemma Coefficient2(x: bv8)
    ensures Sum4(Mul(14, x), Mul(11, Mul(3, x)), Mul(13, Mul(2, x)), Mul(9, x)) == 0
  {
    hide Mul, XTime, Add, Sum4;
    MulSmall(x); Mul14(x); Mul11(Times3(x)); Mul13(XTime(x));
    DoublingsOfTriple(x);
    Cancel2(x, XTime(x), XTime(XTime(x)), XTime(XTime(XTime(x))), XTime(XTime(XTime(XTime(x)))));
  }

  lemma Coefficient3(x: bv8)
    ensures Sum4(Mul(14, x), Mul(11, x), Mul(13, Mul(3, x)), Mul(9, Mul(2, x))) == 0
  {
    hide Mul, XTime, Add, Sum4;
    MulSmall(x); Mul14(x); Mul11(x); Mul13(Times3(x)); MulSmall(XTime(x));
    DoublingsOfTriple(x);
    Cancel3(x, XTime(x), XTime(XTime(x)), XTime(XTime(XTime(x))), XTime(XTime(XTime(XTime(x)))));
  }

  lemma InvMixRowOfMix(a: bv8, b: bv8, c: bv8, d: bv8)
    ensures InvMixRow(MixRow(a, b, c, d), MixRow(b, c, d, a), MixRow(c, d, a, b), MixRow(d, a, b, c)) == a
  {
    hide Mul, Sum4;
    // the rows of the matrix, aligned so that each column holds one variable
    Sum4Rotate(a, Mul(2, b), Mul(3, c), d);
    Sum4Rotate(a, b, Mul(2, c), Mul(3, d)); Sum4Rotate(b, Mul(2, c), Mul(3, d), a);
    Sum4Rotate(Mul(2, d), Mul(3, a), b, c);
    MulSum4(14, Mul(2, a), Mul(3, b), c, d);
    MulSum4(11, a, Mul(2, b), Mul(3, c), d);
    MulSum4(13, a, b, Mul(2, c), Mul(3, d));
    MulSum4(9, Mul(3, a), b, c, Mul(2, d));
    Sum4Transpose(Mul(14, Mul(2, a)), Mul(14, Mul(3, b)), Mul(14, c), Mul(14, d),
                  Mul(11, a), Mul(11, Mul(2, b)), Mul(11, Mul(3, c)), Mul(11, d),
                  Mul(13, a), Mul(13, b), Mul(13, Mul(2, c)), Mul(13, Mul(3, d)),
                  Mul(9, Mul(3, a)), Mul(9, b), Mul(9, c), Mul(9, Mul(2, d)));
    Coefficient0(a); Coefficient1(b); Coefficient2(c); Coefficient3(d);
    assert Sum4(a, 0, 0, 0) == a by { Sum4Zero(a); }
  }

  lemma Sum4Zero(a: bv8)
    ensures Sum4(a, 0, 0, 0) == a
  {}

  lemma MixColumnInverse(c: Column)
    ensures InvMixColumn(MixColumn(c)) == c
  {
    hide MixRow, InvMixRow;
    InvMixRowOfMix(c.b0, c.b1, c.b2, c.b3);
    InvMixRowOfMix(c.b1, c.b2, c.b3, c.b0);
    InvMixRowOfMix(c.b2, c.b3, c.b0, c.b1);
    InvMixRowOfMix(c.b3, c.b0, c.b1, c.b2);
  }

  lemma InvMixRowAdd(a: bv8, b: bv8, c: bv8, d: bv8, e: bv8, f: bv8, g: bv8, h: bv8)
    ensures InvMixRow(Add(a, e), Add(b, f), Add(c, g), Add(d, h)) == Add(InvMixRow(a, b, c, d), InvMixRow(e, f, g, h))
  {
    hide Mul, Add, Sum4;
    MulAdd(14, a, e); MulAdd(11, b, f); MulAdd(13, c, g); MulAdd(9, d, h);
    Sum4Add(Mul(14, a), Mul(11, b), Mul(13, c), Mul(9, d), Mul(14, e), Mul(11, f), Mul(13, g), Mul(9, h));
  }

  lemma InvMixColumnAdd(c: Column, d: Column)
    ensures InvMixColumn(AddColumn(c, d)) == AddColumn(InvMixColumn(c), InvMixColumn(d))
  {
    hide InvMixRow, Add;
    InvMixRowAdd(c.b0, c.b1, c.b2, c.b3, d.b0, d.b1, d.b2, d.b3);
    InvMixRowAdd(c.b1, c.b2, c.b3, c.b0, d.b1, d.b2, d.b3, d.b0);
    InvMixRowAdd(c.b2, c.b3, c.b0, c.b1, d.b2, d.b3, d.b0, d.b1);
    InvMixRowAdd(c.b3, c.b0, c.b1, c.b2, d.b3, d.b0, d.b1, d.b2);
  }

  lemma AddColumnCancels(c: Column, d: Column)
    ensures AddColumn(AddColumn(c, d), d) == c
  {
    hide Add;
    AddAlgebra();
  }

  lemma SubColumnInverse(c: Column)
    ensures InvSubColumn(SubColumn(c)) == c
  {
    hide SBox, InvSBox;
    SBoxInverse(c.b0); SBoxInverse(c.b1); SBoxInverse(c.b2); SBoxInverse(c.b3);
  }

  // ---------- the state and its round transformations ----------

  datatype State = State(c0: Column, c1: Column, c2: Column, c3: Column)

  ghost function SubBytes(s: State): State {
    State(SubColumn(s.c0), SubColumn(s.c1), SubColumn(s.c2), SubColumn(s.c3))
  }

  ghost function InvSubBytes(s: State): State {
    State(InvSubColumn(s.c0), InvSubColumn(s.c1), InvSubColumn(s.c2), InvSubColumn(s.c3))
  }

  // Row r moves r columns to the left.
  function ShiftRows(s: State): State {
    State(Column(s.c0.b0, s.c1.b1, s.c2.b2, s.c3.b3), Column(s.c1.b0, s.c2.b1, s.c3.b2, s.c0.b3),
          Column(s.c2.b0, s.c3.b1, s.c0.b2, s.c1.b3), Column(s.c3.b0, s.c0.b1, s.c1.b2, s.c2.b3))
  }

  function InvShiftRows(s: State): State {
    State(Column(s.c0.b0, s.c3.b1, s.c2.b2, s.c1.b3), Column(s.c1.b0, s.c0.b1, s.c3.b2, s.c2.b3),
          Column(s.c2.b0, s.c1.b1, s.c0.b2, s.c3.b3), Column(s.c3.b0, s.c2.b1, s.c1.b2, s.c0.b3))
  }

  function MixColumns(s: State): State {
    State(MixColumn(s.c0), MixColumn(s.c1), MixColumn(s.c2), MixColumn(s.c3))
  }

  function InvMixColumns(s: State): State {
    State(InvMixColumn(s.c0), InvMixColumn(s.c1), InvMixColumn(s.c2), InvMixColumn(s.c3))
  }

  function RoundKey(w: seq<Column>, r: nat): State
    requires 4 * r + 4 <= |w|
  {
    State(w[4 * r], w[4 * r + 1], w[4 * r + 2], w[4 * r + 3])
  }

  function AddState(s: State, k: State): State {
    State(AddColumn(s.c0, k.c0), AddColumn(s.c1, k.c1), AddColumn(s.c2, k.c2), AddColumn(s.c3, k.c3))
  }

  // ---------- the cipher, section 5.1 ----------

  // The state after the initial key addition and r full rounds.
  ghost function AfterRounds(s: State, w: seq<Column>, r: nat): State
    requires 4 * r + 4 <= |w|
    decreases r
  {
    if r == 0 then AddState(s, RoundKey(w, 0))
    else AddState(MixColumns(ShiftRows(SubBytes(AfterRounds(s, w, r - 1)))), RoundKey(w, r))
  }

  ghost function Cipher(s: State, w: seq<Column>, nr: nat): State
    requires nr > 0 && |w| == 4 * (nr + 1)
  {
    AddState(ShiftRows(SubBytes(AfterRounds(s, w, nr - 1))), RoundKey(w, nr))
  }

  // ---------- the equivalent inverse cipher, section 5.3.5 ----------

  ghost function AfterInvRounds(s: State, dw: seq<Column>, r: nat): State
    requires 4 * r + 4 <= |dw|
    decreases r
  {
    if r == 0 then AddState(s, RoundKey(dw, 0))
    else AddState(InvMixColumns(InvShiftRows(InvSubBytes(AfterInvRounds(s, dw, r - 1)))), RoundKey(dw, r))
  }

  ghost function EqInvCipher(s: State, dw: seq<Column>, nr: nat): State
    requires nr > 0 && |dw| == 4 * (nr + 1)
  {
    AddState(InvShiftRows(InvSubBytes(AfterInvRounds(s, dw, nr - 1))), RoundKey(dw, nr))
  }

  // The decryption schedule: the round keys in reverse, the inner ones through InvMixColumns.
  function InvKeyColumn(w: seq<Column>, nr: nat, i: nat): Column
    requires |w| == 4 * (nr + 1) && i < |w|
  {
    var r := i / 4;
    if r == 0 || r == nr then w[4 * (nr - r) + i % 4] else InvMixColumn(w[4 * (nr - r) + i % 4])
  }

  function InvKeys(w: seq<Column>, nr: nat): (dw: seq<Column>)
    requires |w| == 4 * (nr + 1)
    ensures |dw| == |w|
  {
    seq(|w|, i requires 0 <= i < |w| => InvKeyColumn(w, nr, i))
  }

  // ---------- decryption undoes encryption ----------

  lemma AddStateCancels(s: State, k: State)
    ensures AddState(AddState(s, k), k) == s
  {
    hide AddColumn;
    AddColumnCancels(s.c0, k.c0); AddColumnCancels(s.c1, k.c1); AddColumnCancels(s.c2, k.c2); AddColumnCancels(s.c3, k.c3);
  }

  // One inner round backwards.  InvSubBytes commutes with InvShiftRows because it works byte by byte.
  lemma UndoSubShift(s: State)
    ensures InvShiftRows(InvSubBytes(ShiftRows(SubBytes(s)))) == s
  {
    hide SBox, InvSBox;
    SubColumnInverse(s.c0); SubColumnInverse(s.c1); SubColumnInverse(s.c2); SubColumnInverse(s.c3);
  }

  lemma UndoMixAdd(s: State, k: State)
    ensures AddState(InvMixColumns(AddState(MixColumns(s), k)), InvMixColumns(k)) == s
  {
    hide AddColumn, MixColumn, InvMixColumn;
    InvMixColumnAdd(MixColumn(s.c0), k.c0); InvMixColumnAdd(MixColumn(s.c1), k.c1);
    InvMixColumnAdd(MixColumn(s.c2), k.c2); InvMixColumnAdd(MixColumn(s.c3), k.c3);
    MixColumnInverse(s.c0); MixColumnInverse(s.c1); MixColumnInverse(s.c2); MixColumnInverse(s.c3);
    AddStateCancels(s, InvMixColumns(k));
  }

  lemma InnerInvKey(w: seq<Column>, nr: nat, r: nat)
    requires |w| == 4 * (nr + 1) && 0 < r < nr
    ensures RoundKey(InvKeys(w, nr), r) == InvMixColumns(RoundKey(w, nr - r))
  {
    hide InvMixColumn;
  }

  lemma OuterInvKeys(w: seq<Column>, nr: nat)
    requires nr > 0 && |w| == 4 * (nr + 1)
    ensures RoundKey(InvKeys(w, nr), 0) == RoundKey(w, nr)
    ensures RoundKey(InvKeys(w, nr), nr) == RoundKey(w, 0)
  {
    hide InvMixColumn;
  }

  // After r rounds the decryption is where the encryption was, r rounds from its end.
  lemma {:induction false} InvRoundsMirror(s: State, w: seq<Column>, nr: nat, r: nat)
    requires |w| == 4 * (nr + 1) && r < nr
    ensures AfterInvRounds(Cipher(s, w, nr), InvKeys(w, nr), r) == ShiftRows(SubBytes(AfterRounds(s, w, nr - 1 - r)))
    decreases r
  {
    hide SubBytes, ShiftRows, MixColumns, AddState, InvSubBytes, InvShiftRows, InvMixColumns, InvKeys, RoundKey;
    OuterInvKeys(w, nr);
    if r == 0 {
      AddStateCancels(ShiftRows(SubBytes(AfterRounds(s, w, nr - 1))), RoundKey(w, nr));
    } else {
      InvRoundsMirror(s, w, nr, r - 1);
      InnerInvKey(w, nr, r);
      var before := AfterRounds(s, w, nr - r - 1);
      UndoSubShift(AfterRounds(s, w, nr - r));
      UndoMixAdd(ShiftRows(SubBytes(before)), RoundKey(w, nr - r));
    }
  }

  lemma DecryptionUndoesEncryption(s: State, w: seq<Column>, nr: nat)
    requires nr > 0 && |w| == 4 * (nr + 1)
    ensures EqInvCipher(Cipher(s, w, nr), InvKeys(w, nr), nr) == s
  {
    hide SubBytes, ShiftRows, MixColumns, AddState, InvSubBytes, InvShiftRows, InvMixColumns, InvKeys, RoundKey;
    InvRoundsMirror(s, w, nr, nr - 1);
    OuterInvKeys(w, nr);
    UndoSubShift(AfterRounds(s, w, 0));
    AddStateCancels(s, RoundKey(w, 0));
  }

  // ---------- key expansion, section 5.2 ----------

  function RotWord(c: Column): Column {
    Column(c.b1, c.b2, c.b3, c.b0)
  }

  // The round constant x^(i-1), in the first byte of its word.
  function Rcon(i: nat): bv8
    requires i > 0
  {
    if i == 1 then 1 else XTime(Rcon(i - 1))
  }

  ghost function KeyWord(key: seq<Column>, i: nat): Column
    requires |key| == 4 || |key| == 6 || |key| == 8
    decreases i
  {
    var nk := |key|;
    if i < nk then key[i]
    else AddColumn(KeyWord(key, i - nk), KeyMask(nk, i, KeyWord(key, i - 1)))
  }

  ghost function KeyMask(nk: nat, i: nat, previous: Column): Column
    requires (nk == 4 || nk == 6 || nk == 8) && nk <= i
  {
    if i % nk == 0 then AddColumn(SubColumn(RotWord(previous)), Column(Rcon(i / nk), 0, 0, 0))
    else if nk > 6 && i % nk == 4 then SubColumn(previous)
    else previous
  }

  function NumRounds(nk: nat): nat {
    nk + 6
  }

  ghost function KeyExpansion(key: seq<Column>): (w: seq<Column>)
    requires |key| == 4 || |key| == 6 || |key| == 8
    ensures |w| == 4 * (NumRounds(|key|) + 1)
  {
    seq(4 * (NumRounds(|key|) + 1), i requires 0 <= i => KeyWord(key, i))
  }
}
