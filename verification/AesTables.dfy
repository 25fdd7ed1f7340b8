// The tables of the AES code and the loops that fill them
// (src/infra/infra_aes.c:352-432).  The source computes bytes in `int` variables
// and masks them with 0xFF; here they are bytes.
module AesTables {
  import opened GaloisField
  import opened Fips197

  // ---------- columns as little-endian words (src/infra/infra_aes.c:33-50) ----------

  // The tables join the four shifted bytes with ^ and the buffers with |; the bytes do not overlap.
  function Pack(c: Column): bv32 {
    (c.b0 as bv32) | ((c.b1 as bv32) << 8) | ((c.b2 as bv32) << 16) | ((c.b3 as bv32) << 24)
  }

  function Xor(v: bv32, w: bv32): bv32 {
    v ^ w
  }

  // The byte indices ( Y ) & 0xFF, ( Y >> 8 ) & 0xFF, ... of the round macros.
  function Unpack(w: bv32): Column {
    Column((w & 0xFF) as bv8, ((w >> 8) & 0xFF) as bv8, ((w >> 16) & 0xFF) as bv8, ((w >> 24) & 0xFF) as bv8)
  }

  lemma UnpackPack(c: Column)
    ensures Unpack(Pack(c)) == c
  {}

  lemma PackAdd(c: Column, d: Column)
    ensures Pack(AddColumn(c, d)) == Xor(Pack(c), Pack(d))
  {}

  function RotL8(w: bv32): bv32 {
    (w << 8) | (w >> 24)
  }

  lemma RotL8Pack(c: Column)
    ensures RotL8(Pack(c)) == Pack(Column(c.b3, c.b0, c.b1, c.b2))
  {}

  // ---------- bytes as table indices ----------

  function Index(b: bv8): (i: nat)
    ensures i < 256
  {
    b as nat
  }

  // The byte with a given index, counted up as the loops of the source count.
  function Byte(i: nat): bv8
    requires i < 256
  {
    if i == 0 then 0 else Byte(i - 1) + 1
  }

  lemma IndexSuccessor(b: bv8)
    requires b != 255
    ensures (b + 1) as nat == b as nat + 1
  {}

  lemma {:induction false} IndexByte(i: nat)
    requires i < 256
    ensures Index(Byte(i)) == i
    decreases i
  {
    if i > 0 {
      IndexByte(i - 1);
      var b := Byte(i - 1);
      assert b != 255 by { assert Index(255) == 255; }
      IndexSuccessor(b);
    }
  }

  lemma ByteToNumber(b: bv8)
    ensures (b as nat) as bv8 == b
  {}

  lemma IndexInjective(x: bv8, y: bv8)
    requires Index(x) == Index(y)
    ensures x == y
  {
    ByteToNumber(x);
    ByteToNumber(y);
  }

  // The entry of a 256-entry table for a byte.
  function Get<T>(t: seq<T>, b: bv8): T
    requires |t| == 256
  {
    t[Index(b)]
  }

  // ---------- table contents ----------

  // The column that a substituted byte x in the first row contributes to MixColumns.
  function MixEntry(x: bv8): Column {
    Column(Mul(2, x), x, x, Mul(3, x))
  }

  function InvMixEntry(x: bv8): Column {
    Column(Mul(14, x), Mul(9, x), Mul(13, x), Mul(11, x))
  }

  // log[x] is an exponent of 3 giving x; the source leaves log[0] unset.
  ghost predicate IsLog(log: seq<nat>, x: bv8, n: nat)
    requires |log| == 256
  {
    log[Index(x)] < n && Pow3(log[Index(x)]) == x
  }

  ghost predicate PowLogTables(pow: seq<bv8>, log: seq<nat>) {
    && |pow| == 256 && |log| == 256
    && (forall i: nat :: i < 256 ==> pow[i] == Pow3(i))
    && (forall x: bv8 :: x != 0 ==> IsLog(log, x, 256))
  }

  lemma LogStep(log: seq<nat>, x: bv8, i: nat)
    requires |log| == 256 && Pow3(i) == x
    requires forall k: nat :: k < i ==> IsLog(log, Pow3(k), i)
    ensures forall k: nat :: k < i + 1 ==> IsLog(log[Index(x) := i], Pow3(k), i + 1)
  {
    hide Pow3, Index;
    forall k: nat | k < i + 1
      ensures IsLog(log[Index(x) := i], Pow3(k), i + 1)
    {
      if Index(Pow3(k)) == Index(x) {
        IndexInjective(Pow3(k), x);
      } else {
        assert IsLog(log, Pow3(k), i);
      }
    }
  }

  lemma PowStep(i: nat)
    ensures Pow3(0) == 1
    ensures Pow3(i + 1) == Times3(Pow3(i))
  {}

  lemma LogComplete(log: seq<nat>)
    requires |log| == 256
    requires forall k: nat :: k < 256 ==> IsLog(log, Pow3(k), 256)
    ensures forall x: bv8 :: x != 0 ==> IsLog(log, x, 256)
  {
    hide Pow3, IsLog;
    forall x: bv8 | x != 0
      ensures IsLog(log, x, 256)
    {
      assert x == Pow3(Log(x));
    }
  }

  method PowLog() returns (pow: array<bv8>, log: array<nat>)
    ensures PowLogTables(pow[..], log[..])
  {
    hide IsLog, Pow3, Times3, Index;
    pow := new bv8[256];
    log := new nat[256];
    var x: bv8 := 1;
    PowStep(0);
    for i := 0 to 256
      invariant x == Pow3(i)
      invariant forall k: nat :: k < i ==> pow[k] == Pow3(k)
      invariant forall k: nat :: k < i ==> IsLog(log[..], Pow3(k), i)
    {
      LogStep(log[..], x, i);
      PowStep(i);
      ghost var before := log[..];
      pow[i] := x;
      log[Index(x)] := i;
      assert log[..] == before[Index(x) := i];
      x := Times3(x);
    }
    LogComplete(log[..]);
  }

  // The MUL macro: multiplication through the two tables.
  function MulByLog(pow: seq<bv8>, log: seq<nat>, x: bv8, y: bv8): (z: bv8)
    requires PowLogTables(pow, log)
    ensures z == Mul(x, y)
  {
    hide Mul, Pow3, Index;
    if x != 0 && y != 0 then
      var i, j := log[Index(x)], log[Index(y)];
      assert IsLog(log, x, 256) && IsLog(log, y, 256);
      MulPow3(i, j);
      Pow3Mod(i + j);
      pow[(i + j) % 255]
    else
      MulZero(x);
      ZeroMul(y);
      0
  }

  lemma ZeroMul(y: bv8)
    ensures Mul(0, y) == 0
  {
    hide MulBits, XTime, Add;
    AddZero();
    MulFlat(0, y);
  }

  // ---------- the two S-boxes (src/infra/infra_aes.c:386-401) ----------

  function Rot1(y: bv8): bv8 {
    (y << 1) | (y >> 7)
  }

  // The source adds four successive one-bit rotations.
  function AffineByRotations(x: bv8): bv8 {
    var y1 := Rot1(x);
    var y2 := Rot1(y1);
    var y3 := Rot1(y2);
    var y4 := Rot1(y3);
    x ^ y1 ^ y2 ^ y3 ^ (y4 ^ 0x63)
  }

  lemma RotationsAreAffine(x: bv8)
    ensures AffineByRotations(x) == Affine(x)
  {}

  // log[b] may be any of the exponents of b, and 255 - log[b] is then an exponent of its inverse.
  lemma InverseByLog(b: bv8, l: nat)
    requires b != 0 && l <= 255 && Pow3(l) == b
    ensures Pow3(255 - l) == Inverse(b)
  {
    hide MulBits, XTime, Add, Pow3, Inverse;
    MulPow3(l, 255 - l);
    Pow3Values();
    InverseUnique(b, Pow3(255 - l));
  }

  ghost predicate ForwardSBox(fsb: seq<bv8>, n: nat) {
    |fsb| == 256 && forall b: bv8 :: Index(b) < n ==> Get(fsb, b) == SBox(b)
  }

  ghost predicate ReverseSBox(rsb: seq<bv8>, n: nat) {
    |rsb| == 256 && forall b: bv8 :: Index(b) < n ==> Get(rsb, SBox(b)) == b
  }

  ghost predicate SBoxTables(fsb: seq<bv8>, rsb: seq<bv8>) {
    && |fsb| == 256 && |rsb| == 256
    && forall b: bv8 :: Get(fsb, b) == SBox(b) && Get(rsb, b) == InvSBox(b)
  }

  lemma SBoxStep(fsb: seq<bv8>, rsb: seq<bv8>, b: bv8)
    requires ForwardSBox(fsb, Index(b)) && ReverseSBox(rsb, Index(b))
    ensures ForwardSBox(fsb[Index(b) := SBox(b)], Index(b) + 1)
    ensures ReverseSBox(rsb[Index(SBox(b)) := b], Index(b) + 1)
  {
    hide SBox, InvSBox, Index;
    var i := Index(b);
    forall c: bv8 | Index(c) < i + 1
      ensures Get(fsb[i := SBox(b)], c) == SBox(c)
      ensures Get(rsb[Index(SBox(b)) := b], SBox(c)) == c
    {
      if Index(c) == i {
        IndexInjective(c, b);
      }
      if Index(SBox(c)) == Index(SBox(b)) {
        IndexInjective(SBox(c), SBox(b));
        SBoxInverse(b);
        SBoxInverse(c);
      }
    }
  }

  lemma SBoxComplete(fsb: seq<bv8>, rsb: seq<bv8>)
    requires ForwardSBox(fsb, 256) && ReverseSBox(rsb, 256)
    ensures SBoxTables(fsb, rsb)
  {
    hide SBox, InvSBox, Index;
    forall b: bv8
      ensures Get(fsb, b) == SBox(b) && Get(rsb, b) == InvSBox(b)
    {
      SBoxInverse(b);
      assert Get(rsb, SBox(InvSBox(b))) == InvSBox(b);
    }
  }

  lemma SBoxStart(fsb: seq<bv8>, rsb: seq<bv8>)
    requires |fsb| == 256 && |rsb| == 256
    ensures ForwardSBox(fsb[0 := 0x63], 1) && ReverseSBox(rsb[0x63 := 0], 1)
  {
    assert SBox(0) == 0x63;
    assert Index(0) == 0 && Index(0x63) == 0x63;
    hide SBox;
    SBoxStep(fsb, rsb, 0);
  }

  lemma SBoxByLog(b: bv8, l: nat)
    requires b != 0 && l <= 255 && Pow3(l) == b
    ensures AffineByRotations(Pow3(255 - l)) == SBox(b)
  {
    hide Affine, AffineByRotations, Inverse, Pow3;
    InverseByLog(b, l);
    RotationsAreAffine(Pow3(255 - l));
  }

  method SBoxes(pow: seq<bv8>, log: seq<nat>) returns (fsb: array<bv8>, rsb: array<bv8>)
    requires PowLogTables(pow, log)
    ensures fresh(fsb) && fresh(rsb)
    ensures SBoxTables(fsb[..], rsb[..])
  {
    hide SBox, Pow3, Index, AffineByRotations, Byte, Inverse, ForwardSBox, ReverseSBox, SBoxTables;
    fsb := new bv8[256];
    rsb := new bv8[256];
    ghost var f, r := fsb[..], rsb[..];
    SBoxStart(f, r);
    fsb[0] := 0x63;
    rsb[0x63] := 0;
    assert fsb[..] == f[0 := 0x63] && rsb[..] == r[0x63 := 0];
    for i := 1 to 256
      invariant ForwardSBox(fsb[..], i) && ReverseSBox(rsb[..], i)
    {
      f, r := fsb[..], rsb[..];
      var b := Byte(i);
      IndexByte(i);
      ZeroIndex();
      assert IsLog(log, b, 256);
      var x := AffineByRotations(pow[255 - log[i]]);
      SBoxByLog(b, log[i]);
      SBoxStep(f, r, b);
      fsb[i] := x;
      rsb[Index(x)] := b;
      assert fsb[..] == f[i := x] && rsb[..] == r[Index(x) := b];
    }
    SBoxComplete(fsb[..], rsb[..]);
  }

  lemma ZeroIndex()
    ensures Index(0) == 0
    ensures forall b: bv8 :: Index(b) == 0 ==> b == 0
  {}

  // ---------- the round tables (src/infra/infra_aes.c:406-431) ----------

  function PackBytes(b0: bv8, b1: bv8, b2: bv8, b3: bv8): bv32 {
    Pack(Column(b0, b1, b2, b3))
  }

  // Table k of a family holds the entries of table 0 with their bytes rotated k times.
  function Rotations(c: Column, k: nat): Column
    requires k < 4
  {
    if k == 0 then c
    else if k == 1 then Column(c.b3, c.b0, c.b1, c.b2)
    else if k == 2 then Column(c.b2, c.b3, c.b0, c.b1)
    else Column(c.b1, c.b2, c.b3, c.b0)
  }

  ghost predicate ForwardTable(t: seq<bv32>, k: nat)
    requires k < 4
  {
    |t| == 256 && forall b: bv8 :: Get(t, b) == Pack(Rotations(MixEntry(SBox(b)), k))
  }

  ghost predicate ReverseTable(t: seq<bv32>, k: nat)
    requires k < 4
  {
    |t| == 256 && forall b: bv8 :: Get(t, b) == Pack(Rotations(InvMixEntry(InvSBox(b)), k))
  }

  // The first n entries, by position.
  ghost predicate ForwardPrefix(t: seq<bv32>, k: nat, n: nat)
    requires k < 4
  {
    |t| == 256 && n <= 256 && forall i: nat :: i < n ==> t[i] == Pack(Rotations(MixEntry(SBox(Byte(i))), k))
  }

  ghost predicate ReversePrefix(t: seq<bv32>, k: nat, n: nat)
    requires k < 4
  {
    |t| == 256 && n <= 256 && forall i: nat :: i < n ==> t[i] == Pack(Rotations(InvMixEntry(InvSBox(Byte(i))), k))
  }

  lemma ByteIndex(b: bv8)
    ensures Byte(Index(b)) == b
  {
    hide Byte, Index;
    IndexByte(Index(b));
    IndexInjective(Byte(Index(b)), b);
  }

  lemma PrefixesComplete(t: seq<bv32>, k: nat)
    requires k < 4
    ensures ForwardPrefix(t, k, 256) ==> ForwardTable(t, k)
    ensures ReversePrefix(t, k, 256) ==> ReverseTable(t, k)
  {
    hide SBox, InvSBox, Pack, Rotations, MixEntry, InvMixEntry, Index, Byte;
    forall b: bv8
      ensures ForwardPrefix(t, k, 256) ==> Get(t, b) == Pack(Rotations(MixEntry(SBox(b)), k))
      ensures ReversePrefix(t, k, 256) ==> Get(t, b) == Pack(Rotations(InvMixEntry(InvSBox(b)), k))
    {
      ByteIndex(b);
    }
  }

  lemma NextRotation(c: Column, k: nat)
    requires k < 3
    ensures RotL8(Pack(Rotations(c, k))) == Pack(Rotations(c, k + 1))
  {
    hide RotL8, Pack;
    RotL8Pack(Rotations(c, k));
  }

  lemma MixEntryByXTime(x: bv8)
    ensures MixEntry(x) == Column(XTime(x), x, x, Add(XTime(x), x))
  {
    hide XTime, Mul, Add;
    MulSmall(x);
    AddAlgebra();
  }

  // One entry of table 0 of a family, and its rotations in the other three.
  method FillEntry(t0: array<bv32>, t1: array<bv32>, t2: array<bv32>, t3: array<bv32>, i: nat, w: bv32)
    requires t0.Length == t1.Length == t2.Length == t3.Length == 256 && i < 256
    requires t0 != t1 && t0 != t2 && t0 != t3 && t1 != t2 && t1 != t3 && t2 != t3
    modifies t0, t1, t2, t3
    ensures t0[..] == old(t0[..])[i := w]
    ensures t1[..] == old(t1[..])[i := RotL8(w)]
    ensures t2[..] == old(t2[..])[i := RotL8(RotL8(w))]
    ensures t3[..] == old(t3[..])[i := RotL8(RotL8(RotL8(w)))]
  {
    hide RotL8;
    t0[i] := w;
    t1[i] := RotL8(t0[i]);
    t2[i] := RotL8(t1[i]);
    t3[i] := RotL8(t2[i]);
  }

  function ForwardEntry(fsb: seq<bv8>, rsb: seq<bv8>, i: nat): (f: bv32)
    requires i < 256 && SBoxTables(fsb, rsb)
    ensures f == Pack(Rotations(MixEntry(SBox(Byte(i))), 0))
  {
    hide SBox, InvSBox, Mul, XTime, Add, Pack, Byte, Index;
    var x := fsb[i];
    var y := XTime(x);
    var z := Add(y, x);
    IndexByte(i);
    assert Get(fsb, Byte(i)) == x;
    MixEntryByXTime(x);
    PackBytes(y, x, x, z)
  }

  function ReverseEntry(fsb: seq<bv8>, rsb: seq<bv8>, pow: seq<bv8>, log: seq<nat>, i: nat): (r: bv32)
    requires i < 256 && SBoxTables(fsb, rsb) && PowLogTables(pow, log)
    ensures r == Pack(Rotations(InvMixEntry(InvSBox(Byte(i))), 0))
  {
    hide SBox, InvSBox, Mul, PowLogTables, Pack, Byte, Index;
    var x := rsb[i];
    IndexByte(i);
    assert Get(rsb, Byte(i)) == x;
    PackBytes(MulByLog(pow, log, 0x0E, x), MulByLog(pow, log, 0x09, x), MulByLog(pow, log, 0x0D, x), MulByLog(pow, log, 0x0B, x))
  }

  ghost predicate ForwardPrefixes(f0: seq<bv32>, f1: seq<bv32>, f2: seq<bv32>, f3: seq<bv32>, i: nat) {
    ForwardPrefix(f0, 0, i) && ForwardPrefix(f1, 1, i) && ForwardPrefix(f2, 2, i) && ForwardPrefix(f3, 3, i)
  }

  ghost predicate ReversePrefixes(r0: seq<bv32>, r1: seq<bv32>, r2: seq<bv32>, r3: seq<bv32>, i: nat) {
    ReversePrefix(r0, 0, i) && ReversePrefix(r1, 1, i) && ReversePrefix(r2, 2, i) && ReversePrefix(r3, 3, i)
  }

  lemma EmptyPrefixes(t0: seq<bv32>, t1: seq<bv32>, t2: seq<bv32>, t3: seq<bv32>)
    requires |t0| == |t1| == |t2| == |t3| == 256
    ensures ForwardPrefixes(t0, t1, t2, t3, 0) && ReversePrefixes(t0, t1, t2, t3, 0)
  {}

  lemma ForwardPrefixStep(f0: seq<bv32>, f1: seq<bv32>, f2: seq<bv32>, f3: seq<bv32>, i: nat, f: bv32)
    requires i < 256 && |f0| == |f1| == |f2| == |f3| == 256
    requires ForwardPrefixes(f0, f1, f2, f3, i)
    requires f == Pack(Rotations(MixEntry(SBox(Byte(i))), 0))
    ensures ForwardPrefixes(f0[i := f], f1[i := RotL8(f)], f2[i := RotL8(RotL8(f))], f3[i := RotL8(RotL8(RotL8(f)))], i + 1)
  {
    hide SBox, Pack, Rotations, MixEntry, RotL8, Byte;
    var c := MixEntry(SBox(Byte(i)));
    NextRotation(c, 0); NextRotation(c, 1); NextRotation(c, 2);
  }

  lemma ReversePrefixStep(r0: seq<bv32>, r1: seq<bv32>, r2: seq<bv32>, r3: seq<bv32>, i: nat, r: bv32)
    requires i < 256 && |r0| == |r1| == |r2| == |r3| == 256
    requires ReversePrefixes(r0, r1, r2, r3, i)
    requires r == Pack(Rotations(InvMixEntry(InvSBox(Byte(i))), 0))
    ensures ReversePrefixes(r0[i := r], r1[i := RotL8(r)], r2[i := RotL8(RotL8(r))], r3[i := RotL8(RotL8(RotL8(r)))], i + 1)
  {
    hide InvSBox, Pack, Rotations, InvMixEntry, RotL8, Byte;
    var c := InvMixEntry(InvSBox(Byte(i)));
    NextRotation(c, 0); NextRotation(c, 1); NextRotation(c, 2);
  }

  ghost predicate ForwardFamily(f0: seq<bv32>, f1: seq<bv32>, f2: seq<bv32>, f3: seq<bv32>) {
    ForwardTable(f0, 0) && ForwardTable(f1, 1) && ForwardTable(f2, 2) && ForwardTable(f3, 3)
  }

  ghost predicate ReverseFamily(r0: seq<bv32>, r1: seq<bv32>, r2: seq<bv32>, r3: seq<bv32>) {
    ReverseTable(r0, 0) && ReverseTable(r1, 1) && ReverseTable(r2, 2) && ReverseTable(r3, 3)
  }

  lemma FamiliesComplete(t0: seq<bv32>, t1: seq<bv32>, t2: seq<bv32>, t3: seq<bv32>)
    ensures ForwardPrefixes(t0, t1, t2, t3, 256) ==> ForwardFamily(t0, t1, t2, t3)
    ensures ReversePrefixes(t0, t1, t2, t3, 256) ==> ReverseFamily(t0, t1, t2, t3)
  {
    hide ForwardTable, ReverseTable, ForwardPrefix, ReversePrefix;
    PrefixesComplete(t0, 0);
    PrefixesComplete(t1, 1);
    PrefixesComplete(t2, 2);
    PrefixesComplete(t3, 3);
  }

  method FillRoundTables(fsb: seq<bv8>, rsb: seq<bv8>, pow: seq<bv8>, log: seq<nat>,
                         ft0: array<bv32>, ft1: array<bv32>, ft2: array<bv32>, ft3: array<bv32>,
                         rt0: array<bv32>, rt1: array<bv32>, rt2: array<bv32>, rt3: array<bv32>)
    requires SBoxTables(fsb, rsb) && PowLogTables(pow, log)
    requires ft0.Length == ft1.Length == ft2.Length == ft3.Length == 256
    requires rt0.Length == rt1.Length == rt2.Length == rt3.Length == 256
    requires ft0 != ft1 && ft0 != ft2 && ft0 != ft3 && ft1 != ft2 && ft1 != ft3 && ft2 != ft3
    requires rt0 != rt1 && rt0 != rt2 && rt0 != rt3 && rt1 != rt2 && rt1 != rt3 && rt2 != rt3
    requires {ft0, ft1, ft2, ft3} !! {rt0, rt1, rt2, rt3}
    modifies ft0, ft1, ft2, ft3, rt0, rt1, rt2, rt3
    ensures ForwardFamily(ft0[..], ft1[..], ft2[..], ft3[..])
    ensures ReverseFamily(rt0[..], rt1[..], rt2[..], rt3[..])
  {
    hide *;
    EmptyPrefixes(ft0[..], ft1[..], ft2[..], ft3[..]);
    EmptyPrefixes(rt0[..], rt1[..], rt2[..], rt3[..]);
    for i := 0 to 256
      invariant ForwardPrefixes(ft0[..], ft1[..], ft2[..], ft3[..], i)
      invariant ReversePrefixes(rt0[..], rt1[..], rt2[..], rt3[..], i)
    {
      ForwardPrefixStep(ft0[..], ft1[..], ft2[..], ft3[..], i, ForwardEntry(fsb, rsb, i));
      FillEntry(ft0, ft1, ft2, ft3, i, ForwardEntry(fsb, rsb, i));
      ReversePrefixStep(rt0[..], rt1[..], rt2[..], rt3[..], i, ReverseEntry(fsb, rsb, pow, log, i));
      FillEntry(rt0, rt1, rt2, rt3, i, ReverseEntry(fsb, rsb, pow, log, i));
    }
    FamiliesComplete(ft0[..], ft1[..], ft2[..], ft3[..]);
    FamiliesComplete(rt0[..], rt1[..], rt2[..], rt3[..]);
  }

  method NewRoundTables(fsb: seq<bv8>, rsb: seq<bv8>, pow: seq<bv8>, log: seq<nat>)
      returns (ft0: array<bv32>, ft1: array<bv32>, ft2: array<bv32>, ft3: array<bv32>,
               rt0: array<bv32>, rt1: array<bv32>, rt2: array<bv32>, rt3: array<bv32>)
    requires SBoxTables(fsb, rsb) && PowLogTables(pow, log)
    ensures fresh({ft0, ft1, ft2, ft3, rt0, rt1, rt2, rt3})
    ensures ForwardFamily(ft0[..], ft1[..], ft2[..], ft3[..])
    ensures ReverseFamily(rt0[..], rt1[..], rt2[..], rt3[..])
  {
    hide *;
    ft0, ft1, ft2, ft3 := new bv32[256], new bv32[256], new bv32[256], new bv32[256];
    rt0, rt1, rt2, rt3 := new bv32[256], new bv32[256], new bv32[256], new bv32[256];
    FillRoundTables(fsb, rsb, pow, log, ft0, ft1, ft2, ft3, rt0, rt1, rt2, rt3);
  }

  // ---------- round constants (src/infra/infra_aes.c:377-381) ----------

  ghost predicate RconTable(rcon: seq<bv8>) {
    |rcon| == 10 && forall i: nat :: i < 10 ==> rcon[i] == Rcon(i + 1)
  }

  method RoundConstants() returns (rcon: array<bv8>)
    ensures fresh(rcon) && RconTable(rcon[..])
  {
    rcon := new bv8[10];
    var x: bv8 := 1;
    for i := 0 to 10
      invariant x == Rcon(i + 1)
      invariant forall k: nat :: k < i ==> rcon[k] == Rcon(k + 1)
    {
      hide XTime;
      rcon[i] := x;
      x := XTime(x);
    }
  }
}
