// The AES context of src/infra/infra_aes.c:464-798: key schedules in a word
// buffer and the block cipher through the round tables, proved equal to the
// cipher of FIPS 197.
module AesCipher {
  import opened GaloisField
  import opened Fips197
  import opened AesTables

  // ---------- blocks of 16 bytes ----------

  type Block = b: seq<bv8> | |b| == 16 witness seq(16, _ => 0)

  function ColumnAt(b: seq<bv8>, i: nat): Column
    requires i + 4 <= |b|
  {
    Column(b[i], b[i + 1], b[i + 2], b[i + 3])
  }

  function StateOf(b: Block): State {
    State(ColumnAt(b, 0), ColumnAt(b, 4), ColumnAt(b, 8), ColumnAt(b, 12))
  }

  function ColumnBytes(c: Column): seq<bv8> {
    [c.b0, c.b1, c.b2, c.b3]
  }

  function BlockOf(s: State): Block {
    ColumnBytes(s.c0) + ColumnBytes(s.c1) + ColumnBytes(s.c2) + ColumnBytes(s.c3)
  }

  lemma BlockRoundTrip(b: Block, s: State)
    ensures BlockOf(StateOf(b)) == b && StateOf(BlockOf(s)) == s
  {}

  // The columns of a 16, 24 or 32 byte key.
  function KeyColumns(key: seq<bv8>): (k: seq<Column>)
    requires |key| % 4 == 0
    ensures |k| == |key| / 4
  {
    seq(|key| / 4, i requires 0 <= i < |key| / 4 => ColumnAt(key, 4 * i))
  }

  // ---------- words in byte buffers: GET_UINT32_LE and PUT_UINT32_LE ----------

  function GetLE(b: seq<bv8>, i: nat): (w: bv32)
    requires i + 4 <= |b|
    ensures w == Pack(ColumnAt(b, i))
  {
    (b[i] as bv32) | ((b[i + 1] as bv32) << 8) | ((b[i + 2] as bv32) << 16) | ((b[i + 3] as bv32) << 24)
  }

  // A buffer with the bytes c written at a position.
  function Splice(b: seq<bv8>, at: nat, c: seq<bv8>): (r: seq<bv8>)
    requires at + |c| <= |b|
    ensures |r| == |b|
  {
    b[..at] + c + b[at + |c|..]
  }

  method PutLE(w: bv32, out: array<bv8>, i: nat)
    requires i + 4 <= out.Length
    modifies out
    ensures out[..] == Splice(old(out[..]), i, ColumnBytes(Unpack(w)))
  {
    out[i] := (w & 0xFF) as bv8;
    out[i + 1] := ((w >> 8) & 0xFF) as bv8;
    out[i + 2] := ((w >> 16) & 0xFF) as bv8;
    out[i + 3] := ((w >> 24) & 0xFF) as bv8;
  }

  // ---------- table sums are round columns ----------

  // A chain of exclusive-ors, and its rotations.
  lemma Chain(p: bv8, q: bv8, r: bv8, s: bv8)
    ensures Add(Add(Add(p, q), r), s) == Sum4(p, q, r, s)
    ensures Sum4(p, q, r, s) == Sum4(q, r, s, p) == Sum4(r, s, p, q) == Sum4(s, p, q, r)
  {
    hide Add, Sum4;
    ChainIsSum4(p, q, r, s);
    Sum4Rotate(p, q, r, s);
    Sum4Rotate(q, r, s, p);
    Sum4Rotate(r, s, p, q);
  }

  lemma ChainIsSum4(p: bv8, q: bv8, r: bv8, s: bv8)
    ensures Add(Add(Add(p, q), r), s) == Sum4(p, q, r, s)
  {
    hide Add;
    AddAlgebra();
  }

  function AddColumns(a: Column, b: Column, c: Column, d: Column): Column {
    AddColumn(AddColumn(AddColumn(a, b), c), d)
  }

  lemma MixColumnFromEntries(a: bv8, b: bv8, c: bv8, d: bv8)
    ensures MixColumn(Column(a, b, c, d))
         == AddColumns(Rotations(MixEntry(a), 0), Rotations(MixEntry(b), 1), Rotations(MixEntry(c), 2), Rotations(MixEntry(d), 3))
  {
    hide Mul, Add, Sum4;
    Chain(Mul(2, a), Mul(3, b), c, d);
    Chain(a, Mul(2, b), Mul(3, c), d);
    Chain(a, b, Mul(2, c), Mul(3, d));
    Chain(Mul(3, a), b, c, Mul(2, d));
  }

  lemma InvMixColumnFromEntries(a: bv8, b: bv8, c: bv8, d: bv8)
    ensures InvMixColumn(Column(a, b, c, d))
         == AddColumns(Rotations(InvMixEntry(a), 0), Rotations(InvMixEntry(b), 1), Rotations(InvMixEntry(c), 2), Rotations(InvMixEntry(d), 3))
  {
    hide Mul, Add, Sum4;
    Chain(Mul(14, a), Mul(11, b), Mul(13, c), Mul(9, d));
    Chain(Mul(9, a), Mul(14, b), Mul(11, c), Mul(13, d));
    Chain(Mul(13, a), Mul(9, b), Mul(14, c), Mul(11, d));
    Chain(Mul(11, a), Mul(13, b), Mul(9, c), Mul(14, d));
  }

  // The four look-ups of AES_FROUND and AES_RROUND with one round-key word.
  function TableSum(k: bv32, t0: seq<bv32>, t1: seq<bv32>, t2: seq<bv32>, t3: seq<bv32>, a: bv32, b: bv32, c: bv32, d: bv32): bv32
    requires |t0| == |t1| == |t2| == |t3| == 256
  {
    Xor(Xor(Xor(Xor(k, Get(t0, Unpack(a).b0)), Get(t1, Unpack(b).b1)), Get(t2, Unpack(c).b2)), Get(t3, Unpack(d).b3))
  }

  lemma ForwardSum(k: Column, t0: seq<bv32>, t1: seq<bv32>, t2: seq<bv32>, t3: seq<bv32>, a: Column, b: Column, c: Column, d: Column)
    requires ForwardFamily(t0, t1, t2, t3)
    ensures TableSum(Pack(k), t0, t1, t2, t3, Pack(a), Pack(b), Pack(c), Pack(d))
         == Pack(AddColumn(MixColumn(SubColumn(Column(a.b0, b.b1, c.b2, d.b3))), k))
  {
    hide Pack, Unpack, Get, Xor, SBox, MixColumn, Rotations, MixEntry, AddColumn;
    UnpackPack(a); UnpackPack(b); UnpackPack(c); UnpackPack(d);
    PackSum(k, Rotations(MixEntry(SBox(a.b0)), 0), Rotations(MixEntry(SBox(b.b1)), 1),
            Rotations(MixEntry(SBox(c.b2)), 2), Rotations(MixEntry(SBox(d.b3)), 3));
    MixColumnFromEntries(SBox(a.b0), SBox(b.b1), SBox(c.b2), SBox(d.b3));
  }

  lemma ReverseSum(k: Column, t0: seq<bv32>, t1: seq<bv32>, t2: seq<bv32>, t3: seq<bv32>, a: Column, b: Column, c: Column, d: Column)
    requires ReverseFamily(t0, t1, t2, t3)
    ensures TableSum(Pack(k), t0, t1, t2, t3, Pack(a), Pack(b), Pack(c), Pack(d))
         == Pack(AddColumn(InvMixColumn(InvSubColumn(Column(a.b0, b.b1, c.b2, d.b3))), k))
  {
    hide Pack, Unpack, Get, Xor, InvSBox, InvMixColumn, Rotations, InvMixEntry, AddColumn;
    UnpackPack(a); UnpackPack(b); UnpackPack(c); UnpackPack(d);
    PackSum(k, Rotations(InvMixEntry(InvSBox(a.b0)), 0), Rotations(InvMixEntry(InvSBox(b.b1)), 1),
            Rotations(InvMixEntry(InvSBox(c.b2)), 2), Rotations(InvMixEntry(InvSBox(d.b3)), 3));
    InvMixColumnFromEntries(InvSBox(a.b0), InvSBox(b.b1), InvSBox(c.b2), InvSBox(d.b3));
  }

  lemma PackSum(k: Column, a: Column, b: Column, c: Column, d: Column)
    ensures Xor(Xor(Xor(Xor(Pack(k), Pack(a)), Pack(b)), Pack(c)), Pack(d)) == Pack(AddColumn(AddColumns(a, b, c, d), k))
  {
    hide Pack, Add, Xor;
    PackAdd(k, a);
    PackAdd(AddColumn(k, a), b);
    PackAdd(AddColumn(AddColumn(k, a), b), c);
    PackAdd(AddColumn(AddColumn(AddColumn(k, a), b), c), d);
    ChainMovesKey(k, a, b, c, d);
  }

  lemma ChainMovesKey(k: Column, a: Column, b: Column, c: Column, d: Column)
    ensures AddColumns(AddColumn(k, a), b, c, d) == AddColumn(AddColumns(a, b, c, d), k)
  {
    hide Add;
    AddAlgebra();
  }

  lemma SBoxWord(k: Column, t: seq<bv8>, a: Column, b: Column, c: Column, d: Column)
    requires |t| == 256
    ensures Xor(Pack(k), PackBytes(Get(t, Unpack(Pack(a)).b0), Get(t, Unpack(Pack(b)).b1), Get(t, Unpack(Pack(c)).b2), Get(t, Unpack(Pack(d)).b3)))
         == Pack(AddColumn(Column(Get(t, a.b0), Get(t, b.b1), Get(t, c.b2), Get(t, d.b3)), k))
  {
    hide Pack, Unpack, Get, Xor, AddColumn;
    UnpackPack(a); UnpackPack(b); UnpackPack(c); UnpackPack(d);
    var e := Column(Get(t, a.b0), Get(t, b.b1), Get(t, c.b2), Get(t, d.b3));
    PackAdd(k, e);
    AddColumnCommutes(k, e);
  }

  lemma AddColumnCommutes(c: Column, d: Column)
    ensures AddColumn(c, d) == AddColumn(d, c)
  {
    hide Add;
    AddAlgebra();
  }

  // setkey_dec feeds S-box outputs to the reverse tables, which leaves InvMixColumn alone.
  lemma InvMixByTables(fsb: seq<bv8>, rsb: seq<bv8>, t0: seq<bv32>, t1: seq<bv32>, t2: seq<bv32>, t3: seq<bv32>, c: Column)
    requires SBoxTables(fsb, rsb) && ReverseFamily(t0, t1, t2, t3)
    ensures Xor(Xor(Xor(Get(t0, Get(fsb, c.b0)), Get(t1, Get(fsb, c.b1))), Get(t2, Get(fsb, c.b2))), Get(t3, Get(fsb, c.b3)))
         == Pack(InvMixColumn(c))
  {
    hide Pack, Get, Xor, SBox, InvSBox, InvMixColumn, Rotations, InvMixEntry, Add;
    SBoxInverse(c.b0); SBoxInverse(c.b1); SBoxInverse(c.b2); SBoxInverse(c.b3);
    var e0, e1, e2, e3 := Rotations(InvMixEntry(c.b0), 0), Rotations(InvMixEntry(c.b1), 1),
                          Rotations(InvMixEntry(c.b2), 2), Rotations(InvMixEntry(c.b3), 3);
    PackAdd(e0, e1);
    PackAdd(AddColumn(e0, e1), e2);
    PackAdd(AddColumn(AddColumn(e0, e1), e2), e3);
    InvMixColumnFromEntries(c.b0, c.b1, c.b2, c.b3);
  }

  // ---------- the static tables ----------

  // The tables are filled once and only read afterwards.
  datatype Tables = Tables(fsb: seq<bv8>, rsb: seq<bv8>,
                           ft0: seq<bv32>, ft1: seq<bv32>, ft2: seq<bv32>, ft3: seq<bv32>,
                           rt0: seq<bv32>, rt1: seq<bv32>, rt2: seq<bv32>, rt3: seq<bv32>, rcon: seq<bv8>)
  {
    ghost predicate Ready() {
      && SBoxTables(fsb, rsb)
      && ForwardFamily(ft0, ft1, ft2, ft3)
      && ReverseFamily(rt0, rt1, rt2, rt3)
      && RconTable(rcon)
    }

    predicate Sized() {
      && |fsb| == 256 && |rsb| == 256 && |rcon| == 10
      && |ft0| == 256 && |ft1| == 256 && |ft2| == 256 && |ft3| == 256
      && |rt0| == 256 && |rt1| == 256 && |rt2| == 256 && |rt3| == 256
    }

    lemma Sizes()
      requires Ready()
      ensures Sized()
      ensures |fsb| == |rsb| == 256 && |rcon| == 10
      ensures |ft0| == |ft1| == |ft2| == |ft3| == |rt0| == |rt1| == |rt2| == |rt3| == 256
    {}
  }

  // aes_gen_tables
  method GenTables() returns (t: Tables)
    ensures t.Ready()
  {
    hide SBoxTables, ForwardFamily, ReverseFamily, RconTable, PowLogTables;
    var pow, log := PowLog();
    var f, r := SBoxes(pow[..], log[..]);
    var c := RoundConstants();
    var f0, f1, f2, f3, r0, r1, r2, r3 := NewRoundTables(f[..], r[..], pow[..], log[..]);
    t := Tables(f[..], r[..], f0[..], f1[..], f2[..], f3[..], r0[..], r1[..], r2[..], r3[..], c[..]);
  }

  // ---------- the cipher context ----------

  // The four local words of the block functions.
  datatype Words = Words(x0: bv32, x1: bv32, x2: bv32, x3: bv32)

  function PackState(s: State): Words {
    Words(Pack(s.c0), Pack(s.c1), Pack(s.c2), Pack(s.c3))
  }

  // Words [4r, 4r + 4) of a key schedule.
  function KeyWords(rk: seq<bv32>, r: nat): Words
    requires 4 * r + 4 <= |rk|
  {
    Words(rk[4 * r], rk[4 * r + 1], rk[4 * r + 2], rk[4 * r + 3])
  }

  // The first words of the buffer hold the columns of w.
  ghost predicate HasKeys(rk: seq<bv32>, w: seq<Column>) {
    |w| <= |rk| && forall i: nat :: i < |w| ==> rk[i] == Pack(w[i])
  }

  lemma KeysHold(rk: seq<bv32>, w: seq<Column>, r: nat)
    requires HasKeys(rk, w) && 4 * r + 4 <= |w|
    ensures 4 * r + 4 <= |rk| && KeyWords(rk, r) == PackState(RoundKey(w, r))
  {}

  // Loading a block and adding the first round key.
  function FirstAdd(b: Block, k: Words): Words {
    Words(Xor(GetLE(b, 0), k.x0), Xor(GetLE(b, 4), k.x1), Xor(GetLE(b, 8), k.x2), Xor(GetLE(b, 12), k.x3))
  }

  lemma FirstAddCorrect(b: Block, k: State)
    ensures FirstAdd(b, PackState(k)) == PackState(AddState(StateOf(b), k))
  {
    hide Pack, AddColumn, Xor, GetLE;
    PackAdd(ColumnAt(b, 0), k.c0);
    PackAdd(ColumnAt(b, 4), k.c1);
    PackAdd(ColumnAt(b, 8), k.c2);
    PackAdd(ColumnAt(b, 12), k.c3);
  }

  // AES_FROUND
  function ForwardRound(t: Tables, k: Words, y: Words): Words
    requires t.Sized()
  {
    Words(
      TableSum(k.x0, t.ft0, t.ft1, t.ft2, t.ft3, y.x0, y.x1, y.x2, y.x3),
      TableSum(k.x1, t.ft0, t.ft1, t.ft2, t.ft3, y.x1, y.x2, y.x3, y.x0),
      TableSum(k.x2, t.ft0, t.ft1, t.ft2, t.ft3, y.x2, y.x3, y.x0, y.x1),
      TableSum(k.x3, t.ft0, t.ft1, t.ft2, t.ft3, y.x3, y.x0, y.x1, y.x2))
  }

  // AES_RROUND
  function ReverseRound(t: Tables, k: Words, y: Words): Words
    requires t.Sized()
  {
    Words(
      TableSum(k.x0, t.rt0, t.rt1, t.rt2, t.rt3, y.x0, y.x3, y.x2, y.x1),
      TableSum(k.x1, t.rt0, t.rt1, t.rt2, t.rt3, y.x1, y.x0, y.x3, y.x2),
      TableSum(k.x2, t.rt0, t.rt1, t.rt2, t.rt3, y.x2, y.x1, y.x0, y.x3),
      TableSum(k.x3, t.rt0, t.rt1, t.rt2, t.rt3, y.x3, y.x2, y.x1, y.x0))
  }

  // The last rounds, through an S-box and without MixColumns.
  function FinalRound(t: Tables, k: Words, y: Words): Words
    requires t.Sized()
  {
    Words(
      Xor(k.x0, SBoxSum(t.fsb, y.x0, y.x1, y.x2, y.x3)),
      Xor(k.x1, SBoxSum(t.fsb, y.x1, y.x2, y.x3, y.x0)),
      Xor(k.x2, SBoxSum(t.fsb, y.x2, y.x3, y.x0, y.x1)),
      Xor(k.x3, SBoxSum(t.fsb, y.x3, y.x0, y.x1, y.x2)))
  }

  function FinalInvRound(t: Tables, k: Words, y: Words): Words
    requires t.Sized()
  {
    Words(
      Xor(k.x0, SBoxSum(t.rsb, y.x0, y.x3, y.x2, y.x1)),
      Xor(k.x1, SBoxSum(t.rsb, y.x1, y.x0, y.x3, y.x2)),
      Xor(k.x2, SBoxSum(t.rsb, y.x2, y.x1, y.x0, y.x3)),
      Xor(k.x3, SBoxSum(t.rsb, y.x3, y.x2, y.x1, y.x0)))
  }

  lemma ForwardRoundCorrect(t: Tables, k: State, s: State)
    requires t.Ready()
    ensures t.Sized()
    ensures ForwardRound(t, PackState(k), PackState(s)) == PackState(AddState(MixColumns(ShiftRows(SubBytes(s))), k))
  {
    hide Pack, TableSum, SubColumn, MixColumn, AddColumn, SBoxTables, ForwardFamily, ReverseFamily, RconTable, Tables.Sized;
    t.Sizes();
    SubThenShift(s);
    ForwardSum(k.c0, t.ft0, t.ft1, t.ft2, t.ft3, s.c0, s.c1, s.c2, s.c3);
    ForwardSum(k.c1, t.ft0, t.ft1, t.ft2, t.ft3, s.c1, s.c2, s.c3, s.c0);
    ForwardSum(k.c2, t.ft0, t.ft1, t.ft2, t.ft3, s.c2, s.c3, s.c0, s.c1);
    ForwardSum(k.c3, t.ft0, t.ft1, t.ft2, t.ft3, s.c3, s.c0, s.c1, s.c2);
  }

  lemma ReverseRoundCorrect(t: Tables, k: State, s: State)
    requires t.Ready()
    ensures t.Sized()
    ensures ReverseRound(t, PackState(k), PackState(s)) == PackState(AddState(InvMixColumns(InvShiftRows(InvSubBytes(s))), k))
  {
    hide Pack, TableSum, InvSubColumn, InvMixColumn, AddColumn, SBoxTables, ForwardFamily, ReverseFamily, RconTable, Tables.Sized;
    t.Sizes();
    InvSubThenShift(s);
    ReverseSum(k.c0, t.rt0, t.rt1, t.rt2, t.rt3, s.c0, s.c3, s.c2, s.c1);
    ReverseSum(k.c1, t.rt0, t.rt1, t.rt2, t.rt3, s.c1, s.c0, s.c3, s.c2);
    ReverseSum(k.c2, t.rt0, t.rt1, t.rt2, t.rt3, s.c2, s.c1, s.c0, s.c3);
    ReverseSum(k.c3, t.rt0, t.rt1, t.rt2, t.rt3, s.c3, s.c2, s.c1, s.c0);
  }

  lemma FinalRoundCorrect(t: Tables, k: State, s: State)
    requires t.Ready()
    ensures t.Sized()
    ensures FinalRound(t, PackState(k), PackState(s)) == PackState(AddState(ShiftRows(SubBytes(s)), k))
  {
    hide Pack, SBox, InvSBox, AddColumn, Unpack, Xor, ForwardFamily, ReverseFamily, RconTable, Tables.Sized;
    t.Sizes();
    SBoxWord(k.c0, t.fsb, s.c0, s.c1, s.c2, s.c3);
    SBoxWord(k.c1, t.fsb, s.c1, s.c2, s.c3, s.c0);
    SBoxWord(k.c2, t.fsb, s.c2, s.c3, s.c0, s.c1);
    SBoxWord(k.c3, t.fsb, s.c3, s.c0, s.c1, s.c2);
  }

  lemma FinalInvRoundCorrect(t: Tables, k: State, s: State)
    requires t.Ready()
    ensures t.Sized()
    ensures FinalInvRound(t, PackState(k), PackState(s)) == PackState(AddState(InvShiftRows(InvSubBytes(s)), k))
  {
    hide Pack, SBox, InvSBox, AddColumn, Unpack, Xor, ForwardFamily, ReverseFamily, RconTable, Tables.Sized;
    t.Sizes();
    SBoxWord(k.c0, t.rsb, s.c0, s.c3, s.c2, s.c1);
    SBoxWord(k.c1, t.rsb, s.c1, s.c0, s.c3, s.c2);
    SBoxWord(k.c2, t.rsb, s.c2, s.c1, s.c0, s.c3);
    SBoxWord(k.c3, t.rsb, s.c3, s.c2, s.c1, s.c0);
  }

  lemma RoundsStart(s: State, w: seq<Column>)
    requires 4 <= |w|
    ensures AfterRounds(s, w, 0) == AddState(s, RoundKey(w, 0)) == AfterInvRounds(s, w, 0)
  {}

  lemma RoundsStep(s: State, w: seq<Column>, r: nat)
    requires 4 * r + 8 <= |w|
    ensures AfterRounds(s, w, r + 1) == AddState(MixColumns(ShiftRows(SubBytes(AfterRounds(s, w, r)))), RoundKey(w, r + 1))
    ensures AfterInvRounds(s, w, r + 1) == AddState(InvMixColumns(InvShiftRows(InvSubBytes(AfterInvRounds(s, w, r)))), RoundKey(w, r + 1))
  {
    hide SubBytes, ShiftRows, MixColumns, AddState, RoundKey, InvSubBytes, InvShiftRows, InvMixColumns;
  }

  // The steps of the block functions, against the rounds of the standard.
  lemma FirstStep(rk: seq<bv32>, b: Block, w: seq<Column>)
    requires HasKeys(rk, w) && 4 <= |w|
    ensures 4 <= |rk|
    ensures FirstAdd(b, KeyWords(rk, 0)) == PackState(AfterRounds(StateOf(b), w, 0)) == PackState(AfterInvRounds(StateOf(b), w, 0))
  {
    hide PackState, SubBytes, ShiftRows, MixColumns, InvSubBytes, InvShiftRows, InvMixColumns, AddState, RoundKey, AfterRounds, AfterInvRounds, HasKeys, KeyWords, FirstAdd, ForwardRound, ReverseRound, FinalRound, FinalInvRound, StateOf, Tables.Ready, Tables.Sized;
    KeysHold(rk, w, 0);
    RoundsStart(StateOf(b), w);
    FirstAddCorrect(b, RoundKey(w, 0));
  }

  lemma InnerSteps(t: Tables, rk: seq<bv32>, w: seq<Column>, s: State, r: nat)
    requires t.Ready() && HasKeys(rk, w) && 4 * r + 8 <= |w|
    ensures t.Sized() && 4 * r + 8 <= |rk|
    ensures ForwardRound(t, KeyWords(rk, r + 1), PackState(AfterRounds(s, w, r))) == PackState(AfterRounds(s, w, r + 1))
    ensures ReverseRound(t, KeyWords(rk, r + 1), PackState(AfterInvRounds(s, w, r))) == PackState(AfterInvRounds(s, w, r + 1))
  {
    hide PackState, SubBytes, ShiftRows, MixColumns, InvSubBytes, InvShiftRows, InvMixColumns, AddState, RoundKey, AfterRounds, AfterInvRounds, HasKeys, KeyWords, FirstAdd, ForwardRound, ReverseRound, FinalRound, FinalInvRound, StateOf, Tables.Ready, Tables.Sized;
    KeysHold(rk, w, r + 1);
    RoundsStep(s, w, r);
    ForwardRoundCorrect(t, RoundKey(w, r + 1), AfterRounds(s, w, r));
    ReverseRoundCorrect(t, RoundKey(w, r + 1), AfterInvRounds(s, w, r));
  }

  lemma FinalSteps(t: Tables, rk: seq<bv32>, w: seq<Column>, s: State, nr: nat)
    requires t.Ready() && HasKeys(rk, w) && nr > 0 && |w| == 4 * (nr + 1)
    ensures t.Sized() && 4 * nr + 4 <= |rk|
    ensures FinalRound(t, KeyWords(rk, nr), PackState(AfterRounds(s, w, nr - 1))) == PackState(Cipher(s, w, nr))
    ensures FinalInvRound(t, KeyWords(rk, nr), PackState(AfterInvRounds(s, w, nr - 1))) == PackState(EqInvCipher(s, w, nr))
  {
    hide PackState, SubBytes, ShiftRows, MixColumns, InvSubBytes, InvShiftRows, InvMixColumns, AddState, RoundKey, AfterRounds, AfterInvRounds, HasKeys, KeyWords, FirstAdd, ForwardRound, ReverseRound, FinalRound, FinalInvRound, StateOf, Tables.Ready, Tables.Sized;
    KeysHold(rk, w, nr);
    FinalRoundCorrect(t, RoundKey(w, nr), AfterRounds(s, w, nr - 1));
    FinalInvRoundCorrect(t, RoundKey(w, nr), AfterInvRounds(s, w, nr - 1));
  }

  method EncryptRounds(t: Tables, rk: seq<bv32>, nr: nat, b: Block, ghost w: seq<Column>) returns (x: Words)
    requires t.Ready() && (nr == 10 || nr == 12 || nr == 14) && |w| == 4 * (nr + 1) && HasKeys(rk, w)
    ensures x == PackState(Cipher(StateOf(b), w, nr))
  {
    hide *;
    ghost var s := StateOf(b);
    FirstStep(rk, b, w);
    x := FirstAdd(b, KeyWords(rk, 0));
    var r := 0;
    var i := nr / 2 - 1;
    while i > 0
      invariant 0 <= i && r == nr - 2 - 2 * i
      invariant x == PackState(AfterRounds(s, w, r))
    {
      InnerSteps(t, rk, w, s, r);
      var y := ForwardRound(t, KeyWords(rk, r + 1), x);
      InnerSteps(t, rk, w, s, r + 1);
      x := ForwardRound(t, KeyWords(rk, r + 2), y);
      r := r + 2;
      i := i - 1;
    }
    InnerSteps(t, rk, w, s, r);
    var y := ForwardRound(t, KeyWords(rk, r + 1), x);
    FinalSteps(t, rk, w, s, nr);
    x := FinalRound(t, KeyWords(rk, r + 2), y);
  }

  method DecryptRounds(t: Tables, rk: seq<bv32>, nr: nat, b: Block, ghost w: seq<Column>) returns (x: Words)
    requires t.Ready() && (nr == 10 || nr == 12 || nr == 14) && |w| == 4 * (nr + 1) && HasKeys(rk, w)
    ensures x == PackState(EqInvCipher(StateOf(b), w, nr))
  {
    hide *;
    ghost var s := StateOf(b);
    FirstStep(rk, b, w);
    x := FirstAdd(b, KeyWords(rk, 0));
    var r := 0;
    var i := nr / 2 - 1;
    while i > 0
      invariant 0 <= i && r == nr - 2 - 2 * i
      invariant x == PackState(AfterInvRounds(s, w, r))
    {
      InnerSteps(t, rk, w, s, r);
      var y := ReverseRound(t, KeyWords(rk, r + 1), x);
      InnerSteps(t, rk, w, s, r + 1);
      x := ReverseRound(t, KeyWords(rk, r + 2), y);
      r := r + 2;
      i := i - 1;
    }
    InnerSteps(t, rk, w, s, r);
    var y := ReverseRound(t, KeyWords(rk, r + 1), x);
    FinalSteps(t, rk, w, s, nr);
    x := FinalInvRound(t, KeyWords(rk, r + 2), y);
  }

  lemma SpliceFour(b: seq<bv8>, at: nat, s: State)
    requires at + 16 <= |b|
    ensures Splice(Splice(Splice(Splice(b, at, ColumnBytes(s.c0)), at + 4, ColumnBytes(s.c1)), at + 8, ColumnBytes(s.c2)), at + 12, ColumnBytes(s.c3))
         == Splice(b, at, BlockOf(s))
  {
    SpliceTwo(b, at, ColumnBytes(s.c0), ColumnBytes(s.c1));
    SpliceTwo(b, at, ColumnBytes(s.c0) + ColumnBytes(s.c1), ColumnBytes(s.c2));
    SpliceTwo(b, at, ColumnBytes(s.c0) + ColumnBytes(s.c1) + ColumnBytes(s.c2), ColumnBytes(s.c3));
    hide Splice;
  }

  lemma SpliceTwo(b: seq<bv8>, at: nat, c: seq<bv8>, d: seq<bv8>)
    requires at + |c| + |d| <= |b|
    ensures Splice(Splice(b, at, c), at + |c|, d) == Splice(b, at, c + d)
  {
    var once := Splice(b, at, c);
    assert once[..at + |c|] == b[..at] + c;
    assert once[at + |c| + |d|..] == b[at + |c| + |d|..];
  }

  method PutState(x: Words, output: array<bv8>, at: nat, ghost s: State)
    requires at + 16 <= output.Length && x == PackState(s)
    modifies output
    ensures output[..] == Splice(old(output[..]), at, BlockOf(s))
  {
    hide Pack, Unpack, Splice;
    SpliceFour(output[..], at, s);
    PutLE(x.x0, output, at);
    PutLE(x.x1, output, at + 4);
    PutLE(x.x2, output, at + 8);
    PutLE(x.x3, output, at + 12);
    UnpackPack(s.c0); UnpackPack(s.c1); UnpackPack(s.c2); UnpackPack(s.c3);
  }

  // The four S-box look-ups of a last-round word.
  function SBoxSum(t: seq<bv8>, a: bv32, b: bv32, c: bv32, d: bv32): bv32
    requires |t| == 256
  {
    PackBytes(Get(t, Unpack(a).b0), Get(t, Unpack(b).b1), Get(t, Unpack(c).b2), Get(t, Unpack(d).b3))
  }

  lemma InvSubThenShift(s: State)
    ensures InvShiftRows(InvSubBytes(s)) == State(
      InvSubColumn(Column(s.c0.b0, s.c3.b1, s.c2.b2, s.c1.b3)), InvSubColumn(Column(s.c1.b0, s.c0.b1, s.c3.b2, s.c2.b3)),
      InvSubColumn(Column(s.c2.b0, s.c1.b1, s.c0.b2, s.c3.b3)), InvSubColumn(Column(s.c3.b0, s.c2.b1, s.c1.b2, s.c0.b3)))
  {
    hide InvSBox;
  }

  lemma SubThenShift(s: State)
    ensures ShiftRows(SubBytes(s)) == State(
      SubColumn(Column(s.c0.b0, s.c1.b1, s.c2.b2, s.c3.b3)), SubColumn(Column(s.c1.b0, s.c2.b1, s.c3.b2, s.c0.b3)),
      SubColumn(Column(s.c2.b0, s.c3.b1, s.c0.b2, s.c1.b3)), SubColumn(Column(s.c3.b0, s.c0.b1, s.c1.b2, s.c2.b3)))
  {
    hide SBox;
  }

  // ---------- the key schedule in words ----------

  // RotWord and SubWord of the first word of a group, and SubWord alone, through the S-box table.
  function KeyCore(fsb: seq<bv8>, w: bv32): bv32
    requires |fsb| == 256
  {
    PackBytes(Get(fsb, Unpack(w).b1), Get(fsb, Unpack(w).b2), Get(fsb, Unpack(w).b3), Get(fsb, Unpack(w).b0))
  }

  function KeySub(fsb: seq<bv8>, w: bv32): bv32
    requires |fsb| == 256
  {
    PackBytes(Get(fsb, Unpack(w).b0), Get(fsb, Unpack(w).b1), Get(fsb, Unpack(w).b2), Get(fsb, Unpack(w).b3))
  }

  function RconWord(c: bv8): bv32 {
    PackBytes(c, 0, 0, 0)
  }

  ghost predicate KeyLength(nk: nat) {
    nk == 4 || nk == 6 || nk == 8
  }

  ghost function PackedKeyWord(key: seq<Column>, n: nat): bv32
    requires KeyLength(|key|)
  {
    Pack(KeyWord(key, n))
  }

  // The first n words of the buffer are the first n words of the expanded key.
  ghost predicate KeyPrefix(rk: seq<bv32>, key: seq<Column>, n: nat)
    requires KeyLength(|key|)
  {
    n <= |rk| && forall i: nat :: i < n ==> rk[i] == PackedKeyWord(key, i)
  }

  lemma FirstOfGroup(t: Tables, key: seq<Column>, n: nat)
    requires t.Ready() && KeyLength(|key|) && n >= |key| && n % |key| == 0 && n / |key| <= 10
    ensures t.Sized() && n / |key| >= 1
    ensures PackedKeyWord(key, n)
         == Xor(Xor(PackedKeyWord(key, n - |key|), RconWord(t.rcon[n / |key| - 1])), KeyCore(t.fsb, PackedKeyWord(key, n - 1)))
  {
    hide Pack, Unpack, Get, SBox, InvSBox, Xor, AddColumn, Rcon, ForwardFamily, ReverseFamily;
    t.Sizes();
    var k, p := KeyWord(key, n - |key|), KeyWord(key, n - 1);
    var c := Column(Rcon(n / |key|), 0, 0, 0);
    UnpackPack(p);
    PackAdd(k, c);
    PackAdd(AddColumn(k, c), SubColumn(RotWord(p)));
    AddColumnSwap(k, c, SubColumn(RotWord(p)));
  }

  lemma AddColumnSwap(k: Column, c: Column, d: Column)
    ensures AddColumn(AddColumn(k, c), d) == AddColumn(k, AddColumn(d, c))
  {
    hide Add;
    AddAlgebra();
  }

  lemma MiddleOfLongGroup(t: Tables, key: seq<Column>, n: nat)
    requires t.Ready() && |key| == 8 && n >= 8 && n % 8 == 4
    ensures t.Sized()
    ensures PackedKeyWord(key, n) == Xor(PackedKeyWord(key, n - 8), KeySub(t.fsb, PackedKeyWord(key, n - 1)))
  {
    hide Pack, Unpack, Get, SBox, InvSBox, Xor, AddColumn, ForwardFamily, ReverseFamily, RconTable;
    t.Sizes();
    var k, p := KeyWord(key, n - 8), KeyWord(key, n - 1);
    UnpackPack(p);
    PackAdd(k, SubColumn(p));
  }

  lemma InsideGroup(key: seq<Column>, n: nat)
    requires KeyLength(|key|) && n >= |key| && n % |key| != 0 && (|key| == 8 ==> n % 8 != 4)
    ensures PackedKeyWord(key, n) == Xor(PackedKeyWord(key, n - |key|), PackedKeyWord(key, n - 1))
  {
    hide Pack, Xor, AddColumn;
    PackAdd(KeyWord(key, n - |key|), KeyWord(key, n - 1));
  }

  lemma PrefixStep(rk: seq<bv32>, key: seq<Column>, n: nat, w: bv32)
    requires KeyLength(|key|) && KeyPrefix(rk, key, n) && n < |rk| && w == PackedKeyWord(key, n)
    ensures KeyPrefix(rk[n := w], key, n + 1)
  {
    hide PackedKeyWord;
  }

  lemma PrefixIsExpansion(rk: seq<bv32>, key: seq<Column>, n: nat)
    requires KeyLength(|key|) && KeyPrefix(rk, key, n) && n >= 4 * (NumRounds(|key|) + 1)
    ensures HasKeys(rk, KeyExpansion(key))
  {
    hide Pack, KeyWord;
    var w := KeyExpansion(key);
    forall i: nat | i < |w|
      ensures rk[i] == Pack(w[i])
    {
      assert rk[i] == PackedKeyWord(key, i);
    }
  }

  // ---------- the decryption schedule in words ----------

  // One inner word of the decryption schedule.
  function InvMixWord(t: Tables, w: bv32): bv32
    requires t.Sized()
  {
    Xor(Xor(Xor(Get(t.rt0, Get(t.fsb, Unpack(w).b0)), Get(t.rt1, Get(t.fsb, Unpack(w).b1))),
            Get(t.rt2, Get(t.fsb, Unpack(w).b2))), Get(t.rt3, Get(t.fsb, Unpack(w).b3)))
  }

  lemma InvMixWordCorrect(t: Tables, c: Column)
    requires t.Ready()
    ensures t.Sized() && InvMixWord(t, Pack(c)) == Pack(InvMixColumn(c))
  {
    hide Pack, Unpack, Get, Xor, InvMixColumn, SBoxTables, ForwardFamily, ReverseFamily, RconTable;
    t.Sizes();
    UnpackPack(c);
    InvMixByTables(t.fsb, t.rsb, t.rt0, t.rt1, t.rt2, t.rt3, c);
  }

  ghost function PackedInvKey(w: seq<Column>, nr: nat, i: nat): bv32
    requires |w| == 4 * (nr + 1) && i < |w|
  {
    Pack(InvKeyColumn(w, nr, i))
  }

  ghost predicate InvKeyPrefix(rk: seq<bv32>, w: seq<Column>, nr: nat, n: nat)
    requires |w| == 4 * (nr + 1)
  {
    n <= |rk| && n <= |w| && forall i: nat :: i < n ==> rk[i] == PackedInvKey(w, nr, i)
  }

  lemma InvPrefixStep(rk: seq<bv32>, w: seq<Column>, nr: nat, n: nat, v: bv32)
    requires |w| == 4 * (nr + 1) && InvKeyPrefix(rk, w, nr, n) && n < |rk| && n < |w| && v == PackedInvKey(w, nr, n)
    ensures InvKeyPrefix(rk[n := v], w, nr, n + 1)
  {
    hide PackedInvKey;
  }

  lemma InvPrefixIsInvKeys(rk: seq<bv32>, w: seq<Column>, nr: nat)
    requires |w| == 4 * (nr + 1) && InvKeyPrefix(rk, w, nr, |w|)
    ensures HasKeys(rk, InvKeys(w, nr))
  {
    hide Pack, InvKeyColumn;
    var dw := InvKeys(w, nr);
    forall i: nat | i < |dw|
      ensures rk[i] == Pack(dw[i])
    {
      assert rk[i] == PackedInvKey(w, nr, i);
    }
  }

  lemma OuterInvWord(sk: seq<bv32>, w: seq<Column>, nr: nat, r: nat, j: nat)
    requires nr > 0 && |w| == 4 * (nr + 1) && HasKeys(sk, w) && j < 4 && (r == 0 || r == nr)
    ensures 4 * (nr - r) + j < |sk| && sk[4 * (nr - r) + j] == PackedInvKey(w, nr, 4 * r + j)
  {
    hide Pack;
  }

  lemma InnerInvWord(t: Tables, sk: seq<bv32>, w: seq<Column>, nr: nat, r: nat, j: nat)
    requires t.Ready() && |w| == 4 * (nr + 1) && HasKeys(sk, w) && j < 4 && 0 < r < nr
    ensures t.Sized() && 4 * (nr - r) + j < |sk|
    ensures InvMixWord(t, sk[4 * (nr - r) + j]) == PackedInvKey(w, nr, 4 * r + j)
  {
    hide Pack, InvMixWord, InvMixColumn;
    InvMixWordCorrect(t, w[4 * (nr - r) + j]);
  }

  class Context {
    const tables: Tables
    var nr: nat
    const buf: array<bv32>

    ghost predicate Valid() {
      tables.Ready() && buf.Length == 68
    }

    constructor (t: Tables)
      requires t.Ready()
      ensures Valid() && tables == t && nr == 0 && fresh(buf)
    {
      tables := t;
      nr := 0;
      buf := new bv32[68];
    }

    // infra_aes_internal_aes_encrypt, on 16 bytes at a position of each buffer; the buffers may be the same.
    method EncryptBlock(input: array<bv8>, inAt: nat, output: array<bv8>, outAt: nat, ghost w: seq<Column>)
      requires Valid() && (nr == 10 || nr == 12 || nr == 14) && |w| == 4 * (nr + 1) && HasKeys(buf[..], w)
      requires inAt + 16 <= input.Length && outAt + 16 <= output.Length
      modifies output
      ensures output[..] == Splice(old(output[..]), outAt, BlockOf(Cipher(StateOf(old(input[inAt..inAt + 16])), w, nr)))
    {
      hide Pack, Cipher, EqInvCipher, Splice, HasKeys;
      ghost var s := StateOf(input[inAt..inAt + 16]);
      var x := EncryptRounds(tables, buf[..], nr, input[inAt..inAt + 16], w);
      PutState(x, output, outAt, Cipher(s, w, nr));
    }

    // infra_aes_internal_aes_decrypt
    method DecryptBlock(input: array<bv8>, inAt: nat, output: array<bv8>, outAt: nat, ghost w: seq<Column>)
      requires Valid() && (nr == 10 || nr == 12 || nr == 14) && |w| == 4 * (nr + 1) && HasKeys(buf[..], w)
      requires inAt + 16 <= input.Length && outAt + 16 <= output.Length
      modifies output
      ensures output[..] == Splice(old(output[..]), outAt, BlockOf(EqInvCipher(StateOf(old(input[inAt..inAt + 16])), w, nr)))
    {
      hide Pack, Cipher, EqInvCipher, Splice, HasKeys;
      ghost var s := StateOf(input[inAt..inAt + 16]);
      var x := DecryptRounds(tables, buf[..], nr, input[inAt..inAt + 16], w);
      PutState(x, output, outAt, EqInvCipher(s, w, nr));
    }

    method StoreFirst(n: nat, nk: nat, ghost key: seq<Column>)
      requires Valid() && KeyLength(nk) && |key| == nk && nk <= n < 68 && n % nk == 0 && n / nk <= 10
      requires KeyPrefix(buf[..], key, n)
      modifies buf
      ensures KeyPrefix(buf[..], key, n + 1)
    {
      hide Xor, KeyCore, RconWord, Tables.Ready, PackedKeyWord, KeyWord;
      FirstOfGroup(tables, key, n);
      var w := Xor(Xor(buf[n - nk], RconWord(tables.rcon[n / nk - 1])), KeyCore(tables.fsb, buf[n - 1]));
      PrefixStep(buf[..], key, n, w);
      ghost var before := buf[..];
      buf[n] := w;
      assert buf[..] == before[n := w];
    }

    method StoreMiddle(n: nat, ghost key: seq<Column>)
      requires Valid() && |key| == 8 && 8 <= n < 68 && n % 8 == 4
      requires KeyPrefix(buf[..], key, n)
      modifies buf
      ensures KeyPrefix(buf[..], key, n + 1)
    {
      hide Xor, KeySub, Tables.Ready, PackedKeyWord, KeyWord;
      MiddleOfLongGroup(tables, key, n);
      var w := Xor(buf[n - 8], KeySub(tables.fsb, buf[n - 1]));
      PrefixStep(buf[..], key, n, w);
      ghost var before := buf[..];
      buf[n] := w;
      assert buf[..] == before[n := w];
    }

    method StoreInside(n: nat, nk: nat, ghost key: seq<Column>)
      requires Valid() && KeyLength(nk) && |key| == nk && nk <= n < 68 && n % nk != 0 && (nk == 8 ==> n % 8 != 4)
      requires KeyPrefix(buf[..], key, n)
      modifies buf
      ensures KeyPrefix(buf[..], key, n + 1)
    {
      hide Xor, Tables.Ready, PackedKeyWord, KeyWord;
      InsideGroup(key, n);
      var w := Xor(buf[n - nk], buf[n - 1]);
      PrefixStep(buf[..], key, n, w);
      ghost var before := buf[..];
      buf[n] := w;
      assert buf[..] == before[n := w];
    }

    method LoadKey(key: seq<bv8>)
      requires Valid() && |key| % 4 == 0 && KeyLength(|key| / 4)
      modifies buf
      ensures KeyPrefix(buf[..], KeyColumns(key), |key| / 4)
    {
      hide Pack, Tables.Ready;
      ghost var k := KeyColumns(key);
      for i := 0 to |key| / 4
        invariant KeyPrefix(buf[..], k, i)
      {
        buf[i] := GetLE(key, 4 * i);
      }
    }

    // The loops of infra_aes_setkey_enc; those for 192 and 256 bits run past the last word that is used.
    method Expand4(ghost k: seq<Column>)
      requires Valid() && |k| == 4 && KeyPrefix(buf[..], k, 4)
      modifies buf
      ensures HasKeys(buf[..], KeyExpansion(k))
    {
      hide KeyPrefix, HasKeys, KeyExpansion, Tables.Ready;
      for i := 0 to 10
        invariant KeyPrefix(buf[..], k, 4 * i + 4)
      {
        StoreFirst(4 * i + 4, 4, k);
        StoreInside(4 * i + 5, 4, k);
        StoreInside(4 * i + 6, 4, k);
        StoreInside(4 * i + 7, 4, k);
      }
      PrefixIsExpansion(buf[..], k, 44);
    }

    method Expand6(ghost k: seq<Column>)
      requires Valid() && |k| == 6 && KeyPrefix(buf[..], k, 6)
      modifies buf
      ensures HasKeys(buf[..], KeyExpansion(k))
    {
      hide KeyPrefix, HasKeys, KeyExpansion, Tables.Ready;
      for i := 0 to 8
        invariant KeyPrefix(buf[..], k, 6 * i + 6)
      {
        StoreFirst(6 * i + 6, 6, k);
        StoreInside(6 * i + 7, 6, k);
        StoreInside(6 * i + 8, 6, k);
        StoreInside(6 * i + 9, 6, k);
        StoreInside(6 * i + 10, 6, k);
        StoreInside(6 * i + 11, 6, k);
      }
      PrefixIsExpansion(buf[..], k, 54);
    }

    method Expand8(ghost k: seq<Column>)
      requires Valid() && |k| == 8 && KeyPrefix(buf[..], k, 8)
      modifies buf
      ensures HasKeys(buf[..], KeyExpansion(k))
    {
      hide KeyPrefix, HasKeys, KeyExpansion, Tables.Ready;
      for i := 0 to 7
        invariant KeyPrefix(buf[..], k, 8 * i + 8)
      {
        StoreFirst(8 * i + 8, 8, k);
        StoreInside(8 * i + 9, 8, k);
        StoreInside(8 * i + 10, 8, k);
        StoreInside(8 * i + 11, 8, k);
        StoreMiddle(8 * i + 12, k);
        StoreInside(8 * i + 13, 8, k);
        StoreInside(8 * i + 14, 8, k);
        StoreInside(8 * i + 15, 8, k);
      }
      PrefixIsExpansion(buf[..], k, 64);
    }

    // infra_aes_setkey_enc
    method SetKeyEnc(key: seq<bv8>, keybits: nat) returns (ret: int)
      requires Valid()
      requires KeyBits(keybits) ==> |key| == keybits / 8
      modifies this`nr, buf
      ensures ret == if KeyBits(keybits) then 0 else INVALID_KEY_LENGTH
      ensures KeyBits(keybits) ==> nr == NumRounds(keybits / 32) && HasKeys(buf[..], KeyExpansion(KeyColumns(key)))
      ensures !KeyBits(keybits) ==> nr == old(nr) && buf[..] == old(buf[..])
    {
      hide KeyPrefix, HasKeys, KeyExpansion, Tables.Ready;
      match keybits {
        case 128 => nr := 10;
        case 192 => nr := 12;
        case 256 => nr := 14;
        case _ => return INVALID_KEY_LENGTH;
      }
      ghost var k := KeyColumns(key);
      LoadKey(key);
      match nr {
        case 10 => Expand4(k);
        case 12 => Expand6(k);
        case _ => Expand8(k);
      }
      return 0;
    }

    // infra_aes_setkey_dec
    method SetKeyDec(key: seq<bv8>, keybits: nat) returns (ret: int)
      requires Valid()
      requires KeyBits(keybits) ==> |key| == keybits / 8
      modifies this`nr, buf
      ensures ret == if KeyBits(keybits) then 0 else INVALID_KEY_LENGTH
      ensures KeyBits(keybits) ==> nr == NumRounds(keybits / 32) && HasKeys(buf[..], InvKeys(KeyExpansion(KeyColumns(key)), nr))
      ensures !KeyBits(keybits) ==> nr == old(nr) && buf[..] == old(buf[..])
    {
      hide KeyPrefix, HasKeys, Tables.Ready, InvKeys, InvKeyPrefix, KeyWord;
      var cty := new Context(tables);
      ret := cty.SetKeyEnc(key, keybits);
      if ret != 0 {
        return;
      }
      nr := cty.nr;
      ghost var w := KeyExpansion(KeyColumns(key));
      hide KeyExpansion;
      Reverse(cty.buf[..], w);
    }

    // The schedule of SetKeyEnc backwards, the inner words through InvMixColumns.
    method Reverse(sk: seq<bv32>, ghost w: seq<Column>)
      requires Valid() && 0 < nr <= 14 && |w| == 4 * (nr + 1) && HasKeys(sk, w)
      modifies buf
      ensures HasKeys(buf[..], InvKeys(w, nr))
    {
      hide HasKeys, Tables.Ready, InvKeys, InvKeyPrefix, InvMixWord, PackedInvKey;
      assert InvKeyPrefix(buf[..], w, nr, 0) by { EmptyInvPrefix(buf[..], w, nr); }
      var r := 0;
      CopyGroup(sk, r, w);
      r := r + 1;
      while r < nr
        invariant 0 < r <= nr && InvKeyPrefix(buf[..], w, nr, 4 * r)
      {
        for j := 0 to 4
          invariant InvKeyPrefix(buf[..], w, nr, 4 * r + j)
        {
          InnerInvWord(tables, sk, w, nr, r, j);
          var v := InvMixWord(tables, sk[4 * (nr - r) + j]);
          InvPrefixStep(buf[..], w, nr, 4 * r + j, v);
          ghost var before := buf[..];
          buf[4 * r + j] := v;
          assert buf[..] == before[4 * r + j := v];
        }
        r := r + 1;
      }
      CopyGroup(sk, r, w);
      InvPrefixIsInvKeys(buf[..], w, nr);
    }

    method CopyGroup(sk: seq<bv32>, r: nat, ghost w: seq<Column>)
      requires Valid() && 0 < nr <= 14 && |w| == 4 * (nr + 1) && HasKeys(sk, w) && (r == 0 || r == nr)
      requires InvKeyPrefix(buf[..], w, nr, 4 * r)
      modifies buf
      ensures InvKeyPrefix(buf[..], w, nr, 4 * r + 4)
    {
      hide HasKeys, Tables.Ready, InvKeyPrefix, PackedInvKey;
      for j := 0 to 4
        invariant InvKeyPrefix(buf[..], w, nr, 4 * r + j)
      {
        OuterInvWord(sk, w, nr, r, j);
        var v := sk[4 * (nr - r) + j];
        InvPrefixStep(buf[..], w, nr, 4 * r + j, v);
        ghost var before := buf[..];
        buf[4 * r + j] := v;
        assert buf[..] == before[4 * r + j := v];
      }
    }
  }

  const INVALID_KEY_LENGTH: int := -0x0020

  predicate KeyBits(keybits: nat) {
    keybits == 128 || keybits == 192 || keybits == 256
  }

  lemma EmptyInvPrefix(rk: seq<bv32>, w: seq<Column>, nr: nat)
    requires |w| == 4 * (nr + 1)
    ensures InvKeyPrefix(rk, w, nr, 0)
  {}

  // ---------- the block cipher as a function on blocks ----------

  ghost function Schedule(key: seq<bv8>): (w: seq<Column>)
    requires KeyBits(8 * |key|)
    ensures |w| == 4 * (NumRounds(|key| / 4) + 1)
  {
    KeyExpansion(KeyColumns(key))
  }

  ghost function Encrypted(key: seq<bv8>, b: Block): Block
    requires KeyBits(8 * |key|)
  {
    BlockOf(Cipher(StateOf(b), Schedule(key), NumRounds(|key| / 4)))
  }

  ghost function Decrypted(key: seq<bv8>, b: Block): Block
    requires KeyBits(8 * |key|)
  {
    BlockOf(EqInvCipher(StateOf(b), InvKeys(Schedule(key), NumRounds(|key| / 4)), NumRounds(|key| / 4)))
  }

  // Decrypting with the schedule of SetKeyDec undoes encrypting with the schedule of SetKeyEnc.
  lemma DecryptEncrypt(key: seq<bv8>, b: Block)
    requires KeyBits(8 * |key|)
    ensures Decrypted(key, Encrypted(key, b)) == b
  {
    hide Schedule, BlockOf, StateOf, Cipher, EqInvCipher, InvKeys;
    var s, w, nr := StateOf(b), Schedule(key), NumRounds(|key| / 4);
    BlockRoundTrip(b, Cipher(s, w, nr));
    DecryptionUndoesEncryption(s, w, nr);
  }
}
