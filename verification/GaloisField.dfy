// The field GF(2^8) of section 4 of FIPS 197: bytes under exclusive-or and
// multiplication modulo x^8 + x^4 + x^3 + x + 1.  The tables of the AES code
// are built from the powers of the generator 3 (src/infra/infra_aes.c:359-429),
// so this module proves that 3 does generate the field.
module GaloisField {

  function Add(x: bv8, y: bv8): bv8 {
    x ^ y
  }

  function Double(x: bv8): bv8 {
    x << 1
  }

  function Reduction(x: bv8): bv8 {
    if x & 0x80 != 0 then 0x1B else 0
  }

  // Multiplication by x, as XTIME in the source.
  function XTime(x: bv8): bv8 {
    Add(Double(x), Reduction(x))
  }

  function If(b: bool, x: bv8): bv8 {
    if b then x else 0
  }

  // Multiplication: the sum of the multiples x^k * y over the bits k set in the first factor.
  function Mul(x: bv8, y: bv8): bv8 {
    MulBits(x, y, 8)
  }

  function MulBits(x: bv8, y: bv8, n: nat): bv8
    decreases n
  {
    if n == 0 then 0 else Add(If(x & 1 != 0, y), MulBits(x >> 1, XTime(y), n - 1))
  }

  function Times3(x: bv8): bv8 {
    Add(x, XTime(x))
  }

  function Pow3(i: nat): bv8 {
    if i == 0 then 1 else Times3(Pow3(i - 1))
  }

  // ---------- linearity ----------

  lemma AddAssociative(a: bv8, b: bv8, c: bv8)
    ensures Add(Add(a, b), c) == Add(a, Add(b, c))
  {}

  lemma AddCancels(a: bv8, b: bv8)
    ensures Add(a, Add(a, b)) == b && Add(a, b) == Add(b, a) && Add(a, 0) == a && Add(a, a) == 0
  {}

  // Exclusive-or is a commutative group in which every element is its own inverse.
  // Proofs that need no more than this hide the definition of `Add`.
  lemma AddAlgebra()
    ensures forall x, y :: Add(x, y) == Add(y, x)
    ensures forall x, y, z :: Add(Add(x, y), z) == Add(x, Add(y, z))
    ensures forall x, y :: Add(x, Add(x, y)) == y
    ensures forall x :: Add(x, 0) == x && Add(x, x) == 0
  {
    hide Add;
    forall x, y, z
      ensures Add(Add(x, y), z) == Add(x, Add(y, z))
    {
      AddAssociative(x, y, z);
    }
    forall x, y
      ensures Add(x, y) == Add(y, x)
    {
      AddCancels(x, y);
    }
    forall x, y
      ensures Add(x, Add(x, y)) == y
    {
      AddCancels(x, y);
    }
    forall x: bv8
      ensures Add(x, 0) == x && Add(x, x) == 0
    {
      AddCancels(x, 0);
    }
  }

  lemma AddZero()
    ensures forall x :: Add(x, 0) == x && Add(0, x) == x
  {}

  lemma AddMedial(a: bv8, b: bv8, c: bv8, d: bv8)
    ensures Add(Add(a, b), Add(c, d)) == Add(Add(a, c), Add(b, d))
  {
    hide Add;
    AddAlgebra();
  }

  lemma DoubleAdd(x: bv8, y: bv8)
    ensures Double(Add(x, y)) == Add(Double(x), Double(y))
  {}

  lemma ReductionAdd(x: bv8, y: bv8)
    ensures Reduction(Add(x, y)) == Add(Reduction(x), Reduction(y))
  {}

  lemma XTimeAdd(x: bv8, y: bv8)
    ensures XTime(Add(x, y)) == Add(XTime(x), XTime(y))
  {
    hide Add, Double, Reduction;
    DoubleAdd(x, y);
    ReductionAdd(x, y);
    AddMedial(Double(x), Double(y), Reduction(x), Reduction(y));
  }

  lemma XTimeIf(b: bool, y: bv8)
    ensures XTime(If(b, y)) == If(b, XTime(y))
  {}

  lemma IfAdd(b: bool, y: bv8, z: bv8)
    ensures If(b, Add(y, z)) == Add(If(b, y), If(b, z))
  {}

  lemma {:induction false} MulBitsXTime(x: bv8, y: bv8, n: nat)
    ensures MulBits(x, XTime(y), n) == XTime(MulBits(x, y, n))
    decreases n
  {
    if n > 0 {
      hide XTime, If, Add;
      MulBitsXTime(x >> 1, XTime(y), n - 1);
      XTimeIf(x & 1 != 0, y);
      XTimeAdd(If(x & 1 != 0, y), MulBits(x >> 1, XTime(y), n - 1));
    }
  }

  lemma {:induction false} MulBitsAdd(x: bv8, y: bv8, z: bv8, n: nat)
    ensures MulBits(x, Add(y, z), n) == Add(MulBits(x, y, n), MulBits(x, z, n))
    decreases n
  {
    if n > 0 {
      hide XTime, If, Add;
      var b, p, q := x & 1 != 0, MulBits(x >> 1, XTime(y), n - 1), MulBits(x >> 1, XTime(z), n - 1);
      XTimeAdd(y, z);
      IfAdd(b, y, z);
      MulBitsAdd(x >> 1, XTime(y), XTime(z), n - 1);
      AddMedial(If(b, y), If(b, z), p, q);
    }
  }

  lemma MulAdd(x: bv8, y: bv8, z: bv8)
    ensures Mul(x, Add(y, z)) == Add(Mul(x, y), Mul(x, z))
  {
    hide XTime, Add, MulBits;
    MulBitsAdd(x, y, z, 8);
  }

  lemma MulTimes3(x: bv8, y: bv8)
    ensures Mul(x, Times3(y)) == Times3(Mul(x, y))
  {
    hide XTime, Add, MulBits;
    MulBitsXTime(x, y, 8);
    MulAdd(x, y, XTime(y));
  }

  // The recursion of `MulBits` written out.
  lemma MulFlat(x: bv8, y: bv8)
    ensures
      var y1 := XTime(y); var y2 := XTime(y1); var y3 := XTime(y2); var y4 := XTime(y3);
      var y5 := XTime(y4); var y6 := XTime(y5); var y7 := XTime(y6);
      Mul(x, y) == Add(If(x & 1 != 0, y), Add(If(x & 2 != 0, y1), Add(If(x & 4 != 0, y2), Add(If(x & 8 != 0, y3),
                   Add(If(x & 16 != 0, y4), Add(If(x & 32 != 0, y5), Add(If(x & 64 != 0, y6), Add(If(x & 128 != 0, y7), 0))))))))
  {
    hide XTime, If, Add;
    var y1 := XTime(y); var y2 := XTime(y1); var y3 := XTime(y2); var y4 := XTime(y3);
    var y5 := XTime(y4); var y6 := XTime(y5); var y7 := XTime(y6);
    var b1, b2, b3, b4 := x >> 1, x >> 2, x >> 3, x >> 4;
    var b5, b6, b7 := x >> 5, x >> 6, x >> 7;
    assert b1 >> 1 == b2 && b2 >> 1 == b3 && b3 >> 1 == b4 && b4 >> 1 == b5 && b5 >> 1 == b6 && b6 >> 1 == b7;
    assert MulBits(b6, y6, 2) == Add(If(x & 64 != 0, y6), Add(If(x & 128 != 0, y7), 0));
    assert MulBits(b4, y4, 4) == Add(If(x & 16 != 0, y4), Add(If(x & 32 != 0, y5), MulBits(b6, y6, 2)));
    assert MulBits(b2, y2, 6) == Add(If(x & 4 != 0, y2), Add(If(x & 8 != 0, y3), MulBits(b4, y4, 4)));
  }

  lemma MulOne(x: bv8)
    ensures Mul(x, 1) == x
  {
    hide MulBits;
    MulFlat(x, 1);
  }

  lemma MulZero(x: bv8)
    ensures Mul(x, 0) == 0
  {
    hide MulBits;
    MulFlat(x, 0);
  }

  // The multiples used by MixColumns and InvMixColumns, over the doublings of the argument.
  lemma MulSmall(y: bv8)
    ensures Mul(2, y) == XTime(y) && Mul(3, y) == Times3(y)
    ensures Mul(9, y) == Add(y, XTime(XTime(XTime(y))))
  {
    hide MulBits, XTime, Add;
    AddZero();
    MulFlat(2, y);
    MulFlat(3, y);
    MulFlat(9, y);
  }

  lemma Mul11(y: bv8)
    ensures Mul(11, y) == Add(y, Add(XTime(y), XTime(XTime(XTime(y)))))
  {
    hide MulBits, XTime, Add;
    AddZero();
    MulFlat(11, y);
  }

  lemma Mul13(y: bv8)
    ensures Mul(13, y) == Add(y, Add(XTime(XTime(y)), XTime(XTime(XTime(y)))))
  {
    hide MulBits, XTime, Add;
    AddZero();
    MulFlat(13, y);
  }

  lemma Mul14(y: bv8)
    ensures Mul(14, y) == Add(XTime(y), Add(XTime(XTime(y)), XTime(XTime(XTime(y)))))
  {
    hide MulBits, XTime, Add;
    AddZero();
    MulFlat(14, y);
  }

  // ---------- sums of four terms, as in a column product ----------

  function Sum4(a: bv8, b: bv8, c: bv8, d: bv8): bv8 {
    Add(Add(a, b), Add(c, d))
  }

  lemma Sum4Rotate(a: bv8, b: bv8, c: bv8, d: bv8)
    ensures Sum4(a, b, c, d) == Sum4(b, c, d, a)
  {
    hide Add;
    AddAlgebra();
  }

  lemma Sum4Add(a: bv8, b: bv8, c: bv8, d: bv8, e: bv8, f: bv8, g: bv8, h: bv8)
    ensures Sum4(Add(a, e), Add(b, f), Add(c, g), Add(d, h)) == Add(Sum4(a, b, c, d), Sum4(e, f, g, h))
  {
    hide Add;
    AddMedial(a, e, b, f);
    AddMedial(c, g, d, h);
    AddMedial(Add(a, b), Add(e, f), Add(c, d), Add(g, h));
  }

  // Summing a 4x4 matrix by rows or by columns gives the same result.
  lemma Sum4Transpose(a0: bv8, a1: bv8, a2: bv8, a3: bv8, b0: bv8, b1: bv8, b2: bv8, b3: bv8,
                      c0: bv8, c1: bv8, c2: bv8, c3: bv8, d0: bv8, d1: bv8, d2: bv8, d3: bv8)
    ensures Sum4(Sum4(a0, a1, a2, a3), Sum4(b0, b1, b2, b3), Sum4(c0, c1, c2, c3), Sum4(d0, d1, d2, d3))
         == Sum4(Sum4(a0, b0, c0, d0), Sum4(a1, b1, c1, d1), Sum4(a2, b2, c2, d2), Sum4(a3, b3, c3, d3))
  {
    hide Add;
    Sum4Add(a0, a1, a2, a3, b0, b1, b2, b3);
    Sum4Add(c0, c1, c2, c3, d0, d1, d2, d3);
    Sum4Add(Add(a0, b0), Add(a1, b1), Add(a2, b2), Add(a3, b3), Add(c0, d0), Add(c1, d1), Add(c2, d2), Add(c3, d3));
  }

  lemma MulSum4(k: bv8, a: bv8, b: bv8, c: bv8, d: bv8)
    ensures Mul(k, Sum4(a, b, c, d)) == Sum4(Mul(k, a), Mul(k, b), Mul(k, c), Mul(k, d))
  {
    hide Add, Mul;
    MulAdd(k, a, b);
    MulAdd(k, c, d);
    MulAdd(k, Add(a, b), Add(c, d));
  }

  // ---------- the powers of 3 form a cyclic group of order 255 ----------

  lemma {:induction false} MulPow3(i: nat, j: nat)
    ensures Mul(Pow3(i), Pow3(j)) == Pow3(i + j)
    decreases j
  {
    hide MulBits, XTime, Add;
    if j == 0 {
      MulOne(Pow3(i));
    } else {
      MulPow3(i, j - 1);
      MulTimes3(Pow3(i), Pow3(j - 1));
      assert Pow3(i + j) == Times3(Pow3(i + j - 1));
    }
  }

  // One step of the exponent ladder below.
  lemma Pow3Step(i: nat, x: bv8, j: nat, y: bv8)
    requires Pow3(i) == x && Pow3(j) == y
    ensures Pow3(i + j) == Mul(x, y)
  {
    hide MulBits, XTime, Add, Pow3;
    MulPow3(i, j);
  }

  lemma Pow3Values()
    ensures Pow3(1) == 0x03 && Pow3(3) == 0x0F && Pow3(5) == 0x33 && Pow3(15) == 0x35
    ensures Pow3(17) == 0xE1 && Pow3(51) == 0x0C && Pow3(85) == 0xBD && Pow3(255) == 1
  {
    hide Mul, MulBits;
    assert Pow3(1) == 0x03;
    hide Pow3;
    MulFlat(0x03, 0x03); Pow3Step(1, 0x03, 1, 0x03); assert Pow3(2) == 0x05;
    MulFlat(0x03, 0x05); Pow3Step(1, 0x03, 2, 0x05); assert Pow3(3) == 0x0F;
    MulFlat(0x05, 0x05); Pow3Step(2, 0x05, 2, 0x05); assert Pow3(4) == 0x11;
    MulFlat(0x03, 0x11); Pow3Step(1, 0x03, 4, 0x11); assert Pow3(5) == 0x33;
    MulFlat(0x0F, 0x11); Pow3Step(3, 0x0F, 4, 0x11); assert Pow3(7) == 0xFF;
    MulFlat(0x11, 0x11); Pow3Step(4, 0x11, 4, 0x11); assert Pow3(8) == 0x1A;
    MulFlat(0xFF, 0x1A); Pow3Step(7, 0xFF, 8, 0x1A); assert Pow3(15) == 0x35;
    MulFlat(0x1A, 0x1A); Pow3Step(8, 0x1A, 8, 0x1A); assert Pow3(16) == 0x5F;
    MulFlat(0x03, 0x5F); Pow3Step(1, 0x03, 16, 0x5F); assert Pow3(17) == 0xE1;
    MulFlat(0xE1, 0xE1); Pow3Step(17, 0xE1, 17, 0xE1); assert Pow3(34) == 0x5C;
    MulFlat(0xE1, 0x5C); Pow3Step(17, 0xE1, 34, 0x5C); assert Pow3(51) == 0x0C;
    MulFlat(0x5C, 0x0C); Pow3Step(34, 0x5C, 51, 0x0C); assert Pow3(85) == 0xBD;
    MulFlat(0xBD, 0xBD); Pow3Step(85, 0xBD, 85, 0xBD); assert Pow3(170) == 0xBC;
    MulFlat(0xBD, 0xBC); Pow3Step(85, 0xBD, 170, 0xBC); assert Pow3(255) == 0x01;
  }

  lemma {:induction false} Pow3Multiple(k: nat, q: nat)
    requires Pow3(k) == 1
    ensures Pow3(k * q) == 1
    decreases q
  {
    if q > 0 {
      Pow3Multiple(k, q - 1);
      MulPow3(k, k * (q - 1));
      MulOne(1);
      assert k + k * (q - 1) == k * q;
    }
  }

  lemma ProductAtLeast(k: int, q: int)
    requires k > 15 && q > 15
    ensures k * q >= 256
  {}

  lemma DivisorsOf255(k: int)
    requires 0 < k < 255 && 255 % k == 0
    ensures k == 1 || k == 3 || k == 5 || k == 15 || k == 17 || k == 51 || k == 85
  {
    var q := 255 / k;
    assert k * q == 255;
    if k > 15 && q > 15 {
      ProductAtLeast(k, q);
    }
  }

  // 3 has order 255: no smaller power is 1.  A least such power would divide 255.
  lemma {:induction false} Pow3Order(k: nat)
    requires 0 < k < 255
    ensures Pow3(k) != 1
    decreases k
  {
    hide MulBits, XTime, Add, Pow3;
    Pow3Values();
    if Pow3(k) == 1 {
      var q, r := 255 / k, 255 % k;
      assert k * q + r == 255;
      Pow3Multiple(k, q);
      MulPow3(r, k * q);
      MulOne(Pow3(r));
      if r == 0 {
        DivisorsOf255(k);
      } else {
        Pow3Order(r);
      }
    }
  }

  lemma Pow3Period(i: nat)
    ensures Pow3(i + 255) == Pow3(i)
  {
    hide MulBits, XTime, Add, Pow3;
    Pow3Values();
    MulPow3(i, 255);
    MulOne(Pow3(i));
  }

  lemma {:induction false} Pow3Mod(i: nat)
    ensures Pow3(i % 255) == Pow3(i)
    decreases i
  {
    hide Pow3;
    if i >= 255 {
      Pow3Mod(i - 255);
      Pow3Period(i - 255);
    }
  }

  // The powers of 3 that are 1.
  lemma Pow3IsOne(k: nat)
    ensures Pow3(k) == 1 <==> k % 255 == 0
  {
    assert Pow3(0) == 1;
    hide Pow3;
    Pow3Mod(k);
    if k % 255 != 0 {
      Pow3Order(k % 255);
    }
  }

  lemma Pow3Injective(i: nat, j: nat)
    requires i < j < 255
    ensures Pow3(i) != Pow3(j)
  {
    hide MulBits, XTime, Add, Pow3;
    if Pow3(i) == Pow3(j) {
      MulPow3(255 - j, i);
      MulPow3(255 - j, j);
      Pow3Values();
      Pow3Order(255 - j + i);
    }
  }

  lemma Pow3NonZero(i: nat)
    ensures Pow3(i) != 0
  {
    hide MulBits, XTime, Add, Pow3;
    Pow3Mod(i);
    var k := i % 255;
    MulPow3(255 - k, k);
    Pow3Values();
    MulZero(Pow3(255 - k));
  }

  // ---------- every non-zero byte is a power of 3 ----------

  function PowerIndex(i: nat): int {
    Pow3(i) as int
  }

  lemma PowerIndexInjective(i: nat, j: nat)
    requires i < j < 255
    ensures PowerIndex(i) != PowerIndex(j)
  {
    hide Pow3;
    Pow3Injective(i, j);
  }

  lemma PowerIndexRange(i: nat)
    ensures 1 <= PowerIndex(i) < 256
  {
    hide Pow3;
    Pow3NonZero(i);
  }

  ghost function Powers(n: nat): set<int> {
    if n == 0 then {} else Powers(n - 1) + {PowerIndex(n - 1)}
  }

  lemma {:induction false} PowersMember(n: nat, v: int)
    requires v in Powers(n)
    ensures exists i: nat :: i < n && PowerIndex(i) == v
  {
    hide PowerIndex;
    if v != PowerIndex(n - 1) {
      PowersMember(n - 1, v);
    }
  }

  lemma {:induction false} PowersSize(n: nat)
    requires n <= 255
    ensures |Powers(n)| == n
    ensures forall v :: v in Powers(n) ==> 1 <= v < 256
  {
    hide PowerIndex;
    if n > 0 {
      PowersSize(n - 1);
      PowerIndexRange(n - 1);
      if PowerIndex(n - 1) in Powers(n - 1) {
        PowersMember(n - 1, PowerIndex(n - 1));
        var i: nat :| i < n - 1 && PowerIndex(i) == PowerIndex(n - 1);
        PowerIndexInjective(i, n - 1);
      }
    }
  }

  ghost function Interval(lo: int, hi: int): (s: set<int>)
    requires lo <= hi
    ensures forall v :: v in s <==> lo <= v < hi
    ensures |s| == hi - lo
    decreases hi - lo
  {
    if lo == hi then {} else Interval(lo, hi - 1) + {hi - 1}
  }

  lemma SubsetOfEqualSize(a: set<int>, b: set<int>)
    requires a <= b && |a| == |b|
    ensures a == b
  {
    assert |b - a| == |b| - |a|;
  }

  lemma Pow3Surjective(x: bv8)
    requires x != 0
    ensures exists i: nat :: i < 255 && Pow3(i) == x
  {
    hide Pow3, Powers, Interval;
    PowersSize(255);
    SubsetOfEqualSize(Powers(255), Interval(1, 256));
    PowersMember(255, x as int);
  }

  // The discrete logarithm to base 3.
  ghost function Log(x: bv8): (i: nat)
    requires x != 0
    ensures i < 255 && Pow3(i) == x
  {
    Pow3Surjective(x);
    var i: nat :| i < 255 && Pow3(i) == x;
    i
  }

  // The multiplicative inverse, with 0 sent to 0 (section 5.1.1 of FIPS 197).
  ghost function Inverse(x: bv8): (y: bv8)
    ensures if x == 0 then y == 0 else Mul(x, y) == 1
  {
    if x == 0 then 0
    else
      MulPow3(Log(x), 255 - Log(x));
      Pow3Values();
      Pow3(255 - Log(x))
  }

  lemma InverseUnique(x: bv8, y: bv8)
    requires x != 0 && Mul(x, y) == 1
    ensures y == Inverse(x)
  {
    hide MulBits, XTime, Add, Pow3;
    MulZero(x);
    var i, j := Log(x), Log(y);
    MulPow3(i, j);
    Pow3Mod(i + j);
    if (i + j) % 255 != 0 {
      Pow3Order((i + j) % 255);
    } else {
      assert i + j == 0 || i + j == 255;
      if i + j == 0 { Pow3Period(0); }
    }
  }

  lemma InverseInvolutive(x: bv8)
    ensures Inverse(Inverse(x)) == x
  {
    hide MulBits, XTime, Add, Pow3;
    if x != 0 {
      var y := Inverse(x);
      MulZero(x);
      MulPow3(Log(x), Log(y));
      MulPow3(Log(y), Log(x));
      InverseUnique(y, x);
    }
  }
}
