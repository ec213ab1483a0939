/** The field GF(2^8) with polynomial x^8 + x^4 + x^3 + x^2 + 1 (erasure::gf256):
    multiplication through exponent and logarithm tables is multiplication of
    polynomials, and the bytes form a field. */
module Gf256 {
  import opened Fields
  import opened ReedSolomon
  import opened Validators

  type Byte = bv8

  function Add(a: Byte, b: Byte): Byte { a ^ b }

  function MulByGenerator(x: Byte): Byte {
    if x & 0x80 != 0 then (x << 1) ^ 0x1D else x << 1
  }

  // What remains of a polynomial of degree at most 8 modulo x^8 + x^4 + x^3 + x^2 + 1.
  function Remainder(x: bv16): bv16 {
    if x & 0x100 != 0 then x ^ 0x11D else x
  }

  /** Multiplication by the generator is multiplication by x modulo the field polynomial. */
  lemma GeneratorReduces(x: Byte)
    ensures MulByGenerator(x) as bv16 == Remainder((x as bv16) << 1)
  {
  }

  // `a` times the i-th power of the generator.
  function Shifted(a: Byte, i: nat): Byte {
    if i == 0 then a else MulByGenerator(Shifted(a, i - 1))
  }

  function Exp(i: nat): Byte { Shifted(1, i) }

  // ---------------------------------------------------------------------
  // Multiplication by the generator is linear and one-to-one
  // ---------------------------------------------------------------------

  lemma Branchless(x: Byte)
    ensures MulByGenerator(x) == (x << 1) ^ (0x1D & (0 - (x >> 7)))
  {
  }

  lemma GeneratorLinear(a: Byte, b: Byte)
    ensures MulByGenerator(Add(a, b)) == Add(MulByGenerator(a), MulByGenerator(b))
  {
    Branchless(a);
    Branchless(b);
    Branchless(a ^ b);
  }

  lemma GeneratorInjective(a: Byte, b: Byte)
    requires MulByGenerator(a) == MulByGenerator(b)
    ensures a == b
  {
    Branchless(a);
    Branchless(b);
  }

  lemma {:induction false} ShiftedLinear(a: Byte, b: Byte, i: nat)
    ensures Shifted(Add(a, b), i) == Add(Shifted(a, i), Shifted(b, i))
  {
    hide MulByGenerator, Add;
    if i > 0 {
      ShiftedLinear(a, b, i - 1);
      GeneratorLinear(Shifted(a, i - 1), Shifted(b, i - 1));
    }
  }

  lemma {:induction false} ShiftedInjective(a: Byte, b: Byte, i: nat)
    requires Shifted(a, i) == Shifted(b, i)
    ensures a == b
  {
    hide MulByGenerator;
    if i > 0 {
      GeneratorInjective(Shifted(a, i - 1), Shifted(b, i - 1));
      ShiftedInjective(a, b, i - 1);
    }
  }

  lemma {:induction false} ShiftedSum(a: Byte, i: nat, j: nat)
    ensures Shifted(Shifted(a, i), j) == Shifted(a, i + j)
  {
    hide MulByGenerator;
    if j > 0 { ShiftedSum(a, i, j - 1); }
  }

  lemma {:induction false} ShiftedZero(i: nat)
    ensures Shifted(0, i) == 0
  {
    hide MulByGenerator;
    if i > 0 {
      ShiftedZero(i - 1);
      Branchless(0);
    }
  }

  lemma ExpNonzero(i: nat)
    ensures Exp(i) != 0
  {
    hide MulByGenerator;
    if Exp(i) == 0 {
      ShiftedZero(i);
      ShiftedInjective(1, 0, i);
    }
  }

  lemma ExpSum(i: nat, j: nat)
    ensures Shifted(Exp(i), j) == Exp(i + j)
  {
    ShiftedSum(1, i, j);
  }

  // ---------------------------------------------------------------------
  // The generator has order 255
  // ---------------------------------------------------------------------

  lemma ExpStep(i: nat, j: nat, from: Byte, to: Byte)
    requires Exp(i) == from && Shifted(from, j) == to
    ensures Exp(i + j) == to
  {
    ExpSum(i, j);
  }

  lemma ExpTo85()
    ensures Exp(15) == 38 && Exp(51) == 10 && Exp(85) == 214
  {
    assert Exp(0) == 1;
    hide Exp;
    assert Shifted(1, 7) == 128;
    ExpStep(0, 7, 1, 128);
    assert Shifted(128, 7) == 19;
    ExpStep(7, 7, 128, 19);
    assert Shifted(19, 1) == 38;
    ExpStep(14, 1, 19, 38);
    assert Shifted(38, 6) == 117;
    ExpStep(15, 6, 38, 117);
    assert Shifted(117, 7) == 24;
    ExpStep(21, 7, 117, 24);
    assert Shifted(24, 7) == 156;
    ExpStep(28, 7, 24, 156);
    assert Shifted(156, 7) == 181;
    ExpStep(35, 7, 156, 181);
    assert Shifted(181, 7) == 140;
    ExpStep(42, 7, 181, 140);
    assert Shifted(140, 2) == 10;
    ExpStep(49, 2, 140, 10);
    assert Shifted(10, 5) == 93;
    ExpStep(51, 5, 10, 93);
    assert Shifted(93, 7) == 161;
    ExpStep(56, 7, 93, 161);
    assert Shifted(161, 7) == 94;
    ExpStep(63, 7, 161, 94);
    assert Shifted(94, 7) == 60;
    ExpStep(70, 7, 94, 60);
    assert Shifted(60, 7) == 107;
    ExpStep(77, 7, 60, 107);
    assert Shifted(107, 1) == 214;
    ExpStep(84, 1, 107, 214);
  }

  lemma ExpTo171()
    ensures Exp(171) == 179
  {
    ExpTo85();
    hide Exp;
    assert Shifted(214, 7) == 91;
    ExpStep(85, 7, 214, 91);
    assert Shifted(91, 7) == 134;
    ExpStep(92, 7, 91, 134);
    assert Shifted(134, 7) == 52;
    ExpStep(99, 7, 134, 52);
    assert Shifted(52, 7) == 31;
    ExpStep(106, 7, 52, 31);
    assert Shifted(31, 7) == 59;
    ExpStep(113, 7, 31, 59);
    assert Shifted(59, 7) == 204;
    ExpStep(120, 7, 59, 204);
    assert Shifted(204, 7) == 218;
    ExpStep(127, 7, 204, 218);
    assert Shifted(218, 7) == 21;
    ExpStep(134, 7, 218, 21);
    assert Shifted(21, 7) == 82;
    ExpStep(141, 7, 21, 82);
    assert Shifted(82, 7) == 114;
    ExpStep(148, 7, 82, 114);
    assert Shifted(114, 7) == 191;
    ExpStep(155, 7, 114, 191);
    assert Shifted(191, 7) == 229;
    ExpStep(162, 7, 191, 229);
    assert Shifted(229, 2) == 179;
    ExpStep(169, 2, 229, 179);
  }

  lemma ExpTo255()
    ensures Exp(255) == 1
  {
    ExpTo171();
    hide Exp;
    assert Shifted(179, 7) == 171;
    ExpStep(171, 7, 179, 171);
    assert Shifted(171, 7) == 55;
    ExpStep(178, 7, 171, 55);
    assert Shifted(55, 7) == 130;
    ExpStep(185, 7, 55, 130);
    assert Shifted(130, 7) == 14;
    ExpStep(192, 7, 130, 14);
    assert Shifted(14, 7) == 83;
    ExpStep(199, 7, 14, 83);
    assert Shifted(83, 7) == 242;
    ExpStep(206, 7, 83, 242);
    assert Shifted(242, 7) == 172;
    ExpStep(213, 7, 242, 172);
    assert Shifted(172, 7) == 144;
    ExpStep(220, 7, 172, 144);
    assert Shifted(144, 7) == 251;
    ExpStep(227, 7, 144, 251);
    assert Shifted(251, 7) == 88;
    ExpStep(234, 7, 251, 88);
    assert Shifted(88, 7) == 27;
    ExpStep(241, 7, 88, 27);
    assert Shifted(27, 7) == 1;
    ExpStep(248, 7, 27, 1);
  }

  lemma ExpPeriod(i: nat)
    ensures Exp(i + 255) == Exp(i)
  {
    ExpTo255();
    ExpSum(255, i);
  }

  lemma {:induction false} ExpMod(i: nat)
    ensures Exp(i % 255) == Exp(i)
  {
    hide Exp;
    if i >= 255 {
      ExpPeriod(i - 255);
      ExpMod(i - 255);
      assert (i - 255) % 255 == i % 255;
    }
  }

  // If two powers are equal, their difference gives one.
  lemma ExpDifference(i: nat, j: nat)
    requires i <= j && Exp(i) == Exp(j)
    ensures Exp(j - i) == 1
  {
    ExpSum(j - i, i);
    ShiftedInjective(Exp(j - i), 1, i);
  }

  lemma {:induction false} ExpMultiple(d: nat, q: nat)
    requires Exp(d) == 1
    ensures Exp(q * d) == 1
  {
    assert Exp(0) == 1;
    hide Exp;
    if q == 0 {
      assert q * d == 0;
    } else {
      ExpMultiple(d, q - 1);
      assert q * d == d + (q - 1) * d;
      ExpStep(d, (q - 1) * d, 1, 1) by { ExpSum(0, (q - 1) * d); }
    }
  }

  lemma LargeProduct(d: nat, q: nat)
    requires d >= 16 && q >= 16
    ensures d * q >= 256
  {
    assert d * q >= 16 * q;
  }

  // 255 = 3 * 5 * 17.
  lemma ProperDivisor(d: nat)
    requires 0 < d < 255 && 255 % d == 0
    ensures 85 % d == 0 || 51 % d == 0 || 15 % d == 0
  {
    var q := 255 / d;
    assert d * q == 255;
    if d > 15 {
      assert q < 16 by {
        if q >= 16 { LargeProduct(d, q); }
      }
      assert q == 2 || q == 3 || q == 4 || q == 5 || q == 6 || q == 7 || q == 8 || q == 9 || q == 10
        || q == 11 || q == 12 || q == 13 || q == 14 || q == 15;
    }
  }

  lemma PeriodRemainder(d: nat)
    requires d > 0 && Exp(d) == 1
    ensures Exp(255 % d) == 1
  {
    hide Exp;
    var q := 255 / d;
    assert 255 % d == 255 - q * d;
    ExpTo255();
    ExpMultiple(d, q);
    ExpDifference(q * d, 255);
  }

  lemma PeriodMultiple(d: nat, m: nat)
    requires d > 0 && Exp(d) == 1 && m % d == 0
    ensures Exp(m) == 1
  {
    hide Exp;
    ExpMultiple(d, m / d);
    assert m == (m / d) * d;
  }

  lemma {:induction false} NoShortPeriod(d: nat)
    requires 0 < d < 255
    ensures Exp(d) != 1
  {
    hide Exp;
    if Exp(d) == 1 {
      PeriodRemainder(d);
      if 255 % d > 0 {
        NoShortPeriod(255 % d);
      } else {
        ExpTo85();
        ProperDivisor(d);
        if 85 % d == 0 { PeriodMultiple(d, 85); }
        else if 51 % d == 0 { PeriodMultiple(d, 51); }
        else { PeriodMultiple(d, 15); }
      }
    }
  }

  /** The first 255 powers of the generator are different. */
  lemma ExpInjective(i: nat, j: nat)
    requires i < 255 && j < 255 && Exp(i) == Exp(j)
    ensures i == j
  {
    if i < j {
      ExpDifference(i, j);
      NoShortPeriod(j - i);
    } else if j < i {
      ExpDifference(j, i);
      NoShortPeriod(i - j);
    }
  }

  // ---------------------------------------------------------------------
  // Logarithms
  // ---------------------------------------------------------------------

  lemma ByteRange(a: Byte)
    ensures 0 <= a as nat < 256 && (a as nat == 0 <==> a == 0)
  {
  }

  lemma ByteInjective(a: Byte, b: Byte)
    requires a as nat == b as nat
    ensures a == b
  {
  }

  // The bytes among the first n powers.
  ghost function PowersBelow(n: nat): set<nat> {
    set i | 0 <= i < n :: Exp(i) as nat
  }

  lemma {:induction false} PowersBelowSize(n: nat)
    requires n <= 255
    ensures |PowersBelow(n)| == n
  {
    hide Exp;
    if n > 0 {
      PowersBelowSize(n - 1);
      assert PowersBelow(n) == PowersBelow(n - 1) + {Exp(n - 1) as nat};
      if Exp(n - 1) as nat in PowersBelow(n - 1) {
        var i :| 0 <= i < n - 1 && Exp(i) as nat == Exp(n - 1) as nat;
        ByteInjective(Exp(i), Exp(n - 1));
        ExpInjective(i, n - 1);
      }
    }
  }

  ghost function UpTo(n: nat): set<nat> {
    if n == 0 then {} else UpTo(n - 1) + {n}
  }

  lemma {:induction false} UpToMeans(n: nat, x: nat)
    ensures (x in UpTo(n) <==> 1 <= x <= n) && |UpTo(n)| == n
  {
    if n > 0 {
      UpToMeans(n - 1, x);
      UpToMeans(n - 1, n);
    }
  }

  /** Every nonzero byte is a power of the generator. */
  lemma EveryByteIsPower(a: Byte)
    requires a != 0
    ensures exists i :: 0 <= i < 255 && Exp(i) == a
  {
    hide Exp, UpTo;
    forall x | x in PowersBelow(255) ensures x in UpTo(255) {
      var i :| 0 <= i < 255 && x == Exp(i) as nat;
      ExpNonzero(i);
      ByteRange(Exp(i));
      UpToMeans(255, x);
    }
    PowersBelowSize(255);
    UpToMeans(255, a as nat);
    SubsetSize(PowersBelow(255), UpTo(255));
    ByteRange(a);
    assert a as nat in PowersBelow(255);
    var i :| 0 <= i < 255 && a as nat == Exp(i) as nat;
    ByteInjective(a, Exp(i));
  }

  // The first power from i on that is `a`.
  function FirstPower(a: Byte, i: nat): (j: nat)
    requires i <= 255
    ensures j <= 255
    decreases 255 - i
  {
    if i == 255 || Exp(i) == a then i else FirstPower(a, i + 1)
  }

  lemma {:induction false} FirstPowerFinds(a: Byte, i: nat, j: nat)
    requires i <= j < 255 && Exp(j) == a
    ensures FirstPower(a, i) == j
    decreases j - i
  {
    hide Exp;
    if Exp(i) == a {
      ExpInjective(i, j);
    } else {
      FirstPowerFinds(a, i + 1, j);
    }
  }

  // The exponent of `a`, and 0 for 0.
  function Log(a: Byte): (i: nat)
    ensures i <= 255
  {
    if a == 0 then 0 else FirstPower(a, 0)
  }

  lemma ExpLog(a: Byte)
    requires a != 0
    ensures Log(a) < 255 && Exp(Log(a)) == a
  {
    hide Exp;
    EveryByteIsPower(a);
    var j :| 0 <= j < 255 && Exp(j) == a;
    FirstPowerFinds(a, 0, j);
  }

  lemma LogExp(i: nat)
    requires i < 255
    ensures Log(Exp(i)) == i
  {
    hide Exp;
    ExpNonzero(i);
    FirstPowerFinds(Exp(i), 0, i);
  }

  // ---------------------------------------------------------------------
  // Multiplication and inverse
  // ---------------------------------------------------------------------

  function Mul(a: Byte, b: Byte): Byte {
    if a == 0 || b == 0 then 0 else Exp((Log(a) + Log(b)) % 255)
  }

  function Inv(a: Byte): Byte {
    if a == 0 then 0 else Exp(255 - Log(a))
  }

  // Multiplying by a nonzero byte is shifting by its exponent.
  lemma MulShifts(a: Byte, b: Byte)
    requires a != 0
    ensures Mul(a, b) == Shifted(b, Log(a))
  {
    hide Exp, Log;
    if b == 0 {
      ShiftedZero(Log(a));
    } else {
      ExpLog(b);
      ExpMod(Log(a) + Log(b));
      ExpSum(Log(b), Log(a));
    }
  }

  lemma MulComm(a: Byte, b: Byte)
    ensures Mul(a, b) == Mul(b, a)
  {
  }

  lemma MulDistributes(a: Byte, b: Byte, c: Byte)
    ensures Mul(a, Add(b, c)) == Add(Mul(a, b), Mul(a, c))
  {
    hide Exp, Log;
    if a != 0 {
      MulShifts(a, b);
      MulShifts(a, c);
      MulShifts(a, Add(b, c));
      ShiftedLinear(b, c, Log(a));
    }
  }

  lemma MulNonzero(a: Byte, b: Byte)
    requires a != 0 && b != 0
    ensures Mul(a, b) != 0 && Log(Mul(a, b)) == (Log(a) + Log(b)) % 255
  {
    hide Exp, Log;
    var i := (Log(a) + Log(b)) % 255;
    ExpNonzero(i);
    LogExp(i);
  }

  lemma SumMod(x: nat, y: nat, z: nat)
    ensures ((x + y) % 255 + z) % 255 == (x + y + z) % 255
  {
  }

  lemma MulAssoc(a: Byte, b: Byte, c: Byte)
    ensures Mul(Mul(a, b), c) == Mul(a, Mul(b, c))
  {
    hide Exp, Log;
    if a != 0 && b != 0 && c != 0 {
      MulNonzero(a, b);
      MulNonzero(b, c);
      var x, y, z := Log(a), Log(b), Log(c);
      SumMod(x, y, z);
      SumMod(y, z, x);
    }
  }

  lemma MulOne(a: Byte)
    ensures Mul(a, 1) == a
  {
    assert Exp(0) == 1;
    hide Exp, Log;
    if a != 0 {
      ExpLog(a);
      LogExp(0);
      SmallMod(Log(a));
    }
  }

  lemma SmallMod(x: nat)
    requires x < 255
    ensures (x + 0) % 255 == x && (255 - x) % 255 < 255 && (x + (255 - x) % 255) % 255 == 0
  {
  }

  lemma MulPowers(a: Byte, b: Byte)
    requires a != 0 && b != 0
    ensures Mul(a, b) == Exp((Log(a) + Log(b)) % 255)
  {
  }

  lemma InverseLog(a: Byte)
    requires a != 0
    ensures Inv(a) != 0 && Log(Inv(a)) == (255 - Log(a)) % 255
  {
    hide Exp, Log;
    var i := 255 - Log(a);
    ExpMod(i);
    LogExp(i % 255);
    ExpNonzero(i);
  }

  lemma MulInverse(a: Byte)
    requires a != 0
    ensures Mul(a, Inv(a)) == 1
  {
    assert Exp(0) == 1;
    hide Exp, Log, Mul, Inv;
    ExpLog(a);
    InverseLog(a);
    SmallMod(Log(a));
    MulPowers(a, Inv(a));
  }

  const BYTES: Field<Byte> := Field(0, 1, Add, Mul, Inv)

  lemma XorLaws(a: Byte, b: Byte, c: Byte)
    ensures Add(a, b) == Add(b, a) && Add(Add(a, b), c) == Add(a, Add(b, c))
    ensures Add(a, 0) == a && Add(a, a) == 0
  {
  }

  /** The bytes form a field of characteristic two. */
  lemma BytesAreField()
    ensures IsField(BYTES)
  {
    hide Exp, Log, Mul, Add, Inv;
    forall a, b, c ensures Laws(BYTES, a, b, c) {
      XorLaws(a, b, c);
      MulComm(a, b);
      MulAssoc(a, b, c);
      MulOne(a);
      MulDistributes(a, b, c);
      if a != 0 { MulInverse(a); }
    }
  }

  // ---------------------------------------------------------------------
  // The product is that of polynomials over GF(2)
  // ---------------------------------------------------------------------

  // Shift and add: the low `n` bits of `a` times `b`.
  function PolyMul(a: Byte, b: Byte, n: nat): Byte
    requires n <= 8
  {
    if n == 0 then 0
    else Add(PolyMul(a, b, n - 1), if a & (1 << (n - 1)) != 0 then Shifted(b, n - 1) else 0)
  }

  function LowBits(a: Byte, n: nat): Byte
    requires n <= 8
  {
    if n == 0 then 0 else Add(LowBits(a, n - 1), a & (1 << (n - 1)))
  }

  lemma BitIsPower(n: nat)
    requires n < 8
    ensures Exp(n) == 1 << n
  {
    assert Exp(0) == 1 && Exp(1) == 2 && Exp(2) == 4 && Exp(3) == 8;
    assert Shifted(8, 1) == 16 && Shifted(8, 2) == 32 && Shifted(8, 3) == 64 && Shifted(8, 4) == 128;
    ExpSum(3, 1);
    ExpSum(3, 2);
    ExpSum(3, 3);
    ExpSum(3, 4);
  }

  lemma AllBits(a: Byte)
    ensures LowBits(a, 8) == a
  {
    assert LowBits(a, 1) == a & 1;
    assert LowBits(a, 2) == a & 3;
    assert LowBits(a, 3) == a & 7;
    assert LowBits(a, 4) == a & 15;
    assert LowBits(a, 5) == a & 31;
    assert LowBits(a, 6) == a & 63;
    assert LowBits(a, 7) == a & 127;
  }

  lemma {:induction false} MulLowBits(a: Byte, b: Byte, n: nat)
    requires n <= 8
    ensures Mul(LowBits(a, n), b) == PolyMul(a, b, n)
  {
    hide Exp, Log, Mul, Add;
    if n == 0 {
      MulZeroLeft(b);
    } else {
      var bit := a & (1 << (n - 1));
      MulLowBits(a, b, n - 1);
      MulComm(LowBits(a, n), b);
      MulDistributes(b, LowBits(a, n - 1), bit);
      MulComm(b, LowBits(a, n - 1));
      MulComm(b, bit);
      MulBit(a, b, n - 1);
    }
  }

  lemma MulZeroLeft(b: Byte)
    ensures Mul(0, b) == 0
  {
  }

  lemma BitCases(a: Byte, n: nat)
    requires n < 8
    ensures a & (1 << n) == 0 || a & (1 << n) == 1 << n
  {
  }

  lemma MulBit(a: Byte, b: Byte, n: nat)
    requires n < 8
    ensures Mul(a & (1 << n), b) == if a & (1 << n) != 0 then Shifted(b, n) else 0
  {
    hide Log;
    BitCases(a, n);
    MulZeroLeft(b);
    if a & (1 << n) != 0 {
      BitIsPower(n);
      ExpNonzero(n);
      MulShifts(Exp(n), b);
      LogExp(n);
    }
  }

  /** The table product is the product of polynomials modulo the field polynomial. */
  lemma MulIsPolynomialProduct(a: Byte, b: Byte)
    ensures Mul(a, b) == PolyMul(a, b, 8)
  {
    hide Mul, PolyMul, LowBits;
    MulLowBits(a, b, 8);
    AllBits(a);
  }

  // ---------------------------------------------------------------------
  // Tables
  // ---------------------------------------------------------------------

  datatype Tables = Tables(exp: seq<Byte>, log: seq<nat>)

  ghost predicate GoodTables(t: Tables) {
    && |t.exp| == 512 && |t.log| == 256
    && (forall i :: 0 <= i < 512 ==> t.exp[i] == Exp(i))
    && (forall a: Byte :: 0 <= a as nat < 256 ==> t.log[a as nat] == Log(a))
  }

  method FillTables() returns (exp: array<Byte>, log: array<nat>)
    ensures exp.Length == 512 && log.Length == 256 && fresh(exp) && fresh(log)
    ensures forall i :: 0 <= i < 255 ==> exp[i] == Exp(i)
    ensures log[0] == 0
    ensures forall i :: 0 <= i < 255 ==> 0 <= Exp(i) as nat < 256 && log[Exp(i) as nat] == i
  {
    exp, log := new Byte[512], new nat[256](_ => 0);
    log[0] := 0;
    var x: Byte := 1;
    hide MulByGenerator;
    for i := 0 to 255
      invariant x == Exp(i) && log[0] == 0
      invariant forall j :: 0 <= j < i ==> exp[j] == Exp(j)
      invariant forall j :: 0 <= j < i ==> 0 <= Exp(j) as nat < 256 && log[Exp(j) as nat] == j
    {
      exp[i] := x;
      ExpNonzero(i);
      ByteRange(x);
      forall j | 0 <= j < i ensures Exp(j) as nat != x as nat {
        if Exp(j) as nat == x as nat {
          ByteInjective(Exp(j), x);
          ExpInjective(i, j);
        }
      }
      log[x as nat] := i;
      x := MulByGenerator(x);
    }
  }

  method BuildTables() returns (t: Tables)
    ensures GoodTables(t)
  {
    var exp, log := FillTables();
    hide Exp, Log;
    for i := 255 to 512
      invariant forall j :: 0 <= j < i ==> exp[j] == Exp(j)
      invariant log[0] == 0
      invariant forall j :: 0 <= j < 255 ==> 0 <= Exp(j) as nat < 256 && log[Exp(j) as nat] == j
    {
      ExpPeriod(i - 255);
      exp[i] := exp[i - 255];
    }
    forall a: Byte | 0 <= a as nat < 256 ensures log[a as nat] == Log(a) {
      LogTable(log[..], a);
    }
    t := Tables(exp[..], log[..]);
  }

  lemma LogTable(log: seq<nat>, a: Byte)
    requires |log| == 256 && log[0] == 0
    requires forall j :: 0 <= j < 255 ==> 0 <= Exp(j) as nat < 256 && log[Exp(j) as nat] == j
    ensures 0 <= a as nat < 256 && log[a as nat] == Log(a)
  {
    ByteRange(a);
    if a != 0 {
      ExpLog(a);
      assert log[Exp(Log(a)) as nat] == Log(a);
    }
  }

  lemma LookupIsMul(t: Tables, a: Byte, b: Byte)
    requires GoodTables(t)
    ensures 0 <= a as nat < 256 && 0 <= b as nat < 256
    ensures a != 0 && b != 0 ==> t.exp[(t.log[a as nat] + t.log[b as nat]) % 255] == Mul(a, b)
  {
    hide Exp, Log;
    ByteRange(a);
    ByteRange(b);
  }

  /** Multiplication by table lookup is multiplication of polynomials. */
  function TableMul(t: Tables, a: Byte, b: Byte): (r: Byte)
    requires GoodTables(t)
    ensures r == PolyMul(a, b, 8)
  {
    LookupIsMul(t, a, b);
    MulIsPolynomialProduct(a, b);
    ByteRange(a);
    ByteRange(b);
    if a == 0 || b == 0 then 0 else t.exp[(t.log[a as nat] + t.log[b as nat]) % 255]
  }

  /** The table inverse of a nonzero byte multiplies with it to one. */
  function TableInv(t: Tables, a: Byte): (r: Byte)
    requires GoodTables(t)
    ensures a != 0 ==> PolyMul(a, r, 8) == 1
    ensures a == 0 ==> r == 0
  {
    ByteRange(a);
    if a == 0 then 0
    else
      MulInverse(a);
      MulIsPolynomialProduct(a, Inv(a));
      t.exp[255 - t.log[a as nat]]
  }

  // ---------------------------------------------------------------------
  // The codec of the source
  // ---------------------------------------------------------------------

  // MAX_SHARDS shards, row r evaluated at the byte r.
  const BYTE_CODEC: Codec<Byte> := Codec(BYTES, (r: nat) => ByteAt(r % 256), 256)

  // The byte with the value r.
  function ByteAt(r: nat): Byte {
    if r == 0 then 0 else ByteAt(r - 1) + 1
  }

  lemma NextByte(x: Byte)
    requires x != 255
    ensures (x + 1) as nat == x as nat + 1
  {
  }

  lemma LastByte(x: Byte)
    ensures x as nat == 255 <==> x == 255
  {
  }

  lemma {:induction false} ByteAtIs(r: nat)
    requires r < 256
    ensures ByteAt(r) as nat == r
  {
    if r > 0 {
      ByteAtIs(r - 1);
      LastByte(ByteAt(r - 1));
      NextByte(ByteAt(r - 1));
    }
  }

  /** Everything proved of the codec holds for bytes and up to 256 shards. */
  lemma ByteCodecIsGood()
    ensures GoodCodec(BYTE_CODEC)
  {
    hide BYTES;
    BytesAreField();
    forall r, s | 0 <= r < s < 256 ensures BYTE_CODEC.point(r) != BYTE_CODEC.point(s) {
      ByteAtIs(r);
      ByteAtIs(s);
    }
  }

  /** Any k of n, over bytes. */
  method RoundTripBytes(cfg: Config, payload: seq<Byte>, kept: seq<nat>) returns (r: RsResult<seq<Byte>>)
    requires ValidConfig(BYTE_CODEC, cfg) && |payload| <= PaddedLen(cfg)
    requires (forall i :: 0 <= i < |kept| ==> kept[i] < cfg.n) && |set i | 0 <= i < |kept| :: kept[i]| >= cfg.k
    ensures r == Ok(payload)
  {
    ByteCodecIsGood();
    r := RoundTrip(BYTE_CODEC, cfg, payload, kept);
  }
}
