/** The compact form of difficulty targets: an 8-bit exponent in bytes, a sign bit and a
    23-bit mantissa.  Encoding keeps the most significant digits; decoding gives the
    greatest compact number that is not above the original. */
module Compact {
  import opened Arith

  const SIGN: nat := 0x80_0000
  const EXP: nat := 0x100_0000

  // The number of bytes of n.
  function ByteLen(n: nat): nat {
    if n == 0 then 0 else 1 + ByteLen(n / 256)
  }

  function Times(n: nat, p: nat): nat {
    n * p
  }

  function Cut(n: nat, p: nat): nat
    requires p > 0
  {
    n / p
  }

  // The three most significant bytes, by shifting left or right.
  function Shifted(n: nat, exponent: nat): nat {
    if exponent <= 3 then Times(n, Pow256(3 - exponent)) else Cut(n, Pow256(exponent - 3))
  }

  // BigToCompact of a number that is not negative; the exponent is cut to 8 bits.
  function BigToCompact(n: nat): nat {
    if n == 0 then 0
    else
      var exponent := ByteLen(n);
      var mantissa := Shifted(n, exponent);
      if mantissa / SIGN % 2 == 1 then (exponent + 1) % 256 * EXP + mantissa / 256
      else exponent % 256 * EXP + mantissa
  }

  function CompactToBig(c: nat): int {
    var mantissa, negative, exponent := c % SIGN, c / SIGN % 2 == 1, c / EXP;
    var n := if exponent <= 3 then mantissa / Pow256(3 - exponent) else mantissa * Pow256(exponent - 3);
    if negative then -n else n
  }

  /** Powers and byte lengths */

  lemma {:induction false} PowAdd(a: nat, b: nat)
    ensures Pow256(a + b) == Pow256(a) * Pow256(b)
  {
    if a > 0 {
      PowAdd(a - 1, b);
      assert Pow256(a + b) == 256 * Pow256(a - 1 + b);
      Associate(256, Pow256(a - 1), Pow256(b));
    }
  }

  lemma Associate(a: nat, b: nat, c: nat)
    ensures a * (b * c) == a * b * c
  {
  }

  lemma {:induction false} ByteLenBounds(n: nat)
    requires n > 0
    ensures ByteLen(n) >= 1 && Pow256(ByteLen(n) - 1) <= n < Pow256(ByteLen(n))
  {
    hide Pow256;
    if n >= 256 {
      ByteLenBounds(n / 256);
      var k := ByteLen(n / 256);
      PowStep(k - 1);
      PowStep(k);
    } else {
      assert ByteLen(n / 256) == 0;
      PowStep(0);
      PowZero();
    }
  }

  lemma {:induction false} ByteLenUnique(n: nat, k: nat)
    requires k >= 1 && Pow256(k - 1) <= n < Pow256(k)
    ensures ByteLen(n) == k
  {
    if k == 1 {
      assert Pow256(1) == 256 * Pow256(0);
      assert n / 256 == 0;
    } else {
      assert Pow256(k) == 256 * Pow256(k - 1) && Pow256(k - 1) == 256 * Pow256(k - 2);
      ByteLenUnique(n / 256, k - 1);
    }
  }

  lemma {:induction false} ByteLenMonotone(m: nat, n: nat)
    requires m <= n
    ensures ByteLen(m) <= ByteLen(n)
  {
    if m > 0 {
      ByteLenMonotone(m / 256, n / 256);
    }
  }

  /** A closed form: the exponent is the byte length of 2n, the mantissa is n cut to it */

  function Exponent(n: nat): nat {
    ByteLen(2 * n)
  }

  function Mantissa(n: nat): nat {
    Shifted(n, Exponent(n))
  }

  // n in units of 256^(e-3), where e is its byte length or one more.
  lemma ShiftBounds(n: nat, e: nat, lo: nat, hi: nat)
    requires e >= 1 && lo > 0
    requires lo * Pow256(e - 1) <= n * 256 && n * 256 < hi * Pow256(e - 1)
    ensures lo * 256 <= Shifted(n, e) < hi * 256
  {
    if e <= 3 {
      ShiftSmall(n, e, lo, hi);
    } else {
      PowAdd(2, e - 3);
      assert Pow256(2) == 65536 by { assert Pow256(1) == 256; }
      DropByte(n, Pow256(e - 3), lo);
      DropByte(n, Pow256(e - 3), hi);
      hide Pow256;
      DivBounds(n, Pow256(e - 3), lo * 256, hi * 256);
    }
  }

  lemma DropByte(n: nat, p: nat, x: nat)
    ensures x * (65536 * p) <= n * 256 <==> x * 256 * p <= n
  {
    assert x * (65536 * p) == x * 256 * p * 256;
  }

  lemma ShiftSmall(n: nat, e: nat, lo: nat, hi: nat)
    requires 1 <= e <= 3
    requires lo * Pow256(e - 1) <= n * 256 && n * 256 < hi * Pow256(e - 1)
    ensures lo * 256 <= n * Pow256(3 - e) < hi * 256
  {
    assert Pow256(0) == 1 && Pow256(1) == 256 && Pow256(2) == 256 * Pow256(1);
  }

  lemma DivBounds(n: nat, p: nat, lo: nat, hi: nat)
    requires p > 0 && lo * p <= n < hi * p
    ensures lo <= n / p < hi
  {
    if n / p < lo {
      MulMonotone(n / p + 1, lo, p);
    }
    if n / p >= hi {
      MulMonotone(hi, n / p, p);
    }
  }

  lemma PowZero()
    ensures Pow256(0) == 1
  {
  }

  lemma PowStep(k: nat)
    ensures Pow256(k + 1) == 256 * Pow256(k)
  {
  }

  lemma ExponentBounds(n: nat)
    requires n > 0
    ensures Exponent(n) >= 1 && Pow256(Exponent(n) - 1) <= 2 * n < Pow256(Exponent(n))
    ensures ByteLen(n) <= Exponent(n) <= ByteLen(n) + 1
  {
    hide ByteLen, Pow256;
    ByteLenBounds(2 * n);
    ByteLenBounds(n);
    ByteLenMonotone(n, 2 * n);
    PowStep(ByteLen(n));
    if Exponent(n) > ByteLen(n) + 1 {
      PowMonotone(ByteLen(n) + 1, Exponent(n) - 1);
    }
  }

  lemma {:induction false} PowMonotone(a: nat, b: nat)
    requires a <= b
    ensures Pow256(a) <= Pow256(b)
  {
    if a < b {
      PowMonotone(a, b - 1);
    }
  }

  // The mantissa is a normalised 23-bit number.
  lemma MantissaBounds(n: nat)
    requires n > 0
    ensures 0x8000 <= Mantissa(n) < SIGN
  {
    hide Shifted;
    ExponentBounds(n);
    var e := Exponent(n);
    assert Pow256(e) == 256 * Pow256(e - 1);
    ShiftBounds(n, e, 0x80, 0x8000);
  }

  // Shifting by one more byte drops one more digit.
  lemma ShiftOnce(n: nat, e: nat)
    requires e >= 1
    ensures Shifted(n, e) / 256 == Shifted(n, e + 1)
  {
    if e < 3 {
      var p := Pow256(2 - e);
      assert Pow256(3 - e) == 256 * p;
      assert n * (256 * p) == n * p * 256;
      DivModUnique(n * p * 256, 256, n * p, 0);
    } else if e == 3 {
      assert Pow256(0) == 1 && Pow256(1) == 256;
    } else {
      var p := Pow256(e - 3);
      assert Pow256(e - 2) == 256 * p;
      DivDiv(n, p, 256);
    }
  }

  lemma DivDiv(n: nat, p: nat, q: nat)
    requires p > 0 && q > 0
    ensures n / p / q == n / (q * p)
  {
    var a := n / p;
    var r := n % p + a % q * p;
    assert n == a * p + n % p && a == a / q * q + a % q;
    assert n == (a / q * q + a % q) * p + n % p;
    assert (a / q * q + a % q) * p == a / q * (q * p) + a % q * p;
    MulMonotone(a % q, q - 1, p);
    assert (q - 1) * p == q * p - p;
    DivModUnique(n, q * p, a / q, r);
  }

  lemma ClosedForm(n: nat)
    requires n > 0
    ensures BigToCompact(n) == Exponent(n) % 256 * EXP + Mantissa(n)
  {
    hide Shifted, ByteLen, Exponent, Pow256;
    ExponentBounds(n);
    MantissaBounds(n);
    if Exponent(n) > ByteLen(n) {
      ShiftHigh(n, ByteLen(n));
    }
  }

  lemma ShiftHigh(n: nat, k: nat)
    requires n > 0 && k == ByteLen(n) && Exponent(n) == k + 1
    ensures Shifted(n, k) / SIGN % 2 == 1 && Shifted(n, k) / 256 == Mantissa(n)
  {
    hide Shifted;
    ByteLenBounds(n);
    ExponentBounds(n);
    PowStep(k - 1);
    ShiftBounds(n, k, 0x8000, 0x1_0000);
    ShiftOnce(n, k);
  }

  /** Decoding */

  lemma DecodeParts(e: nat, m: nat)
    requires m < SIGN
    ensures CompactToBig(e * EXP + m) == if e <= 3 then m / Pow256(3 - e) else m * Pow256(e - 3)
  {
    hide Pow256;
    var c := e * EXP + m;
    DivModUnique(c, EXP, e, m);
    DivModUnique(c, SIGN, 2 * e, m);
  }

  // The decoded value is n cut down to a whole number of units.
  function Unit(n: nat): nat {
    if Exponent(n) <= 3 then 1 else Pow256(Exponent(n) - 3)
  }

  lemma Decoded(n: nat)
    requires n > 0 && Exponent(n) <= 255
    ensures Unit(n) >= 1 && CompactToBig(BigToCompact(n)) == n / Unit(n) * Unit(n)
  {
    hide CompactToBig, BigToCompact, ByteLen, Exponent;
    ClosedForm(n);
    MantissaBounds(n);
    DecodeParts(Exponent(n), Mantissa(n));
    if Exponent(n) <= 3 {
      DivModUnique(n * Pow256(3 - Exponent(n)), Pow256(3 - Exponent(n)), n, 0);
    }
  }

  // Below the unit there is nothing a mantissa could hold; the quotient is normalised.
  lemma UnitBounds(n: nat)
    requires n > 0
    ensures Unit(n) >= 1 && n / Unit(n) < SIGN && (Unit(n) > 1 ==> n / Unit(n) >= 0x8000)
  {
    hide Exponent;
    MantissaBounds(n);
    if Exponent(n) <= 3 {
      assert n * Pow256(3 - Exponent(n)) >= n by { TimesPow(n, 3 - Exponent(n)); }
    }
  }

  lemma TimesPow(n: nat, k: nat)
    ensures n * Pow256(k) >= n
  {
    MulMonotone(1, Pow256(k), n);
  }

  // Never above the original, and less than one part in 2^15 below it.
  lemma RelativePrecision(n: nat)
    requires n > 0 && Exponent(n) <= 255
    ensures var r := CompactToBig(BigToCompact(n)); 0 < r <= n && (n - r) * 0x8000 < n
  {
    hide CompactToBig, BigToCompact, ByteLen, Unit;
    Decoded(n);
    UnitBounds(n);
    var u, q := Unit(n), n / Unit(n);
    CutPrecision(n, u, q);
  }

  lemma CutPrecision(n: nat, u: nat, q: nat)
    requires n > 0 && u >= 1 && q == n / u && (u > 1 ==> q >= 0x8000)
    ensures 0 < q * u <= n && (n - q * u) * 0x8000 < n
  {
    assert n == q * u + n % u;
    if u > 1 {
      MulMonotone(0x8000, q, u);
      assert n % u <= u - 1;
    } else {
      assert q == n;
    }
  }

  predicate HasShape(v: int, m: nat, k: nat) {
    m < SIGN && (v == m * Pow256(k) || v == -(m * Pow256(k)))
  }

  // Every value a compact number can have is a mantissa times a power.
  lemma CompactShape(c: nat)
    ensures exists m: nat, k: nat :: HasShape(CompactToBig(c), m, k)
  {
    hide Pow256, HasShape;
    var m, e := c % SIGN, c / EXP;
    if e <= 3 {
      var v := m / Pow256(3 - e);
      SmallShape(m, 3 - e);
      assert HasShape(CompactToBig(c), v, 0);
    } else {
      LargeShape(m, e - 3);
      assert HasShape(CompactToBig(c), m, e - 3);
    }
  }

  lemma SmallShape(m: nat, k: nat)
    requires m < SIGN
    ensures var v := m / Pow256(k); v >= 0 && HasShape(v, v, 0) && HasShape(-v, v, 0)
  {
    Shrinks(m, Pow256(k));
    assert Pow256(0) == 1;
  }

  lemma LargeShape(m: nat, k: nat)
    requires m < SIGN
    ensures HasShape(m * Pow256(k), m, k) && HasShape(-(m * Pow256(k)), m, k)
  {
  }

  lemma Shrinks(m: nat, p: nat)
    requires p >= 1
    ensures 0 <= m / p <= m
  {
    if m / p > m {
      MulMonotone(m + 1, m / p, p);
      MulMonotone(1, p, m + 1);
    }
  }

  // No compact number lies between the decoded value and the original.
  lemma LargestBelow(n: nat, c: nat)
    requires n > 0 && Exponent(n) <= 255 && CompactToBig(c) <= n
    ensures CompactToBig(c) <= CompactToBig(BigToCompact(n))
  {
    hide CompactToBig, BigToCompact, ByteLen, Unit, HasShape, Pow256;
    RelativePrecision(n);
    if CompactToBig(c) > 0 {
      CompactShape(c);
      var m: nat, k: nat :| HasShape(CompactToBig(c), m, k);
      Decoded(n);
      UnitIsPower(n);
      var j: nat :| Unit(n) == Pow256(j);
      UnitBounds(n);
      CutLargest(n, j, CompactToBig(c), m, k);
    }
  }

  lemma CutLargest(n: nat, j: nat, v: int, m: nat, k: nat)
    requires 0 < v <= n && HasShape(v, m, k) && (Pow256(j) > 1 ==> n / Pow256(j) >= 0x8000)
    ensures v <= n / Pow256(j) * Pow256(j)
  {
    PowPositive(m, k);
    if k >= j {
      CutMultiple(n, j, m, k);
    } else {
      PowStep(j - 1);
      CutSmaller(n, j, m, k);
    }
  }

  lemma PowPositive(m: nat, k: nat)
    ensures m * Pow256(k) >= 0
  {
    MulMonotone(0, m, Pow256(k));
  }

  lemma UnitIsPower(n: nat)
    ensures exists j: nat :: Unit(n) == Pow256(j)
  {
    assert Pow256(0) == 1;
    if Exponent(n) > 3 {
      var j: nat := Exponent(n) - 3;
      assert Unit(n) == Pow256(j);
    } else {
      assert Unit(n) == Pow256(0);
    }
  }

  lemma CutMultiple(n: nat, j: nat, m: nat, k: nat)
    requires k >= j && m * Pow256(k) <= n
    ensures m * Pow256(k) <= n / Pow256(j) * Pow256(j)
  {
    hide Pow256;
    PowAdd(k - j, j);
    Associate(m, Pow256(k - j), Pow256(j));
    CutWhole(n, Pow256(j), m * Pow256(k - j));
  }

  lemma CutWhole(n: nat, u: nat, x: int)
    requires u >= 1 && x * u <= n
    ensures x * u <= n / u * u
  {
    var q := n / u;
    assert n == q * u + n % u;
    assert (q + 1) * u == q * u + u;
    if x > q {
      MulMonotone(q + 1, x, u);
    } else {
      MulMonotone(x, q, u);
    }
  }

  lemma CutSmaller(n: nat, j: nat, m: nat, k: nat)
    requires k < j && m < SIGN && n / Pow256(j) >= 0x8000
    ensures m * Pow256(k) <= n / Pow256(j) * Pow256(j)
  {
    assert Pow256(j) == 256 * Pow256(j - 1);
    PowMonotone(k, j - 1);
    hide Pow256;
    MulMonotone(m, SIGN, Pow256(k));
    MulMonotone(Pow256(k), Pow256(j - 1), SIGN);
    MulMonotone(0x8000, n / Pow256(j), Pow256(j));
  }

  // A greater number never gets a smaller code.
  lemma EncodeMonotone(m: nat, n: nat)
    requires m <= n && Exponent(n) <= 255
    ensures BigToCompact(m) <= BigToCompact(n)
  {
    hide BigToCompact, ByteLen, Shifted, Pow256;
    if 0 < m {
      ByteLenMonotone(2 * m, 2 * n);
      ClosedForm(m);
      ClosedForm(n);
      MantissaBounds(m);
      MantissaBounds(n);
      if Exponent(m) == Exponent(n) {
        ShiftMonotone(m, n, Exponent(n));
      }
    } else {
      EncodeZero();
    }
  }

  lemma ShiftMonotone(m: nat, n: nat, e: nat)
    requires m <= n
    ensures Shifted(m, e) <= Shifted(n, e)
  {
    if e <= 3 {
      MulMonotone(m, n, Pow256(3 - e));
    } else {
      var p := Pow256(e - 3);
      if m / p > n / p {
        MulMonotone(n / p + 1, m / p, p);
      }
    }
  }

  // Every code made fits 32 bits and leaves the sign bit clear.
  lemma EncodeFits(n: nat)
    ensures BigToCompact(n) < 0x1_0000_0000 && BigToCompact(n) / SIGN % 2 == 0
  {
    hide BigToCompact, Exponent, Mantissa, Pow256, ByteLen;
    if n > 0 {
      ClosedForm(n);
      MantissaBounds(n);
      ExponentBounds(n);
      FieldsFit(Exponent(n) % 256, Mantissa(n));
    } else {
      EncodeZero();
    }
  }

  lemma FieldsFit(e: nat, m: nat)
    requires e <= 255 && m < SIGN
    ensures e * EXP + m < 0x1_0000_0000 && (e * EXP + m) / SIGN % 2 == 0
  {
    DivModUnique(e * EXP + m, SIGN, 2 * e, m);
  }

  lemma EncodeZero()
    ensures BigToCompact(0) == 0
  {
  }

  // Encoding the decoded value again changes nothing.
  lemma EncodeIdempotent(n: nat)
    requires n > 0 && Exponent(n) <= 255
    ensures CompactToBig(BigToCompact(n)) > 0
    ensures BigToCompact(CompactToBig(BigToCompact(n))) == BigToCompact(n)
  {
    hide CompactToBig, BigToCompact, ByteLen;
    RelativePrecision(n);
    Decoded(n);
    var r: nat := CompactToBig(BigToCompact(n));
    if Exponent(n) > 3 {
      var u, q := Unit(n), Mantissa(n);
      MantissaBounds(n);
      ExponentBounds(n);
      SameExponent(n, r);
      ClosedForm(r);
      ClosedForm(n);
      DivModUnique(r, u, q, 0);
    }
  }

  lemma SameExponent(n: nat, r: nat)
    requires n > 0 && Exponent(n) > 3 && r <= n && r == Mantissa(n) * Pow256(Exponent(n) - 3)
    ensures r > 0 && Exponent(r) == Exponent(n)
  {
    MantissaBounds(n);
    ExponentBounds(n);
    var e := Exponent(n);
    hide Mantissa, Exponent;
    PowAdd(2, e - 3);
    assert Pow256(2) == 65536 by { assert Pow256(1) == 256; }
    MulMonotone(0x8000, Mantissa(n), Pow256(e - 3));
    assert Pow256(e - 1) <= 2 * r < Pow256(e);
    ByteLenUnique(2 * r, e);
    ExponentIs(r);
  }

  lemma ExponentIs(n: nat)
    ensures Exponent(n) == ByteLen(2 * n)
  {
  }

  /** Where the 8 bits of the exponent end */

  // Every target of at most 256 bits is well inside.
  lemma TargetsInRange(n: nat)
    requires n < Pow256(32)
    ensures Exponent(n) <= 33
  {
    if n > 0 {
      hide Pow256, Exponent;
      ExponentBounds(n);
      PowStep(32);
      if Exponent(n) > 33 {
        PowMonotone(33, Exponent(n) - 1);
      }
    }
  }

  // The precision holds exactly for the numbers whose exponent fits its 8 bits.
  lemma PrecisionIff(n: nat)
    requires n > 0
    ensures var r := CompactToBig(BigToCompact(n));
      0 < r <= n && (n - r) * 0x8000 < n <==> Exponent(n) <= 255
  {
    hide CompactToBig, BigToCompact, Exponent;
    if Exponent(n) <= 255 {
      RelativePrecision(n);
    } else {
      WrappedDecode(n);
    }
  }

  // A cut exponent loses the magnitude: the decoded value is not even half of n.
  lemma WrappedDecode(n: nat)
    requires n > 0 && Exponent(n) > 255
    ensures CompactToBig(BigToCompact(n)) * 2 <= n
  {
    hide CompactToBig, BigToCompact, Exponent, Mantissa, Pow256;
    ClosedForm(n);
    MantissaBounds(n);
    ExponentBounds(n);
    var e, m := Exponent(n) % 256, Mantissa(n);
    DecodeParts(e, m);
    DecodedBelow(e, m);
    PowMonotone(e + 4, Exponent(n) - 1);
    PowStep(e + 3);
  }

  lemma DecodedBelow(e: nat, m: nat)
    requires m < SIGN
    ensures (if e <= 3 then m / Pow256(3 - e) else m * Pow256(e - 3)) <= Pow256(e + 3)
  {
    PowMonotone(3, e + 3);
    assert Pow256(0) == 1 && Pow256(1) == 256 && Pow256(2) == 65536 && Pow256(3) == EXP;
    if e <= 3 {
      hide Pow256;
      Shrinks(m, Pow256(3 - e));
    } else {
      PowAdd(3, e - 3);
      PowMonotone(e, e + 3);
      hide Pow256;
      MulMonotone(m, EXP, Pow256(e - 3));
    }
  }

  /** Negative numbers */

  // The bits of a negative number shifted right: the shift rounds down, so the magnitude
  // rounds up.
  function ShiftedNegative(a: nat, exponent: nat): nat
    requires a > 0
  {
    if exponent <= 3 then Times(a, Pow256(3 - exponent)) else Cut(a - 1, Pow256(exponent - 3)) + 1
  }

  // BigToCompact of the number -a.  Rounding up can carry out of the three bytes; the
  // carry then lands in the lowest bit of the exponent, which is combined by a bitwise or.
  function NegativeToCompact(a: nat): nat
    requires a > 0
  {
    var exponent := ByteLen(a);
    var mantissa := ShiftedNegative(a, exponent);
    if mantissa / SIGN % 2 == 1 then (exponent + 1) % 256 * EXP + mantissa / 256 + SIGN
    else if mantissa < EXP then exponent % 256 * EXP + mantissa + SIGN
    else exponent % 256 / 2 * 2 * EXP + EXP + SIGN
  }

  lemma DivisibleShift(a: nat, p: nat)
    requires a > 0 && p > 0 && a % p == 0
    ensures (a - 1) / p + 1 == a / p
  {
    var q := a / p;
    assert a == q * p;
    assert q > 0;
    assert (q - 1) * p == q * p - p;
    DivModUnique(a - 1, p, q - 1, p - 1);
  }

  // A magnitude that is a whole number of units is shifted without rounding.
  lemma ExactShift(a: nat)
    requires a > 0 && a % Unit(a) == 0
    ensures ShiftedNegative(a, ByteLen(a)) == Shifted(a, ByteLen(a))
  {
    hide ByteLen, Pow256;
    ExponentBounds(a);
    var e := ByteLen(a);
    if e > 3 {
      UnitDivides(a, e);
      DivisibleShift(a, Pow256(e - 3));
    }
  }

  lemma UnitDivides(a: nat, e: nat)
    requires e > 3 && (Exponent(a) == e || Exponent(a) == e + 1) && a % Unit(a) == 0
    ensures a % Pow256(e - 3) == 0
  {
    hide Exponent, Pow256;
    var p := Pow256(e - 3);
    PowStep(e - 3);
    if Exponent(a) == e + 1 {
      var q := a / (256 * p);
      assert a == q * (256 * p);
      assert q * (256 * p) == (256 * q) * p;
      DivModUnique(a, p, 256 * q, 0);
    }
  }

  lemma SetSign(c: nat)
    requires c / SIGN % 2 == 0
    ensures CompactToBig(c + SIGN) == -CompactToBig(c)
  {
    hide Pow256;
    var e, m := c / EXP, c % SIGN;
    assert c == e * EXP + m;
    DivModUnique(c + SIGN, EXP, e, SIGN + m);
    DivModUnique(c + SIGN, SIGN, 2 * e + 1, m);
  }

  lemma ClearSign(c: nat)
    requires c / SIGN % 2 == 1
    ensures c >= SIGN && (c - SIGN) / SIGN % 2 == 0 && CompactToBig(c - SIGN) == -CompactToBig(c)
  {
    hide CompactToBig;
    assert c - SIGN >= 0 && (c - SIGN) / SIGN == c / SIGN - 1;
    SetSign(c - SIGN);
  }

  /** A negative number survives encoding exactly when its magnitude does */
  lemma NegativeRoundTrip(a: nat)
    requires a > 0 && Exponent(a) <= 255
    ensures CompactToBig(NegativeToCompact(a)) + a == 0 <==> CompactToBig(BigToCompact(a)) == a
  {
    hide CompactToBig, BigToCompact, NegativeToCompact, Exponent;
    if CompactToBig(BigToCompact(a)) == a {
      SignedExact(a);
    }
    if CompactToBig(NegativeToCompact(a)) + a == 0 {
      NegativeCode(NegativeToCompact(a));
      ClearSign(NegativeToCompact(a));
      LargestBelow(a, NegativeToCompact(a) - SIGN);
      RelativePrecision(a);
    }
  }

  lemma NegativeCode(c: nat)
    requires CompactToBig(c) < 0
    ensures c / SIGN % 2 == 1
  {
    PartsPositive(c);
  }

  lemma PartsPositive(c: nat)
    ensures (if c / EXP <= 3 then c % SIGN / Pow256(3 - c / EXP) else c % SIGN * Pow256(c / EXP - 3)) >= 0
  {
    hide Pow256;
    if c / EXP <= 3 {
      Shrinks(c % SIGN, Pow256(3 - c / EXP));
    } else {
      MulMonotone(0, c % SIGN, Pow256(c / EXP - 3));
    }
  }

  lemma SignedExact(a: nat)
    requires a > 0 && Exponent(a) <= 255 && CompactToBig(BigToCompact(a)) == a
    ensures CompactToBig(NegativeToCompact(a)) + a == 0
  {
    hide CompactToBig, BigToCompact, NegativeToCompact, Exponent, Unit, ShiftedNegative, Shifted, ByteLen;
    Decoded(a);
    WholeUnits(a, Unit(a));
    ExactShift(a);
    SameCode(a);
    EncodeFits(a);
    SetSign(BigToCompact(a));
  }

  lemma WholeUnits(a: nat, u: nat)
    requires u > 0 && a == a / u * u
    ensures a % u == 0
  {
    DivModUnique(a, u, a / u, 0);
  }

  lemma SameCode(a: nat)
    requires a > 0 && ShiftedNegative(a, ByteLen(a)) == Shifted(a, ByteLen(a))
    ensures NegativeToCompact(a) == BigToCompact(a) + SIGN
  {
    hide Shifted, ShiftedNegative, ByteLen, Pow256;
    ByteLenBounds(a);
    PowStep(ByteLen(a) - 1);
    ShiftBounds(a, ByteLen(a), 0x100, 0x1_0000);
  }
}
