/** Amount compression: an amount is written as a mantissa times a power of ten and the
    two are packed into one number.  On unbounded naturals this is a bijection; on uint64
    words it is exact for every amount a coin can have. */
module Amount {
  import opened Types
  import Arith

  function Pow10(e: nat): (r: nat)
    ensures r >= 1
  {
    if e == 0 then 1 else 10 * Pow10(e - 1)
  }

  // Pack mantissa m, free of trailing zeros unless the exponent is 9, and exponent e.
  function Pack(m: nat, e: nat): nat
    requires Reduced(m, e)
  {
    if e < 9 then 1 + 10 * (9 * (m / 10) + m % 10 - 1) + e else 10 + 10 * (m - 1)
  }

  // A mantissa and an exponent in lowest terms.
  predicate Reduced(m: nat, e: nat) {
    m > 0 && e <= 9 && (e < 9 ==> m % 10 != 0)
  }

  // Move trailing zeros of m into the exponent.
  function Strip(m: nat, e: nat): (r: (nat, nat))
    requires m > 0 && e <= 9
    ensures Reduced(r.0, r.1) && r.1 >= e && r.0 * Pow10(r.1 - e) == m
    decreases m
  {
    if m % 10 == 0 && e < 9 then
      var r := Strip(m / 10, e + 1);
      assert Pow10(r.1 - e) == 10 * Pow10(r.1 - (e + 1));
      StripScale(r.0, r.1, e, m);
      r
    else (m, e)
  }

  lemma StripScale(q: nat, x: nat, e: nat, m: nat)
    requires x > e && m % 10 == 0 && q * Pow10(x - (e + 1)) == m / 10
    ensures q * Pow10(x - e) == m
  {
    assert q * Pow10(x - e) == q * (10 * Pow10(x - (e + 1))) == 10 * (q * Pow10(x - (e + 1)));
  }

  function Compress(amount: nat): nat {
    if amount == 0 then 0 else var r := Strip(amount, 0); Pack(r.0, r.1)
  }

  function Unpack(c: nat): (r: (nat, nat))
    requires c > 0
    ensures Reduced(r.0, r.1)
  {
    var e, x := (c - 1) % 10, (c - 1) / 10;
    if e < 9 then (x / 9 * 10 + x % 9 + 1, e) else (x + 1, 9)
  }

  function Decompress(c: nat): nat {
    if c == 0 then 0 else var r := Unpack(c); r.0 * Pow10(r.1)
  }

  lemma UnpackPack(m: nat, e: nat)
    requires Reduced(m, e)
    ensures Pack(m, e) > 0 && Unpack(Pack(m, e)) == (m, e)
  {
    var c := Pack(m, e);
    if e < 9 {
      var x := 9 * (m / 10) + m % 10 - 1;
      assert c - 1 == 10 * x + e;
      assert (c - 1) % 10 == e && (c - 1) / 10 == x;
      assert x / 9 == m / 10 && x % 9 == m % 10 - 1;
    }
  }

  lemma PackUnpack(c: nat)
    requires c > 0
    ensures var r := Unpack(c); Pack(r.0, r.1) == c
  {
    var e, x := (c - 1) % 10, (c - 1) / 10;
    if e < 9 {
      var m := x / 9 * 10 + x % 9 + 1;
      assert m / 10 == x / 9 && m % 10 == x % 9 + 1;
    }
  }

  lemma {:induction false} StripReduced(m: nat, e: nat, j: nat)
    requires Reduced(m, e) && j <= e
    ensures m * Pow10(j) > 0 && e <= 9
    ensures Strip(m * Pow10(j), e - j) == (m, e)
  {
    hide Strip;
    if j == 0 {
      assert m * Pow10(j) == m;
      StripStop(m, e);
    } else {
      StripReduced(m, e, j - 1);
      TimesTen(m, j);
      StripTen(m * Pow10(j - 1), e - j);
    }
  }

  lemma StripStop(m: nat, e: nat)
    requires Reduced(m, e)
    ensures m > 0 && e <= 9 && Strip(m, e) == (m, e)
  {
  }

  lemma StripTen(y: nat, e: nat)
    requires y > 0 && e < 9
    ensures Strip(y * 10, e) == Strip(y, e + 1)
  {
    assert y * 10 % 10 == 0 && y * 10 / 10 == y;
  }

  // Both ways round: compression is a bijection on the naturals.
  lemma DecompressCompress(amount: nat)
    ensures Decompress(Compress(amount)) == amount
  {
    if amount > 0 {
      var r := Strip(amount, 0);
      UnpackPack(r.0, r.1);
    }
  }

  lemma CompressDecompress(c: nat)
    ensures Compress(Decompress(c)) == c
  {
    if c > 0 {
      var r := Unpack(c);
      StripReduced(r.0, r.1, r.1);
      PackUnpack(c);
    }
  }

  // The documented encoding: below exponent nine the last digit d is not zero and packed
  // beside the digits n above it; at exponent nine only the number of whole units is.
  lemma CompressDigits(n: nat, d: nat, e: nat)
    requires e < 9 && 1 <= d <= 9
    ensures Compress((10 * n + d) * Pow10(e)) == 1 + 10 * (9 * n + d - 1) + e
  {
    var m := 10 * n + d;
    assert m % 10 == d && m / 10 == n;
    StripReduced(m, e, e);
  }

  lemma CompressWhole(n: nat)
    requires n > 0
    ensures Compress(n * Pow10(9)) == 10 + 10 * (n - 1)
  {
    StripReduced(n, 9, 9);
  }

  // No compressed amount is more than nine times the amount, so none of a coin's range
  // overflows 64 bits.
  lemma CompressBound(amount: nat)
    ensures Compress(amount) <= 9 * amount
  {
    if amount > 0 {
      var r := Strip(amount, 0);
      PackBound(r.0, r.1);
    }
  }

  lemma PackBound(m: nat, e: nat)
    requires Reduced(m, e)
    ensures Pack(m, e) <= 9 * (m * Pow10(e))
  {
    if e == 0 {
      PackSmall(m, e);
      assert m * Pow10(e) == m;
    } else {
      PackSmall(m, e);
      TimesTen(m, e);
      ScaleUp(m * 10, Pow10(e - 1));
      hide Pack, Pow10;
      assert Pack(m, e) <= 18 * m;
    }
  }

  lemma PackSmall(m: nat, e: nat)
    requires Reduced(m, e)
    ensures e == 0 ==> Pack(m, e) <= 9 * m
    ensures Pack(m, e) <= 18 * m
  {
    var d := m % 10;
    assert e < 9 ==> Pack(m, e) == 9 * m + d - 9 + e;
  }

  lemma ScaleUp(m: nat, p: nat)
    requires p >= 1
    ensures m * p >= m
  {
  }

  // What the loop leaves is packed.
  lemma Stripped(amount: nat, a: nat, e: nat)
    requires amount > 0 && a > 0 && e <= 9 && Strip(amount, 0) == Strip(a, e) && (e == 9 || a % 10 != 0)
    ensures Compress(amount) == if e < 9 then 1 + 10 * (9 * (a / 10) + a % 10 - 1) + e else 10 + 10 * (a - 1)
  {
    StripStop(a, e);
  }

  lemma CompressNothing()
    ensures Compress(0) == 0
  {
  }

  lemma StripNext(a: nat, e: nat)
    requires a > 0 && e < 9 && a % 10 == 0
    ensures a / 10 > 0 && Strip(a, e) == Strip(a / 10, e + 1)
  {
  }

  // compressTxOutAmount on uint64 words.
  method CompressTxOutAmount(amount: nat) returns (r: nat)
    requires amount < TWO_64
    ensures r == Compress(amount) % TWO_64
    ensures amount <= MAX_SATOSHI ==> r == Compress(amount)
  {
    hide Compress, Strip;
    CompressBound(amount);
    if amount == 0 {
      assert Compress(0) == 0 by { CompressNothing(); }
      return 0;
    }
    var a, exponent := amount, 0;
    while a % 10 == 0 && exponent < 9
      invariant a > 0 && exponent <= 9
      invariant Strip(amount, 0) == Strip(a, exponent)
      decreases a
    {
      StripNext(a, exponent);
      a := a / 10;
      exponent := exponent + 1;
    }
    Stripped(amount, a, exponent);
    if exponent < 9 {
      var lastDigit := a % 10;
      a := a / 10;
      r := (1 + 10 * (9 * a + lastDigit - 1) + exponent) % TWO_64;
      return;
    }
    r := (10 + 10 * (a - 1)) % TWO_64;
  }

  // Multiplying words keeps the product modulo 2^64.
  lemma WordTimesTen(x: nat, n: nat)
    requires n == x % TWO_64
    ensures n * 10 % TWO_64 == x * 10 % TWO_64
  {
    var q := x / TWO_64;
    assert x * 10 == q * 10 * TWO_64 + n * 10;
    Arith.DivModUnique(x * 10, TWO_64, q * 10 + n * 10 / TWO_64, n * 10 % TWO_64);
  }

  // decompressTxOutAmount on uint64 words.
  method DecompressTxOutAmount(amount: nat) returns (r: nat)
    requires amount < TWO_64
    ensures r == Decompress(amount) % TWO_64
  {
    if amount == 0 { return 0; }
    var a := amount - 1;
    var exponent := a % 10;
    a := a / 10;
    var n;
    if exponent < 9 {
      var lastDigit := a % 9 + 1;
      a := a / 9;
      n := (a * 10 + lastDigit) % TWO_64;
    } else {
      n := a + 1;
    }
    r := Scale(Unpack(amount).0, n, exponent);
  }

  // Apply the exponent.
  method Scale(ghost m: nat, word: nat, e: nat) returns (r: nat)
    requires word == m % TWO_64
    ensures r == m * Pow10(e) % TWO_64
  {
    hide Pow10;
    var n, exponent := word, e;
    ghost var x := m;
    while exponent > 0
      invariant 0 <= exponent <= e
      invariant n == x % TWO_64 && m * Pow10(e) == x * Pow10(exponent)
      decreases exponent
    {
      WordTimesTen(x, n);
      TimesTen(x, exponent);
      n := n * 10 % TWO_64;
      x := x * 10;
      exponent := exponent - 1;
    }
    PowZero(x);
    r := n;
  }

  lemma TimesTen(x: nat, e: nat)
    requires e > 0
    ensures x * Pow10(e) == x * 10 * Pow10(e - 1) == x * Pow10(e - 1) * 10
  {
  }

  lemma PowZero(x: nat)
    ensures x * Pow10(0) == x
  {
  }
}
