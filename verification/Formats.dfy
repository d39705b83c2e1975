/** The stored formats field by field, and on the values their descriptions give as
    examples. */
module Formats {
  import opened Types
  import opened Vlq
  import Amount
  import opened Compress
  import opened Ledger
  import opened Journal
  import opened UtxoStore

  /** Scripts: a standard one is its type byte and its hash or x coordinate, any other its
      length plus six and its bytes */
  lemma ScriptForms(c: Curve, s: Script)
    ensures ScriptBytes(c, s) ==
      if |s| == 25 && s[..3] == [0x76, 0xa9, 0x14] && s[23..] == [0x88, 0xac] then [0] + s[3..23]
      else if |s| == 23 && s[..2] == [0xa9, 0x14] && s[22] == 0x87 then [1] + s[2..22]
      else if |s| == 35 && s[0] == 0x21 && (s[1] == 2 || s[1] == 3) && s[34] == 0xac && c.recover(s[1..34]).Some? then
        s[1..34]
      else if |s| == 67 && s[0] == 0x41 && s[1] == 4 && s[66] == 0xac && c.recover(s[1..66]).Some? then
        [if s[65] % 2 == 0 then 4 else 5] + s[2..34]
      else Encode(|s| + 6) + s
  {
  }

  /** Entries: height and coinbase flag, one reserved byte in the journal alone, the
      compressed amount, and the script */
  lemma StxoLayout(c: Curve, coin: Coin)
    requires Storable(coin)
    ensures StxoBytes(c, coin)
         == Encode(2 * coin.height + if coin.coinBase then 1 else 0) + (if coin.height > 0 then [0] else [])
            + Encode(Amount.Compress(coin.amount)) + ScriptBytes(c, coin.pkScript)
  {
  }

  lemma UtxoLayout(c: Curve, coin: Coin)
    requires Storable(coin)
    ensures UtxoBytes(c, coin)
         == Encode(2 * coin.height + if coin.coinBase then 1 else 0)
            + Encode(Amount.Compress(coin.amount)) + ScriptBytes(c, coin.pkScript)
  {
  }

  // Later spends come first.
  lemma {:induction false} JournalReversed(c: Curve, a: seq<Coin>, b: seq<Coin>)
    requires AllStorable(a) && AllStorable(b)
    ensures JournalBytes(c, a + b) == JournalBytes(c, b) + JournalBytes(c, a)
    decreases |b|
  {
    hide StxoBytes;
    if b == [] {
      assert a + b == a && [] + JournalBytes(c, a) == JournalBytes(c, a);
    } else {
      var n := |b| - 1;
      assert (a + b)[..|a| + n] == a + b[..n];
      JournalReversed(c, a, b[..n]);
      Associate(StxoBytes(c, b[n]), JournalBytes(c, b[..n]), JournalBytes(c, a));
    }
  }

  /** The examples of the descriptions */

  // Numbers of one, two and three groups.
  lemma EncodeSmall(n: nat)
    ensures n < 0x80 ==> Encode(n) == [n]
    ensures 0x80 <= n < 0x4080 ==> Encode(n) == [n / 128 + 0x7f, n % 128]
    ensures 0x4080 <= n < 0x20_4080 ==>
      Encode(n) == [(n / 128 - 1) / 128 + 0x7f, (n / 128 - 1) % 128 + 0x80, n % 128]
  {
    var m := n / 128 - 1;
    if 0x80 <= n < 0x4080 {
      assert HighBytes(m) == [m + 0x80];
    } else if 0x4080 <= n < 0x20_4080 {
      assert HighBytes(m / 128 - 1) == [m / 128 - 1 + 0x80];
      assert HighBytes(m) == HighBytes(m / 128 - 1) + [m % 128 + 0x80];
    }
  }

  lemma VlqExamples()
    ensures Encode(0) == [0x00] && Encode(1) == [0x01] && Encode(127) == [0x7f]
    ensures Encode(128) == [0x80, 0x00] && Encode(255) == [0x80, 0x7f] && Encode(256) == [0x81, 0x00]
    ensures Encode(16511) == [0xff, 0x7f] && Encode(16512) == [0x80, 0x80, 0x00]
    ensures Encode(32895) == [0x80, 0xff, 0x7f]
  {
    hide Encode;
    EncodeSmall(0);
    EncodeSmall(1);
    EncodeSmall(127);
    EncodeSmall(128);
    EncodeSmall(255);
    EncodeSmall(256);
    EncodeSmall(16511);
    EncodeSmall(16512);
    EncodeSmall(32895);
  }

  // Half a coin is said to become 47; it becomes 48.
  lemma HalfCoin()
    ensures Amount.Compress(50_000_000) == 48
  {
  }

  // The coinbase output spent in block 170, whatever its script.
  lemma SpentExample(c: Curve, s: Script)
    requires |s| < MAX_LENGTH
    ensures StxoBytes(c, Coin(5_000_000_000, s, 9, true)) == [0x13, 0x00, 0x32] + ScriptBytes(c, s)
  {
  }

  // An unspent output of block 113931.
  lemma UnspentExample(c: Curve, s: Script)
    requires |s| < MAX_LENGTH
    ensures UtxoBytes(c, Coin(15_000_000, s, 113931, false)) == [0x8c, 0xf3, 0x16, 0x80, 0x09] + ScriptBytes(c, s)
  {
    hide ScriptBytes, Encode, UtxoBytes, Amount.Compress;
    UtxoLayout(c, Coin(15_000_000, s, 113931, false));
    Amount.CompressDigits(1, 5, 6);
    TenTo6();
    EncodeSmall(227862);
    EncodeSmall(137);
  }

  lemma TenTo6()
    ensures Amount.Pow10(6) == 1_000_000
  {
    assert Amount.Pow10(3) == 1000;
  }
}
