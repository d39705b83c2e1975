/** Script and transaction-output compression.  Standard scripts shrink to a type byte and
    a hash or an x coordinate; every other script is stored behind its length. */
module Compress {
  import opened Types
  import opened Vlq
  import opened Amount

  const OP_DUP: byte := 0x76
  const OP_HASH160: byte := 0xa9
  const OP_DATA_20: byte := 0x14
  const OP_DATA_33: byte := 0x21
  const OP_DATA_65: byte := 0x41
  const OP_EQUAL: byte := 0x87
  const OP_EQUALVERIFY: byte := 0x88
  const OP_CHECKSIG: byte := 0xac

  const CST_PUB_KEY_HASH: byte := 0
  const CST_SCRIPT_HASH: byte := 1
  const NUM_SPECIAL_SCRIPTS: nat := 6

  // Go keeps the length of a slice in an int.
  const MAX_LENGTH: nat := 0x4000_0000_0000_0000

  /** Public keys */

  // Elliptic-curve parsing: the uncompressed serialisation of the key that some bytes
  // parse to, if they do.
  datatype Curve = Curve(recover: seq<byte> -> Option<seq<byte>>)

  function OddKey(key: seq<byte>): seq<byte>
    requires |key| == 65
  {
    [2 + key[64] % 2] + key[1..33]
  }

  // An uncompressed key is recovered from its x coordinate and the parity of y.
  ghost predicate RecoveryLaw(c: Curve) {
    forall key :: |key| == 65 && key[0] == 4 && c.recover(key).Some? ==> c.recover(OddKey(key)) == Some(key)
  }

  /** Recognising standard scripts */

  predicate IsPubKeyHash(s: Script) {
    && |s| == 25 && s[0] == OP_DUP && s[1] == OP_HASH160 && s[2] == OP_DATA_20
    && s[23] == OP_EQUALVERIFY && s[24] == OP_CHECKSIG
  }

  predicate IsScriptHash(s: Script) {
    |s| == 23 && s[0] == OP_HASH160 && s[1] == OP_DATA_20 && s[22] == OP_EQUAL
  }

  predicate IsCompressedKey(c: Curve, s: Script) {
    && |s| == 35 && s[0] == OP_DATA_33 && s[34] == OP_CHECKSIG && (s[1] == 2 || s[1] == 3)
    && c.recover(s[1..34]).Some?
  }

  predicate IsUncompressedKey(c: Curve, s: Script) {
    && |s| == 67 && s[0] == OP_DATA_65 && s[66] == OP_CHECKSIG && s[1] == 4
    && c.recover(s[1..66]).Some?
  }

  /** The compressed form of a script and back */

  function ScriptBytes(c: Curve, s: Script): (r: seq<byte>)
    ensures |r| >= 1
  {
    if IsPubKeyHash(s) then [CST_PUB_KEY_HASH] + s[3..23]
    else if IsScriptHash(s) then [CST_SCRIPT_HASH] + s[2..22]
    else if IsCompressedKey(c, s) then [s[1]] + s[2..34]
    else if IsUncompressedKey(c, s) then [4 + s[65] % 2] + s[2..34]
    else Encode(|s| + NUM_SPECIAL_SCRIPTS) + s
  }

  // decodeCompressedScriptSize
  function ScriptSize(s: seq<byte>): int {
    var v, n := ReadValue(s) % TWO_64, ReadSize(s);
    if n == 0 then 0
    else if v <= 1 then 21
    else if v < NUM_SPECIAL_SCRIPTS then 33
    else Wrap64(v - NUM_SPECIAL_SCRIPTS + n)
  }

  // decompressScript: its argument has exactly the size announced at its head.
  function ScriptOf(c: Curve, s: seq<byte>): Script
    requires 0 <= ScriptSize(s) <= |s|
  {
    var v, n := ReadValue(s) % TWO_64, ReadSize(s);
    if s == [] then []
    else if v == 0 then [OP_DUP, OP_HASH160, OP_DATA_20] + s[1..21] + [OP_EQUALVERIFY, OP_CHECKSIG]
    else if v == 1 then [OP_HASH160, OP_DATA_20] + s[1..21] + [OP_EQUAL]
    else if v <= 3 then [OP_DATA_33, v] + s[1..33] + [OP_CHECKSIG]
    else if v <= 5 then
      match c.recover([v - 2] + s[1..33])
      case None => []
      case Some(key) => [OP_DATA_65] + key + [OP_CHECKSIG]
    else if n + (v - NUM_SPECIAL_SCRIPTS) <= |s| then s[n..n + (v - NUM_SPECIAL_SCRIPTS)]
    else []
  }

  lemma ShortValue(b: byte, t: seq<byte>)
    requires b < 0x80
    ensures ReadValue([b] + t) == b && ReadSize([b] + t) == 1
  {
    ReadEncode(b, t);
  }

  // The announced size is the size, whatever follows.
  lemma ScriptSizeOf(c: Curve, s: Script, t: seq<byte>)
    requires |s| < MAX_LENGTH
    ensures ScriptSize(ScriptBytes(c, s) + t) == |ScriptBytes(c, s)|
  {
    hide ReadValue, ReadSize, Encode;
    if Special(c, s) {
      TagRead(c, s, t);
    } else {
      var e := Encode(|s| + NUM_SPECIAL_SCRIPTS);
      Associate(e, s, t);
      ReadEncode(|s| + NUM_SPECIAL_SCRIPTS, s + t);
      EncodeShort(|s| + NUM_SPECIAL_SCRIPTS);
      hide Special;
      assert Wrap64(|s| + |e|) == |s| + |e|;
    }
  }

  // A standard script starts with its type, which is also its first byte.
  lemma TagRead(c: Curve, s: Script, t: seq<byte>)
    requires Special(c, s)
    ensures var r := ScriptBytes(c, s);
      && ReadValue(r + t) == r[0] && ReadSize(r + t) == 1
      && r[0] < 6 && |r| == if r[0] <= 1 then 21 else 33
  {
    hide ReadValue, ReadSize, Encode;
    var r := ScriptBytes(c, s);
    assert r + t == [r[0]] + (r[1..] + t);
    ShortValue(r[0], r[1..] + t);
  }

  predicate Special(c: Curve, s: Script) {
    IsPubKeyHash(s) || IsScriptHash(s) || IsCompressedKey(c, s) || IsUncompressedKey(c, s)
  }

  // A number below 2^63 takes at most nine groups of seven bits.
  lemma EncodeShort(n: nat)
    requires n < 0x8000_0000_0000_0000
    ensures |Encode(n)| <= 9
  {
    hide HighBytes;
    var m := n / 128 - 1;
    if n > 0x7f {
      HighBytesShort(m, 8);
    }
  }

  function Pow128(k: nat): (r: nat)
    ensures r >= 1
  {
    if k == 0 then 1 else 128 * Pow128(k - 1)
  }

  lemma {:induction false} HighBytesShort(m: nat, k: nat)
    requires k >= 1 && m < Pow128(k)
    ensures |HighBytes(m)| <= k
  {
    assert Pow128(0) == 1;
    if m > 0x7f {
      HighBytesShort(m / 128 - 1, k - 1);
    }
  }

  // Compression of scripts loses nothing.
  lemma ScriptRoundTrip(c: Curve, s: Script)
    requires RecoveryLaw(c) && |s| < MAX_LENGTH
    ensures ScriptSize(ScriptBytes(c, s)) == |ScriptBytes(c, s)|
    ensures ScriptOf(c, ScriptBytes(c, s)) == s
  {
    hide ReadValue, ReadSize, Encode, RecoveryLaw;
    var r := ScriptBytes(c, s);
    assert r + [] == r;
    ScriptSizeOf(c, s, []);
    if Special(c, s) {
      TagRead(c, s, []);
      SpecialRoundTrip(c, s);
    } else {
      ReadEncode(|s| + NUM_SPECIAL_SCRIPTS, s);
    }
  }

  lemma SpecialRoundTrip(c: Curve, s: Script)
    requires RecoveryLaw(c) && Special(c, s)
    requires ReadValue(ScriptBytes(c, s)) == ScriptBytes(c, s)[0] && ReadSize(ScriptBytes(c, s)) == 1
    requires ScriptSize(ScriptBytes(c, s)) == |ScriptBytes(c, s)|
    ensures ScriptOf(c, ScriptBytes(c, s)) == s
  {
    hide ReadValue, ReadSize, Encode, ScriptSize, ScriptBytes, ScriptOf, RecoveryLaw;
    if IsPubKeyHash(s) || IsScriptHash(s) {
      HashRoundTrip(c, s);
    } else if IsCompressedKey(c, s) {
      CompressedKeyRoundTrip(c, s);
    } else {
      UncompressedKeyRoundTrip(c, s);
    }
  }

  lemma HashRoundTrip(c: Curve, s: Script)
    requires IsPubKeyHash(s) || IsScriptHash(s)
    requires ReadValue(ScriptBytes(c, s)) == ScriptBytes(c, s)[0] && ReadSize(ScriptBytes(c, s)) == 1
    requires ScriptSize(ScriptBytes(c, s)) == |ScriptBytes(c, s)|
    ensures ScriptOf(c, ScriptBytes(c, s)) == s
  {
    hide ReadValue, ReadSize, Encode, ScriptSize;
    var r := ScriptBytes(c, s);
    assert r[1..21] == if IsPubKeyHash(s) then s[3..23] else s[2..22];
  }

  lemma CompressedKeyRoundTrip(c: Curve, s: Script)
    requires IsCompressedKey(c, s)
    requires ReadValue(ScriptBytes(c, s)) == ScriptBytes(c, s)[0] && ReadSize(ScriptBytes(c, s)) == 1
    requires ScriptSize(ScriptBytes(c, s)) == |ScriptBytes(c, s)|
    ensures ScriptOf(c, ScriptBytes(c, s)) == s
  {
    hide ReadValue, ReadSize, Encode, ScriptSize;
    var r := ScriptBytes(c, s);
    assert r == [s[1]] + s[2..34];
    assert r[1..33] == s[2..34];
    assert s == [OP_DATA_33, s[1]] + s[2..34] + [OP_CHECKSIG];
  }

  lemma UncompressedKeyRoundTrip(c: Curve, s: Script)
    requires RecoveryLaw(c) && IsUncompressedKey(c, s)
    requires ReadValue(ScriptBytes(c, s)) == ScriptBytes(c, s)[0] && ReadSize(ScriptBytes(c, s)) == 1
    requires ScriptSize(ScriptBytes(c, s)) == |ScriptBytes(c, s)|
    ensures ScriptOf(c, ScriptBytes(c, s)) == s
  {
    hide ReadValue, ReadSize, Encode, ScriptSize;
    var r := ScriptBytes(c, s);
    var key := s[1..66];
    assert r[1..33] == s[2..34] == key[1..33];
    assert OddKey(key) == [r[0] - 2] + r[1..33];
    assert s == [OP_DATA_65] + key + [OP_CHECKSIG];
  }

  /** Compressed transaction outputs */

  function TxOutBytes(c: Curve, amount: nat, s: Script): seq<byte> {
    Encode(Compress(amount)) + ScriptBytes(c, s)
  }

  datatype Decoded = Decoded(amount: nat, script: Script, size: nat) | Truncated(size: nat) | Oversized

  // decodeCompressedTxOut; a script size that does not fit an int is set apart.
  function DecodeTxOut(c: Curve, s: seq<byte>): Decoded {
    var n := ReadSize(s);
    if n >= |s| then Truncated(n)
    else
      var size := ScriptSize(s[n..]);
      if size < 0 || ReadValue(s[n..]) > MAX_INT64 then Oversized
      else if |s| - n < size then Truncated(n)
      else if !(0 <= ScriptSize(s[n..n + size]) <= size) then Oversized
      else Decoded(Decompress(ReadValue(s) % TWO_64) % TWO_64, ScriptOf(c, s[n..n + size]), n + size)
  }

  // Whatever follows a compressed output, it decodes to what was encoded and reads
  // exactly the bytes that were written.
  lemma TxOutRoundTrip(c: Curve, amount: nat, s: Script, t: seq<byte>)
    requires RecoveryLaw(c) && |s| < MAX_LENGTH && amount <= MAX_SATOSHI
    ensures DecodeTxOut(c, TxOutBytes(c, amount, s) + t) == Decoded(amount, s, |TxOutBytes(c, amount, s)|)
  {
    hide ReadValue, ReadSize, Encode, RecoveryLaw, ScriptBytes, ScriptOf, ScriptSize, Compress, Decompress, DecodeTxOut;
    var a, b := Encode(Compress(amount)), ScriptBytes(c, s);
    CompressBound(amount);
    DecompressCompress(amount);
    Associate(a, b, t);
    ReadEncode(Compress(amount), b + t);
    assert (a + (b + t))[|a|..] == b + t;
    assert (a + (b + t))[|a|..|a| + |b|] == b;
    ScriptSizeOf(c, s, t);
    ScriptValueOf(c, s, t);
    ScriptRoundTrip(c, s);
    DecodeParts(c, a + (b + t), |a|, |b|, Compress(amount));
  }

  lemma DecodeParts(c: Curve, s: seq<byte>, n: nat, size: nat, v: nat)
    requires n + size <= |s| && size > 0 && ReadSize(s) == n && ReadValue(s) == v < TWO_64 && Decompress(v) < TWO_64
    requires ScriptSize(s[n..]) == size && ReadValue(s[n..]) <= MAX_INT64 && ScriptSize(s[n..n + size]) == size
    ensures DecodeTxOut(c, s) == Decoded(Decompress(v), ScriptOf(c, s[n..n + size]), n + size)
  {
    hide ReadValue, ReadSize, Decompress, ScriptOf, ScriptSize;
  }

  lemma ScriptValueOf(c: Curve, s: Script, t: seq<byte>)
    requires |s| < MAX_LENGTH
    ensures ReadValue(ScriptBytes(c, s) + t) <= MAX_INT64
  {
    hide ReadValue, ReadSize, Encode;
    if Special(c, s) {
      TagRead(c, s, t);
    } else {
      Associate(Encode(|s| + NUM_SPECIAL_SCRIPTS), s, t);
      ReadEncode(|s| + NUM_SPECIAL_SCRIPTS, s + t);
    }
  }

  /** Writing into a buffer at an offset */

  // compressedScriptSize
  method CompressedScriptSize(c: Curve, s: Script) returns (size: nat)
    ensures size == |ScriptBytes(c, s)|
  {
    if IsPubKeyHash(s) { return 21; }
    if IsScriptHash(s) { return 21; }
    if IsCompressedKey(c, s) || IsUncompressedKey(c, s) { return 33; }
    var n := SerializeSizeVLQ(|s| + NUM_SPECIAL_SCRIPTS);
    size := n + |s|;
  }

  method CompressedTxOutSize(c: Curve, amount: nat, s: Script) returns (size: nat)
    requires amount <= MAX_SATOSHI
    ensures size == |TxOutBytes(c, amount, s)|
  {
    hide ScriptBytes, Encode;
    var a := CompressTxOutAmount(amount);
    var n := SerializeSizeVLQ(a);
    size := CompressedScriptSize(c, s);
    size := n + size;
  }

  // Go's copy of a whole slice.
  method CopyBytes(target: array<byte>, off: nat, e: seq<byte>)
    requires off + |e| <= target.Length
    modifies target
    ensures target[..] == Splice(old(target[..]), off, e)
  {
    forall i | 0 <= i < |e| { target[off + i] := e[i]; }
  }

  method PutTagged(target: array<byte>, off: nat, tag: byte, e: seq<byte>)
    requires off + 1 + |e| <= target.Length
    modifies target
    ensures target[..] == Splice(old(target[..]), off, [tag] + e)
  {
    hide Splice;
    SpliceOne(target[..], off, tag);
    target[off] := tag;
    CopyBytes(target, off + 1, e);
    SpliceSplice(old(target[..]), off, [tag], e);
  }

  lemma SpliceOne(s: seq<byte>, i: nat, b: byte)
    requires i < |s|
    ensures Splice(s, i, [b]) == s[i := b]
  {
  }

  method PutCompressedScript(c: Curve, target: array<byte>, off: nat, s: Script) returns (size: nat)
    requires off + |ScriptBytes(c, s)| <= target.Length
    modifies target
    ensures size == |ScriptBytes(c, s)|
    ensures target[..] == Splice(old(target[..]), off, ScriptBytes(c, s))
  {
    hide Splice, Encode;
    if IsPubKeyHash(s) {
      PutTagged(target, off, CST_PUB_KEY_HASH, s[3..23]);
      return 21;
    }
    if IsScriptHash(s) {
      PutTagged(target, off, CST_SCRIPT_HASH, s[2..22]);
      return 21;
    }
    if IsCompressedKey(c, s) {
      PutTagged(target, off, s[1], s[2..34]);
      return 33;
    }
    if IsUncompressedKey(c, s) {
      PutTagged(target, off, 4 + s[65] % 2, s[2..34]);
      return 33;
    }
    var n := PutVLQ(target, off, |s| + NUM_SPECIAL_SCRIPTS);
    CopyBytes(target, off + n, s);
    SpliceSplice(old(target[..]), off, Encode(|s| + NUM_SPECIAL_SCRIPTS), s);
    size := n + |s|;
  }

  method PutCompressedTxOut(c: Curve, target: array<byte>, off: nat, amount: nat, s: Script) returns (size: nat)
    requires amount <= MAX_SATOSHI && off + |TxOutBytes(c, amount, s)| <= target.Length
    modifies target
    ensures size == |TxOutBytes(c, amount, s)|
    ensures target[..] == Splice(old(target[..]), off, TxOutBytes(c, amount, s))
  {
    hide Splice, Encode, ScriptBytes;
    var a := CompressTxOutAmount(amount);
    var n := PutVLQ(target, off, a);
    var m := PutCompressedScript(c, target, off + n, s);
    SpliceSplice(old(target[..]), off, Encode(a), ScriptBytes(c, s));
    size := n + m;
  }
}
