/** The spend journal: the outputs a block spends, stored last first and read back with
    nothing but the number of inputs of the block's transactions. */
module Journal {
  import opened Types
  import opened Vlq
  import opened Amount
  import opened Compress
  import opened Ledger

  const MAX_INT32: int := 0x7fff_ffff

  // What a spent output or a utxo entry can hold.
  predicate Storable(coin: Coin) {
    0 <= coin.height <= MAX_INT32 && 0 <= coin.amount <= MAX_SATOSHI && |coin.pkScript| < MAX_LENGTH
  }

  // The height shifted over one bit, the coinbase flag in the lowest.
  function HeaderCode(coin: Coin): nat
    requires coin.height >= 0
  {
    2 * coin.height + if coin.coinBase then 1 else 0
  }

  function HeightOf(code: nat): int {
    var x := code / 2 % 0x1_0000_0000;
    if x <= MAX_INT32 then x else x - 0x1_0000_0000
  }

  lemma HeaderRoundTrip(coin: Coin)
    requires Storable(coin)
    ensures var code := HeaderCode(coin);
      code < TWO_64 && HeightOf(code) == coin.height && (code % 2 != 0 <==> coin.coinBase)
  {
  }

  function StxoBytes(c: Curve, coin: Coin): seq<byte>
    requires Storable(coin)
  {
    Encode(HeaderCode(coin)) + (if coin.height > 0 then Encode(0) else []) + TxOutBytes(c, coin.amount, coin.pkScript)
  }

  datatype Read = Read(coin: Coin, size: nat) | Corrupt

  // The compressed output after a header, n bytes into the string.
  function FinishRead(c: Curve, s: seq<byte>, n: nat, code: nat): Read
    requires n <= |s|
  {
    match DecodeTxOut(c, s[n..])
    case Decoded(amount, script, size) => Read(Coin(Wrap64(amount), script, HeightOf(code), code % 2 != 0), n + size)
    case _ => Corrupt
  }

  // decodeSpentTxOut
  function DecodeStxo(c: Curve, s: seq<byte>): Read {
    if s == [] then Corrupt
    else
      var code, n := ReadValue(s) % TWO_64, ReadSize(s);
      if n >= |s| then Corrupt
      else if HeightOf(code) > 0 then
        var m := n + ReadSize(s[n..]);
        if m >= |s| then Corrupt else FinishRead(c, s, m, code)
      else FinishRead(c, s, n, code)
  }

  lemma FinishRoundTrip(c: Curve, pre: seq<byte>, coin: Coin, t: seq<byte>)
    requires RecoveryLaw(c) && Storable(coin)
    ensures FinishRead(c, pre + TxOutBytes(c, coin.amount, coin.pkScript) + t, |pre|, HeaderCode(coin))
         == Read(coin, |pre + TxOutBytes(c, coin.amount, coin.pkScript)|)
  {
    hide RecoveryLaw, TxOutBytes, DecodeTxOut;
    var e := TxOutBytes(c, coin.amount, coin.pkScript);
    assert (pre + e + t)[|pre|..] == e + t;
    HeaderRoundTrip(coin);
    TxOutRoundTrip(c, coin.amount, coin.pkScript, t);
  }

  lemma TxOutNotEmpty(c: Curve, amount: nat, s: Script)
    ensures |TxOutBytes(c, amount, s)| > 0
  {
    hide ScriptBytes;
  }

  // A spent output reads back, whatever follows it, and reads exactly what was written.
  lemma StxoRoundTrip(c: Curve, coin: Coin, t: seq<byte>)
    requires RecoveryLaw(c) && Storable(coin)
    ensures DecodeStxo(c, StxoBytes(c, coin) + t) == Read(coin, |StxoBytes(c, coin)|)
  {
    hide RecoveryLaw, TxOutBytes, DecodeTxOut, Encode, ReadValue, ReadSize, FinishRead, HeightOf, HeaderCode;
    var h := Encode(HeaderCode(coin));
    var e := TxOutBytes(c, coin.amount, coin.pkScript);
    TxOutNotEmpty(c, coin.amount, coin.pkScript);
    HeaderRoundTrip(coin);
    if coin.height > 0 {
      var z := Encode(0);
      assert h + z + e + t == h + (z + (e + t));
      ReadEncode(HeaderCode(coin), z + (e + t));
      assert (h + (z + (e + t)))[|h|..] == z + (e + t);
      ReadEncode(0, e + t);
      FinishRoundTrip(c, h + z, coin, t);
    } else {
      assert h + [] == h;
      Associate(h, e, t);
      ReadEncode(HeaderCode(coin), e + t);
      FinishRoundTrip(c, h, coin, t);
    }
  }

  /** Buffers */

  method SpentTxOutSerializeSize(c: Curve, coin: Coin) returns (size: nat)
    requires Storable(coin)
    ensures size == |StxoBytes(c, coin)|
  {
    hide Encode, TxOutBytes;
    size := SerializeSizeVLQ(HeaderCode(coin));
    if coin.height > 0 {
      var z := SerializeSizeVLQ(0);
      size := size + z;
    }
    var e := CompressedTxOutSize(c, coin.amount, coin.pkScript);
    size := size + e;
  }

  method PutSpentTxOut(c: Curve, target: array<byte>, off: nat, coin: Coin) returns (size: nat)
    requires Storable(coin) && off + |StxoBytes(c, coin)| <= target.Length
    modifies target
    ensures size == |StxoBytes(c, coin)|
    ensures target[..] == Splice(old(target[..]), off, StxoBytes(c, coin))
  {
    hide Splice, Encode, TxOutBytes, HeaderCode;
    ghost var pre := Encode(HeaderCode(coin));
    size := PutVLQ(target, off, HeaderCode(coin));
    if coin.height > 0 {
      var z := PutVLQ(target, off + size, 0);
      SpliceSplice(old(target[..]), off, pre, Encode(0));
      size := size + z;
      pre := pre + Encode(0);
    } else {
      assert pre + [] == pre;
    }
    ghost var e := TxOutBytes(c, coin.amount, coin.pkScript);
    var n := PutCompressedTxOut(c, target, off + size, coin.amount, coin.pkScript);
    SpliceSplice(old(target[..]), off, pre, e);
    size := size + n;
  }

  /** Whole journal entries */

  predicate AllStorable(coins: seq<Coin>) {
    forall i :: 0 <= i < |coins| ==> Storable(coins[i])
  }

  // Last spent output first.
  function JournalBytes(c: Curve, coins: seq<Coin>): seq<byte>
    requires AllStorable(coins)
  {
    if coins == [] then [] else StxoBytes(c, coins[|coins| - 1]) + JournalBytes(c, coins[..|coins| - 1])
  }

  lemma JournalStep(c: Curve, coins: seq<Coin>, i: nat)
    requires AllStorable(coins) && i < |coins|
    ensures JournalBytes(c, coins[..i + 1]) == StxoBytes(c, coins[i]) + JournalBytes(c, coins[..i])
  {
    assert coins[..i + 1][..i] == coins[..i];
  }

  lemma {:induction false} JournalLength(c: Curve, coins: seq<Coin>)
    requires AllStorable(coins) && coins != []
    ensures |JournalBytes(c, coins)| > 0
  {
    hide Encode, TxOutBytes;
    TxOutNotEmpty(c, coins[|coins| - 1].amount, coins[|coins| - 1].pkScript);
  }

  // serializeSpendJournalEntry: size the buffer, then fill it from the last output back.
  method SerializeSpendJournalEntry(c: Curve, stxos: seq<Coin>) returns (serialized: seq<byte>)
    requires AllStorable(stxos)
    ensures serialized == JournalBytes(c, stxos)
  {
    hide StxoBytes, JournalBytes, Splice;
    if |stxos| == 0 {
      JournalNone(c, stxos);
      return [];
    }
    var size := 0;
    JournalNone(c, stxos);
    for i := 0 to |stxos|
      invariant size == |JournalBytes(c, stxos[..i])|
    {
      var n := SpentTxOutSerializeSize(c, stxos[i]);
      JournalStep(c, stxos, i);
      size := size + n;
    }
    assert stxos[..|stxos|] == stxos;
    var target := new byte[size](_ => 0);
    var offset := 0;
    ghost var done: seq<byte> := [];
    SpliceNone(target[..], 0, []);
    ghost var blank := target[..];
    assert Splice(blank, 0, done) == blank by { assert done[..0] == done; SpliceNone(blank, 0, done); }
    for i := |stxos| downto 0
      invariant offset == |done| && |blank| == size == target.Length
      invariant done + JournalBytes(c, stxos[..i]) == JournalBytes(c, stxos)
      invariant target[..] == Splice(blank, 0, done)
    {
      JournalStep(c, stxos, i);
      ghost var e := StxoBytes(c, stxos[i]);
      Associate(done, e, JournalBytes(c, stxos[..i]));
      var n := PutSpentTxOut(c, target, offset, stxos[i]);
      SpliceSplice(blank, 0, done, e);
      done := done + e;
      offset := offset + n;
    }
    assert done + [] == done;
    SpliceAll(blank, done);
    serialized := target[..];
  }

  lemma JournalNone(c: Curve, coins: seq<Coin>)
    ensures coins[..0] == [] && JournalBytes(c, []) == []
  {
  }

  datatype Entry = Entry(coins: seq<Coin>, size: nat) | CorruptEntry

  // Read n more outputs from offset on; those already read follow them in the list.
  function ReadMany(c: Curve, s: seq<byte>, n: nat, offset: nat, tail: seq<Coin>): Entry
    requires offset <= |s|
  {
    if n == 0 then Entry(tail, offset)
    else match DecodeStxo(c, s[offset..])
      case Read(coin, k) => if offset + k <= |s| then ReadMany(c, s, n - 1, offset + k, [coin] + tail) else CorruptEntry
      case Corrupt => CorruptEntry
  }

  function InputCount(txs: seq<Tx>): nat {
    if txs == [] then 0 else InputCount(txs[..|txs| - 1]) + |txs[|txs| - 1].ins|
  }

  function DecodeEntry(c: Curve, s: seq<byte>, n: nat): Entry {
    if s == [] then (if n != 0 then CorruptEntry else Entry([], 0)) else ReadMany(c, s, n, 0, [])
  }

  lemma {:induction false} DecodeStxoBound(c: Curve, s: seq<byte>)
    ensures DecodeStxo(c, s).Read? ==> DecodeStxo(c, s).size <= |s|
  {
    hide ReadValue, ReadSize, HeightOf, ScriptOf, ScriptSize, Decompress;
  }

  lemma ReadManyStep(c: Curve, s: seq<byte>, n: nat, offset: nat, tail: seq<Coin>)
    requires offset <= |s| && n > 0
    ensures match DecodeStxo(c, s[offset..])
      case Read(coin, k) => offset + k <= |s|
        && ReadMany(c, s, n, offset, tail) == ReadMany(c, s, n - 1, offset + k, [coin] + tail)
      case Corrupt => ReadMany(c, s, n, offset, tail) == CorruptEntry
  {
    hide DecodeStxo;
    DecodeStxoBound(c, s[offset..]);
  }

  // The inputs of one transaction, last first.
  method ReadInputs(c: Curve, serialized: seq<byte>, count: nat, ghost before: nat, offset: nat, stxos: seq<Coin>)
    returns (r: Entry)
    requires offset <= |serialized|
    ensures r.Entry? ==> r.size <= |serialized|
    ensures r.Entry? ==>
      ReadMany(c, serialized, before + count, offset, stxos) == ReadMany(c, serialized, before, r.size, r.coins)
    ensures r.CorruptEntry? ==> ReadMany(c, serialized, before + count, offset, stxos) == CorruptEntry
  {
    hide DecodeStxo, ReadMany;
    var coins, at: nat := stxos, offset;
    for i := count downto 0
      invariant at <= |serialized|
      invariant ReadMany(c, serialized, before + count, offset, stxos) == ReadMany(c, serialized, before + i, at, coins)
    {
      ReadManyStep(c, serialized, before + i + 1, at, coins);
      var read := DecodeStxo(c, serialized[at..]);
      if read.Corrupt? { return CorruptEntry; }
      coins, at := [read.coin] + coins, at + read.size;
    }
    r := Entry(coins, at);
  }

  // deserializeSpendJournalEntry: only the number of inputs matters, not how they are
  // grouped into transactions.
  method DeserializeSpendJournalEntry(c: Curve, serialized: seq<byte>, txns: seq<Tx>) returns (r: Option<seq<Coin>>)
    ensures match DecodeEntry(c, serialized, InputCount(txns))
      case Entry(coins, _) => r == Some(coins)
      case CorruptEntry => r == None
  {
    hide DecodeStxo, ReadMany;
    var numStxos := 0;
    for i := 0 to |txns|
      invariant numStxos == InputCount(txns[..i])
    {
      numStxos := numStxos + |txns[i].ins|;
      assert txns[..i + 1][..i] == txns[..i];
    }
    assert txns[..|txns|] == txns;
    if |serialized| == 0 {
      return if numStxos != 0 then None else Some([]);
    }
    var stxos: seq<Coin> := [];
    var offset: nat := 0;
    for t := |txns| downto 0
      invariant offset <= |serialized|
      invariant ReadMany(c, serialized, InputCount(txns), 0, [])
             == ReadMany(c, serialized, InputCount(txns[..t]), offset, stxos)
    {
      assert txns[..t + 1][..t] == txns[..t];
      var more := ReadInputs(c, serialized, |txns[t].ins|, InputCount(txns[..t]), offset, stxos);
      if more.CorruptEntry? { return None; }
      stxos, offset := more.coins, more.size;
    }
    ReadManyDone(c, serialized, offset, stxos);
    r := Some(stxos);
  }

  lemma ReadManyDone(c: Curve, s: seq<byte>, offset: nat, tail: seq<Coin>)
    requires offset <= |s|
    ensures ReadMany(c, s, 0, offset, tail) == Entry(tail, offset)
  {
  }

  // Reading what was written after pre gives the coins back and stops at its end.
  lemma {:induction false} ReadManyRoundTrip(c: Curve, coins: seq<Coin>, pre: seq<byte>, tail: seq<Coin>)
    requires RecoveryLaw(c) && AllStorable(coins)
    ensures ReadMany(c, pre + JournalBytes(c, coins), |coins|, |pre|, tail)
         == Entry(coins + tail, |pre + JournalBytes(c, coins)|)
    decreases |coins|
  {
    hide StxoBytes, DecodeStxo, RecoveryLaw;
    if coins == [] {
      assert coins + tail == tail && pre + [] == pre;
    } else {
      var n := |coins| - 1;
      var e, rest := StxoBytes(c, coins[n]), JournalBytes(c, coins[..n]);
      var s := pre + JournalBytes(c, coins);
      assert s[|pre|..] == e + rest;
      Associate(pre, e, rest);
      StxoRoundTrip(c, coins[n], rest);
      ReadManyRoundTrip(c, coins[..n], pre + e, [coins[n]] + tail);
      assert coins[..n] + ([coins[n]] + tail) == coins + tail;
    }
  }

  // The journal entry of any list of spent outputs reads back, and every byte is read.
  lemma JournalRoundTrip(c: Curve, coins: seq<Coin>)
    requires RecoveryLaw(c) && AllStorable(coins)
    ensures DecodeEntry(c, JournalBytes(c, coins), |coins|) == Entry(coins, |JournalBytes(c, coins)|)
  {
    hide StxoBytes, ReadMany, RecoveryLaw;
    if coins != [] {
      JournalLength(c, coins);
      ReadManyRoundTrip(c, coins, [], []);
      assert [] + JournalBytes(c, coins) == JournalBytes(c, coins);
      assert coins + [] == coins;
    }
  }

  /** What a connected block stores is what disconnecting it reads */

  lemma {:induction false} InputCountIsSpent(txs: seq<Tx>)
    requires txs != []
    ensures InputCount(txs[1..]) == CountSpent(txs)
  {
    var n := |txs| - 1;
    if n > 0 {
      InputCountIsSpent(txs[..n]);
      assert txs[1..][..n - 1] == txs[..n][1..];
    } else {
      assert txs[..n] == [];
    }
  }

  method StoreAndFetchSpends(c: Curve, ghost u: Utxos, b: Block, stxos: seq<Coin>) returns (fetched: Option<seq<Coin>>)
    requires RecoveryLaw(c) && b.txs != []
    requires Connectable(u, b.txs, b.height) && CoinBaseFirst(b.txs)
    requires stxos == Spends(u, b.txs, b.height) && AllStorable(stxos)
    ensures fetched == Some(Spends(u, b.txs, b.height))
  {
    hide RecoveryLaw, JournalBytes, DecodeEntry, AllStorable;
    var bytes := SerializeSpendJournalEntry(c, stxos);
    fetched := DeserializeSpendJournalEntry(c, bytes, b.txs[1..]);
    SpendsCount(u, b.txs, b.height);
    InputCountIsSpent(b.txs);
    JournalRoundTrip(c, stxos);
  }
}
