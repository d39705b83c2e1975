/** The utxo set as stored: a bucket of byte strings keyed by encoded outpoints.  Keys
    never collide, entries read back, and every bucket operation is the map operation it
    stands for. */
module UtxoStore {
  import opened Types
  import opened Arith
  import opened Vlq
  import opened Compress
  import opened Ledger
  import opened UtxoView
  import opened Journal

  const HASH_SIZE: nat := 32

  /** Keys */

  // The k low bytes of a hash.
  function Digits(h: nat, k: nat): (s: seq<byte>)
    ensures |s| == k
  {
    if k == 0 then [] else Digits(h / 256, k - 1) + [h % 256]
  }

  lemma {:induction false} DigitsInjective(g: nat, h: nat, k: nat)
    requires g < Pow256(k) && h < Pow256(k) && Digits(g, k) == Digits(h, k)
    ensures g == h
  {
    if k > 0 {
      var x, y := Digits(g / 256, k - 1), Digits(h / 256, k - 1);
      assert (x + [g % 256])[..k - 1] == x && (y + [h % 256])[..k - 1] == y;
      assert (x + [g % 256])[k - 1] == g % 256 && (y + [h % 256])[k - 1] == h % 256;
      DigitsInjective(g / 256, h / 256, k - 1);
    }
  }

  predicate HasKey(o: OutPoint) {
    o.hash < Pow256(HASH_SIZE) && o.index <= MAX_UINT32
  }

  function OutpointKey(o: OutPoint): seq<byte> {
    Digits(o.hash, HASH_SIZE) + Encode(o.index)
  }

  // A key determines its outpoint, and no key is a proper prefix of another.
  lemma KeysPrefixFree(o: OutPoint, p: OutPoint, t: seq<byte>)
    requires HasKey(o) && HasKey(p) && OutpointKey(o) == OutpointKey(p) + t
    ensures o == p && t == []
  {
    hide Digits, Encode, Pow256;
    var a, b := Digits(o.hash, HASH_SIZE), Digits(p.hash, HASH_SIZE);
    var x, y := Encode(o.index), Encode(p.index);
    assert (a + x)[..HASH_SIZE] == a && (b + y + t)[..HASH_SIZE] == b;
    assert (a + x)[HASH_SIZE..] == x && (b + y + t)[HASH_SIZE..] == y + t;
    DigitsInjective(o.hash, p.hash, HASH_SIZE);
    EncodePrefixFree(o.index, p.index, t);
  }

  lemma KeysInjective(o: OutPoint, p: OutPoint)
    requires HasKey(o) && HasKey(p) && OutpointKey(o) == OutpointKey(p)
    ensures o == p
  {
    hide OutpointKey;
    assert OutpointKey(p) + [] == OutpointKey(p);
    KeysPrefixFree(o, p, []);
  }

  // outpointKey fills a recycled buffer, whose old content must not show through.
  method FillOutpointKey(buffer: array<byte>, o: OutPoint) returns (size: nat)
    requires HasKey(o) && buffer.Length == HASH_SIZE + 5
    modifies buffer
    ensures size <= buffer.Length && buffer[..size] == OutpointKey(o)
  {
    hide Splice, Digits, Encode, Pow256;
    IndexShort(o.index);
    var n := SerializeSizeVLQ(o.index);
    size := HASH_SIZE + n;
    CopyBytes(buffer, 0, Digits(o.hash, HASH_SIZE));
    var m := PutVLQ(buffer, HASH_SIZE, o.index);
    SpliceSplice(old(buffer[..]), 0, Digits(o.hash, HASH_SIZE), Encode(o.index));
    SpliceHead(old(buffer[..]), OutpointKey(o));
  }

  lemma SpliceHead(s: seq<byte>, e: seq<byte>)
    requires |e| <= |s|
    ensures Splice(s, 0, e)[..|e|] == e
  {
  }

  lemma IndexShort(n: nat)
    requires n <= MAX_UINT32
    ensures |Encode(n)| <= 5
  {
    hide HighBytes;
    if n > 0x7f {
      HighBytesShort(n / 128 - 1, 4);
    }
  }

  /** Entries */

  function UtxoBytes(c: Curve, coin: Coin): seq<byte>
    requires Storable(coin)
  {
    Encode(HeaderCode(coin)) + TxOutBytes(c, coin.amount, coin.pkScript)
  }

  // deserializeUtxoEntry
  function DecodeUtxo(c: Curve, s: seq<byte>): Read {
    var code, n := ReadValue(s) % TWO_64, ReadSize(s);
    if n >= |s| then Corrupt else FinishRead(c, s, n, code)
  }

  lemma UtxoRoundTrip(c: Curve, coin: Coin)
    requires RecoveryLaw(c) && Storable(coin)
    ensures DecodeUtxo(c, UtxoBytes(c, coin)) == Read(coin, |UtxoBytes(c, coin)|)
  {
    hide RecoveryLaw, TxOutBytes, Encode, ReadValue, ReadSize, FinishRead, HeaderCode;
    var h, e := Encode(HeaderCode(coin)), TxOutBytes(c, coin.amount, coin.pkScript);
    TxOutNotEmpty(c, coin.amount, coin.pkScript);
    HeaderRoundTrip(coin);
    ReadEncode(HeaderCode(coin), e);
    FinishRoundTrip(c, h, coin, []);
    assert h + e + [] == h + e;
  }

  // serializeUtxoEntry: a spent entry has no serialisation.
  method SerializeUtxoEntry(c: Curve, e: UtxoEntry) returns (r: Option<seq<byte>>)
    requires Storable(e.coin)
    ensures r == if e.spent then None else Some(UtxoBytes(c, e.coin))
  {
    hide Splice, Encode, TxOutBytes, HeaderCode;
    if e.spent { return None; }
    var code := HeaderCode(e.coin);
    var n := SerializeSizeVLQ(code);
    var m := CompressedTxOutSize(c, e.coin.amount, e.coin.pkScript);
    var buffer := new byte[n + m](_ => 0);
    ghost var blank := buffer[..];
    var k := PutVLQ(buffer, 0, code);
    var l := PutCompressedTxOut(c, buffer, k, e.coin.amount, e.coin.pkScript);
    SpliceSplice(blank, 0, Encode(code), TxOutBytes(c, e.coin.amount, e.coin.pkScript));
    SpliceAll(blank, UtxoBytes(c, e.coin));
    r := Some(buffer[..]);
  }

  /** The bucket */

  type Bucket = map<seq<byte>, seq<byte>>

  // The bucket holds the entries of u, under their keys, and nothing else.
  ghost predicate Represents(c: Curve, b: Bucket, u: Utxos) {
    && (forall o :: o in u ==>
      HasKey(o) && Storable(u[o]) && OutpointKey(o) in b && b[OutpointKey(o)] == UtxoBytes(c, u[o]))
    && (forall k :: k in b ==> exists o :: o in u && OutpointKey(o) == k)
  }

  // dbFetchUtxoEntry
  function FetchUtxo(c: Curve, b: Bucket, o: OutPoint): Option<Read> {
    if OutpointKey(o) in b then Some(DecodeUtxo(c, b[OutpointKey(o)])) else None
  }

  lemma FetchFinds(c: Curve, b: Bucket, u: Utxos, o: OutPoint)
    requires RecoveryLaw(c) && Represents(c, b, u) && HasKey(o)
    ensures FetchUtxo(c, b, o).None? <==> o !in u
    ensures o in u ==> FetchUtxo(c, b, o).value.Read? && FetchUtxo(c, b, o).value.coin == u[o]
  {
    hide RecoveryLaw, OutpointKey, UtxoBytes, DecodeUtxo;
    if o in u {
      UtxoRoundTrip(c, u[o]);
    } else if OutpointKey(o) in b {
      var p :| p in u && OutpointKey(p) == OutpointKey(o);
      KeysInjective(o, p);
    }
  }

  lemma PutRepresents(c: Curve, b: Bucket, u: Utxos, o: OutPoint, coin: Coin)
    requires Represents(c, b, u) && HasKey(o) && Storable(coin)
    ensures Represents(c, b[OutpointKey(o) := UtxoBytes(c, coin)], u[o := coin])
  {
    hide OutpointKey, UtxoBytes, HasKey, Storable;
    var b', u' := b[OutpointKey(o) := UtxoBytes(c, coin)], u[o := coin];
    forall p | p in u'
      ensures OutpointKey(p) in b' && b'[OutpointKey(p)] == UtxoBytes(c, u'[p])
    {
      if p != o && OutpointKey(p) == OutpointKey(o) {
        KeysInjective(o, p);
      }
    }
    forall k | k in b' ensures exists p :: p in u' && OutpointKey(p) == k {
      if k == OutpointKey(o) {
        assert o in u';
      } else {
        var p :| p in u && OutpointKey(p) == k;
        assert p in u';
      }
    }
  }

  lemma DeleteRepresents(c: Curve, b: Bucket, u: Utxos, o: OutPoint)
    requires Represents(c, b, u) && HasKey(o)
    ensures Represents(c, b - {OutpointKey(o)}, u - {o})
  {
    hide OutpointKey, UtxoBytes, HasKey, Storable;
    var b', u' := b - {OutpointKey(o)}, u - {o};
    forall p | p in u' ensures OutpointKey(p) in b' {
      if OutpointKey(p) == OutpointKey(o) {
        KeysInjective(o, p);
      }
    }
    forall k | k in b' ensures exists p :: p in u' && OutpointKey(p) == k {
      var p :| p in u && OutpointKey(p) == k;
      assert p in u';
    }
  }

  predicate EntriesStorable(v: Entries) {
    forall o :: o in v ==> HasKey(o) && (v[o].Some? ==> Storable(v[o].value.coin))
  }

  // dbPutUtxoView on bytes leaves the bucket holding what the view over it meant.
  method PutUtxoViewBytes(c: Curve, v: Entries, b: Bucket, ghost u: Utxos) returns (b': Bucket)
    requires Represents(c, b, u) && Coherent(v, u) && EntriesStorable(v)
    ensures Represents(c, b', WrittenStore(v, u))
  {
    hide Represents, OutpointKey, UtxoBytes, HasKey, Storable, WrittenStore;
    b' := b;
    ghost var u' := u;
    var todo := v.Keys;
    while todo != {}
      invariant todo <= v.Keys && Represents(c, b', u')
      invariant forall o :: Get(u', o) == if o in v && o !in todo then Look(v, u, o) else Get(u, o)
      decreases |todo|
    {
      var o :| o in todo;
      assert CoherentAt(v[o], Get(u, o));
      todo := todo - {o};
      if v[o].Some? && v[o].value.modified {
        if v[o].value.spent {
          DeleteRepresents(c, b', u', o);
          b', u' := b' - {OutpointKey(o)}, u' - {o};
        } else {
          var serialized := SerializeUtxoEntry(c, v[o].value);
          PutRepresents(c, b', u', o, v[o].value.coin);
          b', u' := b'[OutpointKey(o) := serialized.value], u'[o := v[o].value.coin];
        }
      }
    }
    IsWrittenStore(v, u, u');
  }

  lemma IsWrittenStore(v: Entries, u: Utxos, u': Utxos)
    requires forall o :: Get(u', o) == Look(v, u, o)
    ensures u' == WrittenStore(v, u)
  {
    var w := WrittenStore(v, u);
    forall o ensures o in u' <==> o in w {
      assert Get(u', o) == Look(v, u, o);
    }
    forall o | o in u' ensures u'[o] == w[o] {
      assert Get(u', o) == Look(v, u, o);
    }
  }

  /** Seeking by hash */

  // Byte-wise comparison, the order of the bucket's cursor.
  predicate Before(a: seq<byte>, b: seq<byte>) {
    if b == [] then false
    else if a == [] then true
    else a[0] < b[0] || (a[0] == b[0] && Before(a[1..], b[1..]))
  }

  // Where a cursor seeking key stops: at the first key that is not before it.
  ghost predicate Seeks(b: Bucket, key: seq<byte>, r: Option<seq<byte>>) {
    match r
    case None => forall k :: k in b ==> Before(k, key)
    case Some(at) => at in b && !Before(at, key) && forall k :: k in b && !Before(k, key) ==> !Before(k, at)
  }

  lemma {:induction false} BeforeAfterPrefix(p: seq<byte>, a: seq<byte>, b: seq<byte>)
    ensures Before(p + a, p + b) <==> Before(a, b)
  {
    if p == [] {
      assert p + a == a && p + b == b;
    } else {
      assert (p + a)[1..] == p[1..] + a && (p + b)[1..] == p[1..] + b;
      BeforeAfterPrefix(p[1..], a, b);
    }
  }

  // Everything between two extensions of p extends p.
  lemma {:induction false} BetweenExtensions(p: seq<byte>, a: seq<byte>, b: seq<byte>, k: seq<byte>)
    requires !Before(k, p + a) && !Before(p + b, k) && a != []
    ensures |k| > |p| && k[..|p|] == p
  {
    if p == [] {
      assert p + a == a;
    } else {
      assert (p + a)[1..] == p[1..] + a && (p + b)[1..] == p[1..] + b;
      BetweenExtensions(p[1..], a, b, k[1..]);
      assert k[..|p|] == [k[0]] + k[1..][..|p| - 1];
    }
  }

  lemma ZeroFirst(n: nat)
    ensures !Before(Encode(n), Encode(0))
  {
    EncodeValue(n);
    assert Encode(0) == [0];
  }

  // dbFetchUtxoEntryByHash: the cursor stands on an entry of the hash exactly when the
  // set has one.
  lemma SeekFindsHash(c: Curve, b: Bucket, u: Utxos, hash: Hash, r: Option<seq<byte>>)
    requires Represents(c, b, u) && hash < Pow256(HASH_SIZE)
    requires Seeks(b, OutpointKey(OutPoint(hash, 0)), r)
    ensures (exists i :: OutPoint(hash, i) in u)
       <==> (r.Some? && |r.value| >= HASH_SIZE && r.value[..HASH_SIZE] == Digits(hash, HASH_SIZE))
  {
    hide Before, Digits, Encode, Pow256, UtxoBytes, Storable;
    var p := Digits(hash, HASH_SIZE);
    if i :| OutPoint(hash, i) in u {
      var k := OutpointKey(OutPoint(hash, i));
      assert k in b;
      ZeroFirst(i);
      BeforeAfterPrefix(p, Encode(i), Encode(0));
      assert r.Some? && !Before(k, r.value);
      BetweenExtensions(p, Encode(0), Encode(i), r.value);
    }
    if r.Some? && |r.value| >= HASH_SIZE && r.value[..HASH_SIZE] == p {
      var o :| o in u && OutpointKey(o) == r.value;
      assert OutpointKey(o)[..HASH_SIZE] == Digits(o.hash, HASH_SIZE);
      DigitsInjective(o.hash, hash, HASH_SIZE);
      assert OutPoint(hash, o.index) in u;
    }
  }

  // And the entry it stands on is one of that hash, read back whole.
  lemma SeekReadsEntry(c: Curve, b: Bucket, u: Utxos, hash: Hash, at: seq<byte>)
    requires RecoveryLaw(c) && Represents(c, b, u) && hash < Pow256(HASH_SIZE)
    requires at in b && |at| >= HASH_SIZE && at[..HASH_SIZE] == Digits(hash, HASH_SIZE)
    ensures DecodeUtxo(c, b[at]).Read?
    ensures exists o :: o in u && o.hash == hash && u[o] == DecodeUtxo(c, b[at]).coin
  {
    hide Digits, Encode, Pow256, UtxoBytes, RecoveryLaw, DecodeUtxo;
    var o :| o in u && OutpointKey(o) == at;
    assert OutpointKey(o)[..HASH_SIZE] == Digits(o.hash, HASH_SIZE);
    DigitsInjective(o.hash, hash, HASH_SIZE);
    UtxoRoundTrip(c, u[o]);
  }
}
