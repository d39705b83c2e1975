/** The utxo viewpoint: an overlay of cached, missing and spent entries over the stored
    utxo set.  Its meaning is "look in the view, else in the store"; every operation is
    proved against the replay functions of the ledger under that meaning. */
module UtxoView {
  import opened Types
  import opened Ledger

  // The packed flags of an entry: the coinbase bit sits in the coin.
  datatype UtxoEntry = UtxoEntry(coin: Coin, spent: bool, modified: bool)

  // The block weight limit of 4000000 over the least weight of an output, 36.
  const MAX_OUTPUTS_PER_BLOCK: nat := 111111

  // A key bound to None is an output that was asked for and does not exist.
  type Entries = map<OutPoint, Option<UtxoEntry>>

  function Spend(e: UtxoEntry): UtxoEntry {
    if e.spent then e else e.(spent := true, modified := true)
  }

  function NewEntry(c: Coin): UtxoEntry {
    UtxoEntry(c, false, true)
  }

  function FetchEntry(store: Utxos, o: OutPoint): Option<UtxoEntry> {
    if o in store then Some(UtxoEntry(store[o], false, false)) else None
  }

  function At(v: Entries, o: OutPoint): Option<Option<UtxoEntry>> {
    if o in v then Some(v[o]) else None
  }

  // A view entry overrides the store; a missing or spent one hides the output.
  function LookAt(e: Option<Option<UtxoEntry>>, c: Option<Coin>): Option<Coin> {
    if e.None? then c
    else if e.value.None? || e.value.value.spent then None
    else Some(e.value.value.coin)
  }

  function Look(v: Entries, store: Utxos, o: OutPoint): Option<Coin> {
    LookAt(At(v, o), Get(store, o))
  }

  predicate CoherentAt(e: Option<UtxoEntry>, c: Option<Coin>) {
    match e
    case None => c.None?
    case Some(x) => x.modified || (!x.spent && c == Some(x.coin))
  }

  // An entry without the modified flag says what the store says.
  predicate Coherent(v: Entries, store: Utxos) {
    forall o :: o in v ==> CoherentAt(v[o], Get(store, o))
  }

  // Off the exempt outpoints, the view over the store means the utxo set u.
  ghost predicate Means(v: Entries, store: Utxos, u: Utxos, exempt: set<OutPoint>) {
    forall o :: o !in exempt ==> Look(v, store, o) == Get(u, o)
  }

  lemma SameEntries(v: Entries, w: Entries)
    requires forall o :: At(v, o) == At(w, o)
    ensures v == w
  {
    assert forall o :: o in v <==> At(v, o).Some?;
    assert forall o :: o in w <==> At(w, o).Some?;
    assert forall o :: o in v ==> At(v, o) == Some(v[o]);
    assert forall o :: o in w ==> At(w, o) == Some(w[o]);
  }

  /** Entry-level effect of each operation, in closed form */

  function FreshEntries(tx: Tx, height: int, upTo: nat): Entries {
    map o | o in CreatedSet(tx) && o.index < upTo :: Some(NewEntry(CoinOf(tx, height, o)))
  }

  lemma FreshEntriesAt(v: Entries, tx: Tx, height: int, upTo: nat, o: OutPoint)
    ensures At(v + FreshEntries(tx, height, upTo), o)
         == if Creates(tx, o) && o.index < upTo then Some(Some(NewEntry(CoinOf(tx, height, o)))) else At(v, o)
  {
    assert o in CreatedSet(tx) <==> Creates(tx, o);
  }

  lemma FreshStep(v: Entries, tx: Tx, height: int, i: nat)
    requires i < |tx.outs|
    ensures v + FreshEntries(tx, height, i + 1)
         == if IsUnspendable(tx.outs[i].pkScript) then v + FreshEntries(tx, height, i)
            else (v + FreshEntries(tx, height, i))
                 [OutPoint(tx.hash, i) := Some(NewEntry(CoinOf(tx, height, OutPoint(tx.hash, i))))]
  {
    var o := OutPoint(tx.hash, i);
    var a, b := v + FreshEntries(tx, height, i), v + FreshEntries(tx, height, i + 1);
    var c := if Creates(tx, o) then a[o := Some(NewEntry(CoinOf(tx, height, o)))] else a;
    forall p
      ensures At(b, p) == At(c, p)
    {
      FreshEntriesAt(v, tx, height, i, p);
      FreshEntriesAt(v, tx, height, i + 1, p);
    }
    SameEntries(b, c);
  }

  function SpendEntries(v: Entries, ins: seq<OutPoint>): Entries {
    map o | o in v :: if o in ins && v[o].Some? then Some(Spend(v[o].value)) else v[o]
  }

  predicate AllPresent(v: Entries, ins: seq<OutPoint>) {
    forall o :: o in ins ==> o in v && v[o].Some?
  }

  function ConnectEntries(v: Entries, tx: Tx, height: int): Entries {
    (if IsCoinBase(tx) then v else SpendEntries(v, tx.ins)) + FreshEntries(tx, height, |tx.outs|)
  }

  function EntryCoins(v: Entries, ins: seq<OutPoint>): seq<Coin>
    requires AllPresent(v, ins)
  {
    seq(|ins|, i requires 0 <= i < |ins| => v[ins[i]].value.coin)
  }

  function GoneEntry(v: Entries, tx: Tx, first: bool, height: int, o: OutPoint): UtxoEntry
    requires Creates(tx, o)
  {
    if o in v && v[o].Some? then Spend(v[o].value)
    else UtxoEntry(Coin(tx.outs[o.index].value, tx.outs[o.index].pkScript, height, first), true, true)
  }

  function GoneEntries(v: Entries, tx: Tx, first: bool, height: int, upTo: nat): Entries {
    v + map o | o in CreatedSet(tx) && o.index < upTo :: Some(GoneEntry(v, tx, first, height, o))
  }

  lemma GoneStep(v: Entries, tx: Tx, first: bool, height: int, i: nat)
    requires i < |tx.outs|
    ensures GoneEntries(v, tx, first, height, i + 1)
         == if IsUnspendable(tx.outs[i].pkScript) then GoneEntries(v, tx, first, height, i)
            else GoneEntries(v, tx, first, height, i)
                 [OutPoint(tx.hash, i) := Some(GoneEntry(v, tx, first, height, OutPoint(tx.hash, i)))]
    ensures At(GoneEntries(v, tx, first, height, i), OutPoint(tx.hash, i)) == At(v, OutPoint(tx.hash, i))
  {
    var o := OutPoint(tx.hash, i);
    var a, b := GoneEntries(v, tx, first, height, i), GoneEntries(v, tx, first, height, i + 1);
    GoneEntriesAt(v, tx, first, height, i, o);
    var c := if Creates(tx, o) then a[o := Some(GoneEntry(v, tx, first, height, o))] else a;
    forall p
      ensures At(b, p) == At(c, p)
    {
      GoneEntriesAt(v, tx, first, height, i, p);
      GoneEntriesAt(v, tx, first, height, i + 1, p);
    }
    SameEntries(b, c);
  }

  function RestoreEntries(v: Entries, ins: seq<OutPoint>, coins: seq<Coin>): Entries
    requires |ins| == |coins|
    decreases |ins|
  {
    if ins == [] then v
    else
      var n := |ins| - 1;
      RestoreEntries(v[ins[n] := Some(NewEntry(coins[n]))], ins[..n], coins[..n])
  }

  function UndoTxEntries(v: Entries, tx: Tx, first: bool, height: int, coins: seq<Coin>): Entries
    requires !first ==> |coins| == |tx.ins|
  {
    var gone := GoneEntries(v, tx, first, height, |tx.outs|);
    if first then gone else RestoreEntries(gone, tx.ins, coins)
  }

  function UndoEntries(v: Entries, txs: seq<Tx>, height: int, coins: seq<Coin>): Entries
    requires |coins| == CountSpent(txs)
    decreases |txs|
  {
    if txs == [] then v
    else
      var n := |txs| - 1;
      var cut := CountSpent(txs[..n]);
      UndoEntries(UndoTxEntries(v, txs[n], n == 0, height, coins[cut..]), txs[..n], height, coins[..cut])
  }

  /** Spent coins of the old journal format, which carry height 0 */

  // The entries an undo leaves, and whether it ran to its end.
  datatype Undoing = Undoing(entries: Entries, ok: bool)

  // The first entry of the view among the outputs of the hash, from an index on.
  function FirstEntry(v: Entries, h: Hash, i: nat): Option<UtxoEntry>
    decreases MAX_OUTPUTS_PER_BLOCK - i
  {
    if i >= MAX_OUTPUTS_PER_BLOCK then None
    else if OutPoint(h, i) in v && v[OutPoint(h, i)].Some? then v[OutPoint(h, i)]
    else FirstEntry(v, h, i + 1)
  }

  // fetchEntryByHash; seek is the search of the store by hash.
  function CoinByHash(v: Entries, h: Hash, seek: Hash -> Option<Coin>): Option<Coin> {
    var e := FirstEntry(v, h, 0);
    if e.Some? then Some(e.value.coin) else seek(h)
  }

  // The empty entry that stands in for a missing one until it is filled.
  function Holding(v: Entries, o: OutPoint): Entries {
    if o in v && v[o].Some? then v else v[o := Some(UtxoEntry(Coin(0, [], 0, false), false, false))]
  }

  // The coin to restore; h is the hash of the transaction that spent it.
  function Completed(v: Entries, h: Hash, c: Coin, seek: Hash -> Option<Coin>): Option<Coin> {
    if c.height != 0 then Some(c)
    else
      var f := CoinByHash(v, h, seek);
      if f.None? then None else Some(c.(height := f.value.height, coinBase := f.value.coinBase))
  }

  function ResurrectIns(v: Entries, h: Hash, ins: seq<OutPoint>, coins: seq<Coin>, seek: Hash -> Option<Coin>): Undoing
    requires |ins| == |coins|
    decreases |ins|
  {
    if ins == [] then Undoing(v, true)
    else
      var n := |ins| - 1;
      var held := Holding(v, ins[n]);
      var c := Completed(held, h, coins[n], seek);
      if c.None? then Undoing(held, false)
      else ResurrectIns(held[ins[n] := Some(NewEntry(c.value))], h, ins[..n], coins[..n], seek)
  }

  function ResurrectTx(v: Entries, tx: Tx, first: bool, height: int, coins: seq<Coin>,
                       seek: Hash -> Option<Coin>): Undoing
    requires !first ==> |coins| == |tx.ins|
  {
    var gone := GoneEntries(v, tx, first, height, |tx.outs|);
    if first then Undoing(gone, true) else ResurrectIns(gone, tx.hash, tx.ins, coins, seek)
  }

  function ResurrectTxs(v: Entries, txs: seq<Tx>, height: int, coins: seq<Coin>, seek: Hash -> Option<Coin>): Undoing
    requires |coins| == CountSpent(txs)
    decreases |txs|
  {
    if txs == [] then Undoing(v, true)
    else
      var n := |txs| - 1;
      var cut := CountSpent(txs[..n]);
      var r := ResurrectTx(v, txs[n], n == 0, height, coins[cut..], seek);
      if !r.ok then r else ResurrectTxs(r.entries, txs[..n], height, coins[..cut], seek)
  }

  lemma ResurrectNone(v: Entries, b: Block, coins: seq<Coin>, seek: Hash -> Option<Coin>)
    ensures CountSpent(b.txs[..0]) == 0
    ensures ResurrectTxs(v, b.txs[..0], b.height, coins[..0], seek) == Undoing(v, true)
  {
  }

  // Unfolds the last transaction of the undo.
  lemma ResurrectStep(v: Entries, b: Block, n: nat, coins: seq<Coin>, seek: Hash -> Option<Coin>)
    requires 0 < n <= |b.txs| && |coins| == CountSpent(b.txs[..n])
    ensures CountSpent(b.txs[..n]) == CountSpent(b.txs[..n - 1]) + if n == 1 then 0 else |b.txs[n - 1].ins|
    ensures var cut := CountSpent(b.txs[..n - 1]);
      var r := ResurrectTx(v, b.txs[n - 1], n == 1, b.height, coins[cut..], seek);
      ResurrectTxs(v, b.txs[..n], b.height, coins, seek)
      == if !r.ok then r else ResurrectTxs(r.entries, b.txs[..n - 1], b.height, coins[..cut], seek)
  {
    TakeTake(b.txs, n - 1, n);
  }

  lemma {:induction false} ResurrectRecentIns(v: Entries, h: Hash, ins: seq<OutPoint>, coins: seq<Coin>,
                                              seek: Hash -> Option<Coin>)
    requires |ins| == |coins|
    requires forall c :: c in coins ==> c.height != 0
    ensures ResurrectIns(v, h, ins, coins, seek) == Undoing(RestoreEntries(v, ins, coins), true)
    decreases |ins|
  {
    if ins != [] {
      var n := |ins| - 1;
      var e := Some(NewEntry(coins[n]));
      assert Holding(v, ins[n])[ins[n] := e] == v[ins[n] := e];
      ResurrectRecentIns(v[ins[n] := e], h, ins[..n], coins[..n], seek);
    }
  }

  /** Coins of the present format are restored as they are, and nothing is searched for. */
  lemma {:induction false} ResurrectRecent(v: Entries, txs: seq<Tx>, height: int, coins: seq<Coin>,
                                           seek: Hash -> Option<Coin>)
    requires |coins| == CountSpent(txs)
    requires forall c :: c in coins ==> c.height != 0
    ensures ResurrectTxs(v, txs, height, coins, seek) == Undoing(UndoEntries(v, txs, height, coins), true)
    decreases |txs|
  {
    hide GoneEntries, RestoreEntries, ResurrectIns;
    if txs != [] {
      var n := |txs| - 1;
      var cut := CountSpent(txs[..n]);
      if n > 0 {
        ResurrectRecentIns(GoneEntries(v, txs[n], false, height, |txs[n].outs|), txs[n].hash, txs[n].ins, coins[cut..],
                           seek);
      }
      ResurrectRecent(UndoTxEntries(v, txs[n], n == 0, height, coins[cut..]), txs[..n], height, coins[..cut], seek);
    }
  }

  /** What those effects mean */

  lemma ConnectEntriesAt(v: Entries, tx: Tx, height: int, o: OutPoint)
    ensures At(ConnectEntries(v, tx, height), o)
         == if Creates(tx, o) then Some(Some(NewEntry(CoinOf(tx, height, o))))
            else if !IsCoinBase(tx) && o in v && o in tx.ins && v[o].Some? then Some(Some(Spend(v[o].value)))
            else At(v, o)
  {
    assert o in CreatedSet(tx) <==> Creates(tx, o);
  }

  lemma ApplyTxAt(u: Utxos, tx: Tx, height: int, o: OutPoint)
    ensures Get(ApplyTx(u, tx, height), o)
         == if Creates(tx, o) then Some(CoinOf(tx, height, o))
            else if !IsCoinBase(tx) && o in tx.ins then None
            else Get(u, o)
  {
    assert o in CreatedSet(tx) <==> Creates(tx, o);
  }

  lemma ConnectEntriesMeans(v: Entries, store: Utxos, u: Utxos, exempt: set<OutPoint>, tx: Tx, height: int)
    requires Coherent(v, store) && Means(v, store, u, exempt)
    requires IsCoinBase(tx) || (AllPresent(v, tx.ins) && forall o :: o in tx.ins ==> o !in exempt)
    ensures Coherent(ConnectEntries(v, tx, height), store)
    ensures Means(ConnectEntries(v, tx, height), store, ApplyTx(u, tx, height), exempt - CreatedSet(tx))
  {
    var w := ConnectEntries(v, tx, height);
    forall o | o !in exempt - CreatedSet(tx)
      ensures Look(w, store, o) == Get(ApplyTx(u, tx, height), o)
    {
      ConnectEntriesAt(v, tx, height, o);
      ApplyTxAt(u, tx, height, o);
      assert o !in exempt ==> Look(v, store, o) == Get(u, o);
    }
    forall o | o in w
      ensures CoherentAt(w[o], Get(store, o))
    {
      ConnectEntriesAt(v, tx, height, o);
      assert At(w, o) == Some(w[o]);
      assert o in v ==> CoherentAt(v[o], Get(store, o));
    }
  }

  lemma GoneEntriesAt(v: Entries, tx: Tx, first: bool, height: int, upTo: nat, o: OutPoint)
    ensures At(GoneEntries(v, tx, first, height, upTo), o)
         == if Creates(tx, o) && o.index < upTo then Some(Some(GoneEntry(v, tx, first, height, o))) else At(v, o)
  {
    assert o in CreatedSet(tx) <==> Creates(tx, o);
  }

  lemma GoneEntriesMeans(v: Entries, store: Utxos, u: Utxos, exempt: set<OutPoint>,
                         tx: Tx, first: bool, height: int)
    requires Coherent(v, store) && Means(v, store, u, exempt)
    ensures Coherent(GoneEntries(v, tx, first, height, |tx.outs|), store)
    ensures Means(GoneEntries(v, tx, first, height, |tx.outs|), store, u - CreatedSet(tx), exempt - CreatedSet(tx))
  {
    var w := GoneEntries(v, tx, first, height, |tx.outs|);
    forall o | o !in exempt - CreatedSet(tx)
      ensures Look(w, store, o) == Get(u - CreatedSet(tx), o)
    {
      GoneEntriesAt(v, tx, first, height, |tx.outs|, o);
      assert o !in exempt ==> Look(v, store, o) == Get(u, o);
    }
    forall o | o in w
      ensures CoherentAt(w[o], Get(store, o))
    {
      GoneEntriesAt(v, tx, first, height, |tx.outs|, o);
      assert At(w, o) == Some(w[o]);
      assert o in v ==> CoherentAt(v[o], Get(store, o));
    }
  }

  lemma {:induction false} RestoreEntriesMeans(v: Entries, store: Utxos, u: Utxos, exempt: set<OutPoint>,
                                               ins: seq<OutPoint>, coins: seq<Coin>)
    requires |ins| == |coins|
    requires Coherent(v, store) && Means(v, store, u, exempt)
    ensures Coherent(RestoreEntries(v, ins, coins), store)
    ensures Means(RestoreEntries(v, ins, coins), store, Restore(u, ins, coins), exempt)
    decreases |ins|
  {
    if ins != [] {
      var n := |ins| - 1;
      var w := v[ins[n] := Some(NewEntry(coins[n]))];
      var u' := u[ins[n] := coins[n]];
      forall o | o !in exempt
        ensures Look(w, store, o) == Get(u', o)
      {
        assert Look(v, store, o) == Get(u, o);
      }
      RestoreEntriesMeans(w, store, u', exempt, ins[..n], coins[..n]);
    }
  }

  // A view that is right except on outputs of the block becomes right everywhere once
  // the block is undone.
  lemma {:induction false} UndoEntriesMeans(v: Entries, store: Utxos, u: Utxos,
                                            txs: seq<Tx>, height: int, coins: seq<Coin>)
    requires |coins| == CountSpent(txs)
    requires Coherent(v, store) && Means(v, store, u, AllCreated(txs))
    ensures Coherent(UndoEntries(v, txs, height, coins), store)
    ensures Means(UndoEntries(v, txs, height, coins), store, UndoTxs(u, txs, coins), {})
    decreases |txs|
  {
    if txs != [] {
      var n := |txs| - 1;
      var cut := CountSpent(txs[..n]);
      var first := n == 0;
      GoneEntriesMeans(v, store, u, AllCreated(txs), txs[n], first, height);
      var gone := GoneEntries(v, txs[n], first, height, |txs[n].outs|);
      var u1 := u - CreatedSet(txs[n]);
      assert Means(gone, store, u1, AllCreated(txs[..n]));
      if !first {
        RestoreEntriesMeans(gone, store, u1, AllCreated(txs[..n]), txs[n].ins, coins[cut..]);
      }
      UndoEntriesMeans(UndoTxEntries(v, txs[n], first, height, coins[cut..]), store,
                       UndoTx(u, txs[n], first, coins[cut..]), txs[..n], height, coins[..cut]);
    }
  }

  /** In the middle of connecting a block: the first i transactions are in, the outputs
      of the rest may already be present because an input refers to them. */
  ghost predicate MidBlock(v: Entries, store: Utxos, u: Utxos, txs: seq<Tx>, i: nat, height: int)
    requires i <= |txs|
  {
    && Coherent(v, store)
    && Means(v, store, ApplyTxs(u, txs[..i], height), AllCreated(txs) - AllCreated(txs[..i]))
    && Covered(v, txs)
    && AllCreated(txs[..i]) <= v.Keys
  }

  // Inputs from outside the block are keys of the view.
  predicate Covered(v: Entries, txs: seq<Tx>) {
    forall k, o :: 0 < k < |txs| && o in txs[k].ins && o.hash !in TxIds(txs) ==> o in v
  }

  lemma {:induction false} AllCreatedAt(txs: seq<Tx>, i: nat, o: OutPoint)
    requires i <= |txs|
    requires o in AllCreated(txs) && o !in AllCreated(txs[..i])
    ensures exists j :: i <= j < |txs| && o.hash == txs[j].hash
  {
    var n := |txs| - 1;
    assert txs[..|txs|] == txs;
    if o !in CreatedSet(txs[n]) {
      assert txs[..n][..i] == txs[..i];
      AllCreatedAt(txs[..n], i, o);
      var j :| i <= j < n && o.hash == txs[..n][j].hash;
      assert o.hash == txs[j].hash;
    }
  }

  // A reference into the block names an output created before, or one that never will be.
  lemma MidBlockKnown(txs: seq<Tx>, i: nat, o: OutPoint)
    requires RefersBackwards(txs) && 0 < i < |txs| && o in txs[i].ins
    ensures o !in AllCreated(txs) - AllCreated(txs[..i])
  {
    if o in AllCreated(txs) && o !in AllCreated(txs[..i]) {
      AllCreatedAt(txs, i, o);
    }
  }

  // At its turn a transaction of a well-ordered block finds in the view exactly the
  // inputs that replay says are unspent, with the same coins.
  lemma MidBlockInput(v: Entries, store: Utxos, u: Utxos, b: Block, i: nat, o: OutPoint)
    requires WellOrdered(b) && Identified(u, b.txs)
    requires 0 < i < |b.txs| && o in b.txs[i].ins
    requires MidBlock(v, store, u, b.txs, i, b.height)
    ensures o !in AllCreated(b.txs) - AllCreated(b.txs[..i])
    ensures Get(ApplyTxs(u, b.txs[..i], b.height), o)
         == if o in v && v[o].Some? && !v[o].value.spent then Some(v[o].value.coin) else None
  {
    var txs := b.txs;
    var w := ApplyTxs(u, txs[..i], b.height);
    MidBlockKnown(txs, i, o);
    assert Look(v, store, o) == Get(w, o);
    if o in w {
      ReplayKeys(u, txs[..i], b.height);
    }
  }

  lemma {:induction false} AllCreatedPrefix(txs: seq<Tx>, i: nat)
    requires i <= |txs|
    ensures AllCreated(txs[..i]) <= AllCreated(txs)
  {
    if i == |txs| {
      assert txs[..i] == txs;
    } else {
      var n := |txs| - 1;
      assert txs[..n][..i] == txs[..i];
      AllCreatedPrefix(txs[..n], i);
    }
  }

  lemma ConnectKeys(v: Entries, tx: Tx, height: int)
    ensures ConnectEntries(v, tx, height).Keys == v.Keys + CreatedSet(tx)
  {
    var w := ConnectEntries(v, tx, height);
    forall o
      ensures o in w.Keys <==> o in v.Keys + CreatedSet(tx)
    {
    }
  }

  lemma MidBlockInputs(v: Entries, store: Utxos, u: Utxos, b: Block, i: nat)
    requires WellOrdered(b) && Identified(u, b.txs)
    requires i < |b.txs| && !IsCoinBase(b.txs[i])
    requires MidBlock(v, store, u, b.txs, i, b.height)
    requires Spendable(ApplyTxs(u, b.txs[..i], b.height), b.txs[i])
    ensures AllPresent(v, b.txs[i].ins)
    ensures EntryCoins(v, b.txs[i].ins) == TxSpends(ApplyTxs(u, b.txs[..i], b.height), b.txs[i])
    ensures forall o :: o in b.txs[i].ins ==> o !in AllCreated(b.txs) - AllCreated(b.txs[..i])
  {
    var w := ApplyTxs(u, b.txs[..i], b.height);
    forall o | o in b.txs[i].ins
      ensures o in v && v[o].Some? && v[o].value.coin == w[o]
      ensures o !in AllCreated(b.txs) - AllCreated(b.txs[..i])
    {
      MidBlockInput(v, store, u, b, i, o);
      assert Get(w, o) == Some(w[o]);
    }
  }

  lemma MidBlockAdvance(v: Entries, store: Utxos, u: Utxos, b: Block, i: nat)
    requires i < |b.txs|
    requires MidBlock(v, store, u, b.txs, i, b.height)
    requires IsCoinBase(b.txs[i]) ||
             (AllPresent(v, b.txs[i].ins) &&
              forall o :: o in b.txs[i].ins ==> o !in AllCreated(b.txs) - AllCreated(b.txs[..i]))
    ensures MidBlock(ConnectEntries(v, b.txs[i], b.height), store, u, b.txs, i + 1, b.height)
  {
    var txs := b.txs;
    var exempt := AllCreated(txs) - AllCreated(txs[..i]);
    ConnectEntriesMeans(v, store, ApplyTxs(u, txs[..i], b.height), exempt, txs[i], b.height);
    ConnectKeys(v, txs[i], b.height);
    assert txs[..i + 1][..i] == txs[..i];
    assert exempt - CreatedSet(txs[i]) == AllCreated(txs) - AllCreated(txs[..i + 1]);
  }

  // Connecting one more transaction of a block that replays.
  lemma MidBlockStep(v: Entries, store: Utxos, u: Utxos, b: Block, i: nat)
    requires WellOrdered(b) && Identified(u, b.txs)
    requires i < |b.txs|
    requires MidBlock(v, store, u, b.txs, i, b.height)
    requires Spendable(ApplyTxs(u, b.txs[..i], b.height), b.txs[i])
    ensures IsCoinBase(b.txs[i]) || AllPresent(v, b.txs[i].ins)
    ensures TxSpends(ApplyTxs(u, b.txs[..i], b.height), b.txs[i])
         == if IsCoinBase(b.txs[i]) then [] else EntryCoins(v, b.txs[i].ins)
    ensures MidBlock(ConnectEntries(v, b.txs[i], b.height), store, u, b.txs, i + 1, b.height)
  {
    if !IsCoinBase(b.txs[i]) {
      MidBlockInputs(v, store, u, b, i);
    }
    MidBlockAdvance(v, store, u, b, i);
  }

  lemma SpendsStep(u: Utxos, txs: seq<Tx>, i: nat, height: int)
    requires i < |txs| && Connectable(u, txs, height)
    ensures Connectable(u, txs[..i], height) && Connectable(u, txs[..i + 1], height)
    ensures Spendable(ApplyTxs(u, txs[..i], height), txs[i])
    ensures Spends(u, txs[..i + 1], height)
         == Spends(u, txs[..i], height) + TxSpends(ApplyTxs(u, txs[..i], height), txs[i])
  {
    ConnectablePrefix(u, txs, i + 1, height);
    assert txs[..i + 1][..i] == txs[..i];
  }

  lemma MidBlockDone(v: Entries, store: Utxos, u: Utxos, b: Block)
    requires MidBlock(v, store, u, b.txs, |b.txs|, b.height)
    ensures Coherent(v, store) && Means(v, store, ApplyBlock(u, b), {})
  {
    assert b.txs[..|b.txs|] == b.txs;
    assert AllCreated(b.txs) - AllCreated(b.txs) == {};
  }

  /** Connecting a whole block, entry by entry */

  datatype Connected = Connected(entries: Entries, coins: seq<Coin>)

  // None when some input has no entry at its turn.
  function ConnectAll(v: Entries, txs: seq<Tx>, height: int): Option<Connected> {
    if txs == [] then Some(Connected(v, []))
    else
      var tx, before := txs[|txs| - 1], ConnectAll(v, txs[..|txs| - 1], height);
      if before.None? then None
      else if IsCoinBase(tx) then Some(Connected(ConnectEntries(before.value.entries, tx, height),
        before.value.coins + []))
      else if AllPresent(before.value.entries, tx.ins) then
        Some(Connected(ConnectEntries(before.value.entries, tx, height),
                       before.value.coins + EntryCoins(before.value.entries, tx.ins)))
      else None
  }

  lemma ConnectAllNone(v: Entries, txs: seq<Tx>, height: int)
    ensures ConnectAll(v, txs[..0], height) == Some(Connected(v, []))
  {
  }

  // A refusal is final, and otherwise the next transaction decides.
  lemma {:induction false} ConnectAllNext(v: Entries, txs: seq<Tx>, i: nat, height: int)
    requires i < |txs| && ConnectAll(v, txs[..i], height).Some?
    ensures var before := ConnectAll(v, txs[..i], height).value;
      if IsCoinBase(txs[i]) then
        ConnectAll(v, txs[..i + 1], height)
        == Some(Connected(ConnectEntries(before.entries, txs[i], height), before.coins + []))
      else if AllPresent(before.entries, txs[i].ins) then
        ConnectAll(v, txs[..i + 1], height)
        == Some(Connected(ConnectEntries(before.entries, txs[i], height),
                          before.coins + EntryCoins(before.entries, txs[i].ins)))
      else ConnectAll(v, txs, height).None?
  {
    assert txs[..i + 1][..i] == txs[..i];
    if ConnectAll(v, txs[..i + 1], height).None? {
      ConnectAllStops(v, txs, i + 1, height);
    }
  }

  lemma {:induction false} ConnectAllStops(v: Entries, txs: seq<Tx>, i: nat, height: int)
    requires i <= |txs| && ConnectAll(v, txs[..i], height).None?
    ensures ConnectAll(v, txs, height).None?
  {
    if i == |txs| {
      assert txs[..i] == txs;
    } else {
      assert txs[..|txs| - 1][..i] == txs[..i];
      ConnectAllStops(v, txs[..|txs| - 1], i, height);
    }
  }

  /** On a prepared view a block that replays on u always connects; the view then means
      the replayed set, and the recorded coins are the block's spends. */
  lemma ConnectAllMeans(v: Entries, store: Utxos, u: Utxos, b: Block)
    requires WellOrdered(b) && Identified(u, b.txs) && Connectable(u, b.txs, b.height)
    requires MidBlock(v, store, u, b.txs, 0, b.height)
    ensures ConnectAll(v, b.txs, b.height).Some?
    ensures var c := ConnectAll(v, b.txs, b.height).value;
      && Coherent(c.entries, store) && Means(c.entries, store, ApplyBlock(u, b), {})
      && c.coins == Spends(u, b.txs, b.height)
  {
    hide MidBlock, ConnectAll, Spends, WellOrdered, Identified, Connectable;
    ConnectAllUpTo(v, store, u, b, |b.txs|);
    TakeAll(b.txs);
    MidBlockDone(ConnectAll(v, b.txs, b.height).value.entries, store, u, b);
  }

  lemma {:induction false} ConnectAllUpTo(v: Entries, store: Utxos, u: Utxos, b: Block, i: nat)
    requires WellOrdered(b) && Identified(u, b.txs) && Connectable(u, b.txs, b.height) && i <= |b.txs|
    requires MidBlock(v, store, u, b.txs, 0, b.height)
    ensures ConnectAll(v, b.txs[..i], b.height).Some? && Connectable(u, b.txs[..i], b.height)
    ensures var c := ConnectAll(v, b.txs[..i], b.height).value;
      MidBlock(c.entries, store, u, b.txs, i, b.height) && c.coins == Spends(u, b.txs[..i], b.height)
  {
    hide MidBlock, ConnectAll, ConnectEntries, EntryCoins, AllPresent, WellOrdered, Identified, TxSpends, ApplyTxs;
    if i == 0 {
      ConnectAllNone(v, b.txs, b.height);
    } else {
      ConnectAllUpTo(v, store, u, b, i - 1);
      var c := ConnectAll(v, b.txs[..i - 1], b.height).value;
      SpendsStep(u, b.txs, i - 1, b.height);
      MidBlockStep(c.entries, store, u, b, i - 1);
      ConnectAllNext(v, b.txs, i - 1, b.height);
    }
  }

  /** Loading the inputs of a block, entry by entry */

  // What has been put into the view, and what is to be read from the store at the end.
  datatype Fetching = Fetching(entries: Entries, needed: set<OutPoint>)

  // The place of the transaction of this id in the block.
  function Position(txs: seq<Tx>, h: Hash): (r: Option<nat>)
    ensures r.Some? ==> r.value < |txs| && txs[r.value].hash == h
  {
    if txs == [] then None
    else if txs[|txs| - 1].hash == h then Some(|txs| - 1)
    else Position(txs[..|txs| - 1], h)
  }

  // An input of transaction i: the outputs of an earlier transaction of the block go in
  // right away, and an outpoint the view does not know is needed from the store.
  function FetchStep(f: Fetching, txs: seq<Tx>, height: int, i: nat, o: OutPoint): Fetching {
    match Position(txs, o.hash)
    case Some(k) =>
      if i - 1 >= k then f.(entries := f.entries + FreshEntries(txs[k], height, |txs[k].outs|))
      else FetchUnknown(f, o)
    case None => FetchUnknown(f, o)
  }

  function FetchUnknown(f: Fetching, o: OutPoint): Fetching {
    if o in f.entries then f else f.(needed := f.needed + {o})
  }

  function FetchIns(f: Fetching, txs: seq<Tx>, height: int, i: nat, ins: seq<OutPoint>): Fetching {
    if ins == [] then f
    else FetchStep(FetchIns(f, txs, height, i, ins[..|ins| - 1]), txs, height, i, ins[|ins| - 1])
  }

  // The first n transactions; the coinbase is skipped.
  function FetchTxs(f: Fetching, txs: seq<Tx>, height: int, n: nat): Fetching
    requires n <= |txs|
  {
    if n <= 1 then f else FetchIns(FetchTxs(f, txs, height, n - 1), txs, height, n - 1, txs[n - 1].ins)
  }

  function FetchedView(v: Entries, store: Utxos, b: Block): Entries {
    var f := FetchTxs(Fetching(v, {}), b.txs, b.height, |b.txs|);
    f.entries + FetchedEntries(store, f.needed)
  }

  lemma PositionNone(txs: seq<Tx>)
    ensures forall h :: Position(txs[..0], h) == None
  {
  }

  lemma PositionNext(txs: seq<Tx>, i: nat, h: Hash)
    requires i < |txs|
    ensures Position(txs[..i + 1], h) == if txs[i].hash == h then Some(i) else Position(txs[..i], h)
  {
    assert txs[..i + 1][..i] == txs[..i];
  }

  lemma FetchInsNext(f: Fetching, txs: seq<Tx>, height: int, i: nat, ins: seq<OutPoint>, j: nat)
    requires j < |ins|
    ensures FetchIns(f, txs, height, i, ins[..j + 1])
         == FetchStep(FetchIns(f, txs, height, i, ins[..j]), txs, height, i, ins[j])
  {
    assert ins[..j + 1][..j] == ins[..j];
  }

  lemma FetchInsNone(f: Fetching, txs: seq<Tx>, height: int, i: nat, ins: seq<OutPoint>)
    ensures FetchIns(f, txs, height, i, ins[..0]) == f
  {
  }

  function FetchedEntries(store: Utxos, outpoints: set<OutPoint>): Entries {
    map o | o in outpoints :: FetchEntry(store, o)
  }

  // New or changed entries are all fresh entries for the given outpoints.
  predicate AddedOnly(v: Entries, w: Entries, created: set<OutPoint>) {
    forall o :: o in w ==>
      (o in v && w[o] == v[o]) || (o in created && w[o].Some? && w[o].value.modified)
  }

  lemma {:induction false} CreatedInBlock(txs: seq<Tx>, k: nat)
    requires k < |txs|
    ensures CreatedSet(txs[k]) <= AllCreated(txs)
  {
    AllCreatedPrefix(txs, k + 1);
    assert txs[..k + 1][..k] == txs[..k];
  }

  lemma {:induction false} PositionKnown(txs: seq<Tx>, h: Hash)
    ensures Position(txs, h).None? <==> h !in TxIds(txs)
  {
    if txs != [] {
      var n := |txs| - 1;
      PositionKnown(txs[..n], h);
      if i :| 0 <= i < |txs| && txs[i].hash == h {
        assert i < n ==> txs[..n][i].hash == h;
      }
      if i :| 0 <= i < n && txs[..n][i].hash == h {
        assert txs[i].hash == h;
      }
    }
  }

  // Part way through the loading: only outputs of the block have been added, and only
  // unknown outpoints are needed.
  ghost predicate FetchingOk(v: Entries, f: Fetching, txs: seq<Tx>) {
    v.Keys <= f.entries.Keys && f.needed !! v.Keys && AddedOnly(v, f.entries, AllCreated(txs))
  }

  lemma FetchStepOk(v: Entries, f: Fetching, txs: seq<Tx>, height: int, i: nat, o: OutPoint)
    requires FetchingOk(v, f, txs)
    ensures var g := FetchStep(f, txs, height, i, o);
      && FetchingOk(v, g, txs) && f.entries.Keys <= g.entries.Keys && f.needed <= g.needed
      && (o.hash !in TxIds(txs) ==> o in g.entries || o in g.needed)
  {
    PositionKnown(txs, o.hash);
    match Position(txs, o.hash)
    case Some(k) => CreatedInBlock(txs, k);
    case None =>
  }

  lemma {:induction false} FetchInsOk(v: Entries, f: Fetching, txs: seq<Tx>, height: int, i: nat, ins: seq<OutPoint>)
    requires FetchingOk(v, f, txs)
    ensures var g := FetchIns(f, txs, height, i, ins);
      && FetchingOk(v, g, txs) && f.entries.Keys <= g.entries.Keys && f.needed <= g.needed
      && forall o :: o in ins && o.hash !in TxIds(txs) ==> o in g.entries || o in g.needed
  {
    hide FetchingOk, FetchStep;
    if ins != [] {
      var init, o := ins[..|ins| - 1], ins[|ins| - 1];
      FetchInsOk(v, f, txs, height, i, init);
      FetchStepOk(v, FetchIns(f, txs, height, i, init), txs, height, i, o);
      assert ins == init + [o];
    }
  }

  lemma {:induction false} FetchTxsOk(v: Entries, txs: seq<Tx>, height: int, n: nat)
    requires n <= |txs|
    ensures var g := FetchTxs(Fetching(v, {}), txs, height, n);
      && FetchingOk(v, g, txs)
      && forall k, o :: 0 < k < n && o in txs[k].ins && o.hash !in TxIds(txs) ==> o in g.entries || o in g.needed
  {
    hide FetchingOk, FetchIns;
    if n > 1 {
      FetchTxsOk(v, txs, height, n - 1);
      FetchInsOk(v, FetchTxs(Fetching(v, {}), txs, height, n - 1), txs, height, n - 1, txs[n - 1].ins);
    } else {
      NothingFetched(v, txs);
    }
  }

  lemma NothingFetched(v: Entries, txs: seq<Tx>)
    ensures FetchingOk(v, Fetching(v, {}), txs)
  {
  }

  /** Loading inputs covers every outside input and leaves the meaning alone off the
      block's own outputs. */
  lemma FetchedViewOk(v: Entries, store: Utxos, b: Block)
    requires Coherent(v, store)
    ensures var w := FetchedView(v, store, b);
      && Coherent(w, store) && w.Keys >= v.Keys && Covered(w, b.txs)
      && forall o :: o !in AllCreated(b.txs) ==> Look(w, store, o) == Look(v, store, o)
  {
    hide FetchTxs;
    FetchTxsOk(v, b.txs, b.height, |b.txs|);
  }

  lemma FetchedMidBlock(v: Entries, store: Utxos, u: Utxos, b: Block)
    requires Coherent(v, store) && Means(v, store, u, {})
    ensures MidBlock(FetchedView(v, store, b), store, u, b.txs, 0, b.height)
  {
    hide FetchedView, Coherent;
    FetchedViewOk(v, store, b);
    assert b.txs[..0] == [];
    assert ApplyTxs(u, [], b.height) == u;
    assert AllCreated(b.txs) - AllCreated([]) == AllCreated(b.txs);
  }

  class UtxoViewpoint {
    var entries: Entries
    var bestHash: Hash

    constructor (best: Hash)
      ensures entries == map[] && bestHash == best
    {
      entries := map[];
      bestHash := best;
    }

    // addTxOut: a fresh entry, whatever the view held before; none for an unspendable script.
    method PutTxOut(o: OutPoint, txOut: TxOut, isCoinBase: bool, height: int)
      modifies this`entries
      ensures entries == if IsUnspendable(txOut.pkScript) then old(entries)
                         else old(entries)[o := Some(NewEntry(Coin(txOut.value, txOut.pkScript, height, isCoinBase)))]
    {
      if IsUnspendable(txOut.pkScript) {
        return;
      }
      entries := entries[o := Some(UtxoEntry(Coin(txOut.value, txOut.pkScript, height, isCoinBase), false, true))];
    }

    // AddTxOut: an index out of range adds nothing.
    method AddTxOut(tx: Tx, index: nat, height: int)
      modifies this`entries
      ensures forall o :: At(entries, o) == if Creates(tx, o) && o.index == index
                                            then Some(Some(NewEntry(CoinOf(tx, height, o)))) else At(old(entries), o)
    {
      if index >= |tx.outs| {
        return;
      }
      PutTxOut(OutPoint(tx.hash, index), tx.outs[index], IsCoinBase(tx), height);
    }

    method AddTxOuts(tx: Tx, height: int)
      modifies this`entries
      ensures entries == old(entries) + FreshEntries(tx, height, |tx.outs|)
    {
      var isCoinBase := IsCoinBase(tx);
      for i := 0 to |tx.outs|
        invariant entries == old(entries) + FreshEntries(tx, height, i)
      {
        PutTxOut(OutPoint(tx.hash, i), tx.outs[i], isCoinBase, height);
        FreshStep(old(entries), tx, height, i);
      }
    }

    // Fails exactly when an input has no entry; otherwise spends the inputs, adds the
    // outputs and reports what was spent.
    method ConnectTransaction(tx: Tx, height: int, stxos: seq<Coin>) returns (ok: bool, out: seq<Coin>)
      modifies this`entries
      ensures ok <==> IsCoinBase(tx) || AllPresent(old(entries), tx.ins)
      ensures ok ==> entries == ConnectEntries(old(entries), tx, height)
      ensures ok ==> out == stxos + if IsCoinBase(tx) then [] else EntryCoins(old(entries), tx.ins)
    {
      out := stxos;
      if IsCoinBase(tx) {
        AddTxOuts(tx, height);
        return true, out;
      }
      for i := 0 to |tx.ins|
        invariant AllPresent(old(entries), tx.ins[..i])
        invariant entries == SpendEntries(old(entries), tx.ins[..i])
        invariant out == stxos + EntryCoins(old(entries), tx.ins[..i])
      {
        var o := tx.ins[i];
        if o !in entries || entries[o].None? {
          return false, out;
        }
        var entry := entries[o].value;
        out := out + [entry.coin];
        entries := entries[o := Some(Spend(entry))];
        assert tx.ins[..i + 1] == tx.ins[..i] + [o];
      }
      assert tx.ins[..|tx.ins|] == tx.ins;
      AddTxOuts(tx, height);
      ok := true;
    }

    // The block loop: stops at the first transaction with an input that has no entry.
    method ConnectTransactions(b: Block, stxos: seq<Coin>) returns (ok: bool, out: seq<Coin>)
      modifies this
      ensures ok <==> ConnectAll(old(entries), b.txs, b.height).Some?
      ensures ok ==> bestHash == b.hash && entries == ConnectAll(old(entries), b.txs, b.height).value.entries
      ensures ok ==> out == stxos + ConnectAll(old(entries), b.txs, b.height).value.coins
      ensures !ok ==> bestHash == old(bestHash)
    {
      hide ConnectEntries, EntryCoins, AllPresent, ConnectAll;
      out := stxos;
      ConnectAllNone(entries, b.txs, b.height);
      ghost var spent: seq<Coin> := [];
      for i := 0 to |b.txs|
        invariant ConnectAll(old(entries), b.txs[..i], b.height) == Some(Connected(entries, spent))
        invariant out == stxos + spent && bestHash == old(bestHash)
      {
        ghost var before := entries;
        ConnectAllNext(old(entries), b.txs, i, b.height);
        ok, out := ConnectTransaction(b.txs[i], b.height, out);
        if !ok {
          return;
        }
        ghost var more := if IsCoinBase(b.txs[i]) then [] else EntryCoins(before, b.txs[i].ins);
        Associate(stxos, spent, more);
        spent := spent + more;
      }
      TakeAll(b.txs);
      bestHash := b.hash;
      ok := true;
    }

    method RemoveTxOuts(tx: Tx, first: bool, height: int)
      modifies this`entries
      ensures entries == GoneEntries(old(entries), tx, first, height, |tx.outs|)
    {
      for i := 0 to |tx.outs|
        invariant entries == GoneEntries(old(entries), tx, first, height, i)
      {
        GoneStep(old(entries), tx, first, height, i);
        if !IsUnspendable(tx.outs[i].pkScript) {
          var o := OutPoint(tx.hash, i);
          assert At(entries, o) == At(old(entries), o);
          var entry := if o in entries && entries[o].Some? then entries[o].value
                       else UtxoEntry(Coin(tx.outs[i].value, tx.outs[i].pkScript, height, first), false, false);
          entries := entries[o := Some(Spend(entry))];
        }
      }
    }

    // fetchEntryByHash: the view first, then the store.
    method FetchEntryByHash(h: Hash, seek: Hash -> Option<Coin>) returns (r: Option<Coin>)
      ensures r == CoinByHash(entries, h, seek)
    {
      for i := 0 to MAX_OUTPUTS_PER_BLOCK
        invariant FirstEntry(entries, h, i) == FirstEntry(entries, h, 0)
      {
        if OutPoint(h, i) in entries && entries[OutPoint(h, i)].Some? {
          return Some(entries[OutPoint(h, i)].value.coin);
        }
      }
      r := seek(h);
    }

    // Last input first; a coin of the old format is completed from an output of the
    // transaction that spent it.
    method RestoreTxIns(h: Hash, ins: seq<OutPoint>, coins: seq<Coin>, seek: Hash -> Option<Coin>) returns (ok: bool)
      requires |ins| == |coins|
      modifies this`entries
      ensures Undoing(entries, ok) == ResurrectIns(old(entries), h, ins, coins, seek)
    {
      var i := |ins|;
      assert ins[..i] == ins && coins[..i] == coins;
      while i > 0
        invariant 0 <= i <= |ins|
        invariant ResurrectIns(entries, h, ins[..i], coins[..i], seek)
               == ResurrectIns(old(entries), h, ins, coins, seek)
      {
        i := i - 1;
        assert ins[..i + 1][..i] == ins[..i] && coins[..i + 1][..i] == coins[..i];
        var coin := coins[i];
        entries := Holding(entries, ins[i]);
        if coin.height == 0 {
          var found := FetchEntryByHash(h, seek);
          if found.None? {
            return false;
          }
          coin := coin.(height := found.value.height, coinBase := found.value.coinBase);
        }
        entries := entries[ins[i] := Some(UtxoEntry(coin, false, true))];
      }
      ok := true;
    }

    // Refuses a journal entry of the wrong length; otherwise undoes the block, and stops
    // half way when a coin of the old format cannot be completed.
    method DisconnectTransactions(b: Block, stxos: seq<Coin>, seek: Hash -> Option<Coin>) returns (ok: bool)
      requires b.txs != []
      modifies this
      ensures |stxos| != CountSpent(b.txs) ==> !ok && entries == old(entries)
      ensures |stxos| == CountSpent(b.txs) ==>
        Undoing(entries, ok) == ResurrectTxs(old(entries), b.txs, b.height, stxos, seek)
      ensures bestHash == if ok then b.prev else old(bestHash)
    {
      hide ResurrectTxs, ResurrectTx, CountSpent;
      var numSpent := CountSpentOutputs(b);
      if |stxos| != numSpent {
        return false;
      }
      var n, cut := |b.txs|, |stxos|;
      TakeAll(b.txs);
      TakeAll(stxos);
      while n > 0
        invariant 0 <= n <= |b.txs| && cut == CountSpent(b.txs[..n]) <= |stxos|
        invariant bestHash == old(bestHash)
        invariant ResurrectTxs(entries, b.txs[..n], b.height, stxos[..cut], seek)
               == ResurrectTxs(old(entries), b.txs, b.height, stxos, seek)
      {
        ResurrectStep(entries, b, n, stxos[..cut], seek);
        n := n - 1;
        var numIns := if n == 0 then 0 else |b.txs[n].ins|;
        TakeTake(stxos, cut - numIns, cut);
        SliceTail(stxos, cut - numIns, cut);
        cut := cut - numIns;
        ok := DisconnectTransaction(b.txs[n], n == 0, b.height, stxos[cut..cut + numIns], seek);
        if !ok {
          return;
        }
      }
      ResurrectNone(entries, b, stxos, seek);
      bestHash := b.prev;
      ok := true;
    }

    // One transaction: its outputs go, then its inputs come back.
    method DisconnectTransaction(tx: Tx, first: bool, height: int, coins: seq<Coin>, seek: Hash -> Option<Coin>)
      returns (ok: bool)
      requires !first ==> |coins| == |tx.ins|
      modifies this`entries
      ensures Undoing(entries, ok) == ResurrectTx(old(entries), tx, first, height, coins, seek)
    {
      RemoveTxOuts(tx, first, height);
      ok := true;
      if !first {
        ok := RestoreTxIns(tx.hash, tx.ins, coins, seek);
      }
    }

    // Drop what the store no longer needs; the modified flag of the rest is toggled,
    // which sets it on entries that were only read.
    method Commit()
      modifies this`entries
      ensures entries == CommitEntries(old(entries))
    {
      var todo := entries.Keys;
      ghost var after := CommitEntries(old(entries));
      while todo != {}
        invariant todo <= old(entries).Keys
        invariant forall o :: At(entries, o) == if o in todo then At(old(entries), o) else At(after, o)
        decreases |todo|
      {
        var o :| o in todo;
        assert At(entries, o) == At(old(entries), o);
        var entry := entries[o];
        if entry.None? || (entry.value.modified && entry.value.spent) {
          entries := entries - {o};
        } else {
          entries := entries[o := Some(entry.value.(modified := !entry.value.modified))];
        }
        todo := todo - {o};
      }
      SameEntries(entries, after);
    }

    method FetchUtxosMain(store: Utxos, outpoints: set<OutPoint>)
      modifies this`entries
      ensures entries == old(entries) + FetchedEntries(store, outpoints)
    {
      var todo := outpoints;
      while todo != {}
        invariant todo <= outpoints
        invariant forall o :: At(entries, o) == if o in outpoints && o !in todo then Some(FetchEntry(store, o))
                                                else At(old(entries), o)
        decreases |todo|
      {
        var o :| o in todo;
        entries := entries[o := FetchEntry(store, o)];
        todo := todo - {o};
      }
      SameEntries(entries, old(entries) + FetchedEntries(store, outpoints));
    }

    // Only outpoints the view does not know are read from the store.
    method FetchUtxos(store: Utxos, outpoints: set<OutPoint>)
      modifies this`entries
      ensures entries == old(entries) + FetchedEntries(store, outpoints - old(entries).Keys)
    {
      var needed := set o | o in outpoints && o !in entries;
      assert needed == outpoints - entries.Keys;
      FetchUtxosMain(store, needed);
    }

    method FetchTxInputs(b: Block, i: nat, inFlight: map<Hash, nat>, needed: set<OutPoint>)
      returns (needed': set<OutPoint>)
      requires 0 < i < |b.txs|
      requires forall h :: h in inFlight ==> inFlight[h] < |b.txs| && b.txs[inFlight[h]].hash == h
      requires forall h :: Position(b.txs, h) == if h in inFlight then Some(inFlight[h]) else None
      modifies this`entries
      ensures Fetching(entries, needed') == FetchIns(Fetching(old(entries), needed), b.txs, b.height, i, b.txs[i].ins)
    {
      hide Position, FetchIns;
      needed' := needed;
      var ins := b.txs[i].ins;
      FetchInsNone(Fetching(entries, needed), b.txs, b.height, i, ins);
      for j := 0 to |ins|
        invariant Fetching(entries, needed') == FetchIns(Fetching(old(entries), needed), b.txs, b.height, i, ins[..j])
      {
        var o := ins[j];
        FetchInsNext(Fetching(old(entries), needed), b.txs, b.height, i, ins, j);
        assert Position(b.txs, o.hash) == if o.hash in inFlight then Some(inFlight[o.hash]) else None;
        // i - 1 is the position the source counts from, one behind because it skips
        // the coinbase.
        if o.hash in inFlight && i - 1 >= inFlight[o.hash] {
          var k := inFlight[o.hash];
          AddTxOuts(b.txs[k], b.height);
        } else if o !in entries {
          needed' := needed' + {o};
        }
      }
      TakeAll(ins);
    }

    // Loads every input the view does not know.
    method FetchInputUtxos(store: Utxos, b: Block)
      requires b.txs != []
      modifies this`entries
      ensures entries == FetchedView(old(entries), store, b)
    {
      hide Position, FetchIns;
      var inFlight: map<Hash, nat> := map[];
      PositionNone(b.txs);
      for i := 0 to |b.txs|
        invariant forall h :: h in inFlight ==> inFlight[h] < i && b.txs[inFlight[h]].hash == h
        invariant forall h :: Position(b.txs[..i], h) == if h in inFlight then Some(inFlight[h]) else None
      {
        forall h
          ensures Position(b.txs[..i + 1], h) == if b.txs[i].hash == h then Some(i) else Position(b.txs[..i], h)
        {
          PositionNext(b.txs, i, h);
        }
        inFlight := inFlight[b.txs[i].hash := i];
      }
      TakeAll(b.txs);
      var needed: set<OutPoint> := {};
      for i := 1 to |b.txs|
        invariant Fetching(entries, needed) == FetchTxs(Fetching(old(entries), {}), b.txs, b.height, i)
      {
        needed := FetchTxInputs(b, i, inFlight, needed);
      }
      FetchUtxosMain(store, needed);
    }
  }

  function CommitEntries(v: Entries): Entries {
    map o | o in v && v[o].Some? && !(v[o].value.modified && v[o].value.spent)
      :: Some(v[o].value.(modified := !v[o].value.modified))
  }

  predicate Kept(e: Option<UtxoEntry>) {
    e.Some? && !(e.value.modified && e.value.spent)
  }

  // Toggling clears the modified flags exactly when every entry that stays had it set.
  lemma CommitClears(v: Entries)
    ensures (forall o :: o in CommitEntries(v) ==> CommitEntries(v)[o].Some? && !CommitEntries(v)[o].value.modified)
       <==> (forall o :: o in v && Kept(v[o]) ==> v[o].value.modified)
  {
    forall o ensures o in CommitEntries(v) <==> o in v && Kept(v[o]) {
    }
    if forall o :: o in CommitEntries(v) ==> CommitEntries(v)[o].Some? && !CommitEntries(v)[o].value.modified {
      forall o | o in v && Kept(v[o]) ensures v[o].value.modified {
        assert o in CommitEntries(v);
      }
    }
  }

  lemma {:induction false} ConnectablePrefix(u: Utxos, txs: seq<Tx>, i: nat, height: int)
    requires i <= |txs| && Connectable(u, txs, height)
    ensures Connectable(u, txs[..i], height)
  {
    if i == |txs| {
      assert txs[..i] == txs;
    } else {
      var n := |txs| - 1;
      assert txs[..n][..i] == txs[..i];
      ConnectablePrefix(u, txs[..n], i, height);
    }
  }

  // countSpentOutputs: the coinbase spends nothing.
  method CountSpentOutputs(b: Block) returns (n: nat)
    requires b.txs != []
    ensures n == CountSpent(b.txs)
  {
    n := 0;
    for i := 1 to |b.txs|
      invariant n == CountSpent(b.txs[..i])
    {
      n := n + |b.txs[i].ins|;
      assert b.txs[..i + 1][..i] == b.txs[..i];
    }
    assert b.txs[..|b.txs|] == b.txs;
  }

  /** Writing back */

  function WrittenStore(v: Entries, store: Utxos): Utxos {
    map o | o in store.Keys + v.Keys && Look(v, store, o).Some? :: Look(v, store, o).value
  }

  // dbPutUtxoView: only modified entries are written, spent ones are deleted.
  method PutUtxoView(v: Entries, store: Utxos) returns (store': Utxos)
    requires Coherent(v, store)
    ensures forall o :: Get(store', o) == Look(v, store, o)
  {
    store' := store;
    var todo := v.Keys;
    while todo != {}
      invariant todo <= v.Keys
      invariant forall o :: Get(store', o) == if o in v && o !in todo then Look(v, store, o) else Get(store, o)
      decreases |todo|
    {
      var o :| o in todo;
      assert CoherentAt(v[o], Get(store, o));
      todo := todo - {o};
      if v[o].Some? && v[o].value.modified {
        if v[o].value.spent {
          store' := store' - {o};
        } else {
          store' := store'[o := v[o].value.coin];
        }
      }
    }
  }

  /** Writing the view back and committing it changes no lookup, although the commit
      toggles the modified flag instead of clearing it. */
  lemma CommitKeepsMeaning(v: Entries, store: Utxos, store': Utxos)
    requires Coherent(v, store)
    requires forall o :: Get(store', o) == Look(v, store, o)
    ensures Coherent(CommitEntries(v), store')
    ensures forall o :: Look(CommitEntries(v), store', o) == Look(v, store, o)
  {
  }
}
