/** The reference meaning of the utxo set: a map from outpoints to coins, changed by
    replaying transactions forwards and by undoing them backwards from the spent coins
    that the replay records.  Everything the view, the spend journal and the
    reorganisation code do is stated against these functions. */
module Ledger {
  import opened Types

  // An unspent output; a spent output in the journal carries the same four fields.
  datatype Coin = Coin(amount: int, pkScript: Script, height: int, coinBase: bool)

  type Utxos = map<OutPoint, Coin>

  function Get(u: Utxos, o: OutPoint): Option<Coin> {
    if o in u then Some(u[o]) else None
  }

  lemma SameUtxos(a: Utxos, b: Utxos)
    requires forall o :: Get(a, o) == Get(b, o)
    ensures a == b
  {
    assert forall o :: o in a <==> Get(a, o).Some?;
    assert forall o :: o in b <==> Get(b, o).Some?;
    assert forall o :: o in a ==> Get(a, o) == Some(a[o]);
    assert forall o :: o in b ==> Get(b, o) == Some(b[o]);
  }

  predicate Creates(tx: Tx, o: OutPoint) {
    o.hash == tx.hash && o.index < |tx.outs| && !IsUnspendable(tx.outs[o.index].pkScript)
  }

  function CreatedSet(tx: Tx): (s: set<OutPoint>)
    ensures forall o :: o in s <==> Creates(tx, o)
  {
    set i: nat | i < |tx.outs| && !IsUnspendable(tx.outs[i].pkScript) :: OutPoint(tx.hash, i)
  }

  function CoinOf(tx: Tx, height: int, o: OutPoint): Coin
    requires Creates(tx, o)
  {
    Coin(tx.outs[o.index].value, tx.outs[o.index].pkScript, height, IsCoinBase(tx))
  }

  function Created(tx: Tx, height: int): (u: Utxos)
    ensures u.Keys == CreatedSet(tx)
  {
    map o | o in CreatedSet(tx) :: CoinOf(tx, height, o)
  }

  function InputSet(tx: Tx): set<OutPoint> {
    set o | o in tx.ins
  }

  /** Connecting forwards */

  function ApplyTx(u: Utxos, tx: Tx, height: int): Utxos {
    (if IsCoinBase(tx) then u else u - InputSet(tx)) + Created(tx, height)
  }

  function ApplyTxs(u: Utxos, txs: seq<Tx>, height: int): Utxos {
    if txs == [] then u
    else ApplyTx(ApplyTxs(u, txs[..|txs| - 1], height), txs[|txs| - 1], height)
  }

  function ApplyBlock(u: Utxos, b: Block): Utxos {
    ApplyTxs(u, b.txs, b.height)
  }

  predicate Spendable(u: Utxos, tx: Tx) {
    IsCoinBase(tx) || forall o :: o in tx.ins ==> o in u
  }

  // Every input is unspent when its transaction takes its turn.
  predicate Connectable(u: Utxos, txs: seq<Tx>, height: int) {
    txs == [] ||
    (Connectable(u, txs[..|txs| - 1], height) &&
     Spendable(ApplyTxs(u, txs[..|txs| - 1], height), txs[|txs| - 1]))
  }

  function TxSpends(u: Utxos, tx: Tx): (s: seq<Coin>)
    requires Spendable(u, tx)
    ensures |s| == if IsCoinBase(tx) then 0 else |tx.ins|
  {
    if IsCoinBase(tx) then [] else seq(|tx.ins|, i requires 0 <= i < |tx.ins| => u[tx.ins[i]])
  }

  // The coins a list of transactions spends, in the order it spends them.
  function Spends(u: Utxos, txs: seq<Tx>, height: int): seq<Coin>
    requires Connectable(u, txs, height)
  {
    if txs == [] then []
    else
      var init := txs[..|txs| - 1];
      Spends(u, init, height) + TxSpends(ApplyTxs(u, init, height), txs[|txs| - 1])
  }

  /** Disconnecting backwards */

  // Put the spent coins back, last input first.
  function Restore(u: Utxos, ins: seq<OutPoint>, coins: seq<Coin>): Utxos
    requires |ins| == |coins|
    decreases |ins|
  {
    if ins == [] then u
    else
      var n := |ins| - 1;
      Restore(u[ins[n] := coins[n]], ins[..n], coins[..n])
  }

  // The transaction at position zero of a block is the one without real inputs.
  function UndoTx(u: Utxos, tx: Tx, first: bool, coins: seq<Coin>): Utxos
    requires !first ==> |coins| == |tx.ins|
  {
    var gone := u - CreatedSet(tx);
    if first then gone else Restore(gone, tx.ins, coins)
  }

  function CountSpent(txs: seq<Tx>): nat {
    if |txs| <= 1 then 0 else CountSpent(txs[..|txs| - 1]) + |txs[|txs| - 1].ins|
  }

  function UndoTxs(u: Utxos, txs: seq<Tx>, coins: seq<Coin>): Utxos
    requires |coins| == CountSpent(txs)
    decreases |txs|
  {
    if txs == [] then u
    else
      var n := |txs| - 1;
      var cut := CountSpent(txs[..n]);
      UndoTxs(UndoTx(u, txs[n], n == 0, coins[cut..]), txs[..n], coins[..cut])
  }

  function UndoBlock(u: Utxos, b: Block, coins: seq<Coin>): Utxos
    requires |coins| == CountSpent(b.txs)
  {
    UndoTxs(u, b.txs, coins)
  }

  /** Well-ordered blocks */

  predicate CoinBaseFirst(txs: seq<Tx>) {
    forall i :: 0 <= i < |txs| ==> (IsCoinBase(txs[i]) <==> i == 0)
  }

  predicate DistinctIds(txs: seq<Tx>) {
    forall i, j :: 0 <= i < j < |txs| ==> txs[i].hash != txs[j].hash
  }

  // No input names an output of its own transaction or of a later one.
  predicate RefersBackwards(txs: seq<Tx>) {
    forall i, j, o :: 0 < i <= j < |txs| && o in txs[i].ins ==> o.hash != txs[j].hash
  }

  predicate DistinctInputs(tx: Tx) {
    forall i, j :: 0 <= i < j < |tx.ins| ==> tx.ins[i] != tx.ins[j]
  }

  predicate WellOrdered(b: Block) {
    && b.txs != []
    && b.height > 0
    && CoinBaseFirst(b.txs)
    && DistinctIds(b.txs)
    && RefersBackwards(b.txs)
    && (forall i :: 0 <= i < |b.txs| ==> DistinctInputs(b.txs[i]))
  }

  function TxIds(txs: seq<Tx>): set<Hash> {
    set i | 0 <= i < |txs| :: txs[i].hash
  }

  // No transaction of the block repeats one that still has unspent outputs.
  predicate NoOverwrite(u: Utxos, txs: seq<Tx>) {
    forall o :: o in u ==> o.hash !in TxIds(txs)
  }

  function AllCreated(txs: seq<Tx>): set<OutPoint> {
    if txs == [] then {} else AllCreated(txs[..|txs| - 1]) + CreatedSet(txs[|txs| - 1])
  }

  // Hashes identify transactions: an unspent output whose transaction recurs in the block
  // is one of the outputs that transaction creates.
  predicate Identified(u: Utxos, txs: seq<Tx>) {
    forall o :: o in u && o.hash in TxIds(txs) ==> o in AllCreated(txs)
  }

  lemma {:induction false} AllCreatedIds(txs: seq<Tx>)
    ensures forall o :: o in AllCreated(txs) ==> o.hash in TxIds(txs)
  {
    if txs != [] {
      var n := |txs| - 1;
      AllCreatedIds(txs[..n]);
      forall o | o in AllCreated(txs)
        ensures o.hash in TxIds(txs)
      {
        if o in AllCreated(txs[..n]) {
          var i :| 0 <= i < n && txs[..n][i].hash == o.hash;
          assert txs[i].hash == o.hash;
        } else {
          assert txs[n].hash == o.hash;
        }
      }
    }
  }

  // Replay only ever holds old coins and coins created so far.
  lemma {:induction false} ReplayKeys(u: Utxos, txs: seq<Tx>, height: int)
    ensures ApplyTxs(u, txs, height).Keys <= u.Keys + AllCreated(txs)
  {
    if txs != [] {
      ReplayKeys(u, txs[..|txs| - 1], height);
    }
  }

  // The next transaction creates nothing that is unspent at its turn.
  lemma NextCreatesFresh(u: Utxos, txs: seq<Tx>, n: nat, height: int)
    requires n < |txs|
    requires DistinctIds(txs) && NoOverwrite(u, txs)
    ensures ApplyTxs(u, txs[..n], height).Keys !! CreatedSet(txs[n])
  {
    ReplayKeys(u, txs[..n], height);
    AllCreatedIds(txs[..n]);
    assert txs[n].hash in TxIds(txs);
  }

  lemma {:induction false} RestoreSpends(w: Utxos, u: Utxos, ins: seq<OutPoint>, coins: seq<Coin>)
    requires |ins| == |coins|
    requires forall i :: 0 <= i < |ins| ==> ins[i] in w && coins[i] == w[ins[i]]
    requires u.Keys <= w.Keys
    requires forall o :: o in w ==> o in ins || (o in u && u[o] == w[o])
    requires forall o :: o in u ==> u[o] == w[o]
    ensures Restore(u, ins, coins) == w
    decreases |ins|
  {
    if ins == [] {
      assert u == w;
    } else {
      var n := |ins| - 1;
      forall o | o in w
        ensures o in ins[..n] || (o in u[ins[n] := coins[n]] && u[ins[n] := coins[n]][o] == w[o])
      {
        if o in ins && o !in ins[..n] { assert o == ins[n]; }
      }
      RestoreSpends(w, u[ins[n] := coins[n]], ins[..n], coins[..n]);
    }
  }

  // One transaction: undoing what was just applied gives the set back.
  lemma UndoInvertsApplyTx(w: Utxos, tx: Tx, first: bool, height: int)
    requires first <==> IsCoinBase(tx)
    requires Spendable(w, tx)
    requires w.Keys !! CreatedSet(tx)
    ensures UndoTx(ApplyTx(w, tx, height), tx, first, TxSpends(w, tx)) == w
  {
    var after := ApplyTx(w, tx, height);
    var gone := after - CreatedSet(tx);
    if first {
      assert gone == w;
    } else {
      assert gone == w - InputSet(tx);
      RestoreSpends(w, gone, tx.ins, TxSpends(w, tx));
    }
  }

  lemma {:induction false} SpendsCount(u: Utxos, txs: seq<Tx>, height: int)
    requires Connectable(u, txs, height) && CoinBaseFirst(txs)
    ensures |Spends(u, txs, height)| == CountSpent(txs)
  {
    if txs != [] {
      SpendsCount(u, txs[..|txs| - 1], height);
    }
  }

  lemma SpendsSplit(u: Utxos, txs: seq<Tx>, height: int)
    requires txs != []
    requires Connectable(u, txs, height) && CoinBaseFirst(txs)
    ensures |Spends(u, txs, height)| == CountSpent(txs) >= CountSpent(txs[..|txs| - 1])
    ensures Spends(u, txs, height)[..CountSpent(txs[..|txs| - 1])] == Spends(u, txs[..|txs| - 1], height)
    ensures Spends(u, txs, height)[CountSpent(txs[..|txs| - 1])..]
         == TxSpends(ApplyTxs(u, txs[..|txs| - 1], height), txs[|txs| - 1])
  {
    SpendsCount(u, txs, height);
    SpendsCount(u, txs[..|txs| - 1], height);
  }

  lemma NoOverwritePrefix(u: Utxos, txs: seq<Tx>, n: nat)
    requires n <= |txs| && NoOverwrite(u, txs)
    ensures NoOverwrite(u, txs[..n])
  {
    forall h | h in TxIds(txs[..n])
      ensures h in TxIds(txs)
    {
      var i :| 0 <= i < n && txs[..n][i].hash == h;
      assert txs[i].hash == h;
    }
  }

  lemma {:induction false} UndoInvertsApplyTxs(u: Utxos, txs: seq<Tx>, height: int)
    requires Connectable(u, txs, height)
    requires CoinBaseFirst(txs) && DistinctIds(txs) && NoOverwrite(u, txs)
    ensures |Spends(u, txs, height)| == CountSpent(txs)
    ensures UndoTxs(ApplyTxs(u, txs, height), txs, Spends(u, txs, height)) == u
  {
    if txs != [] {
      hide ApplyTx, UndoTx, TxSpends, NoOverwrite, DistinctIds;
      var n := |txs| - 1;
      PrefixShape(txs, n);
      SpendsSplit(u, txs, height);
      UndoInvertsLast(u, txs, height);
      NoOverwritePrefix(u, txs, n);
      UndoInvertsApplyTxs(u, txs[..n], height);
    }
  }

  lemma PrefixShape(txs: seq<Tx>, n: nat)
    requires n <= |txs| && CoinBaseFirst(txs) && DistinctIds(txs)
    ensures CoinBaseFirst(txs[..n]) && DistinctIds(txs[..n])
  {
  }

  lemma UndoInvertsLast(u: Utxos, txs: seq<Tx>, height: int)
    requires txs != [] && Connectable(u, txs, height)
    requires CoinBaseFirst(txs) && DistinctIds(txs) && NoOverwrite(u, txs)
    ensures var n := |txs| - 1;
      var w := ApplyTxs(u, txs[..n], height);
      && (n != 0 ==> |TxSpends(w, txs[n])| == |txs[n].ins|)
      && UndoTx(ApplyTx(w, txs[n], height), txs[n], n == 0, TxSpends(w, txs[n])) == w
  {
    var n := |txs| - 1;
    NextCreatesFresh(u, txs, n, height);
    hide ApplyTxs, DistinctIds, NoOverwrite;
    UndoInvertsApplyTx(ApplyTxs(u, txs[..n], height), txs[n], n == 0, height);
  }

  /** Disconnecting a block with the coins its connection recorded restores exactly the
      utxo set it was connected to, whatever the block created and spent in between. */
  lemma DisconnectInvertsConnect(u: Utxos, b: Block)
    requires WellOrdered(b) && NoOverwrite(u, b.txs) && Connectable(u, b.txs, b.height)
    ensures |Spends(u, b.txs, b.height)| == CountSpent(b.txs)
    ensures UndoBlock(ApplyBlock(u, b), b, Spends(u, b.txs, b.height)) == u
  {
    UndoInvertsApplyTxs(u, b.txs, b.height);
  }
}
