/** A block found valid on one utxo set and looked at on another: when it can be replayed
    there, and when it is valid there. */
module OtherSet {
  import opened Types
  import opened Ledger
  import opened UtxoView
  import opened Validate
  import opened ViewHistory

  // Everything the block needs from outside is unspent.
  predicate OutsideIn(u: Utxos, b: Block) {
    forall o :: o in OutsideInputs(b.txs) ==> o in u
  }

  // And mature and in range as well.
  predicate OutsideMature(p: Params, u: Utxos, b: Block) {
    forall o :: o in OutsideInputs(b.txs) ==> o in u && InputOk(u[o], b.height, p.maturity)
  }

  lemma {:induction false} KeepsUnspent(u: Utxos, w: Utxos, txs: seq<Tx>, height: int, o: OutPoint)
    requires o in ApplyTxs(u, txs, height) && (o in u ==> o in w)
    ensures o in ApplyTxs(w, txs, height)
  {
    if txs != [] {
      var init, tx := txs[..|txs| - 1], txs[|txs| - 1];
      ApplyTxAt(ApplyTxs(u, init, height), tx, height, o);
      ApplyTxAt(ApplyTxs(w, init, height), tx, height, o);
      if !Creates(tx, o) {
        KeepsUnspent(u, w, init, height, o);
      }
    }
  }

  // An outpoint the transactions did not create keeps its old coin while it lasts.
  lemma {:induction false} KeptCoin(u: Utxos, txs: seq<Tx>, height: int, o: OutPoint)
    requires o in ApplyTxs(u, txs, height) && o !in AllCreated(txs)
    ensures o in u && u[o] == ApplyTxs(u, txs, height)[o]
  {
    if txs != [] {
      var init, tx := txs[..|txs| - 1], txs[|txs| - 1];
      ApplyTxAt(ApplyTxs(u, init, height), tx, height, o);
      KeptCoin(u, init, height, o);
    }
  }

  lemma OutsideNotCreated(txs: seq<Tx>, i: nat, o: OutPoint)
    requires i <= |txs| && o.hash !in TxIds(txs)
    ensures o !in AllCreated(txs[..i])
  {
    AllCreatedPrefix(txs, i);
    AllCreatedIds(txs);
  }

  // What a block needs from outside is unspent at the start.
  lemma OutsideAtStart(u: Utxos, b: Block, o: OutPoint)
    requires Connectable(u, b.txs, b.height) && o in OutsideInputs(b.txs)
    ensures o in u
    ensures exists i :: 0 <= i < |b.txs| && !IsCoinBase(b.txs[i]) && o in b.txs[i].ins
                     && o in ApplyTxs(u, b.txs[..i], b.height) && ApplyTxs(u, b.txs[..i], b.height)[o] == u[o]
  {
    BlockInputsAt(b.txs, o);
    var i :| 0 <= i < |b.txs| && !IsCoinBase(b.txs[i]) && o in b.txs[i].ins;
    SpendsStep(u, b.txs, i, b.height);
    OutsideNotCreated(b.txs, i, o);
    KeptCoin(u, b.txs[..i], b.height, o);
  }

  /** A block that replays on u replays on w exactly when w has its outside inputs */
  lemma ConnectableElsewhere(u: Utxos, w: Utxos, b: Block)
    requires WellOrdered(b) && Connectable(u, b.txs, b.height) && NoOverwrite(u, b.txs)
    ensures Connectable(w, b.txs, b.height) <==> OutsideIn(w, b)
  {
    if Connectable(w, b.txs, b.height) {
      forall o | o in OutsideInputs(b.txs) ensures o in w {
        OutsideAtStart(w, b, o);
      }
    }
    if OutsideIn(w, b) {
      ConnectableUpTo(u, w, b, |b.txs|);
      TakeAll(b.txs);
    }
  }

  lemma {:induction false} ConnectableUpTo(u: Utxos, w: Utxos, b: Block, i: nat)
    requires WellOrdered(b) && Connectable(u, b.txs, b.height) && NoOverwrite(u, b.txs)
    requires OutsideIn(w, b) && i <= |b.txs|
    ensures Connectable(w, b.txs[..i], b.height)
  {
    hide WellOrdered, NoOverwrite, OutsideInputs, ApplyTxs;
    if i > 0 {
      ConnectableUpTo(u, w, b, i - 1);
      var tx := b.txs[i - 1];
      SpendsStep(u, b.txs, i - 1, b.height);
      if !IsCoinBase(tx) {
        forall o | o in tx.ins ensures o in ApplyTxs(w, b.txs[..i - 1], b.height) {
          InputCarries(u, w, b, i - 1, o);
        }
      }
      ConnectableNext(w, b.txs, i - 1, b.height);
    }
  }

  lemma InputCarries(u: Utxos, w: Utxos, b: Block, i: nat, o: OutPoint)
    requires WellOrdered(b) && Connectable(u, b.txs, b.height) && NoOverwrite(u, b.txs) && OutsideIn(w, b)
    requires i < |b.txs| && !IsCoinBase(b.txs[i]) && o in b.txs[i].ins
    requires o in ApplyTxs(u, b.txs[..i], b.height)
    ensures o in ApplyTxs(w, b.txs[..i], b.height)
  {
    BlockInputsAt(b.txs, o);
    KeepsUnspent(u, w, b.txs[..i], b.height, o);
  }

  /** Validity on another set */

  // The sets give the outside inputs they share the same value, as they do when a hash
  // identifies its transaction.
  predicate AmountsAgree(u: Utxos, w: Utxos, b: Block) {
    forall o :: o in OutsideInputs(b.txs) && o in u && o in w ==> u[o].amount == w[o].amount
  }

  // As far as the block's inputs go, y has what x has, at the same values, and no less mature.
  ghost predicate Alike(x: Utxos, y: Utxos, b: Block, maturity: int) {
    forall o :: o in BlockInputs(b.txs) ==>
      && (o in x <==> o in y)
      && (o in x ==> x[o].amount == y[o].amount
                     && (InputOk(x[o], b.height, maturity) ==> InputOk(y[o], b.height, maturity)))
  }

  lemma {:induction false} InSumAlike(x: Utxos, y: Utxos, ins: seq<OutPoint>)
    requires forall o :: o in ins ==> (o in x <==> o in y) && (o in x ==> x[o].amount == y[o].amount)
    ensures InSum(x, ins) == InSum(y, ins)
  {
    if ins != [] {
      InSumAlike(x, y, ins[..|ins| - 1]);
    }
  }

  lemma InputsAlike(x: Utxos, y: Utxos, b: Block, i: nat, maturity: int)
    requires i < |b.txs| && Alike(x, y, b, maturity) && InputsOk(x, b.txs[i], b.height, maturity)
    ensures InputsOk(y, b.txs[i], b.height, maturity) && Fee(x, b.txs[i]) == Fee(y, b.txs[i])
  {
    var tx := b.txs[i];
    if !IsCoinBase(tx) {
      forall o | o in tx.ins ensures o in BlockInputs(b.txs) {
        BlockInputsAt(b.txs, o);
      }
      InSumAlike(x, y, tx.ins);
      forall k | 0 <= k < |tx.ins| ensures tx.ins[k] in y && InputOk(y[tx.ins[k]], b.height, maturity) {
        assert tx.ins[k] in tx.ins;
      }
    }
  }

  lemma AlikeStep(x: Utxos, y: Utxos, b: Block, i: nat, maturity: int)
    requires i < |b.txs| && Alike(x, y, b, maturity)
    ensures Alike(ApplyTx(x, b.txs[i], b.height), ApplyTx(y, b.txs[i], b.height), b, maturity)
  {
    var tx := b.txs[i];
    var x', y' := ApplyTx(x, tx, b.height), ApplyTx(y, tx, b.height);
    forall o | o in BlockInputs(b.txs)
      ensures (o in x' <==> o in y')
      ensures o in x' ==> x'[o].amount == y'[o].amount
                          && (InputOk(x'[o], b.height, maturity) ==> InputOk(y'[o], b.height, maturity))
    {
      ApplyTxAt(x, tx, b.height, o);
      ApplyTxAt(y, tx, b.height, o);
      assert Get(x', o) == if o in x' then Some(x'[o]) else None;
      assert Get(y', o) == if o in y' then Some(y'[o]) else None;
    }
  }

  lemma AlikeStart(p: Params, u: Utxos, w: Utxos, b: Block)
    requires ValidBlock(p, u, b) && AmountsAgree(u, w, b)
    requires OutsideMature(p, w, b) && NoOverwrite(w, b.txs)
    ensures Alike(u, w, b, p.maturity)
  {
    TxsOkConnectable(u, b.txs, b.height, p.maturity);
    forall o | o in BlockInputs(b.txs)
      ensures (o in u <==> o in w) && (o in u ==> u[o].amount == w[o].amount)
      ensures o in w ==> InputOk(w[o], b.height, p.maturity)
    {
      if o.hash !in TxIds(b.txs) {
        assert o in OutsideInputs(b.txs);
        OutsideAtStart(u, b, o);
      }
    }
  }

  lemma {:induction false} TxsOkElsewhere(p: Params, u: Utxos, w: Utxos, b: Block, i: nat)
    requires Alike(u, w, b, p.maturity) && i <= |b.txs| && TxsOk(u, b.txs[..i], b.height, p.maturity)
    ensures TxsOk(w, b.txs[..i], b.height, p.maturity)
    ensures TotalFees(w, b.txs[..i], b.height) == TotalFees(u, b.txs[..i], b.height)
    ensures Alike(ApplyTxs(u, b.txs[..i], b.height), ApplyTxs(w, b.txs[..i], b.height), b, p.maturity)
  {
    hide Alike, InputsOk, Fee, ApplyTx;
    if i > 0 {
      TxsOkStep(u, b.txs, i - 1, b.height, p.maturity);
      TxsOkStep(w, b.txs, i - 1, b.height, p.maturity);
      TxsOkElsewhere(p, u, w, b, i - 1);
      InputsAlike(ApplyTxs(u, b.txs[..i - 1], b.height), ApplyTxs(w, b.txs[..i - 1], b.height), b, i - 1, p.maturity);
      AlikeStep(ApplyTxs(u, b.txs[..i - 1], b.height), ApplyTxs(w, b.txs[..i - 1], b.height), b, i - 1, p.maturity);
      TakeTake(b.txs, i - 1, i);
    }
  }

  /** A block valid on u is valid on w exactly when w has its outside inputs, mature, and
      no unspent output of its transactions. */
  lemma ValidElsewhere(p: Params, u: Utxos, w: Utxos, b: Block)
    requires ValidBlock(p, u, b) && AmountsAgree(u, w, b)
    ensures ValidBlock(p, w, b) <==> OutsideMature(p, w, b) && NoOverwrite(w, b.txs)
  {
    hide WellOrdered, AllSane, TxsOk, TotalFees, NoOverwrite, Alike;
    if OutsideMature(p, w, b) && NoOverwrite(w, b.txs) {
      AlikeStart(p, u, w, b);
      TakeAll(b.txs);
      TxsOkElsewhere(p, u, w, b, |b.txs|);
    }
    if ValidBlock(p, w, b) {
      forall o | o in OutsideInputs(b.txs) ensures o in w && InputOk(w[o], b.height, p.maturity) {
        MatureAtStart(p, w, b, o);
      }
    }
  }

  lemma MatureAtStart(p: Params, w: Utxos, b: Block, o: OutPoint)
    requires TxsOk(w, b.txs, b.height, p.maturity) && o in OutsideInputs(b.txs)
    ensures o in w && InputOk(w[o], b.height, p.maturity)
  {
    TxsOkConnectable(w, b.txs, b.height, p.maturity);
    OutsideAtStart(w, b, o);
    var i :| 0 <= i < |b.txs| && !IsCoinBase(b.txs[i]) && o in b.txs[i].ins
             && o in ApplyTxs(w, b.txs[..i], b.height) && ApplyTxs(w, b.txs[..i], b.height)[o] == w[o];
    TxsOkPrefix(w, b.txs, i + 1, b.height, p.maturity);
    TxsOkStep(w, b.txs, i, b.height, p.maturity);
    var k :| 0 <= k < |b.txs[i].ins| && b.txs[i].ins[k] == o;
  }

  // The easy guard: two sets that agree on what the block names give the same answer.
  lemma SameSurroundings(p: Params, u: Utxos, w: Utxos, b: Block)
    requires forall o :: o in OutsideInputs(b.txs) ==> Get(u, o) == Get(w, o)
    requires NoOverwrite(u, b.txs) <==> NoOverwrite(w, b.txs)
    ensures ValidBlock(p, u, b) <==> ValidBlock(p, w, b)
  {
    hide WellOrdered, AllSane, TxsOk, TotalFees, NoOverwrite;
    forall o | o in OutsideInputs(b.txs) ensures (o in u <==> o in w) && (o in u ==> u[o] == w[o]) {
      assert Get(u, o) == Get(w, o);
    }
    if ValidBlock(p, u, b) {
      ValidElsewhere(p, u, u, b);
      ValidElsewhere(p, u, w, b);
    }
    if ValidBlock(p, w, b) {
      ValidElsewhere(p, w, w, b);
      ValidElsewhere(p, w, u, b);
    }
  }
}
