/** The byte journal of a chain: every coin a valid chain ever holds or spends fits the
    storage format, so what connecting a block stores is what disconnecting it reads. */
module ChainJournal {
  import opened Types
  import opened Ledger
  import opened Validate
  import opened ChainState
  import opened Compress
  import opened Journal

  // No script of the block is longer than a slice can be.
  predicate ShortScripts(b: Block) {
    forall i, k :: 0 <= i < |b.txs| && 0 <= k < |b.txs[i].outs| ==> |b.txs[i].outs[k].pkScript| < MAX_LENGTH
  }

  predicate AllShort(bs: seq<Block>) {
    forall i :: 0 <= i < |bs| ==> ShortScripts(bs[i])
  }

  predicate Fits(c: Coin, top: int) {
    0 <= c.amount <= MAX_SATOSHI && 0 < c.height <= top && |c.pkScript| < MAX_LENGTH
  }

  predicate AllFit(u: Utxos, top: int) {
    forall o :: o in u ==> Fits(u[o], top)
  }

  predicate OutputsFit(tx: Tx) {
    ValuesInRange(tx.outs) && forall k :: 0 <= k < |tx.outs| ==> |tx.outs[k].pkScript| < MAX_LENGTH
  }

  lemma {:induction false} ReplayFits(u: Utxos, txs: seq<Tx>, height: int, top: int)
    requires AllFit(u, top) && 0 < height <= top
    requires forall i :: 0 <= i < |txs| ==> OutputsFit(txs[i])
    ensures AllFit(ApplyTxs(u, txs, height), top)
  {
    if txs != [] {
      ReplayFits(u, txs[..|txs| - 1], height, top);
      assert OutputsFit(txs[|txs| - 1]);
    }
  }

  lemma {:induction false} SpendsFit(u: Utxos, txs: seq<Tx>, height: int, top: int)
    requires AllFit(u, top) && 0 < height <= top && Connectable(u, txs, height)
    requires forall i :: 0 <= i < |txs| ==> OutputsFit(txs[i])
    ensures forall c :: c in Spends(u, txs, height) ==> Fits(c, top)
  {
    if txs != [] {
      var init := txs[..|txs| - 1];
      SpendsFit(u, init, height, top);
      ReplayFits(u, init, height, top);
    }
  }

  lemma BlockOutputsFit(b: Block)
    requires AllSane(b) && ShortScripts(b)
    ensures forall i :: 0 <= i < |b.txs| ==> OutputsFit(b.txs[i])
  {
  }

  // Amounts come from checked outputs and heights from blocks above genesis.
  lemma {:induction false} ChainFits(p: Params, bs: seq<Block>, top: int)
    requires ValidChain(p, bs) && AllShort(bs) && |bs| - 1 <= top
    ensures AllFit(Replay(bs), top)
  {
    if |bs| > 1 {
      var n := |bs| - 1;
      assert SoundAt(p, bs, n);
      PrefixValid(p, bs, n);
      ChainFits(p, bs[..n], top);
      BlockOutputsFit(bs[n]);
      ReplayFits(Replay(bs[..n]), bs[n].txs, bs[n].height, top);
    }
  }

  lemma BlockSpendsFit(p: Params, bs: seq<Block>, i: nat)
    requires ValidChain(p, bs) && AllShort(bs) && 1 <= i < |bs|
    ensures Connectable(Replay(bs[..i]), bs[i].txs, bs[i].height)
    ensures forall c :: c in Spends(Replay(bs[..i]), bs[i].txs, bs[i].height) ==> Fits(c, |bs| - 1)
  {
    assert SoundAt(p, bs, i);
    PrefixValid(p, bs, i);
    ChainFits(p, bs[..i], |bs| - 1);
    BlockOutputsFit(bs[i]);
    TxsOkConnectable(Replay(bs[..i]), bs[i].txs, bs[i].height, p.maturity);
    SpendsFit(Replay(bs[..i]), bs[i].txs, bs[i].height, |bs| - 1);
  }

  /** After any run, the byte entry of every block above genesis can be written, and read
      with that block's transactions it is the journal's list, to the last byte. */
  lemma StoredJournalReadsBack(c: Curve, p: Params, db: Db, bs: seq<Block>, i: nat)
    requires RecoveryLaw(c) && Mirrors(p, db, bs) && AllShort(bs)
    requires |bs| - 1 <= MAX_INT32 && 1 <= i < |bs|
    ensures bs[i].txs != [] && bs[i].hash in db.journal && AllStorable(db.journal[bs[i].hash])
    ensures var coins := db.journal[bs[i].hash];
      DecodeEntry(c, JournalBytes(c, coins), InputCount(bs[i].txs[1..])) == Entry(coins, |JournalBytes(c, coins)|)
  {
    hide RecoveryLaw, DecodeEntry, JournalBytes, InputCount, Spends, Replay;
    MirrorJournal(p, db, bs, i);
    BlockSpendsFit(p, bs, i);
    assert SoundAt(p, bs, i);
    var coins := db.journal[bs[i].hash];
    assert forall k :: 0 <= k < |coins| ==> coins[k] in coins && Fits(coins[k], |bs| - 1);
    SpendsCount(Replay(bs[..i]), bs[i].txs, bs[i].height);
    InputCountIsSpent(bs[i].txs);
    JournalRoundTrip(c, coins);
  }

  // And every entry of the utxo set fits its storage format.
  lemma StoredUtxosFit(p: Params, db: Db, bs: seq<Block>)
    requires Mirrors(p, db, bs) && AllShort(bs) && |bs| - 1 <= MAX_INT32
    ensures forall o :: o in db.utxos ==> Storable(db.utxos[o])
  {
    ChainFits(p, bs, |bs| - 1);
  }
}
