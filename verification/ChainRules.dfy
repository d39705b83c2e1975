/** The rules of acceptance as facts about a whole chain: what its stored journal says of
    every spent coin, and what each block pays. */
module ChainRules {
  import opened Types
  import opened Ledger
  import opened Validate
  import opened ChainState
  import UtxoView

  lemma {:induction false} CoinSumInputs(w: Utxos, ins: seq<OutPoint>, coins: seq<Coin>)
    requires |coins| == |ins| && forall i :: 0 <= i < |ins| ==> ins[i] in w && coins[i] == w[ins[i]]
    ensures CoinSum(coins) == InSum(w, ins)
    decreases |ins|
  {
    if ins != [] {
      CoinSumInputs(w, ins[..|ins| - 1], coins[..|ins| - 1]);
    }
  }

  // One transaction at its turn.
  lemma TxCoins(w: Utxos, tx: Tx, height: int, maturity: int)
    requires InputsOk(w, tx, height, maturity)
    ensures Spendable(w, tx)
    ensures forall k :: 0 <= k < |TxSpends(w, tx)| ==> Ripe(TxSpends(w, tx)[k], height, maturity)
    ensures Fee(w, tx) == CoinSum(TxSpends(w, tx)) - if IsCoinBase(tx) then 0 else OutSum(tx.outs)
  {
    InputsOkSpendable(w, tx, height, maturity);
    var coins := TxSpends(w, tx);
    if !IsCoinBase(tx) {
      CoinSumInputs(w, tx.ins, coins);
      forall k | 0 <= k < |coins| ensures Ripe(coins[k], height, maturity) {
        assert InputOk(w[tx.ins[k]], height, maturity);
      }
    }
  }

  lemma {:induction false} TxsCoins(u: Utxos, txs: seq<Tx>, height: int, maturity: int)
    requires TxsOk(u, txs, height, maturity)
    ensures Connectable(u, txs, height)
    ensures forall k :: 0 <= k < |Spends(u, txs, height)| ==> Ripe(Spends(u, txs, height)[k], height, maturity)
    ensures TotalFees(u, txs, height) == CoinSum(Spends(u, txs, height)) - PaidOut(txs)
    decreases |txs|
  {
    hide InputsOk, Ripe, Fee, OutSum;
    TxsOkConnectable(u, txs, height, maturity);
    if txs != [] {
      var init, tx := txs[..|txs| - 1], txs[|txs| - 1];
      var w := ApplyTxs(u, init, height);
      TxsCoins(u, init, height, maturity);
      TxCoins(w, tx, height, maturity);
      CoinSumJoin(Spends(u, init, height), TxSpends(w, tx));
    }
  }

  /** Every coin a block of a valid chain has spent was, by its journal entry, worth between
      nothing and the maximum, and at least as deep as the maturity if a coinbase made it. */
  lemma JournalMature(p: Params, db: Db, bs: seq<Block>, i: nat)
    requires Mirrors(p, db, bs) && 1 <= i < |bs|
    ensures bs[i].hash in db.journal
    ensures forall k :: 0 <= k < |db.journal[bs[i].hash]| ==>
      var c := db.journal[bs[i].hash][k];
      && 0 <= c.amount <= MAX_SATOSHI
      && (c.coinBase ==> bs[i].height - c.height >= p.maturity)
  {
    hide Replay, SpendJournal;
    MirrorJournal(p, db, bs, i);
    assert SoundAt(p, bs, i);
    TxsCoins(Replay(bs[..i]), bs[i].txs, bs[i].height, p.maturity);
  }

  /** No block of a valid chain pays out more than its journal entry and its subsidy bring
      in, or creates an output out of range; and each has passed the remaining rules. */
  lemma JournalCovers(p: Params, db: Db, bs: seq<Block>, i: nat)
    requires Mirrors(p, db, bs) && 1 <= i < |bs|
    ensures bs[i].hash in db.journal && bs[i].txs != []
    ensures OutSum(bs[i].txs[0].outs) + PaidOut(bs[i].txs) <= p.subsidy(bs[i].height) + CoinSum(db.journal[bs[i].hash])
    ensures forall j, k :: 0 <= j < |bs[i].txs| && 0 <= k < |bs[i].txs[j].outs| ==>
      0 <= bs[i].txs[j].outs[k].value <= MAX_SATOSHI
    ensures bs[i].hash != p.genesisHash && p.otherRules(bs[i].hash)
  {
    hide Replay, SpendJournal, OutSum;
    MirrorJournal(p, db, bs, i);
    assert SoundAt(p, bs, i);
    TxsCoins(Replay(bs[..i]), bs[i].txs, bs[i].height, p.maturity);
    forall j | 0 <= j < |bs[i].txs| ensures Sane(bs[i].txs[j]) {
      assert AllSane(bs[i]);
    }
  }

  /** What the stored set holds, without replaying anything */

  // A transaction with the height of its block.
  datatype Placed = Placed(tx: Tx, height: int)

  function PlacedAt(txs: seq<Tx>, height: int): seq<Placed> {
    seq(|txs|, i requires 0 <= i < |txs| => Placed(txs[i], height))
  }

  // All transactions of a chain in order; those of the genesis leave no trace.
  function History(bs: seq<Block>): seq<Placed> {
    if |bs| <= 1 then [] else History(bs[..|bs| - 1]) + PlacedAt(bs[|bs| - 1].txs, bs[|bs| - 1].height)
  }

  function Applied(h: seq<Placed>): Utxos {
    if h == [] then map[] else ApplyTx(Applied(h[..|h| - 1]), h[|h| - 1].tx, h[|h| - 1].height)
  }

  // A spendable output appears under o.
  predicate Fills(s: Placed, o: OutPoint) {
    o.hash == s.tx.hash && o.index < |s.tx.outs| && !IsUnspendable(s.tx.outs[o.index].pkScript)
  }

  // And it is the coin c.
  predicate Makes(s: Placed, o: OutPoint, c: Coin) {
    && Fills(s, o)
    && c.amount == s.tx.outs[o.index].value && c.pkScript == s.tx.outs[o.index].pkScript
    && c.height == s.height && (c.coinBase <==> s.tx.ins == [OutPoint(ZERO_HASH, MAX_UINT32)])
  }

  predicate Takes(s: Placed, o: OutPoint) {
    s.tx.ins != [OutPoint(ZERO_HASH, MAX_UINT32)] && o in s.tx.ins
  }

  // Made by step k, and neither taken nor made again since.
  ghost predicate Standing(h: seq<Placed>, o: OutPoint, c: Coin, k: nat) {
    && k < |h| && Makes(h[k], o, c)
    && forall j :: k < j < |h| ==> !Takes(h[j], o) && !Fills(h[j], o)
  }

  lemma StepAt(u: Utxos, s: Placed, o: OutPoint, c: Coin)
    ensures Makes(s, o, c) ==> Get(ApplyTx(u, s.tx, s.height), o) == Some(c)
    ensures Fills(s, o) && Get(ApplyTx(u, s.tx, s.height), o) == Some(c) ==> Makes(s, o, c)
    ensures !Fills(s, o) && Takes(s, o) ==> Get(ApplyTx(u, s.tx, s.height), o) == None
    ensures !Fills(s, o) && !Takes(s, o) ==> Get(ApplyTx(u, s.tx, s.height), o) == Get(u, o)
  {
    hide IsUnspendable;
    UtxoView.ApplyTxAt(u, s.tx, s.height, o);
    if Creates(s.tx, o) {
      assert Makes(s, o, CoinOf(s.tx, s.height, o));
    }
  }

  lemma StandingNext(h: seq<Placed>, o: OutPoint, c: Coin, k: nat)
    requires h != []
    ensures k < |h| - 1 ==>
      (Standing(h, o, c, k) <==>
        Standing(h[..|h| - 1], o, c, k) && !Takes(h[|h| - 1], o) && !Fills(h[|h| - 1], o))
    ensures k == |h| - 1 ==> (Standing(h, o, c, k) <==> Makes(h[|h| - 1], o, c))
  {
    hide Makes, Takes;
    var init := h[..|h| - 1];
    assert forall j :: 0 <= j < |h| - 1 ==> init[j] == h[j];
  }

  lemma {:induction false} AppliedExactly(h: seq<Placed>, o: OutPoint, c: Coin)
    ensures Get(Applied(h), o) == Some(c) <==> exists k: nat :: Standing(h, o, c, k)
    decreases |h|
  {
    hide Standing, Makes, Takes;
    if h == [] {
      NothingStanding(o, c);
    } else {
      var n := |h| - 1;
      AppliedExactly(h[..n], o, c);
      StepAt(Applied(h[..n]), h[n], o, c);
      StandingNext(h, o, c, n);
      if Get(Applied(h), o) == Some(c) && !Standing(h, o, c, n) {
        var k: nat :| Standing(h[..n], o, c, k);
        StandingIn(h[..n], o, c, k);
        StandingNext(h, o, c, k);
      }
      if k: nat :| Standing(h, o, c, k) {
        StandingIn(h, o, c, k);
        StandingNext(h, o, c, k);
      }
    }
  }

  lemma StandingIn(h: seq<Placed>, o: OutPoint, c: Coin, k: nat)
    requires Standing(h, o, c, k)
    ensures k < |h|
  {
  }

  lemma NothingStanding(o: OutPoint, c: Coin)
    ensures forall k: nat :: !Standing([], o, c, k)
  {
  }

  lemma {:induction false} AppliedBlock(h: seq<Placed>, txs: seq<Tx>, height: int)
    ensures Applied(h + PlacedAt(txs, height)) == ApplyTxs(Applied(h), txs, height)
    decreases |txs|
  {
    hide ApplyTx;
    var all := h + PlacedAt(txs, height);
    if txs == [] {
      assert all == h;
    } else {
      var n := |txs| - 1;
      assert all[..|all| - 1] == h + PlacedAt(txs[..n], height);
      AppliedBlock(h, txs[..n], height);
    }
  }

  lemma {:induction false} ReplayApplied(bs: seq<Block>)
    ensures Replay(bs) == Applied(History(bs))
    decreases |bs|
  {
    if |bs| > 1 {
      ReplayApplied(bs[..|bs| - 1]);
      AppliedBlock(History(bs[..|bs| - 1]), bs[|bs| - 1].txs, bs[|bs| - 1].height);
    }
  }

  /** A coin is in the stored set exactly when some transaction of the main chain made it,
      with the value and the script of its output, the height of its block and the flag of
      a coinbase, and no later one has taken it or made it again. */
  lemma StoredExactly(p: Params, db: Db, bs: seq<Block>, o: OutPoint, c: Coin)
    requires Mirrors(p, db, bs)
    ensures (o in db.utxos && db.utxos[o] == c) <==> exists k: nat :: Standing(History(bs), o, c, k)
  {
    hide ValidChain, History, Applied, Standing;
    ReplayApplied(bs);
    AppliedExactly(History(bs), o, c);
  }

  lemma {:induction false} TotalApplied(bs: seq<Block>)
    requires bs != []
    ensures TotalTxns(bs) == |bs[0].txs| + |History(bs)|
    decreases |bs|
  {
    if |bs| > 1 {
      TotalApplied(bs[..|bs| - 1]);
    } else {
      assert bs[..0] == [] && TotalTxns([]) == 0;
    }
  }

  // The stored total counts the transactions of the whole chain.
  lemma StoredTotal(p: Params, db: Db, bs: seq<Block>)
    requires Mirrors(p, db, bs)
    ensures db.totalTxns == |bs[0].txs| + |History(bs)|
  {
    hide History;
    TotalApplied(bs);
  }
}
