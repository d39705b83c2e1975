/** Money: an exact conservation law for every valid block, and the bound it puts on the
    total value of unspent outputs along every run. */
module Supply {
  import opened Types
  import opened Ledger
  import opened Validate
  import opened ChainState

  ghost function Total(u: Utxos): int {
    if u == map[] then 0
    else
      var o :| o in u;
      u[o].amount + Total(u - {o})
  }

  lemma {:induction false} TotalWithout(u: Utxos, o: OutPoint)
    requires o in u
    ensures Total(u) == u[o].amount + Total(u - {o})
    decreases |u|
  {
    var k :| k in u && Total(u) == u[k].amount + Total(u - {k});
    if k != o {
      TotalWithout(u - {k}, o);
      TotalWithout(u - {o}, k);
      assert u - {k} - {o} == u - {o} - {k};
    }
  }

  lemma {:induction false} TotalUnion(u: Utxos, v: Utxos)
    requires u.Keys !! v.Keys
    ensures Total(u + v) == Total(u) + Total(v)
    decreases |v|
  {
    if v == map[] {
      assert u + v == u;
    } else {
      var o :| o in v;
      UnionWithout(u, v, o);
      TotalUnion(u, v - {o});
      TotalWithout(v, o);
      TotalWithout(u + v, o);
    }
  }

  lemma UnionWithout(u: Utxos, v: Utxos, o: OutPoint)
    requires o in v && u.Keys !! v.Keys
    ensures (u + v) - {o} == u + (v - {o}) && (u + v)[o] == v[o]
    ensures u.Keys !! (v - {o}).Keys && |v - {o}| < |v|
  {
    SmallerWithout(v, o);
    assert ((u + v) - {o}).Keys == (u + (v - {o})).Keys;
  }

  lemma SmallerWithout(v: Utxos, o: OutPoint)
    requires o in v
    ensures |v - {o}| < |v|
  {
    assert (v - {o}).Keys == v.Keys - {o};
    assert |v| == |v.Keys|;
    assert |v - {o}| == |(v - {o}).Keys|;
  }

  // Removing distinct unspent outpoints removes exactly their amounts.
  lemma {:induction false} TotalMinusInputs(u: Utxos, ins: seq<OutPoint>)
    requires forall i :: 0 <= i < |ins| ==> ins[i] in u
    requires forall i, j :: 0 <= i < j < |ins| ==> ins[i] != ins[j]
    ensures Total(u - (set o | o in ins)) == Total(u) - InSum(u, ins)
  {
    if ins == [] {
      assert u - (set o | o in ins) == u;
    } else {
      var n := |ins| - 1;
      var rest := u - (set o | o in ins[..n]);
      TotalMinusInputs(u, ins[..n]);
      assert ins[n] in rest;
      TotalWithout(rest, ins[n]);
      assert rest - {ins[n]} == u - (set o | o in ins);
    }
  }

  // Value sent to outputs that can never be spent leaves the utxo set for good.
  function Burned(outs: seq<TxOut>): int {
    if outs == [] then 0
    else
      var last := outs[|outs| - 1];
      Burned(outs[..|outs| - 1]) + if IsUnspendable(last.pkScript) then last.value else 0
  }

  function CreatedUpTo(tx: Tx, height: int, n: nat): Utxos {
    map o | o in CreatedSet(tx) && o.index < n :: CoinOf(tx, height, o)
  }

  lemma CreatedNext(tx: Tx, height: int, n: nat)
    requires n < |tx.outs|
    ensures CreatedUpTo(tx, height, n + 1)
         == if IsUnspendable(tx.outs[n].pkScript) then CreatedUpTo(tx, height, n)
            else CreatedUpTo(tx, height, n)[OutPoint(tx.hash, n) := CoinOf(tx, height, OutPoint(tx.hash, n))]
  {
    hide IsUnspendable;
    var o := OutPoint(tx.hash, n);
    assert o in CreatedSet(tx) <==> !IsUnspendable(tx.outs[n].pkScript);
    assert forall p :: p in CreatedSet(tx) && p.index < n + 1 && !(p.index < n) ==> p == o;
  }

  lemma {:induction false} TotalCreatedUpTo(tx: Tx, height: int, n: nat)
    requires n <= |tx.outs|
    ensures Total(CreatedUpTo(tx, height, n)) + Burned(tx.outs[..n]) == OutSum(tx.outs[..n])
  {
    hide IsUnspendable;
    if n > 0 {
      var m := n - 1;
      TotalCreatedUpTo(tx, height, m);
      TakeTake(tx.outs, m, n);
      CreatedNext(tx, height, m);
      if !IsUnspendable(tx.outs[m].pkScript) {
        var o := OutPoint(tx.hash, m);
        TotalWithout(CreatedUpTo(tx, height, n), o);
        assert CreatedUpTo(tx, height, n) - {o} == CreatedUpTo(tx, height, m);
      }
    }
  }

  lemma TotalCreated(tx: Tx, height: int)
    ensures Total(Created(tx, height)) + Burned(tx.outs) == OutSum(tx.outs)
  {
    TotalCreatedUpTo(tx, height, |tx.outs|);
    assert CreatedUpTo(tx, height, |tx.outs|) == Created(tx, height);
    TakeAll(tx.outs);
  }

  // One transaction: minted for a coinbase, paid from inputs otherwise.
  lemma TotalApplyTx(u: Utxos, tx: Tx, height: int)
    requires DistinctInputs(tx) && Spendable(u, tx) && u.Keys !! CreatedSet(tx)
    ensures Total(ApplyTx(u, tx, height)) ==
      Total(u) + (if IsCoinBase(tx) then OutSum(tx.outs) else -Fee(u, tx)) - Burned(tx.outs)
  {
    hide IsUnspendable;
    var kept := if IsCoinBase(tx) then u else u - InputSet(tx);
    TotalCreated(tx, height);
    TotalUnion(kept, Created(tx, height));
    if !IsCoinBase(tx) {
      TotalMinusInputs(u, tx.ins);
    }
  }

  function AllBurned(txs: seq<Tx>): int {
    if txs == [] then 0 else AllBurned(txs[..|txs| - 1]) + Burned(txs[|txs| - 1].outs)
  }

  lemma {:induction false} TotalApplyTxs(u: Utxos, txs: seq<Tx>, height: int)
    requires txs != [] && Connectable(u, txs, height)
    requires CoinBaseFirst(txs) && DistinctIds(txs) && NoOverwrite(u, txs)
    requires forall i :: 0 <= i < |txs| ==> DistinctInputs(txs[i])
    ensures Total(ApplyTxs(u, txs, height))
         == Total(u) + OutSum(txs[0].outs) - TotalFees(u, txs, height) - AllBurned(txs)
  {
    var n := |txs| - 1;
    var init := txs[..n];
    NextCreatesFresh(u, txs, n, height);
    TotalApplyTx(ApplyTxs(u, init, height), txs[n], height);
    if n > 0 {
      NoOverwritePrefix(u, txs, n);
      TotalApplyTxs(u, init, height);
    } else {
      assert init == [];
    }
  }

  /** Conservation: a valid block changes the total by its coinbase, less the fees it
      collected and the value it burned. */
  lemma BlockConservesValue(p: Params, u: Utxos, b: Block)
    requires ValidBlock(p, u, b)
    ensures Total(ApplyBlock(u, b))
         == Total(u) + OutSum(b.txs[0].outs) - TotalFees(u, b.txs, b.height) - AllBurned(b.txs)
    ensures Total(ApplyBlock(u, b)) <= Total(u) + p.subsidy(b.height)
  {
    TxsOkConnectable(u, b.txs, b.height, p.maturity);
    TotalApplyTxs(u, b.txs, b.height);
    AllBurnedNonNegative(b.txs);
  }

  lemma {:induction false} BurnedNonNegative(outs: seq<TxOut>)
    requires ValuesInRange(outs)
    ensures Burned(outs) >= 0
  {
    if outs != [] {
      BurnedNonNegative(outs[..|outs| - 1]);
    }
  }

  lemma {:induction false} AllBurnedNonNegative(txs: seq<Tx>)
    requires forall i :: 0 <= i < |txs| ==> Sane(txs[i])
    ensures AllBurned(txs) >= 0
  {
    if txs != [] {
      AllBurnedNonNegative(txs[..|txs| - 1]);
      assert Sane(txs[|txs| - 1]);
      BurnedNonNegative(txs[|txs| - 1].outs);
    }
  }

  function SubsidySum(p: Params, bs: seq<Block>): nat {
    if |bs| <= 1 then 0 else SubsidySum(p, bs[..|bs| - 1]) + p.subsidy(bs[|bs| - 1].height)
  }

  lemma {:induction false} ChainSupply(p: Params, bs: seq<Block>)
    requires ValidChain(p, bs)
    ensures Total(Replay(bs)) <= SubsidySum(p, bs)
  {
    if |bs| > 1 {
      PrefixValid(p, bs, |bs| - 1);
      ChainSupply(p, bs[..|bs| - 1]);
      assert SoundAt(p, bs, |bs| - 1);
      BlockConservesValue(p, Replay(bs[..|bs| - 1]), bs[|bs| - 1]);
    }
  }

  /** Over every run of connects and disconnects the total value of unspent outputs never
      exceeds the subsidies of the heights on the current main chain. */
  lemma RunSupply(p: Params, g: Block, ops: seq<Op>)
    requires g.height == 0 && IsRun(p, State(GenesisDb(g), [g]), ops)
    ensures var s := Final(p, State(GenesisDb(g), [g]), ops);
      Total(s.db.utxos) <= SubsidySum(p, s.main)
  {
    RunInvariant(p, g, ops);
    ChainSupply(p, Final(p, State(GenesisDb(g), [g]), ops).main);
  }
}
