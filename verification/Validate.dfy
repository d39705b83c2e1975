/** The value rules of block connection: sanity of outputs, inputs against the view, fee
    accumulation and the coinbase limit, computed with wrapping int64 sums and proved
    equal to the same rules over exact integers. */
module Validate {
  import opened Types
  import opened Ledger
  import opened UtxoView

  function OutSum(outs: seq<TxOut>): int {
    if outs == [] then 0 else OutSum(outs[..|outs| - 1]) + outs[|outs| - 1].value
  }

  predicate ValuesInRange(outs: seq<TxOut>) {
    forall i :: 0 <= i < |outs| ==> 0 <= outs[i].value <= MAX_SATOSHI
  }

  predicate IsNull(o: OutPoint) {
    o.index == MAX_UINT32 && o.hash == ZERO_HASH
  }

  /** What CheckTransactionSanity promises, over exact sums */
  predicate Sane(tx: Tx) {
    && tx.ins != [] && tx.outs != []
    && ValuesInRange(tx.outs)
    && OutSum(tx.outs) <= MAX_SATOSHI
    && DistinctInputs(tx)
    && (!IsCoinBase(tx) ==> forall i :: 0 <= i < |tx.ins| ==> !IsNull(tx.ins[i]))
  }

  lemma {:induction false} OutSumPrefix(outs: seq<TxOut>, i: nat)
    requires i <= |outs| && ValuesInRange(outs)
    ensures 0 <= OutSum(outs[..i]) <= OutSum(outs)
  {
    if i == |outs| {
      assert outs[..i] == outs;
      if outs != [] {
        OutSumPrefix(outs[..i - 1], i - 1);
        assert outs[..i - 1][..i - 1] == outs[..i - 1];
      }
    } else {
      var n := |outs| - 1;
      assert outs[..n][..i] == outs[..i];
      OutSumPrefix(outs[..n], i);
    }
  }

  method CheckOutputs(outs: seq<TxOut>) returns (ok: bool)
    ensures ok <==> ValuesInRange(outs) && OutSum(outs) <= MAX_SATOSHI
  {
    var total := 0;
    for i := 0 to |outs|
      invariant ValuesInRange(outs[..i])
      invariant total == OutSum(outs[..i]) && 0 <= total <= MAX_SATOSHI
    {
      var satoshi := outs[i].value;
      if satoshi < 0 || satoshi > MAX_SATOSHI {
        return false;
      }
      total := Wrap64(total + satoshi);
      assert outs[..i + 1][..i] == outs[..i];
      assert total == OutSum(outs[..i + 1]);
      if total < 0 || total > MAX_SATOSHI {
        if ValuesInRange(outs) {
          OutSumPrefix(outs, i + 1);
        }
        return false;
      }
    }
    assert outs[..|outs|] == outs;
    ok := true;
  }

  method CheckDistinct(ins: seq<OutPoint>) returns (ok: bool)
    ensures ok <==> forall i, j :: 0 <= i < j < |ins| ==> ins[i] != ins[j]
  {
    var existing: set<OutPoint> := {};
    for i := 0 to |ins|
      invariant forall o :: o in existing <==> o in ins[..i]
      invariant forall j, k :: 0 <= j < k < i ==> ins[j] != ins[k]
    {
      if ins[i] in existing {
        return false;
      }
      existing := existing + {ins[i]};
    }
    ok := true;
  }

  const MAX_BLOCK_BASE_SIZE: nat := 1_000_000
  const MIN_COINBASE_SCRIPT_LEN: nat := 2
  const MAX_COINBASE_SCRIPT_LEN: nat := 100

  // The two measures of the wire encoding, taken beforehand: the size without witness
  // data, and the length of the script of the first input.
  predicate SizesOk(tx: Tx, strippedSize: nat, scriptLen: nat) {
    && strippedSize <= MAX_BLOCK_BASE_SIZE
    && (IsCoinBase(tx) ==> MIN_COINBASE_SCRIPT_LEN <= scriptLen <= MAX_COINBASE_SCRIPT_LEN)
  }

  // Accepts exactly the sane transactions of acceptable sizes: the int64 accumulator never
  // hides an overflow.
  method CheckTransactionSanity(tx: Tx, strippedSize: nat, scriptLen: nat) returns (ok: bool)
    ensures ok <==> Sane(tx) && SizesOk(tx, strippedSize, scriptLen)
    ensures ok <==>
      && |tx.ins| > 0 && |tx.outs| > 0 && strippedSize <= 1_000_000
      && (forall i :: 0 <= i < |tx.outs| ==> 0 <= tx.outs[i].value <= MAX_SATOSHI) && OutSum(tx.outs) <= MAX_SATOSHI
      && (forall i, j :: 0 <= i < j < |tx.ins| ==> tx.ins[i] != tx.ins[j])
      && (if tx.ins == [OutPoint(ZERO_HASH, MAX_UINT32)] then 2 <= scriptLen <= 100
          else OutPoint(ZERO_HASH, MAX_UINT32) !in tx.ins)
  {
    if |tx.ins| == 0 || |tx.outs| == 0 {
      return false;
    }
    if strippedSize > MAX_BLOCK_BASE_SIZE {
      return false;
    }
    ok := CheckOutputs(tx.outs);
    if !ok {
      return false;
    }
    ok := CheckDistinct(tx.ins);
    if !ok {
      return false;
    }
    if IsCoinBase(tx) {
      if scriptLen < MIN_COINBASE_SCRIPT_LEN || scriptLen > MAX_COINBASE_SCRIPT_LEN {
        return false;
      }
    } else {
      for i := 0 to |tx.ins|
        invariant forall j :: 0 <= j < i ==> !IsNull(tx.ins[j])
      {
        if IsNull(tx.ins[i]) {
          return false;
        }
      }
    }
    ok := true;
  }

  /** Inputs */

  function InSum(w: Utxos, ins: seq<OutPoint>): int {
    if ins == [] then 0
    else
      var o := ins[|ins| - 1];
      InSum(w, ins[..|ins| - 1]) + if o in w then w[o].amount else 0
  }

  predicate InputOk(c: Coin, height: int, maturity: int) {
    && (c.coinBase ==> height - c.height >= maturity)
    && 0 <= c.amount <= MAX_SATOSHI
  }

  predicate InputsOk(w: Utxos, tx: Tx, height: int, maturity: int) {
    IsCoinBase(tx) ||
    (&& (forall i :: 0 <= i < |tx.ins| ==> tx.ins[i] in w && InputOk(w[tx.ins[i]], height, maturity))
     && InSum(w, tx.ins) <= MAX_SATOSHI
     && OutSum(tx.outs) <= InSum(w, tx.ins))
  }

  function Fee(w: Utxos, tx: Tx): int {
    if IsCoinBase(tx) then 0 else InSum(w, tx.ins) - OutSum(tx.outs)
  }

  lemma {:induction false} InSumPrefix(w: Utxos, ins: seq<OutPoint>, i: nat)
    requires i <= |ins|
    requires forall k :: 0 <= k < |ins| ==> ins[k] in w && w[ins[k]].amount >= 0
    ensures 0 <= InSum(w, ins[..i]) <= InSum(w, ins)
  {
    if i == |ins| {
      assert ins[..i] == ins;
      if ins != [] {
        InSumPrefix(w, ins[..i - 1], i - 1);
        assert ins[..i - 1][..i - 1] == ins[..i - 1];
      }
    } else {
      var n := |ins| - 1;
      assert ins[..n][..i] == ins[..i];
      InSumPrefix(w, ins[..n], i);
    }
  }

  function Unspent(v: Entries, o: OutPoint): Option<Coin> {
    if o in v && v[o].Some? && !v[o].value.spent then Some(v[o].value.coin) else None
  }

  // The input loop of CheckTransactionInputs.
  method SumInputs(v: Entries, ins: seq<OutPoint>, height: int, maturity: int, ghost w: Utxos)
    returns (r: Option<int>)
    requires forall i :: 0 <= i < |ins| ==> Get(w, ins[i]) == Unspent(v, ins[i])
    ensures r.Some? <==>
      && (forall i :: 0 <= i < |ins| ==> ins[i] in w && InputOk(w[ins[i]], height, maturity))
      && InSum(w, ins) <= MAX_SATOSHI
    ensures r.Some? ==> r.value == InSum(w, ins) >= 0
  {
    var total := 0;
    for i := 0 to |ins|
      invariant forall k :: 0 <= k < i ==> ins[k] in w && InputOk(w[ins[k]], height, maturity)
      invariant total == InSum(w, ins[..i]) && 0 <= total <= MAX_SATOSHI
    {
      assert Get(w, ins[i]) == Unspent(v, ins[i]);
      if ins[i] !in v || v[ins[i]].None? || v[ins[i]].value.spent {
        return None;
      }
      var utxo := v[ins[i]].value.coin;
      if utxo.coinBase && height - utxo.height < maturity {
        return None;
      }
      if utxo.amount < 0 || utxo.amount > MAX_SATOSHI {
        return None;
      }
      var last := total;
      total := Wrap64(total + utxo.amount);
      assert ins[..i + 1][..i] == ins[..i];
      assert total == InSum(w, ins[..i + 1]);
      if total < last || total > MAX_SATOSHI {
        if forall k :: 0 <= k < |ins| ==> ins[k] in w && InputOk(w[ins[k]], height, maturity) {
          InSumPrefix(w, ins, i + 1);
        }
        return None;
      }
    }
    assert ins[..|ins|] == ins;
    r := Some(total);
  }

  // Plain wrapping sum of output values; exact on sane transactions.
  method SumOutputs(outs: seq<TxOut>) returns (total: int)
    requires ValuesInRange(outs) && OutSum(outs) <= MAX_SATOSHI
    ensures total == OutSum(outs)
  {
    total := 0;
    for i := 0 to |outs|
      invariant total == OutSum(outs[..i])
    {
      OutSumPrefix(outs, i + 1);
      assert outs[..i + 1][..i] == outs[..i];
      total := Wrap64(total + outs[i].value);
    }
    assert outs[..|outs|] == outs;
  }

  // Yields the fee exactly when the inputs obey the rules on the utxo set w the view
  // stands for.
  method CheckTransactionInputs(tx: Tx, height: int, v: Entries, maturity: int, ghost w: Utxos)
    returns (r: Option<int>)
    requires Sane(tx)
    requires !IsCoinBase(tx) ==> forall i :: 0 <= i < |tx.ins| ==> Get(w, tx.ins[i]) == Unspent(v, tx.ins[i])
    ensures r.Some? <==> InputsOk(w, tx, height, maturity)
    ensures r.Some? ==> r.value == Fee(w, tx) && 0 <= r.value <= MAX_SATOSHI
    ensures !IsCoinBase(tx) ==> (r.Some? <==>
      && (forall i :: 0 <= i < |tx.ins| ==>
            && tx.ins[i] in w && 0 <= w[tx.ins[i]].amount <= MAX_SATOSHI
            && (w[tx.ins[i]].coinBase ==> height - w[tx.ins[i]].height >= maturity))
      && OutSum(tx.outs) <= InSum(w, tx.ins) <= MAX_SATOSHI)
    ensures !IsCoinBase(tx) && r.Some? ==> r.value == InSum(w, tx.ins) - OutSum(tx.outs)
  {
    if IsCoinBase(tx) {
      return Some(0);
    }
    var totalIn := SumInputs(v, tx.ins, height, maturity, w);
    if totalIn.None? {
      return None;
    }
    var totalOut := SumOutputs(tx.outs);
    OutSumPrefix(tx.outs, 0);
    if totalIn.value < totalOut {
      return None;
    }
    r := Some(totalIn.value - totalOut);
  }

  /** Whole blocks */

  datatype Params = Params(genesisHash: Hash,
                           maturity: int,
                           subsidy: int -> nat,        // CalcBlockSubsidy
                           bip30Checked: Block -> bool, // duplicate check in force
                           otherRules: Hash -> bool)    // scripts, sigops, sequence locks, hard-fork payouts

  function TotalFees(u: Utxos, txs: seq<Tx>, height: int): int {
    if txs == [] then 0
    else
      var init := txs[..|txs| - 1];
      TotalFees(u, init, height) + Fee(ApplyTxs(u, init, height), txs[|txs| - 1])
  }

  predicate TxsOk(u: Utxos, txs: seq<Tx>, height: int, maturity: int) {
    txs == [] ||
    (var init := txs[..|txs| - 1];
     && TxsOk(u, init, height, maturity)
     && InputsOk(ApplyTxs(u, init, height), txs[|txs| - 1], height, maturity)
     && TotalFees(u, txs, height) <= MAX_INT64)
  }

  predicate CoinbaseOk(p: Params, u: Utxos, b: Block) {
    b.txs != [] &&
    (var limit := p.subsidy(b.height) + TotalFees(u, b.txs, b.height);
     limit <= MAX_INT64 && OutSum(b.txs[0].outs) <= limit)
  }

  predicate AllSane(b: Block) {
    forall i :: 0 <= i < |b.txs| ==> Sane(b.txs[i])
  }

  /** A block that may be connected on top of the utxo set u */
  predicate ValidBlock(p: Params, u: Utxos, b: Block) {
    && WellOrdered(b) && AllSane(b) && NoOverwrite(u, b.txs)
    && TxsOk(u, b.txs, b.height, p.maturity)
    && CoinbaseOk(p, u, b)
    && b.hash != p.genesisHash && p.otherRules(b.hash)
  }

  lemma {:induction false} TxsOkPrefix(u: Utxos, txs: seq<Tx>, i: nat, height: int, maturity: int)
    requires i <= |txs| && TxsOk(u, txs, height, maturity)
    ensures TxsOk(u, txs[..i], height, maturity)
  {
    if i == |txs| {
      assert txs[..i] == txs;
    } else {
      var n := |txs| - 1;
      assert txs[..n][..i] == txs[..i];
      TxsOkPrefix(u, txs[..n], i, height, maturity);
    }
  }

  lemma TxsOkStep(u: Utxos, txs: seq<Tx>, i: nat, height: int, maturity: int)
    requires i < |txs|
    ensures TotalFees(u, txs[..i + 1], height)
         == TotalFees(u, txs[..i], height) + Fee(ApplyTxs(u, txs[..i], height), txs[i])
    ensures TxsOk(u, txs[..i + 1], height, maturity) <==>
      && TxsOk(u, txs[..i], height, maturity)
      && InputsOk(ApplyTxs(u, txs[..i], height), txs[i], height, maturity)
      && TotalFees(u, txs[..i + 1], height) <= MAX_INT64
  {
    assert txs[..i + 1][..i] == txs[..i];
  }

  lemma {:induction false} TxsOkConnectable(u: Utxos, txs: seq<Tx>, height: int, maturity: int)
    requires TxsOk(u, txs, height, maturity)
    ensures Connectable(u, txs, height)
  {
    if txs != [] {
      TxsOkConnectable(u, txs[..|txs| - 1], height, maturity);
    }
  }

  // The view at the turn of transaction i shows CheckTransactionInputs the replayed set.
  lemma MidBlockUnspent(v: Entries, store: Utxos, u: Utxos, b: Block, i: nat)
    requires WellOrdered(b) && Identified(u, b.txs)
    requires i < |b.txs| && !IsCoinBase(b.txs[i])
    requires MidBlock(v, store, u, b.txs, i, b.height)
    ensures forall k :: 0 <= k < |b.txs[i].ins| ==>
      Get(ApplyTxs(u, b.txs[..i], b.height), b.txs[i].ins[k]) == Unspent(v, b.txs[i].ins[k])
  {
    forall k | 0 <= k < |b.txs[i].ins|
      ensures Get(ApplyTxs(u, b.txs[..i], b.height), b.txs[i].ins[k]) == Unspent(v, b.txs[i].ins[k])
    {
      MidBlockInput(v, store, u, b, i, b.txs[i].ins[k]);
    }
  }

  /** Checking a block in a view: what the code decides for every block, whatever it
      refers to and whatever the view holds */

  // The unspent outputs a view shows by itself.
  function Shown(v: Entries): Utxos {
    map o | o in v && v[o].Some? && !v[o].value.spent :: v[o].value.coin
  }

  datatype Checked = Checked(entries: Entries, fees: int, coins: seq<Coin>)

  // None when some transaction breaks a rule at its turn.
  function CheckTxs(v: Entries, txs: seq<Tx>, height: int, maturity: int): Option<Checked> {
    if txs == [] then Some(Checked(v, 0, []))
    else
      var before := CheckTxs(v, txs[..|txs| - 1], height, maturity);
      if before.None? then None else CheckTx(before.value, txs[|txs| - 1], height, maturity)
  }

  function CheckTx(c: Checked, tx: Tx, height: int, maturity: int): Option<Checked> {
    var w := Shown(c.entries);
    if InputsOk(w, tx, height, maturity) && c.fees + Fee(w, tx) <= MAX_INT64 then
      var coins := if !IsCoinBase(tx) && AllPresent(c.entries, tx.ins) then EntryCoins(c.entries, tx.ins) else [];
      Some(Checked(ConnectEntries(c.entries, tx, height), c.fees + Fee(w, tx), c.coins + coins))
    else None
  }

  lemma CheckTxsNone(v: Entries, txs: seq<Tx>, height: int, maturity: int)
    ensures CheckTxs(v, txs[..0], height, maturity) == Some(Checked(v, 0, []))
  {
  }

  lemma CheckTxsNext(v: Entries, txs: seq<Tx>, i: nat, height: int, maturity: int)
    requires i < |txs| && CheckTxs(v, txs[..i], height, maturity).Some?
    ensures CheckTxs(v, txs[..i + 1], height, maturity)
         == CheckTx(CheckTxs(v, txs[..i], height, maturity).value, txs[i], height, maturity)
  {
    assert txs[..i + 1][..i] == txs[..i];
  }

  lemma {:induction false} CheckTxsStops(v: Entries, txs: seq<Tx>, i: nat, height: int, maturity: int)
    requires i <= |txs| && CheckTxs(v, txs[..i], height, maturity).None?
    ensures CheckTxs(v, txs, height, maturity).None?
  {
    if i == |txs| {
      assert txs[..i] == txs;
    } else {
      assert txs[..|txs| - 1][..i] == txs[..i];
      CheckTxsStops(v, txs[..|txs| - 1], i, height, maturity);
    }
  }

  // Unspent inputs are present ones.
  lemma InputsOkPresent(v: Entries, tx: Tx, height: int, maturity: int)
    requires InputsOk(Shown(v), tx, height, maturity) && !IsCoinBase(tx)
    ensures AllPresent(v, tx.ins)
  {
    forall o | o in tx.ins ensures o in v && v[o].Some? {
      var i :| 0 <= i < |tx.ins| && tx.ins[i] == o;
      assert tx.ins[i] in Shown(v);
    }
  }

  /** What the coins an accepted block spends are, and what it pays out of them */

  predicate Ripe(c: Coin, height: int, maturity: int) {
    0 <= c.amount <= MAX_SATOSHI && (c.coinBase ==> height - c.height >= maturity)
  }

  function CoinSum(coins: seq<Coin>): int {
    if coins == [] then 0 else CoinSum(coins[..|coins| - 1]) + coins[|coins| - 1].amount
  }

  // Outputs of all transactions that are no coinbase.
  function PaidOut(txs: seq<Tx>): int {
    if txs == [] then 0
    else PaidOut(txs[..|txs| - 1]) + if IsCoinBase(txs[|txs| - 1]) then 0 else OutSum(txs[|txs| - 1].outs)
  }

  lemma {:induction false} CoinSumJoin(a: seq<Coin>, b: seq<Coin>)
    ensures CoinSum(a + b) == CoinSum(a) + CoinSum(b)
  {
    if b == [] {
      assert a + b == a;
    } else {
      assert (a + b)[..|a + b| - 1] == a + b[..|b| - 1];
      CoinSumJoin(a, b[..|b| - 1]);
    }
  }

  lemma {:induction false} EntryCoinsSum(v: Entries, ins: seq<OutPoint>)
    requires AllPresent(v, ins) && forall i :: 0 <= i < |ins| ==> ins[i] in Shown(v)
    ensures CoinSum(EntryCoins(v, ins)) == InSum(Shown(v), ins)
    decreases |ins|
  {
    if ins != [] {
      var n := |ins| - 1;
      assert forall i :: 0 <= i < n ==> ins[..n][i] == ins[i];
      EntryCoinsSum(v, ins[..n]);
      assert EntryCoins(v, ins)[..n] == EntryCoins(v, ins[..n]);
      assert ins[n] in Shown(v);
    }
  }

  lemma CheckTxCoins(c: Checked, tx: Tx, height: int, maturity: int)
    requires CheckTx(c, tx, height, maturity).Some?
    ensures var d := CheckTx(c, tx, height, maturity).value;
      && |d.coins| >= |c.coins| && d.coins[..|c.coins|] == c.coins
      && (forall k :: |c.coins| <= k < |d.coins| ==> Ripe(d.coins[k], height, maturity))
      && d.fees - c.fees == CoinSum(d.coins) - CoinSum(c.coins) - if IsCoinBase(tx) then 0 else OutSum(tx.outs)
  {
    hide ConnectEntries, OutSum;
    var w := Shown(c.entries);
    if !IsCoinBase(tx) {
      InputsOkPresent(c.entries, tx, height, maturity);
      EntryCoinsSum(c.entries, tx.ins);
      var coins := EntryCoins(c.entries, tx.ins);
      forall k | 0 <= k < |coins| ensures Ripe(coins[k], height, maturity) {
        assert tx.ins[k] in w && InputOk(w[tx.ins[k]], height, maturity);
      }
      CoinSumJoin(c.coins, coins);
    } else {
      CoinSumJoin(c.coins, []);
    }
  }

  /** Every coin a checked list of transactions spends is in range and, off a coinbase, of
      the required depth; and the fees are what goes in less what goes out. */
  lemma {:induction false} CheckTxsCoins(v: Entries, txs: seq<Tx>, height: int, maturity: int)
    requires CheckTxs(v, txs, height, maturity).Some?
    ensures var c := CheckTxs(v, txs, height, maturity).value;
      && (forall k :: 0 <= k < |c.coins| ==> Ripe(c.coins[k], height, maturity))
      && c.fees == CoinSum(c.coins) - PaidOut(txs)
    decreases |txs|
  {
    hide CheckTx, Ripe, OutSum;
    if txs != [] {
      CheckTxsCoins(v, txs[..|txs| - 1], height, maturity);
      CheckTxCoins(CheckTxs(v, txs[..|txs| - 1], height, maturity).value, txs[|txs| - 1], height, maturity);
    }
  }

  // CheckTransactionInputs and connectTransaction for one transaction.
  method CheckNext(p: Params, tx: Tx, height: int, view: UtxoViewpoint, fees: int, stxos: seq<Coin>)
    returns (r: Option<int>, out: seq<Coin>)
    requires Sane(tx) && 0 <= fees <= MAX_INT64
    modifies view`entries
    ensures var c := CheckTx(Checked(old(view.entries), fees, stxos), tx, height, p.maturity);
      && (r.Some? <==> c.Some?)
      && (r.Some? ==> c == Some(Checked(view.entries, r.value, out)) && 0 <= r.value <= MAX_INT64)
  {
    hide Sane, ConnectEntries;
    out := stxos;
    ghost var w := Shown(view.entries);
    assert forall o :: Get(w, o) == Unspent(view.entries, o);
    r := CheckedTotal(p, tx, height, view.entries, fees, w);
    if r.Some? {
      if !IsCoinBase(tx) {
        InputsOkPresent(view.entries, tx, height, p.maturity);
      }
      var ok;
      ok, out := view.ConnectTransaction(tx, height, stxos);
    }
  }

  method CheckedTotal(p: Params, tx: Tx, height: int, v: Entries, fees: int, ghost w: Utxos)
    returns (r: Option<int>)
    requires Sane(tx) && 0 <= fees <= MAX_INT64
    requires !IsCoinBase(tx) ==> forall k :: 0 <= k < |tx.ins| ==> Get(w, tx.ins[k]) == Unspent(v, tx.ins[k])
    ensures r.Some? <==> InputsOk(w, tx, height, p.maturity) && fees + Fee(w, tx) <= MAX_INT64
    ensures r.Some? ==> r.value == fees + Fee(w, tx) && 0 <= r.value <= MAX_INT64
  {
    var fee := CheckTransactionInputs(tx, height, v, p.maturity, w);
    if fee.None? {
      return None;
    }
    var total := Wrap64(fees + fee.value);
    if total < fees {
      return None;
    }
    r := Some(total);
  }

  // The fee-accumulating loop of checkConnectBlock.
  method CheckTransactions(p: Params, b: Block, view: UtxoViewpoint) returns (r: Option<int>, stxos: seq<Coin>)
    requires AllSane(b)
    modifies view`entries
    ensures var c := CheckTxs(old(view.entries), b.txs, b.height, p.maturity);
      && (r.Some? <==> c.Some?)
      && (r.Some? ==> c == Some(Checked(view.entries, r.value, stxos)) && 0 <= r.value <= MAX_INT64)
  {
    hide CheckTxs, CheckTx, Sane;
    var fees := 0;
    stxos := [];
    CheckTxsNone(view.entries, b.txs, b.height, p.maturity);
    for i := 0 to |b.txs|
      invariant 0 <= fees <= MAX_INT64
      invariant CheckTxs(old(view.entries), b.txs[..i], b.height, p.maturity)
        == Some(Checked(view.entries, fees, stxos))
    {
      CheckTxsNext(old(view.entries), b.txs, i, b.height, p.maturity);
      r, stxos := CheckNext(p, b.txs[i], b.height, view, fees, stxos);
      if r.None? {
        CheckTxsStops(old(view.entries), b.txs, i + 1, b.height, p.maturity);
        return;
      }
      fees := r.value;
    }
    TakeAll(b.txs);
    r := Some(fees);
  }

  predicate CoinbaseWithin(p: Params, b: Block, fees: int) {
    b.txs != [] && (var limit := p.subsidy(b.height) + fees; limit <= MAX_INT64 && OutSum(b.txs[0].outs) <= limit)
  }

  // A wrapped limit is negative and so rejects every coinbase.
  method CheckCoinbaseValue(p: Params, b: Block, fees: int) returns (ok: bool)
    requires b.txs != [] && Sane(b.txs[0])
    requires 0 <= fees <= MAX_INT64 && p.subsidy(b.height) <= MAX_INT64
    ensures ok <==> CoinbaseWithin(p, b, fees)
    ensures ok <==> OutSum(b.txs[0].outs) <= p.subsidy(b.height) + fees <= MAX_INT64
  {
    var totalOut := SumOutputs(b.txs[0].outs);
    OutSumPrefix(b.txs[0].outs, 0);
    var expected := Wrap64(p.subsidy(b.height) + fees);
    ok := totalOut <= expected;
  }

  // Outpoints of all outputs, spendable or not.
  predicate IsOutput(txs: seq<Tx>, o: OutPoint) {
    exists i :: 0 <= i < |txs| && o.hash == txs[i].hash && o.index < |txs[i].outs|
  }

  lemma FetchKeepsMeaning(v: Entries, store: Utxos, outpoints: set<OutPoint>)
    requires Coherent(v, store)
    ensures Coherent(v + FetchedEntries(store, outpoints - v.Keys), store)
    ensures forall o :: Look(v + FetchedEntries(store, outpoints - v.Keys), store, o) == Look(v, store, o)
  {
  }

  function Outputs(txs: seq<Tx>): (s: set<OutPoint>)
    ensures forall o :: o in s <==> IsOutput(txs, o)
  {
    set i, k: nat | 0 <= i < |txs| && k < |txs[i].outs| :: OutPoint(txs[i].hash, k)
  }

  lemma {:induction false} AllCreatedAreOutputs(txs: seq<Tx>, o: OutPoint)
    requires o in AllCreated(txs)
    ensures IsOutput(txs, o)
  {
    var n := |txs| - 1;
    if o in AllCreated(txs[..n]) {
      AllCreatedAreOutputs(txs[..n], o);
      var i :| 0 <= i < n && o.hash == txs[..n][i].hash && o.index < |txs[..n][i].outs|;
      assert o.hash == txs[i].hash && o.index < |txs[i].outs|;
    } else {
      assert o.hash == txs[n].hash && o.index < |txs[n].outs|;
    }
  }

  lemma OutputsUnspent(u: Utxos, txs: seq<Tx>)
    requires Identified(u, txs)
    ensures NoOverwrite(u, txs) <==> forall o :: o in Outputs(txs) ==> o !in u
  {
    if !NoOverwrite(u, txs) {
      var o :| o in u && o.hash in TxIds(txs);
      AllCreatedAreOutputs(txs, o);
      assert o in Outputs(txs);
    }
    forall o | o in Outputs(txs) && o in u
      ensures !NoOverwrite(u, txs)
    {
      assert IsOutput(txs, o);
      var i :| 0 <= i < |txs| && o.hash == txs[i].hash && o.index < |txs[i].outs|;
      assert o.hash in TxIds(txs);
    }
  }

  // The duplicate check: are all of these outputs spent or absent?
  method NoneUnspent(v: Entries, outpoints: set<OutPoint>) returns (ok: bool)
    ensures ok <==> forall o :: o in outpoints ==> Unspent(v, o).None?
  {
    var todo := outpoints;
    while todo != {}
      invariant todo <= outpoints
      invariant forall o :: o in outpoints - todo ==> Unspent(v, o).None?
      decreases |todo|
    {
      var o :| o in todo;
      if o in v && v[o].Some? && !v[o].value.spent {
        return false;
      }
      todo := todo - {o};
    }
    ok := true;
  }

  // The view with all outputs of the block looked up.
  function OutputsFetched(v: Entries, store: Utxos, b: Block): Entries {
    v + FetchedEntries(store, Outputs(b.txs) - v.Keys)
  }

  method CheckBIP0030(b: Block, view: UtxoViewpoint, store: Utxos) returns (ok: bool)
    modifies view`entries
    ensures view.entries == OutputsFetched(old(view.entries), store, b)
    ensures ok <==> forall o :: o in Outputs(b.txs) ==> Unspent(view.entries, o).None?
  {
    var fetchSet := Outputs(b.txs);
    view.FetchUtxos(store, fetchSet);
    ok := NoneUnspent(view.entries, fetchSet);
  }

  // On a view that stands for u the duplicate check asks whether the block overwrites an
  // unspent output of u, and changes no lookup.
  lemma DuplicateCheckMeans(v: Entries, store: Utxos, u: Utxos, b: Block)
    requires Coherent(v, store) && Means(v, store, u, {}) && Identified(u, b.txs)
    ensures var w := OutputsFetched(v, store, b);
      && Coherent(w, store) && Means(w, store, u, {})
      && (NoOverwrite(u, b.txs) <==> forall o :: o in Outputs(b.txs) ==> Unspent(w, o).None?)
  {
    var w := OutputsFetched(v, store, b);
    FetchKeepsMeaning(v, store, Outputs(b.txs));
    forall o | o in Outputs(b.txs)
      ensures Unspent(w, o) == Get(u, o)
    {
      assert o in w;
      assert Look(w, store, o) == Get(u, o);
    }
    OutputsUnspent(u, b.txs);
  }

  /** The verdict on a block, as a function of the view and the store */

  // checkConnectBlock after the duplicate check.
  function CheckFetched(p: Params, v: Entries, store: Utxos, b: Block): Option<Checked> {
    var c := CheckTxs(FetchedView(v, store, b), b.txs, b.height, p.maturity);
    if c.Some? && CoinbaseWithin(p, b, c.value.fees) && p.otherRules(b.hash) then c else None
  }

  function BlockVerdict(p: Params, v: Entries, store: Utxos, b: Block): Option<Checked> {
    if b.hash == p.genesisHash then None
    else if !p.bip30Checked(b) then CheckFetched(p, v, store, b)
    else
      var w := OutputsFetched(v, store, b);
      if forall o :: o in Outputs(b.txs) ==> Unspent(w, o).None? then CheckFetched(p, w, store, b) else None
  }

  datatype Verdict = Accept | RuleError | AssertError

  // The verdict check by check.
  lemma AcceptedWhen(p: Params, v: Entries, store: Utxos, b: Block)
    requires b.txs != []
    ensures BlockVerdict(p, v, store, b).Some? <==>
      && b.hash != p.genesisHash && p.otherRules(b.hash)
      && (p.bip30Checked(b) ==> forall i, k: nat :: 0 <= i < |b.txs| && k < |b.txs[i].outs| ==>
            Unspent(OutputsFetched(v, store, b), OutPoint(b.txs[i].hash, k)).None?)
      && (var c := CheckTxs(FetchedView(if p.bip30Checked(b) then OutputsFetched(v, store, b) else v, store, b),
                            b.txs, b.height, p.maturity);
          c.Some? && OutSum(b.txs[0].outs) <= p.subsidy(b.height) + c.value.fees <= MAX_INT64)
  {
    hide CheckTxs, FetchedView, OutputsFetched, OutSum, Unspent;
    var w := OutputsFetched(v, store, b);
    if forall i, k: nat :: 0 <= i < |b.txs| && k < |b.txs[i].outs| ==> Unspent(w, OutPoint(b.txs[i].hash, k)).None? {
      forall o | o in Outputs(b.txs) ensures Unspent(w, o).None? {
        assert IsOutput(b.txs, o);
        var i :| 0 <= i < |b.txs| && o.hash == b.txs[i].hash && o.index < |b.txs[i].outs|;
        assert o == OutPoint(b.txs[i].hash, o.index);
      }
    }
    forall i, k: nat | 0 <= i < |b.txs| && k < |b.txs[i].outs|
      ensures OutPoint(b.txs[i].hash, k) in Outputs(b.txs)
    {
      assert IsOutput(b.txs, OutPoint(b.txs[i].hash, k));
    }
  }

  // What acceptance says of the coins the block spends.
  lemma AcceptedFacts(p: Params, v: Entries, store: Utxos, b: Block)
    requires BlockVerdict(p, v, store, b).Some?
    ensures b.txs != []
    ensures var coins := BlockVerdict(p, v, store, b).value.coins;
      && (forall k :: 0 <= k < |coins| ==>
            && 0 <= coins[k].amount <= MAX_SATOSHI
            && (coins[k].coinBase ==> b.height - coins[k].height >= p.maturity))
      && OutSum(b.txs[0].outs) + PaidOut(b.txs) <= p.subsidy(b.height) + CoinSum(coins)
  {
    hide CheckTxs, FetchedView, OutputsFetched, OutSum, Unspent;
    var w := if p.bip30Checked(b) then OutputsFetched(v, store, b) else v;
    CheckTxsCoins(FetchedView(w, store, b), b.txs, b.height, p.maturity);
  }

  /** checkConnectBlock, for every block of sane transactions */
  method CheckConnectBlock(p: Params, b: Block, view: UtxoViewpoint, store: Utxos)
    returns (r: Verdict, stxos: seq<Coin>)
    requires b.txs != [] && AllSane(b) && p.subsidy(b.height) <= MAX_INT64
    modifies view
    ensures r.AssertError? <==> b.hash != p.genesisHash && old(view.bestHash) != b.prev
    ensures !r.AssertError? ==> (r.Accept? <==> BlockVerdict(p, old(view.entries), store, b).Some?)
    ensures r.Accept? ==> var c := BlockVerdict(p, old(view.entries), store, b).value;
      view.entries == c.entries && stxos == c.coins && view.bestHash == b.hash
    ensures r.Accept? <==>
      && old(view.bestHash) == b.prev
      && b.hash != p.genesisHash && p.otherRules(b.hash)
      && (p.bip30Checked(b) ==> forall i, k: nat :: 0 <= i < |b.txs| && k < |b.txs[i].outs| ==>
            Unspent(OutputsFetched(old(view.entries), store, b), OutPoint(b.txs[i].hash, k)).None?)
      && (var c := CheckTxs(FetchedView(if p.bip30Checked(b) then OutputsFetched(old(view.entries), store, b)
                                        else old(view.entries), store, b), b.txs, b.height, p.maturity);
          c.Some? && OutSum(b.txs[0].outs) <= p.subsidy(b.height) + c.value.fees <= MAX_INT64)
    ensures r.Accept? ==> forall k :: 0 <= k < |stxos| ==>
      && 0 <= stxos[k].amount <= MAX_SATOSHI
      && (stxos[k].coinBase ==> b.height - stxos[k].height >= p.maturity)
    ensures r.Accept? ==> OutSum(b.txs[0].outs) + PaidOut(b.txs) <= p.subsidy(b.height) + CoinSum(stxos)
  {
    hide CheckTxs, FetchedView, Sane, OutSum;
    ghost var entries := view.entries;
    AcceptedWhen(p, entries, store, b);
    stxos := [];
    if b.hash == p.genesisHash {
      return RuleError, stxos;
    }
    if view.bestHash != b.prev {
      return AssertError, stxos;
    }
    if p.bip30Checked(b) {
      var ok := CheckBIP0030(b, view, store);
      if !ok {
        return RuleError, stxos;
      }
    }
    view.FetchInputUtxos(store, b);
    var fees;
    fees, stxos := CheckTransactions(p, b, view);
    if fees.None? {
      return RuleError, stxos;
    }
    var ok := CheckCoinbaseValue(p, b, fees.value);
    if !ok {
      return RuleError, stxos;
    }
    if !p.otherRules(b.hash) {
      return RuleError, stxos;
    }
    view.bestHash := b.hash;
    AcceptedFacts(p, entries, store, b);
    r := Accept;
  }

  /** What the verdict means for a well-ordered block */

  lemma {:induction false} InSumAgrees(x: Utxos, y: Utxos, ins: seq<OutPoint>)
    requires forall i :: 0 <= i < |ins| ==> Get(x, ins[i]) == Get(y, ins[i])
    ensures InSum(x, ins) == InSum(y, ins)
  {
    if ins != [] {
      assert Get(x, ins[|ins| - 1]) == Get(y, ins[|ins| - 1]);
      InSumAgrees(x, y, ins[..|ins| - 1]);
    }
  }

  // Only the inputs of a transaction matter to its rules and its fee.
  lemma InputsAgree(x: Utxos, y: Utxos, tx: Tx, height: int, maturity: int)
    requires !IsCoinBase(tx) ==> forall i :: 0 <= i < |tx.ins| ==> Get(x, tx.ins[i]) == Get(y, tx.ins[i])
    ensures InputsOk(x, tx, height, maturity) <==> InputsOk(y, tx, height, maturity)
    ensures Fee(x, tx) == Fee(y, tx)
  {
    if !IsCoinBase(tx) {
      InSumAgrees(x, y, tx.ins);
      assert forall i :: 0 <= i < |tx.ins| ==> Get(x, tx.ins[i]) == Get(y, tx.ins[i]);
    }
  }

  // Part way through a block the check has gone as the rules say.
  ghost predicate CheckedMeans(v: Entries, store: Utxos, u: Utxos, b: Block, i: nat, maturity: int)
    requires i <= |b.txs|
  {
    var c := CheckTxs(v, b.txs[..i], b.height, maturity);
    && (c.Some? <==> TxsOk(u, b.txs[..i], b.height, maturity))
    && (c.Some? ==>
          && MidBlock(c.value.entries, store, u, b.txs, i, b.height)
          && c.value.fees == TotalFees(u, b.txs[..i], b.height)
          && Connectable(u, b.txs[..i], b.height) && c.value.coins == Spends(u, b.txs[..i], b.height))
  }

  lemma {:induction false} CheckTxsMeans(v: Entries, store: Utxos, u: Utxos, b: Block, i: nat, maturity: int)
    requires WellOrdered(b) && Identified(u, b.txs) && i <= |b.txs|
    requires MidBlock(v, store, u, b.txs, 0, b.height)
    ensures CheckedMeans(v, store, u, b, i, maturity)
  {
    hide WellOrdered, Identified, MidBlock, CheckTxs, CheckTx, InputsOk, TxsOk, TotalFees, Spends, Connectable,
         ApplyTxs;
    if i == 0 {
      CheckedNone(v, store, u, b, maturity);
    } else {
      CheckTxsMeans(v, store, u, b, i - 1, maturity);
      TxsOkStep(u, b.txs, i - 1, b.height, maturity);
      if CheckTxs(v, b.txs[..i - 1], b.height, maturity).Some? {
        CheckTxsNext(v, b.txs, i - 1, b.height, maturity);
        CheckStepMeans(v, store, u, b, i - 1, maturity);
      } else {
        TakeTake(b.txs, i - 1, i);
        CheckTxsStops(v, b.txs[..i], i - 1, b.height, maturity);
      }
    }
  }

  lemma CheckedNone(v: Entries, store: Utxos, u: Utxos, b: Block, maturity: int)
    requires MidBlock(v, store, u, b.txs, 0, b.height)
    ensures CheckedMeans(v, store, u, b, 0, maturity)
  {
    hide MidBlock;
    assert b.txs[..0] == [];
  }

  lemma CheckStepMeans(v: Entries, store: Utxos, u: Utxos, b: Block, i: nat, maturity: int)
    requires WellOrdered(b) && Identified(u, b.txs) && i < |b.txs|
    requires CheckedMeans(v, store, u, b, i, maturity) && CheckTxs(v, b.txs[..i], b.height, maturity).Some?
    ensures var c := CheckTx(CheckTxs(v, b.txs[..i], b.height, maturity).value, b.txs[i], b.height, maturity);
      && (c.Some? <==> TxsOk(u, b.txs[..i + 1], b.height, maturity))
      && (c.Some? ==>
            && MidBlock(c.value.entries, store, u, b.txs, i + 1, b.height)
            && c.value.fees == TotalFees(u, b.txs[..i + 1], b.height)
            && Connectable(u, b.txs[..i + 1], b.height) && c.value.coins == Spends(u, b.txs[..i + 1], b.height))
  {
    hide WellOrdered, Identified, MidBlock, CheckTxs, InputsOk, Shown, ApplyTxs, ConnectEntries, EntryCoins, Fee;
    var before := CheckTxs(v, b.txs[..i], b.height, maturity).value;
    var w := ApplyTxs(u, b.txs[..i], b.height);
    ShownAgrees(before.entries, store, u, b, i);
    InputsAgree(Shown(before.entries), w, b.txs[i], b.height, maturity);
    TxsOkStep(u, b.txs, i, b.height, maturity);
    if InputsOk(w, b.txs[i], b.height, maturity) {
      InputsOkSpendable(w, b.txs[i], b.height, maturity);
      MidBlockStep(before.entries, store, u, b, i);
      ConnectableNext(u, b.txs, i, b.height);
      SpendsStep(u, b.txs[..i + 1], i, b.height);
      TakeTake(b.txs, i, i + 1);
      TakeAll(b.txs[..i + 1]);
    }
  }

  lemma InputsOkSpendable(w: Utxos, tx: Tx, height: int, maturity: int)
    requires InputsOk(w, tx, height, maturity)
    ensures Spendable(w, tx)
  {
    if !IsCoinBase(tx) {
      forall o | o in tx.ins ensures o in w {
        var i :| 0 <= i < |tx.ins| && tx.ins[i] == o;
      }
    }
  }

  lemma ConnectableNext(u: Utxos, txs: seq<Tx>, i: nat, height: int)
    requires i < |txs| && Connectable(u, txs[..i], height) && Spendable(ApplyTxs(u, txs[..i], height), txs[i])
    ensures Connectable(u, txs[..i + 1], height)
  {
    assert txs[..i + 1][..i] == txs[..i];
  }

  lemma ShownAgrees(v: Entries, store: Utxos, u: Utxos, b: Block, i: nat)
    requires WellOrdered(b) && Identified(u, b.txs) && i < |b.txs|
    requires MidBlock(v, store, u, b.txs, i, b.height)
    ensures !IsCoinBase(b.txs[i]) ==> forall k :: 0 <= k < |b.txs[i].ins| ==>
      Get(Shown(v), b.txs[i].ins[k]) == Get(ApplyTxs(u, b.txs[..i], b.height), b.txs[i].ins[k])
  {
    if !IsCoinBase(b.txs[i]) {
      MidBlockUnspent(v, store, u, b, i);
      forall k | 0 <= k < |b.txs[i].ins|
        ensures Get(Shown(v), b.txs[i].ins[k]) == Get(ApplyTxs(u, b.txs[..i], b.height), b.txs[i].ins[k])
      {
        assert Get(Shown(v), b.txs[i].ins[k]) == Unspent(v, b.txs[i].ins[k]);
      }
    }
  }

  // What the shape and the surroundings of a block have to be for its check to decide
  // validity.
  predicate Checkable(p: Params, u: Utxos, b: Block) {
    && WellOrdered(b) && AllSane(b) && Identified(u, b.txs)
    && (!p.bip30Checked(b) ==> NoOverwrite(u, b.txs))
    && p.subsidy(b.height) <= MAX_INT64
  }

  /** On a view that stands for u the verdict on a well-ordered block is its validity on u,
      and an accepted block leaves the view standing for the replayed set. */
  lemma VerdictMeans(p: Params, v: Entries, store: Utxos, u: Utxos, b: Block)
    requires Checkable(p, u, b) && Coherent(v, store) && Means(v, store, u, {})
    ensures var c := BlockVerdict(p, v, store, b);
      && (c.Some? <==> ValidBlock(p, u, b))
      && (c.Some? ==>
            && Coherent(c.value.entries, store) && Means(c.value.entries, store, ApplyBlock(u, b), {})
            && Connectable(u, b.txs, b.height) && c.value.coins == Spends(u, b.txs, b.height))
  {
    hide Coherent, Means, FetchedView, CheckTxs, OutputsFetched, WellOrdered, AllSane, Identified, NoOverwrite;
    if p.bip30Checked(b) {
      DuplicateCheckMeans(v, store, u, b);
      FetchedMeans(p, OutputsFetched(v, store, b), store, u, b);
    } else {
      FetchedMeans(p, v, store, u, b);
    }
  }

  lemma FetchedMeans(p: Params, v: Entries, store: Utxos, u: Utxos, b: Block)
    requires WellOrdered(b) && AllSane(b) && Identified(u, b.txs) && Coherent(v, store) && Means(v, store, u, {})
    ensures var c := CheckFetched(p, v, store, b);
      && (c.Some? <==> TxsOk(u, b.txs, b.height, p.maturity) && CoinbaseOk(p, u, b) && p.otherRules(b.hash))
      && (c.Some? ==>
            && Coherent(c.value.entries, store) && Means(c.value.entries, store, ApplyBlock(u, b), {})
            && Connectable(u, b.txs, b.height) && c.value.coins == Spends(u, b.txs, b.height))
  {
    hide Coherent, Means, FetchedView, CheckTxs, WellOrdered, AllSane, Identified, MidBlock, TxsOk, Spends;
    FetchedMidBlock(v, store, u, b);
    CheckTxsMeans(FetchedView(v, store, b), store, u, b, |b.txs|, p.maturity);
    TakeAll(b.txs);
    WellOrderedNotEmpty(b);
    var c := CheckTxs(FetchedView(v, store, b), b.txs, b.height, p.maturity);
    if c.Some? {
      MidBlockDone(c.value.entries, store, u, b);
    }
  }

  lemma WellOrderedNotEmpty(b: Block)
    requires WellOrdered(b)
    ensures b.txs != []
  {
  }
}
