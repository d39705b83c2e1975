/** What the order of references inside a block decides.  An accepted block can be replayed
    exactly when its references run backwards.  One in which a transaction spends an output
    of a later one, itself referred to by one later still, passes every check of
    checkConnectBlock, and that value exists twice in the set it leaves. */
module ForwardReferences {
  import opened Types
  import opened Ledger
  import opened UtxoView
  import opened Validate
  import opened Supply

  /** In general */

  // Everything the check of a block relies on, except the order of its references.
  predicate Unordered(p: Params, u: Utxos, b: Block) {
    && b.txs != [] && b.height > 0 && CoinBaseFirst(b.txs) && DistinctIds(b.txs)
    && (forall i :: 0 <= i < |b.txs| ==> DistinctInputs(b.txs[i]))
    && AllSane(b) && Identified(u, b.txs)
    && (!p.bip30Checked(b) ==> NoOverwrite(u, b.txs))
    && p.subsidy(b.height) <= MAX_INT64
  }

  lemma TurnSpendable(u: Utxos, txs: seq<Tx>, i: nat, height: int)
    requires i < |txs| && Connectable(u, txs, height)
    ensures Spendable(ApplyTxs(u, txs[..i], height), txs[i])
  {
    hide ApplyTxs;
    ConnectablePrefix(u, txs, i + 1, height);
    TakeTake(txs, i, i + 1);
  }

  // An input was there before the block or comes from an earlier transaction of it.
  lemma TurnInput(u: Utxos, txs: seq<Tx>, i: nat, height: int, o: OutPoint)
    requires i < |txs| && Connectable(u, txs, height) && !IsCoinBase(txs[i]) && o in txs[i].ins
    ensures o in u || o.hash in TxIds(txs[..i])
  {
    hide ApplyTxs, Connectable, TxIds;
    TurnSpendable(u, txs, i, height);
    ReplayKeys(u, txs[..i], height);
    AllCreatedIds(txs[..i]);
  }

  // A replay never finds an output of a transaction that is still to come.
  lemma ReplayRefersBackwards(u: Utxos, txs: seq<Tx>, height: int)
    requires Connectable(u, txs, height) && CoinBaseFirst(txs) && DistinctIds(txs) && NoOverwrite(u, txs)
    ensures RefersBackwards(txs)
  {
    hide Connectable;
    forall i, j, o | 0 < i <= j < |txs| && o in txs[i].ins
      ensures o.hash != txs[j].hash
    {
      TurnInput(u, txs, i, height, o);
      assert txs[j].hash in TxIds(txs);
    }
  }

  /** Of the blocks the code accepts, exactly those can be replayed in order whose
      references all run backwards; and those are valid. */
  lemma AcceptedInOrder(p: Params, v: Entries, store: Utxos, u: Utxos, b: Block)
    requires Unordered(p, u, b) && Coherent(v, store) && Means(v, store, u, {})
    requires BlockVerdict(p, v, store, b).Some?
    ensures NoOverwrite(u, b.txs)
    ensures Connectable(u, b.txs, b.height) <==> RefersBackwards(b.txs)
    ensures ValidBlock(p, u, b) <==> RefersBackwards(b.txs)
  {
    hide CheckFetched, OutputsFetched, Outputs, Coherent, Means, Connectable, TxsOk, AllSane, Identified;
    if p.bip30Checked(b) {
      DuplicateCheckMeans(v, store, u, b);
    }
    if RefersBackwards(b.txs) {
      VerdictMeans(p, v, store, u, b);
    } else if Connectable(u, b.txs, b.height) {
      ReplayRefersBackwards(u, b.txs, b.height);
    }
  }

  /** A block */

  function Rules(): Params {
    Params(1, 100, _ => 0, _ => true, _ => true)
  }

  // The one coin there is, spent by transaction 33, whose first output transaction 31
  // spends before it exists and whose second transaction 34 spends after.
  const COIN: OutPoint := OutPoint(90, 0)
  const FIRST: OutPoint := OutPoint(33, 0)
  const SECOND: OutPoint := OutPoint(33, 1)

  function Stored(): Utxos {
    map[COIN := Coin(10, [], 1, false)]
  }

  function Base(): Tx {
    Tx(30, [OutPoint(ZERO_HASH, MAX_UINT32)], [TxOut(0, [])])
  }

  function Early(): Tx {
    Tx(31, [FIRST], [TxOut(6, [])])
  }

  function Middle(): Tx {
    Tx(33, [COIN], [TxOut(6, []), TxOut(4, [])])
  }

  function Late(): Tx {
    Tx(34, [SECOND], [TxOut(4, [])])
  }

  function Txs(): seq<Tx> {
    [Base(), Early(), Middle(), Late()]
  }

  function Forward(): Block {
    Block(5, 4, 9, Txs())
  }

  function New(amount: int, coinBase: bool): Option<UtxoEntry> {
    Some(NewEntry(Coin(amount, [], 9, coinBase)))
  }

  function Spent(amount: int, height: int, modified: bool): Option<UtxoEntry> {
    Some(UtxoEntry(Coin(amount, [], height, false), true, modified))
  }

  /** Everything but the order is as it should be */
  lemma ForwardShape()
    ensures !RefersBackwards(Txs()) && CoinBaseFirst(Txs()) && DistinctIds(Txs())
    ensures forall i :: 0 <= i < |Txs()| ==> DistinctInputs(Txs()[i])
    ensures NoOverwrite(Stored(), Txs())
  {
    hide OutSum;
    assert FIRST in Txs()[1].ins && FIRST.hash == Txs()[2].hash;
  }

  lemma ForwardSane()
    ensures AllSane(Forward())
  {
    hide OutSum;
    SumOne(TxOut(0, []));
    SumOne(TxOut(6, []));
    SumOne(TxOut(4, []));
    SumTwo(TxOut(6, []), TxOut(4, []));
    assert Sane(Base()) && Sane(Early()) && Sane(Middle()) && Sane(Late());
  }

  lemma ForwardUnordered()
    ensures Unordered(Rules(), Stored(), Forward())
    ensures !RefersBackwards(Txs()) && AllSane(Forward()) && NoOverwrite(Stored(), Txs())
  {
    hide Sane, RefersBackwards, CoinBaseFirst, DistinctIds, DistinctInputs, Stored;
    ForwardShape();
    ForwardSane();
  }

  lemma SumOne(a: TxOut)
    ensures OutSum([a]) == a.value
  {
    assert [a][..0] == [];
  }

  lemma SumTwo(a: TxOut, c: TxOut)
    ensures OutSum([a, c]) == a.value + c.value
  {
    assert [a, c][..1] == [a];
    SumOne(a);
  }

  /** The view, step by step */

  function Looked(): Entries {
    map[OutPoint(30, 0) := None, OutPoint(31, 0) := None, FIRST := None, SECOND := None, OutPoint(34, 0) := None]
  }

  // After loading: the later reference has put in the outputs of transaction 33.
  function Loaded(): Entries {
    map[OutPoint(30, 0) := None, OutPoint(31, 0) := None, OutPoint(34, 0) := None,
        FIRST := New(6, false), SECOND := New(4, false),
        COIN := Some(UtxoEntry(Coin(10, [], 1, false), false, false))]
  }

  function After0(): Entries {
    Loaded()[OutPoint(30, 0) := New(0, true)]
  }

  function After1(): Entries {
    After0()[OutPoint(31, 0) := New(6, false)][FIRST := Spent(6, 9, true)]
  }

  // Transaction 33 creates its first output again.
  function After2(): Entries {
    After1()[COIN := Spent(10, 1, true)][FIRST := New(6, false)][SECOND := New(4, false)]
  }

  function After3(): Entries {
    After2()[SECOND := Spent(4, 9, true)][OutPoint(34, 0) := New(4, false)]
  }

  lemma EmptyScript()
    ensures !IsUnspendable([])
  {
    assert ParsesFrom([], 0);
  }

  lemma FreshOne(tx: Tx, amount: int)
    requires tx.outs == [TxOut(amount, [])]
    ensures FreshEntries(tx, 9, |tx.outs|) == map[OutPoint(tx.hash, 0) := New(amount, IsCoinBase(tx))]
  {
    EmptyScript();
    SameEntriesAt(FreshEntries(tx, 9, |tx.outs|), map[OutPoint(tx.hash, 0) := New(amount, IsCoinBase(tx))], tx);
  }

  lemma FreshMiddle()
    ensures FreshEntries(Middle(), 9, 2) == map[FIRST := New(6, false), SECOND := New(4, false)]
  {
    EmptyScript();
    SameEntriesAt(FreshEntries(Middle(), 9, 2), map[FIRST := New(6, false), SECOND := New(4, false)], Middle());
  }

  lemma SameEntriesAt(v: Entries, w: Entries, tx: Tx)
    requires v == FreshEntries(tx, 9, |tx.outs|)
    requires forall o :: At(w, o) == if Creates(tx, o) then Some(Some(NewEntry(CoinOf(tx, 9, o)))) else None
    ensures v == w
  {
    forall o ensures At(v, o) == At(w, o) {
      FreshEntriesAt(map[], tx, 9, |tx.outs|, o);
      assert map[] + v == v;
    }
    SameEntries(v, w);
  }

  // The outputs of the block are the keys of Looked.
  lemma OutputsListed(o: OutPoint)
    ensures o in Outputs(Txs()) <==> o in Looked()
  {
    hide Outputs;
    var txs := Txs();
    assert |txs| == 4;
    if o in Looked() {
      var i := if o.hash == 30 then 0 else if o.hash == 31 then 1 else if o.hash == 33 then 2 else 3;
      assert o.hash == txs[i].hash && o.index < |txs[i].outs|;
      assert IsOutput(txs, o);
    }
    if IsOutput(txs, o) {
      var i :| 0 <= i < |txs| && o.hash == txs[i].hash && o.index < |txs[i].outs|;
      assert i == 0 || i == 1 || i == 2 || i == 3;
    }
  }

  lemma OutputsLooked()
    ensures OutputsFetched(map[], Stored(), Forward()) == Looked()
    ensures forall o :: o in Outputs(Txs()) ==> Unspent(Looked(), o).None?
  {
    hide Outputs, Txs;
    var v, w := OutputsFetched(map[], Stored(), Forward()), Looked();
    forall o ensures At(v, o) == At(w, o) {
      OutputsListed(o);
    }
    SameEntries(v, w);
    forall o | o in Outputs(Txs()) ensures Unspent(w, o).None? {
      OutputsListed(o);
    }
  }

  lemma Places()
    ensures Position(Txs(), 33) == Some(2) && Position(Txs(), 90) == None
  {
    assert Txs()[..3] == [Base(), Early(), Middle()];
    assert [Base(), Early(), Middle()][..2] == [Base(), Early()];
    assert [Base(), Early()][..1] == [Base()];
    assert [Base()][..0] == [];
  }

  lemma OneIn(f: Fetching, i: nat, o: OutPoint)
    ensures FetchIns(f, Txs(), 9, i, [o]) == FetchStep(f, Txs(), 9, i, o)
  {
    assert [o][..0] == [];
  }

  lemma InputsWalked()
    ensures FetchTxs(Fetching(Looked(), {}), Txs(), 9, 4)
         == Fetching(Looked() + FreshEntries(Middle(), 9, 2), {COIN})
  {
    hide FetchIns, Position, FreshEntries;
    Places();
    var f0 := Fetching(Looked(), {});
    OneIn(f0, 1, FIRST);
    var f1 := FetchTxs(f0, Txs(), 9, 2);
    assert f1 == f0;
    OneIn(f1, 2, COIN);
    var f2 := FetchTxs(f0, Txs(), 9, 3);
    assert f2 == Fetching(Looked(), {COIN});
    OneIn(f2, 3, SECOND);
  }

  lemma InputsLoaded()
    ensures FetchedView(Looked(), Stored(), Forward()) == Loaded()
  {
    hide FetchTxs, FreshEntries;
    InputsWalked();
    FreshMiddle();
    var v, w := FetchedView(Looked(), Stored(), Forward()), Loaded();
    forall o ensures At(v, o) == At(w, o) {
    }
    SameEntries(v, w);
  }

  lemma SumIn(w: Utxos, o: OutPoint)
    requires o in w
    ensures InSum(w, [o]) == w[o].amount
  {
    assert [o][..0] == [];
  }

  // One transaction with one input that covers its outputs exactly.
  lemma Step(v: Entries, tx: Tx, o: OutPoint, coins: seq<Coin>, w: Entries)
    requires tx.ins == [o] && !IsCoinBase(tx) && o in Shown(v) && InputOk(Shown(v)[o], 9, 100)
    requires OutSum(tx.outs) == Shown(v)[o].amount
    requires forall q :: At(w, q) == At(SpendEntries(v, [o]) + FreshEntries(tx, 9, |tx.outs|), q)
    ensures var c := CheckTx(Checked(v, 0, coins), tx, 9, 100);
      c.Some? && c.value.entries == w && c.value.fees == 0
  {
    SumIn(Shown(v), o);
    SameEntries(w, ConnectEntries(v, tx, 9));
  }

  lemma Step0()
    ensures CheckTx(Checked(Loaded(), 0, []), Base(), 9, 100) == Some(Checked(After0(), 0, []))
  {
    hide FreshEntries;
    FreshOne(Base(), 0);
    var v, w := After0(), ConnectEntries(Loaded(), Base(), 9);
    assert IsCoinBase(Base());
    forall o ensures At(v, o) == At(w, o) {
      ConnectEntriesAt(Loaded(), Base(), 9, o);
    }
    SameEntries(v, w);
    var c := CheckTx(Checked(Loaded(), 0, []), Base(), 9, 100);
    assert c.Some?;
    assert c.value.entries == v;
    assert c.value.fees == 0;
    assert c.value.coins == [];
  }

  lemma Step1(coins: seq<Coin>)
    ensures var c := CheckTx(Checked(After0(), 0, coins), Early(), 9, 100);
      c.Some? && c.value.entries == After1() && c.value.fees == 0
  {
    hide FreshEntries, OutSum;
    SumOne(TxOut(6, []));
    FreshOne(Early(), 6);
    Step(After0(), Early(), FIRST, coins, After1());
  }

  lemma Step2(coins: seq<Coin>)
    ensures var c := CheckTx(Checked(After1(), 0, coins), Middle(), 9, 100);
      c.Some? && c.value.entries == After2() && c.value.fees == 0
  {
    hide FreshEntries, OutSum;
    SumTwo(TxOut(6, []), TxOut(4, []));
    FreshMiddle();
    Step(After1(), Middle(), COIN, coins, After2());
  }

  lemma Step3(coins: seq<Coin>)
    ensures var c := CheckTx(Checked(After2(), 0, coins), Late(), 9, 100);
      c.Some? && c.value.entries == After3() && c.value.fees == 0
  {
    hide FreshEntries, OutSum;
    SumOne(TxOut(4, []));
    FreshOne(Late(), 4);
    Step(After2(), Late(), SECOND, coins, After3());
  }

  lemma AllChecked()
    ensures var c := CheckTxs(Loaded(), Txs(), 9, 100);
      c.Some? && c.value.entries == After3() && c.value.fees == 0
  {
    hide CheckTxs, CheckTx, Loaded, After0, After1, After2, After3;
    var txs := Txs();
    CheckTxsNone(Loaded(), txs, 9, 100);
    Step0();
    CheckTxsNext(Loaded(), txs, 0, 9, 100);
    var c1 := CheckTxs(Loaded(), txs[..1], 9, 100).value;
    Step1(c1.coins);
    CheckTxsNext(Loaded(), txs, 1, 9, 100);
    var c2 := CheckTxs(Loaded(), txs[..2], 9, 100).value;
    Step2(c2.coins);
    CheckTxsNext(Loaded(), txs, 2, 9, 100);
    var c3 := CheckTxs(Loaded(), txs[..3], 9, 100).value;
    Step3(c3.coins);
    CheckTxsNext(Loaded(), txs, 3, 9, 100);
    assert txs[..4] == txs;
  }

  // What the view then says of the stored set.
  function Left(): Utxos {
    map[OutPoint(30, 0) := Coin(0, [], 9, true), OutPoint(31, 0) := Coin(6, [], 9, false),
        FIRST := Coin(6, [], 9, false), OutPoint(34, 0) := Coin(4, [], 9, false)]
  }

  // The view at the end.
  function End(): Entries {
    map[OutPoint(30, 0) := New(0, true), OutPoint(31, 0) := New(6, false), FIRST := New(6, false),
        SECOND := Spent(4, 9, true), COIN := Spent(10, 1, true), OutPoint(34, 0) := New(4, false)]
  }

  lemma LookEnd(o: OutPoint)
    ensures Look(End(), Stored(), o) == Get(Left(), o)
  {
  }

  lemma LeftBehind()
    ensures WrittenStore(After3(), Stored()) == Left()
  {
    assert After3() == End();
    var w := WrittenStore(End(), Stored());
    forall o ensures Get(w, o) == Get(Left(), o) {
      hide Left, End;
      LookEnd(o);
    }
    SameUtxos(w, Left());
  }

  lemma Accepted()
    ensures var c := BlockVerdict(Rules(), map[], Stored(), Forward());
      c.Some? && c.value.entries == After3()
  {
    hide CheckTxs, FetchedView, OutputsFetched, Loaded, After3, Outputs, Unspent, OutSum, Looked, Stored;
    OutputsLooked();
    InputsLoaded();
    AllChecked();
    SumOne(TxOut(0, []));
  }

  /** The block is accepted, the output that was spent ahead of its creation is unspent at
      the end, and the set is worth more than before although the subsidy is nothing. */
  lemma ForwardAccepted()
    ensures !RefersBackwards(Forward().txs) && AllSane(Forward()) && NoOverwrite(Stored(), Forward().txs)
    ensures Unordered(Rules(), Stored(), Forward()) && BlockVerdict(Rules(), map[], Stored(), Forward()).Some?
    ensures var u := WrittenStore(BlockVerdict(Rules(), map[], Stored(), Forward()).value.entries, Stored());
      && FIRST in Forward().txs[1].ins && FIRST in u && OutPoint(31, 0) in u
      && Total(u) == 16 && Total(Stored()) == 10 && Rules().subsidy(9) == 0
  {
    hide Unordered, BlockVerdict, After3, RefersBackwards, AllSane, NoOverwrite, Total, WrittenStore, Stored;
    ForwardUnordered();
    Accepted();
    LeftBehind();
    Totals();
  }

  lemma Totals()
    ensures Total(Left()) == 16 && Total(Stored()) == 10
  {
    hide Total;
    var u3 := Left() - {OutPoint(30, 0)};
    var u2 := u3 - {OutPoint(31, 0)};
    var u1 := u2 - {FIRST};
    assert u1 == map[OutPoint(34, 0) := Coin(4, [], 9, false)];
    TotalWithout(Left(), OutPoint(30, 0));
    TotalWithout(u3, OutPoint(31, 0));
    TotalWithout(u2, FIRST);
    TotalWithout(u1, OutPoint(34, 0));
    assert u1 - {OutPoint(34, 0)} == map[];
    TotalWithout(Stored(), COIN);
    assert Stored() - {COIN} == map[];
    TotalNone();
  }

  lemma TotalNone()
    ensures Total(map[]) == 0
  {
  }
}
