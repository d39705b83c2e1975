/** Blocks on side branches.  A new block is checked against the stored set of the main
    chain's tip, whatever its parent, so its valid flag says something about its own branch
    only when the two sets agree; a run shows what comes of it when they do not. */
module SideBranch {
  import opened Types
  import opened Ledger
  import opened UtxoView
  import opened Validate
  import opened ChainState
  import opened BlockTree
  import opened NodeBlocks
  import opened Flags
  import opened ViewHistory
  import opened OtherSet
  import opened Switch
  import opened Reorganize

  /** When the flag of a new block is honest */

  // On the tip of a valid main chain the check is the right one.
  lemma TipFlagHonest(p: Params, db: Db, blocks: BlockStore, chain: seq<BlockNode>, node: BlockNode)
    requires ConsistentState(db, blocks, chain) && ValidChain(p, BlocksOf(blocks, chain))
    requires Stored(blocks, node) && node.parent == Some(chain[|chain| - 1])
    requires Linked(BlocksOf(blocks, chain), BlockOf(blocks, node))
    ensures ValidBranch(p, blocks, node) <==> ValidBlock(p, db.utxos, BlockOf(blocks, node))
  {
    hide ValidBlock, Linked, ValidChain, Path, Recorded;
    RecordedReplay(db, BlocksOf(blocks, chain));
    ValidBranchStep(p, blocks, node);
  }

  /** On another branch, a block found valid on the stored set u is valid on its own branch
      exactly when that branch's set has its outside inputs, mature, and no unspent output
      of its transactions. */
  lemma SideFlagHonest(p: Params, blocks: BlockStore, node: BlockNode, u: Utxos)
    requires node.parent.Some? && Stored(blocks, node) && ValidBranch(p, blocks, node.parent.value)
    requires Linked(BlocksOf(blocks, Path(node.parent.value)), BlockOf(blocks, node))
    requires ValidBlock(p, u, BlockOf(blocks, node))
    requires AmountsAgree(u, Replay(BlocksOf(blocks, Path(node.parent.value))), BlockOf(blocks, node))
    ensures var own := Replay(BlocksOf(blocks, Path(node.parent.value)));
      ValidBranch(p, blocks, node) <==>
        OutsideMature(p, own, BlockOf(blocks, node)) && NoOverwrite(own, BlockOf(blocks, node).txs)
  {
    hide ValidBlock, Linked, ValidChain, Replay, Path, OutsideMature, NoOverwrite;
    ValidBranchStep(p, blocks, node);
    ValidElsewhere(p, u, Replay(BlocksOf(blocks, Path(node.parent.value))), BlockOf(blocks, node));
  }

  /** A side block that is flagged, passes the dry run, and stops the commit */

  const GENESIS: Hash := 1

  function Rules(): Params {
    Params(GENESIS, 0, _ => 10, _ => true, _ => true)
  }

  function Coinbase(id: Hash): Tx {
    Tx(id, [OutPoint(ZERO_HASH, MAX_UINT32)], [TxOut(10, [])])
  }

  // The coinbase output of the main-chain block, and its spender on the side branch.
  const COIN: OutPoint := OutPoint(11, 0)

  function Spender(): Tx {
    Tx(13, [COIN], [TxOut(10, [])])
  }

  function Genesis(): Block {
    Block(GENESIS, 0, 0, [])
  }

  function MainBlock(): Block {
    Block(2, GENESIS, 1, [Coinbase(11)])
  }

  function SideBlock(): Block {
    Block(3, GENESIS, 1, [Coinbase(12), Spender()])
  }

  // The set after the main-chain block.
  function MainSet(): Utxos {
    map[COIN := Coin(10, [], 1, true)]
  }

  lemma EmptyScript()
    ensures !IsUnspendable([])
  {
    assert ParsesFrom([], 0);
  }

  lemma CoinbaseCreates(id: Hash, height: int)
    ensures IsCoinBase(Coinbase(id)) && Sane(Coinbase(id)) && OutSum(Coinbase(id).outs) == 10
    ensures Created(Coinbase(id), height) == map[OutPoint(id, 0) := Coin(10, [], height, true)]
    ensures CreatedSet(Coinbase(id)) == {OutPoint(id, 0)}
  {
    EmptyScript();
    OneOutput(TxOut(10, []));
    var tx := Coinbase(id);
    forall o ensures o in CreatedSet(tx) <==> o == OutPoint(id, 0) {
      assert o in CreatedSet(tx) <==> Creates(tx, o);
    }
  }

  lemma OneOutput(out: TxOut)
    ensures OutSum([out]) == out.value
  {
    assert [out][..0] == [];
  }

  lemma OneTx(u: Utxos, tx: Tx, height: int)
    ensures ApplyTxs(u, [tx], height) == ApplyTx(u, tx, height)
    ensures TxsOk(u, [tx], height, 0) <==> InputsOk(u, tx, height, 0) && Fee(u, tx) <= MAX_INT64
    ensures TotalFees(u, [tx], height) == Fee(u, tx)
    ensures AllCreated([tx]) == CreatedSet(tx)
  {
    assert [tx][..|[tx]| - 1] == [];
    assert ApplyTxs(u, [], height) == u && TxsOk(u, [], height, 0);
    assert TotalFees(u, [tx], height) == Fee(u, tx);
  }

  lemma MainBlockValid()
    ensures Linked([Genesis()], MainBlock()) && Checkable(Rules(), map[], MainBlock())
    ensures ValidBlock(Rules(), map[], MainBlock())
    ensures ApplyBlock(map[], MainBlock()) == MainSet() && AllCreated(MainBlock().txs) == {COIN}
  {
    hide OutSum, Created, CreatedSet, TxsOk, TotalFees, Sane, IsUnspendable;
    CoinbaseCreates(11, 1);
    OneTx(map[], Coinbase(11), 1);
    assert MainBlock().txs == [Coinbase(11)];
  }

  lemma SideShape()
    ensures IsCoinBase(Coinbase(12)) && !IsCoinBase(Spender()) && Sane(Coinbase(12)) && Sane(Spender())
    ensures WellOrdered(SideBlock()) && AllSane(SideBlock())
    ensures OutsideInputs(SideBlock().txs) == {COIN}
    ensures OutSum(Spender().outs) == 10
  {
    hide OutSum, Created, CreatedSet, IsUnspendable;
    CoinbaseCreates(12, 1);
    OneOutput(TxOut(10, []));
    var txs := SideBlock().txs;
    forall o ensures o in OutsideInputs(txs) <==> o == COIN {
      BlockInputsAt(txs, o);
      assert txs[1] == Spender() && txs[0] == Coinbase(12);
      assert COIN in Spender().ins by { assert Spender().ins[0] == COIN; }
    }
  }

  // Valid on the main chain's set, and without its input on the own branch.
  lemma SideBlockFlagged()
    ensures Linked([Genesis()], SideBlock())
    ensures Checkable(Rules(), MainSet(), SideBlock()) && Checkable(Rules(), map[], SideBlock())
    ensures ValidBlock(Rules(), MainSet(), SideBlock())
    ensures !ValidBlock(Rules(), map[], SideBlock())
    ensures !Connectable(map[], SideBlock().txs, 1)
  {
    hide OutSum, Created, CreatedSet, IsUnspendable, Sane, TxsOk, TotalFees, WellOrdered, AllSane;
    SideShape();
    SideTxsOk();
    var b := SideBlock();
    assert OutSum(b.txs[0].outs) == 10 by { CoinbaseCreates(12, 1); }
    assert NoOverwrite(MainSet(), b.txs);
    assert ValidBlock(Rules(), MainSet(), b);
    TxsOkConnectable(MainSet(), b.txs, 1, 0);
    ConnectableElsewhere(MainSet(), map[], b);
    assert !OutsideIn(map[], b) by { assert COIN in OutsideInputs(b.txs); }
    if ValidBlock(Rules(), map[], b) {
      TxsOkConnectable(map[], b.txs, 1, 0);
    }
  }

  lemma SideTxsOk()
    ensures TxsOk(MainSet(), SideBlock().txs, 1, 0) && TotalFees(MainSet(), SideBlock().txs, 1) == 0
  {
    hide OutSum, Created, CreatedSet, IsUnspendable, Sane, InSum;
    SideShape();
    CoinbaseCreates(12, 1);
    var txs := SideBlock().txs;
    assert txs[..1] == [Coinbase(12)];
    OneTx(MainSet(), Coinbase(12), 1);
    var w := ApplyTx(MainSet(), Coinbase(12), 1);
    assert w == MainSet() + map[OutPoint(12, 0) := Coin(10, [], 1, true)];
    OneInput(w);
  }

  lemma OneInput(w: Utxos)
    requires COIN in w && w[COIN] == Coin(10, [], 1, true)
    ensures InSum(w, Spender().ins) == 10
  {
    assert [COIN][..0] == [];
  }

  function GenesisNode(): BlockNode {
    BlockNode(None, GENESIS, 0, 0, 1)
  }

  function MainNode(): BlockNode {
    BlockNode(Some(GenesisNode()), 2, 1, 1, 1)
  }

  function SideNode(): BlockNode {
    BlockNode(Some(GenesisNode()), 3, 1, 1, 1)
  }

  // The outcome of switching from the main block to the side block.
  lemma SideSwitch(r: Outcome, at: nat)
    requires Decided(Rules(), [true], [Genesis()], [SideBlock()], GoneSet([MainBlock()]), r, at)
    ensures r.CommitStopped? && at == 0
  {
    hide ValidBlock, Connectable, OutsideInputs;
    var fork, bs, gone := [Genesis()], [SideBlock()], GoneSet([MainBlock()]);
    SideShape();
    SideBlockFlagged();
    MainBlockValid();
    assert fork + bs[..0] == [Genesis()] && Replay([Genesis()]) == map[];
    assert bs[..0] == [] && [MainBlock()][..0] == [];
    assert gone == {COIN};
    assert PassAt(Rules(), [true], fork, bs, gone, 0);
    assert !ConnectsAt(fork, bs, 0);
  }

  lemma SideStored(blocks: BlockStore)
    requires blocks == map[GENESIS := Genesis(), 2 := MainBlock(), 3 := SideBlock()]
    ensures AllStored(blocks, [GenesisNode(), MainNode()]) && AllStored(blocks, [MainNode()])
    ensures AllStored(blocks, [SideNode()]) && AllStored(blocks, [GenesisNode()])
    ensures BlocksOf(blocks, [GenesisNode()]) == [Genesis()]
    ensures BlocksOf(blocks, [MainNode()]) == [MainBlock()] && BlocksOf(blocks, [SideNode()]) == [SideBlock()]
    ensures [GenesisNode(), MainNode()][..1] == [GenesisNode()]
  {
  }

  lemma SidePrepared(blocks: BlockStore, index: map<Hash, BlockNode>)
    requires blocks == map[GENESIS := Genesis(), 2 := MainBlock(), 3 := SideBlock()]
    requires index == map[GENESIS := GenesisNode(), 2 := MainNode(), 3 := SideNode()]
    ensures AllStored(blocks, [GenesisNode(), MainNode()])
    ensures AllStored(blocks, [MainNode()]) && AllStored(blocks, [SideNode()])
    ensures Prepared(Rules(), blocks, index, [GenesisNode(), MainNode()], [MainNode()], [SideNode()])
  {
    hide Checkable, WellOrdered, ValidBlock, Connectable, AllStored, BlocksOf;
    SideStored(blocks);
    SideBlockFlagged();
    assert [Genesis()] + [SideBlock()][..0] == [Genesis()];
    assert Replay([Genesis()]) == map[];
    assert [GenesisNode()] + [SideNode()][..0] == [GenesisNode()];
  }

  lemma SideNotHonest(blocks: BlockStore, index: map<Hash, BlockNode>, status: map<Hash, Status>)
    requires blocks == map[GENESIS := Genesis(), 2 := MainBlock(), 3 := SideBlock()]
    requires index == map[GENESIS := GenesisNode(), 2 := MainNode(), 3 := SideNode()]
    requires NodeStatus(status, SideNode()).valid
    ensures !HonestFlags(Rules(), blocks, index, status)
  {
    hide ValidBlock, Linked;
    SideBlockFlagged();
    assert BlocksOf(blocks, [GenesisNode()]) == [Genesis()] && Replay([Genesis()]) == map[];
    assert Path(GenesisNode()) == [GenesisNode()];
    assert ValidBranch(Rules(), blocks, GenesisNode());
    ValidBranchStep(Rules(), blocks, SideNode());
    assert !ValidBranch(Rules(), blocks, index[3]);
  }

  lemma MainFits(blocks: BlockStore)
    requires blocks == map[GENESIS := Genesis(), 2 := MainBlock()]
    ensures AllStored(blocks, [GenesisNode()]) && BlocksOf(blocks, [GenesisNode()]) == [Genesis()]
    ensures Stored(blocks, MainNode()) && BlockOf(blocks, MainNode()) == MainBlock() && WellFormed(MainNode())
  {
  }

  // The main block is connected.
  method OneBlock() returns (c: BlockChain)
    ensures fresh(c) && c.p == Rules() && c.Good() && c.Earned()
    ensures c.blocks == map[GENESIS := Genesis(), 2 := MainBlock()]
    ensures c.index == map[GENESIS := GenesisNode(), 2 := MainNode()]
    ensures c.bestChain == [GenesisNode(), MainNode()] && c.db.utxos == MainSet()
    ensures NodeStatus(c.status, SideNode()) == NO_STATUS
  {
    hide Checkable, ValidBlock, EarnedFlags, HonestFlags, GoodState, ValidChain, ApplyBlock, FailureFlags, ValidFlags,
         ValidBranch, Linked, IndexNamed, CountSpent, IsCoinBase;
    c := new BlockChain(Rules(), GenesisNode(), Genesis());
    c.StoreBlock(MainNode(), MainBlock());
    MainFits(c.blocks);
    MainBlockValid();
    ghost var before := c.status;
    var r;
    ghost var connected;
    r, connected := c.AcceptBlock(MainNode(), false);
    assert connected;
    NotNamed(before, c.status);
  }

  // The side block is flagged and not connected.
  method TwoBlocks() returns (c: BlockChain)
    ensures fresh(c) && c.p == Rules() && c.Good() && c.Earned()
    ensures c.blocks == map[GENESIS := Genesis(), 2 := MainBlock(), 3 := SideBlock()]
    ensures c.index == map[GENESIS := GenesisNode(), 2 := MainNode(), 3 := SideNode()]
    ensures c.bestChain == [GenesisNode(), MainNode()] && c.db.utxos == MainSet()
    ensures NodeStatus(c.status, SideNode()).valid
  {
    hide Checkable, ValidBlock, EarnedFlags, HonestFlags, GoodState, ValidChain, ApplyBlock, FailureFlags, ValidBranch,
         Linked, IndexNamed, CountSpent, IsCoinBase, ConsistentState, MainSet;
    c := OneBlock();
    c.StoreBlock(SideNode(), SideBlock());
    SideBlockFlagged();
    SideFits(c.blocks);
    ghost var before := c.status;
    var r;
    ghost var connected;
    r, connected := c.AcceptBlock(SideNode(), false);
    FlagSet(before, c.status, SideNode());
  }

  lemma NotNamed(before: map<Hash, Status>, after: map<Hash, Status>)
    requires before == map[] && ValidFlags(before, after, [MainNode()])
    ensures NodeStatus(after, SideNode()) == NO_STATUS
  {
    assert !Names([MainNode()], SideNode());
  }

  lemma FlagSet(before: map<Hash, Status>, after: map<Hash, Status>, n: BlockNode)
    requires ValidFlags(before, after, [n])
    ensures NodeStatus(after, n).valid
  {
    assert [n][0] == n;
  }

  lemma SideFits(blocks: BlockStore)
    requires blocks == map[GENESIS := Genesis(), 2 := MainBlock(), 3 := SideBlock()]
    ensures Stored(blocks, SideNode()) && BlockOf(blocks, SideNode()) == SideBlock()
  {
  }

  lemma NothingOverwritten()
    ensures NoneOverwrites([Genesis()], [SideBlock()], 1)
  {
    assert [Genesis()] + [SideBlock()][..0] == [Genesis()] && Replay([Genesis()]) == map[];
  }

  lemma SideForks(blocks: BlockStore)
    requires blocks == map[GENESIS := Genesis(), 2 := MainBlock(), 3 := SideBlock()]
    requires AllStored(blocks, [GenesisNode(), MainNode()]) && AllStored(blocks, [MainNode()])
    ensures ForkOf(blocks, [GenesisNode(), MainNode()], [MainNode()]) == [Genesis()]
    ensures GoneOf(blocks, [MainNode()]) == GoneSet([MainBlock()])
    ensures SwitchedTo([GenesisNode(), MainNode()], [MainNode()], [SideNode()], CommitStopped, 0) == [GenesisNode()]
  {
    assert [GenesisNode(), MainNode()][..1] == [GenesisNode()];
    assert BlocksOf(blocks, [GenesisNode()]) == [Genesis()];
    assert BlocksOf(blocks, [MainNode()]) == [MainBlock()];
    assert [GenesisNode()] + [SideNode()][..0] == [GenesisNode()];
  }

  /** From a fresh chain: the main block is connected, the side block is checked against
      its set, flagged as valid and not connected, and the switch to it passes its dry run,
      disconnects the main block and stops. */
  method SideBlockRun() returns (c: BlockChain, r: Outcome)
    ensures fresh(c) && r.CommitStopped? && c.bestChain == [GenesisNode()]
    ensures c.Good() && NodeStatus(c.status, SideNode()).valid && !c.Honest()
  {
    hide Checkable, ValidBlock, EarnedFlags, HonestFlags, GoodState, ConsistentState, ValidChain, Decided, Prepared,
         IndexNamed, ApplyBlock, FailureFlags, ValidFlags, NoneOverwrites, FirstInvalid, ValidBranch, Linked,
         ForkOf, GoneOf, GoneSet, BlocksOf, AllStored, SwitchedTo, KnownValid, Replay;
    c := TwoBlocks();
    ghost var before := c.status;
    SideStored(c.blocks);
    SidePrepared(c.blocks, c.index);
    SideForks(c.blocks);
    SideFlags(before);
    NothingOverwritten();
    ghost var at;
    r, at := c.ReorganizeChain([MainNode()], [SideNode()]);
    SideSwitch(r, at);
    FlagSet(before, c.status, SideNode());
    SideNotHonest(c.blocks, c.index, c.status);
  }

  lemma SideFlags(status: map<Hash, Status>)
    requires NodeStatus(status, SideNode()).valid
    ensures KnownValid(status, [SideNode()]) == [true]
  {
  }
}
