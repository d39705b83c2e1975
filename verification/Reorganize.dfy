/** Connecting, disconnecting and reorganising the main chain.  A reorganisation first
    tries the whole branch switch in one throw-away view and only then repeats it for
    real, writing the database between blocks. */
module Reorganize {
  import opened Types
  import opened Ledger
  import opened UtxoView
  import opened Validate
  import opened ChainState
  import opened BlockTree
  import opened NodeBlocks
  import opened Flags
  import opened ViewHistory
  import opened OtherSet
  import opened Switch

  /** The state: the chain view is the branch of its tip, and the stored state is the one
      replayed along it. */

  ghost predicate ConsistentState(db: Db, blocks: BlockStore, chain: seq<BlockNode>) {
    && chain != []
    && WellFormed(chain[|chain| - 1])
    && chain == Path(chain[|chain| - 1])
    && AllStored(blocks, chain)
    && Recorded(db, BlocksOf(blocks, chain))
  }

  // And every block of the chain can be undone.
  ghost predicate GoodState(db: Db, blocks: BlockStore, chain: seq<BlockNode>) {
    ConsistentState(db, blocks, chain) && ReplayChain(BlocksOf(blocks, chain))
  }

  lemma ConnectState(db: Db, blocks: BlockStore, chain: seq<BlockNode>, node: BlockNode)
    requires ConsistentState(db, blocks, chain) && Stored(blocks, node)
    requires node.parent == Some(chain[|chain| - 1]) && WellFormed(node)
    requires Linked(BlocksOf(blocks, chain), BlockOf(blocks, node))
    ensures var b := BlockOf(blocks, node);
      var db' := ConnectDb(db, b, ApplyBlock(db.utxos, b), BlockSpends(db.utxos, b));
      && ConsistentState(db', blocks, chain + [node])
      && (GoodState(db, blocks, chain) && Replays(db.utxos, b) ==> GoodState(db', blocks, chain + [node]))
  {
    hide Recorded, Linked, Replays, ReplayChain, Stored;
    var bs, b := BlocksOf(blocks, chain), BlockOf(blocks, node);
    ConnectRecorded(db, bs, b);
    assert BlocksOf(blocks, [node]) == [b];
    JoinBlocks(blocks, chain, [node]);
    RecordedReplay(db, bs);
    ExtendReplay(bs, b);
  }

  lemma RecordedReplay(db: Db, bs: seq<Block>)
    requires Recorded(db, bs)
    ensures db.utxos == Replay(bs)
  {
  }

  lemma DisconnectState(db: Db, blocks: BlockStore, chain: seq<BlockNode>)
    requires GoodState(db, blocks, chain) && |chain| > 1
    ensures var b := BlockOf(blocks, chain[|chain| - 1]);
      && b.hash in db.journal && |db.journal[b.hash]| == CountSpent(b.txs)
      && GoodState(DisconnectDb(db, b, UndoBlock(db.utxos, b, db.journal[b.hash])), blocks, chain[..|chain| - 1])
  {
    hide Recorded, ReplayChain, UndoBlock;
    var tip, bs := chain[|chain| - 1], BlocksOf(blocks, chain);
    DisconnectRecorded(db, bs);
    PrefixReplays(bs, |bs| - 1);
    PathShape(tip);
    PathPrefix(tip, tip.height - 1);
    PrefixBlocks(blocks, chain, |chain| - 1);
  }

  function ReplayTo(blocks: BlockStore, chain: seq<BlockNode>, m: nat): Utxos
    requires AllStored(blocks, chain) && m <= |chain|
  {
    Replay(BlocksOf(blocks, chain[..m]))
  }

  lemma ReplayAll(db: Db, blocks: BlockStore, chain: seq<BlockNode>)
    requires ConsistentState(db, blocks, chain)
    ensures ReplayTo(blocks, chain, |chain|) == db.utxos == Replay(BlocksOf(blocks, chain))
  {
    assert chain[..|chain|] == chain;
  }

  lemma DetachFacts(db: Db, blocks: BlockStore, chain: seq<BlockNode>, m: nat)
    requires GoodState(db, blocks, chain) && 1 < m <= |chain|
    ensures var b := BlockOf(blocks, chain[m - 1]);
      && b.txs != [] && b.hash in db.journal && |db.journal[b.hash]| == CountSpent(b.txs)
      && (forall c :: c in db.journal[b.hash] ==> c.height != 0)
      && db.journal[b.hash] == BlockSpends(ReplayTo(blocks, chain, m - 1), b)
      && b.prev == chain[m - 2].hash
      && UndoBlock(ReplayTo(blocks, chain, m), b, db.journal[b.hash]) == ReplayTo(blocks, chain, m - 1)
  {
    hide BlockSpends, UndoBlock, Recorded, ReplayChain, Replay;
    var bs := BlocksOf(blocks, chain);
    PrefixBlocks(blocks, chain, m);
    PrefixBlocks(blocks, chain, m - 1);
    JournalUndo(db, bs, m);
  }

  // Cached spent outputs of the last blocks of the chain, tip first.
  predicate SpentOf(blocks: BlockStore, chain: seq<BlockNode>, spent: seq<seq<Coin>>)
    requires AllStored(blocks, chain)
  {
    && |spent| < |chain|
    && forall i :: 0 <= i < |spent| ==>
      spent[i] == BlockSpends(ReplayTo(blocks, chain, |chain| - i - 1), BlockOf(blocks, chain[|chain| - i - 1]))
  }

  lemma SpentMore(blocks: BlockStore, chain: seq<BlockNode>, spent: seq<seq<Coin>>, stxos: seq<Coin>)
    requires AllStored(blocks, chain) && SpentOf(blocks, chain, spent) && |spent| + 1 < |chain|
    requires stxos == BlockSpends(ReplayTo(blocks, chain, |chain| - |spent| - 1),
                                  BlockOf(blocks, chain[|chain| - |spent| - 1]))
    ensures SpentOf(blocks, chain, spent + [stxos])
  {
    hide BlockSpends, ReplayTo;
  }

  /** What a branch switch is given */

  predicate AllHaveParents(ns: seq<BlockNode>) {
    forall i :: 0 <= i < |ns| ==> ns[i].parent.Some?
  }

  // Each block to attach has the right shape and links for its place.
  predicate AllShaped(p: Params, fork: seq<Block>, bs: seq<Block>) {
    forall j :: 0 <= j < |bs| ==> Linked(fork + bs[..j], bs[j]) && Checkable(p, Replay(fork + bs[..j]), bs[j])
  }

  // What getReorganizeNodes and the block index provide for a switch.
  predicate Prepared(p: Params, blocks: BlockStore, index: map<Hash, BlockNode>, chain: seq<BlockNode>,
                     detach: seq<BlockNode>, attach: seq<BlockNode>)
    requires AllStored(blocks, chain)
  {
    && Detachable(chain, detach) && AllStored(blocks, attach) && AllIndexed(index, attach)
    && Extends(chain[..|chain| - |detach|], attach)
    && AllShaped(p, BlocksOf(blocks, chain[..|chain| - |detach|]), BlocksOf(blocks, attach))
  }

  // The two consistency checks at the start of reorganizeChain.
  predicate InSync(chain: seq<BlockNode>, detach: seq<BlockNode>, attach: seq<BlockNode>)
    requires chain != [] && AllHaveParents(detach) && AllHaveParents(attach)
  {
    && (detach != [] ==> detach[0].hash == chain[|chain| - 1].hash)
    && (detach != [] && attach != [] ==>
        attach[0].parent.value.hash == detach[|detach| - 1].parent.value.hash)
  }

  // A block never repeats a hash of the chain it is linked to.
  lemma ShapedDistinct(p: Params, blocks: BlockStore, fork: seq<BlockNode>, attach: seq<BlockNode>)
    requires AllStored(blocks, fork) && AllStored(blocks, attach)
    requires AllShaped(p, BlocksOf(blocks, fork), BlocksOf(blocks, attach))
    ensures DistinctNodes(attach)
  {
    hide Checkable, Replay;
    var f, bs := BlocksOf(blocks, fork), BlocksOf(blocks, attach);
    forall i, j | 0 <= i < j < |attach| ensures attach[i].hash != attach[j].hash {
      assert Linked(f + bs[..j], bs[j]);
      assert (f + bs[..j])[|f| + i] == bs[i];
    }
  }

  // The outputs created by the nodes to detach.
  function GoneOf(blocks: BlockStore, ns: seq<BlockNode>): set<OutPoint>
    requires AllStored(blocks, ns)
  {
    GoneSet(BlocksOf(blocks, ns))
  }

  lemma DetachStored(blocks: BlockStore, chain: seq<BlockNode>, detach: seq<BlockNode>)
    requires AllStored(blocks, chain) && Detachable(chain, detach)
    ensures AllStored(blocks, detach)
  {
    hide Stored;
    forall i | 0 <= i < |detach| ensures Stored(blocks, detach[i]) {
      assert detach[i] == chain[|chain| - 1 - i];
    }
  }

  lemma GoneMore(blocks: BlockStore, ns: seq<BlockNode>, i: nat)
    requires AllStored(blocks, ns) && i < |ns|
    ensures AllStored(blocks, ns[..i]) && AllStored(blocks, ns[..i + 1])
    ensures GoneOf(blocks, ns[..i + 1]) == GoneOf(blocks, ns[..i]) + AllCreated(BlockOf(blocks, ns[i]).txs)
  {
    hide Stored;
    assert BlocksOf(blocks, ns[..i + 1])[..i] == BlocksOf(blocks, ns[..i]);
  }

  // The first j blocks passed; the throw-away view stands for the chain with them.
  ghost predicate Tried(store: Utxos, v: Entries, best: Hash, fork: seq<Block>, bs: seq<Block>, gone: set<OutPoint>,
                        j: nat)
    requires j <= |bs|
  {
    var c := fork + bs[..j];
    c != [] && StandsFor(v, store, Replay(c)) && Remembers(v, Touched(gone, bs[..j])) && best == c[|c| - 1].hash
  }

  lemma TriedStart(store: Utxos, v: Entries, best: Hash, fork: seq<Block>, bs: seq<Block>, gone: set<OutPoint>)
    requires fork != [] && StandsFor(v, store, Replay(fork)) && Remembers(v, gone) && best == fork[|fork| - 1].hash
    ensures Tried(store, v, best, fork, bs, gone, 0)
  {
    TakeNone(fork, bs);
    hide StandsFor, Remembers, Replay;
  }

  lemma TriedStep(store: Utxos, v: Entries, best: Hash, fork: seq<Block>, bs: seq<Block>, gone: set<OutPoint>, j: nat)
    requires j < |bs| && fork + bs[..j] != []
    requires StandsFor(v, store, ApplyBlock(Replay(fork + bs[..j]), bs[j])) && best == bs[j].hash
    requires Remembers(v, Touched(gone, bs[..j]) + BlockInputs(bs[j].txs))
    ensures Tried(store, v, best, fork, bs, gone, j + 1)
  {
    hide StandsFor, Remembers, Replay, ApplyBlock;
    TakeOneMore(fork, bs, j);
    ExtendReplay(fork + bs[..j], bs[j]);
    assert bs[..j + 1][..j] == bs[..j];
  }

  lemma PassMore(p: Params, known: seq<bool>, fork: seq<Block>, bs: seq<Block>, gone: set<OutPoint>, j: nat)
    requires j < |bs| == |known| && AllPass(p, known, fork, bs, gone, j)
    ensures if PassAt(p, known, fork, bs, gone, j) then AllPass(p, known, fork, bs, gone, j + 1)
            else StopsAt(p, known, fork, bs, gone, j)
  {
    hide PassAt;
  }

  // What has passed is valid somewhere.
  lemma PassedEarned(p: Params, blocks: BlockStore, index: map<Hash, BlockNode>, status: map<Hash, Status>,
                     fork: seq<Block>, attach: seq<BlockNode>, gone: set<OutPoint>, n: nat)
    requires EarnedFlags(p, blocks, index, status) && AllIndexed(index, attach) && AllStored(blocks, attach)
    requires n <= |attach| && AllPass(p, KnownValid(status, attach), fork, BlocksOf(blocks, attach), gone, n)
    ensures forall i :: 0 <= i < n ==> EarnedBlock(p, BlockOf(blocks, attach[i]))
  {
    hide ValidBlock, Replay, Touched;
    forall i | 0 <= i < n ensures EarnedBlock(p, BlockOf(blocks, attach[i])) {
      assert PassAt(p, KnownValid(status, attach), fork, BlocksOf(blocks, attach), gone, i);
      KnownEarned(p, blocks, index, status, attach, i);
    }
  }

  lemma KnownEarned(p: Params, blocks: BlockStore, index: map<Hash, BlockNode>, status: map<Hash, Status>,
                    attach: seq<BlockNode>, i: nat)
    requires EarnedFlags(p, blocks, index, status) && AllIndexed(index, attach) && AllStored(blocks, attach)
    requires i < |attach|
    ensures NodeStatus(status, attach[i]).valid ==> EarnedBlock(p, BlockOf(blocks, attach[i]))
  {
    hide EarnedBlock;
  }

  // What honest flags, and a valid main chain, make of the blocks to attach.
  lemma HonestSwitch(p: Params, blocks: BlockStore, index: map<Hash, BlockNode>, status: map<Hash, Status>,
                     fork: seq<BlockNode>, attach: seq<BlockNode>)
    requires HonestFlags(p, blocks, index, status) && AllIndexed(index, attach)
    requires Extends(fork, attach) && fork == Path(fork[|fork| - 1])
    requires AllStored(blocks, fork) && AllStored(blocks, attach)
    requires AllShaped(p, BlocksOf(blocks, fork), BlocksOf(blocks, attach))
    ensures FlagsHold(p, KnownValid(status, attach), BlocksOf(blocks, fork), BlocksOf(blocks, attach))
    ensures AllLinked(BlocksOf(blocks, fork), BlocksOf(blocks, attach))
  {
    hide Checkable, ValidBlock, Extends, HonestFlags, AllIndexed;
    forall j | 0 <= j < |attach| && KnownValid(status, attach)[j]
      ensures ValidBlock(p, Replay(BlocksOf(blocks, fork) + BlocksOf(blocks, attach)[..j]), BlocksOf(blocks, attach)[j])
    {
      KnownValidBlock(p, blocks, index, status, fork, attach, j);
    }
  }

  lemma EarnedPrefix(p: Params, blocks: BlockStore, index: map<Hash, BlockNode>, before: map<Hash, Status>,
                     attach: seq<BlockNode>, n: nat)
    requires EarnedFlags(p, blocks, index, before) && IndexNamed(index)
    requires AllIndexed(index, attach) && AllStored(blocks, attach) && n <= |attach|
    requires forall i :: 0 <= i < n ==> EarnedBlock(p, BlockOf(blocks, attach[i]))
    ensures EarnedFlags(p, blocks, index, MarkValid(before, attach[..n]))
    ensures n < |attach| ==> EarnedFlags(p, blocks, index, MarkFailure(before, attach, n))
  {
    hide EarnedFlags, EarnedBlock, MarkValid, MarkFailure, Stored;
    forall m ensures NodeStatus(MarkValid(before, attach[..n]), m).valid ==>
      NodeStatus(before, m).valid || Names(attach[..n], m)
    {
      MarkValidAt(before, attach[..n], m);
    }
    EarnedAfter(p, blocks, index, before, MarkValid(before, attach[..n]), attach[..n]);
    if n < |attach| {
      forall m ensures NodeStatus(MarkFailure(before, attach, n), m).valid ==>
        NodeStatus(before, m).valid || Names(attach[..n], m)
      {
        MarkFailureAt(before, attach, n, m);
        MarkValidAt(before, attach[..n], m);
      }
      EarnedAfter(p, blocks, index, before, MarkFailure(before, attach, n), attach[..n]);
    }
  }

  lemma HonestPrefix(p: Params, blocks: BlockStore, index: map<Hash, BlockNode>, before: map<Hash, Status>,
                     fork: seq<BlockNode>, attach: seq<BlockNode>, n: nat)
    requires HonestFlags(p, blocks, index, before) && AllIndexed(index, attach) && IndexNamed(index)
    requires Extends(fork, attach) && fork == Path(fork[|fork| - 1]) && n <= |attach|
    requires AllStored(blocks, fork) && AllStored(blocks, attach)
    requires ValidChain(p, BlocksOf(blocks, fork) + BlocksOf(blocks, attach)[..n])
    ensures HonestFlags(p, blocks, index, MarkValid(before, attach[..n]))
    ensures n < |attach| ==> HonestFlags(p, blocks, index, MarkFailure(before, attach, n))
  {
    hide HonestFlags, AllIndexed, Extends, Path, ValidChain, MarkValid, MarkFailure;
    forall m ensures NodeStatus(MarkValid(before, attach[..n]), m).valid ==>
      NodeStatus(before, m).valid || Names(attach[..n], m)
    {
      MarkValidAt(before, attach[..n], m);
    }
    HonestAfter(p, blocks, index, before, MarkValid(before, attach[..n]), fork, attach, n);
    if n < |attach| {
      forall m ensures NodeStatus(MarkFailure(before, attach, n), m).valid ==>
        NodeStatus(before, m).valid || Names(attach[..n], m)
      {
        MarkFailureAt(before, attach, n, m);
        MarkValidAt(before, attach[..n], m);
      }
      HonestAfter(p, blocks, index, before, MarkFailure(before, attach, n), fork, attach, n);
    }
  }

  lemma MarkKnown(status: map<Hash, Status>, node: BlockNode)
    requires NodeStatus(status, node).valid
    ensures WithValid(status, node) == status
  {
  }

  lemma FailureIs(status: map<Hash, Status>, attach: seq<BlockNode>, j: nat)
    requires j < |attach|
    ensures MarkDescendants(WithFailed(MarkValid(status, attach[..j]), attach[j]), attach[j + 1..])
         == MarkFailure(status, attach, j)
  {
  }

  lemma LastHash(blocks: BlockStore, ns: seq<BlockNode>)
    requires AllStored(blocks, ns) && ns != []
    ensures BlocksOf(blocks, ns)[|ns| - 1].hash == ns[|ns| - 1].hash
  {
  }

  lemma LinkedPrev(blocks: BlockStore, chain: seq<BlockNode>, b: Block)
    requires AllStored(blocks, chain) && Linked(BlocksOf(blocks, chain), b)
    ensures chain != [] && b.prev == chain[|chain| - 1].hash
  {
  }

  // What holds when it is the turn of block j to be attached for real.
  lemma TurnFacts(p: Params, db: Db, blocks: BlockStore, chain: seq<BlockNode>, attach: seq<BlockNode>,
                  fork: seq<Block>, j: nat)
    requires AllStored(blocks, chain) && fork == BlocksOf(blocks, chain) && AllStored(blocks, attach) && j < |attach|
    requires ConsistentState(db, blocks, chain + attach[..j]) && Extends(chain, attach)
    requires AllShaped(p, fork, BlocksOf(blocks, attach))
    ensures Stored(blocks, attach[j]) && WellFormed(attach[j])
    ensures attach[j].parent == Some((chain + attach[..j])[|chain| + j - 1])
    ensures Linked(BlocksOf(blocks, chain + attach[..j]), BlockOf(blocks, attach[j]))
    ensures Checkable(p, db.utxos, BlockOf(blocks, attach[j]))
    ensures db.utxos == Replay(fork + BlocksOf(blocks, attach)[..j])
    ensures ConnectsAt(fork, BlocksOf(blocks, attach), j)
       <==> Connectable(db.utxos, BlockOf(blocks, attach[j]).txs, attach[j].height)
  {
    hide Linked, Checkable, Replay, WellFormed, Path;
    var bs := BlocksOf(blocks, attach);
    PrefixBlocks(blocks, attach, j);
    JoinBlocks(blocks, chain, attach[..j]);
    RecordedReplay(db, BlocksOf(blocks, chain + attach[..j]));
    assert Linked(fork + bs[..j], bs[j]) && Checkable(p, Replay(fork + bs[..j]), bs[j]);
  }

  lemma OverwritesNext(fork: seq<Block>, bs: seq<Block>, j: nat)
    requires j < |bs|
    ensures NoneOverwrites(fork, bs, j + 1) ==>
      NoneOverwrites(fork, bs, j) && NoOverwrite(Replay(fork + bs[..j]), bs[j].txs)
  {
    hide NoOverwrite, Replay;
  }

  lemma ConnectNextAt(fork: seq<Block>, bs: seq<Block>, j: nat)
    requires j < |bs| && AllConnect(fork, bs, j)
    ensures if ConnectsAt(fork, bs, j) then AllConnect(fork, bs, j + 1) else BreaksAt(fork, bs, j)
  {
    hide ConnectsAt;
  }

  /** A block connected twice in one view, as an already flagged or fast-added block is */

  lemma {:induction false} ConnectAllCount(v: Entries, txs: seq<Tx>, height: int)
    requires CoinBaseFirst(txs) && ConnectAll(v, txs, height).Some?
    ensures |ConnectAll(v, txs, height).value.coins| == CountSpent(txs)
  {
    hide ConnectEntries, AllPresent;
    if txs != [] {
      ConnectAllCount(v, txs[..|txs| - 1], height);
    }
  }

  lemma NothingSpent(b: Block)
    requires WellOrdered(b) && AllSane(b) && CountSpent(b.txs) == 0
    ensures |b.txs| == 1 && IsCoinBase(b.txs[0])
  {
    assert |b.txs| > 1 ==> Sane(b.txs[|b.txs| - 1]);
  }

  // Replaying a lone coinbase twice is replaying it once.
  lemma CoinbaseTwice(u: Utxos, b: Block)
    requires |b.txs| == 1 && IsCoinBase(b.txs[0])
    ensures ApplyBlock(ApplyBlock(u, b), b) == ApplyBlock(u, b)
    ensures Connectable(u, b.txs, b.height) && Spends(u, b.txs, b.height) == []
  {
    assert b.txs[..|b.txs| - 1] == [];
    CoinbaseApplied(u, b);
    CoinbaseApplied(u + Created(b.txs[0], b.height), b);
  }

  lemma CoinbaseApplied(u: Utxos, b: Block)
    requires |b.txs| == 1 && IsCoinBase(b.txs[0])
    ensures ApplyBlock(u, b) == u + Created(b.txs[0], b.height)
  {
    assert b.txs[..|b.txs| - 1] == [];
    assert ApplyTxs(u, [], b.height) == u;
  }

  // The second time succeeds as well, doubles the spent coins, and leaves the view alone
  // when there are none.
  lemma DoubleConnect(p: Params, v: Entries, store: Utxos, b: Block)
    requires Checkable(p, store, b) && StandsFor(v, store, store) && BlockVerdict(p, v, store, b).Some?
    ensures var c := BlockVerdict(p, v, store, b).value;
      var d := ConnectAll(FetchedView(c.entries, store, b), b.txs, b.height);
      && d.Some? && |d.value.coins| == CountSpent(b.txs) && |c.coins| == CountSpent(b.txs)
      && (CountSpent(b.txs) == 0 ==>
            StandsFor(d.value.entries, store, ApplyBlock(store, b)) && c.coins + d.value.coins == BlockSpends(store, b))
  {
    hide BlockVerdict, FetchedView, ConnectAll, Held, Tracks, MidBlock, Spends, ApplyBlock, Connectable, WellOrdered,
         AllSane, NoOverwrite;
    VerdictMeans(p, v, store, store, b);
    VerdictTracks(p, v, store, b);
    var c := BlockVerdict(p, v, store, b).value;
    var f := FetchedView(c.entries, store, b);
    FetchedViewTracks(c.entries, store, b);
    TracksHeld(c.entries, f, BlockInputs(b.txs));
    ConnectAllPresent(f, store, b);
    OrderedCoinBase(b);
    ConnectAllCount(f, b.txs, b.height);
    SpendsCount(store, b.txs, b.height);
    if CountSpent(b.txs) == 0 {
      NothingSpent(b);
      CoinbaseTwice(store, b);
      FetchedMidBlock(c.entries, store, ApplyBlock(store, b), b);
      ConnectAllReplays(f, store, ApplyBlock(store, b), b);
    }
  }

  lemma TracksHeld(v: Entries, w: Entries, s: set<OutPoint>)
    requires Tracks(v, w, {}) && forall o :: o in s ==> Held(v, o)
    ensures forall o :: o in s ==> Held(w, o)
  {
  }

  lemma OrderedCoinBase(b: Block)
    requires WellOrdered(b)
    ensures CoinBaseFirst(b.txs)
  {
  }

  // The flag of a new block and, on a child of the tip, what connecting it does.
  lemma AcceptedState(p: Params, db: Db, blocks: BlockStore, index: map<Hash, BlockNode>, before: map<Hash, Status>,
                      chain: seq<BlockNode>, node: BlockNode)
    requires GoodState(db, blocks, chain) && IndexNamed(index) && EarnedFlags(p, blocks, index, before)
    requires Stored(blocks, node) && AllIndexed(index, [node]) && ValidBlock(p, db.utxos, BlockOf(blocks, node))
    ensures EarnedFlags(p, blocks, index, WithValid(before, node))
      && ValidFlags(before, WithValid(before, node), [node])
    ensures HonestFlags(p, blocks, index, before) ==>
      (HonestFlags(p, blocks, index, WithValid(before, node)) <==> ValidBranch(p, blocks, node))
  {
    hide EarnedFlags, HonestFlags, ValidBlock, ValidBranch, ValidFlags, MarkValid, WithValid, GoodState, AllIndexed;
    assert [node][..1] == [node] && [node][0] == node;
    assert EarnedBlock(p, BlockOf(blocks, node));
    MarkOne(before, node);
    MarkValidFlags(before, [node]);
    EarnedPrefix(p, blocks, index, before, [node], 1);
    if HonestFlags(p, blocks, index, before) {
      HonestNode(p, blocks, index, before, node);
    }
  }

  lemma RefusedState(p: Params, blocks: BlockStore, index: map<Hash, BlockNode>, before: map<Hash, Status>,
                     node: BlockNode)
    requires IndexNamed(index)
    ensures EarnedFlags(p, blocks, index, before) ==> EarnedFlags(p, blocks, index, WithFailed(before, node))
    ensures HonestFlags(p, blocks, index, before) ==> HonestFlags(p, blocks, index, WithFailed(before, node))
    ensures FailureFlags(before, WithFailed(before, node), [node], 0)
  {
    hide ValidBranch, EarnedBlock, Names;
    forall n | !Names([node], n) ensures NodeStatus(WithFailed(before, node), n) == NodeStatus(before, n) {
      NamesLast([node], n);
    }
  }

  lemma VerdictMeansStands(p: Params, v: Entries, store: Utxos, b: Block)
    requires Checkable(p, store, b) && StandsFor(v, store, store)
    ensures var c := BlockVerdict(p, v, store, b);
      && (c.Some? <==> ValidBlock(p, store, b))
      && (c.Some? ==> StandsFor(c.value.entries, store, ApplyBlock(store, b)) && c.value.coins == BlockSpends(store, b))
  {
    hide BlockVerdict, Checkable, ValidBlock, Spends;
    VerdictMeans(p, v, store, store, b);
  }

  lemma SetAgain(status: map<Hash, Status>, node: BlockNode)
    requires node.hash in status && status[node.hash].valid
    ensures status[node.hash := NodeStatus(status, node).(valid := true)] == status
  {
  }

  lemma ValidConnects(p: Params, u: Utxos, b: Block)
    requires ValidBlock(p, u, b)
    ensures Replays(u, b) && b.txs != []
    ensures BlockSpends(u, b) == Spends(u, b.txs, b.height) && |BlockSpends(u, b)| == CountSpent(b.txs)
  {
    TxsOkConnectable(u, b.txs, b.height, p.maturity);
    SpendsCount(u, b.txs, b.height);
  }

  lemma GoodNotEmpty(db: Db, blocks: BlockStore, chain: seq<BlockNode>)
    requires GoodState(db, blocks, chain)
    ensures chain != [] && AllStored(blocks, chain) && ConsistentState(db, blocks, chain)
  {
  }

  // Refused, reported as on the main chain, or left to the comparison of work.
  datatype Accepted = Refused | MainChain | Undecided

  // OutOfSync, MissingInput and CommitStopped are assertion errors in the source.
  datatype Outcome = Done | RuleFailure | OutOfSync | MissingInput | CommitStopped

  class BlockChain {
    const p: Params
    var db: Db
    var blocks: BlockStore            // stored blocks
    var index: map<Hash, BlockNode>   // the block index
    var bestChain: seq<BlockNode>     // contents of the chain view
    var status: map<Hash, Status>     // validation status of the indexed nodes

    ghost predicate Consistent()
      reads this`db, this`blocks, this`bestChain
    {
      ConsistentState(db, blocks, bestChain)
    }

    ghost predicate Good()
      reads this`db, this`blocks, this`bestChain
    {
      GoodState(db, blocks, bestChain)
    }

    // Every rule holds along the main chain.
    ghost predicate ValidMain()
      reads this`blocks, this`bestChain
    {
      AllStored(blocks, bestChain) && ValidChain(p, BlocksOf(blocks, bestChain))
    }

    // The index names nodes by their hashes, and flagged blocks are valid somewhere.
    ghost predicate Earned()
      reads this`blocks, this`index, this`status
    {
      IndexNamed(index) && EarnedFlags(p, blocks, index, status)
    }

    // No valid flag lies.
    ghost predicate Honest()
      reads this`blocks, this`index, this`status
    {
      HonestFlags(p, blocks, index, status)
    }

    // A fresh chain holds the genesis block alone.
    constructor (params: Params, genesis: BlockNode, g: Block)
      requires genesis.parent == None && genesis.height == 0
      requires g.hash == genesis.hash && g.height == 0
      ensures p == params && Good() && ValidMain() && Earned() && Honest() && bestChain == [genesis]
      ensures blocks == map[g.hash := g] && index == map[g.hash := genesis] && status == map[]
      ensures db == GenesisDb(g)
    {
      p := params;
      db := GenesisDb(g);
      blocks := map[g.hash := g];
      index := map[g.hash := genesis];
      bestChain := [genesis];
      status := map[];
      new;
      assert BlocksOf(blocks, bestChain) == [g];
      GenesisMirrors(p, g);
      ValidReplays(p, [g]);
    }

    // dbStoreBlock and AddNode: a new block is stored and its node indexed, without flags.
    method StoreBlock(node: BlockNode, b: Block)
      requires Good() && Earned()
      requires node.hash !in blocks && NodeStatus(status, node) == NO_STATUS && b.hash == node.hash
      modifies this`blocks, this`index
      ensures Good() && Earned() && Stored(blocks, node) && BlockOf(blocks, node) == b.(height := node.height)
      ensures old(Honest()) ==> Honest()
      ensures old(ValidMain()) ==> ValidMain()
      ensures index == old(index)[node.hash := node] && blocks == old(blocks)[node.hash := b]
    {
      hide EarnedFlags, HonestFlags, Recorded, ReplayChain, ValidChain, Path, WellFormed;
      StoreKeepsFlags(p, blocks, index, status, node, b);
      SameBlocks(blocks, blocks[node.hash := b], bestChain);
      blocks := blocks[node.hash := b];
      index := index[node.hash := node];
    }

    // Refuses a block that does not extend the tip or comes with the wrong number of
    // spent outputs; otherwise writes the database and moves the tip.
    method ConnectBlock(node: BlockNode, b: Block, view: UtxoViewpoint, stxos: seq<Coin>) returns (ok: bool)
      requires Consistent() && Stored(blocks, node) && b == BlockOf(blocks, node) && b.txs != []
      requires b.prev == bestChain[|bestChain| - 1].hash && |stxos| == CountSpent(b.txs) ==>
        && node.parent == Some(bestChain[|bestChain| - 1]) && WellFormed(node)
        && Linked(BlocksOf(blocks, bestChain), b)
        && StandsFor(view.entries, db.utxos, ApplyBlock(db.utxos, b))
        && stxos == BlockSpends(db.utxos, b)
      modifies this`db, this`bestChain, view`entries
      ensures ok <==> b.prev == old(bestChain[|bestChain| - 1]).hash && |stxos| == CountSpent(b.txs)
      ensures Consistent()
      ensures ok ==> bestChain == old(bestChain) + [node]
      ensures ok ==> db == ConnectDb(old(db), b, ApplyBlock(old(db).utxos, b), stxos)
      ensures ok ==> StandsFor(view.entries, db.utxos, db.utxos) && Remembers(view.entries, {})
      ensures ok && old(Good()) && Replays(old(db).utxos, b) ==> Good()
      ensures !ok ==> db == old(db) && bestChain == old(bestChain) && view.entries == old(view.entries)
    {
      hide StandsFor, Remembers, Linked, BlockSpends, Recorded, Replays, ReplayChain, Path, WellFormed, Stored;
      if b.prev != bestChain[|bestChain| - 1].hash {
        return false;
      }
      var numSpent := CountSpentOutputs(b);
      if |stxos| != numSpent {
        return false;
      }
      ConnectState(db, blocks, bestChain, node);
      var utxos := WriteBack(view, db.utxos, ApplyBlock(db.utxos, b));
      db := ConnectDb(db, b, utxos, stxos);
      bestChain := bestChain + [node];
      ok := true;
    }

    // Refuses any node but the tip; otherwise writes the database and moves the tip back.
    method DisconnectBlock(node: BlockNode, b: Block, view: UtxoViewpoint) returns (ok: bool)
      requires Good()
      requires node.hash == bestChain[|bestChain| - 1].hash ==>
        && node == bestChain[|bestChain| - 1] && |bestChain| > 1 && b == BlockOf(blocks, node)
        && b.hash in db.journal && |db.journal[b.hash]| == CountSpent(b.txs)
        && StandsFor(view.entries, db.utxos, UndoBlock(db.utxos, b, db.journal[b.hash]))
      modifies this`db, this`bestChain, view`entries
      ensures ok <==> node.hash == old(bestChain[|bestChain| - 1]).hash
      ensures Good()
      ensures ok ==> |old(bestChain)| > 1 && bestChain == old(bestChain)[..|old(bestChain)| - 1]
      ensures ok ==> StandsFor(view.entries, db.utxos, db.utxos) && Remembers(view.entries, {})
      ensures !ok ==> db == old(db) && bestChain == old(bestChain) && view.entries == old(view.entries)
    {
      hide StandsFor, Remembers, UndoBlock, Recorded, ReplayChain, Path, WellFormed;
      if node.hash != bestChain[|bestChain| - 1].hash {
        return false;
      }
      DisconnectState(db, blocks, bestChain);
      var utxos := WriteBack(view, db.utxos, UndoBlock(db.utxos, b, db.journal[b.hash]));
      db := DisconnectDb(db, b, utxos);
      bestChain := bestChain[..|bestChain| - 1];
      ok := true;
    }

    // The check of connectBestChain: in a fresh view over the stored set of the tip,
    // whatever the parent; the outcome flags the node.
    method FlagNew(node: BlockNode) returns (ok: bool, view: UtxoViewpoint, stxos: seq<Coin>)
      requires Good() && Earned() && Stored(blocks, node) && AllIndexed(index, [node])
      requires Checkable(p, db.utxos, BlockOf(blocks, node))
      modifies this`status
      ensures fresh(view) && Good() && Earned()
      ensures ok <==> ValidBlock(p, db.utxos, BlockOf(blocks, node))
      ensures ok ==> var c := BlockVerdict(p, map[], db.utxos, BlockOf(blocks, node));
        c.Some? && view.entries == c.value.entries && stxos == c.value.coins
      ensures if ok then ValidFlags(old(status), status, [node]) else FailureFlags(old(status), status, [node], 0)
      ensures ok ==> NodeStatus(status, node).valid && node.hash in status
      ensures old(Honest()) ==> (Honest() <==> !ok || ValidBranch(p, blocks, node))
    {
      hide StandsFor, Remembers, ValidBlock, Checkable, EarnedFlags, HonestFlags, AllIndexed, IndexNamed, ValidBranch,
           ValidFlags, FailureFlags, GoodState, BlockVerdict, Stored;
      var b := BlockOf(blocks, node);
      ghost var before := status;
      view := new UtxoViewpoint(b.prev);
      FreshView(db.utxos);
      CheckableShape(p, db.utxos, b);
      VerdictMeansStands(p, map[], db.utxos, b);
      var verdict;
      verdict, stxos := CheckConnectBlock(p, b, view, db.utxos);
      ok := verdict.Accept?;
      if ok {
        status := status[node.hash := NodeStatus(status, node).(valid := true)];
        AcceptedState(p, db, blocks, index, before, bestChain, node);
      } else {
        status := status[node.hash := NodeStatus(status, node).(validateFailed := true)];
        RefusedState(p, blocks, index, before, node);
      }
    }

    /** connectBestChain up to the comparison of work: check and flag, then connect.  A
        block already flagged, or added fast, is connected a second time in the same view,
        which doubles its spent coins. */
    method AcceptBlock(node: BlockNode, fastAdd: bool) returns (r: Accepted, ghost connected: bool)
      requires Good() && Earned() && Stored(blocks, node) && AllIndexed(index, [node])
      requires Checkable(p, db.utxos, BlockOf(blocks, node))
      requires BlockOf(blocks, node).prev == bestChain[|bestChain| - 1].hash ==>
        && node.parent == Some(bestChain[|bestChain| - 1]) && WellFormed(node)
        && Linked(BlocksOf(blocks, bestChain), BlockOf(blocks, node))
      modifies this`db, this`bestChain, this`status
      ensures Good() && Earned()
      ensures r.Refused? <==> !ValidBlock(p, old(db).utxos, BlockOf(blocks, node))
      ensures r.MainChain? <==> !r.Refused? && (fastAdd || NodeStatus(old(status), node).valid)
      ensures connected <==> !r.Refused? && BlockOf(blocks, node).prev == old(bestChain)[|old(bestChain)| - 1].hash
                             && (r.MainChain? ==> CountSpent(BlockOf(blocks, node).txs) == 0)
      ensures connected ==> bestChain == old(bestChain) + [node]
                            && db.utxos == ApplyBlock(old(db).utxos, BlockOf(blocks, node))
      ensures !connected ==> bestChain == old(bestChain) && db == old(db)
      ensures r.Refused? ==> FailureFlags(old(status), status, [node], 0)
      ensures !r.Refused? ==> ValidFlags(old(status), status, [node])
      ensures old(Honest()) ==> (Honest() <==> r.Refused? || ValidBranch(p, blocks, node))
    {
      hide StandsFor, Remembers, ValidBlock, Checkable, EarnedFlags, HonestFlags, AllIndexed, IndexNamed, ValidBranch,
           ValidFlags, FailureFlags, ConsistentState, ReplayChain, Linked, BlockSpends, Replays, BlockVerdict,
           FetchedView, ConnectAll, ApplyBlock, Stored, WellFormed, Path, CountSpent;
      var b := BlockOf(blocks, node);
      ghost var store := db.utxos;
      var known := fastAdd || NodeStatus(status, node).valid;
      connected := false;
      GoodNotEmpty(db, blocks, bestChain);
      var ok, view, stxos := FlagNew(node);
      if !ok {
        return Refused, false;
      }
      FreshView(store);
      VerdictMeansStands(p, map[], store, b);
      ValidConnects(p, store, b);
      if known {
        DoubleConnect(p, map[], store, b);
        view.FetchInputUtxos(db.utxos, b);
        ok, stxos := view.ConnectTransactions(b, stxos);
      }
      connected := ConnectBlock(node, b, view, stxos);
      if known {
        SetAgain(status, node);
        status := status[node.hash := NodeStatus(status, node).(valid := true)];
        return MainChain, connected;
      }
      r := Undecided;
    }

    method DryDetachOne(node: BlockNode, ghost m: nat, view: UtxoViewpoint,
                        ghost t: set<OutPoint>) returns (stxos: seq<Coin>)
      requires Good() && 1 < m <= |bestChain| && node == bestChain[m - 1]
      requires StandsFor(view.entries, db.utxos, ReplayTo(blocks, bestChain, m)) && Remembers(view.entries, t)
      modifies view
      ensures StandsFor(view.entries, db.utxos, ReplayTo(blocks, bestChain, m - 1))
      ensures Remembers(view.entries, t + AllCreated(BlockOf(blocks, node).txs))
      ensures view.bestHash == bestChain[m - 2].hash
      ensures stxos == BlockSpends(ReplayTo(blocks, bestChain, m - 1), BlockOf(blocks, node))
    {
      hide StandsFor, Remembers, BlockSpends, UndoBlock, ReplayTo, Recorded, ReplayChain, Path, WellFormed;
      var b := BlockOf(blocks, node);
      DetachFacts(db, blocks, bestChain, m);
      stxos := db.journal[b.hash];
      DetachInView(b, stxos, view, db.utxos, ReplayTo(blocks, bestChain, m), t);
    }

    /** First phase: undo the blocks to detach in a throw-away view, and keep the spent
        outputs that were loaded for it. */
    method DryDetach(detach: seq<BlockNode>) returns (view: UtxoViewpoint, spent: seq<seq<Coin>>)
      requires Good() && Detachable(bestChain, detach) && AllStored(blocks, detach)
      ensures fresh(view)
      ensures |spent| == |detach| && SpentOf(blocks, bestChain, spent)
      ensures StandsFor(view.entries, db.utxos, ReplayTo(blocks, bestChain, |bestChain| - |detach|))
      ensures Remembers(view.entries, GoneOf(blocks, detach))
      ensures view.bestHash == bestChain[|bestChain| - |detach| - 1].hash
    {
      hide StandsFor, Remembers, BlockSpends, ReplayTo, Recorded, ReplayChain, Path, WellFormed;
      view := new UtxoViewpoint(bestChain[|bestChain| - 1].hash);
      spent := [];
      FreshView(db.utxos);
      ReplayAll(db, blocks, bestChain);
      ghost var m := |bestChain|;
      for i := 0 to |detach|
        invariant |spent| == i && m == |bestChain| - i && SpentOf(blocks, bestChain, spent)
        invariant StandsFor(view.entries, db.utxos, ReplayTo(blocks, bestChain, m))
        invariant Remembers(view.entries, GoneOf(blocks, detach[..i]))
        invariant view.bestHash == bestChain[m - 1].hash
      {
        GoneMore(blocks, detach, i);
        var stxos := DryDetachOne(detach[i], m, view, GoneOf(blocks, detach[..i]));
        SpentMore(blocks, bestChain, spent, stxos);
        spent := spent + [stxos];
        m := m - 1;
      }
      TakeAll(detach);
    }

    method DryAttachOne(attach: seq<BlockNode>, j: nat, view: UtxoViewpoint, ghost fork: seq<Block>,
                        ghost gone: set<OutPoint>, ghost status0: map<Hash, Status>)
      returns (ok: bool, known: bool)
      requires AllStored(blocks, attach) && j < |attach| && AllIndexed(index, attach)
      requires AllShaped(p, fork, BlocksOf(blocks, attach)) && EarnedFlags(p, blocks, index, status0)
      requires status == MarkValid(status0, attach[..j])
      requires Tried(db.utxos, view.entries, view.bestHash, fork, BlocksOf(blocks, attach), gone, j)
      modifies view, this`status
      ensures known == NodeStatus(status0, attach[j]).valid
      ensures ok <==> PassAt(p, KnownValid(status0, attach), fork, BlocksOf(blocks, attach), gone, j)
      ensures ok ==> status == MarkValid(status0, attach[..j + 1])
                     && Tried(db.utxos, view.entries, view.bestHash, fork, BlocksOf(blocks, attach), gone, j + 1)
      ensures !ok ==> status == if known then MarkValid(status0, attach[..j]) else MarkFailure(status0, attach, j)
    {
      hide StandsFor, Remembers, EarnedFlags, EarnedBlock, Checkable, PassesDry, Replay, ApplyBlock, MarkFailure,
           AllIndexed;
      var b := BlockOf(blocks, attach[j]);
      ghost var bs := BlocksOf(blocks, attach);
      assert Linked(fork + bs[..j], bs[j]) && Checkable(p, Replay(fork + bs[..j]), bs[j]);
      StatusUntouched(status0, attach, bs, fork, j);
      KnownEarned(p, blocks, index, status0, attach, j);
      known := NodeStatus(status, attach[j]).valid;
      ok := AttachInView(p, known, b, view, db.utxos, Replay(fork + bs[..j]), Touched(gone, bs[..j]));
      MarkValidStep(status0, attach, j);
      if ok {
        if known {
          MarkKnown(status, attach[j]);
        } else {
          status := status[attach[j].hash := NodeStatus(status, attach[j]).(valid := true)];
        }
        TriedStep(db.utxos, view.entries, view.bestHash, fork, bs, gone, j);
      } else if !known {
        SetFailed(attach, j);
        FailureIs(status0, attach, j);
      }
    }

    /** First phase, second half: try the blocks to attach in the same view.  Stops at the
        first block that does not pass; when that is a rule violation, it and the blocks
        after it are marked. */
    method DryAttach(attach: seq<BlockNode>, view: UtxoViewpoint, ghost fork: seq<Block>, ghost gone: set<OutPoint>)
      returns (stop: Option<nat>, known: bool)
      requires AllStored(blocks, attach) && AllIndexed(index, attach) && fork != []
      requires AllShaped(p, fork, BlocksOf(blocks, attach)) && EarnedFlags(p, blocks, index, status)
      requires StandsFor(view.entries, db.utxos, Replay(fork)) && Remembers(view.entries, gone)
      requires view.bestHash == fork[|fork| - 1].hash
      modifies view, this`status
      ensures stop.None? ==> AllPass(p, KnownValid(old(status), attach), fork, BlocksOf(blocks, attach), gone, |attach|)
                             && status == MarkValid(old(status), attach)
      ensures stop.Some? ==>
        && StopsAt(p, KnownValid(old(status), attach), fork, BlocksOf(blocks, attach), gone, stop.value)
        && known == KnownValid(old(status), attach)[stop.value]
        && status == if known then MarkValid(old(status), attach[..stop.value])
                     else MarkFailure(old(status), attach, stop.value)
    {
      hide StandsFor, Remembers, EarnedFlags, AllShaped, AllIndexed, Replay, MarkValid, MarkFailure, PassAt, Tried;
      ghost var bs := BlocksOf(blocks, attach);
      ghost var flags := KnownValid(status, attach);
      MarkNone(status);
      TakeNone(attach, attach);
      TriedStart(db.utxos, view.entries, view.bestHash, fork, bs, gone);
      known := false;
      for j := 0 to |attach|
        invariant Tried(db.utxos, view.entries, view.bestHash, fork, bs, gone, j)
        invariant AllPass(p, flags, fork, bs, gone, j)
        invariant status == MarkValid(old(status), attach[..j])
      {
        PassMore(p, flags, fork, bs, gone, j);
        var ok;
        ok, known := DryAttachOne(attach, j, view, fork, gone, old(status));
        if !ok {
          return Some(j), known;
        }
      }
      TakeAll(attach);
      stop := None;
    }

    // SetStatusFlags on the invalid block and on every block after it.
    method SetFailed(attach: seq<BlockNode>, j: nat)
      requires j < |attach|
      modifies this`status
      ensures status == MarkDescendants(WithFailed(old(status), attach[j]), attach[j + 1..])
      ensures forall n :: NodeStatus(status, n) == FailedStatus(old(status), attach[j], attach[j + 1..], n)
    {
      status := status[attach[j].hash := NodeStatus(status, attach[j]).(validateFailed := true)];
      ghost var rest := attach[j + 1..];
      assert rest[..0] == [];
      for k := j + 1 to |attach|
        invariant status == MarkDescendants(WithFailed(old(status), attach[j]), rest[..k - j - 1])
      {
        assert rest[..k - j][..k - j - 1] == rest[..k - j - 1];
        status := status[attach[k].hash := NodeStatus(status, attach[k]).(invalidAncestor := true)];
      }
      assert rest[..|attach| - j - 1] == rest;
      forall n ensures NodeStatus(status, n) == FailedStatus(old(status), attach[j], rest, n) {
        MarkDescendantsAt(WithFailed(old(status), attach[j]), rest, n);
      }
    }

    method CommitDetachOne(node: BlockNode, stxos: seq<Coin>, view: UtxoViewpoint)
      requires Good() && |bestChain| > 1 && node == bestChain[|bestChain| - 1]
      requires stxos == BlockSpends(ReplayTo(blocks, bestChain, |bestChain| - 1), BlockOf(blocks, node))
      requires StandsFor(view.entries, db.utxos, db.utxos) && Remembers(view.entries, {})
      modifies this`db, this`bestChain, view
      ensures Good() && bestChain == old(bestChain)[..|old(bestChain)| - 1]
      ensures StandsFor(view.entries, db.utxos, db.utxos) && Remembers(view.entries, {})
    {
      hide StandsFor, Remembers, UndoBlock, BlockSpends, ReplayTo, CountSpent, Recorded, ReplayChain, Path, WellFormed;
      var b := BlockOf(blocks, node);
      DetachFacts(db, blocks, bestChain, |bestChain|);
      ReplayAll(db, blocks, bestChain);
      DetachInView(b, stxos, view, db.utxos, db.utxos, {});
      var ok := DisconnectBlock(node, b, view);
    }

    /** Second phase: disconnect for real, one database write per block */
    method CommitDetach(detach: seq<BlockNode>, spent: seq<seq<Coin>>, view: UtxoViewpoint)
      requires Good() && Detachable(bestChain, detach)
      requires |spent| == |detach| && SpentOf(blocks, bestChain, spent)
      requires StandsFor(view.entries, db.utxos, db.utxos) && Remembers(view.entries, {})
      modifies this`db, this`bestChain, view
      ensures Good() && bestChain == old(bestChain)[..|old(bestChain)| - |detach|]
      ensures StandsFor(view.entries, db.utxos, db.utxos) && Remembers(view.entries, {})
    {
      hide StandsFor, Remembers, BlockSpends, Recorded, ReplayChain, Path, WellFormed;
      ghost var chain := bestChain;
      TakeAll(chain);
      for i := 0 to |detach|
        invariant Good() && bestChain == chain[..|chain| - i]
        invariant StandsFor(view.entries, db.utxos, db.utxos) && Remembers(view.entries, {})
      {
        TakeTake(chain, |chain| - i - 1, |chain| - i);
        CommitDetachOne(detach[i], spent[i], view);
      }
    }

    // One block for real: connected exactly when its inputs are there.
    method CommitAttachOne(node: BlockNode, view: UtxoViewpoint) returns (ok: bool)
      requires Consistent() && Stored(blocks, node)
      requires node.parent == Some(bestChain[|bestChain| - 1]) && WellFormed(node)
      requires Linked(BlocksOf(blocks, bestChain), BlockOf(blocks, node))
      requires Checkable(p, db.utxos, BlockOf(blocks, node)) && EarnedBlock(p, BlockOf(blocks, node))
      requires StandsFor(view.entries, db.utxos, db.utxos) && Remembers(view.entries, {})
      modifies this`db, this`bestChain, view
      ensures Consistent()
      ensures ok <==> Connectable(old(db).utxos, BlockOf(blocks, node).txs, node.height)
      ensures ok ==> bestChain == old(bestChain) + [node]
      ensures ok ==> StandsFor(view.entries, db.utxos, db.utxos) && Remembers(view.entries, {})
      ensures ok && old(Good()) && NoOverwrite(old(db).utxos, BlockOf(blocks, node).txs) ==> Good()
      ensures !ok ==> db == old(db) && bestChain == old(bestChain)
    {
      hide StandsFor, Remembers, Recorded, ReplayChain, Path, WellFormed, EarnedBlock, FetchedView, ConnectAll,
           Connectable, Spends, NoOverwrite, ApplyBlock;
      var b := BlockOf(blocks, node);
      EarnedReplays(p, b);
      ghost var u0 :| Connectable(u0, b.txs, b.height) && NoOverwrite(u0, b.txs);
      CommitPasses(view.entries, db.utxos, u0, b);
      view.FetchInputUtxos(db.utxos, b);
      var stxos;
      ok, stxos := view.ConnectTransactions(b, []);
      if !ok {
        return;
      }
      assert [] + Spends(db.utxos, b.txs, b.height) == BlockSpends(db.utxos, b);
      SpendsCount(db.utxos, b.txs, b.height);
      LinkedPrev(blocks, bestChain, b);
      ok := ConnectBlock(node, b, view, stxos);
    }

    /** Second phase, second half: connect for real, up to the first block whose inputs are
        not all there. */
    method CommitAttach(attach: seq<BlockNode>, view: UtxoViewpoint, ghost fork: seq<Block>) returns (n: nat)
      requires Good() && AllStored(blocks, attach) && Extends(bestChain, attach) && fork == BlocksOf(blocks, bestChain)
      requires AllShaped(p, fork, BlocksOf(blocks, attach))
      requires forall i :: 0 <= i < |attach| ==> EarnedBlock(p, BlockOf(blocks, attach[i]))
      requires StandsFor(view.entries, db.utxos, db.utxos) && Remembers(view.entries, {})
      modifies this`db, this`bestChain, view
      ensures n <= |attach| && bestChain == old(bestChain) + attach[..n] && Consistent()
      ensures AllConnect(fork, BlocksOf(blocks, attach), n)
      ensures n < |attach| ==> BreaksAt(fork, BlocksOf(blocks, attach), n)
      ensures NoneOverwrites(fork, BlocksOf(blocks, attach), n) ==> Good()
    {
      hide StandsFor, Remembers, Recorded, ReplayChain, Path, WellFormed, EarnedBlock, ConnectsAt, Extends, AllShaped,
           NoneOverwrites, Stored, Checkable, Linked;
      ghost var chain := bestChain;
      ghost var bs := BlocksOf(blocks, attach);
      TakeNone(chain, attach);
      for j := 0 to |attach|
        invariant Consistent() && bestChain == chain + attach[..j] && AllConnect(fork, bs, j)
        invariant NoneOverwrites(fork, bs, j) ==> Good()
        invariant StandsFor(view.entries, db.utxos, db.utxos) && Remembers(view.entries, {})
      {
        TakeOneMore(chain, attach, j);
        TurnFacts(p, db, blocks, chain, attach, fork, j);
        ConnectNextAt(fork, bs, j);
        OverwritesNext(fork, bs, j);
        var ok := CommitAttachOne(attach[j], view);
        if !ok {
          return j;
        }
      }
      TakeAll(attach);
      n := |attach|;
    }

    // The whole switch in a throw-away view.
    method DryRun(detach: seq<BlockNode>, attach: seq<BlockNode>)
      returns (stop: Option<nat>, known: bool, spent: seq<seq<Coin>>)
      requires Good() && Earned() && Prepared(p, blocks, index, bestChain, detach, attach) && AllStored(blocks, detach)
      modifies this`status
      ensures |spent| == |detach| && SpentOf(blocks, bestChain, spent)
      ensures var fork := BlocksOf(blocks, bestChain[..|bestChain| - |detach|]);
        var bs, flags := BlocksOf(blocks, attach), KnownValid(old(status), attach);
        var gone := GoneOf(blocks, detach);
        && (stop.None? ==> AllPass(p, flags, fork, bs, gone, |bs|) && status == MarkValid(old(status), attach))
        && (stop.Some? ==>
              && StopsAt(p, flags, fork, bs, gone, stop.value) && known == flags[stop.value]
              && status == if known then MarkValid(old(status), attach[..stop.value])
                           else MarkFailure(old(status), attach, stop.value))
    {
      hide SpentOf, StandsFor, Remembers, AllShaped, EarnedFlags, AllIndexed, MarkValid, MarkFailure, Recorded,
           ReplayChain, Path, WellFormed, Stored, Replay, AllPass, StopsAt, Extends, IndexNamed;
      ghost var kept := bestChain[..|bestChain| - |detach|];
      PrefixBlocks(blocks, bestChain, |bestChain| - |detach|);
      LastHash(blocks, kept);
      var view;
      view, spent := DryDetach(detach);
      stop, known := DryAttach(attach, view, BlocksOf(blocks, kept), GoneOf(blocks, detach));
    }

    // The whole switch for real.
    method CommitRun(detach: seq<BlockNode>, attach: seq<BlockNode>, spent: seq<seq<Coin>>) returns (n: nat)
      requires Good() && Prepared(p, blocks, index, bestChain, detach, attach)
      requires |spent| == |detach| && SpentOf(blocks, bestChain, spent)
      requires forall i :: 0 <= i < |attach| ==> EarnedBlock(p, BlockOf(blocks, attach[i]))
      modifies this`db, this`bestChain
      ensures var fork := BlocksOf(blocks, old(bestChain)[..|old(bestChain)| - |detach|]);
        var bs := BlocksOf(blocks, attach);
        && n <= |bs| && AllConnect(fork, bs, n) && (n < |bs| ==> BreaksAt(fork, bs, n))
        && bestChain == old(bestChain)[..|old(bestChain)| - |detach|] + attach[..n] && Consistent()
        && (NoneOverwrites(fork, bs, n) ==> Good())
    {
      hide SpentOf, StandsFor, Remembers, AllShaped, Recorded, ReplayChain, Path, WellFormed, Stored, EarnedBlock,
           AllConnect, BreaksAt, NoneOverwrites, Extends, AllIndexed;
      ghost var kept := bestChain[..|bestChain| - |detach|];
      PrefixBlocks(blocks, bestChain, |bestChain| - |detach|);
      var view := new UtxoViewpoint(bestChain[|bestChain| - 1].hash);
      FreshView(db.utxos);
      CommitDetach(detach, spent, view);
      n := CommitAttach(attach, view, BlocksOf(blocks, kept));
    }

    // A switch of prepared lists.
    method RunSwitch(detach: seq<BlockNode>, attach: seq<BlockNode>) returns (r: Outcome, ghost at: nat)
      requires Good() && Earned() && Prepared(p, blocks, index, bestChain, detach, attach) && AllStored(blocks, detach)
      modifies this`db, this`bestChain, this`status
      ensures Consistent() && Earned()
      ensures Decided(p, KnownValid(old(status), attach), ForkOf(blocks, old(bestChain), detach),
                      BlocksOf(blocks, attach), GoneOf(blocks, detach), r, at)
      ensures bestChain == SwitchedTo(old(bestChain), detach, attach, r, at)
      ensures r.RuleFailure? || r.MissingInput? ==> db == old(db)
      ensures status == SwitchedStatus(old(status), attach, r, at)
      ensures r.Done? || r.CommitStopped? ==>
        NoneOverwrites(ForkOf(blocks, old(bestChain), detach), BlocksOf(blocks, attach), |attach|) ==> Good()
    {
      hide SpentOf, AllShaped, EarnedFlags, EarnedBlock, AllIndexed, MarkValid, MarkFailure, Recorded, ReplayChain,
           Path, WellFormed, Stored, AllPass, StopsAt, AllConnect, BreaksAt, NoneOverwrites, Extends, IndexNamed;
      ghost var before, fork, bs := status, ForkOf(blocks, bestChain, detach), BlocksOf(blocks, attach);
      ghost var flags, gone := KnownValid(status, attach), GoneOf(blocks, detach);
      var stop, known, spent := DryRun(detach, attach);
      if stop.Some? {
        at := stop.value;
        StopPasses(p, flags, fork, bs, gone, at);
        PassedEarned(p, blocks, index, before, fork, attach, gone, at);
        EarnedPrefix(p, blocks, index, before, attach, at);
        r := if known then MissingInput else RuleFailure;
        return;
      }
      PassedEarned(p, blocks, index, before, fork, attach, gone, |attach|);
      TakeAll(attach);
      EarnedPrefix(p, blocks, index, before, attach, |attach|);
      var n := CommitRun(detach, attach, spent);
      at := n;
      r := if n < |attach| then CommitStopped else Done;
      OverwritesUpTo(fork, bs, n);
    }

    /** The outcome is decided block by block.  The dry run stops at the first block that
        does not pass: a rule violation is marked on it and on those after it, and a flagged
        block stops it when it needs an outpoint the view knows nothing of.  After a passing
        dry run the commit stops exactly at the first block whose inputs are not all unspent
        at its turn, with the chain at the fork and the blocks before it.  Where no flag
        lies, that cannot happen. */
    method ReorganizeChain(detach: seq<BlockNode>, attach: seq<BlockNode>) returns (r: Outcome, ghost at: nat)
      requires Good() && Earned() && AllHaveParents(detach) && AllHaveParents(attach)
      requires InSync(bestChain, detach, attach) ==> Prepared(p, blocks, index, bestChain, detach, attach)
      modifies this`db, this`bestChain, this`status
      ensures Consistent() && Earned()
      ensures r.OutOfSync? <==>
        || (detach != [] && detach[0].hash != old(bestChain)[|old(bestChain)| - 1].hash)
        || (detach != [] && attach != [] &&
            attach[0].parent.value.hash != detach[|detach| - 1].parent.value.hash)
      ensures r.OutOfSync? ==> db == old(db) && bestChain == old(bestChain) && status == old(status)
      ensures !r.OutOfSync? ==>
        && AllStored(blocks, detach)
        && Decided(p, KnownValid(old(status), attach), ForkOf(blocks, old(bestChain), detach), BlocksOf(blocks, attach),
                   GoneOf(blocks, detach), r, at)
      ensures !r.OutOfSync? ==> bestChain == SwitchedTo(old(bestChain), detach, attach, r, at)
      ensures db.utxos == Replay(BlocksOf(blocks, bestChain))
      ensures SwitchFlags(old(status), status, attach, r, at)
      ensures !r.Done? && !r.CommitStopped? ==> db == old(db) && Good()
      ensures r.Done? || r.CommitStopped? ==>
        NoneOverwrites(ForkOf(blocks, old(bestChain), detach), BlocksOf(blocks, attach), |attach|) ==> Good()
      ensures old(Honest()) && old(ValidMain()) ==>
        && Good() && Honest() && ValidMain()
        && (!r.OutOfSync? ==>
              var fork, bs := ForkOf(blocks, old(bestChain), detach), BlocksOf(blocks, attach);
              if ValidChain(p, fork + bs) then r.Done?
              else r.RuleFailure? && at < |attach| && FirstInvalid(p, fork, bs, at))
    {
      hide AllShaped, EarnedFlags, HonestFlags, AllIndexed, IndexNamed, MarkValid, MarkFailure, ValidFlags,
           FailureFlags, DistinctNodes, Recorded, ReplayChain, ValidChain, FirstInvalid, Path, WellFormed, Stored,
           Replay, AllPass, StopsAt, AllConnect, BreaksAt, NoneOverwrites, Extends;
      ReplayAll(db, blocks, bestChain);
      if |detach| == 0 && |attach| == 0 {
        NothingToDo(p, blocks, index, status, bestChain);
        return Done, 0;
      }
      if |detach| != 0 && detach[0].hash != bestChain[|bestChain| - 1].hash {
        return OutOfSync, 0;
      }
      if |attach| != 0 && |detach| != 0 &&
         attach[0].parent.value.hash != detach[|detach| - 1].parent.value.hash {
        return OutOfSync, 0;
      }
      DetachStored(blocks, bestChain, detach);
      ShapedDistinct(p, blocks, bestChain[..|bestChain| - |detach|], attach);
      ghost var before, chain := status, bestChain;
      r, at := RunSwitch(detach, attach);
      ReplayAll(db, blocks, bestChain);
      ghost var flags := KnownValid(before, attach);
      StatusFlags(p, flags, ForkOf(blocks, chain, detach), BlocksOf(blocks, attach), GoneOf(blocks, detach),
                  before, attach, r, at);
      if old(Honest()) && old(ValidMain()) {
        HonestDecided(p, blocks, index, before, chain, detach, attach, GoneOf(blocks, detach), r, at);
        ValidReplays(p, BlocksOf(blocks, bestChain));
      }
    }
  }

  // dbPutUtxoView followed by commit.
  method WriteBack(view: UtxoViewpoint, store: Utxos, ghost u: Utxos) returns (store': Utxos)
    requires StandsFor(view.entries, store, u)
    modifies view`entries
    ensures store' == u
    ensures StandsFor(view.entries, store', store') && Remembers(view.entries, {})
  {
    store' := PutUtxoView(view.entries, store);
    CommitKeepsMeaning(view.entries, store, store');
    CommitNoneSpent(view.entries, store);
    forall o
      ensures Get(store', o) == Get(u, o)
    {
      assert o !in {};
      assert Look(view.entries, store, o) == Get(u, o);
    }
    SameUtxos(store', u);
    view.Commit();
  }

  // How a run of the given flags, fork and blocks comes out.
  ghost predicate Decided(p: Params, flags: seq<bool>, fork: seq<Block>, bs: seq<Block>, gone: set<OutPoint>,
                          r: Outcome, at: nat)
    requires |flags| == |bs|
  {
    match r
    case RuleFailure => StopsAt(p, flags, fork, bs, gone, at) && !flags[at]
    case MissingInput => StopsAt(p, flags, fork, bs, gone, at) && flags[at]
    case CommitStopped => AllPass(p, flags, fork, bs, gone, |bs|) && BreaksAt(fork, bs, at)
    case Done => AllPass(p, flags, fork, bs, gone, |bs|) && AllConnect(fork, bs, |bs|)
    case OutOfSync => false
  }

  // The blocks of the chain that stay.
  function ForkOf(blocks: BlockStore, chain: seq<BlockNode>, detach: seq<BlockNode>): seq<Block>
    requires AllStored(blocks, chain) && |detach| <= |chain|
  {
    BlocksOf(blocks, chain[..|chain| - |detach|])
  }

  // The chain after a run that came out so.
  function SwitchedTo(chain: seq<BlockNode>, detach: seq<BlockNode>, attach: seq<BlockNode>, r: Outcome,
                      at: nat): seq<BlockNode>
    requires |detach| <= |chain|
  {
    match r
    case Done => chain[..|chain| - |detach|] + attach
    case CommitStopped => chain[..|chain| - |detach|] + attach[..if at <= |attach| then at else 0]
    case _ => chain
  }

  function SwitchedStatus(before: map<Hash, Status>, attach: seq<BlockNode>, r: Outcome, at: nat): map<Hash, Status> {
    match r
    case RuleFailure => if at < |attach| then MarkFailure(before, attach, at) else before
    case MissingInput => MarkValid(before, attach[..if at <= |attach| then at else 0])
    case Done => MarkValid(before, attach)
    case CommitStopped => MarkValid(before, attach)
    case OutOfSync => before
  }

  // Without nodes to detach or attach there is nothing to do.
  lemma NothingToDo(p: Params, blocks: BlockStore, index: map<Hash, BlockNode>, status: map<Hash, Status>,
                    chain: seq<BlockNode>)
    requires AllStored(blocks, chain)
    ensures Decided(p, KnownValid(status, []), ForkOf(blocks, chain, []), BlocksOf(blocks, []),
                    GoneOf(blocks, []), Done, 0)
    ensures SwitchedTo(chain, [], [], Done, 0) == chain && SwitchFlags(status, status, [], Done, 0)
    ensures ForkOf(blocks, chain, []) + BlocksOf(blocks, []) == BlocksOf(blocks, chain)
  {
    TakeAll(chain);
    MarkValidFlags(status, []);
    MarkNone(status);
  }

  lemma StopPasses(p: Params, flags: seq<bool>, fork: seq<Block>, bs: seq<Block>, gone: set<OutPoint>, at: nat)
    requires |flags| == |bs| && StopsAt(p, flags, fork, bs, gone, at)
    ensures at < |bs| && AllPass(p, flags, fork, bs, gone, at)
  {
  }

  lemma OverwritesUpTo(fork: seq<Block>, bs: seq<Block>, n: nat)
    requires n <= |bs|
    ensures NoneOverwrites(fork, bs, |bs|) ==> NoneOverwrites(fork, bs, n)
  {
    hide NoOverwrite, Replay;
  }

  // The flags after a run, node by node.
  ghost predicate SwitchFlags(before: map<Hash, Status>, after: map<Hash, Status>, attach: seq<BlockNode>, r: Outcome,
                              at: nat) {
    match r
    case RuleFailure => FailureFlags(before, after, attach, at)
    case MissingInput => at < |attach| && ValidFlags(before, after, attach[..at])
    case OutOfSync => after == before
    case _ => ValidFlags(before, after, attach)
  }

  lemma StatusFlags(p: Params, flags: seq<bool>, fork: seq<Block>, bs: seq<Block>, gone: set<OutPoint>,
                    before: map<Hash, Status>, attach: seq<BlockNode>, r: Outcome, at: nat)
    requires |flags| == |bs| == |attach| && Decided(p, flags, fork, bs, gone, r, at) && DistinctNodes(attach)
    ensures SwitchFlags(before, SwitchedStatus(before, attach, r, at), attach, r, at)
    ensures r.CommitStopped? ==> at < |attach|
  {
    hide MarkValid, MarkFailure, ValidFlags, FailureFlags, DistinctNodes, AllPass, PassAt, AllConnect, ConnectsAt;
    match r
    case RuleFailure => MarkFailureFlags(before, attach, at);
    case MissingInput => MarkValidFlags(before, attach[..at]);
    case CommitStopped => MarkValidFlags(before, attach);
    case Done => MarkValidFlags(before, attach);
  }

  // With honest flags on a valid main chain the switch is done, or a rule is broken by the
  // first invalid block; the flags stay honest.
  lemma HonestDecided(p: Params, blocks: BlockStore, index: map<Hash, BlockNode>, before: map<Hash, Status>,
                      chain: seq<BlockNode>, detach: seq<BlockNode>, attach: seq<BlockNode>, gone: set<OutPoint>,
                      r: Outcome, at: nat)
    requires HonestFlags(p, blocks, index, before) && IndexNamed(index)
    requires AllStored(blocks, chain) && ValidChain(p, BlocksOf(blocks, chain))
    requires chain != [] && WellFormed(chain[|chain| - 1]) && chain == Path(chain[|chain| - 1])
    requires Prepared(p, blocks, index, chain, detach, attach)
    requires Decided(p, KnownValid(before, attach), ForkOf(blocks, chain, detach),
                     BlocksOf(blocks, attach), gone, r, at)
    ensures HonestFlags(p, blocks, index, SwitchedStatus(before, attach, r, at))
    ensures var fork, bs := ForkOf(blocks, chain, detach), BlocksOf(blocks, attach);
      if ValidChain(p, fork + bs) then r.Done?
      else r.RuleFailure? && at < |attach| && FirstInvalid(p, fork, bs, at)
    ensures var chain' := SwitchedTo(chain, detach, attach, r, at);
      AllStored(blocks, chain') && ValidChain(p, BlocksOf(blocks, chain'))
  {
    hide HonestFlags, AllIndexed, Extends, AllShaped, ValidChain, MarkValid, MarkFailure, AllConnect, PassAt, Stored,
         AllPass, FlagsHold, AllLinked, FirstInvalid, WellFormed, Path, BreaksAt, StopsAt;
    var kept := chain[..|chain| - |detach|];
    var fork, bs, flags := ForkOf(blocks, chain, detach), BlocksOf(blocks, attach), KnownValid(before, attach);
    PrefixBlocks(blocks, chain, |chain| - |detach|);
    PrefixValid(p, BlocksOf(blocks, chain), |chain| - |detach|);
    ForkBranch(chain, |detach|);
    HonestSwitch(p, blocks, index, before, kept, attach);
    HonestRun(p, flags, fork, bs, gone);
    JoinBlocks(blocks, kept, attach);
    TakeAll(attach);
    TakeAll(bs);
    match r
    case Done => HonestPrefix(p, blocks, index, before, kept, attach, |attach|);
    case RuleFailure =>
      StopPasses(p, flags, fork, bs, gone, at);
      assert FirstInvalid(p, fork, bs, at);
      InvalidNotChain(p, fork, bs, at);
      InvalidPrefix(p, fork, bs, at);
      HonestPrefix(p, blocks, index, before, kept, attach, at);
    case MissingInput => assert false;
    case CommitStopped =>
      BreakContradicts(fork, bs, at);
      assert false;
  }

  lemma InvalidPrefix(p: Params, fork: seq<Block>, bs: seq<Block>, at: nat)
    requires at < |bs| && FirstInvalid(p, fork, bs, at)
    ensures ValidChain(p, fork + bs[..at])
  {
    hide ValidChain, ValidBlock;
  }

  lemma BreakContradicts(fork: seq<Block>, bs: seq<Block>, at: nat)
    requires BreaksAt(fork, bs, at)
    ensures !AllConnect(fork, bs, |bs|)
  {
    hide ConnectsAt;
  }

  // None of the first n blocks overwrites an output that is unspent at its turn.
  ghost predicate NoneOverwrites(fork: seq<Block>, bs: seq<Block>, n: nat)
    requires n <= |bs|
  {
    forall j :: 0 <= j < n ==> NoOverwrite(Replay(fork + bs[..j]), bs[j].txs)
  }
}
