/** The blocks behind the nodes of the tree, and the lists of nodes a branch switch takes
    off and puts on. */
module NodeBlocks {
  import opened Types
  import opened Ledger
  import opened ChainState
  import opened BlockTree

  /** Blocks of nodes, as dbFetchBlockByNode loads them */

  type BlockStore = map<Hash, Block>

  predicate Stored(blocks: BlockStore, n: BlockNode) {
    n.hash in blocks && blocks[n.hash].hash == n.hash
  }

  predicate AllStored(blocks: BlockStore, ns: seq<BlockNode>) {
    forall i :: 0 <= i < |ns| ==> Stored(blocks, ns[i])
  }

  function BlockOf(blocks: BlockStore, n: BlockNode): Block
    requires Stored(blocks, n)
  {
    blocks[n.hash].(height := n.height)
  }

  function BlocksOf(blocks: BlockStore, ns: seq<BlockNode>): (bs: seq<Block>)
    requires AllStored(blocks, ns)
    ensures |bs| == |ns|
  {
    seq(|ns|, i requires 0 <= i < |ns| => BlockOf(blocks, ns[i]))
  }

  lemma PrefixBlocks(blocks: BlockStore, ns: seq<BlockNode>, n: nat)
    requires AllStored(blocks, ns) && n <= |ns|
    ensures AllStored(blocks, ns[..n]) && BlocksOf(blocks, ns[..n]) == BlocksOf(blocks, ns)[..n]
  {
    hide Stored;
  }

  lemma JoinBlocks(blocks: BlockStore, a: seq<BlockNode>, c: seq<BlockNode>)
    requires AllStored(blocks, a) && AllStored(blocks, c)
    ensures AllStored(blocks, a + c) && BlocksOf(blocks, a + c) == BlocksOf(blocks, a) + BlocksOf(blocks, c)
  {
    hide Stored;
    assert forall i :: 0 <= i < |c| ==> Stored(blocks, c[i]);
  }

  lemma SameBlocks(blocks: BlockStore, blocks': BlockStore, ns: seq<BlockNode>)
    requires AllStored(blocks, ns) && forall h :: h in blocks ==> h in blocks' && blocks'[h] == blocks[h]
    ensures AllStored(blocks', ns) && BlocksOf(blocks', ns) == BlocksOf(blocks, ns)
  {
    assert forall i :: 0 <= i < |ns| ==> Stored(blocks, ns[i]);
  }

  // The nodes to detach are the end of the chain, tip first, and leave the genesis.
  predicate Detachable(chain: seq<BlockNode>, detach: seq<BlockNode>) {
    && |detach| < |chain|
    && forall i :: 0 <= i < |detach| ==> detach[i] == chain[|chain| - 1 - i]
  }

  // The nodes to attach continue the chain upwards.
  predicate Extends(chain: seq<BlockNode>, attach: seq<BlockNode>) {
    && chain != []
    && forall j :: 0 <= j < |attach| ==>
      && WellFormed(attach[j])
      && attach[j].parent == Some((chain + attach[..j])[|chain| + j - 1])
  }

  lemma BranchBlocks(blocks: BlockStore, fork: seq<BlockNode>, attach: seq<BlockNode>, j: nat)
    requires AllStored(blocks, fork) && AllStored(blocks, attach) && j < |attach|
    ensures AllStored(blocks, fork + attach[..j + 1])
    ensures BlocksOf(blocks, fork + attach[..j + 1]) == BlocksOf(blocks, fork) + BlocksOf(blocks, attach)[..j + 1]
  {
    hide Stored;
    assert forall i :: 0 <= i < |attach| ==> Stored(blocks, attach[i]);
  }

  // The branch of an attached node is the fork's branch and the nodes attached so far.
  lemma {:induction false} AttachBranch(fork: seq<BlockNode>, attach: seq<BlockNode>, j: nat)
    requires Extends(fork, attach) && j < |attach| && fork == Path(fork[|fork| - 1])
    ensures Path(attach[j]) == fork + attach[..j + 1]
    decreases j
  {
    hide WellFormed;
    TakeOneMore(fork, attach, j);
    if j > 0 {
      AttachBranch(fork, attach, j - 1);
    } else {
      TakeNone(fork, attach);
    }
  }

  lemma ForkBranch(chain: seq<BlockNode>, k: nat)
    requires chain != [] && WellFormed(chain[|chain| - 1]) && chain == Path(chain[|chain| - 1]) && k < |chain|
    ensures var kept := chain[..|chain| - k]; kept == Path(kept[|kept| - 1])
  {
    hide Path;
    PathShape(chain[|chain| - 1]);
    PathPrefix(chain[|chain| - 1], |chain| - k - 1);
  }
}
