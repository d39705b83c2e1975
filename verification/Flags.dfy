/** Validation flags: what the block index says of a node, how a branch switch changes it,
    and what a valid flag is worth. */
module Flags {
  import opened Types
  import opened Ledger
  import opened Validate
  import opened ChainState
  import opened BlockTree
  import opened NodeBlocks

  datatype Status = Status(valid: bool, validateFailed: bool, invalidAncestor: bool)

  const NO_STATUS: Status := Status(false, false, false)

  function NodeStatus(status: map<Hash, Status>, n: BlockNode): Status {
    if n.hash in status then status[n.hash] else NO_STATUS
  }

  function KnownValid(status: map<Hash, Status>, ns: seq<BlockNode>): (r: seq<bool>)
    ensures |r| == |ns|
  {
    seq(|ns|, i requires 0 <= i < |ns| => NodeStatus(status, ns[i]).valid)
  }

  /** Changing flags */

  function WithValid(status: map<Hash, Status>, n: BlockNode): map<Hash, Status> {
    status[n.hash := NodeStatus(status, n).(valid := true)]
  }

  function WithFailed(status: map<Hash, Status>, n: BlockNode): map<Hash, Status> {
    status[n.hash := NodeStatus(status, n).(validateFailed := true)]
  }

  function WithInvalidAncestor(status: map<Hash, Status>, n: BlockNode): map<Hash, Status> {
    status[n.hash := NodeStatus(status, n).(invalidAncestor := true)]
  }

  function MarkValid(status: map<Hash, Status>, ns: seq<BlockNode>): map<Hash, Status> {
    if ns == [] then status else WithValid(MarkValid(status, ns[..|ns| - 1]), ns[|ns| - 1])
  }

  lemma MarkValidStep(status: map<Hash, Status>, ns: seq<BlockNode>, j: nat)
    requires j < |ns|
    ensures MarkValid(status, ns[..j + 1]) == WithValid(MarkValid(status, ns[..j]), ns[j])
  {
    assert ns[..j + 1][..j] == ns[..j];
  }

  function MarkDescendants(status: map<Hash, Status>, ns: seq<BlockNode>): map<Hash, Status> {
    if ns == [] then status else WithInvalidAncestor(MarkDescendants(status, ns[..|ns| - 1]), ns[|ns| - 1])
  }

  function MarkFailure(status: map<Hash, Status>, ns: seq<BlockNode>, bad: nat): map<Hash, Status>
    requires bad < |ns|
  {
    MarkDescendants(WithFailed(MarkValid(status, ns[..bad]), ns[bad]), ns[bad + 1..])
  }

  // Whether a list holds a node of the same hash; flags are kept by hash.
  predicate Names(ns: seq<BlockNode>, n: BlockNode) {
    exists i :: 0 <= i < |ns| && ns[i].hash == n.hash
  }

  predicate DistinctNodes(ns: seq<BlockNode>) {
    forall i, j :: 0 <= i < j < |ns| ==> ns[i].hash != ns[j].hash
  }

  lemma {:induction false} NamesLast(ns: seq<BlockNode>, n: BlockNode)
    requires ns != []
    ensures Names(ns, n) <==> Names(ns[..|ns| - 1], n) || ns[|ns| - 1].hash == n.hash
  {
    if i :| 0 <= i < |ns| && ns[i].hash == n.hash {
      assert i < |ns| - 1 ==> ns[..|ns| - 1][i].hash == n.hash;
    }
  }

  // What the folds do to any one node.
  lemma {:induction false} MarkValidAt(status: map<Hash, Status>, ns: seq<BlockNode>, n: BlockNode)
    ensures NodeStatus(MarkValid(status, ns), n)
         == if Names(ns, n) then NodeStatus(status, n).(valid := true) else NodeStatus(status, n)
  {
    if ns != [] {
      MarkValidAt(status, ns[..|ns| - 1], n);
      NamesLast(ns, n);
    }
  }

  lemma {:induction false} MarkDescendantsAt(status: map<Hash, Status>, ns: seq<BlockNode>, n: BlockNode)
    ensures NodeStatus(MarkDescendants(status, ns), n)
         == if Names(ns, n) then NodeStatus(status, n).(invalidAncestor := true) else NodeStatus(status, n)
  {
    if ns != [] {
      MarkDescendantsAt(status, ns[..|ns| - 1], n);
      NamesLast(ns, n);
    }
  }

  // The nodes of the list gain the valid flag, and no other flag changes.
  ghost predicate ValidFlags(before: map<Hash, Status>, after: map<Hash, Status>, ns: seq<BlockNode>) {
    && (forall k :: 0 <= k < |ns| ==> NodeStatus(after, ns[k]) == NodeStatus(before, ns[k]).(valid := true))
    && (forall n :: !Names(ns, n) ==> NodeStatus(after, n) == NodeStatus(before, n))
  }

  lemma MarkValidFlags(status: map<Hash, Status>, ns: seq<BlockNode>)
    ensures ValidFlags(status, MarkValid(status, ns), ns)
  {
    forall n ensures NodeStatus(MarkValid(status, ns), n)
                  == if Names(ns, n) then NodeStatus(status, n).(valid := true) else NodeStatus(status, n)
    {
      MarkValidAt(status, ns, n);
    }
  }

  lemma MarkNone(status: map<Hash, Status>)
    ensures MarkValid(status, []) == status
  {
  }

  // Node bad is flagged as failed, those after it as having an invalid ancestor, those
  // before it as valid; no other flag changes.
  ghost predicate FailureFlags(before: map<Hash, Status>, after: map<Hash, Status>, ns: seq<BlockNode>, bad: nat) {
    && bad < |ns|
    && (forall k :: 0 <= k < bad ==> NodeStatus(after, ns[k]) == NodeStatus(before, ns[k]).(valid := true))
    && NodeStatus(after, ns[bad]) == NodeStatus(before, ns[bad]).(validateFailed := true)
    && (forall k :: bad < k < |ns| ==> NodeStatus(after, ns[k]) == NodeStatus(before, ns[k]).(invalidAncestor := true))
    && (forall n :: !Names(ns, n) ==> NodeStatus(after, n) == NodeStatus(before, n))
  }

  // The failing node and those after it, whatever the flags before.
  function FailedStatus(before: map<Hash, Status>, bad: BlockNode, rest: seq<BlockNode>, n: BlockNode): Status {
    var s := if n.hash == bad.hash then NodeStatus(before, n).(validateFailed := true) else NodeStatus(before, n);
    if Names(rest, n) then s.(invalidAncestor := true) else s
  }

  lemma NamesParts(ns: seq<BlockNode>, bad: nat, n: BlockNode)
    requires bad < |ns|
    ensures Names(ns, n) <==> Names(ns[..bad], n) || n.hash == ns[bad].hash || Names(ns[bad + 1..], n)
  {
    if i :| 0 <= i < |ns| && ns[i].hash == n.hash {
      assert i < bad ==> ns[..bad][i].hash == n.hash;
      assert i > bad ==> ns[bad + 1..][i - bad - 1].hash == n.hash;
    }
  }

  lemma MarkFailureAt(status: map<Hash, Status>, ns: seq<BlockNode>, bad: nat, n: BlockNode)
    requires bad < |ns|
    ensures NodeStatus(MarkFailure(status, ns, bad), n)
         == FailedStatus(MarkValid(status, ns[..bad]), ns[bad], ns[bad + 1..], n)
  {
    MarkDescendantsAt(WithFailed(MarkValid(status, ns[..bad]), ns[bad]), ns[bad + 1..], n);
  }

  lemma MarkFailureNode(status: map<Hash, Status>, ns: seq<BlockNode>, bad: nat, k: nat)
    requires DistinctNodes(ns) && bad < |ns| && k < |ns|
    ensures NodeStatus(MarkFailure(status, ns, bad), ns[k])
         == if k < bad then NodeStatus(status, ns[k]).(valid := true)
            else if k == bad then NodeStatus(status, ns[k]).(validateFailed := true)
            else NodeStatus(status, ns[k]).(invalidAncestor := true)
  {
    MarkFailureAt(status, ns, bad, ns[k]);
    MarkValidAt(status, ns[..bad], ns[k]);
    assert k < bad ==> ns[..bad][k].hash == ns[k].hash;
    assert k > bad ==> ns[bad + 1..][k - bad - 1].hash == ns[k].hash;
    hide MarkFailure, MarkValid;
  }

  lemma MarkFailureFlags(status: map<Hash, Status>, ns: seq<BlockNode>, bad: nat)
    requires DistinctNodes(ns) && bad < |ns|
    ensures FailureFlags(status, MarkFailure(status, ns, bad), ns, bad)
  {
    hide MarkFailure, DistinctNodes;
    forall k: nat | k < |ns|
      ensures NodeStatus(MarkFailure(status, ns, bad), ns[k])
           == if k < bad then NodeStatus(status, ns[k]).(valid := true)
              else if k == bad then NodeStatus(status, ns[k]).(validateFailed := true)
              else NodeStatus(status, ns[k]).(invalidAncestor := true)
    {
      MarkFailureNode(status, ns, bad, k);
    }
    forall n | !Names(ns, n) ensures NodeStatus(MarkFailure(status, ns, bad), n) == NodeStatus(status, n) {
      MarkFailureAt(status, ns, bad, n);
      MarkValidAt(status, ns[..bad], n);
      NamesParts(ns, bad, n);
    }
  }

  lemma MarkOne(status: map<Hash, Status>, node: BlockNode)
    ensures MarkValid(status, [node]) == WithValid(status, node)
  {
    assert [node][..0] == [];
    MarkNone(status);
  }

  lemma StatusUntouched(status: map<Hash, Status>, attach: seq<BlockNode>, bs: seq<Block>, fork: seq<Block>, j: nat)
    requires |bs| == |attach| && j < |attach|
    requires forall i :: 0 <= i < |attach| ==> bs[i].hash == attach[i].hash
    requires Linked(fork + bs[..j], bs[j])
    ensures NodeStatus(MarkValid(status, attach[..j]), attach[j]) == NodeStatus(status, attach[j])
  {
    forall i | 0 <= i < j
      ensures attach[..j][i].hash != attach[j].hash
    {
      assert (fork + bs[..j])[|fork| + i].hash != bs[j].hash;
    }
    MarkValidAt(status, attach[..j], attach[j]);
  }

  /** What a valid flag is worth: the block was valid on some utxo set, and, when the flag
      is honest, on the replay of its own ancestors */

  predicate AllIndexed(index: map<Hash, BlockNode>, ns: seq<BlockNode>) {
    forall i :: 0 <= i < |ns| ==> ns[i].hash in index && index[ns[i].hash] == ns[i]
  }

  predicate IndexNamed(index: map<Hash, BlockNode>) {
    forall h :: h in index ==> index[h].hash == h
  }

  ghost predicate EarnedBlock(p: Params, b: Block) {
    exists u :: ValidBlock(p, u, b)
  }

  ghost predicate EarnedFlags(p: Params, blocks: BlockStore, index: map<Hash, BlockNode>, status: map<Hash, Status>) {
    forall h :: h in index && h in status && status[h].valid ==>
      Stored(blocks, index[h]) && EarnedBlock(p, BlockOf(blocks, index[h]))
  }

  ghost predicate ValidBranch(p: Params, blocks: BlockStore, n: BlockNode) {
    AllStored(blocks, Path(n)) && ValidChain(p, BlocksOf(blocks, Path(n)))
  }

  ghost predicate HonestFlags(p: Params, blocks: BlockStore, index: map<Hash, BlockNode>, status: map<Hash, Status>) {
    forall h :: h in index && h in status && status[h].valid ==> ValidBranch(p, blocks, index[h])
  }

  // Flags change to valid only for blocks that earned it.
  lemma EarnedAfter(p: Params, blocks: BlockStore, index: map<Hash, BlockNode>, before: map<Hash, Status>,
                    after: map<Hash, Status>, ns: seq<BlockNode>)
    requires EarnedFlags(p, blocks, index, before) && IndexNamed(index)
    requires AllIndexed(index, ns) && AllStored(blocks, ns)
    requires forall i :: 0 <= i < |ns| ==> EarnedBlock(p, BlockOf(blocks, ns[i]))
    requires forall n :: NodeStatus(after, n).valid ==> NodeStatus(before, n).valid || Names(ns, n)
    ensures EarnedFlags(p, blocks, index, after)
  {
    hide EarnedBlock;
    forall h | h in index && h in after && after[h].valid
      ensures Stored(blocks, index[h]) && EarnedBlock(p, BlockOf(blocks, index[h]))
    {
      assert NodeStatus(after, index[h]).valid;
      if !NodeStatus(before, index[h]).valid {
        var i :| 0 <= i < |ns| && ns[i].hash == h;
        assert ns[i] == index[h];
      }
    }
  }

  // Storing one more block keeps what the flags are worth.
  lemma StoreKeepsFlags(p: Params, blocks: BlockStore, index: map<Hash, BlockNode>, status: map<Hash, Status>,
                        node: BlockNode, b: Block)
    requires node.hash !in blocks && !NodeStatus(status, node).valid
    ensures EarnedFlags(p, blocks, index, status) ==>
      EarnedFlags(p, blocks[node.hash := b], index[node.hash := node], status)
    ensures HonestFlags(p, blocks, index, status) ==>
      HonestFlags(p, blocks[node.hash := b], index[node.hash := node], status)
  {
    hide ValidChain, Path, EarnedBlock;
    var blocks', index' := blocks[node.hash := b], index[node.hash := node];
    if EarnedFlags(p, blocks, index, status) {
      forall h | h in index' && h in status && status[h].valid
        ensures Stored(blocks', index'[h]) && EarnedBlock(p, BlockOf(blocks', index'[h]))
      {
        assert index'[h] == index[h];
      }
    }
    if HonestFlags(p, blocks, index, status) {
      forall h | h in index' && h in status && status[h].valid ensures ValidBranch(p, blocks', index'[h]) {
        assert ValidBranch(p, blocks, index[h]);
        SameBlocks(blocks, blocks', Path(index[h]));
      }
    }
  }

  // On its own branch an honestly flagged block is valid.
  lemma KnownValidBlock(p: Params, blocks: BlockStore, index: map<Hash, BlockNode>, status: map<Hash, Status>,
                        fork: seq<BlockNode>, attach: seq<BlockNode>, j: nat)
    requires HonestFlags(p, blocks, index, status) && AllIndexed(index, attach)
    requires Extends(fork, attach) && fork == Path(fork[|fork| - 1]) && j < |attach|
    requires AllStored(blocks, fork) && AllStored(blocks, attach) && NodeStatus(status, attach[j]).valid
    ensures ValidBlock(p, Replay(BlocksOf(blocks, fork) + BlocksOf(blocks, attach)[..j]), BlocksOf(blocks, attach)[j])
  {
    hide ValidBlock, Linked, Path, Replay;
    var f, bs := BlocksOf(blocks, fork), BlocksOf(blocks, attach);
    AttachBranch(fork, attach, j);
    BranchBlocks(blocks, fork, attach, j);
    assert ValidBranch(p, blocks, index[attach[j].hash]);
    var c := f + bs[..j + 1];
    assert c[..|f| + j] == f + bs[..j];
    assert SoundAt(p, c, |f| + j);
  }

  // Flagging the nodes of a valid continuation, and no other as valid, stays honest.
  lemma HonestAfter(p: Params, blocks: BlockStore, index: map<Hash, BlockNode>, before: map<Hash, Status>,
                    after: map<Hash, Status>, fork: seq<BlockNode>, attach: seq<BlockNode>, m: nat)
    requires HonestFlags(p, blocks, index, before) && AllIndexed(index, attach)
    requires Extends(fork, attach) && fork == Path(fork[|fork| - 1]) && m <= |attach|
    requires AllStored(blocks, fork) && AllStored(blocks, attach)
    requires ValidChain(p, BlocksOf(blocks, fork) + BlocksOf(blocks, attach)[..m])
    requires forall n :: NodeStatus(after, n).valid ==> NodeStatus(before, n).valid || Names(attach[..m], n)
    requires forall h :: h in index ==> index[h].hash == h
    ensures HonestFlags(p, blocks, index, after)
  {
    hide ValidChain, Extends, Path, ValidBranch;
    forall h | h in index && h in after && after[h].valid ensures ValidBranch(p, blocks, index[h]) {
      assert NodeStatus(after, index[h]).valid;
      if !NodeStatus(before, index[h]).valid {
        var i :| 0 <= i < m && attach[..m][i].hash == h;
        assert attach[i] == index[h];
        AttachedBranch(p, blocks, fork, attach, m, i);
      }
    }
  }

  lemma AttachedBranch(p: Params, blocks: BlockStore, fork: seq<BlockNode>, attach: seq<BlockNode>, m: nat, i: nat)
    requires Extends(fork, attach) && fork == Path(fork[|fork| - 1]) && i < m <= |attach|
    requires AllStored(blocks, fork) && AllStored(blocks, attach)
    requires ValidChain(p, BlocksOf(blocks, fork) + BlocksOf(blocks, attach)[..m])
    ensures ValidBranch(p, blocks, attach[i])
  {
    hide ValidChain, Path;
    var f, bs := BlocksOf(blocks, fork), BlocksOf(blocks, attach);
    AttachBranch(fork, attach, i);
    BranchBlocks(blocks, fork, attach, i);
    PrefixValid(p, f + bs[..m], |f| + i + 1);
    assert (f + bs[..m])[..|f| + i + 1] == f + bs[..i + 1];
  }

  /** A new valid flag is honest exactly when the node ends a valid branch */
  lemma HonestNode(p: Params, blocks: BlockStore, index: map<Hash, BlockNode>, before: map<Hash, Status>,
                   node: BlockNode)
    requires HonestFlags(p, blocks, index, before) && IndexNamed(index) && AllIndexed(index, [node])
    ensures HonestFlags(p, blocks, index, WithValid(before, node)) <==> ValidBranch(p, blocks, node)
  {
    hide ValidBranch;
    var after := WithValid(before, node);
    assert [node][0] == node;
    if ValidBranch(p, blocks, node) {
      forall h | h in index && h in after && after[h].valid ensures ValidBranch(p, blocks, index[h]) {
        if h != node.hash {
          assert h in before && before[h].valid;
        }
      }
    }
    if HonestFlags(p, blocks, index, after) {
      assert node.hash in index && node.hash in after && after[node.hash].valid;
    }
  }

  // On top of a valid branch that means: valid on the branch's own replay.
  lemma ValidBranchStep(p: Params, blocks: BlockStore, node: BlockNode)
    requires node.parent.Some? && Stored(blocks, node) && ValidBranch(p, blocks, node.parent.value)
    ensures var own := BlocksOf(blocks, Path(node.parent.value));
      ValidBranch(p, blocks, node) <==>
        Linked(own, BlockOf(blocks, node)) && ValidBlock(p, Replay(own), BlockOf(blocks, node))
  {
    hide ValidBlock, Linked, Replay;
    var up := Path(node.parent.value);
    var own, b := BlocksOf(blocks, up), BlockOf(blocks, node);
    assert Path(node) == up + [node];
    assert BlocksOf(blocks, [node]) == [b];
    JoinBlocks(blocks, up, [node]);
    ExtendChain(p, own, b);
    if ValidBranch(p, blocks, node) {
      var c := own + [b];
      assert c[..|own|] == own;
      assert SoundAt(p, c, |own|);
    }
  }
}
