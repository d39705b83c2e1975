/** getReorganizeNodes: the nodes to take off and put on the main chain so that a given
    node becomes its tip. */
module ForkNodes {
  import opened Types
  import opened BlockTree
  import opened ChainView
  import opened NodeBlocks
  import opened Flags

  type StatusMap = map<Hash, Status>

  predicate KnownInvalid(status: StatusMap, n: BlockNode) {
    NodeStatus(status, n).validateFailed || NodeStatus(status, n).invalidAncestor
  }

  function ForkHeight(fork: Option<BlockNode>): int {
    if fork.Some? then fork.value.height else -1
  }

  // The fork point of a node and a tip is the last height where their branches agree.
  ghost predicate IsFork(tip: BlockNode, node: BlockNode, fork: Option<BlockNode>)
    requires WellFormed(tip) && WellFormed(node)
  {
    && |Path(tip)| == tip.height + 1 && |Path(node)| == node.height + 1
    && var f := ForkHeight(fork);
    && -1 <= f <= tip.height && f <= node.height
    && (fork.Some? ==> f >= 0 && fork.value == Path(node)[f])
    && Path(tip)[..f + 1] == Path(node)[..f + 1]
    && (f < tip.height && f < node.height ==> Path(tip)[f + 1] != Path(node)[f + 1])
  }

  lemma ForkPoint(tip: BlockNode, node: BlockNode, fork: Option<BlockNode>)
    requires WellFormed(tip) && WellFormed(node)
    requires fork.Some? ==> IsAncestor(fork.value, node) && IsAncestor(fork.value, tip)
    requires forall a :: IsAncestor(a, node) && IsAncestor(a, tip) ==> fork.Some? && a.height <= fork.value.height
    ensures IsFork(tip, node, fork)
  {
    PathShape(tip);
    PathShape(node);
    var f := ForkHeight(fork);
    if fork.Some? {
      OnBranch(fork.value, node);
      OnBranch(fork.value, tip);
      BranchesAgreeBelow(tip, node, f);
    }
    if f < tip.height && f < node.height {
      assert IsAncestor(Path(tip)[f + 1], tip) && Path(tip)[f + 1].height == f + 1;
      assert IsAncestor(Path(node)[f + 1], node);
    }
  }

  // One step down a branch towards the fork point.
  lemma StepDown(node: BlockNode, fork: Option<BlockNode>, n: BlockNode)
    requires WellFormed(node) && (fork.Some? ==> IsAncestor(fork.value, node))
    requires IsAncestor(n, node) && Some(n) != fork && n.height >= ForkHeight(fork)
    ensures |Path(node)| == node.height + 1 && -1 <= ForkHeight(fork) < n.height <= node.height
    ensures n == Path(node)[n.height]
    ensures n.height == 0 ==> n.parent == None
    ensures n.height > 0 ==>
      n.parent == Some(Path(node)[n.height - 1]) && Path(node)[n.height - 1].height == n.height - 1
                             && IsAncestor(Path(node)[n.height - 1], node)
    ensures Path(node)[n.height..] == [n] + Path(node)[n.height + 1..]
  {
    PathShape(node);
    OnBranch(n, node);
    if fork.Some? {
      OnBranch(fork.value, node);
    }
    PathAncestors(node);
    hide IsAncestor, Path, WellFormed;
    SuffixCons(Path(node), n.height);
  }

  lemma PathAncestors(node: BlockNode)
    requires WellFormed(node)
    ensures forall i :: 0 <= i < |Path(node)| ==> IsAncestor(Path(node)[i], node)
  {
  }

  lemma SuffixCons(path: seq<BlockNode>, h: nat)
    requires h < |path|
    ensures path[h..] == [path[h]] + path[h + 1..]
  {
  }

  // Walk down from node to the fork, collecting nodes in chain order; stop at the first
  // node known to be invalid.
  method CollectAttach(status: StatusMap, node: BlockNode, fork: Option<BlockNode>)
    returns (attach: seq<BlockNode>, invalid: bool)
    requires WellFormed(node)
    requires fork.Some? ==> IsAncestor(fork.value, node)
    requires |Path(node)| == node.height + 1 && -1 <= ForkHeight(fork) <= node.height
    ensures !invalid ==> attach == Path(node)[ForkHeight(fork) + 1..] && NoneInvalid(status, attach)
    ensures invalid ==> AboveInvalid(status, node, ForkHeight(fork), attach)
  {
    assert IsAncestor(node, node);
    hide IsAncestor, Path, WellFormed, KnownInvalid, NoneInvalid, AboveInvalid;
    ghost var f := ForkHeight(fork);
    attach := [];
    NoneInvalidStart(status, Path(node));
    var n := Some(node);
    ghost var h := node.height;
    while n.Some? && n != fork
      invariant -1 <= f <= h <= node.height && (n.None? <==> h == -1)
      invariant n.Some? ==> n.value.height == h && n.value == Path(node)[h] && IsAncestor(n.value, node)
      invariant attach == Path(node)[h + 1..] && NoneInvalid(status, attach)
      decreases h
    {
      StepDown(node, fork, n.value);
      if KnownInvalid(status, n.value) {
        FoundInvalid(status, node, f, h, attach);
        return attach, true;
      }
      NoneInvalidCons(status, n.value, attach);
      attach := [n.value] + attach;
      n := n.value.parent;
      h := h - 1;
    }
    invalid := false;
  }

  predicate NoneInvalid(status: StatusMap, ns: seq<BlockNode>) {
    forall i :: 0 <= i < |ns| ==> !KnownInvalid(status, ns[i])
  }

  lemma NoneInvalidStart(status: StatusMap, path: seq<BlockNode>)
    ensures NoneInvalid(status, []) && path[|path|..] == []
  {
  }

  lemma NoneInvalidCons(status: StatusMap, n: BlockNode, ns: seq<BlockNode>)
    requires !KnownInvalid(status, n) && NoneInvalid(status, ns)
    ensures NoneInvalid(status, [n] + ns)
  {
  }

  lemma FoundInvalid(status: StatusMap, node: BlockNode, f: int, h: int, attach: seq<BlockNode>)
    requires |Path(node)| == node.height + 1 && -1 <= f < h <= node.height
    requires attach == Path(node)[h + 1..] && NoneInvalid(status, attach)
    requires KnownInvalid(status, Path(node)[h])
    ensures AboveInvalid(status, node, f, attach)
  {
    hide KnownInvalid, Path;
    assert |attach| == node.height - h;
  }

  method CollectDetach(tip: BlockNode, fork: Option<BlockNode>) returns (detach: seq<BlockNode>)
    requires WellFormed(tip)
    requires fork.Some? ==> IsAncestor(fork.value, tip)
    requires |Path(tip)| == tip.height + 1 && -1 <= ForkHeight(fork) <= tip.height
    ensures |detach| == tip.height - ForkHeight(fork)
    ensures forall i :: 0 <= i < |detach| ==> detach[i] == Path(tip)[tip.height - i]
  {
    assert IsAncestor(tip, tip);
    hide IsAncestor, Path, WellFormed;
    ghost var path, f := Path(tip), ForkHeight(fork);
    detach := [];
    var n := Some(tip);
    ghost var h := tip.height;
    while n.Some? && n != fork
      invariant -1 <= f <= h <= tip.height && (n.None? <==> h == -1)
      invariant n.Some? ==> n.value.height == h && n.value == path[h] && IsAncestor(n.value, tip)
      invariant |detach| == tip.height - h
      invariant forall i :: 0 <= i < |detach| ==> detach[i] == path[tip.height - i]
      decreases h
    {
      StepDown(tip, fork, n.value);
      detach := detach + [n.value];
      n := n.value.parent;
      h := h - 1;
    }
  }

  method MarkAll(status: StatusMap, ns: seq<BlockNode>) returns (status': StatusMap)
    ensures MarkedOnly(status, status', ns)
  {
    status' := status;
    TakeNone(ns, ns);
    for i := 0 to |ns|
      invariant status' == MarkDescendants(status, ns[..i])
    {
      TakeOneMore(ns, ns, i);
      status' := status'[ns[i].hash := NodeStatus(status', ns[i]).(invalidAncestor := true)];
    }
    TakeAll(ns);
    MarkDescendantsOnly(status, ns);
  }

  // The nodes of the list, and no others, gain the invalid-ancestor flag; no other flag
  // changes.
  ghost predicate MarkedOnly(before: StatusMap, after: StatusMap, ns: seq<BlockNode>) {
    forall n :: NodeStatus(after, n)
             == if Names(ns, n) then NodeStatus(before, n).(invalidAncestor := true) else NodeStatus(before, n)
  }

  lemma MarkDescendantsOnly(status: StatusMap, ns: seq<BlockNode>)
    ensures MarkedOnly(status, MarkDescendants(status, ns), ns)
  {
    forall n
      ensures NodeStatus(MarkDescendants(status, ns), n)
           == if Names(ns, n) then NodeStatus(status, n).(invalidAncestor := true) else NodeStatus(status, n)
    {
      MarkDescendantsAt(status, ns, n);
    }
  }

  lemma FlagOne(status: StatusMap, node: BlockNode)
    ensures MarkedOnly(status, WithInvalidAncestor(status, node), [node])
  {
    MarkDescendantsOnly(status, [node]);
    assert [node][..0] == [];
  }

  // Popping the detach list and pushing the attach list turns the old branch into the
  // new one.
  ghost predicate Switches(tip: BlockNode, node: BlockNode, detach: seq<BlockNode>, attach: seq<BlockNode>) {
    && |detach| <= |Path(tip)|
    && (forall i :: 0 <= i < |detach| ==> detach[i] == Path(tip)[|Path(tip)| - 1 - i])
    && Path(tip)[..|Path(tip)| - |detach|] + attach == Path(node)
  }

  // The nodes above the highest invalid node, which lies above the fork.
  ghost predicate AboveInvalid(status: StatusMap, node: BlockNode, f: int, marked: seq<BlockNode>) {
    && |Path(node)| == node.height + 1 && -1 <= f && |marked| < node.height - f
    && marked == Path(node)[node.height + 1 - |marked|..]
    && NoneInvalid(status, marked)
    && KnownInvalid(status, Path(node)[node.height - |marked|])
  }

  /** With no invalid node in the way the two lists perform the switch, and no shorter
      ones do.  Otherwise both lists are empty and every node above the invalid one is
      marked. */
  method GetReorganizeNodes(view: ChainView, status: StatusMap, node: BlockNode)
    returns (detach: seq<BlockNode>, attach: seq<BlockNode>, status': StatusMap,
             ghost fork: Option<BlockNode>, ghost marked: Option<seq<BlockNode>>)
    requires view.Valid() && view.tipNode.Some?
    requires WellFormed(node) && node.parent.Some?
    ensures KnownInvalid(status, node.parent.value) ==>
      detach == [] && attach == [] && MarkedOnly(status, status', [node])
    ensures !KnownInvalid(status, node.parent.value) ==> IsFork(view.tipNode.value, node, fork)
    ensures !KnownInvalid(status, node.parent.value) && marked.None? ==>
      && status' == status
      && Switches(view.tipNode.value, node, detach, attach)
      && Disjoint(detach, attach) && NoneInvalid(status, attach)
    ensures !KnownInvalid(status, node.parent.value) && marked.Some? ==>
      && detach == [] && attach == []
      && AboveInvalid(status, node, ForkHeight(fork), marked.value)
      && MarkedOnly(status, status', marked.value)
    ensures Barred(status, view.tipNode.value, node) ==> detach == [] && attach == []
    ensures !Barred(status, view.tipNode.value, node) ==>
      status' == status && Switches(view.tipNode.value, node, detach, attach)
    ensures forall i :: 0 <= i < |attach| ==>
      !NodeStatus(status, attach[i]).validateFailed && !NodeStatus(status, attach[i]).invalidAncestor
  {
    hide IsAncestor, Path, IsFork, Switches, Disjoint, AboveInvalid, NoneInvalid, KnownInvalid, WellFormed, MarkedOnly,
         Barred;
    detach, attach, status', marked, fork := [], [], status, None, None;
    if KnownInvalid(status, node.parent.value) {
      status' := status[node.hash := NodeStatus(status, node).(invalidAncestor := true)];
      FlagOne(status, node);
      ParentBars(status, view.tipNode.value, node);
      return;
    }
    var tip, forkNode := FindForkNode(view, node);
    fork := forkNode;
    var invalid;
    attach, invalid := CollectAttach(status, node, forkNode);
    if invalid {
      InvalidBars(status, tip, node, fork, attach);
      status' := MarkAll(status, attach);
      marked := Some(attach);
      attach := [];
      return;
    }
    detach := CollectDetach(tip, forkNode);
    SwitchLists(tip, node, fork, detach, attach);
    NothingBars(status, tip, node, fork, attach);
  }

  // A node that would be attached, or the parent, carries a failure flag.
  ghost predicate Barred(status: StatusMap, tip: BlockNode, node: BlockNode) {
    exists n :: && (node.parent == Some(n) || (IsAncestor(n, node) && !IsAncestor(n, tip)))
                && (NodeStatus(status, n).validateFailed || NodeStatus(status, n).invalidAncestor)
  }

  lemma ParentBars(status: StatusMap, tip: BlockNode, node: BlockNode)
    requires node.parent.Some? && KnownInvalid(status, node.parent.value)
    ensures Barred(status, tip, node)
  {
    hide IsAncestor;
  }

  // The nodes to attach are those of the branch that the main chain does not have.
  lemma AboveFork(tip: BlockNode, node: BlockNode, fork: Option<BlockNode>, n: BlockNode)
    requires WellFormed(tip) && WellFormed(node) && IsFork(tip, node, fork)
    ensures |Path(node)| == node.height + 1 && -1 <= ForkHeight(fork) <= node.height
    ensures IsAncestor(n, node) && !IsAncestor(n, tip) <==> n in Path(node)[ForkHeight(fork) + 1..]
  {
    hide Path, WellFormed, IsAncestor;
    var f := ForkHeight(fork);
    OnBranch(n, node);
    OnBranch(n, tip);
    PathShape(node);
    if IsAncestor(n, node) {
      if n.height <= f {
        assert Path(node)[..f + 1][n.height] == Path(tip)[..f + 1][n.height];
      } else if IsAncestor(n, tip) {
        NothingCommon(tip, node, f, n.height, n.height);
      }
    }
    var rest := Path(node)[f + 1..];
    if n in rest {
      var i :| 0 <= i < |rest| && rest[i] == n;
      assert Path(node)[f + 1 + i] == n;
    }
    if IsAncestor(n, node) && n.height > f {
      assert rest[n.height - f - 1] == n;
    }
  }

  lemma InvalidBars(status: StatusMap, tip: BlockNode, node: BlockNode, fork: Option<BlockNode>, marked: seq<BlockNode>)
    requires WellFormed(tip) && WellFormed(node) && IsFork(tip, node, fork)
    requires AboveInvalid(status, node, ForkHeight(fork), marked)
    ensures Barred(status, tip, node)
  {
    hide Path, WellFormed, IsFork, IsAncestor, NoneInvalid, ForkHeight, NodeStatus;
    var f, h := ForkHeight(fork), node.height - |marked|;
    var n := Path(node)[h];
    InSuffix(Path(node), f + 1, h);
    AboveFork(tip, node, fork, n);
    assert KnownInvalid(status, n);
  }

  lemma InSuffix(path: seq<BlockNode>, from: nat, h: nat)
    requires from <= h < |path|
    ensures path[h] in path[from..]
  {
    assert path[from..][h - from] == path[h];
  }

  lemma NothingBars(status: StatusMap, tip: BlockNode, node: BlockNode, fork: Option<BlockNode>, attach: seq<BlockNode>)
    requires WellFormed(tip) && WellFormed(node) && IsFork(tip, node, fork) && node.parent.Some?
    requires |Path(node)| == node.height + 1 && -1 <= ForkHeight(fork) <= node.height
    requires attach == Path(node)[ForkHeight(fork) + 1..]
    requires NoneInvalid(status, attach) && !KnownInvalid(status, node.parent.value)
    ensures !Barred(status, tip, node)
    ensures forall i :: 0 <= i < |attach| ==>
      !NodeStatus(status, attach[i]).validateFailed && !NodeStatus(status, attach[i]).invalidAncestor
  {
    hide Path, WellFormed, IsFork, IsAncestor;
    forall n | node.parent == Some(n) || (IsAncestor(n, node) && !IsAncestor(n, tip))
      ensures !NodeStatus(status, n).validateFailed && !NodeStatus(status, n).invalidAncestor
    {
      AboveFork(tip, node, fork, n);
      if node.parent != Some(n) {
        var i :| 0 <= i < |attach| && attach[i] == n;
        assert !KnownInvalid(status, attach[i]);
      }
    }
  }

  /** After a rule failure no branch leads over the failing block or over one behind it:
      as the parent or as a node to attach it leaves nothing to switch to. */
  method FailedBranchRefused(view: ChainView, before: StatusMap, after: StatusMap, ns: seq<BlockNode>, bad: nat, k: nat,
                             node: BlockNode)
    returns (detach: seq<BlockNode>, attach: seq<BlockNode>)
    requires view.Valid() && view.tipNode.Some?
    requires WellFormed(node) && node.parent.Some?
    requires FailureFlags(before, after, ns, bad) && bad <= k < |ns|
    requires node.parent == Some(ns[k]) || (IsAncestor(ns[k], node) && !IsAncestor(ns[k], view.tipNode.value))
    ensures detach == [] && attach == []
  {
    hide IsAncestor, WellFormed, Path;
    ghost var fork, marked;
    var status;
    detach, attach, status, fork, marked := GetReorganizeNodes(view, after, node);
    assert NodeStatus(after, ns[k]).validateFailed || NodeStatus(after, ns[k]).invalidAncestor;
  }

  // The lists share no node: the fork is the highest common one.
  predicate Disjoint(detach: seq<BlockNode>, attach: seq<BlockNode>) {
    forall i, j :: 0 <= i < |detach| && 0 <= j < |attach| ==> detach[i] != attach[j]
  }

  method FindForkNode(view: ChainView, node: BlockNode) returns (tip: BlockNode, fork: Option<BlockNode>)
    requires view.Valid() && view.tipNode.Some? && WellFormed(node)
    ensures tip == view.tipNode.value && WellFormed(tip) && IsFork(tip, node, fork)
    ensures fork.Some? ==> IsAncestor(fork.value, node) && IsAncestor(fork.value, tip)
    ensures |Path(tip)| == tip.height + 1 && |Path(node)| == node.height + 1
    ensures -1 <= ForkHeight(fork) <= tip.height && ForkHeight(fork) <= node.height
  {
    hide IsAncestor, Path, IsFork, WellFormed;
    fork := view.FindFork(Some(node));
    var t := view.Tip();
    tip := t.value;
    ForkPoint(tip, node, fork);
    ForkBounds(tip, node, fork);
  }

  lemma ForkBounds(tip: BlockNode, node: BlockNode, fork: Option<BlockNode>)
    requires WellFormed(tip) && WellFormed(node) && IsFork(tip, node, fork)
    ensures |Path(tip)| == tip.height + 1 && |Path(node)| == node.height + 1
    ensures -1 <= ForkHeight(fork) <= tip.height && ForkHeight(fork) <= node.height
  {
    hide Path, WellFormed;
  }

  lemma SwitchLists(tip: BlockNode, node: BlockNode, fork: Option<BlockNode>, detach: seq<BlockNode>,
                    attach: seq<BlockNode>)
    requires WellFormed(tip) && WellFormed(node) && IsFork(tip, node, fork)
    requires |detach| == tip.height - ForkHeight(fork)
    requires forall i :: 0 <= i < |detach| ==> detach[i] == Path(tip)[tip.height - i]
    requires attach == Path(node)[ForkHeight(fork) + 1..]
    ensures Switches(tip, node, detach, attach)
    ensures Disjoint(detach, attach)
  {
    hide Path, WellFormed, Switches, Disjoint;
    var f := ForkHeight(fork);
    SwitchPaths(Path(tip), Path(node), f, detach, attach);
    assert Switches(tip, node, detach, attach) by { SwitchesIs(tip, node, detach, attach); }
    assert Disjoint(detach, attach) by { ListsDisjoint(tip, node, f, detach, attach); }
  }

  lemma SwitchPaths(a: seq<BlockNode>, b: seq<BlockNode>, f: int, detach: seq<BlockNode>, attach: seq<BlockNode>)
    requires -1 <= f < |a| && f < |b| && a[..f + 1] == b[..f + 1] && attach == b[f + 1..]
    requires |detach| == |a| - 1 - f && forall i :: 0 <= i < |detach| ==> detach[i] == a[|a| - 1 - i]
    ensures |detach| <= |a| && a[..|a| - |detach|] + attach == b
  {
    TakeDrop(b, f + 1);
  }

  lemma SwitchesIs(tip: BlockNode, node: BlockNode, detach: seq<BlockNode>, attach: seq<BlockNode>)
    requires |detach| <= |Path(tip)| && Path(tip)[..|Path(tip)| - |detach|] + attach == Path(node)
    requires forall i :: 0 <= i < |detach| ==> detach[i] == Path(tip)[|Path(tip)| - 1 - i]
    ensures Switches(tip, node, detach, attach)
  {
    hide Path;
  }

  lemma ListsDisjoint(tip: BlockNode, node: BlockNode, f: int, detach: seq<BlockNode>, attach: seq<BlockNode>)
    requires WellFormed(tip) && WellFormed(node) && |Path(tip)| == tip.height + 1 && |Path(node)| == node.height + 1
    requires -1 <= f <= tip.height && f <= node.height && |detach| == tip.height - f
    requires f < tip.height && f < node.height ==> Path(tip)[f + 1] != Path(node)[f + 1]
    requires forall i :: 0 <= i < |detach| ==> detach[i] == Path(tip)[tip.height - i]
    requires attach == Path(node)[f + 1..]
    ensures Disjoint(detach, attach)
  {
    hide Path, WellFormed;
    forall i, j | 0 <= i < |detach| && 0 <= j < |attach| ensures detach[i] != attach[j] {
      NothingCommon(tip, node, f, tip.height - i, f + 1 + j);
    }
  }

  lemma DifferBelow(a: seq<BlockNode>, b: seq<BlockNode>, i: nat, n: nat)
    requires i < n <= |a| && n <= |b| && a[i] != b[i]
    ensures a[..n] != b[..n]
  {
    assert a[..n][i] != b[..n][i];
  }

  // Above the fork two branches have no node in common.
  lemma NothingCommon(tip: BlockNode, node: BlockNode, f: int, h: int, k: int)
    requires WellFormed(tip) && WellFormed(node) && |Path(tip)| == tip.height + 1 && |Path(node)| == node.height + 1
    requires -1 <= f < h <= tip.height && f < k <= node.height
    requires Path(tip)[f + 1] != Path(node)[f + 1]
    ensures Path(tip)[h] != Path(node)[k]
  {
    hide Path, WellFormed;
    PathShape(tip);
    PathShape(node);
    if h == k {
      BranchesAgreeBelow(tip, node, h);
      DifferBelow(Path(tip), Path(node), f + 1, h + 1);
    }
  }

  /** Lists that perform a switch, leaving the genesis in place, are in the order the
      reorganisation expects. */
  lemma SwitchesPrepared(tip: BlockNode, node: BlockNode, detach: seq<BlockNode>, attach: seq<BlockNode>)
    requires WellFormed(tip) && WellFormed(node)
    requires Switches(tip, node, detach, attach) && |detach| < |Path(tip)|
    ensures Detachable(Path(tip), detach)
    ensures Extends(Path(tip)[..|Path(tip)| - |detach|], attach)
  {
    hide Path, WellFormed, Extends;
    PathShape(tip);
    PathShape(node);
    AttachExtends(Path(node), Path(tip)[..|Path(tip)| - |detach|], attach);
  }

  lemma AttachExtends(path: seq<BlockNode>, kept: seq<BlockNode>, attach: seq<BlockNode>)
    requires kept + attach == path && kept != []
    requires forall i :: 0 <= i < |path| ==> WellFormed(path[i])
    requires forall i :: 0 < i < |path| ==> path[i].parent == Some(path[i - 1])
    ensures Extends(kept, attach)
  {
    hide WellFormed;
    forall j | 0 <= j < |attach|
      ensures WellFormed(attach[j]) && attach[j].parent == Some((kept + attach[..j])[|kept| + j - 1])
    {
      AttachParent(path, kept, attach, j);
    }
  }

  lemma AttachParent(path: seq<BlockNode>, kept: seq<BlockNode>, attach: seq<BlockNode>, j: nat)
    requires kept + attach == path && j < |attach| && kept != []
    requires forall i :: 0 <= i < |path| ==> WellFormed(path[i])
    requires forall i :: 0 < i < |path| ==> path[i].parent == Some(path[i - 1])
    ensures WellFormed(attach[j]) && attach[j].parent == Some((kept + attach[..j])[|kept| + j - 1])
  {
    hide WellFormed;
    var i := |kept| + j;
    assert path[i] == attach[j];
    assert path[i - 1] == (kept + attach[..j])[i - 1];
  }
}
