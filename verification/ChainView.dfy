/** The chain view: a flat array that caches the branch of one tip, with the slots past
    the tip left stale, proved to be the genesis-to-tip path after every update. */
module ChainView {
  import opened Types
  import opened BlockTree

  const APPROX_NODES_PER_WEEK: nat := 6 * 24 * 7

  lemma BranchPrefixes(tip: Option<BlockNode>)
    requires tip.Some? ==> WellFormed(tip.value)
    ensures tip.Some? ==> forall i :: 0 <= i < |Path(tip.value)| ==>
      Path(tip.value)[..i + 1] == Path(Path(tip.value)[i])
  {
    if tip.Some? {
      PathShape(tip.value);
      forall i | 0 <= i < |Path(tip.value)|
        ensures Path(tip.value)[..i + 1] == Path(Path(tip.value)[i])
      {
        PathPrefix(tip.value, i);
      }
    }
  }

  // Every common ancestor of n and the view's tip lies at height h or below.
  ghost predicate NoneAbove(n: BlockNode, tip: Option<BlockNode>, h: int) {
    tip.Some? ==> forall a :: IsAncestor(a, n) && IsAncestor(a, tip.value) ==> a.height <= h
  }

  lemma CommonBelow(n: BlockNode, tip: Option<BlockNode>)
    requires WellFormed(n) && (tip.Some? ==> WellFormed(tip.value))
    ensures NoneAbove(n, tip, n.height)
    ensures tip.Some? ==> |Path(tip.value)| == tip.value.height + 1 && NoneAbove(n, tip, tip.value.height)
    ensures tip.None? ==> NoneAbove(n, tip, -1)
  {
    PathShape(n);
    if tip.Some? {
      PathShape(tip.value);
    }
  }

  lemma OneLower(n: BlockNode, tip: Option<BlockNode>, a: BlockNode)
    requires WellFormed(n) && (tip.Some? ==> WellFormed(tip.value))
    requires IsAncestor(a, n) && NoneAbove(n, tip, a.height)
    requires tip.Some? ==> !IsAncestor(a, tip.value)
    ensures NoneAbove(n, tip, a.height - 1)
    ensures a.parent.Some? ==> a.parent.value.height == a.height - 1 >= 0 && a.height < |Path(n)|
                               && a.parent.value == Path(n)[a.height - 1]
    ensures a.parent.None? ==> a.height == 0
  {
    PathShape(n);
    if tip.Some? {
      forall c | IsAncestor(c, n) && IsAncestor(c, tip.value)
        ensures c.height <= a.height - 1
      {
        OnBranch(c, n);
        OnBranch(a, n);
      }
    }
  }

  lemma SamePrefix(a: seq<BlockNode>, b: seq<BlockNode>, n: nat)
    requires n <= |a| && n <= |b| && a[..n] == b[..n]
    ensures forall i :: 0 <= i < n ==> a[i] == b[i]
  {
    assert forall i :: 0 <= i < n ==> a[i] == a[..n][i] == b[..n][i];
  }

  class ChainView {
    var slots: array<Option<BlockNode>>  // the backing array; slots.Length is the capacity
    var len: nat                         // the length of the slice
    ghost var tipNode: Option<BlockNode>

    ghost predicate Valid()
      reads this, slots
    {
      && len <= slots.Length
      && (tipNode.None? ==> len == 0)
      && (tipNode.Some? ==>
          && WellFormed(tipNode.value)
          && len == |Path(tipNode.value)|
          && forall i :: 0 <= i < len ==> slots[i] == Some(Path(tipNode.value)[i]))
    }

    // newChainView(nil)
    constructor ()
      ensures Valid() && tipNode == None && fresh(slots)
    {
      slots := new Option<BlockNode>[0];
      len := 0;
      tipNode := None;
    }

    method Resize(needed: nat)
      requires Valid()
      modifies this`slots, this`len, slots
      ensures slots == old(slots) || fresh(slots)
      ensures len == needed <= slots.Length
      ensures forall i :: 0 <= i < needed ==> slots[i] == if i < old(len) then old(slots[i]) else None
    {
      if slots.Length < needed {
        var nodes := new Option<BlockNode>[needed + APPROX_NODES_PER_WEEK](_ => None);
        for i := 0 to len
          invariant slots == old(slots) && len == old(len) && fresh(nodes)
          invariant nodes.Length == needed + APPROX_NODES_PER_WEEK
          invariant forall k :: 0 <= k < len ==> slots[k] == old(slots[k])
          invariant forall k :: 0 <= k < nodes.Length ==> nodes[k] == if k < i then slots[k] else None
        {
          nodes[i] := slots[i];
        }
        slots := nodes;
        len := needed;
      } else {
        var prevLen := len;
        len := needed;
        var i := prevLen;
        while i < needed
          invariant slots == old(slots) && len == needed && prevLen == old(len)
          invariant prevLen <= i <= slots.Length
          invariant forall k :: 0 <= k < needed && k < prevLen ==> slots[k] == old(slots[k])
          invariant forall k :: prevLen <= k < i ==> slots[k] == None
        {
          slots[i] := None;
          i := i + 1;
        }
      }
    }

    // Walks down from the new tip only until the array already holds the node.
    method Fill(tip: BlockNode, ghost oldBranch: seq<BlockNode>)
      requires WellFormed(tip) && len == |Path(tip)| <= slots.Length
      requires forall i :: 0 <= i < len ==> slots[i] == if i < |oldBranch| then Some(oldBranch[i]) else None
      requires forall i :: 0 <= i < |oldBranch| ==> oldBranch[..i + 1] == Path(oldBranch[i])
      modifies slots
      ensures forall i :: 0 <= i < len ==> slots[i] == Some(Path(tip)[i])
    {
      hide Path, WellFormed;
      PathShape(tip);
      ghost var path, h := Path(tip), tip.height;
      var node := Some(tip);
      while node.Some? && slots[node.value.height] != node
        invariant -1 <= h < len == |path| && node == if h >= 0 then Some(path[h]) else None
        invariant forall i :: h < i < len ==> slots[i] == Some(path[i])
        invariant forall i :: 0 <= i <= h ==> slots[i] == old(slots[i])
        decreases h
      {
        slots[node.value.height] := node;
        node := node.value.parent;
        h := h - 1;
      }
      if node.Some? {
        PathPrefix(tip, h);
        SamePrefix(oldBranch, path, h + 1);
      }
    }

    method SetTip(tip: Option<BlockNode>)
      requires Valid()
      requires tip.Some? ==> WellFormed(tip.value)
      modifies this, slots
      ensures slots == old(slots) || fresh(slots)
      ensures Valid() && tipNode == tip
    {
      if tip.None? {
        len := 0;
        tipNode := None;
        return;
      }
      PathShape(tip.value);
      ghost var oldBranch := if tipNode.Some? then Path(tipNode.value) else [];
      BranchPrefixes(tipNode);
      Resize(tip.value.height + 1);
      Fill(tip.value, oldBranch);
      tipNode := tip;
    }

    function NodeByHeight(height: int): (r: Option<BlockNode>)
      requires Valid()
      reads this, slots
      ensures r.Some? <==> tipNode.Some? && 0 <= height < |Path(tipNode.value)|
      ensures r.Some? ==> r.value == Path(tipNode.value)[height]
    {
      if height < 0 || height >= len then None else slots[height]
    }

    // An O(1) test for lying on the branch of the tip.
    predicate Contains(node: BlockNode)
      requires Valid()
      reads this, slots
      ensures Contains(node) <==> tipNode.Some? && IsAncestor(node, tipNode.value)
    {
      assert tipNode.Some? ==> (IsAncestor(node, tipNode.value) <==>
        0 <= node.height <= tipNode.value.height && Path(tipNode.value)[node.height] == node) by {
        if tipNode.Some? { OnBranch(node, tipNode.value); }
      }
      NodeByHeight(node.height) == Some(node)
    }

    function Next(node: Option<BlockNode>): (r: Option<BlockNode>)
      requires Valid()
      reads this, slots
      ensures r.Some? <==> node.Some? && tipNode.Some? && IsAncestor(node.value, tipNode.value) && node != tipNode
      ensures r.Some? ==> r.value.parent == node && IsAncestor(r.value, tipNode.value)
    {
      assert tipNode.Some? && node.Some? && IsAncestor(node.value, tipNode.value) ==>
        (node.value.height < tipNode.value.height <==> node != tipNode) by {
        if tipNode.Some? && node.Some? { OnBranch(node.value, tipNode.value); PathShape(tipNode.value); }
      }
      assert tipNode.Some? ==> (
        && |Path(tipNode.value)| == tipNode.value.height + 1
        && forall i :: 0 < i <= tipNode.value.height ==>
             Path(tipNode.value)[i].parent == Some(Path(tipNode.value)[i - 1])) by {
        if tipNode.Some? { PathShape(tipNode.value); }
      }
      if node.None? || !Contains(node.value) then None else NodeByHeight(node.value.height + 1)
    }

    method Tip() returns (r: Option<BlockNode>)
      requires Valid()
      ensures r == tipNode
    {
      if len == 0 {
        r := None;
      } else {
        r := slots[len - 1];
      }
    }

    // The highest common ancestor of the node and the view, None when there is none.
    method FindFork(start: Option<BlockNode>) returns (r: Option<BlockNode>)
      requires Valid()
      requires start.Some? ==> WellFormed(start.value)
      ensures r.Some? ==> start.Some? && tipNode.Some?
                          && IsAncestor(r.value, start.value) && IsAncestor(r.value, tipNode.value)
      ensures start.Some? && tipNode.Some? ==>
        forall a :: IsAncestor(a, start.value) && IsAncestor(a, tipNode.value) ==> r.Some? && a.height <= r.value.height
    {
      if start.None? {
        return None;
      }
      var node := start;
      PathShape(start.value);
      var chainHeight := len - 1;
      if start.value.height > chainHeight {
        node := Ancestor(start.value, chainHeight);
      }
      CommonBelow(start.value, tipNode);
      while node.Some? && !Contains(node.value)
        invariant node.Some? ==> 0 <= node.value.height < |Path(start.value)|
                                 && node.value == Path(start.value)[node.value.height]
        invariant NoneAbove(start.value, tipNode, if node.Some? then node.value.height else -1)
        decreases if node.Some? then node.value.height + 1 else 0
      {
        OneLower(start.value, tipNode, node.value);
        node := node.value.parent;
      }
      r := node;
    }
  }
}
