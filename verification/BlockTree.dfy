/** Block nodes as a parent-pointer tree.  A node stands for its hash together with its
    whole ancestry, so equal nodes are the same pointer of the block index. */
module BlockTree {
  import opened Types

  datatype BlockNode = BlockNode(parent: Option<BlockNode>, hash: Hash, height: int, timestamp: nat, version: int)

  // initBlockNode: a child sits one above its parent, the genesis node at zero.
  predicate WellFormed(n: BlockNode) {
    match n.parent
    case None => n.height == 0
    case Some(p) => n.height == p.height + 1 && WellFormed(p)
  }

  // The branch from genesis to n.
  function Path(n: BlockNode): (p: seq<BlockNode>)
    ensures p != [] && p[|p| - 1] == n
  {
    match n.parent
    case None => [n]
    case Some(p) => Path(p) + [n]
  }

  predicate IsAncestor(a: BlockNode, n: BlockNode) {
    a in Path(n)
  }

  lemma {:induction false} PathShape(n: BlockNode)
    requires WellFormed(n)
    ensures |Path(n)| == n.height + 1 >= 1
    ensures forall i :: 0 <= i <= n.height ==> Path(n)[i].height == i && WellFormed(Path(n)[i])
    ensures forall i :: 0 < i <= n.height ==> Path(n)[i].parent == Some(Path(n)[i - 1])
    ensures Path(n)[0].parent == None
  {
    if n.parent.Some? {
      PathShape(n.parent.value);
    }
  }

  // Every prefix of a branch is the branch of its last node.
  lemma {:induction false} PathPrefix(n: BlockNode, i: nat)
    requires WellFormed(n) && i <= n.height
    ensures |Path(n)| == n.height + 1
    ensures Path(n)[..i + 1] == Path(Path(n)[i])
  {
    PathShape(n);
    if i < n.height {
      PathShape(n.parent.value);
      PathPrefix(n.parent.value, i);
      assert Path(n)[..i + 1] == Path(n.parent.value)[..i + 1];
    } else {
      assert Path(n)[..i + 1] == Path(n);
    }
  }

  // blockNode.Ancestor: walk the parents down to the wanted height.
  method Ancestor(node: BlockNode, height: int) returns (r: Option<BlockNode>)
    requires WellFormed(node)
    ensures r.Some? <==> 0 <= height <= node.height
    ensures r.Some? ==> height < |Path(node)| && r.value == Path(node)[height] && WellFormed(r.value)
  {
    PathShape(node);
    if height < 0 || height > node.height {
      return None;
    }
    var n := node;
    while n.height != height
      invariant height <= n.height <= node.height && n == Path(node)[n.height]
      decreases n.height
    {
      n := n.parent.value;
    }
    r := Some(n);
  }

  method RelativeAncestor(node: BlockNode, distance: int) returns (r: Option<BlockNode>)
    requires WellFormed(node)
    ensures r.Some? <==> 0 <= node.height - distance <= node.height
    ensures r.Some? ==> node.height - distance < |Path(node)| && r.value == Path(node)[node.height - distance]
                        && WellFormed(r.value)
  {
    r := Ancestor(node, node.height - distance);
  }

  // Two branches that agree at some height agree below it.
  lemma BranchesAgreeBelow(a: BlockNode, b: BlockNode, h: nat)
    requires WellFormed(a) && WellFormed(b)
    requires h <= a.height && h <= b.height
    ensures |Path(a)| == a.height + 1 && |Path(b)| == b.height + 1
    ensures Path(a)[h] == Path(b)[h] <==> Path(a)[..h + 1] == Path(b)[..h + 1]
  {
    PathPrefix(a, h);
    PathPrefix(b, h);
    if Path(a)[..h + 1] == Path(b)[..h + 1] {
      assert Path(a)[h] == Path(a)[..h + 1][h] == Path(b)[h];
    }
  }

  // Membership on a branch is decided at the node's own height.
  lemma OnBranch(a: BlockNode, n: BlockNode)
    requires WellFormed(n)
    ensures |Path(n)| == n.height + 1
    ensures IsAncestor(a, n) <==> 0 <= a.height <= n.height && Path(n)[a.height] == a
  {
    PathShape(n);
  }
}
