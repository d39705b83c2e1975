/** Block locators and the inventory run found from them: exponentially spaced ancestors,
    their exact number, and what another node answers. */
module Locator {
  import opened Types
  import Arith
  import opened BlockTree
  import opened ChainView

  function Pow2(n: nat): (r: nat)
    ensures r >= 1
  {
    if n == 0 then 1 else 2 * Pow2(n - 1)
  }

  lemma {:induction false} Pow2Add(a: nat, b: nat)
    ensures Pow2(a + b) == Pow2(a) * Pow2(b)
  {
    if a > 0 {
      Pow2Add(a - 1, b);
      calc {
        Pow2(a + b);
        2 * Pow2(a - 1 + b);
        2 * (Pow2(a - 1) * Pow2(b));
        Pow2(a) * Pow2(b);
      }
    }
  }

  lemma {:induction false} Pow2Monotone(a: nat, b: nat)
    requires a <= b
    ensures Pow2(a) <= Pow2(b)
  {
    if a < b {
      Pow2Monotone(a, b - 1);
    }
  }

  // rv is floor(log2 n).
  predicate IsLog2Floor(n: nat, rv: nat) {
    Pow2(rv) <= n < Pow2(rv + 1)
  }

  // Narrowing n by 2^e when one of its bits e..2e-1 is set.
  lemma Narrow(total: nat, n: nat, m: nat, k: nat)
    requires k > 0 && n * m <= total < (n + 1) * m
    ensures (n / k) * (m * k) <= total < (n / k + 1) * (m * k)
  {
    var q := n / k;
    assert q * k <= n && n + 1 <= (q + 1) * k;
    calc <= {
      q * (m * k);
      (q * k) * m;
      { Arith.MulMonotone(q * k, n, m); }
      n * m;
    }
    calc <= {
      (n + 1) * m;
      { Arith.MulMonotone(n + 1, (q + 1) * k, m); }
      ((q + 1) * k) * m;
      (q + 1) * (m * k);
    }
  }

  lemma Pow2Values()
    ensures Pow2(0) == 1 && Pow2(1) == 2 && Pow2(2) == 4 && Pow2(4) == 16 && Pow2(8) == 256 && Pow2(16) == 65536
  {
    assert Pow2(1) == 2 && Pow2(2) == 4 && Pow2(4) == 16;
    Pow2Add(4, 4);
    Pow2Add(8, 8);
  }

  // Below width * width the mask finds a bit exactly when n reaches width.
  lemma MaskHit(n: nat, width: nat)
    requires width > 0 && n < width * width
    ensures (n / width) % width != 0 <==> n >= width
    ensures n / width < width
    ensures n >= width ==> n / width > 0
  {
    if n / width >= width {
      Arith.MulMonotone(width, n / width, width);
    }
  }

  predicate ShiftStep(i: nat, exponent: nat, width: nat) {
    || (i == 0 && exponent == 16 && width == 65536) || (i == 1 && exponent == 8 && width == 256)
    || (i == 2 && exponent == 4 && width == 16) || (i == 3 && exponent == 2 && width == 4)
    || (i == 4 && exponent == 1 && width == 2) || (i == 5 && exponent == 0 && width == 1)
  }

  // n is what is left of x after shifting out rv bits.
  predicate ShiftedBy(x: nat, n: nat, rv: nat) {
    && n * Pow2(rv) <= x < (n + 1) * Pow2(rv)
    && (x == 0 <==> n == 0)
    && (x == 0 ==> rv == 0)
  }

  lemma ShiftMore(x: nat, n: nat, rv: nat, i: nat, exponent: nat, width: nat)
    requires ShiftedBy(x, n, rv) && i < 5 && ShiftStep(i, exponent, width)
    requires n >= width && n / width > 0
    ensures ShiftedBy(x, n / width, rv + exponent)
  {
    Pow2Values();
    Narrow(x, n, Pow2(rv), width);
    Pow2Add(rv, exponent);
  }

  // Five shifts by 16, 8, 4, 2 and 1; the mask of a step selects bits e to 2e - 1.
  method FastLog2Floor(x: nat) returns (rv: nat)
    requires x < 0x1_0000_0000
    ensures x != 0 ==> IsLog2Floor(x, rv)
    ensures x == 0 ==> rv == 0
  {
    hide ShiftedBy;
    rv := 0;
    var n: nat, exponent: nat, width: nat := x, 16, 65536;
    ShiftStart(x);
    for i := 0 to 5
      invariant ShiftStep(i, exponent, width) && ShiftedBy(x, n, rv)
      invariant n < if i == 0 then 0x1_0000_0000 else if i == 1 then 65536 else if i == 2 then 256
                    else if i == 3 then 16 else if i == 4 then 4 else 2
    {
      MaskHit(n, width);
      if (n / width) % width != 0 {
        ShiftMore(x, n, rv, i, exponent, width);
        rv := rv + exponent;
        n := n / width;
      }
      exponent := exponent / 2;
      width := if exponent == 8 then 256 else if exponent == 4 then 16 else if exponent == 2 then 4
               else if exponent == 1 then 2 else 1;
    }
    ShiftEnd(x, n, rv);
  }

  lemma ShiftStart(x: nat)
    ensures ShiftedBy(x, x, 0)
  {
  }

  lemma ShiftEnd(x: nat, n: nat, rv: nat)
    requires ShiftedBy(x, n, rv) && n < 2
    ensures x != 0 ==> IsLog2Floor(x, rv)
    ensures x == 0 ==> rv == 0
  {
  }

  /** The heights of a locator */

  // Unclamped height of entry k for a node at height h: eleven single steps, then
  // steps of 2, 4, 8, ...
  function RawHeight(h: nat, k: nat): int {
    if k <= 10 then h - k else h - 9 - Pow2(k - 10)
  }

  function EntryHeight(h: nat, k: nat): nat {
    if RawHeight(h, k) < 0 then 0 else RawHeight(h, k)
  }

  function Step(k: nat): nat {
    if k <= 10 then 1 else Pow2(k - 10)
  }

  lemma RawStep(h: nat, k: nat)
    ensures RawHeight(h, k + 1) == RawHeight(h, k) - Step(k)
    ensures k >= 10 ==> Step(k + 1) == 2 * Step(k)
    ensures k < 10 ==> Step(k + 1) == Step(k)
  {
    assert Pow2(0) == 1 && Pow2(1) == 2;
  }

  // The capacity the source computes up front.
  predicate IsMaxEntries(h: nat, n: nat) {
    if h <= 12 then n == h + 1 else n >= 12 && IsLog2Floor(h - 10, n - 12)
  }

  // Entry k is the genesis exactly when the capacity is used up.
  lemma LastEntry(h: nat, n: nat, k: nat)
    requires IsMaxEntries(h, n)
    requires k > 0 ==> RawHeight(h, k - 1) > 0
    ensures RawHeight(h, k) <= 0 <==> k == n - 1
    ensures k < n
  {
    assert Pow2(0) == 1 && Pow2(1) == 2 && Pow2(2) == 4;
    if h > 10 {
      if k > n - 1 {
        if k - 1 > 10 && n - 1 > 10 { Pow2Monotone(n - 1 - 10, k - 1 - 10); }
      } else if k < n - 1 && k > 10 {
        Pow2Monotone(k - 10, n - 2 - 10);
      }
    }
  }

  /** The locator lists the ancestors of the node at those heights: strictly descending,
      from the node itself to the genesis, in exactly the precomputed number. */
  ghost predicate IsLocator(node: BlockNode, locator: seq<BlockNode>) {
    && |Path(node)| == node.height + 1
    && IsMaxEntries(node.height, |locator|)
    && (forall i :: 0 <= i < |locator| ==> EntryHeight(node.height, i) <= node.height
                                           && locator[i] == Path(node)[EntryHeight(node.height, i)])
  }

  lemma {:induction false} RawDescending(h: nat, i: nat, j: nat)
    requires i < j
    ensures RawHeight(h, j) < RawHeight(h, i)
  {
    RawStep(h, j - 1);
    if i < j - 1 {
      RawDescending(h, i, j - 1);
    }
  }

  lemma LocatorShape(node: BlockNode, locator: seq<BlockNode>)
    requires WellFormed(node) && IsLocator(node, locator)
    ensures locator != [] && locator[0] == node
    ensures locator[|locator| - 1] == Path(node)[0]
    ensures forall i :: 0 <= i < |locator| ==> IsAncestor(locator[i], node)
    ensures forall i, j :: 0 <= i < j < |locator| ==> locator[j].height < locator[i].height
  {
    PathShape(node);
    var h, n := node.height, |locator|;
    FirstNonPositive(h, n);
    forall i, j | 0 <= i < j < n
      ensures locator[j].height < locator[i].height
    {
      RawDescending(h, i, j);
      if i < n - 1 { RawPositive(h, n, i); }
    }
  }

  lemma RawPositive(h: nat, n: nat, i: nat)
    requires IsMaxEntries(h, n) && i + 1 < n
    ensures RawHeight(h, i) > 0
  {
    FirstNonPositive(h, n);
    if i < n - 2 {
      RawDescending(h, i, n - 2);
    }
  }

  lemma FirstNonPositive(h: nat, n: nat)
    requires IsMaxEntries(h, n)
    ensures n >= 1 && RawHeight(h, n - 1) <= 0
    ensures n >= 2 ==> RawHeight(h, n - 2) > 0
  {
    assert Pow2(0) == 1 && Pow2(1) == 2 && Pow2(2) == 4;
  }

  /** The gaps: eleven single steps, each later one twice the one before, and whatever
      remains to the genesis at the end. */
  lemma LocatorGaps(node: BlockNode, locator: seq<BlockNode>, i: nat)
    requires WellFormed(node) && IsLocator(node, locator) && i + 2 < |locator|
    ensures i <= 10 ==> locator[i].height == locator[i + 1].height + 1
    ensures i > 10 ==>
      locator[i].height - locator[i + 1].height == 2 * (locator[i - 1].height - locator[i].height)
  {
    hide IsMaxEntries;
    PathShape(node);
    var h := node.height;
    RawPositive(h, |locator|, i + 1);
    RawPositive(h, |locator|, i);
    RawStep(h, i);
    if i > 10 {
      RawPositive(h, |locator|, i - 1);
      RawStep(h, i - 1);
    }
  }

  method BlockLocator(view: ChainView, start: Option<BlockNode>) returns (locator: seq<BlockNode>)
    requires view.Valid()
    requires start.Some? ==> WellFormed(start.value) && start.value.height < 0x8000_0000
    requires view.tipNode.Some? ==> view.tipNode.value.height < 0x8000_0000
    ensures start.None? && view.tipNode.None? ==> locator == []
    ensures start.Some? ==> IsLocator(start.value, locator)
    ensures start.None? && view.tipNode.Some? ==> IsLocator(view.tipNode.value, locator)
  {
    var node := start;
    if node.None? {
      node := view.Tip();
    }
    if node.None? {
      return [];
    }
    var first := node.value;
    PathShape(first);
    var maxEntries;
    if first.height <= 12 {
      maxEntries := first.height + 1;
    } else {
      var log := FastLog2Floor(first.height - 10);
      maxEntries := 12 + log;
    }
    locator := CollectLocator(view, first, maxEntries);
  }

  method CollectLocator(view: ChainView, first: BlockNode, ghost maxEntries: nat) returns (locator: seq<BlockNode>)
    requires view.Valid() && WellFormed(first)
    requires |Path(first)| == first.height + 1 && first.height >= 0 && IsMaxEntries(first.height, maxEntries)
    ensures |locator| == maxEntries && IsLocator(first, locator)
  {
    hide Path, Pow2, WellFormed;
    ghost var h := first.height;
    locator := [];
    var node, step := first, 1;
    while true
      invariant |locator| < maxEntries
      invariant step == Step(|locator|)
      invariant 0 <= node.height <= h && node.height == EntryHeight(h, |locator|) && node == Path(first)[node.height]
      invariant WellFormed(node)
      invariant |locator| > 0 ==> RawHeight(h, |locator| - 1) > 0
      invariant forall i :: 0 <= i < |locator| ==>
        EntryHeight(h, i) <= h && locator[i] == Path(first)[EntryHeight(h, i)]
      decreases maxEntries - |locator|
    {
      ghost var k := |locator|;
      LastEntry(h, maxEntries, k);
      locator := locator + [node];
      if node.height == 0 {
        return;
      }
      RawStep(h, k);
      LastEntry(h, maxEntries, k + 1);
      var height := node.height - step;
      if height < 0 {
        height := 0;
      }
      node := LowerNode(view, node, height, first);
      if |locator| > 10 {
        step := step * 2;
      }
    }
  }

  // The O(1) lookup in the view and the walk along parents find the same ancestor.
  method LowerNode(view: ChainView, node: BlockNode, height: int, ghost first: BlockNode) returns (r: BlockNode)
    requires view.Valid() && WellFormed(first) && WellFormed(node)
    requires 0 <= height <= node.height < |Path(first)| && node == Path(first)[node.height]
    ensures r == Path(first)[height] && r.height == height && WellFormed(r)
  {
    PathShape(first);
    PathShape(node);
    PathPrefix(first, node.height);
    assert Path(node)[height] == Path(first)[..node.height + 1][height];
    if view.Contains(node) {
      PathShape(view.tipNode.value);
      OnBranch(node, view.tipNode.value);
      PathPrefix(view.tipNode.value, node.height);
      assert Path(node)[height] == Path(view.tipNode.value)[..node.height + 1][height];
      r := view.NodeByHeight(height).value;
    } else {
      var a := Ancestor(node, height);
      r := a.value;
    }
  }

  /** Answering a locator */

  // The block index: hashes name well-formed nodes, the main chain among them.
  ghost predicate IndexOk(view: ChainView, index: map<Hash, BlockNode>)
    requires view.Valid()
    reads view, view.slots
  {
    && (forall h :: h in index ==> WellFormed(index[h]) && index[h].hash == h)
    && view.tipNode.Some?
    && (forall a :: IsAncestor(a, view.tipNode.value) ==> a.hash in index && index[a.hash] == a)
  }

  // The first locator entry on the main chain, else the genesis.
  ghost predicate IsStart(tip: BlockNode, index: map<Hash, BlockNode>, locator: seq<Hash>, s: BlockNode) {
    || (exists i :: && 0 <= i < |locator| && locator[i] in index && index[locator[i]] == s && IsAncestor(s, tip)
                    && forall j :: 0 <= j < i ==> !(locator[j] in index && IsAncestor(index[locator[j]], tip)))
    || (s == Path(tip)[0] && forall j :: 0 <= j < |locator| ==>
      !(locator[j] in index && IsAncestor(index[locator[j]], tip)))
  }

  method FindStart(view: ChainView, index: map<Hash, BlockNode>, locator: seq<Hash>) returns (s: BlockNode)
    requires view.Valid() && IndexOk(view, index)
    ensures IsStart(view.tipNode.value, index, locator, s)
    ensures IsAncestor(s, view.tipNode.value)
    ensures forall i :: 0 <= i < |locator| ==>
      locator[i] in index && IsAncestor(index[locator[i]], view.tipNode.value) ==>
        s == index[locator[i]]
        || exists j :: 0 <= j < i && locator[j] in index && IsAncestor(index[locator[j]], view.tipNode.value)
  {
    PathShape(view.tipNode.value);
    s := view.NodeByHeight(0).value;
    assert s in Path(view.tipNode.value);
    for i := 0 to |locator|
      invariant forall j :: 0 <= j < i ==> !(locator[j] in index && IsAncestor(index[locator[j]], view.tipNode.value))
    {
      if locator[i] in index && view.Contains(index[locator[i]]) {
        return index[locator[i]];
      }
    }
  }

  method LocateInventory(view: ChainView, index: map<Hash, BlockNode>, locator: seq<Hash>, hashStop: Hash,
                         maxEntries: nat)
    returns (node: Option<BlockNode>, total: nat, ghost start: Option<BlockNode>)
    requires view.Valid() && IndexOk(view, index)
    ensures locator == [] ==> total == (if hashStop in index then 1 else 0)
                              && node == (if hashStop in index then Some(index[hashStop]) else None)
    ensures locator != [] ==>
      && start.Some? && IsStart(view.tipNode.value, index, locator, start.value)
      && (node.None? <==> start == view.tipNode) && (node.None? ==> total == 0)
      && (node.Some? ==>
            && node.value.parent == start && IsAncestor(node.value, view.tipNode.value)
            && total == RunLength(view.tipNode.value, index, node.value, hashStop, maxEntries)
            && ReachesStop(view.tipNode.value, index, node.value.height, hashStop, maxEntries, total))
  {
    start := None;
    if |locator| == 0 {
      if hashStop !in index {
        return None, 0, None;
      }
      return Some(index[hashStop]), 1, None;
    }
    var s := FindStart(view, index, locator);
    start := Some(s);
    node := view.Next(Some(s));
    if node.None? {
      return None, 0, start;
    }
    var tip := view.Tip();
    OnBranch(node.value, tip.value);
    total := tip.value.height - node.value.height + 1;
    if hashStop in index && view.Contains(index[hashStop]) && index[hashStop].height >= node.value.height {
      total := index[hashStop].height - node.value.height + 1;
    }
    if total > maxEntries {
      total := maxEntries;
    }
    RunReaches(tip.value, index, node.value, hashStop, maxEntries);
  }

  // A run of n blocks from a height on goes to the stop block, when that lies on the main
  // chain from there on, and to the tip otherwise, or is cut off at the maximum.
  ghost predicate ReachesStop(tip: BlockNode, index: map<Hash, BlockNode>, height: int, hashStop: Hash,
                              maxEntries: nat, n: nat) {
    && n <= maxEntries
    && (hashStop in index && IsAncestor(index[hashStop], tip) && index[hashStop].height >= height ==>
          height + n - 1 <= index[hashStop].height && (n < maxEntries ==> height + n - 1 == index[hashStop].height))
    && (!(hashStop in index && IsAncestor(index[hashStop], tip) && index[hashStop].height >= height) ==>
          n == maxEntries || height + n - 1 == tip.height)
  }

  lemma RunReaches(tip: BlockNode, index: map<Hash, BlockNode>, node: BlockNode, hashStop: Hash, maxEntries: nat)
    requires WellFormed(tip) && IsAncestor(node, tip)
    ensures RunLength(tip, index, node, hashStop, maxEntries) >= 0
    ensures ReachesStop(tip, index, node.height, hashStop, maxEntries,
                        RunLength(tip, index, node, hashStop, maxEntries))
  {
    PathShape(tip);
    OnBranch(node, tip);
    if hashStop in index {
      OnBranch(index[hashStop], tip);
    }
  }

  // Up to the stop block when it lies ahead on the main chain, else to the tip, and
  // never more than the maximum.
  ghost function RunLength(tip: BlockNode, index: map<Hash, BlockNode>, node: BlockNode, hashStop: Hash,
                           maxEntries: nat): int {
    var last := if hashStop in index && IsAncestor(index[hashStop], tip) && index[hashStop].height >= node.height
                then index[hashStop].height else tip.height;
    if last - node.height + 1 > maxEntries then maxEntries else last - node.height + 1
  }

  lemma RunFits(tip: BlockNode, index: map<Hash, BlockNode>, node: BlockNode, hashStop: Hash, maxEntries: nat)
    requires WellFormed(tip) && IsAncestor(node, tip)
    ensures node.height + RunLength(tip, index, node, hashStop, maxEntries) <= tip.height + 1
    ensures node.parent.Some? ==> node.parent.value.height == node.height - 1
  {
    PathShape(tip);
    OnBranch(node, tip);
    if hashStop in index {
      OnBranch(index[hashStop], tip);
    }
  }

  // How many blocks follow the start: none after the tip, else the whole run that begins
  // with the start's child on the main chain.
  ghost predicate IsRunLength(tip: BlockNode, index: map<Hash, BlockNode>, start: BlockNode, hashStop: Hash,
                              maxEntries: nat, n: nat)
    requires WellFormed(tip) && |Path(tip)| == tip.height + 1 && 0 <= start.height <= tip.height
  {
    if start == tip then n == 0
    else start.height < tip.height && n == RunLength(tip, index, Path(tip)[start.height + 1], hashStop, maxEntries)
  }

  // Exactly the run of the main chain after the start, up to tip, stop or maximum.
  method LocateBlocks(view: ChainView, index: map<Hash, BlockNode>, locator: seq<Hash>, hashStop: Hash, maxHashes: nat)
    returns (hashes: seq<Hash>, ghost start: Option<BlockNode>)
    requires view.Valid() && IndexOk(view, index)
    ensures locator != [] ==>
      && start.Some? && IsAncestor(start.value, view.tipNode.value)
      && IsStart(view.tipNode.value, index, locator, start.value)
      && |Path(view.tipNode.value)| == view.tipNode.value.height + 1
      && 0 <= start.value.height && start.value.height + |hashes| <= view.tipNode.value.height
      && IsRunLength(view.tipNode.value, index, start.value, hashStop, maxHashes, |hashes|)
      && (forall i :: 0 <= i < |hashes| ==> hashes[i] == Path(view.tipNode.value)[start.value.height + 1 + i].hash)
    ensures locator == [] ==> hashes == if hashStop in index then [hashStop] else []
    ensures locator != [] ==> |hashes| <= maxHashes
    ensures locator != [] && hashStop in index && IsAncestor(index[hashStop], view.tipNode.value)
            && index[hashStop].height > start.value.height ==>
      && start.value.height + |hashes| <= index[hashStop].height
      && (|hashes| < maxHashes ==> hashes != [] && hashes[|hashes| - 1] == hashStop)
    ensures locator != [] && !(hashStop in index && IsAncestor(index[hashStop], view.tipNode.value)
                               && index[hashStop].height > start.value.height) ==>
      |hashes| == maxHashes || start.value.height + |hashes| == view.tipNode.value.height
  {
    hide RunLength, IsStart;
    hashes, start := LocateRun(view, index, locator, hashStop, maxHashes);
    if locator != [] {
      RunEnds(view.tipNode.value, index, start.value, hashStop, maxHashes, hashes);
    }
  }

  // From the start's child on, as many as the inventory says.
  method LocateRun(view: ChainView, index: map<Hash, BlockNode>, locator: seq<Hash>, hashStop: Hash, maxHashes: nat)
    returns (hashes: seq<Hash>, ghost start: Option<BlockNode>)
    requires view.Valid() && IndexOk(view, index)
    ensures locator != [] ==>
      && start.Some? && IsAncestor(start.value, view.tipNode.value)
      && IsStart(view.tipNode.value, index, locator, start.value)
      && |Path(view.tipNode.value)| == view.tipNode.value.height + 1
      && 0 <= start.value.height && start.value.height + |hashes| <= view.tipNode.value.height
      && IsRunLength(view.tipNode.value, index, start.value, hashStop, maxHashes, |hashes|)
      && (forall i :: 0 <= i < |hashes| ==> hashes[i] == Path(view.tipNode.value)[start.value.height + 1 + i].hash)
    ensures locator == [] ==> hashes == if hashStop in index then [hashStop] else []
  {
    var node, total;
    node, total, start := LocateInventory(view, index, locator, hashStop, maxHashes);
    if locator != [] {
      StartOnChain(view.tipNode.value, index, locator, start.value);
      if node.Some? {
        ChildOnChain(view.tipNode.value, start.value, node.value);
      }
    }
    hashes := [];
    if total == 0 {
      return;
    }
    if locator != [] {
      RunFits(view.tipNode.value, index, node.value, hashStop, maxHashes);
    }
    hashes := CollectRun(view, node.value, total);
  }

  // Where a run ends.
  lemma RunEnds(tip: BlockNode, index: map<Hash, BlockNode>, start: BlockNode, hashStop: Hash, maxHashes: nat,
                hashes: seq<Hash>)
    requires WellFormed(tip) && IsAncestor(start, tip)
    requires forall h :: h in index ==> index[h].hash == h
    requires |Path(tip)| == tip.height + 1 && 0 <= start.height && start.height + |hashes| <= tip.height
    requires IsRunLength(tip, index, start, hashStop, maxHashes, |hashes|)
    requires forall i :: 0 <= i < |hashes| ==> hashes[i] == Path(tip)[start.height + 1 + i].hash
    ensures |hashes| <= maxHashes
    ensures hashStop in index && IsAncestor(index[hashStop], tip) && index[hashStop].height > start.height ==>
      && start.height + |hashes| <= index[hashStop].height
      && (|hashes| < maxHashes ==> hashes != [] && hashes[|hashes| - 1] == hashStop)
    ensures !(hashStop in index && IsAncestor(index[hashStop], tip) && index[hashStop].height > start.height) ==>
      |hashes| == maxHashes || start.height + |hashes| == tip.height
  {
    hide Path, WellFormed, IsAncestor, RunLength;
    PathShape(tip);
    OnBranch(start, tip);
    OnBranch(tip, tip);
    if hashStop in index {
      OnBranch(index[hashStop], tip);
    }
    if start != tip {
      OnBranch(Path(tip)[start.height + 1], tip);
      RunReaches(tip, index, Path(tip)[start.height + 1], hashStop, maxHashes);
    }
  }

  lemma StartOnChain(tip: BlockNode, index: map<Hash, BlockNode>, locator: seq<Hash>, s: BlockNode)
    requires WellFormed(tip) && IsStart(tip, index, locator, s)
    ensures IsAncestor(s, tip) && |Path(tip)| == tip.height + 1 && 0 <= s.height <= tip.height
  {
    PathShape(tip);
    OnBranch(s, tip);
  }

  lemma ChildOnChain(tip: BlockNode, s: BlockNode, n: BlockNode)
    requires WellFormed(tip) && IsAncestor(n, tip) && n.parent == Some(s)
    ensures |Path(tip)| == tip.height + 1 && 0 <= s.height < tip.height && n == Path(tip)[s.height + 1] && s != tip
  {
    PathShape(tip);
    OnBranch(n, tip);
  }

  method CollectRun(view: ChainView, first: BlockNode, total: nat) returns (hashes: seq<Hash>)
    requires view.Valid() && view.tipNode.Some? && total > 0
    requires total == 1 || (IsAncestor(first, view.tipNode.value)
      && first.height + total <= view.tipNode.value.height + 1)
    ensures |hashes| == total && hashes[0] == first.hash
    ensures IsAncestor(first, view.tipNode.value) ==>
      && |Path(view.tipNode.value)| == view.tipNode.value.height + 1
      && 0 <= first.height && first.height + total <= view.tipNode.value.height + 1
      && forall i :: 0 <= i < total ==> hashes[i] == Path(view.tipNode.value)[first.height + i].hash
  {
    PathShape(view.tipNode.value);
    OnBranch(first, view.tipNode.value);
    hashes := [];
    var node := Some(first);
    for i := 0 to total
      invariant |hashes| == i && (i > 0 ==> hashes[0] == first.hash)
      invariant i == 0 ==> node == Some(first)
      invariant i < total && IsAncestor(first, view.tipNode.value) ==>
        node == Some(Path(view.tipNode.value)[first.height + i])
      invariant IsAncestor(first, view.tipNode.value) ==>
        forall j :: 0 <= j < i ==> hashes[j] == Path(view.tipNode.value)[first.height + j].hash
    {
      hashes := hashes + [node.value.hash];
      node := view.Next(node);
    }
  }

  /** A requester's locator, answered from another view with the same genesis: the run
      starts at a child of a block the requester already has. */
  lemma AnswerContinuesRequester(requester: BlockNode, locator: seq<BlockNode>, tip: BlockNode,
                                 index: map<Hash, BlockNode>, s: BlockNode)
    requires WellFormed(requester) && WellFormed(tip) && IsLocator(requester, locator)
    requires Path(requester)[0] == Path(tip)[0]
    // hashes identify blocks
    requires forall a :: IsAncestor(a, requester) && a.hash in index ==> index[a.hash] == a
    requires IsStart(tip, index, seq(|locator|, i requires 0 <= i < |locator| => locator[i].hash), s)
    ensures IsAncestor(s, requester) && IsAncestor(s, tip)
  {
  }
}
