/** The merkle tree in a linear array: leaves first, then each level of parents, the root
    last, unused slots nil.  It computes the level-by-level root in which a lone last
    child is paired with itself. */
module Merkle {
  import opened Types

  // Hashing the concatenation of two nodes.
  type Branch = (Hash, Hash) -> Hash

  /** The level-by-level definition */

  function Parents(f: Branch, s: seq<Hash>): (r: seq<Hash>)
    ensures |r| == (|s| + 1) / 2
  {
    seq((|s| + 1) / 2,
        i requires 0 <= i < (|s| + 1) / 2 => f(s[2 * i], if 2 * i + 1 < |s| then s[2 * i + 1] else s[2 * i]))
  }

  function Root(f: Branch, s: seq<Hash>): Hash
    requires |s| >= 1
    decreases |s|
  {
    if |s| == 1 then s[0] else Root(f, Parents(f, s))
  }

  function Level(f: Branch, s: seq<Hash>, k: nat): seq<Hash>
    decreases k
  {
    if k == 0 then s else Level(f, Parents(f, s), k - 1)
  }

  /** The array form */

  predicate IsPowerOfTwo(w: nat)
    decreases w
  {
    w == 1 || (w > 1 && w % 2 == 0 && IsPowerOfTwo(w / 2))
  }

  // The least power of two that is not below n.
  predicate Fits(n: nat, w: nat) {
    IsPowerOfTwo(w) && 1 <= n <= w < 2 * n
  }

  function NextPowerOfTwo(n: nat): (w: nat)
    requires n >= 1
    ensures Fits(n, w)
  {
    if n == 1 then 1
    else
      var v := NextPowerOfTwo((n + 1) / 2);
      FitsDouble(n, v);
      2 * v
  }

  lemma FitsDouble(n: nat, v: nat)
    requires n > 1 && Fits((n + 1) / 2, v)
    ensures Fits(n, 2 * v)
  {
    HalfPower(v);
    DoublePower(v);
    hide IsPowerOfTwo;
    var m, h := (n + 1) / 2, v / 2;
    assert 2 * m == n || 2 * m == n + 1;
    assert v == 1 || v == 2 * h;
  }

  lemma DoublePower(v: nat)
    requires IsPowerOfTwo(v)
    ensures IsPowerOfTwo(2 * v)
  {
    assert 2 * v / 2 == v;
  }

  function Pad(s: seq<Hash>, w: nat): (r: seq<Option<Hash>>)
    requires |s| <= w
    ensures |r| == w
  {
    seq(w, i requires 0 <= i < w => if i < |s| then Some(s[i]) else None)
  }

  function Tree(f: Branch, s: seq<Hash>, w: nat): (t: seq<Option<Hash>>)
    requires IsPowerOfTwo(w) && |s| <= w
    ensures |t| == 2 * w - 1
    decreases w
  {
    if w == 1 then Pad(s, 1) else Pad(s, w) + Tree(f, Parents(f, s), w / 2)
  }

  function Join(f: Branch, l: Option<Hash>, r: Option<Hash>): Option<Hash> {
    if l.None? then None else if r.None? then Some(f(l.value, l.value)) else Some(f(l.value, r.value))
  }

  // Every parent slot is the join of its two child slots.
  lemma {:induction false} TreeJoins(f: Branch, s: seq<Hash>, w: nat, j: nat)
    requires IsPowerOfTwo(w) && |s| <= w && j < w - 1
    ensures Tree(f, s, w)[w + j] == Join(f, Tree(f, s, w)[2 * j], Tree(f, s, w)[2 * j + 1])
    decreases w
  {
    hide IsPowerOfTwo, Pad, Join, Tree, Parents;
    HalfPower(w);
    TreeTail(f, s, w, j);
    if j < w / 2 {
      TreeFront(f, Parents(f, s), w / 2, j);
      TreeFront(f, s, w, 2 * j);
      TreeFront(f, s, w, 2 * j + 1);
      PadJoins(f, s, w, j);
    } else {
      TreeTail(f, s, w, 2 * j - w);
      TreeTail(f, s, w, 2 * j + 1 - w);
      TreeJoins(f, Parents(f, s), w / 2, j - w / 2);
    }
  }

  lemma HalfPower(w: nat)
    requires IsPowerOfTwo(w)
    ensures w > 1 ==> w % 2 == 0 && IsPowerOfTwo(w / 2) && w == 2 * (w / 2)
  {
  }

  lemma TreeHead(f: Branch, s: seq<Hash>, w: nat)
    requires IsPowerOfTwo(w) && |s| <= w
    ensures Tree(f, s, w)[..w] == Pad(s, w)
  {
    hide Pad;
    if w > 1 {
      var p, t := Pad(s, w), Tree(f, Parents(f, s), w / 2);
      assert (p + t)[..w] == p;
    } else {
      assert Pad(s, 1)[..1] == Pad(s, 1);
    }
  }

  lemma TreeFront(f: Branch, s: seq<Hash>, w: nat, i: nat)
    requires IsPowerOfTwo(w) && |s| <= w && i < w
    ensures Tree(f, s, w)[i] == Pad(s, w)[i]
  {
    hide Tree, Pad, IsPowerOfTwo;
    TreeHead(f, s, w);
    assert Tree(f, s, w)[i] == Tree(f, s, w)[..w][i];
  }

  lemma PadJoins(f: Branch, s: seq<Hash>, w: nat, j: nat)
    requires w % 2 == 0 && |s| <= w && j < w / 2
    ensures Pad(Parents(f, s), w / 2)[j] == Join(f, Pad(s, w)[2 * j], Pad(s, w)[2 * j + 1])
  {
  }

  // The last slot is the root.
  lemma {:induction false} TreeRoot(f: Branch, s: seq<Hash>, w: nat)
    requires Fits(|s|, w)
    ensures Tree(f, s, w)[2 * w - 2] == Some(Root(f, s))
    decreases w
  {
    if w > 1 {
      HalfPower(w);
      TreeRoot(f, Parents(f, s), w / 2);
      var p, t := Pad(s, w), Tree(f, Parents(f, s), w / 2);
      assert (p + t)[2 * w - 2] == t[w - 2];
    }
  }

  // Where level k starts and how wide it is.
  function Width(w: nat, k: nat): nat {
    if k == 0 then w else Width(w / 2, k - 1)
  }

  function Start(w: nat, k: nat): nat {
    if k == 0 then 0 else w + Start(w / 2, k - 1)
  }

  // Slot i of level k holds that level's node i, and is nil exactly past its last node.
  lemma {:induction false} TreeLevel(f: Branch, s: seq<Hash>, w: nat, k: nat, i: nat)
    requires IsPowerOfTwo(w) && |s| <= w && i < Width(w, k)
    ensures Start(w, k) + i < 2 * w - 1
    ensures var live := Level(f, s, k);
      Tree(f, s, w)[Start(w, k) + i] == if i < |live| then Some(live[i]) else None
    decreases k
  {
    hide IsPowerOfTwo, Tree, Pad, Level, Parents;
    HalfPower(w);
    LevelStep(f, s, k);
    if k == 0 {
      TreeSlot(f, s, w, i);
    } else if w > 1 {
      TreeLevel(f, Parents(f, s), w / 2, k - 1, i);
      TreeTail(f, s, w, Start(w / 2, k - 1) + i);
    } else {
      NoWidth(k - 1);
    }
  }

  lemma LevelStep(f: Branch, s: seq<Hash>, k: nat)
    ensures Level(f, s, k) == if k == 0 then s else Level(f, Parents(f, s), k - 1)
  {
  }

  lemma TreeSlot(f: Branch, s: seq<Hash>, w: nat, i: nat)
    requires IsPowerOfTwo(w) && |s| <= w && i < w
    ensures Tree(f, s, w)[i] == if i < |s| then Some(s[i]) else None
  {
    hide IsPowerOfTwo, Tree;
    TreeFront(f, s, w, i);
  }

  lemma TreeTail(f: Branch, s: seq<Hash>, w: nat, x: nat)
    requires IsPowerOfTwo(w) && w > 1 && |s| <= w && x < w - 1
    ensures |Parents(f, s)| <= w / 2 && |Tree(f, Parents(f, s), w / 2)| == w - 1
    ensures Tree(f, s, w)[w + x] == Tree(f, Parents(f, s), w / 2)[x]
  {
    HalfPower(w);
    hide Pad, IsPowerOfTwo;
    var p, t := Pad(s, w), Tree(f, Parents(f, s), w / 2);
    assert (p + t)[w + x] == t[x];
  }

  lemma {:induction false} NoWidth(k: nat)
    ensures Width(0, k) == 0
  {
    if k > 0 {
      NoWidth(k - 1);
    }
  }

  /** Building it with one moving offset */

  // With the witness flag the coinbase counts as the zero hash.
  function Leaves(txids: seq<Hash>, wtxids: seq<Hash>, forWitness: bool): (r: seq<Hash>)
    requires |txids| == |wtxids|
    ensures |r| == |txids|
  {
    if !forWitness then txids
    else seq(|wtxids|, i requires 0 <= i < |wtxids| => if i == 0 then ZERO_HASH else wtxids[i])
  }

  method FillLeaves(merkles: array<Option<Hash>>, txids: seq<Hash>, wtxids: seq<Hash>, forWitness: bool, w: nat)
    requires |txids| == |wtxids| <= w <= merkles.Length
    requires forall i :: 0 <= i < merkles.Length ==> merkles[i] == None
    modifies merkles
    ensures merkles[..w] == Pad(Leaves(txids, wtxids, forWitness), w)
  {
    for i := 0 to |txids|
      invariant forall j :: 0 <= j < merkles.Length ==>
        merkles[j] == if j < i then Some(Leaves(txids, wtxids, forWitness)[j]) else None
    {
      if forWitness && i == 0 {
        merkles[i] := Some(ZERO_HASH);
      } else if forWitness {
        merkles[i] := Some(wtxids[i]);
      } else {
        merkles[i] := Some(txids[i]);
      }
    }
  }

  method BuildMerkleTreeStore(f: Branch, txids: seq<Hash>, wtxids: seq<Hash>, forWitness: bool)
    returns (merkles: array<Option<Hash>>)
    requires |txids| == |wtxids| >= 1
    ensures merkles.Length == 2 * NextPowerOfTwo(|txids|) - 1
    ensures merkles[..] == Tree(f, Leaves(txids, wtxids, forWitness), NextPowerOfTwo(|txids|))
    ensures merkles[merkles.Length - 1] == Some(Root(f, if forWitness then [ZERO_HASH] + wtxids[1..] else txids))
    ensures forall i :: 0 <= i < |txids| <= merkles.Length ==>
      merkles[i] == Some(if !forWitness then txids[i] else if i == 0 then ZERO_HASH else wtxids[i])
    ensures forall j :: 0 <= j && 2 * j + 1 < NextPowerOfTwo(|txids|) + j < merkles.Length ==>
      merkles[NextPowerOfTwo(|txids|) + j] ==
        if merkles[2 * j].None? then None
        else if merkles[2 * j + 1].None? then Some(f(merkles[2 * j].value, merkles[2 * j].value))
        else Some(f(merkles[2 * j].value, merkles[2 * j + 1].value))
  {
    hide IsPowerOfTwo, Tree, Pad, Leaves, Root, NextPowerOfTwo;
    var w := NextPowerOfTwo(|txids|);
    var size := w * 2 - 1;
    merkles := new Option<Hash>[size](_ => None);
    ghost var s := Leaves(txids, wtxids, forWitness);
    FillLeaves(merkles, txids, wtxids, forWitness, w);
    FillParents(f, merkles, s, w);
    TreeRoot(f, s, w);
    WitnessLeaves(txids, wtxids);
    TreeSlots(f, txids, wtxids, forWitness, w);
    assert forall i :: 0 <= i < size ==> merkles[i] == merkles[..][i];
  }

  // The parents, level after level, with one moving offset.
  method FillParents(f: Branch, merkles: array<Option<Hash>>, ghost s: seq<Hash>, w: nat)
    requires IsPowerOfTwo(w) && |s| <= w && merkles.Length == 2 * w - 1 && merkles[..w] == Pad(s, w)
    modifies merkles
    ensures merkles[..] == Tree(f, s, w)
  {
    hide IsPowerOfTwo, Tree, Pad;
    var size := w * 2 - 1;
    ghost var t := Tree(f, s, w);
    TreeHead(f, s, w);
    var offset: int, i: int := w, 0;
    while i < size - 1
      invariant w <= offset && 0 <= i <= size - 1 && i == 2 * (offset - w) && merkles.Length == size
      invariant merkles[..offset] == t[..offset]
      decreases size - i
    {
      TreeJoins(f, s, w, offset - w);
      PrefixAgrees(merkles[..], t, offset, i);
      ghost var before := merkles[..];
      if merkles[i].None? {
        merkles[offset] := None;
      } else if merkles[i + 1].None? {
        merkles[offset] := Some(f(merkles[i].value, merkles[i].value));
      } else {
        merkles[offset] := Some(f(merkles[i].value, merkles[i + 1].value));
      }
      PrefixNext(before, merkles[..], t, offset);
      offset := offset + 1;
      i := i + 2;
    }
    assert merkles[..size] == merkles[..] && t[..size] == t;
  }

  lemma WitnessLeaves(txids: seq<Hash>, wtxids: seq<Hash>)
    requires |txids| == |wtxids| >= 1
    ensures Leaves(txids, wtxids, true) == [ZERO_HASH] + wtxids[1..]
    ensures Leaves(txids, wtxids, false) == txids
  {
  }

  // What the slots hold: the ids asked for, and the joins of the slots below.
  lemma TreeSlots(f: Branch, txids: seq<Hash>, wtxids: seq<Hash>, forWitness: bool, w: nat)
    requires |txids| == |wtxids| >= 1 && Fits(|txids|, w)
    ensures var t := Tree(f, Leaves(txids, wtxids, forWitness), w);
      && (forall i :: 0 <= i < |txids| ==>
            t[i] == Some(if !forWitness then txids[i] else if i == 0 then ZERO_HASH else wtxids[i]))
      && (forall j :: 0 <= j && 2 * j + 1 < w + j < |t| ==>
            t[w + j] == if t[2 * j].None? then None
                        else if t[2 * j + 1].None? then Some(f(t[2 * j].value, t[2 * j].value))
                        else Some(f(t[2 * j].value, t[2 * j + 1].value)))
  {
    hide Tree, IsPowerOfTwo;
    var s := Leaves(txids, wtxids, forWitness);
    forall i | 0 <= i < |txids|
      ensures Tree(f, s, w)[i] == Some(if !forWitness then txids[i] else if i == 0 then ZERO_HASH else wtxids[i])
    {
      TreeSlot(f, s, w, i);
    }
    forall j | 0 <= j && 2 * j + 1 < w + j < |Tree(f, s, w)|
      ensures Tree(f, s, w)[w + j] == Join(f, Tree(f, s, w)[2 * j], Tree(f, s, w)[2 * j + 1])
    {
      TreeJoins(f, s, w, j);
    }
  }

  // Three leaves: the lone last one is joined with itself.
  lemma RootOfThree(f: Branch, a: Hash, b: Hash, c: Hash)
    ensures Root(f, [a]) == a && Root(f, [a, b]) == f(a, b) && Root(f, [a, b, c]) == f(f(a, b), f(c, c))
  {
    assert Parents(f, [a, b]) == [f(a, b)];
    assert Parents(f, [a, b, c]) == [f(a, b), f(c, c)];
    assert Parents(f, [f(a, b), f(c, c)]) == [f(f(a, b), f(c, c))];
    assert Root(f, [f(a, b), f(c, c)]) == Root(f, [f(f(a, b), f(c, c))]);
    assert Root(f, [a, b]) == Root(f, [f(a, b)]);
  }

  lemma PrefixAgrees(m: seq<Option<Hash>>, t: seq<Option<Hash>>, n: nat, i: nat)
    requires |m| == |t| && i + 1 < n <= |m| && m[..n] == t[..n]
    ensures m[i] == t[i] && m[i + 1] == t[i + 1]
  {
    assert m[i] == m[..n][i] && m[i + 1] == m[..n][i + 1];
  }

  lemma PrefixNext(m: seq<Option<Hash>>, m': seq<Option<Hash>>, t: seq<Option<Hash>>, n: nat)
    requires |m| == |t| && n < |m| && m[..n] == t[..n] && m' == m[n := t[n]]
    ensures m'[..n + 1] == t[..n + 1]
  {
    assert m'[..n + 1] == m[..n] + [t[n]];
  }
}
