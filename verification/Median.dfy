/** The past median time of a node, and why it never goes backwards on a chain whose
    headers pass the timestamp rule. */
module Median {
  import opened Types
  import opened BlockTree

  const MEDIAN_TIME_BLOCKS: nat := 11

  // Timestamps of the node and its ancestors, at most k of them, newest first.
  function Timestamps(n: BlockNode, k: nat): (s: seq<int>)
    ensures k > 0 ==> s != []
    ensures |s| <= k
    decreases k
  {
    if k == 0 then []
    else if n.parent.None? then [n.timestamp]
    else [n.timestamp] + Timestamps(n.parent.value, k - 1)
  }

  predicate Sorted(s: seq<int>) {
    forall i, j :: 0 <= i < j < |s| ==> s[i] <= s[j]
  }

  function Insert(x: int, s: seq<int>): (r: seq<int>)
    ensures |r| == |s| + 1
  {
    if s == [] then [x]
    else if x <= s[0] then [x] + s
    else [s[0]] + Insert(x, s[1..])
  }

  function Sort(s: seq<int>): (r: seq<int>)
    ensures |r| == |s|
  {
    if s == [] then [] else Insert(s[0], Sort(s[1..]))
  }

  // How many entries are at least m.
  function CountGe(s: seq<int>, m: int): nat {
    if s == [] then 0 else (if s[0] >= m then 1 else 0) + CountGe(s[1..], m)
  }

  lemma {:induction false} InsertFacts(x: int, s: seq<int>, m: int)
    ensures CountGe(Insert(x, s), m) == CountGe(s, m) + if x >= m then 1 else 0
    ensures Sorted(s) ==> Sorted(Insert(x, s))
    ensures forall y :: y in Insert(x, s) <==> y == x || y in s
  {
    if s == [] {
    } else if x <= s[0] {
      assert ([x] + s)[1..] == s;
    } else {
      InsertFacts(x, s[1..], m);
      assert ([s[0]] + Insert(x, s[1..]))[1..] == Insert(x, s[1..]);
      var r := Insert(x, s);
      if Sorted(s) {
        forall i, j | 0 <= i < j < |r|
          ensures r[i] <= r[j]
        {
          if i == 0 { assert r[j] in Insert(x, s[1..]); }
        }
      }
    }
  }

  lemma {:induction false} SortFacts(s: seq<int>, m: int)
    ensures Sorted(Sort(s)) && CountGe(Sort(s), m) == CountGe(s, m)
  {
    if s != [] {
      SortFacts(s[1..], m);
      InsertFacts(s[0], Sort(s[1..]), m);
    }
  }

  lemma {:induction false} CountBounds(s: seq<int>, m: int)
    ensures CountGe(s, m) <= |s|
    ensures Sorted(s) && s != [] && s[0] >= m ==> CountGe(s, m) == |s|
  {
    if s != [] {
      CountBounds(s[1..], m);
    }
  }

  // In a sorted sequence, position i holds at least m exactly when the entries from i
  // on are that many.
  lemma {:induction false} SortedCount(s: seq<int>, m: int, i: nat)
    requires Sorted(s) && i < |s|
    ensures s[i] >= m <==> CountGe(s, m) >= |s| - i
  {
    CountBounds(s, m);
    if i > 0 {
      SortedCount(s[1..], m, i - 1);
      if s[0] >= m {
        assert s[i] >= s[0];
      }
    } else {
      CountBounds(s[1..], m);
    }
  }

  function MedianTime(n: BlockNode): int {
    var times := Sort(Timestamps(n, MEDIAN_TIME_BLOCKS));
    times[|times| / 2]
  }

  /** The median by rank */

  // Heights of the last k blocks whose timestamp is at least x.
  function NotBefore(n: BlockNode, k: nat, x: int): set<int> {
    set h: int | n.height - k < h <= n.height && 0 <= h < |Path(n)| && Path(n)[h].timestamp >= x
  }

  // One block more.
  lemma {:induction false} NotBeforeNext(n: BlockNode, k: nat, x: int)
    requires WellFormed(n) && k > 0
    ensures NotBefore(n, k, x) == (if n.parent.None? then {} else NotBefore(n.parent.value, k - 1, x))
                                  + if n.timestamp >= x then {n.height} else {}
    ensures n.parent.Some? ==> n.height !in NotBefore(n.parent.value, k - 1, x)
  {
    PathShape(n);
    if n.parent.Some? {
      var p := n.parent.value;
      PathShape(p);
      assert forall h: int :: 0 <= h < n.height ==> Path(p)[h] == Path(n)[h];
    }
    assert Path(n)[n.height] == n;
  }

  lemma {:induction false} TimestampsCounted(n: BlockNode, k: nat, x: int)
    requires WellFormed(n)
    ensures |Timestamps(n, k)| == if k <= n.height then k else n.height + 1
    ensures CountGe(Timestamps(n, k), x) == |NotBefore(n, k, x)|
    decreases k
  {
    PathShape(n);
    if k == 0 {
      assert NotBefore(n, 0, x) == {};
    } else {
      NotBeforeNext(n, k, x);
      if n.parent.Some? {
        TimestampsCounted(n.parent.value, k - 1, x);
        assert Timestamps(n, k)[1..] == Timestamps(n.parent.value, k - 1);
      }
    }
  }

  /** The median reaches x exactly when at least half of the last eleven timestamps do, or
      of all of them near the genesis; of an even number the upper one of the middle two
      counts. */
  lemma {:induction false} MedianRank(n: BlockNode, x: int)
    requires WellFormed(n)
    ensures var k := if n.height < 10 then n.height + 1 else 11;
      MedianTime(n) >= x <==> |NotBefore(n, 11, x)| >= k - k / 2
  {
    var times := Timestamps(n, MEDIAN_TIME_BLOCKS);
    TimestampsCounted(n, MEDIAN_TIME_BLOCKS, x);
    SortFacts(times, x);
    SortedCount(Sort(times), x, |times| / 2);
  }

  // CalcPastMedianTime: gather, sort, take the middle (the upper one of two).
  method CalcPastMedianTime(node: BlockNode) returns (median: int)
    ensures median == MedianTime(node)
  {
    var timestamps: seq<int> := [];
    var iter := Some(node);
    var i := 0;
    while i < MEDIAN_TIME_BLOCKS && iter.Some?
      invariant 0 <= i <= MEDIAN_TIME_BLOCKS
      invariant i == 0 ==> iter.Some?
      invariant timestamps + (if iter.Some? then Timestamps(iter.value, MEDIAN_TIME_BLOCKS - i) else [])
             == Timestamps(node, MEDIAN_TIME_BLOCKS)
    {
      timestamps := timestamps + [iter.value.timestamp];
      iter := iter.value.parent;
      i := i + 1;
    }
    assert timestamps + [] == timestamps;
    var times := Sort(timestamps);
    median := times[|times| / 2];
  }

  lemma {:induction false} LongerWindow(n: BlockNode, k: nat, m: int)
    ensures var a, b := Timestamps(n, k), Timestamps(n, k + 1);
      && |a| <= |b| <= |a| + 1
      && (|b| == |a| + 1 ==> |a| == k)
      && CountGe(a, m) + |b| - |a| >= CountGe(b, m) >= CountGe(a, m)
    decreases k
  {
    var a, b := Timestamps(n, k), Timestamps(n, k + 1);
    if k == 0 {
      assert b == [n.timestamp];
    } else if n.parent.Some? {
      LongerWindow(n.parent.value, k - 1, m);
      assert a[1..] == Timestamps(n.parent.value, k - 1) && b[1..] == Timestamps(n.parent.value, k);
    }
  }

  /** One block: a timestamp past the parent's median keeps the median from falling,
      with eleven timestamps and with the shorter windows near the genesis alike. */
  lemma MedianStep(n: BlockNode)
    requires n.parent.Some? && n.timestamp > MedianTime(n.parent.value)
    ensures MedianTime(n) >= MedianTime(n.parent.value)
  {
    var p := n.parent.value;
    var m := MedianTime(p);
    var was, now := Timestamps(p, MEDIAN_TIME_BLOCKS), Timestamps(n, MEDIAN_TIME_BLOCKS);
    var kept := Timestamps(p, MEDIAN_TIME_BLOCKS - 1);
    LongerWindow(p, MEDIAN_TIME_BLOCKS - 1, m);
    assert now == [n.timestamp] + kept && now[1..] == kept;
    SortFacts(was, m);
    SortFacts(now, m);
    SortedCount(Sort(was), m, |was| / 2);
    SortedCount(Sort(now), m, |now| / 2);
  }

  // Every header on the branch passed the timestamp rule against its parent.
  predicate TimesAdvance(n: BlockNode) {
    n.parent.Some? ==> n.timestamp > MedianTime(n.parent.value) && TimesAdvance(n.parent.value)
  }

  /** Along such a branch the past median never decreases. */
  lemma {:induction false} MedianMonotone(n: BlockNode, i: nat, j: nat)
    requires WellFormed(n) && TimesAdvance(n) && i <= j <= n.height
    ensures |Path(n)| == n.height + 1
    ensures MedianTime(Path(n)[i]) <= MedianTime(Path(n)[j])
  {
    PathShape(n);
    if i < n.height {
      var p := n.parent.value;
      PathShape(p);
      assert forall k :: 0 <= k <= p.height ==> Path(n)[k] == Path(p)[k];
      if j < n.height {
        MedianMonotone(p, i, j);
      } else {
        MedianMonotone(p, i, j - 1);
        MedianStep(n);
      }
    }
  }

  // checkBlockHeaderContext: the rule that TimesAdvance records.
  method CheckTimestamp(timestamp: int, prev: Option<BlockNode>) returns (ok: bool)
    ensures ok <==> prev.Some? ==> timestamp > MedianTime(prev.value)
  {
    if prev.None? {
      return true;
    }
    var median := CalcPastMedianTime(prev.value);
    ok := timestamp > median;
  }
}
