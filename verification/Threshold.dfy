/** Deployment voting.  The memoised backwards-then-forwards computation of a threshold
    state is proved equal to a recursive definition from any coherent cache, and that
    definition equal to the plain state machine of BIP 9 ("State transitions") on chains
    whose past median never decreases. */
module Threshold {
  import opened Types
  import opened BlockTree
  import opened Median
  import opened Arith

  datatype ThresholdState = Defined | Started | LockedIn | Active | Failed

  // thresholdConditionChecker; vote yields None when the condition cannot be evaluated.
  datatype Checker = Checker(begin: nat, end: nat, threshold: nat, window: nat, vote: BlockNode -> Option<bool>)

  // Last block of a confirmation window.
  predicate WindowEnd(c: Checker, n: BlockNode) {
    c.window > 0 && WellFormed(n) && (n.height + 1) % c.window == 0
  }

  // Last block of the window before.
  function PrevWindow(c: Checker, n: BlockNode): (r: Option<BlockNode>)
    requires WindowEnd(c, n)
    ensures r.Some? ==> WindowEnd(c, r.value) && 0 <= r.value.height == n.height - c.window
    ensures r.Some? <==> n.height >= c.window
  {
    PathShape(n);
    if n.height >= c.window then
      WindowsApart(n.height + 1, c.window);
      Some(Path(n)[n.height - c.window])
    else None
  }

  lemma WindowsApart(x: int, w: int)
    requires w > 0 && x % w == 0
    ensures (x - w) % w == 0
  {
    AddMod(x - w, w);
  }

  // Votes among n and its k - 1 predecessors; None as soon as one cannot be evaluated.
  function Votes(c: Checker, n: BlockNode, k: nat): Option<nat>
    requires WellFormed(n) && k <= n.height + 1
    decreases k
  {
    if k == 0 then Some(0)
    else
      var v := c.vote(n);
      if k == 1 then
        if v.None? then None else Some(if v.value then 1 else 0)
      else
        var rest := Votes(c, n.parent.value, k - 1);
        if v.None? || rest.None? then None else Some(rest.value + if v.value then 1 else 0)
  }

  function Advance(c: Checker, s: ThresholdState, n: BlockNode): Option<ThresholdState>
    requires WindowEnd(c, n) && n.height + 1 >= c.window
  {
    var median := MedianTime(n);
    match s
    case Defined => Some(if median >= c.end then Failed else if median >= c.begin then Started else Defined)
    case Started =>
      if median >= c.end then Some(Failed)
      else
        var count := Votes(c, n, c.window);
        if count.None? then None else Some(if count.value >= c.threshold then LockedIn else Started)
    case LockedIn => Some(Active)
    case Active => Some(Active)
    case Failed => Some(Failed)
  }

  lemma {:induction false} WindowFull(c: Checker, n: BlockNode)
    requires WindowEnd(c, n)
    ensures n.height + 1 >= c.window
  {
    PathShape(n);
    RoundDown(n.height + 1, c.window);
  }

  /** The recursive definition the memoised code follows: a window that ends before the
      start time is Defined outright. */
  function StateOf(c: Checker, n: BlockNode): Option<ThresholdState>
    requires WindowEnd(c, n)
    decreases n.height
  {
    if MedianTime(n) < c.begin then Some(Defined)
    else
      var prev := PrevWindow(c, n);
      var s := if prev.None? then Some(Defined) else StateOf(c, prev.value);
      WindowFull(c, n);
      if s.None? then None else Advance(c, s.value, n)
  }

  function BaseState(c: Checker, prev: Option<BlockNode>): Option<ThresholdState>
    requires prev.Some? ==> WindowEnd(c, prev.value)
  {
    if prev.None? then Some(Defined) else StateOf(c, prev.value)
  }

  // End of the window before the one that contains the block after n.
  function EnclosingEnd(c: Checker, n: BlockNode): (r: BlockNode)
    requires c.window > 0 && WellFormed(n) && n.height + 1 >= c.window
    ensures WindowEnd(c, r)
  {
    PathShape(n);
    RoundDown(n.height + 1, c.window);
    Path(n)[n.height - (n.height + 1) % c.window]
  }

  // The state of the block after prev.
  function StateAfter(c: Checker, prev: Option<BlockNode>): Option<ThresholdState>
    requires c.window > 0 && (prev.Some? ==> WellFormed(prev.value))
  {
    if prev.None? || prev.value.height + 1 < c.window then Some(Defined)
    else StateOf(c, EnclosingEnd(c, prev.value))
  }

  /** The cache and the computation */

  predicate CacheCoherent(c: Checker, entries: map<BlockNode, ThresholdState>) {
    forall n :: n in entries ==> WindowEnd(c, n) && StateOf(c, n) == Some(entries[n])
  }

  // Window ends still to be computed, newest first, each a window after the next, the
  // last one a window after cur.
  ghost predicate Pending(c: Checker, needed: seq<BlockNode>, cur: Option<BlockNode>) {
    && (cur.Some? ==> WindowEnd(c, cur.value))
    && (forall i :: 0 <= i < |needed| ==> WindowEnd(c, needed[i]) && MedianTime(needed[i]) >= c.begin)
    && (forall i :: 0 <= i < |needed| ==> PrevWindow(c, needed[i]) == At(needed, cur, i + 1))
  }

  function At(needed: seq<BlockNode>, cur: Option<BlockNode>, i: nat): Option<BlockNode> {
    if i < |needed| then Some(needed[i]) else cur
  }

  lemma PendingEnds(c: Checker, needed: seq<BlockNode>, cur: Option<BlockNode>)
    requires Pending(c, needed, cur)
    ensures forall k: nat :: At(needed, cur, k).Some? ==> WindowEnd(c, At(needed, cur, k).value)
  {
    hide WindowEnd, PrevWindow, MedianTime;
  }

  // The state of pending window k from the state of the window before it.
  lemma {:induction false} PendingStep(c: Checker, needed: seq<BlockNode>, cur: Option<BlockNode>, k: nat)
    requires Pending(c, needed, cur) && k < |needed|
    ensures WindowEnd(c, needed[k]) && needed[k].height + 1 >= c.window
    ensures At(needed, cur, k + 1).Some? ==> WindowEnd(c, At(needed, cur, k + 1).value)
    ensures var s := BaseState(c, At(needed, cur, k + 1));
      StateOf(c, needed[k]) == if s.None? then None else Advance(c, s.value, needed[k])
  {
    hide MedianTime, Path, Votes, WellFormed;
    WindowFull(c, needed[k]);
    assert PrevWindow(c, needed[k]) == At(needed, cur, k + 1);
  }

  // A window that cannot be evaluated leaves every later pending one unevaluated.
  lemma {:induction false} ErrorSpreads(c: Checker, needed: seq<BlockNode>, cur: Option<BlockNode>, k: nat)
    requires Pending(c, needed, cur) && k < |needed|
    requires WindowEnd(c, needed[k]) && StateOf(c, needed[k]) == None
    ensures WindowEnd(c, needed[0]) && StateOf(c, needed[0]) == None
  {
    hide StateOf, Pending, WindowEnd;
    if k > 0 {
      PendingStep(c, needed, cur, k - 1);
      ErrorSpreads(c, needed, cur, k - 1);
    }
  }

  lemma {:induction false} PendingStart(c: Checker, first: BlockNode)
    requires WindowEnd(c, first)
    ensures Pending(c, [], Some(first))
  {
  }

  lemma {:induction false} PendingEnd(c: Checker, needed: seq<BlockNode>, n: BlockNode)
    requires Pending(c, needed, Some(n))
    ensures WindowEnd(c, n) && WellFormed(n) && c.window > 0
    ensures |Path(n)| == n.height + 1 >= 1
  {
    PathShape(n);
  }

  lemma {:induction false} DefinedBeforeStart(c: Checker, n: BlockNode)
    requires WindowEnd(c, n) && MedianTime(n) < c.begin
    ensures StateOf(c, n) == Some(Defined)
  {
  }

  lemma {:induction false} PendingMore(c: Checker, needed: seq<BlockNode>, n: BlockNode)
    requires Pending(c, needed, Some(n)) && MedianTime(n) >= c.begin
    ensures Pending(c, needed + [n], PrevWindow(c, n))
    ensures At(needed + [n], PrevWindow(c, n), 0) == At(needed, Some(n), 0)
  {
    hide MedianTime, PrevWindow, WellFormed;
    var needed', cur' := needed + [n], PrevWindow(c, n);
    forall i | 0 <= i < |needed'|
      ensures WindowEnd(c, needed'[i]) && PrevWindow(c, needed'[i]) == At(needed', cur', i + 1)
    {
      if i < |needed| {
        assert PrevWindow(c, needed[i]) == At(needed, Some(n), i + 1);
      }
    }
  }

  class ThresholdStateCache {
    var entries: map<BlockNode, ThresholdState>

    constructor ()
      ensures entries == map[]
    {
      entries := map[];
    }

    method Update(n: BlockNode, s: ThresholdState)
      modifies this
      ensures entries == old(entries)[n := s]
    {
      entries := entries[n := s];
    }

    // Walk back over the windows whose state is unknown.
    method FindNeeded(c: Checker, first: BlockNode) returns (needed: seq<BlockNode>, cur: Option<BlockNode>)
      requires WindowEnd(c, first) && CacheCoherent(c, entries)
      modifies this
      ensures CacheCoherent(c, entries)
      ensures forall n :: n in old(entries) ==> n in entries && entries[n] == old(entries)[n]
      ensures Pending(c, needed, cur) && At(needed, cur, 0) == Some(first)
      ensures cur.Some? ==> cur.value in entries
    {
      hide StateOf, MedianTime, Pending;
      needed := [];
      cur := Some(first);
      PendingStart(c, first);
      while cur.Some?
        invariant Pending(c, needed, cur) && At(needed, cur, 0) == Some(first)
        invariant entries == old(entries)
        decreases if cur.Some? then cur.value.height + 1 else 0
      {
        var n := cur.value;
        PendingEnd(c, needed, n);
        if n in entries {
          return;
        }
        var median := CalcPastMedianTime(n);
        if median < c.begin {
          DefinedBeforeStart(c, n);
          Update(n, Defined);
          return;
        }
        var prev := RelativeAncestor(n, c.window);
        assert prev == PrevWindow(c, n);
        PendingMore(c, needed, n);
        needed := needed + [n];
        cur := prev;
      }
    }

    // The vote-counting walk: it never runs past the genesis.
    method CountVotes(c: Checker, n: BlockNode) returns (count: Option<nat>)
      requires WindowEnd(c, n)
      ensures n.height + 1 >= c.window && count == Votes(c, n, c.window)
    {
      WindowFull(c, n);
      var k := 0;
      var node := Some(n);
      var i := 0;
      while i < c.window
        invariant 0 <= i <= c.window
        invariant i < c.window ==> node.Some? && WellFormed(node.value) && node.value.height == n.height - i
        invariant i < c.window ==>
          Votes(c, n, c.window) == (var rest := Votes(c, node.value, c.window - i);
                                    if rest.None? then None else Some(k + rest.value))
        invariant i == c.window ==> Votes(c, n, c.window) == Some(k)
      {
        var v := c.vote(node.value);
        if v.None? {
          return None;
        }
        if v.value {
          k := k + 1;
        }
        node := node.value.parent;
        i := i + 1;
      }
      count := Some(k);
    }

    method AdvanceState(c: Checker, s: ThresholdState, n: BlockNode) returns (r: Option<ThresholdState>)
      requires WindowEnd(c, n)
      ensures n.height + 1 >= c.window && r == Advance(c, s, n)
    {
      WindowFull(c, n);
      match s
      case Defined =>
        var median := CalcPastMedianTime(n);
        if median >= c.end {
          return Some(Failed);
        }
        r := Some(if median >= c.begin then Started else s);
      case Started =>
        var median := CalcPastMedianTime(n);
        if median >= c.end {
          return Some(Failed);
        }
        var count := CountVotes(c, n);
        if count.None? {
          return None;
        }
        r := Some(if count.value >= c.threshold then LockedIn else s);
      case LockedIn => r := Some(Active);
      case Active => r := Some(s);
      case Failed => r := Some(s);
    }

    /** From any coherent cache the answer is the recursively defined state of the
        enclosing window, so it does not depend on what was asked before; the cache stays
        coherent.  None reports a vote that could not be evaluated. */
    method StateFor(prev: Option<BlockNode>, c: Checker) returns (r: Option<ThresholdState>)
      requires c.window > 0 && (prev.Some? ==> WellFormed(prev.value))
      requires CacheCoherent(c, entries)
      modifies this
      ensures r == StateAfter(c, prev)
      ensures CacheCoherent(c, entries)
      ensures forall n :: n in old(entries) ==> n in entries && entries[n] == old(entries)[n]
    {
      if prev.None? || prev.value.height + 1 < c.window {
        return Some(Defined);
      }
      PathShape(prev.value);
      RoundDown(prev.value.height + 1, c.window);
      var first := Ancestor(prev.value, prev.value.height - (prev.value.height + 1) % c.window);
      assert first.value == EnclosingEnd(c, prev.value);
      var needed, cur := FindNeeded(c, first.value);
      PendingEnds(c, needed, cur);
      r := ComputeNeeded(c, needed, cur);
    }

    // Compute and cache the pending windows, oldest first.
    method ComputeNeeded(c: Checker, needed: seq<BlockNode>, cur: Option<BlockNode>) returns (r: Option<ThresholdState>)
      requires Pending(c, needed, cur) && At(needed, cur, 0).Some? && WindowEnd(c, At(needed, cur, 0).value)
      requires CacheCoherent(c, entries) && (cur.Some? ==> cur.value in entries)
      modifies this
      ensures r == BaseState(c, At(needed, cur, 0))
      ensures CacheCoherent(c, entries)
      ensures forall n :: n in old(entries) ==> n in entries && entries[n] == old(entries)[n]
    {
      hide StateOf, MedianTime, WindowEnd, Advance, Pending, PrevWindow;
      var state := Defined;
      if cur.Some? {
        state := entries[cur.value];
      }
      var k := |needed|;
      PendingEnds(c, needed, cur);
      while k > 0
        invariant 0 <= k <= |needed|
        invariant BaseState(c, At(needed, cur, k)) == Some(state)
        invariant CacheCoherent(c, entries)
        invariant forall n :: n in old(entries) ==> n in entries && entries[n] == old(entries)[n]
      {
        k := k - 1;
        var n := needed[k];
        PendingStep(c, needed, cur, k);
        var next := AdvanceState(c, state, n);
        if next.None? {
          ErrorSpreads(c, needed, cur, k);
          return None;
        }
        state := next.value;
        Update(n, state);
      }
      r := Some(state);
    }
  }

  /** The plain state machine, without the start-time shortcut */
  function Bip9State(c: Checker, n: BlockNode): Option<ThresholdState>
    requires WindowEnd(c, n)
    decreases n.height
  {
    var prev := PrevWindow(c, n);
    var s := if prev.None? then Some(Defined) else Bip9State(c, prev.value);
    WindowFull(c, n);
    if s.None? then None else Advance(c, s.value, n)
  }

  lemma {:induction false} PrevMedian(c: Checker, n: BlockNode)
    requires WindowEnd(c, n) && TimesAdvance(n)
    ensures PrevWindow(c, n).Some? ==> TimesAdvance(PrevWindow(c, n).value)
                                       && MedianTime(PrevWindow(c, n).value) <= MedianTime(n)
  {
    PathShape(n);
    if n.height >= c.window {
      MedianMonotone(n, n.height - c.window, n.height);
      AncestorTimes(n, n.height - c.window);
    }
  }

  lemma {:induction false} AncestorTimes(n: BlockNode, i: nat)
    requires WellFormed(n) && TimesAdvance(n) && i <= n.height
    ensures |Path(n)| == n.height + 1 && TimesAdvance(Path(n)[i])
  {
    PathShape(n);
    if i < n.height {
      PathShape(n.parent.value);
      AncestorTimes(n.parent.value, i);
      assert Path(n)[i] == Path(n.parent.value)[i];
    }
  }

  /** On a branch that passes the timestamp rule, with the start not after the expiry, the
      shortcut changes nothing. */
  lemma {:induction false} ShortcutSound(c: Checker, n: BlockNode)
    requires WindowEnd(c, n) && TimesAdvance(n) && c.begin <= c.end
    ensures StateOf(c, n) == Bip9State(c, n)
    decreases n.height
  {
    var prev := PrevWindow(c, n);
    PrevMedian(c, n);
    WindowFull(c, n);
    if prev.Some? {
      ShortcutSound(c, prev.value);
    }
  }

  predicate Allowed(s: ThresholdState, t: ThresholdState) {
    match s
    case Defined => t == Defined || t == Started || t == Failed
    case Started => t == Started || t == LockedIn || t == Failed
    case LockedIn => t == Active
    case Active => t == Active
    case Failed => t == Failed
  }

  // Consecutive windows only take the documented transitions: in particular LockedIn
  // lasts exactly one window.
  lemma {:induction false} WindowTransition(c: Checker, n: BlockNode)
    requires WindowEnd(c, n) && TimesAdvance(n) && c.begin <= c.end
    requires n.height >= c.window && StateOf(c, n).Some?
    ensures var s := StateOf(c, PrevWindow(c, n).value);
      s.Some? && Allowed(s.value, StateOf(c, n).value)
  {
    PrevMedian(c, n);
    ShortcutSound(c, n);
    ShortcutSound(c, PrevWindow(c, n).value);
  }

  // a is a window end on the branch of n, k windows earlier.
  predicate WindowsBack(c: Checker, n: BlockNode, k: nat, a: BlockNode)
    requires WindowEnd(c, n)
    decreases k
  {
    if k == 0 then a == n
    else PrevWindow(c, n).Some? && WindowsBack(c, PrevWindow(c, n).value, k - 1, a)
  }

  /** Active and Failed are for ever. */
  lemma {:induction false} FinalStatesPermanent(c: Checker, n: BlockNode, k: nat, a: BlockNode)
    requires WindowEnd(c, n) && TimesAdvance(n) && c.begin <= c.end
    requires WindowsBack(c, n, k, a) && WindowEnd(c, a)
    requires StateOf(c, a) == Some(Active) || StateOf(c, a) == Some(Failed)
    ensures StateOf(c, n) == StateOf(c, a)
    decreases k
  {
    hide TimesAdvance, StateOf, WindowEnd, PrevWindow;
    if k > 0 {
      PrevMedian(c, n);
      FinalStatesPermanent(c, PrevWindow(c, n).value, k - 1, a);
      FinalStateStays(c, n);
    }
  }

  lemma {:induction false} FinalStateStays(c: Checker, n: BlockNode)
    requires WindowEnd(c, n) && TimesAdvance(n) && c.begin <= c.end && PrevWindow(c, n).Some?
    requires StateOf(c, PrevWindow(c, n).value) == Some(Active) || StateOf(c, PrevWindow(c, n).value) == Some(Failed)
    ensures StateOf(c, n) == StateOf(c, PrevWindow(c, n).value)
  {
    hide TimesAdvance, StateOf;
    PrevMedian(c, n);
    ShortcutSound(c, n);
    ShortcutSound(c, PrevWindow(c, n).value);
    WindowFull(c, n);
  }

  // Inside a window every block sees the state its predecessor saw.
  lemma {:induction false} ConstantWithinWindow(c: Checker, n: BlockNode)
    requires c.window > 0 && WellFormed(n) && n.parent.Some?
    requires (n.height + 1) % c.window != 0
    ensures StateAfter(c, Some(n)) == StateAfter(c, n.parent)
  {
    var p := n.parent.value;
    PathShape(n);
    PathShape(p);
    var x, w := n.height + 1, c.window;
    PredMod(x, w);
    RoundDown(x, w);
    if p.height + 1 >= w {
      assert EnclosingEnd(c, n) == EnclosingEnd(c, p);
    } else if x == w {
      DivModUnique(x, w, 1, 0);
    }
  }

  /** The transitions of a window, by counting voters */

  // Heights of the last k blocks of a branch that vote.
  function Voters(c: Checker, n: BlockNode, k: nat): set<int> {
    set h: int | n.height - k < h <= n.height && 0 <= h < |Path(n)| && c.vote(Path(n)[h]) == Some(true)
  }

  predicate AllEvaluated(c: Checker, n: BlockNode, k: nat) {
    forall h: int :: n.height - k < h <= n.height && 0 <= h < |Path(n)| ==> c.vote(Path(n)[h]).Some?
  }

  lemma {:induction false} VotesEvaluated(c: Checker, n: BlockNode, k: nat)
    requires WellFormed(n) && k <= n.height + 1
    ensures Votes(c, n, k).Some? <==> AllEvaluated(c, n, k)
    decreases k
  {
    PathShape(n);
    if k > 1 {
      var p := n.parent.value;
      PathShape(p);
      VotesEvaluated(c, p, k - 1);
      assert forall h: int :: 0 <= h < |Path(p)| ==> Path(p)[h] == Path(n)[h];
      assert Path(n)[n.height] == n;
    }
  }

  lemma {:induction false} VotesCounted(c: Checker, n: BlockNode, k: nat)
    requires WellFormed(n) && k <= n.height + 1 && Votes(c, n, k).Some?
    ensures Votes(c, n, k).value == |Voters(c, n, k)|
    decreases k
  {
    PathShape(n);
    if k == 0 {
      assert Voters(c, n, 0) == {};
    } else if k == 1 {
      VotersNext(c, n, 1, {});
    } else {
      VotesCounted(c, n.parent.value, k - 1);
      VotersBelow(c, n, k);
      VotersNext(c, n, k, Voters(c, n.parent.value, k - 1));
    }
  }

  lemma {:induction false} VotersBelow(c: Checker, n: BlockNode, k: nat)
    requires WellFormed(n) && 1 < k <= n.height + 1
    ensures forall h :: h in Voters(c, n.parent.value, k - 1) <==>
      n.height - k < h < n.height && 0 <= h < |Path(n)| - 1 && c.vote(Path(n)[h]) == Some(true)
  {
    PathShape(n);
    PathShape(n.parent.value);
    assert forall h: int :: 0 <= h < n.height ==> Path(n.parent.value)[h] == Path(n)[h];
  }

  // One block more.
  lemma {:induction false} VotersNext(c: Checker, n: BlockNode, k: nat, rest: set<int>)
    requires WellFormed(n) && 0 < k <= n.height + 1
    requires forall h :: h in rest <==> n.height - k < h < n.height && 0 <= h < |Path(n)| - 1
                                        && c.vote(Path(n)[h]) == Some(true)
    ensures |Voters(c, n, k)| == |rest| + if c.vote(n) == Some(true) then 1 else 0
  {
    PathShape(n);
    var vs := Voters(c, n, k);
    if c.vote(n) == Some(true) {
      assert vs == rest + {n.height};
    } else {
      assert vs == rest;
    }
  }

  // The state before the window that ends in n.
  function StateBefore(c: Checker, n: BlockNode): Option<ThresholdState>
    requires c.window > 0 && WellFormed(n)
  {
    PathShape(n);
    StateAfter(c, if n.height < c.window then None else Some(Path(n)[n.height - c.window]))
  }

  lemma {:induction false} AtWindowEnd(c: Checker, n: BlockNode)
    requires WindowEnd(c, n)
    ensures StateAfter(c, Some(n)) == StateOf(c, n)
    ensures StateBefore(c, n) == BaseState(c, PrevWindow(c, n))
  {
    hide StateOf;
    PathShape(n);
    WindowFull(c, n);
    AtOwnEnd(c, n);
    if n.height >= c.window {
      var q := PrevWindow(c, n).value;
      WindowFull(c, q);
      AtOwnEnd(c, q);
    }
  }

  lemma {:induction false} AtOwnEnd(c: Checker, n: BlockNode)
    requires WindowEnd(c, n) && n.height + 1 >= c.window
    ensures EnclosingEnd(c, n) == n
  {
    PathShape(n);
  }

  /** What the block after a window sees, from what the window's own blocks saw: Defined
      before the start, Failed from the expiry on if not locked in yet; otherwise a started
      deployment locks in exactly when at least the threshold of the window's blocks vote
      for it, becomes active one window later, and stays so. */
  lemma {:induction false} WindowDecides(c: Checker, n: BlockNode)
    requires c.window > 0 && WellFormed(n) && (n.height + 1) % c.window == 0
    ensures MedianTime(n) < c.begin ==> StateAfter(c, Some(n)) == Some(Defined)
    ensures MedianTime(n) >= c.begin && StateBefore(c, n) == Some(Defined) ==>
      StateAfter(c, Some(n)) == Some(if MedianTime(n) >= c.end then Failed else Started)
    ensures MedianTime(n) >= c.begin && StateBefore(c, n) == Some(Started) && MedianTime(n) >= c.end ==>
      StateAfter(c, Some(n)) == Some(Failed)
    ensures MedianTime(n) >= c.begin && StateBefore(c, n) == Some(Started) && MedianTime(n) < c.end ==>
      && (StateAfter(c, Some(n)).None? <==> !AllEvaluated(c, n, c.window))
      && (AllEvaluated(c, n, c.window) ==>
            StateAfter(c, Some(n)) == Some(if |Voters(c, n, c.window)| >= c.threshold then LockedIn else Started))
    ensures MedianTime(n) >= c.begin && (StateBefore(c, n) == Some(LockedIn) || StateBefore(c, n) == Some(Active)) ==>
      StateAfter(c, Some(n)) == Some(Active)
    ensures MedianTime(n) >= c.begin && StateBefore(c, n) == Some(Failed) ==> StateAfter(c, Some(n)) == Some(Failed)
    ensures MedianTime(n) >= c.begin && StateBefore(c, n).None? ==> StateAfter(c, Some(n)).None?
  {
    hide StateBefore, StateAfter, MedianTime, AllEvaluated;
    AtWindowEnd(c, n);
    WindowFull(c, n);
    VotesEvaluated(c, n, c.window);
    if Votes(c, n, c.window).Some? {
      VotesCounted(c, n, c.window);
    }
  }

  // The blocks of one window see one state.
  lemma {:induction false} SameWindow(c: Checker, n: BlockNode, a: BlockNode)
    requires c.window > 0 && WellFormed(n) && IsAncestor(a, n)
    requires (n.height + 1) / c.window == (a.height + 1) / c.window
    ensures WellFormed(a) && StateAfter(c, Some(n)) == StateAfter(c, Some(a))
  {
    hide StateOf;
    PathShape(n);
    OnBranch(a, n);
    SameStart(n.height + 1, a.height + 1, c.window);
    if n.height + 1 >= c.window {
      SameEnd(c, n, a);
    }
  }

  lemma {:induction false} SameEnd(c: Checker, n: BlockNode, a: BlockNode)
    requires c.window > 0 && WellFormed(n) && WellFormed(a) && IsAncestor(a, n)
    requires n.height + 1 >= c.window && a.height + 1 >= c.window
    requires (n.height + 1) - (n.height + 1) % c.window == (a.height + 1) - (a.height + 1) % c.window
    ensures EnclosingEnd(c, n) == EnclosingEnd(c, a)
  {
    hide WindowEnd;
    PathShape(n);
    PathShape(a);
    OnBranch(a, n);
    PathPrefix(n, a.height);
    RoundDown(a.height + 1, c.window);
    var e := a.height - (a.height + 1) % c.window;
    assert Path(a)[e] == Path(n)[..a.height + 1][e];
  }

  lemma SameStart(x: nat, y: nat, w: nat)
    requires w > 0 && x / w == y / w
    ensures x - x % w == y - y % w && (x >= w <==> y >= w)
  {
    if x < w {
      DivModUnique(x, w, 0, x);
    }
    if y < w {
      DivModUnique(y, w, 0, y);
    }
  }
}
