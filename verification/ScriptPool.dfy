/** The script-validation worker pool as a step system: one dispatching goroutine, a
    number of workers, two unbuffered channels and a quit channel.  Every interleaving is
    a run of these steps. */
module ScriptPool {
  // Where a validateHandler goroutine stands.
  datatype Worker =
    | Idle                           // selecting on validateChan and quitChan
    | Running(item: nat)             // executing the scripts of an item
    | Reporting(item: nat, ok: bool) // in sendResult
    | Exited

  datatype Main = Looping | Returned(failed: bool)

  datatype Pool = Pool(verdicts: seq<bool>,   // what the scripts of each item evaluate to
                       current: nat,          // currentItem: the next item to hand out
                       delivered: seq<nat>,   // items whose result was received; processedItems is its length
                       workers: seq<Worker>,
                       main: Main,
                       quit: bool)            // quitChan closed

  datatype Step = Send(w: nat) | Finish(w: nat) | Deliver(w: nat) | Abandon(w: nat) | Leave(w: nat)

  predicate Initial(s: Pool) {
    && |s.verdicts| > 0
    && s.current == 0 && s.delivered == [] && s.main == Looping && !s.quit
    && 1 <= |s.workers| <= |s.verdicts|
    && forall w :: 0 <= w < |s.workers| ==> s.workers[w] == Idle
  }

  // maxGoRoutines: three per processor, at least one, at most one per item.
  function Start(verdicts: seq<bool>, numCPU: int): (s: Pool)
    requires verdicts != []
    ensures Initial(s)
    ensures numCPU < 1 ==> |s.workers| == 1
    ensures numCPU >= 1 && 3 * numCPU <= |verdicts| ==> |s.workers| == 3 * numCPU
    ensures numCPU >= 1 && 3 * numCPU >= |verdicts| ==> |s.workers| == |verdicts|
  {
    var wanted := if numCPU * 3 <= 0 then 1 else numCPU * 3;
    var count := if wanted > |verdicts| then |verdicts| else wanted;
    Pool(verdicts, 0, [], seq(count, _ => Idle), Looping, false)
  }

  predicate Enabled(s: Pool, t: Step) {
    t.w < |s.workers| &&
    match t
    // validateChan is nil once every item has been handed out
    case Send(w) => s.main == Looping && s.current < |s.verdicts| && s.workers[w] == Idle
    case Finish(w) => s.workers[w].Running?
    case Deliver(w) => s.main == Looping && s.workers[w].Reporting?
    case Abandon(w) => s.quit && s.workers[w].Reporting?
    case Leave(w) => s.quit && s.workers[w] == Idle
  }

  function Verdict(s: Pool, i: nat): bool {
    i < |s.verdicts| && s.verdicts[i]
  }

  // A worker leaves its loop after reporting a failure.
  function AfterReport(ok: bool): Worker {
    if ok then Idle else Exited
  }

  function Next(s: Pool, t: Step): Pool
    requires Enabled(s, t)
  {
    match t
    case Send(w) => s.(workers := s.workers[w := Running(s.current)], current := s.current + 1)
    case Finish(w) =>
      var i := s.workers[w].item;
      s.(workers := s.workers[w := Reporting(i, Verdict(s, i))])
    case Deliver(w) =>
      var ok := s.workers[w].ok;
      var delivered := s.delivered + [s.workers[w].item];
      var stop := !ok || |delivered| == |s.verdicts|;
      s.(workers := s.workers[w := AfterReport(ok)], delivered := delivered,
         main := if stop then Returned(!ok) else Looping, quit := stop)
    case Abandon(w) => s.(workers := s.workers[w := AfterReport(s.workers[w].ok)])
    case Leave(w) => s.(workers := s.workers[w := Exited])
  }

  /** The invariant */

  predicate Busy(x: Worker) {
    x.Running? || x.Reporting?
  }

  predicate Holds(x: Worker, i: nat) {
    Busy(x) && x.item == i
  }

  ghost predicate Inv(s: Pool) {
    && (s.quit <==> s.main.Returned?)
    && s.current <= |s.verdicts|
    && |s.workers| > 0
    && ItemsTracked(s)
    && HonestReports(s)
    && (s.main == Looping ==> Unfinished(s))
    && (s.main.Returned? ==> (s.main.failed <==> exists i :: 0 <= i < |s.verdicts| && !s.verdicts[i]))
  }

  // No item is with two workers or both with a worker and delivered; only handed-out
  // items are anywhere.
  ghost predicate ItemsTracked(s: Pool) {
    && (forall w :: 0 <= w < |s.workers| && Busy(s.workers[w]) ==>
          s.workers[w].item < s.current && s.workers[w].item !in s.delivered)
    && (forall v, w :: 0 <= v < w < |s.workers| && Busy(s.workers[v]) && Busy(s.workers[w]) ==>
          s.workers[v].item != s.workers[w].item)
    && (forall k :: 0 <= k < |s.delivered| ==> s.delivered[k] < s.current)
    && (forall j, k :: 0 <= j < k < |s.delivered| ==> s.delivered[j] != s.delivered[k])
  }

  ghost predicate HonestReports(s: Pool) {
    forall w :: 0 <= w < |s.workers| && s.workers[w].Reporting? ==>
      s.workers[w].ok == Verdict(s, s.workers[w].item)
  }

  // While the dispatcher loops: no worker has left, every handed-out item is with a
  // worker or delivered, everything delivered succeeded, and not all is delivered.
  ghost predicate Unfinished(s: Pool) {
    && (forall w :: 0 <= w < |s.workers| ==> !s.workers[w].Exited?)
    && (forall i: nat :: i < s.current ==>
      i in s.delivered || exists w :: 0 <= w < |s.workers| && Holds(s.workers[w], i))
    && (forall k :: 0 <= k < |s.delivered| ==> Verdict(s, s.delivered[k]))
    && |s.delivered| < |s.verdicts|
  }

  lemma InitialInv(s: Pool)
    requires Initial(s)
    ensures Inv(s)
  {
  }

  lemma TrackedStep(s: Pool, t: Step)
    requires Inv(s) && Enabled(s, t)
    ensures ItemsTracked(Next(s, t)) && HonestReports(Next(s, t))
  {
    hide Unfinished;
    var w := t.w;
    var s' := Next(s, t);
    assert forall v :: 0 <= v < |s.workers| && v != w ==> s'.workers[v] == s.workers[v];
    assert t.Send? || Busy(s'.workers[w]) ==> t.Send? || s'.workers[w].item == s.workers[w].item;
    if t.Deliver? {
      forall j | 0 <= j < |s.delivered| ensures s.delivered[j] != s.workers[w].item {
        assert s.delivered[j] in s.delivered;
      }
    }
  }

  // A list of distinct numbers below n that is n long contains all of them.
  lemma {:induction false} Pigeonhole(d: seq<nat>, n: nat)
    requires forall k :: 0 <= k < |d| ==> d[k] < n
    requires forall j, k :: 0 <= j < k < |d| ==> d[j] != d[k]
    ensures |d| <= n
    ensures |d| == n ==> forall i: nat :: i < n ==> i in d
    decreases n
  {
    if d != [] {
      assert d[0] < n;
      var top := n - 1;
      if top in d {
        var p :| 0 <= p < |d| && d[p] == top;
        var rest := d[..p] + d[p + 1..];
        assert forall k :: 0 <= k < |rest| ==> rest[k] == d[if k < p then k else k + 1];
        Pigeonhole(rest, top);
        if |d| == n {
          forall i: nat | i < n
            ensures i in d
          {
            assert i < top ==> i in rest;
          }
        }
      } else {
        forall k | 0 <= k < |d| ensures d[k] < top { assert d[k] != top; }
        Pigeonhole(d, top);
      }
    }
  }

  lemma UnfinishedStep(s: Pool, t: Step)
    requires Inv(s) && Enabled(s, t) && Next(s, t).main == Looping
    ensures Unfinished(Next(s, t))
  {
    var w := t.w;
    var s' := Next(s, t);
    assert forall v :: 0 <= v < |s.workers| && v != w ==> s'.workers[v] == s.workers[v];
    forall i: nat | i < s'.current
      ensures i in s'.delivered || exists v :: 0 <= v < |s'.workers| && Holds(s'.workers[v], i)
    {
      if i < s.current && i !in s.delivered {
        var v :| 0 <= v < |s.workers| && Holds(s.workers[v], i);
        if v != w {
          assert Holds(s'.workers[v], i);
        } else if t.Finish? {
          assert Holds(s'.workers[w], i);
        } else {
          assert t.Deliver? && s'.delivered[|s.delivered|] == i;
        }
      } else if i == s.current {
        assert Holds(s'.workers[w], i);
      }
    }
  }

  // The result returned is the conjunction of the verdicts.
  lemma ReturnStep(s: Pool, t: Step)
    requires Inv(s) && Enabled(s, t) && s.main == Looping && Next(s, t).main.Returned?
    ensures Next(s, t).main.failed <==> exists i :: 0 <= i < |s.verdicts| && !s.verdicts[i]
  {
    var x := s.workers[t.w];
    var s' := Next(s, t);
    TrackedStep(s, t);
    assert Holds(x, x.item);
    if x.ok {
      Pigeonhole(s'.delivered, |s.verdicts|);
      forall i | 0 <= i < |s.verdicts|
        ensures s.verdicts[i]
      {
        var item: nat := i;
        assert item in s'.delivered;
        var k :| 0 <= k < |s'.delivered| && s'.delivered[k] == item;
        assert k < |s.delivered| ==> Verdict(s, s.delivered[k]);
      }
    } else {
      assert !s.verdicts[x.item];
    }
  }

  lemma InvStep(s: Pool, t: Step)
    requires Inv(s) && Enabled(s, t)
    ensures Inv(Next(s, t))
  {
    hide ItemsTracked, HonestReports, Unfinished;
    TrackedStep(s, t);
    if Next(s, t).main == Looping {
      UnfinishedStep(s, t);
    } else if s.main == Looping {
      ReturnStep(s, t);
    }
  }

  /** Runs */

  predicate IsRun(s: Pool, run: seq<Step>)
    decreases |run|
  {
    run == [] || (Enabled(s, run[0]) && IsRun(Next(s, run[0]), run[1..]))
  }

  function Final(s: Pool, run: seq<Step>): Pool
    requires IsRun(s, run)
    decreases |run|
  {
    if run == [] then s else Final(Next(s, run[0]), run[1..])
  }

  lemma {:induction false} RunInv(s: Pool, run: seq<Step>)
    requires Inv(s) && IsRun(s, run)
    ensures Inv(Final(s, run)) && Final(s, run).verdicts == s.verdicts
    decreases |run|
  {
    hide Inv;
    if run != [] {
      InvStep(s, run[0]);
      RunInv(Next(s, run[0]), run[1..]);
    }
  }

  /** In every interleaving: Validate returns success exactly when every verdict is
      success, and no two workers ever hold the same item. */
  lemma ValidateCorrect(s: Pool, run: seq<Step>)
    requires Initial(s) && IsRun(s, run)
    ensures var f := Final(s, run);
      && (f.main.Returned? ==> (f.main.failed <==> exists i :: 0 <= i < |s.verdicts| && !s.verdicts[i]))
      && (forall v, w :: 0 <= v < w < |f.workers| && Busy(f.workers[v]) && Busy(f.workers[w]) ==>
            f.workers[v].item != f.workers[w].item)
      && (forall w :: 0 <= w < |f.workers| && Busy(f.workers[w]) ==>
            f.workers[w].item < f.current && f.workers[w].item !in f.delivered)
  {
    InitialInv(s);
    RunInv(s, run);
  }

  lemma {:induction false} ExitedStays(s: Pool, run: seq<Step>, w: nat)
    requires IsRun(s, run) && w < |s.workers| && s.workers[w] == Exited
    ensures w < |Final(s, run).workers| && Final(s, run).workers[w] == Exited
    decreases |run|
  {
    if run != [] {
      ExitedStays(Next(s, run[0]), run[1..], w);
    }
  }

  /** A worker whose scripts failed is gone once it has reported, or given up reporting:
      it never takes another item. */
  lemma FailedWorkerLeaves(s: Pool, w: nat, t: Step, run: seq<Step>)
    requires Enabled(s, t) && t.w == w && (t.Deliver? || t.Abandon?) && !s.workers[w].ok
    requires IsRun(Next(s, t), run)
    ensures w < |Final(Next(s, t), run).workers| && Final(Next(s, t), run).workers[w] == Exited
  {
    hide IsRun, Final;
    ExitedStays(Next(s, t), run, w);
  }

  // Items with a worker.
  ghost function InFlight(s: Pool): set<nat> {
    set w | 0 <= w < |s.workers| && Busy(s.workers[w]) :: s.workers[w].item
  }

  ghost function Handed(n: nat): (r: set<nat>)
    ensures forall i: nat :: i in r <==> i < n
  {
    if n == 0 then {} else Handed(n - 1) + {n - 1}
  }

  lemma {:induction false} HandedSize(n: nat)
    ensures |Handed(n)| == n
  {
    if n > 0 {
      HandedSize(n - 1);
    }
  }

  ghost function Elements(d: seq<nat>): (r: set<nat>)
    ensures forall x :: x in r <==> x in d
  {
    if d == [] then {} else Elements(d[..|d| - 1]) + {d[|d| - 1]}
  }

  lemma {:induction false} DistinctSize(d: seq<nat>)
    requires forall j, k :: 0 <= j < k < |d| ==> d[j] != d[k]
    ensures |Elements(d)| == |d|
  {
    if d != [] {
      DistinctSize(d[..|d| - 1]);
    }
  }

  lemma InFlightOrReceived(s: Pool)
    requires Inv(s) && s.main == Looping
    ensures Handed(s.current) == InFlight(s) + Elements(s.delivered)
    ensures InFlight(s) !! Elements(s.delivered)
  {
    var received := Elements(s.delivered);
    forall i: nat | i in Handed(s.current) && i !in received
      ensures i in InFlight(s)
    {
      var w :| 0 <= w < |s.workers| && Holds(s.workers[w], i);
    }
    forall i | i in InFlight(s) + received
      ensures i in Handed(s.current)
    {
      if i in received {
        var k :| 0 <= k < |s.delivered| && s.delivered[k] == i;
      }
    }
  }

  /** While the dispatcher loops, the items in flight number those handed out less those
      processed. */
  lemma InFlightCount(s: Pool)
    requires Inv(s) && s.main == Looping
    ensures |InFlight(s)| == s.current - |s.delivered|
  {
    assert forall j, k :: 0 <= j < k < |s.delivered| ==> s.delivered[j] != s.delivered[k];
    hide Inv;
    HandedSize(s.current);
    DistinctSize(s.delivered);
    InFlightOrReceived(s);
  }

  /** No deadlock: before the dispatcher returns some step is always possible, and when
      none is possible any more the dispatcher has returned and every worker has left. */
  lemma Progress(s: Pool)
    requires Inv(s)
    ensures s.main == Looping ==> exists t :: Enabled(s, t)
    ensures (forall t :: !Enabled(s, t)) ==>
      s.main.Returned? && forall w :: 0 <= w < |s.workers| ==> s.workers[w].Exited?
  {
    if s.main == Looping {
      if w :| 0 <= w < |s.workers| && s.workers[w].Running? {
        assert Enabled(s, Finish(w));
      } else if w :| 0 <= w < |s.workers| && s.workers[w].Reporting? {
        assert Enabled(s, Deliver(w));
      } else {
        AllIdleMeansMore(s);
        assert Enabled(s, Send(0));
      }
    } else {
      forall w | 0 <= w < |s.workers| && !s.workers[w].Exited?
        ensures exists t :: Enabled(s, t)
      {
        match s.workers[w]
        case Idle => assert Enabled(s, Leave(w));
        case Running(_) => assert Enabled(s, Finish(w));
        case Reporting(_, _) => assert Enabled(s, Abandon(w));
      }
    }
  }

  lemma AllIdleMeansMore(s: Pool)
    requires Inv(s) && s.main == Looping
    requires forall w :: 0 <= w < |s.workers| ==> !s.workers[w].Running? && !s.workers[w].Reporting?
    ensures s.current < |s.verdicts| && s.workers[0] == Idle
  {
    InFlightCount(s);
    assert InFlight(s) == {};
  }

  /** Termination: every step uses up some of a fixed budget. */

  function Weight(x: Worker): nat {
    match x
    case Idle => 1
    case Running(_) => 3
    case Reporting(_, _) => 2
    case Exited => 0
  }

  function TotalWeight(ws: seq<Worker>): nat {
    if ws == [] then 0 else Weight(ws[0]) + TotalWeight(ws[1..])
  }

  lemma {:induction false} WeightUpdate(ws: seq<Worker>, w: nat, x: Worker)
    requires w < |ws|
    ensures TotalWeight(ws[w := x]) == TotalWeight(ws) - Weight(ws[w]) + Weight(x)
  {
    if w == 0 {
      assert ws[w := x][1..] == ws[1..];
    } else {
      assert ws[w := x][1..] == ws[1..][w - 1 := x];
      WeightUpdate(ws[1..], w - 1, x);
    }
  }

  function Budget(s: Pool): int {
    3 * (|s.verdicts| - s.current) + TotalWeight(s.workers)
  }

  lemma StepSpends(s: Pool, t: Step)
    requires Enabled(s, t)
    ensures Budget(Next(s, t)) < Budget(s)
  {
    WeightUpdate(s.workers, t.w, Next(s, t).workers[t.w]);
  }

  lemma {:induction false} RunLength(s: Pool, run: seq<Step>)
    requires Inv(s) && IsRun(s, run)
    ensures |run| <= Budget(s) - Budget(Final(s, run)) && Budget(Final(s, run)) >= 0
    decreases |run|
  {
    hide Inv;
    if run != [] {
      StepSpends(s, run[0]);
      InvStep(s, run[0]);
      RunLength(Next(s, run[0]), run[1..]);
    } else {
      BudgetNonNegative(s);
    }
  }

  lemma BudgetNonNegative(s: Pool)
    requires Inv(s)
    ensures Budget(s) >= 0
  {
  }

  lemma {:induction false} IdleWeight(ws: seq<Worker>)
    requires forall w :: 0 <= w < |ws| ==> ws[w] == Idle
    ensures TotalWeight(ws) == |ws|
  {
    if ws != [] {
      IdleWeight(ws[1..]);
    }
  }

  // No interleaving is longer than three steps per item and one per worker.
  lemma EveryRunEnds(s: Pool, run: seq<Step>)
    requires Initial(s) && IsRun(s, run)
    ensures |run| <= 3 * |s.verdicts| + |s.workers|
  {
    InitialInv(s);
    RunLength(s, run);
    IdleWeight(s.workers);
  }

  /** A run that cannot be continued has returned the right answer and left no goroutine
      behind. */
  lemma CompleteRun(s: Pool, run: seq<Step>)
    requires Initial(s) && IsRun(s, run)
    requires forall t :: !Enabled(Final(s, run), t)
    ensures var f := Final(s, run);
      && f.main == Returned(exists i :: 0 <= i < |s.verdicts| && !s.verdicts[i])
      && forall w :: 0 <= w < |f.workers| ==> f.workers[w].Exited?
  {
    InitialInv(s);
    RunInv(s, run);
    Progress(Final(s, run));
  }
}
