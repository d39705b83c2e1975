/** The peer's send pipeline as a step system: the queue handler, the output handler,
    the two capacity-one channels between them and the shutdown draining.  Messages are
    named by their position in the order the queue handler took them. */
module PeerPipeline {
  import opened Types

  datatype Msg = Msg(id: nat, wantsDone: bool)

  // Where the queueHandler goroutine stands.
  datatype QueueLoc =
    | QSelect
    | QPush(pos: nat, more: seq<Msg>)  // blocked in "sendQueue <- msg", more of the trickle to come
    | QTrickle(rest: seq<Msg>)         // inside the trickle loop
    | QDrain                           // signalling pending messages after quit
    | QCleanup                         // draining outputQueue
    | QDone                            // queueQuit closed

  // Where the outHandler goroutine stands.
  datatype OutLoc =
    | OSelect
    | OWriting(pos: nat)
    | OWrote(pos: nat)                 // about to signal the sender
    | OFailed(pos: nat)                // write error, about to signal the sender
    | OToken                           // in "sendDoneQueue <- struct{}{}"
    | OWaitQueue                       // waiting for queueQuit
    | ODrain
    | ODone

  datatype Pipe = Pipe(outputQueue: seq<Msg>,
                       accepted: seq<Msg>,     // everything the queue handler took, in order
                       pending: seq<nat>,      // pendingMsgs
                       waiting: bool,
                       sendQueue: seq<nat>,
                       sendDone: nat,          // tokens in sendDoneQueue
                       quit: bool,
                       failed: bool,           // a write has failed, so its token never comes
                       taken: nat,             // messages the output handler received
                       written: seq<Msg>,      // messages written to the wire
                       signals: seq<nat>,      // done signals sent, per accepted message
                       q: QueueLoc,
                       o: OutLoc)

  const START: Pipe := Pipe([], [], [], false, [], 0, false, false, 0, [], [], QSelect, OSelect)

  datatype Step =
    // environment
    | Enqueue(m: Msg) | Disconnect
    // queue handler
    | TakeMsg | TakeToken | TakeInv(m: Msg) | StartTrickle(ms: seq<Msg>) | TrickleOne | EndTrickle
    | Push | SeeQuit | DrainOne | EndDrain | CleanOne | EndClean
    // output handler
    | Receive | WriteOk | WriteFail | SignalWritten | SignalFailed | PutToken
    | OutSeeQuit | SeeQueueQuit | OutDrainOne | OutEnd

  predicate Enabled(s: Pipe, t: Step) {
    match t
    case Enqueue(_) => true
    case Disconnect => true
    case TakeMsg => s.q == QSelect && s.outputQueue != []
    case TakeToken => s.q == QSelect && s.sendDone > 0
    case TakeInv(m) => s.q == QSelect && !m.wantsDone
    case StartTrickle(ms) => s.q == QSelect && !s.quit && forall i :: 0 <= i < |ms| ==> !ms[i].wantsDone
    case TrickleOne => s.q.QTrickle? && s.q.rest != []
    case EndTrickle => s.q.QTrickle? && s.q.rest == []
    case Push => s.q.QPush? && |s.sendQueue| < 1
    case SeeQuit => s.q == QSelect && s.quit
    case DrainOne => s.q == QDrain && s.pending != []
    case EndDrain => s.q == QDrain && s.pending == []
    case CleanOne => s.q == QCleanup && s.outputQueue != []
    case EndClean => s.q == QCleanup && s.outputQueue == []
    case Receive => s.o == OSelect && s.sendQueue != []
    case WriteOk => s.o.OWriting?
    case WriteFail => s.o.OWriting?
    case SignalWritten => s.o.OWrote?
    case SignalFailed => s.o.OFailed?
    case PutToken => s.o == OToken && s.sendDone < 1
    case OutSeeQuit => s.o == OSelect && s.quit
    case SeeQueueQuit => s.o == OWaitQueue && s.q == QDone
    case OutDrainOne => s.o == ODrain && s.sendQueue != []
    case OutEnd => s.o == ODrain && s.sendQueue == []
  }

  // A message enters the pipeline.
  function Accept(s: Pipe, m: Msg): Pipe {
    s.(accepted := s.accepted + [m], signals := s.signals + [0])
  }

  // queuePacket: straight to the output handler, or to the end of the pending list.
  function QueuePacket(s: Pipe, m: Msg, more: seq<Msg>, trickling: bool): Pipe {
    var a := Accept(s, m);
    var pos := |s.accepted|;
    if !s.waiting then a.(waiting := true, q := QPush(pos, more))
    else a.(pending := s.pending + [pos], q := if trickling then QTrickle(more) else QSelect)
  }

  // "if msg.doneChan != nil { msg.doneChan <- struct{}{} }"
  function Signal(s: Pipe, pos: nat): Pipe {
    if pos < |s.accepted| && pos < |s.signals| && s.accepted[pos].wantsDone
    then s.(signals := s.signals[pos := s.signals[pos] + 1]) else s
  }

  function Next(s: Pipe, t: Step): Pipe
    requires Enabled(s, t)
  {
    match t
    case Enqueue(m) => s.(outputQueue := s.outputQueue + [m])
    case Disconnect => s.(quit := true)
    case TakeMsg => QueuePacket(s.(outputQueue := s.outputQueue[1..]), s.outputQueue[0], [], false)
    case TakeToken =>
      var r := s.(sendDone := s.sendDone - 1);
      if s.pending == [] then r.(waiting := false)
      else r.(pending := s.pending[1..], q := QPush(s.pending[0], []))
    case TakeInv(m) => QueuePacket(s, m, [], false)
    case StartTrickle(ms) => s.(q := QTrickle(ms))
    case TrickleOne => QueuePacket(s, s.q.rest[0], s.q.rest[1..], true)
    case EndTrickle => s.(q := QSelect)
    case Push => s.(sendQueue := s.sendQueue + [s.q.pos], q := QTrickle(s.q.more))
    case SeeQuit => s.(q := QDrain)
    case DrainOne => Signal(s.(pending := s.pending[1..]), s.pending[0])
    case EndDrain => s.(q := QCleanup)
    case CleanOne =>
      var a := Accept(s.(outputQueue := s.outputQueue[1..]), s.outputQueue[0]);
      Signal(a, |s.accepted|)
    case EndClean => s.(q := QDone)
    case Receive => s.(sendQueue := s.sendQueue[1..], taken := s.taken + 1, o := OWriting(s.sendQueue[0]))
    case WriteOk =>
      s.(written := if s.o.pos < |s.accepted| then s.written + [s.accepted[s.o.pos]] else s.written,
        o := OWrote(s.o.pos))
    case WriteFail => s.(quit := true, failed := true, o := OFailed(s.o.pos))
    case SignalWritten => Signal(s, s.o.pos).(o := OToken)
    case SignalFailed => Signal(s, s.o.pos).(o := OSelect)
    case PutToken => s.(sendDone := s.sendDone + 1, o := OSelect)
    case OutSeeQuit => s.(o := OWaitQueue)
    case SeeQueueQuit => s.(o := ODrain)
    case OutDrainOne => Signal(s.(sendQueue := s.sendQueue[1..]), s.sendQueue[0])
    case OutEnd => s.(o := ODone)
  }

  /** The invariant */

  function One(b: bool): nat {
    if b then 1 else 0
  }

  // Messages on their way: being pushed, in the channel, with the output handler, awaiting
  // their token, or lost with a failed write.
  function Outstanding(s: Pipe): nat {
    One(s.q.QPush?) + |s.sendQueue|
    + One((s.o.OWriting? || s.o.OWrote? || s.o.OToken?) && !s.failed) + s.sendDone + One(s.failed)
  }

  predicate Serving(s: Pipe) {
    s.q == QSelect || s.q.QPush? || s.q.QTrickle?
  }

  predicate Held(s: Pipe) {
    s.o.OWriting? || s.o.OWrote? || s.o.OFailed?
  }

  // At most one message outstanding, exactly one while the waiting flag is up.
  predicate TokenInv(s: Pipe) {
    && Outstanding(s) <= 1
    && (Serving(s) ==> Outstanding(s) == One(s.waiting))
    && (s.pending != [] ==> Serving(s) || s.q == QDrain)
    && (Serving(s) && s.pending != [] ==> s.waiting)
    && (s.failed ==> !s.o.OWriting? && !s.o.OWrote? && !s.o.OToken?)
    && (s.o.OFailed? ==> s.failed)
    && ((s.o == ODrain || s.o == ODone) ==> s.q == QDone)
    && (s.o == ODone ==> s.sendQueue == [])
  }

  // Positions: the output handler took 0 .. taken-1 in order, the next one is on its way,
  // the pending ones follow without gaps up to the newest.
  predicate OrderInv(s: Pipe) {
    && s.taken <= |s.accepted|
    && (Held(s) ==> s.taken > 0 && s.o.pos == s.taken - 1)
    && (s.sendQueue != [] ==> s.sendQueue == [s.taken] && s.taken < |s.accepted|)
    && (s.q.QPush? ==> s.q.pos == s.taken && s.taken < |s.accepted|)
    && (forall i :: 0 <= i < |s.pending| ==> s.pending[i] == |s.accepted| - |s.pending| + i)
    && |s.accepted| - |s.pending| >= s.taken + |s.sendQueue| + One(s.q.QPush?)
    && (Serving(s) ==> |s.accepted| - |s.pending| == s.taken + |s.sendQueue| + One(s.q.QPush?))
    && |s.written| + One(s.o.OWriting?) + One(s.failed) == s.taken
    && s.written == s.accepted[..|s.written|]
    && (s.q.QTrickle? ==> forall i :: 0 <= i < |s.q.rest| ==> !s.q.rest[i].wantsDone)
    && (s.q.QPush? ==> forall i :: 0 <= i < |s.q.more| ==> !s.q.more[i].wantsDone)
  }

  // Accepted messages whose sender has not been signalled yet.
  predicate Unresolved(s: Pipe, i: nat) {
    || (Held(s) && s.o.pos == i)
    || i in s.sendQueue
    || (s.q.QPush? && s.q.pos == i)
    || i in s.pending
  }

  predicate SignalInv(s: Pipe) {
    && |s.signals| == |s.accepted|
    && forall i :: 0 <= i < |s.accepted| ==>
         s.signals[i] == if Unresolved(s, i) then 0 else One(s.accepted[i].wantsDone)
  }

  predicate Inv(s: Pipe) {
    TokenInv(s) && OrderInv(s) && SignalInv(s)
  }

  // Steps that put a message through queuePacket, and the state they put it in.
  predicate IsPacket(t: Step) {
    t.TakeMsg? || t.TakeInv? || t.TrickleOne?
  }

  // Steps that signal the sender of a message that is done with.
  predicate IsSignal(t: Step) {
    t.DrainOne? || t.SignalWritten? || t.SignalFailed? || t.OutDrainOne?
  }

  lemma TokenStep(s: Pipe, t: Step)
    requires TokenInv(s) && Enabled(s, t)
    ensures TokenInv(Next(s, t))
  {
    hide OrderInv, SignalInv;
    if IsPacket(t) {
      TokenPacket(s, t);
    } else if IsSignal(t) {
      TokenSignal(s, t);
    }
  }

  lemma TokenPacket(s: Pipe, t: Step)
    requires TokenInv(s) && Enabled(s, t) && IsPacket(t)
    ensures TokenInv(Next(s, t))
  {
  }

  lemma TokenSignal(s: Pipe, t: Step)
    requires TokenInv(s) && Enabled(s, t) && IsSignal(t)
    ensures TokenInv(Next(s, t))
  {
  }

  lemma OrderPacket(s: Pipe, m: Msg, more: seq<Msg>, trickling: bool)
    requires TokenInv(s) && OrderInv(s) && Serving(s) && !s.q.QPush?
    requires forall i :: 0 <= i < |more| ==> !more[i].wantsDone
    ensures OrderInv(QueuePacket(s, m, more, trickling))
  {
    var r := QueuePacket(s, m, more, trickling);
    assert r.accepted[..|s.written|] == s.accepted[..|s.written|];
  }

  lemma OrderIgnoresSignals(s: Pipe, pos: nat)
    requires OrderInv(s)
    ensures OrderInv(Signal(s, pos))
  {
  }

  // What is left once a message has been taken off the pending list, the channel or the
  // output handler.
  lemma OrderWithout(s: Pipe)
    requires OrderInv(s)
    ensures s.q == QDrain && s.pending != [] ==> OrderInv(s.(pending := s.pending[1..]))
    ensures s.q == QDone && s.sendQueue != [] ==> OrderInv(s.(sendQueue := s.sendQueue[1..]))
  {
  }

  lemma OrderReleased(s: Pipe, loc: OutLoc)
    requires OrderInv(s) && (s.o.OWrote? || s.o.OFailed?) && (loc == OToken || loc == OSelect)
    ensures OrderInv(s.(o := loc))
  {
  }

  lemma SignalCommutes(s: Pipe, pos: nat, loc: OutLoc)
    ensures Signal(s, pos).(o := loc) == Signal(s.(o := loc), pos)
  {
  }

  lemma OrderSignal(s: Pipe, t: Step)
    requires TokenInv(s) && OrderInv(s) && Enabled(s, t) && IsSignal(t)
    ensures OrderInv(Next(s, t))
  {
    hide OrderInv, Signal;
    OrderWithout(s);
    match t
    case DrainOne => OrderIgnoresSignals(s.(pending := s.pending[1..]), s.pending[0]);
    case OutDrainOne => OrderIgnoresSignals(s.(sendQueue := s.sendQueue[1..]), s.sendQueue[0]);
    case SignalWritten =>
      OrderReleased(s, OToken);
      OrderIgnoresSignals(s.(o := OToken), s.o.pos);
      SignalCommutes(s, s.o.pos, OToken);
    case SignalFailed =>
      OrderReleased(s, OSelect);
      OrderIgnoresSignals(s.(o := OSelect), s.o.pos);
      SignalCommutes(s, s.o.pos, OSelect);
  }

  lemma OrderOut(s: Pipe, t: Step)
    requires TokenInv(s) && OrderInv(s) && Enabled(s, t)
    requires t.Receive? || t.WriteOk? || t.WriteFail? || t.PutToken? || t.OutSeeQuit? || t.SeeQueueQuit? || t.OutEnd?
    ensures OrderInv(Next(s, t))
  {
    if t.WriteOk? {
      hide OrderInv, TokenInv;
      OrderWrite(s);
    } else if t.Receive? {
      hide OrderInv, TokenInv;
      OrderReceive(s);
    } else {
      hide OrderInv, TokenInv;
      OrderOutIdle(s, t);
    }
  }

  lemma OrderReceive(s: Pipe)
    requires TokenInv(s) && OrderInv(s) && Enabled(s, Receive)
    ensures OrderInv(Next(s, Receive))
  {
  }

  lemma OrderOutIdle(s: Pipe, t: Step)
    requires TokenInv(s) && OrderInv(s) && Enabled(s, t)
    requires t.WriteFail? || t.PutToken? || t.OutSeeQuit? || t.SeeQueueQuit? || t.OutEnd?
    ensures OrderInv(Next(s, t))
  {
  }

  lemma OrderWrite(s: Pipe)
    requires TokenInv(s) && OrderInv(s) && Enabled(s, WriteOk)
    ensures OrderInv(Next(s, WriteOk))
  {
    TakeOneMore(s.written, s.accepted, s.o.pos);
  }

  lemma OrderQueue(s: Pipe, t: Step)
    requires TokenInv(s) && OrderInv(s) && Enabled(s, t)
    requires t.Enqueue? || t.Disconnect? || t.TakeToken? || t.StartTrickle? || t.EndTrickle? || t.Push?
          || t.SeeQuit? || t.EndDrain? || t.CleanOne? || t.EndClean?
    ensures OrderInv(Next(s, t))
  {
    if t.TakeToken? || t.Push? {
      hide OrderInv, TokenInv;
      OrderForward(s, t);
    } else if t.CleanOne? {
      hide OrderInv, TokenInv, Signal;
      OrderClean(s);
      var a := Accept(s.(outputQueue := s.outputQueue[1..]), s.outputQueue[0]);
      OrderIgnoresSignals(a, |s.accepted|);
    } else {
      hide OrderInv, TokenInv;
      OrderIdle(s, t);
    }
  }

  // Steps that move no message of the pipeline.
  lemma OrderIdle(s: Pipe, t: Step)
    requires TokenInv(s) && OrderInv(s) && Enabled(s, t)
    requires t.Enqueue? || t.Disconnect? || t.StartTrickle? || t.EndTrickle? || t.SeeQuit? || t.EndDrain? || t.EndClean?
    ensures OrderInv(Next(s, t))
  {
  }

  lemma OrderClean(s: Pipe)
    requires TokenInv(s) && OrderInv(s) && Enabled(s, CleanOne)
    ensures OrderInv(Accept(s.(outputQueue := s.outputQueue[1..]), s.outputQueue[0]))
  {
    var a := Accept(s.(outputQueue := s.outputQueue[1..]), s.outputQueue[0]);
    assert a.accepted[..|s.written|] == s.accepted[..|s.written|];
  }

  lemma OrderForward(s: Pipe, t: Step)
    requires TokenInv(s) && OrderInv(s) && Enabled(s, t) && (t.TakeToken? || t.Push?)
    ensures OrderInv(Next(s, t))
  {
  }

  lemma OrderStep(s: Pipe, t: Step)
    requires TokenInv(s) && OrderInv(s) && Enabled(s, t)
    ensures OrderInv(Next(s, t))
  {
    if IsPacket(t) {
      match t
      case TakeMsg => OrderPacket(s.(outputQueue := s.outputQueue[1..]), s.outputQueue[0], [], false);
      case TakeInv(m) => OrderPacket(s, m, [], false);
      case TrickleOne => OrderPacket(s, s.q.rest[0], s.q.rest[1..], true);
    } else if IsSignal(t) {
      hide OrderInv, TokenInv;
      OrderSignal(s, t);
    } else if t.Receive? || t.WriteOk? || t.WriteFail? || t.PutToken? || t.OutSeeQuit? || t.SeeQueueQuit? || t.OutEnd? {
      hide OrderInv, TokenInv;
      OrderOut(s, t);
    } else {
      hide OrderInv, TokenInv;
      OrderQueue(s, t);
    }
  }

  // Signalling a message takes it, and nothing else, off the unresolved ones.
  lemma SignalResolves(s: Pipe, r: Pipe, pos: nat)
    requires SignalInv(s) && r.accepted == s.accepted && r.signals == s.signals
    requires pos < |s.accepted| && Unresolved(s, pos)
    requires forall i: nat :: Unresolved(r, i) <==> Unresolved(s, i) && i != pos
    ensures SignalInv(Signal(r, pos))
  {
    hide Unresolved, Held;
    var f := Signal(r, pos);
    forall i: nat
      ensures Unresolved(f, i) <==> Unresolved(r, i)
    {
      SameLocations(r, f, i);
    }
  }

  lemma SameLocations(a: Pipe, b: Pipe, i: nat)
    requires a.o == b.o && a.q == b.q && a.sendQueue == b.sendQueue && a.pending == b.pending
    ensures Unresolved(a, i) <==> Unresolved(b, i)
  {
  }

  lemma SignalSame(s: Pipe, r: Pipe)
    requires SignalInv(s) && r.accepted == s.accepted && r.signals == s.signals
    requires forall i: nat :: Unresolved(r, i) <==> Unresolved(s, i)
    ensures SignalInv(r)
  {
    hide Unresolved;
  }

  // A new message is unresolved, or already signalled when it is taken only to be dropped.
  lemma SignalAccept(s: Pipe, r: Pipe, m: Msg)
    requires SignalInv(s) && r.accepted == s.accepted + [m]
    requires forall i: nat :: i != |s.accepted| ==> (Unresolved(r, i) <==> Unresolved(s, i))
    requires |r.signals| == |s.signals| + 1 && r.signals[..|s.signals|] == s.signals
    requires r.signals[|s.accepted|] == if Unresolved(r, |s.accepted|) then 0 else One(m.wantsDone)
    ensures SignalInv(r)
  {
    hide Unresolved;
    forall i | 0 <= i < |r.accepted|
      ensures r.signals[i] == if Unresolved(r, i) then 0 else One(r.accepted[i].wantsDone)
    {
      if i < |s.accepted| {
        assert r.signals[i] == r.signals[..|s.signals|][i];
      }
    }
  }

  lemma SignalPacket(s: Pipe, m: Msg, more: seq<Msg>, trickling: bool)
    requires Inv(s) && Serving(s) && !s.q.QPush?
    ensures SignalInv(QueuePacket(s, m, more, trickling))
  {
    var r := QueuePacket(s, m, more, trickling);
    SignalAccept(s, r, m);
  }

  lemma SignalDone(s: Pipe, t: Step)
    requires Inv(s) && Enabled(s, t) && IsSignal(t)
    ensures SignalInv(Next(s, t))
  {
    match t
    case DrainOne => ResolveDrain(s);
    case SignalWritten => ResolveWritten(s, OToken);
    case SignalFailed => ResolveWritten(s, OSelect);
    case OutDrainOne => SignalResolves(s, s.(sendQueue := s.sendQueue[1..]), s.sendQueue[0]);
  }

  lemma ResolveDrain(s: Pipe)
    requires Inv(s) && s.q == QDrain && s.pending != []
    ensures SignalInv(Signal(s.(pending := s.pending[1..]), s.pending[0]))
  {
    var r := s.(pending := s.pending[1..]);
    forall i: nat
      ensures Unresolved(r, i) <==> Unresolved(s, i) && i != s.pending[0]
    {
    }
    SignalResolves(s, r, s.pending[0]);
  }

  lemma ResolveWritten(s: Pipe, loc: OutLoc)
    requires Inv(s) && (s.o.OWrote? || s.o.OFailed?) && (loc == OToken || loc == OSelect)
    ensures SignalInv(Signal(s, s.o.pos).(o := loc))
  {
    var r := s.(o := loc);
    forall i: nat
      ensures Unresolved(r, i) <==> Unresolved(s, i) && i != s.o.pos
    {
    }
    SignalResolves(s, r, s.o.pos);
    assert Signal(s, s.o.pos).(o := loc) == Signal(r, s.o.pos);
  }

  lemma SignalClean(s: Pipe)
    requires Inv(s) && s.q == QCleanup && s.outputQueue != []
    ensures SignalInv(Next(s, CleanOne))
  {
    SignalAccept(s, Next(s, CleanOne), s.outputQueue[0]);
  }

  lemma SignalStep(s: Pipe, t: Step)
    requires Inv(s) && Enabled(s, t)
    ensures SignalInv(Next(s, t))
  {
    hide SignalInv, OrderInv, TokenInv, Unresolved, QueuePacket;
    if IsPacket(t) {
      PacketServes(s, t);
      match t
      case TakeMsg =>
        var r := s.(outputQueue := s.outputQueue[1..]);
        InvQueue(s);
        SignalPacket(r, s.outputQueue[0], [], false);
      case TakeInv(m) => SignalPacket(s, m, [], false);
      case TrickleOne => SignalPacket(s, s.q.rest[0], s.q.rest[1..], true);
    } else if IsSignal(t) {
      SignalDone(s, t);
    } else if t.CleanOne? {
      SignalClean(s);
    } else {
      SignalMoved(s, t);
    }
  }

  lemma PacketServes(s: Pipe, t: Step)
    requires Enabled(s, t) && IsPacket(t)
    ensures Serving(s) && !s.q.QPush?
  {
  }

  // Taking a message off the input queue keeps the invariant.
  lemma InvQueue(s: Pipe)
    requires Inv(s) && s.outputQueue != []
    ensures Inv(s.(outputQueue := s.outputQueue[1..]))
  {
    hide SignalInv;
    SignalSame(s, s.(outputQueue := s.outputQueue[1..]));
  }

  // Moving a message along the pipeline resolves none and adds none.
  lemma SignalMoved(s: Pipe, t: Step)
    requires Inv(s) && Enabled(s, t) && !IsPacket(t) && !IsSignal(t) && !t.CleanOne?
    ensures SignalInv(Next(s, t))
  {
    hide SignalInv;
    SignalSame(s, Next(s, t));
  }

  lemma InvStep(s: Pipe, t: Step)
    requires Inv(s) && Enabled(s, t)
    ensures Inv(Next(s, t))
  {
    hide TokenInv, OrderInv, SignalInv;
    TokenStep(s, t);
    OrderStep(s, t);
    SignalStep(s, t);
  }

  /** Runs */

  predicate IsRun(s: Pipe, run: seq<Step>)
    decreases |run|
  {
    run == [] || (Enabled(s, run[0]) && IsRun(Next(s, run[0]), run[1..]))
  }

  function Final(s: Pipe, run: seq<Step>): Pipe
    requires IsRun(s, run)
    decreases |run|
  {
    if run == [] then s else Final(Next(s, run[0]), run[1..])
  }

  lemma {:induction false} RunInv(s: Pipe, run: seq<Step>)
    requires Inv(s) && IsRun(s, run)
    ensures Inv(Final(s, run))
    decreases |run|
  {
    hide Inv;
    if run != [] {
      InvStep(s, run[0]);
      RunInv(Next(s, run[0]), run[1..]);
    }
  }

  lemma StartInv()
    ensures Inv(START)
  {
  }

  /** In every interleaving at most one message is outstanding, so neither handler ever
      blocks on a capacity-one channel. */
  lemma NeverBlocks(run: seq<Step>)
    requires IsRun(START, run)
    ensures var s := Final(START, run);
      && Outstanding(s) <= 1 && |s.sendQueue| <= 1 && s.sendDone <= 1
      && (s.q.QPush? ==> Enabled(s, Push))
      && (s.o == OToken ==> Enabled(s, PutToken))
  {
    StartInv();
    RunInv(START, run);
  }

  /** Messages reach the wire in the order they were accepted, without gaps. */
  lemma WrittenInOrder(run: seq<Step>)
    requires IsRun(START, run)
    ensures var s := Final(START, run); s.written <= s.accepted
  {
    StartInv();
    RunInv(START, run);
  }

  /** No sender is ever signalled twice, and when both handlers have finished every sender
      that asked for it has been signalled exactly once. */
  lemma SignalledOnce(run: seq<Step>)
    requires IsRun(START, run)
    ensures var s := Final(START, run);
      && |s.signals| == |s.accepted|
      && (forall i :: 0 <= i < |s.accepted| ==> s.signals[i] <= One(s.accepted[i].wantsDone))
      && (s.q == QDone && s.o == ODone ==>
            forall i :: 0 <= i < |s.accepted| ==> s.signals[i] == One(s.accepted[i].wantsDone))
  {
    StartInv();
    RunInv(START, run);
  }

  /** Shutdown */

  // A failed write has disconnected the peer.
  lemma {:induction false} FailedFrom(s: Pipe, run: seq<Step>)
    requires (s.failed ==> s.quit) && IsRun(s, run)
    ensures Final(s, run).failed ==> Final(s, run).quit
    ensures s.quit ==> Final(s, run).quit
    decreases |run|
  {
    if run != [] {
      QuitStays(s, run[0]);
      FailedFrom(Next(s, run[0]), run[1..]);
    }
  }

  lemma QuitStays(s: Pipe, t: Step)
    requires (s.failed ==> s.quit) && Enabled(s, t)
    ensures s.quit ==> Next(s, t).quit
    ensures Next(s, t).failed ==> Next(s, t).quit
  {
  }

  /** A write error disconnects, and a disconnected pipeline stays so. */
  lemma FailedWriteDisconnects(run: seq<Step>)
    requires IsRun(START, run)
    ensures Final(START, run).failed ==> Final(START, run).quit
  {
    FailedFrom(START, run);
  }

  // Neither handler leaves its loop before a disconnect.
  predicate Running(s: Pipe) {
    && !s.q.QDrain? && !s.q.QCleanup? && !s.q.QDone?
    && !s.o.OWaitQueue? && !s.o.ODrain? && !s.o.ODone?
  }

  lemma RunningStep(s: Pipe, t: Step)
    requires (s.quit || Running(s)) && Enabled(s, t)
    ensures Next(s, t).quit || Running(Next(s, t))
  {
  }

  lemma {:induction false} RunningFrom(s: Pipe, run: seq<Step>)
    requires (s.quit || Running(s)) && IsRun(s, run)
    ensures Final(s, run).quit || Running(Final(s, run))
    decreases |run|
  {
    hide Running, Next, Enabled;
    if run != [] {
      RunningStep(s, run[0]);
      RunningFrom(Next(s, run[0]), run[1..]);
    }
  }

  /** While the peer is connected both handlers serve, and a received message is written
      unless its write fails. */
  lemma ServesUntilQuit(run: seq<Step>)
    requires IsRun(START, run)
    ensures var s := Final(START, run);
      && (!s.quit ==> s.q == QSelect || s.q.QPush? || s.q.QTrickle?)
      && (!s.quit ==> s.o == OSelect || s.o.OWriting? || s.o.OWrote? || s.o.OFailed? || s.o == OToken)
      && (!s.quit && !s.o.OWriting? ==> |s.written| == s.taken)
  {
    StartInv();
    RunInv(START, run);
    RunningFrom(START, run);
    FailedWriteDisconnects(run);
  }

  // Steps of the two handlers that bring in nothing new.
  predicate Internal(t: Step) {
    !t.Enqueue? && !t.Disconnect? && !t.TakeInv? && !t.StartTrickle?
  }

  predicate Finished(s: Pipe) {
    s.q == QDone && s.o == ODone
  }

  lemma HandlerEnabled(s: Pipe)
    requires TokenInv(s) && s.quit && !Finished(s)
    ensures exists t :: Internal(t) && Enabled(s, t)
  {
    var t := match s.q
      case QSelect => SeeQuit
      case QPush(_, _) => Push
      case QTrickle(rest) => if rest == [] then EndTrickle else TrickleOne
      case QDrain => if s.pending == [] then EndDrain else DrainOne
      case QCleanup => if s.outputQueue == [] then EndClean else CleanOne
      case QDone =>
        match s.o
        case OSelect => OutSeeQuit
        case OWriting(_) => WriteOk
        case OWrote(_) => SignalWritten
        case OFailed(_) => SignalFailed
        case OToken => PutToken
        case OWaitQueue => SeeQueueQuit
        case _ => if s.sendQueue == [] then OutEnd else OutDrainOne;
    assert Internal(t) && Enabled(s, t);
  }

  /** Once disconnected the pipeline is never stuck: until both handlers have finished one
      of them can take a step of its own. */
  lemma NeverStuck(run: seq<Step>)
    requires IsRun(START, run)
    ensures var s := Final(START, run);
      s.quit && !(s.q == QDone && s.o == ODone) ==> exists t :: Internal(t) && Enabled(s, t)
  {
    StartInv();
    RunInv(START, run);
    var s := Final(START, run);
    if s.quit && !Finished(s) {
      HandlerEnabled(s);
    }
  }

  // Work left for the handlers.
  function Work(s: Pipe): nat {
    12 * |s.outputQueue| + 8 * |s.pending| + 6 * |s.sendQueue| + 2 * s.sendDone + QueueWork(s.q) + OutWork(s.o)
  }

  function QueueWork(q: QueueLoc): nat {
    match q
    case QSelect => 5
    case QPush(_, more) => 14 + 10 * |more|
    case QTrickle(rest) => 6 + 10 * |rest|
    case QDrain => 3
    case QCleanup => 2
    case QDone => 0
  }

  function OutWork(o: OutLoc): nat {
    match o
    case OSelect => 3
    case OWriting(_) => 8
    case OWrote(_) => 7
    case OFailed(_) => 7
    case OToken => 6
    case OWaitQueue => 2
    case ODrain => 1
    case ODone => 0
  }

  lemma OnlySignals(s: Pipe, pos: nat)
    ensures Signal(s, pos) == s.(signals := Signal(s, pos).signals)
  {
  }

  lemma WorkShrinks(s: Pipe, t: Step)
    requires Enabled(s, t) && Internal(t)
    ensures Work(Next(s, t)) < Work(s)
  {
    if IsSignal(t) || t.CleanOne? {
      WorkSignalled(s, t);
    } else {
      WorkMoved(s, t);
    }
  }

  lemma WorkSignalled(s: Pipe, t: Step)
    requires Enabled(s, t) && (IsSignal(t) || t.CleanOne?)
    ensures Work(Next(s, t)) < Work(s)
  {
    hide Signal;
    match t
    case DrainOne => OnlySignals(s.(pending := s.pending[1..]), s.pending[0]);
    case OutDrainOne => OnlySignals(s.(sendQueue := s.sendQueue[1..]), s.sendQueue[0]);
    case SignalWritten => OnlySignals(s, s.o.pos);
    case SignalFailed => OnlySignals(s, s.o.pos);
    case CleanOne => OnlySignals(Accept(s.(outputQueue := s.outputQueue[1..]), s.outputQueue[0]), |s.accepted|);
  }

  lemma WorkMoved(s: Pipe, t: Step)
    requires Enabled(s, t) && Internal(t) && !IsSignal(t) && !t.CleanOne?
    ensures Work(Next(s, t)) < Work(s)
  {
  }

  predicate AllInternal(run: seq<Step>) {
    forall i :: 0 <= i < |run| ==> Internal(run[i])
  }

  lemma {:induction false} WorkBounds(s: Pipe, run: seq<Step>)
    requires IsRun(s, run) && AllInternal(run)
    ensures |run| + Work(Final(s, run)) <= Work(s)
    decreases |run|
  {
    hide Work, Enabled, Next;
    if run != [] {
      WorkShrinks(s, run[0]);
      WorkBounds(Next(s, run[0]), run[1..]);
    }
  }

  lemma {:induction false} RunJoin(s: Pipe, a: seq<Step>, b: seq<Step>)
    requires IsRun(s, a) && IsRun(Final(s, a), b)
    ensures IsRun(s, a + b) && Final(s, a + b) == Final(Final(s, a), b)
    decreases |a|
  {
    hide Enabled, Next;
    if a == [] {
      assert a + b == b;
    } else {
      assert (a + b)[1..] == a[1..] + b;
      RunJoin(Next(s, a[0]), a[1..], b);
    }
  }

  /** Shutdown ends: after a disconnect, by the caller or by a failed write, the handlers
      take a bounded number of steps of their own, and where they can take no more both
      have finished with every waiting sender signalled exactly once. */
  lemma ShutdownEnds(run: seq<Step>, more: seq<Step>)
    requires IsRun(START, run) && (Final(START, run).quit || Final(START, run).failed)
    requires IsRun(Final(START, run), more) && AllInternal(more)
    ensures |more| <= Work(Final(START, run))
    ensures var s := Final(Final(START, run), more);
      (forall t :: Internal(t) ==> !Enabled(s, t)) ==>
        && s.q == QDone && s.o == ODone
        && forall i :: 0 <= i < |s.accepted| && i < |s.signals| ==> s.signals[i] == One(s.accepted[i].wantsDone)
  {
    hide Enabled, Next, Work, Inv;
    var mid := Final(START, run);
    WorkBounds(mid, more);
    FailedWriteDisconnects(run);
    FailedFrom(mid, more);
    RunJoin(START, run, more);
    NeverStuck(run + more);
    SignalledOnce(run + more);
  }

  /** Nothing is lost on the way in */

  // What a step brings into the pipeline.
  function Offered(t: Step): multiset<Msg> {
    match t
    case Enqueue(m) => multiset{m}
    case TakeInv(m) => multiset{m}
    case StartTrickle(ms) => multiset(ms)
    case _ => multiset{}
  }

  function AllOffered(run: seq<Step>): multiset<Msg> {
    if run == [] then multiset{} else Offered(run[0]) + AllOffered(run[1..])
  }

  // The rest of a trickle.
  function Waiting(q: QueueLoc): seq<Msg> {
    match q
    case QPush(_, more) => more
    case QTrickle(rest) => rest
    case _ => []
  }

  // Messages the queue handler has taken, or has still to take.
  function Known(s: Pipe): multiset<Msg> {
    multiset(s.accepted) + multiset(s.outputQueue) + multiset(Waiting(s.q))
  }

  lemma KnownSame(s: Pipe, r: Pipe)
    requires r.accepted == s.accepted && r.outputQueue == s.outputQueue && Waiting(r.q) == Waiting(s.q)
    ensures Known(r) == Known(s)
  {
  }

  // The first message of the queue, or of the trickle, is accepted.
  lemma KnownAccepted(s: Pipe, r: Pipe, m: Msg)
    requires r.accepted == s.accepted + [m]
    requires || (s.outputQueue == [m] + r.outputQueue && Waiting(r.q) == Waiting(s.q))
             || (r.outputQueue == s.outputQueue && Waiting(s.q) == [m] + Waiting(r.q))
    ensures Known(r) == Known(s)
  {
    assert multiset([m] + r.outputQueue) == multiset{m} + multiset(r.outputQueue);
    assert multiset([m] + Waiting(r.q)) == multiset{m} + multiset(Waiting(r.q));
  }

  lemma KnownOffered(s: Pipe, r: Pipe, ms: seq<Msg>)
    requires || (r.accepted == s.accepted + ms && r.outputQueue == s.outputQueue && Waiting(r.q) == Waiting(s.q))
             || (r.accepted == s.accepted && r.outputQueue == s.outputQueue + ms && Waiting(r.q) == Waiting(s.q))
             || (r.accepted == s.accepted && r.outputQueue == s.outputQueue && Waiting(s.q) == [] && Waiting(r.q) == ms)
    ensures Known(r) == Known(s) + multiset(ms)
  {
  }

  lemma KnownStep(s: Pipe, t: Step)
    requires Enabled(s, t)
    ensures Known(Next(s, t)) == Known(s) + Offered(t)
  {
    hide Known;
    var r := Next(s, t);
    match t
    case Enqueue(m) => KnownOffered(s, r, [m]);
    case TakeInv(m) => KnownOffered(s, r, [m]);
    case StartTrickle(ms) => KnownOffered(s, r, ms);
    case TakeMsg => KnownAccepted(s, r, s.outputQueue[0]);
    case CleanOne => KnownAccepted(s, r, s.outputQueue[0]);
    case TrickleOne => KnownAccepted(s, r, s.q.rest[0]);
    case _ =>
      hide Next, Offered;
      KnownMoved(s, t);
  }

  // The other steps bring in and accept nothing.
  lemma KnownMoved(s: Pipe, t: Step)
    requires Enabled(s, t) && !IsPacket(t) && !t.CleanOne? && !t.Enqueue? && !t.StartTrickle?
    ensures Known(Next(s, t)) == Known(s) && Offered(t) == multiset{}
  {
    hide Known;
    KnownSame(s, Next(s, t));
  }

  lemma {:induction false} KnownRun(s: Pipe, run: seq<Step>)
    requires IsRun(s, run)
    ensures Known(Final(s, run)) == Known(s) + AllOffered(run)
    decreases |run|
  {
    hide Enabled, Next, Known, Offered;
    if run != [] {
      KnownStep(s, run[0]);
      KnownRun(Next(s, run[0]), run[1..]);
    }
  }

  /** When both handlers have finished, exactly the messages that were offered have been
      accepted, or are still in the queue they were offered to. */
  lemma NothingLost(run: seq<Step>)
    requires IsRun(START, run)
    ensures var s := Final(START, run);
      s.q == QDone && s.o == ODone ==> multiset(s.accepted) + multiset(s.outputQueue) == AllOffered(run)
  {
    KnownRun(START, run);
    var s := Final(START, run);
    assert Known(START) == multiset{};
    assert multiset(Waiting(QDone)) == multiset{};
    assert s.q == QDone ==> Known(s) == multiset(s.accepted) + multiset(s.outputQueue);
  }
}
