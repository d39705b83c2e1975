/** A branch switch, block by block: what the dry run in one throw-away view decides, what
    the commit needs, and how far the first says something about the second. */
module Switch {
  import opened Types
  import opened Ledger
  import opened UtxoView
  import opened Validate
  import opened ViewHistory
  import opened OtherSet
  import opened ChainState
  import opened Flags

  // The view over the stored set stands for a utxo set.
  ghost predicate StandsFor(v: Entries, store: Utxos, u: Utxos) {
    Coherent(v, store) && Means(v, store, u, {})
  }

  // The spent entries of the view are among t, and every outpoint of t has an entry.
  ghost predicate Remembers(v: Entries, t: set<OutPoint>) {
    forall o :: (SpentAt(v, o) ==> o in t) && (o in t ==> Held(v, o))
  }

  lemma FreshView(store: Utxos)
    ensures StandsFor(map[], store, store) && Remembers(map[], {})
  {
  }

  lemma RemembersMore(v: Entries, w: Entries, t: set<OutPoint>, s: set<OutPoint>)
    requires Remembers(v, t) && Tracks(v, w, s) && forall o :: o in s ==> Held(w, o)
    ensures Remembers(w, t + s)
  {
    hide Held, SpentAt;
  }

  // After its inputs are loaded, the view holds an entry for an outpoint from outside
  // exactly when it is unspent or remembered.
  lemma HeldIff(v: Entries, store: Utxos, u: Utxos, b: Block, t: set<OutPoint>, o: OutPoint)
    requires StandsFor(v, store, u) && Remembers(v, t) && WellOrdered(b) && o in OutsideInputs(b.txs)
    ensures Held(FetchedView(v, store, b), o) <==> o in u || o in t
  {
    hide FetchedView;
    var w := FetchedView(v, store, b);
    FetchedViewOk(v, store, b);
    FetchedViewTracks(v, store, b);
    BlockInputsAt(b.txs, o);
    OutsideNotCreated(b.txs, |b.txs|, o);
    TakeAll(b.txs);
    assert Look(w, store, o) == Look(v, store, o) == Get(u, o);
    assert o in w;
    assert (Held(v, o) ==> Held(w, o)) && (SpentAt(w, o) ==> SpentAt(v, o));
  }

  /** One block */

  // A block flagged as valid is only connected, and that takes an entry for each outside
  // input, spent or not; any other block is checked.
  predicate PassesDry(p: Params, known: bool, u: Utxos, t: set<OutPoint>, b: Block) {
    if known then forall o :: o in OutsideInputs(b.txs) ==> o in u || o in t
    else ValidBlock(p, u, b)
  }

  // One block of the dry run: a flagged one is only connected, any other is checked.
  method AttachInView(p: Params, known: bool, b: Block, view: UtxoViewpoint, store: Utxos,
                      ghost u: Utxos, ghost t: set<OutPoint>)
    returns (ok: bool)
    requires Checkable(p, u, b) && (known ==> EarnedBlock(p, b))
    requires StandsFor(view.entries, store, u) && Remembers(view.entries, t) && view.bestHash == b.prev
    modifies view
    ensures ok <==> PassesDry(p, known, u, t, b)
    ensures ok ==> StandsFor(view.entries, store, ApplyBlock(u, b)) && view.bestHash == b.hash
                   && Remembers(view.entries, t + BlockInputs(b.txs))
  {
    hide FetchedView, StandsFor, Remembers, Held, SpentAt, Tracks, ConnectAll, BlockVerdict, EarnedBlock, OutsideInputs;
    CheckableShape(p, u, b);
    ghost var v := view.entries;
    if known {
      KnownPasses(p, v, store, u, t, b);
      view.FetchInputUtxos(store, b);
      var stxos;
      ok, stxos := view.ConnectTransactions(b, []);
    } else {
      CheckedPasses(p, v, store, u, t, b);
      var verdict, _ := CheckConnectBlock(p, b, view, store);
      ok := verdict.Accept?;
    }
  }

  lemma CheckableShape(p: Params, u: Utxos, b: Block)
    requires Checkable(p, u, b)
    ensures WellOrdered(b) && AllSane(b) && b.txs != [] && p.subsidy(b.height) <= MAX_INT64
  {
  }

  lemma KnownPasses(p: Params, v: Entries, store: Utxos, u: Utxos, t: set<OutPoint>, b: Block)
    requires Checkable(p, u, b) && EarnedBlock(p, b) && StandsFor(v, store, u) && Remembers(v, t)
    ensures var c := ConnectAll(FetchedView(v, store, b), b.txs, b.height);
      && (c.Some? <==> PassesDry(p, true, u, t, b))
      && (c.Some? ==> StandsFor(c.value.entries, store, ApplyBlock(u, b))
                      && Remembers(c.value.entries, t + BlockInputs(b.txs)))
  {
    hide FetchedView, Remembers, Held, Tracks, ConnectAll, WellOrdered, AllSane, MidBlock;
    var f := FetchedView(v, store, b);
    EarnedReplays(p, b);
    var u0 :| Connectable(u0, b.txs, b.height) && NoOverwrite(u0, b.txs);
    ConnectAllPresent(f, u0, b);
    forall o | o in OutsideInputs(b.txs) ensures Held(f, o) <==> o in u || o in t {
      HeldIff(v, store, u, b, t, o);
    }
    var c := ConnectAll(f, b.txs, b.height);
    if c.Some? {
      FetchedMidBlock(v, store, u, b);
      ConnectAllReplays(f, store, u, b);
      FetchedViewTracks(v, store, b);
      ConnectAllTracks(f, b.txs, b.height);
      TracksThen(v, f, c.value.entries, BlockInputs(b.txs));
      RemembersMore(v, c.value.entries, t, BlockInputs(b.txs));
    }
  }

  // A block that is valid somewhere can be replayed somewhere.
  lemma EarnedReplays(p: Params, b: Block)
    requires EarnedBlock(p, b)
    ensures exists u :: Connectable(u, b.txs, b.height) && NoOverwrite(u, b.txs)
  {
    var u :| ValidBlock(p, u, b);
    TxsOkConnectable(u, b.txs, b.height, p.maturity);
  }

  lemma CheckedPasses(p: Params, v: Entries, store: Utxos, u: Utxos, t: set<OutPoint>, b: Block)
    requires Checkable(p, u, b) && StandsFor(v, store, u) && Remembers(v, t)
    ensures var c := BlockVerdict(p, v, store, b);
      && (c.Some? <==> PassesDry(p, false, u, t, b))
      && (c.Some? ==> StandsFor(c.value.entries, store, ApplyBlock(u, b))
                      && Remembers(c.value.entries, t + BlockInputs(b.txs)))
  {
    hide Remembers, Held, Tracks, BlockVerdict, Checkable, ValidBlock;
    VerdictMeans(p, v, store, u, b);
    var c := BlockVerdict(p, v, store, b);
    if c.Some? {
      VerdictTracks(p, v, store, b);
      RemembersMore(v, c.value.entries, t, BlockInputs(b.txs));
    }
  }

  // fetchInputUtxos then disconnectTransactions.
  method DetachInView(b: Block, stxos: seq<Coin>, view: UtxoViewpoint, store: Utxos, ghost u: Utxos,
                      ghost t: set<OutPoint>)
    requires b.txs != [] && |stxos| == CountSpent(b.txs)
    requires forall c :: c in stxos ==> c.height != 0
    requires StandsFor(view.entries, store, u) && Remembers(view.entries, t)
    modifies view
    ensures StandsFor(view.entries, store, UndoBlock(u, b, stxos))
    ensures Remembers(view.entries, t + AllCreated(b.txs))
    ensures view.bestHash == b.prev
  {
    hide FetchedView, UndoEntries, ResurrectTxs, UndoBlock, Remembers, StandsFor;
    ghost var v := view.entries;
    DetachMeans(v, store, u, b, stxos, t);
    view.FetchInputUtxos(store, b);
    // The store is never searched for such coins.
    var seek := (h: Hash) => None;
    ResurrectRecent(view.entries, b.txs, b.height, stxos, seek);
    var ok := view.DisconnectTransactions(b, stxos, seek);
  }

  lemma DetachMeans(v: Entries, store: Utxos, u: Utxos, b: Block, stxos: seq<Coin>, t: set<OutPoint>)
    requires |stxos| == CountSpent(b.txs) && StandsFor(v, store, u) && Remembers(v, t)
    ensures var w := UndoEntries(FetchedView(v, store, b), b.txs, b.height, stxos);
      StandsFor(w, store, UndoBlock(u, b, stxos)) && Remembers(w, t + AllCreated(b.txs))
  {
    hide FetchedView, UndoEntries, Remembers, Tracks, Held, Coherent;
    var f := FetchedView(v, store, b);
    FetchedViewOk(v, store, b);
    assert Means(f, store, u, AllCreated(b.txs));
    UndoEntriesMeans(f, store, u, b.txs, b.height, stxos);
    FetchedViewTracks(v, store, b);
    UndoTracks(f, b.txs, b.height, stxos);
    var w := UndoEntries(f, b.txs, b.height, stxos);
    TracksThen(v, f, w, AllCreated(b.txs));
    RemembersMore(v, w, t, AllCreated(b.txs));
  }

  // A committed block in a view without spent entries.
  lemma CommitPasses(v: Entries, store: Utxos, u0: Utxos, b: Block)
    requires WellOrdered(b) && Identified(store, b.txs) && StandsFor(v, store, store) && Remembers(v, {})
    requires Connectable(u0, b.txs, b.height) && NoOverwrite(u0, b.txs)
    ensures var c := ConnectAll(FetchedView(v, store, b), b.txs, b.height);
      && (c.Some? <==> Connectable(store, b.txs, b.height))
      && (c.Some? ==> StandsFor(c.value.entries, store, ApplyBlock(store, b))
                      && c.value.coins == Spends(store, b.txs, b.height))
  {
    hide FetchedView, Remembers, Held, ConnectAll, WellOrdered, MidBlock, Connectable;
    var f := FetchedView(v, store, b);
    ConnectAllPresent(f, u0, b);
    ConnectableElsewhere(u0, store, b);
    forall o | o in OutsideInputs(b.txs) ensures Held(f, o) <==> o in store {
      HeldIff(v, store, store, b, {}, o);
    }
    if ConnectAll(f, b.txs, b.height).Some? {
      FetchedMidBlock(v, store, store, b);
      ConnectAllMeans(f, store, store, b);
    }
  }

  /** A list of blocks on top of a fork */

  // The outputs of the blocks taken off.
  function GoneSet(bs: seq<Block>): set<OutPoint> {
    if bs == [] then {} else GoneSet(bs[..|bs| - 1]) + AllCreated(bs[|bs| - 1].txs)
  }

  // What the dry run remembers: the outputs of the blocks taken off, and what the blocks
  // put on so far have spent.
  function Touched(gone: set<OutPoint>, bs: seq<Block>): set<OutPoint> {
    if bs == [] then gone else Touched(gone, bs[..|bs| - 1]) + BlockInputs(bs[|bs| - 1].txs)
  }

  ghost predicate PassAt(p: Params, known: seq<bool>, fork: seq<Block>, bs: seq<Block>, gone: set<OutPoint>, j: nat)
    requires j < |bs| == |known|
  {
    PassesDry(p, known[j], Replay(fork + bs[..j]), Touched(gone, bs[..j]), bs[j])
  }

  ghost predicate AllPass(p: Params, known: seq<bool>, fork: seq<Block>, bs: seq<Block>, gone: set<OutPoint>, n: nat)
    requires n <= |bs| == |known|
  {
    forall j :: 0 <= j < n ==> PassAt(p, known, fork, bs, gone, j)
  }

  // The dry run stops at block j.
  ghost predicate StopsAt(p: Params, known: seq<bool>, fork: seq<Block>, bs: seq<Block>, gone: set<OutPoint>, j: nat)
    requires |bs| == |known|
  {
    j < |bs| && AllPass(p, known, fork, bs, gone, j) && !PassAt(p, known, fork, bs, gone, j)
  }

  ghost predicate ConnectsAt(fork: seq<Block>, bs: seq<Block>, j: nat)
    requires j < |bs|
  {
    Connectable(Replay(fork + bs[..j]), bs[j].txs, bs[j].height)
  }

  ghost predicate AllConnect(fork: seq<Block>, bs: seq<Block>, n: nat)
    requires n <= |bs|
  {
    forall j :: 0 <= j < n ==> ConnectsAt(fork, bs, j)
  }

  // The commit stops at block j.
  ghost predicate BreaksAt(fork: seq<Block>, bs: seq<Block>, j: nat) {
    j < |bs| && AllConnect(fork, bs, j) && !ConnectsAt(fork, bs, j)
  }

  /** Honest flags */

  // Where flagged blocks are valid, passing is being valid.
  lemma HonestPass(p: Params, known: bool, u: Utxos, t: set<OutPoint>, b: Block)
    requires known ==> ValidBlock(p, u, b)
    ensures PassesDry(p, known, u, t, b) <==> ValidBlock(p, u, b)
    ensures ValidBlock(p, u, b) ==> Connectable(u, b.txs, b.height)
  {
    if ValidBlock(p, u, b) {
      TxsOkConnectable(u, b.txs, b.height, p.maturity);
      ConnectableElsewhere(u, u, b);
    }
  }

  // Block j is the first of bs that is not valid at its turn.
  ghost predicate FirstInvalid(p: Params, fork: seq<Block>, bs: seq<Block>, j: nat)
    requires j < |bs|
  {
    ValidChain(p, fork + bs[..j]) && !ValidBlock(p, Replay(fork + bs[..j]), bs[j])
  }

  lemma InvalidNotChain(p: Params, fork: seq<Block>, bs: seq<Block>, j: nat)
    requires fork != [] && j < |bs| && FirstInvalid(p, fork, bs, j)
    ensures !ValidChain(p, fork + bs)
  {
    var c := fork + bs;
    assert c[..|fork| + j] == fork + bs[..j];
    assert !SoundAt(p, c, |fork| + j);
  }

  // Every flagged block is valid at its turn.
  ghost predicate FlagsHold(p: Params, known: seq<bool>, fork: seq<Block>, bs: seq<Block>)
    requires |known| == |bs|
  {
    forall j :: 0 <= j < |bs| && known[j] ==> ValidBlock(p, Replay(fork + bs[..j]), bs[j])
  }

  ghost predicate AllLinked(fork: seq<Block>, bs: seq<Block>) {
    forall j :: 0 <= j < |bs| ==> Linked(fork + bs[..j], bs[j])
  }

  lemma {:induction false} PassedValid(p: Params, known: seq<bool>, fork: seq<Block>, bs: seq<Block>,
                                       gone: set<OutPoint>, n: nat)
    requires n <= |bs| == |known| && FlagsHold(p, known, fork, bs) && AllLinked(fork, bs)
    requires ValidChain(p, fork) && AllPass(p, known, fork, bs, gone, n)
    ensures ValidChain(p, fork + bs[..n]) && AllConnect(fork, bs, n)
  {
    hide ValidBlock, Linked, Connectable, PassesDry, ValidChain, Touched, Replay;
    if n == 0 {
      TakeNone(fork, bs);
    } else {
      PassedValid(p, known, fork, bs, gone, n - 1);
      assert PassAt(p, known, fork, bs, gone, n - 1);
      HonestPass(p, known[n - 1], Replay(fork + bs[..n - 1]), Touched(gone, bs[..n - 1]), bs[n - 1]);
      TakeOneMore(fork, bs, n - 1);
      ChainNotEmpty(p, fork + bs[..n - 1]);
      ExtendChain(p, fork + bs[..n - 1], bs[n - 1]);
    }
  }

  lemma ChainNotEmpty(p: Params, bs: seq<Block>)
    requires ValidChain(p, bs)
    ensures bs != []
  {
  }

  /** With honest flags a passing dry run is a valid chain that commits, and a failing one
      stops at the first invalid block, which is not flagged. */
  lemma HonestRun(p: Params, known: seq<bool>, fork: seq<Block>, bs: seq<Block>, gone: set<OutPoint>)
    requires |bs| == |known| && FlagsHold(p, known, fork, bs) && AllLinked(fork, bs) && ValidChain(p, fork)
    ensures AllPass(p, known, fork, bs, gone, |bs|) <==> ValidChain(p, fork + bs)
    ensures AllPass(p, known, fork, bs, gone, |bs|) ==> AllConnect(fork, bs, |bs|)
    ensures forall j: nat :: StopsAt(p, known, fork, bs, gone, j) ==> !known[j] && FirstInvalid(p, fork, bs, j)
  {
    hide ValidBlock, Linked, Connectable, PassesDry, ValidChain, Touched, Replay, PassAt, AllConnect, FirstInvalid;
    TakeAll(bs);
    ChainNotEmpty(p, fork);
    if AllPass(p, known, fork, bs, gone, |bs|) {
      PassedValid(p, known, fork, bs, gone, |bs|);
    }
    forall j: nat | StopsAt(p, known, fork, bs, gone, j)
      ensures !known[j] && FirstInvalid(p, fork, bs, j)
    {
      StopInvalid(p, known, fork, bs, gone, j);
    }
    if !AllPass(p, known, fork, bs, gone, |bs|) {
      var j := FirstStop(p, known, fork, bs, gone, |bs|);
      StopInvalid(p, known, fork, bs, gone, j);
      InvalidNotChain(p, fork, bs, j);
    }
  }

  lemma StopInvalid(p: Params, known: seq<bool>, fork: seq<Block>, bs: seq<Block>, gone: set<OutPoint>, j: nat)
    requires |bs| == |known| && FlagsHold(p, known, fork, bs) && AllLinked(fork, bs) && ValidChain(p, fork)
    requires StopsAt(p, known, fork, bs, gone, j)
    ensures !known[j] && FirstInvalid(p, fork, bs, j)
  {
    hide ValidBlock, Linked, Connectable, PassesDry, ValidChain, Touched, Replay;
    PassedValid(p, known, fork, bs, gone, j);
    HonestPass(p, known[j], Replay(fork + bs[..j]), Touched(gone, bs[..j]), bs[j]);
  }

  lemma {:induction false} FirstStop(p: Params, known: seq<bool>, fork: seq<Block>, bs: seq<Block>,
                                     gone: set<OutPoint>, n: nat)
    returns (j: nat)
    requires n <= |bs| == |known| && !AllPass(p, known, fork, bs, gone, n)
    ensures StopsAt(p, known, fork, bs, gone, j)
  {
    hide PassAt;
    if AllPass(p, known, fork, bs, gone, n - 1) {
      j := n - 1;
    } else {
      j := FirstStop(p, known, fork, bs, gone, n - 1);
    }
  }
}
