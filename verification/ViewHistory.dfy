/** What a view remembers: which entries it holds, which of them are spent, and so when a
    block connects in it whatever the utxo set behind it. */
module ViewHistory {
  import opened Types
  import opened Ledger
  import opened UtxoView
  import opened Validate

  predicate Held(v: Entries, o: OutPoint) {
    o in v && v[o].Some?
  }

  predicate SpentAt(v: Entries, o: OutPoint) {
    Held(v, o) && v[o].value.spent
  }

  // From v to w no entry is lost, and only outpoints of t become spent.
  ghost predicate Tracks(v: Entries, w: Entries, t: set<OutPoint>) {
    forall o :: (Held(v, o) ==> Held(w, o)) && (SpentAt(w, o) ==> SpentAt(v, o) || o in t)
  }

  lemma TracksAll(v: Entries, w: Entries, x: Entries, s: set<OutPoint>, t: set<OutPoint>)
    requires Tracks(v, w, s) && Tracks(w, x, t)
    ensures Tracks(v, x, s + t)
  {
    hide Held, SpentAt;
  }

  lemma TracksOn(v: Entries, w: Entries, x: Entries)
    requires Tracks(v, w, {}) && Tracks(w, x, {})
    ensures Tracks(v, x, {})
  {
  }

  /** What a block spends and refers to */

  function BlockInputs(txs: seq<Tx>): set<OutPoint> {
    if txs == [] then {}
    else BlockInputs(txs[..|txs| - 1]) + if IsCoinBase(txs[|txs| - 1]) then {} else InputSet(txs[|txs| - 1])
  }

  lemma {:induction false} BlockInputsAt(txs: seq<Tx>, o: OutPoint)
    ensures o in BlockInputs(txs) <==> exists i :: 0 <= i < |txs| && !IsCoinBase(txs[i]) && o in txs[i].ins
  {
    if txs != [] {
      var n := |txs| - 1;
      BlockInputsAt(txs[..n], o);
      if i :| 0 <= i < |txs| && !IsCoinBase(txs[i]) && o in txs[i].ins {
        assert i < n ==> txs[..n][i] == txs[i];
      }
    }
  }

  // Inputs that name no transaction of the block.
  function OutsideInputs(txs: seq<Tx>): set<OutPoint> {
    set o | o in BlockInputs(txs) && o.hash !in TxIds(txs)
  }

  /** Connecting */

  lemma FreshTracks(v: Entries, tx: Tx, height: int)
    ensures Tracks(v, v + FreshEntries(tx, height, |tx.outs|), {})
    ensures forall o :: Creates(tx, o) ==> Held(v + FreshEntries(tx, height, |tx.outs|), o)
  {
    var w := v + FreshEntries(tx, height, |tx.outs|);
    forall o ensures At(w, o) == if Creates(tx, o) then Some(Some(NewEntry(CoinOf(tx, height, o)))) else At(v, o) {
      FreshEntriesAt(v, tx, height, |tx.outs|, o);
    }
    forall o ensures (Held(v, o) ==> Held(w, o)) && (SpentAt(w, o) ==> SpentAt(v, o)) {
      assert At(w, o) == if Creates(tx, o) then Some(Some(NewEntry(CoinOf(tx, height, o)))) else At(v, o);
    }
    forall o | Creates(tx, o) ensures Held(w, o) {
      assert At(w, o) == Some(Some(NewEntry(CoinOf(tx, height, o))));
    }
  }

  lemma ConnectTracks(v: Entries, tx: Tx, height: int)
    ensures Tracks(v, ConnectEntries(v, tx, height), if IsCoinBase(tx) then {} else InputSet(tx))
    ensures forall o :: Held(ConnectEntries(v, tx, height), o) ==> Held(v, o) || o in CreatedSet(tx)
    ensures forall o :: o in CreatedSet(tx) ==> Held(ConnectEntries(v, tx, height), o)
  {
    var w := ConnectEntries(v, tx, height);
    forall o
      ensures (Held(v, o) ==> Held(w, o)) && (Held(w, o) ==> Held(v, o) || o in CreatedSet(tx))
      ensures SpentAt(w, o) ==> SpentAt(v, o) || (!IsCoinBase(tx) && o in InputSet(tx))
      ensures o in CreatedSet(tx) ==> Held(w, o)
    {
      ConnectEntriesAt(v, tx, height, o);
    }
  }

  // A connected block leaves every input and every output it names in the view.
  lemma {:induction false} ConnectAllTracks(v: Entries, txs: seq<Tx>, height: int)
    requires ConnectAll(v, txs, height).Some?
    ensures var w := ConnectAll(v, txs, height).value.entries;
      && Tracks(v, w, BlockInputs(txs))
      && (forall o :: o in BlockInputs(txs) + AllCreated(txs) ==> Held(w, o))
      && (forall o :: Held(w, o) ==> Held(v, o) || o in AllCreated(txs))
  {
    hide Held, SpentAt, ConnectEntries;
    if txs != [] {
      var init, tx := txs[..|txs| - 1], txs[|txs| - 1];
      ConnectAllTracks(v, init, height);
      var before := ConnectAll(v, init, height).value.entries;
      ConnectTracks(before, tx, height);
      var w := ConnectAll(v, txs, height).value.entries;
      assert w == ConnectEntries(before, tx, height);
      TracksAll(v, before, w, BlockInputs(init), if IsCoinBase(tx) then {} else InputSet(tx));
      if !IsCoinBase(tx) {
        PresentHeld(before, tx.ins);
      }
    }
  }

  lemma PresentHeld(v: Entries, ins: seq<OutPoint>)
    ensures AllPresent(v, ins) <==> forall o :: o in ins ==> Held(v, o)
  {
  }

  // A block whose references inside itself replay somewhere connects in a view exactly
  // when the view holds an entry, spent or not, for every outpoint it needs from outside.
  lemma ConnectAllPresent(v: Entries, u: Utxos, b: Block)
    requires WellOrdered(b) && Connectable(u, b.txs, b.height) && NoOverwrite(u, b.txs)
    ensures ConnectAll(v, b.txs, b.height).Some? <==> forall o :: o in OutsideInputs(b.txs) ==> Held(v, o)
  {
    hide Held, ConnectAll, WellOrdered, NoOverwrite, Connectable;
    if ConnectAll(v, b.txs, b.height).Some? {
      ConnectAllTracks(v, b.txs, b.height);
      AllCreatedIds(b.txs);
    }
    if forall o :: o in OutsideInputs(b.txs) ==> Held(v, o) {
      PresentUpTo(v, u, b, |b.txs|);
      TakeAll(b.txs);
    }
  }

  lemma {:induction false} PresentUpTo(v: Entries, u: Utxos, b: Block, i: nat)
    requires WellOrdered(b) && Connectable(u, b.txs, b.height) && NoOverwrite(u, b.txs) && i <= |b.txs|
    requires forall o :: o in OutsideInputs(b.txs) ==> Held(v, o)
    ensures ConnectAll(v, b.txs[..i], b.height).Some?
  {
    hide ConnectAll, ConnectEntries, Held, SpentAt, AllPresent, WellOrdered, NoOverwrite, Connectable;
    if i == 0 {
      ConnectAllNone(v, b.txs, b.height);
    } else {
      PresentUpTo(v, u, b, i - 1);
      ConnectAllTracks(v, b.txs[..i - 1], b.height);
      var w := ConnectAll(v, b.txs[..i - 1], b.height).value.entries;
      var tx := b.txs[i - 1];
      if !IsCoinBase(tx) {
        forall o | o in tx.ins ensures Held(w, o) {
          InputKnown(u, b, i - 1, o);
        }
        PresentHeld(w, tx.ins);
      }
      TakeTake(b.txs, i - 1, i);
      TakeAll(b.txs[..i]);
      ConnectAllNext(v, b.txs[..i], i - 1, b.height);
    }
  }

  // An input is needed from outside, or was created by an earlier transaction.
  lemma InputKnown(u: Utxos, b: Block, i: nat, o: OutPoint)
    requires WellOrdered(b) && Connectable(u, b.txs, b.height) && NoOverwrite(u, b.txs)
    requires i < |b.txs| && !IsCoinBase(b.txs[i]) && o in b.txs[i].ins
    ensures o in OutsideInputs(b.txs) || o in AllCreated(b.txs[..i])
  {
    BlockInputsAt(b.txs, o);
    if o.hash in TxIds(b.txs) {
      SpendsStep(u, b.txs, i, b.height);
      assert o in ApplyTxs(u, b.txs[..i], b.height);
      ReplayKeys(u, b.txs[..i], b.height);
    }
  }

  // Whatever is spent or missing, a block that connects in a view leaves it meaning the
  // replayed set.
  lemma ConnectAllReplays(v: Entries, store: Utxos, u: Utxos, b: Block)
    requires WellOrdered(b) && MidBlock(v, store, u, b.txs, 0, b.height)
    requires ConnectAll(v, b.txs, b.height).Some?
    ensures var w := ConnectAll(v, b.txs, b.height).value.entries;
      Coherent(w, store) && Means(w, store, ApplyBlock(u, b), {})
  {
    hide MidBlock, ConnectAll, WellOrdered;
    TakeAll(b.txs);
    ReplaysUpTo(v, store, u, b, |b.txs|);
    MidBlockDone(ConnectAll(v, b.txs, b.height).value.entries, store, u, b);
  }

  lemma {:induction false} ReplaysUpTo(v: Entries, store: Utxos, u: Utxos, b: Block, i: nat)
    requires WellOrdered(b) && MidBlock(v, store, u, b.txs, 0, b.height) && i <= |b.txs|
    requires ConnectAll(v, b.txs, b.height).Some?
    ensures ConnectAll(v, b.txs[..i], b.height).Some?
    ensures MidBlock(ConnectAll(v, b.txs[..i], b.height).value.entries, store, u, b.txs, i, b.height)
  {
    hide MidBlock, ConnectAll, ConnectEntries, AllPresent, WellOrdered, ApplyTxs;
    if i == 0 {
      ConnectAllNone(v, b.txs, b.height);
    } else {
      ReplaysUpTo(v, store, u, b, i - 1);
      ConnectAllNext(v, b.txs, i - 1, b.height);
      InputsNotExempt(b, i - 1);
      MidBlockAdvance(ConnectAll(v, b.txs[..i - 1], b.height).value.entries, store, u, b, i - 1);
    }
  }

  lemma InputsNotExempt(b: Block, i: nat)
    requires WellOrdered(b) && i < |b.txs|
    ensures IsCoinBase(b.txs[i]) || forall o :: o in b.txs[i].ins ==> o !in AllCreated(b.txs) - AllCreated(b.txs[..i])
  {
    if !IsCoinBase(b.txs[i]) {
      forall o | o in b.txs[i].ins ensures o !in AllCreated(b.txs) - AllCreated(b.txs[..i]) {
        MidBlockKnown(b.txs, i, o);
      }
    }
  }

  /** Loading inputs */

  lemma {:induction false} FetchInsTracks(f: Fetching, v: Entries, txs: seq<Tx>, height: int, i: nat,
                                          ins: seq<OutPoint>)
    requires Tracks(v, f.entries, {}) && f.needed !! v.Keys && v.Keys <= f.entries.Keys
    ensures var g := FetchIns(f, txs, height, i, ins);
      Tracks(v, g.entries, {}) && g.needed !! v.Keys && v.Keys <= g.entries.Keys
  {
    hide Tracks, Position, FreshEntries;
    if ins != [] {
      FetchInsTracks(f, v, txs, height, i, ins[..|ins| - 1]);
      var g := FetchIns(f, txs, height, i, ins[..|ins| - 1]);
      var o := ins[|ins| - 1];
      match Position(txs, o.hash)
      case Some(k) =>
        FreshTracks(g.entries, txs[k], height);
        TracksOn(v, g.entries, g.entries + FreshEntries(txs[k], height, |txs[k].outs|));
      case None =>
    }
  }

  lemma {:induction false} FetchTxsTracks(f: Fetching, v: Entries, txs: seq<Tx>, height: int, n: nat)
    requires Tracks(v, f.entries, {}) && f.needed !! v.Keys && v.Keys <= f.entries.Keys && n <= |txs|
    ensures var g := FetchTxs(f, txs, height, n);
      Tracks(v, g.entries, {}) && g.needed !! v.Keys && v.Keys <= g.entries.Keys
  {
    hide Tracks, FetchIns;
    if n > 1 {
      FetchTxsTracks(f, v, txs, height, n - 1);
      FetchInsTracks(FetchTxs(f, txs, height, n - 1), v, txs, height, n - 1, txs[n - 1].ins);
    }
  }

  lemma FetchedTracks(v: Entries, w: Entries, store: Utxos, needed: set<OutPoint>)
    requires Tracks(v, w, {}) && needed !! v.Keys
    ensures Tracks(v, w + FetchedEntries(store, needed), {})
  {
    var x := w + FetchedEntries(store, needed);
    forall o ensures (Held(v, o) ==> Held(x, o)) && (SpentAt(x, o) ==> SpentAt(v, o)) {
    }
  }

  lemma FetchedViewTracks(v: Entries, store: Utxos, b: Block)
    ensures Tracks(v, FetchedView(v, store, b), {})
  {
    hide Tracks, FetchTxs;
    TracksSelf(v);
    FetchTxsTracks(Fetching(v, {}), v, b.txs, b.height, |b.txs|);
    var f := FetchTxs(Fetching(v, {}), b.txs, b.height, |b.txs|);
    FetchedTracks(v, f.entries, store, f.needed);
  }

  lemma TracksSelf(v: Entries)
    ensures Tracks(v, v, {})
  {
  }

  /** Undoing */

  lemma GoneTracks(v: Entries, tx: Tx, first: bool, height: int)
    ensures Tracks(v, GoneEntries(v, tx, first, height, |tx.outs|), CreatedSet(tx))
    ensures forall o :: o in CreatedSet(tx) ==> Held(GoneEntries(v, tx, first, height, |tx.outs|), o)
  {
    var w := GoneEntries(v, tx, first, height, |tx.outs|);
    forall o
      ensures (Held(v, o) ==> Held(w, o)) && (SpentAt(w, o) ==> SpentAt(v, o) || o in CreatedSet(tx))
      ensures o in CreatedSet(tx) ==> Held(w, o)
    {
      GoneEntriesAt(v, tx, first, height, |tx.outs|, o);
      assert o in CreatedSet(tx) <==> Creates(tx, o);
    }
  }

  lemma {:induction false} RestoreTracks(v: Entries, ins: seq<OutPoint>, coins: seq<Coin>)
    requires |ins| == |coins|
    ensures Tracks(v, RestoreEntries(v, ins, coins), {})
    decreases |ins|
  {
    if ins != [] {
      var n := |ins| - 1;
      RestoreTracks(v[ins[n] := Some(NewEntry(coins[n]))], ins[..n], coins[..n]);
    }
  }

  // Undoing a block leaves its outputs in the view, and spends nothing else.
  lemma {:induction false} UndoTracks(v: Entries, txs: seq<Tx>, height: int, coins: seq<Coin>)
    requires |coins| == CountSpent(txs)
    ensures Tracks(v, UndoEntries(v, txs, height, coins), AllCreated(txs))
    ensures forall o :: o in AllCreated(txs) ==> Held(UndoEntries(v, txs, height, coins), o)
    decreases |txs|
  {
    hide Held, SpentAt, GoneEntries, RestoreEntries;
    if txs == [] {
      TracksSelf(v);
    } else {
      var n := |txs| - 1;
      var cut := CountSpent(txs[..n]);
      var first, cs := n == 0, coins[cut..];
      UndoTxTracks(v, txs[n], first, height, cs);
      var w := UndoTxEntries(v, txs[n], first, height, cs);
      UndoTracks(w, txs[..n], height, coins[..cut]);
      TracksAll(v, w, UndoEntries(w, txs[..n], height, coins[..cut]), CreatedSet(txs[n]), AllCreated(txs[..n]));
    }
  }

  lemma UndoTxTracks(v: Entries, tx: Tx, first: bool, height: int, coins: seq<Coin>)
    requires !first ==> |coins| == |tx.ins|
    ensures Tracks(v, UndoTxEntries(v, tx, first, height, coins), CreatedSet(tx))
    ensures forall o :: o in CreatedSet(tx) ==> Held(UndoTxEntries(v, tx, first, height, coins), o)
  {
    hide Held, SpentAt, GoneEntries, RestoreEntries;
    GoneTracks(v, tx, first, height);
    if !first {
      var gone := GoneEntries(v, tx, first, height, |tx.outs|);
      RestoreTracks(gone, tx.ins, coins);
      TracksAll(v, gone, RestoreEntries(gone, tx.ins, coins), CreatedSet(tx), {});
      assert CreatedSet(tx) + {} == CreatedSet(tx);
    }
  }

  // A committed view holds no spent entry.
  lemma CommitNoneSpent(v: Entries, store: Utxos)
    requires Coherent(v, store)
    ensures forall o :: !SpentAt(CommitEntries(v), o)
  {
    forall o | o in CommitEntries(v) ensures !CommitEntries(v)[o].value.spent {
      assert CoherentAt(v[o], Get(store, o));
    }
  }

  /** Checking */

  // What is checked is connected.
  lemma {:induction false} CheckTxsConnects(v: Entries, txs: seq<Tx>, height: int, maturity: int)
    requires CheckTxs(v, txs, height, maturity).Some?
    ensures var c := CheckTxs(v, txs, height, maturity).value;
      ConnectAll(v, txs, height) == Some(Connected(c.entries, c.coins))
  {
    hide ConnectEntries, InputsOk, Shown, AllPresent;
    if txs != [] {
      var init, tx := txs[..|txs| - 1], txs[|txs| - 1];
      CheckTxsConnects(v, init, height, maturity);
      if !IsCoinBase(tx) {
        InputsOkPresent(CheckTxs(v, init, height, maturity).value.entries, tx, height, maturity);
      }
    }
  }

  // An accepted block leaves its inputs in the view, and spends nothing else.
  lemma VerdictTracks(p: Params, v: Entries, store: Utxos, b: Block)
    requires BlockVerdict(p, v, store, b).Some?
    ensures var w := BlockVerdict(p, v, store, b).value.entries;
      && Tracks(v, w, BlockInputs(b.txs))
      && forall o :: o in BlockInputs(b.txs) ==> Held(w, o)
  {
    hide Tracks, FetchedView, CheckTxs, OutputsFetched, Held;
    if p.bip30Checked(b) {
      OutputsTracks(v, store, b);
      FetchedVerdictTracks(p, OutputsFetched(v, store, b), store, b);
      TracksThen(v, OutputsFetched(v, store, b), BlockVerdict(p, v, store, b).value.entries, BlockInputs(b.txs));
    } else {
      FetchedVerdictTracks(p, v, store, b);
    }
  }

  lemma OutputsTracks(v: Entries, store: Utxos, b: Block)
    ensures Tracks(v, OutputsFetched(v, store, b), {})
  {
    TracksSelf(v);
    FetchedTracks(v, v, store, Outputs(b.txs) - v.Keys);
  }

  lemma TracksThen(v: Entries, w: Entries, x: Entries, t: set<OutPoint>)
    requires Tracks(v, w, {}) && Tracks(w, x, t)
    ensures Tracks(v, x, t)
  {
  }

  lemma FetchedVerdictTracks(p: Params, v: Entries, store: Utxos, b: Block)
    requires CheckFetched(p, v, store, b).Some?
    ensures var w := CheckFetched(p, v, store, b).value.entries;
      && Tracks(v, w, BlockInputs(b.txs))
      && forall o :: o in BlockInputs(b.txs) ==> Held(w, o)
  {
    hide Tracks, FetchedView, CheckTxs, Held;
    var f := FetchedView(v, store, b);
    FetchedViewTracks(v, store, b);
    CheckTxsConnects(f, b.txs, b.height, p.maturity);
    ConnectAllTracks(f, b.txs, b.height);
    TracksThen(v, f, CheckFetched(p, v, store, b).value.entries, BlockInputs(b.txs));
  }
}
