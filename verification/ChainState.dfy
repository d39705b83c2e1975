/** The stored chain state: utxo set, spend journal, hash and height indexes and the
    transaction total.  Connecting and disconnecting write all of them; over any run the
    stored state is the one replayed from genesis along the current main chain. */
module ChainState {
  import opened Types
  import opened Ledger
  import opened Validate

  datatype Db = Db(utxos: Utxos,
                   journal: map<Hash, seq<Coin>>,
                   hashIndex: map<Hash, int>,
                   heightIndex: map<int, Hash>,
                   totalTxns: int)

  function BlockSpends(u: Utxos, b: Block): seq<Coin> {
    if Connectable(u, b.txs, b.height) then Spends(u, b.txs, b.height) else []
  }

  /** Reference: the state determined by a chain of blocks, genesis first.  The genesis
      coinbase is never inserted, so its replay is the empty set. */

  function Replay(bs: seq<Block>): Utxos {
    if |bs| <= 1 then map[] else ApplyBlock(Replay(bs[..|bs| - 1]), bs[|bs| - 1])
  }

  predicate Linked(bs: seq<Block>, b: Block) {
    && bs != []
    && b.prev == bs[|bs| - 1].hash
    && b.height == |bs|
    && (forall i :: 0 <= i < |bs| ==> bs[i].hash != b.hash)
  }

  // Block i sits on the blocks below it and is valid on their replay.
  predicate SoundAt(p: Params, bs: seq<Block>, i: nat)
    requires 1 <= i < |bs|
  {
    Linked(bs[..i], bs[i]) && ValidBlock(p, Replay(bs[..i]), bs[i])
  }

  predicate ValidChain(p: Params, bs: seq<Block>) {
    && bs != [] && bs[0].height == 0
    && forall i :: 1 <= i < |bs| ==> SoundAt(p, bs, i)
  }

  // A block that can be replayed on u and undone again, whatever its other rules.
  predicate Replays(u: Utxos, b: Block) {
    WellOrdered(b) && NoOverwrite(u, b.txs) && Connectable(u, b.txs, b.height)
  }

  predicate ReplaysAt(bs: seq<Block>, i: nat)
    requires 1 <= i < |bs|
  {
    Linked(bs[..i], bs[i]) && Replays(Replay(bs[..i]), bs[i])
  }

  predicate ReplayChain(bs: seq<Block>) {
    && bs != [] && bs[0].height == 0
    && forall i :: 1 <= i < |bs| ==> ReplaysAt(bs, i)
  }

  lemma ValidReplays(p: Params, bs: seq<Block>)
    requires ValidChain(p, bs)
    ensures ReplayChain(bs)
  {
    forall i | 1 <= i < |bs| ensures ReplaysAt(bs, i) {
      assert SoundAt(p, bs, i);
      TxsOkConnectable(Replay(bs[..i]), bs[i].txs, bs[i].height, p.maturity);
    }
  }

  function SpendJournal(bs: seq<Block>): map<Hash, seq<Coin>> {
    if |bs| <= 1 then map[]
    else
      var init, b := bs[..|bs| - 1], bs[|bs| - 1];
      SpendJournal(init)[b.hash := BlockSpends(Replay(init), b)]
  }

  function TotalTxns(bs: seq<Block>): nat {
    if bs == [] then 0 else TotalTxns(bs[..|bs| - 1]) + |bs[|bs| - 1].txs|
  }

  ghost predicate IndexesMatch(db: Db, bs: seq<Block>) {
    && (forall h :: h in db.hashIndex <==> exists i :: 0 <= i < |bs| && bs[i].hash == h)
    && (forall i :: 0 <= i < |bs| ==> bs[i].hash in db.hashIndex && db.hashIndex[bs[i].hash] == i)
    && (forall i :: i in db.heightIndex <==> 0 <= i < |bs|)
    && (forall i :: 0 <= i < |bs| ==> db.heightIndex[i] == bs[i].hash)
  }

  // The stored state is exactly the one the main chain determines.
  ghost predicate Recorded(db: Db, bs: seq<Block>) {
    && db.utxos == Replay(bs)
    && db.journal == SpendJournal(bs)
    && IndexesMatch(db, bs)
    && db.totalTxns == TotalTxns(bs)
  }

  ghost predicate Mirrors(p: Params, db: Db, bs: seq<Block>) {
    ValidChain(p, bs) && Recorded(db, bs)
  }

  /** The database writes */

  function GenesisDb(g: Block): Db {
    Db(map[], map[], map[g.hash := 0], map[0 := g.hash], |g.txs|)
  }

  // connectBlock, given the utxo set the prepared view stands for.
  function ConnectDb(db: Db, b: Block, utxos: Utxos, stxos: seq<Coin>): Db {
    Db(utxos,
       db.journal[b.hash := stxos],
       db.hashIndex[b.hash := b.height],
       db.heightIndex[b.height := b.hash],
       db.totalTxns + |b.txs|)
  }

  // disconnectBlock, likewise.
  function DisconnectDb(db: Db, b: Block, utxos: Utxos): Db {
    Db(utxos,
       db.journal - {b.hash},
       db.hashIndex - {b.hash},
       db.heightIndex - {b.height},
       db.totalTxns - |b.txs|)
  }

  lemma {:induction false} JournalKeys(bs: seq<Block>)
    requires bs != []
    ensures forall h :: h in SpendJournal(bs) <==> exists i :: 1 <= i < |bs| && bs[i].hash == h
  {
    if |bs| > 1 {
      var init := bs[..|bs| - 1];
      JournalKeys(init);
      forall h
        ensures h in SpendJournal(bs) <==> exists i :: 1 <= i < |bs| && bs[i].hash == h
      {
        if h in SpendJournal(init) {
          var i :| 1 <= i < |init| && init[i].hash == h;
          assert bs[i].hash == h;
        }
        if i :| 1 <= i < |bs| && bs[i].hash == h {
          if i < |bs| - 1 { assert init[i].hash == h; }
        }
      }
    }
  }

  lemma IndexesConnect(db: Db, bs: seq<Block>, b: Block, utxos: Utxos, stxos: seq<Coin>)
    requires IndexesMatch(db, bs) && Linked(bs, b)
    ensures IndexesMatch(ConnectDb(db, b, utxos, stxos), bs + [b])
  {
    var db', bs' := ConnectDb(db, b, utxos, stxos), bs + [b];
    forall h
      ensures h in db'.hashIndex <==> exists i :: 0 <= i < |bs'| && bs'[i].hash == h
    {
      if h in db.hashIndex {
        var i :| 0 <= i < |bs| && bs[i].hash == h;
        assert bs'[i].hash == h;
      }
      if h == b.hash {
        assert bs'[|bs|].hash == h;
      }
    }
  }

  lemma IndexesDisconnect(db: Db, bs: seq<Block>, utxos: Utxos)
    requires |bs| > 1 && IndexesMatch(db, bs) && Linked(bs[..|bs| - 1], bs[|bs| - 1])
    ensures IndexesMatch(DisconnectDb(db, bs[|bs| - 1], utxos), bs[..|bs| - 1])
  {
    var b, init := bs[|bs| - 1], bs[..|bs| - 1];
    var db' := DisconnectDb(db, b, utxos);
    forall h
      ensures h in db'.hashIndex <==> exists i :: 0 <= i < |init| && init[i].hash == h
    {
      if h in db'.hashIndex {
        var i :| 0 <= i < |bs| && bs[i].hash == h;
        assert init[i].hash == h;
      }
      if i :| 0 <= i < |init| && init[i].hash == h {
        assert bs[i].hash == h;
      }
    }
  }

  lemma PrefixSound(p: Params, bs: seq<Block>, n: nat, i: nat)
    requires 1 <= i < n <= |bs|
    ensures SoundAt(p, bs[..n], i) <==> SoundAt(p, bs, i)
  {
    assert bs[..n][..i] == bs[..i];
  }

  lemma PrefixValid(p: Params, bs: seq<Block>, n: nat)
    requires ValidChain(p, bs) && 1 <= n <= |bs|
    ensures ValidChain(p, bs[..n])
  {
    forall i | 1 <= i < n
      ensures SoundAt(p, bs[..n], i)
    {
      PrefixSound(p, bs, n, i);
    }
  }

  lemma PrefixReplays(bs: seq<Block>, n: nat)
    requires ReplayChain(bs) && 1 <= n <= |bs|
    ensures ReplayChain(bs[..n])
  {
    forall i | 1 <= i < n
      ensures ReplaysAt(bs[..n], i)
    {
      assert bs[..n][..i] == bs[..i];
      assert ReplaysAt(bs, i);
    }
  }

  lemma ExtendReplay(bs: seq<Block>, b: Block)
    requires bs != []
    ensures Replay(bs + [b]) == ApplyBlock(Replay(bs), b)
    ensures SpendJournal(bs + [b]) == SpendJournal(bs)[b.hash := BlockSpends(Replay(bs), b)]
    ensures TotalTxns(bs + [b]) == TotalTxns(bs) + |b.txs|
    ensures ReplayChain(bs) && Linked(bs, b) && Replays(Replay(bs), b) ==> ReplayChain(bs + [b])
  {
    var bs' := bs + [b];
    assert bs'[..|bs|] == bs && bs'[|bs|] == b;
    if ReplayChain(bs) && Linked(bs, b) && Replays(Replay(bs), b) {
      forall i | 1 <= i < |bs'|
        ensures ReplaysAt(bs', i)
      {
        if i < |bs| {
          assert bs'[..i] == bs[..i];
          assert ReplaysAt(bs, i);
        }
      }
    }
  }

  lemma ExtendChain(p: Params, bs: seq<Block>, b: Block)
    requires bs != []
    ensures Replay(bs + [b]) == ApplyBlock(Replay(bs), b)
    ensures SpendJournal(bs + [b]) == SpendJournal(bs)[b.hash := BlockSpends(Replay(bs), b)]
    ensures TotalTxns(bs + [b]) == TotalTxns(bs) + |b.txs|
    ensures ValidChain(p, bs) && Linked(bs, b) && ValidBlock(p, Replay(bs), b) ==> ValidChain(p, bs + [b])
  {
    ExtendReplay(bs, b);
    var bs' := bs + [b];
    assert bs'[..|bs|] == bs && bs'[|bs|] == b;
    if ValidChain(p, bs) && Linked(bs, b) && ValidBlock(p, Replay(bs), b) {
      forall i | 1 <= i < |bs'|
        ensures SoundAt(p, bs', i)
      {
        if i < |bs| {
          PrefixSound(p, bs', |bs|, i);
        }
      }
    }
  }

  // A block on top of a recorded chain, written from a correctly prepared view.
  lemma ConnectRecorded(db: Db, bs: seq<Block>, b: Block)
    requires Recorded(db, bs) && Linked(bs, b)
    ensures Recorded(ConnectDb(db, b, ApplyBlock(db.utxos, b), BlockSpends(db.utxos, b)), bs + [b])
  {
    hide IndexesMatch;
    ExtendReplay(bs, b);
    IndexesConnect(db, bs, b, ApplyBlock(db.utxos, b), BlockSpends(db.utxos, b));
  }

  lemma ConnectMirrors(p: Params, db: Db, bs: seq<Block>, b: Block)
    requires Mirrors(p, db, bs) && Linked(bs, b) && ValidBlock(p, db.utxos, b)
    ensures Mirrors(p, ConnectDb(db, b, ApplyBlock(db.utxos, b), BlockSpends(db.utxos, b)), bs + [b])
  {
    hide ValidChain, ValidBlock, Linked, IndexesMatch;
    LinkedNotEmpty(bs, b);
    ExtendChain(p, bs, b);
    ConnectRecorded(db, bs, b);
  }

  lemma LinkedNotEmpty(bs: seq<Block>, b: Block)
    requires Linked(bs, b)
    ensures bs != []
  {
  }

  // The journal entry of the tip undoes the tip.
  lemma TipUndo(bs: seq<Block>)
    requires |bs| > 1 && ReplayChain(bs)
    ensures bs[|bs| - 1].hash in SpendJournal(bs)
    ensures |SpendJournal(bs)[bs[|bs| - 1].hash]| == CountSpent(bs[|bs| - 1].txs)
    ensures UndoBlock(Replay(bs), bs[|bs| - 1], SpendJournal(bs)[bs[|bs| - 1].hash]) == Replay(bs[..|bs| - 1])
  {
    var init, b := bs[..|bs| - 1], bs[|bs| - 1];
    assert ReplaysAt(bs, |bs| - 1);
    DisconnectInvertsConnect(Replay(init), b);
  }

  lemma JournalDisconnect(bs: seq<Block>)
    requires |bs| > 1 && Linked(bs[..|bs| - 1], bs[|bs| - 1])
    ensures SpendJournal(bs) - {bs[|bs| - 1].hash} == SpendJournal(bs[..|bs| - 1])
  {
    JournalKeys(bs[..|bs| - 1]);
  }

  lemma DisconnectRecorded(db: Db, bs: seq<Block>)
    requires |bs| > 1 && Recorded(db, bs) && ReplayChain(bs)
    ensures var b := bs[|bs| - 1];
      && b.hash in db.journal && |db.journal[b.hash]| == CountSpent(b.txs)
      && Recorded(DisconnectDb(db, b, UndoBlock(db.utxos, b, db.journal[b.hash])), bs[..|bs| - 1])
  {
    var init, b := bs[..|bs| - 1], bs[|bs| - 1];
    TipUndo(bs);
    assert Linked(init, b) by { assert ReplaysAt(bs, |bs| - 1); }
    JournalDisconnect(bs);
    IndexesDisconnect(db, bs, UndoBlock(db.utxos, b, db.journal[b.hash]));
  }

  lemma DisconnectMirrors(p: Params, db: Db, bs: seq<Block>)
    requires |bs| > 1 && Mirrors(p, db, bs)
    ensures var b := bs[|bs| - 1];
      && b.hash in db.journal && |db.journal[b.hash]| == CountSpent(b.txs)
      && Mirrors(p, DisconnectDb(db, b, UndoBlock(db.utxos, b, db.journal[b.hash])), bs[..|bs| - 1])
  {
    hide ValidChain, Recorded, ReplayChain;
    ValidReplays(p, bs);
    DisconnectRecorded(db, bs);
    PrefixValid(p, bs, |bs| - 1);
  }

  /** Runs: any interleaving of connects and disconnects at the tip */

  datatype State = State(db: Db, main: seq<Block>)

  datatype Op = Connect(b: Block) | Disconnect

  predicate Enabled(p: Params, s: State, op: Op) {
    match op
    case Connect(b) => Linked(s.main, b) && ValidBlock(p, s.db.utxos, b)
    case Disconnect =>
      |s.main| > 1 &&
      var b := s.main[|s.main| - 1];
      b.hash in s.db.journal && |s.db.journal[b.hash]| == CountSpent(b.txs)
  }

  function Next(p: Params, s: State, op: Op): State
    requires Enabled(p, s, op)
  {
    match op
    case Connect(b) =>
      State(ConnectDb(s.db, b, ApplyBlock(s.db.utxos, b), BlockSpends(s.db.utxos, b)), s.main + [b])
    case Disconnect =>
      var b := s.main[|s.main| - 1];
      State(DisconnectDb(s.db, b, UndoBlock(s.db.utxos, b, s.db.journal[b.hash])), s.main[..|s.main| - 1])
  }

  predicate IsRun(p: Params, s: State, ops: seq<Op>)
    decreases |ops|
  {
    ops == [] || (Enabled(p, s, ops[0]) && IsRun(p, Next(p, s, ops[0]), ops[1..]))
  }

  function Final(p: Params, s: State, ops: seq<Op>): State
    requires IsRun(p, s, ops)
    decreases |ops|
  {
    if ops == [] then s else Final(p, Next(p, s, ops[0]), ops[1..])
  }

  lemma {:induction false} RunKeepsMirror(p: Params, s: State, ops: seq<Op>)
    requires Mirrors(p, s.db, s.main) && IsRun(p, s, ops)
    ensures Mirrors(p, Final(p, s, ops).db, Final(p, s, ops).main)
    decreases |ops|
  {
    hide Mirrors, ValidBlock, Linked, ApplyBlock, UndoBlock, BlockSpends, ConnectDb, DisconnectDb;
    if ops != [] {
      match ops[0] {
        case Connect(b) => ConnectMirrors(p, s.db, s.main, b);
        case Disconnect => DisconnectMirrors(p, s.db, s.main);
      }
      RunKeepsMirror(p, Next(p, s, ops[0]), ops[1..]);
    }
  }

  lemma GenesisMirrors(p: Params, g: Block)
    requires g.height == 0
    ensures Mirrors(p, GenesisDb(g), [g])
  {
  }

  /** After every run from genesis the stored state mirrors the main chain, and the tip
      above genesis can always be disconnected. */
  lemma RunInvariant(p: Params, g: Block, ops: seq<Op>)
    requires g.height == 0
    requires IsRun(p, State(GenesisDb(g), [g]), ops)
    ensures var s := Final(p, State(GenesisDb(g), [g]), ops);
      && Mirrors(p, s.db, s.main)
      && (|s.main| > 1 ==> Enabled(p, s, Disconnect))
  {
    hide Mirrors, ValidBlock, Linked, UndoBlock, DisconnectDb;
    GenesisMirrors(p, g);
    RunKeepsMirror(p, State(GenesisDb(g), [g]), ops);
    var s := Final(p, State(GenesisDb(g), [g]), ops);
    if |s.main| > 1 {
      DisconnectMirrors(p, s.db, s.main);
    }
  }

  // The chain determines the stored state completely.
  lemma MirrorUnique(p: Params, db: Db, other: Db, bs: seq<Block>)
    requires Mirrors(p, db, bs) && Mirrors(p, other, bs)
    ensures db == other
  {
    hide ValidChain, Replay, SpendJournal, TotalTxns, IndexesMatch;
    IndexesUnique(db, other, bs);
  }

  lemma IndexesUnique(db: Db, other: Db, bs: seq<Block>)
    requires IndexesMatch(db, bs) && IndexesMatch(other, bs)
    ensures db.hashIndex == other.hashIndex && db.heightIndex == other.heightIndex
  {
    forall h ensures h in db.hashIndex <==> h in other.hashIndex {
      assert h in db.hashIndex <==> exists i :: 0 <= i < |bs| && bs[i].hash == h;
    }
    forall h | h in db.hashIndex ensures db.hashIndex[h] == other.hashIndex[h] {
      var i :| 0 <= i < |bs| && bs[i].hash == h;
    }
    forall i ensures i in db.heightIndex <==> i in other.heightIndex {
      assert i in db.heightIndex <==> 0 <= i < |bs|;
    }
    forall i | i in db.heightIndex ensures db.heightIndex[i] == other.heightIndex[i] {
      assert 0 <= i < |bs|;
    }
  }

  /** Disconnecting a block just connected gives back the whole stored state: utxo set,
      journal, indexes and total. */
  lemma ConnectThenDisconnect(p: Params, s: State, b: Block)
    requires Mirrors(p, s.db, s.main) && Enabled(p, s, Connect(b))
    ensures var s' := Next(p, s, Connect(b));
      Enabled(p, s', Disconnect) && Next(p, s', Disconnect) == s
  {
    hide Mirrors, ValidBlock;
    ConnectMirrors(p, s.db, s.main, b);
    var s' := Next(p, s, Connect(b));
    DisconnectMirrors(p, s'.db, s'.main);
    assert s'.main[..|s'.main| - 1] == s.main;
    MirrorUnique(p, Next(p, s', Disconnect).db, s.db, s.main);
  }

  /** A block with nothing but a coinbase that claims no more than the subsidy connects to
      any chain, provided its id is new among the unspent outputs. */
  lemma CoinbaseOnlyConnects(p: Params, s: State, b: Block)
    requires Mirrors(p, s.db, s.main) && Linked(s.main, b)
    requires |b.txs| == 1 && IsCoinBase(b.txs[0]) && Sane(b.txs[0])
    requires OutSum(b.txs[0].outs) <= p.subsidy(b.height) <= MAX_INT64
    requires forall o :: o in s.db.utxos ==> o.hash != b.txs[0].hash
    requires b.hash != p.genesisHash && p.otherRules(b.hash)
    ensures Enabled(p, s, Connect(b))
  {
    hide Mirrors, Sane, OutSum;
    var u := s.db.utxos;
    assert b.txs == [b.txs[0]] && b.txs[..0] == [];
    assert WellOrdered(b);
    assert NoOverwrite(u, b.txs);
    assert TotalFees(u, [], b.height) == 0 && TxsOk(u, [], b.height, p.maturity);
    assert TotalFees(u, b.txs, b.height) == Fee(u, b.txs[0]);
    assert InputsOk(u, b.txs[0], b.height, p.maturity);
    assert CoinbaseOk(p, u, b);
  }

  // The two indexes are mutual inverses, and the journal holds one entry for each block
  // above genesis: the coins it spent, in order.
  lemma MirrorIndexes(p: Params, db: Db, bs: seq<Block>, h: Hash, i: int)
    requires Mirrors(p, db, bs)
    ensures h in db.hashIndex && db.hashIndex[h] == i <==> i in db.heightIndex && db.heightIndex[i] == h
  {
  }

  predicate DistinctHashes(bs: seq<Block>) {
    forall i, j :: 0 <= i < j < |bs| ==> bs[i].hash != bs[j].hash
  }

  lemma ChainHashesDistinct(bs: seq<Block>)
    requires ReplayChain(bs)
    ensures DistinctHashes(bs)
  {
    forall i, j | 0 <= i < j < |bs|
      ensures bs[i].hash != bs[j].hash
    {
      assert ReplaysAt(bs, j);
      assert bs[..j][i].hash != bs[j].hash;
    }
  }

  lemma {:induction false} JournalAt(bs: seq<Block>, i: nat)
    requires DistinctHashes(bs) && 1 <= i < |bs|
    ensures bs[i].hash in SpendJournal(bs)
    ensures SpendJournal(bs)[bs[i].hash] == BlockSpends(Replay(bs[..i]), bs[i])
  {
    var init := bs[..|bs| - 1];
    if i < |bs| - 1 {
      JournalAt(init, i);
      assert init[..i] == bs[..i];
    }
  }

  lemma MirrorJournal(p: Params, db: Db, bs: seq<Block>, i: nat)
    requires Mirrors(p, db, bs) && 1 <= i < |bs|
    ensures Connectable(Replay(bs[..i]), bs[i].txs, bs[i].height)
    ensures bs[i].hash in db.journal && db.journal[bs[i].hash] == Spends(Replay(bs[..i]), bs[i].txs, bs[i].height)
    ensures |db.journal| == |bs| - 1
  {
    ValidReplays(p, bs);
    ChainHashesDistinct(bs);
    JournalAt(bs, i);
    JournalSize(bs);
    assert ReplaysAt(bs, i);
  }

  lemma {:induction false} JournalSize(bs: seq<Block>)
    requires DistinctHashes(bs) && bs != []
    ensures |SpendJournal(bs)| == |bs| - 1
  {
    if |bs| > 1 {
      var init, b := bs[..|bs| - 1], bs[|bs| - 1];
      JournalSize(init);
      JournalKeys(init);
      assert SpendJournal(bs).Keys == SpendJournal(init).Keys + {b.hash};
      assert |SpendJournal(bs)| == |SpendJournal(bs).Keys|;
    }
  }

  /** Heights: every coin ever stored comes from a block above genesis, so the journal
      never holds the height-zero entries of the legacy format. */
  predicate AboveGenesis(u: Utxos) {
    forall o :: o in u ==> u[o].height > 0
  }

  lemma {:induction false} ApplyAboveGenesis(u: Utxos, txs: seq<Tx>, height: int)
    requires AboveGenesis(u) && height > 0
    ensures AboveGenesis(ApplyTxs(u, txs, height))
  {
    if txs != [] {
      ApplyAboveGenesis(u, txs[..|txs| - 1], height);
    }
  }

  lemma {:induction false} SpendsAboveGenesis(u: Utxos, txs: seq<Tx>, height: int)
    requires AboveGenesis(u) && height > 0 && Connectable(u, txs, height)
    ensures forall c :: c in Spends(u, txs, height) ==> c.height > 0
  {
    if txs != [] {
      SpendsAboveGenesis(u, txs[..|txs| - 1], height);
      ApplyAboveGenesis(u, txs[..|txs| - 1], height);
    }
  }

  lemma {:induction false} ReplayAboveGenesis(bs: seq<Block>)
    requires ReplayChain(bs)
    ensures AboveGenesis(Replay(bs))
  {
    if |bs| > 1 {
      assert ReplaysAt(bs, |bs| - 1);
      PrefixReplays(bs, |bs| - 1);
      ReplayAboveGenesis(bs[..|bs| - 1]);
      ApplyAboveGenesis(Replay(bs[..|bs| - 1]), bs[|bs| - 1].txs, bs[|bs| - 1].height);
    }
  }

  // Block m - 1 of a recorded chain can be undone from its journal entry, down to the
  // replay of the blocks below it.
  lemma JournalUndo(db: Db, bs: seq<Block>, m: nat)
    requires Recorded(db, bs) && ReplayChain(bs) && 1 < m <= |bs|
    ensures var b := bs[m - 1];
      && b.txs != [] && b.hash in db.journal && |db.journal[b.hash]| == CountSpent(b.txs)
      && (forall c :: c in db.journal[b.hash] ==> c.height != 0)
      && db.journal[b.hash] == BlockSpends(Replay(bs[..m - 1]), b)
      && b.prev == bs[m - 2].hash
      && UndoBlock(Replay(bs[..m]), b, db.journal[b.hash]) == Replay(bs[..m - 1])
  {
    hide ReplayChain, DistinctHashes, IndexesMatch, UndoBlock, BlockSpends, ApplyBlock, Replay, SpendJournal,
         CountSpent, TotalTxns;
    var bm := bs[..m];
    PrefixReplays(bs, m);
    TipUndo(bm);
    TipJournalAboveGenesis(bm);
    TipShape(bm);
    ChainHashesDistinct(bs);
    JournalAt(bs, m - 1);
    TakeTake(bs, m - 1, m);
  }

  lemma TipShape(bs: seq<Block>)
    requires |bs| > 1 && ReplayChain(bs)
    ensures var b := bs[|bs| - 1];
      && b.txs != [] && b.prev == bs[|bs| - 2].hash
      && b.hash in SpendJournal(bs) && SpendJournal(bs)[b.hash] == BlockSpends(Replay(bs[..|bs| - 1]), b)
  {
    hide Replay, BlockSpends;
    assert ReplaysAt(bs, |bs| - 1);
  }

  lemma TipJournalAboveGenesis(bs: seq<Block>)
    requires |bs| > 1 && ReplayChain(bs)
    ensures forall c :: c in SpendJournal(bs)[bs[|bs| - 1].hash] ==> c.height > 0
  {
    var init, b := bs[..|bs| - 1], bs[|bs| - 1];
    assert ReplaysAt(bs, |bs| - 1);
    PrefixReplays(bs, |bs| - 1);
    ReplayAboveGenesis(init);
    SpendsAboveGenesis(Replay(init), b.txs, b.height);
  }
}
