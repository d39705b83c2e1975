/** Spent coins of the old journal format.  Their height and coinbase flag are looked for
    among the outputs of the transaction that spent them, not of the one that created
    them, so they come back with the height of the block being undone. */
module LegacySpends {
  import opened Types
  import opened Ledger
  import opened UtxoView

  type Seek = Hash -> Option<Coin>

  // Off the coinbase, and of this height.
  predicate Plain(c: Coin, height: int) {
    c.height == height && !c.coinBase
  }

  // What the view holds of the transaction h came from a block of this height.
  ghost predicate HoldsOwn(v: Entries, h: Hash, height: int) {
    forall i: nat :: OutPoint(h, i) in v && v[OutPoint(h, i)].Some? ==> Plain(v[OutPoint(h, i)].value.coin, height)
  }

  predicate Holds(v: Entries, o: OutPoint) {
    o in v && v[o].Some?
  }

  ghost predicate HoldsNone(v: Entries, h: Hash) {
    forall i: nat :: !Holds(v, OutPoint(h, i))
  }

  // No input names an output of the transaction itself.
  predicate SpendsOthers(ins: seq<OutPoint>, h: Hash) {
    forall i :: 0 <= i < |ins| ==> ins[i].hash != h
  }

  function Stamp(c: Coin, height: int): Coin {
    if c.height != 0 then c else c.(height := height, coinBase := false)
  }

  function Stamped(coins: seq<Coin>, height: int): seq<Coin> {
    seq(|coins|, i requires 0 <= i < |coins| => Stamp(coins[i], height))
  }

  // The old format keeps amount and script, and may drop the rest.
  predicate Dropped(c: Coin, spent: Coin) {
    c == spent || c == spent.(height := 0, coinBase := false)
  }

  predicate AllDropped(coins: seq<Coin>, spent: seq<Coin>) {
    |coins| == |spent| && forall i :: 0 <= i < |coins| ==> spent[i].height != 0 && Dropped(coins[i], spent[i])
  }

  /** The search */

  lemma {:induction false} FirstEntryFinds(v: Entries, h: Hash, i: nat, k: nat, height: int)
    requires HoldsOwn(v, h, height) && i <= k < MAX_OUTPUTS_PER_BLOCK && Holds(v, OutPoint(h, k))
    ensures FirstEntry(v, h, i).Some? && Plain(FirstEntry(v, h, i).value.coin, height)
    decreases k - i
  {
    if !Holds(v, OutPoint(h, i)) {
      FirstEntryFinds(v, h, i + 1, k, height);
    }
  }

  lemma {:induction false} FirstEntryNone(v: Entries, h: Hash, i: nat)
    requires HoldsNone(v, h)
    ensures FirstEntry(v, h, i).None?
    decreases MAX_OUTPUTS_PER_BLOCK - i
  {
    assert !Holds(v, OutPoint(h, i));
    if i < MAX_OUTPUTS_PER_BLOCK {
      FirstEntryNone(v, h, i + 1);
    }
  }

  /** The inputs of one transaction */

  lemma {:induction false} InsStamped(v: Entries, h: Hash, ins: seq<OutPoint>, coins: seq<Coin>, seek: Seek,
                                      k: nat, height: int)
    requires |ins| == |coins| && SpendsOthers(ins, h)
    requires HoldsOwn(v, h, height) && k < MAX_OUTPUTS_PER_BLOCK && Holds(v, OutPoint(h, k))
    ensures ResurrectIns(v, h, ins, coins, seek) == Undoing(RestoreEntries(v, ins, Stamped(coins, height)), true)
    decreases |ins|
  {
    if ins != [] {
      var n := |ins| - 1;
      var held := Holding(v, ins[n]);
      FirstEntryFinds(held, h, 0, k, height);
      var e := Some(NewEntry(Stamp(coins[n], height)));
      assert Completed(held, h, coins[n], seek) == Some(Stamp(coins[n], height));
      assert held[ins[n] := e] == v[ins[n] := e];
      assert Stamped(coins, height)[..n] == Stamped(coins[..n], height);
      InsStamped(v[ins[n] := e], h, ins[..n], coins[..n], seek, k, height);
    }
  }

  lemma {:induction false} InsUnresolved(v: Entries, h: Hash, ins: seq<OutPoint>, coins: seq<Coin>, seek: Seek)
    requires |ins| == |coins| && SpendsOthers(ins, h)
    requires HoldsNone(v, h) && seek(h).None?
    ensures ResurrectIns(v, h, ins, coins, seek).ok <==> forall i :: 0 <= i < |coins| ==> coins[i].height != 0
    decreases |ins|
  {
    if ins != [] {
      var n := |ins| - 1;
      var held := Holding(v, ins[n]);
      FirstEntryNone(held, h, 0);
      if coins[n].height != 0 {
        InsUnresolved(held[ins[n] := Some(NewEntry(coins[n]))], h, ins[..n], coins[..n], seek);
      }
    }
  }

  /** One transaction */

  // A transaction with a spendable output finds it in the view.
  lemma ResurrectStamps(v: Entries, tx: Tx, k: nat, height: int, coins: seq<Coin>, seek: Seek)
    requires |coins| == |tx.ins| && SpendsOthers(tx.ins, tx.hash)
    requires k < MAX_OUTPUTS_PER_BLOCK && Creates(tx, OutPoint(tx.hash, k)) && HoldsOwn(v, tx.hash, height)
    ensures ResurrectTx(v, tx, false, height, coins, seek)
         == Undoing(UndoTxEntries(v, tx, false, height, Stamped(coins, height)), true)
  {
    hide IsUnspendable;
    var gone := GoneEntries(v, tx, false, height, |tx.outs|);
    GoneEntriesAt(v, tx, false, height, |tx.outs|, OutPoint(tx.hash, k));
    forall i: nat | Holds(gone, OutPoint(tx.hash, i))
      ensures Plain(gone[OutPoint(tx.hash, i)].value.coin, height)
    {
      GoneEntriesAt(v, tx, false, height, |tx.outs|, OutPoint(tx.hash, i));
    }
    InsStamped(gone, tx.hash, tx.ins, coins, seek, k, height);
  }

  // One without fails on the first such coin, if the store holds nothing of it either.
  lemma ResurrectFails(v: Entries, tx: Tx, height: int, coins: seq<Coin>, seek: Seek)
    requires |coins| == |tx.ins| && SpendsOthers(tx.ins, tx.hash)
    requires CreatedSet(tx) == {} && HoldsNone(v, tx.hash) && seek(tx.hash).None?
    ensures ResurrectTx(v, tx, false, height, coins, seek).ok <==> forall i :: 0 <= i < |coins| ==> coins[i].height != 0
  {
    hide IsUnspendable;
    var gone := GoneEntries(v, tx, false, height, |tx.outs|);
    forall i: nat ensures !Holds(gone, OutPoint(tx.hash, i)) {
      GoneEntriesAt(v, tx, false, height, |tx.outs|, OutPoint(tx.hash, i));
      assert OutPoint(tx.hash, i) !in CreatedSet(tx);
      assert !Holds(v, OutPoint(tx.hash, i));
    }
    InsUnresolved(gone, tx.hash, tx.ins, coins, seek);
  }

  /** What comes back */

  lemma {:induction false} RestoredAt(v: Entries, ins: seq<OutPoint>, coins: seq<Coin>, i: nat)
    requires |ins| == |coins| && i < |ins|
    requires forall j, k :: 0 <= j < k < |ins| ==> ins[j] != ins[k]
    ensures At(RestoreEntries(v, ins, coins), ins[i]) == Some(Some(NewEntry(coins[i])))
    decreases |ins|
  {
    var n := |ins| - 1;
    var w := v[ins[n] := Some(NewEntry(coins[n]))];
    if i < n {
      RestoredAt(w, ins[..n], coins[..n], i);
    } else {
      RestoredElsewhere(w, ins[..n], coins[..n], ins[n]);
    }
  }

  lemma {:induction false} RestoredElsewhere(v: Entries, ins: seq<OutPoint>, coins: seq<Coin>, o: OutPoint)
    requires |ins| == |coins| && o !in ins
    ensures At(RestoreEntries(v, ins, coins), o) == At(v, o)
    decreases |ins|
  {
    if ins != [] {
      var n := |ins| - 1;
      RestoredElsewhere(v[ins[n] := Some(NewEntry(coins[n]))], ins[..n], coins[..n], o);
    }
  }

  /** Undoing with a journal of the old format gives what the full one would exactly when
      every coin it dropped was created in the same block and off the coinbase. */
  lemma LegacyUndoExact(v: Entries, tx: Tx, k: nat, height: int, coins: seq<Coin>, spent: seq<Coin>, seek: Seek)
    requires |coins| == |tx.ins| && SpendsOthers(tx.ins, tx.hash) && DistinctInputs(tx) && AllDropped(coins, spent)
    requires k < MAX_OUTPUTS_PER_BLOCK && Creates(tx, OutPoint(tx.hash, k)) && HoldsOwn(v, tx.hash, height)
    ensures ResurrectTx(v, tx, false, height, coins, seek) == Undoing(UndoTxEntries(v, tx, false, height, spent), true)
       <==> forall i :: 0 <= i < |coins| && coins[i].height == 0 ==> Plain(spent[i], height)
  {
    hide IsUnspendable, GoneEntries, RestoreEntries, ResurrectTx;
    ResurrectStamps(v, tx, k, height, coins, seek);
    var gone := GoneEntries(v, tx, false, height, |tx.outs|);
    if forall i :: 0 <= i < |coins| && coins[i].height == 0 ==> Plain(spent[i], height) {
      forall i | 0 <= i < |coins| ensures Stamped(coins, height)[i] == spent[i] {
        assert Dropped(coins[i], spent[i]);
      }
      assert Stamped(coins, height) == spent;
    } else {
      var i :| 0 <= i < |coins| && coins[i].height == 0 && !Plain(spent[i], height);
      RestoredAt(gone, tx.ins, Stamped(coins, height), i);
      RestoredAt(gone, tx.ins, spent, i);
    }
  }
}
